/**
 File trees, the protos that describe them, and content-addressed storage.
 */
module MerkleModel {
  import opened Wrappers
  import opened Content

  // Protos.

  datatype FileNode = FileNode(name: string, digest: Digest, isExecutable: bool)
  datatype SymlinkNode = SymlinkNode(name: string, target: string)
  datatype DirectoryNode = DirectoryNode(name: string, digest: Digest)
  datatype Directory = Directory(
    files: seq<FileNode>, symlinks: seq<SymlinkNode>, directories: seq<DirectoryNode>)
  datatype Tree = Tree(root: Directory, children: seq<Directory>)

  const EMPTY := Directory([], [], [])

  /** Protobuf encoding and the digest function, as parameters. `preimage` is not computed by
      anything: it names the one blob a digest stands for, which is how the absence of
      collisions is stated. */
  datatype Codec = Codec(
    marshal: Directory -> Bytes,
    unmarshal: Bytes -> Option<Directory>,
    marshalTree: Tree -> Bytes,
    hash: Bytes -> Digest,
    preimage: Digest -> Bytes)

  /** Decoding inverts encoding, and the digest has no collisions. */
  ghost predicate Lawful(c: Codec) {
    && (forall d :: c.unmarshal(c.marshal(d)) == Some(d))
    && (forall a :: c.preimage(c.hash(a)) == a)
  }

  function DirDigest(c: Codec, d: Directory): Digest {
    c.hash(c.marshal(d))
  }

  type Blobs = map<Digest, Bytes>

  /** Every key is the digest of its value. */
  ghost predicate Addressed(c: Codec, blobs: Blobs) {
    forall d :: d in blobs ==> c.hash(blobs[d]) == d
  }

  ghost predicate Extends(a: Blobs, b: Blobs) {
    forall d :: d in a ==> d in b && b[d] == a[d]
  }

  lemma ExtendsTransitive(a: Blobs, b: Blobs, c: Blobs)
    requires Extends(a, b) && Extends(b, c)
    ensures Extends(a, c)
  {
  }

  ghost predicate Holds(c: Codec, blobs: Blobs, data: Bytes) {
    c.hash(data) in blobs && blobs[c.hash(data)] == data
  }

  // File trees as the operating system lists them.

  /** A file is a name for an inode, which may have others; `exec` is the executable bit of the inode. */
  datatype Node = File(data: Bytes, exec: bool, inode: nat) | Symlink(target: string) | Dir(entries: seq<Entry>)
  datatype Entry = Entry(name: string, node: Node)

  /** The order in which ReadDir lists names. */
  predicate Less(a: string, b: string) {
    if b == "" then false
    else if a == "" then true
    else a[0] < b[0] || (a[0] == b[0] && Less(a[1..], b[1..]))
  }

  /** Names are totally ordered. */
  lemma {:induction false} LessTotal(a: string, b: string)
    ensures a != b <==> Less(a, b) || Less(b, a)
    ensures !(Less(a, b) && Less(b, a))
  {
    if a != "" && b != "" && a[0] == b[0] {
      LessTotal(a[1..], b[1..]);
      assert a == [a[0]] + a[1..] && b == [b[0]] + b[1..];
    }
  }

  lemma {:induction false} LessIrreflexive(a: string)
    ensures !Less(a, a)
  {
    if a != "" { LessIrreflexive(a[1..]); }
  }

  ghost predicate Listed(es: seq<Entry>) {
    && (forall i, j :: 0 <= i < j < |es| ==> Less(es[i].name, es[j].name))
    && (forall i :: 0 <= i < |es| && es[i].node.Dir? ==> Listed(es[i].node.entries))
  }

  // The directory proto of a listing, built entry by entry.

  function WithEntry(c: Codec, d: Directory, e: Entry): Directory
    decreases e
  {
    match e.node
    case File(data, exec, _) => d.(files := d.files + [FileNode(e.name, c.hash(data), exec)])
    case Symlink(target) => d.(symlinks := d.symlinks + [SymlinkNode(e.name, target)])
    case Dir(sub) => d.(directories := d.directories + [DirectoryNode(e.name, DirDigest(c, DirectoryOf(c, sub)))])
  }

  function DirectoryOf(c: Codec, es: seq<Entry>): Directory
    decreases es
  {
    if es == [] then EMPTY
    else
      var last := es[|es| - 1];
      WithEntry(c, DirectoryOf(c, es[..|es| - 1]), last)
  }

  /** The proper subdirectories, children before their parents. */
  function ChildrenOf(c: Codec, es: seq<Entry>): seq<Directory> {
    if es == [] then []
    else
      var last := es[|es| - 1];
      ChildrenOf(c, es[..|es| - 1])
      + if last.node.Dir? then ChildrenOf(c, last.node.entries) + [DirectoryOf(c, last.node.entries)] else []
  }

  /** All that staging the listing will fetch, other than the listing's own proto. */
  ghost predicate Uploaded(c: Codec, blobs: Blobs, es: seq<Entry>)
    decreases es
  {
    forall i :: 0 <= i < |es| ==> UploadedEntry(c, blobs, es[i])
  }

  ghost predicate UploadedEntry(c: Codec, blobs: Blobs, e: Entry)
    decreases e
  {
    match e.node
    case File(data, _, _) => Holds(c, blobs, data)
    case Symlink(_) => true
    case Dir(sub) => Holds(c, blobs, c.marshal(DirectoryOf(c, sub))) && Uploaded(c, blobs, sub)
  }

  function ChildrenAt(c: Codec, e: Entry): seq<Directory> {
    if e.node.Dir? then ChildrenOf(c, e.node.entries) + [DirectoryOf(c, e.node.entries)] else []
  }

  /** One more entry. */
  lemma Snoc(c: Codec, blobs: Blobs, es: seq<Entry>, e: Entry)
    ensures DirectoryOf(c, es + [e]) == WithEntry(c, DirectoryOf(c, es), e)
    ensures ChildrenOf(c, es + [e]) == ChildrenOf(c, es) + ChildrenAt(c, e)
    ensures Uploaded(c, blobs, es) && UploadedEntry(c, blobs, e) ==> Uploaded(c, blobs, es + [e])
  {
    assert (es + [e])[..|es|] == es;
  }

  lemma {:induction false} UploadedExtends(c: Codec, a: Blobs, b: Blobs, es: seq<Entry>)
    requires Uploaded(c, a, es) && Extends(a, b)
    ensures Uploaded(c, b, es)
    decreases es
  {
    forall i | 0 <= i < |es| ensures UploadedEntry(c, b, es[i]) {
      assert UploadedEntry(c, a, es[i]);
      if es[i].node.Dir? { UploadedExtends(c, a, b, es[i].node.entries); }
    }
  }

  // Trees whose executable bits change while they are read.

  /** The inodes of the files of a tree. */
  function InodesOf(es: seq<Entry>): set<nat> {
    if es == [] then {} else InodesOf(es[..|es| - 1]) + InodesAt(es[|es| - 1])
  }

  function InodesAt(e: Entry): set<nat> {
    match e.node
    case File(_, _, i) => {i}
    case Symlink(_) => {}
    case Dir(sub) => InodesOf(sub)
  }

  /** All names of an inode have its content. */
  ghost predicate Consistent(es: seq<Entry>, content: nat -> Bytes) {
    forall i :: 0 <= i < |es| ==> ConsistentEntry(es[i], content)
  }

  ghost predicate ConsistentEntry(e: Entry, content: nat -> Bytes) {
    match e.node
    case File(data, _, i) => data == content(i)
    case Symlink(_) => true
    case Dir(sub) => Consistent(sub, content)
  }

  /** A tree as it is found by a reader that goes through it in order and changes files on the way: `cleared` are the
      inodes that had lost their executable bit before, `linked` those that lose it when their first name is reached,
      and `visited` those of which a name was reached already. */
  function Seen(es: seq<Entry>, cleared: set<nat>, linked: set<nat>, visited: set<nat>): (seen: seq<Entry>)
    ensures |seen| == |es|
    decreases es, 1
  {
    if es == [] then []
    else
      var m := |es| - 1;
      Seen(es[..m], cleared, linked, visited) + [SeenEntry(es[m], cleared, linked, visited + InodesOf(es[..m]))]
  }

  function SeenEntry(e: Entry, cleared: set<nat>, linked: set<nat>, visited: set<nat>): Entry
    decreases e, 0
  {
    match e.node
    case File(data, exec, i) => Entry(e.name, File(data, exec && i !in cleared && !(i in linked && i in visited), i))
    case Symlink(_) => e
    case Dir(sub) => Entry(e.name, Dir(Seen(sub, cleared, linked, visited)))
  }

  lemma SeenStep(es: seq<Entry>, cleared: set<nat>, linked: set<nat>, visited: set<nat>, i: nat)
    requires i < |es|
    ensures Seen(es[..i + 1], cleared, linked, visited)
            == Seen(es[..i], cleared, linked, visited)
               + [SeenEntry(es[i], cleared, linked, visited + InodesOf(es[..i]))]
    ensures InodesOf(es[..i + 1]) == InodesOf(es[..i]) + InodesAt(es[i])
  {
    assert es[..i + 1][..i] == es[..i];
  }

  lemma {:induction false} SeenIndex(es: seq<Entry>, cleared: set<nat>, linked: set<nat>, visited: set<nat>, k: nat)
    requires k < |es|
    ensures Seen(es, cleared, linked, visited)[k] == SeenEntry(es[k], cleared, linked, visited + InodesOf(es[..k]))
  {
    var m := |es| - 1;
    if k < m {
      SeenIndex(es[..m], cleared, linked, visited, k);
      assert es[..m][..k] == es[..k];
    }
  }

  /** Only what happens to inodes visited so far matters. */
  lemma {:induction false} SeenSame(es: seq<Entry>, cleared: set<nat>, a: set<nat>, b: set<nat>, visited: set<nat>)
    requires a * (visited + InodesOf(es)) == b * (visited + InodesOf(es))
    ensures Seen(es, cleared, a, visited) == Seen(es, cleared, b, visited)
    decreases es
  {
    if es != [] {
      var m := |es| - 1;
      var pre, e, seen := es[..m], es[m], visited + InodesOf(es[..m]);
      Restrict(a, b, visited + InodesOf(es), visited + InodesOf(pre));
      SeenSame(pre, cleared, a, b, visited);
      match e.node
      case File(_, _, i) => Restrict(a, b, visited + InodesOf(es), seen + {i});
      case Symlink(_) =>
      case Dir(sub) =>
        Restrict(a, b, visited + InodesOf(es), seen + InodesOf(sub));
        SeenSame(sub, cleared, a, b, seen);
    }
  }

  lemma Restrict(a: set<nat>, b: set<nat>, whole: set<nat>, part: set<nat>)
    requires a * whole == b * whole && part <= whole
    ensures a * part == b * part
    ensures forall i :: i in part ==> (i in a <==> i in b)
  {
    forall i | i in part ensures i in a <==> i in b {
      assert i in a * whole <==> i in b * whole;
    }
  }
}

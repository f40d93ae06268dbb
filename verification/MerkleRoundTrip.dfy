/**
 Uploading a file tree and staging the returned root digest rebuilds the tree.
 */
module MerkleRoundTrip {
  import opened Wrappers
  import opened Content
  import opened MerkleModel
  import opened MerkleUpload
  import opened MerkleStage

  /** What a file tree has at a relative path. */
  function TreeAt(es: seq<Entry>, p: Path): Option<Node>
    decreases |p|
  {
    if p == [] then Some(Dir(es))
    else
      var e := FindEntry(es, p[0]);
      if e.None? then None
      else if |p| == 1 then Some(e.value.node)
      else if e.value.node.Dir? then TreeAt(e.value.node.entries, p[1..])
      else None
  }

  function FindEntry(es: seq<Entry>, n: string): Option<Entry> {
    if es == [] then None
    else if es[|es| - 1].name == n then Some(es[|es| - 1]) else FindEntry(es[..|es| - 1], n)
  }

  // The unfolding that an uploaded tree has.

  function UnfoldingOf(c: Codec, es: seq<Entry>): Unfolding
    decreases es, 1
  {
    Unfolded(DirectoryOf(c, es), SubsOf(c, es))
  }

  function SubsOf(c: Codec, es: seq<Entry>): seq<Unfolding>
    decreases es, 0
  {
    if es == [] then []
    else
      var last := es[|es| - 1];
      SubsOf(c, es[..|es| - 1]) + if last.node.Dir? then [UnfoldingOf(c, last.node.entries)] else []
  }

  /** Each child of the built proto comes from an entry of the listing. */
  lemma {:induction false} ProtoFromEntries(c: Codec, es: seq<Entry>)
    ensures var d := DirectoryOf(c, es);
            && |SubsOf(c, es)| == |d.directories|
            && (forall k :: 0 <= k < |d.files| ==> exists i :: 0 <= i < |es| && FileFrom(c, es[i], d.files[k]))
            && (forall k :: 0 <= k < |d.symlinks| ==> exists i :: 0 <= i < |es| && SymlinkFrom(es[i], d.symlinks[k]))
            && (forall k :: 0 <= k < |d.directories| ==>
                  exists i :: 0 <= i < |es| && DirectoryFrom(c, es[i], d.directories[k], SubsOf(c, es)[k]))
    decreases es
  {
    if es != [] {
      var pre, last := es[..|es| - 1], es[|es| - 1];
      ProtoFromEntries(c, pre);
      var d0, d := DirectoryOf(c, pre), DirectoryOf(c, es);
      assert d == WithEntry(c, d0, last);
      forall k | 0 <= k < |d.files| ensures exists i :: 0 <= i < |es| && FileFrom(c, es[i], d.files[k]) {
        if k < |d0.files| {
          var i :| 0 <= i < |pre| && FileFrom(c, pre[i], d0.files[k]);
          assert FileFrom(c, es[i], d.files[k]);
        } else {
          assert FileFrom(c, es[|es| - 1], d.files[k]);
        }
      }
      forall k | 0 <= k < |d.symlinks| ensures exists i :: 0 <= i < |es| && SymlinkFrom(es[i], d.symlinks[k]) {
        if k < |d0.symlinks| {
          var i :| 0 <= i < |pre| && SymlinkFrom(pre[i], d0.symlinks[k]);
          assert SymlinkFrom(es[i], d.symlinks[k]);
        } else {
          assert SymlinkFrom(es[|es| - 1], d.symlinks[k]);
        }
      }
      var subs0, subs := SubsOf(c, pre), SubsOf(c, es);
      forall k | 0 <= k < |d.directories|
        ensures exists i :: 0 <= i < |es| && DirectoryFrom(c, es[i], d.directories[k], subs[k]) {
        if k < |d0.directories| {
          var i :| 0 <= i < |pre| && DirectoryFrom(c, pre[i], d0.directories[k], subs0[k]);
          assert DirectoryFrom(c, es[i], d.directories[k], subs[k]);
        } else {
          assert DirectoryFrom(c, es[|es| - 1], d.directories[k], subs[k]);
        }
      }
    }
  }

  predicate FileFrom(c: Codec, e: Entry, f: FileNode) {
    e.node.File? && f == FileNode(e.name, c.hash(e.node.data), e.node.exec)
  }

  predicate SymlinkFrom(e: Entry, l: SymlinkNode) {
    e.node.Symlink? && l == SymlinkNode(e.name, e.node.target)
  }

  predicate DirectoryFrom(c: Codec, e: Entry, d: DirectoryNode, sub: Unfolding) {
    && e.node.Dir?
    && d == DirectoryNode(e.name, DirDigest(c, DirectoryOf(c, e.node.entries)))
    && sub == UnfoldingOf(c, e.node.entries)
  }

  /** Names in the proto lists are strictly sorted (the canonical form) and distinct across lists. */
  ghost predicate Canonical(d: Directory) {
    && (forall i, j :: 0 <= i < j < |d.files| ==> Less(d.files[i].name, d.files[j].name))
    && (forall i, j :: 0 <= i < j < |d.symlinks| ==> Less(d.symlinks[i].name, d.symlinks[j].name))
    && (forall i, j :: 0 <= i < j < |d.directories| ==> Less(d.directories[i].name, d.directories[j].name))
  }

  ghost predicate AllBefore(d: Directory, n: string) {
    && (forall k :: 0 <= k < |d.files| ==> Less(d.files[k].name, n) && d.files[k].name != n)
    && (forall k :: 0 <= k < |d.symlinks| ==> Less(d.symlinks[k].name, n) && d.symlinks[k].name != n)
    && (forall k :: 0 <= k < |d.directories| ==> Less(d.directories[k].name, n) && d.directories[k].name != n)
  }

  lemma CanonicalSnoc(c: Codec, d: Directory, e: Entry)
    requires Canonical(d) && AllBefore(d, e.name)
    ensures Canonical(WithEntry(c, d, e))
  {
  }

  lemma DistinctSnoc(c: Codec, d: Directory, e: Entry)
    requires DistinctNames(d) && AllBefore(d, e.name)
    ensures DistinctNames(WithEntry(c, d, e))
  {
  }

  lemma ListedBefore(c: Codec, es: seq<Entry>, n: string)
    requires forall i :: 0 <= i < |es| ==> Less(es[i].name, n)
    ensures AllBefore(DirectoryOf(c, es), n)
  {
    var d := DirectoryOf(c, es);
    ProtoFromEntries(c, es);
    LessIrreflexive(n);
    forall k | 0 <= k < |d.files| ensures Less(d.files[k].name, n) {
      var i :| 0 <= i < |es| && FileFrom(c, es[i], d.files[k]);
    }
    forall k | 0 <= k < |d.symlinks| ensures Less(d.symlinks[k].name, n) {
      var i :| 0 <= i < |es| && SymlinkFrom(es[i], d.symlinks[k]);
    }
    forall k | 0 <= k < |d.directories| ensures Less(d.directories[k].name, n) {
      var i :| 0 <= i < |es| && DirectoryFrom(c, es[i], d.directories[k], SubsOf(c, es)[k]);
    }
  }

  /** The proto of a listing is canonical: each list strictly name-sorted, no name in two lists. */
  lemma {:induction false} ListingCanonical(c: Codec, es: seq<Entry>)
    requires Listed(es)
    ensures Canonical(DirectoryOf(c, es)) && DistinctNames(DirectoryOf(c, es))
    decreases es
  {
    if es != [] {
      var n := |es| - 1;
      assert Listed(es[..n]);
      ListingCanonical(c, es[..n]);
      forall i | 0 <= i < n ensures Less(es[..n][i].name, es[n].name) { assert Less(es[i].name, es[n].name); }
      ListedBefore(c, es[..n], es[n].name);
      CanonicalSnoc(c, DirectoryOf(c, es[..n]), es[n]);
      DistinctSnoc(c, DirectoryOf(c, es[..n]), es[n]);
      assert DirectoryOf(c, es) == WithEntry(c, DirectoryOf(c, es[..n]), es[n]);
    }
  }

  lemma {:induction false} TreeWellNamed(c: Codec, es: seq<Entry>)
    requires Listed(es)
    ensures WellNamed(UnfoldingOf(c, es))
    decreases es
  {
    ListingCanonical(c, es);
    ProtoFromEntries(c, es);
    var m := UnfoldingOf(c, es);
    forall k | 0 <= k < |m.subs| ensures WellNamed(m.subs[k]) {
      var i :| 0 <= i < |es| && DirectoryFrom(c, es[i], m.dir.directories[k], m.subs[k]);
      TreeWellNamed(c, es[i].node.entries);
    }
  }

  /** The store unfolds the uploaded root digest to the uploaded tree, all of it fetchable. */
  lemma {:induction false} UploadedUnfolds(c: Codec, blobs: Blobs, es: seq<Entry>)
    requires Lawful(c) && Uploaded(c, blobs, es) && Holds(c, blobs, c.marshal(DirectoryOf(c, es)))
    ensures Unfolds(c, blobs, DirDigest(c, DirectoryOf(c, es)), UnfoldingOf(c, es))
    ensures Fetchable(blobs, UnfoldingOf(c, es))
    decreases es
  {
    ProtoFromEntries(c, es);
    var m := UnfoldingOf(c, es);
    forall k | 0 <= k < |m.dir.files| ensures m.dir.files[k].digest in blobs {
      var i :| 0 <= i < |es| && FileFrom(c, es[i], m.dir.files[k]);
      assert UploadedEntry(c, blobs, es[i]);
    }
    forall k | 0 <= k < |m.subs|
      ensures Unfolds(c, blobs, m.dir.directories[k].digest, m.subs[k]) && Fetchable(blobs, m.subs[k])
    {
      var i :| 0 <= i < |es| && DirectoryFrom(c, es[i], m.dir.directories[k], m.subs[k]);
      assert UploadedEntry(c, blobs, es[i]);
      UploadedUnfolds(c, blobs, es[i].node.entries);
    }
  }

  function ItemOf(c: Codec, n: Node): Item {
    match n
    case File(data, exec, _) => ItemFile(c.hash(data), exec)
    case Symlink(target) => ItemSymlink(target)
    case Dir(_) => ItemDir
  }

  /** The first component of a path decides: the listing and its proto agree on which child it names. */
  lemma {:induction false} FindAgrees(c: Codec, es: seq<Entry>, n: string)
    requires Listed(es)
    ensures var d, e := DirectoryOf(c, es), FindEntry(es, n);
            && |SubsOf(c, es)| == |d.directories|
            && (e.None? ==>
                  && FindFile(d.files, n).None? && FindSymlink(d.symlinks, n).None?
                  && FindDirectory(d.directories, n).None?)
            && (e.Some? && e.value.node.File? ==>
                  FindFile(d.files, n) == Some(FileNode(n, c.hash(e.value.node.data), e.value.node.exec)))
            && (e.Some? && e.value.node.Symlink? ==>
                  FindFile(d.files, n).None? && FindSymlink(d.symlinks, n) == Some(SymlinkNode(n, e.value.node.target)))
            && (e.Some? && e.value.node.Dir? ==>
                  var k := FindDirectory(d.directories, n);
                  && FindFile(d.files, n).None? && FindSymlink(d.symlinks, n).None?
                  && k.Some? && SubsOf(c, es)[k.value] == UnfoldingOf(c, e.value.node.entries))
    decreases es
  {
    if es != [] {
      var m := |es| - 1;
      var pre, last := es[..m], es[m];
      assert Listed(pre);
      FindAgrees(c, pre, n);
      var d0 := DirectoryOf(c, pre);
      assert DirectoryOf(c, es) == WithEntry(c, d0, last);
      if last.name == n {
        forall i | 0 <= i < m ensures Less(pre[i].name, n) { assert Less(es[i].name, es[m].name); }
        ListedBefore(c, pre, n);
        FindFileNone(d0.files, n);
        FindSymlinkNone(d0.symlinks, n);
      }
      FindSnoc(c, d0, last, n);
    }
  }

  lemma FindSnoc(c: Codec, d: Directory, e: Entry, n: string)
    ensures var d' := WithEntry(c, d, e);
            && FindFile(d'.files, n) == (if e.node.File? && e.name == n then Some(d'.files[|d.files|])
                                         else FindFile(d.files, n))
            && FindSymlink(d'.symlinks, n) == (if e.node.Symlink? && e.name == n then Some(d'.symlinks[|d.symlinks|])
                                               else FindSymlink(d.symlinks, n))
            && FindDirectory(d'.directories, n) == (if e.node.Dir? && e.name == n then Some(|d.directories|)
                                                    else FindDirectory(d.directories, n))
  {
    var d' := WithEntry(c, d, e);
    assert d'.files[..|d.files|] == d.files && d'.symlinks[..|d.symlinks|] == d.symlinks
           && d'.directories[..|d.directories|] == d.directories;
  }

  /** Path by path, the unfolding of an uploaded tree describes that tree. */
  lemma {:induction false} LookupAgrees(c: Codec, es: seq<Entry>, p: Path)
    requires Listed(es)
    ensures var t, l := TreeAt(es, p), Lookup(UnfoldingOf(c, es), p);
            if t.None? then l.None? else l == Some(ItemOf(c, t.value))
    decreases |p|
  {
    ProtoFromEntries(c, es);
    if p != [] {
      FindAgrees(c, es, p[0]);
      var e := FindEntry(es, p[0]);
      if e.Some? && e.value.node.Dir? {
        FindEntryListed(es, p[0]);
        LookupAgrees(c, e.value.node.entries, p[1..]);
      }
    }
  }

  lemma {:induction false} FindEntryListed(es: seq<Entry>, n: string)
    requires Listed(es) && FindEntry(es, n).Some? && FindEntry(es, n).value.node.Dir?
    ensures Listed(FindEntry(es, n).value.node.entries)
    decreases es
  {
    if es[|es| - 1].name != n {
      assert Listed(es[..|es| - 1]);
      FindEntryListed(es[..|es| - 1], n);
    }
  }

  /** What reading the file system at p yields, compared with a node of the original tree:
      same kind, same bytes, same target; copied files have the same executable bit and
      hard-linked ones have it if the original had. */
  predicate ReadsAs(nodes: map<Path, FsNode>, local: bool, casExec: set<Digest>, blobs: Blobs, p: Path,
                    want: Option<Node>)
  {
    match want
    case None => p !in nodes
    case Some(Dir(_)) => p in nodes && nodes[p].FsDir?
    case Some(Symlink(t)) => p in nodes && nodes[p] == FsSymlink(t)
    case Some(File(data, exec, _)) =>
      && p in nodes
      && match nodes[p] {
         case FsCopy(bytes, e) => bytes == data && e == exec
         case FsHard(d) => local && d in blobs && blobs[d] == data && (exec ==> d in casExec)
         case _ => false
         }
  }

  /** Round trip: for every listed tree, if all of it was uploaded and staging its root digest
      produced the image of the unfolding, then path by path the staged tree is the original. */
  lemma RoundTrip(c: Codec, blobs: Blobs, es: seq<Entry>, nodes: map<Path, FsNode>, local: bool, casExec: set<Digest>,
                  at: Path, p: Path)
    requires Lawful(c) && Addressed(c, blobs) && Listed(es) && Under(at, p)
    requires |SubsOf(c, es)| == |DirectoryOf(c, es).directories|
    requires Image(nodes, local, casExec, blobs, at, DirectoryOf(c, es), SubsOf(c, es))
    ensures ReadsAs(nodes, local, casExec, blobs, p, TreeAt(es, p[|at|..]))
  {
    var rel := p[|at|..];
    LookupAgrees(c, es, rel);
    assert Matches(nodes, local, casExec, blobs, p, LookupIn(DirectoryOf(c, es), SubsOf(c, es), rel));
    var t := TreeAt(es, rel);
    if t.Some? && t.value.File? {
      var d := c.hash(t.value.data);
      assert c.hash(blobs[d]) == d;
    }
  }

  /** Some file of the tree has this content and is executable. */
  ghost predicate ExecInTree(es: seq<Entry>, data: Bytes) {
    exists i :: 0 <= i < |es| && ExecInEntry(es[i], data)
  }

  ghost predicate ExecInEntry(e: Entry, data: Bytes) {
    match e.node
    case File(bytes, exec, _) => bytes == data && exec
    case Symlink(_) => false
    case Dir(sub) => ExecInTree(sub, data)
  }

  lemma {:induction false} ExecDigestsExact(c: Codec, es: seq<Entry>, data: Bytes)
    requires Lawful(c)
    ensures c.hash(data) in ExecDigests(UnfoldingOf(c, es)) <==> ExecInTree(es, data)
    decreases es
  {
    if es != [] {
      var m := |es| - 1;
      var pre, last := es[..m], es[m];
      ExecDigestsExact(c, pre, data);
      if last.node.Dir? { ExecDigestsExact(c, last.node.entries, data); }
      ExecSnoc(c, es);
      if ExecInTree(pre, data) {
        var i :| 0 <= i < m && ExecInEntry(pre[i], data);
        assert ExecInEntry(es[i], data);
      }
      if ExecInTree(es, data) && !ExecInEntry(last, data) {
        var i :| 0 <= i < |es| && ExecInEntry(es[i], data);
        assert pre[i] == es[i];
      }
    }
  }

  lemma ExecSnoc(c: Codec, es: seq<Entry>)
    requires es != []
    ensures var pre, last := es[..|es| - 1], es[|es| - 1];
            ExecDigests(UnfoldingOf(c, es)) == ExecDigests(UnfoldingOf(c, pre)) +
              match last.node
              case File(data, exec, _) => if exec then {c.hash(data)} else {}
              case Symlink(_) => {}
              case Dir(sub) => ExecDigests(UnfoldingOf(c, sub))
  {
    var pre, last := es[..|es| - 1], es[|es| - 1];
    var d0, d := DirectoryOf(c, pre), DirectoryOf(c, es);
    assert d == WithEntry(c, d0, last);
    var subs0, subs := SubsOf(c, pre), SubsOf(c, es);
    match last.node
    case File(data, exec, _) =>
      assert d.files[..|d.files| - 1] == d0.files && subs == subs0;
      assert ExecFiles(d.files) == ExecFiles(d0.files) + if exec then {c.hash(data)} else {};
    case Symlink(_) =>
      assert d.files == d0.files && subs == subs0;
    case Dir(sub) =>
      assert d.files == d0.files && subs[..|subs| - 1] == subs0 && subs[|subs| - 1] == UnfoldingOf(c, sub);
      assert ExecSubs(subs) == ExecSubs(subs0) + ExecDigests(UnfoldingOf(c, sub));
  }

  lemma {:induction false} FindEntryAt(es: seq<Entry>, n: string) returns (i: nat)
    requires FindEntry(es, n).Some?
    ensures i < |es| && es[i] == FindEntry(es, n).value
  {
    i := |es| - 1;
    if es[i].name != n { i := FindEntryAt(es[..i], n); }
  }

  lemma {:induction false} ExecutableInTree(es: seq<Entry>, p: Path)
    requires TreeAt(es, p).Some? && TreeAt(es, p).value.File? && TreeAt(es, p).value.exec
    ensures ExecInTree(es, TreeAt(es, p).value.data)
    decreases |p|
  {
    var i := FindEntryAt(es, p[0]);
    if |p| > 1 { ExecutableInTree(es[i].node.entries, p[1..]); }
    assert ExecInEntry(es[i], TreeAt(es, p).value.data);
  }

  /** The permission bits of a hard link are those of the CAS file, which any use of it may have made executable. */
  predicate HardlinkExecutable(nodes: map<Path, FsNode>, casExec: set<Digest>, p: Path)
    requires p in nodes && nodes[p].FsHard?
  {
    nodes[p].digest in casExec
  }

  /** A staged hard link has its original executable bit if and only if the original is executable, or neither an
      earlier use of that CAS file nor another file of the tree made the content executable. */
  ghost predicate BitExactly(c: Codec, es: seq<Entry>, nodes: map<Path, FsNode>, casExec0: set<Digest>,
                             casExec: set<Digest>, at: Path, p: Path)
    requires Under(at, p) && p in nodes && nodes[p].FsHard?
  {
    var t := TreeAt(es, p[|at|..]);
    && t.Some? && t.value.File?
    && ((HardlinkExecutable(nodes, casExec, p) <==> t.value.exec)
        <==> t.value.exec || (c.hash(t.value.data) !in casExec0 && !ExecInTree(es, t.value.data)))
  }

  lemma HardlinkedExecExact(c: Codec, blobs: Blobs, es: seq<Entry>, nodes: map<Path, FsNode>, casExec0: set<Digest>,
                            casExec: set<Digest>, at: Path, p: Path)
    requires Lawful(c) && Addressed(c, blobs) && Under(at, p) && p in nodes && nodes[p].FsHard?
    requires ReadsAs(nodes, true, casExec, blobs, p, TreeAt(es, p[|at|..]))
    requires casExec == casExec0 + ExecDigests(UnfoldingOf(c, es))
    ensures BitExactly(c, es, nodes, casExec0, casExec, at, p)
  {
    var t := TreeAt(es, p[|at|..]).value;
    assert nodes[p].digest == c.hash(t.data);
    ExecDigestsExact(c, es, t.data);
    if t.exec { ExecutableInTree(es, p[|at|..]); }
  }

  // Files that share an inode.

  lemma {:induction false} SeenListed(es: seq<Entry>, cleared: set<nat>, linked: set<nat>, visited: set<nat>)
    requires Listed(es)
    ensures Listed(Seen(es, cleared, linked, visited))
    ensures forall i :: 0 <= i < |es| ==> Seen(es, cleared, linked, visited)[i].name == es[i].name
    decreases es
  {
    var seen := Seen(es, cleared, linked, visited);
    forall i | 0 <= i < |es|
      ensures seen[i].name == es[i].name && (seen[i].node.Dir? ==> Listed(seen[i].node.entries))
    {
      SeenIndex(es, cleared, linked, visited, i);
      if es[i].node.Dir? { SeenListed(es[i].node.entries, cleared, linked, visited + InodesOf(es[..i])); }
    }
  }

  /** The inodes of the files that come before a path. */
  function Before(es: seq<Entry>, p: Path): set<nat>
    decreases |p|, |es|
  {
    if p == [] || es == [] then {}
    else
      var m := |es| - 1;
      if es[m].name != p[0] then Before(es[..m], p)
      else InodesOf(es[..m]) + if |p| > 1 && es[m].node.Dir? then Before(es[m].node.entries, p[1..]) else {}
  }

  /** What an upload finds at a path, given what is there and what it has changed on its way. */
  predicate FoundAs(there: Option<Node>, found: Option<Node>, lost: bool) {
    match there
    case None => found == None
    case Some(File(data, exec, i)) => found == Some(File(data, exec && !lost, i))
    case Some(Symlink(_)) => found == there
    case Some(Dir(_)) => found.Some? && found.value.Dir?
  }

  predicate Lost(there: Option<Node>, cleared: set<nat>, linked: set<nat>, before: set<nat>) {
    there.Some? && there.value.File?
      && (there.value.inode in cleared || (there.value.inode in linked && there.value.inode in before))
  }

  lemma {:induction false} SeenAt(es: seq<Entry>, cleared: set<nat>, linked: set<nat>, visited: set<nat>, p: Path)
    ensures FoundAs(TreeAt(es, p), TreeAt(Seen(es, cleared, linked, visited), p),
                    Lost(TreeAt(es, p), cleared, linked, visited + Before(es, p)))
    decreases |p|, |es|
  {
    var seen := Seen(es, cleared, linked, visited);
    if p != [] && es != [] {
      var m := |es| - 1;
      assert seen[..m] == Seen(es[..m], cleared, linked, visited);
      assert seen[m] == SeenEntry(es[m], cleared, linked, visited + InodesOf(es[..m]));
      if es[m].name != p[0] {
        SeenAt(es[..m], cleared, linked, visited, p);
        Elsewhere(es, p);
        Elsewhere(seen, p);
      } else if |p| > 1 && es[m].node.Dir? {
        var inside := visited + InodesOf(es[..m]);
        SeenAt(es[m].node.entries, cleared, linked, inside, p[1..]);
        assert inside + Before(es[m].node.entries, p[1..]) == visited + Before(es, p);
      }
    }
  }

  lemma Elsewhere(es: seq<Entry>, p: Path)
    requires p != [] && es != [] && es[|es| - 1].name != p[0]
    ensures TreeAt(es, p) == TreeAt(es[..|es| - 1], p)
  {
  }

  /** Uploading a tree records the executable bit of a file if and only if the file is not executable, or its inode was
      not changed before and no earlier name of it was linked by this upload. */
  lemma BitKeptExactly(es: seq<Entry>, before: set<nat>, after: set<nat>, p: Path)
    requires TreeAt(es, p).Some? && TreeAt(es, p).value.File?
    ensures var t, seen := TreeAt(es, p).value, TreeAt(Uploading(es, before, after), p);
            && seen.Some? && seen.value.File? && seen.value.data == t.data
            && (seen.value.exec == t.exec
                <==> !t.exec || (t.inode !in before && !(t.inode in after && t.inode in Before(es, p))))
  {
    SeenAt(es, before, after, {}, p);
  }

  /** The worker's upload followed by the stager's download, in one call. On success the tree is rebuilt below `at`, as
      the upload found it, and nothing else changed; on a healthy file system every uploaded tree is staged. */
  method UploadThenStage(c: Codec, es: seq<Entry>, store: BlobStore, disk: Disk, fs: FileSystem, local: bool, at: Path)
    returns (uploaded: bool, staged: bool)
    requires Lawful(c) && Addressed(c, store.blobs) && Listed(es) && Consistent(es, disk.content)
    requires forall p :: Under(at, p) && p in fs.nodes ==> p == at && fs.nodes[p].FsDir?
    modifies store, fs, disk`cleared
    ensures store.healthy ==> uploaded
    ensures uploaded && fs.healthy ==> staged
    ensures Changes(c, old(store.blobs), disk, old(disk.cleared), disk.cleared, {}, InodesOf(es))
    ensures var seen := Uploading(es, old(disk.cleared), disk.cleared);
            staged ==>
              && (forall p :: Under(at, p) ==>
                    ReadsAs(fs.nodes, local, fs.casExec, store.blobs, p, TreeAt(seen, p[|at|..])))
              && SameOutside(old(fs.nodes), fs.nodes, at)
              && (forall p :: Under(at, p) && p in fs.nodes && fs.nodes[p].FsHard? ==>
                    BitExactly(c, seen, fs.nodes, old(fs.casExec), fs.casExec, at, p))
  {
    var r := BuildTree(c, es, store, disk, disk.cleared, {});
    if r.None? {
      return false, false;
    }
    uploaded := true;
    ghost var seen := Uploading(es, old(disk.cleared), disk.cleared);
    SeenListed(es, old(disk.cleared), disk.cleared, {});
    UploadedUnfolds(c, store.blobs, seen);
    TreeWellNamed(c, seen);
    staged := StageDirectory(c, fs, store, local, at, r.value.1, UnfoldingOf(c, seen));
    if staged {
      Staged(c, store.blobs, seen, fs.nodes, local, old(fs.casExec), fs.casExec, at);
    }
  }

  lemma Staged(c: Codec, blobs: Blobs, es: seq<Entry>, nodes: map<Path, FsNode>, local: bool, casExec0: set<Digest>,
               casExec: set<Digest>, at: Path)
    requires Lawful(c) && Addressed(c, blobs) && Listed(es)
    requires |SubsOf(c, es)| == |DirectoryOf(c, es).directories|
    requires Image(nodes, local, casExec, blobs, at, DirectoryOf(c, es), SubsOf(c, es))
    requires casExec == casExec0 + if local then ExecDigests(UnfoldingOf(c, es)) else {}
    ensures forall p :: Under(at, p) ==> ReadsAs(nodes, local, casExec, blobs, p, TreeAt(es, p[|at|..]))
    ensures forall p :: Under(at, p) && p in nodes && nodes[p].FsHard? ==>
              BitExactly(c, es, nodes, casExec0, casExec, at, p)
  {
    forall p | Under(at, p) ensures ReadsAs(nodes, local, casExec, blobs, p, TreeAt(es, p[|at|..])) {
      RoundTrip(c, blobs, es, nodes, local, casExec, at, p);
    }
    forall p | Under(at, p) && p in nodes && nodes[p].FsHard?
      ensures BitExactly(c, es, nodes, casExec0, casExec, at, p) {
      HardlinkedExecExact(c, blobs, es, nodes, casExec0, casExec, at, p);
    }
  }

  lemma SeenPair(a: Entry, b: Entry, cleared: set<nat>, linked: set<nat>)
    requires a.node.File?
    ensures Seen([a, b], cleared, linked, {}) == [SeenEntry(a, cleared, linked, {}),
                                                  SeenEntry(b, cleared, linked, {a.node.inode})]
  {
    var es := [a, b];
    SeenStep(es, cleared, linked, {}, 0);
    SeenStep(es, cleared, linked, {}, 1);
    assert es[..2] == es && es[..0] == [];
  }

  /** Two files with the same content, one of them executable. */
  function SharedContent(data: Bytes): seq<Entry> {
    [Entry("a", File(data, true, 0)), Entry("b", File(data, false, 1))]
  }

  lemma ListedPair(a: Node, b: Node)
    requires !a.Dir? && !b.Dir?
    ensures var es := [Entry("a", a), Entry("b", b)];
            Listed(es) && TreeAt(es, ["a"]) == Some(a) && TreeAt(es, ["b"]) == Some(b)
            && forall seen: seq<Entry> :: |seen| == 2 && seen[0].name == "a" && seen[1].name == "b" ==>
               TreeAt(seen, ["b"]) == Some(seen[1].node)
  {
    assert Less("a", "b");
    var es := [Entry("a", a), Entry("b", b)];
    assert FindEntry(es, "b") == Some(es[1]);
    assert es[..1] == [es[0]] && FindEntry(es[..1], "a") == Some(es[0]);
  }

  /** Uploaded and staged as a hard link, the file that was not executable is. */
  method SharedContentSharesBit(c: Codec, data: Bytes, store: BlobStore, disk: Disk, fs: FileSystem, at: Path)
    returns (staged: bool)
    requires Lawful(c) && Addressed(c, store.blobs) && disk.cleared == {}
             && Consistent(SharedContent(data), disk.content)
    requires forall p :: Under(at, p) && p in fs.nodes ==> p == at && fs.nodes[p].FsDir?
    modifies store, fs, disk`cleared
    ensures store.healthy && fs.healthy ==> staged
    ensures TreeAt(SharedContent(data), ["b"]) == Some(File(data, false, 1))
    ensures staged ==> at + ["b"] in fs.nodes
    ensures staged && fs.nodes[at + ["b"]].FsHard? ==> HardlinkExecutable(fs.nodes, fs.casExec, at + ["b"])
  {
    var es := SharedContent(data);
    ListedPair(es[0].node, es[1].node);
    var uploaded;
    uploaded, staged := UploadThenStage(c, es, store, disk, fs, true, at);
    if staged {
      ghost var seen := Uploading(es, {}, disk.cleared);
      assert seen == es by { SeenPair(es[0], es[1], {}, disk.cleared); }
      var p := at + ["b"];
      assert Under(at, p) && p[|at|..] == ["b"];
      assert ExecInEntry(es[0], data);
      assert ReadsAs(fs.nodes, true, fs.casExec, store.blobs, p, TreeAt(es, ["b"]));
    }
  }

  /** Two names of one executable file. */
  function TwoNames(data: Bytes): seq<Entry> {
    [Entry("a", File(data, true, 0)), Entry("b", File(data, true, 0))]
  }

  /** The upload records the second name as executable if and only if it did not link the first. */
  method SecondNameKeepsBit(c: Codec, data: Bytes, store: BlobStore, disk: Disk) returns (r: Option<(Tree, Digest)>)
    requires Lawful(c) && Addressed(c, store.blobs) && disk.cleared == {} && Consistent(TwoNames(data), disk.content)
    modifies store, disk`cleared
    ensures store.healthy ==> r.Some?
    ensures r.Some? ==>
              r.value.0.root.files == [FileNode("a", c.hash(data), true),
                                       FileNode("b", c.hash(data), 0 !in disk.cleared)]
  {
    var es := TwoNames(data);
    r := BuildTree(c, es, store, disk, disk.cleared, {});
    if r.Some? {
      ghost var a, b := es[0], Entry("b", File(data, 0 !in disk.cleared, 0));
      assert Uploading(es, {}, disk.cleared) == [a, b] by { SeenPair(es[0], es[1], {}, disk.cleared); }
      assert DirectoryOf(c, [a]) == WithEntry(c, EMPTY, a) by { assert [a][..0] == []; }
      assert DirectoryOf(c, [a, b]) == WithEntry(c, DirectoryOf(c, [a]), b) by { assert [a, b][..1] == [a]; }
    }
  }
}

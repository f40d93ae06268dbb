/**
 What the worker uploads and what it writes to the action cache.
 */
module ActionOutputs {
  import opened Wrappers
  import opened Content
  import opened MerkleModel
  import opened MerkleUpload
  import opened MerkleStage
  import opened MerkleRoundTrip

  datatype Command = Command(outputFiles: seq<string>, outputDirectories: seq<string>, outputPaths: seq<string>)

  datatype ExecResult = ExecResult(exitCode: int, stdout: Bytes, stderr: Bytes)

  datatype OutputFile = OutputFile(path: string, digest: Digest, isExecutable: bool)
  datatype OutputDirectory = OutputDirectory(path: string, treeDigest: Digest, rootDigest: Digest)

  datatype ActionResult = ActionResult(
    exitCode: int,
    stdout: Option<Digest>,
    stderr: Option<Digest>,
    files: seq<OutputFile>,
    directories: seq<OutputDirectory>)

  /** What stat finds at an output path, links followed. After another stat failure a directory
      may still turn out to be readable. */
  datatype Stat = NotExist | StatError(readable: Option<seq<Entry>>) | Found(node: Node)

  /** Every directory digest in the tree is the digest of one of its children. */
  ghost predicate Closed(c: Codec, t: Tree) {
    && (forall k :: 0 <= k < |t.root.directories| ==> HasChild(c, t.children, t.root.directories[k].digest))
    && (forall i, k :: 0 <= i < |t.children| && 0 <= k < |t.children[i].directories| ==>
          HasChild(c, t.children, t.children[i].directories[k].digest))
  }

  ghost predicate HasChild(c: Codec, children: seq<Directory>, d: Digest) {
    exists i :: 0 <= i < |children| && DirDigest(c, children[i]) == d
  }

  ghost predicate FilesStored(blobs: Blobs, d: Directory) {
    forall k :: 0 <= k < |d.files| ==> d.files[k].digest in blobs
  }

  /** What is proved of each child: it is canonical, its files are stored, and its own subdirectories are children
      too. */
  ghost predicate GoodChild(c: Codec, blobs: Blobs, es: seq<Entry>, children: seq<Directory>, d: Directory) {
    && Canonical(d)
    && (Uploaded(c, blobs, es) ==> FilesStored(blobs, d))
    && (forall k :: 0 <= k < |d.directories| ==> HasChild(c, children, d.directories[k].digest))
  }

  lemma GoodChildGrows(c: Codec, blobs: Blobs, part: seq<Entry>, es: seq<Entry>, some: seq<Directory>,
                       all: seq<Directory>, at: nat, d: Directory)
    requires GoodChild(c, blobs, part, some, d)
    requires Uploaded(c, blobs, es) ==> Uploaded(c, blobs, part)
    requires at + |some| <= |all| && all[at..at + |some|] == some
    ensures GoodChild(c, blobs, es, all, d)
  {
    HasChildGrows(c, some, all, at, d);
  }

  /** The children list contains the proto of every directory below the root, and nothing else:
      each child is the proto of some listing whose own children are in the list too. */
  lemma {:induction false} ChildrenComplete(c: Codec, blobs: Blobs, es: seq<Entry>, i: nat)
    requires Listed(es) && i < |ChildrenOf(c, es)|
    ensures GoodChild(c, blobs, es, ChildrenOf(c, es), ChildrenOf(c, es)[i])
    decreases es
  {
    var m := |es| - 1;
    var pre, last := es[..m], es[m];
    var before := ChildrenOf(c, pre);
    var all := ChildrenOf(c, es);
    assert Listed(pre);
    if i < |before| {
      ChildrenComplete(c, blobs, pre, i);
      GoodChildGrows(c, blobs, pre, es, before, all, 0, before[i]);
    } else {
      var sub := last.node.entries;
      var inner := ChildrenOf(c, sub);
      assert all == before + inner + [DirectoryOf(c, sub)];
      assert Uploaded(c, blobs, es) ==> UploadedEntry(c, blobs, last);
      if i < |before| + |inner| {
        ChildrenComplete(c, blobs, sub, i - |before|);
      } else {
        ListingCanonical(c, sub);
        RootComplete(c, blobs, sub);
      }
      GoodChildGrows(c, blobs, sub, es, inner, all, |before|, all[i]);
    }
  }

  lemma HasChildGrows(c: Codec, part: seq<Directory>, all: seq<Directory>, at: nat, d: Directory)
    requires at + |part| <= |all| && all[at..at + |part|] == part
    requires forall k :: 0 <= k < |d.directories| ==> HasChild(c, part, d.directories[k].digest)
    ensures forall k :: 0 <= k < |d.directories| ==> HasChild(c, all, d.directories[k].digest)
  {
    forall k | 0 <= k < |d.directories| ensures HasChild(c, all, d.directories[k].digest) {
      var j :| 0 <= j < |part| && DirDigest(c, part[j]) == d.directories[k].digest;
      assert all[at + j] == part[j];
    }
  }

  lemma {:induction false} RootComplete(c: Codec, blobs: Blobs, es: seq<Entry>)
    ensures var d := DirectoryOf(c, es);
            && (Uploaded(c, blobs, es) ==> FilesStored(blobs, d))
            && forall k :: 0 <= k < |d.directories| ==> HasChild(c, ChildrenOf(c, es), d.directories[k].digest)
    decreases es
  {
    if es != [] {
      var m := |es| - 1;
      var pre, last := es[..m], es[m];
      assert Uploaded(c, blobs, es) ==> Uploaded(c, blobs, pre) && UploadedEntry(c, blobs, last);
      RootComplete(c, blobs, pre);
      var d0, d := DirectoryOf(c, pre), DirectoryOf(c, es);
      assert d == WithEntry(c, d0, last);
      HasChildGrows(c, ChildrenOf(c, pre), ChildrenOf(c, es), 0, d0);
      if last.node.Dir? {
        var all := ChildrenOf(c, es);
        assert DirDigest(c, all[|all| - 1]) == d.directories[|d0.directories|].digest;
      }
    }
  }

  /** Each uploaded Tree is closed under its directory digests, its directories are all in canonical
      form, and the files they name are in the store. */
  lemma TreeComplete(c: Codec, blobs: Blobs, es: seq<Entry>)
    requires Listed(es) && Uploaded(c, blobs, es)
    ensures var t := Tree(DirectoryOf(c, es), ChildrenOf(c, es));
            && Closed(c, t)
            && Canonical(t.root) && (forall i :: 0 <= i < |t.children| ==> Canonical(t.children[i]))
            && FilesStored(blobs, t.root) && (forall i :: 0 <= i < |t.children| ==> FilesStored(blobs, t.children[i]))
  {
    ListingCanonical(c, es);
    RootComplete(c, blobs, es);
    forall i | 0 <= i < |ChildrenOf(c, es)|
      ensures Canonical(ChildrenOf(c, es)[i]) && FilesStored(blobs, ChildrenOf(c, es)[i])
      ensures forall k :: 0 <= k < |ChildrenOf(c, es)[i].directories| ==>
                HasChild(c, ChildrenOf(c, es), ChildrenOf(c, es)[i].directories[k].digest)
    {
      ChildrenComplete(c, blobs, es, i);
    }
  }

  // What a successful upload reports.

  datatype Outputs = Outputs(files: seq<OutputFile>, directories: seq<OutputDirectory>)

  function DirectoryOutput(c: Codec, path: string, es: seq<Entry>): OutputDirectory {
    OutputDirectory(path, c.hash(c.marshalTree(Tree(DirectoryOf(c, es), ChildrenOf(c, es)))),
                    DirDigest(c, DirectoryOf(c, es)))
  }

  function WithOutput(c: Codec, out: Outputs, e: Entry): Outputs {
    match e.node
    case File(data, exec, _) => out.(files := out.files + [OutputFile(e.name, c.hash(data), exec)])
    case Symlink(_) => out
    case Dir(es) => out.(directories := out.directories + [DirectoryOutput(c, e.name, es)])
  }

  function OutputsOf(c: Codec, es: seq<Entry>): Outputs {
    if es == [] then Outputs([], []) else WithOutput(c, OutputsOf(c, es[..|es| - 1]), es[|es| - 1])
  }

  function StreamOutput(c: Codec, data: Bytes): Option<Digest> {
    if data == [] then None else Some(c.hash(data))
  }

  function ResultOf(c: Codec, out: Outputs, ex: ExecResult): ActionResult {
    ActionResult(ex.exitCode, StreamOutput(c, ex.stdout), StreamOutput(c, ex.stderr), out.files, out.directories)
  }

  // The declared outputs, in the order in which they are uploaded.

  function StatAt(fs: map<string, Stat>, p: string): Stat {
    if p in fs then fs[p] else NotExist
  }

  function NodeAt(stat: Stat): Option<Node> {
    match stat
    case NotExist => None
    case StatError(readable) => if readable.Some? then Some(Dir(readable.value)) else None
    case Found(node) => Some(node)
  }

  /** Missing outputs are skipped. */
  function EntryAt(path: string, stat: Stat): seq<Entry> {
    if NodeAt(stat).Some? then [Entry(path, NodeAt(stat).value)] else []
  }

  /** The first `n` of a list of paths, after the outputs `es`. */
  function Listing(fs: map<string, Stat>, es: seq<Entry>, paths: seq<string>, n: nat): seq<Entry>
    requires n <= |paths|
  {
    if n == 0 then es else Listing(fs, es, paths, n - 1) + EntryAt(paths[n - 1], StatAt(fs, paths[n - 1]))
  }

  function All(fs: map<string, Stat>, es: seq<Entry>, paths: seq<string>): seq<Entry> {
    Listing(fs, es, paths, |paths|)
  }

  function Declared(fs: map<string, Stat>, cmd: Command): seq<Entry> {
    All(fs, All(fs, All(fs, [], cmd.outputFiles), cmd.outputDirectories), cmd.outputPaths)
  }

  /** The operating system lists directories in order, and all names of an inode have its content. */
  ghost predicate GoodStats(fs: map<string, Stat>, content: nat -> Bytes) {
    forall p :: GoodStat(fs, content, p)
  }

  ghost predicate GoodStat(fs: map<string, Stat>, content: nat -> Bytes, p: string) {
    var node := NodeAt(StatAt(fs, p));
    node.Some? ==> ConsistentEntry(Entry(p, node.value), content) && (node.value.Dir? ==> Listed(node.value.entries))
  }

  // Which outputs can be uploaded.

  /** The three lists of a Command. */
  datatype Kind = FileList | DirectoryList | PathList

  /** A stat failure other than absence is not checked for an output directory. */
  predicate Allowed(kind: Kind, stat: Stat) {
    match kind
    case FileList => stat.NotExist? || (stat.Found? && stat.node.File?)
    case DirectoryList => stat.NotExist? || (NodeAt(stat).Some? && NodeAt(stat).value.Dir?)
    case PathList => stat.NotExist? || (stat.Found? && !stat.node.Symlink?)
  }

  /** The first `n` paths of the list are absent or of a kind it allows. */
  predicate AllAllowed(fs: map<string, Stat>, kind: Kind, paths: seq<string>, n: nat)
    requires n <= |paths|
  {
    n == 0 || (AllAllowed(fs, kind, paths, n - 1) && Allowed(kind, StatAt(fs, paths[n - 1])))
  }

  lemma {:induction false} AllowedExactly(fs: map<string, Stat>, kind: Kind, paths: seq<string>, n: nat)
    requires n <= |paths|
    ensures AllAllowed(fs, kind, paths, n) <==> forall i :: 0 <= i < n ==> Allowed(kind, StatAt(fs, paths[i]))
  {
    if n > 0 {
      AllowedExactly(fs, kind, paths, n - 1);
    }
  }

  /** Each declared output is absent or of a kind its list allows. */
  ghost predicate Uploadable(fs: map<string, Stat>, cmd: Command) {
    && AllAllowed(fs, FileList, cmd.outputFiles, |cmd.outputFiles|)
    && AllAllowed(fs, DirectoryList, cmd.outputDirectories, |cmd.outputDirectories|)
    && AllAllowed(fs, PathList, cmd.outputPaths, |cmd.outputPaths|)
  }

  // What is in the store once an output has been uploaded.

  ghost predicate TreeStored(c: Codec, blobs: Blobs, es: seq<Entry>) {
    && Uploaded(c, blobs, es)
    && Holds(c, blobs, c.marshal(DirectoryOf(c, es)))
    && Holds(c, blobs, c.marshalTree(Tree(DirectoryOf(c, es), ChildrenOf(c, es))))
  }

  ghost predicate Stored(c: Codec, blobs: Blobs, e: Entry) {
    match e.node
    case File(data, _, _) => Holds(c, blobs, data)
    case Symlink(_) => true
    case Dir(es) => TreeStored(c, blobs, es)
  }

  ghost predicate AllStored(c: Codec, blobs: Blobs, es: seq<Entry>) {
    forall i :: 0 <= i < |es| ==> Stored(c, blobs, es[i])
  }

  lemma AllStoredExtends(c: Codec, a: Blobs, b: Blobs, es: seq<Entry>)
    requires AllStored(c, a, es) && Extends(a, b)
    ensures AllStored(c, b, es)
  {
    forall i | 0 <= i < |es| ensures Stored(c, b, es[i]) {
      assert Stored(c, a, es[i]);
      if es[i].node.Dir? { UploadedExtends(c, a, b, es[i].node.entries); }
    }
  }

  /** The outputs uploaded so far, `es`, each as it was when the upload reached it. */
  ghost predicate Done(c: Codec, start: Blobs, blobs: Blobs, disk: Disk, before: set<nat>, now: set<nat>,
                       es: seq<Entry>, out: Outputs)
  {
    && Addressed(c, blobs) && Extends(start, blobs)
    && Changes(c, start, disk, before, now, {}, InodesOf(es))
    && Visited(c, blobs, disk.content, now, before, InodesOf(es))
    && out == OutputsOf(c, Uploading(es, before, now))
    && AllStored(c, blobs, Uploading(es, before, now))
  }

  /** What uploading one more output does. */
  ghost predicate Added(c: Codec, blobs: Blobs, disk: Disk, before: set<nat>, now: set<nat>, visited: set<nat>,
                        e: Entry, out: Outputs, out': Outputs)
  {
    var seen := SeenEntry(e, before, now, visited);
    && out' == WithOutput(c, out, seen) && Stored(c, blobs, seen)
    && Visited(c, blobs, disk.content, now, before, visited + InodesAt(e))
  }

  lemma {:induction false} DoneStep(c: Codec, start: Blobs, blobs: Blobs, later: Blobs, disk: Disk, before: set<nat>,
                                    between: set<nat>, now: set<nat>,
                 es: seq<Entry>, e: Entry, out: Outputs, out': Outputs)
    requires Done(c, start, blobs, disk, before, between, es, out)
    requires Addressed(c, later) && Extends(blobs, later)
    requires Changes(c, blobs, disk, between, now, InodesOf(es), InodesAt(e))
    requires Added(c, later, disk, before, now, InodesOf(es), e, out, out')
    ensures Done(c, start, later, disk, before, now, es + [e], out')
  {
    var some, last := Uploading(es, before, between), SeenEntry(e, before, now, InodesOf(es));
    assert Changes(c, start, disk, before, now, {}, InodesOf(es) + InodesAt(e)) by {
      assert {} + InodesOf(es) == InodesOf(es);
      ChangesTransitive(c, start, blobs, disk, before, between, now, {}, InodesOf(es), InodesAt(e));
    }
    assert Uploading(es + [e], before, now) == some + [last] && InodesOf(es + [e]) == InodesOf(es) + InodesAt(e) by {
      UploadingSnoc(es, e, before, between, now);
    }
    assert OutputsOf(c, some + [last]) == out' && AllStored(c, later, some + [last]) by {
      AllStoredExtends(c, blobs, later, some);
      OutputsSnoc(c, later, some, last);
    }
    ExtendsTransitive(start, blobs, later);
  }

  lemma OutputsSnoc(c: Codec, blobs: Blobs, es: seq<Entry>, e: Entry)
    ensures OutputsOf(c, es + [e]) == WithOutput(c, OutputsOf(c, es), e)
    ensures AllStored(c, blobs, es) && Stored(c, blobs, e) ==> AllStored(c, blobs, es + [e])
  {
    assert (es + [e])[..|es|] == es;
  }

  lemma UploadingSnoc(es: seq<Entry>, e: Entry, before: set<nat>, between: set<nat>, now: set<nat>)
    requires between * InodesOf(es) == now * InodesOf(es)
    ensures Uploading(es + [e], before, now)
            == Uploading(es, before, between) + [SeenEntry(e, before, now, InodesOf(es))]
    ensures InodesOf(es + [e]) == InodesOf(es) + InodesAt(e)
  {
    assert (es + [e])[..|es|] == es;
    assert {} + InodesOf(es) == InodesOf(es);
    SeenSame(es, before, between, now, {});
  }

  /** `uploadFile` fails on anything that is not a readable file. */
  method UploadFileAt(c: Codec, store: BlobStore, disk: Disk, e: Entry, out: Outputs, ghost before: set<nat>,
                      ghost visited: set<nat>)
    returns (r: Option<Outputs>)
    requires Lawful(c) && Addressed(c, store.blobs) && ConsistentEntry(e, disk.content)
    requires Visited(c, store.blobs, disk.content, disk.cleared, before, visited)
    modifies store, disk`cleared
    ensures Addressed(c, store.blobs) && Extends(old(store.blobs), store.blobs)
    ensures Changes(c, old(store.blobs), disk, old(disk.cleared), disk.cleared, visited, InodesAt(e))
    ensures r.Some? ==> e.node.File? && Added(c, store.blobs, disk, before, disk.cleared, visited, e, out, r.value)
    ensures store.healthy && e.node.File? ==> r.Some?
  {
    if !e.node.File? {
      return None;
    }
    var executable := e.node.exec && e.node.inode !in disk.cleared;
    var d := UploadFile(c, e.node.inode, store, disk);
    if d.None? {
      return None;
    }
    r := Some(out.(files := out.files + [OutputFile(e.name, d.value, executable)]));
  }

  /** `buildTree` fails on anything that cannot be listed; the Tree proto is uploaded after it. */
  method UploadTreeAt(c: Codec, store: BlobStore, disk: Disk, e: Entry, out: Outputs, ghost before: set<nat>,
                      ghost visited: set<nat>)
    returns (r: Option<Outputs>)
    requires Lawful(c) && Addressed(c, store.blobs) && ConsistentEntry(e, disk.content)
    requires Visited(c, store.blobs, disk.content, disk.cleared, before, visited)
    modifies store, disk`cleared
    ensures Addressed(c, store.blobs) && Extends(old(store.blobs), store.blobs)
    ensures Changes(c, old(store.blobs), disk, old(disk.cleared), disk.cleared, visited, InodesAt(e))
    ensures r.Some? ==> e.node.Dir? && Added(c, store.blobs, disk, before, disk.cleared, visited, e, out, r.value)
    ensures store.healthy && e.node.Dir? ==> r.Some?
  {
    if !e.node.Dir? {
      return None;
    }
    var built := BuildTree(c, e.node.entries, store, disk, before, visited);
    if built.None? {
      return None;
    }
    ghost var blobs1 := store.blobs;
    var treeDigest := UploadBlob(c, c.marshalTree(built.value.0), store);
    if treeDigest.None? {
      return None;
    }
    UploadedExtends(c, blobs1, store.blobs, Seen(e.node.entries, before, disk.cleared, visited));
    return Some(out.(directories := out.directories + [OutputDirectory(e.name, treeDigest.value, built.value.1)]));
  }

  method UploadStream(c: Codec, store: BlobStore, data: Bytes) returns (ok: bool, d: Option<Digest>)
    requires Lawful(c) && Addressed(c, store.blobs)
    modifies store
    ensures Addressed(c, store.blobs) && Extends(old(store.blobs), store.blobs)
    ensures ok ==> d == StreamOutput(c, data) && (data != [] ==> Holds(c, store.blobs, data))
    ensures store.healthy ==> ok
  {
    if data == [] {
      return true, None;
    }
    d := UploadBlob(c, data, store);
    ok := d.Some?;
  }

  /** The body of one of the three loops: a stat, then a file, a directory, or whichever the stat says. */
  method UploadOne(c: Codec, store: BlobStore, disk: Disk, kind: Kind, path: string, stat: Stat, out: Outputs,
                   ghost start: Blobs, ghost before: set<nat>, ghost es: seq<Entry>)
    returns (r: Option<Outputs>)
    requires Lawful(c) && (NodeAt(stat).Some? ==> ConsistentEntry(Entry(path, NodeAt(stat).value), disk.content))
    requires Done(c, start, store.blobs, disk, before, disk.cleared, es, out)
    modifies store, disk`cleared
    ensures Addressed(c, store.blobs) && Extends(start, store.blobs)
    ensures r.Some? ==> Done(c, start, store.blobs, disk, before, disk.cleared, es + EntryAt(path, stat), r.value)
    ensures r.Some? ==> Allowed(kind, stat)
    ensures store.healthy && Allowed(kind, stat) ==> r.Some?
  {
    if stat.NotExist? {
      assert es + EntryAt(path, stat) == es;
      return Some(out);
    }
    if NodeAt(stat).None? || (stat.StatError? && kind != DirectoryList) {
      return None;
    }
    var e := Entry(path, NodeAt(stat).value);
    if kind == DirectoryList || (kind == PathList && e.node.Dir?) {
      r := UploadTreeAt(c, store, disk, e, out, before, InodesOf(es));
    } else {
      r := UploadFileAt(c, store, disk, e, out, before, InodesOf(es));
    }
    ExtendsTransitive(start, old(store.blobs), store.blobs);
    if r.Some? {
      DoneStep(c, start, old(store.blobs), store.blobs, disk, before, old(disk.cleared), disk.cleared, es, e, out,
               r.value);
    }
  }

  method UploadNext(c: Codec, store: BlobStore, disk: Disk, fs: map<string, Stat>, kind: Kind, paths: seq<string>,
                    i: nat, out: Outputs, ghost start: Blobs, ghost before: set<nat>, ghost es: seq<Entry>)
    returns (r: Option<Outputs>)
    requires Lawful(c) && GoodStats(fs, disk.content) && i < |paths| && AllAllowed(fs, kind, paths, i)
    requires Done(c, start, store.blobs, disk, before, disk.cleared, Listing(fs, es, paths, i), out)
    modifies store, disk`cleared
    ensures Addressed(c, store.blobs) && Extends(start, store.blobs)
    ensures r.Some? ==> Done(c, start, store.blobs, disk, before, disk.cleared, Listing(fs, es, paths, i + 1), r.value)
    ensures r.Some? ==> AllAllowed(fs, kind, paths, i + 1)
    ensures store.healthy && AllAllowed(fs, kind, paths, |paths|) ==> r.Some?
  {
    var stat := StatAt(fs, paths[i]);
    assert GoodStat(fs, disk.content, paths[i]);
    assert AllAllowed(fs, kind, paths, |paths|) ==> Allowed(kind, stat) by { AllowedExactly(fs, kind, paths, |paths|); }
    r := UploadOne(c, store, disk, kind, paths[i], stat, out, start, before, Listing(fs, es, paths, i));
  }

  /** One of the three loops. */
  method UploadList(c: Codec, store: BlobStore, disk: Disk, fs: map<string, Stat>, kind: Kind, paths: seq<string>,
                    out: Outputs, ghost start: Blobs, ghost before: set<nat>, ghost es: seq<Entry>)
    returns (r: Option<Outputs>)
    requires Lawful(c) && GoodStats(fs, disk.content)
    requires Done(c, start, store.blobs, disk, before, disk.cleared, es, out)
    modifies store, disk`cleared
    ensures Addressed(c, store.blobs) && Extends(start, store.blobs)
    ensures r.Some? ==> Done(c, start, store.blobs, disk, before, disk.cleared, All(fs, es, paths), r.value)
    ensures r.Some? ==> AllAllowed(fs, kind, paths, |paths|)
    ensures store.healthy && AllAllowed(fs, kind, paths, |paths|) ==> r.Some?
  {
    var acc := out;
    for i := 0 to |paths|
      invariant Done(c, start, store.blobs, disk, before, disk.cleared, Listing(fs, es, paths, i), acc)
      invariant AllAllowed(fs, kind, paths, i)
    {
      var more := UploadNext(c, store, disk, fs, kind, paths, i, acc, start, before, es);
      if more.None? {
        return None;
      }
      acc := more.value;
    }
    return Some(acc);
  }

  method UploadLists(c: Codec, store: BlobStore, disk: Disk, fs: map<string, Stat>, cmd: Command)
    returns (r: Option<Outputs>)
    requires Lawful(c) && Addressed(c, store.blobs) && GoodStats(fs, disk.content)
    modifies store, disk`cleared
    ensures Addressed(c, store.blobs) && Extends(old(store.blobs), store.blobs)
    ensures r.Some? ==>
              Done(c, old(store.blobs), store.blobs, disk, old(disk.cleared), disk.cleared, Declared(fs, cmd), r.value)
    ensures store.healthy ==> (r.Some? <==> Uploadable(fs, cmd))
  {
    ghost var start, before, es := store.blobs, disk.cleared, All(fs, [], cmd.outputFiles);
    r := UploadList(c, store, disk, fs, FileList, cmd.outputFiles, Outputs([], []), start, before, []);
    if r.None? {
      return None;
    }
    r := UploadList(c, store, disk, fs, DirectoryList, cmd.outputDirectories, r.value, start, before, es);
    if r.None? {
      return None;
    }
    r := UploadList(c, store, disk, fs, PathList, cmd.outputPaths, r.value, start, before,
                    All(fs, es, cmd.outputDirectories));
  }

  /** All outputs of the command are in the store. */
  ghost predicate OutputsKept(c: Codec, blobs: Blobs, es: seq<Entry>, ex: ExecResult) {
    && (ex.stdout != [] ==> Holds(c, blobs, ex.stdout))
    && (ex.stderr != [] ==> Holds(c, blobs, ex.stderr))
    && AllStored(c, blobs, es)
  }

  /** An output file is recorded as executable if and only if it is, its inode was not changed before, and no output
      uploaded earlier linked it. */
  lemma OutputBitExactly(es: seq<Entry>, before: set<nat>, after: set<nat>, k: nat)
    requires k < |es| && es[k].node.File?
    ensures var seen := Uploading(es, before, after)[k].node;
            && seen.File? && seen.data == es[k].node.data
            && (seen.exec <==> es[k].node.exec && es[k].node.inode !in before
                               && !(es[k].node.inode in after && es[k].node.inode in InodesOf(es[..k])))
  {
    SeenIndex(es, before, after, {}, k);
  }

  ghost predicate AllListed(es: seq<Entry>) {
    forall i :: 0 <= i < |es| && es[i].node.Dir? ==> Listed(es[i].node.entries)
  }

  lemma {:induction false} ListingGood(fs: map<string, Stat>, content: nat -> Bytes, es: seq<Entry>, paths: seq<string>,
                                       n: nat)
    requires GoodStats(fs, content) && AllListed(es) && n <= |paths|
    ensures AllListed(Listing(fs, es, paths, n))
  {
    if n > 0 {
      ListingGood(fs, content, es, paths, n - 1);
      assert GoodStat(fs, content, paths[n - 1]);
    }
  }

  lemma DeclaredListed(fs: map<string, Stat>, content: nat -> Bytes, cmd: Command)
    requires GoodStats(fs, content)
    ensures AllListed(Declared(fs, cmd))
  {
    var files := All(fs, [], cmd.outputFiles);
    ListingGood(fs, content, [], cmd.outputFiles, |cmd.outputFiles|);
    ListingGood(fs, content, files, cmd.outputDirectories, |cmd.outputDirectories|);
    ListingGood(fs, content, All(fs, files, cmd.outputDirectories), cmd.outputPaths, |cmd.outputPaths|);
  }

  // The result, field by field.

  /** Some positions, in order. */
  ghost predicate Lists(at: seq<nat>, positions: set<nat>) {
    (forall k, l :: 0 <= k < l < |at| ==> at[k] < at[l]) && (forall j :: j in at <==> j in positions)
  }

  lemma ListsSnoc(at: seq<nat>, positions: set<nat>, j: nat)
    requires Lists(at, positions) && forall p :: p in positions ==> p < j
    ensures Lists(at + [j], positions + {j})
  {
    forall k | 0 <= k < |at| ensures at[k] < j { assert at[k] in positions; }
  }

  /** Every declared path, in the order of the three lists. */
  function PathsOf(cmd: Command): seq<string> {
    cmd.outputFiles + cmd.outputDirectories + cmd.outputPaths
  }

  predicate FileThere(fs: map<string, Stat>, path: string) {
    path in fs && fs[path].Found? && fs[path].node.File?
  }

  /** A directory, or something that can be listed although its stat failed. */
  predicate ListingThere(fs: map<string, Stat>, path: string) {
    path in fs && ((fs[path].Found? && fs[path].node.Dir?) || (fs[path].StatError? && fs[path].readable.Some?))
  }

  function EntriesThere(fs: map<string, Stat>, path: string): seq<Entry>
    requires ListingThere(fs, path)
  {
    if fs[path].Found? then fs[path].node.entries else fs[path].readable.value
  }

  function InodesThere(fs: map<string, Stat>, path: string): set<nat> {
    if FileThere(fs, path) then {fs[path].node.inode}
    else if ListingThere(fs, path) then InodesOf(EntriesThere(fs, path))
    else {}
  }

  /** The inodes of the outputs before position j. */
  function EarlierInodes(fs: map<string, Stat>, paths: seq<string>, j: nat): set<nat>
    requires j <= |paths|
  {
    if j == 0 then {} else EarlierInodes(fs, paths, j - 1) + InodesThere(fs, paths[j - 1])
  }

  /** The entry of an output file: its path, the bytes behind its digest, and its executable bit, which is lost if its
      inode was changed before or an earlier output linked it. */
  ghost predicate FileRow(blobs: Blobs, fs: map<string, Stat>, paths: seq<string>, before: set<nat>, after: set<nat>,
                          j: nat, o: OutputFile)
    requires j < |paths|
  {
    && FileThere(fs, paths[j])
    && var file := fs[paths[j]].node;
       && o.path == paths[j] && o.digest in blobs && blobs[o.digest] == file.data
       && (o.isExecutable <==>
             file.exec && file.inode !in before && !(file.inode in after && file.inode in EarlierInodes(fs, paths, j)))
  }

  /** The entry of an output directory: its path; the bytes behind its tree digest are a marshalled Tree, closed under
      its directory digests; those behind its root digest are the root of that Tree, and it unfolds, path by path, to
      what is there, but for executable bits lost as above. */
  ghost predicate DirectoryRow(c: Codec, blobs: Blobs, fs: map<string, Stat>, paths: seq<string>, before: set<nat>,
                               after: set<nat>, j: nat, o: OutputDirectory)
    requires j < |paths|
  {
    && ListingThere(fs, paths[j]) && o.path == paths[j]
    && exists t, m :: TreeRow(c, blobs, EntriesThere(fs, paths[j]), before, after, EarlierInodes(fs, paths, j), o, t, m)
  }

  ghost predicate TreeRow(c: Codec, blobs: Blobs, es: seq<Entry>, before: set<nat>, after: set<nat>, earlier: set<nat>,
                          o: OutputDirectory, t: Tree, m: Unfolding)
  {
    && o.treeDigest in blobs && blobs[o.treeDigest] == c.marshalTree(t) && Closed(c, t)
    && o.rootDigest in blobs && blobs[o.rootDigest] == c.marshal(t.root) && Unfolds(c, blobs, o.rootDigest, m)
    && forall p: Path :: Describes(c, TreeAt(es, p), Lookup(m, p),
                                   Lost(TreeAt(es, p), before, after, earlier + Before(es, p)))
  }

  predicate Describes(c: Codec, there: Option<Node>, item: Option<Item>, lost: bool) {
    match there
    case None => item == None
    case Some(Dir(_)) => item == Some(ItemDir)
    case Some(Symlink(target)) => item == Some(ItemSymlink(target))
    case Some(File(data, exec, _)) => item == Some(ItemFile(c.hash(data), exec && !lost))
  }

  /** The streams that are not empty are stored and named; the lists have one entry for each declared path with a file,
      and one for each with a directory, in order. */
  ghost predicate Reports(c: Codec, blobs: Blobs, fs: map<string, Stat>, cmd: Command, ex: ExecResult, before: set<nat>,
                          after: set<nat>, r: ActionResult, files: seq<nat>, directories: seq<nat>)
  {
    var paths := PathsOf(cmd);
    && r.exitCode == ex.exitCode && StreamsReported(blobs, ex, r)
    && Lists(files, set j | 0 <= j < |paths| && FileThere(fs, paths[j]))
    && |r.files| == |files| && (forall k :: 0 <= k < |files| ==> files[k] < |paths|)
    && (forall k :: 0 <= k < |files| ==> FileRow(blobs, fs, paths, before, after, files[k], r.files[k]))
    && Lists(directories, set j | 0 <= j < |paths| && ListingThere(fs, paths[j]))
    && |r.directories| == |directories| && (forall k :: 0 <= k < |directories| ==> directories[k] < |paths|)
    && (forall k :: 0 <= k < |directories| ==>
          DirectoryRow(c, blobs, fs, paths, before, after, directories[k], r.directories[k]))
  }

  predicate StreamsReported(blobs: Blobs, ex: ExecResult, r: ActionResult) {
    && (r.stdout.Some? <==> ex.stdout != []) && (r.stdout.Some? ==> Behind(blobs, r.stdout.value, ex.stdout))
    && (r.stderr.Some? <==> ex.stderr != []) && (r.stderr.Some? ==> Behind(blobs, r.stderr.value, ex.stderr))
  }

  predicate Behind(blobs: Blobs, d: Digest, data: Bytes) {
    d in blobs && blobs[d] == data
  }

  // Proof: from the outputs to the entries they come from, and from those to the paths.

  lemma {:induction false} OutputRows(c: Codec, es: seq<Entry>) returns (files: seq<nat>, directories: seq<nat>)
    ensures Lists(files, set k | 0 <= k < |es| && es[k].node.File?)
    ensures Lists(directories, set k | 0 <= k < |es| && es[k].node.Dir?)
    ensures var out := OutputsOf(c, es);
            && |out.files| == |files| && |out.directories| == |directories|
            && (forall i :: 0 <= i < |files| ==>
                  && files[i] < |es| && es[files[i]].node.File?
                  && var f := es[files[i]]; out.files[i] == OutputFile(f.name, c.hash(f.node.data), f.node.exec))
            && (forall i :: 0 <= i < |directories| ==>
                  && directories[i] < |es| && es[directories[i]].node.Dir?
                  && var d := es[directories[i]]; out.directories[i] == DirectoryOutput(c, d.name, d.node.entries))
  {
    files, directories := [], [];
    if es != [] {
      var m := |es| - 1;
      files, directories := OutputRows(c, es[..m]);
      var someFiles, someDirectories :=
        set k | 0 <= k < m && es[..m][k].node.File?, set k | 0 <= k < m && es[..m][k].node.Dir?;
      assert (set k | 0 <= k < |es| && es[k].node.File?) == someFiles + if es[m].node.File? then {m} else {};
      assert (set k | 0 <= k < |es| && es[k].node.Dir?) == someDirectories + if es[m].node.Dir? then {m} else {};
      if es[m].node.File? {
        ListsSnoc(files, someFiles, m);
        files := files + [m];
      } else if es[m].node.Dir? {
        ListsSnoc(directories, someDirectories, m);
        directories := directories + [m];
      }
    }
  }

  predicate There(fs: map<string, Stat>, path: string) {
    NodeAt(StatAt(fs, path)).Some?
  }

  /** Entry k of the outputs comes from position j. */
  predicate RowFrom(fs: map<string, Stat>, paths: seq<string>, es: seq<Entry>, k: nat, j: nat)
    requires k < |es|
  {
    && j < |paths| && There(fs, paths[j])
    && es[k] == Entry(paths[j], NodeAt(StatAt(fs, paths[j])).value)
    && InodesOf(es[..k]) == EarlierInodes(fs, paths, j)
  }

  ghost predicate RowsFrom(fs: map<string, Stat>, paths: seq<string>, n: nat, es: seq<Entry>, at: seq<nat>)
    requires n <= |paths|
  {
    && |at| == |es| && InodesOf(es) == EarlierInodes(fs, paths, n)
    && Lists(at, set j | 0 <= j < n && There(fs, paths[j]))
    && forall k :: 0 <= k < |at| ==> RowFrom(fs, paths, es, k, at[k])
  }

  lemma {:induction false} ListingRows(fs: map<string, Stat>, paths: seq<string>, n: nat) returns (at: seq<nat>)
    requires n <= |paths|
    ensures RowsFrom(fs, paths, n, Listing(fs, [], paths, n), at)
  {
    at := [];
    if n > 0 {
      at := ListingRows(fs, paths, n - 1);
      at := RowsNext(fs, paths, n - 1, Listing(fs, [], paths, n - 1), at);
    }
  }

  lemma RowsNext(fs: map<string, Stat>, paths: seq<string>, n: nat, es: seq<Entry>, at: seq<nat>)
    returns (at': seq<nat>)
    requires n < |paths| && RowsFrom(fs, paths, n, es, at)
    ensures RowsFrom(fs, paths, n + 1, es + EntryAt(paths[n], StatAt(fs, paths[n])), at')
  {
    var path := paths[n];
    var some := set j | 0 <= j < n && There(fs, paths[j]);
    assert (set j | 0 <= j < n + 1 && There(fs, paths[j])) == some + if There(fs, path) then {n} else {};
    at' := at;
    if There(fs, path) {
      var all := es + [Entry(path, NodeAt(StatAt(fs, path)).value)];
      ListsSnoc(at, some, n);
      EntryInodes(fs, es, path);
      at' := at + [n];
      forall k | 0 <= k < |at'| ensures RowFrom(fs, paths, all, k, at'[k]) {
        if k < |at| {
          assert RowFrom(fs, paths, es, k, at[k]) && all[..k] == es[..k];
        } else {
          assert all[..k] == es;
        }
      }
    } else {
      assert es + EntryAt(path, StatAt(fs, path)) == es;
    }
  }

  lemma EntryInodes(fs: map<string, Stat>, es: seq<Entry>, path: string)
    requires There(fs, path)
    ensures InodesOf(es + [Entry(path, NodeAt(StatAt(fs, path)).value)]) == InodesOf(es) + InodesThere(fs, path)
  {
    var e := Entry(path, NodeAt(StatAt(fs, path)).value);
    assert (es + [e])[..|es|] == es;
  }

  lemma {:induction false} ListingConcat(fs: map<string, Stat>, es: seq<Entry>, a: seq<string>, b: seq<string>, n: nat)
    requires n <= |b|
    ensures Listing(fs, es, a + b, |a| + n) == Listing(fs, Listing(fs, es, a, |a|), b, n)
  {
    if n == 0 {
      ListingPrefix(fs, es, a, b, |a|);
    } else {
      ListingConcat(fs, es, a, b, n - 1);
      assert (a + b)[|a| + n - 1] == b[n - 1];
    }
  }

  lemma {:induction false} ListingPrefix(fs: map<string, Stat>, es: seq<Entry>, a: seq<string>, b: seq<string>, n: nat)
    requires n <= |a|
    ensures Listing(fs, es, a + b, n) == Listing(fs, es, a, n)
  {
    if n > 0 {
      ListingPrefix(fs, es, a, b, n - 1);
    }
  }

  lemma DeclaredListing(fs: map<string, Stat>, cmd: Command)
    ensures Declared(fs, cmd) == All(fs, [], PathsOf(cmd))
  {
    AllConcat(fs, [], cmd.outputFiles, cmd.outputDirectories);
    AllConcat(fs, [], cmd.outputFiles + cmd.outputDirectories, cmd.outputPaths);
  }

  lemma AllConcat(fs: map<string, Stat>, es: seq<Entry>, a: seq<string>, b: seq<string>)
    ensures All(fs, es, a + b) == All(fs, All(fs, es, a), b)
  {
    ListingConcat(fs, es, a, b, |b|);
  }

  function Composed(at: seq<nat>, inner: seq<nat>): seq<nat>
    requires forall i :: 0 <= i < |inner| ==> inner[i] < |at|
  {
    seq(|inner|, i requires 0 <= i < |inner| => at[inner[i]])
  }

  lemma ListsCompose(at: seq<nat>, positions: set<nat>, inner: seq<nat>, chosen: set<nat>)
    requires Lists(at, positions) && Lists(inner, chosen) && forall k :: k in chosen ==> k < |at|
    ensures forall i :: 0 <= i < |inner| ==> inner[i] < |at|
    ensures Lists(Composed(at, inner), set k | k in chosen :: at[k])
  {
    forall i | 0 <= i < |inner| ensures inner[i] < |at| { assert inner[i] in chosen; }
    var composed := Composed(at, inner);
    forall j ensures j in composed <==> j in set k | k in chosen :: at[k] {
      if k :| k in chosen && at[k] == j {
        var i :| 0 <= i < |inner| && inner[i] == k;
        assert composed[i] == j;
      }
      if i :| 0 <= i < |composed| && composed[i] == j { assert inner[i] in chosen; }
    }
  }

  /** The positions of the outputs of one kind: of the entries, and of the paths they come from. */
  lemma PathPositions(fs: map<string, Stat>, paths: seq<string>, es: seq<Entry>, at: seq<nat>, chosen: set<nat>,
                      wanted: set<nat>)
    requires RowsFrom(fs, paths, |paths|, es, at)
    requires forall k :: k in chosen ==> k < |at| && at[k] in wanted
    requires forall j :: j in wanted ==> j < |paths| && There(fs, paths[j])
    requires forall k: nat :: k < |at| && at[k] in wanted ==> k in chosen
    ensures wanted == set k | k in chosen :: at[k]
  {
    forall j | j in wanted ensures exists k :: k in chosen && at[k] == j {
      assert j in at by { assert j in set i | 0 <= i < |paths| && There(fs, paths[i]); }
      var k :| 0 <= k < |at| && at[k] == j;
    }
  }

  lemma FileRows(c: Codec, blobs: Blobs, fs: map<string, Stat>, paths: seq<string>, es: seq<Entry>, at: seq<nat>,
                 before: set<nat>, after: set<nat>, out: seq<OutputFile>, files: seq<nat>)
    returns (positions: seq<nat>)
    requires RowsFrom(fs, paths, |paths|, es, at)
    requires var seen := Uploading(es, before, after);
             && AllStored(c, blobs, seen) && |out| == |files|
             && Lists(files, set k | 0 <= k < |seen| && seen[k].node.File?)
             && forall i :: 0 <= i < |files| ==>
                  && files[i] < |seen| && seen[files[i]].node.File?
                  && var f := seen[files[i]]; out[i] == OutputFile(f.name, c.hash(f.node.data), f.node.exec)
    ensures Lists(positions, set j | 0 <= j < |paths| && FileThere(fs, paths[j]))
    ensures |out| == |positions|
    ensures forall k :: 0 <= k < |positions| ==>
              positions[k] < |paths| && FileRow(blobs, fs, paths, before, after, positions[k], out[k])
  {
    var seen := Uploading(es, before, after);
    var chosen := set k | 0 <= k < |seen| && seen[k].node.File?;
    var wanted := set j | 0 <= j < |paths| && FileThere(fs, paths[j]);
    forall k: nat | k < |at| ensures k in chosen <==> at[k] in wanted {
      assert RowFrom(fs, paths, es, k, at[k]);
      SeenIndex(es, before, after, {}, k);
    }
    PathPositions(fs, paths, es, at, chosen, wanted);
    ListsCompose(at, (set j | 0 <= j < |paths| && There(fs, paths[j])), files, chosen);
    positions := Composed(at, files);
    forall i | 0 <= i < |positions|
      ensures positions[i] < |paths| && FileRow(blobs, fs, paths, before, after, positions[i], out[i])
    {
      var k := files[i];
      assert RowFrom(fs, paths, es, k, at[k]);
      SeenIndex(es, before, after, {}, k);
      OutputBitExactly(es, before, after, k);
      assert Stored(c, blobs, seen[k]);
    }
  }

  lemma DescribedAt(c: Codec, es: seq<Entry>, before: set<nat>, after: set<nat>, earlier: set<nat>, p: Path)
    requires Listed(Seen(es, before, after, earlier))
    ensures var m := UnfoldingOf(c, Seen(es, before, after, earlier));
            Describes(c, TreeAt(es, p), Lookup(m, p), Lost(TreeAt(es, p), before, after, earlier + Before(es, p)))
  {
    LookupAgrees(c, Seen(es, before, after, earlier), p);
    SeenAt(es, before, after, earlier, p);
  }

  lemma TreeRowHolds(c: Codec, blobs: Blobs, es: seq<Entry>, before: set<nat>, after: set<nat>, earlier: set<nat>,
                     o: OutputDirectory)
    requires Lawful(c) && Addressed(c, blobs) && Listed(es)
    requires var seen := Seen(es, before, after, earlier);
             TreeStored(c, blobs, seen) && o == DirectoryOutput(c, o.path, seen)
    ensures exists t, m :: TreeRow(c, blobs, es, before, after, earlier, o, t, m)
  {
    var seen := Seen(es, before, after, earlier);
    SeenListed(es, before, after, earlier);
    var t, m := Tree(DirectoryOf(c, seen), ChildrenOf(c, seen)), UnfoldingOf(c, seen);
    assert Closed(c, t) by { TreeComplete(c, blobs, seen); }
    assert Unfolds(c, blobs, o.rootDigest, m) by { UploadedUnfolds(c, blobs, seen); }
    forall p: Path
      ensures Describes(c, TreeAt(es, p), Lookup(m, p), Lost(TreeAt(es, p), before, after, earlier + Before(es, p)))
    {
      DescribedAt(c, es, before, after, earlier, p);
    }
    assert TreeRow(c, blobs, es, before, after, earlier, o, t, m);
  }

  lemma DirectoryRows(c: Codec, blobs: Blobs, fs: map<string, Stat>, paths: seq<string>, es: seq<Entry>, at: seq<nat>,
                      before: set<nat>, after: set<nat>, out: seq<OutputDirectory>, directories: seq<nat>)
    returns (positions: seq<nat>)
    requires Lawful(c) && Addressed(c, blobs) && AllListed(es) && RowsFrom(fs, paths, |paths|, es, at)
    requires var seen := Uploading(es, before, after);
             && AllStored(c, blobs, seen) && |out| == |directories|
             && Lists(directories, set k | 0 <= k < |seen| && seen[k].node.Dir?)
             && forall i :: 0 <= i < |directories| ==>
                  && directories[i] < |seen| && seen[directories[i]].node.Dir?
                  && var d := seen[directories[i]]; out[i] == DirectoryOutput(c, d.name, d.node.entries)
    ensures Lists(positions, set j | 0 <= j < |paths| && ListingThere(fs, paths[j]))
    ensures |out| == |positions|
    ensures forall k :: 0 <= k < |positions| ==>
              positions[k] < |paths| && DirectoryRow(c, blobs, fs, paths, before, after, positions[k], out[k])
  {
    var seen := Uploading(es, before, after);
    var chosen := set k | 0 <= k < |seen| && seen[k].node.Dir?;
    var wanted := set j | 0 <= j < |paths| && ListingThere(fs, paths[j]);
    forall k: nat | k < |at| ensures k in chosen <==> at[k] in wanted {
      assert RowFrom(fs, paths, es, k, at[k]);
      SeenIndex(es, before, after, {}, k);
    }
    PathPositions(fs, paths, es, at, chosen, wanted);
    ListsCompose(at, (set j | 0 <= j < |paths| && There(fs, paths[j])), directories, chosen);
    positions := Composed(at, directories);
    forall i | 0 <= i < |positions|
      ensures positions[i] < |paths| && DirectoryRow(c, blobs, fs, paths, before, after, positions[i], out[i])
    {
      var k := directories[i];
      assert RowFrom(fs, paths, es, k, at[k]);
      DirectoryRowHolds(c, blobs, fs, paths, es, before, after, k, at[k], out[i]);
    }
  }

  lemma DirectoryRowHolds(c: Codec, blobs: Blobs, fs: map<string, Stat>, paths: seq<string>, es: seq<Entry>,
                          before: set<nat>, after: set<nat>, k: nat, j: nat, o: OutputDirectory)
    requires Lawful(c) && Addressed(c, blobs) && AllListed(es) && k < |es| && RowFrom(fs, paths, es, k, j)
    requires var seen := Uploading(es, before, after);
             && AllStored(c, blobs, seen) && seen[k].node.Dir?
             && o == DirectoryOutput(c, seen[k].name, seen[k].node.entries)
    ensures DirectoryRow(c, blobs, fs, paths, before, after, j, o)
  {
    var seen := Uploading(es, before, after);
    assert seen[k] == SeenEntry(es[k], before, after, InodesOf(es[..k])) by {
      SeenIndex(es, before, after, {}, k);
      assert {} + InodesOf(es[..k]) == InodesOf(es[..k]);
    }
    assert Stored(c, blobs, seen[k]);
    var there := es[k].node.entries;
    assert ListingThere(fs, paths[j]) && EntriesThere(fs, paths[j]) == there;
    TreeRowHolds(c, blobs, there, before, after, EarlierInodes(fs, paths, j), o);
  }

  lemma StreamsHold(c: Codec, blobs: Blobs, es: seq<Entry>, ex: ExecResult, out: Outputs)
    requires OutputsKept(c, blobs, es, ex)
    ensures StreamsReported(blobs, ex, ResultOf(c, out, ex))
  {
  }

  lemma ReportExactly(c: Codec, blobs: Blobs, fs: map<string, Stat>, content: nat -> Bytes, cmd: Command,
                      ex: ExecResult,
                      before: set<nat>, after: set<nat>, r: ActionResult)
    returns (files: seq<nat>, directories: seq<nat>)
    requires Lawful(c) && Addressed(c, blobs) && GoodStats(fs, content)
    requires var seen := Uploading(Declared(fs, cmd), before, after);
             OutputsKept(c, blobs, seen, ex) && r == ResultOf(c, OutputsOf(c, seen), ex)
    ensures Reports(c, blobs, fs, cmd, ex, before, after, r, files, directories)
  {
    var es, paths := Declared(fs, cmd), PathsOf(cmd);
    StreamsHold(c, blobs, Uploading(es, before, after), ex, OutputsOf(c, Uploading(es, before, after)));
    DeclaredListing(fs, cmd);
    var at := ListingRows(fs, paths, |paths|);
    files, directories := OutputRows(c, Uploading(es, before, after));
    files := FileRows(c, blobs, fs, paths, es, at, before, after, r.files, files);
    DeclaredListed(fs, content, cmd);
    directories := DirectoryRows(c, blobs, fs, paths, es, at, before, after, r.directories, directories);
  }

  // What a reader of the result may rely on.

  /** Every digest the result names is in the store, and behind each output directory stands a complete tree. */
  ghost predicate Backed(c: Codec, blobs: Blobs, r: ActionResult) {
    && (r.stdout.Some? ==> r.stdout.value in blobs)
    && (r.stderr.Some? ==> r.stderr.value in blobs)
    && OutBacked(c, blobs, Outputs(r.files, r.directories))
  }

  ghost predicate BackedDirectory(c: Codec, blobs: Blobs, o: OutputDirectory) {
    && o.treeDigest in blobs && o.rootDigest in blobs
    && exists es: seq<Entry> :: Listed(es) && TreeStored(c, blobs, es) && o == DirectoryOutput(c, o.path, es)
  }

  ghost predicate OutBacked(c: Codec, blobs: Blobs, out: Outputs) {
    && (forall i :: 0 <= i < |out.files| ==> out.files[i].digest in blobs)
    && (forall i :: 0 <= i < |out.directories| ==> BackedDirectory(c, blobs, out.directories[i]))
  }

  lemma WithOutputBacked(c: Codec, blobs: Blobs, out: Outputs, e: Entry)
    requires OutBacked(c, blobs, out) && Stored(c, blobs, e) && (e.node.Dir? ==> Listed(e.node.entries))
    ensures OutBacked(c, blobs, WithOutput(c, out, e))
  {
    if e.node.Dir? {
      assert BackedDirectory(c, blobs, DirectoryOutput(c, e.name, e.node.entries)) by {
        assert Listed(e.node.entries) && TreeStored(c, blobs, e.node.entries);
      }
    }
  }

  lemma {:induction false} OutputsBacked(c: Codec, blobs: Blobs, es: seq<Entry>)
    requires AllStored(c, blobs, es) && AllListed(es)
    ensures OutBacked(c, blobs, OutputsOf(c, es))
  {
    if es != [] {
      var m := |es| - 1;
      OutputsBacked(c, blobs, es[..m]);
      WithOutputBacked(c, blobs, OutputsOf(c, es[..m]), es[m]);
    }
  }

  lemma SeenAllListed(es: seq<Entry>, before: set<nat>, after: set<nat>)
    requires AllListed(es)
    ensures AllListed(Uploading(es, before, after))
  {
    forall i | 0 <= i < |es| && Uploading(es, before, after)[i].node.Dir?
      ensures Listed(Uploading(es, before, after)[i].node.entries)
    {
      SeenIndex(es, before, after, {}, i);
      SeenListed(es[i].node.entries, before, after, {} + InodesOf(es[..i]));
    }
  }

  /** Referential completeness of the result of an upload. */
  lemma ResultBacked(c: Codec, blobs: Blobs, fs: map<string, Stat>, content: nat -> Bytes, cmd: Command, ex: ExecResult,
                     before: set<nat>, after: set<nat>)
    requires OutputsKept(c, blobs, Uploading(Declared(fs, cmd), before, after), ex) && GoodStats(fs, content)
    ensures Backed(c, blobs, ResultOf(c, OutputsOf(c, Uploading(Declared(fs, cmd), before, after)), ex))
  {
    DeclaredListed(fs, content, cmd);
    SeenAllListed(Declared(fs, cmd), before, after);
    OutputsBacked(c, blobs, Uploading(Declared(fs, cmd), before, after));
  }

  method UploadOutputs(c: Codec, store: BlobStore, disk: Disk, fs: map<string, Stat>, cmd: Command, ex: ExecResult)
    returns (r: Option<ActionResult>, ghost files: seq<nat>, ghost directories: seq<nat>)
    requires Lawful(c) && Addressed(c, store.blobs) && GoodStats(fs, disk.content)
    modifies store, disk`cleared
    ensures Addressed(c, store.blobs) && Extends(old(store.blobs), store.blobs)
    ensures r.Some? ==>
              && Reports(c, store.blobs, fs, cmd, ex, old(disk.cleared), disk.cleared, r.value, files, directories)
              && Backed(c, store.blobs, r.value)
    ensures store.healthy ==> (r.Some? <==> Uploadable(fs, cmd))
  {
    var ok, stdout := UploadStream(c, store, ex.stdout);
    if !ok {
      return None, [], [];
    }
    var stderr;
    ok, stderr := UploadStream(c, store, ex.stderr);
    if !ok {
      return None, [], [];
    }
    ghost var blobs2 := store.blobs;
    var out := UploadLists(c, store, disk, fs, cmd);
    ExtendsTransitive(old(store.blobs), blobs2, store.blobs);
    if out.None? {
      return None, [], [];
    }
    r := Some(ActionResult(ex.exitCode, stdout, stderr, out.value.files, out.value.directories));
    ghost var before, after := old(disk.cleared), disk.cleared;
    files, directories := ReportExactly(c, store.blobs, fs, disk.content, cmd, ex, before, after, r.value);
    ResultBacked(c, store.blobs, fs, disk.content, cmd, ex, before, after);
  }

  class ActionCache {
    const healthy: bool
    var entries: map<Digest, ActionResult>

    constructor (healthy: bool)
      ensures entries == map[] && this.healthy == healthy
    {
      entries, this.healthy := map[], healthy;
    }

    /** May fail; the worker ignores the failure. */
    method Update(d: Digest, r: ActionResult)
      modifies this`entries
      ensures entries == old(entries)[d := r] || entries == old(entries)
      ensures healthy ==> entries == old(entries)[d := r]
    {
      var fails: bool := *;
      if !fails || healthy {
        entries := entries[d := r];
      }
    }
  }

  /** The tail of `execute`. An entry that appears in the action cache is for this action, has exit
      code 0, was not requested to be skipped, and names only digests that are in the store now. */
  method FinishAction(c: Codec, store: BlobStore, disk: Disk, cache: ActionCache, fs: map<string, Stat>, cmd: Command,
                      ex: ExecResult, action: Digest, skipCache: bool)
    returns (r: Option<ActionResult>, ghost files: seq<nat>, ghost directories: seq<nat>)
    requires Lawful(c) && Addressed(c, store.blobs) && GoodStats(fs, disk.content)
    modifies store, cache, disk`cleared
    ensures Addressed(c, store.blobs) && Extends(old(store.blobs), store.blobs)
    ensures cache.entries != old(cache.entries) ==>
              && r.Some? && cache.entries == old(cache.entries)[action := r.value]
              && r.value.exitCode == 0 && ex.exitCode == 0 && !skipCache
              && Backed(c, store.blobs, r.value)
    ensures r.Some? ==>
              && Backed(c, store.blobs, r.value)
              && Reports(c, store.blobs, fs, cmd, ex, old(disk.cleared), disk.cleared, r.value, files, directories)
    ensures store.healthy ==> (r.Some? <==> Uploadable(fs, cmd))
    ensures cache.healthy && r.Some? && ex.exitCode == 0 && !skipCache ==>
              cache.entries == old(cache.entries)[action := r.value]
  {
    r, files, directories := UploadOutputs(c, store, disk, fs, cmd, ex);
    if r.Some? && r.value.exitCode == 0 && !skipCache {
      cache.Update(action, r.value);
    }
  }
}

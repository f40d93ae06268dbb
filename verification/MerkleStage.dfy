/**
 Staging a directory tree from the store: `stageDirectory` and `stageFile`.
 */
module MerkleStage {
  import opened Wrappers
  import opened Content
  import opened MerkleModel
  import opened MerkleUpload

  type Path = seq<string>

  /** A copied file owns its permission bits; a hard link shares the inode, and so
      the permission bits, of the CAS file. */
  datatype FsNode = FsDir | FsSymlink(target: string) | FsCopy(data: Bytes, exec: bool) | FsHard(digest: Digest)

  class FileSystem {
    // False if the operating system may refuse an otherwise possible operation.
    const healthy: bool
    var nodes: map<Path, FsNode>
    // CAS files that carry an executable bit.
    var casExec: set<Digest>

    constructor (healthy: bool)
      ensures nodes == map[] && casExec == {} && this.healthy == healthy
    {
      this.healthy, nodes, casExec := healthy, map[], {};
    }

    method Refused() returns (refused: bool)
      ensures healthy ==> !refused
    {
      refused := *;
      refused := refused && !healthy;
    }

    method MkdirAll(p: Path) returns (ok: bool)
      modifies this`nodes
      ensures if ok then nodes == old(nodes)[p := FsDir] else nodes == old(nodes)
      ensures ok ==> p !in old(nodes) || old(nodes)[p].FsDir?
      ensures healthy && (p !in old(nodes) || old(nodes)[p].FsDir?) ==> ok
    {
      ok := p !in nodes || nodes[p].FsDir?;
      var refused := Refused();
      ok := ok && !refused;
      if ok {
        nodes := nodes[p := FsDir];
      }
    }

    method Symlink(target: string, p: Path) returns (ok: bool)
      modifies this`nodes
      ensures if ok then p !in old(nodes) && nodes == old(nodes)[p := FsSymlink(target)] else nodes == old(nodes)
      ensures healthy && p !in old(nodes) ==> ok
    {
      ok := p !in nodes;
      var refused := Refused();
      ok := ok && !refused;
      if ok {
        nodes := nodes[p := FsSymlink(target)];
      }
    }

    /** Hard-links a CAS file; may fail even on a healthy system (another device, say). */
    method Link(d: Digest, p: Path) returns (ok: bool)
      modifies this`nodes
      ensures if ok then p !in old(nodes) && nodes == old(nodes)[p := FsHard(d)] else nodes == old(nodes)
    {
      ok := *;
      if p in nodes {
        ok := false;
      }
      if ok {
        nodes := nodes[p := FsHard(d)];
      }
    }

    /** Creates a new file with the given permissions. */
    method Create(p: Path, data: Bytes, exec: bool) returns (ok: bool)
      requires p !in nodes
      modifies this`nodes
      ensures if ok then nodes == old(nodes)[p := FsCopy(data, exec)] else nodes == old(nodes)
      ensures healthy ==> ok
    {
      ok := true;
      var refused := Refused();
      ok := ok && !refused;
      if ok {
        nodes := nodes[p := FsCopy(data, exec)];
      }
    }

    /** Adds the executable bit to a CAS file that has none. */
    method MakeCasExecutable(d: Digest) returns (ok: bool)
      modifies this`casExec
      ensures if ok then casExec == old(casExec) + {d} else casExec == old(casExec)
      ensures healthy ==> ok
    {
      ok := true;
      var refused := Refused();
      ok := ok && !refused;
      if ok && d !in casExec {
        casExec := casExec + {d};
      }
    }
  }

  /** `local`: the store is backed by the local file system, so blobs can be linked. */
  method StageFile(fs: FileSystem, store: BlobStore, local: bool, path: Path, d: Digest, executable: bool)
    returns (ok: bool)
    requires path !in fs.nodes
    modifies fs
    ensures ok ==>
              && d in store.blobs
              && (|| fs.nodes == old(fs.nodes)[path := FsCopy(store.blobs[d], executable)]
                  || (local && fs.nodes == old(fs.nodes)[path := FsHard(d)]))
              && fs.casExec == old(fs.casExec) + if local && executable then {d} else {}
    ensures fs.healthy && d in store.blobs ==> ok
  {
    var data := store.Get(d);
    if data.None? {
      return false;
    }
    if local {
      if executable {
        ok := fs.MakeCasExecutable(d);
        if !ok {
          return false;
        }
      }
      var linked := fs.Link(d, path);
      if linked {
        return true;
      }
    }
    ok := fs.Create(path, data.value, executable);
  }

  /** What the store says a digest stands for. Absent: no blob, or not a directory. */
  datatype Unfolding = Absent | Unfolded(dir: Directory, subs: seq<Unfolding>)

  ghost predicate Unfolds(c: Codec, blobs: Blobs, d: Digest, m: Unfolding)
    decreases m
  {
    match m
    case Absent => d !in blobs || c.unmarshal(blobs[d]).None?
    case Unfolded(dir, subs) =>
      && d in blobs && c.unmarshal(blobs[d]) == Some(dir)
      && |subs| == |dir.directories|
      && forall i :: 0 <= i < |subs| ==> Unfolds(c, blobs, dir.directories[i].digest, subs[i])
  }

  /** Everything the unfolding mentions can be fetched. */
  ghost predicate Fetchable(blobs: Blobs, m: Unfolding) {
    && m.Unfolded?
    && (forall i :: 0 <= i < |m.dir.files| ==> m.dir.files[i].digest in blobs)
    && (forall i :: 0 <= i < |m.subs| ==> Fetchable(blobs, m.subs[i]))
  }

  ghost predicate AllFetchable(blobs: Blobs, subs: seq<Unfolding>, n: nat)
    requires n <= |subs|
  {
    n == 0 || (AllFetchable(blobs, subs, n - 1) && Fetchable(blobs, subs[n - 1]))
  }

  lemma {:induction false} AllFetchableExactly(blobs: Blobs, subs: seq<Unfolding>, n: nat)
    requires n <= |subs|
    ensures AllFetchable(blobs, subs, n) <==> forall i :: 0 <= i < n ==> Fetchable(blobs, subs[i])
  {
    if n > 0 {
      AllFetchableExactly(blobs, subs, n - 1);
    }
  }

  /** No two children of a directory share a name. */
  ghost predicate DistinctNames(d: Directory) {
    && (forall i, j :: 0 <= i < j < |d.files| ==> d.files[i].name != d.files[j].name)
    && (forall i, j :: 0 <= i < j < |d.symlinks| ==> d.symlinks[i].name != d.symlinks[j].name)
    && (forall i, j :: 0 <= i < j < |d.directories| ==> d.directories[i].name != d.directories[j].name)
    && (forall i, j :: 0 <= i < |d.files| && 0 <= j < |d.symlinks| ==> d.files[i].name != d.symlinks[j].name)
    && (forall i, j :: 0 <= i < |d.files| && 0 <= j < |d.directories| ==> d.files[i].name != d.directories[j].name)
    && (forall i, j :: 0 <= i < |d.symlinks| && 0 <= j < |d.directories| ==>
          d.symlinks[i].name != d.directories[j].name)
  }

  ghost predicate WellNamed(m: Unfolding) {
    m.Unfolded? ==> DistinctNames(m.dir) && forall i :: 0 <= i < |m.subs| ==> WellNamed(m.subs[i])
  }

  // What the unfolding puts at a relative path.

  datatype Item = ItemDir | ItemSymlink(target: string) | ItemFile(digest: Digest, exec: bool)

  function FindFile(fs: seq<FileNode>, n: string): Option<FileNode> {
    if fs == [] then None
    else if fs[|fs| - 1].name == n then Some(fs[|fs| - 1]) else FindFile(fs[..|fs| - 1], n)
  }

  function FindSymlink(ls: seq<SymlinkNode>, n: string): Option<SymlinkNode> {
    if ls == [] then None
    else if ls[|ls| - 1].name == n then Some(ls[|ls| - 1]) else FindSymlink(ls[..|ls| - 1], n)
  }

  function FindDirectory(ds: seq<DirectoryNode>, n: string): (r: Option<nat>)
    ensures r.Some? ==> r.value < |ds| && ds[r.value].name == n
    ensures r.None? ==> forall i :: 0 <= i < |ds| ==> ds[i].name != n
  {
    if ds == [] then None
    else if ds[|ds| - 1].name == n then Some(|ds| - 1) else FindDirectory(ds[..|ds| - 1], n)
  }

  function LookupIn(d: Directory, subs: seq<Unfolding>, p: Path): Option<Item>
    requires |d.directories| <= |subs|
    decreases |p|, 0
  {
    if p == [] then Some(ItemDir)
    else
      var file, link, sub := FindFile(d.files, p[0]), FindSymlink(d.symlinks, p[0]), FindDirectory(d.directories, p[0]);
      if file.Some? then
        if |p| == 1 then Some(ItemFile(file.value.digest, file.value.isExecutable)) else None
      else if link.Some? then
        if |p| == 1 then Some(ItemSymlink(link.value.target)) else None
      else if sub.Some? then Lookup(subs[sub.value], p[1..])
      else None
  }

  function Lookup(m: Unfolding, p: Path): Option<Item>
    decreases |p|, 1
  {
    if m.Absent? || |m.dir.directories| > |m.subs| then None else LookupIn(m.dir, m.subs, p)
  }

  predicate Under(at: Path, p: Path) {
    |at| <= |p| && p[..|at|] == at
  }

  lemma UnderChild(at: Path, n: string, p: Path)
    ensures Under(at + [n], p) <==> Under(at, p) && |at| < |p| && p[|at|] == n
  {
    if |at| < |p| {
      assert p[..|at| + 1] == p[..|at|] + [p[|at|]];
      assert (at + [n])[..|at|] == at && (at + [n])[|at|] == n;
      assert p[..|at|] == p[..|at| + 1][..|at|];
    }
  }

  predicate Matches(nodes: map<Path, FsNode>, local: bool, casExec: set<Digest>, blobs: Blobs, p: Path,
                    want: Option<Item>)
  {
    match want
    case None => p !in nodes
    case Some(ItemDir) => p in nodes && nodes[p].FsDir?
    case Some(ItemSymlink(t)) => p in nodes && nodes[p] == FsSymlink(t)
    case Some(ItemFile(d, e)) =>
      && p in nodes && d in blobs
      && (nodes[p] == FsCopy(blobs[d], e) || (local && nodes[p] == FsHard(d) && (e ==> d in casExec)))
  }

  /** Below `at`, the file system is what the directory and its unfolded subdirectories say. */
  ghost predicate Image(nodes: map<Path, FsNode>, local: bool, casExec: set<Digest>, blobs: Blobs, at: Path,
                        d: Directory, subs: seq<Unfolding>)
    requires |d.directories| <= |subs|
  {
    forall p :: Under(at, p) ==> Matches(nodes, local, casExec, blobs, p, LookupIn(d, subs, p[|at|..]))
  }

  ghost predicate SameOutside(a: map<Path, FsNode>, b: map<Path, FsNode>, at: Path) {
    forall p :: !Under(at, p) ==> (p in a <==> p in b) && (p in a ==> a[p] == b[p])
  }

  lemma {:induction false} FindFileNone(fs: seq<FileNode>, n: string)
    requires forall i :: 0 <= i < |fs| ==> fs[i].name != n
    ensures FindFile(fs, n).None?
  {
    if fs != [] { FindFileNone(fs[..|fs| - 1], n); }
  }

  lemma {:induction false} FindSymlinkNone(ls: seq<SymlinkNode>, n: string)
    requires forall i :: 0 <= i < |ls| ==> ls[i].name != n
    ensures FindSymlink(ls, n).None?
  {
    if ls != [] { FindSymlinkNone(ls[..|ls| - 1], n); }
  }

  /** One file was staged at p, by copy or by hard link. */
  predicate Placed(nodes: map<Path, FsNode>, nodes': map<Path, FsNode>, local: bool, casExec': set<Digest>,
                   blobs: Blobs, p: Path, d: Digest, e: bool)
  {
    && d in blobs
    && (|| nodes' == nodes[p := FsCopy(blobs[d], e)]
        || (local && nodes' == nodes[p := FsHard(d)] && (e ==> d in casExec')))
  }

  lemma AddFile(nodes: map<Path, FsNode>, nodes': map<Path, FsNode>, local: bool, casExec: set<Digest>,
                casExec': set<Digest>, blobs: Blobs, at: Path, files: seq<FileNode>, i: nat)
    requires i < |files| && forall j :: 0 <= j < i ==> files[j].name != files[i].name
    requires Image(nodes, local, casExec, blobs, at, Directory(files[..i], [], []), [])
    requires casExec <= casExec'
    requires Placed(nodes, nodes', local, casExec', blobs, at + [files[i].name], files[i].digest, files[i].isExecutable)
    ensures Image(nodes', local, casExec', blobs, at, Directory(files[..i + 1], [], []), [])
    ensures SameOutside(nodes, nodes', at)
  {
    var d, d' := Directory(files[..i], [], []), Directory(files[..i + 1], [], []);
    assert files[..i + 1][..i] == files[..i];
    forall p | Under(at, p) ensures Matches(nodes', local, casExec', blobs, p, LookupIn(d', [], p[|at|..])) {
      var rel := p[|at|..];
      assert p == at + rel;
      assert Matches(nodes, local, casExec, blobs, p, LookupIn(d, [], rel));
      if rel != [] && rel[0] == files[i].name {
        FindFileNone(files[..i], rel[0]);
        assert |rel| == 1 ==> rel == [files[i].name];
      }
    }
  }

  lemma AddSymlink(nodes: map<Path, FsNode>, nodes': map<Path, FsNode>, local: bool, casExec: set<Digest>, blobs: Blobs,
                   at: Path, d: Directory, i: nat)
    requires i < |d.symlinks| && DistinctNames(d)
    requires Image(nodes, local, casExec, blobs, at, Directory(d.files, d.symlinks[..i], []), [])
    requires nodes' == nodes[at + [d.symlinks[i].name] := FsSymlink(d.symlinks[i].target)]
    ensures Image(nodes', local, casExec, blobs, at, Directory(d.files, d.symlinks[..i + 1], []), [])
    ensures SameOutside(nodes, nodes', at)
  {
    var ls := d.symlinks;
    assert ls[..i + 1][..i] == ls[..i];
    forall p | Under(at, p)
      ensures Matches(nodes', local, casExec, blobs, p, LookupIn(Directory(d.files, ls[..i + 1], []), [], p[|at|..])) {
      var rel := p[|at|..];
      assert p == at + rel;
      assert Matches(nodes, local, casExec, blobs, p, LookupIn(Directory(d.files, ls[..i], []), [], rel));
      if rel != [] && rel[0] == ls[i].name {
        FindFileNone(d.files, rel[0]);
        FindSymlinkNone(ls[..i], rel[0]);
        assert |rel| == 1 ==> rel == [ls[i].name];
      }
    }
  }

  /** A name not yet staged has nothing at or below it. */
  lemma NothingBelow(nodes: map<Path, FsNode>, local: bool, casExec: set<Digest>, blobs: Blobs, at: Path, d: Directory,
                     subs: seq<Unfolding>, n: string)
    requires |d.directories| <= |subs| && Image(nodes, local, casExec, blobs, at, d, subs)
    requires forall j :: 0 <= j < |d.files| ==> d.files[j].name != n
    requires forall j :: 0 <= j < |d.symlinks| ==> d.symlinks[j].name != n
    requires forall j :: 0 <= j < |d.directories| ==> d.directories[j].name != n
    ensures forall p :: Under(at + [n], p) ==> p !in nodes
  {
    forall p | Under(at + [n], p) ensures p !in nodes {
      UnderChild(at, n, p);
      var rel := p[|at|..];
      FindFileNone(d.files, n);
      FindSymlinkNone(d.symlinks, n);
      assert Matches(nodes, local, casExec, blobs, p, LookupIn(d, subs, rel));
    }
  }

  lemma LookupLast(d: Directory, subs: seq<Unfolding>, i: nat, rel: Path)
    requires i < |d.directories| == |subs| && DistinctNames(d) && rel != [] && rel[0] == d.directories[i].name
    ensures LookupIn(d.(directories := d.directories[..i + 1]), subs, rel) == Lookup(subs[i], rel[1..])
  {
    FindFileNone(d.files, rel[0]);
    FindSymlinkNone(d.symlinks, rel[0]);
    assert FindDirectory(d.directories[..i + 1], rel[0]) == Some(i);
  }

  lemma LookupEarlier(d: Directory, subs: seq<Unfolding>, i: nat, rel: Path)
    requires i < |d.directories| == |subs| && (rel == [] || rel[0] != d.directories[i].name)
    ensures LookupIn(d.(directories := d.directories[..i + 1]), subs, rel)
            == LookupIn(d.(directories := d.directories[..i]), subs, rel)
  {
    assert d.directories[..i + 1][..i] == d.directories[..i];
    if rel != [] {
      assert FindDirectory(d.directories[..i + 1], rel[0]) == FindDirectory(d.directories[..i], rel[0]);
    }
  }

  lemma AddDirectory(nodes: map<Path, FsNode>, nodes': map<Path, FsNode>, local: bool, casExec: set<Digest>,
                     casExec': set<Digest>, blobs: Blobs, at: Path, d: Directory, subs: seq<Unfolding>, i: nat)
    requires i < |d.directories| == |subs| && DistinctNames(d) && casExec <= casExec'
    requires subs[i].Unfolded? && |subs[i].dir.directories| == |subs[i].subs|
    requires Image(nodes, local, casExec, blobs, at, d.(directories := d.directories[..i]), subs)
    requires Image(nodes', local, casExec', blobs, at + [d.directories[i].name], subs[i].dir, subs[i].subs)
    requires SameOutside(nodes, nodes', at + [d.directories[i].name])
    ensures Image(nodes', local, casExec', blobs, at, d.(directories := d.directories[..i + 1]), subs)
    ensures SameOutside(nodes, nodes', at)
  {
    var ds, n := d.directories, d.directories[i].name;
    assert ds[..i + 1][..i] == ds[..i];
    forall p | !Under(at, p) ensures !Under(at + [n], p) { UnderChild(at, n, p); }
    forall p | Under(at, p)
      ensures Matches(nodes', local, casExec', blobs, p, LookupIn(d.(directories := ds[..i + 1]), subs, p[|at|..]))
    {
      var rel := p[|at|..];
      assert p == at + rel;
      if rel != [] && rel[0] == n {
        LookupLast(d, subs, i, rel);
        UnderChild(at, n, p);
        assert p[|at + [n]|..] == rel[1..];
        assert Matches(nodes', local, casExec', blobs, p, LookupIn(subs[i].dir, subs[i].subs, p[|at + [n]|..]));
      } else {
        UnderChild(at, n, p);
        assert Matches(nodes, local, casExec, blobs, p, LookupIn(d.(directories := ds[..i]), subs, rel));
        LookupEarlier(d, subs, i, rel);
      }
    }
  }

  // Digests staged as executables.

  function ExecFiles(fs: seq<FileNode>): set<Digest> {
    if fs == [] then {}
    else ExecFiles(fs[..|fs| - 1]) + if fs[|fs| - 1].isExecutable then {fs[|fs| - 1].digest} else {}
  }

  function ExecDigests(m: Unfolding): set<Digest>
    decreases m, 0
  {
    if m.Absent? then {} else ExecFiles(m.dir.files) + ExecSubs(m.subs)
  }

  function ExecSubs(subs: seq<Unfolding>): set<Digest>
    decreases subs
  {
    if subs == [] then {} else ExecSubs(subs[..|subs| - 1]) + ExecDigests(subs[|subs| - 1])
  }

  lemma ExecStep(subs: seq<Unfolding>, i: nat)
    requires i < |subs|
    ensures ExecSubs(subs[..i + 1]) == ExecSubs(subs[..i]) + ExecDigests(subs[i])
  {
    assert subs[..i + 1][..i] == subs[..i];
  }

  lemma SameOutsideTransitive(a: map<Path, FsNode>, b: map<Path, FsNode>, c: map<Path, FsNode>, at: Path)
    requires SameOutside(a, b, at) && SameOutside(b, c, at)
    ensures SameOutside(a, c, at)
  {
  }

  /** One turn of the loop below. */
  method StageFileAt(fs: FileSystem, store: BlobStore, local: bool, at: Path, files: seq<FileNode>, i: nat)
    returns (ok: bool)
    requires i < |files| && forall j :: 0 <= j < i ==> files[j].name != files[i].name
    requires Image(fs.nodes, local, fs.casExec, store.blobs, at, Directory(files[..i], [], []), [])
    modifies fs
    ensures ok ==>
              && files[i].digest in store.blobs
              && Image(fs.nodes, local, fs.casExec, store.blobs, at, Directory(files[..i + 1], [], []), [])
              && SameOutside(old(fs.nodes), fs.nodes, at)
              && fs.casExec == old(fs.casExec) + if local && files[i].isExecutable then {files[i].digest} else {}
    ensures fs.healthy && files[i].digest in store.blobs ==> ok
  {
    var path := at + [files[i].name];
    NothingBelow(fs.nodes, local, fs.casExec, store.blobs, at, Directory(files[..i], [], []), [], files[i].name);
    assert Under(path, path);
    ok := StageFile(fs, store, local, path, files[i].digest, files[i].isExecutable);
    if ok {
      AddFile(old(fs.nodes), fs.nodes, local, old(fs.casExec), fs.casExec, store.blobs, at, files, i);
    }
  }

  method StageFiles(fs: FileSystem, store: BlobStore, local: bool, at: Path, dir: Directory) returns (ok: bool)
    requires DistinctNames(dir) && Image(fs.nodes, local, fs.casExec, store.blobs, at, EMPTY, [])
    modifies fs
    ensures ok ==>
              && (forall i :: 0 <= i < |dir.files| ==> dir.files[i].digest in store.blobs)
              && Image(fs.nodes, local, fs.casExec, store.blobs, at, Directory(dir.files, [], []), [])
              && SameOutside(old(fs.nodes), fs.nodes, at)
              && fs.casExec == old(fs.casExec) + if local then ExecFiles(dir.files) else {}
    ensures fs.healthy && (forall i :: 0 <= i < |dir.files| ==> dir.files[i].digest in store.blobs) ==> ok
  {
    var files := dir.files;
    for i := 0 to |files|
      invariant forall j :: 0 <= j < i ==> files[j].digest in store.blobs
      invariant Image(fs.nodes, local, fs.casExec, store.blobs, at, Directory(files[..i], [], []), [])
      invariant SameOutside(old(fs.nodes), fs.nodes, at)
      invariant fs.casExec == old(fs.casExec) + if local then ExecFiles(files[..i]) else {}
    {
      ghost var nodes0 := fs.nodes;
      ok := StageFileAt(fs, store, local, at, files, i);
      if !ok {
        return false;
      }
      SameOutsideTransitive(old(fs.nodes), nodes0, fs.nodes, at);
      assert files[..i + 1][..i] == files[..i];
    }
    assert files[..|files|] == files;
    return true;
  }

  method StageSymlinks(fs: FileSystem, ghost local: bool, ghost blobs: Blobs, at: Path, dir: Directory)
    returns (ok: bool)
    requires DistinctNames(dir) && Image(fs.nodes, local, fs.casExec, blobs, at, Directory(dir.files, [], []), [])
    modifies fs`nodes
    ensures ok ==>
              && Image(fs.nodes, local, fs.casExec, blobs, at, Directory(dir.files, dir.symlinks, []), [])
              && SameOutside(old(fs.nodes), fs.nodes, at)
    ensures fs.healthy ==> ok
  {
    var links := dir.symlinks;
    for i := 0 to |links|
      invariant Image(fs.nodes, local, fs.casExec, blobs, at, Directory(dir.files, links[..i], []), [])
      invariant SameOutside(old(fs.nodes), fs.nodes, at)
    {
      ghost var nodes0 := fs.nodes;
      var path := at + [links[i].name];
      NothingBelow(fs.nodes, local, fs.casExec, blobs, at, Directory(dir.files, links[..i], []), [], links[i].name);
      assert Under(path, path);
      ok := fs.Symlink(links[i].target, path);
      if !ok {
        return false;
      }
      AddSymlink(nodes0, fs.nodes, local, fs.casExec, blobs, at, dir, i);
    }
    assert links[..|links|] == links;
    return true;
  }

  /** One turn of the loop below. */
  method StageSubdirectory(c: Codec, fs: FileSystem, store: BlobStore, local: bool, at: Path, dir: Directory,
                           ghost subs: seq<Unfolding>, i: nat)
    returns (ok: bool)
    requires i < |subs| == |dir.directories| && DistinctNames(dir)
    requires Unfolds(c, store.blobs, dir.directories[i].digest, subs[i]) && WellNamed(subs[i])
    requires Image(fs.nodes, local, fs.casExec, store.blobs, at, dir.(directories := dir.directories[..i]), subs)
    modifies fs
    ensures ok ==>
              && Fetchable(store.blobs, subs[i])
              && Image(fs.nodes, local, fs.casExec, store.blobs, at, dir.(directories := dir.directories[..i + 1]),
                       subs)
              && SameOutside(old(fs.nodes), fs.nodes, at)
              && fs.casExec == old(fs.casExec) + if local then ExecDigests(subs[i]) else {}
    ensures fs.healthy && Fetchable(store.blobs, subs[i]) ==> ok
    decreases subs, 0
  {
    var dirs := dir.directories;
    NothingBelow(fs.nodes, local, fs.casExec, store.blobs, at, dir.(directories := dirs[..i]), subs, dirs[i].name);
    ok := StageDirectory(c, fs, store, local, at + [dirs[i].name], dirs[i].digest, subs[i]);
    if ok {
      AddDirectory(old(fs.nodes), fs.nodes, local, old(fs.casExec), fs.casExec, store.blobs, at, dir, subs, i);
    }
  }

  /** The state of the loop below when it has staged `i` subdirectories. */
  ghost predicate SubsDone(nodes0: map<Path, FsNode>, casExec0: set<Digest>, nodes: map<Path, FsNode>,
                           casExec: set<Digest>,
                           local: bool, blobs: Blobs, at: Path, dir: Directory, subs: seq<Unfolding>, i: nat)
    requires i <= |subs| == |dir.directories|
  {
    && AllFetchable(blobs, subs, i)
    && Image(nodes, local, casExec, blobs, at, dir.(directories := dir.directories[..i]), subs)
    && SameOutside(nodes0, nodes, at)
    && casExec == casExec0 + if local then ExecSubs(subs[..i]) else {}
  }

  method StageNext(c: Codec, fs: FileSystem, store: BlobStore, local: bool, at: Path, dir: Directory,
                   ghost subs: seq<Unfolding>, i: nat, ghost nodes0: map<Path, FsNode>, ghost casExec0: set<Digest>)
    returns (ok: bool)
    requires i < |subs| == |dir.directories| && DistinctNames(dir)
    requires Unfolds(c, store.blobs, dir.directories[i].digest, subs[i]) && WellNamed(subs[i])
    requires SubsDone(nodes0, casExec0, fs.nodes, fs.casExec, local, store.blobs, at, dir, subs, i)
    modifies fs
    ensures ok ==> SubsDone(nodes0, casExec0, fs.nodes, fs.casExec, local, store.blobs, at, dir, subs, i + 1)
    ensures fs.healthy && AllFetchable(store.blobs, subs, |subs|) ==> ok
    decreases subs, 1
  {
    ok := StageSubdirectory(c, fs, store, local, at, dir, subs, i);
    assert AllFetchable(store.blobs, subs, |subs|) ==> Fetchable(store.blobs, subs[i]) by {
      AllFetchableExactly(store.blobs, subs, |subs|);
    }
    if ok {
      SameOutsideTransitive(nodes0, old(fs.nodes), fs.nodes, at);
      ExecStep(subs, i);
    }
  }

  method StageSubdirectories(c: Codec, fs: FileSystem, store: BlobStore, local: bool, at: Path, dir: Directory,
                             ghost subs: seq<Unfolding>)
    returns (ok: bool)
    requires |subs| == |dir.directories| && DistinctNames(dir)
    requires forall i :: 0 <= i < |subs| ==>
               Unfolds(c, store.blobs, dir.directories[i].digest, subs[i]) && WellNamed(subs[i])
    requires Image(fs.nodes, local, fs.casExec, store.blobs, at, dir.(directories := []), subs)
    modifies fs
    ensures ok ==>
              SubsDone(old(fs.nodes), old(fs.casExec), fs.nodes, fs.casExec, local, store.blobs, at, dir, subs, |subs|)
    ensures fs.healthy && AllFetchable(store.blobs, subs, |subs|) ==> ok
    decreases subs, 2
  {
    for i := 0 to |dir.directories|
      invariant SubsDone(old(fs.nodes), old(fs.casExec), fs.nodes, fs.casExec, local, store.blobs, at, dir, subs, i)
    {
      ok := StageNext(c, fs, store, local, at, dir, subs, i, old(fs.nodes), old(fs.casExec));
      if !ok {
        return false;
      }
    }
    return true;
  }

  /** A bare directory. */
  lemma EmptyImage(nodes: map<Path, FsNode>, local: bool, casExec: set<Digest>, blobs: Blobs, at: Path)
    requires at in nodes && nodes[at].FsDir? && (forall p :: Under(at, p) && p in nodes ==> p == at)
    ensures Image(nodes, local, casExec, blobs, at, EMPTY, [])
  {
    forall p | Under(at, p) ensures Matches(nodes, local, casExec, blobs, p, LookupIn(EMPTY, [], p[|at|..])) {
      assert p == at + p[|at|..];
      assert p[|at|..] == [] ==> p == at;
    }
  }

  /** Before its subdirectories are staged. */
  lemma FlatImage(nodes: map<Path, FsNode>, local: bool, casExec: set<Digest>, blobs: Blobs, at: Path, d: Directory,
                  subs: seq<Unfolding>)
    requires Image(nodes, local, casExec, blobs, at, Directory(d.files, d.symlinks, []), [])
    ensures Image(nodes, local, casExec, blobs, at, d.(directories := []), subs)
  {
    var flat := d.(directories := []);
    forall p | Under(at, p) ensures Matches(nodes, local, casExec, blobs, p, LookupIn(flat, subs, p[|at|..])) {
      assert LookupIn(flat, subs, p[|at|..]) == LookupIn(Directory(d.files, d.symlinks, []), [], p[|at|..]);
    }
  }

  /** All three loops. */
  method StageContents(c: Codec, fs: FileSystem, store: BlobStore, local: bool, at: Path, dir: Directory,
                       ghost subs: seq<Unfolding>)
    returns (ok: bool)
    requires |subs| == |dir.directories| && DistinctNames(dir)
             && Image(fs.nodes, local, fs.casExec, store.blobs, at, EMPTY, [])
    requires forall i :: 0 <= i < |subs| ==>
               Unfolds(c, store.blobs, dir.directories[i].digest, subs[i]) && WellNamed(subs[i])
    modifies fs
    ensures ok ==>
              && Fetchable(store.blobs, Unfolded(dir, subs))
              && Image(fs.nodes, local, fs.casExec, store.blobs, at, dir, subs)
              && SameOutside(old(fs.nodes), fs.nodes, at)
              && fs.casExec == old(fs.casExec) + if local then ExecDigests(Unfolded(dir, subs)) else {}
    ensures fs.healthy && Fetchable(store.blobs, Unfolded(dir, subs)) ==> ok
    decreases subs, 3
  {
    ok := StageFlat(fs, store, local, at, dir, subs);
    if !ok {
      return false;
    }
    ghost var nodes0 := fs.nodes;
    AllFetchableExactly(store.blobs, subs, |subs|);
    ok := StageSubdirectories(c, fs, store, local, at, dir, subs);
    if ok {
      SameOutsideTransitive(old(fs.nodes), nodes0, fs.nodes, at);
      assert dir.directories[..|subs|] == dir.directories && subs[..|subs|] == subs;
    }
  }

  /** The loops over files and symbolic links. */
  method StageFlat(fs: FileSystem, store: BlobStore, local: bool, at: Path, dir: Directory, ghost subs: seq<Unfolding>)
    returns (ok: bool)
    requires DistinctNames(dir) && Image(fs.nodes, local, fs.casExec, store.blobs, at, EMPTY, [])
    modifies fs
    ensures ok ==>
              && (forall i :: 0 <= i < |dir.files| ==> dir.files[i].digest in store.blobs)
              && Image(fs.nodes, local, fs.casExec, store.blobs, at, dir.(directories := []), subs)
              && SameOutside(old(fs.nodes), fs.nodes, at)
              && fs.casExec == old(fs.casExec) + if local then ExecFiles(dir.files) else {}
    ensures fs.healthy && (forall i :: 0 <= i < |dir.files| ==> dir.files[i].digest in store.blobs) ==> ok
  {
    ok := StageFiles(fs, store, local, at, dir);
    if !ok {
      return false;
    }
    ghost var nodes0 := fs.nodes;
    ok := StageSymlinks(fs, local, store.blobs, at, dir);
    if !ok {
      return false;
    }
    SameOutsideTransitive(old(fs.nodes), nodes0, fs.nodes, at);
    FlatImage(fs.nodes, local, fs.casExec, store.blobs, at, dir, subs);
  }

  method StageDirectory(c: Codec, fs: FileSystem, store: BlobStore, local: bool, at: Path, d: Digest,
                        ghost m: Unfolding)
    returns (ok: bool)
    requires Unfolds(c, store.blobs, d, m) && WellNamed(m)
    requires forall p :: Under(at, p) && p in fs.nodes ==> p == at && fs.nodes[p].FsDir?
    modifies fs
    ensures ok ==>
              && Fetchable(store.blobs, m)
              && Image(fs.nodes, local, fs.casExec, store.blobs, at, m.dir, m.subs)
              && SameOutside(old(fs.nodes), fs.nodes, at)
              && fs.casExec == old(fs.casExec) + if local then ExecDigests(m) else {}
    ensures fs.healthy && Fetchable(store.blobs, m) ==> ok
    decreases m, 0
  {
    ok := fs.MkdirAll(at);
    if !ok {
      return false;
    }
    var data := store.Get(d);
    if data.None? {
      return false;
    }
    var parsed := c.unmarshal(data.value);
    if parsed.None? {
      return false;
    }
    var dir := parsed.value;
    ghost var nodes0 := fs.nodes;
    assert SameOutside(old(fs.nodes), nodes0, at) by { assert Under(at, at); }
    EmptyImage(fs.nodes, local, fs.casExec, store.blobs, at);
    ok := StageContents(c, fs, store, local, at, dir, m.subs);
    if ok {
      SameOutsideTransitive(old(fs.nodes), nodes0, fs.nodes, at);
    }
  }
}

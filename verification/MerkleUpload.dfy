/**
 Uploading a file tree: `buildTree` and `buildDirectoryProto`.
 */
module MerkleUpload {
  import opened Wrappers
  import opened Content
  import opened MerkleModel

  /** A blob store whose writes may fail, possibly after storing the blob. */
  class BlobStore {
    // False if writing a blob, or reading what is uploaded from the disk, may fail.
    const healthy: bool
    var blobs: Blobs

    constructor (healthy: bool)
      ensures blobs == map[] && this.healthy == healthy
    {
      blobs, this.healthy := map[], healthy;
    }

    method Fails() returns (fails: bool)
      ensures healthy ==> !fails
    {
      fails := *;
      fails := fails && !healthy;
    }

    method Put(d: Digest, data: Bytes) returns (ok: bool)
      modifies this`blobs
      ensures blobs == old(blobs)[d := data] || (!ok && blobs == old(blobs))
      ensures healthy ==> ok
    {
      var fails := Fails();
      if fails {
        return false;
      }
      blobs := blobs[d := data];
      fails := Fails();
      ok := !fails;
    }

    method Get(d: Digest) returns (r: Option<Bytes>)
      ensures r == if d in blobs then Some(blobs[d]) else None
    {
      r := if d in blobs then Some(blobs[d]) else None;
    }
  }

  /** The Tree proto under construction. */
  class TreeBuilder {
    var children: seq<Directory>

    constructor ()
      ensures children == []
    {
      children := [];
    }
  }

  /** The files being uploaded. */
  class Disk {
    const content: nat -> Bytes
    // The store keeps its blobs on this disk, where they may be linked instead of copied.
    const links: bool
    // Inodes whose mode was set to read-only.
    var cleared: set<nat>

    constructor (content: nat -> Bytes, links: bool)
      ensures this.content == content && this.links == links && cleared == {}
    {
      this.content, this.links, cleared := content, links, {};
    }
  }

  /** `uploadBlob`. */
  method UploadBlob(c: Codec, data: Bytes, store: BlobStore) returns (r: Option<Digest>)
    requires Lawful(c) && Addressed(c, store.blobs)
    modifies store
    ensures Addressed(c, store.blobs) && Extends(old(store.blobs), store.blobs)
    ensures r.Some? ==> r.value == c.hash(data) && Holds(c, store.blobs, data)
    ensures store.healthy ==> r.Some?
  {
    var d := c.hash(data);
    var ok := store.Put(d, data);
    r := if ok then Some(d) else None;
  }

  /** `uploadFile`. A local store that does not have the blob makes it a link to the file if it can, and sets its mode,
      which is the mode of the file, to read-only. */
  method UploadFile(c: Codec, inode: nat, store: BlobStore, disk: Disk) returns (r: Option<Digest>)
    requires Lawful(c) && Addressed(c, store.blobs)
    modifies store, disk`cleared
    ensures Addressed(c, store.blobs) && Extends(old(store.blobs), store.blobs)
    ensures r.Some? ==> r.value == c.hash(disk.content(inode)) && Holds(c, store.blobs, disk.content(inode))
    ensures store.healthy ==> r.Some?
    ensures || disk.cleared == old(disk.cleared)
            || (disk.cleared == old(disk.cleared) + {inode} && disk.links
                && c.hash(disk.content(inode)) !in old(store.blobs))
  {
    var d := c.hash(disk.content(inode));
    if disk.links {
      if d in store.blobs {
        assert store.blobs[d] == disk.content(inode) by { assert c.hash(store.blobs[d]) == d; }
        var fails := store.Fails();
        return if fails then None else Some(d);
      }
      var linked: bool := *;
      if linked { disk.cleared := disk.cleared + {inode}; }
    }
    r := UploadBlob(c, disk.content(inode), store);
  }

  // Uploading a directory: each file is looked at, with the mode it then has, and uploaded.

  /** Every inode visited so far has its content in the store, and no other has been changed since `cleared`. */
  ghost predicate Visited(c: Codec, blobs: Blobs, content: nat -> Bytes, now: set<nat>, cleared: set<nat>,
                          visited: set<nat>)
  {
    && cleared <= now <= cleared + visited
    && forall i :: i in visited ==> Holds(c, blobs, content(i))
  }

  /** What an upload does to the files: inodes visited before stay as they are, and only files whose blob was missing
      are linked and changed. */
  ghost predicate Changes(c: Codec, blobs: Blobs, disk: Disk, before: set<nat>, now: set<nat>, visited: set<nat>,
                          inodes: set<nat>)
  {
    && before <= now <= before + inodes
    && now * visited == before * visited
    && forall i :: i in now && i !in before ==> disk.links && c.hash(disk.content(i)) !in blobs
  }

  lemma ChangesTransitive(c: Codec, blobs: Blobs, later: Blobs, disk: Disk, before: set<nat>, between: set<nat>,
                          now: set<nat>, visited: set<nat>, some: set<nat>, more: set<nat>)
    requires Changes(c, blobs, disk, before, between, visited, some)
    requires Extends(blobs, later) && Changes(c, later, disk, between, now, visited + some, more)
    ensures Changes(c, blobs, disk, before, now, visited, some + more)
    ensures between * (visited + some) == now * (visited + some)
  {
    Restrict(now, between, visited + some, visited);
  }

  /** A listing uploaded as far as `es`. */
  ghost predicate Built(c: Codec, blobs: Blobs, disk: Disk, now: set<nat>, cleared: set<nat>, visited: set<nat>,
                        es: seq<Entry>, dir: Directory, children: seq<Directory>)
  {
    var seen := Seen(es, cleared, now, visited);
    && dir == DirectoryOf(c, seen) && children == ChildrenOf(c, seen) && Uploaded(c, blobs, seen)
    && Visited(c, blobs, disk.content, now, cleared, visited + InodesOf(es))
  }

  lemma BuiltStep(c: Codec, blobs: Blobs, later: Blobs, disk: Disk, before: set<nat>, now: set<nat>, cleared: set<nat>,
                  visited: set<nat>, es: seq<Entry>, i: nat, dir: Directory, children: seq<Directory>,
                  dir': Directory, children': seq<Directory>)
    requires i < |es| && Built(c, blobs, disk, before, cleared, visited, es[..i], dir, children)
             && Extends(blobs, later)
    requires var v := visited + InodesOf(es[..i]); before * v == now * v
    requires var seen := SeenEntry(es[i], cleared, now, visited + InodesOf(es[..i]));
             && dir' == WithEntry(c, dir, seen) && children' == children + ChildrenAt(c, seen)
                && UploadedEntry(c, later, seen)
             && Visited(c, later, disk.content, now, cleared, visited + InodesOf(es[..i]) + InodesAt(es[i]))
    ensures Built(c, later, disk, now, cleared, visited, es[..i + 1], dir', children')
  {
    var seen := Seen(es[..i], cleared, before, visited);
    var last := SeenEntry(es[i], cleared, now, visited + InodesOf(es[..i]));
    assert Seen(es[..i + 1], cleared, now, visited) == seen + [last] by {
      SeenSame(es[..i], cleared, before, now, visited);
      SeenStep(es, cleared, now, visited, i);
    }
    assert Uploaded(c, later, seen) by { UploadedExtends(c, blobs, later, seen); }
    Snoc(c, later, seen, last);
    assert visited + InodesOf(es[..i + 1]) == visited + InodesOf(es[..i]) + InodesAt(es[i]) by {
      SeenStep(es, cleared, now, visited, i);
    }
  }

  lemma Regroup(a: seq<Directory>, b: seq<Directory>, c: seq<Directory>)
    ensures a + b + c == a + (b + c)
  {
  }

  method AddEntry(c: Codec, dir: Directory, e: Entry, store: BlobStore, tree: TreeBuilder, disk: Disk,
                  ghost cleared: set<nat>, ghost visited: set<nat>)
    returns (r: Option<Directory>)
    requires Lawful(c) && Addressed(c, store.blobs)
    requires ConsistentEntry(e, disk.content) && Visited(c, store.blobs, disk.content, disk.cleared, cleared, visited)
    modifies store, tree, disk`cleared
    ensures Addressed(c, store.blobs) && Extends(old(store.blobs), store.blobs)
    ensures Changes(c, old(store.blobs), disk, old(disk.cleared), disk.cleared, visited, InodesAt(e))
    ensures r.Some? ==>
              var seen := SeenEntry(e, cleared, disk.cleared, visited);
              && r.value == WithEntry(c, dir, seen)
              && tree.children == old(tree.children) + ChildrenAt(c, seen)
              && UploadedEntry(c, store.blobs, seen)
              && Visited(c, store.blobs, disk.content, disk.cleared, cleared, visited + InodesAt(e))
    ensures store.healthy ==> r.Some?
    decreases e, 3
  {
    var unreadable := store.Fails();
    if unreadable {
      return None;
    }
    match e.node {
      case Dir(sub) =>
        var subdir := UploadSubdirectory(c, sub, store, tree, disk, cleared, visited);
        if subdir.None? {
          return None;
        }
        r := Some(dir.(directories := dir.directories + [DirectoryNode(e.name, DirDigest(c, subdir.value))]));
        Regroup(old(tree.children), ChildrenOf(c, Seen(sub, cleared, disk.cleared, visited)), [subdir.value]);
        tree.children := tree.children + [subdir.value];
      case Symlink(target) =>
        r := Some(dir.(symlinks := dir.symlinks + [SymlinkNode(e.name, target)]));
      case File(_, exec, inode) =>
        var executable := exec && inode !in disk.cleared;
        var d := UploadFile(c, inode, store, disk);
        if d.None? {
          return None;
        }
        r := Some(dir.(files := dir.files + [FileNode(e.name, d.value, executable)]));
    }
  }

  method BuildDirectoryProto(c: Codec, entries: seq<Entry>, store: BlobStore, tree: TreeBuilder, disk: Disk,
                             ghost cleared: set<nat>, ghost visited: set<nat>)
    returns (r: Option<Directory>)
    requires Lawful(c) && Addressed(c, store.blobs)
    requires Consistent(entries, disk.content) && Visited(c, store.blobs, disk.content, disk.cleared, cleared, visited)
    modifies store, tree, disk`cleared
    ensures Addressed(c, store.blobs) && Extends(old(store.blobs), store.blobs)
    ensures Changes(c, old(store.blobs), disk, old(disk.cleared), disk.cleared, visited, InodesOf(entries))
    ensures r.Some? ==>
              var seen := Seen(entries, cleared, disk.cleared, visited);
              && r.value == DirectoryOf(c, seen)
              && tree.children == old(tree.children) + ChildrenOf(c, seen)
              && Uploaded(c, store.blobs, seen)
              && Visited(c, store.blobs, disk.content, disk.cleared, cleared, visited + InodesOf(entries))
    ensures store.healthy ==> r.Some?
    decreases entries, 1
  {
    var unlisted := store.Fails();
    if unlisted {
      return None;
    }
    var dir := EMPTY;
    ghost var children: seq<Directory> := [];
    assert Reached(c, store.blobs, store.blobs, disk, disk.cleared, disk.cleared, cleared, visited, entries[..0], dir,
                   children) by {
      assert visited + InodesOf(entries[..0]) == visited;
    }
    for i := 0 to |entries|
      invariant Reached(c, old(store.blobs), store.blobs, disk, old(disk.cleared), disk.cleared, cleared, visited,
                        entries[..i], dir, children)
      invariant tree.children == old(tree.children) + children
    {
      var more;
      more, children := AddNext(c, entries, i, dir, old(tree.children), children, store, tree, disk, cleared, visited,
                                old(store.blobs), old(disk.cleared));
      if more.None? {
        return None;
      }
      dir := more.value;
    }
    assert entries[..|entries|] == entries;
    return Some(dir);
  }

  /** The state of the loop above when it has done `es`. */
  ghost predicate Reached(c: Codec, start: Blobs, blobs: Blobs, disk: Disk, before: set<nat>, now: set<nat>,
                          cleared: set<nat>, visited: set<nat>,
                          es: seq<Entry>, dir: Directory, children: seq<Directory>)
  {
    && Addressed(c, blobs) && Extends(start, blobs)
    && Changes(c, start, disk, before, now, visited, InodesOf(es))
    && Built(c, blobs, disk, now, cleared, visited, es, dir, children)
  }

  /** One turn of it. */
  method AddNext(c: Codec, entries: seq<Entry>, i: nat, dir: Directory, ghost base: seq<Directory>,
                 ghost children: seq<Directory>, store: BlobStore, tree: TreeBuilder, disk: Disk,
                 ghost cleared: set<nat>, ghost visited: set<nat>, ghost start: Blobs, ghost before: set<nat>)
    returns (r: Option<Directory>, ghost children': seq<Directory>)
    requires Lawful(c) && Consistent(entries, disk.content) && i < |entries|
    requires Reached(c, start, store.blobs, disk, before, disk.cleared, cleared, visited, entries[..i], dir, children)
    requires tree.children == base + children
    modifies store, tree, disk`cleared
    ensures Addressed(c, store.blobs) && Extends(start, store.blobs)
    ensures Changes(c, start, disk, before, disk.cleared, visited, InodesOf(entries))
    ensures r.Some? ==>
              Reached(c, start, store.blobs, disk, before, disk.cleared, cleared, visited, entries[..i + 1], r.value,
                      children')
    ensures r.Some? ==> tree.children == base + children'
    ensures store.healthy ==> r.Some?
    decreases entries, 0
  {
    ghost var some, last := InodesOf(entries[..i]), InodesAt(entries[i]);
    r := AddEntry(c, dir, entries[i], store, tree, disk, cleared, visited + some);
    assert InodesOf(entries[..i + 1]) == some + last by { SeenStep(entries, {}, {}, {}, i); }
    assert Extends(start, store.blobs) by { ExtendsTransitive(start, old(store.blobs), store.blobs); }
    ChangesTransitive(c, start, old(store.blobs), disk, before, old(disk.cleared), disk.cleared, visited, some, last);
    assert some + last <= InodesOf(entries) by { InodesGrow(entries, i + 1); }
    ghost var added := ChildrenAt(c, SeenEntry(entries[i], cleared, disk.cleared, visited + some));
    children' := children + added;
    Regroup(base, children, added);
    if r.Some? {
      BuiltStep(c, old(store.blobs), store.blobs, disk, old(disk.cleared), disk.cleared, cleared, visited, entries, i,
                dir, children, r.value, children');
    }
  }

  lemma {:induction false} InodesGrow(es: seq<Entry>, i: nat)
    requires i <= |es|
    ensures InodesOf(es[..i]) <= InodesOf(es)
    decreases |es| - i
  {
    if i < |es| {
      SeenStep(es, {}, {}, {}, i);
      InodesGrow(es, i + 1);
    } else {
      assert es[..i] == es;
    }
  }

  /** The directory case of the loop: build the subdirectory's proto and upload it. */
  method UploadSubdirectory(c: Codec, sub: seq<Entry>, store: BlobStore, tree: TreeBuilder, disk: Disk,
                            ghost cleared: set<nat>, ghost visited: set<nat>)
    returns (r: Option<Directory>)
    requires Lawful(c) && Addressed(c, store.blobs)
    requires Consistent(sub, disk.content) && Visited(c, store.blobs, disk.content, disk.cleared, cleared, visited)
    modifies store, tree, disk`cleared
    ensures Addressed(c, store.blobs) && Extends(old(store.blobs), store.blobs)
    ensures Changes(c, old(store.blobs), disk, old(disk.cleared), disk.cleared, visited, InodesOf(sub))
    ensures r.Some? ==>
              var seen := Seen(sub, cleared, disk.cleared, visited);
              && r.value == DirectoryOf(c, seen)
              && tree.children == old(tree.children) + ChildrenOf(c, seen)
              && Uploaded(c, store.blobs, seen)
              && Holds(c, store.blobs, c.marshal(DirectoryOf(c, seen)))
              && Visited(c, store.blobs, disk.content, disk.cleared, cleared, visited + InodesOf(sub))
    ensures store.healthy ==> r.Some?
    decreases sub, 2
  {
    r := BuildDirectoryProto(c, sub, store, tree, disk, cleared, visited);
    if r.None? {
      return None;
    }
    ghost var blobs0 := store.blobs;
    var digest := UploadBlob(c, c.marshal(r.value), store);
    if digest.None? {
      return None;
    }
    UploadedExtends(c, blobs0, store.blobs, Seen(sub, cleared, disk.cleared, visited));
  }

  /** The tree as it was when the upload reached each of its files. */
  ghost function Uploading(es: seq<Entry>, before: set<nat>, after: set<nat>): seq<Entry> {
    Seen(es, before, after, {})
  }

  method BuildTree(c: Codec, entries: seq<Entry>, store: BlobStore, disk: Disk, ghost cleared: set<nat>,
                   ghost visited: set<nat>)
    returns (r: Option<(Tree, Digest)>)
    requires Lawful(c) && Addressed(c, store.blobs) && Consistent(entries, disk.content)
    requires Visited(c, store.blobs, disk.content, disk.cleared, cleared, visited)
    modifies store, disk`cleared
    ensures Addressed(c, store.blobs) && Extends(old(store.blobs), store.blobs)
    ensures Changes(c, old(store.blobs), disk, old(disk.cleared), disk.cleared, visited, InodesOf(entries))
    ensures r.Some? ==>
              var seen := Seen(entries, cleared, disk.cleared, visited);
              && r.value.0 == Tree(DirectoryOf(c, seen), ChildrenOf(c, seen))
              && r.value.1 == DirDigest(c, DirectoryOf(c, seen))
              && Uploaded(c, store.blobs, seen)
              && Holds(c, store.blobs, c.marshal(DirectoryOf(c, seen)))
              && Visited(c, store.blobs, disk.content, disk.cleared, cleared, visited + InodesOf(entries))
    ensures store.healthy ==> r.Some?
  {
    var builder := new TreeBuilder();
    var root := UploadSubdirectory(c, entries, store, builder, disk, cleared, visited);
    if root.None? {
      return None;
    }
    return Some((Tree(root.value, builder.children), DirDigest(c, root.value)));
  }
}

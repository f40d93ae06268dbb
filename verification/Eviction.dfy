/**
 `Janitor.Cleanup`: least-recently-used eviction down to a size limit, with
 removals that may fail.
 */
module Eviction {
  datatype FileInfo = FileInfo(path: string, size: nat, atime: int)

  /** The files below the cache directory. `stuck`: paths whose removal fails. */
  class CacheDir {
    const stuck: set<string>
    // False if the walk may fail.
    const healthy: bool
    var present: map<string, FileInfo>

    constructor (present: map<string, FileInfo>, stuck: set<string>, healthy: bool)
      ensures this.present == present && this.stuck == stuck && this.healthy == healthy
    {
      this.present, this.stuck, this.healthy := present, stuck, healthy;
    }

    ghost predicate Valid()
      reads this
    {
      forall p :: p in present ==> present[p].path == p
    }

    /** Visits every file once, in an order of the file system's choosing. */
    method Walk() returns (files: seq<FileInfo>, ok: bool)
      requires Valid()
      ensures ok ==> Lists(files, present)
      ensures healthy ==> ok
    {
      files := [];
      ok := *;
      ok := ok || healthy;
      if !ok {
        return;
      }
      var rest := present.Keys;
      while rest != {}
        invariant rest <= present.Keys
        invariant Distinct(files)
        invariant forall i :: 0 <= i < |files| ==>
                    files[i].path in present && files[i].path !in rest && present[files[i].path] == files[i]
        invariant forall p :: p in present && p !in rest ==> present[p] in files
        decreases rest
      {
        var p :| p in rest;
        files := files + [present[p]];
        rest := rest - {p};
      }
    }

    method Remove(p: string) returns (ok: bool)
      requires Valid()
      modifies this`present
      ensures Valid()
      ensures ok <==> p in old(present) && p !in stuck
      ensures present == if ok then old(present) - {p} else old(present)
    {
      ok := p in present && p !in stuck;
      if ok {
        present := present - {p};
      }
    }
  }

  ghost predicate Distinct(files: seq<FileInfo>) {
    forall i, j :: 0 <= i < j < |files| ==> files[i].path != files[j].path
  }

  ghost predicate Lists(files: seq<FileInfo>, present: map<string, FileInfo>) {
    && Distinct(files)
    && (forall i :: 0 <= i < |files| ==> files[i].path in present && present[files[i].path] == files[i])
    && (forall p :: p in present ==> present[p].path == p && present[p] in files)
  }

  ghost predicate OldestFirst(files: seq<FileInfo>) {
    forall i, j :: 0 <= i < j < |files| ==> files[i].atime <= files[j].atime
  }

  function Sum(files: seq<FileInfo>): nat {
    if files == [] then 0 else Sum(files[..|files| - 1]) + files[|files| - 1].size
  }

  /** The listed files that are still present. */
  function Remaining(files: seq<FileInfo>, present: map<string, FileInfo>): seq<FileInfo> {
    if files == [] then []
    else
      Remaining(files[..|files| - 1], present)
      + if files[|files| - 1].path in present then [files[|files| - 1]] else []
  }

  lemma {:induction false} SumConcat(a: seq<FileInfo>, b: seq<FileInfo>)
    ensures Sum(a + b) == Sum(a) + Sum(b)
  {
    if b == [] {
      assert a + b == a;
    } else {
      assert (a + b)[..|a + b| - 1] == a + b[..|b| - 1];
      SumConcat(a, b[..|b| - 1]);
    }
  }

  /** Order does not matter to the total. */
  lemma {:induction false} SumPermutation(a: seq<FileInfo>, b: seq<FileInfo>)
    requires multiset(a) == multiset(b)
    ensures Sum(a) == Sum(b)
    decreases |a|
  {
    if a == [] {
      assert |multiset(b)| == 0;
    } else {
      var n := |a| - 1;
      var x := a[n];
      assert a == a[..n] + [x];
      assert x in multiset(b);
      var k :| 0 <= k < |b| && b[k] == x;
      var b' := b[..k] + b[k + 1..];
      assert b == b[..k] + [x] + b[k + 1..];
      assert multiset(b') == multiset(b) - multiset{x};
      assert multiset(a[..n]) == multiset(a) - multiset{x};
      SumPermutation(a[..n], b');
      SumConcat(b[..k], b[k + 1..]);
      SumConcat(b[..k], [x]);
      SumConcat(b[..k] + [x], b[k + 1..]);
      assert Sum([x]) == x.size;
    }
  }

  lemma InsertMultiset(s: seq<FileInfo>, k: nat, f: FileInfo)
    requires k <= |s|
    ensures multiset(s[..k] + [f] + s[k..]) == multiset(s) + multiset{f}
  {
    assert multiset(s[..k] + [f] + s[k..]) == multiset(s[..k]) + multiset{f} + multiset(s[k..]);
    assert multiset(s[..k] + s[k..]) == multiset(s[..k]) + multiset(s[k..]);
    assert s[..k] + s[k..] == s;
  }

  lemma InsertOrdered(s: seq<FileInfo>, k: nat, f: FileInfo)
    requires k <= |s| && OldestFirst(s)
    requires k > 0 ==> s[k - 1].atime <= f.atime
    requires k < |s| ==> f.atime < s[k].atime
    ensures OldestFirst(s[..k] + [f] + s[k..])
  {
    var r := s[..k] + [f] + s[k..];
    forall i, j | 0 <= i < j < |r| ensures r[i].atime <= r[j].atime {
      assert r[i] == if i < k then s[i] else if i == k then f else s[i - 1];
      assert r[j] == if j < k then s[j] else if j == k then f else s[j - 1];
    }
  }

  method InsertSorted(sorted: seq<FileInfo>, f: FileInfo) returns (r: seq<FileInfo>)
    requires OldestFirst(sorted)
    ensures OldestFirst(r) && multiset(r) == multiset(sorted) + multiset{f}
  {
    var k := |sorted|;
    while k > 0 && f.atime < sorted[k - 1].atime
      invariant 0 <= k <= |sorted|
      invariant k < |sorted| ==> f.atime < sorted[k].atime
    {
      k := k - 1;
    }
    r := sorted[..k] + [f] + sorted[k..];
    InsertMultiset(sorted, k, f);
    InsertOrdered(sorted, k, f);
  }

  method SortByAccessTime(files: seq<FileInfo>) returns (sorted: seq<FileInfo>)
    ensures multiset(sorted) == multiset(files) && OldestFirst(sorted)
  {
    sorted := [];
    for i := 0 to |files|
      invariant multiset(sorted) == multiset(files[..i]) && OldestFirst(sorted)
    {
      assert files[..i + 1] == files[..i] + [files[i]];
      sorted := InsertSorted(sorted, files[i]);
    }
    assert files[..|files|] == files;
  }

  lemma {:induction false} RemainingAll(files: seq<FileInfo>, present: map<string, FileInfo>)
    requires forall i :: 0 <= i < |files| ==> files[i].path in present
    ensures Remaining(files, present) == files
  {
    if files != [] {
      RemainingAll(files[..|files| - 1], present);
      assert files == files[..|files| - 1] + [files[|files| - 1]];
    }
  }

  lemma {:induction false} RemoveOther(files: seq<FileInfo>, present: map<string, FileInfo>, p: string)
    requires forall i :: 0 <= i < |files| ==> files[i].path != p
    ensures Remaining(files, present - {p}) == Remaining(files, present)
  {
    if files != [] { RemoveOther(files[..|files| - 1], present, p); }
  }

  lemma RemainingSnoc(files: seq<FileInfo>, present: map<string, FileInfo>)
    requires files != []
    ensures var n := |files| - 1;
            Sum(Remaining(files, present)) == Sum(Remaining(files[..n], present))
              + if files[n].path in present then files[n].size else 0
  {
    var n := |files| - 1;
    if files[n].path in present {
      SumConcat(Remaining(files[..n], present), [files[n]]);
      assert Sum([files[n]]) == files[n].size;
    } else {
      assert Remaining(files, present) == Remaining(files[..n], present);
    }
  }

  lemma {:induction false} RemoveOne(files: seq<FileInfo>, present: map<string, FileInfo>, i: nat)
    requires Distinct(files) && i < |files| && files[i].path in present
    ensures Sum(Remaining(files, present - {files[i].path})) == Sum(Remaining(files, present)) - files[i].size
  {
    var n := |files| - 1;
    RemainingSnoc(files, present);
    RemainingSnoc(files, present - {files[i].path});
    if i == n {
      RemoveOther(files[..n], present, files[n].path);
    } else {
      RemoveOne(files[..n], present, i);
    }
  }

  predicate Young(f: FileInfo, now: int, minAge: int) {
    now - f.atime < minAge
  }

  // Evicted files are given by their positions in the sorted listing.

  function Paths(files: seq<FileInfo>, cut: seq<nat>): set<string>
    requires forall k :: 0 <= k < |cut| ==> cut[k] < |files|
  {
    set k | 0 <= k < |cut| :: files[cut[k]].path
  }

  function SumAt(files: seq<FileInfo>, cut: seq<nat>): nat
    requires forall k :: 0 <= k < |cut| ==> cut[k] < |files|
  {
    if cut == [] then 0 else SumAt(files, cut[..|cut| - 1]) + files[cut[|cut| - 1]].size
  }

  ghost predicate Positions(files: seq<FileInfo>, cut: seq<nat>, i: nat) {
    && (forall k :: 0 <= k < |cut| ==> cut[k] < i <= |files|)
    && (forall k, l :: 0 <= k < l < |cut| ==> cut[k] < cut[l])
  }

  /** What one Cleanup guarantees. `files`: the listing, oldest first. `cut`: the positions it
      evicted, in order. `total`: the tracked size when it stops. */
  ghost predicate Cleaned(before: map<string, FileInfo>, after: map<string, FileInfo>, stuck: set<string>,
                          files: seq<FileInfo>, cut: seq<nat>, total: int, maxSize: int, minAge: int, now: int)
  {
    && Positions(files, cut, |files|)
    // Exactly the evicted files are gone; they were old enough and removable.
    && after == before - Paths(files, cut)
    && (forall k :: 0 <= k < |cut| ==> !Young(files[cut[k]], now, minAge) && files[cut[k]].path !in stuck)
    // The tracked total is the size of what remains.
    && total == Sum(Remaining(files, after)) == Sum(files) - SumAt(files, cut)
    // Within the limit, or nothing more could go.
    && (total <= maxSize || forall p :: p in after ==> Young(after[p], now, minAge) || p in stuck)
    // Least recently used first: a survivor older than an evicted file could not be removed.
    && (forall p, k :: p in after && 0 <= k < |cut| && after[p].atime < files[cut[k]].atime ==> p in stuck)
    // No eviction once the total is within the limit.
    && (forall k :: 0 <= k < |cut| ==> Sum(files) - SumAt(files, cut[..k]) > maxSize)
  }

  /** Every file before position i was evicted, is young, or is stuck. */
  ghost predicate Settled(files: seq<FileInfo>, after: map<string, FileInfo>, stuck: set<string>, minAge: int, now: int,
                          i: nat)
    requires i <= |files|
  {
    forall j :: 0 <= j < i && files[j].path in after ==> Young(files[j], now, minAge) || files[j].path in stuck
  }

  ghost predicate OnlyOld(files: seq<FileInfo>, cut: seq<nat>, stuck: set<string>, minAge: int, now: int)
    requires forall k :: 0 <= k < |cut| ==> cut[k] < |files|
  {
    forall k :: 0 <= k < |cut| ==> !Young(files[cut[k]], now, minAge) && files[cut[k]].path !in stuck
  }

  ghost predicate OnlyOver(files: seq<FileInfo>, cut: seq<nat>, maxSize: int)
    requires forall k :: 0 <= k < |cut| ==> cut[k] < |files|
  {
    forall k :: 0 <= k < |cut| ==> Sum(files) - SumAt(files, cut[..k]) > maxSize
  }

  lemma OldSurvivorsStuck(before: map<string, FileInfo>, after: map<string, FileInfo>, stuck: set<string>,
                          files: seq<FileInfo>, cut: seq<nat>, minAge: int, now: int, i: nat)
    requires i <= |files| && Lists(files, before) && OldestFirst(files) && Positions(files, cut, i)
    requires after == before - Paths(files, cut) && Settled(files, after, stuck, minAge, now, i)
             && OnlyOld(files, cut, stuck, minAge, now)
    ensures forall p, k :: p in after && 0 <= k < |cut| && after[p].atime < files[cut[k]].atime ==> p in stuck
    ensures i == |files| ==> forall p :: p in after ==> Young(after[p], now, minAge) || p in stuck
  {
    forall p | p in after ensures exists j :: 0 <= j < |files| && files[j] == after[p] && files[j].path == p {
      assert before[p] in files;
      var j :| 0 <= j < |files| && files[j] == before[p];
    }
    forall p, k | p in after && 0 <= k < |cut| && after[p].atime < files[cut[k]].atime ensures p in stuck {
      var j :| 0 <= j < |files| && files[j] == after[p] && files[j].path == p;
      assert j < cut[k];
    }
  }

  lemma CutOne(files: seq<FileInfo>, before: map<string, FileInfo>, after: map<string, FileInfo>, cut: seq<nat>, i: nat)
    requires i < |files| && Lists(files, before) && Positions(files, cut, i) && after == before - Paths(files, cut)
    ensures files[i].path in after
    ensures Positions(files, cut + [i], i + 1)
    ensures after - {files[i].path} == before - Paths(files, cut + [i])
    ensures SumAt(files, cut + [i]) == SumAt(files, cut) + files[i].size
  {
    var cut' := cut + [i];
    assert cut'[..|cut|] == cut;
    forall k | 0 <= k < |cut| ensures files[cut[k]].path != files[i].path {}
    assert Paths(files, cut') == Paths(files, cut) + {files[i].path} by {
      forall p | p in Paths(files, cut) ensures p in Paths(files, cut') {
        var k :| 0 <= k < |cut| && files[cut[k]].path == p;
        assert cut'[k] == cut[k];
      }
      assert cut'[|cut|] == i;
    }
  }

  /** The loop state before position i. */
  ghost predicate Tracking(before: map<string, FileInfo>, after: map<string, FileInfo>, stuck: set<string>,
                           files: seq<FileInfo>, cut: seq<nat>, total: int, maxSize: int, minAge: int, now: int, i: nat)
    requires i <= |files|
  {
    && Positions(files, cut, i) && after == before - Paths(files, cut)
    && total == Sum(Remaining(files, after)) == Sum(files) - SumAt(files, cut)
    && Settled(files, after, stuck, minAge, now, i)
    && OnlyOld(files, cut, stuck, minAge, now) && OnlyOver(files, cut, maxSize)
  }

  lemma SettledEvict(files: seq<FileInfo>, after: map<string, FileInfo>, stuck: set<string>, minAge: int, now: int,
                     i: nat)
    requires i < |files| && Settled(files, after, stuck, minAge, now, i)
    ensures Settled(files, after - {files[i].path}, stuck, minAge, now, i + 1)
    ensures Young(files[i], now, minAge) || files[i].path in stuck ==> Settled(files, after, stuck, minAge, now, i + 1)
  {
  }

  lemma OnlyOldSnoc(files: seq<FileInfo>, cut: seq<nat>, stuck: set<string>, minAge: int, now: int, i: nat)
    requires i < |files| && (forall k :: 0 <= k < |cut| ==> cut[k] < |files|) && OnlyOld(files, cut, stuck, minAge, now)
    requires !Young(files[i], now, minAge) && files[i].path !in stuck
    ensures forall k :: 0 <= k < |cut + [i]| ==> (cut + [i])[k] < |files|
    ensures OnlyOld(files, cut + [i], stuck, minAge, now)
  {
  }

  lemma OnlyOverSnoc(files: seq<FileInfo>, cut: seq<nat>, maxSize: int, i: nat)
    requires i < |files| && (forall k :: 0 <= k < |cut| ==> cut[k] < |files|) && OnlyOver(files, cut, maxSize)
    requires Sum(files) - SumAt(files, cut) > maxSize
    ensures forall k :: 0 <= k < |cut + [i]| ==> (cut + [i])[k] < |files|
    ensures OnlyOver(files, cut + [i], maxSize)
  {
    forall k | 0 <= k < |cut + [i]| ensures Sum(files) - SumAt(files, (cut + [i])[..k]) > maxSize {
      if k < |cut| { assert (cut + [i])[..k] == cut[..k]; } else { assert (cut + [i])[..k] == cut; }
    }
  }

  lemma TrackEvicted(before: map<string, FileInfo>, after: map<string, FileInfo>, stuck: set<string>,
                     files: seq<FileInfo>, cut: seq<nat>, total: int, maxSize: int, minAge: int, now: int, i: nat)
    requires i < |files| && Lists(files, before)
    requires Tracking(before, after, stuck, files, cut, total, maxSize, minAge, now, i)
    requires total > maxSize && !Young(files[i], now, minAge)
    ensures files[i].path in after
    ensures files[i].path !in stuck ==>
              Tracking(before, after - {files[i].path}, stuck, files, cut + [i], total - files[i].size, maxSize, minAge,
                       now, i + 1)
  {
    CutOne(files, before, after, cut, i);
    if files[i].path !in stuck {
      RemoveOne(files, after, i);
      SettledEvict(files, after, stuck, minAge, now, i);
      OnlyOldSnoc(files, cut, stuck, minAge, now, i);
      OnlyOverSnoc(files, cut, maxSize, i);
    }
  }

  lemma TrackSkipped(before: map<string, FileInfo>, after: map<string, FileInfo>, stuck: set<string>,
                     files: seq<FileInfo>, cut: seq<nat>, total: int, maxSize: int, minAge: int, now: int, i: nat)
    requires i < |files| && Tracking(before, after, stuck, files, cut, total, maxSize, minAge, now, i)
    requires Young(files[i], now, minAge) || files[i].path in stuck
    ensures Tracking(before, after, stuck, files, cut, total, maxSize, minAge, now, i + 1)
  {
    SettledEvict(files, after, stuck, minAge, now, i);
  }

  lemma TrackStart(present: map<string, FileInfo>, stuck: set<string>, files: seq<FileInfo>, maxSize: int, minAge: int,
                   now: int)
    requires Lists(files, present)
    ensures Tracking(present, present, stuck, files, [], Sum(files), maxSize, minAge, now, 0)
  {
    RemainingAll(files, present);
    assert present - Paths(files, []) == present;
  }

  lemma TrackEnd(before: map<string, FileInfo>, after: map<string, FileInfo>, stuck: set<string>,
                 files: seq<FileInfo>, cut: seq<nat>, total: int, maxSize: int, minAge: int, now: int, i: nat)
    requires i <= |files| && Lists(files, before) && OldestFirst(files)
    requires Tracking(before, after, stuck, files, cut, total, maxSize, minAge, now, i)
    requires i == |files| || total <= maxSize
    ensures Cleaned(before, after, stuck, files, cut, total, maxSize, minAge, now)
  {
    OldSurvivorsStuck(before, after, stuck, files, cut, minAge, now, i);
  }

  /** One turn of the loop below. */
  method EvictAt(dir: CacheDir, ghost before: map<string, FileInfo>, files: seq<FileInfo>, ghost cut: seq<nat>,
                 total: int, maxSize: int, minAge: int, now: int, i: nat)
    returns (total': int, ghost cut': seq<nat>)
    requires dir.Valid() && i < |files| && Lists(files, before) && total > maxSize
    requires Tracking(before, dir.present, dir.stuck, files, cut, total, maxSize, minAge, now, i)
    modifies dir`present
    ensures dir.Valid()
    ensures Tracking(before, dir.present, dir.stuck, files, cut', total', maxSize, minAge, now, i + 1)
  {
    total', cut' := total, cut;
    var f := files[i];
    if Young(f, now, minAge) || f.path in dir.stuck {
      TrackSkipped(before, dir.present, dir.stuck, files, cut, total, maxSize, minAge, now, i);
    }
    if now - f.atime >= minAge {
      TrackEvicted(before, dir.present, dir.stuck, files, cut, total, maxSize, minAge, now, i);
      var ok := dir.Remove(f.path);
      if ok {
        total', cut' := total - f.size, cut + [i];
      }
    }
  }

  method EvictOldest(dir: CacheDir, files: seq<FileInfo>, totalSize: int, maxSize: int, minAge: int, now: int)
    returns (total: int, ghost cut: seq<nat>)
    requires dir.Valid() && Lists(files, dir.present) && OldestFirst(files) && totalSize == Sum(files)
    modifies dir`present
    ensures dir.Valid()
    ensures Cleaned(old(dir.present), dir.present, dir.stuck, files, cut, total, maxSize, minAge, now)
  {
    total, cut := totalSize, [];
    TrackStart(dir.present, dir.stuck, files, maxSize, minAge, now);
    var i: nat := 0;
    while i < |files| && total > maxSize
      invariant i <= |files| && dir.Valid()
      invariant Tracking(old(dir.present), dir.present, dir.stuck, files, cut, total, maxSize, minAge, now, i)
    {
      total, cut := EvictAt(dir, old(dir.present), files, cut, total, maxSize, minAge, now, i);
      i := i + 1;
    }
    TrackEnd(old(dir.present), dir.present, dir.stuck, files, cut, total, maxSize, minAge, now, i);
  }

  method Measure(dir: CacheDir) returns (files: seq<FileInfo>, total: int, ok: bool)
    requires dir.Valid()
    ensures ok ==> Lists(files, dir.present) && total == Sum(files)
    ensures dir.healthy ==> ok
  {
    files, ok := dir.Walk();
    total := 0;
    if !ok {
      return;
    }
    for i := 0 to |files|
      invariant total == Sum(files[..i])
    {
      assert files[..i + 1][..i] == files[..i];
      total := total + files[i].size;
    }
    assert files[..|files|] == files;
  }

  method Cleanup(dir: CacheDir, maxSize: int, minAge: int, now: int)
    returns (ok: bool, total: int, ghost files: seq<FileInfo>, ghost cut: seq<nat>)
    requires dir.Valid()
    modifies dir`present
    ensures dir.Valid()
    ensures ok ==> Lists(files, old(dir.present)) &&
                   Cleaned(old(dir.present), dir.present, dir.stuck, files, cut, total, maxSize, minAge, now)
    ensures !ok ==> dir.present == old(dir.present)
    ensures dir.healthy ==> ok
  {
    var walked;
    walked, total, ok := Measure(dir);
    files, cut := walked, [];
    if !ok {
      return;
    }
    RemainingAll(walked, dir.present);
    assert dir.present - Paths(files, []) == dir.present;
    if total <= maxSize {
      return;
    }
    var sorted := SortByAccessTime(walked);
    PermutationLists(walked, sorted, dir.present);
    files := sorted;
    total, cut := EvictOldest(dir, sorted, total, maxSize, minAge, now);
  }

  lemma PermutationLists(a: seq<FileInfo>, b: seq<FileInfo>, present: map<string, FileInfo>)
    requires Lists(a, present) && multiset(a) == multiset(b)
    ensures Lists(b, present) && Sum(b) == Sum(a)
  {
    SumPermutation(a, b);
    forall x ensures x in a <==> x in b { assert x in multiset(a) <==> x in multiset(b); }
    forall i | 0 <= i < |b| ensures b[i].path in present && present[b[i].path] == b[i] { assert b[i] in a; }
    forall i, j | 0 <= i < j < |b| ensures b[i].path != b[j].path {
      DistinctOnce(a, b[i]);
      if b[i].path == b[j].path { OccursTwice(b, i, j); assert false; }
    }
  }

  lemma OccursTwice(b: seq<FileInfo>, i: nat, j: nat)
    requires i < j < |b| && b[i] == b[j]
    ensures multiset(b)[b[i]] >= 2
  {
    assert b == b[..j] + [b[j]] + b[j + 1..];
    assert b[i] in b[..j];
    assert multiset(b[..j])[b[i]] >= 1;
  }

  lemma {:induction false} DistinctOnce(a: seq<FileInfo>, x: FileInfo)
    requires Distinct(a)
    ensures multiset(a)[x] <= 1
  {
    if a != [] {
      var n := |a| - 1;
      assert a == a[..n] + [a[n]];
      DistinctOnce(a[..n], x);
      if a[n] == x { assert x !in a[..n]; }
    }
  }
}

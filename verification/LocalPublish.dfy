/**
 Publication in `LocalStore`: concurrent Puts write temporary files and rename
 them over the blob path, while readers open blobs and the janitor removes
 files. Every system call is one step.
 */
module LocalPublish {
  import opened Wrappers
  import opened Content

  /** Program counter of one Put. */
  datatype Pc = Begun | Writing | Copied | Renamed | Done | Failed

  datatype TempFile = TempFile(name: nat, inode: nat)

  /** `input` is everything the caller's reader yields before EOF. */
  datatype Put = Put(digest: Digest, input: Bytes, pc: Pc, file: Option<TempFile>, written: nat)

  /** File contents belong to inodes; a path is a reference to an inode. */
  datatype Disk = Disk(
    inodes: map<nat, Bytes>,
    temps: map<nat, nat>,
    blobs: map<string, nat>,
    puts: map<nat, Put>,
    // Open file handles of readers.
    handles: map<nat, nat>)

  datatype Action =
    | Begin(t: nat, digest: Digest, input: Bytes)
    | CreateTemp(t: nat, tmp: nat, inode: nat)
    | Write(t: nat, n: nat)
    | EndOfInput(t: nat)
    | Rename(t: nat)
    | Chmod(t: nat, ok: bool)
    | Fail(t: nat)
    | RemoveBlob(hash: string)
    | RemoveTemp(tmp: nat)
    | Open(r: nat, hash: string)

  predicate At(s: Disk, t: nat, pc: Pc) {
    t in s.puts && s.puts[t].pc == pc
  }

  predicate Enabled(s: Disk, a: Action) {
    match a
    case Begin(t, _, _) => t !in s.puts
    // CreateTemp picks a name that does not exist at that moment; it may have existed before.
    case CreateTemp(t, tmp, inode) => At(s, t, Begun) && inode !in s.inodes && tmp !in s.temps
    case Write(t, n) =>
      At(s, t, Writing) && s.puts[t].file.Some? && s.puts[t].file.value.inode in s.inodes
        && s.puts[t].written + n <= |s.puts[t].input|
    case EndOfInput(t) => At(s, t, Writing) && s.puts[t].written == |s.puts[t].input|
    case Rename(t) => At(s, t, Copied) && s.puts[t].file.Some?
    case Chmod(t, _) => At(s, t, Renamed)
    case Fail(t) => t in s.puts && !s.puts[t].pc.Done? && !s.puts[t].pc.Failed?
    case RemoveBlob(_) => true
    case RemoveTemp(_) => true
    case Open(r, h) => r !in s.handles && h in s.blobs
  }

  function Moved(s: Disk, t: nat, pc: Pc): Disk
    requires t in s.puts
  {
    s.(puts := s.puts[t := s.puts[t].(pc := pc)])
  }

  /** The deferred cleanup: remove the temporary path, whatever became of it. */
  function Dropped(s: Disk, t: nat, pc: Pc): Disk
    requires t in s.puts
  {
    Moved(s, t, pc).(temps := if s.puts[t].file.Some? then s.temps - {s.puts[t].file.value.name} else s.temps)
  }

  function Apply(s: Disk, a: Action): Disk
    requires Enabled(s, a)
  {
    match a
    case Begin(t, d, input) => s.(puts := s.puts[t := Put(d, input, Begun, None, 0)])
    case CreateTemp(t, tmp, inode) =>
      s.(inodes := s.inodes[inode := []], temps := s.temps[tmp := inode],
         puts := s.puts[t := s.puts[t].(pc := Writing, file := Some(TempFile(tmp, inode)))])
    case Write(t, n) =>
      var p := s.puts[t]; var i := p.file.value.inode;
      s.(inodes := s.inodes[i := s.inodes[i] + p.input[p.written..p.written + n]],
         puts := s.puts[t := p.(written := p.written + n)])
    case EndOfInput(t) =>
      if s.puts[t].written == s.puts[t].digest.size then Moved(s, t, Copied) else Dropped(s, t, Failed)
    case Rename(t) =>
      var p := s.puts[t]; var tmp := p.file.value.name;
      if tmp in s.temps then
        Moved(s, t, Renamed).(temps := s.temps - {tmp}, blobs := s.blobs[p.digest.hash := s.temps[tmp]])
      else Dropped(s, t, Failed)
    case Chmod(t, ok) => Dropped(s, t, if ok then Done else Failed)
    case Fail(t) => Dropped(s, t, Failed)
    case RemoveBlob(h) => s.(blobs := s.blobs - {h})
    case RemoveTemp(tmp) => s.(temps := s.temps - {tmp})
    case Open(r, h) => s.(handles := s.handles[r := s.blobs[h]])
  }

  ghost predicate IsRun(states: seq<Disk>, acts: seq<Action>) {
    && |states| == |acts| + 1
    && states[0] == Disk(map[], map[], map[], map[], map[])
    && forall i :: 0 <= i < |acts| ==> StepAt(states, acts, i)
  }

  ghost predicate StepAt(states: seq<Disk>, acts: seq<Action>, i: nat)
    requires i < |acts| < |states|
  {
    IsStep(states[i], acts[i], states[i + 1])
  }

  predicate IsStep(s: Disk, a: Action, s': Disk) {
    Enabled(s, a) && s' == Apply(s, a)
  }

  /** A Put that has a temporary file and has yet to rename it. */
  predicate Unpublished(s: Disk, t: nat) {
    At(s, t, Writing) || At(s, t, Copied)
  }

  predicate Owns(s: Disk, t: nat, f: TempFile) {
    t in s.puts && s.puts[t].file == Some(f)
  }

  // What every run keeps.

  /** Every Put with a temporary file owns its inode. */
  ghost predicate Owned(s: Disk) {
    && (forall t, f :: Owns(s, t, f) ==> f.inode in s.inodes)
    && (forall t, u, f, g :: Owns(s, t, f) && Owns(s, u, g) && t != u ==> f.inode != g.inode)
  }

  /** Each inode holds what its Put has written so far; a Put that got past its input has written all of it, and it was
      of the declared size. */
  predicate FilledBy(s: Disk, t: nat)
    requires t in s.puts
  {
    var p := s.puts[t];
    && p.written <= |p.input|
    && (p.pc.Begun? ==> p.file.None?)
    && (p.file.None? ==> p.written == 0 && (p.pc.Begun? || p.pc.Failed?))
    && (p.file.Some? ==> p.file.value.inode in s.inodes && s.inodes[p.file.value.inode] == p.input[..p.written])
    && (p.pc.Copied? || p.pc.Renamed? || p.pc.Done? ==> p.written == |p.input| == p.digest.size)
  }

  ghost predicate Filled(s: Disk) {
    forall t :: t in s.puts ==> FilledBy(s, t)
  }

  /** A file below the temporary directory belongs to the Put that was last given its name. */
  ghost predicate Attributed(s: Disk) {
    forall x :: x in s.temps ==> exists u :: Owns(s, u, TempFile(x, s.temps[x]))
  }

  ghost predicate Sound(s: Disk) {
    Owned(s) && Filled(s) && Attributed(s)
  }

  /** A Put keeps its digest, its input and, once it has one, its file. */
  lemma PutStays(s: Disk, a: Action, t: nat)
    requires Enabled(s, a) && t in s.puts && FilledBy(s, t)
    ensures var s' := Apply(s, a);
            && t in s'.puts && s'.puts[t].digest == s.puts[t].digest && s'.puts[t].input == s.puts[t].input
            && (s.puts[t].file.Some? ==> s'.puts[t].file == s.puts[t].file)
            && (s'.puts[t].file.Some? && s.puts[t].file.None? ==>
                  a.CreateTemp? && a.t == t && s'.puts[t].file.value == TempFile(a.tmp, a.inode))
  {
  }

  lemma NewPut(s: Disk, a: Action, t: nat)
    requires Enabled(s, a) && t !in s.puts && t in Apply(s, a).puts
    ensures Apply(s, a).puts[t].file.None? && Apply(s, a).puts[t].pc.Begun? && Apply(s, a).puts[t].written == 0
  {
  }

  lemma OwnedStep(s: Disk, a: Action)
    requires Owned(s) && Filled(s) && Enabled(s, a)
    ensures Owned(Apply(s, a))
  {
    var s' := Apply(s, a);
    forall t, f | Owns(s', t, f)
      ensures Owns(s, t, f) || (a.CreateTemp? && t == a.t && f == TempFile(a.tmp, a.inode))
    {
      if t in s.puts { PutStays(s, a, t); } else { NewPut(s, a, t); }
    }
  }

  /** Only a Put itself writes to its file. */
  lemma InodeKept(s: Disk, a: Action, t: nat)
    requires Owned(s) && Enabled(s, a) && t in s.puts && s.puts[t].file.Some? && (a.Write? ==> a.t != t)
    ensures var i := s.puts[t].file.value.inode;
            i in s.inodes && i in Apply(s, a).inodes && Apply(s, a).inodes[i] == s.inodes[i]
  {
    assert Owns(s, t, s.puts[t].file.value);
    if a.Write? { assert Owns(s, a.t, s.puts[a.t].file.value); }
  }

  /** A Put that does not write keeps its count, whatever else it does. */
  lemma WrittenKept(s: Disk, a: Action, t: nat)
    requires Enabled(s, a) && t in s.puts && !(a.Write? && a.t == t)
    ensures Apply(s, a).puts[t].written == s.puts[t].written
  {
  }

  lemma OwnWrite(s: Disk, a: Action)
    requires Enabled(s, a) && a.Write? && FilledBy(s, a.t)
    ensures FilledBy(Apply(s, a), a.t)
  {
    var p := s.puts[a.t];
    assert p.input[..p.written] + p.input[p.written..p.written + a.n] == p.input[..p.written + a.n];
  }

  /** The phase a Put is in after a step that is not a write of its own. */
  lemma PhaseStep(s: Disk, a: Action, t: nat)
    requires Enabled(s, a) && t in s.puts && FilledBy(s, t) && !(a.Write? && a.t == t)
    ensures var p := Apply(s, a).puts[t];
            && (p.pc.Begun? ==> p.file.None?) && (p.file.None? ==> p.pc.Begun? || p.pc.Failed?)
            && (p.pc.Copied? || p.pc.Renamed? || p.pc.Done? ==> p.written == |p.input| == p.digest.size)
  {
  }

  lemma FilledStep(s: Disk, a: Action, t: nat)
    requires Owned(s) && Filled(s) && Enabled(s, a) && t in Apply(s, a).puts
    ensures FilledBy(Apply(s, a), t)
  {
    if t !in s.puts {
      NewPut(s, a, t);
    } else if a.Write? && a.t == t {
      OwnWrite(s, a);
    } else {
      assert FilledBy(s, t);
      PutStays(s, a, t);
      PhaseStep(s, a, t);
      WrittenKept(s, a, t);
      if s.puts[t].file.Some? { InodeKept(s, a, t); }
    }
  }

  lemma AttributedStep(s: Disk, a: Action)
    requires Attributed(s) && Filled(s) && Enabled(s, a)
    ensures Attributed(Apply(s, a))
  {
    var s' := Apply(s, a);
    forall x | x in s'.temps ensures exists u :: Owns(s', u, TempFile(x, s'.temps[x])) {
      if a.CreateTemp? && x == a.tmp {
        assert Owns(s', a.t, TempFile(x, a.inode));
      } else {
        var u :| Owns(s, u, TempFile(x, s.temps[x]));
        PutStays(s, a, u);
        assert Owns(s', u, TempFile(x, s'.temps[x]));
      }
    }
  }

  lemma {:induction false} RunSound(states: seq<Disk>, acts: seq<Action>, i: nat)
    requires IsRun(states, acts) && i < |states|
    ensures Sound(states[i])
  {
    if i > 0 {
      RunSound(states, acts, i - 1);
      SoundNext(states, acts, i - 1);
    }
  }

  lemma SoundNext(states: seq<Disk>, acts: seq<Action>, i: nat)
    requires IsRun(states, acts) && i < |acts| && Sound(states[i])
    ensures Sound(states[i + 1])
  {
    var s, a := states[i], acts[i];
    assert StepAt(states, acts, i);
    OwnedStep(s, a);
    AttributedStep(s, a);
    forall t | t in Apply(s, a).puts ensures FilledBy(Apply(s, a), t) { FilledStep(s, a, t); }
  }

  // Which file a rename publishes.

  /** The name of a Put that has yet to rename its file is handed out again; its own file was removed before. */
  predicate Retakes(s: Disk, a: Action, t: nat) {
    a.CreateTemp? && Unpublished(s, t) && s.puts[t].file.Some? && s.puts[t].file.value.name == a.tmp
  }

  ghost predicate Reused(states: seq<Disk>, acts: seq<Action>, t: nat, i: nat)
    requires i <= |acts| < |states|
  {
    exists j :: 0 <= j < i && Retakes(states[j], acts[j], t)
  }

  lemma {:induction false} NotBefore(states: seq<Disk>, acts: seq<Action>, t: nat, i: nat)
    requires IsRun(states, acts) && i < |states| && (t !in states[i].puts || states[i].puts[t].pc.Begun?)
    ensures !Reused(states, acts, t, i)
  {
    if i > 0 {
      assert t !in states[i - 1].puts || states[i - 1].puts[t].pc.Begun? by { BegunAlready(states, acts, t, i - 1); }
      NotBefore(states, acts, t, i - 1);
    }
  }

  lemma BegunAlready(states: seq<Disk>, acts: seq<Action>, t: nat, i: nat)
    requires IsRun(states, acts) && i < |acts| && (t !in states[i + 1].puts || states[i + 1].puts[t].pc.Begun?)
    ensures t !in states[i].puts || states[i].puts[t].pc.Begun?
  {
    assert StepAt(states, acts, i);
    BegunBefore(states[i], acts[i], t);
  }

  lemma BegunBefore(s: Disk, a: Action, t: nat)
    requires Enabled(s, a) && (t !in Apply(s, a).puts || Apply(s, a).puts[t].pc.Begun?)
    ensures t !in s.puts || s.puts[t].pc.Begun?
  {
  }

  /** Whether the file under a Put's name, if there is one, is its own. */
  predicate OwnName(s: Disk, t: nat)
    requires Unpublished(s, t) && s.puts[t].file.Some?
  {
    var f := s.puts[t].file.value;
    f.name in s.temps ==> s.temps[f.name] == f.inode
  }

  predicate OtherName(s: Disk, t: nat)
    requires Unpublished(s, t) && s.puts[t].file.Some?
  {
    var f := s.puts[t].file.value;
    f.name in s.temps ==> s.temps[f.name] != f.inode
  }

  lemma NameStep(s: Disk, a: Action, t: nat)
    requires Owned(s) && Enabled(s, a) && Unpublished(s, t) && s.puts[t].file.Some? && Unpublished(Apply(s, a), t)
    ensures Apply(s, a).puts[t].file == s.puts[t].file
    ensures Retakes(s, a, t) ==> OtherName(Apply(s, a), t)
    ensures !Retakes(s, a, t) && OwnName(s, t) ==> OwnName(Apply(s, a), t)
    ensures OtherName(s, t) ==> OtherName(Apply(s, a), t)
  {
    assert Owns(s, t, s.puts[t].file.value);
  }

  lemma CreatedName(s: Disk, a: Action, t: nat)
    requires Enabled(s, a) && !Unpublished(s, t) && Unpublished(Apply(s, a), t)
    ensures t in s.puts && s.puts[t].pc.Begun? && Apply(s, a).puts[t].file.Some? && OwnName(Apply(s, a), t)
    ensures !Retakes(s, a, t)
  {
  }

  /** A Put that has yet to rename finds its own file under its name, if any, exactly when the name was not reused. */
  lemma {:induction false} NameExactly(states: seq<Disk>, acts: seq<Action>, t: nat, i: nat)
    requires IsRun(states, acts) && i < |states| && Unpublished(states[i], t)
    ensures states[i].puts[t].file.Some?
    ensures if Reused(states, acts, t, i) then OtherName(states[i], t) else OwnName(states[i], t)
  {
    assert i > 0;
    var s, a := states[i - 1], acts[i - 1];
    assert StepAt(states, acts, i - 1);
    if Unpublished(s, t) {
      NameExactly(states, acts, t, i - 1);
      NameNext(states, acts, t, i - 1);
      assert Reused(states, acts, t, i) <==> Reused(states, acts, t, i - 1) || Retakes(s, a, t);
    } else {
      CreatedName(s, a, t);
      NotBefore(states, acts, t, i - 1);
    }
  }

  lemma NameNext(states: seq<Disk>, acts: seq<Action>, t: nat, i: nat)
    requires IsRun(states, acts) && i < |acts| && Unpublished(states[i], t) && states[i].puts[t].file.Some?
    requires Unpublished(states[i + 1], t)
    ensures states[i + 1].puts[t].file == states[i].puts[t].file
    ensures Retakes(states[i], acts[i], t) ==> OtherName(states[i + 1], t)
    ensures !Retakes(states[i], acts[i], t) && OwnName(states[i], t) ==> OwnName(states[i + 1], t)
    ensures OtherName(states[i], t) ==> OtherName(states[i + 1], t)
  {
    RunSound(states, acts, i);
    assert StepAt(states, acts, i);
    NameStep(states[i], acts[i], t);
  }

  /** The rename of Put t at step j put a file at the path of hash h. */
  predicate Publishes(states: seq<Disk>, acts: seq<Action>, j: nat, t: nat, h: string)
    requires |states| == |acts| + 1 && j < |acts|
  {
    var s := states[j];
    && acts[j] == Rename(t) && At(s, t, Copied) && s.puts[t].digest.hash == h && s.puts[t].file.Some?
    && s.puts[t].file.value.name in s.temps
    && h in states[j + 1].blobs && states[j + 1].blobs[h] == s.temps[s.puts[t].file.value.name]
  }

  /** In every run, a rename publishes the Put's own file if and only if no CreateTemp had handed out its name while it
      had yet to rename. */
  lemma RenameExactly(states: seq<Disk>, acts: seq<Action>, j: nat, t: nat, h: string)
    requires IsRun(states, acts) && j < |acts| && Publishes(states, acts, j, t, h)
    ensures states[j + 1].blobs[h] == states[j].puts[t].file.value.inode <==> !Reused(states, acts, t, j)
  {
    NameExactly(states, acts, t, j);
  }

  /** The rename that a blob path is due to. */
  lemma {:induction false} PublishedAt(states: seq<Disk>, acts: seq<Action>, i: nat, h: string) returns (j: nat, t: nat)
    requires IsRun(states, acts) && i < |states| && h in states[i].blobs
    ensures j < i && Publishes(states, acts, j, t, h) && states[j + 1].blobs[h] == states[i].blobs[h]
  {
    assert i > 0;
    var s, a := states[i - 1], acts[i - 1];
    assert StepAt(states, acts, i - 1);
    if a.Rename? && s.puts[a.t].digest.hash == h && s.puts[a.t].file.value.name in s.temps {
      j, t := i - 1, a.t;
    } else {
      j, t := PublishedAt(states, acts, i - 1, h);
    }
  }

  /** What a Put keeps once it has its file, and, once it has stopped writing, for good. */
  predicate SameFile(p: Put, p': Put) {
    && p'.file == p.file && p'.digest == p.digest && p'.input == p.input && p.written <= p'.written
    && (!p.pc.Writing? ==> !p'.pc.Writing? && p'.written == p.written)
  }

  ghost predicate PublishedBefore(states: seq<Disk>, acts: seq<Action>, i: nat, t: nat, h: string)
    requires |states| == |acts| + 1 && i <= |acts|
  {
    exists j: nat :: j < i && Publishes(states, acts, j, t, h)
  }

  /** A Put returns without an error exactly if it has set the mode of what it had published under its hash. */
  lemma {:induction false} PutOutcome(states: seq<Disk>, acts: seq<Action>, i: nat, t: nat)
    requires IsRun(states, acts) && i < |states|
    ensures At(states[i], t, Done) <==> exists k :: 0 <= k < i && acts[k] == Chmod(t, true)
    ensures At(states[i], t, Renamed) || At(states[i], t, Done) ==>
              PublishedBefore(states, acts, i, t, states[i].puts[t].digest.hash)
  {
    if i > 0 {
      PutOutcome(states, acts, i - 1, t);
      OutcomeNext(states, acts, i - 1, t);
    }
  }

  lemma OutcomeNext(states: seq<Disk>, acts: seq<Action>, i: nat, t: nat)
    requires IsRun(states, acts) && i < |acts|
    requires At(states[i], t, Done) <==> exists k :: 0 <= k < i && acts[k] == Chmod(t, true)
    requires At(states[i], t, Renamed) || At(states[i], t, Done) ==>
               PublishedBefore(states, acts, i, t, states[i].puts[t].digest.hash)
    ensures At(states[i + 1], t, Done) <==> exists k :: 0 <= k < i + 1 && acts[k] == Chmod(t, true)
    ensures At(states[i + 1], t, Renamed) || At(states[i + 1], t, Done) ==>
              PublishedBefore(states, acts, i + 1, t, states[i + 1].puts[t].digest.hash)
  {
    var s, a := states[i], acts[i];
    assert StepAt(states, acts, i);
    DoneStep(s, a, t);
    if At(states[i + 1], t, Renamed) || At(states[i + 1], t, Done) {
      RenamedStep(s, a, t);
      if At(s, t, Renamed) || At(s, t, Done) {
        var j: nat :| j < i && Publishes(states, acts, j, t, s.puts[t].digest.hash);
      } else {
        assert Publishes(states, acts, i, t, s.puts[t].digest.hash);
      }
    }
  }

  lemma DoneStep(s: Disk, a: Action, t: nat)
    requires Enabled(s, a)
    ensures At(Apply(s, a), t, Done) <==> At(s, t, Done) || a == Chmod(t, true)
  {
  }

  lemma RenamedStep(s: Disk, a: Action, t: nat)
    requires Enabled(s, a) && (At(Apply(s, a), t, Renamed) || At(Apply(s, a), t, Done))
    ensures t in s.puts && Apply(s, a).puts[t].digest == s.puts[t].digest
    ensures At(s, t, Renamed) || At(s, t, Done) ||
            (a == Rename(t) && At(s, t, Copied) && s.puts[t].file.Some? && s.puts[t].file.value.name in s.temps
             && Apply(s, a).blobs == s.blobs[s.puts[t].digest.hash := s.temps[s.puts[t].file.value.name]])
  {
  }

  /** The step that renames a Put's file, or ends it, leaves nothing under its temporary name. */
  lemma TempRemoved(states: seq<Disk>, acts: seq<Action>, i: nat, t: nat)
    requires IsRun(states, acts) && i < |acts| && t in states[i].puts && states[i].puts[t].file.Some?
    requires t in states[i + 1].puts && states[i + 1].puts[t].pc != states[i].puts[t].pc
    requires states[i + 1].puts[t].pc in {Renamed, Done, Failed}
    ensures states[i].puts[t].file.value.name !in states[i + 1].temps
  {
    assert StepAt(states, acts, i);
  }

  /** A Put keeps its file from one state to a later one. */
  lemma {:induction false} FileStays(states: seq<Disk>, acts: seq<Action>, i: nat, j: nat, t: nat)
    requires IsRun(states, acts) && i <= j < |states| && t in states[i].puts && states[i].puts[t].file.Some?
    ensures t in states[j].puts && SameFile(states[i].puts[t], states[j].puts[t])
    decreases j - i
  {
    if i < j {
      FileStays(states, acts, i, j - 1, t);
      FileNext(states, acts, j - 1, t);
    }
  }

  lemma FileNext(states: seq<Disk>, acts: seq<Action>, j: nat, t: nat)
    requires IsRun(states, acts) && j < |acts| && t in states[j].puts && states[j].puts[t].file.Some?
    ensures t in states[j + 1].puts && SameFile(states[j].puts[t], states[j + 1].puts[t])
  {
    assert StepAt(states, acts, j);
    FilledAt(states, acts, j, t);
    PutStays(states[j], acts[j], t);
    WriterStep(states[j], acts[j], t);
  }

  lemma WriterStep(s: Disk, a: Action, t: nat)
    requires Enabled(s, a) && t in s.puts && FilledBy(s, t) && s.puts[t].file.Some?
    ensures s.puts[t].written <= Apply(s, a).puts[t].written
    ensures !At(s, t, Writing) ==> !At(Apply(s, a), t, Writing) && Apply(s, a).puts[t].written == s.puts[t].written
  {
  }

  /** The path holds all the bytes of Put t, and they are as many as t declared. */
  predicate WholeBy(s: Disk, h: string, t: nat)
    requires h in s.blobs
  {
    && t in s.puts && s.puts[t].digest.hash == h && s.blobs[h] in s.inodes
    && s.inodes[s.blobs[h]] == s.puts[t].input && |s.puts[t].input| == s.puts[t].digest.size
  }

  /** Atomic publication: a path holds the complete bytes of one Put of its hash. */
  ghost predicate Whole(s: Disk, h: string)
    requires h in s.blobs
  {
    exists t :: WholeBy(s, h, t)
  }

  /** Under any interleaving of Puts of the same hash, failures at any step, readers, removals and reuse of temporary
      names, what a blob path holds is known. It is due to the rename of a Put t, at a step j. If t's name was not
      reused before, it holds all the bytes of t. Otherwise, and only then, it holds what the Put u that was last given
      the name has written so far. */
  lemma AtomicPublication(states: seq<Disk>, acts: seq<Action>, i: nat, h: string) returns (j: nat, t: nat, u: nat)
    requires IsRun(states, acts) && i < |states| && h in states[i].blobs
    ensures j < i && Publishes(states, acts, j, t, h)
    ensures var s := states[i];
            && t in s.puts && s.puts[t].file.Some?
            && Owns(s, u, TempFile(s.puts[t].file.value.name, s.blobs[h]))
            && (u == t <==> !Reused(states, acts, t, j))
            && s.blobs[h] in s.inodes && s.puts[u].written <= |s.puts[u].input|
            && s.inodes[s.blobs[h]] == s.puts[u].input[..s.puts[u].written]
            && (u == t ==> WholeBy(s, h, t))
  {
    j, t := PublishedAt(states, acts, i, h);
    u := FileOf(states, acts, i, j, t, h);
    RenameExactly(states, acts, j, t, h);
    if u == t { OwnFileWhole(states, acts, i, j, t, h); }
  }

  /** The Put whose file was published, and what is in the file later. */
  lemma FileOf(states: seq<Disk>, acts: seq<Action>, i: nat, j: nat, t: nat, h: string) returns (u: nat)
    requires IsRun(states, acts) && j < i < |states| && Publishes(states, acts, j, t, h)
    ensures var s, n := states[i], states[j + 1].blobs[h];
            && t in s.puts && s.puts[t].file == states[j].puts[t].file
            && Owns(s, u, TempFile(s.puts[t].file.value.name, n))
            && (u == t <==> n == states[j].puts[t].file.value.inode)
            && n in s.inodes && s.puts[u].written <= |s.puts[u].input|
               && s.inodes[n] == s.puts[u].input[..s.puts[u].written]
  {
    RunSound(states, acts, j);
    var f := states[j].puts[t].file.value;
    u :| Owns(states[j], u, TempFile(f.name, states[j].temps[f.name]));
    assert Owns(states[j], t, f);
    FileStays(states, acts, j, i, t);
    FileStays(states, acts, j, i, u);
    FilledAt(states, acts, i, u);
  }

  lemma FilledAt(states: seq<Disk>, acts: seq<Action>, i: nat, u: nat)
    requires IsRun(states, acts) && i < |states| && u in states[i].puts
    ensures FilledBy(states[i], u)
  {
    RunSound(states, acts, i);
  }

  lemma OwnFileWhole(states: seq<Disk>, acts: seq<Action>, i: nat, j: nat, t: nat, h: string)
    requires IsRun(states, acts) && j < i < |states| && Publishes(states, acts, j, t, h)
    requires states[j + 1].blobs[h] == states[j].puts[t].file.value.inode
    ensures var s, n := states[i], states[j + 1].blobs[h];
            && t in s.puts && s.puts[t].digest.hash == h && n in s.inodes
            && s.inodes[n] == s.puts[t].input && |s.puts[t].input| == s.puts[t].digest.size
  {
    FilledAt(states, acts, j, t);
    FileStays(states, acts, j, i, t);
    FilledAt(states, acts, i, t);
    assert states[i].puts[t].input[..|states[i].puts[t].input|] == states[i].puts[t].input;
  }

  // Open files.

  lemma {:induction false} HandleStays(states: seq<Disk>, acts: seq<Action>, k: nat, i: nat, r: nat)
    requires IsRun(states, acts) && k <= i < |states| && r in states[k].handles
    ensures r in states[i].handles && states[i].handles[r] == states[k].handles[r]
    decreases i - k
  {
    if k < i {
      HandleStays(states, acts, k, i - 1, r);
      assert StepAt(states, acts, i - 1);
    }
  }

  /** A reader that opened a path at step k sees at every later state i, even if the path is replaced or removed
      meanwhile, all the bytes of the Put t it is due to, unless t's name was reused; otherwise, and only then, what the
      Put that was last given the name has written by then. */
  lemma OpenBlobNeverChanges(states: seq<Disk>, acts: seq<Action>, k: nat, i: nat, r: nat, h: string)
    returns (j: nat, t: nat, u: nat)
    requires IsRun(states, acts) && k < i < |states| && acts[k] == Open(r, h)
    ensures j < k && Publishes(states, acts, j, t, h)
    ensures var s := states[i];
            && r in s.handles && t in s.puts && s.puts[t].file.Some?
            && Owns(s, u, TempFile(s.puts[t].file.value.name, s.handles[r]))
            && (u == t <==> !Reused(states, acts, t, j))
            && s.handles[r] in s.inodes && s.puts[u].written <= |s.puts[u].input|
            && s.inodes[s.handles[r]] == s.puts[u].input[..s.puts[u].written]
            && (u == t ==> s.inodes[s.handles[r]] == s.puts[t].input && |s.puts[t].input| == s.puts[t].digest.size)
  {
    assert StepAt(states, acts, k);
    HandleStays(states, acts, k + 1, i, r);
    j, t := PublishedAt(states, acts, k, h);
    u := FileOf(states, acts, i, j, t, h);
    RenameExactly(states, acts, j, t, h);
    if u == t { OwnFileWhole(states, acts, i, j, t, h); }
  }

  // Where names are reused.

  lemma Extended(states: seq<Disk>, acts: seq<Action>, a: Action) returns (states': seq<Disk>, acts': seq<Action>)
    requires IsRun(states, acts) && Enabled(states[|acts|], a)
    ensures states' == states + [Apply(states[|acts|], a)] && acts' == acts + [a] && IsRun(states', acts')
  {
    states', acts' := states + [Apply(states[|acts|], a)], acts + [a];
    forall i | 0 <= i < |acts'| ensures StepAt(states', acts', i) {
      if i < |acts| { assert StepAt(states, acts, i); }
    }
  }

  /** The run can go on so that Put t publishes a file. */
  ghost predicate CanPublish(states: seq<Disk>, acts: seq<Action>, t: nat, h: string) {
    exists states': seq<Disk>, acts': seq<Action> ::
      IsRun(states', acts') && states <= states' && acts < acts' && Publishes(states', acts', |acts'| - 1, t, h)
  }

  lemma PublishNow(states: seq<Disk>, acts: seq<Action>, more: seq<Disk>, steps: seq<Action>, t: nat, h: string)
    requires IsRun(more, steps) && states <= more && acts <= steps
    requires var s := more[|steps|];
             && At(s, t, Copied) && s.puts[t].file.Some? && s.puts[t].file.value.name in s.temps
                && s.puts[t].digest.hash == h
    ensures CanPublish(states, acts, t, h)
  {
    var states', acts' := Extended(more, steps, Rename(t));
    assert Publishes(states', acts', |acts'| - 1, t, h);
  }

  /** A Put whose name was reused, by a file that is still there, can go on to publish that file if and only if its own
      data has the declared size. */
  lemma TearsExactly(states: seq<Disk>, acts: seq<Action>, t: nat)
    requires IsRun(states, acts)
    requires var s := states[|acts|];
             && Unpublished(s, t) && s.puts[t].file.Some? && s.puts[t].file.value.name in s.temps
             && Reused(states, acts, t, |acts|)
    ensures var p := states[|acts|].puts[t]; CanPublish(states, acts, t, p.digest.hash) <==> |p.input| == p.digest.size
    ensures OtherName(states[|acts|], t)
  {
    var p := states[|acts|].puts[t];
    NameExactly(states, acts, t, |acts|);
    if CanPublish(states, acts, t, p.digest.hash) { PublishedSize(states, acts, t); }
    if |p.input| == p.digest.size { ReachesRename(states, acts, t); }
  }

  lemma PublishedSize(states: seq<Disk>, acts: seq<Action>, t: nat)
    requires IsRun(states, acts) && t in states[|acts|].puts && states[|acts|].puts[t].file.Some?
    requires CanPublish(states, acts, t, states[|acts|].puts[t].digest.hash)
    ensures |states[|acts|].puts[t].input| == states[|acts|].puts[t].digest.size
  {
    var states', acts' :| IsRun(states', acts') && states <= states' && acts < acts'
      && Publishes(states', acts', |acts'| - 1, t, states[|acts|].puts[t].digest.hash);
    assert states'[|acts|] == states[|acts|];
    FilledAt(states', acts', |acts'| - 1, t);
    FileStays(states', acts', |acts|, |acts'| - 1, t);
  }

  lemma ReachesRename(states: seq<Disk>, acts: seq<Action>, t: nat)
    requires IsRun(states, acts)
    requires var s := states[|acts|];
             && Unpublished(s, t) && s.puts[t].file.Some? && s.puts[t].file.value.name in s.temps
             && |s.puts[t].input| == s.puts[t].digest.size
    ensures CanPublish(states, acts, t, states[|acts|].puts[t].digest.hash)
  {
    var p := states[|acts|].puts[t];
    FilledAt(states, acts, |acts|, t);
    if p.pc.Copied? {
      PublishNow(states, acts, states, acts, t, p.digest.hash);
    } else {
      var more, steps := Extended(states, acts, Write(t, |p.input| - p.written));
      more, steps := Extended(more, steps, EndOfInput(t));
      PublishNow(states, acts, more, steps, t, p.digest.hash);
    }
  }

  /** A Put whose file was removed while it wrote. */
  lemma RemovedWhileWriting(d: Digest, data: Bytes) returns (states: seq<Disk>, acts: seq<Action>)
    requires |data| == d.size
    ensures IsRun(states, acts)
    ensures var s := states[|acts|];
            && s.puts == map[0 := Put(d, data, Copied, Some(TempFile(0, 0)), |data|)]
            && s.temps == map[] && s.inodes.Keys == {0} && s.blobs == map[]
  {
    states, acts := [Disk(map[], map[], map[], map[], map[])], [];
    states, acts := Extended(states, acts, Begin(0, d, data));
    states, acts := Extended(states, acts, CreateTemp(0, 0, 0));
    states, acts := Extended(states, acts, RemoveTemp(0));
    states, acts := Extended(states, acts, Write(0, |data|));
    states, acts := Extended(states, acts, EndOfInput(0));
  }

  /** So publication is not atomic: for any blob that is not empty there is a run that leaves its path with the bytes of
      no Put of that hash. */
  lemma ReusedNameTears(d: Digest, data: Bytes)
    requires |data| == d.size && data != []
    ensures exists states: seq<Disk>, acts: seq<Action> ::
      IsRun(states, acts) && d.hash in states[|acts|].blobs && !Whole(states[|acts|], d.hash)
  {
    var states, acts := RemovedWhileWriting(d, data);
    states, acts := Extended(states, acts, Begin(1, d, data));
    states, acts := Extended(states, acts, CreateTemp(1, 0, 1));
    states, acts := Extended(states, acts, Rename(0));
    var s := states[|acts|];
    assert s.blobs[d.hash] == 1 && s.inodes[1] == [];
    assert forall t :: t in s.puts ==> s.puts[t].input == data;
  }
}

/**
 `Janitor.Notify` and `Janitor.Run`: publications are signalled through a
 one-slot channel, debounced by a timer that is stopped and replaced, and end in
 a Cleanup. A stopped timer may already have fired; its callback then runs late. A
 Put that has renamed its file and then fails to change its mode returns without
 calling Notify.
 */
module Debounce {
  /** Where the Run loop is. Stopping, Draining, Arming: handling a notification that was
      received. Cleaning: inside Cleanup. */
  datatype Loop = Selecting | Stopping | Draining | Arming | Cleaning

  datatype State = State(
    // Publishers between their rename and their call of Notify, if they get that far.
    publishing: nat,
    // notifyCh has one slot.
    notified: bool,
    loop: Loop,
    // The current timer is running.
    armed: bool,
    // Callbacks that have started and not yet sent.
    firing: nat,
    // debounceCh has one slot.
    due: bool)

  datatype Action =
    | Publish | Notify | Abandon | Receive | StopTimer | Drain | Arm | Fire | Send | StartCleanup | EndCleanup

  const INIT := State(0, false, Selecting, false, 0, false)

  predicate Enabled(s: State, a: Action) {
    match a
    case Publish => true
    case Notify => s.publishing > 0
    case Abandon => s.publishing > 0
    case Receive => s.loop.Selecting? && s.notified
    case StopTimer => s.loop.Stopping?
    case Drain => s.loop.Draining?
    case Arm => s.loop.Arming?
    case Fire => s.armed
    case Send => s.firing > 0
    case StartCleanup => s.loop.Selecting? && s.due
    case EndCleanup => s.loop.Cleaning?
  }

  function Apply(s: State, a: Action): State
    requires Enabled(s, a)
  {
    match a
    case Publish => s.(publishing := s.publishing + 1)
    // Dropped if a notification is already pending.
    case Notify => s.(publishing := s.publishing - 1, notified := true)
    case Abandon => s.(publishing := s.publishing - 1)
    case Receive => s.(notified := false, loop := Stopping)
    // Stop prevents a timer from firing, not a callback that has started.
    case StopTimer => s.(armed := false, loop := Draining)
    case Drain => s.(due := false, loop := Arming)
    case Arm => s.(armed := true, loop := Selecting)
    case Fire => s.(armed := false, firing := s.firing + 1)
    // Dropped if the channel already holds a tick.
    case Send => s.(firing := s.firing - 1, due := true)
    case StartCleanup => s.(due := false, loop := Cleaning)
    case EndCleanup => s.(loop := Selecting)
  }

  ghost predicate IsRun(states: seq<State>, acts: seq<Action>) {
    && |states| == |acts| + 1
    && states[0] == INIT
    && forall i :: 0 <= i < |acts| ==> StepAt(states, acts, i)
  }

  ghost predicate StepAt(states: seq<State>, acts: seq<Action>, i: nat)
    requires i < |acts| < |states|
  {
    IsStep(states[i], acts[i], states[i + 1])
  }

  predicate IsStep(s: State, a: Action, s': State) {
    Enabled(s, a) && s' == Apply(s, a)
  }

  /** A signal is on its way to a Cleanup. */
  predicate Signalled(s: State) {
    s.notified || s.loop.Stopping? || s.loop.Draining? || s.loop.Arming? || s.armed || s.firing > 0 || s.due
  }

  predicate Quiet(s: State) {
    s.publishing == 0 && !Signalled(s) && s.loop.Selecting?
  }

  ghost predicate Cleans(acts: seq<Action>, i: nat, j: nat)
    requires i <= j <= |acts|
  {
    exists k :: i <= k < j && acts[k] == StartCleanup
  }

  ghost predicate Notifies(acts: seq<Action>, i: nat, j: nat)
    requires i <= j <= |acts|
  {
    exists k :: i <= k < j && acts[k] == Notify
  }

  /** In every interleaving, a signal stays on its way until a Cleanup starts: no notification is lost. */
  lemma {:induction false} NoLostCleanup(states: seq<State>, acts: seq<Action>, i: nat, j: nat)
    requires IsRun(states, acts) && i <= j < |states| && Signalled(states[i]) && !Cleans(acts, i, j)
    ensures Signalled(states[j])
    decreases j - i
  {
    if i < j {
      assert !Cleans(acts, i, j - 1);
      NoLostCleanup(states, acts, i, j - 1);
      assert StepAt(states, acts, j - 1);
    }
  }

  /** Without a signal and without notifications no Cleanup starts. */
  lemma {:induction false} NoSpontaneousCleanup(states: seq<State>, acts: seq<Action>, i: nat, j: nat)
    requires IsRun(states, acts) && i <= j < |states| && !Signalled(states[i]) && !Notifies(acts, i, j)
    ensures !Signalled(states[j]) && !Cleans(acts, i, j)
    decreases j - i
  {
    if i < j {
      assert !Notifies(acts, i, j - 1);
      NoSpontaneousCleanup(states, acts, i, j - 1);
      assert StepAt(states, acts, j - 1);
    }
  }

  /** At quiescence, a Cleanup has started after a publication if and only if a signal was under way when it happened,
      or some publisher called Notify after it. */
  lemma QuietMeansCleaned(states: seq<State>, acts: seq<Action>, p: nat, i: nat)
    requires IsRun(states, acts) && p < i < |states| && acts[p] == Publish && Quiet(states[i])
    ensures Cleans(acts, p, i) <==> Signalled(states[p]) || Notifies(acts, p, i)
  {
    if Signalled(states[p]) {
      if !Cleans(acts, p, i) { NoLostCleanup(states, acts, p, i); }
    } else if Notifies(acts, p, i) {
      var k :| p <= k < i && acts[k] == Notify;
      assert StepAt(states, acts, k);
      if !Cleans(acts, p, i) {
        assert !Cleans(acts, k + 1, i);
        NoLostCleanup(states, acts, k + 1, i);
      }
    } else {
      NoSpontaneousCleanup(states, acts, p, i);
    }
  }

  /** How often an action occurs from step i up to step j. */
  function Count(acts: seq<Action>, a: Action, i: nat, j: nat): nat
    requires i <= j <= |acts|
    decreases j - i
  {
    if i == j then 0 else Count(acts, a, i, j - 1) + if acts[j - 1] == a then 1 else 0
  }

  lemma {:induction false} CountNone(acts: seq<Action>, a: Action, i: nat, j: nat)
    requires i <= j <= |acts|
    ensures Count(acts, a, i, j) == 0 <==> forall k :: i <= k < j ==> acts[k] != a
    decreases j - i
  {
    if i < j { CountNone(acts, a, i, j - 1); }
  }

  /** Every publisher either notifies, or is abandoned, or is still under way. */
  lemma {:induction false} PublishersBalance(states: seq<State>, acts: seq<Action>, i: nat, j: nat)
    requires IsRun(states, acts) && i <= j < |states|
    ensures states[j].publishing + Count(acts, Notify, i, j) + Count(acts, Abandon, i, j)
            == states[i].publishing + Count(acts, Publish, i, j)
    decreases j - i
  {
    if i < j {
      PublishersBalance(states, acts, i, j - 1);
      assert StepAt(states, acts, j - 1);
    }
  }

  /** At quiescence a publication has gone without a Cleanup if and only if the janitor was at rest when it happened and
      every publisher under way then or later, this one included, was abandoned. */
  lemma UncleanedExactly(states: seq<State>, acts: seq<Action>, p: nat, i: nat)
    requires IsRun(states, acts) && p < i < |states| && acts[p] == Publish && Quiet(states[i])
    ensures !Cleans(acts, p, i)
            <==> !Signalled(states[p]) &&
                 Count(acts, Abandon, p, i) == states[p].publishing + Count(acts, Publish, p, i)
  {
    QuietMeansCleaned(states, acts, p, i);
    PublishersBalance(states, acts, p, i);
    CountNone(acts, Notify, p, i);
  }

  /** If no publisher fails that late, every publication is followed by a Cleanup start. */
  lemma CleanedIfNoneAbandoned(states: seq<State>, acts: seq<Action>, p: nat, i: nat)
    requires IsRun(states, acts) && p < i < |states| && acts[p] == Publish && Quiet(states[i])
    requires forall k :: p <= k < i ==> acts[k] != Abandon
    ensures Cleans(acts, p, i)
  {
    UncleanedExactly(states, acts, p, i);
    CountNone(acts, Abandon, p, i);
    CountNone(acts, Publish, p, i);
  }

  /** A blob whose publisher fails between rename and Notify can stay unnoticed: the janitor is at rest and has never
      cleaned. */
  lemma AbandonedGoesUnnoticed()
    ensures exists states: seq<State>, acts: seq<Action> ::
      IsRun(states, acts) && acts == [Publish, Abandon] && Quiet(states[2]) && !Cleans(acts, 0, 2)
  {
    var s1 := Apply(INIT, Publish);
    var s2 := Apply(s1, Abandon);
    var states, acts := [INIT, s1, s2], [Publish, Abandon];
    assert StepAt(states, acts, 0) && StepAt(states, acts, 1);
    assert IsRun(states, acts) && !Cleans(acts, 0, 2);
  }

  lemma Extended(states: seq<State>, acts: seq<Action>, a: Action, t: State)
    requires IsRun(states, acts) && Enabled(states[|acts|], a) && t == Apply(states[|acts|], a)
    ensures IsRun(states + [t], acts + [a]) && (states + [t])[|acts + [a]|] == t
  {
    forall i | 0 <= i < |acts + [a]| ensures StepAt(states + [t], acts + [a], i) {
      if i < |acts| { assert StepAt(states, acts, i); }
    }
  }

  /** A publisher fails while the notification of another is under way; a notification is handled to the end. */
  const OVERLAPPING := [Publish, Notify, Publish, Abandon]
  const HANDLING := [Receive, StopTimer, Drain, Arm, Fire, Send, StartCleanup, EndCleanup]

  lemma OverlappingPublications() returns (states: seq<State>, acts: seq<Action>)
    ensures IsRun(states, acts) && acts == OVERLAPPING
    ensures states[4] == State(0, true, Selecting, false, 0, false)
  {
    var one, signal := State(1, false, Selecting, false, 0, false), State(0, true, Selecting, false, 0, false);
    states, acts := [INIT], [];
    Extended(states, acts, Publish, one);
    states, acts := states + [one], acts + [Publish];
    Extended(states, acts, Notify, signal);
    states, acts := states + [signal], acts + [Notify];
    Extended(states, acts, Publish, signal.(publishing := 1));
    states, acts := states + [signal.(publishing := 1)], acts + [Publish];
    Extended(states, acts, Abandon, signal);
    states, acts := states + [signal], acts + [Abandon];
  }

  /** One debounced notification, handled to the end. */
  lemma Handled(states: seq<State>, acts: seq<Action>) returns (states': seq<State>, acts': seq<Action>)
    requires IsRun(states, acts) && states[|acts|] == State(0, true, Selecting, false, 0, false)
    ensures IsRun(states', acts') && states'[|acts'|] == INIT
    ensures acts' == acts + HANDLING
  {
    states', acts' := states, acts;
    var steps := HANDLING;
    var after := [
      State(0, false, Stopping, false, 0, false), State(0, false, Draining, false, 0, false),
      State(0, false, Arming, false, 0, false), State(0, false, Selecting, true, 0, false),
      State(0, false, Selecting, false, 1, false), State(0, false, Selecting, false, 0, true),
      State(0, false, Cleaning, false, 0, false), INIT];
    for i := 0 to 8
      invariant IsRun(states', acts') && acts' == acts + steps[..i]
      invariant states'[|acts'|] == if i == 0 then states[|acts|] else after[i - 1]
    {
      Extended(states', acts', steps[i], after[i]);
      assert steps[..i + 1] == steps[..i] + [steps[i]];
      states', acts' := states' + [after[i]], acts' + [steps[i]];
    }
    assert steps[..8] == steps;
  }

  /** And it can be noticed all the same, when the notification of an earlier publication is still under way. */
  lemma AbandonedMayBeCleaned() returns (states: seq<State>, acts: seq<Action>)
    ensures CleanedAnyway(states, acts)
  {
    var some, begun := OverlappingPublications();
    states, acts := Handled(some, begun);
    OneNotification(states, acts);
  }

  /** A run that ends at rest: its second publisher is abandoned, nobody notifies after that, and a cleanup starts. */
  ghost predicate CleanedAnyway(states: seq<State>, acts: seq<Action>) {
    && IsRun(states, acts) && |acts| > 3 && acts[2] == Publish && acts[3] == Abandon && Quiet(states[|acts|])
    && Cleans(acts, 2, |acts|) && !Notifies(acts, 2, |acts|)
  }

  lemma OneNotification(states: seq<State>, acts: seq<Action>)
    requires IsRun(states, acts) && acts == OVERLAPPING + HANDLING && states[|acts|] == INIT
    ensures CleanedAnyway(states, acts)
  {
    assert acts[10] == StartCleanup;
    assert forall k :: 2 <= k < 4 ==> acts[k] != Notify;
    assert forall k :: 4 <= k < 12 ==> acts[k] != Notify;
  }

  // What the timer is for.

  /** A notification is being handled: the old timer is stopped, and since the drain nothing is due. */
  predicate Restarting(s: State) {
    s.firing == 0 && !s.armed && (s.loop.Draining? || (s.loop.Arming? && !s.due))
  }

  lemma {:induction false} NoOldTick(states: seq<State>, acts: seq<Action>, s: nat, k: nat)
    requires IsRun(states, acts) && s < k < |states| && acts[s] == StopTimer && states[s].firing == 0
    requires forall m :: s < m < k ==> acts[m] != Arm
    ensures Restarting(states[k])
    decreases k - s
  {
    assert StepAt(states, acts, k - 1);
    if s < k - 1 { NoOldTick(states, acts, s, k - 1); }
  }

  lemma {:induction false} NoTickYet(states: seq<State>, acts: seq<Action>, a: nat, k: nat)
    requires IsRun(states, acts) && a < k < |states| && acts[a] == Arm && Restarting(states[a])
    requires forall m :: a < m < k ==> acts[m] != Fire
    ensures states[k].firing == 0 && !states[k].due
    decreases k - a
  {
    assert StepAt(states, acts, k - 1);
    if a < k - 1 { NoTickYet(states, acts, a, k - 1); }
  }

  /** The timer is stopped at step s for a notification and armed again at step a. A cleanup that starts after that
      waits for the new timer to fire, unless a callback of an old one had already started when it was stopped. */
  lemma WaitsForNewTimer(states: seq<State>, acts: seq<Action>, s: nat, a: nat, c: nat)
    requires IsRun(states, acts) && s < a < c < |acts|
    requires acts[s] == StopTimer && acts[a] == Arm && acts[c] == StartCleanup
    requires forall m :: s < m < a ==> acts[m] != Arm
    ensures states[s].firing > 0 || exists m :: a < m < c && acts[m] == Fire
  {
    assert states[c].due by { assert StepAt(states, acts, c); }
    if states[s].firing == 0 && forall m :: a < m < c ==> acts[m] != Fire {
      NoOldTick(states, acts, s, a);
      NoTickYet(states, acts, a, c);
    }
  }

  // Progress: with no new publications the janitor reaches quiescence by itself.

  function Work(s: State): nat {
    9 * s.publishing
    + (if s.notified then 8 else 0)
    + (match s.loop case Selecting => 0 case Stopping => 7 case Draining => 6 case Arming => 5 case Cleaning => 1)
    + (if s.armed then 4 else 0)
    + 3 * s.firing
    + (if s.due then 2 else 0)
  }

  lemma WorkStep(s: State, a: Action)
    requires a != Publish && Enabled(s, a)
    ensures Work(Apply(s, a)) < Work(s)
  {
  }

  lemma WorkNext(states: seq<State>, acts: seq<Action>, j: nat)
    requires IsRun(states, acts) && j < |acts| && acts[j] != Publish
    ensures Work(states[j + 1]) < Work(states[j])
  {
    assert StepAt(states, acts, j);
    WorkStep(states[j], acts[j]);
  }

  /** Unless it is quiet, some step other than Publish can be taken, and every such step leaves less
      work; so once publishing stops, every maximal run ends quiet within Work steps. */
  lemma SettlesAlone(s: State)
    ensures Quiet(s) <==> forall a :: a != Publish ==> !Enabled(s, a)
    ensures forall a :: a != Publish && Enabled(s, a) ==> Work(Apply(s, a)) < Work(s)
  {
    forall a | a != Publish && Enabled(s, a) ensures Work(Apply(s, a)) < Work(s) { WorkStep(s, a); }
    if !Quiet(s) {
      if s.loop.Stopping? { assert Enabled(s, StopTimer); }
      else if s.loop.Draining? { assert Enabled(s, Drain); }
      else if s.loop.Arming? { assert Enabled(s, Arm); }
      else if s.loop.Cleaning? { assert Enabled(s, EndCleanup); }
      else if s.publishing > 0 { assert Enabled(s, Notify); }
      else if s.notified { assert Enabled(s, Receive); }
      else if s.armed { assert Enabled(s, Fire); }
      else if s.firing > 0 { assert Enabled(s, Send); }
      else { assert Enabled(s, StartCleanup); }
    }
  }

  /** Every run in which nothing is published from step i on has at most Work(states[i]) further steps. */
  lemma {:induction false} BoundedAfterLastPublish(states: seq<State>, acts: seq<Action>, i: nat, j: nat)
    requires IsRun(states, acts) && i <= j < |states|
    requires forall k :: i <= k < j ==> acts[k] != Publish
    ensures Work(states[j]) + (j - i) <= Work(states[i])
    decreases j - i
  {
    if i < j {
      BoundedAfterLastPublish(states, acts, i, j - 1);
      assert Work(states[j]) < Work(states[j - 1]) by { WorkNext(states, acts, j - 1); }
    }
  }
}

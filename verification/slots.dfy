/**
 * The slot protocol: any number of threads share one ledger, each going round
 * check, wait, acquire, enter, backend call, leave, release, with their moves interleaved freely.
 */
module SlotProtocol {
  import opened Common
  import opened RunLedger

  /** Where a thread stands in its use of one slot. */
  datatype Phase = Idle | Waiting | Acquired | InCall | Leaving | Releasing

  /** `late` says that the clock read by that move is at or past the deadline. */
  datatype Move = Check(thread: nat, late: bool) | Acquire(thread: nat) | GiveUp(thread: nat)
                | Enter(thread: nat, late: bool) | Return(thread: nat) | Leave(thread: nat) | Release(thread: nat)

  /** `broken` records that the bounded semaphore refused a release. */
  datatype World = World(slots: Slots, threads: seq<Phase>, broken: bool)

  function Start(max: nat, n: nat): World {
    World(Slots(max, 0, 0), seq(n, _ => Idle), false)
  }

  function Put(w: World, t: nat, phase: Phase, slots: Slots): World
    requires t < |w.threads|
  {
    World(slots, w.threads[t := phase], w.broken)
  }

  /** The world after a move, or None if the thread cannot make it. */
  function Step(max: nat, w: World, m: Move): Option<World> {
    if m.thread >= |w.threads| then None
    else
      var t, s, phase := m.thread, w.slots, w.threads[m.thread];
      match m
      case Check(_, late) => if phase != Idle then None else if late then Some(w) else Some(Put(w, t, Waiting, s))
      case Acquire(_) =>
        if phase != Waiting || Taken(s).None? then None else Some(Put(w, t, Acquired, Taken(s).value))
      case GiveUp(_) => if phase != Waiting then None else Some(Put(w, t, Idle, s))
      case Enter(_, late) =>
        if phase != Acquired then None
        else if late then Some(Put(w, t, Releasing, s))
        else Some(Put(w, t, InCall, Entered(s)))
      case Return(_) => if phase != InCall then None else Some(Put(w, t, Leaving, s))
      case Leave(_) =>
        if phase != Leaving || Left(s).None? then None else Some(Put(w, t, Releasing, Left(s).value))
      case Release(_) =>
        if phase != Releasing then None
        else if Released(max, s).None? then Some(w.(broken := true))
        else Some(Put(w, t, Idle, Released(max, s).value))
  }

  function Run(max: nat, w: World, moves: seq<Move>): Option<World> {
    if moves == [] then Some(w)
    else
      match Run(max, w, moves[..|moves| - 1])
      case None => None
      case Some(before) => Step(max, before, moves[|moves| - 1])
  }

  /** The largest number of concurrent backend calls at any point of the run. */
  function HighWater(max: nat, w: World, moves: seq<Move>): nat {
    var now := match Run(max, w, moves) case None => 0 case Some(after) => after.slots.active;
    if moves == [] then now
    else
      var before := HighWater(max, w, moves[..|moves| - 1]);
      if now > before then now else before
  }

  function Holds(p: Phase): int { if p == Idle || p == Waiting then 0 else 1 }
  function Inside(p: Phase): int { if p == InCall || p == Leaving then 1 else 0 }

  ghost predicate Balanced(max: nat, w: World) {
    && w.slots.free + Sum(Holds, w.threads) == max
    && w.slots.active == Sum(Inside, w.threads)
    && !w.broken
  }

  lemma {:induction false} StartBalanced(max: nat, n: nat)
    ensures Balanced(max, Start(max, n))
  {
    if n > 0 {
      StartBalanced(max, n - 1);
      assert Start(max, n).threads[..n - 1] == Start(max, n - 1).threads;
    }
  }

  lemma {:induction false} StepBalanced(max: nat, w: World, m: Move)
    requires Balanced(max, w) && Step(max, w, m).Some?
    ensures Balanced(max, Step(max, w, m).value)
  {
    var after := Step(max, w, m).value;
    var t := m.thread;
    SumNonNegative(Holds, w.threads);
    if after.threads != w.threads || m.Release? {
      SumUpdate(Holds, w.threads, t, after.threads[t]);
      SumUpdate(Inside, w.threads, t, after.threads[t]);
      assert w.threads[t := w.threads[t]] == w.threads;
    }
  }

  /**
   * On every run: free permits and holders add up to the limit, the active count is the number of
   * threads inside a backend call and never exceeds the holders, the peak is the largest active
   * count ever reached, and the semaphore never refuses a release.
   */
  lemma {:induction false} SlotSafety(max: nat, n: nat, moves: seq<Move>)
    requires Run(max, Start(max, n), moves).Some?
    ensures var w := Run(max, Start(max, n), moves).value;
      && |w.threads| == n
      && w.slots.free + Sum(Holds, w.threads) == max
      && w.slots.active == Sum(Inside, w.threads) <= Sum(Holds, w.threads)
      && w.slots.peak == HighWater(max, Start(max, n), moves) <= max
      && !w.broken
  {
    var s := Start(max, n);
    StartBalanced(max, n);
    if moves != [] {
      SlotSafety(max, n, moves[..|moves| - 1]);
      StepBalanced(max, Run(max, s, moves[..|moves| - 1]).value, moves[|moves| - 1]);
    }
    SumPointwise(Inside, Holds, Run(max, s, moves).value.threads);
    if moves != [] {
      assert Run(max, s, moves).value.slots.peak == HighWater(max, s, moves);
    }
  }

  // ----- The deadline -----

  /** The clock readings of a move are past the deadline. */
  predicate Late(m: Move) {
    match m
    case Check(_, late) => late
    case Enter(_, late) => late
    case _ => true
  }

  /** Once the deadline is past, no use of a slot begins and no thread reaches the backend any more. */
  lemma {:induction false} DeadlineStopsCalls(max: nat, w: World, moves: seq<Move>)
    requires Run(max, w, moves).Some? && forall i :: 0 <= i < |moves| ==> Late(moves[i])
    ensures var after := Run(max, w, moves).value;
      && |after.threads| == |w.threads| && after.slots.active <= w.slots.active && after.slots.peak == w.slots.peak
      && (forall t :: 0 <= t < |w.threads| && after.threads[t] == InCall ==> w.threads[t] == InCall)
      && (forall t :: 0 <= t < |w.threads| && w.threads[t] == Idle ==> after.threads[t] == Idle)
  {
    if moves != [] {
      var n := |moves| - 1;
      assert forall i :: 0 <= i < n ==> moves[..n][i] == moves[i];
      DeadlineStopsCalls(max, w, moves[..n]);
      LateStep(max, Run(max, w, moves[..n]).value, moves[n]);
    }
  }

  lemma {:induction false} LateStep(max: nat, w: World, m: Move)
    requires Step(max, w, m).Some? && Late(m)
    ensures var after := Step(max, w, m).value;
      && |after.threads| == |w.threads| && after.slots.active <= w.slots.active && after.slots.peak == w.slots.peak
      && (forall t :: 0 <= t < |w.threads| && after.threads[t] == InCall ==> w.threads[t] == InCall)
      && (forall t :: 0 <= t < |w.threads| && w.threads[t] == Idle ==> after.threads[t] == Idle)
  {
  }

  /** The moves of one whole use, in time or cut short by the deadline after the permit was taken. */
  function UseOf(t: nat, late: bool): seq<Move> {
    [Check(t, false), Acquire(t), Enter(t, late)] + if late then [Release(t)] else [Return(t), Leave(t), Release(t)]
  }

  lemma {:induction false} RunSnoc(max: nat, w: World, moves: seq<Move>, m: Move)
    ensures Run(max, w, moves + [m]) == match Run(max, w, moves) case None => None case Some(v) => Step(max, v, m)
  {
    assert (moves + [m])[..|moves|] == moves;
  }

  /** In time a thread with a free permit goes all the way round, and either way the slot comes back as it was. */
  lemma {:induction false} UseGivesBack(max: nat, w: World, t: nat, late: bool)
    requires t < |w.threads| && w.threads[t] == Idle && 0 < w.slots.free <= max
    ensures var after := Run(max, w, UseOf(t, late));
      && after.Some? && after.value.threads == w.threads && after.value.broken == w.broken
      && after.value.slots.free == w.slots.free && after.value.slots.active == w.slots.active
      && after.value.slots.peak ==
         if late || w.slots.active < w.slots.peak then w.slots.peak else w.slots.active + 1
  {
    var entered := UseEnters(max, w, t, late);
    var moves := [Check(t, false), Acquire(t), Enter(t, late)];
    if late {
      RunSnoc(max, w, moves, Release(t));
      assert moves + [Release(t)] == UseOf(t, late);
    } else {
      RunSnoc(max, w, moves, Return(t));
      RunSnoc(max, w, moves + [Return(t)], Leave(t));
      RunSnoc(max, w, moves + [Return(t)] + [Leave(t)], Release(t));
      assert moves + [Return(t)] + [Leave(t)] + [Release(t)] == UseOf(t, late);
    }
    assert w.threads[t := Idle] == w.threads;
  }

  lemma {:induction false} UseEnters(max: nat, w: World, t: nat, late: bool) returns (entered: World)
    requires t < |w.threads| && w.threads[t] == Idle && 0 < w.slots.free <= max
    ensures Run(max, w, [Check(t, false), Acquire(t), Enter(t, late)]) == Some(entered)
    ensures entered == World(
      if late then w.slots.(free := w.slots.free - 1) else Entered(w.slots.(free := w.slots.free - 1)),
      w.threads[t := if late then Releasing else InCall], w.broken)
  {
    RunSnoc(max, w, [], Check(t, false));
    assert [] + [Check(t, false)] == [Check(t, false)];
    RunSnoc(max, w, [Check(t, false)], Acquire(t));
    assert [Check(t, false)] + [Acquire(t)] == [Check(t, false), Acquire(t)];
    RunSnoc(max, w, [Check(t, false), Acquire(t)], Enter(t, late));
    assert [Check(t, false), Acquire(t)] + [Enter(t, late)] == [Check(t, false), Acquire(t), Enter(t, late)];
    entered := Run(max, w, [Check(t, false), Acquire(t), Enter(t, late)]).value;
  }

  /** If someone waits and no permit is free, some holder can move whatever the others do. */
  lemma {:induction false} SomeHolderCanStep(max: nat, w: World, t: nat) returns (m: Move)
    requires 0 < max && Balanced(max, w)
    requires t < |w.threads| && w.threads[t] == Waiting && w.slots.free == 0
    ensures m.thread < |w.threads| && Holds(w.threads[m.thread]) == 1 && Step(max, w, m).Some?
    ensures Effort(Step(max, w, m).value) < Effort(w)
  {
    var u := SumWitness(Holds, w.threads);
    SumNonNegative(Inside, w.threads);
    match w.threads[u] {
      case Acquired => m := Enter(u, false);
      case InCall => m := Return(u);
      case Leaving => m := Leave(u);
      case Releasing => m := Release(u);
    }
    StepEffort(max, w, m);
  }

  function Remaining(p: Phase): int {
    match p case Idle => 0 case Waiting => 5 case Acquired => 4 case InCall => 3 case Leaving => 2 case Releasing => 1
  }

  function Effort(w: World): int { Sum(Remaining, w.threads) }

  lemma {:induction false} StepEffort(max: nat, w: World, m: Move)
    requires Balanced(max, w) && Step(max, w, m).Some? && !m.Check?
    ensures Effort(Step(max, w, m).value) < Effort(w)
  {
    StepBalanced(max, w, m);
    SumUpdate(Remaining, w.threads, m.thread, Step(max, w, m).value.threads[m.thread]);
  }

  ghost predicate Stuck(max: nat, w: World) {
    forall m: Move :: !m.Check? ==> Step(max, w, m).None?
  }

  /**
   * No permit leaks and nothing deadlocks: once threads stop starting new uses, at most five moves a
   * thread remain, and when none is possible every thread is idle and every permit is back.
   */
  lemma {:induction false} Drains(max: nat, w: World, moves: seq<Move>)
    requires 0 < max && Balanced(max, w) && Run(max, w, moves).Some?
    requires forall i :: 0 <= i < |moves| ==> !moves[i].Check?
    ensures |moves| <= 5 * |w.threads|
    ensures var after := Run(max, w, moves).value;
      Stuck(max, after) ==>
        && (forall t :: 0 <= t < |after.threads| ==> after.threads[t] == Idle)
        && after.slots.free == max && after.slots.active == 0
  {
    DrainEffort(max, w, moves);
    EffortBound(w.threads);
    var after := Run(max, w, moves).value;
    SumNonNegative(Remaining, after.threads);
    if Stuck(max, after) {
      SumNonNegative(Inside, after.threads);
      forall t | 0 <= t < |after.threads|
        ensures after.threads[t] == Idle
      {
        assert Step(max, after, GiveUp(t)).None? && Step(max, after, Enter(t, false)).None?;
        assert Step(max, after, Return(t)).None? && Step(max, after, Leave(t)).None?;
        assert Step(max, after, Release(t)).None?;
      }
      AllIdle(after.threads);
    }
  }

  lemma {:induction false} DrainEffort(max: nat, w: World, moves: seq<Move>)
    requires Balanced(max, w) && Run(max, w, moves).Some?
    requires forall i :: 0 <= i < |moves| ==> !moves[i].Check?
    ensures var after := Run(max, w, moves).value;
      Balanced(max, after) && |after.threads| == |w.threads| && Effort(after) + |moves| <= Effort(w)
  {
    if moves != [] {
      var n := |moves| - 1;
      DrainEffort(max, w, moves[..n]);
      StepBalanced(max, Run(max, w, moves[..n]).value, moves[n]);
      StepEffort(max, Run(max, w, moves[..n]).value, moves[n]);
    }
  }

  lemma {:induction false} EffortBound(threads: seq<Phase>)
    ensures Sum(Remaining, threads) <= 5 * |threads|
  {
    if threads != [] {
      EffortBound(threads[..|threads| - 1]);
    }
  }

  lemma {:induction false} AllIdle(threads: seq<Phase>)
    requires forall t :: 0 <= t < |threads| ==> threads[t] == Idle
    ensures Sum(Holds, threads) == 0 && Sum(Inside, threads) == 0
  {
    if threads != [] {
      AllIdle(threads[..|threads| - 1]);
    }
  }
}

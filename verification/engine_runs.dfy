/** Theorems about every run of the engine: any depth, any interleaving, any environment. */
module EngineRuns {
  import opened Common
  import opened RunLedger
  import opened EngineModel
  import opened EngineInvariants
  import opened EngineBounds

  /** Until the run closes no final event exists; then exactly one does, at the end, and it tells the outcome. */
  ghost predicate Ended(s: System)
    requires |s.trace| > 0 && |s.acts| > 0
  {
    var n := |s.trace| - 1;
    && (forall x :: 0 <= x < n ==> !Final(s.trace[x].kind))
    && match s.outcome
       case Running => !Final(s.trace[n].kind)
       case Success(turns) =>
         Settled(s.acts[0]) && n > 0 && s.trace[n].kind == RunCompleted(turns) && Paired(s.trace, n, 0, turns)
         && turns == s.acts[0].turn
       case Failure(e) =>
         && Settled(s.acts[0]) && s.trace[n].kind == RunFailed(e.record)
         && s.trace[n].parent == Some(if e.cause.Some? then e.cause.value else 0)
  }

  ghost predicate Inv(cfg: Config, s: System) {
    Structured(cfg, s) && Counted(cfg, s) && Ended(s)
  }

  lemma {:induction false} LaunchInv(cfg: Config)
    ensures Inv(cfg, Launch(cfg))
    ensures Measure(cfg, Launch(cfg)) ==
            cfg.limits.maxTurns * TurnCost(cfg) + 3 + cfg.limits.maxSubcalls * ChildCost(cfg) + 1
  {
    var s := Launch(cfg);
    CallLogFresh(s.trace, 0);
    assert s.acts == [] + [Branch(0, 0, 0, New(0))];
    forall f: Activity -> int
      ensures Sum(f, s.acts) == f(Branch(0, 0, 0, New(0)))
    {
      SumAppend(f, [], Branch(0, 0, 0, New(0)));
    }
    assert s.trace[..0] == [];
    assert Follows(s.trace[0], Event(BranchStarted, 0, 0, Some(0)));
    assert ActOk(cfg, s.trace, 0, s.acts[0]);
  }

  // ----- Every step keeps the invariant and lowers the measure -----

  lemma {:induction false} LocalEffect(cfg: Config, s: System, i: nat, c: Choice, e: Effect)
    requires Structured(cfg, s) && i < |s.acts| && Local(cfg, s, i, c) == Some(e)
    ensures EffectOk(cfg, s, i, e)
    ensures WaitsOnlyForNew(s.acts, i, s.acts[i], e)
  {
    LocalWaits(cfg, s, i, c, e);
    if s.acts[i].Call? {
      CallEffect(cfg, s, i, c, e);
    } else {
      BranchEffect(cfg, s, i, c, e);
    }
  }

  lemma {:induction false} EventAppended(cfg: Config, trace: seq<Event>, e: Event, n: nat, m: nat)
    requires Traced(cfg, trace, n) && n <= m
    requires EventOk(trace + [e], |trace|) && e.branch < m && e.depth <= cfg.limits.maxDepth
    requires CallOf(e.kind).Some? ==> CallOf(e.kind).value < m
    ensures Traced(cfg, trace + [e], m)
  {
    forall x | 0 <= x < |trace|
      ensures EventOk(trace + [e], x)
    {
      assert EventOk(trace, x);
    }
  }

  lemma {:induction false} OthersStable(cfg: Config, trace: seq<Event>, e: Event, acts: seq<Activity>, j: nat)
    requires Acting(cfg, trace, acts) && j < |acts| && CallOf(e.kind) != Some(j)
    ensures ActOk(cfg, trace + [e], j, acts[j])
  {
    assert ActOk(cfg, trace, j, acts[j]);
    ActStable(cfg, trace, e, j, acts[j]);
  }

  lemma {:induction false} ApplyActing(cfg: Config, s: System, i: nat, e: Effect)
    requires Acting(cfg, s.trace, s.acts) && i < |s.acts| && EffectOk(cfg, s, i, e)
    ensures Acting(cfg, Apply(s, i, e).trace, Apply(s, i, e).acts)
  {
    var t := Apply(s, i, e);
    forall j | 0 <= j < |t.acts|
      ensures ActOk(cfg, t.trace, j, t.acts[j])
    {
      if j < |s.acts| && j != i {
        assert ActOk(cfg, s.trace, j, s.acts[j]);
        if e.emit.Some? {
          OthersStable(cfg, s.trace, e.emit.value, s.acts, j);
        }
      }
    }
  }

  lemma {:induction false} ApplyStructured(cfg: Config, s: System, i: nat, e: Effect)
    requires Structured(cfg, s) && i < |s.acts|
    requires EffectOk(cfg, s, i, e) && WaitsOnlyForNew(s.acts, i, s.acts[i], e)
    ensures Structured(cfg, Apply(s, i, e))
  {
    var t := Apply(s, i, e);
    assert Traced(cfg, t.trace, |t.acts|) by {
      if e.emit.Some? {
        EventAppended(cfg, s.trace, e.emit.value, |s.acts|, |t.acts|);
      }
    }
    ApplyActing(cfg, s, i, e);
    assert Linking(t.acts) by {
      forall j | 0 <= j < |t.acts|
        ensures Linked(t.acts, j)
      {
        LinksKept(s.acts, i, e, j);
      }
    }
  }

  lemma {:induction false} LocalDeltas(cfg: Config, s: System, i: nat, a: Activity, c: Choice, e: Effect)
    requires Counted(cfg, s) && i < |s.acts| && a == s.acts[i] && Local(cfg, s, i, c) == Some(e)
    ensures Deltas(cfg, s, a, e)
  {
    if a.Call? {
      CallDeltas(cfg, s, i, a, c, e);
    } else if Accounting(a) {
      AccountingDeltas(cfg, s, i, a, c, e);
    } else {
      OtherDeltas(cfg, s, i, a, c, e);
    }
  }

  lemma {:induction false} LocalWeight(cfg: Config, s: System, i: nat, a: Activity, c: Choice, e: Effect)
    requires Counted(cfg, s) && i < |s.acts| && a == s.acts[i] && Local(cfg, s, i, c) == Some(e)
    ensures Weight(cfg, e.act) + Added(Weigh(cfg), e.spawn)
          < Weight(cfg, a) + (e.subcalls - s.subcalls) * ChildCost(cfg)
  {
    if a.Call? {
      CallWeight(cfg, s, i, a, c, e);
    } else if a.branchPc.AtTurn? {
      TurnWeight(cfg, s, i, a, c, e);
    } else if a.branchPc.InCell? {
      CellWeight(cfg, s, i, a, c, e);
    } else if a.branchPc.InHostCall? {
      HostCallWeight(cfg, s, i, a, c, e);
    } else {
      QuietWeight(cfg, s, i, a, c, e);
    }
  }

  lemma {:induction false} CallWeight(cfg: Config, s: System, i: nat, a: Activity, c: Choice, e: Effect)
    requires Counted(cfg, s) && a.Call? && CallStep(cfg, s, i, a, c) == Some(e)
    ensures Weight(cfg, e.act) + Added(Weigh(cfg), e.spawn)
          < Weight(cfg, a) + (e.subcalls - s.subcalls) * ChildCost(cfg)
  {
    CallDeltas(cfg, s, i, a, c, e);
  }

  lemma {:induction false} QuietWeight(cfg: Config, s: System, i: nat, a: Activity, c: Choice, e: Effect)
    requires a.Branch? && !Accounting(a) && Shaped(cfg, a) && BranchStep(cfg, s, i, a, c) == Some(e)
    ensures Weight(cfg, e.act) + Added(Weigh(cfg), e.spawn)
          < Weight(cfg, a) + (e.subcalls - s.subcalls) * ChildCost(cfg)
  {
    OtherWeight(cfg, s, i, a, c, e);
  }

  lemma {:induction false} ApplyCounted(cfg: Config, s: System, i: nat, e: Effect)
    requires Counted(cfg, s) && i < |s.acts| && Deltas(cfg, s, s.acts[i], e)
    ensures Counted(cfg, Apply(s, i, e))
  {
    SumStep(Spent, s.acts, i, e);
    SumStep(Charged, s.acts, i, e);
    SumStep(Unrequested, s.acts, i, e);
    SumStep(Begun, s.acts, i, e);
    SumStep(HoldsSlot, s.acts, i, e);
    SumStep(InsideBackend, s.acts, i, e);
    if e.emit.Some? {
      assert (s.trace + [e.emit.value])[..|s.trace|] == s.trace;
    }
  }

  lemma {:induction false} ApplyLowers(cfg: Config, s: System, i: nat, e: Effect)
    requires i < |s.acts|
    requires Weight(cfg, e.act) + Added(Weigh(cfg), e.spawn)
             < Weight(cfg, s.acts[i]) + (e.subcalls - s.subcalls) * ChildCost(cfg)
    ensures Measure(cfg, Apply(s, i, e)) < Measure(cfg, s)
  {
    SumStep(Weigh(cfg), s.acts, i, e);
    Distribute(cfg.limits.maxSubcalls - s.subcalls, e.subcalls - s.subcalls, ChildCost(cfg));
  }

  lemma {:induction false} Distribute(left: int, used: int, cost: int)
    ensures (left - used) * cost == left * cost - used * cost
  {
  }

  lemma {:induction false} CloseStructured(cfg: Config, s: System)
    requires Structured(cfg, s) && Settled(s.acts[0])
    ensures s.acts[0].Branch? && Structured(cfg, Closing(s, s.acts[0]))
  {
    assert Linked(s.acts, 0) && ActOk(cfg, s.trace, 0, s.acts[0]) && EventOk(s.trace, 0);
    var ev := Closing(s, s.acts[0]).trace[|s.trace|];
    EventAppended(cfg, s.trace, ev, |s.acts|, |s.acts|);
    forall j | 0 <= j < |s.acts|
      ensures ActOk(cfg, s.trace + [ev], j, s.acts[j])
    {
      OthersStable(cfg, s.trace, ev, s.acts, j);
    }
  }

  lemma {:induction false} CloseCounted(cfg: Config, s: System)
    requires Counted(cfg, s) && s.outcome == Running && |s.acts| > 0
    requires s.acts[0].Branch? && Settled(s.acts[0])
    ensures Counted(cfg, Closing(s, s.acts[0]))
    ensures Measure(cfg, Closing(s, s.acts[0])) < Measure(cfg, s)
  {
    assert Closing(s, s.acts[0]).trace[..|s.trace|] == s.trace;
  }

  lemma {:induction false} CloseEnded(cfg: Config, s: System)
    requires |s.trace| > 0 && |s.acts| > 0 && Ended(s) && s.outcome == Running
    requires s.acts[0].Branch? && Settled(s.acts[0]) && BranchOk(cfg, s.trace, 0, s.acts[0])
    ensures Ended(Closing(s, s.acts[0]))
  {
    var ev := Closing(s, s.acts[0]).trace[|s.trace|];
    if ev.kind.RunCompleted? {
      EmitKeepsPairs(s.trace, ev, s.acts[0].branchPc.event, 0, s.acts[0].turn);
    }
  }

  lemma {:induction false} ApplyEnded(cfg: Config, s: System, i: nat, e: Effect)
    requires |s.trace| > 0 && i < |s.acts| && Ended(s) && s.outcome == Running
    requires e.emit.Some? ==> !Final(e.emit.value.kind)
    ensures Ended(Apply(s, i, e))
  {
  }

  lemma {:induction false} AdvanceKeeps(cfg: Config, s: System, i: nat, c: Choice, e: Effect)
    requires Inv(cfg, s) && s.outcome == Running && i < |s.acts| && Local(cfg, s, i, c) == Some(e)
    ensures Inv(cfg, Apply(s, i, e))
    ensures Measure(cfg, Apply(s, i, e)) < Measure(cfg, s)
  {
    LocalEffect(cfg, s, i, c, e);
    ApplyStructured(cfg, s, i, e);
    LocalDeltas(cfg, s, i, s.acts[i], c, e);
    LocalWeight(cfg, s, i, s.acts[i], c, e);
    ApplyCounted(cfg, s, i, e);
    ApplyLowers(cfg, s, i, e);
    ApplyEnded(cfg, s, i, e);
  }

  lemma {:induction false} StepKeeps(cfg: Config, s: System, move: Move)
    requires Inv(cfg, s) && Step(cfg, s, move).Some?
    ensures Inv(cfg, Step(cfg, s, move).value)
    ensures Measure(cfg, Step(cfg, s, move).value) < Measure(cfg, s)
  {
    match move
    case Advance(i, c) =>
      AdvanceKeeps(cfg, s, i, c, Local(cfg, s, i, c).value);
    case CloseRun =>
      assert ActOk(cfg, s.trace, 0, s.acts[0]);
      CloseStructured(cfg, s);
      CloseCounted(cfg, s);
      CloseEnded(cfg, s);
  }

  lemma {:induction false} MeasureNonNegative(cfg: Config, s: System)
    requires Counted(cfg, s)
    ensures Measure(cfg, s) >= 0
  {
    forall j | 0 <= j < |s.acts|
      ensures Weigh(cfg)(s.acts[j]) >= 0
    {
      assert Shaped(cfg, s.acts[j]);
      if s.acts[j].Branch? {
        TurnsLeft(cfg, s.acts[j]);
      }
    }
    SumNonNegative(Weigh(cfg), s.acts);
    assert (cfg.limits.maxSubcalls - s.subcalls) * ChildCost(cfg) >= 0;
  }

  lemma {:induction false} RunKeeps(cfg: Config, moves: seq<Move>)
    requires Run(cfg, moves).Some?
    ensures Inv(cfg, Run(cfg, moves).value)
    ensures Measure(cfg, Run(cfg, moves).value) + |moves| <= Measure(cfg, Launch(cfg))
  {
    if moves == [] {
      LaunchInv(cfg);
    } else {
      RunKeeps(cfg, moves[..|moves| - 1]);
      StepKeeps(cfg, Run(cfg, moves[..|moves| - 1]).value, moves[|moves| - 1]);
    }
  }

  // ----- Theorems -----

  ghost predicate Reachable(cfg: Config, s: System) {
    exists moves :: Run(cfg, moves) == Some(s)
  }

  lemma {:induction false} ReachableInv(cfg: Config, s: System)
    requires Reachable(cfg, s)
    ensures Inv(cfg, s)
  {
    var moves :| Run(cfg, moves) == Some(s);
    RunKeeps(cfg, moves);
  }

  function RootOf(trace: seq<Event>, x: nat): nat {
    if x < |trace| && trace[x].parent.Some? && trace[x].parent.value < x
    then RootOf(trace, trace[x].parent.value) else x
  }

  /**
   * The trace of every run is one tree rooted at run.started: each other event names one earlier event
   * as its cause, of a kind the grammar allows, and following causes always ends at event 0. In
   * particular every append passes the recorder's check that a parent is already written.
   */
  lemma {:induction false} TraceIsOneTree(cfg: Config, s: System, x: nat)
    requires Reachable(cfg, s) && x < |s.trace|
    ensures s.trace[0].kind.RunStarted? && RootOf(s.trace, x) == 0
    ensures x > 0 ==>
      && s.trace[x].parent.Some? && s.trace[x].parent.value < x
      && Follows(s.trace[s.trace[x].parent.value], s.trace[x])
    decreases x
  {
    ReachableInv(cfg, s);
    assert EventOk(s.trace, 0) && EventOk(s.trace, x);
    if x > 0 {
      TraceIsOneTree(cfg, s, s.trace[x].parent.value);
    }
  }

  /** A settled owner has only settled dependents, so a settled root settles the whole run. */
  lemma {:induction false} AllSettled(acts: seq<Activity>, j: nat)
    requires Linking(acts) && j < |acts| && Settled(acts[0])
    ensures Settled(acts[j])
    decreases j
  {
    assert Linked(acts, j);
    if j > 0 {
      AllSettled(acts, acts[j].owner);
    }
  }

  lemma {:induction false} CallLogComplete(trace: seq<Event>, c: nat, x: nat)
    requires x < |trace|
    ensures CallOf(trace[x].kind) == Some(c) <==> x in CallLog(trace, c)
  {
    CallLogBounded(trace[..|trace| - 1], c);
    if x < |trace| - 1 {
      CallLogComplete(trace[..|trace| - 1], c, x);
    }
  }

  lemma {:induction false} EventCallIsCall(cfg: Config, s: System, x: nat, c: nat)
    requires Structured(cfg, s) && x < |s.trace| && CallOf(s.trace[x].kind) == Some(c)
    ensures c < |s.acts| && s.acts[c].Call? && CallOk(cfg, s.trace, c, s.acts[c]) && CallLog(s.trace, c) != []
  {
    CallLogComplete(s.trace, c, x);
    assert ActOk(cfg, s.trace, c, s.acts[c]);
  }

  lemma {:induction false} SettledCallSettles(cfg: Config, trace: seq<Event>, c: nat, a: Activity)
    requires a.Call? && CallOk(cfg, trace, c, a) && Settled(a) && CallLog(trace, c) != []
    ensures SettledOnce(trace, CallLog(trace, c))
  {
  }

  /**
   * Once a run is over, every model call that reached the trace has settled exactly once: its events
   * are its request and then a response, a failure, or a response followed by a failure.
   */
  lemma {:induction false} CallsSettleExactlyOnce(cfg: Config, s: System, x: nat, c: nat)
    requires Reachable(cfg, s) && s.outcome != Running
    requires x < |s.trace| && CallOf(s.trace[x].kind) == Some(c)
    ensures SettledOnce(s.trace, CallLog(s.trace, c)) && x in CallLog(s.trace, c)
  {
    ReachableInv(cfg, s);
    EventCallIsCall(cfg, s, x, c);
    CallLogComplete(s.trace, c, x);
    AllSettled(s.acts, c);
    SettledCallSettles(cfg, s.trace, c, s.acts[c]);
  }

  /** Each response, on any path, is the direct child of its own request. */
  lemma {:induction false} ResponsesFollowRequests(cfg: Config, s: System, x: nat)
    requires Reachable(cfg, s) && x < |s.trace| && s.trace[x].kind.ModelResponse?
    ensures s.trace[x].parent.Some? && s.trace[x].parent.value < x
    ensures s.trace[s.trace[x].parent.value].kind == ModelRequest(s.trace[x].kind.call, s.trace[x].kind.role)
  {
    ReachableInv(cfg, s);
    assert EventOk(s.trace, x);
  }

  lemma {:induction false} PathStep(trace: seq<Event>, x: nat) returns (p: nat)
    requires x < |trace| && (forall y :: 0 <= y < |trace| ==> EventOk(trace, y))
    requires !trace[x].kind.RunStarted?
    ensures p < x && trace[x].parent == Some(p) && Follows(trace[p], trace[x])
    ensures OnPath(trace, x, 0, true) >= OnPath(trace, p, 0, true)
  {
    assert EventOk(trace, x);
    p := trace[x].parent.value;
  }

  lemma {:induction false} CompletedPath(trace: seq<Event>)
    requires |trace| > 0 && (forall y :: 0 <= y < |trace| ==> EventOk(trace, y))
    requires trace[|trace| - 1].kind.RunCompleted?
    ensures OnPath(trace, |trace| - 1, 0, true) >= 1
  {
    var completed := PathStep(trace, |trace| - 1);
    var execution := PathStep(trace, completed);
    var action := PathStep(trace, execution);
    var response := PathStep(trace, action);
  }

  /**
   * A successful run ends in run.completed, and the path from it back to the root passes exactly
   * `turns` controller requests and `turns` controller responses of the root branch.
   */
  lemma {:induction false} SuccessCountsTurns(cfg: Config, s: System)
    requires Reachable(cfg, s) && s.outcome.Success?
    ensures |s.trace| > 0
    ensures s.trace[|s.trace| - 1].kind == RunCompleted(s.outcome.turns)
    ensures OnPath(s.trace, |s.trace| - 1, 0, false) == OnPath(s.trace, |s.trace| - 1, 0, true) == s.outcome.turns
    ensures 1 <= s.outcome.turns <= cfg.limits.maxTurns
  {
    ReachableInv(cfg, s);
    assert ActOk(cfg, s.trace, 0, s.acts[0]) && Linked(s.acts, 0);
    CompletedPath(s.trace);
  }

  predicate NamesRecord(k: Kind, record: nat) {
    k == Decision(true) || (k.ModelFailed? && k.record == record)
  }

  /**
   * A failed run names its cause: run.failed hangs under run.started when the error carried no causal
   * event, and otherwise under the very event it carried, which is either the aborting recovery
   * decision or the model failure bearing the same error record, whatever the depth it came from.
   */
  lemma {:induction false} FailureNamesItsCause(cfg: Config, s: System)
    requires Reachable(cfg, s) && s.outcome.Failure?
    ensures
      var n, e := |s.trace| - 1, s.outcome.error;
      && n > 0 && s.trace[n].kind == RunFailed(e.record) && s.trace[n].parent.Some?
      && var p := s.trace[n].parent.value;
         && p < n
         && (e.cause.None? ==> p == 0)
         && (e.cause.Some? ==> p == e.cause.value && NamesRecord(s.trace[p].kind, e.record))
  {
    ReachableInv(cfg, s);
    assert EventOk(s.trace, |s.trace| - 1) && EventOk(s.trace, 0);
    assert ActOk(cfg, s.trace, 0, s.acts[0]) && Linked(s.acts, 0);
  }

  /** The failure a batch surfaces is the one of its first failing child in request order. */
  lemma {:induction false} FirstFailureIsFirst(acts: seq<Activity>, children: seq<nat>)
    requires forall k :: 0 <= k < |children| ==> children[k] < |acts|
    ensures FirstFailure(acts, children).None? <==>
      forall k :: 0 <= k < |children| ==> FailureOf(acts[children[k]]).None?
    ensures FirstFailure(acts, children).Some? ==>
      exists k :: 0 <= k < |children| && FailureOf(acts[children[k]]) == FirstFailure(acts, children)
        && forall h :: 0 <= h < k ==> FailureOf(acts[children[h]]).None?
  {
    if children != [] && FailureOf(acts[children[0]]).None? {
      FirstFailureIsFirst(acts, children[1..]);
      assert forall k :: 0 <= k < |children| - 1 ==> children[1..][k] == children[k + 1];
      if FirstFailure(acts, children).Some? {
        var k :| 0 <= k < |children[1..]| && FailureOf(acts[children[1..][k]]) == FirstFailure(acts, children[1..])
          && forall h :: 0 <= h < k ==> FailureOf(acts[children[1..][h]]).None?;
        forall h | 0 <= h < k + 1
          ensures FailureOf(acts[children[h]]).None?
        {
          if h > 0 {
            assert children[1..][h - 1] == children[h];
          }
        }
        assert FailureOf(acts[children[k + 1]]) == FirstFailure(acts, children);
      }
    }
  }

  /**
   * The branch is bound to a host failure: its cell has latched it, its execution has reported it, or the branch
   * has ended in it, or in a failure of the executor itself, which has no causal event.
   */
  predicate Fated(a: Activity, f: Error) {
    a.Branch? &&
    match a.branchPc
    case InCell(_, _, latched) => latched == Some(f)
    case Executed(_, outcome) => outcome == HostFailed(f)
    case Failed(e) => e == f || e.cause == None
    case _ => false
  }

  function Continue(cfg: Config, s: System, moves: seq<Move>): Option<System> {
    if moves == [] then Some(s)
    else
      match Continue(cfg, s, moves[..|moves| - 1])
      case None => None
      case Some(t) => Step(cfg, t, moves[|moves| - 1])
  }

  lemma {:induction false} FateKept(cfg: Config, s: System, i: nat, move: Move, f: Error)
    requires i < |s.acts| && Fated(s.acts[i], f) && Step(cfg, s, move).Some?
    ensures var t := Step(cfg, s, move).value;
      && |s.acts| <= |t.acts| && Fated(t.acts[i], f)
      && forall j :: 0 <= j < |t.acts| && t.acts[j].owner == i ==> j < |s.acts| && s.acts[j].owner == i
  {
    if move.Advance? {
      var e := Local(cfg, s, move.act, move.choice).value;
      LocalWaits(cfg, s, move.act, move.choice, e);
    }
  }

  /**
   * After a fatal host failure in a cell no further host operation of that branch runs: however the run
   * continues, the branch creates no further activity, and it stays bound to that failure until it ends
   * in it with record and causal parent unchanged, unless the execution never reports: it times out, loses
   * its worker or is torn down with an error of its own.
   */
  lemma {:induction false} FatalFailureSurfaces(cfg: Config, s: System, i: nat, moves: seq<Move>, f: Error)
    requires i < |s.acts| && Fated(s.acts[i], f) && Continue(cfg, s, moves).Some?
    ensures var t := Continue(cfg, s, moves).value;
      && |s.acts| <= |t.acts| && Fated(t.acts[i], f)
      && forall j :: 0 <= j < |t.acts| && t.acts[j].owner == i ==> j < |s.acts| && s.acts[j].owner == i
  {
    if moves != [] {
      var n := |moves| - 1;
      FatalFailureSurfaces(cfg, s, i, moves[..n], f);
      FateKept(cfg, Continue(cfg, s, moves[..n]).value, i, moves[n], f);
    }
  }

  // ----- What a host call leaves its cell with -----

  /** The activity has ended, without a failure or in this one. */
  predicate Succeeded(a: Activity) {
    match a
    case Branch(_, _, _, pc) => pc.Completed?
    case Call(_, _, _, _, _, pc) => pc.Answered?
  }

  predicate EndedIn(a: Activity, f: Error) {
    match a
    case Branch(_, _, _, pc) => pc == Failed(f)
    case Call(_, _, _, _, _, pc) => pc == Refused(f)
  }

  /** A host call of the branch whose children have all been created and have all ended. */
  ghost predicate AllEnded(s: System, i: nat) {
    && i < |s.acts| && s.acts[i].Branch? && s.acts[i].branchPc.InHostCall?
    && |s.acts[i].branchPc.children| >= s.acts[i].branchPc.want
    && var children := s.acts[i].branchPc.children;
       forall h :: 0 <= h < |children| ==>
         children[h] < |s.acts| && (Succeeded(s.acts[children[h]]) || exists f :: EndedIn(s.acts[children[h]], f))
  }

  /** The first child in request order that failed, failed with `f`. */
  ghost predicate FailsFirst(s: System, children: seq<nat>, k: nat, f: Error) {
    && k < |children| && children[k] < |s.acts| && EndedIn(s.acts[children[k]], f)
    && forall h :: 0 <= h < k ==> children[h] < |s.acts| && Succeeded(s.acts[children[h]])
  }

  lemma {:induction false} FirstFailureAt(s: System, children: seq<nat>, k: nat, f: Error)
    requires FailsFirst(s, children, k, f)
    ensures FirstFailure(s.acts, children) == Some(f)
  {
    if k > 0 {
      assert Succeeded(s.acts[children[0]]);
      assert forall h :: 0 <= h < |children| - 1 ==> children[1..][h] == children[h + 1];
      FirstFailureAt(s, children[1..], k - 1, f);
    }
  }

  lemma {:induction false} NoFailure(acts: seq<Activity>, children: seq<nat>)
    requires forall h :: 0 <= h < |children| ==> children[h] < |acts| && Succeeded(acts[children[h]])
    ensures FirstFailure(acts, children) == None
  {
    if children != [] {
      NoFailure(acts, children[1..]);
    }
  }

  /** What has ended stays as it is. */
  lemma {:induction false} EndedStays(cfg: Config, s: System, move: Move, j: nat)
    requires j < |s.acts| && Settled(s.acts[j]) && Step(cfg, s, move).Some?
    ensures j < |Step(cfg, s, move).value.acts| && Step(cfg, s, move).value.acts[j] == s.acts[j]
  {
  }

  /** The call over, the branch goes on with what the first failure leaves in the cell, unless its executor fails. */
  lemma {:induction false} JoinSteps(cfg: Config, s: System, i: nat, k: nat, f: Error, c: Choice, e: Effect)
    requires AllEnded(s, i) && FailsFirst(s, s.acts[i].branchPc.children, k, f) && Local(cfg, s, i, c) == Some(e)
    ensures e.spawn == None && e.act.Branch?
    ensures var pc := s.acts[i].branchPc;
      || (e.act.branchPc.Failed? && e.act.branchPc.error.cause == None)
      || e.act.branchPc == InCell(pc.action, pc.calls, if f.invalid then None else Some(f))
  {
    ChildrenSettled(s.acts, s.acts[i].branchPc.children);
    FirstFailureAt(s, s.acts[i].branchPc.children, k, f);
  }

  lemma {:induction false} CallStaysOver(cfg: Config, s: System, move: Move, i: nat, k: nat, f: Error)
    requires AllEnded(s, i) && FailsFirst(s, s.acts[i].branchPc.children, k, f) && Step(cfg, s, move).Some?
    requires move.Advance? ==> move.act != i
    ensures var t := Step(cfg, s, move).value;
      AllEnded(t, i) && t.acts[i] == s.acts[i] && FailsFirst(t, t.acts[i].branchPc.children, k, f)
  {
    var t := Step(cfg, s, move).value;
    assert t.acts[i] == s.acts[i];
    var children := s.acts[i].branchPc.children;
    forall h | 0 <= h < |children|
      ensures children[h] < |t.acts| && t.acts[children[h]] == s.acts[children[h]]
    {
      EndedStays(cfg, s, move, children[h]);
    }
  }

  /**
   * A child's failure binds its branch. When all children of a host call have ended and the first that failed
   * did so with a record other than a malformed request, then however the run continues the branch creates
   * nothing more and never completes: it is still at that call, or bound to that failure until it ends in it,
   * or in a failure of the executor itself.
   */
  lemma {:induction false} ChildFailureBinds(cfg: Config, s: System, i: nat, k: nat, f: Error, moves: seq<Move>)
    requires AllEnded(s, i) && FailsFirst(s, s.acts[i].branchPc.children, k, f) && !f.invalid
    requires Continue(cfg, s, moves).Some?
    ensures var t := Continue(cfg, s, moves).value;
      && |s.acts| <= |t.acts| && (t.acts[i] == s.acts[i] || Fated(t.acts[i], f))
      && !(t.acts[i].branchPc.Exiting? || t.acts[i].branchPc.Completed?)
      && forall j :: 0 <= j < |t.acts| && t.acts[j].owner == i ==> j < |s.acts| && s.acts[j].owner == i
  {
    var over := StillOverOrBound(cfg, s, i, k, f, moves);
  }

  lemma {:induction false} StillOverOrBound(cfg: Config, s: System, i: nat, k: nat, f: Error, moves: seq<Move>)
    returns (t: System)
    requires AllEnded(s, i) && FailsFirst(s, s.acts[i].branchPc.children, k, f) && !f.invalid
    requires Continue(cfg, s, moves).Some?
    ensures Continue(cfg, s, moves) == Some(t) && |s.acts| <= |t.acts|
    ensures Fated(t.acts[i], f) ||
      (t.acts[i] == s.acts[i] && AllEnded(t, i) && FailsFirst(t, t.acts[i].branchPc.children, k, f))
    ensures forall j :: 0 <= j < |t.acts| && t.acts[j].owner == i ==> j < |s.acts| && s.acts[j].owner == i
  {
    if moves == [] {
      t := s;
    } else {
      var n := |moves| - 1;
      var before := StillOverOrBound(cfg, s, i, k, f, moves[..n]);
      t := Step(cfg, before, moves[n]).value;
      if Fated(before.acts[i], f) {
        FateKept(cfg, before, i, moves[n], f);
      } else {
        OverSteps(cfg, before, i, k, f, moves[n]);
      }
    }
  }

  lemma {:induction false} OverSteps(cfg: Config, s: System, i: nat, k: nat, f: Error, move: Move)
    requires AllEnded(s, i) && FailsFirst(s, s.acts[i].branchPc.children, k, f) && !f.invalid
    requires Step(cfg, s, move).Some?
    ensures var t := Step(cfg, s, move).value;
      && |s.acts| <= |t.acts|
      && (Fated(t.acts[i], f)
          || (t.acts[i] == s.acts[i] && AllEnded(t, i) && FailsFirst(t, t.acts[i].branchPc.children, k, f)))
      && forall j :: 0 <= j < |t.acts| && t.acts[j].owner == i ==> j < |s.acts| && s.acts[j].owner == i
  {
    if move.Advance? {
      var e := Local(cfg, s, move.act, move.choice).value;
      LocalWaits(cfg, s, move.act, move.choice, e);
      if move.act == i {
        JoinSteps(cfg, s, i, k, f, move.choice, e);
      } else {
        CallStaysOver(cfg, s, move, i, k, f);
      }
    } else {
      CallStaysOver(cfg, s, move, i, k, f);
    }
  }

  /**
   * A malformed request does not: when the first failure is one, or no child failed, the cell goes on as if
   * nothing had happened, and it may call the host again or submit and complete.
   */
  lemma {:induction false} RepairableCallResumes(cfg: Config, s: System, i: nat, k: nat, f: Error)
    requires s.outcome == Running && AllEnded(s, i)
    requires var children := s.acts[i].branchPc.children;
      (FailsFirst(s, children, k, f) && f.invalid) || forall h :: 0 <= h < |children| ==> Succeeded(s.acts[children[h]])
    ensures var pc := s.acts[i].branchPc;
      var t := Step(cfg, s, Advance(i, Go));
      t.Some? && t.value == s.(acts := s.acts[i := s.acts[i].(branchPc := InCell(pc.action, pc.calls, None))])
  {
    var children := s.acts[i].branchPc.children;
    ChildrenSettled(s.acts, children);
    if FailsFirst(s, children, k, f) && f.invalid {
      FirstFailureAt(s, children, k, f);
    } else {
      NoFailure(s.acts, children);
    }
  }

  /** A cell with nothing latched may call the host while calls and subcalls remain, or submit and complete. */
  lemma {:induction false} FreeCellGoesOn(cfg: Config, s: System, i: nat, count: nat, recursive: bool)
    requires s.outcome == Running && i < |s.acts| && s.acts[i].Branch?
    requires s.acts[i].branchPc.InCell? && s.acts[i].branchPc.latched == None
    ensures var pc, t := s.acts[i].branchPc, Step(cfg, s, Advance(i, HostCall(count, recursive)));
      && pc.calls > 0 && s.subcalls + count <= cfg.limits.maxSubcalls
      && (recursive ==> s.acts[i].depth < cfg.limits.maxDepth)
      ==> t.Some? && t.value.acts[i].branchPc == InHostCall(pc.action, pc.calls - 1, count, [], recursive)
    ensures var t := Continue(cfg, s, [Advance(i, Finish(Submitted)), Advance(i, Go), Advance(i, Go)]);
      t.Some? && t.value.acts[i].Branch? && t.value.acts[i].branchPc == Completed(|s.trace| + 1)
  {
    var first, second := [Advance(i, Finish(Submitted))], [Advance(i, Finish(Submitted)), Advance(i, Go)];
    assert first[..0] == [] && second[..1] == first;
    assert [Advance(i, Finish(Submitted)), Advance(i, Go), Advance(i, Go)][..2] == second;
    assert Continue(cfg, s, []) == Some(s);
    var a := Continue(cfg, s, first);
    assert a == Step(cfg, s, Advance(i, Finish(Submitted)));
    var b := Continue(cfg, s, second);
    assert b == Step(cfg, a.value, Advance(i, Go));
  }

  /** A refusal of a host operation binds the branch in the same way, and in the same case not. */
  lemma {:induction false} DenialDecides(cfg: Config, s: System, i: nat, e: Error, reserved: bool)
    requires i < |s.acts| && s.acts[i].Branch? && Step(cfg, s, Advance(i, Deny(e, reserved))).Some?
    ensures var t := Step(cfg, s, Advance(i, Deny(e, reserved))).value;
      && |t.acts| == |s.acts| && t.acts[i].Branch? && t.acts[i].branchPc.InCell?
      && t.acts[i].branchPc.latched == (if e.invalid then None else Some(e))
      && t.subcalls == s.subcalls + if reserved then 1 else 0
  {
  }

  /** A free cell may be refused any operation, one that reserved its subcall as long as subcalls remain. */
  lemma {:induction false} DenialPossible(cfg: Config, s: System, i: nat, e: Error, reserved: bool)
    requires s.outcome == Running && i < |s.acts| && s.acts[i].Branch?
    requires s.acts[i].branchPc.InCell? && s.acts[i].branchPc.latched == None && s.acts[i].branchPc.calls > 0
    ensures Step(cfg, s, Advance(i, Deny(e, reserved))).Some? <==>
      e.cause == None && (reserved ==> s.subcalls < cfg.limits.maxSubcalls)
  {
  }

  // ----- The width of a batch -----

  /** Of the children of each host call at most `want`, and at most as many as calls may run at once, are under way. */
  ghost predicate Narrow(cfg: Config, s: System) {
    forall j :: 0 <= j < |s.acts| && s.acts[j].Branch? && s.acts[j].branchPc.InHostCall? ==>
      var pc := s.acts[j].branchPc;
      Unsettled(s.acts, pc.children) <= pc.want && Unsettled(s.acts, pc.children) <= cfg.limits.maxParallel
  }

  /** Activities that settle only lower the number under way. */
  lemma {:induction false} UnsettledFalls(acts: seq<Activity>, later: seq<Activity>, children: seq<nat>)
    requires |acts| <= |later| && forall c :: 0 <= c < |acts| && Settled(acts[c]) ==> Settled(later[c])
    ensures Unsettled(later, children) <= Unsettled(acts, children)
  {
    if children != [] {
      UnsettledFalls(acts, later, children[..|children| - 1]);
    }
  }

  lemma {:induction false} UnsettledSnoc(acts: seq<Activity>, children: seq<nat>, c: nat)
    ensures Unsettled(acts, children + [c]) <= Unsettled(acts, children) + 1
  {
    assert (children + [c])[..|children|] == children;
  }

  lemma {:induction false} NarrowStep(cfg: Config, s: System, i: nat, c: Choice, e: Effect, j: nat)
    requires Narrow(cfg, s) && i < |s.acts| && Local(cfg, s, i, c) == Some(e)
    requires j < |Apply(s, i, e).acts| && Apply(s, i, e).acts[j].Branch? && Apply(s, i, e).acts[j].branchPc.InHostCall?
    ensures var pc, acts := Apply(s, i, e).acts[j].branchPc, Apply(s, i, e).acts;
      Unsettled(acts, pc.children) <= pc.want && Unsettled(acts, pc.children) <= cfg.limits.maxParallel
  {
    var acts := Apply(s, i, e).acts;
    var pc := acts[j].branchPc;
    UnsettledFalls(s.acts, acts, pc.children);
    if j == i {
      OwnWidth(cfg, s, i, s.acts[i], c, e);
    }
  }

  lemma {:induction false} OwnWidth(cfg: Config, s: System, i: nat, a: Activity, c: Choice, e: Effect)
    requires a.Branch? && BranchStep(cfg, s, i, a, c) == Some(e) && e.act.Branch? && e.act.branchPc.InHostCall?
    ensures var pc := e.act.branchPc;
      Unsettled(s.acts, pc.children) <= pc.want && Unsettled(s.acts, pc.children) <= cfg.limits.maxParallel
  {
    if a.branchPc.InHostCall? {
      UnsettledSnoc(s.acts, a.branchPc.children, |s.acts|);
    }
  }

  /**
   * However wide a batch is, its pool never has more children under way than requests, or than calls may run at
   * once.
   */
  lemma {:induction false} BatchesAreNarrow(cfg: Config, moves: seq<Move>)
    requires Run(cfg, moves).Some?
    ensures Narrow(cfg, Run(cfg, moves).value)
  {
    if moves != [] {
      var n := |moves| - 1;
      BatchesAreNarrow(cfg, moves[..n]);
      var s := Run(cfg, moves[..n]).value;
      if moves[n].Advance? {
        var e := Local(cfg, s, moves[n].act, moves[n].choice).value;
        forall j | 0 <= j < |Apply(s, moves[n].act, e).acts|
            && Apply(s, moves[n].act, e).acts[j].Branch? && Apply(s, moves[n].act, e).acts[j].branchPc.InHostCall?
          ensures var pc, acts := Apply(s, moves[n].act, e).acts[j].branchPc, Apply(s, moves[n].act, e).acts;
            Unsettled(acts, pc.children) <= pc.want && Unsettled(acts, pc.children) <= cfg.limits.maxParallel
        {
          NarrowStep(cfg, s, moves[n].act, moves[n].choice, e, j);
        }
      }
    }
  }

  /** The branch has the executor's report of the failure, or has ended in it. */
  predicate Reported(a: Activity, x: nat, f: Error) {
    a.Branch? && (a.branchPc == Executed(x, HostFailed(f)) || a.branchPc == Failed(f))
  }

  lemma {:induction false} ReportKept(cfg: Config, s: System, i: nat, move: Move, x: nat, f: Error)
    requires i < |s.acts| && Reported(s.acts[i], x, f) && Step(cfg, s, move).Some?
    ensures var t := Step(cfg, s, move).value; i < |t.acts| && Reported(t.acts[i], x, f)
  {
  }

  /** Once an execution has reported its host failure the branch ends in that failure and in no other. */
  lemma {:induction false} ReportedFailureSurfaces(cfg: Config, s: System, i: nat, moves: seq<Move>, x: nat, f: Error)
    requires i < |s.acts| && Reported(s.acts[i], x, f) && Continue(cfg, s, moves).Some?
    ensures var t := Continue(cfg, s, moves).value; i < |t.acts| && Reported(t.acts[i], x, f)
  {
    if moves != [] {
      var n := |moves| - 1;
      ReportedFailureSurfaces(cfg, s, i, moves[..n], x, f);
      ReportKept(cfg, Continue(cfg, s, moves[..n]).value, i, moves[n], x, f);
    }
  }

  // ----- What a branch does after its cell -----

  /** How the activity's last cell ended, or that its response or submission was rejected. */
  function Verdict(moves: seq<Move>, i: nat): Option<Choice> {
    if moves == [] then None
    else
      var last := moves[|moves| - 1];
      if last.Advance? && last.act == i && (last.choice.Finish? || last.choice.Reject?) then Some(last.choice)
      else Verdict(moves[..|moves| - 1], i)
  }

  /** The last cell raised, or what came of it was rejected. */
  predicate WasFault(v: Option<Choice>) { v == Some(Finish(Raised)) || v == Some(Reject) }

  /**
   * Where a branch can be after that: it leaves only on a submission, it decides about a fault only after one,
   * and it goes on with another turn after a quiet cell or, when faults are repaired, after a fault.
   */
  predicate InKeeping(cfg: Config, v: Option<Choice>, a: Activity)
    requires a.Branch?
  {
    match a.branchPc
    case New(_) => v == None
    case Executed(_, outcome) => v == Some(Finish(outcome))
    case Exiting(_) => v == Some(Finish(Submitted))
    case Completed(_) => v == Some(Finish(Submitted))
    case Faulted(_) => WasFault(v)
    case Decided(_) => WasFault(v)
    case Failed(_) => true
    case _ => v == None || v == Some(Finish(Quiet)) || (WasFault(v) && !cfg.abortOnFault)
  }

  lemma {:induction false} StepInKeeping(cfg: Config, s: System, moves: seq<Move>, move: Move, i: nat)
    requires i < |s.acts| && (s.acts[i].Branch? ==> InKeeping(cfg, Verdict(moves, i), s.acts[i]))
    requires Step(cfg, s, move).Some? && Step(cfg, s, move).value.acts[i].Branch?
    ensures InKeeping(cfg, Verdict(moves + [move], i), Step(cfg, s, move).value.acts[i])
  {
    VerdictSnoc(moves, move, i);
    if move.Advance? && move.act == i {
      OwnStepInKeeping(cfg, s, i, s.acts[i], move.choice, Verdict(moves, i));
    }
  }

  lemma {:induction false} VerdictSnoc(moves: seq<Move>, move: Move, i: nat)
    ensures Verdict(moves + [move], i) ==
      if move.Advance? && move.act == i && (move.choice.Finish? || move.choice.Reject?) then Some(move.choice)
      else Verdict(moves, i)
  {
    assert (moves + [move])[..|moves|] == moves;
  }

  lemma {:induction false} OwnStepInKeeping(
      cfg: Config, s: System, i: nat, a: Activity, c: Choice, v: Option<Choice>)
    requires a.Branch? && InKeeping(cfg, v, a) && BranchStep(cfg, s, i, a, c).Some?
    ensures var b := BranchStep(cfg, s, i, a, c).value.act;
      b.Branch? && InKeeping(cfg, if c.Finish? || c.Reject? then Some(c) else v, b)
  {
  }

  lemma {:induction false} NewlyMade(cfg: Config, s: System, move: Move, i: nat)
    requires Step(cfg, s, move).Some? && |s.acts| <= i < |Step(cfg, s, move).value.acts|
    ensures var a := Step(cfg, s, move).value.acts[i]; a.Branch? ==> a.branchPc.New?
  {
  }

  /** A branch completes only on a cell that submitted, and each turn follows the last one for one of these reasons. */
  lemma {:induction false} BranchFollowsItsCells(cfg: Config, moves: seq<Move>, i: nat) returns (t: System)
    requires Run(cfg, moves).Some?
    ensures Run(cfg, moves) == Some(t)
    ensures i < |t.acts| && t.acts[i].Branch? ==> InKeeping(cfg, Verdict(moves, i), t.acts[i])
  {
    t := Run(cfg, moves).value;
    if moves != [] {
      var n := |moves| - 1;
      var s := BranchFollowsItsCells(cfg, moves[..n], i);
      assert moves == moves[..n] + [moves[n]] && Step(cfg, s, moves[n]) == Some(t);
      if i < |t.acts| && t.acts[i].Branch? {
        if i < |s.acts| {
          StepInKeeping(cfg, s, moves[..n], moves[n], i);
        } else {
          NewlyMade(cfg, s, moves[n], i);
          NoVerdict(cfg, moves, i);
        }
      }
    }
  }

  lemma {:induction false} NoVerdict(cfg: Config, moves: seq<Move>, i: nat)
    requires Run(cfg, moves).Some? && (moves == [] || i >= |Run(cfg, moves[..|moves| - 1]).value.acts|)
    ensures Verdict(moves, i) == None
  {
    if moves != [] {
      var n := |moves| - 1;
      if n > 0 {
        RunGrows(cfg, moves[..n]);
        NoVerdict(cfg, moves[..n], i);
      }
    }
  }

  lemma {:induction false} RunGrows(cfg: Config, moves: seq<Move>)
    requires moves != [] && Run(cfg, moves).Some?
    ensures |Run(cfg, moves[..|moves| - 1]).value.acts| <= |Run(cfg, moves).value.acts|
  {
  }

  function Scaled(k: int): Activity -> int { a => k * Charged(a) }

  lemma {:induction false} ScaledSum(k: int, acts: seq<Activity>)
    ensures Sum(Scaled(k), acts) == k * Sum(Charged, acts)
  {
    if acts != [] {
      ScaledSum(k, acts[..|acts| - 1]);
      var last := Charged(acts[|acts| - 1]);
      assert k * (Sum(Charged, acts[..|acts| - 1]) + last) == k * Sum(Charged, acts[..|acts| - 1]) + k * last;
    }
  }

  /** Each unit of charge pays for at most maxTurns calls. */
  lemma {:induction false} SpentIsCharged(cfg: Config, acts: seq<Activity>)
    requires 1 <= cfg.limits.maxTurns
    requires forall j :: 0 <= j < |acts| ==> Shaped(cfg, acts[j])
    ensures Sum(Spent, acts) <= cfg.limits.maxTurns * Sum(Charged, acts)
  {
    var k: int := cfg.limits.maxTurns;
    forall j | 0 <= j < |acts|
      ensures Spent(acts[j]) <= Scaled(k)(acts[j])
    {
      assert Shaped(cfg, acts[j]);
      if acts[j].Branch? {
        assert Charged(acts[j]) >= 1;
        Monotone(k, 1, Charged(acts[j]));
      }
    }
    SumPointwise(Spent, Scaled(k), acts);
    ScaledSum(k, acts);
  }

  lemma {:induction false} Monotone(k: nat, a: int, b: int)
    requires a <= b
    ensures k * a <= k * b
  {
  }

  lemma {:induction false} CountsBounded(cfg: Config, s: System)
    requires Counted(cfg, s)
    ensures Starts(s.trace) <= 1 + s.subcalls && Requests(s.trace) <= s.modelCalls
  {
    forall j | 0 <= j < |s.acts|
      ensures Begun(s.acts[j]) <= Charged(s.acts[j]) && Unrequested(s.acts[j]) >= 0
    {
      assert Shaped(cfg, s.acts[j]);
    }
    SumPointwise(Begun, Charged, s.acts);
    SumNonNegative(Unrequested, s.acts);
  }

  /**
   * Budgets of the whole recursive run: depth, branches, and model calls. Controller calls are paid by
   * turns, and each child branch or leaf call by a subcall reserved before it starts.
   */
  lemma {:induction false} BudgetsHold(cfg: Config, s: System)
    requires cfg.limits.Valid() && Reachable(cfg, s)
    ensures forall x :: 0 <= x < |s.trace| ==> s.trace[x].depth <= cfg.limits.maxDepth
    ensures Starts(s.trace) <= 1 + s.subcalls <= 1 + cfg.limits.maxSubcalls
    ensures Requests(s.trace) <= s.modelCalls <= cfg.limits.maxModelCalls
    ensures s.modelCalls <= cfg.limits.maxTurns * (1 + s.subcalls) <= cfg.limits.maxTurns * (1 + cfg.limits.maxSubcalls)
  {
    ReachableInv(cfg, s);
    CountsBounded(cfg, s);
    CallsPaidByTurns(cfg, s);
  }

  lemma {:induction false} CallsPaidByTurns(cfg: Config, s: System)
    requires cfg.limits.Valid() && Counted(cfg, s)
    ensures s.modelCalls <= cfg.limits.maxTurns * (1 + s.subcalls) <= cfg.limits.maxTurns * (1 + cfg.limits.maxSubcalls)
  {
    SpentIsCharged(cfg, s.acts);
    Monotone(cfg.limits.maxTurns, Sum(Charged, s.acts), 1 + s.subcalls);
    Monotone(cfg.limits.maxTurns, 1 + s.subcalls, 1 + cfg.limits.maxSubcalls);
  }

  /** Every run is finite: this many steps at most, whatever the schedule and the environment. */
  lemma {:induction false} RunsTerminate(cfg: Config, moves: seq<Move>)
    requires Run(cfg, moves).Some?
    ensures |moves| <= cfg.limits.maxTurns * TurnCost(cfg) + 4 + cfg.limits.maxSubcalls * ChildCost(cfg)
  {
    LaunchInv(cfg);
    RunKeeps(cfg, moves);
    MeasureNonNegative(cfg, Run(cfg, moves).value);
  }

  // ----- Deadlock freedom -----

  /** No permit is lost: a finished run has returned every permit and has no call in flight. */
  lemma {:induction false} SlotsComeHome(cfg: Config, s: System)
    requires Reachable(cfg, s)
    ensures s.slots.free + Sum(HoldsSlot, s.acts) == cfg.limits.maxParallel
    ensures s.slots.active == Sum(InsideBackend, s.acts) <= Sum(HoldsSlot, s.acts)
    ensures s.outcome != Running ==> s.slots.free == cfg.limits.maxParallel && s.slots.active == 0
  {
    ReachableInv(cfg, s);
    SumPointwise(InsideBackend, HoldsSlot, s.acts);
    SumNonNegative(InsideBackend, s.acts);
    if s.outcome != Running && Sum(HoldsSlot, s.acts) > 0 {
      var h := SumWitness(HoldsSlot, s.acts);
      AllSettled(s.acts, h);
    }
  }

  /** The points where the only continuation is an exception. */
  predicate MustFail(cfg: Config, s: System, a: Activity) {
    || (a.Call? && a.callPc.Unreserved? && s.modelCalls >= cfg.limits.maxModelCalls)
    || (a.Branch? && a.branchPc.AtTurn? && a.turn >= cfg.limits.maxTurns)
    || (a.Branch? && a.branchPc.Decided? && cfg.abortOnFault)
  }

  lemma {:induction false} LastUnsettled(acts: seq<Activity>) returns (j: nat)
    requires exists i :: 0 <= i < |acts| && !Settled(acts[i])
    ensures j < |acts| && !Settled(acts[j])
    ensures forall k :: j < k < |acts| ==> Settled(acts[k])
  {
    var n := |acts| - 1;
    if !Settled(acts[n]) {
      j := n;
    } else {
      j := LastUnsettled(acts[..n]);
    }
  }

  lemma {:induction false} ChildrenSettled(acts: seq<Activity>, children: seq<nat>)
    requires forall k :: 0 <= k < |children| ==> children[k] < |acts| && Settled(acts[children[k]])
    ensures Unsettled(acts, children) == 0
  {
    if children != [] {
      ChildrenSettled(acts, children[..|children| - 1]);
    }
  }

  lemma {:induction false} HolderMoves(cfg: Config, s: System, h: nat)
    requires Counted(cfg, s) && h < |s.acts| && HoldsSlot(s.acts[h]) == 1
    ensures Local(cfg, s, h, Go).Some?
  {
    SumNonNegative(HoldsSlot, s.acts);
    SumNonNegative(InsideBackend, s.acts);
  }

  /** A call that waits for a slot is not stuck: either a permit is free or some holder can step. */
  lemma {:induction false} CallMoves(cfg: Config, s: System, j: nat) returns (i: nat, c: Choice)
    requires cfg.limits.Valid() && Counted(cfg, s) && j < |s.acts| && s.acts[j].Call? && !Settled(s.acts[j])
    ensures i < |s.acts| && Local(cfg, s, i, c).Some? && (c.Fail? ==> MustFail(cfg, s, s.acts[i]))
  {
    i, c := j, Go;
    if MustFail(cfg, s, s.acts[j]) {
      c := Fail(Error(0, false, None));
    } else if s.acts[j].callPc.Waiting? && s.slots.free == 0 {
      i := SumWitness(HoldsSlot, s.acts);
      HolderMoves(cfg, s, i);
    } else if HoldsSlot(s.acts[j]) == 1 {
      HolderMoves(cfg, s, j);
    }
  }

  lemma {:induction false} BranchMoves(cfg: Config, s: System, j: nat) returns (c: Choice)
    requires cfg.limits.Valid() && j < |s.acts| && s.acts[j].Branch? && !Settled(s.acts[j])
    requires Linked(s.acts, j) && (forall k :: j < k < |s.acts| ==> Settled(s.acts[k]))
    ensures Local(cfg, s, j, c).Some? && (c.Fail? ==> MustFail(cfg, s, s.acts[j]))
  {
    match s.acts[j].branchPc
    case New(_) => c := Go;
    case AtTurn(_) =>
      c := if s.acts[j].turn < cfg.limits.maxTurns then Go else Fail(Error(0, false, None));
    case AwaitController(call) => c := Go;
    case GotResponse(_) => c := Reject;
    case InCell(_, _, latched) =>
      c := Finish(if latched.Some? then HostFailed(latched.value) else Quiet);
    case InHostCall(_, _, want, children, _) =>
      forall k | 0 <= k < |children|
        ensures children[k] < |s.acts| && Settled(s.acts[children[k]])
      {
        assert children[k] in children;
      }
      ChildrenSettled(s.acts, children);
      c := Go;
    case Executed(_, _) => c := Go;
    case Faulted(_) => c := Go;
    case Decided(decision) =>
      c := if cfg.abortOnFault then Fail(Error(0, false, Some(decision))) else Go;
    case Exiting(_) => c := Go;
  }

  /**
   * No run deadlocks, however deep its batches: while the run is open some activity can step, and it
   * need not fail to do so except where a limit or an abort leaves nothing else. Waiting for the
   * deadline is never what unblocks a run.
   */
  lemma {:induction false} NeverDeadlocks(cfg: Config, s: System) returns (next: Move)
    requires cfg.limits.Valid() && Reachable(cfg, s) && s.outcome == Running
    ensures Step(cfg, s, next).Some?
    ensures next.Advance? && next.choice.Fail? ==> next.act < |s.acts| && MustFail(cfg, s, s.acts[next.act])
  {
    ReachableInv(cfg, s);
    if Settled(s.acts[0]) {
      assert Linked(s.acts, 0);
      next := CloseRun;
    } else {
      var j := LastUnsettled(s.acts);
      assert s.acts[j].Branch? ==> Linked(s.acts, j);
      var i, c := LastMoves(cfg, s, j);
      next := Advance(i, c);
    }
  }

  lemma {:induction false} LastMoves(cfg: Config, s: System, j: nat) returns (i: nat, c: Choice)
    requires cfg.limits.Valid() && Counted(cfg, s) && j < |s.acts| && !Settled(s.acts[j])
    requires (s.acts[j].Branch? ==> Linked(s.acts, j)) && forall k :: j < k < |s.acts| ==> Settled(s.acts[k])
    ensures i < |s.acts| && Local(cfg, s, i, c).Some? && (c.Fail? ==> MustFail(cfg, s, s.acts[i]))
  {
    if s.acts[j].Call? {
      i, c := CallMoves(cfg, s, j);
    } else {
      i := j;
      c := BranchMoves(cfg, s, j);
    }
  }
}

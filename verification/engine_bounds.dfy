/** Counting over the activities of a run: budgets, slots, and the measure that every step lowers. */
module EngineBounds {
  import opened Common
  import opened RunLedger
  import opened EngineModel

  function One(b: bool): int { if b then 1 else 0 }

  // Each of these is summed over all activities.

  /** Children begun or still owed by a host call, counting every branch and every leaf call once. */
  function Charged(a: Activity): int {
    One(a.Branch?) + One(a.Call? && a.role.Leaf?)
    + if a.Branch? && a.branchPc.InHostCall? then a.branchPc.want - |a.branchPc.children| else 0
  }

  /** Calls created, controller calls being counted by the turns of their branches, less those not yet reserved. */
  function Spent(a: Activity): int {
    (if a.Branch? then a.turn else One(a.role.Leaf?)) - One(a.Call? && a.callPc.Unreserved?)
  }

  function Unrequested(a: Activity): int { One(a.Call? && a.callPc.Reserved?) }

  function Begun(a: Activity): int { One(a.Branch? && !a.branchPc.New?) }

  function HoldsSlot(a: Activity): int {
    One(a.Call? && (a.callPc.Acquired? || a.callPc.InBackend? || a.callPc.Leaving? || a.callPc.Releasing?))
  }

  function InsideBackend(a: Activity): int { One(a.Call? && (a.callPc.InBackend? || a.callPc.Leaving?)) }

  function Requests(trace: seq<Event>): nat {
    if trace == [] then 0 else Requests(trace[..|trace| - 1]) + if trace[|trace| - 1].kind.ModelRequest? then 1 else 0
  }

  function Starts(trace: seq<Event>): nat {
    if trace == [] then 0 else Starts(trace[..|trace| - 1]) + if trace[|trace| - 1].kind.BranchStarted? then 1 else 0
  }

  // ----- The measure -----

  function TurnCost(cfg: Config): nat { 19 + 3 * cfg.maxHostCalls }

  function ChildCost(cfg: Config): nat { cfg.limits.maxTurns * TurnCost(cfg) + 13 }

  function CallRank(pc: CallPc): nat {
    match pc
    case Unreserved => 12 case Reserved => 11 case Requested(_) => 10 case Waiting(_) => 9 case Acquired(_) => 8
    case InBackend(_) => 7 case Leaving(_, _) => 6 case Releasing(_, _) => 5 case Returned(_) => 4
    case Responded(_, _) => 3 case Failing(_, _, _) => 2 case Answered(_, _) => 0 case Refused(_) => 0
  }

  function BranchRank(cfg: Config, pc: BranchPc): int {
    match pc
    case New(_) => 3
    case AtTurn(_) => 2
    case AwaitController(_) => 8 + 3 * cfg.maxHostCalls
    case GotResponse(_) => 7 + 3 * cfg.maxHostCalls
    case InCell(_, calls, _) => 6 + 3 * calls
    case InHostCall(_, calls, want, children, _) => 8 + 3 * calls + (want - |children|) * ChildCost(cfg)
    case Executed(_, _) => 5
    case Faulted(_) => 4
    case Decided(_) => 3
    case Exiting(_) => 1
    case Completed(_) => 0
    case Failed(_) => 0
  }

  function Weight(cfg: Config, a: Activity): int {
    if Settled(a) then 0
    else if a.Call? then CallRank(a.callPc)
    else (cfg.limits.maxTurns - a.turn) * TurnCost(cfg) + BranchRank(cfg, a.branchPc)
  }

  function Weigh(cfg: Config): Activity -> int { a => Weight(cfg, a) }

  function Measure(cfg: Config, s: System): int {
    Sum(Weigh(cfg), s.acts) + (cfg.limits.maxSubcalls - s.subcalls) * ChildCost(cfg) + One(s.outcome == Running)
  }

  ghost predicate Shaped(cfg: Config, a: Activity) {
    a.Branch? ==>
      && a.turn <= cfg.limits.maxTurns
      && (a.branchPc.InHostCall? ==> |a.branchPc.children| <= a.branchPc.want && a.branchPc.calls < cfg.maxHostCalls)
      && (a.branchPc.InCell? ==> a.branchPc.calls <= cfg.maxHostCalls)
      && (a.branchPc.New? ==> a.turn == 0)
  }

  ghost predicate Counted(cfg: Config, s: System) {
    && (forall j :: 0 <= j < |s.acts| ==> Shaped(cfg, s.acts[j]))
    && s.modelCalls <= cfg.limits.maxModelCalls && s.subcalls <= cfg.limits.maxSubcalls
    && s.modelCalls <= Sum(Spent, s.acts)
    && Sum(Charged, s.acts) <= s.subcalls + 1
    && Requests(s.trace) + Sum(Unrequested, s.acts) == s.modelCalls
    && Starts(s.trace) <= Sum(Begun, s.acts)
    && s.slots.free + Sum(HoldsSlot, s.acts) == cfg.limits.maxParallel
    && s.slots.active == Sum(InsideBackend, s.acts)
  }

  // ----- What one step changes -----

  function Added(f: Activity -> int, spawn: Option<Activity>): int { if spawn.Some? then f(spawn.value) else 0 }

  lemma {:induction false} SumStep(f: Activity -> int, acts: seq<Activity>, i: nat, e: Effect)
    requires i < |acts|
    ensures Sum(f, Grow(acts[i := e.act], e.spawn)) == Sum(f, acts) - f(acts[i]) + f(e.act) + Added(f, e.spawn)
  {
    SumUpdate(f, acts, i, e.act);
    if e.spawn.Some? {
      SumAppend(f, acts[i := e.act], e.spawn.value);
    }
  }

  /** The change of every count and of the weight at the stepping activity. */
  ghost predicate Deltas(cfg: Config, s: System, a: Activity, e: Effect) {
    && Shaped(cfg, e.act) && (e.spawn.Some? ==> Shaped(cfg, e.spawn.value))
    && e.modelCalls <= cfg.limits.maxModelCalls && s.subcalls <= e.subcalls <= cfg.limits.maxSubcalls
    && e.modelCalls - s.modelCalls <= Spent(e.act) - Spent(a) + Added(Spent, e.spawn)
    && Charged(e.act) - Charged(a) + Added(Charged, e.spawn) <= e.subcalls - s.subcalls
    && One(e.emit.Some? && e.emit.value.kind.ModelRequest?) + Unrequested(e.act) - Unrequested(a)
      + Added(Unrequested, e.spawn)
       == e.modelCalls - s.modelCalls
    && One(e.emit.Some? && e.emit.value.kind.BranchStarted?) <= Begun(e.act) - Begun(a) + Added(Begun, e.spawn)
    && e.slots.free - s.slots.free + HoldsSlot(e.act) - HoldsSlot(a) + Added(HoldsSlot, e.spawn) == 0
    && e.slots.active - s.slots.active == InsideBackend(e.act) - InsideBackend(a) + Added(InsideBackend, e.spawn)
  }

  lemma {:induction false} CallDeltas(cfg: Config, s: System, i: nat, a: Activity, c: Choice, e: Effect)
    requires a.Call? && CallStep(cfg, s, i, a, c) == Some(e)
    requires s.modelCalls <= cfg.limits.maxModelCalls && s.subcalls <= cfg.limits.maxSubcalls
    ensures Deltas(cfg, s, a, e)
    ensures e.spawn.None? && e.subcalls == s.subcalls && Weight(cfg, e.act) < Weight(cfg, a)
  {
  }

  /** The steps that reserve children, create an activity or begin a turn. */
  predicate Accounting(a: Activity)
    requires a.Branch?
  {
    a.branchPc.AtTurn? || a.branchPc.InCell? || a.branchPc.InHostCall?
  }

  lemma {:induction false} AccountingDeltas(cfg: Config, s: System, i: nat, a: Activity, c: Choice, e: Effect)
    requires a.Branch? && Accounting(a) && Shaped(cfg, a) && BranchStep(cfg, s, i, a, c) == Some(e)
    requires s.modelCalls <= cfg.limits.maxModelCalls && s.subcalls <= cfg.limits.maxSubcalls
    ensures Deltas(cfg, s, a, e)
  {
  }

  lemma {:induction false} OtherDeltas(cfg: Config, s: System, i: nat, a: Activity, c: Choice, e: Effect)
    requires a.Branch? && !Accounting(a) && Shaped(cfg, a) && BranchStep(cfg, s, i, a, c) == Some(e)
    requires s.modelCalls <= cfg.limits.maxModelCalls && s.subcalls <= cfg.limits.maxSubcalls
    ensures Deltas(cfg, s, a, e)
  {
  }

  lemma {:induction false} TurnsLeft(cfg: Config, a: Activity)
    requires a.Branch? && Shaped(cfg, a)
    ensures (cfg.limits.maxTurns - a.turn) * TurnCost(cfg) >= 0
    ensures a.turn < cfg.limits.maxTurns ==>
      (cfg.limits.maxTurns - a.turn) * TurnCost(cfg) ==
        (cfg.limits.maxTurns - a.turn - 1) * TurnCost(cfg) + TurnCost(cfg)
    ensures a.branchPc.InHostCall? ==>
      var owed := a.branchPc.want - |a.branchPc.children|;
      owed * ChildCost(cfg) >= 0 && (owed > 0 ==> owed * ChildCost(cfg) == (owed - 1) * ChildCost(cfg) + ChildCost(cfg))
  {
  }

  lemma {:induction false} TurnWeight(cfg: Config, s: System, i: nat, a: Activity, c: Choice, e: Effect)
    requires a.Branch? && a.branchPc.AtTurn? && Shaped(cfg, a) && BranchStep(cfg, s, i, a, c) == Some(e)
    ensures Weight(cfg, e.act) + Added(Weigh(cfg), e.spawn)
          < Weight(cfg, a) + (e.subcalls - s.subcalls) * ChildCost(cfg)
  {
    TurnsLeft(cfg, a);
    assert e.subcalls - s.subcalls == 0;
  }

  lemma {:induction false} CellWeight(cfg: Config, s: System, i: nat, a: Activity, c: Choice, e: Effect)
    requires a.Branch? && a.branchPc.InCell? && Shaped(cfg, a) && BranchStep(cfg, s, i, a, c) == Some(e)
    ensures Weight(cfg, e.act) + Added(Weigh(cfg), e.spawn)
          < Weight(cfg, a) + (e.subcalls - s.subcalls) * ChildCost(cfg)
  {
    TurnsLeft(cfg, a);
    var reserved := e.subcalls - s.subcalls;
    if e.act.branchPc.InHostCall? {
      assert reserved == e.act.branchPc.want - |e.act.branchPc.children|;
    } else {
      assert reserved == 0 || reserved == 1;
    }
  }

  lemma {:induction false} HostCallWeight(cfg: Config, s: System, i: nat, a: Activity, c: Choice, e: Effect)
    requires a.Branch? && a.branchPc.InHostCall? && Shaped(cfg, a) && BranchStep(cfg, s, i, a, c) == Some(e)
    ensures Weight(cfg, e.act) + Added(Weigh(cfg), e.spawn)
          < Weight(cfg, a) + (e.subcalls - s.subcalls) * ChildCost(cfg)
  {
    TurnsLeft(cfg, a);
    assert e.subcalls - s.subcalls == 0;
    if e.spawn.Some? {
      assert |e.act.branchPc.children| == |a.branchPc.children| + 1;
    }
  }

  lemma {:induction false} OtherWeight(cfg: Config, s: System, i: nat, a: Activity, c: Choice, e: Effect)
    requires a.Branch? && !Accounting(a) && Shaped(cfg, a) && BranchStep(cfg, s, i, a, c) == Some(e)
    ensures e.subcalls == s.subcalls && e.spawn.None? && Weight(cfg, e.act) < Weight(cfg, a)
  {
    TurnsLeft(cfg, a);
  }
}

/** What every step of the run protocol keeps, and what follows for whole runs. */
module EngineInvariants {
  import opened Common
  import opened RunLedger
  import opened EngineModel

  // ----- Causal structure -----

  predicate Same(p: Event, e: Event) { p.branch == e.branch && p.depth == e.depth }

  predicate FromController(k: Kind) { k.ModelResponse? && k.role.Controller? }

  predicate OpensTurn(k: Kind) { k.BranchStarted? || k.Repair? || k.Observation? }

  predicate Final(k: Kind) { k.RunCompleted? || k.RunFailed? }

  /** Which events may cause which: the grammar of the trace. */
  predicate Follows(p: Event, e: Event) {
    match e.kind
    case RunStarted => false
    case BranchStarted =>
      (p.kind.RunStarted? && e.branch == 0 && e.depth == 0) || (p.kind.Action? && e.depth == p.depth + 1)
    case ModelRequest(c, r) => Same(p, e) && (if r.Controller? then OpensTurn(p.kind) else p.kind.Action?)
    case ModelResponse(c, r) => Same(p, e) && p.kind == ModelRequest(c, r)
    case ModelFailed(c, r, _) => Same(p, e) && (p.kind == ModelRequest(c, r) || p.kind == ModelResponse(c, r))
    case Action => Same(p, e) && FromController(p.kind)
    case Execution => Same(p, e) && p.kind.Action?
    case Decision(_) => Same(p, e) && (p.kind.Execution? || FromController(p.kind))
    case Repair => Same(p, e) && p.kind == Decision(false)
    case Observation => Same(p, e) && p.kind.Execution?
    case BranchCompleted => Same(p, e) && p.kind.Execution?
    case RunCompleted(_) => p.kind.BranchCompleted? && p.branch == 0
    case RunFailed(r) => p.kind.RunStarted? || p.kind == Decision(true) || (p.kind.ModelFailed? && p.kind.record == r)
  }

  ghost predicate EventOk(trace: seq<Event>, x: nat)
    requires x < |trace|
  {
    if x == 0 then trace[0] == Event(RunStarted, 0, 0, None)
    else
      && trace[x].parent.Some? && trace[x].parent.value < x
      && Follows(trace[trace[x].parent.value], trace[x])
  }

  /** Controller requests (or replies) of branch b on the path from event x to the root. */
  function OnPath(trace: seq<Event>, x: nat, b: nat, replies: bool): nat {
    if x >= |trace| then 0
    else
      var e := trace[x];
      (if e.branch == b && (if replies then FromController(e.kind) else e.kind.ModelRequest? && e.kind.role.Controller?)
       then 1 else 0)
      + if e.parent.Some? && e.parent.value < x then OnPath(trace, e.parent.value, b, replies) else 0
  }

  ghost predicate Paired(trace: seq<Event>, x: nat, b: nat, turns: nat) {
    OnPath(trace, x, b, false) == turns && OnPath(trace, x, b, true) == turns
  }

  function CallOf(k: Kind): Option<nat> {
    match k
    case ModelRequest(c, _) => Some(c)
    case ModelResponse(c, _) => Some(c)
    case ModelFailed(c, _, _) => Some(c)
    case _ => None
  }

  /** The events of one model call, oldest first. */
  function CallLog(trace: seq<Event>, c: nat): seq<nat> {
    if trace == [] then []
    else
      var n := |trace| - 1;
      CallLog(trace[..n], c) + if CallOf(trace[n].kind) == Some(c) then [n] else []
  }

  /** A request answered, failed, or answered and then failed; each event caused by the one before. */
  ghost predicate SettledOnce(trace: seq<Event>, log: seq<nat>) {
    && 2 <= |log| <= 3
    && (forall k :: 0 <= k < |log| ==> log[k] < |trace|)
    && (forall k :: 1 <= k < |log| ==> trace[log[k]].parent == Some(log[k - 1]))
    && trace[log[0]].kind.ModelRequest?
    && (if |log| == 2 then trace[log[1]].kind.ModelResponse? || trace[log[1]].kind.ModelFailed?
        else trace[log[1]].kind.ModelResponse? && trace[log[2]].kind.ModelFailed?)
  }

  // ----- What holds of one activity -----

  ghost predicate ErrorOk(trace: seq<Event>, e: Error) {
    e.cause.Some? ==>
      && e.cause.value < |trace|
      && var k := trace[e.cause.value].kind;
         k == Decision(true) || (k.ModelFailed? && k.record == e.record)
  }

  ghost predicate At(trace: seq<Event>, x: nat, b: nat, depth: nat) {
    x < |trace| && trace[x].branch == b && trace[x].depth == depth
  }

  ghost predicate BranchOk(cfg: Config, trace: seq<Event>, j: nat, a: Activity)
    requires a.Branch?
  {
    && a.depth <= cfg.limits.maxDepth && a.turn <= cfg.limits.maxTurns && CallLog(trace, j) == []
    && match a.branchPc
       case New(cause) =>
         && a.turn == 0 && cause < |trace| && Paired(trace, cause, j, 0)
         && Follows(trace[cause], Event(BranchStarted, j, a.depth, Some(cause)))
       case AtTurn(x) => At(trace, x, j, a.depth) && OpensTurn(trace[x].kind) && Paired(trace, x, j, a.turn)
       case AwaitController(_) => 1 <= a.turn
       case GotResponse(x) => At(trace, x, j, a.depth) && FromController(trace[x].kind) && Paired(trace, x, j, a.turn)
       case InCell(x, calls, latched) =>
         && At(trace, x, j, a.depth) && trace[x].kind.Action? && Paired(trace, x, j, a.turn)
         && calls <= cfg.maxHostCalls && (latched.Some? ==> ErrorOk(trace, latched.value))
       case InHostCall(x, calls, want, children, recursive) =>
         && At(trace, x, j, a.depth) && trace[x].kind.Action? && Paired(trace, x, j, a.turn)
         && calls < cfg.maxHostCalls && |children| <= want && (recursive ==> a.depth < cfg.limits.maxDepth)
       case Executed(x, outcome) =>
         && At(trace, x, j, a.depth) && trace[x].kind.Execution? && Paired(trace, x, j, a.turn)
         && (outcome.HostFailed? ==> ErrorOk(trace, outcome.failure))
       case Faulted(x) =>
         && At(trace, x, j, a.depth) && (trace[x].kind.Execution? || FromController(trace[x].kind))
         && Paired(trace, x, j, a.turn)
       case Decided(x) =>
         At(trace, x, j, a.depth) && trace[x].kind == Decision(cfg.abortOnFault) && Paired(trace, x, j, a.turn)
       case Exiting(x) => At(trace, x, j, a.depth) && trace[x].kind.BranchCompleted? && Paired(trace, x, j, a.turn)
       case Completed(x) => At(trace, x, j, a.depth) && trace[x].kind.BranchCompleted? && Paired(trace, x, j, a.turn)
       case Failed(e) => ErrorOk(trace, e)
  }

  ghost predicate RequestAt(trace: seq<Event>, j: nat, a: Activity, r: nat)
    requires a.Call?
  {
    At(trace, r, a.owner, a.depth) && trace[r].kind == ModelRequest(j, a.role) && trace[r].parent == Some(a.origin)
  }

  ghost predicate ReplyAt(trace: seq<Event>, j: nat, a: Activity, r: nat, p: nat)
    requires a.Call?
  {
    At(trace, p, a.owner, a.depth) && trace[p].kind == ModelResponse(j, a.role) && trace[p].parent == Some(r)
  }

  /** `log` is the call's own events so far. */
  ghost predicate CallPcOk(trace: seq<Event>, log: seq<nat>, j: nat, a: Activity)
    requires a.Call?
  {
    match a.callPc
    case Unreserved => log == []
    case Reserved => log == []
    case Requested(r) => log == [r] && RequestAt(trace, j, a, r)
    case Waiting(r) => log == [r] && RequestAt(trace, j, a, r)
    case Acquired(r) => log == [r] && RequestAt(trace, j, a, r)
    case InBackend(r) => log == [r] && RequestAt(trace, j, a, r)
    case Leaving(r, fault) => log == [r] && RequestAt(trace, j, a, r) && (fault.Some? ==> Fresh(fault.value))
    case Releasing(r, fault) => log == [r] && RequestAt(trace, j, a, r) && (fault.Some? ==> Fresh(fault.value))
    case Returned(r) => log == [r] && RequestAt(trace, j, a, r)
    case Responded(r, p) => log == [r, p] && RequestAt(trace, j, a, r) && ReplyAt(trace, j, a, r, p)
    case Failing(r, reply, e) =>
         && RequestAt(trace, j, a, r) && Fresh(e)
         && (if reply.Some? then log == [r, reply.value] && ReplyAt(trace, j, a, r, reply.value) else log == [r])
    case Answered(r, p) => log == [r, p] && RequestAt(trace, j, a, r) && ReplyAt(trace, j, a, r, p)
    case Refused(e) =>
         && ErrorOk(trace, e)
         && (if log == [] then Fresh(e)
             else SettledOnce(trace, log) && e.cause == Some(log[|log| - 1]) && trace[log[|log| - 1]].kind.ModelFailed?)
  }

  ghost predicate CallOk(cfg: Config, trace: seq<Event>, j: nat, a: Activity)
    requires a.Call?
  {
    && At(trace, a.origin, a.owner, a.depth) && a.depth <= cfg.limits.maxDepth
    && (if a.role.Controller?
        then 1 <= a.turn && OpensTurn(trace[a.origin].kind) && Paired(trace, a.origin, a.owner, a.turn - 1)
        else trace[a.origin].kind.Action?)
    && CallPcOk(trace, CallLog(trace, j), j, a)
  }

  ghost predicate ActOk(cfg: Config, trace: seq<Event>, j: nat, a: Activity) {
    if a.Branch? then BranchOk(cfg, trace, j, a) else CallOk(cfg, trace, j, a)
  }

  // ----- How activities refer to each other -----

  predicate Awaits(a: Activity, j: nat) {
    && a.Branch?
    && (a.branchPc == AwaitController(j) || (a.branchPc.InHostCall? && j in a.branchPc.children))
  }

  ghost predicate Linked(acts: seq<Activity>, j: nat)
    requires j < |acts|
  {
    var a := acts[j];
    && (j == 0 ==> a.Branch?)
    && (j > 0 ==> a.owner < j && acts[a.owner].Branch? && (!Settled(a) ==> Awaits(acts[a.owner], j)))
    && (a.Branch? && a.branchPc.AwaitController? ==>
          var c := a.branchPc.call;
          && j < c < |acts| && acts[c].Call? && acts[c].owner == j && acts[c].role.Controller?
          && acts[c].turn == a.turn && acts[c].depth == a.depth)
    && (a.Branch? && a.branchPc.InHostCall? ==>
          forall c :: c in a.branchPc.children ==> j < c < |acts| && acts[c].owner == j)
  }

  /** `n` is the number of activities. */
  ghost predicate Traced(cfg: Config, trace: seq<Event>, n: nat) {
    && |trace| > 0
    && (forall x :: 0 <= x < |trace| ==> EventOk(trace, x))
    && (forall x :: 0 <= x < |trace| ==> trace[x].branch < n && trace[x].depth <= cfg.limits.maxDepth)
    && (forall x :: 0 <= x < |trace| ==> CallOf(trace[x].kind).Some? ==> CallOf(trace[x].kind).value < n)
  }

  ghost predicate Acting(cfg: Config, trace: seq<Event>, acts: seq<Activity>) {
    |acts| > 0 && forall j :: 0 <= j < |acts| ==> ActOk(cfg, trace, j, acts[j])
  }

  ghost predicate Linking(acts: seq<Activity>) {
    forall j :: 0 <= j < |acts| ==> Linked(acts, j)
  }

  ghost predicate Structured(cfg: Config, s: System) {
    Traced(cfg, s.trace, |s.acts|) && Acting(cfg, s.trace, s.acts) && Linking(s.acts)
  }

  // ----- Stability under an appended event -----

  lemma {:induction false} OnPathStable(trace: seq<Event>, e: Event, x: nat, b: nat, replies: bool)
    requires x < |trace|
    ensures OnPath(trace + [e], x, b, replies) == OnPath(trace, x, b, replies)
    decreases x
  {
    var p := trace[x].parent;
    if p.Some? && p.value < x {
      OnPathStable(trace, e, p.value, b, replies);
    }
  }

  lemma {:induction false} PairedStable(trace: seq<Event>, e: Event, x: nat, b: nat, turns: nat)
    requires x < |trace| && Paired(trace, x, b, turns)
    ensures Paired(trace + [e], x, b, turns)
  {
    OnPathStable(trace, e, x, b, false);
    OnPathStable(trace, e, x, b, true);
  }

  lemma {:induction false} OnPathFresh(trace: seq<Event>, x: nat, b: nat, replies: bool)
    requires forall y :: 0 <= y < |trace| ==> trace[y].branch != b || trace[y].kind.RunStarted?
    ensures OnPath(trace, x, b, replies) == 0
    decreases x
  {
    if x < |trace| && trace[x].parent.Some? && trace[x].parent.value < x {
      OnPathFresh(trace, trace[x].parent.value, b, replies);
    }
  }

  lemma {:induction false} CallLogAppend(trace: seq<Event>, e: Event, c: nat)
    ensures CallLog(trace + [e], c) == CallLog(trace, c) + if CallOf(e.kind) == Some(c) then [|trace|] else []
  {
    assert (trace + [e])[..|trace|] == trace;
  }

  lemma {:induction false} CallLogBounded(trace: seq<Event>, c: nat)
    ensures forall k :: 0 <= k < |CallLog(trace, c)| ==> CallLog(trace, c)[k] < |trace|
  {
    if trace != [] {
      CallLogBounded(trace[..|trace| - 1], c);
    }
  }

  lemma {:induction false} CallLogFresh(trace: seq<Event>, c: nat)
    requires forall x :: 0 <= x < |trace| ==> CallOf(trace[x].kind) != Some(c)
    ensures CallLog(trace, c) == []
  {
    if trace != [] {
      CallLogFresh(trace[..|trace| - 1], c);
    }
  }

  lemma {:induction false} CallStable(cfg: Config, trace: seq<Event>, e: Event, j: nat, a: Activity)
    requires a.Call? && CallOk(cfg, trace, j, a) && CallOf(e.kind) != Some(j)
    ensures CallOk(cfg, trace + [e], j, a)
  {
    CallLogAppend(trace, e, j);
    CallLogBounded(trace, j);
    if a.role.Controller? {
      PairedStable(trace, e, a.origin, a.owner, a.turn - 1);
    }
  }

  lemma {:induction false} BranchStable(cfg: Config, trace: seq<Event>, e: Event, j: nat, a: Activity)
    requires a.Branch? && BranchOk(cfg, trace, j, a) && CallOf(e.kind) != Some(j)
    ensures BranchOk(cfg, trace + [e], j, a)
  {
    CallLogAppend(trace, e, j);
    match a.branchPc
    case New(x) => PairedStable(trace, e, x, j, 0);
    case AtTurn(x) => PairedStable(trace, e, x, j, a.turn);
    case AwaitController(_) =>
    case GotResponse(x) => PairedStable(trace, e, x, j, a.turn);
    case InCell(x, _, _) => PairedStable(trace, e, x, j, a.turn);
    case InHostCall(x, _, _, _, _) => PairedStable(trace, e, x, j, a.turn);
    case Executed(x, _) => PairedStable(trace, e, x, j, a.turn);
    case Faulted(x) => PairedStable(trace, e, x, j, a.turn);
    case Decided(x) => PairedStable(trace, e, x, j, a.turn);
    case Exiting(x) => PairedStable(trace, e, x, j, a.turn);
    case Completed(x) => PairedStable(trace, e, x, j, a.turn);
    case Failed(_) =>
  }

  lemma {:induction false} ActStable(cfg: Config, trace: seq<Event>, e: Event, j: nat, a: Activity)
    requires ActOk(cfg, trace, j, a) && CallOf(e.kind) != Some(j)
    ensures ActOk(cfg, trace + [e], j, a)
  {
    if a.Call? {
      CallStable(cfg, trace, e, j, a);
    } else {
      BranchStable(cfg, trace, e, j, a);
    }
  }

  // ----- One step of one activity -----

  predicate SameIdentity(a: Activity, b: Activity) {
    && a.Branch? == b.Branch? && a.owner == b.owner && a.depth == b.depth
    && (a.Call? ==> a.role == b.role && a.origin == b.origin && a.turn == b.turn)
  }

  /** What a step of activity i leaves true of itself, its event and the activity it creates. */
  ghost predicate EffectOk(cfg: Config, s: System, i: nat, e: Effect)
    requires i < |s.acts|
  {
    var trace := Extend(s.trace, e.emit);
    && SameIdentity(s.acts[i], e.act)
    && ActOk(cfg, trace, i, e.act)
    && (e.emit.Some? ==>
          && EventOk(trace, |s.trace|)
          && !Final(e.emit.value.kind)
          && e.emit.value.branch < |s.acts| && e.emit.value.depth <= cfg.limits.maxDepth
          && (CallOf(e.emit.value.kind).Some? ==> CallOf(e.emit.value.kind) == Some(i)))
    && (e.spawn.Some? ==>
          && e.emit.None? && e.spawn.value.owner == i && s.acts[i].Branch?
          && !Settled(e.spawn.value)
          && Awaits(e.act, |s.acts|)
          && ActOk(cfg, trace, |s.acts|, e.spawn.value))
  }

  lemma {:induction false} CallQuiet(cfg: Config, s: System, i: nat, a: Activity, c: Choice, log: seq<nat>)
    requires a.Call? && CallPcOk(s.trace, log, i, a)
    requires CallStep(cfg, s, i, a, c).Some? && CallStep(cfg, s, i, a, c).value.emit.None?
    ensures CallPcOk(s.trace, log, i, CallStep(cfg, s, i, a, c).value.act)
    ensures SameIdentity(a, CallStep(cfg, s, i, a, c).value.act)
  {
  }

  lemma {:induction false} CallEmitsPc(cfg: Config, s: System, i: nat, a: Activity, c: Choice, log: seq<nat>)
    requires a.Call? && CallPcOk(s.trace, log, i, a) && At(s.trace, a.origin, a.owner, a.depth)
    requires if a.role.Controller? then OpensTurn(s.trace[a.origin].kind) else s.trace[a.origin].kind.Action?
    requires CallStep(cfg, s, i, a, c).Some? && CallStep(cfg, s, i, a, c).value.emit.Some?
    ensures var e := CallStep(cfg, s, i, a, c).value;
      && SameIdentity(a, e.act)
      && e.emit.value.parent.Some? && e.emit.value.parent.value < |s.trace|
      && e.emit.value.branch == a.owner && e.emit.value.depth == a.depth && CallOf(e.emit.value.kind) == Some(i)
      && Follows(s.trace[e.emit.value.parent.value], e.emit.value)
      && CallPcOk(s.trace + [e.emit.value], log + [|s.trace|], i, e.act)
  {
  }

  lemma {:induction false} CallEmits(cfg: Config, s: System, i: nat, a: Activity, c: Choice)
    requires a.Call? && CallOk(cfg, s.trace, i, a)
    requires CallStep(cfg, s, i, a, c).Some? && CallStep(cfg, s, i, a, c).value.emit.Some?
    ensures var e := CallStep(cfg, s, i, a, c).value;
      && e.emit.value.parent.Some? && e.emit.value.parent.value < |s.trace|
      && Follows(s.trace[e.emit.value.parent.value], e.emit.value)
      && ActOk(cfg, s.trace + [e.emit.value], i, e.act)
  {
    var e := CallStep(cfg, s, i, a, c).value;
    CallEmitsPc(cfg, s, i, a, c, CallLog(s.trace, i));
    CallLogAppend(s.trace, e.emit.value, i);
    if a.role.Controller? {
      PairedStable(s.trace, e.emit.value, a.origin, a.owner, a.turn - 1);
    }
  }

  lemma {:induction false} CallShape(cfg: Config, s: System, i: nat, a: Activity, c: Choice)
    requires a.Call? && CallStep(cfg, s, i, a, c).Some?
    ensures var e := CallStep(cfg, s, i, a, c).value;
      && SameIdentity(a, e.act) && e.spawn.None?
      && (e.emit.Some? ==>
            && e.emit.value.branch == a.owner && e.emit.value.depth == a.depth
            && !Final(e.emit.value.kind) && CallOf(e.emit.value.kind) == Some(i))
  {
  }

  lemma {:induction false} CallActOk(cfg: Config, s: System, i: nat, a: Activity, c: Choice, e: Effect)
    requires a.Call? && CallOk(cfg, s.trace, i, a)
    requires CallStep(cfg, s, i, a, c) == Some(e)
    ensures ActOk(cfg, Extend(s.trace, e.emit), i, e.act)
    ensures e.emit.Some? && |s.trace| > 0 ==> EventOk(s.trace + [e.emit.value], |s.trace|)
  {
    if e.emit.Some? {
      CallEmits(cfg, s, i, a, c);
    } else {
      CallQuiet(cfg, s, i, a, c, CallLog(s.trace, i));
    }
  }

  lemma {:induction false} CallEffect(cfg: Config, s: System, i: nat, c: Choice, e: Effect)
    requires Structured(cfg, s) && i < |s.acts| && s.acts[i].Call?
    requires CallStep(cfg, s, i, s.acts[i], c) == Some(e)
    ensures EffectOk(cfg, s, i, e)
  {
    assert ActOk(cfg, s.trace, i, s.acts[i]) && Linked(s.acts, i);
    CallShape(cfg, s, i, s.acts[i], c);
    CallActOk(cfg, s, i, s.acts[i], c, e);
  }

  lemma {:induction false} FirstFailureOk(cfg: Config, s: System, children: seq<nat>)
    requires Structured(cfg, s)
    ensures FirstFailure(s.acts, children).Some? ==> ErrorOk(s.trace, FirstFailure(s.acts, children).value)
  {
    if children != [] {
      if children[0] < |s.acts| {
        assert ActOk(cfg, s.trace, children[0], s.acts[children[0]]);
      }
      FirstFailureOk(cfg, s, children[1..]);
    }
  }

  /** The controller's answer closes one more request/response pair on the conversation's path. */
  lemma {:induction false} AnswerPairs(cfg: Config, s: System, i: nat, call: nat)
    requires Structured(cfg, s) && i < |s.acts| && s.acts[i].Branch? && s.acts[i].branchPc == AwaitController(call)
    requires call < |s.acts| && s.acts[call].Call? && s.acts[call].callPc.Answered?
    ensures var p := s.acts[call].callPc.response;
      At(s.trace, p, i, s.acts[i].depth) && FromController(s.trace[p].kind) && Paired(s.trace, p, i, s.acts[i].turn)
  {
    var trace := s.trace;
    assert Linked(s.acts, i);
    var a := s.acts[call];
    assert ActOk(cfg, trace, call, a);
    var r, p := a.callPc.request, a.callPc.response;
    assert EventOk(trace, p) && EventOk(trace, r);
    forall replies: bool
      ensures OnPath(trace, p, i, replies) == OnPath(trace, a.origin, i, replies) + 1
    {
      assert OnPath(trace, r, i, replies) == OnPath(trace, a.origin, i, replies) + if replies then 0 else 1;
    }
  }

  lemma {:induction false} EmitKeepsPairs(trace: seq<Event>, e: Event, x: nat, b: nat, turns: nat)
    requires x < |trace| && Paired(trace, x, b, turns) && e.parent == Some(x)
    requires !e.kind.ModelRequest? && !e.kind.ModelResponse?
    ensures Paired(trace + [e], |trace|, b, turns)
  {
    PairedStable(trace, e, x, b, turns);
  }

  lemma {:induction false} BranchEmitsCaused(cfg: Config, s: System, i: nat, a: Activity, c: Choice)
    requires a.Branch? && BranchOk(cfg, s.trace, i, a)
    requires BranchStep(cfg, s, i, a, c).Some? && BranchStep(cfg, s, i, a, c).value.emit.Some?
    ensures var e := BranchStep(cfg, s, i, a, c).value;
      && e.emit.value.parent.Some? && e.emit.value.parent.value < |s.trace|
      && Follows(s.trace[e.emit.value.parent.value], e.emit.value)
      && e.emit.value.branch == i && e.emit.value.depth == a.depth && CallOf(e.emit.value.kind).None?
      && Paired(s.trace, e.emit.value.parent.value, i, a.turn)
  {
  }

  lemma {:induction false} BranchEmits(cfg: Config, s: System, i: nat, a: Activity, c: Choice)
    requires a.Branch? && BranchOk(cfg, s.trace, i, a)
    requires BranchStep(cfg, s, i, a, c).Some? && BranchStep(cfg, s, i, a, c).value.emit.Some?
    ensures var e := BranchStep(cfg, s, i, a, c).value;
      && e.emit.value.parent.Some? && e.emit.value.parent.value < |s.trace|
      && Follows(s.trace[e.emit.value.parent.value], e.emit.value)
      && BranchOk(cfg, s.trace + [e.emit.value], i, e.act)
  {
    BranchEmitsCaused(cfg, s, i, a, c);
    var ev := BranchStep(cfg, s, i, a, c).value.emit.value;
    CallLogAppend(s.trace, ev, i);
    EmitKeepsPairs(s.trace, ev, ev.parent.value, i, a.turn);
  }

  /** The steps that neither emit an event nor read another activity. */
  lemma {:induction false} BranchQuiet(cfg: Config, s: System, i: nat, a: Activity, c: Choice)
    requires a.Branch? && BranchOk(cfg, s.trace, i, a) && !a.branchPc.AwaitController? && !a.branchPc.InHostCall?
    requires BranchStep(cfg, s, i, a, c).Some? && BranchStep(cfg, s, i, a, c).value.emit.None?
    ensures BranchOk(cfg, s.trace, i, BranchStep(cfg, s, i, a, c).value.act)
  {
  }

  /** The steps that read the activities waited for. */
  lemma {:induction false} BranchJoins(cfg: Config, s: System, i: nat, a: Activity, c: Choice, e: Effect)
    requires Structured(cfg, s) && i < |s.acts| && s.acts[i] == a && a.Branch?
    requires a.branchPc.AwaitController? || a.branchPc.InHostCall?
    requires BranchStep(cfg, s, i, a, c) == Some(e)
    ensures ActOk(cfg, s.trace, i, e.act)
  {
    assert ActOk(cfg, s.trace, i, a);
    if a.branchPc.AwaitController? {
      assert ActOk(cfg, s.trace, a.branchPc.call, s.acts[a.branchPc.call]);
      if s.acts[a.branchPc.call].callPc.Answered? {
        AnswerPairs(cfg, s, i, a.branchPc.call);
      }
      AnswerJoins(cfg, s, i, a, c, e);
    } else {
      FirstFailureOk(cfg, s, a.branchPc.children);
      ChildrenJoin(cfg, s, i, a, c, e);
    }
  }

  lemma {:induction false} AnswerJoins(cfg: Config, s: System, i: nat, a: Activity, c: Choice, e: Effect)
    requires a.Branch? && a.branchPc.AwaitController? && BranchOk(cfg, s.trace, i, a)
    requires a.branchPc.call < |s.acts| && s.acts[a.branchPc.call].Call?
    requires var pc := s.acts[a.branchPc.call].callPc;
      && (pc.Refused? ==> ErrorOk(s.trace, pc.error))
      && (pc.Answered? ==>
            && At(s.trace, pc.response, i, a.depth) && FromController(s.trace[pc.response].kind)
            && Paired(s.trace, pc.response, i, a.turn))
    requires BranchStep(cfg, s, i, a, c) == Some(e)
    ensures BranchOk(cfg, s.trace, i, e.act)
  {
  }

  lemma {:induction false} ChildrenJoin(cfg: Config, s: System, i: nat, a: Activity, c: Choice, e: Effect)
    requires a.Branch? && a.branchPc.InHostCall? && BranchOk(cfg, s.trace, i, a)
    requires var failure := FirstFailure(s.acts, a.branchPc.children);
      failure.Some? ==> ErrorOk(s.trace, failure.value)
    requires BranchStep(cfg, s, i, a, c) == Some(e)
    ensures BranchOk(cfg, s.trace, i, e.act)
  {
  }

  lemma {:induction false} BranchShape(cfg: Config, s: System, i: nat, a: Activity, c: Choice)
    requires a.Branch? && BranchStep(cfg, s, i, a, c).Some?
    ensures var e := BranchStep(cfg, s, i, a, c).value;
      && SameIdentity(a, e.act)
      && (e.emit.Some? ==>
            && e.emit.value.branch == i && e.emit.value.depth == a.depth
            && !Final(e.emit.value.kind) && CallOf(e.emit.value.kind).None?)
      && (e.spawn.Some? ==>
            e.emit.None? && e.spawn.value.owner == i && !Settled(e.spawn.value) && Awaits(e.act, |s.acts|))
  {
  }

  lemma {:induction false} BranchActOk(cfg: Config, s: System, i: nat, a: Activity, c: Choice, e: Effect)
    requires Structured(cfg, s) && i < |s.acts| && s.acts[i] == a && a.Branch?
    requires BranchStep(cfg, s, i, a, c) == Some(e)
    ensures ActOk(cfg, Extend(s.trace, e.emit), i, e.act)
    ensures e.emit.Some? ==> EventOk(s.trace + [e.emit.value], |s.trace|)
  {
    assert ActOk(cfg, s.trace, i, a);
    if e.emit.Some? {
      BranchEmits(cfg, s, i, a, c);
    } else if a.branchPc.AwaitController? || a.branchPc.InHostCall? {
      BranchJoins(cfg, s, i, a, c, e);
    } else {
      BranchQuiet(cfg, s, i, a, c);
    }
  }

  lemma {:induction false} BranchEffect(cfg: Config, s: System, i: nat, c: Choice, e: Effect)
    requires Structured(cfg, s) && i < |s.acts| && s.acts[i].Branch?
    requires BranchStep(cfg, s, i, s.acts[i], c) == Some(e)
    ensures EffectOk(cfg, s, i, e)
  {
    assert ActOk(cfg, s.trace, i, s.acts[i]);
    BranchActOk(cfg, s, i, s.acts[i], c, e);
    BranchShape(cfg, s, i, s.acts[i], c);
    if e.spawn.Some? {
      SpawnOk(cfg, s, i, c);
    }
    BranchCombine(cfg, s, i, e);
  }

  lemma {:induction false} BranchCombine(cfg: Config, s: System, i: nat, e: Effect)
    requires i < |s.acts| && s.acts[i].Branch? && s.acts[i].depth <= cfg.limits.maxDepth
    requires SameIdentity(s.acts[i], e.act) && ActOk(cfg, Extend(s.trace, e.emit), i, e.act)
    requires e.emit.Some? ==>
      && EventOk(s.trace + [e.emit.value], |s.trace|)
      && e.emit.value.branch == i && e.emit.value.depth == s.acts[i].depth
      && !Final(e.emit.value.kind) && CallOf(e.emit.value.kind).None?
    requires e.spawn.Some? ==>
      && e.emit.None? && e.spawn.value.owner == i && !Settled(e.spawn.value) && Awaits(e.act, |s.acts|)
      && ActOk(cfg, s.trace, |s.acts|, e.spawn.value)
    ensures EffectOk(cfg, s, i, e)
  {
  }

  lemma {:induction false} SpawnOk(cfg: Config, s: System, i: nat, c: Choice)
    requires Structured(cfg, s) && i < |s.acts| && s.acts[i].Branch?
    requires BranchStep(cfg, s, i, s.acts[i], c).Some? && BranchStep(cfg, s, i, s.acts[i], c).value.spawn.Some?
    ensures ActOk(cfg, s.trace, |s.acts|, BranchStep(cfg, s, i, s.acts[i], c).value.spawn.value)
  {
    assert ActOk(cfg, s.trace, i, s.acts[i]);
    CallLogFresh(s.trace, |s.acts|);
    if s.acts[i].branchPc.InHostCall? {
      OnPathFresh(s.trace, s.acts[i].branchPc.action, |s.acts|, false);
      OnPathFresh(s.trace, s.acts[i].branchPc.action, |s.acts|, true);
    }
  }

  // ----- Waiting -----

  lemma {:induction false} NoneUnsettled(acts: seq<Activity>, children: seq<nat>)
    requires Unsettled(acts, children) == 0
    ensures forall c :: c in children ==> c < |acts| && Settled(acts[c])
  {
    if children != [] {
      var n := |children| - 1;
      NoneUnsettled(acts, children[..n]);
      assert children == children[..n] + [children[n]];
      forall c | c in children
        ensures c < |acts| && Settled(acts[c])
      {
        assert c in children[..n] || c == children[n];
      }
    }
  }

  /** A branch stops waiting only for settled activities, and starts waiting only for the one it creates. */
  ghost predicate WaitsOnlyForNew(acts: seq<Activity>, i: nat, a: Activity, e: Effect) {
    && !Settled(a) && SameIdentity(a, e.act)
    && (forall j: nat :: Awaits(a, j) && !Awaits(e.act, j) ==> j < |acts| && Settled(acts[j]))
    && (forall j: nat :: Awaits(e.act, j) && !Awaits(a, j) ==> j == |acts| && e.spawn.Some?)
    && (e.act.Branch? && e.act.branchPc.AwaitController? ==>
          && e.act.branchPc.call == |acts| && e.spawn.Some? && e.spawn.value.Call?
          && e.spawn.value.role.Controller? && e.spawn.value.turn == e.act.turn && e.spawn.value.depth == e.act.depth)
    && (e.spawn.Some? ==>
          && a.Branch? && e.spawn.value.owner == i && Awaits(e.act, |acts|) && !Settled(e.spawn.value)
          && (e.spawn.value.Branch? ==> e.spawn.value.branchPc.New?))
  }

  lemma {:induction false} LocalWaits(cfg: Config, s: System, i: nat, c: Choice, e: Effect)
    requires i < |s.acts| && Local(cfg, s, i, c) == Some(e)
    ensures WaitsOnlyForNew(s.acts, i, s.acts[i], e)
  {
    var a := s.acts[i];
    if a.Branch? && a.branchPc.InHostCall? {
      HostCallWaits(cfg, s, i, a, c, e);
    }
  }

  lemma {:induction false} HostCallWaits(cfg: Config, s: System, i: nat, a: Activity, c: Choice, e: Effect)
    requires a.Branch? && a.branchPc.InHostCall? && BranchStep(cfg, s, i, a, c) == Some(e)
    ensures WaitsOnlyForNew(s.acts, i, a, e)
  {
    if Unsettled(s.acts, a.branchPc.children) == 0 {
      NoneUnsettled(s.acts, a.branchPc.children);
    }
  }

  lemma {:induction false} LinksKept(acts: seq<Activity>, i: nat, e: Effect, j: nat)
    requires i < |acts| && (forall k :: 0 <= k < |acts| ==> Linked(acts, k))
    requires WaitsOnlyForNew(acts, i, acts[i], e)
    requires j < |Grow(acts[i := e.act], e.spawn)|
    ensures Linked(Grow(acts[i := e.act], e.spawn), j)
  {
    var after := Grow(acts[i := e.act], e.spawn);
    assert Linked(acts, i);
    if j < |acts| {
      assert Linked(acts, j);
      if j == i && e.act.Branch? && e.act.branchPc.InHostCall? {
        forall k | k in e.act.branchPc.children
          ensures j < k < |after| && after[k].owner == j
        {
          assert Awaits(e.act, k);
          assert Awaits(acts[i], k) || k == |acts|;
        }
      }
    }
  }
}

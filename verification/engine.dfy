/**
 * The run protocol as a transition system. A run is a growing list of activities, the branches and the
 * model calls, numbered in creation order, over one append-only trace and one ledger. A step moves one
 * activity, so a sequence of steps is an interleaving of all the threads of the run. Clock readings,
 * backends, executors and cells are the choices carried by the steps.
 */
module EngineModel {
  import opened Common
  import opened RunLedger

  /** `maxHostCalls` bounds the host calls of any one cell; `abortOnFault` is the recovery mode. */
  datatype Config = Config(limits: Limits, maxHostCalls: nat, abortOnFault: bool)

  datatype Role = Controller | Leaf

  datatype Kind =
    | RunStarted | BranchStarted
    | ModelRequest(call: nat, role: Role)
    | ModelResponse(call: nat, role: Role)
    | ModelFailed(call: nat, role: Role, record: nat)
    | Action | Execution | Decision(abort: bool) | Repair | Observation
    | BranchCompleted
    | RunCompleted(turns: nat)
    | RunFailed(record: nat)

  /** An event's id is its position in the trace. */
  datatype Event = Event(kind: Kind, branch: nat, depth: nat, parent: Option<nat>)

  /** `record` names a complete error record; `invalid` is its InvalidRequestError discriminator. */
  datatype Error = Error(record: nat, invalid: bool, cause: Option<nat>)

  datatype CallPc =
    | Unreserved | Reserved
    | Requested(request: nat) | Waiting(request: nat) | Acquired(request: nat) | InBackend(request: nat)
    | Leaving(request: nat, fault: Option<Error>) | Releasing(request: nat, fault: Option<Error>)
    | Returned(request: nat) | Responded(request: nat, response: nat)
    | Failing(request: nat, reply: Option<nat>, error: Error)
    | Answered(request: nat, response: nat) | Refused(error: Error)

  datatype CellOutcome = HostFailed(failure: Error) | Raised | Submitted | Quiet

  datatype BranchPc =
    | New(cause: nat)
    | AtTurn(conversation: nat)
    | AwaitController(call: nat)
    | GotResponse(response: nat)
    | InCell(action: nat, calls: nat, latched: Option<Error>)
    | InHostCall(action: nat, calls: nat, want: nat, children: seq<nat>, recursive: bool)
    | Executed(execution: nat, outcome: CellOutcome)
    | Faulted(causal: nat)
    | Decided(decision: nat)
    | Exiting(event: nat)
    | Completed(event: nat)
    | Failed(error: Error)

  /** `owner` is the activity that waits for this one; `turn` counts controller turns begun. */
  datatype Activity =
    | Branch(owner: nat, depth: nat, turn: nat, branchPc: BranchPc)
    | Call(owner: nat, depth: nat, role: Role, origin: nat, turn: nat, callPc: CallPc)

  datatype Outcome = Running | Success(turns: nat) | Failure(error: Error)

  datatype System = System(
    trace: seq<Event>, modelCalls: nat, subcalls: nat, slots: Slots, acts: seq<Activity>, outcome: Outcome)

  function Launch(cfg: Config): System {
    System([Event(RunStarted, 0, 0, None)], 0, 0, Slots(cfg.limits.maxParallel, 0, 0),
           [Branch(0, 0, 0, New(0))], Running)
  }

  /** What the environment decides at a step. */
  datatype Choice =
    | Go                                     // the normal continuation
    | Fail(error: Error)                     // an exception is raised here
    | StartCell(calls: nat)                  // the controller's action parsed; the cell will make so many host calls
    | Reject                                 // a recoverable controller fault
    | HostCall(count: nat, recursive: bool)  // a host operation with this many children
    | Deny(error: Error, reserved: bool)     // a host operation refused without children
    | Finish(outcome: CellOutcome)           // the cell ends

  datatype Move = Advance(act: nat, choice: Choice) | CloseRun

  /** The effect of one step: the activity's new value, at most one event and at most one new activity. */
  datatype Effect = Effect(
    act: Activity, emit: Option<Event>, modelCalls: nat, subcalls: nat, slots: Slots, spawn: Option<Activity>)

  predicate Settled(a: Activity) {
    match a
    case Branch(_, _, _, pc) => pc.Completed? || pc.Failed?
    case Call(_, _, _, _, _, pc) => pc.Answered? || pc.Refused?
  }

  function FailureOf(a: Activity): Option<Error> {
    match a
    case Branch(_, _, _, pc) => if pc.Failed? then Some(pc.error) else None
    case Call(_, _, _, _, _, pc) => if pc.Refused? then Some(pc.error) else None
  }

  /** The branch a call reports under is its owner; a branch reports under its own number. */
  function Emit(i: nat, a: Activity, kind: Kind, parent: nat): Event {
    Event(kind, if a.Call? then a.owner else i, a.depth, Some(parent))
  }

  function Quietly(s: System, a: Activity): Effect {
    Effect(a, None, s.modelCalls, s.subcalls, s.slots, None)
  }

  function Fresh(e: Error): bool { e.cause == None }

  /** One step of `_call_model` and of the slot it holds around the backend. */
  function CallStep(cfg: Config, s: System, i: nat, a: Activity, c: Choice): Option<Effect>
    requires a.Call?
  {
    if !c.Go? && !(c.Fail? && Fresh(c.error)) then None
    else
      match a.callPc
      case Unreserved =>
        if c.Fail? then Some(Quietly(s, a.(callPc := Refused(c.error))))
        else if s.modelCalls >= cfg.limits.maxModelCalls then None
        else Some(Quietly(s, a.(callPc := Reserved)).(modelCalls := s.modelCalls + 1))
      case Reserved =>
        if c.Fail? then None
        else Some(Quietly(s, a.(callPc := Requested(|s.trace|)))
                  .(emit := Some(Emit(i, a, ModelRequest(i, a.role), a.origin))))
      case Requested(r) =>
        Some(Quietly(s, a.(callPc := if c.Fail? then Failing(r, None, c.error) else Waiting(r))))
      case Waiting(r) =>
        if c.Fail? then Some(Quietly(s, a.(callPc := Failing(r, None, c.error))))
        else if Taken(s.slots).None? then None
        else Some(Quietly(s, a.(callPc := Acquired(r))).(slots := Taken(s.slots).value))
      case Acquired(r) =>
        if c.Fail? then Some(Quietly(s, a.(callPc := Releasing(r, Some(c.error)))))
        else Some(Quietly(s, a.(callPc := InBackend(r))).(slots := Entered(s.slots)))
      case InBackend(r) =>
        Some(Quietly(s, a.(callPc := Leaving(r, if c.Fail? then Some(c.error) else None))))
      case Leaving(r, fault) =>
        if c.Fail? || Left(s.slots).None? then None
        else Some(Quietly(s, a.(callPc := Releasing(r, fault))).(slots := Left(s.slots).value))
      case Releasing(r, fault) =>
        if c.Fail? || Released(cfg.limits.maxParallel, s.slots).None? then None
        else Some(Quietly(s, a.(callPc := if fault.Some? then Failing(r, None, fault.value) else Returned(r)))
                  .(slots := Released(cfg.limits.maxParallel, s.slots).value))
      case Returned(r) =>
        if c.Fail? then Some(Quietly(s, a.(callPc := Failing(r, None, c.error))))
        else Some(Quietly(s, a.(callPc := Responded(r, |s.trace|)))
                  .(emit := Some(Emit(i, a, ModelResponse(i, a.role), r))))
      case Responded(r, p) =>
        Some(Quietly(s, a.(callPc := if c.Fail? then Failing(r, Some(p), c.error) else Answered(r, p))))
      case Failing(r, reply, e) =>
        if c.Fail? then None
        else Some(Quietly(s, a.(callPc := Refused(e.(cause := Some(|s.trace|)))))
                  .(emit := Some(Emit(i, a, ModelFailed(i, a.role, e.record), if reply.Some? then reply.value else r))))
      case Answered(_, _) => None
      case Refused(_) => None
  }

  function Unsettled(acts: seq<Activity>, children: seq<nat>): nat {
    if children == [] then 0
    else
      var c := children[|children| - 1];
      Unsettled(acts, children[..|children| - 1]) + if c < |acts| && Settled(acts[c]) then 0 else 1
  }

  /** The surfaced failure of a settled batch: the first in request order. */
  function FirstFailure(acts: seq<Activity>, children: seq<nat>): Option<Error> {
    if children == [] then None
    else if children[0] < |acts| && FailureOf(acts[children[0]]).Some? then FailureOf(acts[children[0]])
    else FirstFailure(acts, children[1..])
  }

  function Workers(cfg: Config, want: nat): nat {
    if want < cfg.limits.maxParallel then want else cfg.limits.maxParallel
  }

  /** A host failure is latched unless the record names a malformed model-authored request. */
  function Latch(e: Error): Option<Error> { if e.invalid then None else Some(e) }

  /** One step of `_run_branch`, `_repair`, `_submitted_final` and `_handle_action`. */
  function BranchStep(cfg: Config, s: System, i: nat, a: Activity, c: Choice): Option<Effect>
    requires a.Branch?
  {
    if c.Fail? && !Fresh(c.error) && !a.branchPc.Decided? then None
    else
      var stop := if c.Fail? then Some(Quietly(s, a.(branchPc := Failed(c.error)))) else None;
      match a.branchPc
      case New(cause) =>
        if c.Go? then Some(Quietly(s, a.(branchPc := AtTurn(|s.trace|)))
          .(emit := Some(Emit(i, a, BranchStarted, cause))))
        else stop
      case AtTurn(conversation) =>
        // Starting the executor may fail before the first turn; running out of turns must.
        if c.Go? && a.turn < cfg.limits.maxTurns then
          Some(Quietly(s, a.(turn := a.turn + 1, branchPc := AwaitController(|s.acts|)))
               .(spawn := Some(Call(i, a.depth, Controller, conversation, a.turn + 1, Unreserved))))
        else if a.turn == 0 || a.turn >= cfg.limits.maxTurns then stop
        else None
      case AwaitController(call) =>
        if !c.Go? || call >= |s.acts| || !s.acts[call].Call? then None
        else if s.acts[call].callPc.Answered? then
          Some(Quietly(s, a.(branchPc := GotResponse(s.acts[call].callPc.response))))
        else if s.acts[call].callPc.Refused? then
          Some(Quietly(s, a.(branchPc := Failed(s.acts[call].callPc.error))))
        else None
      case GotResponse(response) =>
        if c.Reject? then Some(Quietly(s, a.(branchPc := Faulted(response))))
        else if c.StartCell? && c.calls <= cfg.maxHostCalls then
          Some(Quietly(s, a.(branchPc := InCell(|s.trace|, c.calls, None)))
            .(emit := Some(Emit(i, a, Action, response))))
        else None
      case InCell(action, calls, latched) =>
        if c.Fail? then stop
        else if c.Finish? then
          if c.outcome.HostFailed? != latched.Some? || (latched.Some? && c.outcome.failure != latched.value) then None
          else Some(Quietly(s, a.(branchPc := Executed(|s.trace|, c.outcome)))
            .(emit := Some(Emit(i, a, Execution, action))))
        else if latched.Some? || calls == 0 then None
        else if c.HostCall? then
          if s.subcalls + c.count > cfg.limits.maxSubcalls || (c.recursive && a.depth >= cfg.limits.maxDepth) then None
          else Some(Quietly(s, a.(branchPc := InHostCall(action, calls - 1, c.count, [], c.recursive)))
                    .(subcalls := s.subcalls + c.count))
        else if c.Deny? && Fresh(c.error) then
          if c.reserved && s.subcalls >= cfg.limits.maxSubcalls then None
          else Some(Quietly(s, a.(branchPc := InCell(action, calls - 1, Latch(c.error))))
                    .(subcalls := if c.reserved then s.subcalls + 1 else s.subcalls))
        else None
      case InHostCall(action, calls, want, children, recursive) =>
        if |children| < want then
          if !c.Go? || Unsettled(s.acts, children) >= Workers(cfg, want) then None
          else
            var child := if recursive then Branch(i, a.depth + 1, 0, New(action))
                         else Call(i, a.depth, Leaf, action, 0, Unreserved);
            Some(Quietly(s, a.(branchPc := InHostCall(action, calls, want, children + [|s.acts|], recursive)))
                 .(spawn := Some(child)))
        else if Unsettled(s.acts, children) > 0 then None
        else if c.Fail? then stop
        else
          var failure := FirstFailure(s.acts, children);
          if c.Go? then
            var latched := if failure.Some? then Latch(failure.value) else None;
            Some(Quietly(s, a.(branchPc := InCell(action, calls, latched))))
          else if c.Deny? && Fresh(c.error) && !c.reserved && failure.None? then
            Some(Quietly(s, a.(branchPc := InCell(action, calls, Latch(c.error)))))
          else None
      case Executed(execution, outcome) =>
        match outcome {
          case HostFailed(e) => if c.Go? then Some(Quietly(s, a.(branchPc := Failed(e)))) else None
          case Raised => if c.Go? then Some(Quietly(s, a.(branchPc := Faulted(execution)))) else None
          case Submitted =>
            if c.Reject? then Some(Quietly(s, a.(branchPc := Faulted(execution))))
            else if c.Go? then
              Some(Quietly(s, a.(branchPc := Exiting(|s.trace|)))
                .(emit := Some(Emit(i, a, BranchCompleted, execution))))
            else None
          case Quiet =>
            if c.Go? then
              Some(Quietly(s, a.(branchPc := AtTurn(|s.trace|))).(emit := Some(Emit(i, a, Observation, execution))))
            else stop
        }
      case Faulted(causal) =>
        if c.Go? then
          Some(Quietly(s, a.(branchPc := Decided(|s.trace|)))
            .(emit := Some(Emit(i, a, Decision(cfg.abortOnFault), causal))))
        else None
      case Decided(decision) =>
        if cfg.abortOnFault then
          if c.Fail? && c.error.cause == Some(decision) then stop else None
        else if c.Go? then
          Some(Quietly(s, a.(branchPc := AtTurn(|s.trace|))).(emit := Some(Emit(i, a, Repair, decision))))
        else if c.Fail? && Fresh(c.error) then stop
        else None
      case Exiting(event) =>
        // Closing the executor is the last thing that can fail.
        if c.Go? then Some(Quietly(s, a.(branchPc := Completed(event)))) else stop
      case Completed(_) => None
      case Failed(_) => None
  }

  function Local(cfg: Config, s: System, i: nat, c: Choice): Option<Effect>
    requires i < |s.acts|
  {
    var a := s.acts[i];
    if a.Call? then CallStep(cfg, s, i, a, c) else BranchStep(cfg, s, i, a, c)
  }

  function Extend(trace: seq<Event>, emit: Option<Event>): seq<Event> {
    if emit.Some? then trace + [emit.value] else trace
  }

  function Grow(acts: seq<Activity>, spawn: Option<Activity>): seq<Activity> {
    if spawn.Some? then acts + [spawn.value] else acts
  }

  function Apply(s: System, i: nat, e: Effect): System
    requires i < |s.acts|
  {
    System(Extend(s.trace, e.emit), e.modelCalls, e.subcalls, e.slots, Grow(s.acts[i := e.act], e.spawn), s.outcome)
  }

  /** The final event of a run and its outcome, once the root branch has settled. */
  function Closing(s: System, root: Activity): System
    requires root.Branch? && (root.branchPc.Completed? || root.branchPc.Failed?)
  {
    if root.branchPc.Completed? then
      s.(trace := s.trace + [Event(RunCompleted(root.turn), 0, 0, Some(root.branchPc.event))],
         outcome := Success(root.turn))
    else
      var e := root.branchPc.error;
      s.(trace := s.trace + [Event(RunFailed(e.record), 0, 0, Some(if e.cause.Some? then e.cause.value else 0))],
         outcome := Failure(e))
  }

  function Step(cfg: Config, s: System, move: Move): Option<System> {
    if s.outcome != Running then None
    else
      match move
      case Advance(i, c) =>
        if i >= |s.acts| then None
        else
          var e := Local(cfg, s, i, c);
          if e.None? then None else Some(Apply(s, i, e.value))
      case CloseRun =>
        if s.acts == [] || !s.acts[0].Branch? || !Settled(s.acts[0]) then None
        else Some(Closing(s, s.acts[0]))
  }

  function Run(cfg: Config, moves: seq<Move>): Option<System> {
    if moves == [] then Some(Launch(cfg))
    else
      match Run(cfg, moves[..|moves| - 1])
      case None => None
      case Some(s) => Step(cfg, s, moves[|moves| - 1])
  }
}

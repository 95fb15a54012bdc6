/**
 * Host calls from a model-written cell. The cell is any finite sequence of host calls and final
 * submissions, with every exception caught or not as it likes; the host answers as it likes.
 */
module HostCalls {
  import opened Common

  datatype Json = Null | Bool(b: bool) | Number(n: int) | Str(s: string)
                | List(items: seq<Json>) | Object(fields: map<string, Json>)

  // ----- Error records on the wire -----

  datatype ErrorRecord = ErrorRecord(
    exceptionType: string, message: string, code: string, status: int, publicType: string,
    parameter: Option<string>, body: Json, details: Json)

  const RECORD_FIELDS: set<string> :=
    {"exception_type", "message", "code", "status_code", "public_error_type", "parameter", "body", "details"}

  function EncodeRecord(r: ErrorRecord): Json {
    Object(map[
      "exception_type" := Str(r.exceptionType), "message" := Str(r.message), "code" := Str(r.code),
      "status_code" := Number(r.status), "public_error_type" := Str(r.publicType),
      "parameter" := if r.parameter.Some? then Str(r.parameter.value) else Null,
      "body" := r.body, "details" := r.details])
  }

  function DecodeRecord(v: Json): Option<ErrorRecord> {
    if !v.Object? || v.fields.Keys != RECORD_FIELDS then None
    else
      var f := v.fields;
      if !(f["exception_type"].Str? && f["exception_type"].s != "" && f["code"].Str? && f["code"].s != ""
           && f["public_error_type"].Str? && f["public_error_type"].s != "" && f["message"].Str?) then None
      else if !f["status_code"].Number? || !(f["parameter"].Null? || f["parameter"].Str?) then None
      else if !f["body"].Object? || !(f["details"].Null? || f["details"].Object?) then None
      else
        Some(ErrorRecord(f["exception_type"].s, f["message"].s, f["code"].s, f["status_code"].n,
                         f["public_error_type"].s,
                         if f["parameter"].Str? then Some(f["parameter"].s) else None, f["body"], f["details"]))
  }

  predicate RecordOk(r: ErrorRecord) {
    && r.exceptionType != "" && r.code != "" && r.publicType != ""
    && r.body.Object? && (r.details.Null? || r.details.Object?)
  }

  lemma {:induction false} RecordRoundTrip(r: ErrorRecord)
    ensures RecordOk(r) ==> DecodeRecord(EncodeRecord(r)) == Some(r)
    ensures !RecordOk(r) ==> DecodeRecord(EncodeRecord(r)) == None
  {
    assert EncodeRecord(r).fields.Keys == RECORD_FIELDS;
  }

  lemma {:induction false} DecodeIsExact(v: Json)
    requires DecodeRecord(v).Some?
    ensures EncodeRecord(DecodeRecord(v).value) == v && RecordOk(DecodeRecord(v).value)
  {
    assert EncodeRecord(DecodeRecord(v).value).fields.Keys == RECORD_FIELDS;
  }

  /** The host's error frame: `parent` is absent, or present and possibly null. */
  datatype HostError = HostError(record: ErrorRecord, parent: Option<Option<string>>)

  function EncodeParent(p: Option<string>): Json { if p.Some? then Str(p.value) else Null }

  function EncodeHostError(e: HostError): Json {
    if e.parent.None? then Object(map["record" := EncodeRecord(e.record)])
    else Object(map["record" := EncodeRecord(e.record), "causal_parent_event_id" := EncodeParent(e.parent.value)])
  }

  predicate ParentOk(v: Json) { v.Null? || (v.Str? && v.s != "") }

  /** The worker's validation of an error frame. */
  function AcceptHostError(v: Json): Option<ErrorRecord> {
    if !v.Object? || !(v.fields.Keys <= {"record", "causal_parent_event_id"}) || "record" !in v.fields then None
    else if "causal_parent_event_id" in v.fields && !ParentOk(v.fields["causal_parent_event_id"]) then None
    else DecodeRecord(v.fields["record"])
  }

  predicate ErrorOk(e: HostError) {
    RecordOk(e.record) && (e.parent.Some? && e.parent.value.Some? ==> e.parent.value.value != "")
  }

  lemma {:induction false} AcceptRoundTrip(e: HostError)
    ensures AcceptHostError(EncodeHostError(e)) == if ErrorOk(e) then Some(e.record) else None
  {
    RecordRoundTrip(e.record);
  }

  /** The worker accepts exactly the host's frames of well-formed errors. */
  lemma {:induction false} AcceptIsExact(v: Json)
    ensures AcceptHostError(v).Some? <==> exists e :: ErrorOk(e) && v == EncodeHostError(e)
  {
    if AcceptHostError(v).Some? {
      var record := AcceptHostError(v).value;
      DecodeIsExact(v.fields["record"]);
      var parent :=
        if "causal_parent_event_id" in v.fields then Some(DecodeParent(v.fields["causal_parent_event_id"])) else None;
      var e := HostError(record, parent);
      assert v.fields == EncodeHostError(e).fields;
      assert ErrorOk(e) && v == EncodeHostError(e);
    }
    if e :| ErrorOk(e) && v == EncodeHostError(e) {
      AcceptRoundTrip(e);
    }
  }

  function DecodeParent(v: Json): Option<string> { if v.Str? then Some(v.s) else None }

  // ----- The latched failure and its way back to the host -----

  datatype FailureKind = RlmError | Infrastructure

  function EncodeKind(k: FailureKind): Json {
    match k case RlmError => Str("rlm_error") case Infrastructure => Str("infrastructure")
  }

  function KindOf(r: ErrorRecord): FailureKind { if r.code != "internal_error" then RlmError else Infrastructure }

  function LatchFrame(error: Json, record: ErrorRecord): Json {
    Object(map["kind" := EncodeKind(KindOf(record)), "error" := error])
  }

  datatype HostFailure = HostFailure(kind: FailureKind, record: ErrorRecord, parent: Option<string>)

  /** The host's decoder of the result frame's failure field; Err is a protocol error. */
  function DecodeFailure(v: Json): Result<Option<HostFailure>, ()> {
    if v.Null? then Ok(None)
    else if !v.Object? || v.fields.Keys != {"kind", "error"} then Err(())
    else
      var raw, kind := v.fields["error"], v.fields["kind"];
      if !raw.Object? || (raw.fields.Keys != {"record"} && raw.fields.Keys != {"record", "causal_parent_event_id"})
        then Err(())
      else if kind != EncodeKind(RlmError) && kind != EncodeKind(Infrastructure) then Err(())
      else
        var record := DecodeRecord(raw.fields["record"]);
        var parent := if "causal_parent_event_id" in raw.fields then raw.fields["causal_parent_event_id"] else Null;
        if record.None? || !ParentOk(parent) then Err(())
        else
          Ok(Some(HostFailure(if kind == EncodeKind(RlmError) then RlmError else Infrastructure, record.value,
                              if parent.Str? then Some(parent.s) else None)))
  }

  /** Both crossings together give back the original record and causal parent. */
  lemma {:induction false} FailureRoundTrip(e: HostError)
    requires ErrorOk(e)
    ensures DecodeFailure(LatchFrame(EncodeHostError(e), e.record)) ==
      Ok(Some(HostFailure(KindOf(e.record), e.record, if e.parent.Some? then e.parent.value else None)))
  {
    RecordRoundTrip(e.record);
    var v := LatchFrame(EncodeHostError(e), e.record);
    assert v.fields.Keys == {"kind", "error"};
    if e.parent.None? {
      assert v.fields["error"].fields.Keys == {"record"};
    } else {
      assert v.fields["error"].fields.Keys == {"record", "causal_parent_event_id"};
    }
    KindsDiffer();
  }

  /** The host takes a failure from exactly the frames of a kind and a well-formed error, and reads both as they are. */
  lemma {:induction false} FailureIsExact(v: Json, f: HostFailure)
    ensures DecodeFailure(v) == Ok(Some(f)) <==> exists e :: ErrorOk(e) && FrameOf(v, f, e)
  {
    if DecodeFailure(v) == Ok(Some(f)) {
      var e := FailureHasFrame(v, f);
    }
    if e :| ErrorOk(e) && FrameOf(v, f, e) {
      FrameGivesFailure(v, f, e);
    }
  }

  lemma {:induction false} FailureHasFrame(v: Json, f: HostFailure) returns (e: HostError)
    requires DecodeFailure(v) == Ok(Some(f))
    ensures ErrorOk(e) && FrameOf(v, f, e)
  {
    var raw := v.fields["error"];
    DecodeIsExact(raw.fields["record"]);
    var parent :=
      if "causal_parent_event_id" in raw.fields then Some(DecodeParent(raw.fields["causal_parent_event_id"])) else None;
    e := HostError(f.record, parent);
    assert raw.fields == EncodeHostError(e).fields;
  }

  lemma {:induction false} FrameGivesFailure(v: Json, f: HostFailure, e: HostError)
    requires ErrorOk(e) && FrameOf(v, f, e)
    ensures DecodeFailure(v) == Ok(Some(f))
  {
    KindsDiffer();
    RecordRoundTrip(e.record);
    assert v.fields.Keys == {"kind", "error"};
    FrameKeys(e);
  }

  lemma {:induction false} FrameKeys(e: HostError)
    ensures EncodeHostError(e).fields.Keys ==
      if e.parent.None? then {"record"} else {"record", "causal_parent_event_id"}
  {
  }

  /** The frame carries the failure's kind and the error that the failure tells of. */
  predicate FrameOf(v: Json, f: HostFailure, e: HostError) {
    && v == Object(map["kind" := EncodeKind(f.kind), "error" := EncodeHostError(e)])
    && f.record == e.record && f.parent == if e.parent.Some? then e.parent.value else None
  }

  lemma {:induction false} KindsDiffer()
    ensures EncodeKind(RlmError) != EncodeKind(Infrastructure)
  {
    assert |"rlm_error"| != |"infrastructure"|;
  }

  // ----- One cell -----

  datatype HostReply = Value(value: Json) | Fault(error: HostError)

  datatype Submission = TextSubmission(text: string) | ResponseSubmission(response: Json)

  /**
   * `sendable` is false when the payload cannot be framed; a final carries None when its argument
   * is not a string, not an object, or not strict JSON.
   */
  datatype CellOp = HostCall(sendable: bool, reply: HostReply)
                  | FinalText(text: Option<string>) | FinalResponse(response: Option<Json>)

  datatype CellResult = CellResult(hostFailure: Json, submission: Option<Submission>, raised: bool)

  /** A reply that must stop the run: an accepted error other than a malformed model-authored request. */
  predicate Fatal(op: CellOp) {
    && op.HostCall? && op.sendable && op.reply.Fault?
    && ErrorOk(op.reply.error) && op.reply.error.record.exceptionType != "InvalidRequestError"
  }

  function FirstFatal(ops: seq<CellOp>): (n: nat)
    ensures n <= |ops| && (n < |ops| ==> Fatal(ops[n]))
    ensures forall k :: 0 <= k < n ==> !Fatal(ops[k])
  {
    if ops == [] || Fatal(ops[0]) then 0 else FirstFatal(ops[1..]) + 1
  }

  /** What the worker latches for a cell with a fatal operation. */
  function FatalFrame(ops: seq<CellOp>): Json
    requires FirstFatal(ops) < |ops|
  {
    var e := ops[FirstFatal(ops)].reply.error;
    LatchFrame(EncodeHostError(e), e.record)
  }

  /** The operations the worker still lets through to the host: up to and including the first fatal one. */
  function Live(ops: seq<CellOp>): seq<CellOp> {
    if FirstFatal(ops) < |ops| then ops[..FirstFatal(ops) + 1] else ops
  }

  function Final(op: CellOp): Option<Submission> {
    match op
    case FinalText(Some(t)) => Some(TextSubmission(t))
    case FinalResponse(Some(r)) => Some(ResponseSubmission(r))
    case _ => None
  }

  function FirstFinal(ops: seq<CellOp>): Option<Submission> {
    if ops == [] then None
    else
      var before := FirstFinal(ops[..|ops| - 1]);
      if before.Some? then before else Final(ops[|ops| - 1])
  }

  /** Host calls, framed or not: each takes a fresh id. */
  function Attempts(ops: seq<CellOp>): nat {
    if ops == [] then 0 else Attempts(ops[..|ops| - 1]) + if ops[|ops| - 1].HostCall? then 1 else 0
  }

  /** The ids of the requests framed, counting from `id`. */
  function Sent(ops: seq<CellOp>, id: nat): seq<nat> {
    if ops == [] then []
    else
      var before := ops[..|ops| - 1];
      Sent(before, id) + if ops[|ops| - 1].HostCall? && ops[|ops| - 1].sendable then [id + Attempts(before)] else []
  }

  lemma {:induction false} SentIncreases(ops: seq<CellOp>, id: nat)
    ensures forall k :: 0 <= k < |Sent(ops, id)| ==> id <= Sent(ops, id)[k] < id + Attempts(ops)
    ensures forall j, k :: 0 <= j < k < |Sent(ops, id)| ==> Sent(ops, id)[j] < Sent(ops, id)[k]
  {
    if ops != [] {
      SentIncreases(ops[..|ops| - 1], id);
    }
  }

  lemma {:induction false} LiveExtends(ops: seq<CellOp>, op: CellOp)
    ensures FirstFatal(ops) < |ops| ==> FirstFatal(ops + [op]) == FirstFatal(ops) && Live(ops + [op]) == Live(ops)
    ensures FirstFatal(ops) == |ops| ==> Live(ops + [op]) == ops + [op]
    ensures FirstFatal(ops) == |ops| ==> FirstFatal(ops + [op]) == if Fatal(op) then |ops| else |ops| + 1
    ensures FirstFatal(ops) < |ops| ==> FatalFrame(ops + [op]) == FatalFrame(ops)
    ensures FirstFatal(ops) == |ops| && Fatal(op) ==>
      FatalFrame(ops + [op]) == LatchFrame(EncodeHostError(op.reply.error), op.reply.error.record)
  {
    var n, m := FirstFatal(ops), FirstFatal(ops + [op]);
    assert forall k :: 0 <= k < |ops| ==> (ops + [op])[k] == ops[k];
    assert (ops + [op])[|ops|] == op;
    if n < |ops| {
      assert m == n;
      assert (ops + [op])[..n + 1] == ops[..n + 1];
    } else if Fatal(op) {
      assert m == |ops|;
      assert (ops + [op])[..|ops| + 1] == ops + [op];
    }
  }

  lemma {:induction false} CountsAppend(ops: seq<CellOp>, op: CellOp, id: nat)
    ensures Attempts(ops + [op]) == Attempts(ops) + if op.HostCall? then 1 else 0
    ensures Sent(ops + [op], id) == Sent(ops, id) + if op.HostCall? && op.sendable then [id + Attempts(ops)] else []
    ensures FirstFinal(ops + [op]) == if FirstFinal(ops).Some? then FirstFinal(ops) else Final(op)
  {
    assert (ops + [op])[..|ops|] == ops;
  }

  /** An operation counts only while the worker still lets operations through. */
  lemma {:induction false} LiveCounts(ops: seq<CellOp>, op: CellOp, id: nat)
    ensures var live := FirstFatal(ops) == |ops|;
      && Attempts(Live(ops + [op])) == Attempts(Live(ops)) + (if live && op.HostCall? then 1 else 0)
      && Sent(Live(ops + [op]), id) ==
        Sent(Live(ops), id) + (if live && op.HostCall? && op.sendable then [id + Attempts(Live(ops))] else [])
      && FirstFinal(ops + [op]) == if FirstFinal(ops).Some? then FirstFinal(ops) else Final(op)
  {
    LiveExtends(ops, op);
    CountsAppend(ops, op, id);
  }

  /** The worker's fields after a cell's operations, from request id `id` and the wire so far. */
  datatype Latch = Latch(submission: Option<Submission>, hostFailure: Json, nextId: nat, wire: seq<nat>)

  function After(ops: seq<CellOp>, id: nat, before: seq<nat>): Latch {
    Latch(FirstFinal(ops), if FirstFatal(ops) < |ops| then FatalFrame(ops) else Null,
          id + Attempts(Live(ops)), before + Sent(Live(ops), id))
  }

  /** What one operation does to them. */
  function Step(l: Latch, op: CellOp): Latch {
    if !op.HostCall? then l.(submission := if l.submission.Some? then l.submission else Final(op))
    else if !l.hostFailure.Null? then l
    else
      Latch(l.submission,
            if Fatal(op) then LatchFrame(EncodeHostError(op.reply.error), op.reply.error.record) else Null,
            l.nextId + 1, l.wire + if op.sendable then [l.nextId] else [])
  }

  /** The wire grows by the operation's request, if it is let through and framed. */
  lemma {:induction false} WireGrows(ops: seq<CellOp>, op: CellOp, id: nat, before: seq<nat>)
    ensures before + Sent(Live(ops + [op]), id)
         == before + Sent(Live(ops), id)
          + if FirstFatal(ops) == |ops| && op.HostCall? && op.sendable then [id + Attempts(Live(ops))] else []
  {
    LiveCounts(ops, op, id);
  }

  lemma {:induction false} AfterStep(ops: seq<CellOp>, op: CellOp, id: nat, before: seq<nat>)
    ensures After(ops + [op], id, before) == Step(After(ops, id, before), op)
  {
    LiveExtends(ops, op);
    LiveCounts(ops, op, id);
    WireGrows(ops, op, id, before);
  }

  lemma {:induction false} AfterPrefix(ops: seq<CellOp>, n: nat, id: nat, before: seq<nat>)
    requires n < |ops|
    ensures After(ops[..n + 1], id, before) == Step(After(ops[..n], id, before), ops[n])
  {
    assert ops[..n + 1] == ops[..n] + [ops[n]];
    AfterStep(ops[..n], ops[n], id, before);
  }

  class Worker {
    var submission: Option<Submission>
    var hostFailure: Json
    var nextId: nat
    /** Every request id ever put on the wire. */
    ghost var wire: seq<nat>

    ghost predicate Valid()
      reads this
    {
      && (forall k :: 0 <= k < |wire| ==> wire[k] < nextId)
      && (forall j, k :: 0 <= j < k < |wire| ==> wire[j] < wire[k])
    }

    constructor ()
      ensures Valid() && wire == [] && nextId == 0
    {
      submission, hostFailure, nextId, wire := None, Null, 0, [];
    }

    /** `raised` tells whether the call raised in the cell. */
    method Call(sendable: bool, reply: HostReply) returns (raised: bool)
      modifies this
      ensures submission == old(submission)
      ensures !old(hostFailure).Null? ==>
        raised && nextId == old(nextId) && wire == old(wire) && hostFailure == old(hostFailure)
      ensures old(hostFailure).Null? ==>
        && nextId == old(nextId) + 1
        && wire == old(wire) + (if sendable then [old(nextId)] else [])
        && hostFailure ==
          (if Fatal(HostCall(sendable, reply)) then LatchFrame(EncodeHostError(reply.error), reply.error.record)
           else Null)
        && raised == (!sendable || reply.Fault?)
    {
      if !hostFailure.Null? { return true; }
      var id := nextId;
      nextId := nextId + 1;
      if !sendable { return true; }
      wire := wire + [id];
      match reply {
        case Value(_) => return false;
        case Fault(error) =>
          var frame := EncodeHostError(error);
          var record := AcceptHostError(frame);
          AcceptRoundTrip(error);
          if record.Some? && record.value.exceptionType != "InvalidRequestError" {
            hostFailure := LatchFrame(frame, record.value);
          }
          return true;
      }
    }

    /** Only the first accepted final of a cell is kept. */
    method Submit(final: Option<Submission>) returns (raised: bool)
      modifies this`submission
      ensures submission == if old(submission).Some? then old(submission) else final
      ensures raised == (old(submission).Some? || final.None?)
    {
      raised := submission.Some? || final.None?;
      if !raised { submission := final; }
    }

    /** The state inside a cell that began with `id` and `before` and has performed `ops`. */
    ghost function State(): Latch
      reads this
    {
      Latch(submission, hostFailure, nextId, wire)
    }

    method Perform(op: CellOp) returns (raised: bool)
      modifies this
      ensures State() == Step(old(State()), op)
    {
      if op.HostCall? {
        raised := Call(op.sendable, op.reply);
      } else {
        raised := Submit(Final(op));
      }
    }

    method PerformAll(ops: seq<CellOp>)
      requires submission.None? && hostFailure.Null?
      modifies this
      ensures State() == After(ops, old(nextId), old(wire))
    {
      ghost var id, before := nextId, wire;
      for n := 0 to |ops|
        invariant State() == After(ops[..n], id, before)
      {
        AfterPrefix(ops, n, id, before);
        var raised := Perform(ops[n]);
      }
      assert ops[..|ops|] == ops;
    }

    /**
     * One EXECUTE. Whatever the cell catches and goes on to call, nothing reaches the host after the
     * first fatal failure, that failure is the one reported, and no submission survives it; without
     * one, the first valid final survives exactly when the cell ends without an exception.
     */
    method RunCell(ops: seq<CellOp>, uncaught: bool) returns (result: CellResult)
      requires Valid()
      modifies this
      ensures Valid()
      ensures nextId == old(nextId) + Attempts(Live(ops)) && wire == old(wire) + Sent(Live(ops), old(nextId))
      ensures FirstFatal(ops) < |ops| ==> result == CellResult(FatalFrame(ops), None, uncaught)
      ensures FirstFatal(ops) == |ops| ==>
        result == CellResult(Null, if uncaught then None else FirstFinal(ops), uncaught)
    {
      submission, hostFailure := None, Null;
      PerformAll(ops);
      SentIncreases(Live(ops), old(nextId));
      result := CellResult(hostFailure, if uncaught || !hostFailure.Null? then None else submission, uncaught);
    }
  }

  // ----- What the engine makes of the result -----

  /** The executor's reading of a result frame: a host failure outranks an exception, which outranks a submission. */
  datatype Execution = Execution(exception: bool, hostFailure: Option<HostFailure>, submission: Option<Submission>)

  function Read(result: CellResult): Result<Execution, ()> {
    match DecodeFailure(result.hostFailure)
    case Err(e) => Err(e)
    case Ok(Some(f)) => Ok(Execution(false, Some(f), None))
    case Ok(None) => Ok(Execution(result.raised, None, if result.raised then None else result.submission))
  }

  /**
   * The executor refuses exactly the results whose failure field is neither null nor such a frame, and of the
   * others a failure outranks an exception, which outranks a submission.
   */
  lemma {:induction false} ReadExactly(result: CellResult)
    ensures Read(result).Err? <==>
      !result.hostFailure.Null? && forall e, f :: !(ErrorOk(e) && FrameOf(result.hostFailure, f, e))
    ensures forall e, f :: ErrorOk(e) && FrameOf(result.hostFailure, f, e) ==>
      Read(result) == Ok(Execution(false, Some(f), None))
    ensures result.hostFailure.Null? && result.raised ==> Read(result) == Ok(Execution(true, None, None))
    ensures result.hostFailure.Null? && !result.raised ==> Read(result) == Ok(Execution(false, None, result.submission))
  {
    forall e, f | ErrorOk(e) && FrameOf(result.hostFailure, f, e)
      ensures DecodeFailure(result.hostFailure) == Ok(Some(f))
    {
      FrameGivesFailure(result.hostFailure, f, e);
    }
    var failure := DecodeFailure(result.hostFailure);
    if failure.Ok? && failure.value.Some? {
      var e := FailureHasFrame(result.hostFailure, failure.value.value);
    }
  }

  /** What the cell did, as one value: the reference for the worker's and the executor's combined work. */
  function Meaning(ops: seq<CellOp>, uncaught: bool): Execution {
    var n := FirstFatal(ops);
    if n < |ops| then
      var e := ops[n].reply.error;
      var parent := if e.parent.Some? then e.parent.value else None;
      Execution(false, Some(HostFailure(KindOf(e.record), e.record, parent)), None)
    else Execution(uncaught, None, if uncaught then None else FirstFinal(ops))
  }

  /**
   * End to end: the engine sees the first fatal failure, with its own record and causal parent, or no
   * failure at all.
   */
  method Execute(worker: Worker, ops: seq<CellOp>, uncaught: bool) returns (execution: Result<Execution, ()>)
    requires worker.Valid()
    modifies worker
    ensures worker.Valid()
    ensures execution == Ok(Meaning(ops, uncaught))
    ensures worker.wire == old(worker.wire) + Sent(Live(ops), old(worker.nextId))
  {
    var result := worker.RunCell(ops, uncaught);
    if FirstFatal(ops) < |ops| {
      FailureRoundTrip(ops[FirstFatal(ops)].reply.error);
    }
    execution := Read(result);
  }

  /**
   * Exactly which operations are fatal: a framed call answered by an error that the worker accepts and whose
   * record does not name a malformed request.
   */
  lemma {:induction false} FatalExactly(op: CellOp)
    ensures Fatal(op) <==>
      && op.HostCall? && op.sendable && op.reply.Fault?
      && AcceptHostError(EncodeHostError(op.reply.error)) == Some(op.reply.error.record)
      && op.reply.error.record.exceptionType != "InvalidRequestError"
  {
    if op.HostCall? && op.reply.Fault? {
      AcceptRoundTrip(op.reply.error);
    }
  }

  /** An error whose record names a malformed request, or that cannot be framed, is never latched. */
  lemma {:induction false} RepairableExactly(op: CellOp)
    requires op.HostCall? && op.sendable && op.reply.Fault?
    ensures !Fatal(op) <==>
      || AcceptHostError(EncodeHostError(op.reply.error)).None?
      || op.reply.error.record.exceptionType == "InvalidRequestError"
  {
    AcceptRoundTrip(op.reply.error);
  }

  /** The host reads an infrastructure failure exactly from the code of an internal error. */
  lemma {:induction false} KindExactly(e: HostError)
    requires ErrorOk(e)
    ensures var failure := DecodeFailure(LatchFrame(EncodeHostError(e), e.record));
      && failure.Ok? && failure.value.Some?
      && (failure.value.value.kind == Infrastructure <==> e.record.code == "internal_error")
      && LatchFrame(EncodeHostError(e), e.record).fields["kind"] ==
         Str(if e.record.code == "internal_error" then "infrastructure" else "rlm_error")
  {
    FailureRoundTrip(e);
  }

  /** The operation is a final with a valid argument, and no earlier one is. */
  ghost predicate SubmitsFirst(ops: seq<CellOp>, k: int) {
    0 <= k < |ops| && IsValidFinal(ops[k]) && forall h :: 0 <= h < k ==> !IsValidFinal(ops[h])
  }

  predicate IsValidFinal(op: CellOp) {
    (op.FinalText? && op.text.Some?) || (op.FinalResponse? && op.response.Some?)
  }

  lemma {:induction false} FirstFinalExactly(ops: seq<CellOp>)
    ensures forall t :: FirstFinal(ops) == Some(TextSubmission(t)) <==>
      exists k :: SubmitsFirst(ops, k) && ops[k] == FinalText(Some(t))
    ensures forall r :: FirstFinal(ops) == Some(ResponseSubmission(r)) <==>
      exists k :: SubmitsFirst(ops, k) && ops[k] == FinalResponse(Some(r))
    ensures FirstFinal(ops).None? <==> forall k :: 0 <= k < |ops| ==> !IsValidFinal(ops[k])
  {
    if ops != [] {
      var n := |ops| - 1;
      FirstFinalExactly(ops[..n]);
      assert forall k :: 0 <= k < n ==> ops[..n][k] == ops[k];
      assert forall k :: k < n ==> (SubmitsFirst(ops[..n], k) <==> SubmitsFirst(ops, k));
    }
  }

  /**
   * What a cell submits: the text or the response of its first valid final, exactly when no operation was
   * fatal and no exception escaped; and nothing exactly when it has no valid final, or one of these holds.
   */
  lemma {:induction false} SubmissionExactly(ops: seq<CellOp>, uncaught: bool)
    ensures var submission, ends := Meaning(ops, uncaught).submission, !uncaught && NoneFatal(ops);
      && (forall t :: submission == Some(TextSubmission(t)) <==>
            ends && exists k :: SubmitsFirst(ops, k) && ops[k] == FinalText(Some(t)))
      && (forall r :: submission == Some(ResponseSubmission(r)) <==>
            ends && exists k :: SubmitsFirst(ops, k) && ops[k] == FinalResponse(Some(r)))
      && (submission.None? <==> !ends || forall k :: 0 <= k < |ops| ==> !IsValidFinal(ops[k]))
  {
    FirstFinalExactly(ops);
  }

  ghost predicate NoneFatal(ops: seq<CellOp>) { forall k :: 0 <= k < |ops| ==> !Fatal(ops[k]) }

  /** Nothing after the first fatal failure matters, and adding operations there changes nothing. */
  lemma {:induction false} NothingAfterFatalMatters(ops: seq<CellOp>, more: seq<CellOp>, a: bool, b: bool)
    requires FirstFatal(ops) < |ops|
    ensures Meaning(ops + more, a) == Meaning(ops, b) && Live(ops + more) == Live(ops)
    ensures Meaning(ops, a).submission.None? && Meaning(ops, a).hostFailure.Some?
  {
    var n := FirstFatal(ops);
    assert forall k :: 0 <= k < |ops| ==> (ops + more)[k] == ops[k];
    assert FirstFatal(ops + more) == n;
    assert (ops + more)[..n + 1] == ops[..n + 1];
  }
}

/** The run-wide ledger: budget reservations, token accounting, and the backend-call slots. */
module RunLedger {
  import opened Common

  datatype Limits = Limits(
    maxTurns: nat, maxModelCalls: nat, maxSubcalls: nat, maxParallel: nat, maxDepth: nat,
    maxTotalTokens: Option<nat>)
  {
    ghost predicate Valid() {
      && 1 <= maxTurns && 1 <= maxModelCalls && 1 <= maxParallel
      && (maxTotalTokens.Some? ==> 1 <= maxTotalTokens.value)
    }
  }

  datatype Fault = DeadlineExceeded | ModelCallLimit | SubcallLimit | TokenLimit
                 | UsageRequired | MalformedUsage | BadCount | OverRelease

  /** The semaphore's free permits, the calls now inside the backend, and the largest such number yet. */
  datatype Slots = Slots(free: nat, active: nat, peak: nat)

  datatype Book = Book(
    modelCalls: nat, subcalls: nat, inputTokens: nat, outputTokens: nat, unreported: nat, slots: Slots)

  /** A provider's usage object before validation; `NotCount` stands for a non-integer or a boolean. */
  datatype RawCount = NotCount | Count(n: int)
  datatype RawUsage = NoUsage | NotMapping | Fields(input: RawCount, output: RawCount, total: RawCount)
  datatype Usage = Usage(input: nat, output: nat, unreported: nat)

  function TokenCount(c: RawCount): (r: Result<nat, Fault>) {
    if c.Count? && c.n >= 0 then Ok(c.n) else Err(MalformedUsage)
  }

  function UsageFrom(raw: RawUsage): (r: Result<Usage, Fault>)
    ensures r.Ok? && raw.Fields? ==> raw.total == Count(r.value.input + r.value.output) && r.value.unreported == 0
    ensures r.Ok? && !raw.Fields? ==> raw.NoUsage? && r.value == Usage(0, 0, 1)
    ensures r.Err? <==> !raw.NoUsage? && !(exists i: nat, o: nat :: raw == Fields(Count(i), Count(o), Count(i + o)))
  {
    match raw
    case NoUsage => Ok(Usage(0, 0, 1))
    case NotMapping => Err(MalformedUsage)
    case Fields(i, o, t) =>
      var ri, ro, rt := TokenCount(i), TokenCount(o), TokenCount(t);
      if ri.Err? || ro.Err? || rt.Err? then Err(MalformedUsage)
      else if rt.value != ri.value + ro.value then Err(MalformedUsage)
      else
        assert raw == Fields(Count(ri.value), Count(ro.value), Count(ri.value + ro.value));
        Ok(Usage(ri.value, ro.value, 0))
  }

  // ----- One operation under the lock -----

  /** Every operation that takes the lock and may fail; `now` is the clock reading made under it. */
  datatype Operation = ReserveCall(now: real) | ReserveSubcalls(count: int, now: real) | Record(raw: RawUsage)
  datatype Outcome = Total(n: nat) | Recorded(usage: Usage) | Denied(fault: Fault)

  function Perform(limits: Limits, deadline: real, book: Book, op: Operation): (Book, Outcome) {
    match op
    case ReserveCall(now) =>
      if now >= deadline then (book, Denied(DeadlineExceeded))
      else if book.modelCalls >= limits.maxModelCalls then (book, Denied(ModelCallLimit))
      else (book.(modelCalls := book.modelCalls + 1), Total(book.modelCalls + 1))
    case ReserveSubcalls(count, now) =>
      if count < 0 then (book, Denied(BadCount))
      else if now >= deadline then (book, Denied(DeadlineExceeded))
      else if book.subcalls + count > limits.maxSubcalls then (book, Denied(SubcallLimit))
      else (book.(subcalls := book.subcalls + count), Total(book.subcalls + count))
    case Record(raw) =>
      match UsageFrom(raw)
      case Err(fault) => (book, Denied(fault))
      case Ok(usage) =>
        if limits.maxTotalTokens.Some? && usage.unreported > 0 then (book, Denied(UsageRequired))
        else
          // The totals are updated before the budget is compared, so an overrun stays on the books.
          var after := book.(inputTokens := book.inputTokens + usage.input,
                             outputTokens := book.outputTokens + usage.output,
                             unreported := book.unreported + usage.unreported);
          if limits.maxTotalTokens.Some? && after.inputTokens + after.outputTokens > limits.maxTotalTokens.value
          then (after, Denied(TokenLimit))
          else (after, Recorded(usage))
  }

  // ----- The shared object -----

  class Ledger {
    const limits: Limits
    const startedAt: real
    const deadlineAt: real
    var modelCalls: nat
    var subcalls: nat
    var active: nat
    var peak: nat
    var free: nat
    var inputTokens: nat
    var outputTokens: nat
    var unreported: nat

    ghost function Contents(): Book
      reads this
    {
      Book(modelCalls, subcalls, inputTokens, outputTokens, unreported, Slots(free, active, peak))
    }

    constructor (limits: Limits, now: real, deadlineSeconds: real)
      requires limits.Valid()
      ensures this.limits == limits && startedAt == now && deadlineAt == now + deadlineSeconds
      ensures Contents() == Opening(limits)
    {
      this.limits, startedAt, deadlineAt := limits, now, now + deadlineSeconds;
      modelCalls, subcalls, active, peak, free := 0, 0, 0, 0, limits.maxParallel;
      inputTokens, outputTokens, unreported := 0, 0, 0;
    }

    /** The number handed out is the caller's 1-based position among all reservations. */
    method ReserveModelCall(now: real) returns (outcome: Outcome)
      modifies this`modelCalls
      ensures (Contents(), outcome) == Perform(limits, deadlineAt, old(Contents()), ReserveCall(now))
    {
      if now >= deadlineAt { return Denied(DeadlineExceeded); }
      if modelCalls >= limits.maxModelCalls { return Denied(ModelCallLimit); }
      modelCalls := modelCalls + 1;
      return Total(modelCalls);
    }

    method ReserveSubcalls(count: int, now: real) returns (outcome: Outcome)
      modifies this`subcalls
      ensures (Contents(), outcome) ==
        Perform(limits, deadlineAt, old(Contents()), Operation.ReserveSubcalls(count, now))
    {
      if count < 0 { return Denied(BadCount); }
      if now >= deadlineAt { return Denied(DeadlineExceeded); }
      var requested := subcalls + count;
      if requested > limits.maxSubcalls { return Denied(SubcallLimit); }
      subcalls := requested;
      return Total(subcalls);
    }

    method RecordResponse(raw: RawUsage) returns (outcome: Outcome)
      modifies this`inputTokens, this`outputTokens, this`unreported
      ensures (Contents(), outcome) == Perform(limits, deadlineAt, old(Contents()), Record(raw))
    {
      var parsed := UsageFrom(raw);
      if parsed.Err? { return Denied(parsed.error); }
      var usage := parsed.value;
      if limits.maxTotalTokens.Some? && usage.unreported > 0 { return Denied(UsageRequired); }
      inputTokens := inputTokens + usage.input;
      outputTokens := outputTokens + usage.output;
      unreported := unreported + usage.unreported;
      if limits.maxTotalTokens.Some? && inputTokens + outputTokens > limits.maxTotalTokens.value {
        return Denied(TokenLimit);
      }
      return Recorded(usage);
    }

    /** One attempt of the semaphore's timed acquire. */
    method TryAcquire() returns (acquired: bool)
      modifies this`free
      ensures acquired == Taken(old(Contents()).slots).Some?
      ensures Contents().slots == if acquired then Taken(old(Contents()).slots).value else old(Contents()).slots
    {
      acquired := free > 0;
      if acquired { free := free - 1; }
    }

    /** The critical section between acquiring a permit and the backend call. */
    method Enter(now: real) returns (entered: bool)
      modifies this`active, this`peak
      ensures entered == (now < deadlineAt)
      ensures Contents().slots == if entered then Entered(old(Contents()).slots) else old(Contents()).slots
    {
      if now >= deadlineAt { return false; }
      active := active + 1;
      if active > peak { peak := active; }
      return true;
    }

    method Leave()
      requires active > 0
      modifies this`active
      ensures Left(old(Contents()).slots) == Some(Contents().slots)
    {
      active := active - 1;
    }

    /** A bounded semaphore refuses a release beyond its initial value. */
    method Release() returns (outcome: Result<(), Fault>)
      modifies this`free
      ensures outcome.Ok? == Released(limits.maxParallel, old(Contents()).slots).Some?
      ensures Contents().slots ==
        if outcome.Ok? then Released(limits.maxParallel, old(Contents()).slots).value else old(Contents()).slots
    {
      if free >= limits.maxParallel { return Err(OverRelease); }
      free := free + 1;
      return Ok(());
    }
  }

  function Opening(limits: Limits): Book {
    Book(0, 0, 0, 0, 0, Slots(limits.maxParallel, 0, 0))
  }

  // ----- The moves of a backend-call slot, shared by the ledger and the protocol of its threads -----

  /** A permit is taken if one is free. */
  function Taken(s: Slots): Option<Slots> {
    if s.free == 0 then None else Some(s.(free := s.free - 1))
  }

  function Entered(s: Slots): Slots {
    s.(active := s.active + 1, peak := if s.active + 1 > s.peak then s.active + 1 else s.peak)
  }

  function Left(s: Slots): Option<Slots> {
    if s.active == 0 then None else Some(s.(active := s.active - 1))
  }

  /** A permit comes back, unless all of them already have. */
  function Released(max: nat, s: Slots): Option<Slots> {
    if s.free >= max then None else Some(s.(free := s.free + 1))
  }

  // ----- Whole histories: the lock makes every interleaving a sequence of operations -----

  function History(limits: Limits, deadline: real, ops: seq<Operation>): (r: (Book, seq<Outcome>))
    ensures |r.1| == |ops|
  {
    if ops == [] then (Opening(limits), [])
    else
      var (book, outcomes) := History(limits, deadline, ops[..|ops| - 1]);
      var (after, outcome) := Perform(limits, deadline, book, ops[|ops| - 1]);
      (after, outcomes + [outcome])
  }

  /** How many of the first operations were reservations of a model call that succeeded. */
  function CallsGranted(ops: seq<Operation>, outcomes: seq<Outcome>): nat
    requires |ops| == |outcomes|
  {
    if ops == [] then 0
    else
      var n := |ops| - 1;
      CallsGranted(ops[..n], outcomes[..n]) + if ops[n].ReserveCall? && outcomes[n].Total? then 1 else 0
  }

  function SubcallsGranted(ops: seq<Operation>, outcomes: seq<Outcome>): int
    requires |ops| == |outcomes|
  {
    if ops == [] then 0
    else
      var n := |ops| - 1;
      SubcallsGranted(ops[..n], outcomes[..n])
      + if ops[n].ReserveSubcalls? && outcomes[n].Total? then ops[n].count else 0
  }

  /** A response that reports counts which are all there, not negative, and add up. */
  predicate Reports(op: Operation) {
    && op.Record? && op.raw.Fields? && op.raw.input.Count? && op.raw.output.Count?
    && op.raw.input.n >= 0 && op.raw.output.n >= 0 && op.raw.total == Count(op.raw.input.n + op.raw.output.n)
  }

  /** The tokens the responses put on the books, column by column: those of a malformed report do not count. */
  function InputBilled(ops: seq<Operation>): nat {
    if ops == [] then 0
    else InputBilled(ops[..|ops| - 1]) + if Reports(ops[|ops| - 1]) then ops[|ops| - 1].raw.input.n else 0
  }

  function OutputBilled(ops: seq<Operation>): nat {
    if ops == [] then 0
    else OutputBilled(ops[..|ops| - 1]) + if Reports(ops[|ops| - 1]) then ops[|ops| - 1].raw.output.n else 0
  }

  function TokensBilled(ops: seq<Operation>): nat { InputBilled(ops) + OutputBilled(ops) }

  /** Responses without a usage object; a token budget refuses them. */
  function Silent(limits: Limits, ops: seq<Operation>): nat {
    if ops == [] then 0
    else
      Silent(limits, ops[..|ops| - 1])
      + if ops[|ops| - 1] == Record(NoUsage) && limits.maxTotalTokens.None? then 1 else 0
  }

  /** The budgets hold over every history, reservations are all-or-nothing, and the books balance column by column. */
  lemma {:induction false} HistoryBalances(limits: Limits, deadline: real, ops: seq<Operation>)
    ensures var (book, outcomes) := History(limits, deadline, ops);
      && book.modelCalls == CallsGranted(ops, outcomes) <= limits.maxModelCalls
      && book.subcalls == SubcallsGranted(ops, outcomes) <= limits.maxSubcalls
      && book.inputTokens == InputBilled(ops) && book.outputTokens == OutputBilled(ops)
      && book.unreported == Silent(limits, ops)
      && book.slots == Opening(limits).slots
  {
    if ops != [] {
      HistoryBalances(limits, deadline, ops[..|ops| - 1]);
      var (_, outcomes) := History(limits, deadline, ops[..|ops| - 1]);
      var (_, all) := History(limits, deadline, ops);
      assert all[..|ops| - 1] == outcomes;
    }
  }

  lemma {:induction false} HistoryPrefix(limits: Limits, deadline: real, ops: seq<Operation>, k: nat)
    requires k <= |ops|
    ensures History(limits, deadline, ops[..k]).1 == History(limits, deadline, ops).1[..k]
  {
    if k < |ops| {
      HistoryPrefix(limits, deadline, ops[..|ops| - 1], k);
      assert ops[..|ops| - 1][..k] == ops[..k];
    } else {
      assert ops[..k] == ops;
    }
  }

  lemma {:induction false} GrantsGrow(ops: seq<Operation>, outcomes: seq<Outcome>, k: nat)
    requires |ops| == |outcomes| && k <= |ops|
    ensures CallsGranted(ops[..k], outcomes[..k]) <= CallsGranted(ops, outcomes)
  {
    if k < |ops| {
      var n := |ops| - 1;
      GrantsGrow(ops[..n], outcomes[..n], k);
      assert ops[..n][..k] == ops[..k] && outcomes[..n][..k] == outcomes[..k];
    } else {
      assert ops[..k] == ops && outcomes[..k] == outcomes;
    }
  }

  /**
   * Call numbers are handed out in order without a gap or a repetition: the k-th operation, when it
   * is a granted reservation, gets the number of grants up to and including itself.
   */
  lemma {:induction false} CallNumbersAreConsecutive(limits: Limits, deadline: real, ops: seq<Operation>, k: nat)
    requires k < |ops| && ops[k].ReserveCall?
    ensures var outcomes := History(limits, deadline, ops).1;
      && (outcomes[k].Total? ==> outcomes[k].n == CallsGranted(ops[..k], outcomes[..k]) + 1 <= limits.maxModelCalls)
      && (outcomes[k] == Denied(ModelCallLimit) ==> CallsGranted(ops, outcomes) == limits.maxModelCalls)
      && (outcomes[k].Total? || outcomes[k] == Denied(ModelCallLimit) <==> ops[k].now < deadline)
  {
    var outcomes := History(limits, deadline, ops).1;
    HistoryPrefix(limits, deadline, ops, k);
    HistoryPrefix(limits, deadline, ops, k + 1);
    HistoryBalances(limits, deadline, ops[..k]);
    HistoryBalances(limits, deadline, ops);
    assert ops[..k + 1][..k] == ops[..k];
    GrantsGrow(ops, outcomes, k);
  }

  /**
   * A batch of subcalls is granted exactly when its size is not negative, the deadline is not past and the whole
   * of it fits, and it is told the total; otherwise it is told why, in this order.
   */
  lemma {:induction false} SubcallsGrantedExactly(limits: Limits, deadline: real, ops: seq<Operation>, k: nat)
    requires k < |ops| && ops[k].ReserveSubcalls?
    ensures var outcomes, count := History(limits, deadline, ops).1, ops[k].count;
      var total := SubcallsGranted(ops[..k], outcomes[..k]) + count;
      if count < 0 then outcomes[k] == Denied(BadCount)
      else if ops[k].now >= deadline then outcomes[k] == Denied(DeadlineExceeded)
      else if total > limits.maxSubcalls then outcomes[k] == Denied(SubcallLimit)
      else outcomes[k].Total? && outcomes[k].n == total
  {
    HistoryPrefix(limits, deadline, ops, k);
    HistoryBalances(limits, deadline, ops[..k]);
    OutcomeAt(limits, deadline, ops, k);
  }

  lemma {:induction false} OutcomeAt(limits: Limits, deadline: real, ops: seq<Operation>, k: nat)
    requires k < |ops|
    ensures History(limits, deadline, ops).1[k] ==
      Perform(limits, deadline, History(limits, deadline, ops[..k]).0, ops[k]).1
  {
    HistoryPrefix(limits, deadline, ops, k + 1);
    assert ops[..k + 1][..k] == ops[..k];
  }

  /** A response without a usable report is refused for just that, whatever was billed before. */
  lemma {:induction false} UnusableReports(limits: Limits, deadline: real, ops: seq<Operation>, k: nat)
    requires k < |ops| && ops[k].Record? && !Reports(ops[k])
    ensures History(limits, deadline, ops).1[k] ==
      if ops[k].raw != NoUsage then Denied(MalformedUsage)
      else if limits.maxTotalTokens.Some? then Denied(UsageRequired)
      else Recorded(Usage(0, 0, 1))
  {
    OutcomeAt(limits, deadline, ops, k);
  }

  lemma {:induction false} BilledGrows(ops: seq<Operation>, k: nat)
    requires k <= |ops|
    ensures TokensBilled(ops[..k]) <= TokensBilled(ops)
  {
    if k < |ops| {
      BilledGrows(ops[..|ops| - 1], k);
      assert ops[..|ops| - 1][..k] == ops[..k];
    } else {
      assert ops[..k] == ops;
    }
  }

  /**
   * A response is recorded only while everything billed so far is within the token budget, and refused for
   * tokens exactly otherwise.
   */
  lemma {:induction false} RecordedWithinBudget(limits: Limits, deadline: real, ops: seq<Operation>, i: nat)
    requires i < |ops| && limits.maxTotalTokens.Some?
    ensures var outcome, billed := History(limits, deadline, ops).1[i], TokensBilled(ops[..i + 1]);
      && (outcome.Recorded? ==> billed <= limits.maxTotalTokens.value)
      && (Reports(ops[i]) ==>
        (outcome == Denied(TokenLimit) <==> billed > limits.maxTotalTokens.value))
  {
    OutcomeAt(limits, deadline, ops, i);
    HistoryBalances(limits, deadline, ops[..i + 1]);
    assert ops[..i + 1][..i] == ops[..i];
    BudgetCompared(limits, deadline, History(limits, deadline, ops[..i]).0, ops[i]);
  }

  /** The budget is compared with the totals after the response. */
  lemma {:induction false} BudgetCompared(limits: Limits, deadline: real, book: Book, op: Operation)
    requires limits.maxTotalTokens.Some?
    ensures var (after, outcome) := Perform(limits, deadline, book, op);
      var total := after.inputTokens + after.outputTokens;
      && (outcome.Recorded? ==> total <= limits.maxTotalTokens.value)
      && (Reports(op) ==> (outcome == Denied(TokenLimit) <==> total > limits.maxTotalTokens.value))
  {
  }

  /**
   * With a token budget, a well-formed reported response is refused exactly when everything billed up
   * to and including it exceeds the budget; from then on no response is ever accepted again.
   */
  lemma {:induction false} TokenBudgetIsSticky(limits: Limits, deadline: real, ops: seq<Operation>, j: nat, k: nat)
    requires j <= k < |ops| && limits.maxTotalTokens.Some?
    requires Reports(ops[j])
    ensures var outcomes := History(limits, deadline, ops).1;
      && (outcomes[j] == Denied(TokenLimit) <==> TokensBilled(ops[..j + 1]) > limits.maxTotalTokens.value)
      && (outcomes[j] == Denied(TokenLimit) ==> !outcomes[k].Recorded?)
  {
    RecordedWithinBudget(limits, deadline, ops, j);
    RecordedWithinBudget(limits, deadline, ops, k);
    BilledGrows(ops[..k + 1], j + 1);
    assert ops[..k + 1][..j + 1] == ops[..j + 1];
  }
}

/** The continuation schedule: epochs of fixed-order batches that can be stopped and resumed after any step. */
module DoseSchedule {
  import opened Common

  /** Rows per epoch, rows per batch and the last epoch; the experiment runs Plan(366, 16, 3). */
  datatype Plan = Plan(rows: nat, batch: nat, epochs: nat) {
    predicate Sane() { rows > 0 && batch > 0 && epochs > 0 }

    /** Optimizer steps in one epoch. */
    function Steps(): nat
      requires batch > 0
    {
      (rows + batch - 1) / batch
    }
  }

  /** None is a key the state does not have. */
  datatype State = State(epoch: int, cursor: int, step: int, microbatches: Option<int>, tokens: Option<int>)

  datatype Fault = InconsistentState | MicrobatchMismatch | WrongCount | MissingKey | Drift

  function Validate(p: Plan, s: State): Option<Fault>
    requires p.Sane()
  {
    if !(1 <= s.epoch <= p.epochs && 0 <= s.cursor < p.rows && s.cursor % p.batch == 0
         && s.step == s.epoch * p.Steps() + s.cursor / p.batch && (s.epoch == p.epochs ==> s.cursor == 0))
    then Some(InconsistentState)
    else if s.microbatches.Some? && s.microbatches.value != s.epoch * p.rows + s.cursor then Some(MicrobatchMismatch)
    else None
  }

  datatype Batch = Batch(epoch: nat, cursor: nat, rows: seq<nat>)

  function EpochFrom(p: Plan, order: seq<nat>, epoch: nat, cursor: nat): seq<Batch>
    requires p.Sane()
    decreases |order| - cursor
  {
    if cursor >= |order| then []
    else
      var batch := Batch(epoch, cursor, order[cursor..Min(cursor + p.batch, |order|)]);
      [batch] + EpochFrom(p, order, epoch, cursor + p.batch)
  }

  /** The batches still to do from a place in the plan. */
  function From(p: Plan, order: nat -> seq<nat>, epoch: nat, cursor: nat): seq<Batch>
    requires p.Sane()
    decreases p.epochs - epoch
  {
    if epoch >= p.epochs then [] else EpochFrom(p, order(epoch), epoch, cursor) + From(p, order, epoch + 1, 0)
  }

  function Schedule(p: Plan, order: nat -> seq<nat>, s: State): Result<seq<Batch>, Fault>
    requires p.Sane()
  {
    match Validate(p, s)
    case Some(fault) => Err(fault)
    case None => Ok(From(p, order, s.epoch, s.cursor))
  }

  function BatchAt(p: Plan, order: nat -> seq<nat>, epoch: nat, cursor: nat): Batch
    requires cursor < p.rows == |order(epoch)|
  {
    Batch(epoch, cursor, order(epoch)[cursor..Min(cursor + p.batch, p.rows)])
  }

  /** The generator's two loops. */
  method ListBatches(p: Plan, order: nat -> seq<nat>, s: State) returns (r: Result<seq<Batch>, Fault>)
    requires p.Sane() && forall e :: |order(e)| == p.rows
    ensures r == Schedule(p, order, s)
  {
    var fault := Validate(p, s);
    if fault.Some? {
      return Err(fault.value);
    }
    var out: seq<Batch> := [];
    var epoch: nat, first: nat := s.epoch, s.cursor;
    ghost var whole := From(p, order, epoch, first);
    while epoch < p.epochs
      invariant out + From(p, order, epoch, first) == whole
    {
      var batches := ListEpoch(p, order(epoch), epoch, first);
      Regroup(out, batches, From(p, order, epoch + 1, 0));
      out, epoch, first := out + batches, epoch + 1, 0;
    }
    assert out + From(p, order, epoch, first) == out;
    r := Ok(out);
  }

  method ListEpoch(p: Plan, order: seq<nat>, epoch: nat, first: nat) returns (out: seq<Batch>)
    requires p.Sane() && |order| == p.rows
    ensures out == EpochFrom(p, order, epoch, first)
  {
    out := [];
    var cursor := first;
    ghost var whole := EpochFrom(p, order, epoch, first);
    while cursor < p.rows
      invariant out + EpochFrom(p, order, epoch, cursor) == whole
      decreases p.rows - cursor
    {
      var batch := Batch(epoch, cursor, order[cursor..Min(cursor + p.batch, p.rows)]);
      Regroup(out, [batch], EpochFrom(p, order, epoch, cursor + p.batch));
      out, cursor := out + [batch], cursor + p.batch;
    }
    assert out + EpochFrom(p, order, epoch, cursor) == out;
  }

  lemma {:induction false} Regroup<T>(a: seq<T>, b: seq<T>, c: seq<T>)
    ensures a + (b + c) == (a + b) + c
  {
  }

  function Advance(p: Plan, s: State, rows: int, tokens: int): Result<State, Fault>
    requires p.Sane()
  {
    var wrong := Validate(p, s);
    if wrong.Some? then Err(wrong.value)
    else if rows != Min(p.batch, p.rows - s.cursor) then Err(WrongCount)
    else if s.microbatches.None? || s.tokens.None? then Err(MissingKey)
    else
      var cursor := s.cursor + rows;
      var next := State(s.epoch + if cursor == p.rows then 1 else 0, if cursor == p.rows then 0 else cursor, s.step + 1,
                        Some(s.microbatches.value + rows), Some(s.tokens.value + tokens));
      var after := Validate(p, next);
      if after.Some? then Err(after.value) else Ok(next)
  }

  // ----- Arithmetic of the cursor -----

  lemma {:induction false} DivUnique(a: int, b: int, q: int, r: int)
    requires a == q * b + r && 0 <= r < b
    ensures a / b == q && a % b == r
  {
    var d := a / b - q;
    assert d * b == r - a % b;
    assert d >= 1 ==> d * b >= b;
    assert d <= -1 ==> d * b <= -b;
  }

  lemma {:induction false} CursorNext(cursor: int, b: int)
    requires b > 0 && cursor % b == 0
    ensures (cursor + b) % b == 0 && (cursor + b) / b == cursor / b + 1
  {
    var q := cursor / b;
    assert q * b == cursor;
    assert (q + 1) * b == q * b + b;
    DivUnique(cursor + b, b, q + 1, 0);
  }

  lemma {:induction false} DivBounds(a: int, b: int)
    requires b > 0
    ensures (a / b) * b <= a < (a / b) * b + b
  {
  }

  /** A step inside an epoch moves the cursor one batch; the last step of an epoch completes its count of steps. */
  lemma {:induction false} CursorStep(p: Plan, cursor: nat)
    requires p.Sane() && cursor < p.rows && cursor % p.batch == 0
    ensures cursor / p.batch < p.Steps()
    ensures (cursor + p.batch) % p.batch == 0 && (cursor + p.batch) / p.batch == cursor / p.batch + 1
    ensures cursor + p.batch >= p.rows ==> p.Steps() == cursor / p.batch + 1
  {
    CursorNext(cursor, p.batch);
    CeilCount(p.rows, p.batch, cursor);
  }

  lemma {:induction false} CeilCount(rows: int, b: int, cursor: int)
    requires b > 0 && cursor < rows && cursor % b == 0
    ensures cursor / b < (rows + b - 1) / b
    ensures cursor + b >= rows ==> (rows + b - 1) / b == cursor / b + 1
  {
    DivBounds(rows + b - 1, b);
    assert (cursor / b) * b == cursor;
    StepCount((rows + b - 1) / b, cursor / b, b, rows);
  }

  lemma {:induction false} StepCount(n: int, q: int, b: int, rows: int)
    requires b > 0 && n * b <= rows + b - 1 < n * b + b && q * b < rows
    ensures q < n && (q * b + b >= rows ==> n == q + 1)
  {
    assert n <= q ==> n * b <= q * b;
    assert n >= q + 2 ==> n * b >= (q + 2) * b;
    assert (q + 2) * b == q * b + 2 * b;
  }

  // ----- One step -----

  predicate Keyed(s: State) { s.microbatches.Some? && s.tokens.Some? }

  /**
   * A step is accepted exactly from a valid state that is not the end, with both counters and the right
   * count of rows.
   */
  lemma {:induction false} AdvanceExactly(p: Plan, s: State, rows: int, tokens: int)
    requires p.Sane()
    ensures Advance(p, s, rows, tokens).Ok? <==>
              Validate(p, s).None? && Keyed(s) && s.epoch < p.epochs && rows == Min(p.batch, p.rows - s.cursor)
    ensures Advance(p, s, rows, tokens).Ok? ==> Validate(p, Advance(p, s, rows, tokens).value).None?
  {
    if Validate(p, s).None? && Keyed(s) && rows == Min(p.batch, p.rows - s.cursor) {
      CursorStep(p, s.cursor);
      assert (s.epoch + 1) * p.Steps() == s.epoch * p.Steps() + p.Steps();
      assert (s.epoch + 1) * p.rows == s.epoch * p.rows + p.rows;
    }
  }

  lemma {:induction false} FromUnfolds(p: Plan, order: nat -> seq<nat>, epoch: nat, cursor: nat)
    requires p.Sane() && epoch < p.epochs && cursor < p.rows == |order(epoch)|
    ensures From(p, order, epoch, cursor) ==
      [BatchAt(p, order, epoch, cursor)]
      + if cursor + p.batch >= p.rows then From(p, order, epoch + 1, 0) else From(p, order, epoch, cursor + p.batch)
  {
    var rest := EpochFrom(p, order(epoch), epoch, cursor + p.batch);
    Regroup([BatchAt(p, order, epoch, cursor)], rest, From(p, order, epoch + 1, 0));
    if cursor + p.batch >= p.rows {
      assert rest == [];
    }
  }

  /** What a step leaves to do is the schedule without its first batch. */
  lemma {:induction false} ScheduleAfterStep(p: Plan, order: nat -> seq<nat>, s: State, tokens: int)
    requires p.Sane() && Validate(p, s).None? && Keyed(s) && s.epoch < p.epochs && |order(s.epoch)| == p.rows
    ensures var batch := BatchAt(p, order, s.epoch, s.cursor);
      var next := Advance(p, s, |batch.rows|, tokens);
      && next.Ok? && Validate(p, next.value).None? && Keyed(next.value) && next.value.step == s.step + 1
      && next.value.tokens.value == s.tokens.value + tokens
      && From(p, order, s.epoch, s.cursor) == [batch] + From(p, order, next.value.epoch, next.value.cursor)
  {
    AdvanceExactly(p, s, Min(p.batch, p.rows - s.cursor), tokens);
    FromUnfolds(p, order, s.epoch, s.cursor);
  }

  // ----- Sessions that stop and resume -----

  datatype Receipt = Receipt(step: int, rows: int, tokens: int)

  datatype Progress = Progress(state: State, batches: seq<Batch>, receipts: seq<Receipt>)

  /** The training loop: each batch must be the one the state is at; its receipt carries the new step. */
  function Train(p: Plan, tokensOf: nat -> int, now: Progress, todo: seq<Batch>): Result<Progress, Fault>
    requires p.Sane()
    decreases |todo|
  {
    if todo == [] then Ok(now)
    else if (todo[0].epoch, todo[0].cursor) != (now.state.epoch, now.state.cursor) then Err(Drift)
    else
      match Advance(p, now.state, |todo[0].rows|, Sum(tokensOf, todo[0].rows))
      case Err(fault) => Err(fault)
      case Ok(next) =>
        var receipt := Receipt(next.step, |todo[0].rows|, Sum(tokensOf, todo[0].rows));
        Train(p, tokensOf, Progress(next, now.batches + [todo[0]], now.receipts + [receipt]), todo[1..])
  }

  /** A session reloads the state, lists the batches left and is stopped after at most so many of them. */
  function Session(
      p: Plan, order: nat -> seq<nat>, tokensOf: nat -> int, now: Progress, stop: nat): Result<Progress, Fault>
    requires p.Sane()
  {
    match Schedule(p, order, now.state)
    case Err(fault) => Err(fault)
    case Ok(todo) => Train(p, tokensOf, now, todo[..Min(stop, |todo|)])
  }

  function Sessions(
      p: Plan, order: nat -> seq<nat>, tokensOf: nat -> int, now: Progress, stops: seq<nat>): Result<Progress, Fault>
    requires p.Sane()
  {
    Repeat((x, stop) => Session(p, order, tokensOf, x, stop), now, stops)
  }

  /** One session after another, until one fails. */
  function Repeat<S, E>(session: (S, nat) -> Result<S, E>, now: S, stops: seq<nat>): Result<S, E> {
    if stops == [] then Ok(now)
    else
      match session(now, stops[0])
      case Err(fault) => Err(fault)
      case Ok(after) => Repeat(session, after, stops[1..])
  }

  function Tokens(receipts: seq<Receipt>): int { Sum((r: Receipt) => r.tokens, receipts) }

  /**
   * What holds at any later point of a run that started with the schedule `whole` after `step` steps and
   * `tokens` tokens.
   */
  ghost predicate OnCourse(
      p: Plan, order: nat -> seq<nat>, tokensOf: nat -> int, whole: seq<Batch>, step: int, tokens: int,
      now: Progress)
    requires p.Sane()
  {
    && Validate(p, now.state).None? && Keyed(now.state)
    && |now.batches| == |now.receipts|
    && now.state.step == step + |now.batches|
    && now.state.tokens.value == tokens + Tokens(now.receipts)
    && Tokens(now.receipts) == Sum(tokensOf, RowsOf(now.batches))
    && now.batches + From(p, order, now.state.epoch, now.state.cursor) == whole
    && forall i :: 0 <= i < |now.receipts| ==>
      now.receipts[i].step == step + i + 1 && now.receipts[i].rows == |now.batches[i].rows|
  }

  lemma {:induction false} OneBatch(
      p: Plan, order: nat -> seq<nat>, tokensOf: nat -> int, whole: seq<Batch>, step: int, tokens: int,
      now: Progress)
    returns (batch: Batch, after: Progress)
    requires p.Sane() && OnCourse(p, order, tokensOf, whole, step, tokens, now) && now.state.epoch < p.epochs
    requires |order(now.state.epoch)| == p.rows
    ensures OnCourse(p, order, tokensOf, whole, step, tokens, after) && |after.batches| == |now.batches| + 1
    ensures From(p, order, now.state.epoch, now.state.cursor) ==
      [batch] + From(p, order, after.state.epoch, after.state.cursor)
    ensures forall todo :: todo != [] && todo[0] == batch ==>
      Train(p, tokensOf, now, todo) == Train(p, tokensOf, after, todo[1..])
  {
    batch := BatchAt(p, order, now.state.epoch, now.state.cursor);
    var tokensHere := Sum(tokensOf, batch.rows);
    ScheduleAfterStep(p, order, now.state, tokensHere);
    var next := Advance(p, now.state, |batch.rows|, tokensHere).value;
    var receipt := Receipt(next.step, |batch.rows|, tokensHere);
    after := Progress(next, now.batches + [batch], now.receipts + [receipt]);
    SumAppend((r: Receipt) => r.tokens, now.receipts, receipt);
    Regroup(now.batches, [batch], From(p, order, next.epoch, next.cursor));
    RowsOfLast(now.batches, batch);
    SumConcat(tokensOf, RowsOf(now.batches), batch.rows);
  }

  lemma {:induction false} RowsOfLast(batches: seq<Batch>, last: Batch)
    ensures RowsOf(batches + [last]) == RowsOf(batches) + last.rows
  {
    RowsOfConcat(batches, [last]);
    RowsOfFront(last, []);
    assert [last] + [] == [last];
    assert last.rows + [] == last.rows;
  }

  lemma {:induction false} TailOf(todo: seq<Batch>, rest: seq<Batch>, first: Batch, others: seq<Batch>)
    requires todo != [] && todo + rest == [first] + others
    ensures todo[0] == first && todo[1..] + rest == others
  {
    assert (todo + rest)[0] == first && (todo + rest)[1..] == others;
  }

  /** A session stopped short of the batches `rest` keeps the course and never drifts. */
  lemma {:induction false} TrainKeepsCourse(
      p: Plan, order: nat -> seq<nat>, tokensOf: nat -> int, whole: seq<Batch>, step: int, tokens: int,
      now: Progress, todo: seq<Batch>, rest: seq<Batch>)
    returns (after: Progress)
    requires p.Sane() && (forall e :: |order(e)| == p.rows) && OnCourse(p, order, tokensOf, whole, step, tokens, now)
    requires todo + rest == From(p, order, now.state.epoch, now.state.cursor)
    ensures Train(p, tokensOf, now, todo) == Ok(after)
    ensures OnCourse(p, order, tokensOf, whole, step, tokens, after) && |after.batches| == |now.batches| + |todo|
    decreases |todo|
  {
    if todo == [] {
      after := now;
    } else {
      var batch, next := OneBatch(p, order, tokensOf, whole, step, tokens, now);
      TailOf(todo, rest, batch, From(p, order, next.state.epoch, next.state.cursor));
      after := TrainKeepsCourse(p, order, tokensOf, whole, step, tokens, next, todo[1..], rest);
    }
  }

  lemma {:induction false} OneSession(
      p: Plan, order: nat -> seq<nat>, tokensOf: nat -> int, whole: seq<Batch>, step: int, tokens: int,
      now: Progress, stop: nat)
    returns (after: Progress)
    requires p.Sane() && (forall e :: |order(e)| == p.rows) && OnCourse(p, order, tokensOf, whole, step, tokens, now)
    ensures Session(p, order, tokensOf, now, stop) == Ok(after)
    ensures OnCourse(p, order, tokensOf, whole, step, tokens, after)
    ensures |after.batches| == Min(|now.batches| + stop, |whole|)
  {
    var todo := From(p, order, now.state.epoch, now.state.cursor);
    var n := Min(stop, |todo|);
    assert todo[..n] + todo[n..] == todo;
    after := TrainKeepsCourse(p, order, tokensOf, whole, step, tokens, now, todo[..n], todo[n..]);
  }

  function Total(stops: seq<nat>): nat { if stops == [] then 0 else stops[0] + Total(stops[1..]) }

  lemma {:induction false} CourseIsPrefix(
      p: Plan, order: nat -> seq<nat>, tokensOf: nat -> int, whole: seq<Batch>, step: int, tokens: int,
      now: Progress)
    requires p.Sane() && OnCourse(p, order, tokensOf, whole, step, tokens, now)
    ensures |now.batches| <= |whole| && now.batches == whole[..|now.batches|]
  {
  }

  /** Whatever every session keeps, any number of sessions keeps. */
  lemma {:induction false} EverySessionKeeps<S, E>(
      session: (S, nat) -> Result<S, E>, P: (S, nat) -> bool, now: S, total: nat, stops: seq<nat>)
    returns (after: S)
    requires P(now, total)
    requires forall x, n: nat, stop: nat {:trigger P(x, n), session(x, stop)} :: P(x, n) ==>
      session(x, stop).Ok? && P(session(x, stop).value, n + stop)
    ensures Repeat(session, now, stops) == Ok(after) && P(after, total + Total(stops))
    decreases |stops|
  {
    if stops == [] {
      after := now;
    } else {
      var next := session(now, stops[0]);
      after := EverySessionKeeps(session, P, next.value, total + stops[0], stops[1..]);
    }
  }

  /** Stopped and resumed at any points, a run performs the batches of one uninterrupted schedule, in order. */
  lemma {:induction false} ResumingIsSeamless(
      p: Plan, order: nat -> seq<nat>, tokensOf: nat -> int, whole: seq<Batch>, step: int, tokens: int,
      now: Progress, stops: seq<nat>)
    returns (after: Progress)
    requires p.Sane() && (forall e :: |order(e)| == p.rows) && OnCourse(p, order, tokensOf, whole, step, tokens, now)
    ensures Sessions(p, order, tokensOf, now, stops) == Ok(after)
    ensures OnCourse(p, order, tokensOf, whole, step, tokens, after)
    ensures |after.batches| == Min(|now.batches| + Total(stops), |whole|) && after.batches == whole[..|after.batches|]
  {
    var session := (x: Progress, stop: nat) => Session(p, order, tokensOf, x, stop);
    var P := (x: Progress, n: nat) => OnCourse(p, order, tokensOf, whole, step, tokens, x)
      && |x.batches| == Min(n, |whole|);
    forall x, n: nat, stop: nat {:trigger P(x, n), session(x, stop)} | P(x, n)
      ensures session(x, stop).Ok? && P(session(x, stop).value, n + stop)
    {
      var y := OneSession(p, order, tokensOf, whole, step, tokens, x, stop);
    }
    CourseIsPrefix(p, order, tokensOf, whole, step, tokens, now);
    after := EverySessionKeeps(session, P, now, |now.batches|, stops);
    CourseIsPrefix(p, order, tokensOf, whole, step, tokens, after);
  }

  // ----- An epoch is a permutation of the rows -----

  function RowsOf(batches: seq<Batch>): seq<nat> {
    if batches == [] then [] else batches[0].rows + RowsOf(batches[1..])
  }

  lemma {:induction false} RowsOfConcat(a: seq<Batch>, b: seq<Batch>)
    ensures RowsOf(a + b) == RowsOf(a) + RowsOf(b)
  {
    if a == [] {
      assert a + b == b;
    } else {
      assert (a + b)[1..] == a[1..] + b;
      RowsOfConcat(a[1..], b);
    }
  }

  /** The row counts of an epoch's batches from a cursor on. */
  function Counts(p: Plan, cursor: nat): seq<int>
    requires p.Sane()
    decreases p.rows - cursor
  {
    if cursor >= p.rows then [] else [Min(p.batch, p.rows - cursor)] + Counts(p, cursor + p.batch)
  }

  function CountsOf(batches: seq<Batch>): seq<int> {
    seq(|batches|, i requires 0 <= i < |batches| => |batches[i].rows|)
  }

  lemma {:induction false} EpochUnfolds(p: Plan, order: seq<nat>, epoch: nat, cursor: nat)
    returns (first: Batch, rest: seq<Batch>)
    requires p.Sane() && |order| == p.rows && cursor < p.rows
    ensures first == Batch(epoch, cursor, order[cursor..Min(cursor + p.batch, p.rows)])
    ensures rest == EpochFrom(p, order, epoch, cursor + p.batch) && EpochFrom(p, order, epoch, cursor) == [first] + rest
  {
    first := Batch(epoch, cursor, order[cursor..Min(cursor + p.batch, p.rows)]);
    rest := EpochFrom(p, order, epoch, cursor + p.batch);
  }

  lemma {:induction false} RowsOfFront(first: Batch, rest: seq<Batch>)
    ensures RowsOf([first] + rest) == first.rows + RowsOf(rest)
  {
    assert ([first] + rest)[1..] == rest;
  }

  function Rest(order: seq<nat>, cursor: nat): seq<nat> { if cursor < |order| then order[cursor..] else [] }

  lemma {:induction false} CutRest(order: seq<nat>, cursor: nat, b: nat)
    requires cursor < |order|
    ensures Rest(order, cursor) == order[cursor..Min(cursor + b, |order|)] + Rest(order, cursor + b)
  {
  }

  lemma {:induction false} Stitch(first: Batch, rest: seq<Batch>, order: seq<nat>, cursor: nat, b: nat)
    requires cursor < |order| && first.rows == order[cursor..Min(cursor + b, |order|)]
    requires RowsOf(rest) == Rest(order, cursor + b)
    ensures RowsOf([first] + rest) == Rest(order, cursor)
  {
    RowsOfFront(first, rest);
    CutRest(order, cursor, b);
  }

  /** The batches of an epoch concatenate to its order. */
  lemma {:induction false} EpochCoversOrder(p: Plan, order: seq<nat>, epoch: nat, cursor: nat)
    returns (batches: seq<Batch>)
    requires p.Sane() && |order| == p.rows
    ensures batches == EpochFrom(p, order, epoch, cursor) && RowsOf(batches) == Rest(order, cursor)
    decreases p.rows - cursor
  {
    if cursor >= p.rows {
      batches := [];
    } else {
      var rest := EpochCoversOrder(p, order, epoch, cursor + p.batch);
      var first, same := EpochUnfolds(p, order, epoch, cursor);
      Stitch(first, rest, order, cursor, p.batch);
      batches := [first] + rest;
    }
  }

  /** Each batch of an epoch is of full size but perhaps the last. */
  lemma {:induction false} EpochCounts(p: Plan, order: seq<nat>, epoch: nat, cursor: nat)
    requires p.Sane() && |order| == p.rows
    ensures CountsOf(EpochFrom(p, order, epoch, cursor)) == Counts(p, cursor)
    decreases p.rows - cursor
  {
    if cursor < p.rows {
      var first, rest := EpochUnfolds(p, order, epoch, cursor);
      EpochCounts(p, order, epoch, cursor + p.batch);
      assert CountsOf([first] + rest) == [|first.rows|] + CountsOf(rest);
    }
  }

  lemma {:induction false} CountsLength(p: Plan, cursor: nat)
    requires p.Sane() && cursor < p.rows && cursor % p.batch == 0
    ensures |Counts(p, cursor)| == p.Steps() - cursor / p.batch
    decreases p.rows - cursor
  {
    CursorStep(p, cursor);
    if cursor + p.batch < p.rows {
      CountsLength(p, cursor + p.batch);
    }
  }

  // ----- Whole epochs -----

  function Repeated(s: seq<int>, k: nat): seq<int> { if k == 0 then [] else s + Repeated(s, k - 1) }

  ghost predicate Shuffles(p: Plan, order: nat -> seq<nat>) {
    forall e :: |order(e)| == p.rows && multiset(order(e)) == multiset(order(0))
  }

  lemma {:induction false} OneEpoch(p: Plan, order: seq<nat>, epoch: nat)
    requires p.Sane() && |order| == p.rows
    ensures var batches := EpochFrom(p, order, epoch, 0);
      |batches| == p.Steps() && RowsOf(batches) == order && CountsOf(batches) == Counts(p, 0)
  {
    var batches := EpochCoversOrder(p, order, epoch, 0);
    EpochCounts(p, order, epoch, 0);
    CountsLength(p, 0);
    assert |CountsOf(EpochFrom(p, order, epoch, 0))| == |EpochFrom(p, order, epoch, 0)|;
  }

  function Times(k: nat, x: int): int { if k == 0 then 0 else x + Times(k - 1, x) }

  lemma {:induction false} TimesIsProduct(k: nat, x: int)
    ensures Times(k, x) == k * x
  {
    if k > 0 {
      TimesIsProduct(k - 1, x);
      assert k * x == x + (k - 1) * x;
    }
  }

  ghost predicate EpochsAlike(
      p: Plan, order: nat -> seq<nat>, tokensOf: nat -> int, steps: nat, tokens: int, counts: seq<int>)
    requires p.Sane()
  {
    forall e :: Alike(p, order, tokensOf, steps, tokens, counts, e)
  }

  ghost predicate Alike(
      p: Plan, order: nat -> seq<nat>, tokensOf: nat -> int, steps: nat, tokens: int, counts: seq<int>, e: nat)
    requires p.Sane()
  {
    var batches := EpochFrom(p, order(e), e, 0);
    |batches| == steps && Sum(tokensOf, RowsOf(batches)) == tokens && CountsOf(batches) == counts
  }

  lemma {:induction false} AllEpochsAlike(p: Plan, order: nat -> seq<nat>, tokensOf: nat -> int)
    requires p.Sane() && Shuffles(p, order)
    ensures EpochsAlike(p, order, tokensOf, p.Steps(), Sum(tokensOf, order(0)), Counts(p, 0))
  {
    forall e: nat
      ensures Alike(p, order, tokensOf, p.Steps(), Sum(tokensOf, order(0)), Counts(p, 0), e)
    {
      OneEpoch(p, order(e), e);
      SumPermutation(tokensOf, order(e), order(0));
    }
  }

  /** The batches of `k` whole epochs. */
  function Epochs(p: Plan, order: nat -> seq<nat>, epoch: nat, k: nat): seq<Batch>
    requires p.Sane()
    decreases k
  {
    if k == 0 then [] else EpochFrom(p, order(epoch), epoch, 0) + Epochs(p, order, epoch + 1, k - 1)
  }

  lemma {:induction false} StartsWithEpochs(p: Plan, order: nat -> seq<nat>, epoch: nat, k: nat)
    requires p.Sane() && epoch + k <= p.epochs
    ensures From(p, order, epoch, 0) == Epochs(p, order, epoch, k) + From(p, order, epoch + k, 0)
    decreases k
  {
    if k == 0 {
      assert Epochs(p, order, epoch, 0) == [];
    } else {
      StartsWithEpochs(p, order, epoch + 1, k - 1);
      Regroup(EpochFrom(p, order(epoch), epoch, 0), Epochs(p, order, epoch + 1, k - 1), From(p, order, epoch + k, 0));
    }
  }

  lemma {:induction false} EpochsSize(
      p: Plan, order: nat -> seq<nat>, tokensOf: nat -> int, epoch: nat, k: nat, steps: nat, tokens: int,
      counts: seq<int>)
    requires p.Sane() && EpochsAlike(p, order, tokensOf, steps, tokens, counts)
    ensures |Epochs(p, order, epoch, k)| == Times(k, steps)
    ensures CountsOf(Epochs(p, order, epoch, k)) == Repeated(counts, k)
    decreases k
  {
    if k > 0 {
      var first, rest := EpochFrom(p, order(epoch), epoch, 0), Epochs(p, order, epoch + 1, k - 1);
      assert Alike(p, order, tokensOf, steps, tokens, counts, epoch);
      EpochsSize(p, order, tokensOf, epoch + 1, k - 1, steps, tokens, counts);
      assert CountsOf(first + rest) == CountsOf(first) + CountsOf(rest);
    }
  }

  lemma {:induction false} TokensConcat(tokensOf: nat -> int, first: seq<Batch>, rest: seq<Batch>)
    ensures Sum(tokensOf, RowsOf(first + rest)) == Sum(tokensOf, RowsOf(first)) + Sum(tokensOf, RowsOf(rest))
  {
    RowsOfConcat(first, rest);
    SumConcat(tokensOf, RowsOf(first), RowsOf(rest));
  }

  /** Over `k` whole epochs every row's tokens count `k` times. */
  lemma {:induction false} EpochsTokens(
      p: Plan, order: nat -> seq<nat>, tokensOf: nat -> int, epoch: nat, k: nat, steps: nat, tokens: int,
      counts: seq<int>)
    requires p.Sane() && EpochsAlike(p, order, tokensOf, steps, tokens, counts)
    ensures Sum(tokensOf, RowsOf(Epochs(p, order, epoch, k))) == Times(k, tokens)
    decreases k
  {
    if k > 0 {
      assert Alike(p, order, tokensOf, steps, tokens, counts, epoch);
      EpochsTokens(p, order, tokensOf, epoch + 1, k - 1, steps, tokens, counts);
      TokensConcat(tokensOf, EpochFrom(p, order(epoch), epoch, 0), Epochs(p, order, epoch + 1, k - 1));
    }
  }

  // ----- The dose check -----

  datatype DoseFault = NotAnEndpoint | Invalid(fault: Fault) | Incomplete | ReceiptsRequired

  predicate Complete(p: Plan, tokens: int, s: State, epoch: int, endpoint: int) {
    && s.step == endpoint && s.epoch == epoch && s.cursor == 0
    && s.microbatches == Some(p.rows * epoch) && s.tokens == Some(tokens * epoch)
  }

  function RowCounts(receipts: seq<Receipt>): seq<int> {
    seq(|receipts|, i requires 0 <= i < |receipts| => receipts[i].rows)
  }

  predicate AllReceipts(p: Plan, tokens: int, receipts: seq<Receipt>, epoch: nat, endpoint: int)
    requires p.Sane() && epoch > 0
  {
    && |receipts| == endpoint - p.Steps()
    && (forall i :: 0 <= i < |receipts| ==> receipts[i].step == p.Steps() + 1 + i)
    && RowCounts(receipts) == Repeated(Counts(p, 0), epoch - 1)
    && Tokens(receipts) == tokens * (epoch - 1)
  }

  function ValidateDose(p: Plan, tokens: int, s: State, receipts: seq<Receipt>, endpoint: int): Option<DoseFault>
    requires p.Sane()
  {
    var epoch := endpoint / p.Steps();
    if !(endpoint == epoch * p.Steps() && 2 <= epoch <= p.epochs) then Some(NotAnEndpoint)
    else if Validate(p, s).Some? then Some(Invalid(Validate(p, s).value))
    else if !Complete(p, tokens, s, epoch, endpoint) then Some(Incomplete)
    else if !AllReceipts(p, tokens, receipts, epoch, endpoint) then Some(ReceiptsRequired)
    else None
  }

  /** Where a run starts: the first epoch done elsewhere, its rows and tokens counted. */
  function Start(p: Plan, tokens: int): Progress
    requires p.Sane()
  {
    Progress(State(1, 0, p.Steps(), Some(p.rows), Some(tokens)), [], [])
  }

  lemma {:induction false} StartOnCourse(p: Plan, order: nat -> seq<nat>, tokensOf: nat -> int, tokens: int)
    returns (whole: seq<Batch>, start: Progress)
    requires p.Sane()
    ensures whole == From(p, order, 1, 0) && start == Start(p, tokens) && start.batches == []
    ensures OnCourse(p, order, tokensOf, whole, p.Steps(), tokens, start)
  {
    whole, start := From(p, order, 1, 0), Start(p, tokens);
  }

  /** A valid state's step fixes its epoch and cursor. */
  lemma {:induction false} StepFixesPlace(p: Plan, s: State, epoch: int)
    requires p.Sane() && Validate(p, s).None? && s.step == epoch * p.Steps()
    ensures s.epoch == epoch && s.cursor == 0
  {
    CursorStep(p, s.cursor);
    var steps := p.Steps();
    DivUnique(s.step, steps, s.epoch, s.cursor / p.batch);
    DivUnique(s.step, steps, epoch, 0);
  }

  lemma {:induction false} SameFront<T>(a: seq<T>, x: seq<T>, b: seq<T>, y: seq<T>)
    requires a + x == b + y && |a| == |b|
    ensures a == b
  {
    assert a == (a + x)[..|a|] && b == (b + y)[..|b|];
  }

  /** Receipts and state at `k` whole epochs past the start. */
  lemma {:induction false} AtAnEndpoint(
      p: Plan, order: nat -> seq<nat>, tokensOf: nat -> int, step: int, tokens: int, now: Progress, k: nat,
      steps: nat, counts: seq<int>)
    requires p.Sane() && 1 + k <= p.epochs && EpochsAlike(p, order, tokensOf, steps, tokens, counts)
    requires OnCourse(p, order, tokensOf, From(p, order, 1, 0), step, tokens, now)
    requires |now.batches| == Times(k, steps)
    ensures Tokens(now.receipts) == Times(k, tokens)
    ensures RowCounts(now.receipts) == Repeated(counts, k)
  {
    var done := Epochs(p, order, 1, k);
    StartsWithEpochs(p, order, 1, k);
    EpochsSize(p, order, tokensOf, 1, k, steps, tokens, counts);
    EpochsTokens(p, order, tokensOf, 1, k, steps, tokens, counts);
    SameFront(now.batches, From(p, order, now.state.epoch, now.state.cursor), done, From(p, order, 1 + k, 0));
    assert RowCounts(now.receipts) == CountsOf(now.batches);
  }

  lemma {:induction false} EndpointPlace(p: Plan, k: nat)
    requires p.Sane()
    ensures Times(k + 1, p.Steps()) / p.Steps() == k + 1 && Times(k + 1, p.Steps()) == (k + 1) * p.Steps()
  {
    CursorStep(p, 0);
    DivUnique((k + 1) * p.Steps(), p.Steps(), k + 1, 0);
    TimesIsProduct(k + 1, p.Steps());
  }

  lemma {:induction false} CompleteThere(p: Plan, tokens: int, s: State, k: nat)
    requires p.Sane() && Validate(p, s).None? && Keyed(s)
    requires s.step == Times(k + 1, p.Steps()) && s.tokens.value == Times(k + 1, tokens)
    ensures Complete(p, tokens, s, k + 1, Times(k + 1, p.Steps()))
  {
    PlaceThere(p, s, k);
    TimesIsProduct(k + 1, tokens);
  }

  lemma {:induction false} PlaceThere(p: Plan, s: State, k: nat)
    requires p.Sane() && Validate(p, s).None? && s.step == Times(k + 1, p.Steps())
    ensures s.epoch == k + 1 && s.cursor == 0
  {
    TimesIsProduct(k + 1, p.Steps());
    StepFixesPlace(p, s, k + 1);
  }

  /** The check against facts about the state and the receipts. */
  lemma {:induction false} CheckMeans(p: Plan, tokens: int, s: State, receipts: seq<Receipt>, k: nat, endpoint: int)
    requires p.Sane() && 1 <= k && 1 + k <= p.epochs && Validate(p, s).None? && Keyed(s)
    requires s.step == p.Steps() + |receipts| && s.tokens.value == tokens + Tokens(receipts)
    requires forall i :: 0 <= i < |receipts| ==> receipts[i].step == p.Steps() + i + 1
    requires |receipts| == Times(k, p.Steps()) ==>
      Tokens(receipts) == Times(k, tokens) && RowCounts(receipts) == Repeated(Counts(p, 0), k)
    requires endpoint == Times(k + 1, p.Steps())
    ensures ValidateDose(p, tokens, s, receipts, endpoint).None? <==> |receipts| == Times(k, p.Steps())
  {
    EndpointPlace(p, k);
    if |receipts| == Times(k, p.Steps()) {
      CompleteThere(p, tokens, s, k);
      TimesIsProduct(k, tokens);
    }
  }

  lemma {:induction false} CheckOnCourse(
      p: Plan, order: nat -> seq<nat>, tokensOf: nat -> int, tokens: int, now: Progress, k: nat)
    requires p.Sane() && Shuffles(p, order) && 1 <= k && 1 + k <= p.epochs && tokens == Sum(tokensOf, order(0))
    requires OnCourse(p, order, tokensOf, From(p, order, 1, 0), p.Steps(), tokens, now)
    ensures ValidateDose(p, tokens, now.state, now.receipts, Times(k + 1, p.Steps())).None? <==>
      |now.batches| == Times(k, p.Steps())
  {
    AllEpochsAlike(p, order, tokensOf);
    if |now.batches| == Times(k, p.Steps()) {
      AtAnEndpoint(p, order, tokensOf, p.Steps(), tokens, now, k, p.Steps(), Counts(p, 0));
    }
    CheckMeans(p, tokens, now.state, now.receipts, k, Times(k + 1, p.Steps()));
  }

  lemma {:induction false} RunFromStart(
      p: Plan, order: nat -> seq<nat>, tokensOf: nat -> int, tokens: int, stops: seq<nat>)
    returns (now: Progress)
    requires p.Sane() && Shuffles(p, order) && tokens == Sum(tokensOf, order(0))
    ensures Sessions(p, order, tokensOf, Start(p, tokens), stops) == Ok(now)
    ensures OnCourse(p, order, tokensOf, From(p, order, 1, 0), p.Steps(), tokens, now)
    ensures |now.batches| == Min(Total(stops), |From(p, order, 1, 0)|)
  {
    var whole, start := StartOnCourse(p, order, tokensOf, tokens);
    now := ResumingIsSeamless(p, order, tokensOf, whole, p.Steps(), tokens, start, stops);
  }

  /**
   * However a run was interrupted, the dose check at endpoint epoch `k + 1` passes exactly when the `k`
   * epochs since the start are done.
   */
  lemma {:induction false} DoseCheckPassesExactly(
      p: Plan, order: nat -> seq<nat>, tokensOf: nat -> int, tokens: int, stops: seq<nat>, k: nat, endpoint: int)
    returns (now: Progress)
    requires p.Sane() && Shuffles(p, order) && 1 <= k && 1 + k <= p.epochs && tokens == Sum(tokensOf, order(0))
    requires endpoint == Times(k + 1, p.Steps())
    ensures Sessions(p, order, tokensOf, Start(p, tokens), stops) == Ok(now)
    ensures |now.batches| == Min(Total(stops), |From(p, order, 1, 0)|)
    ensures ValidateDose(p, tokens, now.state, now.receipts, endpoint).None? <==> |now.batches| == Times(k, p.Steps())
  {
    now := RunFromStart(p, order, tokensOf, tokens, stops);
    CheckOnCourse(p, order, tokensOf, tokens, now, k);
  }

  // ----- The experiment's own numbers -----

  const EXPERIMENT := Plan(366, 16, 3)

  function Same(n: nat, x: int): seq<int> { seq(n, _ => x) }

  lemma {:induction false} FullBatches(cursor: nat, n: nat)
    requires cursor + 16 * n == 352
    ensures Counts(EXPERIMENT, cursor) == Same(n, 16) + [14]
    decreases n
  {
    if n == 0 {
      assert Counts(EXPERIMENT, 368) == [];
    } else {
      FullBatches(cursor + 16, n - 1);
      assert [16] + Same(n - 1, 16) == Same(n, 16);
    }
  }

  /**
   * With 366 rows in batches of 16 for 3 epochs the endpoints are steps 46 and 69, and an epoch is 22
   * batches of 16 and one of 14.
   */
  lemma {:induction false} ExperimentNumbers(s: State, tokens: int, receipts: seq<Receipt>, endpoint: int)
    ensures EXPERIMENT.Steps() == 23 && Counts(EXPERIMENT, 0) == Same(22, 16) + [14]
    ensures ValidateDose(EXPERIMENT, tokens, s, receipts, endpoint) == Some(NotAnEndpoint) <==> endpoint !in {46, 69}
  {
    FullBatches(0, 22);
  }

  /** The dose of `k` epochs is complete, told in the experiment's numbers. */
  ghost predicate DoseDone(s: State, receipts: seq<Receipt>, endpoint: int, k: nat) {
    && endpoint == 23 * k
    && s == State(k, 0, 23 * k, Some(366 * k), Some(8820 * k))
    && |receipts| == 23 * (k - 1)
    && (forall i :: 0 <= i < |receipts| ==>
          receipts[i].step == 24 + i && receipts[i].rows == if i % 23 == 22 then 14 else 16)
    && Tokens(receipts) == 8820 * (k - 1)
  }

  /** Whatever state and receipts it is given, the check passes exactly for the dose of two or of three epochs. */
  lemma {:induction false} DoseCheckExactly(s: State, receipts: seq<Receipt>, endpoint: int)
    ensures ValidateDose(EXPERIMENT, 8820, s, receipts, endpoint).None? <==>
      DoseDone(s, receipts, endpoint, 2) || DoseDone(s, receipts, endpoint, 3)
  {
    ExperimentNumbers(s, 8820, receipts, endpoint);
    if endpoint == 46 {
      RowsExactly(receipts, 1);
    } else if endpoint == 69 {
      RowsExactly(receipts, 2);
    }
  }

  /** The rows of one or two epochs' receipts, one by one. */
  lemma {:induction false} RowsExactly(receipts: seq<Receipt>, k: nat)
    requires k == 1 || k == 2
    ensures |receipts| == 23 * k ==>
      (RowCounts(receipts) == Repeated(Counts(EXPERIMENT, 0), k) <==>
       forall i :: 0 <= i < |receipts| ==> receipts[i].rows == if i % 23 == 22 then 14 else 16)
  {
    FullBatches(0, 22);
    var counts, rows := Counts(EXPERIMENT, 0), RowCounts(receipts);
    assert Repeated(counts, 0) == [];
    assert Repeated(counts, 1) == counts && Repeated(counts, k) == if k == 1 then counts else counts + counts;
    if |receipts| == 23 * k {
      var all := Repeated(counts, k);
      assert |all| == 23 * k && forall i :: 0 <= i < 23 * k ==> all[i] == if i % 23 == 22 then 14 else 16;
      assert forall i :: 0 <= i < |receipts| ==> rows[i] == receipts[i].rows;
      assert rows == all <==> forall i :: 0 <= i < |receipts| ==> rows[i] == all[i];
    }
  }

  lemma {:induction false} FortySix(order: nat -> seq<nat>)
    requires Shuffles(EXPERIMENT, order)
    ensures |From(EXPERIMENT, order, 1, 0)| == 46
  {
    OneEpoch(EXPERIMENT, order(1), 1);
    OneEpoch(EXPERIMENT, order(2), 2);
    var second := EpochFrom(EXPERIMENT, order(2), 2, 0);
    assert From(EXPERIMENT, order, 3, 0) == [];
    assert From(EXPERIMENT, order, 2, 0) == second + [];
    assert From(EXPERIMENT, order, 1, 0) == EpochFrom(EXPERIMENT, order(1), 1, 0) + From(EXPERIMENT, order, 2, 0);
  }

  /** The two endpoints of the experiment, 8820 target tokens an epoch, under any interruptions. */
  lemma {:induction false} BothEndpoints(order: nat -> seq<nat>, tokensOf: nat -> int, stops: seq<nat>)
    returns (after: Progress)
    requires Shuffles(EXPERIMENT, order) && Sum(tokensOf, order(0)) == 8820
    ensures Sessions(EXPERIMENT, order, tokensOf, Start(EXPERIMENT, 8820), stops) == Ok(after)
    ensures |after.batches| == Min(Total(stops), 46)
    ensures ValidateDose(EXPERIMENT, 8820, after.state, after.receipts, 46).None? <==> |after.batches| == 23
    ensures ValidateDose(EXPERIMENT, 8820, after.state, after.receipts, 69).None? <==> |after.batches| == 46
  {
    EndpointNumbers();
    FortySix(order);
    after := DoseCheckPassesExactly(EXPERIMENT, order, tokensOf, 8820, stops, 1, 46);
    var same := DoseCheckPassesExactly(EXPERIMENT, order, tokensOf, 8820, stops, 2, 69);
  }

  lemma {:induction false} EndpointNumbers()
    ensures var steps := EXPERIMENT.Steps();
      steps == 23 && Times(1, steps) == 23 && Times(2, steps) == 46 && Times(3, steps) == 69
  {
    TimesIsProduct(1, 23);
    TimesIsProduct(2, 23);
    TimesIsProduct(3, 23);
  }
}

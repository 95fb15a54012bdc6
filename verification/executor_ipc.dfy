/** The host and its worker process over a reliable two-way pipe that may close. */
module LockStep {
  import opened Common

  datatype HostPc = Ready | Reading | Serving(id: nat) | Closed
  datatype WorkerPc = Idle | InCell | AwaitReply(id: nat) | Gone

  datatype ToWorker = Execute | Reply(id: nat)
  datatype ToHost = Request(id: nat) | Outcome

  /**
   * `ids` lists every request id put on the wire; `executes`, `results` and `forced` count cells begun,
   * cells answered by a result, and cells ended by a forced close. `broken` records a frame that its
   * reader does not expect, which the code treats as a protocol error.
   */
  datatype Pipe = Pipe(
    host: HostPc, worker: WorkerPc, toWorker: seq<ToWorker>, toHost: seq<ToHost>,
    nextId: nat, ids: seq<nat>, executes: nat, results: nat, forced: nat, broken: bool)

  datatype Move =
    | HostExecutes | HostReads | HostReplies
    | HostGivesUp   // a timeout, a failed send, a protocol error, or end of file
    | WorkerTakes | WorkerAsks | WorkerCannotAsk | WorkerReports | WorkerDies

  function Start(): Pipe { Pipe(Ready, Idle, [], [], 0, [], 0, 0, 0, false) }

  /** Forced close: the pipe is shut and no cell is ever begun again. */
  function Shut(p: Pipe): Pipe { p.(host := Closed, forced := p.forced + 1) }

  function Step(p: Pipe, m: Move): Option<Pipe> {
    match m
    case HostExecutes =>
      if p.host != Ready || p.worker.Gone? then None
      else Some(p.(host := Reading, toWorker := p.toWorker + [Execute], executes := p.executes + 1))
    case HostReads =>
      if p.host != Reading || p.toHost == [] then None
      else
        var rest := p.(toHost := p.toHost[1..]);
        match p.toHost[0] {
          case Request(id) => Some(rest.(host := Serving(id)))
          case Outcome => Some(rest.(host := Ready, results := p.results + 1))
        }
    case HostReplies =>
      if !p.host.Serving? then None
      else if p.worker.Gone? then Some(Shut(p))
      else Some(p.(host := Reading, toWorker := p.toWorker + [Reply(p.host.id)]))
    case HostGivesUp => if p.host == Reading || p.host.Serving? then Some(Shut(p)) else None
    case WorkerTakes =>
      if p.host == Closed || p.toWorker == [] then None
      else
        var rest := p.(toWorker := p.toWorker[1..]);
        if p.worker == Idle then Some(rest.(worker := InCell, broken := p.broken || p.toWorker[0] != Execute))
        else if p.worker.AwaitReply?
          then Some(rest.(worker := InCell, broken := p.broken || p.toWorker[0] != Reply(p.worker.id)))
        else None
    case WorkerAsks =>
      if p.host == Closed || p.worker != InCell then None
      else
        Some(p.(worker := AwaitReply(p.nextId), nextId := p.nextId + 1, ids := p.ids + [p.nextId],
                toHost := p.toHost + [Request(p.nextId)]))
    case WorkerCannotAsk => if p.worker != InCell then None else Some(p.(nextId := p.nextId + 1))
    case WorkerReports =>
      if p.host == Closed || p.worker != InCell then None
      else Some(p.(worker := Idle, toHost := p.toHost + [Outcome]))
    case WorkerDies => if p.worker == Gone then None else Some(p.(worker := Gone))
  }

  function Run(moves: seq<Move>): Option<Pipe> {
    if moves == [] then Some(Start())
    else
      match Run(moves[..|moves| - 1])
      case None => None
      case Some(p) => Step(p, moves[|moves| - 1])
  }

  /** Whose turn it is, and what is in flight, while both ends are up. */
  ghost predicate InStep(p: Pipe) {
    || (p.host == Ready && p.worker == Idle && p.toWorker == [] && p.toHost == [])
    || (p.host == Reading && p.worker == Idle && p.toWorker == [Execute] && p.toHost == [])
    || (p.host == Reading && p.worker == InCell && p.toWorker == [] && p.toHost == [])
    || (p.host == Reading && p.worker.AwaitReply? && p.toWorker == [] && p.toHost == [Request(p.worker.id)])
    || (p.host.Serving? && p.worker == AwaitReply(p.host.id) && p.toWorker == [] && p.toHost == [])
    || (p.host == Reading && p.worker.AwaitReply? && p.toWorker == [Reply(p.worker.id)] && p.toHost == [])
    || (p.host == Reading && p.worker == Idle && p.toWorker == [] && p.toHost == [Outcome])
  }

  predicate Ordered(ids: seq<nat>, next: nat) {
    && (forall k :: 0 <= k < |ids| ==> ids[k] < next)
    && (forall j, k :: 0 <= j < k < |ids| ==> ids[j] < ids[k])
  }

  ghost predicate Sound(p: Pipe) {
    && !p.broken && Ordered(p.ids, p.nextId)
    && (p.host != Closed && p.worker != Gone ==> InStep(p))
    && |p.toWorker| + |p.toHost| <= 1
    && (p.worker.AwaitReply? ==> p.ids != [] && p.worker.id == p.ids[|p.ids| - 1])
    && p.executes == p.results + p.forced + (if p.host == Reading || p.host.Serving? then 1 else 0)
    && p.forced <= (if p.host == Closed then 1 else 0)
  }

  lemma {:induction false} StepSound(p: Pipe, m: Move)
    requires Sound(p) && Step(p, m).Some?
    ensures Sound(Step(p, m).value)
  {
  }

  /**
   * On every run at most one frame is in flight, no reader ever meets a frame it does not expect, a
   * reply carries the id of the one outstanding request, ids never repeat across cells, and every
   * cell begun ends in exactly one result or in the one forced close, or is still running.
   */
  lemma {:induction false} AlwaysInStep(moves: seq<Move>)
    requires Run(moves).Some?
    ensures Sound(Run(moves).value)
  {
    if moves != [] {
      AlwaysInStep(moves[..|moves| - 1]);
      StepSound(Run(moves[..|moves| - 1]).value, moves[|moves| - 1]);
    }
  }

  // ----- A cell that nothing interrupts -----

  /** Where the moves lead from a pipe. */
  function From(p: Pipe, moves: seq<Move>): Option<Pipe>
    decreases |moves|
  {
    if moves == [] then Some(p)
    else match Step(p, moves[0]) case None => None case Some(q) => From(q, moves[1..])
  }

  lemma {:induction false} FromConcat(p: Pipe, a: seq<Move>, q: Pipe, b: seq<Move>)
    requires From(p, a) == Some(q)
    ensures From(p, a + b) == From(q, b)
    decreases |a|
  {
    if a == [] {
      assert a + b == b;
    } else {
      assert (a + b)[1..] == a[1..] + b;
      FromConcat(Step(p, a[0]).value, a[1..], q, b);
    }
  }

  lemma {:induction false} FromOne(p: Pipe, m: Move, q: Pipe, more: seq<Move>)
    requires Step(p, m) == Some(q)
    ensures From(p, [m] + more) == From(q, more)
  {
    assert ([m] + more)[1..] == more;
  }

  function OneCall(): seq<Move> { [WorkerAsks] + ([HostReads] + ([HostReplies] + ([WorkerTakes] + []))) }

  /**
   * The moves of a whole cell; of its host calls those marked are asked, read, replied to and taken, and the others
   * cannot be sent.
   */
  function CellOf(sent: seq<bool>): seq<Move> { [HostExecutes] + ([WorkerTakes] + Inside(sent)) }

  function Inside(sent: seq<bool>): seq<Move> {
    if sent == [] then [WorkerReports] + ([HostReads] + [])
    else if sent[0] then OneCall() + Inside(sent[1..])
    else [WorkerCannotAsk] + Inside(sent[1..])
  }

  /** The ids of the calls sent, when every call takes one. */
  function Numbers(from: nat, sent: seq<bool>): seq<nat>
    decreases |sent|
  {
    if sent == [] then [] else (if sent[0] then [from] else []) + Numbers(from + 1, sent[1..])
  }

  /** One host call, seen from inside the cell: only the ids have moved on. */
  lemma {:induction false} CallRuns(p: Pipe) returns (taken: Pipe)
    requires p.host == Reading && p.worker == InCell && p.toWorker == [] && p.toHost == []
    ensures From(p, OneCall()) == Some(taken)
    ensures taken == p.(nextId := p.nextId + 1, ids := p.ids + [p.nextId])
  {
    var id := p.nextId;
    var asked := p.(worker := AwaitReply(id), nextId := id + 1, ids := p.ids + [id], toHost := [Request(id)]);
    assert p.toHost + [Request(id)] == [Request(id)] && asked.toHost[1..] == [];
    var read := asked.(host := Serving(id), toHost := []);
    var replied := read.(host := Reading, toWorker := [Reply(id)]);
    assert read.toWorker + [Reply(id)] == [Reply(id)] && replied.toWorker[1..] == [];
    taken := replied.(worker := InCell, toWorker := []);
    FromOne(p, WorkerAsks, asked, [HostReads] + ([HostReplies] + ([WorkerTakes] + [])));
    FromOne(asked, HostReads, read, [HostReplies] + ([WorkerTakes] + []));
    FromOne(read, HostReplies, replied, [WorkerTakes] + []);
    FromOne(replied, WorkerTakes, taken, []);
  }

  lemma {:induction false} CellReports(p: Pipe) returns (q: Pipe)
    requires p.host == Reading && p.worker == InCell && p.toWorker == [] && p.toHost == []
    ensures From(p, [WorkerReports] + ([HostReads] + [])) == Some(q)
    ensures q == p.(host := Ready, worker := Idle, results := p.results + 1)
  {
    var reported := p.(worker := Idle, toHost := [Outcome]);
    assert p.toHost + [Outcome] == [Outcome] && reported.toHost[1..] == [];
    q := reported.(host := Ready, toHost := [], results := p.results + 1);
    FromOne(p, WorkerReports, reported, [HostReads] + []);
    FromOne(reported, HostReads, q, []);
  }

  lemma {:induction false} NumbersFront(ids: seq<nat>, from: nat, sent: seq<bool>)
    ensures ids + Numbers(from, sent) ==
      if sent == [] then ids
      else if sent[0] then ids + [from] + Numbers(from + 1, sent[1..])
      else ids + Numbers(from + 1, sent[1..])
  {
  }

  lemma {:induction false} InsideRuns(p: Pipe, sent: seq<bool>) returns (q: Pipe)
    requires p.host == Reading && p.worker == InCell && p.toWorker == [] && p.toHost == []
    ensures From(p, Inside(sent)) == Some(q)
    ensures q == p.(host := Ready, worker := Idle, results := p.results + 1, nextId := p.nextId + |sent|,
                    ids := p.ids + Numbers(p.nextId, sent))
    decreases |sent|
  {
    NumbersFront(p.ids, p.nextId, sent);
    if sent == [] {
      q := CellReports(p);
    } else if sent[0] {
      var taken := CallRuns(p);
      q := InsideRuns(taken, sent[1..]);
      FromConcat(p, OneCall(), taken, Inside(sent[1..]));
    } else {
      var failed := p.(nextId := p.nextId + 1);
      q := InsideRuns(failed, sent[1..]);
      FromOne(p, WorkerCannotAsk, failed, Inside(sent[1..]));
    }
  }

  /**
   * From between two cells any cell runs to its result: the host calls that can be sent get their numbers in
   * order, nothing stays in flight, and one cell more is begun and answered.
   */
  lemma {:induction false} CellCompletes(p: Pipe, sent: seq<bool>)
    requires p.host == Ready && p.worker == Idle && Sound(p)
    ensures From(p, CellOf(sent)) ==
      Some(p.(executes := p.executes + 1, results := p.results + 1, nextId := p.nextId + |sent|,
              ids := p.ids + Numbers(p.nextId, sent)))
  {
    var begun := p.(host := Reading, toWorker := [Execute], executes := p.executes + 1);
    assert p.toWorker + [Execute] == [Execute] && begun.toWorker[1..] == [];
    var inside := begun.(worker := InCell, toWorker := []);
    FromOne(p, HostExecutes, begun, [WorkerTakes] + Inside(sent));
    FromOne(begun, WorkerTakes, inside, Inside(sent));
    var last := InsideRuns(inside, sent);
  }

  /** Whenever the worker dies within a cell, the host can close by force, which ends that cell and no other. */
  lemma {:induction false} DeathCloses(p: Pipe)
    requires (p.host == Reading || p.host.Serving?) && p.worker != Gone
    ensures From(p, [WorkerDies] + ([HostGivesUp] + [])) ==
      Some(p.(worker := Gone, host := Closed, forced := p.forced + 1))
  {
    var dead := p.(worker := Gone);
    FromOne(p, WorkerDies, dead, [HostGivesUp] + []);
    FromOne(dead, HostGivesUp, dead.(host := Closed, forced := p.forced + 1), []);
  }

  predicate HostMoves(p: Pipe) { Step(p, HostReads).Some? || Step(p, HostReplies).Some? }

  predicate WorkerMoves(p: Pipe) {
    Step(p, WorkerTakes).Some? || Step(p, WorkerAsks).Some? || Step(p, WorkerReports).Some?
  }

  /** During a cell exactly one side may move; between cells neither does. */
  lemma {:induction false} ExactlyOneSideMoves(moves: seq<Move>)
    requires Run(moves).Some?
    ensures var p := Run(moves).value;
      p.host != Closed && p.worker != Gone ==>
        && (p.host == Ready ==> !HostMoves(p) && !WorkerMoves(p))
        && (p.host != Ready ==> HostMoves(p) != WorkerMoves(p))
  {
    AlwaysInStep(moves);
  }

  // ----- Every cell ends -----

  /** The moves left before the host is ready or closed and the worker at rest, if nothing more is asked or begun. */
  function Effort(p: Pipe): nat {
    if p.worker == Gone then
      if p.host == Reading then 1 + |p.toHost| else if p.host.Serving? then 1 else 0
    else if p.host == Closed then 1
    else if p.host == Ready then 2
    else if p.host.Serving? then 6
    else if p.worker == InCell then 4
    else if p.worker == Idle then if p.toHost == [] then 5 else 3
    else if p.toHost == [] then 5
    else 7
  }

  function Asks(moves: seq<Move>): nat {
    if moves == [] then 0 else Asks(moves[..|moves| - 1]) + if moves[|moves| - 1] == WorkerAsks then 1 else 0
  }

  function FailedAsks(moves: seq<Move>): nat {
    if moves == [] then 0
    else FailedAsks(moves[..|moves| - 1]) + if moves[|moves| - 1] == WorkerCannotAsk then 1 else 0
  }

  lemma {:induction false} StepEffort(p: Pipe, m: Move)
    requires Sound(p) && Step(p, m).Some? && m != HostExecutes
    ensures Effort(Step(p, m).value) + 1
         <= Effort(p) + (if m == WorkerAsks then 4 else 0) + (if m == WorkerCannotAsk then 1 else 0)
  {
  }

  lemma {:induction false} RunOneMore(moves: seq<Move>, more: seq<Move>)
    requires more != [] && Run(moves + more).Some?
    ensures var n := |more| - 1;
      var before := Run(moves + more[..n]);
      before.Some? && Sound(before.value) && Run(moves + more) == Step(before.value, more[n])
  {
    var n := |more| - 1;
    assert (moves + more)[..|moves + more| - 1] == moves + more[..n];
    AlwaysInStep(moves + more[..n]);
  }

  /**
   * Until the next cell is begun a run has at most seven moves, four more for each request and one for each
   * failed one.
   */
  lemma {:induction false} CellsEnd(moves: seq<Move>, more: seq<Move>) returns (p: Pipe)
    requires Run(moves).Some? && Run(moves + more).Some? && forall i :: 0 <= i < |more| ==> more[i] != HostExecutes
    ensures Run(moves + more) == Some(p)
    ensures |more| + Effort(p) <= Effort(Run(moves).value) + 4 * Asks(more) + FailedAsks(more)
    ensures Effort(Run(moves).value) <= 7
  {
    if more == [] {
      assert moves + more == moves;
      AlwaysInStep(moves);
      p := Run(moves).value;
    } else {
      var n := |more| - 1;
      RunOneMore(moves, more);
      var before := CellsEnd(moves, more[..n]);
      StepEffort(before, more[n]);
      p := Run(moves + more).value;
    }
  }

  /** The moves the host makes by itself within a cell. */
  predicate HostAlone(m: Move) { m.HostReads? || m.HostReplies? || m.HostGivesUp? }

  lemma {:induction false} GoneStep(p: Pipe, m: Move) returns (q: Pipe)
    requires Sound(p) && p.worker == Gone && Step(p, m).Some?
    ensures Step(p, m) == Some(q) && q.worker == Gone && HostAlone(m)
  {
    q := Step(p, m).value;
  }

  lemma {:induction false} GoneBeginsNothing(moves: seq<Move>, more: seq<Move>) returns (p: Pipe)
    requires Run(moves).Some? && Run(moves).value.worker == Gone && Run(moves + more).Some?
    ensures Run(moves + more) == Some(p) && p.worker == Gone
    ensures forall i :: 0 <= i < |more| ==> HostAlone(more[i])
  {
    if more == [] {
      assert moves + more == moves;
      p := Run(moves).value;
    } else {
      RunOneMore(moves, more);
      var before := GoneBeginsNothing(moves, more[..|more| - 1]);
      p := GoneStep(before, more[|more| - 1]);
    }
  }

  /**
   * A dead worker cannot trap the host: its cell ends, by a result on its way or by a forced close, in two
   * moves at most.
   */
  lemma {:induction false} HostIsNeverTrapped(moves: seq<Move>, more: seq<Move>)
    requires Run(moves).Some? && Run(moves).value.worker == Gone && Run(moves + more).Some?
    ensures |more| <= 2
    ensures var p := Run(moves + more).value;
      |more| == 2 || (forall m :: Step(p, m).None?) ==> p.host == Ready || p.host == Closed
  {
    var gone := GoneBeginsNothing(moves, more);
    assert forall i :: 0 <= i < |more| ==> HostAlone(more[i]);
    AskNothing(more);
    AlwaysInStep(moves);
    AlwaysInStep(moves + more);
    var p := CellsEnd(moves, more);
    assert p.host == Reading || p.host.Serving? ==> Step(p, HostGivesUp).Some?;
  }

  lemma {:induction false} AskNothing(moves: seq<Move>)
    requires forall i :: 0 <= i < |moves| ==> moves[i] != WorkerAsks && moves[i] != WorkerCannotAsk
    ensures Asks(moves) == 0 && FailedAsks(moves) == 0
  {
    if moves != [] {
      AskNothing(moves[..|moves| - 1]);
    }
  }

  /** After a forced close nothing is begun and nothing is answered any more. */
  lemma {:induction false} ClosedStaysClosed(moves: seq<Move>, more: seq<Move>)
    requires Run(moves).Some? && Run(moves).value.host == Closed && Run(moves + more).Some?
    ensures Run(moves + more).value.host == Closed
    ensures Run(moves + more).value.executes == Run(moves).value.executes
    ensures Run(moves + more).value.results == Run(moves).value.results
    ensures Run(moves + more).value.ids == Run(moves).value.ids
  {
    if more == [] {
      assert moves + more == moves;
    } else {
      assert (moves + more)[..|moves + more| - 1] == moves + more[..|more| - 1];
      ClosedStaysClosed(moves, more[..|more| - 1]);
    }
  }
}

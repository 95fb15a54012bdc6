/** Whole runs of the job queue: jobs added, passes, and passes that die at any point. */
module QueueRuns {
  import opened Common
  import opened JobQueue

  // ----- The moves of a pass -----

  /** A file moves by writing the new copy and then unlinking the old one; a launch starts the process first. */
  datatype Move = Collect(file: string) | Launch(file: string)

  predicate CanMove(d: Dirs, m: Move) {
    match m
    case Collect(f) => f in d.running
    case Launch(f) => f in d.pending && d.pending[f].Some?
  }

  function Written(d: Dirs, m: Move): Dirs {
    if !CanMove(d, m) then d
    else
      match m
      case Collect(f) => d.(done := d.done[f := d.running[f]])
      case Launch(f) => d.(running := d.running[f := d.pending[f].value])
  }

  function Moved(d: Dirs, m: Move): Dirs {
    if !CanMove(d, m) then d
    else
      match m
      case Collect(f) => Written(d, m).(running := d.running - {f})
      case Launch(f) => Written(d, m).(pending := d.pending - {f})
  }

  function MovedAll(d: Dirs, moves: seq<Move>): Dirs {
    if moves == [] then d else Moved(MovedAll(d, moves[..|moves| - 1]), moves[|moves| - 1])
  }

  function Collects(alive: set<string>, files: seq<string>): seq<Move> {
    if files == [] then []
    else
      var n := |files| - 1;
      Collects(alive, files[..n]) + if files[n] in alive then [] else [Collect(files[n])]
  }

  function Launches(started: seq<string>): seq<Move> {
    seq(|started|, i requires 0 <= i < |started| => Launch(started[i]))
  }

  /** The moves of one pass: the exited jobs of the running directory in its order, then the starts. */
  function MovesOf(d: Dirs, p: Pass, order: seq<string>): seq<Move> {
    Collects(p.alive, order) + Launches(Dispatched(d, p).started)
  }

  ghost predicate Listed(d: Dirs, p: Pass, order: seq<string>) {
    Lists(p.listing, d.pending.Keys) && Lists(order, d.running.Keys)
  }

  lemma {:induction false} MovedConcat(d: Dirs, a: seq<Move>, b: seq<Move>)
    ensures MovedAll(d, a + b) == MovedAll(MovedAll(d, a), b)
  {
    if b == [] {
      assert a + b == a;
    } else {
      assert (a + b)[..|a + b| - 1] == a + b[..|b| - 1];
      MovedConcat(d, a, b[..|b| - 1]);
    }
  }

  lemma {:induction false} MovedSnoc(d: Dirs, moves: seq<Move>, m: Move)
    ensures MovedAll(d, moves + [m]) == Moved(MovedAll(d, moves), m)
  {
    assert (moves + [m])[..|moves|] == moves;
  }

  function SetOf(files: seq<string>): set<string> { set i | 0 <= i < |files| :: files[i] }

  lemma {:induction false} SetOfSnoc(files: seq<string>)
    requires files != [] && forall i, j :: 0 <= i < j < |files| ==> files[i] != files[j]
    ensures var n := |files| - 1; SetOf(files) == SetOf(files[..n]) + {files[n]} && files[n] !in SetOf(files[..n])
  {
    var n := |files| - 1;
    forall i | 0 <= i < n
      ensures files[i] in SetOf(files[..n])
    {
      assert files[..n][i] == files[i];
    }
  }

  ghost predicate DistinctRunning(d: Dirs, files: seq<string>) {
    && (forall i :: 0 <= i < |files| ==> files[i] in d.running)
    && (forall i, j :: 0 <= i < j < |files| ==> files[i] != files[j])
  }

  lemma {:induction false} CollectsReap(d: Dirs, alive: set<string>, files: seq<string>)
    requires DistinctRunning(d, files)
    ensures MovedAll(d, Collects(alive, files)) == ReapedAmong(d, alive, SetOf(files))
  {
    if files == [] {
      ReapNone(d, alive);
      assert SetOf(files) == {};
    } else {
      var n := |files| - 1;
      var f, earlier := files[n], files[..n];
      CollectsReap(d, alive, earlier);
      SetOfSnoc(files);
      ReapOne(d, alive, SetOf(earlier), f);
      if f in alive {
        assert Collects(alive, files) == Collects(alive, earlier);
      } else {
        MovedSnoc(d, Collects(alive, earlier), Collect(f));
      }
    }
  }

  /** The first `k` moves that collect are those for some first `m` files, and the next is for the next dead file. */
  lemma {:induction false} CollectsSplit(alive: set<string>, files: seq<string>, k: nat) returns (m: nat)
    requires k <= |Collects(alive, files)|
    ensures m <= |files| && Collects(alive, files)[..k] == Collects(alive, files[..m])
    ensures k < |Collects(alive, files)| ==>
      m < |files| && files[m] !in alive && Collects(alive, files)[k] == Collect(files[m])
  {
    if k == |Collects(alive, files)| {
      m := |files|;
      assert files[..m] == files;
      assert Collects(alive, files)[..k] == Collects(alive, files);
    } else {
      var n := |files| - 1;
      if k < |Collects(alive, files[..n])| {
        m := CollectsSplit(alive, files[..n], k);
        assert files[..n][..m] == files[..m];
        assert Collects(alive, files)[..k] == Collects(alive, files[..n])[..k];
      } else {
        m := n;
        assert Collects(alive, files)[..k] == Collects(alive, files[..n]);
      }
    }
  }

  lemma {:induction false} LaunchOne(d: Dirs, r: Round, t: Tally, f: string, j: Job)
    requires MovedAll(d, Launches(t.started)) == t.dirs && f in t.dirs.pending && t.dirs.pending[f] == Some(j)
    ensures var next := Consider(t, r, f, j); MovedAll(d, Launches(next.started)) == next.dirs
  {
    assert Launches(t.started + [f]) == Launches(t.started) + [Launch(f)];
    MovedSnoc(d, Launches(t.started), Launch(f));
  }

  lemma {:induction false} LaunchesStart(d: Dirs, r: Round, n: nat) returns (t: Tally)
    requires GoodLine(d.pending, r.queue) && n <= |r.queue|
    ensures t == At(d, r, n) && MovedAll(d, Launches(t.started)) == t.dirs
  {
    if n == 0 {
      t := Opening(d, r.slots);
    } else {
      var before := LaunchesStart(d, r, n - 1);
      var same := FilesKept(d, r, n - 1);
      LaunchOne(d, r, before, r.queue[n - 1].0, r.queue[n - 1].1);
      t := Consider(before, r, r.queue[n - 1].0, r.queue[n - 1].1);
    }
  }

  /** The first `k` starts of a round are those of its first `m` candidates, and the next is the next candidate's. */
  lemma {:induction false} StartsSplit(d: Dirs, r: Round, n: nat, k: nat) returns (m: nat)
    requires n <= |r.queue| && k <= |At(d, r, n).started|
    ensures m <= n && At(d, r, n).started[..k] == At(d, r, m).started
    ensures k < |At(d, r, n).started| ==>
      m < n && LetIn(d, r, m) && At(d, r, n).started[k] == r.queue[m].0
  {
    if k == |At(d, r, n).started| {
      m := n;
      assert At(d, r, n).started[..k] == At(d, r, n).started;
    } else if k < |At(d, r, n - 1).started| {
      m := StartsSplit(d, r, n - 1, k);
      assert At(d, r, n).started[..k] == At(d, r, n - 1).started[..k];
    } else {
      m := n - 1;
      assert At(d, r, n).started[..k] == At(d, r, n - 1).started;
    }
  }

  /** The moves add up to the pass. */
  lemma {:induction false} MovesMakeTheDispatch(d: Dirs, p: Pass, order: seq<string>)
    requires Listed(d, p, order)
    ensures MovedAll(d, Collects(p.alive, order)) == Reaped(d, p.alive)
    ensures MovedAll(d, MovesOf(d, p, order)) == Dispatched(d, p).dirs
  {
    var s, r := Reaped(d, p.alive), RoundOf(d, p);
    CollectsReap(d, p.alive, order);
    assert SetOf(order) == d.running.Keys;
    LineIsGood(s, p.listing);
    var t := LaunchesStart(s, r, |r.queue|);
    MovedConcat(d, Collects(p.alive, order), Launches(Dispatched(d, p).started));
  }

  // ----- A death at any point -----

  /** Between two moves, after the process of a launch has started, or between a write and its unlink. */
  datatype Stage = Between | Started | Copied

  /** A pass that dies after `done` moves, at a stage of the next one. */
  datatype Death = Death(done: nat, stage: Stage)

  ghost predicate CanDie(d: Dirs, p: Pass, order: seq<string>, x: Death) {
    && Listed(d, p, order) && x.done <= |MovesOf(d, p, order)|
    && (x.stage != Between ==> x.done < |MovesOf(d, p, order)|)
    && (x.stage == Started ==> MovesOf(d, p, order)[x.done].Launch?)
  }

  /** What a dead pass leaves in the directories. */
  function Left(d: Dirs, p: Pass, order: seq<string>, x: Death): Dirs
    requires x.done <= |MovesOf(d, p, order)|
  {
    var moves := MovesOf(d, p, order);
    var now := MovedAll(d, moves[..x.done]);
    if x.stage == Copied && x.done < |moves| then Written(now, moves[x.done]) else now
  }

  /** The job whose launch the death interrupted, its process started. */
  function Torn(d: Dirs, p: Pass, order: seq<string>, x: Death): Option<string> {
    var moves := MovesOf(d, p, order);
    if x.stage != Between && x.done < |moves| && moves[x.done].Launch? then Some(moves[x.done].file) else None
  }

  /** The jobs whose processes the dead pass started. */
  ghost predicate Spawned(d: Dirs, p: Pass, order: seq<string>, x: Death, f: string) {
    var moves := MovesOf(d, p, order);
    Torn(d, p, order, x) == Some(f) || exists i :: 0 <= i < x.done && i < |moves| && moves[i] == Launch(f)
  }

  /** A pass that dies while it collects stands before some file of the running directory. */
  lemma {:induction false} DeadCollecting(d: Dirs, p: Pass, order: seq<string>, k: nat) returns (m: nat)
    requires Listed(d, p, order) && k < |Collects(p.alive, order)|
    ensures var moves := MovesOf(d, p, order);
      && m < |order| && k < |moves| && moves[k] == Collect(order[m]) && order[m] !in p.alive
      && MovedAll(d, moves[..k]) == ReapedAmong(d, p.alive, SetOf(order[..m]))
      && forall i :: 0 <= i < k ==> moves[i].Collect?
  {
    var collects := Collects(p.alive, order);
    m := CollectsSplit(p.alive, order, k);
    assert MovesOf(d, p, order)[..k] == collects[..k];
    CollectsReap(d, p.alive, order[..m]);
    OnlyCollects(p.alive, order);
  }

  lemma {:induction false} OnlyCollects(alive: set<string>, files: seq<string>)
    ensures forall i :: 0 <= i < |Collects(alive, files)| ==> Collects(alive, files)[i].Collect?
  {
    if files != [] {
      OnlyCollects(alive, files[..|files| - 1]);
    }
  }

  lemma {:induction false} SplitMoves(d: Dirs, collects: seq<Move>, started: seq<string>, n: nat)
    requires n <= |started|
    ensures var moves := collects + Launches(started);
      && MovedAll(d, moves[..|collects| + n]) == MovedAll(MovedAll(d, collects), Launches(started[..n]))
      && (n < |started| ==> moves[|collects| + n] == Launch(started[n]))
  {
    assert (collects + Launches(started))[..|collects| + n] == collects + Launches(started[..n]);
    MovedConcat(d, collects, Launches(started[..n]));
  }

  lemma {:induction false} StandsAt(d: Dirs, collects: seq<Move>, s: Dirs, r: Round, started: seq<string>, k: nat)
    returns (m: nat, t: Tally)
    requires GoodLine(s.pending, r.queue) && MovedAll(d, collects) == s && started == At(s, r, |r.queue|).started
    requires |collects| <= k <= |collects| + |started|
    ensures m <= |r.queue| && t == At(s, r, m) && started[..k - |collects|] == t.started
    ensures MovedAll(d, (collects + Launches(started))[..k]) == t.dirs
    ensures k < |collects| + |started| ==>
      m < |r.queue| && LetIn(s, r, m) && (collects + Launches(started))[k] == Launch(r.queue[m].0)
  {
    SplitMoves(d, collects, started, k - |collects|);
    m := StartsSplit(s, r, |r.queue|, k - |collects|);
    t := LaunchesStart(s, r, m);
  }

  /** A pass that dies later stands before some candidate, or at the end of its line. */
  lemma {:induction false} DeadLaunching(d: Dirs, p: Pass, order: seq<string>, k: nat) returns (m: nat, t: Tally)
    requires Listed(d, p, order) && |Collects(p.alive, order)| <= k <= |MovesOf(d, p, order)|
    ensures var s, r := Reaped(d, p.alive), RoundOf(d, p);
      && m <= |r.queue| && t == At(s, r, m)
      && Dispatched(d, p).started[..k - |Collects(p.alive, order)|] == t.started
      && (k < |MovesOf(d, p, order)| ==>
            m < |r.queue| && LetIn(s, r, m) && MovesOf(d, p, order)[k] == Launch(r.queue[m].0))
    ensures MovedAll(d, MovesOf(d, p, order)[..k]) == t.dirs
  {
    var s, r := Reaped(d, p.alive), RoundOf(d, p);
    LineIsGood(s, p.listing);
    MovesMakeTheDispatch(d, p, order);
    m, t := StandsAt(d, Collects(p.alive, order), s, r, Dispatched(d, p).started, k);
  }

  // ----- What a death leaves -----

  ghost predicate Holds(d: Dirs, f: string, j: Job) {
    || (f in d.pending && d.pending[f] == Some(j))
    || (f in d.running && d.running[f] == j)
    || (f in d.done && d.done[f] == j)
  }

  lemma {:induction false} MoveHolds(d: Dirs, m: Move)
    requires Coherent(d)
    ensures Coherent(Written(d, m)) && Coherent(Moved(d, m))
    ensures forall f, j :: Holds(d, f, j) ==> Holds(Written(d, m), f, j) && Holds(Moved(d, m), f, j)
  {
    forall f, j | Holds(d, f, j)
      ensures Holds(Written(d, m), f, j) && Holds(Moved(d, m), f, j)
    {
      MoveHoldsOne(d, m, f, j);
    }
  }

  lemma {:induction false} MoveHoldsOne(d: Dirs, m: Move, f: string, j: Job)
    requires Coherent(d) && Holds(d, f, j)
    ensures Holds(Written(d, m), f, j) && Holds(Moved(d, m), f, j)
  {
  }

  lemma {:induction false} MovesHold(d: Dirs, moves: seq<Move>)
    requires Coherent(d)
    ensures Coherent(MovedAll(d, moves)) && forall f, j :: Holds(d, f, j) ==> Holds(MovedAll(d, moves), f, j)
  {
    if moves != [] {
      MovesHold(d, moves[..|moves| - 1]);
      MoveHolds(MovedAll(d, moves[..|moves| - 1]), moves[|moves| - 1]);
    }
  }

  /** A pass that dies anywhere still holds every job, under one name with one content. */
  lemma {:induction false} CrashLosesNothing(d: Dirs, p: Pass, order: seq<string>, x: Death)
    requires Coherent(d) && CanDie(d, p, order, x)
    ensures Coherent(Left(d, p, order, x)) && forall f, j :: Holds(d, f, j) ==> Holds(Left(d, p, order, x), f, j)
  {
    var moves := MovesOf(d, p, order);
    MovesHold(d, moves[..x.done]);
    if x.done < |moves| {
      MoveHolds(MovedAll(d, moves[..x.done]), moves[x.done]);
    }
  }

  lemma {:induction false} MovesKeepProper(d: Dirs, moves: seq<Move>)
    requires Proper(d)
    ensures Proper(MovedAll(d, moves))
  {
    if moves != [] {
      MovesKeepProper(d, moves[..|moves| - 1]);
    }
  }

  /** From proper directories a death doubles one file at most: the one whose copy was written and not yet unlinked. */
  lemma {:induction false} CrashDoublesOnlyTheCopied(d: Dirs, p: Pass, order: seq<string>, x: Death)
    requires Proper(d) && CanDie(d, p, order, x)
    ensures x.stage != Copied ==> Proper(Left(d, p, order, x))
    ensures x.stage == Copied ==> Proper(Moved(Left(d, p, order, x), MovesOf(d, p, order)[x.done]))
  {
    var moves := MovesOf(d, p, order);
    MovesKeepProper(d, moves[..x.done]);
    if x.stage == Copied {
      MoveAgain(MovedAll(d, moves[..x.done]), moves[x.done]);
      MovedSnoc(d, moves[..x.done], moves[x.done]);
      MovesKeepProper(d, moves[..x.done] + [moves[x.done]]);
    }
  }

  lemma {:induction false} MoveAgain(d: Dirs, m: Move)
    ensures Moved(Written(d, m), m) == Moved(d, m)
  {
    match m
    case Collect(f) =>
      if f in d.running {
        assert d.done[f := d.running[f]][f := d.running[f]] == d.done[f := d.running[f]];
      }
    case Launch(f) =>
      if CanMove(d, m) {
        assert d.running[f := d.pending[f].value][f := d.pending[f].value] == d.running[f := d.pending[f].value];
      }
  }

  /** Jobs that have a process, or had one, when a pass dies. */
  ghost predicate Begun(d: Dirs, p: Pass, order: seq<string>, x: Death, f: string) {
    f in d.running || f in d.done || Spawned(d, p, order, x, f)
  }

  lemma {:induction false} SpawnedMeans(d: Dirs, p: Pass, order: seq<string>, x: Death, t: Tally, f: string)
    requires x.done <= |MovesOf(d, p, order)| && |Collects(p.alive, order)| <= x.done
    requires Dispatched(d, p).started[..x.done - |Collects(p.alive, order)|] == t.started
    ensures Spawned(d, p, order, x, f) <==> f in t.started || Torn(d, p, order, x) == Some(f)
  {
    var moves, c := MovesOf(d, p, order), |Collects(p.alive, order)|;
    OnlyCollects(p.alive, order);
    if f in t.started {
      var i :| 0 <= i < |t.started| && t.started[i] == f;
      assert moves[c + i] == Launch(f);
    }
    if i :| 0 <= i < x.done && i < |moves| && moves[i] == Launch(f) {
      assert t.started[i - c] == f;
    }
  }

  /** A job with a process is still pending after a death exactly when the death tore its launch. */
  lemma {:induction false} OnlyTheTornIsPending(d: Dirs, p: Pass, order: seq<string>, x: Death, f: string)
    requires Proper(d) && CanDie(d, p, order, x)
    ensures Begun(d, p, order, x, f) && f in Left(d, p, order, x).pending <==> Torn(d, p, order, x) == Some(f)
  {
    if x.done < |Collects(p.alive, order)| {
      NoneBegunCollecting(d, p, order, x, f);
    } else {
      var t := LeftLaunching(d, p, order, x);
      SpawnedMeans(d, p, order, x, t, f);
    }
  }

  lemma {:induction false} NoneBegunCollecting(d: Dirs, p: Pass, order: seq<string>, x: Death, f: string)
    requires Proper(d) && CanDie(d, p, order, x) && x.done < |Collects(p.alive, order)|
    ensures Torn(d, p, order, x).None? && !Spawned(d, p, order, x, f)
    ensures f in Left(d, p, order, x).pending ==> f in d.pending
  {
    var m := DeadCollecting(d, p, order, x.done);
  }

  /** The pending directory a pass leaves that dies while it launches: what it started is gone from there. */
  lemma {:induction false} LeftLaunching(d: Dirs, p: Pass, order: seq<string>, x: Death) returns (t: Tally)
    requires CanDie(d, p, order, x) && |Collects(p.alive, order)| <= x.done
    ensures Dispatched(d, p).started[..x.done - |Collects(p.alive, order)|] == t.started
    ensures Left(d, p, order, x).pending == t.dirs.pending
    ensures forall f :: f in t.started <==> f in d.pending && f !in t.dirs.pending
    ensures forall f :: f in t.dirs.pending ==> f in d.pending
    ensures Torn(d, p, order, x).Some? ==> Torn(d, p, order, x).value in t.dirs.pending
  {
    var m;
    m, t := DeadLaunching(d, p, order, x.done);
    LineIsGood(Reaped(d, p.alive), p.listing);
    var same := FilesKept(Reaped(d, p.alive), RoundOf(d, p), m);
  }

  /** The job's turn comes in the line of a pass, its lane has room then and its prerequisites are done. */
  ghost predicate MayStart(d: Dirs, p: Pass, f: string) {
    var s, r := Reaped(d, p.alive), RoundOf(d, p);
    exists k :: 0 <= k < |r.queue| && r.queue[k].0 == f && Admitted(s, r, k)
  }

  /** The pass after a death starts a job a second time exactly when the death tore its launch and it may start. */
  lemma {:induction false} RestartsExactly(d: Dirs, p: Pass, order: seq<string>, x: Death, next: Pass, f: string)
    requires Proper(d) && CanDie(d, p, order, x) && Lists(next.listing, Left(d, p, order, x).pending.Keys)
    ensures var left := Left(d, p, order, x);
      Begun(d, p, order, x, f) && f in Dispatched(left, next).started <==>
      Torn(d, p, order, x) == Some(f) && MayStart(left, next, f)
  {
    var left := Left(d, p, order, x);
    OnlyTheTornIsPending(d, p, order, x, f);
    StartsExactly(left, next, f);
    LineIsGood(Reaped(left, next.alive), next.listing);
  }

  /** A pass over a single pending job whose lane has room for one more, when nothing of it runs or is done. */
  lemma {:induction false} SingleStart(d: Dirs, p: Pass, f: string, j: Job)
    requires d.pending == map[f := Some(j)] && p.listing == [f] && j.after == [] && d.running.Keys <= p.alive
    requires j.lane in p.slots ==> |OnLane(d.running, j.lane)| < p.slots[j.lane]
    ensures Reaped(d, p.alive) == d && Dispatched(d, p).started == [f]
  {
    assert Reaped(d, p.alive) == d;
    assert !Full(Opening(d, p.slots), p.slots, j.lane) && !Blocked(NamesOf(d.done), j);
    SingleJob(d, p, f, j);
  }

  /**
   * A job that starts twice: its process outlives a pass that died before unlinking the pending file. With the
   * running copy written it needs room for two, and without it room for one.
   */
  lemma {:induction false} JobStartsTwice(slots: map<string, nat>, f: string, j: Job, stage: Stage)
    requires j.name == f && j.after == [] && stage != Between
    requires j.lane in slots ==> slots[j.lane] > if stage == Copied then 1 else 0
    ensures var d, p, x := Dirs(map[f := Some(j)], map[], map[]), Pass(slots, {}, [f]), Death(0, stage);
      && CanDie(d, p, [], x) && Spawned(d, p, [], x, f)
      && Dispatched(Left(d, p, [], x), Pass(slots, {f}, [f])).started == [f]
  {
    var left := TornStart(slots, f, j, stage);
    assert OnLane(left.running, j.lane) == if stage == Copied then {f} else {};
    SingleStart(left, Pass(slots, {f}, [f]), f, j);
  }

  lemma {:induction false} TornStart(slots: map<string, nat>, f: string, j: Job, stage: Stage) returns (left: Dirs)
    requires j.after == [] && stage != Between && (j.lane in slots ==> slots[j.lane] > 0)
    ensures var d, p, x := Dirs(map[f := Some(j)], map[], map[]), Pass(slots, {}, [f]), Death(0, stage);
      CanDie(d, p, [], x) && Spawned(d, p, [], x, f) && left == Left(d, p, [], x)
    ensures left == Dirs(map[f := Some(j)], if stage == Copied then map[f := j] else map[], map[])
  {
    var d, p, x := Dirs(map[f := Some(j)], map[], map[]), Pass(slots, {}, [f]), Death(0, stage);
    assert OnLane(d.running, j.lane) == {};
    SingleStart(d, p, f, j);
    assert MovesOf(d, p, []) == [Launch(f)];
    assert MovesOf(d, p, [])[..0] == [];
    left := Left(d, p, [], x);
  }

  // ----- Whole runs -----

  /** A job added, a file that does not parse dropped among the pending ones, a pass, or a pass that dies. */
  datatype Event =
    | Submit(job: Job)
    | Stray(file: string)
    | Complete(pass: Pass)
    | Die(pass: Pass, order: seq<string>, death: Death)

  function After(d: Dirs, e: Event): Dirs {
    match e
    case Submit(j) => d.(pending := d.pending[j.name := Some(j)])
    case Stray(f) => d.(pending := d.pending[f := None])
    case Complete(p) => Dispatched(d, p).dirs
    case Die(p, order, x) => if x.done <= |MovesOf(d, p, order)| then Left(d, p, order, x) else d
  }

  function RunOf(events: seq<Event>): Dirs {
    if events == [] then Dirs(map[], map[], map[]) else After(RunOf(events[..|events| - 1]), events[|events| - 1])
  }

  ghost predicate CanHappen(d: Dirs, slots: map<string, nat>, e: Event) {
    match e
    case Submit(_) => true
    case Stray(_) => true
    case Complete(p) => p.slots == slots && Lists(p.listing, d.pending.Keys)
    case Die(p, order, x) => p.slots == slots && CanDie(d, p, order, x)
  }

  /** Capacities are fixed, and listings name the files that are there. */
  ghost predicate Possible(slots: map<string, nat>, events: seq<Event>) {
    events != [] ==>
      && Possible(slots, events[..|events| - 1])
      && CanHappen(RunOf(events[..|events| - 1]), slots, events[|events| - 1])
  }

  function AddedBy(e: Event): set<string> {
    match e
    case Submit(j) => {j.name}
    case Stray(f) => {f}
    case _ => {}
  }

  function Added(events: seq<Event>): set<string> {
    if events == [] then {} else Added(events[..|events| - 1]) + AddedBy(events[|events| - 1])
  }

  /** Everything that has started had all its prerequisites done. */
  ghost predicate PrerequisitesDone(d: Dirs) {
    && (forall f, i :: f in d.running && 0 <= i < |d.running[f].after| ==> d.running[f].after[i] in d.done)
    && (forall f, i :: f in d.done && 0 <= i < |d.done[f].after| ==> d.done[f].after[i] in d.done)
  }

  /** Jobs filed under their names, every started job's prerequisites done, and each listed lane within its capacity. */
  ghost predicate Safe(d: Dirs, slots: map<string, nat>) {
    && Named(d) && PrerequisitesDone(d)
    && forall lane :: lane in slots ==> |OnLane(d.running, lane)| <= slots[lane]
  }

  lemma {:induction false} ReapKeepsSafe(d: Dirs, slots: map<string, nat>, alive: set<string>, files: set<string>)
    requires Safe(d, slots) && files <= d.running.Keys
    ensures Safe(ReapedAmong(d, alive, files), slots)
  {
    var r := ReapedAmong(d, alive, files);
    ReapKeeps(d, alive, files);
    forall lane | lane in slots
      ensures |OnLane(r.running, lane)| <= slots[lane]
    {
      SubsetSize(OnLane(r.running, lane), OnLane(d.running, lane));
    }
  }

  lemma {:induction false} RoundKeepsSafe(d: Dirs, p: Pass, n: nat) returns (t: Tally)
    requires Safe(d, p.slots) && Lists(p.listing, d.pending.Keys) && n <= |RoundOf(d, p).queue|
    ensures t == At(Reaped(d, p.alive), RoundOf(d, p), n) && Safe(t.dirs, p.slots) && Files(t.dirs) == Files(d)
  {
    var s, r := Reaped(d, p.alive), RoundOf(d, p);
    ReapKeeps(d, p.alive, d.running.Keys);
    ReapKeepsSafe(d, p.slots, p.alive, d.running.Keys);
    LineIsGood(s, p.listing);
    t := FilesKept(s, r, n);
    KeptMeans(s, r.queue, t, n);
    forall f, i | f in t.dirs.running && 0 <= i < |t.dirs.running[f].after|
      ensures t.dirs.running[f].after[i] in t.dirs.done
    {
      assert Origin(s, t, f);
      if f in t.started {
        StartsAreReady(d, p, n, f);
      }
    }
    forall lane | lane in p.slots
      ensures |OnLane(t.dirs.running, lane)| <= p.slots[lane]
    {
      CapacityHolds(d, p, lane, n);
    }
  }

  /** An unlinked copy more changes nothing that is safe. */
  lemma {:induction false} CopyKeepsSafe(d: Dirs, slots: map<string, nat>, f: string)
    requires Safe(d, slots) && f in d.running
    ensures var now := Written(d, Collect(f)); Safe(now, slots) && Files(now) == Files(d)
  {
    assert Files(Written(d, Collect(f))) == Files(d);
  }

  lemma {:induction false} DeadCollectingSafe(d: Dirs, p: Pass, order: seq<string>, x: Death)
    requires Safe(d, p.slots) && CanDie(d, p, order, x) && x.done < |Collects(p.alive, order)|
    ensures Safe(Left(d, p, order, x), p.slots) && Files(Left(d, p, order, x)) == Files(d)
  {
    var m := DeadCollecting(d, p, order, x.done);
    NotYetReaped(d, p.alive, order, m);
    ReapKeeps(d, p.alive, SetOf(order[..m]));
    ReapKeepsSafe(d, p.slots, p.alive, SetOf(order[..m]));
    CopyKeepsSafe(ReapedAmong(d, p.alive, SetOf(order[..m])), p.slots, order[m]);
  }

  lemma {:induction false} DeadLaunchingSafe(d: Dirs, p: Pass, order: seq<string>, x: Death)
    requires Safe(d, p.slots) && CanDie(d, p, order, x) && |Collects(p.alive, order)| <= x.done
    ensures Safe(Left(d, p, order, x), p.slots) && Files(Left(d, p, order, x)) == Files(d)
  {
    var m, t := DeadLaunching(d, p, order, x.done);
    var same := RoundKeepsSafe(d, p, m);
    if x.stage == Copied {
      CopyInRoundSafe(d, p, m, t);
    }
  }

  lemma {:induction false} CopyInRoundSafe(d: Dirs, p: Pass, m: nat, t: Tally)
    requires Safe(d, p.slots) && Lists(p.listing, d.pending.Keys) && m < |RoundOf(d, p).queue|
    requires t == At(Reaped(d, p.alive), RoundOf(d, p), m) && LetIn(Reaped(d, p.alive), RoundOf(d, p), m)
    requires Safe(t.dirs, p.slots)
    ensures var now := Written(t.dirs, Launch(RoundOf(d, p).queue[m].0));
      Safe(now, p.slots) && Files(now) == Files(t.dirs)
  {
    var s, r := Reaped(d, p.alive), RoundOf(d, p);
    var next := RoundKeepsSafe(d, p, m + 1);
    LineIsGood(s, p.listing);
    var kept := FilesKept(s, r, m);
    CopiedLaunch(t, r, r.queue[m].0, r.queue[m].1, next, p.slots);
  }

  lemma {:induction false} NotYetReaped(d: Dirs, alive: set<string>, order: seq<string>, m: nat)
    requires Lists(order, d.running.Keys) && m < |order|
    ensures order[m] in ReapedAmong(d, alive, SetOf(order[..m])).running && SetOf(order[..m]) <= d.running.Keys
  {
    assert order[m] in order && order[m] !in SetOf(order[..m]);
    forall f | f in SetOf(order[..m])
      ensures f in d.running
    {
      var i :| 0 <= i < m && order[..m][i] == f;
      assert order[i] in order;
    }
  }

  /** A launch whose pending file is not unlinked yet has the next state's running jobs. */
  lemma {:induction false} CopiedLaunch(t: Tally, r: Round, f: string, j: Job, next: Tally, slots: map<string, nat>)
    requires f in t.dirs.pending && t.dirs.pending[f] == Some(j) && next == Consider(t, r, f, j)
    requires !Full(t, r.slots, j.lane) && !Blocked(r.done, j)
    requires Safe(t.dirs, slots) && Safe(next.dirs, slots)
    ensures var now := Written(t.dirs, Launch(f)); Safe(now, slots) && Files(now) == Files(t.dirs)
  {
    var now := Written(t.dirs, Launch(f));
    assert now.running == next.dirs.running && now.done == next.dirs.done;
    assert Files(now) == Files(t.dirs);
  }

  /**
   * Over any run, whatever names are added again and wherever passes die: no name is lost, started jobs had
   * their prerequisites done, and listed lanes stay within capacity.
   */
  lemma {:induction false} RunIsSafe(slots: map<string, nat>, events: seq<Event>)
    requires Possible(slots, events)
    ensures Safe(RunOf(events), slots) && Files(RunOf(events)) == Added(events)
  {
    if events != [] {
      RunIsSafe(slots, events[..|events| - 1]);
      EventKeepsSafe(slots, RunOf(events[..|events| - 1]), events[|events| - 1]);
    }
  }

  lemma {:induction false} EventKeepsSafe(slots: map<string, nat>, d: Dirs, e: Event)
    requires Safe(d, slots) && CanHappen(d, slots, e)
    ensures Safe(After(d, e), slots) && Files(After(d, e)) == Files(d) + AddedBy(e)
  {
    match e
    case Submit(j) => FilingKeepsSafe(d, slots, j.name, Some(j));
    case Stray(f) => FilingKeepsSafe(d, slots, f, None);
    case Complete(p) =>
      var t := RoundKeepsSafe(d, p, |RoundOf(d, p).queue|);
    case Die(p, order, x) =>
      if x.done < |Collects(p.alive, order)| {
        DeadCollectingSafe(d, p, order, x);
      } else {
        DeadLaunchingSafe(d, p, order, x);
      }
  }

  lemma {:induction false} FilingKeepsSafe(d: Dirs, slots: map<string, nat>, f: string, j: Option<Job>)
    requires Safe(d, slots) && (j.Some? ==> j.value.name == f)
    ensures var now := d.(pending := d.pending[f := j]); Safe(now, slots) && Files(now) == Files(d) + {f}
  {
    assert Files(d.(pending := d.pending[f := j])) == Files(d) + {f};
  }

  // ----- Dependency cycles -----

  predicate WaitsOn(j: Job, ring: set<string>) { exists k :: 0 <= k < |j.after| && j.after[k] in ring }

  /** Every job submitted under a name of `ring` waits for a name of `ring`. */
  ghost predicate WaitsWithin(events: seq<Event>, ring: set<string>) {
    forall i :: 0 <= i < |events| && events[i].Submit? && events[i].job.name in ring ==> WaitsOn(events[i].job, ring)
  }

  ghost predicate Stuck(d: Dirs, ring: set<string>) {
    && (d.running.Keys + d.done.Keys) !! ring
    && forall f :: f in d.pending && f in ring && d.pending[f].Some? ==> WaitsOn(d.pending[f].value, ring)
  }

  lemma {:induction false} RoundKeepsStuck(d: Dirs, p: Pass, n: nat, ring: set<string>) returns (t: Tally)
    requires Named(d) && Lists(p.listing, d.pending.Keys) && Stuck(d, ring) && n <= |RoundOf(d, p).queue|
    ensures t == At(Reaped(d, p.alive), RoundOf(d, p), n) && Stuck(t.dirs, ring)
  {
    var s, r := Reaped(d, p.alive), RoundOf(d, p);
    ReapKeeps(d, p.alive, d.running.Keys);
    LineIsGood(s, p.listing);
    t := FilesKept(s, r, n);
    forall f | f in t.dirs.running
      ensures f !in ring
    {
      assert Origin(s, t, f);
      if f in t.started {
        StartsAreReady(d, p, n, f);
      }
    }
  }

  lemma {:induction false} DeathKeepsStuck(d: Dirs, p: Pass, order: seq<string>, x: Death, ring: set<string>)
    requires Named(d) && CanDie(d, p, order, x) && Stuck(d, ring)
    ensures Stuck(Left(d, p, order, x), ring)
  {
    if x.done < |Collects(p.alive, order)| {
      var m := DeadCollecting(d, p, order, x.done);
      NotYetReaped(d, p.alive, order, m);
      ReapKeeps(d, p.alive, SetOf(order[..m]));
    } else {
      var m, t := DeadLaunching(d, p, order, x.done);
      var same := RoundKeepsStuck(d, p, m, ring);
      if x.stage == Copied {
        CopyInRoundStuck(d, p, m, t, ring);
      }
    }
  }

  lemma {:induction false} CopyInRoundStuck(d: Dirs, p: Pass, m: nat, t: Tally, ring: set<string>)
    requires Named(d) && Lists(p.listing, d.pending.Keys) && Stuck(d, ring) && Stuck(t.dirs, ring)
    requires m < |RoundOf(d, p).queue| && t == At(Reaped(d, p.alive), RoundOf(d, p), m)
    requires LetIn(Reaped(d, p.alive), RoundOf(d, p), m)
    ensures Stuck(Written(t.dirs, Launch(RoundOf(d, p).queue[m].0)), ring)
  {
    var r := RoundOf(d, p);
    var next := RoundKeepsStuck(d, p, m + 1, ring);
    assert next == Consider(t, r, r.queue[m].0, r.queue[m].1);
    assert r.queue[m].0 in next.dirs.running;
  }

  /** Jobs on a dependency cycle, or behind one, never start in any run, wherever passes die. */
  lemma {:induction false} CyclesNeverStart(slots: map<string, nat>, events: seq<Event>, ring: set<string>)
    requires Possible(slots, events) && WaitsWithin(events, ring)
    ensures Stuck(RunOf(events), ring)
  {
    if events != [] {
      var n := |events| - 1;
      assert forall i :: 0 <= i < n ==> events[..n][i] == events[i];
      CyclesNeverStart(slots, events[..n], ring);
      RunIsSafe(slots, events[..n]);
      match events[n]
      case Submit(_) =>
      case Stray(_) =>
      case Complete(p) =>
        var t := RoundKeepsStuck(RunOf(events[..n]), p, |RoundOf(RunOf(events[..n]), p).queue|, ring);
      case Die(p, order, x) => DeathKeepsStuck(RunOf(events[..n]), p, order, x, ring);
    }
  }

  // ----- How often a job starts -----

  /** No name is added twice. */
  ghost predicate Unique(events: seq<Event>) {
    events != [] ==>
      Unique(events[..|events| - 1]) && AddedBy(events[|events| - 1]) !! Files(RunOf(events[..|events| - 1]))
  }

  ghost predicate Starts(d: Dirs, e: Event, f: string) {
    match e
    case Complete(p) => f in Dispatched(d, p).started
    case Die(p, order, x) => Spawned(d, p, order, x, f)
    case _ => false
  }

  ghost predicate Tears(d: Dirs, e: Event, f: string) { e.Die? && Torn(d, e.pass, e.order, e.death) == Some(f) }

  function One(b: bool): nat { if b then 1 else 0 }

  /** The processes started for a job over a run. */
  ghost function StartsOf(events: seq<Event>, f: string): nat {
    if events == [] then 0
    else
      var n := |events| - 1;
      StartsOf(events[..n], f) + One(Starts(RunOf(events[..n]), events[n], f))
  }

  /** The deaths that tore a launch of the job. */
  ghost function TearsOf(events: seq<Event>, f: string): nat {
    if events == [] then 0
    else
      var n := |events| - 1;
      TearsOf(events[..n], f) + One(Tears(RunOf(events[..n]), events[n], f))
  }

  /** A start takes the job out of the pending directory, unless a death tears it. */
  lemma {:induction false} StartsLeavePending(slots: map<string, nat>, d: Dirs, e: Event, f: string)
    requires CanHappen(d, slots, e) && (e.Complete? || e.Die?)
    ensures Starts(d, e, f) <==> (f in d.pending && f !in After(d, e).pending) || Tears(d, e, f)
    ensures Tears(d, e, f) ==> f in d.pending && f in After(d, e).pending
    ensures f in After(d, e).pending ==> f in d.pending
  {
    match e
    case Complete(p) =>
      var s, r := Reaped(d, p.alive), RoundOf(d, p);
      LineIsGood(s, p.listing);
      var t := FilesKept(s, r, |r.queue|);
    case Die(p, order, x) => DeathLeavesPending(d, p, order, x, f);
  }

  lemma {:induction false} DeathLeavesPending(d: Dirs, p: Pass, order: seq<string>, x: Death, f: string)
    requires CanDie(d, p, order, x)
    ensures var left := Left(d, p, order, x);
      && (Spawned(d, p, order, x, f) <==> (f in d.pending && f !in left.pending) || Torn(d, p, order, x) == Some(f))
      && (Torn(d, p, order, x) == Some(f) ==> f in d.pending && f in left.pending)
      && (f in left.pending ==> f in d.pending)
  {
    if x.done < |Collects(p.alive, order)| {
      var m := DeadCollecting(d, p, order, x.done);
    } else {
      var t := LeftLaunching(d, p, order, x);
      SpawnedMeans(d, p, order, x, t, f);
    }
  }

  /**
   * With unique names a job starts once, and once more for each death that tore its launch; less one while
   * it is pending.
   */
  lemma {:induction false} StartsCounted(slots: map<string, nat>, events: seq<Event>, f: string)
    requires Possible(slots, events) && Unique(events)
    ensures if f in Added(events) then StartsOf(events, f) + One(f in RunOf(events).pending) == 1 + TearsOf(events, f)
            else StartsOf(events, f) == 0 && TearsOf(events, f) == 0
  {
    if events != [] {
      var n := |events| - 1;
      var d, e := RunOf(events[..n]), events[n];
      StartsCounted(slots, events[..n], f);
      RunIsSafe(slots, events[..n]);
      if e.Complete? || e.Die? {
        StartsLeavePending(slots, d, e, f);
      }
    }
  }

  /** With unique names and no torn launch, no job starts twice. */
  lemma {:induction false} NoneStartsTwice(slots: map<string, nat>, events: seq<Event>, f: string)
    requires Possible(slots, events) && Unique(events) && TearsOf(events, f) == 0
    ensures StartsOf(events, f) <= 1
  {
    StartsCounted(slots, events, f);
  }

  /** With unique names every copy of a job is the same job; without deaths each has one copy. */
  lemma {:induction false} UniqueRunIsCoherent(slots: map<string, nat>, events: seq<Event>)
    requires Possible(slots, events) && Unique(events)
    ensures Coherent(RunOf(events))
    ensures (forall i :: 0 <= i < |events| ==> !events[i].Die?) ==> Proper(RunOf(events))
  {
    if events != [] {
      var n := |events| - 1;
      var d := RunOf(events[..n]);
      assert forall i :: 0 <= i < n ==> events[..n][i] == events[i];
      UniqueRunIsCoherent(slots, events[..n]);
      match events[n]
      case Submit(j) => FilingKeepsCoherent(d, j.name, Some(j));
      case Stray(f) => FilingKeepsCoherent(d, f, None);
      case Complete(p) => NothingIsLost(d, p);
      case Die(p, order, x) => CrashLosesNothing(d, p, order, x);
    }
  }

  lemma {:induction false} FilingKeepsCoherent(d: Dirs, f: string, j: Option<Job>)
    requires Coherent(d) && f !in Files(d) && (j.Some? ==> j.value.name == f)
    ensures var now := d.(pending := d.pending[f := j]); Coherent(now) && (Proper(d) ==> Proper(now))
  {
  }
}

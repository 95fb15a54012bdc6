/** The job queue: three directories of job files, a dispatcher, and lanes of bounded capacity. */
module JobQueue {
  import opened Common
  import opened Sorting

  datatype Job = Job(name: string, lane: string, priority: int, after: seq<string>)

  /** Pending files are keyed by file name; None is a file that does not parse. */
  datatype Dirs = Dirs(pending: map<string, Option<Job>>, running: map<string, Job>, done: map<string, Job>)

  function Files(d: Dirs): set<string> { d.pending.Keys + d.running.Keys + d.done.Keys }

  /** What one pass reads: lane capacities, the jobs whose processes live, and the pending directory's listing. */
  datatype Pass = Pass(slots: map<string, nat>, alive: set<string>, listing: seq<string>)

  /** Lane capacities: the built-in table overridden by the slots file when it can be read. */
  function Slots(file: Option<map<string, nat>>): map<string, nat> {
    map["gpu0" := 3, "gpu1" := 4] + if file.Some? then file.value else map[]
  }

  function Capacity(slots: map<string, nat>, lane: string): nat { if lane in slots then slots[lane] else 1 }

  /** A lane takes what the slots file says of it, else what the table does, else one job. */
  lemma {:induction false} CapacityExactly(file: Option<map<string, nat>>, lane: string)
    ensures Capacity(Slots(file), lane) ==
      if file.Some? && lane in file.value then file.value[lane]
      else if lane == "gpu0" then 3
      else if lane == "gpu1" then 4
      else 1
  {
    assert "gpu0"[3] != "gpu1"[3];
  }

  function OnLane(running: map<string, Job>, lane: string): set<string> {
    set f | f in running && running[f].lane == lane
  }

  function NamesOf(jobs: map<string, Job>): set<string> { set f | f in jobs :: jobs[f].name }

  // ----- Collecting exited jobs -----

  /** The directories once the dead jobs among `files` are moved. */
  function ReapedAmong(d: Dirs, alive: set<string>, files: set<string>): Dirs {
    Dirs(d.pending,
         map f | f in d.running && (f in alive || f !in files) :: d.running[f],
         d.done + map f | f in d.running && f !in alive && f in files :: d.running[f])
  }

  function Reaped(d: Dirs, alive: set<string>): Dirs { ReapedAmong(d, alive, d.running.Keys) }

  lemma {:induction false} ReapOne(d: Dirs, alive: set<string>, files: set<string>, f: string)
    requires f !in files && f in d.running
    ensures var now, next := ReapedAmong(d, alive, files), ReapedAmong(d, alive, files + {f});
      if f in alive then next == now
      else f in now.running
           && next == now.(done := now.done[f := now.running[f]], running := now.running - {f})
  {
    var now, next := ReapedAmong(d, alive, files), ReapedAmong(d, alive, files + {f});
    if f in alive {
      assert next.running == now.running && next.done == now.done;
    } else {
      assert next.running == now.running - {f};
      assert next.done == now.done[f := now.running[f]];
    }
  }

  lemma {:induction false} ReapNone(d: Dirs, alive: set<string>)
    ensures ReapedAmong(d, alive, {}) == d
  {
  }

  // ----- One dispatch -----

  datatype Tally = Tally(dirs: Dirs, busy: map<string, nat>, started: seq<string>)

  /** What the candidates are weighed against, and their line, the first to be weighed first. */
  datatype Round = Round(slots: map<string, nat>, done: set<string>, queue: seq<(string, Job)>)

  function Busy(t: Tally, lane: string): nat { if lane in t.busy then t.busy[lane] else 0 }

  predicate Blocked(done: set<string>, j: Job) { exists i :: 0 <= i < |j.after| && j.after[i] !in done }

  predicate Full(t: Tally, slots: map<string, nat>, lane: string) { Busy(t, lane) >= Capacity(slots, lane) }

  function Consider(t: Tally, r: Round, f: string, j: Job): Tally {
    if Full(t, r.slots, j.lane) || Blocked(r.done, j) then t
    else
      Tally(t.dirs.(running := t.dirs.running[f := j], pending := t.dirs.pending - {f}),
            t.busy[j.lane := Busy(t, j.lane) + 1], t.started + [f])
  }

  function ConsiderAll(t: Tally, r: Round, n: nat): Tally
    requires n <= |r.queue|
  {
    if n == 0 then t else Consider(ConsiderAll(t, r, n - 1), r, r.queue[n - 1].0, r.queue[n - 1].1)
  }

  function ByPriority(e: (string, Job)): int { -e.1.priority }

  /** The parseable pending files in the order the directory listed them. */
  function Parsed(pending: map<string, Option<Job>>, listing: seq<string>): seq<(string, Job)> {
    if listing == [] then []
    else
      var n := |listing| - 1;
      var f := listing[n];
      Parsed(pending, listing[..n]) + if f in pending && pending[f].Some? then [(f, pending[f].value)] else []
  }

  function Line(d: Dirs, listing: seq<string>): seq<(string, Job)> {
    SortBy(ByPriority, Parsed(d.pending, listing))
  }

  function Opening(d: Dirs, slots: map<string, nat>): Tally {
    Tally(d, map lane | lane in slots :: |OnLane(d.running, lane)|, [])
  }

  /** After the first `n` candidates of a round that opened with the directories `d`. */
  function At(d: Dirs, r: Round, n: nat): Tally
    requires n <= |r.queue|
  {
    ConsiderAll(Opening(d, r.slots), r, n)
  }

  /** The round of a pass, once exited jobs are collected. */
  function RoundOf(d: Dirs, p: Pass): Round {
    var after := Reaped(d, p.alive);
    Round(p.slots, NamesOf(after.done), Line(after, p.listing))
  }

  /** What one pass does to the directories. */
  function Dispatched(d: Dirs, p: Pass): Tally { At(Reaped(d, p.alive), RoundOf(d, p), |RoundOf(d, p).queue|) }

  class Queue {
    var pending: map<string, Option<Job>>
    var running: map<string, Job>
    var done: map<string, Job>

    ghost function Contents(): Dirs
      reads this
    {
      Dirs(pending, running, done)
    }

    constructor ()
      ensures Contents() == Dirs(map[], map[], map[])
    {
      pending, running, done := map[], map[], map[];
    }

    method Add(j: Job)
      modifies this`pending
      ensures Contents() == old(Contents()).(pending := old(pending)[j.name := Some(j)])
    {
      pending := pending[j.name := Some(j)];
    }

    /** Moves exited jobs to done, writing the new file before removing the old one. */
    method Running(alive: set<string>)
      modifies this`running, this`done
      ensures Contents() == Reaped(old(Contents()), alive)
    {
      ghost var before := Contents();
      var files, seen := running.Keys, {};
      ReapNone(before, alive);
      while files != {}
        invariant files + seen == before.running.Keys && files !! seen
        invariant Contents() == ReapedAmong(before, alive, seen)
        decreases files
      {
        var f :| f in files;
        ReapOne(before, alive, seen, f);
        if f !in alive {
          done := done[f := running[f]];
          running := running - {f};
        }
        files, seen := files - {f}, seen + {f};
      }
    }

    /** One pass of the dispatcher: the highest priority first, each job started if it may be. */
    method DispatchOnce(p: Pass) returns (started: seq<string>)
      modifies this
      ensures var t := Dispatched(old(Contents()), p); Contents() == t.dirs && started == t.started
    {
      Running(p.alive);
      ghost var start := Contents();
      var busy: map<string, nat> := map lane | lane in p.slots :: |OnLane(running, lane)|;
      var round := Round(p.slots, NamesOf(done), SortBy(ByPriority, Parsed(pending, p.listing)));
      started := [];
      for n := 0 to |round.queue|
        invariant Tally(Contents(), busy, started) == At(start, round, n)
      {
        ghost var now := Tally(Contents(), busy, started);
        busy, started := Start(round, round.queue[n].0, round.queue[n].1, busy, started);
        assert Tally(Contents(), busy, started) == Consider(now, round, round.queue[n].0, round.queue[n].1);
      }
    }

    /** Starts one job if its lane has room and its prerequisites are done. */
    method Start(round: Round, f: string, j: Job, busy: map<string, nat>, started: seq<string>)
      returns (counts: map<string, nat>, files: seq<string>)
      modifies this`pending, this`running
      ensures Tally(Contents(), counts, files) == Consider(Tally(old(Contents()), busy, started), round, f, j)
    {
      counts, files := busy, started;
      var used := if j.lane in busy then busy[j.lane] else 0;
      if used < Capacity(round.slots, j.lane) && !Blocked(round.done, j) {
        running := running[f := j];
        pending := pending - {f};
        counts := busy[j.lane := used + 1];
        files := started + [f];
      }
    }
  }

  // ----- The line of candidates -----

  ghost predicate Lists(listing: seq<string>, files: set<string>) {
    && (forall f :: f in listing <==> f in files)
    && (forall i, j :: 0 <= i < j < |listing| ==> listing[i] != listing[j])
  }

  ghost predicate GoodLine(pending: map<string, Option<Job>>, queue: seq<(string, Job)>) {
    && (forall i :: 0 <= i < |queue| ==> queue[i].0 in pending && pending[queue[i].0] == Some(queue[i].1))
    && (forall i, j :: 0 <= i < j < |queue| ==> queue[i].0 != queue[j].0)
  }

  lemma {:induction false} ParsedIsGood(pending: map<string, Option<Job>>, listing: seq<string>)
    requires forall i, j :: 0 <= i < j < |listing| ==> listing[i] != listing[j]
    ensures GoodLine(pending, Parsed(pending, listing))
    ensures forall i :: 0 <= i < |Parsed(pending, listing)| ==> Parsed(pending, listing)[i].0 in listing
    ensures forall f :: f in listing && f in pending && pending[f].Some? ==>
      (f, pending[f].value) in Parsed(pending, listing)
  {
    if listing != [] {
      ParsedIsGood(pending, listing[..|listing| - 1]);
    }
  }

  /** The dispatcher's line holds each parseable pending job once, the highest priority first. */
  lemma {:induction false} LineIsGood(d: Dirs, listing: seq<string>)
    requires Lists(listing, d.pending.Keys)
    ensures var queue := Line(d, listing);
      && GoodLine(d.pending, queue)
      && (forall i, j :: 0 <= i < j < |queue| ==> queue[i].1.priority >= queue[j].1.priority)
      && (forall f :: f in d.pending && d.pending[f].Some? ==> (f, d.pending[f].value) in queue)
  {
    var parsed, queue := Parsed(d.pending, listing), Line(d, listing);
    ParsedIsGood(d.pending, listing);
    SortByOrders(ByPriority, parsed);
    SameBagDistinct(parsed, queue);
    forall i | 0 <= i < |queue|
      ensures queue[i].0 in d.pending && d.pending[queue[i].0] == Some(queue[i].1)
    {
      assert queue[i] in queue;
    }
    forall i, j | 0 <= i < j < |queue|
      ensures queue[i].1.priority >= queue[j].1.priority
    {
      assert ByPriority(queue[i]) <= ByPriority(queue[j]);
    }
  }

  // ----- What one pass keeps, from any directories -----

  /** Every job is filed under its own name. */
  ghost predicate Named(d: Dirs) {
    && (forall f :: f in d.pending && d.pending[f].Some? ==> d.pending[f].value.name == f)
    && (forall f :: f in d.running ==> d.running[f].name == f)
    && (forall f :: f in d.done ==> d.done[f].name == f)
  }

  /** Each file in one directory only, under its job's own name. */
  ghost predicate Proper(d: Dirs) { Named(d) && d.pending.Keys !! d.running.Keys !! d.done.Keys }

  /** A file may be in several directories, but all its copies are the same job. */
  ghost predicate Coherent(d: Dirs) {
    && Named(d)
    && (forall f :: f in d.pending && f in d.running ==> d.pending[f] == Some(d.running[f]))
    && (forall f :: f in d.pending && f in d.done ==> d.pending[f] == Some(d.done[f]))
    && (forall f :: f in d.running && f in d.done ==> d.running[f] == d.done[f])
  }

  lemma {:induction false} ReapKeeps(d: Dirs, alive: set<string>, files: set<string>)
    requires files <= d.running.Keys
    ensures var r := ReapedAmong(d, alive, files);
      && r.pending == d.pending && Files(r) == Files(d)
      && d.done.Keys <= r.done.Keys && r.running.Keys <= d.running.Keys
      && (forall lane :: OnLane(r.running, lane) <= OnLane(d.running, lane))
      && (Named(d) ==> Named(r)) && (Proper(d) ==> Proper(r)) && (Coherent(d) ==> Coherent(r))
  {
    assert Files(ReapedAmong(d, alive, files)) == Files(d);
  }

  /** Where the files are after the first `n` candidates. */
  ghost predicate KeptFiles(d: Dirs, queue: seq<(string, Job)>, t: Tally, n: nat)
    requires n <= |queue|
  {
    && t.dirs.done == d.done
    && t.dirs.pending.Keys + t.dirs.running.Keys == d.pending.Keys + d.running.Keys
    && (forall f :: f in t.dirs.pending ==> f in d.pending && t.dirs.pending[f] == d.pending[f])
    && (forall f :: f in t.dirs.running ==> Origin(d, t, f))
    && (forall f :: f in t.dirs.pending && f in t.dirs.running ==> f in d.running)
    && (forall f :: f in t.started <==> f in d.pending && f !in t.dirs.pending)
    && (forall i :: n <= i < |queue| ==> queue[i].0 in t.dirs.pending)
  }

  /** A running job was running, or is a pending one that this round started. */
  predicate Origin(d: Dirs, t: Tally, f: string)
    requires f in t.dirs.running
  {
    || (f in d.running && t.dirs.running[f] == d.running[f])
    || (f in t.started && f in d.pending && d.pending[f] == Some(t.dirs.running[f]))
  }

  lemma {:induction false} ConsiderKeepsFiles(d: Dirs, r: Round, t: Tally, n: nat, next: Tally)
    requires GoodLine(d.pending, r.queue) && 0 < n <= |r.queue| && KeptFiles(d, r.queue, t, n - 1)
    requires next == Consider(t, r, r.queue[n - 1].0, r.queue[n - 1].1)
    ensures KeptFiles(d, r.queue, next, n)
  {
    var (f, j) := r.queue[n - 1];
    assert t.dirs.pending[f] == Some(j);
    forall g | g in next.dirs.running
      ensures Origin(d, next, g)
    {
      if g in t.dirs.running {
        assert Origin(d, t, g);
      }
    }
  }

  lemma {:induction false} FilesKept(d: Dirs, r: Round, n: nat) returns (t: Tally)
    requires GoodLine(d.pending, r.queue) && n <= |r.queue|
    ensures t == At(d, r, n) && KeptFiles(d, r.queue, t, n)
  {
    if n == 0 {
      t := Opening(d, r.slots);
    } else {
      var before := FilesKept(d, r, n - 1);
      t := Consider(before, r, r.queue[n - 1].0, r.queue[n - 1].1);
      ConsiderKeepsFiles(d, r, before, n, t);
    }
  }

  lemma {:induction false} KeptMeans(d: Dirs, queue: seq<(string, Job)>, t: Tally, n: nat)
    requires n <= |queue| && KeptFiles(d, queue, t, n)
    ensures Files(t.dirs) == Files(d)
    ensures (Named(d) ==> Named(t.dirs)) && (Proper(d) ==> Proper(t.dirs)) && (Coherent(d) ==> Coherent(t.dirs))
  {
    assert forall f :: f in t.dirs.running ==> Origin(d, t, f);
    assert Files(t.dirs) == (t.dirs.pending.Keys + t.dirs.running.Keys) + d.done.Keys;
    assert Files(d) == (d.pending.Keys + d.running.Keys) + d.done.Keys;
  }

  /** The lane counts are at least those of the running directory. */
  ghost predicate KeptBusy(slots: map<string, nat>, t: Tally) {
    forall lane :: lane in slots ==> lane in t.busy && |OnLane(t.dirs.running, lane)| <= t.busy[lane]
  }

  lemma {:induction false} OneMoreOnLane(running: map<string, Job>, f: string, j: Job, lane: string)
    ensures |OnLane(running[f := j], lane)| <= |OnLane(running, lane)| + if j.lane == lane then 1 else 0
    ensures f !in running && j.lane == lane ==> |OnLane(running[f := j], lane)| == |OnLane(running, lane)| + 1
  {
    var before, after := OnLane(running, lane), OnLane(running[f := j], lane);
    if j.lane == lane {
      assert after == before + {f};
    } else {
      assert after == before - {f};
      SubsetSize(after, before);
    }
  }

  lemma {:induction false} ConsiderKeepsBusy(r: Round, t: Tally, f: string, j: Job)
    requires KeptBusy(r.slots, t)
    ensures KeptBusy(r.slots, Consider(t, r, f, j))
  {
    forall lane
      ensures |OnLane(t.dirs.running[f := j], lane)| <= |OnLane(t.dirs.running, lane)| + if j.lane == lane then 1 else 0
    {
      OneMoreOnLane(t.dirs.running, f, j, lane);
    }
  }

  lemma {:induction false} BusyKept(d: Dirs, r: Round, n: nat) returns (t: Tally)
    requires n <= |r.queue|
    ensures t == At(d, r, n) && KeptBusy(r.slots, t)
  {
    if n == 0 {
      t := Opening(d, r.slots);
    } else {
      var before := BusyKept(d, r, n - 1);
      t := Consider(before, r, r.queue[n - 1].0, r.queue[n - 1].1);
      ConsiderKeepsBusy(r, before, r.queue[n - 1].0, r.queue[n - 1].1);
    }
  }

  lemma {:induction false} BusyBound(t: Tally, r: Round, n: nat, lane: string)
    requires n <= |r.queue|
    ensures var busy := Busy(ConsiderAll(t, r, n), lane); busy <= Capacity(r.slots, lane) || busy <= Busy(t, lane)
  {
    if n > 0 {
      BusyBound(t, r, n - 1, lane);
    }
  }

  /** A pass keeps every file, and the order among the directories that it found. */
  lemma {:induction false} NothingIsLost(d: Dirs, p: Pass)
    requires Lists(p.listing, d.pending.Keys)
    ensures var after := Dispatched(d, p).dirs;
      && Files(after) == Files(d) && d.done.Keys <= after.done.Keys
      && (Named(d) ==> Named(after)) && (Proper(d) ==> Proper(after)) && (Coherent(d) ==> Coherent(after))
  {
    ReapKeeps(d, p.alive, d.running.Keys);
    var s, r := Reaped(d, p.alive), RoundOf(d, p);
    LineIsGood(s, p.listing);
    var t := FilesKept(s, r, |r.queue|);
    KeptMeans(s, r.queue, t, |r.queue|);
  }

  // ----- Lanes -----

  /** The lane ends within its capacity, or no fuller than it was. */
  ghost predicate LaneHolds(d: Dirs, p: Pass, lane: string) {
    var now := |OnLane(Dispatched(d, p).dirs.running, lane)|;
    now <= Capacity(p.slots, lane) || now <= |OnLane(d.running, lane)|
  }

  /** A listed lane holds at every point of every pass, whatever the directories. */
  lemma {:induction false} CapacityHolds(d: Dirs, p: Pass, lane: string, n: nat)
    requires lane in p.slots && n <= |RoundOf(d, p).queue|
    ensures var now := |OnLane(At(Reaped(d, p.alive), RoundOf(d, p), n).dirs.running, lane)|;
      now <= p.slots[lane] || now <= |OnLane(d.running, lane)|
  {
    var s, r := Reaped(d, p.alive), RoundOf(d, p);
    ReapKeeps(d, p.alive, d.running.Keys);
    SubsetSize(OnLane(s.running, lane), OnLane(d.running, lane));
    BusyBound(Opening(s, r.slots), r, n, lane);
    var t := BusyKept(s, r, n);
  }

  /** A pass over a single pending job starts it if its lane has room and nothing blocks it. */
  lemma {:induction false} SingleJob(d: Dirs, p: Pass, f: string, j: Job)
    requires d.pending == map[f := Some(j)] && p.listing == [f]
    requires var s := Reaped(d, p.alive); !Full(Opening(s, p.slots), p.slots, j.lane) && !Blocked(NamesOf(s.done), j)
    ensures var t := Dispatched(d, p);
      && t.started == [f] && t.dirs.pending == map[]
      && t.dirs.running == Reaped(d, p.alive).running[f := j]
  {
    var s, r := Reaped(d, p.alive), RoundOf(d, p);
    SingleLine(s, f, j);
    assert r.queue == [(f, j)];
    SingleRound(Opening(s, p.slots), r, f, j);
    SingleConsidered(Opening(s, p.slots), r, f, j);
  }

  lemma {:induction false} SingleConsidered(t: Tally, r: Round, f: string, j: Job)
    requires t.dirs.pending == map[f := Some(j)] && t.started == []
    requires !Full(t, r.slots, j.lane) && !Blocked(r.done, j)
    ensures var after := Consider(t, r, f, j);
      after.started == [f] && after.dirs.pending == map[] && after.dirs.running == t.dirs.running[f := j]
  {
    assert t.dirs.pending - {f} == map[];
  }

  lemma {:induction false} SingleLine(d: Dirs, f: string, j: Job)
    requires d.pending == map[f := Some(j)]
    ensures Line(d, [f]) == [(f, j)]
  {
    assert [f][..0] == [];
    assert Parsed(d.pending, []) == [];
    assert Parsed(d.pending, [f]) == [(f, j)];
    assert [(f, j)][..0] == [];
    assert SortBy(ByPriority, []) == [];
  }

  lemma {:induction false} SingleRound(t: Tally, r: Round, f: string, j: Job)
    requires r.queue == [(f, j)]
    ensures ConsiderAll(t, r, |r.queue|) == Consider(t, r, f, j)
  {
    var n := |r.queue|;
    assert ConsiderAll(t, r, n - 1) == t;
  }

  /**
   * The capacity of a lane missing from the slots is counted within one pass only, so a pass adds to it
   * however full it is.
   */
  lemma {:induction false} UnlistedLaneOverfills(d: Dirs, p: Pass, f: string, j: Job)
    requires d.pending == map[f := Some(j)] && f !in d.running && p.listing == [f]
    requires j.after == [] && j.lane !in p.slots
    ensures Dispatched(d, p).started == [f]
    ensures |OnLane(Dispatched(d, p).dirs.running, j.lane)| == |OnLane(Reaped(d, p.alive).running, j.lane)| + 1
  {
    var s := Reaped(d, p.alive);
    assert !Full(Opening(s, p.slots), p.slots, j.lane) && !Blocked(NamesOf(s.done), j);
    SingleJob(d, p, f, j);
    OneMoreOnLane(s.running, f, j, j.lane);
  }

  /** Exactly the listed lanes hold over every pass from every proper state. */
  lemma {:induction false} ListedLanesHoldExactly(slots: map<string, nat>, lane: string)
    ensures lane in slots <==>
      forall d, p: Pass :: p.slots == slots && Proper(d) && Lists(p.listing, d.pending.Keys) ==> LaneHolds(d, p, lane)
  {
    if lane in slots {
      forall d, p: Pass | p.slots == slots
        ensures LaneHolds(d, p, lane)
      {
        CapacityHolds(d, p, lane, |RoundOf(d, p).queue|);
      }
    } else {
      var d, p := OverfullLane(slots, lane);
      assert p.slots == slots && Proper(d) && Lists(p.listing, d.pending.Keys) && !LaneHolds(d, p, lane);
    }
  }

  /** One job runs on an unlisted lane, a second is ready, and the pass starts it. */
  lemma {:induction false} OverfullLane(slots: map<string, nat>, lane: string) returns (d: Dirs, p: Pass)
    requires lane !in slots
    ensures p.slots == slots && Proper(d) && Lists(p.listing, d.pending.Keys) && !LaneHolds(d, p, lane)
  {
    var j, k := Job("a", lane, 0, []), Job("b", lane, 0, []);
    d, p := Dirs(map["a" := Some(j)], map["b" := k], map[]), Pass(slots, {"b"}, ["a"]);
    UnlistedLaneOverfills(d, p, "a", j);
    assert Reaped(d, p.alive).running == d.running;
    assert OnLane(d.running, lane) == {"b"};
  }

  // ----- Who starts -----

  /** Lanes only fill up during a dispatch, so a lane found full stays full. */
  lemma {:induction false} FullStaysFull(t: Tally, r: Round, k: nat, n: nat, lane: string)
    requires k <= n <= |r.queue|
    ensures Busy(ConsiderAll(t, r, k), lane) <= Busy(ConsiderAll(t, r, n), lane)
  {
    if k < n {
      FullStaysFull(t, r, k, n - 1, lane);
    }
  }

  /** The places of the jobs of a lane that started before the turn of place `k`. */
  ghost function StartedOn(queue: seq<(string, Job)>, started: seq<string>, k: nat, lane: string): set<nat>
    requires k <= |queue|
  {
    set l: nat | l < k && queue[l].1.lane == lane && queue[l].0 in started
  }

  /**
   * The lane has room at the turn of place `k`: a listed one counts the jobs that ran when the round opened
   * and those started since, an unlisted one takes one job a round.
   */
  ghost predicate Room(d: Dirs, r: Round, k: nat, lane: string)
    requires k <= |r.queue|
  {
    var started := StartedOn(r.queue, At(d, r, k).started, k, lane);
    if lane in r.slots then |OnLane(d.running, lane)| + |started| < r.slots[lane] else started == {}
  }

  /** The job at place `k` may start when its turn comes. */
  ghost predicate Admitted(d: Dirs, r: Round, k: nat)
    requires k < |r.queue|
  {
    var j := r.queue[k].1;
    Room(d, r, k, j.lane) && forall i :: 0 <= i < |j.after| ==> j.after[i] in r.done
  }

  /** What the dispatcher itself tests at that turn. */
  predicate LetIn(d: Dirs, r: Round, k: nat)
    requires k < |r.queue|
  {
    !Full(At(d, r, k), r.slots, r.queue[k].1.lane) && !Blocked(r.done, r.queue[k].1)
  }

  /** The lane counts are the jobs that ran and those started since. */
  lemma {:induction false} BusyExactly(d: Dirs, r: Round, k: nat, lane: string) returns (t: Tally)
    requires GoodLine(d.pending, r.queue) && k <= |r.queue|
    ensures t == At(d, r, k)
    ensures Busy(t, lane) ==
      (if lane in r.slots then |OnLane(d.running, lane)| else 0) + |StartedOn(r.queue, t.started, k, lane)|
  {
    if k == 0 {
      t := Opening(d, r.slots);
      assert StartedOn(r.queue, t.started, k, lane) == {};
    } else {
      var same := BusyExactly(d, r, k - 1, lane);
      var before := FilesKept(d, r, k - 1);
      t := Consider(before, r, r.queue[k - 1].0, r.queue[k - 1].1);
      OneMoreStarted(r.queue, before.started, t.started, k, lane);
    }
  }

  lemma {:induction false} OneMoreStarted(
      queue: seq<(string, Job)>, before: seq<string>, after: seq<string>, k: nat, lane: string)
    requires 0 < k <= |queue| && (forall i, j :: 0 <= i < j < |queue| ==> queue[i].0 != queue[j].0)
    requires (after == before || after == before + [queue[k - 1].0]) && queue[k - 1].0 !in before
    ensures |StartedOn(queue, after, k, lane)| ==
      |StartedOn(queue, before, k - 1, lane)| + if after != before && queue[k - 1].1.lane == lane then 1 else 0
  {
    var now, next := StartedOn(queue, before, k - 1, lane), StartedOn(queue, after, k, lane);
    assert next == if after != before && queue[k - 1].1.lane == lane then now + {k - 1} else now;
  }

  lemma {:induction false} AdmittedExactly(d: Dirs, r: Round, k: nat)
    requires GoodLine(d.pending, r.queue) && k < |r.queue|
    ensures Admitted(d, r, k) <==> LetIn(d, r, k)
  {
    var t := BusyExactly(d, r, k, r.queue[k].1.lane);
  }

  /** A file leaves the pending directory only when its own turn comes. */
  lemma {:induction false} OwnTurn(d: Dirs, r: Round, k: nat, n: nat)
    requires GoodLine(d.pending, r.queue) && k < n <= |r.queue|
    ensures r.queue[k].0 in At(d, r, n).dirs.pending <==> !LetIn(d, r, k)
  {
    if k + 1 < n {
      OwnTurn(d, r, k, n - 1);
    } else {
      var t := FilesKept(d, r, k);
    }
  }

  /** A job starts exactly when it is admitted at its place in the line. */
  lemma {:induction false} StartsExactly(d: Dirs, p: Pass, f: string)
    requires Lists(p.listing, d.pending.Keys)
    ensures var s, r := Reaped(d, p.alive), RoundOf(d, p);
      f in Dispatched(d, p).started <==> exists k :: 0 <= k < |r.queue| && r.queue[k].0 == f && Admitted(s, r, k)
  {
    var s, r := Reaped(d, p.alive), RoundOf(d, p);
    LineIsGood(s, p.listing);
    var t := FilesKept(s, r, |r.queue|);
    forall k | 0 <= k < |r.queue|
      ensures r.queue[k].0 in t.started <==> Admitted(s, r, k)
    {
      OwnTurn(s, r, k, |r.queue|);
      AdmittedExactly(s, r, k);
    }
    if f in t.started {
      var n := StartedInLine(s, r, |r.queue|, f);
    }
  }

  /**
   * A pass starts a parseable job exactly when its lane has room at its turn and every job it waits for is in
   * the done directory once the exited jobs are collected.
   */
  lemma {:induction false} ReadyStarts(d: Dirs, p: Pass, f: string, j: Job) returns (k: nat)
    requires Named(d) && Lists(p.listing, d.pending.Keys) && f in d.pending && d.pending[f] == Some(j)
    ensures var s, r := Reaped(d, p.alive), RoundOf(d, p);
      && k < |r.queue| && r.queue[k] == (f, j)
      && (f in Dispatched(d, p).started <==>
            Room(s, r, k, j.lane) && forall i :: 0 <= i < |j.after| ==> j.after[i] in s.done)
  {
    var s, r := Reaped(d, p.alive), RoundOf(d, p);
    ReapKeeps(d, p.alive, d.running.Keys);
    NamesAreKeys(s.done);
    LineIsGood(s, p.listing);
    k :| 0 <= k < |r.queue| && r.queue[k] == (f, j);
    OwnTurn(s, r, k, |r.queue|);
    AdmittedExactly(s, r, k);
    var t := FilesKept(s, r, |r.queue|);
  }

  lemma {:induction false} StartedInLine(d: Dirs, r: Round, n: nat, f: string) returns (k: nat)
    requires n <= |r.queue| && f in At(d, r, n).started
    ensures k < n && r.queue[k].0 == f && LetIn(d, r, k)
  {
    if f in At(d, r, n - 1).started {
      k := StartedInLine(d, r, n - 1, f);
    } else {
      k := n - 1;
    }
  }

  lemma {:induction false} NamesAreKeys(jobs: map<string, Job>)
    requires forall f :: f in jobs ==> jobs[f].name == f
    ensures NamesOf(jobs) == jobs.Keys
  {
    forall f
      ensures f in NamesOf(jobs) <==> f in jobs
    {
      if f in jobs {
        assert jobs[f].name in NamesOf(jobs);
      }
    }
  }

  /** A job started by a pass has all its prerequisites done. */
  lemma {:induction false} StartsAreReady(d: Dirs, p: Pass, n: nat, f: string)
    requires Named(d) && Lists(p.listing, d.pending.Keys)
    requires n <= |RoundOf(d, p).queue| && f in At(Reaped(d, p.alive), RoundOf(d, p), n).started
    ensures f in d.pending && d.pending[f].Some?
    ensures var j := d.pending[f].value; forall i :: 0 <= i < |j.after| ==> j.after[i] in Reaped(d, p.alive).done
  {
    ReapKeeps(d, p.alive, d.running.Keys);
    var s, r := Reaped(d, p.alive), RoundOf(d, p);
    LineIsGood(s, p.listing);
    NamesAreKeys(s.done);
    var k := StartedInLine(s, r, n, f);
    assert s.pending[f] == Some(r.queue[k].1);
  }

  /** A job left pending is barred at its own turn and at every later one. */
  lemma {:induction false} StaysBarred(d: Dirs, r: Round, k: nat, n: nat)
    requires GoodLine(d.pending, r.queue) && k < |r.queue| && !LetIn(d, r, k) && k <= n <= |r.queue|
    ensures var j := r.queue[k].1;
      !Room(d, r, n, j.lane) || exists i :: 0 <= i < |j.after| && j.after[i] !in r.done
  {
    var lane := r.queue[k].1.lane;
    FullStaysFull(Opening(d, r.slots), r, k, n, lane);
    var t := BusyExactly(d, r, k, lane);
    t := BusyExactly(d, r, n, lane);
  }

  lemma {:induction false} LeftAt(d: Dirs, p: Pass, h: string) returns (k: nat)
    requires Lists(p.listing, d.pending.Keys)
    requires h in Dispatched(d, p).dirs.pending && h in d.pending && d.pending[h].Some?
    ensures var s, r := Reaped(d, p.alive), RoundOf(d, p);
      k < |r.queue| && r.queue[k] == (h, d.pending[h].value) && !LetIn(s, r, k)
  {
    var s, r := Reaped(d, p.alive), RoundOf(d, p);
    LineIsGood(s, p.listing);
    k :| 0 <= k < |r.queue| && r.queue[k] == (h, d.pending[h].value);
    OwnTurn(s, r, k, |r.queue|);
  }

  /** Every parseable job a pass leaves pending has a full lane when the pass ends, or waits for a job not done. */
  lemma {:induction false} LeftForAReason(d: Dirs, p: Pass, h: string)
    requires Named(d) && Lists(p.listing, d.pending.Keys)
    requires h in Dispatched(d, p).dirs.pending && h in d.pending && d.pending[h].Some?
    ensures var s, r, j := Reaped(d, p.alive), RoundOf(d, p), d.pending[h].value;
      !Room(s, r, |r.queue|, j.lane) || exists i :: 0 <= i < |j.after| && j.after[i] !in s.done
  {
    ReapKeeps(d, p.alive, d.running.Keys);
    NamesAreKeys(Reaped(d, p.alive).done);
    LineIsGood(Reaped(d, p.alive), p.listing);
    var k := LeftAt(d, p, h);
    StaysBarred(Reaped(d, p.alive), RoundOf(d, p), k, |RoundOf(d, p).queue|);
  }

  /** A job that one of lower priority overtook on its own lane has an unmet prerequisite. */
  lemma {:induction false} OvertakenOnlyWhenBlocked(d: Dirs, p: Pass, h: string, f: string)
    requires Named(d) && Lists(p.listing, d.pending.Keys)
    requires h in Dispatched(d, p).dirs.pending && h in d.pending && d.pending[h].Some?
    requires f in Dispatched(d, p).started && f in d.pending && d.pending[f].Some?
    requires d.pending[f].value.lane == d.pending[h].value.lane
    requires d.pending[f].value.priority < d.pending[h].value.priority
    ensures var j := d.pending[h].value;
      exists i :: 0 <= i < |j.after| && j.after[i] !in Reaped(d, p.alive).done
  {
    var s, r := Reaped(d, p.alive), RoundOf(d, p);
    ReapKeeps(d, p.alive, d.running.Keys);
    NamesAreKeys(s.done);
    LineIsGood(s, p.listing);
    var k := LeftAt(d, p, h);
    var l := StartedInLine(s, r, |r.queue|, f);
    HigherFirst(s.pending, r.queue, k, l, d.pending[h].value, d.pending[f].value);
    BarredAlone(s, r, k, l);
  }

  /** A job barred at its turn, while a later one on its lane was let in, waits for a job not done. */
  lemma {:induction false} BarredAlone(d: Dirs, r: Round, k: nat, l: nat)
    requires k < l < |r.queue| && !LetIn(d, r, k) && LetIn(d, r, l) && r.queue[k].1.lane == r.queue[l].1.lane
    ensures var j := r.queue[k].1; exists i :: 0 <= i < |j.after| && j.after[i] !in r.done
  {
    FullStaysFull(Opening(d, r.slots), r, k, l, r.queue[k].1.lane);
  }

  lemma {:induction false} HigherFirst(
      pending: map<string, Option<Job>>, queue: seq<(string, Job)>, k: nat, l: nat, h: Job, j: Job)
    requires GoodLine(pending, queue) && k < |queue| && l < |queue|
    requires forall a, b :: 0 <= a < b < |queue| ==> queue[a].1.priority >= queue[b].1.priority
    requires pending[queue[k].0] == Some(h) && pending[queue[l].0] == Some(j) && j.priority < h.priority
    ensures k < l && queue[k].1 == h && queue[l].1 == j
  {
  }
}

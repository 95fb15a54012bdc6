/** Greedy stratified selection of structurally novel rows. */
module Selection {
  import opened Common
  import opened Sorting
  import opened DependencyGraph
  import opened StructureIndexing

  datatype Row = Row(name: string, depth: int, graph: Option<Graph>)

  /** `rank` stands for the frozen hash of seed and name. */
  type Rank = Row -> int

  // ----- Hash order -----

  function AtDepth(candidates: seq<Row>, depth: int): (r: seq<Row>)
    ensures forall x :: x in r <==> x in candidates && x.depth == depth && x.graph.Some?
  {
    if candidates == [] then []
    else
      var n := |candidates| - 1;
      assert candidates == candidates[..n] + [candidates[n]];
      AtDepth(candidates[..n], depth) +
      if candidates[n].depth == depth && candidates[n].graph.Some? then [candidates[n]] else []
  }

  function Eligible(rank: Rank, candidates: seq<Row>, depth: int): (r: seq<Row>)
    ensures forall x :: x in r <==> x in candidates && x.depth == depth && x.graph.Some?
  {
    var sorted := SortBy(rank, AtDepth(candidates, depth));
    assert forall x :: x in sorted <==> x in multiset(sorted);
    sorted
  }

  // ----- The greedy pick of one stratum -----

  ghost predicate Gradable(rows: seq<Row>) {
    forall i :: 0 <= i < |rows| ==> rows[i].graph.Some? && WellFormed(rows[i].graph.value)
  }

  /** The graph of a row; a row without one is never eligible. */
  function GraphOf(row: Row): Graph { if row.graph.Some? then row.graph.value else Graph([], map[], {}) }

  function GraphsOf(rows: seq<Row>): (gs: seq<Graph>)
    ensures |gs| == |rows| && forall i :: 0 <= i < |rows| ==> gs[i] == GraphOf(rows[i])
  {
    seq(|rows|, i requires 0 <= i < |rows| => GraphOf(rows[i]))
  }

  /**
   * The picks from the first n rows: it stops for good once `count` are picked, which a count below one
   * never reaches.
   */
  ghost function Picks(rows: seq<Row>, taken: seq<Graph>, count: int, n: nat): (r: seq<Row>)
    requires n <= |rows| && Gradable(rows)
    ensures Gradable(r) && (0 < count ==> |r| <= count)
  {
    if n == 0 then []
    else
      var before := Picks(rows, taken, count, n - 1);
      if |before| > 0 && |before| == count then before
      else if FoundByScan(taken + GraphsOf(before), GraphOf(rows[n - 1])) then before
      else before + [rows[n - 1]]
  }

  ghost predicate PairwiseNovel(rows: seq<Row>, taken: seq<Graph>) {
    && (forall i :: 0 <= i < |rows| ==> !FoundByScan(taken, GraphOf(rows[i])))
    && (forall i, j :: 0 <= i < j < |rows| ==> !Isomorphic(GraphOf(rows[j]), GraphOf(rows[i])))
  }

  /** Picks keep the rows' order: each is a later row than the one before. */
  ghost predicate InOrder(picks: seq<Row>, rows: seq<Row>, at: seq<nat>) {
    && |at| == |picks|
    && (forall i :: 0 <= i < |at| ==> at[i] < |rows| && rows[at[i]] == picks[i])
    && (forall i, j :: 0 <= i < j < |at| ==> at[i] < at[j])
  }

  lemma {:induction false} PicksSnoc(rows: seq<Row>, taken: seq<Graph>, count: int, n: nat, before: seq<Row>)
    returns (picks: seq<Row>)
    requires 0 < n <= |rows| && Gradable(rows) && before == Picks(rows, taken, count, n - 1)
    ensures picks == Picks(rows, taken, count, n) && (picks == before || picks == before + [rows[n - 1]])
  {
    picks := Picks(rows, taken, count, n);
  }

  lemma {:induction false} PicksInOrder(rows: seq<Row>, taken: seq<Graph>, count: int, n: nat)
    returns (picks: seq<Row>, at: seq<nat>)
    requires n <= |rows| && Gradable(rows)
    ensures picks == Picks(rows, taken, count, n) && InOrder(picks, rows, at)
    ensures forall i :: 0 <= i < |at| ==> at[i] < n
  {
    if n == 0 {
      picks, at := [], [];
    } else {
      picks, at := PicksInOrder(rows, taken, count, n - 1);
      var next := PicksSnoc(rows, taken, count, n, picks);
      if next != picks {
        at := at + [n - 1];
      }
      picks := next;
    }
  }

  lemma {:induction false} PicksAreNovel(rows: seq<Row>, taken: seq<Graph>, count: int, n: nat)
    requires n <= |rows| && Gradable(rows)
    ensures PairwiseNovel(Picks(rows, taken, count, n), taken)
  {
    if n > 0 {
      PicksAreNovel(rows, taken, count, n - 1);
      var before := Picks(rows, taken, count, n - 1);
      var g := GraphOf(rows[n - 1]);
      if !FoundByScan(taken + GraphsOf(before), g) {
        assert forall h :: h in taken ==> h in taken + GraphsOf(before);
        forall i | 0 <= i < |before|
          ensures !Isomorphic(g, GraphOf(before[i]))
        {
          assert GraphsOf(before)[i] in taken + GraphsOf(before);
        }
      }
    }
  }

  /**
   * Every row passed over before the quota was full is isomorphic to something taken before or to an
   * earlier pick; once the quota is full nothing more is looked at.
   */
  lemma {:induction false} PassedOverIsKnown(rows: seq<Row>, taken: seq<Graph>, count: int, n: nat, k: nat)
    requires k < n <= |rows| && Gradable(rows)
    requires var before := Picks(rows, taken, count, k); |before| == 0 || |before| != count
    ensures FoundByScan(taken + GraphsOf(Picks(rows, taken, count, k)), GraphOf(rows[k]))
      || Picks(rows, taken, count, k + 1) == Picks(rows, taken, count, k) + [rows[k]]
    ensures FoundByScan(taken + GraphsOf(Picks(rows, taken, count, n)), GraphOf(rows[k]))
    decreases n
  {
    if k + 1 < n {
      PassedOverIsKnown(rows, taken, count, n - 1, k);
      var before, after := Picks(rows, taken, count, n - 1), Picks(rows, taken, count, n);
      var h :| h in taken + GraphsOf(before) && Isomorphic(GraphOf(rows[k]), h);
      GraphsGrow(before, after, taken, h);
    } else {
      var before, after := Picks(rows, taken, count, k), Picks(rows, taken, count, n);
      if FoundByScan(taken + GraphsOf(before), GraphOf(rows[k])) {
        assert after == before;
      } else {
        IsoReflexive(GraphOf(rows[k]));
        assert GraphsOf(after)[|before|] == GraphOf(rows[k]);
        assert GraphOf(rows[k]) in taken + GraphsOf(after);
      }
    }
  }

  lemma {:induction false} GraphsGrow(before: seq<Row>, after: seq<Row>, taken: seq<Graph>, h: Graph)
    requires Gradable(before) && Gradable(after) && before <= after
    requires h in taken + GraphsOf(before)
    ensures h in taken + GraphsOf(after)
  {
    if h !in taken {
      var i :| 0 <= i < |before| && GraphsOf(before)[i] == h;
      assert GraphsOf(after)[i] == h;
    }
  }

  /**
   * Each of several pairwise non-isomorphic graphs has its own representative, so there are at least as
   * many of those.
   */
  lemma {:induction false} ClassesInject(ws: seq<Graph>, reps: seq<Graph>)
    requires forall i :: 0 <= i < |ws| ==> FoundByScan(reps, ws[i])
    requires forall i, j :: 0 <= i < j < |ws| ==> !Isomorphic(ws[j], ws[i])
    ensures |ws| <= |reps|
    decreases |ws|
  {
    if ws != [] {
      var n := |ws| - 1;
      var r :| r in reps && Isomorphic(ws[n], r);
      var k :| 0 <= k < |reps| && reps[k] == r;
      var rest := reps[..k] + reps[k + 1..];
      forall i | 0 <= i < n
        ensures FoundByScan(rest, ws[i])
      {
        var s :| s in reps && Isomorphic(ws[i], s);
        if s == r {
          IsoSymmetric(ws[i], r);
          IsoTransitive(ws[n], r, ws[i]);
          assert false;
        }
        var j :| 0 <= j < |reps| && reps[j] == s;
        assert s == rest[if j < k then j else j - 1];
      }
      ClassesInject(ws[..n], rest);
    }
  }

  /**
   * A stratum falls short only when too few novel classes are left: no `count` eligible rows exist
   * that are pairwise non-isomorphic and isomorphic to nothing taken before.
   */
  lemma {:induction false} ShortOnlyWhenExhausted(rows: seq<Row>, taken: seq<Graph>, count: int, ws: seq<Row>)
    requires Gradable(rows) && 0 < count && |Picks(rows, taken, count, |rows|)| < count
    requires Gradable(ws) && PairwiseNovel(ws, taken) && forall i :: 0 <= i < |ws| ==> ws[i] in rows
    ensures |ws| < count
  {
    var picks := Picks(rows, taken, count, |rows|);
    forall i | 0 <= i < |ws|
      ensures FoundByScan(GraphsOf(picks), GraphOf(ws[i]))
    {
      var k :| 0 <= k < |rows| && rows[k] == ws[i];
      var later := PicksGrow(rows, taken, count, k, |rows|);
      PassedOverIsKnown(rows, taken, count, |rows|, k);
      var h :| h in taken + GraphsOf(picks) && Isomorphic(GraphOf(ws[i]), h);
      assert h !in taken;
    }
    ClassesInject(GraphsOf(ws), GraphsOf(picks));
  }

  lemma {:induction false} PicksGrow(rows: seq<Row>, taken: seq<Graph>, count: int, k: nat, n: nat)
    returns (picks: seq<Row>)
    requires k <= n <= |rows| && Gradable(rows)
    ensures picks == Picks(rows, taken, count, n) && |Picks(rows, taken, count, k)| <= |picks|
  {
    if k == n {
      picks := Picks(rows, taken, count, n);
    } else {
      var before := PicksGrow(rows, taken, count, k, n - 1);
      picks := Picks(rows, taken, count, n);
      assert picks == before || picks == before + [rows[n - 1]];
    }
  }

  // ----- All strata -----

  datatype Shortage = Shortage(depth: int, got: nat, count: int)

  ghost predicate AllGradable(candidates: seq<Row>) {
    forall i :: 0 <= i < |candidates| && candidates[i].graph.Some? ==> WellFormed(candidates[i].graph.value)
  }

  lemma {:induction false} EligibleGradable(rank: Rank, candidates: seq<Row>, depth: int)
    requires AllGradable(candidates)
    ensures Gradable(Eligible(rank, candidates, depth))
  {
    var rows := Eligible(rank, candidates, depth);
    forall i | 0 <= i < |rows|
      ensures rows[i].graph.Some? && WellFormed(GraphOf(rows[i]))
    {
      assert rows[i] in rows;
    }
  }

  /** The eligible rows of each depth, as a table. */
  function Table(rank: Rank, candidates: seq<Row>): int -> seq<Row> { depth => Eligible(rank, candidates, depth) }

  ghost predicate Readable(table: int -> seq<Row>) { forall depth :: Gradable(table(depth)) }

  lemma {:induction false} TableReadable(rank: Rank, candidates: seq<Row>)
    requires AllGradable(candidates)
    ensures Readable(Table(rank, candidates))
  {
    forall depth
      ensures Gradable(Table(rank, candidates)(depth))
    {
      EligibleGradable(rank, candidates, depth);
    }
  }

  /** What one stratum selects after the graphs already taken. */
  ghost function Stratum(rows: seq<Row>, taken: seq<Graph>, count: int): (r: seq<Row>)
    requires Gradable(rows)
    ensures Gradable(r)
  {
    Picks(rows, taken, count, |rows|)
  }

  /** The selection from the first n strata, each excluding what the earlier ones took. */
  ghost function Selected(
      table: int -> seq<Row>, excluded: seq<Graph>, strata: seq<(int, int)>, n: nat): (r: Result<seq<Row>, Shortage>)
    requires Readable(table) && n <= |strata|
    ensures r.Ok? ==> Gradable(r.value)
  {
    if n == 0 then Ok([])
    else
      var before := Selected(table, excluded, strata, n - 1);
      if before.Err? then before
      else
        var (depth, count) := strata[n - 1];
        var group := Stratum(table(depth), excluded + GraphsOf(before.value), count);
        if |group| != count then Err(Shortage(depth, |group|, count)) else Ok(before.value + group)
  }

  lemma {:induction false} GroupExtends(before: seq<Row>, group: seq<Row>, excluded: seq<Graph>)
    requires Gradable(before) && Gradable(group)
    requires PairwiseNovel(before, excluded) && PairwiseNovel(group, excluded + GraphsOf(before))
    ensures PairwiseNovel(before + group, excluded)
  {
    var all := before + group;
    forall i | 0 <= i < |all|
      ensures !FoundByScan(excluded, GraphOf(all[i]))
    {
      assert forall h :: h in excluded ==> h in excluded + GraphsOf(before);
    }
    forall i, j | 0 <= i < j < |all|
      ensures !Isomorphic(GraphOf(all[j]), GraphOf(all[i]))
    {
      if i < |before| <= j {
        assert GraphsOf(before)[i] in excluded + GraphsOf(before);
      }
    }
  }

  function Counts(strata: seq<(int, int)>): int {
    if strata == [] then 0 else Counts(strata[..|strata| - 1]) + strata[|strata| - 1].1
  }

  /** What a stratum picks is novel rows of its depth, at most `count` of them, in hash order, from the candidates. */
  lemma {:induction false} StratumIsExact(rank: Rank, candidates: seq<Row>, taken: seq<Graph>, depth: int, count: int)
    requires AllGradable(candidates)
    ensures Gradable(Eligible(rank, candidates, depth))
    ensures var group := Stratum(Eligible(rank, candidates, depth), taken, count);
      && OrderedBy(rank, group) && PairwiseNovel(group, taken)
      && (0 < count ==> |group| <= count)
      && forall i :: 0 <= i < |group| ==> group[i] in candidates && group[i].depth == depth
  {
    EligibleGradable(rank, candidates, depth);
    var rows := Eligible(rank, candidates, depth);
    SortByOrders(rank, AtDepth(candidates, depth));
    PicksAreNovel(rows, taken, count, |rows|);
    var picks, at := PicksInOrder(rows, taken, count, |rows|);
    var group := Picks(rows, taken, count, |rows|);
    forall i | 0 <= i < |group|
      ensures group[i] in candidates && group[i].depth == depth
    {
      assert rows[at[i]] in rows;
    }
  }

  /**
   * A successful selection is pairwise non-isomorphic across all strata, avoids everything excluded, and
   * has the size asked for.
   */
  lemma {:induction false} SelectionIsNovel(
      table: int -> seq<Row>, excluded: seq<Graph>, strata: seq<(int, int)>, n: nat)
    requires Readable(table) && n <= |strata|
    requires Selected(table, excluded, strata, n).Ok?
    ensures PairwiseNovel(Selected(table, excluded, strata, n).value, excluded)
    ensures |Selected(table, excluded, strata, n).value| == Counts(strata[..n])
  {
    if n > 0 {
      SelectionIsNovel(table, excluded, strata, n - 1);
      var before := Selected(table, excluded, strata, n - 1).value;
      var taken := excluded + GraphsOf(before);
      var rows := table(strata[n - 1].0);
      PicksAreNovel(rows, taken, strata[n - 1].1, |rows|);
      GroupExtends(before, Stratum(rows, taken, strata[n - 1].1), excluded);
      assert strata[..n][..n - 1] == strata[..n - 1];
    }
  }

  /** Rows of one depth from the candidates, exactly `count` of them and in hash order. */
  ghost predicate Share(rank: Rank, candidates: seq<Row>, rows: seq<Row>, depth: int, count: int) {
    && |rows| == count && OrderedBy(rank, rows)
    && forall i :: 0 <= i < |rows| ==> rows[i] in candidates && rows[i].depth == depth
  }

  lemma {:induction false} CountsSnoc(strata: seq<(int, int)>, n: nat)
    requires n < |strata|
    ensures Counts(strata[..n + 1]) == Counts(strata[..n]) + strata[n].1
  {
    assert strata[..n + 1][..n] == strata[..n];
  }

  /** The slice of a selection that falls to stratum `s` is its share. */
  ghost predicate InPlace(rank: Rank, candidates: seq<Row>, chosen: seq<Row>, strata: seq<(int, int)>, s: nat)
    requires s < |strata|
  {
    var from, to := Counts(strata[..s]), Counts(strata[..s + 1]);
    0 <= from <= to <= |chosen| && Share(rank, candidates, chosen[from..to], strata[s].0, strata[s].1)
  }

  /** A table all of whose strata pick rows of their depth from the candidates, in hash order. */
  ghost predicate Graded(rank: Rank, candidates: seq<Row>, table: int -> seq<Row>) {
    && Readable(table)
    && forall depth, taken, count {:trigger Stratum(table(depth), taken, count)} ::
         Gradable(table(depth)) ==>
           var group := Stratum(table(depth), taken, count); Share(rank, candidates, group, depth, |group|)
  }

  lemma {:induction false} TableGraded(rank: Rank, candidates: seq<Row>)
    requires AllGradable(candidates)
    ensures Graded(rank, candidates, Table(rank, candidates))
  {
    TableReadable(rank, candidates);
    var table := Table(rank, candidates);
    forall depth, taken, count {:trigger Stratum(table(depth), taken, count)} | Gradable(table(depth))
      ensures var group := Stratum(table(depth), taken, count); Share(rank, candidates, group, depth, |group|)
    {
      StratumIsExact(rank, candidates, taken, depth, count);
    }
  }

  lemma {:induction false} LastShare(rank: Rank, candidates: seq<Row>, table: int -> seq<Row>, excluded: seq<Graph>,
      strata: seq<(int, int)>, n: nat) returns (before: seq<Row>, group: seq<Row>)
    requires Graded(rank, candidates, table) && 0 < n <= |strata| && Selected(table, excluded, strata, n).Ok?
    ensures Selected(table, excluded, strata, n - 1) == Ok(before)
    ensures Selected(table, excluded, strata, n) == Ok(before + group)
    ensures |before| == Counts(strata[..n - 1])
    ensures Share(rank, candidates, group, strata[n - 1].0, strata[n - 1].1)
  {
    before := Selected(table, excluded, strata, n - 1).value;
    var (depth, count) := strata[n - 1];
    assert Gradable(table(depth));
    group := Stratum(table(depth), excluded + GraphsOf(before), count);
    SelectionIsNovel(table, excluded, strata, n - 1);
  }

  /** In a successful selection each stratum's slice is exactly its count of rows of its depth, in hash order. */
  lemma {:induction false} SelectionIsExact(rank: Rank, candidates: seq<Row>, table: int -> seq<Row>,
      excluded: seq<Graph>, strata: seq<(int, int)>, n: nat, s: nat) returns (chosen: seq<Row>)
    requires Graded(rank, candidates, table) && s < n <= |strata| && Selected(table, excluded, strata, n).Ok?
    ensures Selected(table, excluded, strata, n) == Ok(chosen)
    ensures InPlace(rank, candidates, chosen, strata, s)
  {
    var before, group := LastShare(rank, candidates, table, excluded, strata, n);
    chosen := before + group;
    CountsSnoc(strata, s);
    var from, to := Counts(strata[..s]), Counts(strata[..s + 1]);
    if s < n - 1 {
      var same := SelectionIsExact(rank, candidates, table, excluded, strata, n - 1, s);
      SliceOfFront(before, group, from, to);
    } else {
      SliceOfBack(before, group, from, to);
    }
  }

  lemma {:induction false} SliceOfFront<T>(front: seq<T>, back: seq<T>, from: int, to: int)
    requires 0 <= from <= to <= |front|
    ensures (front + back)[from..to] == front[from..to]
  {
  }

  lemma {:induction false} SliceOfBack<T>(front: seq<T>, back: seq<T>, from: int, to: int)
    requires from == |front| && to == |front| + |back|
    ensures (front + back)[from..to] == back
  {
  }

  lemma {:induction false} AllInPlace(rank: Rank, candidates: seq<Row>, excluded: seq<Graph>, strata: seq<(int, int)>,
      chosen: seq<Row>)
    requires AllGradable(candidates) && Readable(Table(rank, candidates))
    requires Selected(Table(rank, candidates), excluded, strata, |strata|) == Ok(chosen)
    ensures forall s :: 0 <= s < |strata| ==> InPlace(rank, candidates, chosen, strata, s)
  {
    TableGraded(rank, candidates);
    forall s | 0 <= s < |strata|
      ensures InPlace(rank, candidates, chosen, strata, s)
    {
      var same := SelectionIsExact(rank, candidates, Table(rank, candidates), excluded, strata, |strata|, s);
    }
  }

  /** The first stratum that fell short, and what was chosen before it. */
  lemma {:induction false} FirstShort(table: int -> seq<Row>, excluded: seq<Graph>, strata: seq<(int, int)>, n: nat)
    returns (s: nat, before: seq<Row>)
    requires Readable(table) && n <= |strata| && Selected(table, excluded, strata, n).Err?
    ensures s < n && Selected(table, excluded, strata, s) == Ok(before) && Gradable(table(strata[s].0))
    ensures var group := Stratum(table(strata[s].0), excluded + GraphsOf(before), strata[s].1);
      && |group| != strata[s].1
      && Selected(table, excluded, strata, n).error == Shortage(strata[s].0, |group|, strata[s].1)
  {
    if Selected(table, excluded, strata, n - 1).Err? {
      s, before := FirstShort(table, excluded, strata, n - 1);
    } else {
      s, before := n - 1, Selected(table, excluded, strata, n - 1).value;
    }
  }

  /**
   * A selection that reports a positive count unmet had too few novel classes left at that depth: fewer than
   * `count` eligible rows are pairwise non-isomorphic and isomorphic to nothing excluded or chosen before.
   */
  lemma {:induction false} ShortageIsReal(rank: Rank, candidates: seq<Row>, excluded: seq<Graph>,
      strata: seq<(int, int)>, n: nat, ws: seq<Row>) returns (s: nat, before: seq<Row>)
    requires AllGradable(candidates) && n <= |strata| && Readable(Table(rank, candidates))
    requires Selected(Table(rank, candidates), excluded, strata, n).Err?
    ensures s < n && Selected(Table(rank, candidates), excluded, strata, s) == Ok(before)
    ensures var short := Selected(Table(rank, candidates), excluded, strata, n).error;
      && short.depth == strata[s].0 && short.count == strata[s].1 && short.got != short.count
      && (0 < short.count ==> short.got < short.count)
      && (0 < short.count && Gradable(ws) && PairwiseNovel(ws, excluded + GraphsOf(before))
          && (forall i :: 0 <= i < |ws| ==> ws[i] in candidates && ws[i].depth == short.depth)
          ==> |ws| < short.count)
  {
    var table := Table(rank, candidates);
    s, before := FirstShort(table, excluded, strata, n);
    var (depth, count) := strata[s];
    var taken := excluded + GraphsOf(before);
    StratumIsExact(rank, candidates, taken, depth, count);
    if 0 < count && Gradable(ws) && PairwiseNovel(ws, taken)
       && forall i :: 0 <= i < |ws| ==> ws[i] in candidates && ws[i].depth == depth {
      forall i | 0 <= i < |ws|
        ensures ws[i] in table(depth)
      {
      }
      ShortOnlyWhenExhausted(table(depth), taken, count, ws);
    }
  }

  /** An index that has been offered what matters of the rows so far. */
  ghost predicate InStep(seen: seq<Graph>, rows: seq<Row>) {
    forall g :: WellFormed(g) ==> (FoundByScan(seen, g) <==> FoundByScan(GraphsOf(rows), g))
  }

  /** The selection as the source runs it, over one growing index of used structures. */
  method Select<B(==,!new)>(candidates: seq<Row>, excluded: StructureIndex<B>, strata: seq<(int, int)>, rank: Rank)
    returns (result: Result<seq<Row>, Shortage>)
    requires excluded.Valid() && AllGradable(candidates)
    modifies excluded
    ensures excluded.Valid() && excluded.seen == old(excluded.seen)
    ensures Readable(Table(rank, candidates))
    ensures result == Selected(Table(rank, candidates), excluded.seen, strata, |strata|)
    ensures result.Ok? ==> forall s :: 0 <= s < |strata| ==> InPlace(rank, candidates, result.value, strata, s)
  {
    TableReadable(rank, candidates);
    ghost var table := Table(rank, candidates);
    BucketIsInvariant();
    var used := new StructureIndex(GraphBucket, excluded.decides);
    var selected: seq<Row> := [];
    for s := 0 to |strata|
      invariant excluded.Valid() && excluded.seen == old(excluded.seen) && used.Valid()
      invariant Selected(table, excluded.seen, strata, s) == Ok(selected)
      invariant InStep(used.seen, selected)
    {
      var (depth, count) := strata[s];
      var rows := Eligible(rank, candidates, depth);
      EligibleGradable(rank, candidates, depth);
      var group := Fill(rows, excluded, used, selected, count);
      SelectStep(table, excluded.seen, strata, s, selected, rows, group);
      if |group| != count { return Err(Shortage(depth, |group|, count)); }
      selected := selected + group;
    }
    result := Ok(selected);
    AllInPlace(rank, candidates, excluded.seen, strata, selected);
  }

  lemma {:induction false} SelectStep(table: int -> seq<Row>, excluded: seq<Graph>, strata: seq<(int, int)>, n: nat,
                                      selected: seq<Row>, rows: seq<Row>, group: seq<Row>)
    requires Readable(table) && n < |strata| && Selected(table, excluded, strata, n) == Ok(selected)
    requires Gradable(rows) && rows == table(strata[n].0)
    requires group == Stratum(rows, excluded + GraphsOf(selected), strata[n].1)
    ensures |group| == strata[n].1 ==> Selected(table, excluded, strata, n + 1) == Ok(selected + group)
    ensures |group| != strata[n].1 ==>
      Selected(table, excluded, strata, |strata|) == Err(Shortage(strata[n].0, |group|, strata[n].1))
  {
    if |group| != strata[n].1 {
      ShortStays(table, excluded, strata, n + 1, |strata|);
    }
  }

  lemma {:induction false} ShortStays(
      table: int -> seq<Row>, excluded: seq<Graph>, strata: seq<(int, int)>, n: nat, m: nat)
    requires Readable(table) && n <= m <= |strata| && Selected(table, excluded, strata, n).Err?
    ensures Selected(table, excluded, strata, m) == Selected(table, excluded, strata, n)
  {
    if n < m {
      ShortStays(table, excluded, strata, n, m - 1);
    }
  }

  /** The inner loop: offers eligible rows in hash order until the quota is full. */
  method Fill<B(==,!new)>(rows: seq<Row>, excluded: StructureIndex<B>, used: StructureIndex<multiset<Degree>>,
                          selected: seq<Row>, count: int) returns (group: seq<Row>)
    requires excluded.Valid() && used.Valid() && Gradable(rows)
    requires InStep(used.seen, selected) && excluded as object != used
    modifies excluded, used
    ensures excluded.Valid() && used.Valid() && excluded.seen == old(excluded.seen)
    ensures group == Stratum(rows, excluded.seen + GraphsOf(selected), count)
    ensures InStep(used.seen, selected + group)
  {
    ghost var taken := excluded.seen + GraphsOf(selected);
    group := [];
    assert selected + group == selected;
    var n := 0;
    while n < |rows| && !(|group| > 0 && |group| == count)
      invariant 0 <= n <= |rows| && excluded.Valid() && used.Valid() && excluded.seen == old(excluded.seen)
      invariant group == Picks(rows, taken, count, n)
      invariant InStep(used.seen, selected + group)
    {
      group := OfferRow(excluded, used, rows, n, selected, group, taken, count);
      n := n + 1;
    }
    FullStays(rows, taken, count, n);
  }

  method OfferRow<B(==,!new)>(
      excluded: StructureIndex<B>, used: StructureIndex<multiset<Degree>>, rows: seq<Row>, n: nat,
      ghost selected: seq<Row>, group: seq<Row>, ghost taken: seq<Graph>, ghost count: int)
    returns (more: seq<Row>)
    requires excluded.Valid() && used.Valid() && excluded as object != used
    requires n < |rows| && Gradable(rows) && InStep(used.seen, selected + group)
    requires taken == excluded.seen + GraphsOf(selected)
    requires group == Picks(rows, taken, count, n) && !(|group| > 0 && |group| == count)
    modifies excluded, used
    ensures excluded.Valid() && used.Valid() && excluded.seen == old(excluded.seen)
    ensures more == Picks(rows, taken, count, n + 1) && InStep(used.seen, selected + more)
  {
    var picked := Offer(excluded, used, rows[n], selected, group);
    PickStep(rows, taken, count, n, group, picked);
    more := if picked then group + [rows[n]] else group;
  }

  /** One row: taken unless an excluded or used graph is isomorphic to it. */
  method Offer<B(==,!new)>(excluded: StructureIndex<B>, used: StructureIndex<multiset<Degree>>, row: Row,
                           ghost selected: seq<Row>, ghost group: seq<Row>) returns (picked: bool)
    requires excluded.Valid() && used.Valid() && excluded as object != used
    requires WellFormed(GraphOf(row)) && InStep(used.seen, selected + group)
    modifies excluded, used
    ensures excluded.Valid() && used.Valid() && excluded.seen == old(excluded.seen)
    ensures picked <==> !FoundByScan(excluded.seen + GraphsOf(selected) + GraphsOf(group), GraphOf(row))
    ensures InStep(used.seen, selected + if picked then group + [row] else group)
  {
    ScanSplits(excluded.seen, selected, group, GraphOf(row));
    var known := excluded.Contains(GraphOf(row));
    if known { return false; }
    ghost var seen := used.seen;
    picked := used.Add(GraphOf(row));
    OfferUpdates(seen, selected, group, row, picked);
  }

  lemma {:induction false} PickStep(
      rows: seq<Row>, taken: seq<Graph>, count: int, n: nat, group: seq<Row>, picked: bool)
    requires n < |rows| && Gradable(rows) && group == Picks(rows, taken, count, n)
    requires !(|group| > 0 && |group| == count)
    requires picked <==> !FoundByScan(taken + GraphsOf(group), GraphOf(rows[n]))
    ensures (if picked then group + [rows[n]] else group) == Picks(rows, taken, count, n + 1)
  {
  }

  lemma {:induction false} FullStays(rows: seq<Row>, taken: seq<Graph>, count: int, n: nat)
    requires n <= |rows| && Gradable(rows)
    requires n == |rows| || (|Picks(rows, taken, count, n)| > 0 && |Picks(rows, taken, count, n)| == count)
    ensures Picks(rows, taken, count, |rows|) == Picks(rows, taken, count, n)
    decreases |rows| - n
  {
    if n < |rows| {
      FullStays(rows, taken, count, n + 1);
    }
  }

  lemma {:induction false} ScanSplits(excluded: seq<Graph>, selected: seq<Row>, group: seq<Row>, g: Graph)
    ensures FoundByScan(excluded + GraphsOf(selected) + GraphsOf(group), g) <==>
      FoundByScan(excluded, g) || FoundByScan(GraphsOf(selected + group), g)
  {
    assert GraphsOf(selected + group) == GraphsOf(selected) + GraphsOf(group);
    assert forall h :: h in excluded + GraphsOf(selected) + GraphsOf(group) <==>
      h in excluded || h in GraphsOf(selected + group);
  }

  /** Offering a graph to the used index keeps it in step with the selection so far. */
  lemma {:induction false} OfferUpdates(seen: seq<Graph>, selected: seq<Row>, group: seq<Row>, row: Row, added: bool)
    requires WellFormed(GraphOf(row))
    requires InStep(seen, selected + group)
    requires added <==> !FoundByScan(seen, GraphOf(row))
    ensures var after := if added then group + [row] else group;
      InStep(seen + [GraphOf(row)], selected + after)
  {
    var after := if added then group + [row] else group;
    var r := GraphOf(row);
    forall g | WellFormed(g)
      ensures FoundByScan(seen + [r], g) <==> FoundByScan(GraphsOf(selected + after), g)
    {
      ScanAppends(seen, r, g);
      if added {
        assert GraphsOf(selected + after) == GraphsOf(selected + group) + [r];
        ScanAppends(GraphsOf(selected + group), r, g);
      } else if Isomorphic(g, r) {
        var h :| h in seen && Isomorphic(r, h);
        IsoTransitive(g, r, h);
      }
    }
  }

  lemma {:induction false} ScanAppends(seen: seq<Graph>, r: Graph, g: Graph)
    ensures FoundByScan(seen + [r], g) <==> FoundByScan(seen, g) || Isomorphic(g, r)
  {
    assert forall h :: h in seen + [r] <==> h in seen || h == r;
  }
}

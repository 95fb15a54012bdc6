/** The benchmark's summary: counts by condition and the classification of pairs. */
module BenchmarkSummary {
  import opened Common
  import opened Benchmark

  predicate Failed(b: Body) { b.outcome.failed }

  predicate Scored(b: Body) { !b.outcome.failed && b.outcome.score.Some? }

  predicate Under(b: Body, c: Condition) { b.tag == Known(c) }

  /** The last record of a pair under a condition. */
  function Last(records: seq<Body>, id: string, c: Condition): Option<Body> {
    if records == [] then None
    else
      var b := records[|records| - 1];
      if Under(b, c) && b.pair == Some(id) then Some(b) else Last(records[..|records| - 1], id, c)
  }

  function PairIds(records: seq<Body>): set<string> {
    set i | 0 <= i < |records| && records[i].tag.Known? && records[i].pair.Some? :: records[i].pair.value
  }

  datatype Kind = Valid | Unpaired | Failing

  function KindOf(rlm: Option<Body>, direct: Option<Body>): Kind {
    if rlm.None? || direct.None? then Unpaired
    else if Failed(rlm.value) || Failed(direct.value) then Failing
    else if rlm.value.outcome.score.None? || direct.value.outcome.score.None? then Unpaired
    else Valid
  }

  function PairKind(records: seq<Body>, id: string): Kind { KindOf(Last(records, id, Rlm), Last(records, id, Direct)) }

  function OfKind(records: seq<Body>, ids: set<string>, k: Kind): set<string> {
    set id | id in ids && PairKind(records, id) == k
  }

  datatype Group = Group(total: nat, scored: nat, failures: nat)

  function Plus(g: Group, b: Body): Group {
    Group(g.total + 1, g.scored + (if Scored(b) then 1 else 0), g.failures + (if Failed(b) then 1 else 0))
  }

  /** The counts of the records with a tag, or of all of them. */
  function GroupOf(records: seq<Body>, tag: Option<Tag>): Group {
    if records == [] then Group(0, 0, 0)
    else
      var b, before := records[|records| - 1], GroupOf(records[..|records| - 1], tag);
      if tag == None || tag == Some(b.tag) then Plus(before, b) else before
  }

  datatype Summary = Summary(
      all: Group, conditions: map<Condition, Group>, pairs: nat, valid: nat, unpaired: nat, failing: nat)

  predicate Numeric(b: Body) { Scored(b) ==> b.outcome.score.value.Number? }

  function Conditions(records: seq<Body>): set<Condition> {
    set i | 0 <= i < |records| && records[i].tag.Known? :: records[i].tag.condition
  }

  function SummaryOf(records: seq<Body>): Result<Summary, Error> {
    if records == [] then Err(NoExamples)
    else if exists i :: 0 <= i < |records| && records[i].tag.Other? then Err(InvalidCondition)
    else if exists i :: 0 <= i < |records| && !Numeric(records[i]) then Err(NonnumericScore)
    else
      var ids := PairIds(records);
      Ok(Summary(GroupOf(records, None), map c | c in Conditions(records) :: GroupOf(records, Some(Known(c))), |ids|,
                 |OfKind(records, ids, Valid)|, |OfKind(records, ids, Unpaired)|, |OfKind(records, ids, Failing)|))
  }

  // ----- The loops -----

  lemma {:induction false} OneMoreRecord(records: seq<Body>, i: nat)
    requires i < |records|
    ensures forall tag ::
      var before := GroupOf(records[..i], tag);
      var counted := tag == None || tag == Some(records[i].tag);
      GroupOf(records[..i + 1], tag) == if counted then Plus(before, records[i]) else before
    ensures forall id, c ::
      var before := Last(records[..i], id, c);
      var latest := Under(records[i], c) && records[i].pair == Some(id);
      Last(records[..i + 1], id, c) == if latest then Some(records[i]) else before
    ensures PairIds(records[..i + 1])
      == PairIds(records[..i]) + if records[i].tag.Known? && records[i].pair.Some? then {records[i].pair.value} else {}
    ensures Conditions(records[..i + 1]) ==
      Conditions(records[..i]) + if records[i].tag.Known? then {records[i].tag.condition} else {}
  {
    var now, next := records[..i], records[..i + 1];
    assert next[..i] == now;
    forall id | id in PairIds(now)
      ensures id in PairIds(next)
    {
      var k :| 0 <= k < i && now[k].tag.Known? && now[k].pair == Some(id);
      assert next[k].tag.Known? && next[k].pair == Some(id);
    }
    forall c | c in Conditions(now)
      ensures c in Conditions(next)
    {
      var k :| 0 <= k < i && now[k].tag == Known(c);
      assert next[k].tag == Known(c);
    }
    if records[i].tag.Known? {
      assert next[i].tag.Known?;
    }
  }

  /**
   * What the first loop has gathered: the counts of each condition, and a pair's records by condition, the
   * last of each kept.
   */
  ghost predicate Grouped(records: seq<Body>, conditions: map<Condition, Group>) {
    && conditions.Keys == Conditions(records)
    && forall c :: c in conditions ==> conditions[c] == GroupOf(records, Some(Known(c)))
  }

  ghost predicate PairedUp(records: seq<Body>, pairs: map<string, map<Condition, Body>>) {
    && pairs.Keys == PairIds(records)
    && forall id, c :: id in pairs ==> (if c in pairs[id] then Some(pairs[id][c]) else None) == Last(records, id, c)
  }

  function Counted(conditions: map<Condition, Group>, b: Body): map<Condition, Group> {
    if !b.tag.Known? then conditions
    else
      var g := if b.tag.condition in conditions then conditions[b.tag.condition] else Group(0, 0, 0);
      conditions[b.tag.condition := Plus(g, b)]
  }

  function Filed(pairs: map<string, map<Condition, Body>>, b: Body): map<string, map<Condition, Body>> {
    if !b.tag.Known? || b.pair.None? then pairs
    else
      var pair := if b.pair.value in pairs then pairs[b.pair.value] else map[];
      pairs[b.pair.value := pair[b.tag.condition := b]]
  }

  lemma {:induction false} CountedKeeps(records: seq<Body>, i: nat, conditions: map<Condition, Group>)
    requires i < |records| && Grouped(records[..i], conditions)
    ensures Grouped(records[..i + 1], Counted(conditions, records[i]))
  {
    OneMoreRecord(records, i);
    if records[i].tag.Known? && records[i].tag.condition !in conditions {
      NoConditionNoCount(records[..i], records[i].tag.condition);
    }
  }

  lemma {:induction false} FiledKeeps(records: seq<Body>, i: nat, pairs: map<string, map<Condition, Body>>)
    requires i < |records| && PairedUp(records[..i], pairs)
    ensures PairedUp(records[..i + 1], Filed(pairs, records[i]))
  {
    OneMoreRecord(records, i);
    if records[i].tag.Known? && records[i].pair.Some? && records[i].pair.value !in pairs {
      forall c
        ensures Last(records[..i], records[i].pair.value, c) == None
      {
        NoPairNoRecord(records[..i], records[i].pair.value, c);
      }
    }
  }

  lemma {:induction false} NoPairNoRecord(records: seq<Body>, id: string, c: Condition)
    requires id !in PairIds(records)
    ensures Last(records, id, c) == None
  {
    if records != [] {
      OneMoreRecord(records, |records| - 1);
      assert records[..|records|] == records;
      NoPairNoRecord(records[..|records| - 1], id, c);
    }
  }

  lemma {:induction false} NoConditionNoCount(records: seq<Body>, c: Condition)
    requires c !in Conditions(records)
    ensures GroupOf(records, Some(Known(c))) == Group(0, 0, 0)
  {
    if records != [] {
      OneMoreRecord(records, |records| - 1);
      assert records[..|records|] == records;
      NoConditionNoCount(records[..|records| - 1], c);
    }
  }

  method Summarize(records: seq<Body>) returns (r: Result<Summary, Error>)
    ensures r == SummaryOf(records)
  {
    if records == [] {
      return Err(NoExamples);
    }
    var conditions, pairs := Gather(records);
    if conditions.Err? {
      return Err(conditions.error);
    }
    var all, numeric := Totals(records);
    if !numeric {
      return Err(NonnumericScore);
    }
    var valid, unpaired, failing := Classify(records, pairs);
    assert conditions.value == map c | c in Conditions(records) :: GroupOf(records, Some(Known(c)));
    r := Ok(Summary(all, conditions.value, |pairs.Keys|, valid, unpaired, failing));
  }

  method Totals(records: seq<Body>) returns (all: Group, numeric: bool)
    ensures all == GroupOf(records, None) && (numeric <==> forall k :: 0 <= k < |records| ==> Numeric(records[k]))
  {
    all, numeric := Group(0, 0, 0), true;
    for i := 0 to |records|
      invariant all == GroupOf(records[..i], None)
      invariant numeric <==> forall k :: 0 <= k < i ==> Numeric(records[k])
    {
      OneMoreRecord(records, i);
      numeric := numeric && (Scored(records[i]) ==> records[i].outcome.score.value.Number?);
      all := Plus(all, records[i]);
    }
    assert records[..|records|] == records;
  }

  method Gather(records: seq<Body>)
    returns (r: Result<map<Condition, Group>, Error>, pairs: map<string, map<Condition, Body>>)
    ensures r.Err? <==> exists i :: 0 <= i < |records| && records[i].tag.Other?
    ensures r.Err? ==> r.error == InvalidCondition
    ensures r.Ok? ==> Grouped(records, r.value) && PairedUp(records, pairs)
  {
    var conditions: map<Condition, Group> := map[];
    pairs := map[];
    for i := 0 to |records|
      invariant forall k :: 0 <= k < i ==> !records[k].tag.Other?
      invariant Grouped(records[..i], conditions) && PairedUp(records[..i], pairs)
    {
      if records[i].tag.Other? {
        return Err(InvalidCondition), pairs;
      }
      CountedKeeps(records, i, conditions);
      FiledKeeps(records, i, pairs);
      conditions := Counted(conditions, records[i]);
      pairs := Filed(pairs, records[i]);
    }
    assert records[..|records|] == records;
    r := Ok(conditions);
  }

  function KindOfPair(pair: map<Condition, Body>): Kind {
    if pair.Keys != {Rlm, Direct} then Unpaired
    else if Failed(pair[Rlm]) || Failed(pair[Direct]) then Failing
    else if pair[Rlm].outcome.score.None? || pair[Direct].outcome.score.None? then Unpaired
    else Valid
  }

  lemma {:induction false} KindsAgree(pair: map<Condition, Body>)
    ensures KindOfPair(pair) ==
      KindOf(if Rlm in pair then Some(pair[Rlm]) else None, if Direct in pair then Some(pair[Direct]) else None)
  {
    if Rlm in pair && Direct in pair {
      forall c | c in pair.Keys
        ensures c in {Rlm, Direct}
      {
        match c
        case Rlm =>
        case Direct =>
      }
      assert pair.Keys == {Rlm, Direct};
    }
  }

  method Classify(ghost records: seq<Body>, pairs: map<string, map<Condition, Body>>)
    returns (valid: nat, unpaired: nat, failing: nat)
    requires PairedUp(records, pairs)
    ensures valid == |OfKind(records, pairs.Keys, Valid)| && unpaired == |OfKind(records, pairs.Keys, Unpaired)|
    ensures failing == |OfKind(records, pairs.Keys, Failing)|
  {
    valid, unpaired, failing := 0, 0, 0;
    var left := pairs.Keys;
    ghost var seen: set<string> := {};
    while left != {}
      invariant left + seen == pairs.Keys && left !! seen
      invariant valid == |OfKind(records, seen, Valid)| && unpaired == |OfKind(records, seen, Unpaired)|
      invariant failing == |OfKind(records, seen, Failing)|
      decreases left
    {
      var id :| id in left;
      OneMorePair(records, seen, id);
      KindsAgree(pairs[id]);
      match KindOfPair(pairs[id]) {
        case Valid => valid := valid + 1;
        case Unpaired => unpaired := unpaired + 1;
        case Failing => failing := failing + 1;
      }
      left, seen := left - {id}, seen + {id};
    }
    assert seen == pairs.Keys;
  }

  lemma {:induction false} OneMorePair(records: seq<Body>, seen: set<string>, id: string)
    requires id !in seen
    ensures forall k ::
      |OfKind(records, seen + {id}, k)| == |OfKind(records, seen, k)| + if PairKind(records, id) == k then 1 else 0
  {
    forall k
      ensures |OfKind(records, seen + {id}, k)| ==
        |OfKind(records, seen, k)| + if PairKind(records, id) == k then 1 else 0
    {
      if PairKind(records, id) == k {
        assert OfKind(records, seen + {id}, k) == OfKind(records, seen, k) + {id};
      } else {
        assert OfKind(records, seen + {id}, k) == OfKind(records, seen, k);
      }
    }
  }

  // ----- What the summary adds up to -----

  lemma {:induction false} OfKindSplits(records: seq<Body>, ids: set<string>)
    ensures |ids| == |OfKind(records, ids, Valid)| + |OfKind(records, ids, Unpaired)| + |OfKind(records, ids, Failing)|
  {
    var v, u, f := OfKind(records, ids, Valid), OfKind(records, ids, Unpaired), OfKind(records, ids, Failing);
    forall id | id in ids
      ensures id in v + u + f
    {
      match PairKind(records, id)
      case Valid =>
      case Unpaired =>
      case Failing =>
    }
    assert ids == v + u + f;
  }

  function Together(a: Group, b: Group): Group {
    Group(a.total + b.total, a.scored + b.scored, a.failures + b.failures)
  }

  /** The counts of the three tags together. */
  function AllTags(records: seq<Body>): Group {
    var rlm, direct := GroupOf(records, Some(Known(Rlm))), GroupOf(records, Some(Known(Direct)));
    Together(Together(rlm, direct), GroupOf(records, Some(Absent)))
  }

  lemma {:induction false} OneTagMore(records: seq<Body>)
    requires records != [] && !records[|records| - 1].tag.Other?
    ensures AllTags(records) == Plus(AllTags(records[..|records| - 1]), records[|records| - 1])
  {
    match records[|records| - 1].tag
    case Absent =>
    case Known(c) => match c { case Rlm => case Direct => }
  }

  lemma {:induction false} GroupsSplit(records: seq<Body>)
    requires forall i :: 0 <= i < |records| ==> !records[i].tag.Other?
    ensures GroupOf(records, None) == AllTags(records)
  {
    if records != [] {
      var n := |records| - 1;
      var rest := records[..n];
      assert forall i :: 0 <= i < n ==> rest[i] == records[i];
      GroupsSplit(rest);
      OneTagMore(records);
      assert GroupOf(records, None) == Plus(GroupOf(rest, None), records[n]);
    }
  }

  lemma {:induction false} ScoredOrFailed(records: seq<Body>)
    ensures var g := GroupOf(records, None); g.total == |records| && g.scored + g.failures <= g.total
  {
    if records != [] {
      ScoredOrFailed(records[..|records| - 1]);
    }
  }

  /** What a summary says of a condition; an unlisted one has no records. */
  function Listed(s: Summary, c: Condition): Group { if c in s.conditions then s.conditions[c] else Group(0, 0, 0) }

  lemma {:induction false} GroupsOfConditions(records: seq<Body>, s: Summary, c: Condition)
    requires SummaryOf(records) == Ok(s)
    ensures GroupOf(records, Some(Known(c))) == Listed(s, c)
  {
    if c !in Conditions(records) {
      NoConditionNoCount(records, c);
    }
  }

  /** The places of the records of a group: those with the tag, or all. */
  function Places(records: seq<Body>, tag: Option<Tag>): set<nat> {
    set i: nat | i < |records| && (tag == None || tag == Some(records[i].tag))
  }

  function ScoredAmong(records: seq<Body>, places: set<nat>): set<nat> {
    set i | i in places && i < |records| && !records[i].outcome.failed && records[i].outcome.score.Some?
  }

  function FailedAmong(records: seq<Body>, places: set<nat>): set<nat> {
    set i | i in places && i < |records| && records[i].outcome.failed
  }

  /** The counts of a group are those of its records, of the ones with a score, and of the ones that failed. */
  lemma {:induction false} GroupCounts(records: seq<Body>, tag: Option<Tag>)
    ensures var g, places := GroupOf(records, tag), Places(records, tag);
      g.total == |places| && g.scored == |ScoredAmong(records, places)| && g.failures == |FailedAmong(records, places)|
  {
    if records != [] {
      var n := |records| - 1;
      GroupCounts(records[..n], tag);
      var counted := tag == None || tag == Some(records[n].tag);
      OneMorePlace(records, tag, counted);
    }
  }

  lemma {:induction false} OneMorePlace(records: seq<Body>, tag: Option<Tag>, counted: bool)
    requires records != [] && counted == (tag == None || tag == Some(records[|records| - 1].tag))
    ensures var n := |records| - 1;
      var before, places := Places(records[..n], tag), Places(records, tag);
      && |places| == |before| + (if counted then 1 else 0)
      && |ScoredAmong(records, places)| ==
        |ScoredAmong(records[..n], before)| + (if counted && Scored(records[n]) then 1 else 0)
      && |FailedAmong(records, places)| ==
        |FailedAmong(records[..n], before)| + (if counted && Failed(records[n]) then 1 else 0)
  {
    var n := |records| - 1;
    var before, places := Places(records[..n], tag), Places(records, tag);
    assert places == if counted then before + {n} else before;
    OneMoreScored(records, n, before, places, counted);
    OneMoreFailed(records, n, before, places, counted);
  }

  lemma {:induction false} OneMoreScored(
      records: seq<Body>, n: nat, before: set<nat>, places: set<nat>, counted: bool)
    requires |records| == n + 1 && (forall i :: i in before ==> i < n)
    requires places == if counted then before + {n} else before
    ensures |ScoredAmong(records, places)| ==
      |ScoredAmong(records[..n], before)| + if counted && Scored(records[n]) then 1 else 0
  {
    var scored := ScoredAmong(records[..n], before);
    assert ScoredAmong(records, places) == if counted && Scored(records[n]) then scored + {n} else scored;
  }

  lemma {:induction false} OneMoreFailed(
      records: seq<Body>, n: nat, before: set<nat>, places: set<nat>, counted: bool)
    requires |records| == n + 1 && (forall i :: i in before ==> i < n)
    requires places == if counted then before + {n} else before
    ensures |FailedAmong(records, places)| ==
      |FailedAmong(records[..n], before)| + if counted && Failed(records[n]) then 1 else 0
  {
    var failed := FailedAmong(records[..n], before);
    assert FailedAmong(records, places) == if counted && Failed(records[n]) then failed + {n} else failed;
  }

  /** The last record of a pair under a condition is at this place. */
  ghost predicate LastAt(records: seq<Body>, i: nat, id: string, c: Condition) {
    && i < |records| && records[i].tag == Known(c) && records[i].pair == Some(id)
    && forall k :: i < k < |records| ==> !(records[k].tag == Known(c) && records[k].pair == Some(id))
  }

  lemma {:induction false} LastMeans(records: seq<Body>, id: string, c: Condition)
    ensures forall i: nat :: LastAt(records, i, id, c) ==> Last(records, id, c) == Some(records[i])
    ensures Last(records, id, c).Some? ==> exists i: nat :: LastAt(records, i, id, c)
  {
    if records != [] {
      var n := |records| - 1;
      LastMeans(records[..n], id, c);
      if LastAt(records, n, id, c) {
      } else {
        assert forall k :: 0 <= k < n ==> records[..n][k] == records[k];
        assert forall i: nat :: LastAt(records, i, id, c) <==> LastAt(records[..n], i, id, c);
      }
    }
  }

  /**
   * A pair is valid when its last records under both conditions have scores and did not fail, failing when there
   * are both and one of them failed, and unpaired otherwise.
   */
  lemma {:induction false} PairKindExactly(records: seq<Body>, id: string)
    ensures PairKind(records, id) == Valid <==> exists i: nat, j: nat ::
      && LastAt(records, i, id, Rlm) && LastAt(records, j, id, Direct)
      && !records[i].outcome.failed && !records[j].outcome.failed
      && records[i].outcome.score.Some? && records[j].outcome.score.Some?
    ensures PairKind(records, id) == Failing <==> exists i: nat, j: nat ::
      && LastAt(records, i, id, Rlm) && LastAt(records, j, id, Direct)
      && (records[i].outcome.failed || records[j].outcome.failed)
  {
    LastMeans(records, id, Rlm);
    LastMeans(records, id, Direct);
    if Last(records, id, Rlm).Some? && Last(records, id, Direct).Some? {
      var i: nat :| LastAt(records, i, id, Rlm);
      var j: nat :| LastAt(records, j, id, Direct);
      assert Last(records, id, Rlm) == Some(records[i]) && Last(records, id, Direct) == Some(records[j]);
    }
  }

  lemma {:induction false} PairsAddUp(records: seq<Body>, s: Summary)
    requires SummaryOf(records) == Ok(s)
    ensures s.pairs == |PairIds(records)| == s.valid + s.unpaired + s.failing && s.all == GroupOf(records, None)
    ensures s.valid == |OfKind(records, PairIds(records), Valid)|
    ensures s.failing == |OfKind(records, PairIds(records), Failing)|
  {
    OfKindSplits(records, PairIds(records));
  }

  /**
   * Every pair is valid, unpaired or failing; a condition is listed exactly with the counts of its own
   * records, these and the records without a condition are all of them, and none is both scored and failed.
   */
  lemma {:induction false} SummaryAddsUp(records: seq<Body>, s: Summary)
    requires SummaryOf(records) == Ok(s)
    ensures s.pairs == |PairIds(records)| == s.valid + s.unpaired + s.failing
    ensures s.valid == |OfKind(records, PairIds(records), Valid)|
    ensures s.failing == |OfKind(records, PairIds(records), Failing)|
    ensures forall c :: Listed(s, c) == GroupOf(records, Some(Known(c)))
    ensures s.all == Together(Together(Listed(s, Rlm), Listed(s, Direct)), GroupOf(records, Some(Absent)))
    ensures s.all.total == |records| && s.all.scored + s.all.failures <= s.all.total
  {
    PairsAddUp(records, s);
    GroupsSplit(records);
    ScoredOrFailed(records);
    forall c
      ensures Listed(s, c) == GroupOf(records, Some(Known(c)))
    {
      GroupsOfConditions(records, s, c);
    }
  }

  // ----- The summary of a finished run -----

  function Bodies(results: seq<Item>): seq<Body>
    requires forall i :: 0 <= i < |results| ==> results[i].Row?
  {
    seq(|results|, i requires 0 <= i < |results| => results[i].body)
  }

  /** With one record to a key, the last record of a key is its only one. */
  lemma {:induction false} LastIsOnly(results: seq<Item>, n: nat, i: nat)
    requires forall k :: 0 <= k < |results| ==> results[k].Row? && Keyed(results[k])
    requires forall k, l :: 0 <= k < l < |results| ==> KeyOf(results[k]) != KeyOf(results[l])
    requires i < n <= |results|
    ensures Last(Bodies(results)[..n], KeyOf(results[i]).0, KeyOf(results[i]).1) == Some(results[i].body)
  {
    OneMoreRecord(Bodies(results), n - 1);
    if i < n - 1 {
      LastIsOnly(results, n - 1, i);
    }
  }

  /**
   * In the summary of a finished run, whatever checkpoints it passed through, every requested comparison is
   * one pair with both records.
   */
  lemma {:induction false} FinishedRunIsPaired(
      comparisons: seq<Comparison>, results: seq<Item>, keys: set<(string, Condition)>)
    requires Sound(comparisons, results, keys) && forall key :: Occurs(Arms(comparisons), key) <==> key in keys
    ensures forall i :: 0 <= i < |results| ==> Keyed(results[i])
    ensures PairIds(Bodies(results)) == set c | c in comparisons :: c.id
    ensures forall i :: 0 <= i < |results| ==>
      Last(Bodies(results), KeyOf(results[i]).0, KeyOf(results[i]).1) == Some(results[i].body)
    ensures forall c :: c in comparisons ==>
      Last(Bodies(results), c.id, Rlm).Some? && Last(Bodies(results), c.id, Direct).Some?
  {
    var records := Bodies(results);
    forall i | 0 <= i < |results|
      ensures Last(records, KeyOf(results[i]).0, KeyOf(results[i]).1) == Some(results[i].body)
    {
      LastIsOnly(results, |results|, i);
      assert records[..|results|] == records;
    }
    forall c | c in comparisons
      ensures c.id in PairIds(records) && Last(records, c.id, Rlm).Some? && Last(records, c.id, Direct).Some?
    {
      BothArms(comparisons, results, keys, c, Rlm);
      BothArms(comparisons, results, keys, c, Direct);
    }
    forall id | id in PairIds(records)
      ensures id in set c | c in comparisons :: c.id
    {
      var i :| 0 <= i < |records| && records[i].tag.Known? && records[i].pair == Some(id);
      assert ValidateRecord(results[i], comparisons).None?;
      assert Find(comparisons, results[i].body.pair).value in comparisons;
    }
  }

  lemma {:induction false} BothArms(
      comparisons: seq<Comparison>, results: seq<Item>, keys: set<(string, Condition)>, c: Comparison,
      condition: Condition)
    requires Sound(comparisons, results, keys) && forall key :: Occurs(Arms(comparisons), key) <==> key in keys
    requires c in comparisons && forall i :: 0 <= i < |results| ==> Keyed(results[i])
    requires forall i :: 0 <= i < |results| ==>
      Last(Bodies(results), KeyOf(results[i]).0, KeyOf(results[i]).1) == Some(results[i].body)
    ensures c.id in PairIds(Bodies(results)) && Last(Bodies(results), c.id, condition).Some?
  {
    var arm := Arm(c, condition);
    ArmIsRequested(comparisons, arm);
    var k :| 0 <= k < |Arms(comparisons)| && Arms(comparisons)[k] == arm;
    assert Occurs(Arms(comparisons), arm.Key());
    var i :| 0 <= i < |results| && Keyed(results[i]) && KeyOf(results[i]) == arm.Key();
    assert Bodies(results)[i].tag.Known? && Bodies(results)[i].pair == Some(c.id);
  }
}

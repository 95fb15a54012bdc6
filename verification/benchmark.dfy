/** The paired benchmark runner: checkpoints sealed by a digest, attempts that may die at any call, and resumption. */
module Benchmark {
  import opened Common

  datatype Condition = Rlm | Direct

  /** `id` is the digest of the whole comparison, prompts included. */
  datatype Comparison = Comparison(id: string, rlmPrompt: string, directPrompt: string) {
    function Prompt(condition: Condition): string { if condition.Rlm? then rlmPrompt else directPrompt }
  }

  /** Digests are injective: one id, one comparison. */
  ghost predicate IdsIdentify(comparisons: seq<Comparison>) {
    forall i, j :: 0 <= i < |comparisons| && 0 <= j < |comparisons| && comparisons[i].id == comparisons[j].id ==>
      comparisons[i] == comparisons[j]
  }

  datatype Target = Target(condition: Condition, url: string)

  datatype Error = NoExamples | BadTargets | UnreadableCheckpoint | ForeignCheckpoint | CheckpointDigest
                 | MalformedRecord | ForeignRecord | EpisodeMismatch | PromptMismatch | RecordDigest | DuplicateRecord
                 | InvalidCondition | NonnumericScore

  // ----- Targets -----

  function Normalize(targets: seq<Target>): Result<(Target, Target), Error> {
    if |targets| == 2 && targets[0].condition != targets[1].condition then
      Ok(if targets[0].condition.Rlm? then (targets[0], targets[1]) else (targets[1], targets[0]))
    else Err(BadTargets)
  }

  lemma {:induction false} ThirdRepeats(a: Condition, b: Condition, c: Condition)
    requires a != b
    ensures c == a || c == b
  {
    match a
    case Rlm => assert b == Direct; match c { case Rlm => case Direct => }
    case Direct => assert b == Rlm; match c { case Rlm => case Direct => }
  }

  /** One pass over the targets: a repeated condition or a missing one is refused. */
  method NormalizeTargets(targets: seq<Target>) returns (r: Result<(Target, Target), Error>)
    ensures r == Normalize(targets)
  {
    var found: map<Condition, Target> := map[];
    for i := 0 to |targets|
      invariant i <= 2
      invariant i == 0 ==> found == map[]
      invariant i == 1 ==> found == map[targets[0].condition := targets[0]]
      invariant i == 2 ==>
        && targets[0].condition != targets[1].condition
        && found == map[targets[0].condition := targets[0], targets[1].condition := targets[1]]
    {
      if i == 2 {
        ThirdRepeats(targets[0].condition, targets[1].condition, targets[2].condition);
      }
      if targets[i].condition in found {
        return Err(BadTargets);
      }
      found := found[targets[i].condition := targets[i]];
    }
    if found.Keys != {Rlm, Direct} {
      return Err(BadTargets);
    }
    r := Ok((found[Rlm], found[Direct]));
  }

  // ----- Records and checkpoints -----

  datatype Score = Number(value: real) | NotANumber

  datatype Outcome = Outcome(failed: bool, score: Option<Score>)

  datatype Tag = Absent | Other | Known(condition: Condition)

  /** The fields of a record; a pair of None is one that is not text. */
  datatype Body = Body(
      pair: Option<string>, tag: Tag, episode: Option<(string, Condition)>, prompt: string, outcome: Outcome)

  /** What a checkpoint's list may hold. The seal stands for a digest, and is the sealed value itself. */
  datatype Item = Malformed | Row(body: Body, seal: Option<Body>)

  datatype Spec = Spec(comparisons: seq<Comparison>, targets: (Target, Target))

  datatype Contents = Contents(fingerprint: Spec, spec: Spec, results: Option<seq<Item>>)

  datatype File = Unreadable | Sheet(contents: Contents, seal: Option<Contents>)

  /** A comparison under one condition: one call. */
  datatype Arm = Arm(comparison: Comparison, condition: Condition) {
    function Key(): (string, Condition) { (comparison.id, condition) }
  }

  function Arms(comparisons: seq<Comparison>): seq<Arm> {
    if comparisons == [] then []
    else
      var c := comparisons[|comparisons| - 1];
      Arms(comparisons[..|comparisons| - 1]) + [Arm(c, Rlm), Arm(c, Direct)]
  }

  function Signed(arm: Arm, outcome: Outcome): Item {
    var (id, condition) := arm.Key();
    var body := Body(Some(id), Known(condition), Some(arm.Key()), arm.comparison.Prompt(condition), outcome);
    Row(body, Some(body))
  }

  function Sealed(spec: Spec, results: seq<Item>): File {
    var contents := Contents(spec, spec, Some(results));
    Sheet(contents, Some(contents))
  }

  function Load(file: File, spec: Spec): Result<seq<Item>, Error> {
    if file.Unreadable? then Err(UnreadableCheckpoint)
    else if file.contents.fingerprint != spec || file.contents.spec != spec || file.contents.results.None?
    then Err(ForeignCheckpoint)
    else if file.seal != Some(file.contents) then Err(CheckpointDigest)
    else Ok(file.contents.results.value)
  }

  function Find(comparisons: seq<Comparison>, id: Option<string>): (r: Option<Comparison>)
    ensures r.Some? ==> r.value in comparisons && id == Some(r.value.id)
    ensures r.None? ==> forall c :: c in comparisons ==> id != Some(c.id)
  {
    if comparisons == [] then None
    else if id == Some(comparisons[0].id) then Some(comparisons[0])
    else Find(comparisons[1..], id)
  }

  function ValidateRecord(item: Item, comparisons: seq<Comparison>): Option<Error> {
    if item.Malformed? then Some(MalformedRecord)
    else
      var found := Find(comparisons, item.body.pair);
      if found.None? || !item.body.tag.Known? then Some(ForeignRecord)
      else if item.body.episode != Some((found.value.id, item.body.tag.condition)) then Some(EpisodeMismatch)
      else if item.body.prompt != found.value.Prompt(item.body.tag.condition) then Some(PromptMismatch)
      else if item.seal != Some(item.body) then Some(RecordDigest)
      else None
  }

  predicate Keyed(item: Item) { item.Row? && item.body.pair.Some? && item.body.tag.Known? }

  function KeyOf(item: Item): (string, Condition)
    requires Keyed(item)
  {
    (item.body.pair.value, item.body.tag.condition)
  }

  /** The completed keys of a checkpoint's records, or the first fault in it. */
  function Completed(comparisons: seq<Comparison>, items: seq<Item>): (r: Result<set<(string, Condition)>, Error>)
    ensures r.Ok? ==> forall i :: 0 <= i < |items| ==> Keyed(items[i])
    ensures r.Ok? ==> forall k :: k in r.value <==> exists i :: 0 <= i < |items| && KeyOf(items[i]) == k
  {
    if items == [] then Ok({})
    else
      var n := |items| - 1;
      match Completed(comparisons, items[..n])
      case Err(e) => Err(e)
      case Ok(keys) =>
        var fault := ValidateRecord(items[n], comparisons);
        if fault.Some? then Err(fault.value)
        else if KeyOf(items[n]) in keys then Err(DuplicateRecord)
        else
          assert forall i :: 0 <= i < n ==> items[..n][i] == items[i];
          Ok(keys + {KeyOf(items[n])})
  }

  // ----- One attempt -----

  /** Around one call and the store of its record: it survives, dies before the store is replaced, or dies after. */
  datatype When = Lives | DiesBefore | DiesAfter

  datatype Progress = Progress(
      results: seq<Item>, completed: set<(string, Condition)>, file: Option<File>, calls: nat, dead: bool)

  function CallArm(
      spec: Spec, stored: bool, answer: Arm -> Outcome, when: nat -> When, p: Progress, arm: Arm): Progress {
    if p.dead || arm.Key() in p.completed then p
    else if when(p.calls).DiesBefore? then p.(calls := p.calls + 1, dead := true)
    else
      var results := p.results + [Signed(arm, answer(arm))];
      var file := if stored then Some(Sealed(spec, results)) else p.file;
      Progress(results, p.completed + {arm.Key()}, file, p.calls + 1, when(p.calls).DiesAfter?)
  }

  function CallArms(
      spec: Spec, stored: bool, answer: Arm -> Outcome, when: nat -> When, p: Progress, arms: seq<Arm>): Progress {
    if arms == [] then p
    else
      var before := CallArms(spec, stored, answer, when, p, arms[..|arms| - 1]);
      CallArm(spec, stored, answer, when, before, arms[|arms| - 1])
  }

  datatype Ending = Finished(results: seq<Item>) | Died | Refused(error: Error)

  /** The store after an attempt, how it ended, and how many calls it made. */
  datatype Attempted = Attempted(file: Option<File>, ending: Ending, calls: nat)

  function Attempt(
      comparisons: seq<Comparison>, targets: seq<Target>, stored: bool, file: Option<File>, answer: Arm -> Outcome,
      when: nat -> When): Attempted {
    if comparisons == [] then Attempted(file, Refused(NoExamples), 0)
    else
      match Normalize(targets)
      case Err(e) => Attempted(file, Refused(e), 0)
      case Ok(pair) =>
        var spec := Spec(comparisons, pair);
        match if stored && file.Some? then Load(file.value, spec) else Ok([])
        case Err(e) => Attempted(file, Refused(e), 0)
        case Ok(items) =>
          match Completed(comparisons, items)
          case Err(e) => Attempted(file, Refused(e), 0)
          case Ok(keys) =>
            var p := CallArms(spec, stored, answer, when, Progress(items, keys, file, 0, false), Arms(comparisons));
            Attempted(p.file, if p.dead then Died else Finished(p.results), p.calls)
  }

  class Runner {
    var file: Option<File>

    constructor (file: Option<File>)
      ensures this.file == file
    {
      this.file := file;
    }

    /** Validates the checkpoint, then calls and stores each arm that is not completed. */
    method RunComparisons(
        comparisons: seq<Comparison>, targets: seq<Target>, stored: bool, answer: Arm -> Outcome, when: nat -> When)
      returns (ending: Ending, calls: nat)
      modifies this
      ensures Attempted(file, ending, calls) == Attempt(comparisons, targets, stored, old(file), answer, when)
    {
      calls := 0;
      if comparisons == [] {
        return Refused(NoExamples), 0;
      }
      var pair := NormalizeTargets(targets);
      if pair.Err? {
        return Refused(pair.error), 0;
      }
      var spec := Spec(comparisons, pair.value);
      var loaded := if stored && file.Some? then Load(file.value, spec) else Ok([]);
      if loaded.Err? {
        return Refused(loaded.error), 0;
      }
      var keys := ReadCompleted(comparisons, loaded.value);
      if keys.Err? {
        return Refused(keys.error), 0;
      }
      var dead, results;
      results, calls, dead := CallAll(spec, stored, loaded.value, keys.value, answer, when);
      ending := if dead then Died else Finished(results);
    }

    /** The two loops: each comparison under each target, unless it is completed. */
    method CallAll(
        spec: Spec, stored: bool, items: seq<Item>, keys: set<(string, Condition)>, answer: Arm -> Outcome,
        when: nat -> When)
      returns (results: seq<Item>, calls: nat, dead: bool)
      modifies this
      ensures var start, arms := Progress(items, keys, old(file), 0, false), Arms(spec.comparisons);
        var p := CallArms(spec, stored, answer, when, start, arms);
        p.results == results && p.calls == calls && p.dead == dead && p.file == file
    {
      ghost var start, arms := Progress(items, keys, file, 0, false), Arms(spec.comparisons);
      ArmCount(spec.comparisons);
      var completed := keys;
      results, calls, dead := items, 0, false;
      ghost var n := 0;
      for i := 0 to |spec.comparisons|
        invariant !dead && n == 2 * i
        invariant Progress(results, completed, file, calls, dead) ==
          CallArms(spec, stored, answer, when, start, arms[..n])
      {
        for k := 0 to 2
          invariant !dead && n == 2 * i + k
          invariant Progress(results, completed, file, calls, dead) ==
            CallArms(spec, stored, answer, when, start, arms[..n])
        {
          var arm := Arm(spec.comparisons[i], if k == 0 then Rlm else Direct);
          ArmAt(spec.comparisons, i, k);
          assert n < |arms| && arms[n] == arm;
          ghost var before := Progress(results, completed, file, calls, dead);
          results, completed, calls, dead := CallOne(spec, stored, arm, results, completed, calls, answer, when);
          ghost var after := Progress(results, completed, file, calls, dead);
          OneMoreArm(spec, stored, answer, when, start, arms, n, before, after);
          if dead {
            return;
          }
          n := n + 1;
        }
      }
      assert arms[..n] == arms;
    }

    /** One arm: skipped when completed, otherwise called, recorded and stored. */
    method CallOne(
        spec: Spec, stored: bool, arm: Arm, items: seq<Item>, keys: set<(string, Condition)>, made: nat,
        answer: Arm -> Outcome, when: nat -> When)
      returns (results: seq<Item>, completed: set<(string, Condition)>, calls: nat, dead: bool)
      modifies this
      ensures Progress(results, completed, file, calls, dead) ==
        CallArm(spec, stored, answer, when, Progress(items, keys, old(file), made, false), arm)
    {
      results, completed, calls, dead := items, keys, made, false;
      if arm.Key() in completed {
        return;
      }
      calls := calls + 1;
      if when(made).DiesBefore? {
        dead := true;
        return;
      }
      results := results + [Signed(arm, answer(arm))];
      completed := completed + {arm.Key()};
      if stored {
        file := Some(Sealed(spec, results));
      }
      dead := when(made).DiesAfter?;
    }
  }

  /** An arm more; after a death the rest of the arms changes nothing. */
  lemma {:induction false} OneMoreArm(
      spec: Spec, stored: bool, answer: Arm -> Outcome, when: nat -> When, start: Progress, arms: seq<Arm>, n: nat,
      before: Progress, after: Progress)
    requires n < |arms| && before == CallArms(spec, stored, answer, when, start, arms[..n])
    requires after == CallArm(spec, stored, answer, when, before, arms[n])
    ensures after == CallArms(spec, stored, answer, when, start, arms[..n + 1])
    ensures after.dead ==> after == CallArms(spec, stored, answer, when, start, arms)
  {
    assert arms[..n + 1][..n] == arms[..n];
    if after.dead {
      DeadStays(spec, stored, answer, when, start, arms, n + 1);
    }
  }

  lemma {:induction false} ArmAt(comparisons: seq<Comparison>, i: nat, k: nat)
    requires i < |comparisons| && k < 2
    ensures |Arms(comparisons)| == 2 * |comparisons|
    ensures Arms(comparisons)[2 * i + k] == Arm(comparisons[i], if k == 0 then Rlm else Direct)
  {
    ArmCount(comparisons);
    if i < |comparisons| - 1 {
      ArmCount(comparisons[..|comparisons| - 1]);
      ArmAt(comparisons[..|comparisons| - 1], i, k);
    } else {
      ArmCount(comparisons[..|comparisons| - 1]);
    }
  }

  lemma {:induction false} ArmCount(comparisons: seq<Comparison>)
    ensures |Arms(comparisons)| == 2 * |comparisons|
  {
    if comparisons != [] {
      ArmCount(comparisons[..|comparisons| - 1]);
    }
  }

  lemma {:induction false} DeadStays(
      spec: Spec, stored: bool, answer: Arm -> Outcome, when: nat -> When, p: Progress, arms: seq<Arm>, k: nat)
    requires k <= |arms| && CallArms(spec, stored, answer, when, p, arms[..k]).dead
    ensures CallArms(spec, stored, answer, when, p, arms) == CallArms(spec, stored, answer, when, p, arms[..k])
  {
    if k == |arms| {
      assert arms[..k] == arms;
    } else {
      assert arms[..|arms| - 1][..k] == arms[..k];
      DeadStays(spec, stored, answer, when, p, arms[..|arms| - 1], k);
    }
  }

  method ReadCompleted(comparisons: seq<Comparison>, items: seq<Item>)
    returns (r: Result<set<(string, Condition)>, Error>)
    ensures r == Completed(comparisons, items)
  {
    var keys := {};
    for i := 0 to |items|
      invariant Completed(comparisons, items[..i]) == Ok(keys)
    {
      assert items[..i + 1][..i] == items[..i];
      var fault := ValidateRecord(items[i], comparisons);
      if fault.Some? || KeyOf(items[i]) in keys {
        FaultStays(comparisons, items, i + 1);
        return Err(if fault.Some? then fault.value else DuplicateRecord);
      }
      keys := keys + {KeyOf(items[i])};
    }
    assert items[..|items|] == items;
    r := Ok(keys);
  }

  lemma {:induction false} FaultStays(comparisons: seq<Comparison>, items: seq<Item>, k: nat)
    requires k <= |items| && Completed(comparisons, items[..k]).Err?
    ensures Completed(comparisons, items) == Completed(comparisons, items[..k])
  {
    if k == |items| {
      assert items[..k] == items;
    } else {
      assert items[..|items| - 1][..k] == items[..k];
      FaultStays(comparisons, items[..|items| - 1], k);
    }
  }

  // ----- The canonical order -----

  predicate Occurs(arms: seq<Arm>, key: (string, Condition)) { exists i :: 0 <= i < |arms| && arms[i].Key() == key }

  /** Each key once, where it first occurs. */
  function Canonical(arms: seq<Arm>): seq<Arm> {
    if arms == [] then []
    else
      var n := |arms| - 1;
      Canonical(arms[..n]) + if Occurs(arms[..n], arms[n].Key()) then [] else [arms[n]]
  }

  lemma {:induction false} CanonicalMeans(arms: seq<Arm>)
    ensures var c := Canonical(arms);
      && (forall key :: Occurs(c, key) <==> Occurs(arms, key))
      && (forall i, j :: 0 <= i < j < |c| ==> c[i].Key() != c[j].Key())
      && (forall i :: 0 <= i < |c| ==> c[i] in arms)
  {
    if arms != [] {
      var n := |arms| - 1;
      CanonicalMeans(arms[..n]);
      var before, c := Canonical(arms[..n]), Canonical(arms);
      forall key
        ensures Occurs(c, key) <==> Occurs(arms, key)
      {
        assert Occurs(arms, key) <==> Occurs(arms[..n], key) || arms[n].Key() == key by { OccursSnoc(arms, key); }
        assert c != before ==> (Occurs(c, key) <==> Occurs(before, key) || arms[n].Key() == key) by {
          if c != before { OccursSnoc(c, key); }
        }
      }
      forall i, j | 0 <= i < j < |c|
        ensures c[i].Key() != c[j].Key()
      {
        if j == |before| {
          assert Occurs(before, c[i].Key()) by { assert before[i].Key() == c[i].Key(); }
        }
      }
    }
  }

  lemma {:induction false} OccursSnoc(arms: seq<Arm>, key: (string, Condition))
    requires arms != []
    ensures var n := |arms| - 1; Occurs(arms, key) <==> Occurs(arms[..n], key) || arms[n].Key() == key
  {
    var n := |arms| - 1;
    if Occurs(arms[..n], key) {
      var i :| 0 <= i < n && arms[..n][i].Key() == key;
      assert arms[i].Key() == key;
    }
    if Occurs(arms, key) && arms[n].Key() != key {
      var i :| 0 <= i < |arms| && arms[i].Key() == key;
      assert arms[..n][i].Key() == key;
    }
  }

  lemma {:induction false} CanonicalPrefix(arms: seq<Arm>, n: nat)
    requires n <= |arms|
    ensures Canonical(arms[..n]) <= Canonical(arms)
  {
    if n == |arms| {
      assert arms[..n] == arms;
    } else {
      var rest := arms[..|arms| - 1];
      CanonicalPrefix(rest, n);
      assert rest[..n] == arms[..n];
    }
  }

  // ----- What an attempt keeps -----

  predicate SignedFor(item: Item, arm: Arm) { item.Row? && item == Signed(arm, item.body.outcome) }

  /** The results are a prefix of the canonical order, each record signed for its arm. */
  ghost predicate Own(line: seq<Arm>, results: seq<Item>) {
    && |results| <= |line|
    && forall i :: 0 <= i < |results| ==> SignedFor(results[i], line[i])
  }

  ghost predicate KeysOf(results: seq<Item>, keys: set<(string, Condition)>) {
    && (forall i :: 0 <= i < |results| ==> Keyed(results[i]) && KeyOf(results[i]) in keys)
    && (forall key :: key in keys ==> exists i :: 0 <= i < |results| && Keyed(results[i]) && KeyOf(results[i]) == key)
  }

  /** `results` are in canonical order, keep the records of `base` and hold the new answers after them. */
  ghost predicate Extended(line: seq<Arm>, answer: Arm -> Outcome, base: seq<Item>, results: seq<Item>) {
    && Own(line, results) && base <= results
    && forall i :: |base| <= i < |results| ==> results[i] == Signed(line[i], answer(line[i]))
  }

  /** How far `q` has come from `p`: more records, one call each, and one call more if the last was lost. */
  ghost predicate Grown(spec: Spec, stored: bool, answer: Arm -> Outcome, line: seq<Arm>, p: Progress, q: Progress) {
    && Extended(line, answer, p.results, q.results) && KeysOf(q.results, q.completed)
    && q.calls <= |q.results| - |p.results| + (if q.dead then 1 else 0)
    && q.file == if stored && q.results != p.results then Some(Sealed(spec, q.results)) else p.file
  }

  lemma {:induction false} RecordAppended(line: seq<Arm>, answer: Arm -> Outcome, base: seq<Item>, results: seq<Item>)
    requires Extended(line, answer, base, results) && |results| < |line|
    ensures var arm := line[|results|]; Extended(line, answer, base, results + [Signed(arm, answer(arm))])
  {
    var more := results + [Signed(line[|results|], answer(line[|results|]))];
    assert SignedFor(more[|results|], line[|results|]);
  }

  /** When every earlier key is completed, the next arm is completed exactly if its record is already there. */
  lemma {:induction false} NextArm(arms: seq<Arm>, n: nat, results: seq<Item>, keys: set<(string, Condition)>)
    requires n < |arms| && Own(Canonical(arms), results) && KeysOf(results, keys) && |Canonical(arms[..n])| <= |results|
    ensures arms[n].Key() in keys ==> |Canonical(arms[..n + 1])| <= |results|
    ensures arms[n].Key() !in keys ==> |results| < |Canonical(arms)| && Canonical(arms)[|results|] == arms[n]
                                       && |Canonical(arms[..n + 1])| == |results| + 1
  {
    var before, c, k := Canonical(arms[..n]), Canonical(arms), |results|;
    assert arms[..n + 1][..n] == arms[..n];
    CanonicalPrefix(arms, n);
    CanonicalPrefix(arms, n + 1);
    CanonicalMeans(arms);
    CanonicalMeans(arms[..n]);
    if Occurs(arms[..n], arms[n].Key()) {
      var i :| 0 <= i < |before| && before[i].Key() == arms[n].Key();
      assert c[i] == before[i] && SignedFor(results[i], c[i]);
    } else {
      assert Canonical(arms[..n + 1]) == before + [arms[n]];
      assert c[|before|] == arms[n];
      assert k > |before| ==> SignedFor(results[|before|], c[|before|]);
      if arms[n].Key() in keys {
        var i :| 0 <= i < k && Keyed(results[i]) && KeyOf(results[i]) == arms[n].Key();
        assert SignedFor(results[i], c[i]);
        assert i == |before|;
      }
    }
  }

  lemma {:induction false} KeysGrow(results: seq<Item>, keys: set<(string, Condition)>, item: Item)
    requires KeysOf(results, keys) && Keyed(item)
    ensures KeysOf(results + [item], keys + {KeyOf(item)})
  {
    var more := results + [item];
    forall key | key in keys + {KeyOf(item)}
      ensures exists i :: 0 <= i < |more| && Keyed(more[i]) && KeyOf(more[i]) == key
    {
      if key in keys {
        var i :| 0 <= i < |results| && Keyed(results[i]) && KeyOf(results[i]) == key;
        assert more[i] == results[i];
      } else {
        assert more[|results|] == item;
      }
    }
  }

  lemma {:induction false} OneRecordGrows(
      spec: Spec, stored: bool, answer: Arm -> Outcome, line: seq<Arm>, p: Progress, q: Progress, arm: Arm,
      r: Progress)
    requires Grown(spec, stored, answer, line, p, q) && !q.dead
    requires |q.results| < |line| && line[|q.results|] == arm
    requires r.results == q.results + [Signed(arm, answer(arm))] && r.completed == q.completed + {arm.Key()}
    requires r.calls == q.calls + 1
    requires r.file == if stored then Some(Sealed(spec, r.results)) else q.file
    ensures Grown(spec, stored, answer, line, p, r)
  {
    RecordAppended(line, answer, p.results, q.results);
    KeysGrow(q.results, q.completed, Signed(arm, answer(arm)));
  }

  lemma {:induction false} OneArmGrows(
      spec: Spec, stored: bool, answer: Arm -> Outcome, when: nat -> When, arms: seq<Arm>, n: nat, p: Progress,
      q: Progress, r: Progress)
    requires n < |arms| && Grown(spec, stored, answer, Canonical(arms), p, q)
    requires q.dead || |Canonical(arms[..n])| <= |q.results|
    requires r == CallArm(spec, stored, answer, when, q, arms[n])
    ensures Grown(spec, stored, answer, Canonical(arms), p, r) && (r.dead || |Canonical(arms[..n + 1])| <= |r.results|)
  {
    if !q.dead {
      NextArm(arms, n, q.results, q.completed);
      if arms[n].Key() !in q.completed && !when(q.calls).DiesBefore? {
        OneRecordGrows(spec, stored, answer, Canonical(arms), p, q, arms[n], r);
      }
    }
  }

  lemma {:induction false} ArmsGrow(
      spec: Spec, stored: bool, answer: Arm -> Outcome, when: nat -> When, arms: seq<Arm>, n: nat, p: Progress)
    returns (q: Progress)
    requires n <= |arms| && Grown(spec, stored, answer, Canonical(arms), p, p) && !p.dead
    ensures q == CallArms(spec, stored, answer, when, p, arms[..n])
    ensures Grown(spec, stored, answer, Canonical(arms), p, q) && (q.dead || |Canonical(arms[..n])| <= |q.results|)
  {
    if n == 0 {
      q := p;
    } else {
      var before := ArmsGrow(spec, stored, answer, when, arms, n - 1, p);
      q := CallArm(spec, stored, answer, when, before, arms[n - 1]);
      OneMoreArm(spec, stored, answer, when, p, arms, n - 1, before, q);
      OneArmGrows(spec, stored, answer, when, arms, n - 1, p, before, q);
    }
  }

  // ----- Resumption -----

  /** The store holds exactly these results: no file yet, or the sealed checkpoint. */
  ghost predicate Stored(spec: Spec, file: Option<File>, results: seq<Item>) {
    (file.None? && results == []) || file == Some(Sealed(spec, results))
  }

  lemma {:induction false} ArmIsRequested(comparisons: seq<Comparison>, arm: Arm)
    ensures arm in Arms(comparisons) <==> arm.comparison in comparisons
  {
    if comparisons != [] {
      var n := |comparisons| - 1;
      ArmIsRequested(comparisons[..n], arm);
      assert comparisons == comparisons[..n] + [comparisons[n]];
      match arm.condition
      case Rlm => assert arm == Arm(arm.comparison, Rlm);
      case Direct => assert arm == Arm(arm.comparison, Direct);
    }
  }

  /** A record signed for a requested arm passes every check. */
  lemma {:induction false} SignedIsValid(comparisons: seq<Comparison>, item: Item, arm: Arm)
    requires IdsIdentify(comparisons) && arm in Arms(comparisons) && SignedFor(item, arm)
    ensures ValidateRecord(item, comparisons).None? && Keyed(item) && KeyOf(item) == arm.Key()
  {
    ArmIsRequested(comparisons, arm);
    var found := Find(comparisons, Some(arm.comparison.id));
    var i :| 0 <= i < |comparisons| && comparisons[i] == arm.comparison;
    if found.Some? {
      var j :| 0 <= j < |comparisons| && comparisons[j] == found.value;
      assert comparisons[i] == comparisons[j];
    }
  }

  /** A checkpoint the runner wrote is always accepted again. */
  lemma {:induction false} OwnIsAccepted(comparisons: seq<Comparison>, results: seq<Item>)
    returns (keys: set<(string, Condition)>)
    requires IdsIdentify(comparisons) && Own(Canonical(Arms(comparisons)), results)
    ensures Completed(comparisons, results) == Ok(keys) && KeysOf(results, keys)
  {
    if results == [] {
      keys := {};
    } else {
      var n := |results| - 1;
      var line := Canonical(Arms(comparisons));
      var before := OwnIsAccepted(comparisons, results[..n]);
      CanonicalMeans(Arms(comparisons));
      OwnKeyIsNew(line, results, before);
      SignedIsValid(comparisons, results[n], line[n]);
      keys := OneMoreCompleted(comparisons, results, before);
    }
  }

  lemma {:induction false} OneMoreCompleted(
      comparisons: seq<Comparison>, items: seq<Item>, before: set<(string, Condition)>)
    returns (keys: set<(string, Condition)>)
    requires items != [] && ValidateRecord(items[|items| - 1], comparisons).None?
    requires KeyOf(items[|items| - 1]) !in before
    requires Completed(comparisons, items[..|items| - 1]) == Ok(before) && KeysOf(items[..|items| - 1], before)
    ensures Completed(comparisons, items) == Ok(keys) && KeysOf(items, keys)
  {
    var n := |items| - 1;
    keys := before + {KeyOf(items[n])};
    KeysGrow(items[..n], before, items[n]);
    assert items[..n] + [items[n]] == items;
  }

  lemma {:induction false} OwnKeyIsNew(line: seq<Arm>, results: seq<Item>, keys: set<(string, Condition)>)
    requires Own(line, results) && results != [] && KeysOf(results[..|results| - 1], keys)
    requires forall i, j :: 0 <= i < j < |line| ==> line[i].Key() != line[j].Key()
    ensures SignedFor(results[|results| - 1], line[|results| - 1]) && line[|results| - 1].Key() !in keys
  {
    var n := |results| - 1;
    assert SignedFor(results[n], line[n]);
    forall i | 0 <= i < n
      ensures KeyOf(results[..n][i]) != line[n].Key()
    {
      assert SignedFor(results[i], line[i]);
    }
  }

  ghost predicate Requested(comparisons: seq<Comparison>, targets: seq<Target>, spec: Spec) {
    && comparisons != [] && IdsIdentify(comparisons)
    && Normalize(targets).Ok? && spec == Spec(comparisons, Normalize(targets).value)
  }

  /**
   * An attempt from the runner's own store is never refused, keeps what is stored and extends it in
   * canonical order.
   */
  lemma {:induction false} AttemptExtends(
      comparisons: seq<Comparison>, targets: seq<Target>, spec: Spec, file: Option<File>, base: seq<Item>,
      answer: Arm -> Outcome, when: nat -> When)
    returns (results: seq<Item>)
    requires Requested(comparisons, targets, spec) && Stored(spec, file, base)
    requires Own(Canonical(Arms(comparisons)), base)
    ensures var a, line := Attempt(comparisons, targets, true, file, answer, when), Canonical(Arms(comparisons));
      && !a.ending.Refused? && Stored(spec, a.file, results) && Extended(line, answer, base, results)
      && a.calls <= |results| - |base| + (if a.ending.Died? then 1 else 0)
      && (a.ending.Finished? ==> a.ending.results == results && |results| == |line|)
  {
    var arms := Arms(comparisons);
    var keys := OwnIsAccepted(comparisons, base);
    var q := ArmsGrow(spec, true, answer, when, arms, |arms|, Progress(base, keys, file, 0, false));
    assert arms[..|arms|] == arms;
    results := q.results;
  }

  /** Without an output file, or with nothing stored yet, an attempt that is not interrupted gives this list. */
  lemma {:induction false} UninterruptedList(
      comparisons: seq<Comparison>, targets: seq<Target>, spec: Spec, stored: bool, answer: Arm -> Outcome)
    requires Requested(comparisons, targets, spec)
    ensures var line := Canonical(Arms(comparisons));
      var a := Attempt(comparisons, targets, stored, None, answer, _ => Lives);
      && a.ending == Finished(seq(|line|, i requires 0 <= i < |line| => Signed(line[i], answer(line[i]))))
      && a.calls == |line|
      && (!stored ==> a.file.None?)
  {
    var arms := Arms(comparisons);
    var line := Canonical(arms);
    var p := Progress([], {}, None, 0, false);
    var q := ArmsGrow(spec, stored, answer, _ => Lives, arms, |arms|, p);
    assert arms[..|arms|] == arms;
    NeverDies(spec, stored, answer, p, arms);
    assert q.results == seq(|line|, i requires 0 <= i < |line| => Signed(line[i], answer(line[i])));
  }

  lemma {:induction false} NeverDies(spec: Spec, stored: bool, answer: Arm -> Outcome, p: Progress, arms: seq<Arm>)
    requires !p.dead
    ensures var q := CallArms(spec, stored, answer, _ => Lives, p, arms);
      !q.dead && q.calls - p.calls == |q.results| - |p.results|
  {
    if arms != [] {
      NeverDies(spec, stored, answer, p, arms[..|arms| - 1]);
    }
  }

  // ----- Campaigns -----

  datatype Try = Try(answer: Arm -> Outcome, when: nat -> When)

  datatype Tally = Tally(file: Option<File>, calls: nat, deaths: nat, last: Ending)

  /** One attempt after another on the same store, whatever each died of. */
  function Campaign(comparisons: seq<Comparison>, targets: seq<Target>, tries: seq<Try>): Tally {
    if tries == [] then Tally(None, 0, 0, Died)
    else
      var n := |tries| - 1;
      var before := Campaign(comparisons, targets, tries[..n]);
      var a := Attempt(comparisons, targets, true, before.file, tries[n].answer, tries[n].when);
      Tally(a.file, before.calls + a.calls, before.deaths + (if a.ending.Died? then 1 else 0), a.ending)
  }

  ghost predicate Answered(tries: seq<Try>, arm: Arm, item: Item) {
    exists t :: 0 <= t < |tries| && item == Signed(arm, tries[t].answer(arm))
  }

  /**
   * Over any crashes and resumes the store is a prefix of the canonical order, each record some attempt's
   * answer; calls are at most records plus deaths.
   */
  lemma {:induction false} CampaignIsSafe(
      comparisons: seq<Comparison>, targets: seq<Target>, spec: Spec, tries: seq<Try>)
    returns (results: seq<Item>)
    requires Requested(comparisons, targets, spec)
    ensures var c, line := Campaign(comparisons, targets, tries), Canonical(Arms(comparisons));
      && !c.last.Refused? && Stored(spec, c.file, results) && Own(line, results)
      && (forall i :: 0 <= i < |results| ==> Answered(tries, line[i], results[i]))
      && c.calls <= |results| + c.deaths <= |line| + c.deaths
      && (c.last.Finished? ==> c.last.results == results && |results| == |line|)
  {
    if tries == [] {
      results := [];
    } else {
      var n := |tries| - 1;
      var base := CampaignIsSafe(comparisons, targets, spec, tries[..n]);
      var file := Campaign(comparisons, targets, tries[..n]).file;
      results := AttemptExtends(comparisons, targets, spec, file, base, tries[n].answer, tries[n].when);
      var line := Canonical(Arms(comparisons));
      forall i | 0 <= i < |results|
        ensures Answered(tries, line[i], results[i])
      {
        if i < |base| {
          assert Answered(tries[..n], line[i], base[i]);
          var t :| 0 <= t < n && base[i] == Signed(line[i], tries[..n][t].answer(line[i]));
          assert results[i] == Signed(line[i], tries[t].answer(line[i]));
        }
      }
    }
  }

  /** When every attempt would get the same answers, the final list is the one an uninterrupted run returns. */
  lemma {:induction false} ResumedEqualsUninterrupted(
      comparisons: seq<Comparison>, targets: seq<Target>, spec: Spec, tries: seq<Try>, answer: Arm -> Outcome)
    requires Requested(comparisons, targets, spec) && forall t :: 0 <= t < |tries| ==> tries[t].answer == answer
    requires Campaign(comparisons, targets, tries).last.Finished?
    ensures Campaign(comparisons, targets, tries).last ==
      Attempt(comparisons, targets, false, None, answer, _ => Lives).ending
  {
    var results := CampaignIsSafe(comparisons, targets, spec, tries);
    UninterruptedList(comparisons, targets, spec, false, answer);
    var line := Canonical(Arms(comparisons));
    forall i | 0 <= i < |line|
      ensures results[i] == Signed(line[i], answer(line[i]))
    {
      assert Answered(tries, line[i], results[i]);
    }
    assert results == seq(|line|, i requires 0 <= i < |line| => Signed(line[i], answer(line[i])));
  }

  // ----- Any checkpoint at all -----

  /** Records that pass every check, one for each of `keys`, all of them requested. */
  ghost predicate Sound(comparisons: seq<Comparison>, results: seq<Item>, keys: set<(string, Condition)>) {
    && KeysOf(results, keys)
    && (forall i :: 0 <= i < |results| ==> ValidateRecord(results[i], comparisons).None?)
    && (forall i, j :: 0 <= i < j < |results| && Keyed(results[i]) && Keyed(results[j]) ==>
      KeyOf(results[i]) != KeyOf(results[j]))
    && (forall key :: key in keys ==> Occurs(Arms(comparisons), key))
  }

  lemma {:induction false} OneMoreSound(
      comparisons: seq<Comparison>, results: seq<Item>, keys: set<(string, Condition)>, item: Item)
    requires Sound(comparisons, results, keys) && ValidateRecord(item, comparisons).None? && KeyOf(item) !in keys
    ensures Sound(comparisons, results + [item], keys + {KeyOf(item)})
  {
    KeysGrow(results, keys, item);
    var found := Find(comparisons, item.body.pair).value;
    var arm := Arm(found, item.body.tag.condition);
    ArmIsRequested(comparisons, arm);
    assert arm.Key() == KeyOf(item);
  }

  lemma {:induction false} CompletedStep(comparisons: seq<Comparison>, items: seq<Item>)
    requires items != [] && Completed(comparisons, items).Ok?
    ensures var n := |items| - 1;
      var before := Completed(comparisons, items[..n]);
      && before.Ok? && ValidateRecord(items[n], comparisons).None? && Keyed(items[n])
      && KeyOf(items[n]) !in before.value
      && Completed(comparisons, items) == Ok(before.value + {KeyOf(items[n])})
  {
  }

  lemma {:induction false} AcceptedIsSound(comparisons: seq<Comparison>, items: seq<Item>)
    returns (keys: set<(string, Condition)>)
    requires Completed(comparisons, items).Ok?
    ensures Completed(comparisons, items) == Ok(keys) && Sound(comparisons, items, keys)
  {
    if items == [] {
      keys := {};
    } else {
      var n := |items| - 1;
      CompletedStep(comparisons, items);
      var before := AcceptedIsSound(comparisons, items[..n]);
      keys := before + {KeyOf(items[n])};
      OneMoreSound(comparisons, items[..n], before, items[n]);
      assert items[..n] + [items[n]] == items;
    }
  }

  lemma {:induction false} CallKeepsSound(
      spec: Spec, stored: bool, answer: Arm -> Outcome, when: nat -> When, p: Progress, arm: Arm, q: Progress)
    requires IdsIdentify(spec.comparisons) && arm in Arms(spec.comparisons)
    requires Sound(spec.comparisons, p.results, p.completed)
    requires q == CallArm(spec, stored, answer, when, p, arm)
    ensures Sound(spec.comparisons, q.results, q.completed)
  {
    var item := Signed(arm, answer(arm));
    SignedIsValid(spec.comparisons, item, arm);
    if arm.Key() !in p.completed {
      OneMoreSound(spec.comparisons, p.results, p.completed, item);
    }
  }

  lemma {:induction false} CallsKeepSound(
      spec: Spec, stored: bool, answer: Arm -> Outcome, when: nat -> When, arms: seq<Arm>, p: Progress)
    returns (q: Progress)
    requires forall i :: 0 <= i < |arms| ==> arms[i] in Arms(spec.comparisons)
    requires IdsIdentify(spec.comparisons) && Sound(spec.comparisons, p.results, p.completed)
    ensures q == CallArms(spec, stored, answer, when, p, arms) && Sound(spec.comparisons, q.results, q.completed)
  {
    if arms == [] {
      q := p;
    } else {
      var n := |arms| - 1;
      var before := CallsKeepSound(spec, stored, answer, when, arms[..n], p);
      q := CallArm(spec, stored, answer, when, before, arms[n]);
      CallKeepsSound(spec, stored, answer, when, before, arms[n], q);
    }
  }

  lemma {:induction false} CallsCover(
      spec: Spec, stored: bool, answer: Arm -> Outcome, when: nat -> When, arms: seq<Arm>, p: Progress)
    ensures var q := CallArms(spec, stored, answer, when, p, arms);
      p.completed <= q.completed && (!q.dead ==> forall i :: 0 <= i < |arms| ==> arms[i].Key() in q.completed)
  {
    if arms != [] {
      CallsCover(spec, stored, answer, when, arms[..|arms| - 1], p);
    }
  }

  /**
   * Whatever checkpoint it starts from, an attempt that finishes returns one valid record for each
   * requested key and no other; a refusal touches nothing.
   */
  lemma {:induction false} FinishedIsExactlyTheRequest(
      comparisons: seq<Comparison>, targets: seq<Target>, stored: bool, file: Option<File>, answer: Arm -> Outcome,
      when: nat -> When)
    returns (keys: set<(string, Condition)>)
    requires IdsIdentify(comparisons)
    ensures var a := Attempt(comparisons, targets, stored, file, answer, when);
      && (a.ending.Finished? ==>
        && Sound(comparisons, a.ending.results, keys)
        && forall key :: Occurs(Arms(comparisons), key) <==> key in keys)
      && (a.ending.Refused? ==> a.file == file && a.calls == 0)
  {
    keys := {};
    var a := Attempt(comparisons, targets, stored, file, answer, when);
    if a.ending.Finished? {
      var spec := Spec(comparisons, Normalize(targets).value);
      var items := if stored && file.Some? then Load(file.value, spec).value else [];
      var before := AcceptedIsSound(comparisons, items);
      var arms := Arms(comparisons);
      var p := Progress(items, before, file, 0, false);
      var q := CallsKeepSound(spec, stored, answer, when, arms, p);
      CallsCover(spec, stored, answer, when, arms, p);
      keys := q.completed;
    }
  }

  // ----- Which checkpoints are resumed -----

  /** The record is one signed for a requested comparison, told field by field. */
  ghost predicate AnswersRequest(item: Item, c: Comparison) {
    && item.Row? && item.body.pair == Some(c.id) && item.seal == Some(item.body)
    && (item.body.tag == Known(Rlm) || item.body.tag == Known(Direct))
    && item.body.episode == Some((c.id, item.body.tag.condition))
    && (item.body.tag == Known(Rlm) ==> item.body.prompt == c.rlmPrompt)
    && (item.body.tag == Known(Direct) ==> item.body.prompt == c.directPrompt)
  }

  /** A record passes the checks exactly when it carries a requested comparison's own prompt under its condition. */
  lemma {:induction false} ValidExactly(comparisons: seq<Comparison>, item: Item)
    requires IdsIdentify(comparisons)
    ensures ValidateRecord(item, comparisons).None? <==> exists c :: c in comparisons && AnswersRequest(item, c)
  {
    if item.Row? {
      var found := Find(comparisons, item.body.pair);
      if c :| c in comparisons && AnswersRequest(item, c) {
        var i :| 0 <= i < |comparisons| && comparisons[i] == c;
        var j :| 0 <= j < |comparisons| && comparisons[j] == found.value;
        assert found.value == c;
      }
      if ValidateRecord(item, comparisons).None? {
        assert AnswersRequest(item, found.value) by {
          match item.body.tag.condition
          case Rlm =>
          case Direct =>
        }
      }
    }
  }

  /** The record is one signed for a requested arm. */
  ghost predicate IsSigned(comparisons: seq<Comparison>, item: Item) {
    exists arm :: arm in Arms(comparisons) && SignedFor(item, arm)
  }

  /** These are the records that pass the checks. */
  lemma {:induction false} ValidIsSigned(comparisons: seq<Comparison>, item: Item)
    requires IdsIdentify(comparisons)
    ensures ValidateRecord(item, comparisons).None? <==> IsSigned(comparisons, item)
  {
    if ValidateRecord(item, comparisons).None? {
      var arm := Arm(Find(comparisons, item.body.pair).value, item.body.tag.condition);
      ArmIsRequested(comparisons, arm);
      assert SignedFor(item, arm);
    }
    if IsSigned(comparisons, item) {
      var arm :| arm in Arms(comparisons) && SignedFor(item, arm);
      SignedIsValid(comparisons, item, arm);
    }
  }

  /** Records signed for requested arms, no arm twice. */
  ghost predicate SignedOnce(comparisons: seq<Comparison>, items: seq<Item>) {
    && (forall i :: 0 <= i < |items| ==> IsSigned(comparisons, items[i]))
    && (forall i, j :: 0 <= i < j < |items| && Keyed(items[i]) && Keyed(items[j]) ==>
      KeyOf(items[i]) != KeyOf(items[j]))
  }

  lemma {:induction false} CompletedExactly(comparisons: seq<Comparison>, items: seq<Item>)
    requires IdsIdentify(comparisons)
    ensures Completed(comparisons, items).Ok? <==> SignedOnce(comparisons, items)
  {
    if Completed(comparisons, items).Ok? {
      var keys := AcceptedIsSound(comparisons, items);
      forall i | 0 <= i < |items|
        ensures IsSigned(comparisons, items[i])
      {
        ValidIsSigned(comparisons, items[i]);
      }
    }
    if SignedOnce(comparisons, items) {
      var keys := SignedAreCompleted(comparisons, items, |items|);
      assert items[..|items|] == items;
    }
  }

  lemma {:induction false} SignedAreCompleted(comparisons: seq<Comparison>, items: seq<Item>, n: nat)
    returns (keys: set<(string, Condition)>)
    requires IdsIdentify(comparisons) && SignedOnce(comparisons, items) && n <= |items|
    ensures Completed(comparisons, items[..n]) == Ok(keys) && KeysOf(items[..n], keys)
    decreases n
  {
    if n == 0 {
      keys := {};
    } else {
      var before := SignedAreCompleted(comparisons, items, n - 1);
      ValidIsSigned(comparisons, items[n - 1]);
      assert items[..n][..n - 1] == items[..n - 1];
      KeyIsNew(items, n - 1, before);
      keys := OneMoreCompleted(comparisons, items[..n], before);
    }
  }

  lemma {:induction false} KeyIsNew(items: seq<Item>, n: nat, keys: set<(string, Condition)>)
    requires n < |items| && KeysOf(items[..n], keys) && Keyed(items[n])
    requires forall i :: 0 <= i < n && Keyed(items[i]) ==> KeyOf(items[i]) != KeyOf(items[n])
    ensures KeyOf(items[n]) !in keys
  {
    assert forall i :: 0 <= i < n ==> items[..n][i] == items[i];
  }

  /**
   * A stored checkpoint is resumed exactly when it is the sealed list, for these comparisons and targets,
   * of records signed for requested arms, no arm twice. So one that was changed after sealing, sealed for
   * other comparisons or other targets, or never sealed is refused.
   */
  lemma {:induction false} ResumesExactly(
      comparisons: seq<Comparison>, targets: seq<Target>, file: File, answer: Arm -> Outcome, when: nat -> When)
    requires IdsIdentify(comparisons)
    ensures !Attempt(comparisons, targets, true, Some(file), answer, when).ending.Refused? <==>
      && comparisons != [] && Normalize(targets).Ok?
      && exists items ::
        SignedOnce(comparisons, items) && file == Sealed(Spec(comparisons, Normalize(targets).value), items)
  {
    if comparisons != [] && Normalize(targets).Ok? {
      var spec := Spec(comparisons, Normalize(targets).value);
      LoadsExactly(file, spec);
      if Load(file, spec).Ok? {
        CompletedExactly(comparisons, Load(file, spec).value);
      }
    }
  }

  lemma {:induction false} LoadsExactly(file: File, spec: Spec)
    ensures forall items :: Load(file, spec) == Ok(items) <==> file == Sealed(spec, items)
  {
  }
}

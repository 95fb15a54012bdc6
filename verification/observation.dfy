/** The bounded controller observation: a greedy fill measured by encoded length. */
module Observation {
  import opened Common

  /** A code point; observation text never holds a surrogate. */
  type Text = seq<nat>

  datatype Field = FaultMessage | FaultDetails | ExceptionMessage | ExceptionCode | ExceptionDetails
                 | Stdout | Stderr | Display | Namespace | Duration

  /** Fields that hold JSON data rather than text: shown whole or not at all. */
  predicate Structured(f: Field) { f.FaultDetails? || f.ExceptionDetails? || f.Namespace? || f.Duration? }

  // ----- Encoded length -----

  function Digits(n: nat): (d: nat)
    ensures d >= 1
  {
    if n < 10 then 1 else 1 + Digits(n / 10)
  }

  /** The characters one code point takes inside a JSON string. */
  function Escape(p: nat): nat {
    if p == 34 || p == 92 || p == 8 || p == 9 || p == 10 || p == 12 || p == 13 then 2
    else if p < 32 then 6
    else 1
  }

  function Escaped(s: Text): nat { if s == [] then 0 else Escaped(s[..|s| - 1]) + Escape(s[|s| - 1]) }

  /** The length of a comma, the field's quoted key inside its own object, and a colon. */
  function KeyCost(f: Field): nat {
    4 + match f
        case FaultMessage => 7 case FaultDetails => 7 case ExceptionMessage => 7 case ExceptionCode => 4
        case ExceptionDetails => 7 case Stdout => 6 case Stderr => 6
        case Display => 7 case Namespace => 9 case Duration => 16
  }

  /** The length of the field's quoted full name and a colon in the truncation table. */
  function NameCost(f: Field): nat {
    3 + match f
        case FaultMessage => 13 case FaultDetails => 13 case ExceptionMessage => 17 case ExceptionCode => 14
        case ExceptionDetails => 17 case Stdout => 6 case Stderr => 6
        case Display => 7 case Namespace => 9 case Duration => 16
  }

  /**
   * One call's constants: `base` measures the envelope around an empty table, `reencoded` each structured
   * value as data, and `names` lists the candidate fields.
   */
  datatype Layout = Layout(base: nat, reencoded: map<Field, nat>, names: seq<Field>) {
    ghost predicate Valid() { forall i, j :: 0 <= i < j < |names| ==> names[i] != names[j] }
  }

  function ValueCost(layout: Layout, f: Field, text: Text): nat {
    if Structured(f) then (if f in layout.reencoded then layout.reencoded[f] else |text|) else 2 + Escaped(text)
  }

  function ShownAt(layout: Layout, shown: map<Field, Text>): Field -> int {
    f => if f in shown then KeyCost(f) + ValueCost(layout, f, shown[f]) else 0
  }

  function EntryAt(omitted: map<Field, nat>): Field -> int {
    f => if f in omitted then NameCost(f) + Digits(omitted[f]) + 1 else 0
  }

  function OmittedAt(omitted: map<Field, nat>): Field -> int {
    f => if f in omitted then omitted[f] else 0
  }

  function Total(layout: Layout, omitted: map<Field, nat>): int { Sum(OmittedAt(omitted), layout.names) }

  /** The table's entries are separated by commas, one fewer than there are entries. */
  function Table(layout: Layout, omitted: map<Field, nat>): int {
    Sum(EntryAt(omitted), layout.names) - if omitted == map[] then 0 else 1
  }

  function EncodedLength(layout: Layout, shown: map<Field, Text>, omitted: map<Field, nat>, total: nat): int {
    layout.base + Sum(ShownAt(layout, shown), layout.names) + Digits(total) + Table(layout, omitted)
  }

  // ----- The value under construction -----

  lemma {:induction false} TotalNonNegative(layout: Layout, omitted: map<Field, nat>)
    ensures Total(layout, omitted) >= 0
  {
    SumNonNegative(OmittedAt(omitted), layout.names);
  }

  function TotalOf(layout: Layout, omitted: map<Field, nat>): nat {
    TotalNonNegative(layout, omitted);
    Total(layout, omitted)
  }

  /** The mutable execution object: its optional fields and its truncation record. */
  class ExecutionValue {
    var shown: map<Field, Text>
    var omitted: map<Field, nat>
    var omittedChars: nat

    constructor ()
      ensures shown == map[] && omitted == map[] && omittedChars == 0
    {
      shown, omitted, omittedChars := map[], map[], 0;
    }

    method ApplyRetained(retained: map<Field, Text>)
      modifies this`shown
      ensures shown == old(shown) + retained
    {
      shown := shown + retained;
    }

    method SetTruncation(layout: Layout, table: map<Field, nat>)
      modifies this`omitted, this`omittedChars
      ensures omitted == table && omittedChars == TotalOf(layout, table)
    {
      omitted, omittedChars := table, TotalOf(layout, table);
    }

    /** A deep copy with the proposal applied; this object is left alone. */
    method WithRetained(layout: Layout, retained: map<Field, Text>, table: map<Field, nat>)
      returns (candidate: ExecutionValue)
      ensures fresh(candidate)
      ensures candidate.shown == shown + retained && candidate.omitted == table
      ensures candidate.omittedChars == TotalOf(layout, table)
    {
      candidate := new ExecutionValue();
      candidate.shown, candidate.omitted, candidate.omittedChars := shown, omitted, omittedChars;
      candidate.ApplyRetained(retained);
      candidate.SetTruncation(layout, table);
    }

    function Length(layout: Layout): int
      reads this
    {
      EncodedLength(layout, shown, omitted, omittedChars)
    }
  }

  // ----- Trying a prefix -----

  function Cut(omitted: map<Field, nat>, f: Field, rest: nat): map<Field, nat> {
    if rest > 0 then omitted[f := rest] else omitted - {f}
  }

  /** The encoded length when field f shows the first m characters of its text. */
  function Size(layout: Layout, shown: map<Field, Text>, omitted: map<Field, nat>, f: Field, text: Text, m: nat): int
    requires m <= |text|
  {
    var table := Cut(omitted, f, |text| - m);
    EncodedLength(layout, shown[f := text[..m]], table, TotalOf(layout, table))
  }

  /** The encoded length of a value, by what it shows and what it omits. */
  type Measure = (map<Field, Text>, map<Field, nat>) -> int

  function Encoder(layout: Layout): Measure {
    (shown, omitted) => EncodedLength(layout, shown, omitted, TotalOf(layout, omitted))
  }

  /** The search and the fill depend on the encoding only through its lengths. */
  ghost predicate Sizes(layout: Layout, size: Measure) {
    forall shown, omitted {:trigger EncodedLength(layout, shown, omitted, TotalOf(layout, omitted))} ::
      EncodedLength(layout, shown, omitted, TotalOf(layout, omitted)) == size(shown, omitted)
  }

  function FitsAt(
      size: Measure, shown: map<Field, Text>, omitted: map<Field, nat>, f: Field, text: Text, max: int): nat -> bool {
    m => 0 <= m <= |text| && size(shown[f := text[..m]], Cut(omitted, f, |text| - m)) <= max
  }

  /** The length the search measures next. */
  function Middle(low: nat, high: nat): (m: nat)
    requires low < high
    ensures low < m <= high
  {
    (low + high + 1) / 2
  }

  /** The search's answer on the interval [low, high], for any test of a prefix length. */
  function Probe(fits: nat -> bool, low: nat, high: nat): (r: nat)
    requires low <= high
    ensures low <= r <= high
    decreases high - low
  {
    if low == high then low
    else
      var middle := Middle(low, high);
      if fits(middle) then Probe(fits, middle, high) else Probe(fits, low, middle - 1)
  }

  /** Without any monotonicity: the answer passes the test unless it is the left end, and its successor fails it. */
  lemma {:induction false} ProbeBrackets(fits: nat -> bool, low: nat, high: nat)
    requires low <= high
    ensures var r := Probe(fits, low, high);
      && (r == low || fits(r))
      && (r == high || !fits(r + 1))
    decreases high - low
  {
    if low < high {
      var middle := Middle(low, high);
      if fits(middle) {
        ProbeBrackets(fits, middle, high);
      } else {
        ProbeBrackets(fits, low, middle - 1);
      }
    }
  }

  /** Measures the deep-copied candidate that shows the first m characters. */
  method TryPrefix(layout: Layout, value: ExecutionValue, retained: map<Field, Text>, omitted: map<Field, nat>,
                   f: Field, text: Text, max: int, m: nat, ghost size: Measure, ghost fitsAt: nat -> bool)
    returns (fits: bool)
    requires Sizes(layout, size) && value.shown == retained && fitsAt == FitsAt(size, retained, omitted, f, text, max)
    requires m <= |text|
    ensures fits == fitsAt(m)
  {
    var proposed := retained[f := text[..m]];
    var candidate := value.WithRetained(layout, proposed, Cut(omitted, f, |text| - m));
    assert retained + proposed == proposed;
    fits := candidate.Length(layout) <= max;
  }

  /** A range that the search over all of 0..n still leads to. */
  ghost predicate OnTrack(fits: nat -> bool, low: nat, high: nat, n: nat) {
    low <= high <= n && Probe(fits, low, high) == Probe(fits, 0, n)
  }

  lemma {:induction false} ProbeStep(fits: nat -> bool, low: nat, high: nat, n: nat, fit: bool)
    requires low < high && OnTrack(fits, low, high, n) && fit == fits(Middle(low, high))
    ensures var middle := Middle(low, high);
      low < middle <= high && if fit then OnTrack(fits, middle, high, n) else OnTrack(fits, low, middle - 1, n)
  {
  }

  method MaxPrefixThatFits(layout: Layout, value: ExecutionValue, retained: map<Field, Text>, omitted: map<Field, nat>,
                           f: Field, text: Text, max: int, ghost size: Measure) returns (low: nat)
    requires Sizes(layout, size) && value.shown == retained
    ensures low == Probe(FitsAt(size, retained, omitted, f, text, max), 0, |text|) <= |text|
  {
    ghost var fitsAt := FitsAt(size, retained, omitted, f, text, max);
    var high: nat := |text|;
    low := 0;
    while low < high
      invariant OnTrack(fitsAt, low, high, |text|)
    {
      var middle := Middle(low, high);
      var fits := TryPrefix(layout, value, retained, omitted, f, text, max, middle, size, fitsAt);
      low, high := Narrow(fitsAt, low, high, |text|, fits);
    }
  }

  /** One turn of the search. */
  method Narrow(ghost fitsAt: nat -> bool, low: nat, high: nat, ghost n: nat, fits: bool) returns (from: nat, to: nat)
    requires low < high && OnTrack(fitsAt, low, high, n) && fits == fitsAt(Middle(low, high))
    ensures OnTrack(fitsAt, from, to, n) && to - from < high - low
  {
    ProbeStep(fitsAt, low, high, n, fits);
    var middle := Middle(low, high);
    if fits {
      from, to := middle, high;
    } else {
      from, to := low, middle - 1;
    }
  }

  // ----- Fit is not monotone, but nearly -----

  /** Two counts together lose at most as many digits as the steps taken, from the second step on. */
  lemma {:induction false} DigitsDrop(x: nat, y: nat)
    requires y <= x
    ensures Digits(y) <= Digits(x)
    ensures 2 * (Digits(x) - Digits(y)) <= x - y + 1
    ensures x - y >= 2 ==> 2 * (Digits(x) - Digits(y)) <= x - y
    decreases x
  {
    if y >= 10 {
      DigitsDrop(x / 10, y / 10);
    } else if x >= 10 {
      DigitsSmall(x / 10);
    }
  }

  lemma {:induction false} DigitsSmall(n: nat)
    requires n >= 1
    ensures Digits(n) == 1 || 2 * Digits(n) <= n
    ensures 2 * Digits(n) <= n + 1
  {
    if n >= 10 {
      DigitsSmall(n / 10);
    }
  }

  lemma {:induction false} EscapedGrows(s: Text, m: nat, k: nat)
    requires m <= k <= |s|
    ensures Escaped(s[..m]) + (k - m) <= Escaped(s[..k])
  {
    if m < k {
      EscapedGrows(s, m, k - 1);
      assert s[..k][..k - 1] == s[..k - 1];
    }
  }

  /** What does not depend on how long a proper prefix of f is shown. */
  function Rest(layout: Layout, shown: map<Field, Text>, omitted: map<Field, nat>, f: Field): int
    requires f in omitted
  {
    layout.base + Sum(ShownAt(layout, shown), layout.names) - ShownAt(layout, shown)(f) + KeyCost(f) + 2
    + Table(layout, omitted) - Digits(omitted[f])
  }

  lemma {:induction false} TotalCovers(layout: Layout, omitted: map<Field, nat>, f: Field)
    requires f in omitted && f in layout.names
    ensures Total(layout, omitted) >= omitted[f]
  {
    SumNonNegative(OmittedAt(omitted), layout.names);
    var k :| 0 <= k < |layout.names| && layout.names[k] == f;
    assert OmittedAt(omitted)(layout.names[k]) == omitted[f];
  }

  /** The three sums of the encoded length once `kept` of f is shown and `rest` of it omitted. */
  lemma {:induction false} OneFieldChanges(layout: Layout, shown: map<Field, Text>, omitted: map<Field, nat>,
      f: Field, kept: Text, rest: nat)
    requires layout.Valid() && f in layout.names && f in omitted
    ensures var table := Cut(omitted, f, rest);
      && Sum(ShownAt(layout, shown[f := kept]), layout.names)
         == Sum(ShownAt(layout, shown), layout.names) - ShownAt(layout, shown)(f) + KeyCost(f)
           + ValueCost(layout, f, kept)
      && Total(layout, table) == Total(layout, omitted) - omitted[f] + rest
      && Sum(EntryAt(table), layout.names)
         == Sum(EntryAt(omitted), layout.names) - Digits(omitted[f])
            + (if rest > 0 then Digits(rest) else 0 - NameCost(f) - 1)
  {
    var table := Cut(omitted, f, rest);
    SumDiffer(ShownAt(layout, shown), ShownAt(layout, shown[f := kept]), layout.names, f);
    SumDiffer(OmittedAt(omitted), OmittedAt(table), layout.names, f);
    SumDiffer(EntryAt(omitted), EntryAt(table), layout.names, f);
  }

  /**
   * The length of a proper nonempty prefix, up to a constant of the call: the characters shown, and the
   * digits of the two counts of what is left.
   */
  lemma {:induction false} SizeOfProper(
      layout: Layout, shown: map<Field, Text>, omitted: map<Field, nat>, f: Field, text: Text, m: nat)
    requires 1 <= m < |text| && !Structured(f) && f in omitted && omitted[f] == |text|
    requires layout.Valid() && f in layout.names
    ensures Total(layout, omitted) >= |text|
    ensures Size(layout, shown, omitted, f, text, m) == Rest(layout, shown, omitted, f)
      + Escaped(text[..m]) + Digits(Total(layout, omitted) - m) + Digits(|text| - m)
  {
    OneFieldChanges(layout, shown, omitted, f, text[..m], |text| - m);
    TotalCovers(layout, omitted, f);
    assert f in Cut(omitted, f, |text| - m) && omitted != map[];
  }

  /** Two or more further characters never shorten the encoding of a proper prefix. */
  lemma {:induction false} TwoMoreNeverShorter(layout: Layout, shown: map<Field, Text>, omitted: map<Field, nat>,
                                               f: Field, text: Text, m: nat, k: nat)
    requires 1 <= m && m + 2 <= k < |text| && !Structured(f) && f in omitted && omitted[f] == |text|
    requires layout.Valid() && f in layout.names
    ensures Size(layout, shown, omitted, f, text, m) <= Size(layout, shown, omitted, f, text, k)
  {
    SizeOfProper(layout, shown, omitted, f, text, m);
    SizeOfProper(layout, shown, omitted, f, text, k);
    EscapedGrows(text, m, k);
    DigitsDrop(Total(layout, omitted) - m, Total(layout, omitted) - k);
    DigitsDrop(|text| - m, |text| - k);
  }

  /** One further character shortens it by at most one. */
  lemma {:induction false} OneMoreSavesAtMostOne(layout: Layout, shown: map<Field, Text>, omitted: map<Field, nat>,
                                                 f: Field, text: Text, m: nat)
    requires 1 <= m && m + 1 < |text| && !Structured(f) && f in omitted && omitted[f] == |text|
    requires layout.Valid() && f in layout.names
    ensures Size(layout, shown, omitted, f, text, m) - 1 <= Size(layout, shown, omitted, f, text, m + 1)
  {
    SizeOfProper(layout, shown, omitted, f, text, m);
    SizeOfProper(layout, shown, omitted, f, text, m + 1);
    EscapedGrows(text, m, m + 1);
    DigitsDrop(Total(layout, omitted) - m, Total(layout, omitted) - m - 1);
    DigitsDrop(|text| - m, |text| - m - 1);
  }

  lemma {:induction false} NoFarFit(layout: Layout, shown: map<Field, Text>, omitted: map<Field, nat>,
                                    f: Field, text: Text, max: int, m: nat, k: nat)
    requires 1 <= m && m + 2 <= k < |text| && !Structured(f) && f in omitted && omitted[f] == |text|
    requires layout.Valid() && f in layout.names
    requires !FitsAt(Encoder(layout), shown, omitted, f, text, max)(m)
    ensures !FitsAt(Encoder(layout), shown, omitted, f, text, max)(k)
  {
    TwoMoreNeverShorter(layout, shown, omitted, f, text, m, k);
  }

  /** Between one and n, a length that does not fit rules out every longer one, except possibly its successor and n. */
  ghost predicate NearlyMonotone(fits: nat -> bool, n: nat) {
    forall m, k :: 1 <= m && m + 2 <= k < n && !fits(m) ==> !fits(k)
  }

  /** Not monotone, since a count can lose a digit in two places at once; but nearly. */
  lemma {:induction false} FitIsNearlyMonotone(layout: Layout, shown: map<Field, Text>, omitted: map<Field, nat>,
                                               f: Field, text: Text, max: int)
    requires !Structured(f) && f in omitted && omitted[f] == |text|
    requires layout.Valid() && f in layout.names
    ensures NearlyMonotone(FitsAt(Encoder(layout), shown, omitted, f, text, max), |text|)
  {
    forall m, k | 1 <= m && m + 2 <= k < |text| && !FitsAt(Encoder(layout), shown, omitted, f, text, max)(m)
      ensures !FitsAt(Encoder(layout), shown, omitted, f, text, max)(k)
    {
      NoFarFit(layout, shown, omitted, f, text, max, m, k);
    }
  }

  /**
   * The search returns a length that fits (or zero); it is the whole text or its successor does not fit;
   * no proper prefix longer by more than two fits; and it is the longest fitting length exactly when
   * neither its second successor nor the whole text fits.
   */
  lemma {:induction false} SearchIsNearlyBest(fits: nat -> bool, n: nat)
    requires NearlyMonotone(fits, n)
    ensures var r := Probe(fits, 0, n);
      && (r == 0 || fits(r))
      && (r == n || !fits(r + 1))
      && (forall k :: r + 2 < k < n ==> !fits(k))
      && ((forall k :: r < k <= n ==> !fits(k)) <==> !(r + 2 <= n && fits(r + 2)) && !(r < n && fits(n)))
  {
    ProbeBrackets(fits, 0, n);
  }

  // ----- The whole observation -----

  datatype Fault = BadBudget | SkeletonTooLarge

  type Candidate = (Field, Text)

  ghost predicate Distinct(candidates: seq<Candidate>) {
    forall i, j :: 0 <= i < j < |candidates| ==> candidates[i].0 != candidates[j].0
  }

  function Names(candidates: seq<Candidate>): (names: seq<Field>)
    ensures |names| == |candidates| && forall i :: 0 <= i < |names| ==> names[i] == candidates[i].0
  {
    seq(|candidates|, i requires 0 <= i < |candidates| => candidates[i].0)
  }

  /** Every nonempty candidate starts wholly omitted. */
  function AllOmitted(candidates: seq<Candidate>): map<Field, nat>
    requires Distinct(candidates)
  {
    map i | 0 <= i < |candidates| && candidates[i].1 != [] :: candidates[i].0 := |candidates[i].1|
  }

  /** Nothing of a candidate is lost from the record: what is shown and what is counted make its full length. */
  predicate Accounted(shown: map<Field, Text>, omitted: map<Field, nat>, c: Candidate) {
    var (f, text) := c;
    var kept := if f in shown then shown[f] else [];
    && kept <= text && (f in shown ==> kept != [])
    && (f in omitted <==> |kept| < |text|)
    && (f in omitted ==> |kept| + omitted[f] == |text|)
    && (Structured(f) ==> kept == [] || kept == text)
  }

  predicate Untouched(shown: map<Field, Text>, omitted: map<Field, nat>, c: Candidate) {
    && c.0 !in shown
    && (c.0 in omitted <==> c.1 != []) && (c.0 in omitted ==> omitted[c.0] == |c.1|)
  }

  /** The first n candidates are decided, and nothing but candidates is mentioned. */
  ghost predicate Filled(shown: map<Field, Text>, omitted: map<Field, nat>, candidates: seq<Candidate>, n: nat)
    requires n <= |candidates|
  {
    && (forall i :: 0 <= i < n ==> Accounted(shown, omitted, candidates[i]))
    && (forall i :: n <= i < |candidates| ==> Untouched(shown, omitted, candidates[i]))
    && (forall g :: g in shown || g in omitted ==> g in Names(candidates))
  }

  lemma {:induction false} AcceptAccounts(
      shown: map<Field, Text>, omitted: map<Field, nat>, c: Candidate, accepted: nat)
    requires Untouched(shown, omitted, c) && accepted <= |c.1|
    requires Structured(c.0) ==> accepted == 0 || accepted == |c.1|
    ensures accepted == 0 ==> Accounted(shown, omitted, c)
    ensures accepted > 0 ==> Accounted(shown[c.0 := c.1[..accepted]], Cut(omitted, c.0, |c.1| - accepted), c)
  {
  }

  lemma {:induction false} OtherFields(
      shown: map<Field, Text>, omitted: map<Field, nat>, f: Field, kept: Text, rest: nat, c: Candidate)
    requires c.0 != f
    ensures Accounted(shown, omitted, c) ==> Accounted(shown[f := kept], Cut(omitted, f, rest), c)
    ensures Untouched(shown, omitted, c) ==> Untouched(shown[f := kept], Cut(omitted, f, rest), c)
  {
  }

  lemma {:induction false} FillOthers(
      shown: map<Field, Text>, omitted: map<Field, nat>, candidates: seq<Candidate>, n: nat, kept: Text, rest: nat,
      i: nat)
    requires Distinct(candidates) && n < |candidates| && Filled(shown, omitted, candidates, n) && i < |candidates|
    requires i != n
    ensures var f := candidates[n].0;
      && (i < n ==> Accounted(shown[f := kept], Cut(omitted, f, rest), candidates[i]))
      && (i > n ==> Untouched(shown[f := kept], Cut(omitted, f, rest), candidates[i]))
  {
    OtherFields(shown, omitted, candidates[n].0, kept, rest, candidates[i]);
  }

  /** Of the candidate `k` characters are accepted, none or all of a structured one. */
  predicate Decided(c: Candidate, k: nat, shown: map<Field, Text>, omitted: map<Field, nat>,
      now: map<Field, Text>, table: map<Field, nat>)
  {
    && k <= |c.1| && (Structured(c.0) ==> k == 0 || k == |c.1|)
    && now == (if k == 0 then shown else shown[c.0 := c.1[..k]])
    && table == if k == 0 then omitted else Cut(omitted, c.0, |c.1| - k)
  }

  lemma {:induction false} FillOne(
      shown: map<Field, Text>, omitted: map<Field, nat>, candidates: seq<Candidate>, n: nat, accepted: nat,
      now: map<Field, Text>, table: map<Field, nat>)
    requires Distinct(candidates) && n < |candidates| && Filled(shown, omitted, candidates, n)
    requires Decided(candidates[n], accepted, shown, omitted, now, table)
    ensures Filled(now, table, candidates, n + 1)
  {
    var (f, text) := candidates[n];
    AcceptAccounts(shown, omitted, candidates[n], accepted);
    if accepted > 0 {
      forall i | 0 <= i < |candidates| && i != n
        ensures i < n ==> Accounted(now, table, candidates[i])
        ensures i > n ==> Untouched(now, table, candidates[i])
      {
        FillOthers(shown, omitted, candidates, n, text[..accepted], |text| - accepted, i);
      }
      assert Names(candidates)[n] == f;
    }
  }

  /** How much of a candidate is shown, given what is already shown and omitted. */
  function Accepted(size: Measure, shown: map<Field, Text>, omitted: map<Field, nat>, c: Candidate, max: int): (n: nat)
    ensures n <= |c.1|
  {
    var fits := FitsAt(size, shown, omitted, c.0, c.1, max);
    if c.1 == [] then 0
    else if !Structured(c.0) then Probe(fits, 0, |c.1|)
    else if fits(|c.1|) then |c.1|
    else 0
  }

  /** What is shown and omitted once a candidate is decided. */
  function Offered(
      size: Measure, shown: map<Field, Text>, omitted: map<Field, nat>, c: Candidate,
      max: int): (map<Field, Text>, map<Field, nat>) {
    var (f, text) := c;
    var k := Accepted(size, shown, omitted, c, max);
    if k == 0 then (shown, omitted) else (shown[f := text[..k]], Cut(omitted, f, |text| - k))
  }

  /** The fill after the first n candidates, in candidate order. */
  function Greedy(size: Measure, candidates: seq<Candidate>, max: int, n: nat): (map<Field, Text>, map<Field, nat>)
    requires Distinct(candidates) && n <= |candidates|
  {
    if n == 0 then (map[], AllOmitted(candidates))
    else
      var (shown, omitted) := Greedy(size, candidates, max, n - 1);
      Offered(size, shown, omitted, candidates[n - 1], max)
  }

  lemma {:induction false} OfferedDecides(
      size: Measure, shown: map<Field, Text>, omitted: map<Field, nat>, c: Candidate, max: int)
    returns (k: nat, now: map<Field, Text>, table: map<Field, nat>)
    ensures (now, table) == Offered(size, shown, omitted, c, max) && Decided(c, k, shown, omitted, now, table)
  {
    k := Accepted(size, shown, omitted, c, max);
    var next := Offered(size, shown, omitted, c, max);
    now, table := next.0, next.1;
  }

  lemma {:induction false} GreedyStep(
      size: Measure, candidates: seq<Candidate>, max: int, n: nat, before: map<Field, Text>, table: map<Field, nat>)
    returns (k: nat, shown: map<Field, Text>, omitted: map<Field, nat>)
    requires Distinct(candidates) && 0 < n <= |candidates| && (before, table) == Greedy(size, candidates, max, n - 1)
    ensures (shown, omitted) == Greedy(size, candidates, max, n)
    ensures Decided(candidates[n - 1], k, before, table, shown, omitted)
  {
    k, shown, omitted := OfferedDecides(size, before, table, candidates[n - 1], max);
  }

  /** Decides how much of one nonempty candidate to show; the values measured are copies. */
  method Accept(layout: Layout, value: ExecutionValue, f: Field, text: Text, max: int, ghost size: Measure)
    returns (accepted: nat)
    requires Sizes(layout, size) && text != []
    ensures accepted == Accepted(size, value.shown, value.omitted, (f, text), max)
    ensures accepted > 0 ==> FitsAt(size, value.shown, value.omitted, f, text, max)(accepted)
  {
    if Structured(f) {
      ghost var fitsAt := FitsAt(size, value.shown, value.omitted, f, text, max);
      var fits := TryPrefix(layout, value, value.shown, value.omitted, f, text, max, |text|, size, fitsAt);
      accepted := if fits then |text| else 0;
    } else {
      accepted := MaxPrefixThatFits(layout, value, value.shown, value.omitted, f, text, max, size);
      ProbeBrackets(FitsAt(size, value.shown, value.omitted, f, text, max), 0, |text|);
    }
  }

  /** Updates the value in place to what was measured. */
  method Show(layout: Layout, value: ExecutionValue, f: Field, text: Text, accepted: nat, max: int, ghost size: Measure)
    requires Sizes(layout, size) && 0 < accepted <= |text| && f !in value.shown
    requires FitsAt(size, value.shown, value.omitted, f, text, max)(accepted)
    modifies value
    ensures value.shown == old(value.shown)[f := text[..accepted]]
    ensures value.omitted == Cut(old(value.omitted), f, |text| - accepted)
    ensures value.omittedChars == TotalOf(layout, value.omitted)
    ensures value.Length(layout) == size(value.shown, value.omitted) <= max
  {
    var retained := value.shown[f := text[..accepted]];
    var table := Cut(value.omitted, f, |text| - accepted);
    assert value.shown + retained == retained;
    value.ApplyRetained(retained);
    value.SetTruncation(layout, table);
  }

  /** The encoded length with every candidate omitted. */
  function Skeleton(layout: Layout, candidates: seq<Candidate>): int
    requires Distinct(candidates)
  {
    EncodedLength(layout, map[], AllOmitted(candidates), TotalOf(layout, AllOmitted(candidates)))
  }

  /**
   * The fill loses nothing from the record: what is shown of each candidate is a prefix, shown and
   * counted parts make its full length, and structured fields are shown whole or not at all.
   */
  lemma {:induction false} GreedyAccounts(size: Measure, candidates: seq<Candidate>, max: int, n: nat)
    returns (shown: map<Field, Text>, omitted: map<Field, nat>)
    requires Distinct(candidates) && n <= |candidates|
    ensures (shown, omitted) == Greedy(size, candidates, max, n) && Filled(shown, omitted, candidates, n)
  {
    if n == 0 {
      NothingShown(candidates);
      shown, omitted := map[], AllOmitted(candidates);
    } else {
      var before, table := GreedyAccounts(size, candidates, max, n - 1);
      shown, omitted := GreedyFills(size, candidates, max, n, before, table);
    }
  }

  lemma {:induction false} GreedyFills(
      size: Measure, candidates: seq<Candidate>, max: int, n: nat, before: map<Field, Text>, table: map<Field, nat>)
    returns (shown: map<Field, Text>, omitted: map<Field, nat>)
    requires Distinct(candidates) && 0 < n <= |candidates| && (before, table) == Greedy(size, candidates, max, n - 1)
    requires Filled(before, table, candidates, n - 1)
    ensures (shown, omitted) == Greedy(size, candidates, max, n) && Filled(shown, omitted, candidates, n)
  {
    var k;
    k, shown, omitted := GreedyStep(size, candidates, max, n, before, table);
    FillOne(before, table, candidates, n - 1, k, shown, omitted);
  }

  lemma {:induction false} NothingShown(candidates: seq<Candidate>)
    requires Distinct(candidates)
    ensures Filled(map[], AllOmitted(candidates), candidates, 0)
  {
    forall i | 0 <= i < |candidates|
      ensures Untouched(map[], AllOmitted(candidates), candidates[i])
    {
    }
    forall g | g in AllOmitted(candidates)
      ensures g in Names(candidates)
    {
      var i :| 0 <= i < |candidates| && candidates[i].1 != [] && candidates[i].0 == g;
      assert Names(candidates)[i] == g;
    }
  }

  lemma {:induction false} NextUntouched(size: Measure, candidates: seq<Candidate>, max: int, n: nat)
    requires Distinct(candidates) && n < |candidates|
    ensures candidates[n].0 !in Greedy(size, candidates, max, n).0
  {
    var shown, omitted := GreedyAccounts(size, candidates, max, n);
    assert Untouched(shown, omitted, candidates[n]);
  }

  // ----- What the finished fill shows -----

  /** The characters of a field that are shown. */
  function Kept(shown: map<Field, Text>, f: Field): nat { if f in shown then |shown[f]| else 0 }

  /** Later candidates leave a decided one as it is. */
  lemma {:induction false} StaysDecided(size: Measure, candidates: seq<Candidate>, max: int, i: nat, n: nat)
    returns (early: map<Field, Text>, shown: map<Field, Text>, omitted: map<Field, nat>)
    requires Distinct(candidates) && i < n <= |candidates|
    ensures early == Greedy(size, candidates, max, i + 1).0 && (shown, omitted) == Greedy(size, candidates, max, n)
    ensures var f := candidates[i].0; (f in shown <==> f in early) && (f in early ==> shown[f] == early[f])
  {
    if n == i + 1 {
      shown, omitted := GreedyAccounts(size, candidates, max, n);
      early := shown;
    } else {
      var before, table;
      early, before, table := StaysDecided(size, candidates, max, i, n - 1);
      var k;
      k, shown, omitted := GreedyStep(size, candidates, max, n, before, table);
      assert candidates[n - 1].0 != candidates[i].0;
    }
  }

  lemma {:induction false} StructuredOffered(
      size: Measure, shown: map<Field, Text>, omitted: map<Field, nat>, f: Field, data: Text, max: int)
    returns (now: map<Field, Text>)
    requires Structured(f) && data != [] && f !in shown
    ensures now == Offered(size, shown, omitted, (f, data), max).0
    ensures f in now <==> size(shown[f := data], omitted - {f}) <= max
    ensures f in now ==> now[f] == data
  {
    now := Offered(size, shown, omitted, (f, data), max).0;
    assert data[..|data|] == data;
  }

  /**
   * The finished fill shows a nonempty structured candidate exactly when the value with all of it shown and
   * its entry out of the table fits when its turn comes, and then it shows all of it.
   */
  lemma {:induction false} StructuredShownExactly(size: Measure, candidates: seq<Candidate>, max: int, n: nat)
    returns (shown: map<Field, Text>, omitted: map<Field, nat>, final: map<Field, Text>)
    requires Distinct(candidates) && n < |candidates| && candidates[n].1 != []
    requires candidates[n].0 in {FaultDetails, ExceptionDetails, Namespace, Duration}
    ensures (shown, omitted) == Greedy(size, candidates, max, n)
    ensures final == Greedy(size, candidates, max, |candidates|).0
    ensures var (f, data) := candidates[n];
      && (f in final <==> size(shown[f := data], omitted - {f}) <= max)
      && (f in final ==> final[f] == data)
  {
    var early, rest;
    var c := candidates[n];
    shown, omitted := GreedyAccounts(size, candidates, max, n);
    assert Untouched(shown, omitted, c);
    early, final, rest := StaysDecided(size, candidates, max, n, |candidates|);
    var now := StructuredOffered(size, shown, omitted, c.0, c.1, max);
    assert early == now;
  }

  /** Of a text candidate it shows the prefix that the search finds when its turn comes. */
  lemma {:induction false} TextShownExactly(size: Measure, candidates: seq<Candidate>, max: int, n: nat)
    returns (shown: map<Field, Text>, omitted: map<Field, nat>, final: map<Field, Text>)
    requires Distinct(candidates) && n < |candidates| && candidates[n].1 != []
    requires candidates[n].0 !in {FaultDetails, ExceptionDetails, Namespace, Duration}
    ensures (shown, omitted) == Greedy(size, candidates, max, n)
    ensures final == Greedy(size, candidates, max, |candidates|).0
    ensures var (f, text) := candidates[n];
      && Kept(final, f) == Probe(FitsAt(size, shown, omitted, f, text, max), 0, |text|)
      && (f in final ==> final[f] == text[..Kept(final, f)])
  {
    var early, rest;
    var c := candidates[n];
    shown, omitted := GreedyAccounts(size, candidates, max, n);
    assert Untouched(shown, omitted, c);
    early, final, rest := StaysDecided(size, candidates, max, n, |candidates|);
    assert early == Offered(size, shown, omitted, c, max).0;
  }

  /** Decides one candidate and updates the value in place. */
  method FillCandidate(layout: Layout, value: ExecutionValue, c: Candidate, max: int, ghost size: Measure)
    requires Sizes(layout, size) && c.0 !in value.shown
    requires value.Length(layout) <= max && value.omittedChars == TotalOf(layout, value.omitted)
    modifies value
    ensures value.Length(layout) <= max && value.omittedChars == TotalOf(layout, value.omitted)
    ensures (value.shown, value.omitted) == Offered(size, old(value.shown), old(value.omitted), c, max)
  {
    var (f, text) := c;
    if text != [] {
      var accepted := Accept(layout, value, f, text, max, size);
      if accepted > 0 {
        Show(layout, value, f, text, accepted, max, size);
      }
    }
  }

  /**
   * The encoder fails exactly when the budget is not positive or the all-omitted skeleton is too large.
   * Otherwise the value updated in place is the greedy fill, it encodes within the budget, and the
   * stated total is the sum of the table.
   */
  method ControllerObservation(base: nat, reencoded: map<Field, nat>, candidates: seq<Candidate>, max: int)
    returns (error: Option<Fault>, value: ExecutionValue)
    requires Distinct(candidates)
    ensures fresh(value)
    ensures error == Some(BadBudget) <==> max < 1
    ensures error == Some(SkeletonTooLarge) <==>
      max >= 1 && Skeleton(Layout(base, reencoded, Names(candidates)), candidates) > max
    ensures error.None? ==>
      var layout := Layout(base, reencoded, Names(candidates));
      && value.Length(layout) <= max
      && value.omittedChars == TotalOf(layout, value.omitted)
      && (value.shown, value.omitted) == Greedy(Encoder(layout), candidates, max, |candidates|)
  {
    value := new ExecutionValue();
    if max < 1 { return Some(BadBudget), value; }
    var layout := Layout(base, reencoded, Names(candidates));
    value.SetTruncation(layout, AllOmitted(candidates));
    if value.Length(layout) > max { return Some(SkeletonTooLarge), value; }
    FillAll(layout, value, candidates, max, Encoder(layout));
    error := None;
  }

  method FillAll(layout: Layout, value: ExecutionValue, candidates: seq<Candidate>, max: int, ghost size: Measure)
    requires Sizes(layout, size) && Distinct(candidates)
    requires value.Length(layout) <= max && value.omittedChars == TotalOf(layout, value.omitted)
    requires (value.shown, value.omitted) == Greedy(size, candidates, max, 0)
    modifies value
    ensures value.Length(layout) <= max && value.omittedChars == TotalOf(layout, value.omitted)
    ensures (value.shown, value.omitted) == Greedy(size, candidates, max, |candidates|)
  {
    for n := 0 to |candidates|
      invariant value.Length(layout) <= max && value.omittedChars == TotalOf(layout, value.omitted)
      invariant (value.shown, value.omitted) == Greedy(size, candidates, max, n)
    {
      NextUntouched(size, candidates, max, n);
      FillCandidate(layout, value, candidates[n], max, size);
    }
  }
}

/** When the prefix search of an observation finds the longest prefix that fits, and inputs where it does not. */
module PrefixSearch {
  import opened Common
  import opened Observation

  // ----- Where one more character shortens the encoding -----

  predicate PowerOfTen(n: nat) { n == 1 || (n >= 10 && n % 10 == 0 && PowerOfTen(n / 10)) }

  /** A count loses a digit exactly when it goes below a power of ten. */
  lemma {:induction false} DigitsStep(n: nat)
    requires n >= 2
    ensures Digits(n) - Digits(n - 1) == if PowerOfTen(n) then 1 else 0
  {
    if n == 10 {
      assert PowerOfTen(1);
    } else if n >= 20 {
      TensStep(n, n / 10, n % 10);
      if n % 10 == 0 {
        DigitsStep(n / 10);
      }
    }
  }

  lemma {:induction false} TensStep(n: nat, q: nat, r: nat)
    requires n == 10 * q + r && q >= 2 && r < 10
    ensures (n - 1) / 10 == if r == 0 then q - 1 else q
  {
  }

  /**
   * Showing one character more after `m` saves a digit in the field's count and one in the total, and the
   * character costs only one.
   */
  predicate Hole(layout: Layout, omitted: map<Field, nat>, text: Text, m: nat)
    requires Total(layout, omitted) >= |text|
  {
    && 1 <= m && m + 1 < |text|
    && PowerOfTen(|text| - m) && PowerOfTen(Total(layout, omitted) - m) && Escape(text[m]) == 1
  }

  /** What a text field looks like when its turn comes: known to the layout and wholly omitted. */
  ghost predicate Waiting(layout: Layout, omitted: map<Field, nat>, f: Field, text: Text) {
    && layout.Valid() && f in layout.names && !Structured(f)
    && f in omitted && omitted[f] == |text|
  }

  lemma {:induction false} WaitingTotal(layout: Layout, omitted: map<Field, nat>, f: Field, text: Text)
    requires Waiting(layout, omitted, f, text)
    ensures Total(layout, omitted) >= |text|
  {
    TotalCovers(layout, omitted, f);
  }

  /** The encoding gets shorter by one character at a hole, and nowhere else among proper prefixes. */
  lemma {:induction false} ShorterExactlyAtHoles(layout: Layout, shown: map<Field, Text>, omitted: map<Field, nat>,
      f: Field, text: Text, m: nat)
    requires Waiting(layout, omitted, f, text) && 1 <= m && m + 1 < |text|
    ensures Total(layout, omitted) >= |text|
    ensures var now, next := Size(layout, shown, omitted, f, text, m), Size(layout, shown, omitted, f, text, m + 1);
      if Hole(layout, omitted, text, m) then next == now - 1 else now <= next
  {
    WaitingTotal(layout, omitted, f, text);
    StepSize(layout, shown, omitted, f, text, m);
    DigitsStep(|text| - m);
    DigitsStep(Total(layout, omitted) - m);
  }

  /** What one more character costs, and what the two counts save. */
  lemma {:induction false} StepSize(layout: Layout, shown: map<Field, Text>, omitted: map<Field, nat>,
      f: Field, text: Text, m: nat)
    requires Waiting(layout, omitted, f, text) && 1 <= m && m + 1 < |text| <= Total(layout, omitted)
    ensures Size(layout, shown, omitted, f, text, m + 1) - Size(layout, shown, omitted, f, text, m)
         == Escape(text[m]) - (Digits(|text| - m) - Digits(|text| - m - 1))
            - (Digits(Total(layout, omitted) - m) - Digits(Total(layout, omitted) - m - 1))
  {
    SizeOfProper(layout, shown, omitted, f, text, m);
    SizeOfProper(layout, shown, omitted, f, text, m + 1);
    assert text[..m + 1][..m] == text[..m];
  }

  // ----- The search against the longest length that fits -----

  /** The longest length that fits, or zero. */
  function Longest(fits: nat -> bool, n: nat): (k: nat)
    ensures k <= n && (k == 0 || fits(k)) && forall i :: k < i <= n ==> !fits(i)
  {
    if n == 0 || fits(n) then n else Longest(fits, n - 1)
  }

  lemma {:induction false} ProbeNone(fits: nat -> bool, low: nat, high: nat)
    requires low <= high && forall i :: low < i <= high ==> !fits(i)
    ensures Probe(fits, low, high) == low
    decreases high - low
  {
    if low < high {
      ProbeNone(fits, low, Middle(low, high) - 1);
    }
  }

  /** Where the lengths that fit are an initial range, the search finds its end. */
  lemma {:induction false} ProbeFinds(fits: nat -> bool, low: nat, high: nat, k: nat)
    requires low <= k <= high
    requires (forall i :: low < i <= k ==> fits(i)) && forall i :: k < i <= high ==> !fits(i)
    ensures Probe(fits, low, high) == k
    decreases high - low
  {
    if low < high {
      var middle := Middle(low, high);
      if middle <= k {
        ProbeFinds(fits, middle, high, k);
      } else {
        ProbeFinds(fits, low, middle - 1, k);
      }
    }
  }

  /** The search reaches the right end only past the length before it. */
  lemma {:induction false} ReachesEnd(fits: nat -> bool, low: nat, high: nat)
    requires low + 1 < high && Probe(fits, low, high) == high
    ensures fits(high - 1)
    decreases high - low
  {
    var middle := Middle(low, high);
    if middle < high - 1 {
      ReachesEnd(fits, middle, high);
    }
  }

  /** The search over low..high measures `j` before it measures `j + 1`. */
  predicate MeasuresFirst(low: nat, high: nat, j: nat)
    requires low < j < high
    decreases high - low
  {
    var middle := Middle(low, high);
    if middle == j then true
    else if middle == j + 1 then false
    else if middle > j + 1 then MeasuresFirst(low, middle - 1, j)
    else MeasuresFirst(middle, high, j)
  }

  /** One length that does not fit among those that do is missed exactly when it is measured before its successor. */
  lemma {:induction false} OneGap(fits: nat -> bool, low: nat, high: nat, j: nat)
    requires low < j < high && !fits(j) && fits(j + 1)
    requires (forall i :: low < i < j ==> fits(i)) && forall i :: j + 1 < i <= high ==> !fits(i)
    ensures Probe(fits, low, high) == j + 1 <==> !MeasuresFirst(low, high, j)
    decreases high - low
  {
    var middle := Middle(low, high);
    if middle == j + 1 {
      ProbeNone(fits, j + 1, high);
    } else if middle > j + 1 {
      OneGap(fits, low, middle - 1, j);
    } else if middle < j {
      OneGap(fits, middle, high, j);
    }
  }

  // ----- Lengths that shrink at holes only -----

  /** `size` grows with the length shown except by one at each hole, and the last proper step is no hole. */
  ghost predicate ShrinksAtHoles(size: nat -> int, hole: nat -> bool, n: nat) {
    && (forall m :: 1 <= m && m + 1 < n ==> if hole(m) then size(m + 1) == size(m) - 1 else size(m) <= size(m + 1))
    && (forall m, k :: 1 <= m && m + 2 <= k < n ==> size(m) <= size(k))
    && (n >= 3 ==> !hole(n - 2))
  }

  ghost predicate Measures(fits: nat -> bool, size: nat -> int, n: nat, max: int) {
    forall m :: 1 <= m <= n ==> (fits(m) <==> size(m) <= max)
  }

  /** The longest proper prefix fills the budget just past a hole, and the search measures the hole first. */
  predicate Missed(size: nat -> int, hole: nat -> bool, n: nat, max: int, k: nat) {
    2 <= k < n && hole(k - 1) && size(k) == max && MeasuresFirst(0, n, k - 1)
  }

  /**
   * The search's answer is the longest prefix that fits exactly when: if the whole fits, it has at most one
   * character or still fits without the last; and otherwise the longest prefix is not missed at a hole.
   */
  predicate LongestUnlessMissed(fits: nat -> bool, size: nat -> int, hole: nat -> bool, n: nat, max: int) {
    Probe(fits, 0, n) == Longest(fits, n) <==>
      if fits(n) then n <= 1 || fits(n - 1) else !Missed(size, hole, n, max, Longest(fits, n))
  }

  lemma {:induction false} ProperFoundExactly(fits: nat -> bool, size: nat -> int, hole: nat -> bool, n: nat, max: int)
    requires ShrinksAtHoles(size, hole, n) && Measures(fits, size, n, max) && !fits(n)
    ensures Probe(fits, 0, n) == Longest(fits, n) <==> !Missed(size, hole, n, max, Longest(fits, n))
  {
    var k := Longest(fits, n);
    forall i | 0 < i && i + 2 <= k
      ensures fits(i)
    {
      assert size(i) <= size(k);
    }
    if k >= 2 && !fits(k - 1) {
      assert hole(k - 1);
      OneGap(fits, 0, n, k - 1);
    } else {
      assert k >= 2 ==> size(k - 1) <= max;
      ProbeFinds(fits, 0, n, k);
    }
  }

  lemma {:induction false} WholeFoundExactly(fits: nat -> bool, size: nat -> int, hole: nat -> bool, n: nat, max: int)
    requires ShrinksAtHoles(size, hole, n) && Measures(fits, size, n, max) && fits(n)
    ensures Probe(fits, 0, n) == n <==> n <= 1 || fits(n - 1)
  {
    if n <= 1 || fits(n - 1) {
      forall i | 0 < i <= n
        ensures fits(i)
      {
        if i + 2 <= n - 1 {
          assert size(i) <= size(n - 1);
        } else if i == n - 2 {
          assert !hole(i) && size(i) <= size(i + 1);
        }
      }
      ProbeFinds(fits, 0, n, n);
    } else if Probe(fits, 0, n) == n {
      ReachesEnd(fits, 0, n);
    }
  }

  // ----- On the encoder's own lengths -----

  function SizesOf(
      layout: Layout, shown: map<Field, Text>, omitted: map<Field, nat>, f: Field, text: Text): nat -> int {
    m => if 0 <= m <= |text| then Size(layout, shown, omitted, f, text, m) else 0
  }

  function HolesOf(layout: Layout, omitted: map<Field, nat>, text: Text): nat -> bool {
    m => 0 <= m && Total(layout, omitted) >= |text| && Hole(layout, omitted, text, m)
  }

  lemma {:induction false} EncoderShrinksAtHoles(layout: Layout, shown: map<Field, Text>, omitted: map<Field, nat>,
      f: Field, text: Text)
    requires Waiting(layout, omitted, f, text)
    ensures ShrinksAtHoles(SizesOf(layout, shown, omitted, f, text), HolesOf(layout, omitted, text), |text|)
  {
    var size, hole, n := SizesOf(layout, shown, omitted, f, text), HolesOf(layout, omitted, text), |text|;
    forall m: nat | 1 <= m && m + 1 < n
      ensures if hole(m) then size(m + 1) == size(m) - 1 else size(m) <= size(m + 1)
    {
      StepOfSizes(layout, shown, omitted, f, text, m);
    }
    forall m: nat, k: nat | 1 <= m && m + 2 <= k < n
      ensures size(m) <= size(k)
    {
      TwoStepsOfSizes(layout, shown, omitted, f, text, m, k);
    }
  }

  lemma {:induction false} StepOfSizes(layout: Layout, shown: map<Field, Text>, omitted: map<Field, nat>,
      f: Field, text: Text, m: nat)
    requires Waiting(layout, omitted, f, text) && 1 <= m && m + 1 < |text|
    ensures var size, hole := SizesOf(layout, shown, omitted, f, text), HolesOf(layout, omitted, text);
      if hole(m) then size(m + 1) == size(m) - 1 else size(m) <= size(m + 1)
  {
    ShorterExactlyAtHoles(layout, shown, omitted, f, text, m);
  }

  lemma {:induction false} TwoStepsOfSizes(layout: Layout, shown: map<Field, Text>, omitted: map<Field, nat>,
      f: Field, text: Text, m: nat, k: nat)
    requires Waiting(layout, omitted, f, text) && 1 <= m && m + 2 <= k < |text|
    ensures var size := SizesOf(layout, shown, omitted, f, text); size(m) <= size(k)
  {
    TwoMoreNeverShorter(layout, shown, omitted, f, text, m, k);
  }

  lemma {:induction false} EncoderMeasures(layout: Layout, shown: map<Field, Text>, omitted: map<Field, nat>,
      f: Field, text: Text, max: int)
    ensures Measures(
      FitsAt(Encoder(layout), shown, omitted, f, text, max), SizesOf(layout, shown, omitted, f, text), |text|, max)
  {
  }

  /**
   * The search finds the longest length that fits exactly when: the whole text fits, and so does all of it but
   * its last character; or the whole does not fit, and the longest proper prefix that does is not one that fills
   * the budget just past a hole which the search measures first.
   */
  lemma {:induction false} SearchIsLongestExactly(
      layout: Layout, shown: map<Field, Text>, omitted: map<Field, nat>, f: Field, text: Text, max: int,
      fits: nat -> bool, size: nat -> int, hole: nat -> bool)
    requires Waiting(layout, omitted, f, text) && fits == FitsAt(Encoder(layout), shown, omitted, f, text, max)
    requires size == SizesOf(layout, shown, omitted, f, text) && hole == HolesOf(layout, omitted, text)
    ensures LongestUnlessMissed(fits, size, hole, |text|, max)
  {
    EncoderCurve(layout, shown, omitted, f, text, max, fits, size, hole);
    EitherCase(fits, size, hole, |text|, max);
  }

  lemma {:induction false} EncoderCurve(layout: Layout, shown: map<Field, Text>, omitted: map<Field, nat>,
      f: Field, text: Text, max: int, fits: nat -> bool, size: nat -> int, hole: nat -> bool)
    requires Waiting(layout, omitted, f, text) && fits == FitsAt(Encoder(layout), shown, omitted, f, text, max)
    requires size == SizesOf(layout, shown, omitted, f, text) && hole == HolesOf(layout, omitted, text)
    ensures ShrinksAtHoles(size, hole, |text|) && Measures(fits, size, |text|, max)
  {
    EncoderShrinksAtHoles(layout, shown, omitted, f, text);
    EncoderMeasures(layout, shown, omitted, f, text, max);
  }

  lemma {:induction false} EitherCase(fits: nat -> bool, size: nat -> int, hole: nat -> bool, n: nat, max: int)
    requires ShrinksAtHoles(size, hole, n) && Measures(fits, size, n, max)
    ensures LongestUnlessMissed(fits, size, hole, n, max)
  {
    if fits(n) {
      WholeFoundExactly(fits, size, hole, n, max);
    } else {
      ProperFoundExactly(fits, size, hole, n, max);
    }
  }

  /**
   * What the finished observation shows of a text candidate is the longest prefix that fits when its turn
   * comes, exactly under that condition.
   */
  lemma {:induction false} ShownIsLongestExactly(layout: Layout, candidates: seq<Candidate>, max: int, n: nat)
    returns (fits: nat -> bool, size: nat -> int, hole: nat -> bool, final: map<Field, Text>)
    requires Distinct(candidates) && layout.names == Names(candidates)
    requires n < |candidates| && !Structured(candidates[n].0) && candidates[n].1 != []
    ensures final == Greedy(Encoder(layout), candidates, max, |candidates|).0
    ensures var (shown, omitted) := Greedy(Encoder(layout), candidates, max, n);
      var (f, text) := candidates[n];
      && fits == FitsAt(Encoder(layout), shown, omitted, f, text, max)
      && size == SizesOf(layout, shown, omitted, f, text) && hole == HolesOf(layout, omitted, text)
      && LongestUnlessMissed(fits, size, hole, |text|, max)
      && Kept(final, f) == Probe(fits, 0, |text|)
  {
    var (f, text) := candidates[n];
    var shown, omitted;
    shown, omitted, final := TextShownExactly(Encoder(layout), candidates, max, n);
    CandidatesWait(layout, candidates, max, n);
    fits := FitsAt(Encoder(layout), shown, omitted, f, text, max);
    size, hole := SizesOf(layout, shown, omitted, f, text), HolesOf(layout, omitted, text);
    SearchIsLongestExactly(layout, shown, omitted, f, text, max, fits, size, hole);
  }

  /** A text without holes: when it does not fit whole, the search finds the longest prefix that fits. */
  lemma {:induction false} NoHoleNoMiss(layout: Layout, shown: map<Field, Text>, omitted: map<Field, nat>,
      f: Field, text: Text, max: int, fits: nat -> bool)
    requires Waiting(layout, omitted, f, text) && fits == FitsAt(Encoder(layout), shown, omitted, f, text, max)
    requires Total(layout, omitted) >= |text| && forall m :: 1 <= m < |text| - 1 ==> !Hole(layout, omitted, text, m)
    requires !fits(|text|)
    ensures Probe(fits, 0, |text|) == Longest(fits, |text|)
  {
    var size, hole := SizesOf(layout, shown, omitted, f, text), HolesOf(layout, omitted, text);
    SearchIsLongestExactly(layout, shown, omitted, f, text, max, fits, size, hole);
  }

  /** In the encoder every nonempty text candidate waits like that when its turn comes. */
  lemma {:induction false} CandidatesWait(layout: Layout, candidates: seq<Candidate>, max: int, n: nat)
    requires Distinct(candidates) && n < |candidates| && layout.names == Names(candidates)
    requires candidates[n].1 != [] && !Structured(candidates[n].0)
    ensures Waiting(layout, Greedy(Encoder(layout), candidates, max, n).1, candidates[n].0, candidates[n].1)
  {
    var shown, omitted := GreedyAccounts(Encoder(layout), candidates, max, n);
    assert Untouched(shown, omitted, candidates[n]);
    assert Names(candidates)[n] == candidates[n].0;
  }

  // ----- Inputs where it does not -----

  /** The candidates of a cell that raised nothing, wrote only to its standard output and left a namespace. */
  function Quiet(stdout: Text, namespace: Text, duration: Text): (candidates: seq<Candidate>)
    ensures Distinct(candidates)
  {
    [(Stdout, stdout), (Stderr, []), (Display, []), (Namespace, namespace), (Duration, duration)]
  }

  function Plain(n: nat): Text { seq(n, _ => 120) }

  lemma {:induction false} PlainEscaped(n: nat, m: nat)
    requires m <= n
    ensures Escaped(Plain(n)[..m]) == m
  {
    if m > 0 {
      assert Plain(n)[..m][..m - 1] == Plain(n)[..m - 1];
      PlainEscaped(n, m - 1);
    }
  }

  lemma {:induction false} QuietOmitted(
      base: nat, reencoded: map<Field, nat>, stdout: Text, namespace: Text, duration: Text)
    requires stdout != [] && namespace != [] && duration != []
    ensures var candidates := Quiet(stdout, namespace, duration);
      var layout := Layout(base, reencoded, Names(candidates));
      && AllOmitted(candidates) == map[Stdout := |stdout|, Namespace := |namespace|, Duration := |duration|]
      && Total(layout, AllOmitted(candidates)) == |stdout| + |namespace| + |duration|
      && Waiting(layout, AllOmitted(candidates), Stdout, stdout)
  {
    var candidates := Quiet(stdout, namespace, duration);
    var names, omitted := Names(candidates), AllOmitted(candidates);
    assert candidates[0].0 in omitted && candidates[3].0 in omitted && candidates[4].0 in omitted;
    assert omitted.Keys == {Stdout, Namespace, Duration};
    assert names == [Stdout, Stderr, Display, Namespace, Duration];
    QuietTotal(names, omitted);
    assert names[0] == Stdout;
  }

  lemma {:induction false} QuietTotal(names: seq<Field>, omitted: map<Field, nat>)
    requires names == [Stdout, Stderr, Display, Namespace, Duration] && omitted.Keys == {Stdout, Namespace, Duration}
    ensures Sum(OmittedAt(omitted), names) == omitted[Stdout] + omitted[Namespace] + omitted[Duration]
  {
    var f := OmittedAt(omitted);
    SumAppend(f, [], Stdout);
    SumAppend(f, [Stdout], Stderr);
    SumAppend(f, [Stdout, Stderr], Display);
    SumAppend(f, [Stdout, Stderr, Display], Namespace);
    SumAppend(f, [Stdout, Stderr, Display, Namespace], Duration);
    assert [] + [Stdout] == [Stdout];
    assert [Stdout] + [Stderr] == [Stdout, Stderr];
    assert [Stdout, Stderr] + [Display] == [Stdout, Stderr, Display];
    assert [Stdout, Stderr, Display] + [Namespace] == [Stdout, Stderr, Display, Namespace];
    assert [Stdout, Stderr, Display, Namespace] + [Duration] == names;
  }

  /** A quiet cell's observation before anything is shown. */
  lemma {:induction false} QuietSkeleton(
      base: nat, reencoded: map<Field, nat>, stdout: Text, namespace: Text, duration: Text)
    returns (layout: Layout, omitted: map<Field, nat>)
    requires stdout != [] && namespace != [] && duration != []
    ensures var candidates := Quiet(stdout, namespace, duration);
      && layout == Layout(base, reencoded, Names(candidates)) && omitted == AllOmitted(candidates)
      && Waiting(layout, omitted, Stdout, stdout) && Namespace in omitted
      && Total(layout, omitted) == |stdout| + |namespace| + |duration|
      && Skeleton(layout, candidates) == Rest(layout, map[], omitted, Stdout) - 12
         + Digits(|stdout|) + Digits(|stdout| + |namespace| + |duration|)
  {
    var candidates := Quiet(stdout, namespace, duration);
    layout, omitted := Layout(base, reencoded, Names(candidates)), AllOmitted(candidates);
    QuietOmitted(base, reencoded, stdout, namespace, duration);
    TotalNonNegative(layout, omitted);
    assert KeyCost(Stdout) + 2 == 12;
  }

  /** The length with a text field shown whole: its entry leaves the table, which has others. */
  lemma {:induction false} SizeOfWhole(
      layout: Layout, shown: map<Field, Text>, omitted: map<Field, nat>, f: Field, text: Text, other: Field)
    requires Waiting(layout, omitted, f, text) && text != [] && other in omitted && other != f
    ensures Total(layout, omitted) >= |text|
    ensures Size(layout, shown, omitted, f, text, |text|) == Rest(layout, shown, omitted, f)
      + Escaped(text) + Digits(Total(layout, omitted) - |text|) - NameCost(f) - 1
  {
    assert text[..|text|] == text;
    assert other in Cut(omitted, f, 0);
    OneFieldChanges(layout, shown, omitted, f, text, 0);
    TotalCovers(layout, omitted, f);
  }

  /** A first candidate of which nothing is accepted stays out of the observation. */
  lemma {:induction false} StaysOut(size: Measure, candidates: seq<Candidate>, max: int, n: nat)
    returns (shown: map<Field, Text>, omitted: map<Field, nat>)
    requires Distinct(candidates) && 0 < n <= |candidates|
    requires Accepted(size, map[], AllOmitted(candidates), candidates[0], max) == 0
    ensures (shown, omitted) == Greedy(size, candidates, max, n) && candidates[0].0 !in shown
  {
    if n == 1 {
      shown, omitted := map[], AllOmitted(candidates);
      assert Greedy(size, candidates, max, 0) == (shown, omitted);
    } else {
      var before, table := StaysOut(size, candidates, max, n - 1);
      var k;
      k, shown, omitted := GreedyStep(size, candidates, max, n, before, table);
      assert candidates[n - 1].0 != candidates[0].0;
    }
  }

  lemma {:induction false} PlainSize(layout: Layout, omitted: map<Field, nat>, n: nat, m: nat)
    requires Waiting(layout, omitted, Stdout, Plain(n)) && 1 <= m < n
    ensures Total(layout, omitted) >= n
    ensures Size(layout, map[], omitted, Stdout, Plain(n), m)
         == Rest(layout, map[], omitted, Stdout) + m + Digits(Total(layout, omitted) - m) + Digits(n - m)
  {
    SizeOfProper(layout, map[], omitted, Stdout, Plain(n), m);
    PlainEscaped(n, m);
  }

  lemma {:induction false} FitsMeans(layout: Layout, omitted: map<Field, nat>, text: Text, max: int, m: nat)
    requires m <= |text|
    ensures FitsAt(Encoder(layout), map[], omitted, Stdout, text, max)(m) <==>
      Size(layout, map[], omitted, Stdout, text, m) <= max
  {
  }

  /** Of eleven characters two fit, but not one, and the search measures six, three and one. */
  lemma {:induction false} TwoFitUnseen(layout: Layout, omitted: map<Field, nat>, max: int)
    requires Waiting(layout, omitted, Stdout, Plain(11)) && Total(layout, omitted) == 101
    requires max == Size(layout, map[], omitted, Stdout, Plain(11), 2)
    ensures max == Rest(layout, map[], omitted, Stdout) + 5
    ensures FitsAt(Encoder(layout), map[], omitted, Stdout, Plain(11), max)(2)
    ensures Accepted(Encoder(layout), map[], omitted, (Stdout, Plain(11)), max) == 0
  {
    var fits := FitsAt(Encoder(layout), map[], omitted, Stdout, Plain(11), max);
    PlainSize(layout, omitted, 11, 2);
    forall m: nat | m in {1, 2, 3, 6}
      ensures fits(m) <==> m == 2
    {
      PlainSize(layout, omitted, 11, m);
      FitsMeans(layout, omitted, Plain(11), max, m);
    }
    MissesSmall(fits, 0, |Plain(11)|);
  }

  /**
   * The observation can leave out a standard output of which two characters fit: showing one is longer than
   * showing two, since the second saves a digit in two places.
   */
  lemma {:induction false} SearchCanMissTwo(base: nat, reencoded: map<Field, nat>, namespace: Text, duration: Text)
    requires |namespace| == 82 && |duration| == 8
    ensures var stdout := Plain(11);
      var candidates := Quiet(stdout, namespace, duration);
      var layout := Layout(base, reencoded, Names(candidates));
      var max := Size(layout, map[], AllOmitted(candidates), Stdout, stdout, 2);
      && Skeleton(layout, candidates) <= max
      && FitsAt(Encoder(layout), map[], AllOmitted(candidates), Stdout, stdout, max)(2)
      && Stdout !in Greedy(Encoder(layout), candidates, max, |candidates|).0
  {
    var candidates := Quiet(Plain(11), namespace, duration);
    var layout, omitted := QuietSkeleton(base, reencoded, Plain(11), namespace, duration);
    var max := Size(layout, map[], omitted, Stdout, Plain(11), 2);
    TwoFitUnseen(layout, omitted, max);
    var shown, rest := StaysOut(Encoder(layout), candidates, max, |candidates|);
  }

  lemma {:induction false} MissesSmall(fits: nat -> bool, low: nat, high: nat)
    requires low == 0 && high == 11 && !fits(6) && !fits(3) && !fits(1)
    ensures Probe(fits, low, high) == 0
  {
    assert OnTrack(fits, low, high, high);
    ProbeStep(fits, low, high, high, false);
    ProbeStep(fits, low, high - 6, high, false);
    ProbeStep(fits, low, high - 9, high, false);
    assert OnTrack(fits, low, low, high);
  }

  lemma {:induction false} PlainWhole(layout: Layout, omitted: map<Field, nat>, n: nat)
    requires Waiting(layout, omitted, Stdout, Plain(n)) && n > 0 && Namespace in omitted
    ensures Total(layout, omitted) >= n
    ensures Size(layout, map[], omitted, Stdout, Plain(n), n)
         == Rest(layout, map[], omitted, Stdout) + n + Digits(Total(layout, omitted) - n) - 10
  {
    SizeOfWhole(layout, map[], omitted, Stdout, Plain(n), Namespace);
    assert Plain(n)[..n] == Plain(n);
    PlainEscaped(n, n);
    assert NameCost(Stdout) == 9;
  }

  /** Three characters fit, but neither one nor two, and the search measures two and one. */
  lemma {:induction false} WholeFitsUnseen(layout: Layout, omitted: map<Field, nat>, max: int)
    requires Waiting(layout, omitted, Stdout, Plain(3)) && Total(layout, omitted) == 13 && Namespace in omitted
    requires max == Size(layout, map[], omitted, Stdout, Plain(3), 3)
    ensures max == Rest(layout, map[], omitted, Stdout) - 5
    ensures FitsAt(Encoder(layout), map[], omitted, Stdout, Plain(3), max)(3)
    ensures Accepted(Encoder(layout), map[], omitted, (Stdout, Plain(3)), max) == 0
  {
    var fits := FitsAt(Encoder(layout), map[], omitted, Stdout, Plain(3), max);
    PlainWhole(layout, omitted, 3);
    forall m: nat | m in {1, 2}
      ensures !fits(m)
    {
      PlainSize(layout, omitted, 3, m);
      FitsMeans(layout, omitted, Plain(3), max, m);
    }
    FitsMeans(layout, omitted, Plain(3), max, 3);
    MissesThree(fits, 0, |Plain(3)|);
  }

  /** And it can leave out a standard output that fits whole: a complete field needs no entry in the table. */
  lemma {:induction false} SearchCanMissTheWhole(base: nat, reencoded: map<Field, nat>, namespace: Text, duration: Text)
    requires |namespace| == 2 && |duration| == 8
    ensures var stdout := Plain(3);
      var candidates := Quiet(stdout, namespace, duration);
      var layout := Layout(base, reencoded, Names(candidates));
      var max := Size(layout, map[], AllOmitted(candidates), Stdout, stdout, 3);
      && Skeleton(layout, candidates) <= max
      && FitsAt(Encoder(layout), map[], AllOmitted(candidates), Stdout, stdout, max)(3)
      && Stdout !in Greedy(Encoder(layout), candidates, max, |candidates|).0
  {
    var candidates := Quiet(Plain(3), namespace, duration);
    var layout, omitted := QuietSkeleton(base, reencoded, Plain(3), namespace, duration);
    var max := Size(layout, map[], omitted, Stdout, Plain(3), 3);
    WholeFitsUnseen(layout, omitted, max);
    var shown, rest := StaysOut(Encoder(layout), candidates, max, |candidates|);
  }

  lemma {:induction false} MissesThree(fits: nat -> bool, low: nat, high: nat)
    requires low == 0 && high == 3 && !fits(2) && !fits(1)
    ensures Probe(fits, low, high) == 0
  {
    ProbeStep(fits, low, high, high, false);
    ProbeStep(fits, low, high - 2, high, false);
    assert OnTrack(fits, low, low, high);
  }
}

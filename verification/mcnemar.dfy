/** The exact McNemar p-value of two discordant counts, and what it counts. */
module McNemar {
  import opened Common

  /** Binomial coefficients; zero outside the triangle. */
  function Comb(m: nat, k: int): nat {
    if k < 0 || k > m then 0 else if k == 0 || k == m then 1 else Comb(m - 1, k - 1) + Comb(m - 1, k)
  }

  function Pow2(m: nat): (p: nat)
    ensures p > 0
  {
    if m == 0 then 1 else 2 * Pow2(m - 1)
  }

  /** The sum of the first binomial coefficients of row `m`, up to `k`. */
  function Tail(m: nat, k: int): nat
    decreases k + 1
  {
    if k < 0 then 0 else Tail(m, k - 1) + Comb(m, k)
  }

  /** The p-value, in exact arithmetic. */
  function PValue(x: nat, y: nat): real {
    var m := x + y;
    if m == 0 then 1.0
    else
      var p := (2 * Tail(m, Min(x, y))) as real / Pow2(m) as real;
      if p < 1.0 then p else 1.0
  }

  // ----- Rows of the triangle -----

  lemma {:induction false} CombPascal(m: nat, k: int)
    requires m > 0
    ensures Comb(m, k) == Comb(m - 1, k - 1) + Comb(m - 1, k)
  {
  }

  lemma {:induction false} CombSymmetric(m: nat, k: int)
    ensures Comb(m, k) == Comb(m, m - k)
  {
    if 0 < k < m {
      CombSymmetric(m - 1, k - 1);
      CombSymmetric(m - 1, k);
    }
  }

  lemma {:induction false} TailPascal(m: nat, k: int)
    requires m > 0
    ensures Tail(m, k) == Tail(m - 1, k) + Tail(m - 1, k - 1)
    decreases k + 1
  {
    if k >= 0 {
      TailPascal(m, k - 1);
      CombPascal(m, k);
    }
  }

  lemma {:induction false} WholeRow(m: nat, k: int)
    requires k >= m
    ensures Tail(m, k) == Pow2(m)
    decreases m, k
  {
    if k > m {
      WholeRow(m, k - 1);
    } else if m > 0 {
      TailPascal(m, m);
      WholeRow(m - 1, m);
      WholeRow(m - 1, m - 1);
    } else {
      assert Tail(0, -1) == 0;
    }
  }

  /** The two tails of a row make up the whole row. */
  lemma {:induction false} TwoTails(m: nat, k: int)
    requires -1 <= k <= m
    ensures Tail(m, k) + Tail(m, m - k - 1) == Pow2(m)
    decreases m - k
  {
    if k == m {
      WholeRow(m, m);
    } else {
      TwoTails(m, k + 1);
      CombSymmetric(m, k + 1);
    }
  }

  // ----- What the coefficients count -----

  function Trues(s: seq<bool>): nat { if s == [] then 0 else Trues(s[1..]) + if s[0] then 1 else 0 }

  /** Patterns with one more outcome in front. */
  function Front(b: bool, patterns: set<seq<bool>>): set<seq<bool>> { set s | s in patterns :: [b] + s }

  /** All ways `m` discordant families can fall with exactly `k` of them one way. */
  function Exactly(m: nat, k: int): set<seq<bool>>
    decreases m
  {
    if m == 0 then if k == 0 then {[]} else {}
    else Front(true, Exactly(m - 1, k - 1)) + Front(false, Exactly(m - 1, k))
  }

  lemma {:induction false} ExactlyMeans(m: nat, k: int, s: seq<bool>)
    ensures s in Exactly(m, k) <==> |s| == m && Trues(s) == k
  {
    if m > 0 {
      if s != [] {
        ExactlyMeans(m - 1, if s[0] then k - 1 else k, s[1..]);
        assert s == [s[0]] + s[1..];
      }
      forall t, b | [b] + t == s
        ensures t == s[1..] && b == s[0]
      {
        assert ([b] + t)[1..] == t && ([b] + t)[0] == b;
      }
    }
  }

  lemma {:induction false} FrontSize(b: bool, patterns: set<seq<bool>>)
    ensures |Front(b, patterns)| == |patterns|
  {
    if patterns != {} {
      var s :| s in patterns;
      FrontSize(b, patterns - {s});
      forall t | t in patterns && [b] + t == [b] + s
        ensures t == s
      {
        assert ([b] + t)[1..] == t && ([b] + s)[1..] == s;
      }
      assert Front(b, patterns) == Front(b, patterns - {s}) + {[b] + s};
    }
  }

  lemma {:induction false} FrontsDiffer(p: set<seq<bool>>, q: set<seq<bool>>)
    ensures Front(true, p) !! Front(false, q)
  {
    forall s | s in Front(true, p)
      ensures s !in Front(false, q)
    {
      assert s[0];
    }
  }

  lemma {:induction false} FrontsSize(p: set<seq<bool>>, q: set<seq<bool>>) returns (both: set<seq<bool>>)
    ensures both == Front(true, p) + Front(false, q) && |both| == |p| + |q|
  {
    both := Front(true, p) + Front(false, q);
    FrontSize(true, p);
    FrontSize(false, q);
    FrontsDiffer(p, q);
    UnionSize(Front(true, p), Front(false, q));
  }

  lemma {:induction false} ExactlyNone(m: nat, k: int) returns (patterns: set<seq<bool>>)
    requires m == 0
    ensures patterns == Exactly(m, k) && |patterns| == Comb(m, k)
  {
    patterns := if k == 0 then {[]} else {};
  }

  lemma {:induction false} ExactlyOneMore(m: nat, k: int, p: set<seq<bool>>, q: set<seq<bool>>)
    returns (patterns: set<seq<bool>>)
    requires m > 0 && p == Exactly(m - 1, k - 1) && q == Exactly(m - 1, k)
    requires |p| == Comb(m - 1, k - 1) && |q| == Comb(m - 1, k)
    ensures patterns == Exactly(m, k) && |patterns| == Comb(m, k)
  {
    patterns := FrontsSize(p, q);
    CombPascal(m, k);
  }

  /** The binomial coefficient counts these patterns. */
  lemma {:induction false} ExactlySize(m: nat, k: int) returns (patterns: set<seq<bool>>)
    ensures patterns == Exactly(m, k) && |patterns| == Comb(m, k)
    decreases m
  {
    if m == 0 {
      patterns := ExactlyNone(m, k);
    } else {
      var p := ExactlySize(m - 1, k - 1);
      var q := ExactlySize(m - 1, k);
      patterns := ExactlyOneMore(m, k, p, q);
    }
  }

  // ----- The p-value as a fraction of patterns -----

  /** Patterns with at most `k` one way. */
  function Below(m: nat, k: int): set<seq<bool>>
    decreases k + 1
  {
    if k < 0 then {} else Below(m, k - 1) + Exactly(m, k)
  }

  /** Patterns with at most `k` the other way. */
  function Above(m: nat, k: int): set<seq<bool>>
    decreases k + 1
  {
    if k < 0 then {} else Above(m, k - 1) + Exactly(m, m - k)
  }

  lemma {:induction false} BelowMeans(m: nat, k: int, s: seq<bool>)
    ensures s in Below(m, k) <==> |s| == m && Trues(s) <= k
    decreases k + 1
  {
    if k >= 0 {
      BelowMeans(m, k - 1, s);
      ExactlyMeans(m, k, s);
    }
  }

  lemma {:induction false} AboveMeans(m: nat, k: int, s: seq<bool>)
    ensures s in Above(m, k) <==> |s| == m && m - Trues(s) <= k
    decreases k + 1
  {
    TruesBound(s);
    if k >= 0 {
      AboveMeans(m, k - 1, s);
      ExactlyMeans(m, m - k, s);
    }
  }

  lemma {:induction false} TruesBound(s: seq<bool>)
    ensures Trues(s) <= |s|
  {
    if s != [] {
      TruesBound(s[1..]);
    }
  }

  lemma {:induction false} BelowSize(m: nat, k: int)
    ensures |Below(m, k)| == Tail(m, k)
    decreases k + 1
  {
    if k >= 0 {
      BelowSize(m, k - 1);
      var patterns := ExactlySize(m, k);
      BelowDiffers(m, k);
      UnionSize(Below(m, k - 1), Exactly(m, k));
    }
  }

  lemma {:induction false} BelowDiffers(m: nat, k: int)
    ensures Below(m, k - 1) !! Exactly(m, k)
  {
    forall s: seq<bool>
      ensures s !in Below(m, k - 1) || s !in Exactly(m, k)
    {
      BelowMeans(m, k - 1, s);
      ExactlyMeans(m, k, s);
    }
  }

  lemma {:induction false} AboveSize(m: nat, k: int)
    ensures |Above(m, k)| == Tail(m, k)
    decreases k + 1
  {
    if k >= 0 {
      AboveSize(m, k - 1);
      MirrorSize(m, k);
      AboveDiffers(m, k);
      UnionSize(Above(m, k - 1), Exactly(m, m - k));
    }
  }

  lemma {:induction false} MirrorSize(m: nat, k: int)
    ensures |Exactly(m, m - k)| == Comb(m, k)
  {
    var patterns := ExactlySize(m, m - k);
    CombSymmetric(m, k);
  }

  lemma {:induction false} AboveDiffers(m: nat, k: int)
    ensures Above(m, k - 1) !! Exactly(m, m - k)
  {
    var j := m - k;
    forall s: seq<bool>
      ensures s !in Above(m, k - 1) || s !in Exactly(m, j)
    {
      AboveMeans(m, k - 1, s);
      ExactlyMeans(m, j, s);
    }
  }

  predicate Lopsided(s: seq<bool>, k: int) { Min(Trues(s), |s| - Trues(s)) <= k }

  /** The p-value is the fraction of the equally likely patterns that are at least as lopsided as the one observed. */
  lemma {:induction false} PValueIsExact(x: nat, y: nat, all: set<seq<bool>>, extreme: set<seq<bool>>)
    requires forall s :: s in all <==> |s| == x + y
    requires forall s :: s in extreme <==> s in all && Lopsided(s, Min(x, y))
    ensures |all| == Pow2(x + y) > 0
    ensures PValue(x, y) == |extreme| as real / |all| as real
  {
    var m, k := x + y, Min(x, y);
    WholeSize(m, all);
    ExtremeSize(m, k, all, extreme);
    if x == y {
      TwoTails(m, k);
    }
    Fractions(2 * Tail(m, k), Pow2(m));
    Fractions(|extreme|, Pow2(m));
  }

  lemma {:induction false} WholeSize(m: nat, all: set<seq<bool>>)
    requires forall s :: s in all <==> |s| == m
    ensures |all| == Pow2(m)
  {
    forall s
      ensures s in all <==> s in Below(m, m)
    {
      BelowMeans(m, m, s);
      TruesBound(s);
    }
    assert all == Below(m, m);
    BelowSize(m, m);
    WholeRow(m, m);
  }

  /** The two tails are apart unless the pattern is even, and then everything is as lopsided. */
  lemma {:induction false} ExtremeIsTails(m: nat, k: nat, all: set<seq<bool>>, extreme: set<seq<bool>>)
    requires forall s :: s in all <==> |s| == m
    requires forall s :: s in extreme <==> s in all && Lopsided(s, k)
    ensures extreme == Below(m, k) + Above(m, k)
  {
    forall s
      ensures s in extreme <==> s in Below(m, k) + Above(m, k)
    {
      LopsidedMeans(m, k, s);
    }
  }

  lemma {:induction false} TailsSize(m: nat, k: nat)
    requires 2 * k < m
    ensures |Below(m, k) + Above(m, k)| == 2 * Tail(m, k)
  {
    BelowSize(m, k);
    AboveSize(m, k);
    TailsApart(m, k);
    UnionSize(Below(m, k), Above(m, k));
  }

  lemma {:induction false} ExtremeSize(m: nat, k: nat, all: set<seq<bool>>, extreme: set<seq<bool>>)
    requires 2 * k <= m && |all| == Pow2(m) && forall s :: s in all <==> |s| == m
    requires forall s :: s in extreme <==> s in all && Lopsided(s, k)
    ensures 2 * k < m ==> |extreme| == 2 * Tail(m, k) <= Pow2(m)
    ensures 2 * k == m ==> |extreme| == Pow2(m)
  {
    if 2 * k < m {
      ExtremeIsTails(m, k, all, extreme);
      TailsSize(m, k);
      SubsetSize(extreme, all);
    } else {
      assert forall s :: s in all ==> Lopsided(s, k);
      assert extreme == all;
    }
  }

  lemma {:induction false} LopsidedMeans(m: nat, k: nat, s: seq<bool>)
    ensures |s| == m && Lopsided(s, k) <==> s in Below(m, k) || s in Above(m, k)
  {
    BelowMeans(m, k, s);
    AboveMeans(m, k, s);
    TruesBound(s);
  }

  lemma {:induction false} TailsApart(m: nat, k: nat)
    requires 2 * k < m
    ensures Below(m, k) !! Above(m, k)
  {
    forall s: seq<bool>
      ensures s !in Below(m, k) || s !in Above(m, k)
    {
      BelowMeans(m, k, s);
      AboveMeans(m, k, s);
    }
  }

  lemma {:induction false} Fractions(a: nat, b: nat)
    requires b > 0
    ensures a as real / b as real < 1.0 <==> a < b
    ensures a == b ==> a as real / b as real == 1.0
    ensures a > 0 ==> a as real / b as real > 0.0
  {
    assert (a as real / b as real) * b as real == a as real;
    assert a as real / b as real < 1.0 ==> (a as real / b as real) * b as real < 1.0 * b as real;
    assert a as real / b as real >= 1.0 ==> (a as real / b as real) * b as real >= 1.0 * b as real;
  }

  lemma {:induction false} TailGrows(m: nat, j: int, k: int)
    requires j < k && 0 <= k <= m
    ensures Tail(m, j) < Tail(m, k)
    decreases k - j
  {
    CombPositive(m, k);
    if j < k - 1 {
      if k - 1 >= 0 {
        TailGrows(m, j, k - 1);
      }
    }
  }

  lemma {:induction false} CombPositive(m: nat, k: int)
    requires 0 <= k <= m
    ensures Comb(m, k) > 0
  {
    if 0 < k < m {
      CombPositive(m - 1, k);
    }
  }

  /**
   * The p-value lies in (0, 1], does not depend on which arm is which, and is below 1 exactly when the
   * counts differ by at least 2.
   */
  lemma {:induction false} PValueRange(x: nat, y: nat)
    ensures 0.0 < PValue(x, y) <= 1.0
    ensures PValue(x, y) == PValue(y, x)
    ensures PValue(x, y) < 1.0 <==> x >= y + 2 || y >= x + 2
  {
    var m, k := x + y, Min(x, y);
    if m > 0 {
      Fractions(2 * Tail(m, k), Pow2(m));
      TailGrows(m, -1, k);
      TwoTails(m, k);
      if m - k - 1 > k {
        TailGrows(m, k, m - k - 1);
      } else if m - k - 1 < k {
        TailGrows(m, m - k - 1, k);
      }
    }
  }
}

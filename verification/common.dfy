/** Shared vocabulary: the two result shapes the modules return, and sums over sequences. */
module Common {

  datatype Option<+T> = None | Some(value: T)

  datatype Result<+T, +E> = Ok(value: T) | Err(error: E)

  function Min(x: int, y: int): int { if x < y then x else y }

  lemma {:induction false} SubsetSize<T>(s: set<T>, t: set<T>)
    requires s <= t
    ensures |s| <= |t|
  {
    assert t == s + (t - s);
  }

  lemma {:induction false} UnionSize<T>(s: set<T>, t: set<T>)
    requires s !! t
    ensures |s + t| == |s| + |t|
  {
  }

  /** The sum of `f` over `s`. */
  function Sum<T>(f: T -> int, s: seq<T>): int {
    if s == [] then 0 else Sum(f, s[..|s| - 1]) + f(s[|s| - 1])
  }

  lemma {:induction false} SumAppend<T>(f: T -> int, s: seq<T>, x: T)
    ensures Sum(f, s + [x]) == Sum(f, s) + f(x)
  {
    assert (s + [x])[..|s|] == s;
  }

  lemma {:induction false} SumUpdate<T>(f: T -> int, s: seq<T>, i: nat, x: T)
    requires i < |s|
    ensures Sum(f, s[i := x]) == Sum(f, s) - f(s[i]) + f(x)
  {
    var n := |s| - 1;
    if i == n {
      assert s[i := x][..n] == s[..n];
    } else {
      assert s[i := x][..n] == s[..n][i := x];
      SumUpdate(f, s[..n], i, x);
    }
  }

  lemma {:induction false} SumNonNegative<T>(f: T -> int, s: seq<T>)
    requires forall i :: 0 <= i < |s| ==> f(s[i]) >= 0
    ensures Sum(f, s) >= 0
    ensures forall i :: 0 <= i < |s| ==> f(s[i]) <= Sum(f, s)
  {
    if s != [] {
      SumNonNegative(f, s[..|s| - 1]);
    }
  }

  lemma {:induction false} SumPointwise<T>(f: T -> int, g: T -> int, s: seq<T>)
    requires forall i :: 0 <= i < |s| ==> f(s[i]) <= g(s[i])
    ensures Sum(f, s) <= Sum(g, s)
  {
    if s != [] {
      SumPointwise(f, g, s[..|s| - 1]);
    }
  }

  lemma {:induction false} SumConcat<T>(f: T -> int, s: seq<T>, t: seq<T>)
    ensures Sum(f, s + t) == Sum(f, s) + Sum(f, t)
  {
    if t == [] {
      assert s + t == s;
    } else {
      var n := |t| - 1;
      assert (s + t)[..|s + t| - 1] == s + t[..n];
      SumConcat(f, s, t[..n]);
    }
  }

  /** A positive sum has a positive term. */
  lemma {:induction false} SumWitness<T>(f: T -> int, s: seq<T>) returns (i: nat)
    requires Sum(f, s) > 0
    ensures i < |s| && f(s[i]) > 0
  {
    var n := |s| - 1;
    if f(s[n]) > 0 {
      i := n;
    } else {
      i := SumWitness(f, s[..n]);
    }
  }

  /** Taking one term out of a sum. */
  lemma {:induction false} SumRemove<T>(f: T -> int, s: seq<T>, k: nat)
    requires k < |s|
    ensures Sum(f, s) == Sum(f, s[..k] + s[k + 1..]) + f(s[k])
    ensures multiset(s[..k] + s[k + 1..]) == multiset(s) - multiset{s[k]}
  {
    assert s == s[..k] + [s[k]] + s[k + 1..];
    SumConcat(f, s[..k] + [s[k]], s[k + 1..]);
    SumAppend(f, s[..k], s[k]);
    SumConcat(f, s[..k], s[k + 1..]);
  }

  /** Equal multisets of items have equal sums. */
  lemma {:induction false} SumPermutation<T>(f: T -> int, s: seq<T>, t: seq<T>)
    requires multiset(s) == multiset(t)
    ensures Sum(f, s) == Sum(f, t)
  {
    assert |s| == |multiset(s)| == |multiset(t)| == |t|;
    if s != [] {
      assert s[0] in multiset(t);
      var k :| 0 <= k < |t| && t[k] == s[0];
      SumRemove(f, s, 0);
      SumRemove(f, t, k);
      SumPermutation(f, s[..0] + s[1..], t[..k] + t[k + 1..]);
    }
  }

  /** Functions that differ at one point only have sums that differ by that point's terms. */
  lemma {:induction false} SumDiffer<T>(f: T -> int, g: T -> int, s: seq<T>, x: T)
    requires forall i :: 0 <= i < |s| && s[i] != x ==> f(s[i]) == g(s[i])
    requires forall i, j :: 0 <= i < j < |s| ==> s[i] != s[j]
    ensures Sum(g, s) == Sum(f, s) + if x in s then g(x) - f(x) else 0
  {
    if s != [] {
      SumDiffer(f, g, s[..|s| - 1], x);
    }
  }
}

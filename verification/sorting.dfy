/** Sorting by a key, for the source's sorted lists. */
module Sorting {

  ghost predicate OrderedBy<T(!new)>(key: T -> int, s: seq<T>) {
    forall i, j :: 0 <= i < j < |s| ==> key(s[i]) <= key(s[j])
  }

  function Insert<T>(key: T -> int, x: T, s: seq<T>): (r: seq<T>)
    ensures multiset(r) == multiset(s) + multiset{x}
  {
    if s == [] || key(x) < key(s[0]) then [x] + s
    else
      assert s == [s[0]] + s[1..];
      [s[0]] + Insert(key, x, s[1..])
  }

  function SortBy<T>(key: T -> int, s: seq<T>): (r: seq<T>)
    ensures multiset(r) == multiset(s)
  {
    if s == [] then []
    else
      assert s == s[..|s| - 1] + [s[|s| - 1]];
      Insert(key, s[|s| - 1], SortBy(key, s[..|s| - 1]))
  }

  lemma {:induction false} InsertOrdered<T(!new)>(key: T -> int, x: T, s: seq<T>)
    requires OrderedBy(key, s)
    ensures OrderedBy(key, Insert(key, x, s))
  {
    if s != [] && key(x) >= key(s[0]) {
      InsertOrdered(key, x, s[1..]);
      var rest := Insert(key, x, s[1..]);
      forall j | 0 <= j < |rest|
        ensures key(s[0]) <= key(rest[j])
      {
        assert rest[j] in multiset(rest);
        assert rest[j] == x || rest[j] in s[1..];
      }
    }
  }

  lemma {:induction false} SortByOrders<T(!new)>(key: T -> int, s: seq<T>)
    ensures OrderedBy(key, SortBy(key, s))
    ensures forall x :: x in SortBy(key, s) <==> x in s
    ensures |SortBy(key, s)| == |s|
  {
    assert forall x :: x in SortBy(key, s) <==> x in multiset(SortBy(key, s));
    assert |multiset(SortBy(key, s))| == |multiset(s)|;
    if s != [] {
      SortByOrders(key, s[..|s| - 1]);
      InsertOrdered(key, s[|s| - 1], SortBy(key, s[..|s| - 1]));
    }
  }

  lemma {:induction false} DistinctCount<T(!new)>(s: seq<T>, x: T)
    requires forall i, j :: 0 <= i < j < |s| ==> s[i] != s[j]
    ensures multiset(s)[x] <= 1
  {
    if s != [] {
      var n := |s| - 1;
      DistinctCount(s[..n], x);
      assert s == s[..n] + [s[n]];
      assert multiset(s) == multiset(s[..n]) + multiset{s[n]};
      assert s[n] !in s[..n];
    }
  }

  lemma {:induction false} CountTwice<T>(s: seq<T>, i: nat, j: nat)
    requires i < j < |s| && s[i] == s[j]
    ensures multiset(s)[s[i]] >= 2
  {
    assert s == s[..j] + [s[j]] + s[j + 1..];
    assert multiset(s) == multiset(s[..j]) + multiset{s[j]} + multiset(s[j + 1..]);
    assert s[..j][i] in multiset(s[..j]);
  }

  /** Rearranging distinct elements leaves them distinct. */
  lemma {:induction false} SameBagDistinct<T(!new)>(s: seq<T>, t: seq<T>)
    requires multiset(s) == multiset(t)
    requires forall i, j :: 0 <= i < j < |s| ==> s[i] != s[j]
    ensures forall i, j :: 0 <= i < j < |t| ==> t[i] != t[j]
  {
    forall i, j | 0 <= i < j < |t| && t[i] == t[j]
      ensures false
    {
      CountTwice(t, i, j);
      DistinctCount(s, t[i]);
    }
  }
}

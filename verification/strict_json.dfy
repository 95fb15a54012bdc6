/** The strict-JSON check on an arbitrary heap of Python values, shared and cyclic ones included. */
module StrictJson {
  import opened Common

  type Ref = nat

  /** A key is a string, valid or with a lone surrogate, or something else. */
  datatype Key = ValidKey(name: string) | SurrogateKey | OtherKey

  datatype Node =
    | NoneValue | BoolValue | IntValue
    | StrValue(valid: bool)
    | FloatValue(finite: bool)
    | ListValue(items: seq<Ref>)
    | DictValue(entries: seq<(Key, Ref)>)
    | OtherValue

  type Heap = map<Ref, Node>

  datatype Problem = InvalidSurrogate | NonFinite | NonJson | ReferenceCycle | NonStringKey | InvalidKey

  /** Where the problem is: the positions of the items followed from the root. */
  datatype Report = Report(path: seq<nat>, problem: Problem)

  predicate Container(n: Node) { n.ListValue? || n.DictValue? }

  /** The value is an item of the list, or a member of the object under some key. */
  ghost predicate Holds(n: Node, x: Ref) {
    || (n.ListValue? && x in n.items)
    || (n.DictValue? && exists i :: 0 <= i < |n.entries| && n.entries[i].1 == x)
  }

  function Children(n: Node): (children: seq<Ref>)
    ensures forall x :: x in children <==> Holds(n, x)
  {
    match n
    case ListValue(items) => items
    case DictValue(entries) =>
      var members := seq(|entries|, i requires 0 <= i < |entries| => entries[i].1);
      assert forall i :: 0 <= i < |entries| ==> members[i] == entries[i].1;
      members
    case _ => []
  }

  ghost predicate Closed(h: Heap) {
    forall r :: r in h ==> forall i :: 0 <= i < |Children(h[r])| ==> Children(h[r])[i] in h
  }

  function KeyProblem(n: Node, i: nat): Option<Problem> {
    if n.DictValue? && i < |n.entries| then
      match n.entries[i].0
      case ValidKey(_) => None
      case SurrogateKey => Some(InvalidKey)
      case OtherKey => Some(NonStringKey)
    else None
  }

  function LeafProblem(n: Node): Option<Problem> {
    match n
    case StrValue(valid) => if valid then None else Some(InvalidSurrogate)
    case FloatValue(finite) => if finite then None else Some(NonFinite)
    case OtherValue => Some(NonJson)
    case _ => None
  }

  // ----- The check as a function -----

  function Verdict(h: Heap, r: Ref, active: set<Ref>): Option<Report>
    requires Closed(h) && r in h
    decreases h.Keys - active, 0
  {
    var n := h[r];
    if !Container(n) then
      match LeafProblem(n) case None => None case Some(p) => Some(Report([], p))
    else if r in active then Some(Report([], ReferenceCycle))
    else
      assert h.Keys - (active + {r}) < h.Keys - active by { assert r in h.Keys - active; }
      Members(h, r, 0, active + {r})
  }

  /** The first problem among the members of container r from position i on. */
  function Members(h: Heap, r: Ref, i: nat, active: set<Ref>): Option<Report>
    requires Closed(h) && r in h && i <= |Children(h[r])|
    decreases h.Keys - active, 1 + |Children(h[r])| - i
  {
    if i == |Children(h[r])| then None
    else if KeyProblem(h[r], i).Some? then Some(Report([], KeyProblem(h[r], i).value))
    else
      match Verdict(h, Children(h[r])[i], active)
      case Some(report) => Some(Report([i] + report.path, report.problem))
      case None => Members(h, r, i + 1, active)
  }

  /** A report as seen from the root, `path` leading to where the check began. */
  function From(path: seq<nat>, report: Option<Report>): Option<Report> {
    if report.None? then None else Some(Report(path + report.value.path, report.value.problem))
  }

  lemma {:induction false} Rooted(path: seq<nat>, i: nat, report: Option<Report>)
    ensures From(path + [i], report) ==
      From(path, if report.None? then None else Some(Report([i] + report.value.path, report.value.problem)))
  {
    if report.Some? {
      assert path + [i] + report.value.path == path + ([i] + report.value.path);
    }
  }

  // ----- The check as the source runs it, over one shared active set -----

  class Checker {
    var active: set<Ref>

    constructor ()
      ensures active == {}
    {
      active := {};
    }

    method Check(h: Heap, r: Ref, path: seq<nat>) returns (error: Option<Report>)
      requires Closed(h) && r in h
      modifies this
      ensures active == old(active)
      ensures error == From(path, Verdict(h, r, old(active)))
      decreases h.Keys - active, 1
    {
      var n := h[r];
      if n.ListValue? {
        error := ContainerError(h, r, path);
      } else if n.DictValue? {
        error := ObjectError(h, r, path);
      } else {
        var p := LeafProblem(n);
        error := if p.Some? then Some(Report(path, p.value)) else None;
        assert path + [] == path;
      }
    }

    method ContainerError(h: Heap, r: Ref, path: seq<nat>) returns (error: Option<Report>)
      requires Closed(h) && r in h && h[r].ListValue?
      modifies this
      ensures active == old(active)
      ensures error == From(path, Verdict(h, r, old(active)))
      decreases h.Keys - active, 0
    {
      assert path + [] == path;
      if r in active { return Some(Report(path, ReferenceCycle)); }
      assert r in h.Keys - active;
      active := active + {r};
      error := None;
      var items := h[r].items;
      var i := 0;
      while i < |items| && error.None?
        invariant 0 <= i <= |items| && active == old(active) + {r}
        invariant error.None? ==> Members(h, r, i, active) == Members(h, r, 0, active)
        invariant error.Some? ==> error == From(path, Members(h, r, 0, active))
      {
        assert items[i] == Children(h[r])[i];
        error := Check(h, items[i], path + [i]);
        Rooted(path, i, Verdict(h, items[i], active));
        i := i + 1;
      }
      active := active - {r};
    }

    method ObjectError(h: Heap, r: Ref, path: seq<nat>) returns (error: Option<Report>)
      requires Closed(h) && r in h && h[r].DictValue?
      modifies this
      ensures active == old(active)
      ensures error == From(path, Verdict(h, r, old(active)))
      decreases h.Keys - active, 0
    {
      assert path + [] == path;
      if r in active { return Some(Report(path, ReferenceCycle)); }
      assert r in h.Keys - active;
      active := active + {r};
      error := None;
      var entries := h[r].entries;
      var i := 0;
      while i < |entries| && error.None?
        invariant 0 <= i <= |entries| && active == old(active) + {r}
        invariant error.None? ==> Members(h, r, i, active) == Members(h, r, 0, active)
        invariant error.Some? ==> error == From(path, Members(h, r, 0, active))
      {
        assert entries[i].1 == Children(h[r])[i];
        var key := KeyProblem(h[r], i);
        if key.Some? {
          error := Some(Report(path, key.value));
        } else {
          error := Check(h, entries[i].1, path + [i]);
          Rooted(path, i, Verdict(h, entries[i].1, active));
        }
        i := i + 1;
      }
      active := active - {r};
    }
  }

  // ----- What the verdict means -----

  /** A node is legal in itself: a JSON scalar, a list, or an object with valid string keys. */
  ghost predicate Legal(n: Node) {
    && !n.OtherValue?
    && (n.StrValue? ==> n.valid)
    && (n.FloatValue? ==> n.finite)
    && (n.DictValue? ==> forall i :: 0 <= i < |n.entries| ==> n.entries[i].0.ValidKey?)
  }

  /** Which legality the two tables of problems decide between them. */
  lemma {:induction false} LegalExactly(n: Node)
    ensures Legal(n) <==> LeafProblem(n).None? && forall i :: 0 <= i < |Children(n)| ==> KeyProblem(n, i).None?
  {
    if n.DictValue? {
      assert forall i :: 0 <= i < |Children(n)| ==> (KeyProblem(n, i).None? <==> n.entries[i].0.ValidKey?);
    }
  }

  ghost predicate IsPath(h: Heap, p: seq<Ref>) {
    && p != []
    && (forall i :: 0 <= i < |p| ==> p[i] in h)
    && (forall i :: 0 <= i < |p| - 1 ==> p[i + 1] in Children(h[p[i]]))
  }

  ghost predicate Leads(h: Heap, p: seq<Ref>, a: Ref, b: Ref) { IsPath(h, p) && p[0] == a && p[|p| - 1] == b }

  ghost predicate Reaches(h: Heap, a: Ref, b: Ref) { exists p :: Leads(h, p, a, b) }

  ghost predicate OnCycle(h: Heap, a: Ref) { exists p :: Leads(h, p, a, a) && |p| >= 2 }

  /** Everything reachable is a legal JSON value and no container reaches itself. */
  ghost predicate IsStrictJson(h: Heap, r: Ref) {
    forall x :: Reaches(h, r, x) ==> x in h && Legal(h[x]) && (Container(h[x]) ==> !OnCycle(h, x))
  }

  /** Along a path: every node legal, no container active, none repeated. */
  ghost predicate CleanPath(h: Heap, p: seq<Ref>, active: set<Ref>)
    requires IsPath(h, p)
  {
    && (forall i :: 0 <= i < |p| ==> Legal(h[p[i]]) && (Container(h[p[i]]) ==> p[i] !in active))
    && (forall i, j :: 0 <= i < j < |p| && Container(h[p[i]]) ==> p[i] != p[j])
  }

  lemma {:induction false} MembersPass(h: Heap, r: Ref, i: nat, k: nat, active: set<Ref>)
    requires Closed(h) && r in h && i <= k < |Children(h[r])|
    requires Members(h, r, i, active).None?
    ensures KeyProblem(h[r], k).None? && Verdict(h, Children(h[r])[k], active).None?
    decreases k - i
  {
    if i < k {
      MembersPass(h, r, i + 1, k, active);
    }
  }

  lemma {:induction false} PassMeansClean(h: Heap, p: seq<Ref>, active: set<Ref>)
    requires Closed(h) && IsPath(h, p) && Verdict(h, p[0], active).None?
    ensures CleanPath(h, p, active)
    decreases |p|
  {
    var r := p[0];
    if Container(h[r]) {
      forall k | 0 <= k < |Children(h[r])|
        ensures KeyProblem(h[r], k).None?
      {
        MembersPass(h, r, 0, k, active + {r});
      }
    }
    LegalExactly(h[r]);
    if |p| > 1 {
      var q := p[1..];
      assert q[0] == p[0 + 1];
      var k :| 0 <= k < |Children(h[r])| && Children(h[r])[k] == q[0];
      MembersPass(h, r, 0, k, active + {r});
      forall i | 0 <= i < |q| - 1
        ensures q[i + 1] in Children(h[q[i]])
      {
        assert p[i + 1 + 1] in Children(h[p[i + 1]]);
      }
      PassMeansClean(h, q, active + {r});
      forall i | 0 <= i < |p|
        ensures Legal(h[p[i]]) && (Container(h[p[i]]) ==> p[i] !in active)
      {
        if i > 0 {
          assert q[i - 1] == p[i];
        }
      }
      forall i, j | 0 <= i < j < |p| && Container(h[p[i]])
        ensures p[i] != p[j]
      {
        assert q[j - 1] == p[j];
        if i > 0 {
          assert q[i - 1] == p[i];
        } else {
          assert Container(h[q[j - 1]]) ==> q[j - 1] !in active + {r};
        }
      }
    }
  }

  /** A report always comes with an offending path. */
  lemma {:induction false} FailMeansDirty(h: Heap, r: Ref, active: set<Ref>) returns (p: seq<Ref>)
    requires Closed(h) && r in h && Verdict(h, r, active).Some?
    ensures IsPath(h, p) && p[0] == r && !CleanPath(h, p, active)
    decreases h.Keys - active, 0
  {
    if !Container(h[r]) || r in active {
      p := [r];
    } else {
      assert r in h.Keys - active;
      p := MembersDirty(h, r, 0, active + {r}, active);
    }
  }

  lemma {:induction false} DirtyLifts(h: Heap, r: Ref, q: seq<Ref>, active: set<Ref>)
    requires IsPath(h, q) && IsPath(h, [r] + q) && r in h && Container(h[r])
    ensures CleanPath(h, [r] + q, active) ==> CleanPath(h, q, active + {r})
  {
    var p := [r] + q;
    if CleanPath(h, p, active) {
      forall k | 0 <= k < |q|
        ensures Legal(h[q[k]]) && (Container(h[q[k]]) ==> q[k] !in active + {r})
      {
        assert p[k + 1] == q[k] && p[0] != p[k + 1];
      }
      forall i, j | 0 <= i < j < |q| && Container(h[q[i]])
        ensures q[i] != q[j]
      {
        assert p[i + 1] == q[i] && p[j + 1] == q[j];
      }
    }
  }

  lemma {:induction false} MembersDirty(h: Heap, r: Ref, i: nat, inner: set<Ref>, active: set<Ref>)
    returns (p: seq<Ref>)
    requires Closed(h) && r in h && Container(h[r]) && inner == active + {r} && i <= |Children(h[r])|
    requires Members(h, r, i, inner).Some?
    ensures IsPath(h, p) && p[0] == r && !CleanPath(h, p, active)
    decreases h.Keys - inner, 1 + |Children(h[r])| - i
  {
    if KeyProblem(h[r], i).Some? {
      p := [r];
    } else if Verdict(h, Children(h[r])[i], inner).Some? {
      var q := FailMeansDirty(h, Children(h[r])[i], inner);
      p := [r] + q;
      DirtyLifts(h, r, q, active);
    } else {
      p := MembersDirty(h, r, i + 1, inner, active);
    }
  }

  lemma {:induction false} PathsJoin(h: Heap, p: seq<Ref>, q: seq<Ref>)
    requires IsPath(h, p) && IsPath(h, q) && p[|p| - 1] == q[0]
    ensures IsPath(h, p + q[1..])
  {
    var s := p + q[1..];
    forall i | 0 <= i < |s| - 1
      ensures s[i + 1] in Children(h[s[i]])
    {
      if i >= |p| - 1 {
        var k := i - (|p| - 1);
        assert s[i + 1] == q[k + 1] && s[i] == q[k];
      }
    }
  }

  lemma {:induction false} StrictPathsAreClean(h: Heap, r: Ref, p: seq<Ref>)
    requires IsStrictJson(h, r) && IsPath(h, p) && p[0] == r
    ensures CleanPath(h, p, {})
  {
    forall i | 0 <= i < |p|
      ensures Reaches(h, r, p[i])
    {
      assert Leads(h, p[..i + 1], r, p[i]);
    }
    forall i, j | 0 <= i < j < |p| && Container(h[p[i]])
      ensures p[i] != p[j]
    {
      assert Reaches(h, r, p[i]);
      if p[i] == p[j] {
        assert Leads(h, p[i..j + 1], p[i], p[i]);
      }
    }
  }

  /**
   * The check accepts a value exactly when everything reachable from it is a legal JSON value and no
   * container reaches itself; shared but acyclic containers are accepted.
   */
  lemma {:induction false} AcceptsExactlyStrictJson(h: Heap, r: Ref)
    requires Closed(h) && r in h
    ensures Verdict(h, r, {}).None? <==> IsStrictJson(h, r)
  {
    if Verdict(h, r, {}).None? {
      forall x | Reaches(h, r, x)
        ensures x in h && Legal(h[x]) && (Container(h[x]) ==> !OnCycle(h, x))
      {
        var p :| Leads(h, p, r, x);
        PassMeansClean(h, p, {});
        if Container(h[x]) && OnCycle(h, x) {
          var c :| Leads(h, c, x, x) && |c| >= 2;
          PathsJoin(h, p, c);
          var s := p + c[1..];
          assert s[|p| - 1] == x && s[|s| - 1] == x;
          PassMeansClean(h, s, {});
        }
      }
    } else {
      var p := FailMeansDirty(h, r, {});
      if IsStrictJson(h, r) {
        StrictPathsAreClean(h, r, p);
        assert false;
      }
    }
  }

  // ----- What a report says -----

  function Follow(h: Heap, r: Ref, path: seq<nat>): Option<Ref>
    decreases |path|
  {
    if r !in h then None
    else if path == [] then Some(r)
    else if path[0] >= |Children(h[r])| then None
    else Follow(h, Children(h[r])[path[0]], path[1..])
  }

  ghost predicate Shows(h: Heap, x: Ref, problem: Problem) {
    x in h &&
    match problem
    case ReferenceCycle => h[x].ListValue? || h[x].DictValue?
    case NonStringKey => h[x].DictValue? && exists i :: 0 <= i < |h[x].entries| && h[x].entries[i].0.OtherKey?
    case InvalidKey => h[x].DictValue? && exists i :: 0 <= i < |h[x].entries| && h[x].entries[i].0.SurrogateKey?
    case InvalidSurrogate => h[x] == StrValue(false)
    case NonFinite => h[x] == FloatValue(false)
    case NonJson => h[x].OtherValue?
  }

  /**
   * The reported path leads to a value that has the reported problem; a reported cycle runs back into a
   * container above it.
   */
  lemma {:induction false} ReportIsTrue(h: Heap, r: Ref, active: set<Ref>)
    requires Closed(h) && r in h && Verdict(h, r, active).Some?
    ensures var report := Verdict(h, r, active).value;
      var x := Follow(h, r, report.path);
      && x.Some? && Shows(h, x.value, report.problem)
      && (report.problem.ReferenceCycle? ==>
            x.value in active || exists k :: 0 <= k < |report.path| && Follow(h, r, report.path[..k]) == x)
    decreases h.Keys - active, 0
  {
    if Container(h[r]) && r !in active {
      assert r in h.Keys - active;
      MembersReport(h, r, 0, active + {r});
      var report := Verdict(h, r, active).value;
      var x := Follow(h, r, report.path);
      if report.problem.ReferenceCycle? && x.value == r {
        assert report.path != [] ==> Follow(h, r, report.path[..0]) == x;
      }
    }
  }

  lemma {:induction false} MembersReport(h: Heap, r: Ref, i: nat, inner: set<Ref>)
    requires Closed(h) && r in h && Container(h[r]) && i <= |Children(h[r])|
    requires Members(h, r, i, inner).Some?
    ensures var report := Members(h, r, i, inner).value;
      var x := Follow(h, r, report.path);
      && x.Some? && Shows(h, x.value, report.problem)
      && (report.problem.ReferenceCycle? ==>
            && report.path != []
            && (x.value in inner || exists k :: 0 <= k < |report.path| && Follow(h, r, report.path[..k]) == x))
    decreases h.Keys - inner, 1 + |Children(h[r])| - i
  {
    if KeyProblem(h[r], i).Some? {
    } else if Verdict(h, Children(h[r])[i], inner).Some? {
      var c := Children(h[r])[i];
      ReportIsTrue(h, c, inner);
      var rest := Verdict(h, c, inner).value;
      var path := [i] + rest.path;
      assert path[1..] == rest.path;
      var x := Follow(h, r, path);
      if rest.problem.ReferenceCycle? && x.value !in inner {
        var k :| 0 <= k < |rest.path| && Follow(h, c, rest.path[..k]) == x;
        assert path[..k + 1][1..] == rest.path[..k];
        assert Follow(h, r, path[..k + 1]) == x;
      }
    } else {
      MembersReport(h, r, i + 1, inner);
    }
  }
}

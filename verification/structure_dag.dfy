/** The dependency graph of one item: a depth-first walk of a recipe map that may be cyclic or too large. */
module DependencyGraph {
  import opened Common

  type Item = string

  /** An item's recipe lists its distinct ingredients in order. */
  type Recipes = map<Item, seq<Item>>

  function Ingredients(recipes: Recipes, item: Item): seq<Item> {
    if item in recipes then recipes[item] else []
  }

  datatype Kind = Root | Product | Base

  function KindOf(recipes: Recipes, root: Item, item: Item): Kind {
    if item == root then Root else if item in recipes then Product else Base
  }

  datatype Outcome = Finished | TooLarge | Cyclic

  // ----- Reachability -----

  ghost predicate IsPath(recipes: Recipes, p: seq<Item>) {
    p != [] && forall i :: 0 <= i < |p| - 1 ==> p[i + 1] in Ingredients(recipes, p[i])
  }

  ghost predicate Leads(recipes: Recipes, p: seq<Item>, a: Item, b: Item) {
    IsPath(recipes, p) && p[0] == a && p[|p| - 1] == b
  }

  ghost predicate Reaches(recipes: Recipes, a: Item, b: Item) { exists p :: Leads(recipes, p, a, b) }

  ghost predicate OnCycle(recipes: Recipes, a: Item) { exists p :: Leads(recipes, p, a, a) && |p| >= 2 }

  ghost predicate AcyclicFrom(recipes: Recipes, root: Item) {
    forall x :: Reaches(recipes, root, x) ==> !OnCycle(recipes, x)
  }

  lemma {:induction false} ReachStep(recipes: Recipes, a: Item, b: Item, c: Item)
    requires Reaches(recipes, a, b) && c in Ingredients(recipes, b)
    ensures Reaches(recipes, a, c)
  {
    var p :| Leads(recipes, p, a, b);
    var q := p + [c];
    forall i | 0 <= i < |q| - 1
      ensures q[i + 1] in Ingredients(recipes, q[i])
    {
      if i < |p| - 1 {
        assert p[i + 1] in Ingredients(recipes, p[i]);
      }
    }
    assert Leads(recipes, q, a, c);
  }

  // ----- The state of a walk -----

  ghost predicate Distinct(s: seq<Item>) { forall i, j :: 0 <= i < j < |s| ==> s[i] != s[j] }

  /**
   * Nodes in insertion order and edges drawn so far; `stack` lists the items being visited, outermost
   * first, and `finished` those done, in order of finishing.
   */
  datatype State = State(nodes: seq<Item>, edges: set<(Item, Item)>, stack: seq<Item>, finished: seq<Item>)

  /** An item finishes after everything it depends on, with all its edges drawn. */
  ghost predicate Complete(recipes: Recipes, s: State, i: nat)
    requires i < |s.finished|
  {
    forall c :: c in Ingredients(recipes, s.finished[i]) ==> c in s.finished[..i] && (s.finished[i], c) in s.edges
  }

  ghost predicate Sound(recipes: Recipes, root: Item, s: State) {
    && Distinct(s.nodes) && Distinct(s.finished) && Distinct(s.stack)
    && (forall x :: x in s.nodes <==> x in s.stack || x in s.finished)
    && (forall x :: x in s.stack ==> x !in s.finished)
    && (forall i :: 0 <= i < |s.stack| - 1 ==> s.stack[i + 1] in Ingredients(recipes, s.stack[i]))
    && (forall x :: x in s.nodes ==> Reaches(recipes, root, x))
    && (forall i :: 0 <= i < |s.finished| ==> Complete(recipes, s, i))
    && (forall e :: e in s.edges ==> e.0 in s.nodes && e.1 in s.nodes && e.1 in Ingredients(recipes, e.0))
  }

  /** A later state of the same walk, with the same items still being visited. */
  ghost predicate Extends(s: State, t: State) {
    s.nodes <= t.nodes && s.finished <= t.finished && s.edges <= t.edges && s.stack == t.stack
  }

  /** The item may be visited next. */
  ghost predicate Next(recipes: Recipes, root: Item, s: State, item: Item) {
    Reaches(recipes, root, item) && (s.stack != [] ==> item in Ingredients(recipes, s.stack[|s.stack| - 1]))
  }

  ghost predicate ManyReachable(recipes: Recipes, root: Item, max: int) {
    exists s :: Distinct(s) && |s| > max && forall x :: x in s ==> Reaches(recipes, root, x)
  }

  function Entering(s: State, item: Item): State { s.(nodes := s.nodes + [item], stack := s.stack + [item]) }

  function Drawing(s: State, item: Item, child: Item): State { s.(edges := s.edges + {(item, child)}) }

  function Leaving(s: State): State
    requires s.stack != []
  {
    s.(stack := s.stack[..|s.stack| - 1], finished := s.finished + [s.stack[|s.stack| - 1]])
  }

  lemma {:induction false} EnteringSound(recipes: Recipes, root: Item, s: State, item: Item)
    requires Sound(recipes, root, s) && Next(recipes, root, s, item) && item !in s.nodes
    ensures Sound(recipes, root, Entering(s, item))
  {
    var t := Entering(s, item);
    forall i | 0 <= i < |t.finished|
      ensures Complete(recipes, t, i)
    {
      assert Complete(recipes, s, i);
    }
  }

  lemma {:induction false} DrawingSound(recipes: Recipes, root: Item, s: State, item: Item, child: Item)
    requires Sound(recipes, root, s) && item in s.nodes && child in s.nodes && child in Ingredients(recipes, item)
    ensures Sound(recipes, root, Drawing(s, item, child))
  {
    var t := Drawing(s, item, child);
    forall i | 0 <= i < |t.finished|
      ensures Complete(recipes, t, i)
    {
      assert Complete(recipes, s, i);
    }
  }

  lemma {:induction false} LeavingSound(recipes: Recipes, root: Item, s: State)
    requires Sound(recipes, root, s) && s.stack != []
    requires var item := s.stack[|s.stack| - 1];
      forall c :: c in Ingredients(recipes, item) ==> c in s.finished && (item, c) in s.edges
    ensures Sound(recipes, root, Leaving(s))
  {
    var t := Leaving(s);
    var n, m := |s.finished|, |s.stack| - 1;
    forall i | 0 <= i < |t.finished|
      ensures Complete(recipes, t, i)
    {
      if i < n {
        assert Complete(recipes, s, i);
        assert t.finished[..i] == s.finished[..i];
      } else {
        assert t.finished[..n] == s.finished;
      }
    }
    LeavingMembers(s);
  }

  /** Leaving moves one item from the stack to the finished ones. */
  lemma {:induction false} LeavingMembers(s: State)
    requires s.stack != []
    ensures var item, t := s.stack[|s.stack| - 1], Leaving(s);
      && item in s.stack
      && (forall x :: x in s.stack <==> x in t.stack || x == item)
      && (forall x :: x in t.finished <==> x in s.finished || x == item)
  {
    assert s.stack == Leaving(s).stack + [s.stack[|s.stack| - 1]];
  }

  lemma {:induction false} RoundExtends(s: State, t: State, item: Item)
    requires Extends(Entering(s, item), t)
    ensures t.stack != [] && t.stack[|t.stack| - 1] == item
    ensures Extends(s, Leaving(t)) && item in Leaving(t).finished
  {
    assert (s.stack + [item])[..|s.stack|] == s.stack;
    assert s.nodes <= s.nodes + [item];
  }

  /** Meeting an item that is still being visited closes a cycle. */
  lemma {:induction false} MeetingActive(recipes: Recipes, root: Item, s: State, item: Item)
    requires Sound(recipes, root, s) && Next(recipes, root, s, item) && item in s.stack
    ensures !AcyclicFrom(recipes, root)
  {
    var k :| 0 <= k < |s.stack| && s.stack[k] == item;
    var p := s.stack[k..] + [item];
    forall i | 0 <= i < |p| - 1
      ensures p[i + 1] in Ingredients(recipes, p[i])
    {
      if i < |p| - 2 {
        assert p[i + 1] == s.stack[k + i + 1] && p[i] == s.stack[k + i];
      }
    }
    assert p[0] == item && p[|p| - 1] == item;
    assert Leads(recipes, p, item, item);
    assert OnCycle(recipes, item);
  }

  /** Paths out of a finished item run through items finished ever earlier. */
  lemma {:induction false} PathsDescend(recipes: Recipes, root: Item, s: State, p: seq<Item>, i: nat)
    requires Sound(recipes, root, s) && IsPath(recipes, p) && i < |s.finished| && p[0] == s.finished[i]
    ensures p[|p| - 1] in s.finished && (|p| > 1 ==> p[|p| - 1] in s.finished[..i])
    decreases |p|
  {
    if |p| > 1 {
      var n := |p| - 1;
      PathsDescend(recipes, root, s, p[..n], i);
      var x := p[n - 1];
      var j :| 0 <= j <= i && s.finished[j] == x && (n > 1 ==> j < i);
      assert Complete(recipes, s, j);
      assert p[n - 1 + 1] in Ingredients(recipes, x);
      assert s.finished[..j] <= s.finished[..i];
    }
  }

  lemma {:induction false} FinishedMeansAcyclic(recipes: Recipes, root: Item, s: State)
    requires Sound(recipes, root, s) && s.stack == [] && root in s.finished
    ensures AcyclicFrom(recipes, root)
    ensures forall x :: Reaches(recipes, root, x) <==> x in s.nodes
    ensures forall x, c :: (x, c) in s.edges <==> Reaches(recipes, root, x) && c in Ingredients(recipes, x)
  {
    var r :| 0 <= r < |s.finished| && s.finished[r] == root;
    forall x | Reaches(recipes, root, x)
      ensures x in s.finished && !OnCycle(recipes, x)
      ensures forall c :: c in Ingredients(recipes, x) ==> (x, c) in s.edges
    {
      var p :| Leads(recipes, p, root, x);
      PathsDescend(recipes, root, s, p, r);
      var i :| 0 <= i < |s.finished| && s.finished[i] == x;
      assert Complete(recipes, s, i);
      if OnCycle(recipes, x) {
        var c :| Leads(recipes, c, x, x) && |c| >= 2;
        PathsDescend(recipes, root, s, c, i);
      }
    }
  }

  // ----- The walk itself -----

  class Walk {
    const recipes: Recipes
    const root: Item
    const maxNodes: int
    var nodes: seq<Item>
    var edges: set<(Item, Item)>
    var active: set<Item>
    ghost var stack: seq<Item>
    ghost var finished: seq<Item>

    ghost function Contents(): State
      reads this
    {
      State(nodes, edges, stack, finished)
    }

    ghost predicate Valid()
      reads this
    {
      && Sound(recipes, root, Contents())
      && (forall x :: x in active <==> x in stack)
      && (nodes == [] || |nodes| <= maxNodes)
    }

    constructor (recipes: Recipes, root: Item, maxNodes: int)
      ensures this.recipes == recipes && this.root == root && this.maxNodes == maxNodes
      ensures Valid() && Contents() == State([], {}, [], [])
    {
      this.recipes, this.root, this.maxNodes := recipes, root, maxNodes;
      nodes, edges, active, stack, finished := [], {}, {}, [], [];
    }

    /** Adds a new node; it is not yet active. */
    method AddNode(item: Item)
      requires Valid() && Next(recipes, root, Contents(), item) && item !in nodes
      modifies this`nodes, this`stack
      ensures Contents() == Entering(old(Contents()), item) && Sound(recipes, root, Contents())
    {
      EnteringSound(recipes, root, Contents(), item);
      nodes, stack := nodes + [item], stack + [item];
    }

    /** Adds a new node and makes it active, unless there are too many. */
    method Enter(item: Item) returns (fits: bool)
      requires Valid() && Next(recipes, root, Contents(), item) && item !in nodes
      modifies this`nodes, this`stack, this`active
      ensures Contents() == Entering(old(Contents()), item)
      ensures if fits then Valid() && |nodes| <= maxNodes else ManyReachable(recipes, root, maxNodes)
    {
      AddNode(item);
      fits := |nodes| <= maxNodes;
      if fits { active := active + {item}; }
    }

    method AddEdge(item: Item, child: Item)
      requires Valid() && item in nodes && child in finished && child in Ingredients(recipes, item)
      modifies this`edges
      ensures Valid() && Contents() == Drawing(old(Contents()), item, child)
    {
      DrawingSound(recipes, root, Contents(), item, child);
      edges := edges + {(item, child)};
    }

    method Retire(item: Item)
      requires Valid() && stack != [] && stack[|stack| - 1] == item
      requires forall c :: c in Ingredients(recipes, item) ==> c in finished && (item, c) in edges
      modifies this`active, this`stack, this`finished
      ensures Valid() && Contents() == Leaving(old(Contents()))
    {
      LeavingSound(recipes, root, Contents());
      assert item in stack;
      active := active - {item};
      stack, finished := stack[..|stack| - 1], finished + [item];
    }

    /** Terminates on every finite recipe map, cyclic ones included. */
    method Visit(item: Item) returns (outcome: Outcome)
      requires Valid() && Next(recipes, root, Contents(), item)
      modifies this
      ensures outcome.Finished? ==> Valid() && Extends(old(Contents()), Contents()) && item in finished
      ensures outcome.Cyclic? ==> !AcyclicFrom(recipes, root)
      ensures outcome.TooLarge? ==> ManyReachable(recipes, root, maxNodes)
      decreases maxNodes - |nodes|, 1
    {
      if item in active {
        MeetingActive(recipes, root, Contents(), item);
        return Cyclic;
      }
      if item in nodes { return Finished; }
      outcome := VisitNew(item);
    }

    /** The part of a visit that a node goes through once. */
    method VisitNew(item: Item) returns (outcome: Outcome)
      requires Valid() && Next(recipes, root, Contents(), item) && item !in nodes
      modifies this
      ensures outcome.Finished? ==> Valid() && Extends(old(Contents()), Contents()) && item in finished
      ensures outcome.Cyclic? ==> !AcyclicFrom(recipes, root)
      ensures outcome.TooLarge? ==> ManyReachable(recipes, root, maxNodes)
      decreases maxNodes - |nodes|, 0
    {
      var fits := Enter(item);
      if !fits { return TooLarge; }
      outcome := VisitIngredients(item);
      if outcome.Finished? {
        RoundExtends(old(Contents()), Contents(), item);
        Retire(item);
      }
    }

    method VisitIngredient(item: Item, child: Item) returns (outcome: Outcome)
      requires Valid() && stack != [] && stack[|stack| - 1] == item && child in Ingredients(recipes, item)
      requires 0 < |nodes| <= maxNodes
      modifies this
      ensures outcome.Finished? ==>
        Valid() && Extends(old(Contents()), Contents()) && child in finished && (item, child) in edges
      ensures outcome.Cyclic? ==> !AcyclicFrom(recipes, root)
      ensures outcome.TooLarge? ==> ManyReachable(recipes, root, maxNodes)
      decreases maxNodes - |nodes|, 2
    {
      assert item in stack;
      ReachStep(recipes, root, item, child);
      outcome := Visit(child);
      if outcome.Finished? {
        assert item in stack;
        AddEdge(item, child);
      }
    }

    method VisitIngredients(item: Item) returns (outcome: Outcome)
      requires Valid() && stack != [] && stack[|stack| - 1] == item && 0 < |nodes| <= maxNodes
      modifies this
      ensures outcome.Finished? ==>
        && Valid() && Extends(old(Contents()), Contents())
        && forall c :: c in Ingredients(recipes, item) ==> c in finished && (item, c) in edges
      ensures outcome.Cyclic? ==> !AcyclicFrom(recipes, root)
      ensures outcome.TooLarge? ==> ManyReachable(recipes, root, maxNodes)
      decreases maxNodes - |nodes|, 3
    {
      var children := Ingredients(recipes, item);
      for n := 0 to |children|
        invariant Valid() && Extends(old(Contents()), Contents())
        invariant forall c :: c in children[..n] ==> c in finished && (item, c) in edges
      {
        var child := children[n];
        outcome := VisitIngredient(item, child);
        if !outcome.Finished? { return; }
        assert children[..n + 1] == children[..n] + [child];
      }
      assert children[..|children|] == children;
      outcome := Finished;
    }
  }

  lemma {:induction false} Pigeonhole(s: seq<Item>, t: seq<Item>)
    requires Distinct(s) && forall x :: x in s ==> x in t
    ensures |s| <= |t|
    decreases |s|
  {
    if s != [] {
      var n := |s| - 1;
      assert s[n] in s;
      var k :| 0 <= k < |t| && t[k] == s[n];
      var u := t[..k] + t[k + 1..];
      forall x | x in s[..n]
        ensures x in u
      {
        assert x in s;
        var i :| 0 <= i < |t| && t[i] == x;
        assert i != k;
        assert x == if i < k then u[i] else u[i - 1];
      }
      Pigeonhole(s[..n], u);
    }
  }

  datatype Graph = Graph(nodes: seq<Item>, kinds: map<Item, Kind>, edges: set<(Item, Item)>)

  /**
   * A graph is returned exactly when everything reachable from the root is acyclic and counts at most
   * maxNodes items; its nodes are then exactly the reachable items, each once, and its edges exactly
   * their recipe edges. A refusal for a cycle or for size is always justified.
   */
  method Build(recipes: Recipes, root: Item, maxNodes: int) returns (outcome: Outcome, graph: Graph)
    ensures outcome.Finished? <==> AcyclicFrom(recipes, root) && !ManyReachable(recipes, root, maxNodes)
    ensures outcome.Cyclic? ==> !AcyclicFrom(recipes, root)
    ensures outcome.TooLarge? ==> ManyReachable(recipes, root, maxNodes)
    ensures outcome.Finished? ==>
      && Distinct(graph.nodes)
      && (forall x :: x in graph.nodes <==> Reaches(recipes, root, x))
      && (forall x, c :: (x, c) in graph.edges <==> Reaches(recipes, root, x) && c in Ingredients(recipes, x))
      && (forall x :: x in graph.nodes ==> x in graph.kinds)
      && (forall x :: x in graph.nodes ==> (graph.kinds[x].Root? <==> x == root))
      && (forall x :: x in graph.nodes && x != root ==> (graph.kinds[x].Product? <==> x in recipes))
  {
    var walk := new Walk(recipes, root, maxNodes);
    assert Leads(recipes, [root], root, root);
    outcome := walk.Visit(root);
    graph := Graph(walk.nodes, map x | x in walk.nodes :: KindOf(recipes, root, x), walk.edges);
    if outcome.Finished? {
      FinishedMeansAcyclic(recipes, root, walk.Contents());
      if ManyReachable(recipes, root, maxNodes) {
        var s :| Distinct(s) && |s| > maxNodes && forall x :: x in s ==> Reaches(recipes, root, x);
        Pigeonhole(s, walk.nodes);
      }
    }
  }
}

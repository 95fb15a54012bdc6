/** Isomorphism of kind-labelled graphs, its cheap invariant, the index built on it, and greedy selection. */
module StructureIndexing {
  import opened Common
  import opened DependencyGraph

  ghost predicate WellFormed(g: Graph) {
    && Distinct(g.nodes)
    && (forall x :: x in g.nodes ==> x in g.kinds)
    && (forall e :: e in g.edges ==> e.0 in g.nodes && e.1 in g.nodes)
  }

  // ----- Isomorphism -----

  /** f sends the nodes of g into those of h, keeping kinds, and k undoes it. */
  ghost predicate Embeds(f: map<Item, Item>, k: map<Item, Item>, g: Graph, h: Graph) {
    forall x {:trigger f[x]} {:trigger x in g.nodes} :: x in g.nodes ==>
      && x in f && x in g.kinds && f[x] in h.nodes && f[x] in h.kinds && f[x] in k && k[f[x]] == x
      && g.kinds[x] == h.kinds[f[x]]
  }

  ghost predicate KeepsEdges(f: map<Item, Item>, g: Graph, h: Graph) {
    forall x, y :: x in g.nodes && y in g.nodes && x in f && y in f ==> ((x, y) in g.edges <==> (f[x], f[y]) in h.edges)
  }

  /** A bijection of the nodes, given with its inverse, that keeps kinds and edges. */
  ghost predicate IsIsomorphism(f: map<Item, Item>, k: map<Item, Item>, g: Graph, h: Graph) {
    WellFormed(g) && WellFormed(h) && Embeds(f, k, g, h) && Embeds(k, f, h, g) && KeepsEdges(f, g, h)
  }

  ghost predicate Isomorphic(g: Graph, h: Graph) { exists f, k :: IsIsomorphism(f, k, g, h) }

  lemma {:induction false} IsoReflexive(g: Graph)
    requires WellFormed(g)
    ensures Isomorphic(g, g)
  {
    var id := map x | x in g.nodes :: x;
    assert IsIsomorphism(id, id, g, g);
  }

  lemma {:induction false} InverseKeepsEdges(f: map<Item, Item>, k: map<Item, Item>, g: Graph, h: Graph)
    requires Embeds(k, f, h, g) && KeepsEdges(f, g, h)
    ensures KeepsEdges(k, h, g)
  {
    forall z, w | z in h.nodes && w in h.nodes && z in k && w in k
      ensures (z, w) in h.edges <==> (k[z], k[w]) in g.edges
    {
      assert f[k[z]] == z && f[k[w]] == w;
    }
  }

  lemma {:induction false} IsoInverse(f: map<Item, Item>, k: map<Item, Item>, g: Graph, h: Graph)
    requires IsIsomorphism(f, k, g, h)
    ensures IsIsomorphism(k, f, h, g)
  {
    InverseKeepsEdges(f, k, g, h);
  }

  lemma {:induction false} IsoSymmetric(g: Graph, h: Graph)
    requires Isomorphic(g, h)
    ensures Isomorphic(h, g)
  {
    var f, k :| IsIsomorphism(f, k, g, h);
    IsoInverse(f, k, g, h);
  }

  function Compose(f: map<Item, Item>, f': map<Item, Item>): map<Item, Item> {
    map x | x in f && f[x] in f' :: f'[f[x]]
  }

  lemma {:induction false} ComposeEmbeds(
      f: map<Item, Item>, k: map<Item, Item>, f': map<Item, Item>, k': map<Item, Item>, g: Graph, h: Graph, j: Graph)
    requires Embeds(f, k, g, h) && Embeds(f', k', h, j)
    ensures Embeds(Compose(f, f'), Compose(k', k), g, j)
  {
    forall x | x in g.nodes
      ensures x in Compose(f, f') && x in g.kinds && Compose(f, f')[x] in j.nodes && Compose(f, f')[x] in j.kinds
        && Compose(f, f')[x] in Compose(k', k) && Compose(k', k)[Compose(f, f')[x]] == x
        && g.kinds[x] == j.kinds[Compose(f, f')[x]]
    {
      var y := f[x];
      assert y in h.nodes;
      assert k'[f'[y]] == y;
    }
  }

  lemma {:induction false} ComposeKeepsEdges(
      f: map<Item, Item>, k: map<Item, Item>, f': map<Item, Item>, g: Graph, h: Graph, j: Graph)
    requires Embeds(f, k, g, h) && KeepsEdges(f, g, h) && KeepsEdges(f', h, j)
    ensures KeepsEdges(Compose(f, f'), g, j)
  {
    var c := Compose(f, f');
    forall x, y | x in g.nodes && y in g.nodes && x in c && y in c
      ensures (x, y) in g.edges <==> (c[x], c[y]) in j.edges
    {
      assert (x, y) in g.edges <==> (f[x], f[y]) in h.edges;
    }
  }

  lemma {:induction false} IsoTransitive(g: Graph, h: Graph, j: Graph)
    requires Isomorphic(g, h) && Isomorphic(h, j)
    ensures Isomorphic(g, j)
  {
    var f, k :| IsIsomorphism(f, k, g, h);
    var f', k' :| IsIsomorphism(f', k', h, j);
    ComposeEmbeds(f, k, f', k', g, h, j);
    ComposeEmbeds(k', f', k, f, j, h, g);
    ComposeKeepsEdges(f, k, f', g, h, j);
    assert IsIsomorphism(Compose(f, f'), Compose(k', k), g, j);
  }

  // ----- The bucket -----

  function EdgesInto(g: Graph, n: Item): set<(Item, Item)> { set e | e in g.edges && e.1 == n }

  function EdgesOutOf(g: Graph, n: Item): set<(Item, Item)> { set e | e in g.edges && e.0 == n }

  type Degree = (Kind, nat, nat)

  function DegreeOf(g: Graph, n: Item): Degree
    requires n in g.kinds
  {
    (g.kinds[n], |EdgesInto(g, n)|, |EdgesOutOf(g, n)|)
  }

  /** The kinds and degrees of the listed nodes; sorting them, as the bucket key does, names this multiset. */
  function Degrees(g: Graph, nodes: seq<Item>): multiset<Degree>
    requires forall x :: x in nodes ==> x in g.kinds
  {
    if nodes == [] then multiset{}
    else
      assert nodes[0] in nodes;
      Degrees(g, nodes[1..]) + multiset{DegreeOf(g, nodes[0])}
  }

  function GraphBucket(g: Graph): multiset<Degree> {
    if forall x :: x in g.nodes ==> x in g.kinds then Degrees(g, g.nodes) else multiset{}
  }

  lemma {:induction false} InjectiveSize<A, B>(s: set<A>, t: set<B>, m: map<A, B>)
    requires forall x :: x in s ==> x in m && m[x] in t
    requires forall x, y :: x in s && y in s && m[x] == m[y] ==> x == y
    ensures |s| <= |t|
  {
    if s != {} {
      var x :| x in s;
      InjectiveSize(s - {x}, t - {m[x]}, m);
    }
  }

  /** An isomorphism carries the edges at a node to edges at its image, one to one. */
  lemma {:induction false} DegreeAtMost(f: map<Item, Item>, k: map<Item, Item>, g: Graph, h: Graph, n: Item)
    requires IsIsomorphism(f, k, g, h) && n in g.nodes
    ensures |EdgesInto(g, n)| <= |EdgesInto(h, f[n])| && |EdgesOutOf(g, n)| <= |EdgesOutOf(h, f[n])|
  {
    var m := map e | e in g.edges :: (f[e.0], f[e.1]);
    forall e | e in g.edges
      ensures m[e] in h.edges && k[m[e].0] == e.0 && k[m[e].1] == e.1
    {
      assert (e.0, e.1) == e;
    }
    InjectiveSize(EdgesInto(g, n), EdgesInto(h, f[n]), m);
    InjectiveSize(EdgesOutOf(g, n), EdgesOutOf(h, f[n]), m);
  }

  lemma {:induction false} DegreeKept(f: map<Item, Item>, k: map<Item, Item>, g: Graph, h: Graph, n: Item)
    requires IsIsomorphism(f, k, g, h) && IsIsomorphism(k, f, h, g) && n in g.nodes
    ensures DegreeOf(g, n) == DegreeOf(h, f[n])
  {
    DegreeAtMost(f, k, g, h, n);
    DegreeAtMost(k, f, h, g, f[n]);
  }

  lemma {:induction false} DegreesRemove(g: Graph, nodes: seq<Item>, k: nat)
    requires k < |nodes| && forall x :: x in nodes ==> x in g.kinds
    ensures forall x :: x in nodes[..k] + nodes[k + 1..] ==> x in g.kinds
    ensures Degrees(g, nodes) == Degrees(g, nodes[..k] + nodes[k + 1..]) + multiset{DegreeOf(g, nodes[k])}
  {
    assert forall x :: x in nodes[..k] + nodes[k + 1..] ==> x in nodes;
    assert nodes[0] in nodes;
    if k == 0 {
      assert nodes[..0] + nodes[1..] == nodes[1..];
    } else {
      DegreesRemove(g, nodes[1..], k - 1);
      assert nodes[1..][..k - 1] + nodes[1..][k..] == (nodes[..k] + nodes[k + 1..])[1..];
    }
  }

  /** Matching node lists have the same degrees, in whatever order they are given. */
  lemma {:induction false} DegreesKept(
      f: map<Item, Item>, k: map<Item, Item>, g: Graph, h: Graph, ns: seq<Item>, ms: seq<Item>)
    requires IsIsomorphism(f, k, g, h) && IsIsomorphism(k, f, h, g) && Distinct(ns) && Distinct(ms)
    requires forall x :: x in ns ==> x in g.nodes && f[x] in ms
    requires forall z :: z in ms ==> z in h.nodes && k[z] in ns
    ensures Degrees(g, ns) == Degrees(h, ms)
    decreases |ns|
  {
    assert |ms| > 0 ==> ms[0] in ms;
    if ns != [] {
      var x := ns[0];
      assert x in ns;
      var i :| 0 <= i < |ms| && ms[i] == f[x];
      var rest := ms[..i] + ms[i + 1..];
      DegreesRemove(h, ms, i);
      DegreeKept(f, k, g, h, x);
      RestMatches(f, k, g, h, ns, ms, i);
      DegreesKept(f, k, g, h, ns[1..], rest);
    }
  }

  lemma {:induction false} RestMatches(
      f: map<Item, Item>, k: map<Item, Item>, g: Graph, h: Graph, ns: seq<Item>, ms: seq<Item>, i: nat)
    requires IsIsomorphism(f, k, g, h) && Distinct(ns) && Distinct(ms) && ns != [] && i < |ms|
    requires forall x :: x in ns ==> x in g.nodes && f[x] in ms
    requires forall z :: z in ms ==> z in h.nodes && k[z] in ns
    requires ns[0] in ns && ms[i] == f[ns[0]]
    ensures var rest := ms[..i] + ms[i + 1..];
      && Distinct(ns[1..]) && Distinct(rest)
      && (forall x :: x in ns[1..] ==> x in g.nodes && f[x] in rest)
      && (forall z :: z in rest ==> z in h.nodes && k[z] in ns[1..])
  {
    var rest := ms[..i] + ms[i + 1..];
    assert forall j :: 0 <= j < |rest| ==> rest[j] == ms[if j < i then j else j + 1];
    forall x | x in ns[1..]
      ensures x in g.nodes && f[x] in rest
    {
      var a :| 0 <= a < |ns| - 1 && ns[1..][a] == x;
      assert ns[a + 1] == x && x != ns[0] && x in ns;
      var j :| 0 <= j < |ms| && ms[j] == f[x];
      assert k[f[x]] == x && k[f[ns[0]]] == ns[0];
      assert rest[if j < i then j else j - 1] == f[x];
    }
    forall z | z in rest
      ensures z in h.nodes && k[z] in ns[1..]
    {
      var j :| 0 <= j < |rest| && rest[j] == z;
      assert z in ms && z != ms[i];
      var a :| 0 <= a < |ns| && ns[a] == k[z];
      assert a != 0;
      assert ns[1..][a - 1] == k[z];
    }
  }

  lemma {:induction false} BucketKept(g: Graph, h: Graph)
    requires Isomorphic(g, h)
    ensures GraphBucket(g) == GraphBucket(h)
  {
    var f, k :| IsIsomorphism(f, k, g, h);
    IsoInverse(f, k, g, h);
    DegreesKept(f, k, g, h, g.nodes, h.nodes);
  }

  ghost predicate Invariant<B(!new)>(bucket: Graph -> B) {
    forall g, h :: Isomorphic(g, h) ==> bucket(g) == bucket(h)
  }

  /** The bucket is the same for isomorphic graphs, so it never separates two of one class. */
  lemma {:induction false} BucketIsInvariant()
    ensures Invariant(GraphBucket)
  {
    forall g, h | Isomorphic(g, h)
      ensures GraphBucket(g) == GraphBucket(h)
    {
      BucketKept(g, h);
    }
  }

  ghost predicate FoundByScan(stored: seq<Graph>, g: Graph) { exists s :: s in stored && Isomorphic(g, s) }

  ghost predicate FoundInBucket<B(!new)>(bucket: Graph -> B, stored: seq<Graph>, g: Graph) {
    exists s :: s in stored && bucket(s) == bucket(g) && Isomorphic(g, s)
  }

  /**
   * Looking in one bucket only agrees with scanning everything, for every collection and every query,
   * exactly when the bucket is invariant under isomorphism.
   */
  lemma {:induction false} OneBucketSufficesExactly<B(!new)>(bucket: Graph -> B)
    ensures Invariant(bucket) <==>
      forall stored, g :: FoundInBucket(bucket, stored, g) <==> FoundByScan(stored, g)
  {
    if !Invariant(bucket) {
      var g, h :| Isomorphic(g, h) && bucket(g) != bucket(h);
      assert h in [h];
      assert FoundByScan([h], g) && !FoundInBucket(bucket, [h], g);
    }
  }

  // ----- The index -----

  ghost function StoredIn<B(!new)>(graphs: map<B, seq<Graph>>): set<Graph> {
    set b, s | b in graphs && s in graphs[b] :: s
  }

  /** No two stored graphs are isomorphic. */
  ghost predicate Representatives(stored: set<Graph>) {
    forall g, h :: g in stored && h in stored && Isomorphic(g, h) ==> g == h
  }

  ghost predicate Represented(stored: set<Graph>, g: Graph) { exists s :: s in stored && Isomorphic(g, s) }

  ghost predicate AllRepresented(stored: set<Graph>, seen: seq<Graph>) {
    forall g {:trigger Represented(stored, g)} :: g in seen ==> WellFormed(g) && Represented(stored, g)
  }

  /** Buckets hold what belongs in them, and every graph seen has exactly one stored representative. */
  ghost predicate Indexed<B(!new)>(bucket: Graph -> B, graphs: map<B, seq<Graph>>, seen: seq<Graph>) {
    && Invariant(bucket)
    && (forall b, s :: b in graphs && s in graphs[b] ==> bucket(s) == b && WellFormed(s))
    && Representatives(StoredIn(graphs))
    && (forall s :: s in StoredIn(graphs) ==> s in seen)
    && AllRepresented(StoredIn(graphs), seen)
  }

  lemma {:induction false} TouchKeeps<B(!new)>(graphs: map<B, seq<Graph>>, b: B)
    requires b !in graphs
    ensures StoredIn(graphs[b := []]) == StoredIn(graphs)
  {
    var m := graphs[b := []];
    forall s
      ensures s in StoredIn(m) <==> s in StoredIn(graphs)
    {
      if s in StoredIn(m) {
        var c :| c in m && s in m[c];
        assert c in graphs && s in graphs[c];
      }
      if s in StoredIn(graphs) {
        var c :| c in graphs && s in graphs[c];
        assert c in m && s in m[c];
      }
    }
  }

  lemma {:induction false} AppendStores<B(!new)>(graphs: map<B, seq<Graph>>, b: B, g: Graph)
    requires b in graphs
    ensures StoredIn(graphs[b := graphs[b] + [g]]) == StoredIn(graphs) + {g}
  {
    var m := graphs[b := graphs[b] + [g]];
    forall s
      ensures s in StoredIn(m) <==> s in StoredIn(graphs) || s == g
    {
      if s in StoredIn(m) {
        var c :| c in m && s in m[c];
        assert c in graphs && (s in graphs[c] || s == g);
      }
      if s in StoredIn(graphs) {
        var c :| c in graphs && s in graphs[c];
        assert c in m && s in m[c];
      }
      assert g in m[b];
    }
  }

  /** What is found among the graphs of one bucket decides for everything ever seen. */
  lemma {:induction false} BucketDecides<B(!new)>(
      bucket: Graph -> B, graphs: map<B, seq<Graph>>, seen: seq<Graph>, g: Graph)
    requires Indexed(bucket, graphs, seen) && WellFormed(g) && bucket(g) in graphs
    ensures FoundByScan(graphs[bucket(g)], g) <==> Represented(StoredIn(graphs), g)
    ensures Represented(StoredIn(graphs), g) <==> FoundByScan(seen, g)
  {
    var b := bucket(g);
    if Represented(StoredIn(graphs), g) {
      var s :| s in StoredIn(graphs) && Isomorphic(g, s);
      assert bucket(s) == b;
      var c :| c in graphs && s in graphs[c];
      assert c == b;
    }
    if FoundByScan(graphs[b], g) {
      var s :| s in graphs[b] && Isomorphic(g, s);
      assert s in StoredIn(graphs);
    }
    if FoundByScan(seen, g) {
      var h :| h in seen && Isomorphic(g, h);
      assert Represented(StoredIn(graphs), h);
      var s :| s in StoredIn(graphs) && Isomorphic(h, s);
      IsoTransitive(g, h, s);
    }
  }

  lemma {:induction false} NewRepresentative(stored: set<Graph>, g: Graph)
    requires Representatives(stored) && !Represented(stored, g)
    ensures Representatives(stored + {g})
  {
    forall x, y | x in stored + {g} && y in stored + {g} && Isomorphic(x, y)
      ensures x == y
    {
      if x in stored && y !in stored {
        IsoSymmetric(x, y);
      }
    }
  }

  lemma {:induction false} StillRepresented(stored: set<Graph>, seen: seq<Graph>, g: Graph, after: set<Graph>)
    requires stored <= after
    requires AllRepresented(stored, seen)
    requires WellFormed(g) && Represented(after, g)
    ensures AllRepresented(after, seen + [g])
  {
    forall h | h in seen + [g]
      ensures WellFormed(h) && Represented(after, h)
    {
      if h in seen {
        assert Represented(stored, h);
        var s :| s in stored && Isomorphic(h, s);
        assert s in after;
      }
    }
  }

  lemma {:induction false} AppendIndexed<B(!new)>(
      bucket: Graph -> B, graphs: map<B, seq<Graph>>, seen: seq<Graph>, g: Graph)
    requires Indexed(bucket, graphs, seen) && WellFormed(g) && bucket(g) in graphs && !Represented(StoredIn(graphs), g)
    ensures var m := graphs[bucket(g) := graphs[bucket(g)] + [g]];
      Indexed(bucket, m, seen + [g]) && StoredIn(m) == StoredIn(graphs) + {g}
  {
    var stored := StoredIn(graphs);
    var m := graphs[bucket(g) := graphs[bucket(g)] + [g]];
    AppendStores(graphs, bucket(g), g);
    NewRepresentative(stored, g);
    IsoReflexive(g);
    assert g in stored + {g};
    StillRepresented(stored, seen, g, stored + {g});
    forall b, s | b in m && s in m[b]
      ensures bucket(s) == b && WellFormed(s)
    {
      if b == bucket(g) && s != g {
        assert s in graphs[b];
      }
    }
  }

  lemma {:induction false} KnownIndexed<B(!new)>(
      bucket: Graph -> B, graphs: map<B, seq<Graph>>, seen: seq<Graph>, g: Graph)
    requires Indexed(bucket, graphs, seen) && WellFormed(g) && Represented(StoredIn(graphs), g)
    ensures Indexed(bucket, graphs, seen + [g])
  {
    StillRepresented(StoredIn(graphs), seen, g, StoredIn(graphs));
  }

  /** `decides` stands for the library's isomorphism test. */
  class StructureIndex<B(==,!new)> {
    const bucket: Graph -> B
    const decides: (Graph, Graph) -> bool
    var graphs: map<B, seq<Graph>>
    /** Every graph ever offered to the index. */
    ghost var seen: seq<Graph>

    ghost predicate Valid()
      reads this
    {
      Indexed(bucket, graphs, seen) && forall g, h :: decides(g, h) <==> Isomorphic(g, h)
    }

    constructor (bucket: Graph -> B, decides: (Graph, Graph) -> bool)
      requires Invariant(bucket) && forall g, h :: decides(g, h) <==> Isomorphic(g, h)
      ensures Valid() && seen == [] && StoredIn(graphs) == {} && this.bucket == bucket && this.decides == decides
    {
      this.bucket, this.decides, graphs, seen := bucket, decides, map[], [];
    }

    /**
     * Looking up creates the bucket's list if it is missing, and finds exactly what a scan of everything
     * seen would.
     */
    method Contains(g: Graph) returns (found: bool)
      requires Valid() && WellFormed(g)
      modifies this`graphs
      ensures Valid() && StoredIn(graphs) == old(StoredIn(graphs)) && bucket(g) in graphs
      ensures found <==> FoundByScan(seen, g)
      ensures found <==> Represented(StoredIn(graphs), g)
    {
      var b := bucket(g);
      if b !in graphs {
        TouchKeeps(graphs, b);
        graphs := graphs[b := []];
      }
      found := false;
      var others := graphs[b];
      for n := 0 to |others|
        invariant found <==> FoundByScan(others[..n], g)
      {
        found := found || decides(g, others[n]);
        assert others[..n + 1] == others[..n] + [others[n]];
      }
      assert others[..|others|] == others;
      BucketDecides(bucket, graphs, seen, g);
    }

    /** A graph is stored exactly when nothing seen before is isomorphic to it. */
    method Add(g: Graph) returns (added: bool)
      requires Valid() && WellFormed(g)
      modifies this
      ensures Valid() && seen == old(seen) + [g]
      ensures added <==> !FoundByScan(old(seen), g)
      ensures StoredIn(graphs) == if added then old(StoredIn(graphs)) + {g} else old(StoredIn(graphs))
    {
      var found := Contains(g);
      if found {
        KnownIndexed(bucket, graphs, seen, g);
      } else {
        AppendIndexed(bucket, graphs, seen, g);
        var b := bucket(g);
        graphs := graphs[b := graphs[b] + [g]];
      }
      seen := seen + [g];
      added := !found;
    }
  }
}

/**
 The reference `Kruskal` of tests/KruskalCheck.h: the constructor sorts the edges by
 cost, and `CalcMST` folds them through a fresh union-find, adding the cost of every
 edge whose `Unite` merged two components to a running total that persists between
 calls. The fold is specified by a pure reference definition over leader maps
 (`Fold`), from which the spanning-forest properties follow.
 */
module KruskalCheck {
  import opened Edges
  import opened UnionFind
  import opened Connectivity
  import opened BoruvkaMst
  import opened BoruvkaCalc

  /** `Kruskal`: the vertex count, the union-find, the sorted edges, the running cost. */
  datatype Kruskal = Kruskal(vertices: nat, dsu: Dsu, edges: seq<Edge>, cost: int)

  ghost predicate Ready(k: Kruskal) {
    Valid(k.dsu) && |k.dsu.parent| == k.vertices && EdgesWithin(k.edges, k.vertices)
  }

  // ---------------------------------------------------------------------------
  // The constructor: sorting by cost

  /** Nondecreasing under the cost-only `operator<`. */
  predicate SortedByCost(es: seq<Edge>) {
    forall i, j :: 0 <= i < j < |es| ==> !Less(es[j], es[i])
  }

  /** Inserts `e` into a sorted list before the first edge not cheaper than it. */
  function Insert(s: seq<Edge>, e: Edge): (r: seq<Edge>)
    requires SortedByCost(s)
    ensures SortedByCost(r) && multiset(r) == multiset(s) + multiset{e}
    ensures |r| == |s| + 1 && (r[0] == e || (s != [] && r[0] == s[0]))
    decreases |s|
  {
    if s == [] || !Less(s[0], e) then
      [e] + s
    else
      assert s == [s[0]] + s[1..];
      [s[0]] + Insert(s[1..], e)
  }

  /** `std::sort(Edges_.begin(), Edges_.end())`: some permutation of `es` in
      nondecreasing cost order (insertion sort fixes the order among equal costs). */
  function SortByCost(es: seq<Edge>): (r: seq<Edge>)
    ensures SortedByCost(r) && multiset(r) == multiset(es)
    decreases |es|
  {
    if es == [] then
      []
    else
      assert es == es[..|es| - 1] + [es[|es| - 1]];
      Insert(SortByCost(es[..|es| - 1]), es[|es| - 1])
  }

  /** A permutation of edges within range is within range. */
  lemma PermutedWithin(es: seq<Edge>, fs: seq<Edge>, n: nat)
    requires multiset(es) == multiset(fs) && EdgesWithin(fs, n)
    ensures EdgesWithin(es, n)
  {
    forall i | 0 <= i < |es|
      ensures es[i].from < n && es[i].to < n
    {
      assert es[i] in multiset(fs);
      var j :| 0 <= j < |fs| && fs[j] == es[i];
    }
  }

  /** The constructor: a fresh union-find of `n` singletons, the edges sorted by cost,
      cost 0. */
  method NewKruskal(edges: seq<Edge>, n: nat) returns (k: Kruskal)
    requires EdgesWithin(edges, n)
    ensures Ready(k) && k.vertices == n && k.cost == 0 && k.dsu.components == n
    ensures forall v :: 0 <= v < n ==> Leaders(k.dsu.parent)[v] == v
    ensures SortedByCost(k.edges) && multiset(k.edges) == multiset(edges)
  {
    var d := NewDsu(n);
    var sorted := SortByCost(edges);
    PermutedWithin(sorted, edges, n);
    k := Kruskal(n, d, sorted, 0);
  }

  // ---------------------------------------------------------------------------
  // The reference fold

  /** Folding `es` through the partition `ls`, first edge first: an edge whose endpoints
      lead to different classes merges them (the class of `from` joins the class of
      `to`) and is accepted; any other edge changes nothing. */
  ghost function Fold(ls: seq<nat>, es: seq<Edge>): (r: Run)
    requires InRange(ls) && EdgesWithin(es, |ls|)
    ensures |r.leaders| == |ls| && InRange(r.leaders)
    ensures IndicesBelow(r.accepted, |es|) && Distinct(r.accepted)
    decreases |es|
  {
    if es == [] then
      Run(ls, [])
    else
      var m := |es| - 1;
      var prev := Fold(ls, es[..m]);
      var l := prev.leaders;
      var e := es[m];
      if l[e.from] != l[e.to] then Run(MergeClass(l, l[e.from], l[e.to]), prev.accepted + [m]) else prev
  }

  /** After the fold no edge of `es` joins two classes, and the classes of `ls` were
      only merged. */
  lemma {:induction false} FoldCloses(ls: seq<nat>, es: seq<Edge>)
    requires InRange(ls) && EdgesWithin(es, |ls|)
    ensures Closed(Fold(ls, es).leaders, es)
    ensures Refines(ls, Fold(ls, es).leaders)
    decreases |es|
  {
    if es != [] {
      var m := |es| - 1;
      var prev := Fold(ls, es[..m]);
      FoldCloses(ls, es[..m]);
      var l := prev.leaders;
      var e := es[m];
      if l[e.from] != l[e.to] {
        MergeClassRefines(l, l[e.from], l[e.to]);
      }
      var r := Fold(ls, es);
      forall i | 0 <= i < |es|
        ensures r.leaders[es[i].from] == r.leaders[es[i].to]
      {
        if i < m {
          assert es[..m][i] == es[i];
        }
      }
    }
  }

  /** A fold over edges no two classes are joined by merges nothing. */
  lemma {:induction false} FoldOfClosed(ls: seq<nat>, es: seq<Edge>)
    requires InRange(ls) && EdgesWithin(es, |ls|) && Closed(ls, es)
    ensures Fold(ls, es) == Run(ls, [])
    decreases |es|
  {
    if es != [] {
      var m := |es| - 1;
      assert Closed(ls, es[..m]) by {
        forall i | 0 <= i < m
          ensures ls[es[..m][i].from] == ls[es[..m][i].to]
        {
          assert es[..m][i] == es[i];
        }
      }
      FoldOfClosed(ls, es[..m]);
    }
  }

  /** If `prior` reaches every leader of `ls`, then `prior` followed by the accepted edges
      reaches every leader after the fold. */
  lemma {:induction false} FoldReachable(ls: seq<nat>, es: seq<Edge>, prior: seq<Edge>)
    requires InRange(ls) && EdgesWithin(es, |ls|) && LeadersReachable(ls, prior)
    ensures LeadersReachable(Fold(ls, es).leaders, prior + Pick(es, Fold(ls, es).accepted))
    decreases |es|
  {
    if es == [] {
      assert prior + Pick(es, []) == prior;
    } else {
      var m := |es| - 1;
      var prev := Fold(ls, es[..m]);
      FoldReachable(ls, es[..m], prior);
      PickPrefix(es, m, prev.accepted);
      FoldStep(ls, es, m);
      assert es[..m + 1] == es;
      ReachStep(prev.leaders, es, prev.accepted, prior, m);
    }
  }

  /** One accepted edge keeps every leader reachable. */
  lemma ReachStep(l: seq<nat>, es: seq<Edge>, acc: seq<nat>, prior: seq<Edge>, m: nat)
    requires InRange(l) && EdgesWithin(es, |l|) && m < |es| && IndicesBelow(acc, |es|)
    requires LeadersReachable(l, prior + Pick(es, acc))
    ensures var e := es[m]; l[e.from] != l[e.to] ==>
      LeadersReachable(MergeClass(l, l[e.from], l[e.to]), prior + Pick(es, acc + [m]))
  {
    var e := es[m];
    if l[e.from] != l[e.to] {
      PickAppend(prior, es, acc, m);
      ReachableAfterMerge(l, MergeClass(l, l[e.from], l[e.to]), prior + Pick(es, acc), e);
    }
  }

  // ---------------------------------------------------------------------------
  // `CalcMST`

  /** The state of the `CalcMST` loop after the first `i` sorted edges: the union-find's
      classes and the cost are those of the reference fold over `edges[..i]`. */
  ghost predicate Scanned(k: Kruskal, i: nat, d: Dsu, cost: int) {
    && Ready(k) && i <= |k.edges|
    && Valid(d) && |d.parent| == k.vertices
    && var r := Fold(Leaders(k.dsu.parent), k.edges[..i]);
       && Leaders(d.parent) == r.leaders
       && cost == k.cost + CostSum(Pick(k.edges, r.accepted))
       && d.components + |r.accepted| == k.dsu.components
  }

  lemma ScanStart(k: Kruskal)
    requires Ready(k)
    ensures Scanned(k, 0, k.dsu, k.cost)
  {
    assert k.edges[..0] == [];
    assert Pick(k.edges, []) == [];
  }

  /** Unfolds `Fold` over the first `i + 1` edges into the fold over the first `i`. */
  lemma FoldStep(ls: seq<nat>, es: seq<Edge>, i: nat)
    requires InRange(ls) && EdgesWithin(es, |ls|) && i < |es|
    ensures var prev := Fold(ls, es[..i]);
      var l := prev.leaders;
      Fold(ls, es[..i + 1]) ==
        if l[es[i].from] != l[es[i].to] then Run(MergeClass(l, l[es[i].from], l[es[i].to]), prev.accepted + [i])
        else prev
  {
    assert es[..i + 1][..i] == es[..i];
  }

  /** The step of `Scanned` at the level of leader maps and costs. */
  lemma ScanStep(k: Kruskal, i: nat, d: Dsu, cost: int, d': Dsu, cost': int, merged: bool)
    requires Scanned(k, i, d, cost) && i < |k.edges|
    requires Valid(d') && |d'.parent| == |d.parent|
    requires var ls := Leaders(d.parent); var e := k.edges[i];
      && (merged <==> ls[e.from] != ls[e.to])
      && (merged ==> (Leaders(d'.parent) == MergeClass(ls, ls[e.from], ls[e.to])
                      && d'.components + 1 == d.components && cost' == cost + e.cost))
      && (!merged ==> Leaders(d'.parent) == ls && d'.components == d.components && cost' == cost)
    ensures Scanned(k, i + 1, d', cost')
  {
    var prev := Fold(Leaders(k.dsu.parent), k.edges[..i]);
    FoldStep(Leaders(k.dsu.parent), k.edges, i);
    if merged {
      PickAppend([], k.edges, prev.accepted, i);
    }
  }

  /** One iteration of the `CalcMST` loop: `Unite` along edge `i`, adding its cost iff
      the union-find merged. */
  method ScanEdge(k: Kruskal, i: nat, d: Dsu, cost: int) returns (d': Dsu, cost': int)
    requires Scanned(k, i, d, cost) && i < |k.edges|
    ensures Scanned(k, i + 1, d', cost')
  {
    var e := k.edges[i];
    var merged;
    merged, d' := UnionFind.Unite(d, e.from, e.to);
    ghost var ls := Leaders(d.parent);
    if merged {
      cost' := cost + e.cost;
      assert Leaders(d'.parent) == MergeClass(ls, ls[e.from], ls[e.to]);
    } else {
      cost' := cost;
    }
    ScanStep(k, i, d, cost, d', cost', merged);
  }

  /** `CalcMST()`: the sorted edges folded through the union-find; the running cost grows
      by the cost of exactly the edges the reference fold accepts. Afterwards no edge
      joins two components; over edges no two components were joined by, it changes
      nothing, so calling it again returns the same value. */
  method CalcMST(k: Kruskal) returns (cost: int, k': Kruskal)
    requires Ready(k)
    ensures Ready(k') && k' == k.(dsu := k'.dsu, cost := k'.cost) && cost == k'.cost
    ensures var r := Fold(Leaders(k.dsu.parent), k.edges);
      && Leaders(k'.dsu.parent) == r.leaders
      && cost == k.cost + CostSum(Pick(k.edges, r.accepted))
      && k'.dsu.components + |r.accepted| == k.dsu.components
    ensures Closed(Leaders(k'.dsu.parent), k.edges)
    ensures Closed(Leaders(k.dsu.parent), k.edges) ==>
      cost == k.cost && Leaders(k'.dsu.parent) == Leaders(k.dsu.parent)
  {
    ScanStart(k);
    var d := k.dsu;
    cost := k.cost;
    var i := 0;
    while i < |k.edges|
      invariant Scanned(k, i, d, cost)
    {
      d, cost := ScanEdge(k, i, d, cost);
      i := i + 1;
    }
    assert k.edges[..i] == k.edges;
    k' := k.(dsu := d, cost := cost);
    FoldCloses(Leaders(k.dsu.parent), k.edges);
    if Closed(Leaders(k.dsu.parent), k.edges) {
      FoldOfClosed(Leaders(k.dsu.parent), k.edges);
      assert Pick(k.edges, []) == [];
    }
  }

  /** `CalcMST()` called twice returns the same value both times. */
  method CalcMSTTwice(k: Kruskal) returns (first: int, second: int, k'': Kruskal)
    requires Ready(k)
    ensures first == second
  {
    var k';
    first, k' := CalcMST(k);
    second, k'' := CalcMST(k');
  }

  // ---------------------------------------------------------------------------
  // What the reference computes

  /** Reordering the edges changes neither connectivity nor components. */
  lemma ComponentsOfPermuted(es: seq<Edge>, fs: seq<Edge>, n: nat, ls: seq<nat>, c: nat)
    requires multiset(es) == multiset(fs) && ComponentsOf(es, n, ls, c)
    ensures ComponentsOf(fs, n, ls, c)
  {
    forall x, y | 0 <= x < n && 0 <= y < n
      ensures ls[x] == ls[y] <==> Connected(fs, x, y)
    {
      ConnectedSameEdges(es, fs, x, y);
    }
  }

  /** A fresh `Kruskal` followed by `CalcMST()`: the accepted edges `used` (indices into
      the sorted list) cost `cost`, connect exactly what the input connects, and have
      one edge fewer than vertices per component, so they form a spanning forest. */
  method RunKruskal(edges: seq<Edge>, n: nat) returns (cost: int, k: Kruskal, ghost used: seq<nat>)
    requires EdgesWithin(edges, n)
    ensures Ready(k) && k.vertices == n
    ensures SortedByCost(k.edges) && multiset(k.edges) == multiset(edges)
    ensures IndicesBelow(used, |k.edges|) && Distinct(used) && cost == CostSum(Pick(k.edges, used))
    ensures forall x, y :: 0 <= x < n && 0 <= y < n ==>
      (Connected(Pick(k.edges, used), x, y) <==> Connected(edges, x, y))
    ensures |used| + k.dsu.components == n
    ensures ComponentsOf(edges, n, Leaders(k.dsu.parent), k.dsu.components)
    ensures n > 0 && AllConnected(edges, n) ==> |used| == n - 1
    ensures n > 0 && AllConnected(edges, n) && |edges| == n - 1 ==> cost == CostSum(edges)
  {
    ghost var ls0;
    cost, k, ls0, used := FreshKruskal(edges, n);
    assert |k.dsu.parent| == n && Valid(k.dsu) && EdgesWithin(k.edges, n);
    FoldSpans(ls0, k.edges, Leaders(k.dsu.parent), used);
    KruskalForest(edges, k.edges, k.dsu, used);
  }

  /** `Kruskal(edges, n)` then `CalcMST()`, described by the reference fold from the
      singleton partition `ls`. */
  method FreshKruskal(edges: seq<Edge>, n: nat)
    returns (cost: int, k: Kruskal, ghost ls: seq<nat>, ghost used: seq<nat>)
    requires EdgesWithin(edges, n)
    ensures Ready(k) && k.vertices == n && |ls| == n && InRange(ls)
    ensures forall v :: 0 <= v < n ==> ls[v] == v
    ensures SortedByCost(k.edges) && multiset(k.edges) == multiset(edges)
    ensures used == Fold(ls, k.edges).accepted && Leaders(k.dsu.parent) == Fold(ls, k.edges).leaders
    ensures cost == CostSum(Pick(k.edges, used)) && |used| + k.dsu.components == n
  {
    var k0 := NewKruskal(edges, n);
    cost, k := CalcMST(k0);
    ls := Leaders(k0.dsu.parent);
    used := Fold(ls, k0.edges).accepted;
  }

  /** A spanning forest of the sorted edges is one of the input edges. */
  lemma KruskalForest(edges: seq<Edge>, es: seq<Edge>, d: Dsu, used: seq<nat>)
    requires Valid(d) && EdgesWithin(es, |d.parent|) && multiset(es) == multiset(edges)
    requires IndicesBelow(used, |es|) && Distinct(used) && |used| + d.components == |d.parent|
    requires LeadersReachable(Leaders(d.parent), Pick(es, used)) && Closed(Leaders(d.parent), es)
    ensures forall x, y :: 0 <= x < |d.parent| && 0 <= y < |d.parent| ==>
      (Connected(Pick(es, used), x, y) <==> Connected(edges, x, y))
    ensures ComponentsOf(edges, |d.parent|, Leaders(d.parent), d.components)
    ensures |d.parent| > 0 && AllConnected(edges, |d.parent|) ==> |used| == |d.parent| - 1
    ensures |d.parent| > 0 && AllConnected(edges, |d.parent|) && |edges| == |d.parent| - 1 ==>
      CostSum(Pick(es, used)) == CostSum(edges)
  {
    SpanningForest(es, d, used);
    ForestPermuted(es, edges, Pick(es, used), |d.parent|, Leaders(d.parent), d.components, |used|);
    if |d.parent| > 0 && AllConnected(edges, |d.parent|) && |edges| == |d.parent| - 1 {
      assert |es| == |multiset(es)| == |edges|;
      CostSumPermuted(es, edges);
    }
  }

  /** From singletons, the accepted edges reach every leader of the fold, and the fold
      leaves no edge between two classes. */
  lemma FoldSpans(ls: seq<nat>, es: seq<Edge>, leaders: seq<nat>, used: seq<nat>)
    requires InRange(ls) && EdgesWithin(es, |ls|) && forall v :: 0 <= v < |ls| ==> ls[v] == v
    requires leaders == Fold(ls, es).leaders && used == Fold(ls, es).accepted
    ensures IndicesBelow(used, |es|) && Distinct(used)
    ensures LeadersReachable(leaders, Pick(es, used)) && Closed(leaders, es)
  {
    SingletonsReachable(ls, []);
    FoldReachable(ls, es, []);
    assert [] + Pick(es, used) == Pick(es, used);
    FoldCloses(ls, es);
  }

  /** A spanning forest of `es` with `m` edges is one of any reordering of `es`. */
  lemma ForestPermuted(es: seq<Edge>, fs: seq<Edge>, ps: seq<Edge>, n: nat, ls: seq<nat>, c: nat, m: nat)
    requires multiset(es) == multiset(fs)
    requires forall x, y :: 0 <= x < n && 0 <= y < n ==> (Connected(ps, x, y) <==> Connected(es, x, y))
    requires ComponentsOf(es, n, ls, c)
    requires n > 0 && AllConnected(es, n) ==> m == n - 1
    ensures forall x, y :: 0 <= x < n && 0 <= y < n ==> (Connected(ps, x, y) <==> Connected(fs, x, y))
    ensures ComponentsOf(fs, n, ls, c)
    ensures n > 0 && AllConnected(fs, n) ==> m == n - 1 && AllConnected(es, n)
  {
    ComponentsOfPermuted(es, fs, n, ls, c);
    forall x, y | 0 <= x < n && 0 <= y < n
      ensures Connected(ps, x, y) <==> Connected(fs, x, y)
    {
      ConnectedSameEdges(es, fs, x, y);
    }
    if n > 0 && AllConnected(fs, n) {
      forall x | 0 <= x < n
        ensures Connected(es, 0, x)
      {
        ConnectedSameEdges(es, fs, 0, x);
      }
    }
  }

  // ---------------------------------------------------------------------------
  // Borůvka against the reference

  /** Two descriptions of the components of the same graph agree on the partition and on
      the number of components. */
  lemma ComponentsUnique(es: seq<Edge>, n: nat, ls: seq<nat>, c: nat, ms: seq<nat>, c': nat)
    requires ComponentsOf(es, n, ls, c) && ComponentsOf(es, n, ms, c')
    ensures c == c'
    ensures forall x, y :: 0 <= x < n && 0 <= y < n ==> (ls[x] == ls[y] <==> ms[x] == ms[y])
  {
    FewerLeaders(es, n, ls, c, ms, c');
    FewerLeaders(es, n, ms, c', ls, c);
  }

  lemma FewerLeaders(es: seq<Edge>, n: nat, ls: seq<nat>, c: nat, ms: seq<nat>, c': nat)
    requires ComponentsOf(es, n, ls, c) && ComponentsOf(es, n, ms, c')
    ensures c <= c'
  {
    var a := set v | 0 <= v < n && ls[v] == v;
    var b := set v | 0 <= v < n && ms[v] == v;
    var f := (x: nat) => if x < |ms| then ms[x] else 0;
    forall x | x in a
      ensures f(x) in b
    {
    }
    forall x, y | x in a && y in a && f(x) == f(y)
      ensures x == y
    {
      assert Connected(es, x, y);
    }
    InjectionCard(a, b, f);
  }

  /** The tests' oracle comparison: Borůvka with any number of workers, run one after
      another, and the reference Kruskal build forests with the same number of edges
      over the same components, and on a tree both report its total cost. */
  method CompareWithKruskal(edges: seq<Edge>, n: nat, workers: nat)
    returns (boruvkaCost: int, boruvkaEdges: seq<Edge>, kruskalCost: int, ghost kruskalEdges: seq<Edge>)
    requires EdgesWithin(edges, n) && workers >= 1
    ensures |boruvkaEdges| == |kruskalEdges|
    ensures forall x, y :: 0 <= x < n && 0 <= y < n ==>
      (Connected(boruvkaEdges, x, y) <==> Connected(kruskalEdges, x, y))
    ensures n > 0 && AllConnected(edges, n) && |edges| == n - 1 ==>
      boruvkaCost == kruskalCost == CostSum(edges)
  {
    var components;
    ghost var used;
    boruvkaCost, boruvkaEdges, components, used := BuildMst(edges, n, workers);
    var k;
    ghost var accepted;
    kruskalCost, k, accepted := RunKruskal(edges, n);
    kruskalEdges := Pick(k.edges, accepted);
    ghost var ls :| ComponentsOf(edges, n, ls, components);
    ComponentsUnique(edges, n, ls, components, Leaders(k.dsu.parent), k.dsu.components);
  }
}

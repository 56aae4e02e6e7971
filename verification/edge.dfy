/**
 The weighted undirected edge of the Boruvka library (boruvka_lib/boruvka.h).

 Vertex ids are `size_t` in the source and are modelled as `nat`; costs are
 `int64_t` and are modelled as unbounded `int` (overflow of the running cost
 sum is not modelled). Edges are compared by cost only.
 */
module Edges {

  /** The largest signed 64-bit value, the cost of a default-constructed edge. */
  const COST_MAX: int := 0x7fff_ffff_ffff_ffff

  /** True iff `c` is representable as a signed 64-bit integer. */
  predicate IsInt64(c: int) {
    -0x8000_0000_0000_0000 <= c <= COST_MAX
  }

  datatype Edge = Edge(from: nat, to: nat, cost: int)

  /** `Edge()`: both endpoints 0 and the largest cost, so no edge is strictly
      more expensive than it. */
  function DefaultEdge(): (e: Edge)
    ensures e.from == 0 && e.to == 0 && e.cost == COST_MAX
    ensures forall other: Edge :: IsInt64(other.cost) ==> !Less(e, other)
  {
    Edge(0, 0, COST_MAX)
  }

  /** `operator<`: the order used by the cheapest-edge registration and by the
      sort of the reference Kruskal; endpoints play no part. */
  predicate Less(a: Edge, b: Edge) {
    a.cost < b.cost
  }

  /** `operator==`: field-wise comparison. */
  function Equal(a: Edge, b: Edge): (r: bool)
    ensures r <==> a == b
  {
    a.from == b.from && a.to == b.to && a.cost == b.cost
  }

  /** `Less` is a strict weak order: irreflexive, transitive, and edges of
      equal cost are incomparable whatever their endpoints. */
  lemma LessIsStrictWeakOrder(a: Edge, b: Edge, c: Edge)
    ensures !Less(a, a)
    ensures Less(a, b) && Less(b, c) ==> Less(a, c)
    ensures a.cost == b.cost ==> !Less(a, b) && !Less(b, a)
    ensures !Less(a, b) && !Less(b, a) && !Less(b, c) && !Less(c, b) ==> !Less(a, c) && !Less(c, a)
  {
  }

  /** Two edges are incomparable exactly when their costs are equal, whatever their
      endpoints. */
  lemma EqualCostIncomparable(a: Edge, b: Edge)
    ensures !Less(a, b) && !Less(b, a) <==> a.cost == b.cost
  {
  }

  /** Sum of the costs of a sequence of edges (the `TotalCost` of the tests). */
  function CostSum(es: seq<Edge>): int {
    if es == [] then 0 else CostSum(es[..|es| - 1]) + es[|es| - 1].cost
  }

  /** Appending an edge adds its cost. */
  lemma CostSumAppend(es: seq<Edge>, e: Edge)
    ensures CostSum(es + [e]) == CostSum(es) + e.cost
  {
    assert (es + [e])[..|es|] == es;
  }

  /** The cost of a concatenation is the sum of the costs. */
  lemma {:induction false} CostSumConcat(a: seq<Edge>, b: seq<Edge>)
    ensures CostSum(a + b) == CostSum(a) + CostSum(b)
    decreases |b|
  {
    if b == [] {
      assert a + b == a;
    } else {
      var b' := b[..|b| - 1];
      var e := b[|b| - 1];
      assert a + b == (a + b') + [e];
      assert b == b' + [e];
      CostSumConcat(a, b');
      CostSumAppend(a + b', e);
      CostSumAppend(b', e);
    }
  }

  /** Adding one copy of `e` and taking it away again changes nothing. */
  lemma AddThenRemove(m: multiset<Edge>, e: Edge)
    ensures m + multiset{e} - multiset{e} == m
  {
    var r := m + multiset{e} - multiset{e};
    forall x
      ensures r[x] == m[x]
    {
    }
  }

  /** The edge between two runs of edges adds one copy of itself and its cost. */
  lemma DropBetween(a: seq<Edge>, e: Edge, c: seq<Edge>)
    ensures multiset(a + c) == multiset(a + [e] + c) - multiset{e}
    ensures CostSum(a + [e] + c) == CostSum(a + c) + e.cost
  {
    assert multiset(a + [e] + c) == multiset(a + c) + multiset{e};
    AddThenRemove(multiset(a + c), e);
    CostSumConcat(a + [e], c);
    CostSumAppend(a, e);
    CostSumConcat(a, c);
  }

  /** A list is its part before `j`, its edge at `j` and its part after `j`. */
  lemma SplitEdges(fs: seq<Edge>, j: nat)
    requires j < |fs|
    ensures fs == fs[..j] + [fs[j]] + fs[j + 1..]
  {
  }

  /** Dropping the edge at position `j` drops one copy of it and its cost. */
  lemma CostSumDrop(fs: seq<Edge>, j: nat)
    requires j < |fs|
    ensures multiset(fs[..j] + fs[j + 1..]) == multiset(fs) - multiset{fs[j]}
    ensures CostSum(fs) == CostSum(fs[..j] + fs[j + 1..]) + fs[j].cost
  {
    SplitEdges(fs, j);
    DropBetween(fs[..j], fs[j], fs[j + 1..]);
  }

  /** The cost of a list of edges does not depend on its order. */
  lemma {:induction false} CostSumPermuted(es: seq<Edge>, fs: seq<Edge>)
    requires multiset(es) == multiset(fs)
    ensures CostSum(es) == CostSum(fs)
    decreases |es|
  {
    if es == [] {
      assert |fs| == |multiset(fs)| == 0;
    } else {
      assert es[0] in multiset(fs);
      var j :| 0 <= j < |fs| && fs[j] == es[0];
      CostSumDrop(es, 0);
      CostSumDrop(fs, j);
      CostSumPermuted(es[..0] + es[1..], fs[..j] + fs[j + 1..]);
    }
  }

  /** Every endpoint of every edge is a vertex of a graph with `n` vertices. */
  predicate EdgesWithin(es: seq<Edge>, n: nat) {
    forall i :: 0 <= i < |es| ==> es[i].from < n && es[i].to < n
  }
}

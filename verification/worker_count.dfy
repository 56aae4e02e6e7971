/**
 With the workers run one after another, the number of workers does not change what
 `CalcMST` builds. Two instances over the same edges, with any two worker counts (each
 at least 1, since `BoruvkaIteration` divides by it), go through their rounds in step:
 every round starts from the same partition into components, accepts the same set of
 edge indices (each component's cheapest leaving edge, highest index among equal costs,
 whoever scanned it and in whatever order the merges ran), and so both stop after the
 same round with the same edges and cost.
 */
module WorkerCount {
  import opened Edges
  import opened UnionFind
  import opened Connectivity
  import opened BoruvkaMst
  import opened MergeOrder
  import opened BoruvkaRounds
  import opened BoruvkaCalc

  /** A run from a fresh instance `b` that has accepted the indices `accepted` so far. */
  ghost predicate FreshRun(b: Boruvka, cur: Boruvka, accepted: seq<nat>) {
    && RunInv(b, cur, accepted)
    && b.mst == [] && Accounted(b) && LeadersReachable(Lead(b), b.mst)
  }

  /** The edge picked between two runs of indices adds one copy of itself to the
      picked edges. */
  lemma PickAround(es: seq<Edge>, c1: seq<nat>, j: nat, c2: seq<nat>)
    requires IndicesBelow(c1, |es|) && j < |es| && IndicesBelow(c2, |es|)
    ensures IndicesBelow(c1 + [j] + c2, |es|) && IndicesBelow(c1 + c2, |es|)
    ensures multiset(Pick(es, c1 + [j] + c2)) == multiset(Pick(es, c1 + c2)) + multiset{es[j]}
  {
    var p1, p2 := Pick(es, c1), Pick(es, c2);
    PickConcat(es, c1, [j]);
    assert Pick(es, [j]) == [es[j]];
    assert Pick(es, c1 + [j]) == p1 + [es[j]];
    PickConcat(es, c1 + [j], c2);
    assert Pick(es, c1 + [j] + c2) == p1 + [es[j]] + p2;
    PickConcat(es, c1, c2);
    assert Pick(es, c1 + c2) == p1 + p2;
    MultisetAround(p1, es[j], p2);
  }

  /** An edge between two runs of edges adds one copy of itself. */
  lemma MultisetAround(p1: seq<Edge>, e: Edge, p2: seq<Edge>)
    ensures multiset(p1 + [e] + p2) == multiset(p1 + p2) + multiset{e}
  {
    assert multiset(p1 + [e] + p2) == multiset(p1) + multiset{e} + multiset(p2);
    assert multiset(p1 + p2) == multiset(p1) + multiset(p2);
  }

  /** A list is its part before `i`, its element at `i` and its part after `i`. */
  lemma SplitAt(c: seq<nat>, i: nat)
    requires i < |c|
    ensures c == c[..i] + [c[i]] + c[i + 1..]
  {
  }

  /** Dropping position `i` drops one copy of the index there. */
  lemma DropOne(c: seq<nat>, i: nat)
    requires i < |c|
    ensures multiset(c[..i] + c[i + 1..]) == multiset(c) - multiset{c[i]}
  {
    SplitAt(c, i);
    var m, r := multiset(c[..i] + c[i + 1..]), multiset(c) - multiset{c[i]};
    assert multiset(c) == m + multiset{c[i]};
    forall x
      ensures m[x] == r[x]
    {
    }
  }

  /** A list of distinct indices holds each of its indices once. */
  lemma {:induction false} DistinctOnce(a: seq<nat>)
    requires Distinct(a)
    ensures forall j: nat :: multiset(a)[j] == if j in a then 1 else 0
    decreases |a|
  {
    if a != [] {
      var x, a' := a[0], a[1..];
      assert a == [x] + a';
      assert Distinct(a');
      DistinctOnce(a');
      assert x !in a' by {
        forall t | 0 <= t < |a'|
          ensures a'[t] != x
        {
          assert a'[t] == a[t + 1];
        }
      }
    }
  }

  /** Two lists of distinct indices with the same elements hold the same indices. */
  lemma DistinctSameMultiset(a: seq<nat>, c: seq<nat>)
    requires Distinct(a) && Distinct(c)
    requires forall j: nat :: j in a <==> j in c
    ensures multiset(a) == multiset(c)
  {
    DistinctOnce(a);
    DistinctOnce(c);
    forall j: nat
      ensures multiset(a)[j] == multiset(c)[j]
    {
    }
  }

  /** Dropping the index at position `i` drops one copy of it and one copy of its edge
      from the picked edges. */
  lemma PickDrop(es: seq<Edge>, c: seq<nat>, i: nat) returns (c': seq<nat>)
    requires IndicesBelow(c, |es|) && i < |c|
    ensures c' == c[..i] + c[i + 1..] && |c'| + 1 == |c| && IndicesBelow(c', |es|)
    ensures multiset(c') == multiset(c) - multiset{c[i]}
    ensures multiset(Pick(es, c)) == multiset(Pick(es, c')) + multiset{es[c[i]]}
  {
    SplitAt(c, i);
    DropOne(c, i);
    PickAround(es, c[..i], c[i], c[i + 1..]);
    c' := c[..i] + c[i + 1..];
  }

  /** Indices equal up to order pick edges equal up to order. */
  lemma {:induction false} PickPermuted(es: seq<Edge>, a: seq<nat>, c: seq<nat>)
    requires IndicesBelow(a, |es|) && IndicesBelow(c, |es|) && multiset(a) == multiset(c)
    ensures multiset(Pick(es, a)) == multiset(Pick(es, c))
    decreases |a|
  {
    if a == [] {
      assert |c| == |multiset(c)| == 0;
    } else {
      assert a[0] in multiset(c);
      var i :| 0 <= i < |c| && c[i] == a[0];
      var a' := PickDrop(es, a, 0);
      var c' := PickDrop(es, c, i);
      PickPermuted(es, a', c');
    }
  }

  /** The components of a fresh run are the components of the edges it accepted. */
  lemma RunComponents(b: Boruvka, cur: Boruvka, accepted: seq<nat>)
    requires FreshRun(b, cur, accepted)
    ensures IndicesBelow(accepted, |b.edges|) && |Lead(cur)| == b.vertices
    ensures forall x, y :: 0 <= x < b.vertices && 0 <= y < b.vertices ==>
      (Lead(cur)[x] == Lead(cur)[y] <==> Connected(Pick(b.edges, accepted), x, y))
  {
    assert cur.mst == Pick(b.edges, accepted);
    ClassesOfPicked(Lead(cur), b.edges, accepted);
  }

  /** When the edges at `accepted` join no two classes and reach every leader, the
      classes are the components of those edges. */
  lemma ClassesOfPicked(ls: seq<nat>, es: seq<Edge>, accepted: seq<nat>)
    requires EdgesWithin(es, |ls|) && IndicesBelow(accepted, |es|) && Joined(ls, es, accepted)
    requires LeadersReachable(ls, Pick(es, accepted))
    ensures forall x, y :: 0 <= x < |ls| && 0 <= y < |ls| ==>
      (ls[x] == ls[y] <==> Connected(Pick(es, accepted), x, y))
  {
    var ms := Pick(es, accepted);
    forall t | 0 <= t < |ms|
      ensures ms[t].from < |ls| && ms[t].to < |ls| && ls[ms[t].from] == ls[ms[t].to]
    {
      var j := accepted[t];
      assert j < |es| && !Crossing(ls, es, j);
      assert ms[t] == es[j];
    }
    ClassesAreComponents(ls, ms);
  }

  /** Two fresh runs over the same edges that accepted the same indices have the same
      partition into components. */
  lemma SameAcceptedSamePartition(b1: Boruvka, cur1: Boruvka, acc1: seq<nat>, b2: Boruvka, cur2: Boruvka, acc2: seq<nat>)
    requires FreshRun(b1, cur1, acc1) && FreshRun(b2, cur2, acc2)
    requires b1.edges == b2.edges && b1.vertices == b2.vertices
    requires forall j: nat :: j in acc1 <==> j in acc2
    ensures SamePartition(Lead(cur1), Lead(cur2))
    ensures |acc1| == |acc2| && multiset(cur1.mst) == multiset(cur2.mst)
  {
    var es := b1.edges;
    RunComponents(b1, cur1, acc1);
    RunComponents(b2, cur2, acc2);
    DistinctSameMultiset(acc1, acc2);
    PickPermuted(es, acc1, acc2);
    assert |acc1| == |multiset(acc1)|;
    forall x, y | 0 <= x < b1.vertices && 0 <= y < b1.vertices
      ensures Lead(cur1)[x] == Lead(cur1)[y] <==> Lead(cur2)[x] == Lead(cur2)[y]
    {
      ConnectedSameEdges(Pick(es, acc1), Pick(es, acc2), x, y);
    }
  }

  /** Two lists with the same elements, each extended by lists with the same elements,
      still have the same elements. */
  lemma ExtendSame(a: seq<nat>, a': seq<nat>, c: seq<nat>, c': seq<nat>)
    requires |a| <= |a'| && a'[..|a|] == a && |c| <= |c'| && c'[..|c|] == c
    requires forall j: nat :: j in a <==> j in c
    requires forall j: nat :: j in a'[|a|..] <==> j in c'[|c|..]
    ensures forall j: nat :: j in a' <==> j in c'
  {
    assert a' == a + a'[|a|..];
    assert c' == c + c'[|c|..];
  }

  /** The `CalcMST()` round loop, run for two fresh instances over the same edges in
      lockstep, one with `w1` workers and one with `w2`, the workers of each round run
      one after another: both stop after the same round, build the same edges up to
      order, leave the same number of components and return the same cost. */
  method CompareWorkers(edges: seq<Edge>, n: nat, w1: nat, w2: nat)
    returns (cost1: int, cost2: int, mst1: seq<Edge>, mst2: seq<Edge>, components1: nat, components2: nat)
    requires EdgesWithin(edges, n) && w1 >= 1 && w2 >= 1
    ensures cost1 == CostSum(mst1) && cost2 == CostSum(mst2)
    ensures multiset(mst1) == multiset(mst2) && cost1 == cost2
    ensures components1 == components2 && |mst1| + components1 == n
  {
    var b1 := NewBoruvka(edges, n, w1);
    var b2 := NewBoruvka(edges, n, w2);
    RunStart(b1);
    RunStart(b2);
    var cur1, cur2 := b1, b2;
    ghost var acc1: seq<nat>, acc2: seq<nat> := [], [];
    while true
      invariant FreshRun(b1, cur1, acc1) && FreshRun(b2, cur2, acc2)
      invariant forall j: nat :: j in acc1 <==> j in acc2
      decreases cur1.dsu.components
    {
      SameAcceptedSamePartition(b1, cur1, acc1, b2, cur2, acc2);
      ChosenSamePartition(Lead(cur1), Lead(cur2), edges);
      ghost var l1, l2, before1, before2 := Lead(cur1), Lead(cur2), acc1, acc2;
      var done1, done2;
      cur1, acc1, done1 := RunRound(b1, cur1, acc1);
      cur2, acc2, done2 := RunRound(b2, cur2, acc2);
      assert done1 == done2;
      forall j: nat
        ensures j in acc1[|before1|..] <==> j in acc2[|before2|..]
      {
        if j < |edges| {
          assert Chosen(l1, edges, j) <==> Chosen(l2, edges, j);
        }
      }
      ExtendSame(before1, acc1, before2, acc2);
      if done1 {
        break;
      }
    }
    SameAcceptedSamePartition(b1, cur1, acc1, b2, cur2, acc2);
    BookedAccounted(b1, cur1, acc1);
    BookedAccounted(b2, cur2, acc2);
    mst1, mst2 := GetBuiltMST(cur1), GetBuiltMST(cur2);
    cost1, cost2 := cur1.costMst, cur2.costMst;
    components1, components2 := GetComponentsQuantity(cur1.dsu), GetComponentsQuantity(cur2.dsu);
    CostSumPermuted(mst1, mst2);
  }
}

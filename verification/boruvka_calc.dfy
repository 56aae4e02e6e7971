/**
 `Boruvka::CalcMST` (boruvka_lib/boruvka.cpp): rounds until a round leaves the number
 of components unchanged, and what the whole run builds. The result is a spanning
 forest of the input graph: its edges are distinct input edges, it connects exactly
 the vertices the input connects, its components are the input's connected
 components, and its cost is the running total `CalcMST` returns.
 */
module BoruvkaCalc {
  import opened Edges
  import opened UnionFind
  import opened Connectivity
  import opened BoruvkaMst
  import opened MergeOrder
  import opened BoruvkaRounds

  /** What the round loop keeps, starting from `b`: everything built so far is the
      stretch of merges `accepted`, and the slots are empty between rounds. */
  ghost predicate RunInv(b: Boruvka, cur: Boruvka, accepted: seq<nat>) {
    && WellFormed(b) && b.workers >= 1 && SlotsEmpty(cur)
    && Booked(b, cur, accepted)
    && History(Lead(b), Lead(cur), b.edges, accepted)
  }

  lemma RunStart(b: Boruvka)
    requires WellFormed(b) && b.workers >= 1 && SlotsEmpty(b)
    ensures RunInv(b, b, [])
  {
    BookedNothing(b, b);
  }

  /** One pass of the `CalcMST` loop: count, `BoruvkaIteration()`, count again. The loop
      stops (`done`) exactly when no edge joins two components any more; otherwise the
      round removed at least one component. */
  method RunRound(b: Boruvka, cur: Boruvka, ghost accepted: seq<nat>)
    returns (cur': Boruvka, ghost accepted': seq<nat>, done: bool)
    requires RunInv(b, cur, accepted)
    ensures RunInv(b, cur', accepted')
    ensures done <==> Closed(Lead(cur), b.edges)
    ensures done ==> Closed(Lead(cur'), b.edges)
    ensures done <==> cur'.dsu.components == cur.dsu.components
    ensures !done ==> cur'.dsu.components < cur.dsu.components
    ensures |accepted| <= |accepted'| && accepted'[..|accepted|] == accepted
    ensures forall j: nat :: j in accepted'[|accepted|..] <==> j < |b.edges| && Chosen(Lead(cur), b.edges, j)
  {
    var before := GetComponentsQuantity(cur.dsu);
    var next, round := BoruvkaIteration(cur);
    var after := GetComponentsQuantity(next.dsu);
    done := after == before;
    BookedCompose(b, cur, next, accepted, round);
    HistoryCompose(Lead(b), Lead(cur), Lead(next), b.edges, accepted, round);
    cur' := next;
    accepted' := accepted + round;
    assert accepted'[|accepted|..] == round;
  }

  /** `CalcMST()`: rounds until the number of components stops changing; returns the
      running cost. Afterwards no edge joins two components, and the last round is the
      only one that merged nothing. */
  method CalcMST(b: Boruvka) returns (cost: int, b': Boruvka, ghost rounds: nat, ghost accepted: seq<nat>)
    requires WellFormed(b) && b.workers >= 1 && SlotsEmpty(b)
    ensures RunInv(b, b', accepted)
    ensures Closed(Lead(b'), b.edges)
    ensures cost == b'.costMst
    ensures 1 <= rounds <= b.dsu.components - b'.dsu.components + 1
  {
    RunStart(b);
    var cur := b;
    accepted := [];
    rounds := 0;
    while true
      invariant RunInv(b, cur, accepted)
      invariant rounds <= b.dsu.components - cur.dsu.components
      decreases cur.dsu.components
    {
      var done;
      cur, accepted, done := RunRound(b, cur, accepted);
      rounds := rounds + 1;
      if done {
        break;
      }
    }
    b' := cur;
    cost := b'.costMst;
  }

  /** The components of the input graph, as a map from each vertex to a leader of
      its component, and their number. */
  ghost predicate ComponentsOf(es: seq<Edge>, n: nat, ls: seq<nat>, count: nat) {
    && |ls| == n && LeaderMap(ls)
    && |set v | 0 <= v < n && ls[v] == v| == count
    && forall x, y :: 0 <= x < n && 0 <= y < n ==> (ls[x] == ls[y] <==> Connected(es, x, y))
  }

  /** The leaders of a union-find whose classes are the components of `es` describe
      those components, and the component counter counts them. */
  lemma LeadersDescribeComponents(es: seq<Edge>, d: Dsu)
    requires Valid(d)
    requires forall x, y :: 0 <= x < |d.parent| && 0 <= y < |d.parent| ==>
      (Leaders(d.parent)[x] == Leaders(d.parent)[y] <==> Connected(es, x, y))
    ensures ComponentsOf(es, |d.parent|, Leaders(d.parent), d.components)
  {
    LeadersAreLeaderMap(d.parent);
    RootsAreSelfLed(d.parent);
    assert (set v | 0 <= v < |d.parent| && Leaders(d.parent)[v] == v) == Roots(d.parent);
  }

  /** A connected input leaves a single component. */
  lemma ConnectedOneComponent(es: seq<Edge>, d: Dsu)
    requires Valid(d) && |d.parent| > 0 && AllConnected(es, |d.parent|)
    requires forall x, y :: 0 <= x < |d.parent| && 0 <= y < |d.parent| ==>
      (Leaders(d.parent)[x] == Leaders(d.parent)[y] <==> Connected(es, x, y))
    ensures d.components == 1
  {
    forall x | 0 <= x < |d.parent|
      ensures Leaders(d.parent)[x] == Leaders(d.parent)[0]
    {
      assert Connected(es, 0, x);
    }
    OneClassOneComponent(d);
  }

  /** A fresh instance followed by `CalcMST()` and `GetBuiltMST()`, the way the tests
      drive the algorithm: `mst` picks the distinct input edges `used`, costs `cost`,
      connects exactly what the input connects, and has one edge fewer than vertices
      per component, so it is a spanning forest; a connected input gives a spanning
      tree of `n - 1` edges, and when the input is itself a tree every input edge is
      kept and the cost is the input's total cost. */
  method BuildMst(edges: seq<Edge>, n: nat, workers: nat)
    returns (cost: int, mst: seq<Edge>, components: nat, ghost used: seq<nat>)
    requires EdgesWithin(edges, n) && workers >= 1
    ensures IndicesBelow(used, |edges|) && Distinct(used) && mst == Pick(edges, used)
    ensures cost == CostSum(mst)
    ensures forall x, y :: 0 <= x < n && 0 <= y < n ==> (Connected(mst, x, y) <==> Connected(edges, x, y))
    ensures |mst| + components == n
    ensures exists ls :: ComponentsOf(edges, n, ls, components)
    ensures n > 0 && AllConnected(edges, n) ==> |mst| == n - 1
    ensures n > 0 && AllConnected(edges, n) && |edges| == n - 1 ==> cost == CostSum(edges)
  {
    var b';
    cost, b', used := RunFresh(edges, n, workers);
    mst := GetBuiltMST(b');
    components := GetComponentsQuantity(b'.dsu);
    SpanningForest(edges, b'.dsu, used);
    assert ComponentsOf(edges, n, Leaders(b'.dsu.parent), components);
  }

  /** A fresh instance followed by `CalcMST()`, seen from the outside. */
  method RunFresh(edges: seq<Edge>, n: nat, workers: nat) returns (cost: int, b': Boruvka, ghost used: seq<nat>)
    requires EdgesWithin(edges, n) && workers >= 1
    ensures Accounted(b') && Valid(b'.dsu) && |b'.dsu.parent| == n && b'.edges == edges
    ensures IndicesBelow(used, |edges|) && Distinct(used) && b'.mst == Pick(edges, used)
    ensures cost == b'.costMst && |used| + b'.dsu.components == n
    ensures LeadersReachable(Leaders(b'.dsu.parent), Pick(edges, used))
    ensures Closed(Leaders(b'.dsu.parent), edges)
  {
    var b := NewBoruvka(edges, n, workers);
    ghost var rounds;
    cost, b', rounds, used := CalcMST(b);
    BuiltEdges(b, b', used);
  }

  /** Edges picked from `es` that reach every leader of a partition no edge of `es`
      crosses connect exactly what `es` connects, and its classes are the components. */
  lemma PickedSpans(ls: seq<nat>, es: seq<Edge>, used: seq<nat>)
    requires EdgesWithin(es, |ls|) && IndicesBelow(used, |es|)
    requires LeadersReachable(ls, Pick(es, used)) && Closed(ls, es)
    ensures forall x, y :: 0 <= x < |ls| && 0 <= y < |ls| ==> (ls[x] == ls[y] <==> Connected(es, x, y))
    ensures forall x, y :: 0 <= x < |ls| && 0 <= y < |ls| ==>
      (Connected(Pick(es, used), x, y) <==> Connected(es, x, y))
  {
    PickAmong(es, [], used);
    assert [] + Pick(es, used) == Pick(es, used);
    SubgraphSpans(ls, Pick(es, used), es);
  }

  /** The bookkeeping of a finished run from a fresh instance: the built edges are the
      accepted input edges, their cost is the running total, and each removed one
      component. */
  lemma BuiltEdges(b: Boruvka, b': Boruvka, used: seq<nat>)
    requires WellFormed(b) && Accounted(b) && b.mst == [] && LeadersReachable(Lead(b), b.mst)
    requires Booked(b, b', used)
    ensures Accounted(b') && b'.edges == b.edges && b'.vertices == b.vertices
    ensures IndicesBelow(used, |b.edges|) && b'.mst == Pick(b.edges, used)
    ensures LeadersReachable(Lead(b'), b'.mst)
  {
    BookedAccounted(b, b', used);
    assert b'.mst == Pick(b.edges, used);
  }

  /** Edges that reach every leader of a union-find no edge of `es` crosses, one fewer
      than vertices per class, form a spanning forest of `es`: they connect what `es`
      connects, the classes are the components of `es`, and a connected `es` gets a
      spanning tree, which is all of `es` when `es` is itself a tree. */
  lemma SpanningForest(es: seq<Edge>, d: Dsu, used: seq<nat>)
    requires Valid(d) && EdgesWithin(es, |d.parent|) && IndicesBelow(used, |es|)
    requires LeadersReachable(Leaders(d.parent), Pick(es, used)) && Closed(Leaders(d.parent), es)
    requires Distinct(used) && |used| + d.components == |d.parent|
    ensures forall x, y :: 0 <= x < |d.parent| && 0 <= y < |d.parent| ==>
      (Connected(Pick(es, used), x, y) <==> Connected(es, x, y))
    ensures ComponentsOf(es, |d.parent|, Leaders(d.parent), d.components)
    ensures |d.parent| > 0 && AllConnected(es, |d.parent|) ==> |used| == |d.parent| - 1
    ensures |d.parent| > 0 && AllConnected(es, |d.parent|) && |es| == |d.parent| - 1 ==>
      CostSum(Pick(es, used)) == CostSum(es)
  {
    PickedSpans(Leaders(d.parent), es, used);
    LeadersDescribeComponents(es, d);
    if |d.parent| > 0 && AllConnected(es, |d.parent|) {
      ConnectedOneComponent(es, d);
      if |es| == |d.parent| - 1 {
        PickAllCost(es, used);
      }
    }
  }

  // ---------------------------------------------------------------------------
  // A tree as input

  ghost function Elems(idx: seq<nat>): set<nat> {
    set t | t in idx
  }

  /** The set of distinct indices has as many elements as the list. */
  lemma {:induction false} DistinctCard(idx: seq<nat>)
    requires Distinct(idx)
    ensures |Elems(idx)| == |idx|
  {
    if idx != [] {
      var init, last := idx[..|idx| - 1], idx[|idx| - 1];
      assert Distinct(init);
      DistinctCard(init);
      assert idx == init + [last];
      assert last !in init by {
        forall t | 0 <= t < |init|
          ensures init[t] != last
        {
          assert init[t] == idx[t];
        }
      }
      assert Elems(idx) == Elems(init) + {last};
    }
  }

  /** `m` distinct indices below `m` include `m - 1`. */
  lemma AllIndicesUsed(idx: seq<nat>, m: nat)
    requires IndicesBelow(idx, m) && Distinct(idx) && |idx| == m && m > 0
    ensures m - 1 in idx
  {
    if m - 1 !in idx {
      DistinctCard(idx);
      forall t | t in Elems(idx)
        ensures t in Range(m - 1)
      {
        var k :| 0 <= k < |idx| && idx[k] == t;
      }
      SubsetCard(Elems(idx), Range(m - 1));
    }
  }

  /** Dropping the index `m` from distinct indices below `m + 1` leaves distinct
      indices below `m`. */
  lemma DropIndex(used: seq<nat>, i: nat, m: nat)
    requires IndicesBelow(used, m + 1) && Distinct(used) && i < |used| && used[i] == m
    ensures used == used[..i] + [m] + used[i + 1..]
    ensures IndicesBelow(used[..i] + used[i + 1..], m) && Distinct(used[..i] + used[i + 1..])
  {
    assert used == used[..i] + [m] + used[i + 1..];
    var rest := used[..i] + used[i + 1..];
    assert forall t :: 0 <= t < |rest| ==> rest[t] == if t < i then used[t] else used[t + 1];
  }

  /** The edge at index `j`, picked between two runs of indices, adds its cost. */
  lemma PickCostSplit(es: seq<Edge>, a: seq<nat>, j: nat, c: seq<nat>)
    requires IndicesBelow(a, |es|) && j < |es| && IndicesBelow(c, |es|)
    ensures IndicesBelow(a + [j] + c, |es|) && IndicesBelow(a + c, |es|)
    ensures CostSum(Pick(es, a + [j] + c)) == CostSum(Pick(es, a + c)) + es[j].cost
  {
    PickConcat(es, a, [j]);
    PickConcat(es, a + [j], c);
    PickConcat(es, a, c);
    assert Pick(es, [j]) == [es[j]];
    CostSumConcat(Pick(es, a), [es[j]]);
    CostSumConcat(Pick(es, a + [j]), Pick(es, c));
    CostSumConcat(Pick(es, a), Pick(es, c));
  }

  /** Picking indices below `m` does not look past the first `m` edges. */
  lemma PickPrefix(es: seq<Edge>, m: nat, idx: seq<nat>)
    requires m <= |es| && IndicesBelow(idx, m)
    ensures Pick(es[..m], idx) == Pick(es, idx)
  {
  }

  /** Distinct indices covering all of `es` split around the last index into two runs
      that together cover the shorter list `es[..m]`, at cost `es[m]` less. */
  lemma SplitAtLast(es: seq<Edge>, used: seq<nat>) returns (a: seq<nat>, c: seq<nat>)
    requires IndicesBelow(used, |es|) && Distinct(used) && |used| == |es| && es != []
    ensures IndicesBelow(a + c, |es| - 1) && Distinct(a + c) && |a + c| == |es| - 1
    ensures CostSum(Pick(es, used)) == CostSum(Pick(es[..|es| - 1], a + c)) + es[|es| - 1].cost
  {
    var m := |es| - 1;
    AllIndicesUsed(used, |es|);
    var i :| 0 <= i < |used| && used[i] == m;
    DropIndex(used, i, m);
    a, c := used[..i], used[i + 1..];
    PickCostSplit(es, a, m, c);
    PickPrefix(es, m, a + c);
  }

  /** Picking every index once, in any order, costs as much as the whole list. */
  lemma {:induction false} PickAllCost(es: seq<Edge>, used: seq<nat>)
    requires IndicesBelow(used, |es|) && Distinct(used) && |used| == |es|
    ensures CostSum(Pick(es, used)) == CostSum(es)
    decreases |es|
  {
    if es != [] {
      var a, c := SplitAtLast(es, used);
      PickAllCost(es[..|es| - 1], a + c);
    }
  }
}

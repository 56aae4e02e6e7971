/**
 A whole round of `Boruvka::BoruvkaIteration` and the loop of `Boruvka::CalcMST`
 (boruvka_lib/boruvka.cpp).

 Worker `w` of `workers` owns the edge block `w` and the vertex block `w` (see
 module `Blocks`). Each worker registers the edges of its block, waits on the first
 latch, collects the good edges of its block, waits on the second latch, merges
 along its good edges and clears the slots of its vertex block. Because of the two
 latches, and because merging never reads a slot, the round has the same effect as
 the schedule modelled here: phase one for every block in order, then phase two for
 every block, then merge-and-clear for every worker in order.
 */
module BoruvkaRounds {
  import opened Edges
  import opened UnionFind
  import opened Connectivity
  import opened Blocks
  import opened BoruvkaMst
  import opened MergeOrder

  // ---------------------------------------------------------------------------
  // Composing merges

  lemma PickConcat(es: seq<Edge>, a: seq<nat>, b: seq<nat>)
    requires IndicesBelow(a, |es|) && IndicesBelow(b, |es|)
    ensures IndicesBelow(a + b, |es|)
    ensures Pick(es, a + b) == Pick(es, a) + Pick(es, b)
  {
    assert IndicesBelow(a + b, |es|);
    var p, q := Pick(es, a + b), Pick(es, a) + Pick(es, b);
    assert |p| == |q|;
    forall t | 0 <= t < |p|
      ensures p[t] == q[t]
    {
      if t >= |a| {
        assert (a + b)[t] == b[t - |a|];
      }
    }
  }

  /** The picked edges are edges of the list they are picked from. */
  lemma PickAmong(es: seq<Edge>, built: seq<Edge>, idx: seq<nat>)
    requires IndicesBelow(idx, |es|) && EdgesAmong(built, es)
    ensures EdgesAmong(built + Pick(es, idx), es)
  {
    var m := built + Pick(es, idx);
    forall i | 0 <= i < |m|
      ensures m[i] in es
    {
      if i >= |built| {
        assert m[i] == es[idx[i - |built|]];
      }
    }
  }

  /** Two stretches of merging make one. */
  lemma BookedCompose(b0: Boruvka, b1: Boruvka, b2: Boruvka, acc1: seq<nat>, acc2: seq<nat>)
    requires Booked(b0, b1, acc1) && Booked(b1, b2, acc2)
    ensures Booked(b0, b2, acc1 + acc2)
  {
    var es := b0.edges;
    PickConcat(es, acc1, acc2);
    CostSumConcat(Pick(es, acc1), Pick(es, acc2));
    AppendAssoc(b0.mst, Pick(es, acc1), Pick(es, acc2));
  }

  lemma AppendAssoc(a: seq<Edge>, b: seq<Edge>, c: seq<Edge>)
    ensures (a + b) + c == a + (b + c)
  {
  }

  lemma HistoryCompose(la: seq<nat>, lb: seq<nat>, lc: seq<nat>, es: seq<Edge>, acc1: seq<nat>, acc2: seq<nat>)
    requires EdgesWithin(es, |la|) && |lb| == |la| && |lc| == |la|
    requires History(la, lb, es, acc1) && History(lb, lc, es, acc2)
    ensures History(la, lc, es, acc1 + acc2)
  {
    JoinedStaysJoined(lb, lc, es, acc1);
    var acc := acc1 + acc2;
    forall t | 0 <= t < |acc|
      ensures acc[t] < |es| && Crossing(la, es, acc[t])
    {
      if t >= |acc1| {
        assert acc[t] == acc2[t - |acc1|];
      }
    }
    forall t, u | 0 <= t < u < |acc|
      ensures acc[t] != acc[u]
    {
      if t < |acc1| <= u {
        assert !Crossing(lb, es, acc1[t]);
        assert acc[u] == acc2[u - |acc1|];
      } else if |acc1| <= t {
        assert acc[t] == acc2[t - |acc1|] && acc[u] == acc2[u - |acc1|];
      }
    }
    forall t | 0 <= t < |acc|
      ensures !Crossing(lc, es, acc[t])
    {
      if t >= |acc1| {
        assert acc[t] == acc2[t - |acc1|];
      }
    }
  }

  /** A stretch in which only the union-find (without changing the partition) and the
      slots changed merged nothing. */
  lemma BookedNothing(b: Boruvka, cur: Boruvka)
    requires WellFormed(b) && WellFormed(cur)
    requires cur == b.(dsu := cur.dsu, cheapest := cur.cheapest)
    requires Lead(cur) == Lead(b) && cur.dsu.components == b.dsu.components
    ensures Booked(b, cur, []) && History(Lead(b), Lead(cur), b.edges, [])
  {
    assert Pick(b.edges, []) == [];
    assert b.mst + [] == b.mst;
  }

  // ---------------------------------------------------------------------------
  // Phase one: registering the cheapest leaving edges

  /** Worker `w`'s edge block extends the edges a leader's slot summarizes from the
      first `w` blocks to the first `w + 1`. */
  lemma SlotBlockStep(ls: seq<nat>, es: seq<Edge>, s1: nat, s2: nat, c: nat, w: nat, len: nat)
    requires EdgesWithin(es, |ls|) && s1 <= |es|
    requires SlotAfter(ls, es, |es|, s1, c, 0, Prefix(w, len, |es|))
    requires SlotAfter(ls, es, s1, s2, c, BlockStart(w, len), BlockEnd(w, len, |es|))
    ensures SlotAfter(ls, es, |es|, s2, c, 0, Prefix(w + 1, len, |es|))
  {
    BlockStep(w, len, |es|);
    if BlockStart(w, len) <= |es| {
      SlotCompose(ls, es, s1, s2, c, 0, Prefix(w, len, |es|), Prefix(w + 1, len, |es|));
    } else {
      assert !Challenged(ls, es, s1, c, BlockStart(w, len), BlockEnd(w, len, |es|));
    }
  }

  /** What phase one keeps once workers `0 .. w - 1` registered their edge blocks,
      starting from `b`: each leader's slot summarizes the edges before `Prefix(w)`. */
  ghost predicate RegisterInv(b: Boruvka, w: nat, cur: Boruvka) {
    && WellFormed(b) && b.workers >= 1 && w <= b.workers
    && WellFormed(cur) && cur == b.(cheapest := cur.cheapest, dsu := cur.dsu)
    && Lead(cur) == Lead(b) && cur.dsu.components == b.dsu.components
    && forall c :: 0 <= c < b.vertices && Lead(b)[c] == c ==>
         SlotAfter(Lead(b), b.edges, |b.edges|, cur.cheapest[c], c, 0,
           Prefix(w, BlockLength(|b.edges|, b.workers), |b.edges|))
  }

  /** Worker `w`'s part of phase one: `UpdateChippestEdges` on its edge block. */
  method RegisterWorker(b: Boruvka, w: nat, cur: Boruvka) returns (cur': Boruvka)
    requires RegisterInv(b, w, cur) && w < b.workers
    ensures RegisterInv(b, w + 1, cur')
  {
    var len := BlockLength(|b.edges|, b.workers);
    ghost var ls := Lead(b);
    BlockStep(w, len, |b.edges|);
    cur' := UpdateChippestEdges(cur, BlockStart(w, len), BlockEnd(w, len, |b.edges|));
    forall c | 0 <= c < b.vertices && ls[c] == c
      ensures SlotAfter(ls, b.edges, |b.edges|, cur'.cheapest[c], c, 0, Prefix(w + 1, len, |b.edges|))
    {
      SlotBlockStep(ls, b.edges, cur.cheapest[c], cur'.cheapest[c], c, w, len);
    }
  }

  /** Phase one: every worker runs `UpdateChippestEdges` on its edge block. Afterwards
      the slot of every leader summarizes all edges. */
  method RegisterPhase(b: Boruvka) returns (b': Boruvka)
    requires WellFormed(b) && b.workers >= 1 && SlotsEmpty(b)
    ensures RegisterInv(b, b.workers, b')
  {
    RegisterStart(b);
    b' := RegisterFrom(b, 0, b);
  }

  /** Workers `w .. workers - 1` of phase one, in order. */
  method RegisterFrom(b: Boruvka, w: nat, cur: Boruvka) returns (cur': Boruvka)
    requires RegisterInv(b, w, cur)
    ensures RegisterInv(b, b.workers, cur')
    decreases b.workers - w
  {
    if w == b.workers {
      cur' := cur;
    } else {
      var next := RegisterWorker(b, w, cur);
      cur' := RegisterFrom(b, w + 1, next);
    }
  }

  lemma RegisterEnd(b: Boruvka, cur: Boruvka)
    requires RegisterInv(b, b.workers, cur)
    ensures forall c :: 0 <= c < b.vertices && Lead(b)[c] == c ==>
      SlotAfter(Lead(b), b.edges, |b.edges|, cur.cheapest[c], c, 0, |b.edges|)
  {
    PrefixCoversAll(|b.edges|, b.workers);
  }

  lemma RegisterStart(b: Boruvka)
    requires WellFormed(b) && b.workers >= 1 && SlotsEmpty(b)
    ensures RegisterInv(b, 0, b)
  {
    forall c | 0 <= c < b.vertices && Lead(b)[c] == c
      ensures SlotAfter(Lead(b), b.edges, |b.edges|, b.cheapest[c], c, 0, 0)
    {
      assert !Challenged(Lead(b), b.edges, |b.edges|, c, 0, 0);
    }
  }

  // ---------------------------------------------------------------------------
  // Phase two: collecting the good edges

  /** The good edges worker `w` collects: the selected indices of its edge block. */
  ghost function Goods(ls: seq<nat>, es: seq<Edge>, slots: seq<nat>, workers: nat, w: nat): seq<nat>
    requires EdgesWithin(es, |ls|) && |slots| == |ls| && workers >= 1
  {
    var len := BlockLength(|es|, workers);
    SelectedIn(ls, es, slots, BlockStart(w, len), BlockEnd(w, len, |es|))
  }

  /** Every selected index is collected by the worker whose block holds it, and every
      collected index is selected. */
  lemma GoodsSpec(ls: seq<nat>, es: seq<Edge>, slots: seq<nat>, workers: nat)
    requires EdgesWithin(es, |ls|) && |slots| == |ls| && workers >= 1
    ensures forall w, t :: 0 <= w < workers && 0 <= t < |Goods(ls, es, slots, workers, w)| ==>
      Goods(ls, es, slots, workers, w)[t] < |es| && Selected(ls, es, slots, Goods(ls, es, slots, workers, w)[t])
    ensures forall j :: 0 <= j < |es| && Selected(ls, es, slots, j) ==>
      exists w :: 0 <= w < workers && j in Goods(ls, es, slots, workers, w)
  {
    var len := BlockLength(|es|, workers);
    forall w | 0 <= w < workers
      ensures forall t :: 0 <= t < |Goods(ls, es, slots, workers, w)| ==>
        Goods(ls, es, slots, workers, w)[t] < |es| && Selected(ls, es, slots, Goods(ls, es, slots, workers, w)[t])
    {
      SelectedInSpec(ls, es, slots, BlockStart(w, len), BlockEnd(w, len, |es|));
    }
    forall j | 0 <= j < |es| && Selected(ls, es, slots, j)
      ensures exists w :: 0 <= w < workers && j in Goods(ls, es, slots, workers, w)
    {
      BlocksCover(|es|, workers, j);
      var w := j / len;
      SelectedInSpec(ls, es, slots, BlockStart(w, len), BlockEnd(w, len, |es|));
      assert j in Goods(ls, es, slots, workers, w);
    }
  }

  /** Phase two: every worker runs `FindGoodEdges` on its edge block, into a list of
      its own. */
  method SelectPhase(b: Boruvka) returns (b': Boruvka, goods: seq<seq<nat>>)
    requires WellFormed(b) && b.workers >= 1
    ensures WellFormed(b') && b' == b.(dsu := b'.dsu)
    ensures Lead(b') == Lead(b) && b'.dsu.components == b.dsu.components
    ensures |goods| == b.workers
    ensures forall w :: 0 <= w < b.workers ==> goods[w] == Goods(Lead(b), b.edges, b.cheapest, b.workers, w)
  {
    var len := BlockLength(|b.edges|, b.workers);
    var cur := b;
    goods := [];
    while |goods| < b.workers
      invariant |goods| <= b.workers
      invariant WellFormed(cur) && cur == b.(dsu := cur.dsu)
      invariant Lead(cur) == Lead(b) && cur.dsu.components == b.dsu.components
      invariant forall w :: 0 <= w < |goods| ==> goods[w] == Goods(Lead(b), b.edges, b.cheapest, b.workers, w)
    {
      var w := |goods|;
      var mine;
      cur, mine := FindGoodEdges(cur, BlockStart(w, len), BlockEnd(w, len, |b.edges|), []);
      assert mine == Goods(Lead(b), b.edges, b.cheapest, b.workers, w);
      goods := goods + [mine];
    }
    b' := cur;
  }

  // ---------------------------------------------------------------------------
  // Phase three: merging and clearing

  /** Every list of good edges holds indices of edges joining two components of `ls`. */
  ghost predicate GoodsCross(ls: seq<nat>, es: seq<Edge>, goods: seq<seq<nat>>)
    requires EdgesWithin(es, |ls|)
  {
    forall w, t :: 0 <= w < |goods| && 0 <= t < |goods[w]| ==>
      goods[w][t] < |es| && Crossing(ls, es, goods[w][t])
  }

  /** The workers before `w` collected no good edge. */
  ghost predicate NoneBefore(goods: seq<seq<nat>>, w: nat) {
    forall u :: 0 <= u < w && u < |goods| ==> goods[u] == []
  }

  /** The order in which phase three merges the good edges of workers `0 .. w - 1`:
      worker by worker, each worker's list last index first. */
  ghost function PhaseOrder(goods: seq<seq<nat>>, w: nat): seq<nat>
    requires w <= |goods|
  {
    if w == 0 then [] else PhaseOrder(goods, w - 1) + Reversed(goods[w - 1])
  }

  /** Reversing a list keeps its elements, and keeps them distinct. */
  lemma ReversedSame(s: seq<nat>)
    ensures forall x :: x in Reversed(s) <==> x in s
    ensures Distinct(s) ==> Distinct(Reversed(s))
  {
    var r := Reversed(s);
    forall x | x in s
      ensures x in r
    {
      var k :| 0 <= k < |s| && s[k] == x;
      assert r[|s| - 1 - k] == x;
    }
  }

  /** Worker `u`'s good edges, last one first, are exactly the selected indices of its
      edge block, each once. */
  ghost predicate BlockOrder(ls: seq<nat>, es: seq<Edge>, slots: seq<nat>, goods: seq<seq<nat>>, u: nat)
    requires EdgesWithin(es, |ls|) && |slots| == |ls| && u < |goods|
  {
    var mine, len := Reversed(goods[u]), BlockLength(|es|, |goods|);
    && Distinct(mine)
    && forall j: nat :: j in mine <==>
         BlockStart(u, len) <= j < BlockEnd(u, len, |es|) && j < |es| && Selected(ls, es, slots, j)
  }

  /** The good edges of phase two, last one first, are the selected indices of their
      worker's edge block. */
  lemma ReversedGoods(ls: seq<nat>, es: seq<Edge>, slots: seq<nat>, goods: seq<seq<nat>>, u: nat)
    requires EdgesWithin(es, |ls|) && |slots| == |ls| && u < |goods|
    requires goods[u] == Goods(ls, es, slots, |goods|, u)
    ensures BlockOrder(ls, es, slots, goods, u)
  {
    var len := BlockLength(|es|, |goods|);
    var lo, hi := BlockStart(u, len), BlockEnd(u, len, |es|);
    var g := goods[u];
    assert g == SelectedIn(ls, es, slots, lo, hi);
    SelectedInSpec(ls, es, slots, lo, hi);
    assert Distinct(g);
    ReversedSame(g);
  }

  /** Distinct indices below `bound` followed by distinct indices from `bound` on are
      distinct. */
  lemma DistinctSplit(a: seq<nat>, c: seq<nat>, bound: nat)
    requires Distinct(a) && Distinct(c)
    requires forall t :: 0 <= t < |a| ==> a[t] < bound
    requires forall t :: 0 <= t < |c| ==> bound <= c[t]
    ensures Distinct(a + c)
  {
    var ac := a + c;
    forall t, t' | 0 <= t < t' < |ac|
      ensures ac[t] != ac[t']
    {
      if |a| <= t {
        assert ac[t] == c[t - |a|] && ac[t'] == c[t' - |a|];
      } else if |a| <= t' {
        assert ac[t'] == c[t' - |a|];
      }
    }
  }

  /** The selected indices below `start`, each once, followed by those of
      `[start, end)`, each once, are the selected indices below `end`, each once. */
  lemma SelectedAppend(ls: seq<nat>, es: seq<Edge>, slots: seq<nat>, prev: seq<nat>, mine: seq<nat>, start: nat, end: nat)
    requires EdgesWithin(es, |ls|) && |slots| == |ls| && start <= end <= |es|
    requires Distinct(prev) && forall j: nat :: j in prev <==> j < start && Selected(ls, es, slots, j)
    requires Distinct(mine) && forall j: nat :: j in mine <==> start <= j < end && Selected(ls, es, slots, j)
    ensures IndicesBelow(prev + mine, |es|) && Distinct(prev + mine)
    ensures forall j: nat :: j in prev + mine <==> j < end && Selected(ls, es, slots, j)
  {
    forall t | 0 <= t < |prev|
      ensures prev[t] < start
    {
      assert prev[t] in prev;
    }
    forall t | 0 <= t < |mine|
      ensures start <= mine[t] < end
    {
      assert mine[t] in mine;
    }
    DistinctSplit(prev, mine, start);
  }

  /** The merge order of phase three lists every selected edge of the first `w` edge
      blocks exactly once, and nothing else. */
  lemma {:induction false} PhaseOrderFacts(ls: seq<nat>, es: seq<Edge>, slots: seq<nat>, goods: seq<seq<nat>>, w: nat)
    requires EdgesWithin(es, |ls|) && |slots| == |ls| && |goods| >= 1 && w <= |goods|
    requires forall u :: 0 <= u < |goods| ==> BlockOrder(ls, es, slots, goods, u)
    ensures var order, end := PhaseOrder(goods, w), Prefix(w, BlockLength(|es|, |goods|), |es|);
      && IndicesBelow(order, |es|) && Distinct(order)
      && forall j: nat :: j in order <==> j < end && Selected(ls, es, slots, j)
    decreases w
  {
    var len := BlockLength(|es|, |goods|);
    if w > 0 {
      var u := w - 1;
      PhaseOrderFacts(ls, es, slots, goods, u);
      BlockStep(u, len, |es|);
      assert BlockOrder(ls, es, slots, goods, u);
      var start, end := Prefix(u, len, |es|), Prefix(w, len, |es|);
      var mine := Reversed(goods[u]);
      assert forall j: nat :: j in mine <==> start <= j < end && Selected(ls, es, slots, j);
      SelectedAppend(ls, es, slots, PhaseOrder(goods, u), mine, start, end);
    }
  }

  /** What phase three keeps once the first `w` workers merged along their good edges
      and cleared their vertex blocks, starting from `b`: in particular the partition
      and the accepted edges are those of the reference `MergeAlong` along the phase's
      merge order so far. */
  ghost predicate MergePhaseInv(b: Boruvka, goods: seq<seq<nat>>, w: nat, cur: Boruvka, accepted: seq<nat>) {
    && b.workers >= 1 && w <= b.workers && |goods| == b.workers
    && Booked(b, cur, accepted)
    && History(Lead(b), Lead(cur), b.edges, accepted)
    && IndicesBelow(PhaseOrder(goods, w), |b.edges|)
    && Run(Lead(cur), accepted) == MergeAlong(Lead(b), b.edges, PhaseOrder(goods, w))
    && (forall v :: 0 <= v < Prefix(w, BlockLength(b.vertices, b.workers), b.vertices) ==>
          cur.cheapest[v] == |b.edges|)
    && (NoneBefore(goods, w) ==> accepted == [] && Lead(cur) == Lead(b))
    && (!NoneBefore(goods, w) ==> |accepted| > 0)
    && (forall u :: 0 <= u < w ==> Joined(Lead(cur), b.edges, goods[u]))
  }

  /** Worker `w`'s merges continue the reference along the phase order by its good
      edges, last one first. */
  lemma PhaseOrderStep(lb: seq<nat>, lc: seq<nat>, lc': seq<nat>, es: seq<Edge>, goods: seq<seq<nat>>, w: nat,
                       accepted: seq<nat>, mine: seq<nat>)
    requires EdgesWithin(es, |lb|) && w < |goods|
    requires IndicesBelow(PhaseOrder(goods, w), |es|) && IndicesBelow(Reversed(goods[w]), |es|)
    requires Run(lc, accepted) == MergeAlong(lb, es, PhaseOrder(goods, w))
    requires Run(lc', mine) == MergeAlong(lc, es, Reversed(goods[w]))
    ensures IndicesBelow(PhaseOrder(goods, w + 1), |es|)
    ensures Run(lc', accepted + mine) == MergeAlong(lb, es, PhaseOrder(goods, w + 1))
  {
    MergeAlongConcat(lb, es, PhaseOrder(goods, w), Reversed(goods[w]));
  }

  /** The partition side of one worker's merge. */
  lemma MergeWorkerPartition(
    lb: seq<nat>, lc: seq<nat>, lc': seq<nat>, es: seq<Edge>, goods: seq<seq<nat>>, w: nat,
    accepted: seq<nat>, mine: seq<nat>)
    requires EdgesWithin(es, |lb|) && |lc| == |lb| && |lc'| == |lb| && w < |goods|
    requires GoodsCross(lb, es, goods)
    requires History(lb, lc, es, accepted)
    requires NoneBefore(goods, w) ==> accepted == [] && lc == lb
    requires !NoneBefore(goods, w) ==> |accepted| > 0
    requires forall u :: 0 <= u < w ==> Joined(lc, es, goods[u])
    requires IndicesBelow(goods[w], |es|) && Progress(lc, lc', es, mine, goods[w], 0)
    ensures History(lb, lc', es, accepted + mine)
    ensures NoneBefore(goods, w + 1) ==> accepted + mine == [] && lc' == lb
    ensures !NoneBefore(goods, w + 1) ==> |accepted + mine| > 0
    ensures forall u :: 0 <= u < w + 1 ==> Joined(lc', es, goods[u])
  {
    HistoryCompose(lb, lc, lc', es, accepted, mine);
    forall u | 0 <= u < w
      ensures Joined(lc', es, goods[u])
    {
      JoinedStaysJoined(lc, lc', es, goods[u]);
    }
    assert goods[w][0..] == goods[w];
    if NoneBefore(goods, w) && goods[w] != [] {
      assert Crossing(lb, es, goods[w][|goods[w]| - 1]);
    }
  }

  /** Clearing slots changes no bookkeeping. */
  lemma BookedClear(b: Boruvka, cur: Boruvka, cur': Boruvka, accepted: seq<nat>)
    requires Booked(b, cur, accepted) && WellFormed(cur') && cur' == cur.(cheapest := cur'.cheapest)
    ensures Booked(b, cur', accepted) && Lead(cur') == Lead(cur)
  {
  }

  /** Clearing block `w` after the blocks before it were cleared empties the slots
      below the end of block `w`. */
  lemma ClearedPrefix(before: seq<nat>, after: seq<nat>, empty: nat, w: nat, len: nat, n: nat)
    requires |before| == n && |after| == n
    requires forall v :: 0 <= v < Prefix(w, len, n) ==> before[v] == empty
    requires forall v :: 0 <= v < n ==> after[v] == if BlockStart(w, len) <= v < BlockEnd(w, len, n) then empty else before[v]
    ensures forall v :: 0 <= v < Prefix(w + 1, len, n) ==> after[v] == empty
  {
    BlockStep(w, len, n);
  }

  /** Worker `w`'s part of phase three: `Unite` along its good edges, last one first,
      then `ClearChippestEdgeInfo` on its vertex block. */
  method MergeWorker(b: Boruvka, goods: seq<seq<nat>>, w: nat, cur: Boruvka, ghost accepted: seq<nat>)
    returns (cur': Boruvka, ghost accepted': seq<nat>)
    requires MergePhaseInv(b, goods, w, cur, accepted) && w < b.workers
    requires GoodsCross(Lead(b), b.edges, goods)
    ensures MergePhaseInv(b, goods, w + 1, cur', accepted')
    ensures WellFormed(cur') && cur'.vertices == b.vertices && cur'.edges == b.edges
    ensures forall v :: 0 <= v < Prefix(w + 1, BlockLength(b.vertices, b.workers), b.vertices) ==>
      cur'.cheapest[v] == |b.edges|
    ensures forall u :: 0 <= u <= w ==> Joined(Lead(cur'), b.edges, goods[u])
  {
    assert IndicesBelow(goods[w], |b.edges|);
    var merged, mine := MergeGoodEdges(cur, goods[w]);
    PhaseOrderStep(Lead(b), Lead(cur), Lead(merged), b.edges, goods, w, accepted, mine);
    MergeWorkerPartition(Lead(b), Lead(cur), Lead(merged), b.edges, goods, w, accepted, mine);
    BookedCompose(b, cur, merged, accepted, mine);
    accepted' := accepted + mine;
    var len := BlockLength(b.vertices, b.workers);
    BlockStep(w, len, b.vertices);
    cur' := ClearChippestEdgeInfo(merged, BlockStart(w, len), BlockEnd(w, len, b.vertices));
    BookedClear(b, merged, cur', accepted');
    ClearedPrefix(merged.cheapest, cur'.cheapest, |b.edges|, w, len, b.vertices);
  }

  /** Phase three for all workers. Afterwards every slot is empty and every good edge
      lies inside one component. */
  method MergePhase(b: Boruvka, goods: seq<seq<nat>>) returns (b': Boruvka, ghost accepted: seq<nat>)
    requires WellFormed(b) && b.workers >= 1 && |goods| == b.workers
    requires GoodsCross(Lead(b), b.edges, goods)
    ensures Booked(b, b', accepted) && SlotsEmpty(b')
    ensures History(Lead(b), Lead(b'), b.edges, accepted)
    ensures NoneBefore(goods, b.workers) ==> accepted == [] && Lead(b') == Lead(b)
    ensures !NoneBefore(goods, b.workers) ==> |accepted| > 0
    ensures forall u :: 0 <= u < b.workers ==> Joined(Lead(b'), b.edges, goods[u])
    ensures IndicesBelow(PhaseOrder(goods, b.workers), |b.edges|)
    ensures Run(Lead(b'), accepted) == MergeAlong(Lead(b), b.edges, PhaseOrder(goods, b.workers))
  {
    MergePhaseStart(b, goods);
    var cur := b;
    accepted := [];
    var w := 0;
    while w < b.workers
      invariant MergePhaseInv(b, goods, w, cur, accepted)
    {
      cur, accepted := MergeWorker(b, goods, w, cur, accepted);
      w := w + 1;
    }
    assert w == b.workers;
    MergePhaseEnd(b, goods, cur, accepted);
    b' := cur;
  }

  lemma MergePhaseStart(b: Boruvka, goods: seq<seq<nat>>)
    requires WellFormed(b) && b.workers >= 1 && |goods| == b.workers
    ensures MergePhaseInv(b, goods, 0, b, [])
  {
    BookedNothing(b, b);
  }

  lemma MergePhaseEnd(b: Boruvka, goods: seq<seq<nat>>, cur: Boruvka, accepted: seq<nat>)
    requires MergePhaseInv(b, goods, b.workers, cur, accepted)
    ensures Booked(b, cur, accepted) && SlotsEmpty(cur)
    ensures History(Lead(b), Lead(cur), b.edges, accepted)
    ensures NoneBefore(goods, b.workers) ==> accepted == [] && Lead(cur) == Lead(b)
    ensures !NoneBefore(goods, b.workers) ==> |accepted| > 0
    ensures forall u :: 0 <= u < b.workers ==> Joined(Lead(cur), b.edges, goods[u])
    ensures IndicesBelow(PhaseOrder(goods, b.workers), |b.edges|)
    ensures Run(Lead(cur), accepted) == MergeAlong(Lead(b), b.edges, PhaseOrder(goods, b.workers))
  {
    PrefixCoversAll(b.vertices, b.workers);
  }

  // ---------------------------------------------------------------------------
  // A round

  /** The component led by `c` in `ls` was merged along its cheapest leaving edge: that
      edge lies inside one component of `ls'`. */
  ghost predicate MergedAlongCheapest(ls: seq<nat>, ls': seq<nat>, es: seq<Edge>, c: nat)
    requires EdgesWithin(es, |ls|) && |ls'| == |ls|
  {
    exists k :: CheapestOut(ls, es, c, 0, |es|, k) && !Crossing(ls', es, k)
  }

  /** After phase one: the slots of the leaders are sound, a leader's slot holds its
      cheapest leaving edge, and that edge is selected. */
  lemma SlotsAfterRegistering(ls: seq<nat>, es: seq<Edge>, slots: seq<nat>)
    requires EdgesWithin(es, |ls|) && LeaderMap(ls) && |slots| == |ls|
    requires forall c :: 0 <= c < |ls| && ls[c] == c ==> SlotAfter(ls, es, |es|, slots[c], c, 0, |es|)
    ensures SlotsSound(ls, es, slots)
    ensures forall c :: 0 <= c < |ls| && ls[c] == c && HasExit(ls, es, c) ==>
      slots[c] < |es| && CheapestOut(ls, es, c, 0, |es|, slots[c]) && Selected(ls, es, slots, slots[c])
    ensures !Closed(ls, es) ==> exists c :: 0 <= c < |ls| && ls[c] == c && HasExit(ls, es, c)
  {
    forall c | 0 <= c < |ls| && ls[c] == c
      ensures slots[c] == |es| || (slots[c] < |es| && Leaves(ls, es, slots[c], c))
      ensures HasExit(ls, es, c) ==>
        slots[c] < |es| && CheapestOut(ls, es, c, 0, |es|, slots[c]) && Selected(ls, es, slots, slots[c])
    {
      SlotAfterAll(ls, es, slots[c], c);
    }
    if !Closed(ls, es) {
      var i :| 0 <= i < |es| && ls[es[i].from] != ls[es[i].to];
      var c := ls[es[i].from];
      assert Leaves(ls, es, i, c);
      assert 0 <= c < |ls| && ls[c] == c && HasExit(ls, es, c);
    }
  }

  /** Some worker collected, as a good edge, a cheapest edge leaving the component `c`. */
  ghost predicate CheapestCollected(ls: seq<nat>, es: seq<Edge>, goods: seq<seq<nat>>, c: nat)
    requires EdgesWithin(es, |ls|)
  {
    exists w, t :: 0 <= w < |goods| && 0 <= t < |goods[w]| && CheapestOut(ls, es, c, 0, |es|, goods[w][t])
  }

  /** What the collected good edges say about the partition `ls`, once every leader's
      slot summarizes all edges. */
  lemma CollectedFacts(ls: seq<nat>, es: seq<Edge>, slots: seq<nat>, workers: nat, goods: seq<seq<nat>>)
    requires EdgesWithin(es, |ls|) && LeaderMap(ls) && |slots| == |ls| && workers >= 1
    requires forall c :: 0 <= c < |ls| && ls[c] == c ==> SlotAfter(ls, es, |es|, slots[c], c, 0, |es|)
    requires |goods| == workers && forall w :: 0 <= w < workers ==> goods[w] == Goods(ls, es, slots, workers, w)
    ensures GoodsCross(ls, es, goods)
    ensures NoneBefore(goods, workers) <==> Closed(ls, es)
    ensures forall c :: 0 <= c < |ls| && ls[c] == c && HasExit(ls, es, c) ==> CheapestCollected(ls, es, goods, c)
  {
    SlotsAfterRegistering(ls, es, slots);
    GoodsSpec(ls, es, slots, workers);
    forall w, t | 0 <= w < |goods| && 0 <= t < |goods[w]|
      ensures goods[w][t] < |es| && Crossing(ls, es, goods[w][t])
    {
      SelectedIsCrossing(ls, es, slots, goods[w][t]);
    }
    forall c | 0 <= c < |ls| && ls[c] == c && HasExit(ls, es, c)
      ensures CheapestCollected(ls, es, goods, c)
    {
      var w :| 0 <= w < workers && slots[c] in goods[w];
      var t :| 0 <= t < |goods[w]| && goods[w][t] == slots[c];
    }
    if !Closed(ls, es) {
      var c :| 0 <= c < |ls| && ls[c] == c && HasExit(ls, es, c);
      var w :| 0 <= w < workers && slots[c] in goods[w];
      assert goods[w] != [];
    }
    if !NoneBefore(goods, workers) {
      var w :| 0 <= w < workers && goods[w] != [];
      assert Crossing(ls, es, goods[w][0]);
    }
  }

  /** Phases one and two of a round. Every collected edge joins two components, some
      worker collects an edge iff some edge joins two components, and the cheapest
      edge leaving each component is collected. */
  method CollectPhases(b: Boruvka) returns (b': Boruvka, goods: seq<seq<nat>>)
    requires WellFormed(b) && b.workers >= 1 && SlotsEmpty(b)
    ensures WellFormed(b') && b' == b.(cheapest := b'.cheapest, dsu := b'.dsu)
    ensures Lead(b') == Lead(b) && b'.dsu.components == b.dsu.components
    ensures |goods| == b.workers
    ensures GoodsCross(Lead(b), b.edges, goods)
    ensures NoneBefore(goods, b.workers) <==> Closed(Lead(b), b.edges)
    ensures forall c :: 0 <= c < b.vertices && Lead(b)[c] == c && HasExit(Lead(b), b.edges, c) ==>
      CheapestCollected(Lead(b), b.edges, goods, c)
    ensures SlotsCheapest(Lead(b), b.edges, b'.cheapest)
    ensures forall w :: 0 <= w < b.workers ==> goods[w] == Goods(Lead(b), b.edges, b'.cheapest, b.workers, w)
  {
    var b1 := RegisterPhase(b);
    RegisterEnd(b, b1);
    b', goods := SelectPhase(b1);
    LeadersAreLeaderMap(b.dsu.parent);
    CollectedFacts(Lead(b), b.edges, b1.cheapest, b.workers, goods);
    SlotsAfterRegistering(Lead(b), b.edges, b1.cheapest);
  }

  /** Once every collected good edge lies inside one component of `ls'`, every
      component of `ls` with a leaving edge was merged along its cheapest one. */
  lemma MergedAlongAll(ls: seq<nat>, ls': seq<nat>, es: seq<Edge>, goods: seq<seq<nat>>)
    requires EdgesWithin(es, |ls|) && |ls'| == |ls|
    requires forall c :: 0 <= c < |ls| && ls[c] == c && HasExit(ls, es, c) ==> CheapestCollected(ls, es, goods, c)
    requires forall u :: 0 <= u < |goods| ==> Joined(ls', es, goods[u])
    ensures forall c :: 0 <= c < |ls| && ls[c] == c && HasExit(ls, es, c) ==> MergedAlongCheapest(ls, ls', es, c)
  {
    forall c | 0 <= c < |ls| && ls[c] == c && HasExit(ls, es, c)
      ensures MergedAlongCheapest(ls, ls', es, c)
    {
      var w, t :| 0 <= w < |goods| && 0 <= t < |goods[w]| && CheapestOut(ls, es, c, 0, |es|, goods[w][t]);
      assert !Crossing(ls', es, goods[w][t]);
    }
  }

  /** `BoruvkaIteration()`: one round. Every component with a leaving edge is merged
      along its cheapest leaving edge; the round merges nothing iff no edge joins two
      components; the merges it makes are recorded in `accepted` (see `History`). */
  method BoruvkaIteration(b: Boruvka) returns (b': Boruvka, ghost accepted: seq<nat>)
    requires WellFormed(b) && b.workers >= 1 && SlotsEmpty(b)
    ensures WellFormed(b') && b'.vertices == b.vertices && b'.edges == b.edges
    ensures forall c :: 0 <= c < b.vertices && Lead(b)[c] == c && HasExit(Lead(b), b.edges, c) ==>
      MergedAlongCheapest(Lead(b), Lead(b'), b.edges, c)
    ensures accepted == [] ==> Lead(b') == Lead(b)
    ensures accepted == [] <==> Closed(Lead(b), b.edges)
    ensures History(Lead(b), Lead(b'), b.edges, accepted)
    ensures Booked(b, b', accepted) && SlotsEmpty(b')
    ensures forall j: nat :: j in accepted <==> j < |b.edges| && Chosen(Lead(b), b.edges, j)
  {
    var b2, goods := CollectPhases(b);
    BookedNothing(b, b2);
    b', accepted := MergePhase(b2, goods);
    BookedCompose(b, b2, b', [], accepted);
    assert [] + accepted == accepted;
    MergedAlongAll(Lead(b), Lead(b'), b.edges, goods);
    LeadersAreLeaderMap(b.dsu.parent);
    RoundAcceptsChosen(Lead(b), b.edges, b2.cheapest, goods, accepted);
  }

  /** A round merging along its good edges in phase order, the workers run one after
      another, accepts every edge chosen by a component, whatever the number of workers. */
  lemma RoundAcceptsChosen(ls: seq<nat>, es: seq<Edge>, slots: seq<nat>, goods: seq<seq<nat>>, accepted: seq<nat>)
    requires EdgesWithin(es, |ls|) && LeaderMap(ls) && SlotsCheapest(ls, es, slots) && |goods| >= 1
    requires forall u :: 0 <= u < |goods| ==> goods[u] == Goods(ls, es, slots, |goods|, u)
    requires IndicesBelow(PhaseOrder(goods, |goods|), |es|)
    requires accepted == MergeAlong(ls, es, PhaseOrder(goods, |goods|)).accepted
    ensures forall j: nat :: j in accepted <==> j < |es| && Chosen(ls, es, j)
  {
    forall u | 0 <= u < |goods|
      ensures BlockOrder(ls, es, slots, goods, u)
    {
      ReversedGoods(ls, es, slots, goods, u);
    }
    PhaseOrderFacts(ls, es, slots, goods, |goods|);
    PrefixCoversAll(|es|, |goods|);
    var rt := SelectedAllMerge(ls, es, slots, PhaseOrder(goods, |goods|));
    forall j | 0 <= j < |es|
      ensures Selected(ls, es, slots, j) <==> Chosen(ls, es, j)
    {
      SelectedIffChosen(ls, es, slots, j);
    }
  }
}

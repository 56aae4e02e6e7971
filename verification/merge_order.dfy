/**
 Why the order in which a round of `Boruvka::BoruvkaIteration`
 (boruvka_lib/boruvka.cpp) merges its good edges does not matter.

 After phase one the slot of every leader holds the cheapest edge leaving its
 component, the one with the highest index among equal costs (`CheapestOut`). Order
 the edges by cost, then by descending index (`KeyLe`): every component then points
 along its slot edge at a neighbour whose slot edge comes no later, and two
 components can only point at each other along one and the same edge. So the
 selected edges contain no cycle over the components, and `Unite` along each of them
 merges two classes whatever the order: the round accepts exactly the selected edges,
 however many workers split them and in which order they are merged.
 */
module MergeOrder {
  import opened Edges
  import opened UnionFind
  import opened Connectivity
  import opened BoruvkaMst

  /** Edge `k` comes no later than edge `j` in the order the slots use: it is cheaper,
      or as cheap and its index is not smaller. */
  ghost predicate KeyLe(es: seq<Edge>, k: nat, j: nat)
    requires k < |es| && j < |es|
  {
    es[k].cost < es[j].cost || (es[k].cost == es[j].cost && j <= k)
  }

  /** `KeyLe` is a total order on the indices of `es`. */
  lemma KeyLeTotalOrder(es: seq<Edge>, i: nat, j: nat, k: nat)
    requires i < |es| && j < |es| && k < |es|
    ensures KeyLe(es, i, j) || KeyLe(es, j, i)
    ensures KeyLe(es, i, j) && KeyLe(es, j, i) ==> i == j
    ensures KeyLe(es, i, j) && KeyLe(es, j, k) ==> KeyLe(es, i, k)
  {
  }

  /** A component has only one cheapest leaving edge in the sense of `CheapestOut`. */
  lemma CheapestUnique(ls: seq<nat>, es: seq<Edge>, c: nat, k1: nat, k2: nat)
    requires EdgesWithin(es, |ls|)
    requires CheapestOut(ls, es, c, 0, |es|, k1) && CheapestOut(ls, es, c, 0, |es|, k2)
    ensures k1 == k2
  {
    assert KeyLe(es, k1, k2) && KeyLe(es, k2, k1);
  }

  /** The slots after phase one: a leader's slot holds the cheapest edge leaving its
      component, or is empty when no edge leaves it. */
  ghost predicate SlotsCheapest(ls: seq<nat>, es: seq<Edge>, slots: seq<nat>)
    requires EdgesWithin(es, |ls|)
  {
    && |slots| == |ls|
    && forall c :: 0 <= c < |ls| && ls[c] == c ==>
         if HasExit(ls, es, c) then slots[c] < |es| && CheapestOut(ls, es, c, 0, |es|, slots[c])
         else slots[c] == |es|
  }

  /** Edge `j` is the cheapest edge leaving the component of one of its endpoints, the
      one with the highest index among equal costs. */
  ghost predicate Chosen(ls: seq<nat>, es: seq<Edge>, j: nat)
    requires EdgesWithin(es, |ls|) && j < |es|
  {
    CheapestOut(ls, es, ls[es[j].from], 0, |es|, j) || CheapestOut(ls, es, ls[es[j].to], 0, |es|, j)
  }

  /** What a selected edge `j` says about the two components it joins: they differ,
      `j` leaves both, it is the slot edge of one of them, and each of their slot
      edges comes no later than `j`. */
  lemma SelectedSlots(ls: seq<nat>, es: seq<Edge>, slots: seq<nat>, j: nat)
    requires EdgesWithin(es, |ls|) && LeaderMap(ls) && SlotsCheapest(ls, es, slots)
    requires j < |es| && Selected(ls, es, slots, j)
    ensures var a, z := ls[es[j].from], ls[es[j].to];
      && a != z && ls[a] == a && ls[z] == z
      && Leaves(ls, es, j, a) && Leaves(ls, es, j, z)
      && (slots[a] == j || slots[z] == j)
      && slots[a] < |es| && KeyLe(es, slots[a], j)
      && slots[z] < |es| && KeyLe(es, slots[z], j)
  {
    var a, z := ls[es[j].from], ls[es[j].to];
    if slots[a] == j {
      assert HasExit(ls, es, a);
    } else {
      assert HasExit(ls, es, z);
    }
    assert Leaves(ls, es, j, a) && Leaves(ls, es, j, z);
    assert HasExit(ls, es, a) && HasExit(ls, es, z);
  }

  /** With slots as after phase one, a selected edge is exactly a chosen one. */
  lemma SelectedIffChosen(ls: seq<nat>, es: seq<Edge>, slots: seq<nat>, j: nat)
    requires EdgesWithin(es, |ls|) && LeaderMap(ls) && SlotsCheapest(ls, es, slots) && j < |es|
    ensures Selected(ls, es, slots, j) <==> Chosen(ls, es, j)
  {
    var a, z := ls[es[j].from], ls[es[j].to];
    if Selected(ls, es, slots, j) {
      SelectedSlots(ls, es, slots, j);
      assert HasExit(ls, es, a) && HasExit(ls, es, z);
    }
    if CheapestOut(ls, es, a, 0, |es|, j) {
      assert HasExit(ls, es, a);
      CheapestUnique(ls, es, a, j, slots[a]);
    }
    if CheapestOut(ls, es, z, 0, |es|, j) {
      assert HasExit(ls, es, z);
      CheapestUnique(ls, es, z, j, slots[z]);
    }
  }

  /** The merges made so far, from the partition `ls` the slots were registered
      against to the partition `lc`, after merging along the indices `done`: every
      class of `lc` has a root `rt[x]`, a leader of `ls` inside it, and every other
      leader of `ls` in that class has had its slot edge merged already, and that
      edge comes no earlier than the root's slot edge. */
  ghost predicate Rooted(ls: seq<nat>, lc: seq<nat>, es: seq<Edge>, slots: seq<nat>, done: seq<nat>, rt: seq<nat>)
    requires |slots| == |ls|
  {
    && |lc| == |ls| && |rt| == |ls| && Refines(ls, lc)
    && (forall x :: 0 <= x < |ls| ==> rt[x] < |ls| && ls[rt[x]] == rt[x] && lc[rt[x]] == lc[x])
    && (forall x, y :: 0 <= x < |ls| && 0 <= y < |ls| && lc[x] == lc[y] ==> rt[x] == rt[y])
    && forall c :: 0 <= c < |ls| && ls[c] == c && rt[c] != c ==>
         slots[c] < |es| && slots[c] in done && slots[rt[c]] < |es| && KeyLe(es, slots[rt[c]], slots[c])
  }

  /** Before any merge every leader is its own root. */
  lemma RootedStart(ls: seq<nat>, es: seq<Edge>, slots: seq<nat>)
    requires LeaderMap(ls) && |slots| == |ls|
    ensures Rooted(ls, ls, es, slots, [], ls)
  {
  }

  /** A selected edge that was not merged along yet still joins two classes. */
  lemma SelectedStillCrossing(ls: seq<nat>, lc: seq<nat>, es: seq<Edge>, slots: seq<nat>, done: seq<nat>, rt: seq<nat>, j: nat)
    requires EdgesWithin(es, |ls|) && LeaderMap(ls) && SlotsCheapest(ls, es, slots)
    requires Rooted(ls, lc, es, slots, done, rt)
    requires j < |es| && Selected(ls, es, slots, j) && j !in done
    ensures lc[es[j].from] != lc[es[j].to]
  {
    var f, t := es[j].from, es[j].to;
    var a, z := ls[f], ls[t];
    SelectedSlots(ls, es, slots, j);
    assert lc[a] == lc[f] && lc[z] == lc[t];
    KeyLeTotalOrder(es, j, slots[z], j);
    KeyLeTotalOrder(es, j, slots[a], j);
  }

  /** The two sides of a selected edge not merged along yet: `s`, a leader whose slot
      edge it is and which is still the root of its class, and `o`, the leader at the
      other end, in a different class. */
  lemma StepSides(ls: seq<nat>, lc: seq<nat>, es: seq<Edge>, slots: seq<nat>, done: seq<nat>, rt: seq<nat>, j: nat)
    returns (s: nat, o: nat)
    requires EdgesWithin(es, |ls|) && LeaderMap(ls) && SlotsCheapest(ls, es, slots)
    requires Rooted(ls, lc, es, slots, done, rt)
    requires j < |es| && Selected(ls, es, slots, j) && j !in done
    ensures s < |ls| && o < |ls| && ls[o] == o && lc[s] != lc[o]
    ensures slots[s] == j && rt[s] == s && Leaves(ls, es, j, o)
    ensures var f, t := es[j].from, es[j].to;
      (lc[s] == lc[f] && lc[o] == lc[t]) || (lc[s] == lc[t] && lc[o] == lc[f])
  {
    SelectedStillCrossing(ls, lc, es, slots, done, rt, j);
    SelectedSlots(ls, es, slots, j);
    var f, t := es[j].from, es[j].to;
    var a, z := ls[f], ls[t];
    assert lc[a] == lc[f] && lc[z] == lc[t];
    s, o := if slots[a] == j then a else z, if slots[a] == j then z else a;
  }

  /** Merging along a selected edge not merged along yet keeps the merges rooted. */
  lemma RootedStep(ls: seq<nat>, lc: seq<nat>, es: seq<Edge>, slots: seq<nat>, done: seq<nat>, rt: seq<nat>, j: nat)
    returns (rt': seq<nat>)
    requires EdgesWithin(es, |ls|) && LeaderMap(ls) && SlotsCheapest(ls, es, slots)
    requires Rooted(ls, lc, es, slots, done, rt)
    requires j < |es| && Selected(ls, es, slots, j) && j !in done
    ensures lc[es[j].from] != lc[es[j].to]
    ensures Rooted(ls, MergeClass(lc, lc[es[j].from], lc[es[j].to]), es, slots, done + [j], rt')
  {
    // The merged class keeps the root of the side `o` whose slot edge is not `j`.
    var s, o := StepSides(ls, lc, es, slots, done, rt, j);
    rt' := seq(|ls|, x requires 0 <= x < |ls| => if lc[x] == lc[s] || lc[x] == lc[o] then rt[o] else rt[x]);
    var lc' := MergeClass(lc, lc[es[j].from], lc[es[j].to]);
    RootSlotBefore(ls, lc, es, slots, done, rt, o, j);
    RootedShape(ls, lc, lc', rt, rt', s, o, rt[o]);
    RootedOrder(ls, lc, lc', es, slots, done, rt, rt', s, o, j);
  }

  /** Merging the classes of `s` and `o` and giving the merged class the root `r` of
      one of them keeps every class rooted at a leader inside it. */
  lemma RootedShape(ls: seq<nat>, lc: seq<nat>, lc': seq<nat>, rt: seq<nat>, rt': seq<nat>, s: nat, o: nat, r: nat)
    requires |lc| == |ls| && |rt| == |ls| && Refines(ls, lc)
    requires forall x :: 0 <= x < |ls| ==> rt[x] < |ls| && ls[rt[x]] == rt[x] && lc[rt[x]] == lc[x]
    requires forall x, y :: 0 <= x < |ls| && 0 <= y < |ls| && lc[x] == lc[y] ==> rt[x] == rt[y]
    requires s < |ls| && o < |ls| && r < |ls| && ls[r] == r && (lc[r] == lc[s] || lc[r] == lc[o])
    requires lc' == MergeClass(lc, lc[s], lc[o]) || lc' == MergeClass(lc, lc[o], lc[s])
    requires |rt'| == |ls|
    requires forall x :: 0 <= x < |ls| ==> rt'[x] == if lc[x] == lc[s] || lc[x] == lc[o] then r else rt[x]
    ensures |lc'| == |ls| && Refines(ls, lc')
    ensures forall x :: 0 <= x < |ls| ==> rt'[x] < |ls| && ls[rt'[x]] == rt'[x] && lc'[rt'[x]] == lc'[x]
    ensures forall x, y :: 0 <= x < |ls| && 0 <= y < |ls| && lc'[x] == lc'[y] ==> rt'[x] == rt'[y]
  {
    MergeClassRefines(lc, lc[s], lc[o]);
    MergeClassRefines(lc, lc[o], lc[s]);
    RefinesTrans(ls, lc, lc');
  }

  /** Merging along `j`, the slot edge of the root `s` of its class, into the class of
      `o`, whose root's slot edge comes no later than `j`, keeps the slot edges of
      non-root leaders merged and no earlier than their root's. */
  lemma RootedOrder(ls: seq<nat>, lc: seq<nat>, lc': seq<nat>, es: seq<Edge>, slots: seq<nat>, done: seq<nat>,
                    rt: seq<nat>, rt': seq<nat>, s: nat, o: nat, j: nat)
    requires |slots| == |ls| && Rooted(ls, lc, es, slots, done, rt)
    requires s < |ls| && o < |ls| && j < |es| && lc[s] != lc[o]
    requires slots[s] == j && rt[s] == s && slots[rt[o]] < |es| && KeyLe(es, slots[rt[o]], j)
    requires |rt'| == |ls| && |lc'| == |ls|
    requires forall x :: 0 <= x < |ls| ==> rt'[x] == if lc[x] == lc[s] || lc[x] == lc[o] then rt[o] else rt[x]
    ensures forall c :: 0 <= c < |ls| && ls[c] == c && rt'[c] != c ==>
      slots[c] < |es| && slots[c] in done + [j] && slots[rt'[c]] < |es| && KeyLe(es, slots[rt'[c]], slots[c])
  {
    forall c | 0 <= c < |ls| && ls[c] == c && rt'[c] != c
      ensures slots[c] < |es| && slots[c] in done + [j] && slots[rt'[c]] < |es| && KeyLe(es, slots[rt'[c]], slots[c])
    {
      if lc[c] == lc[s] {
        assert rt[c] == s;
        if c != s {
          KeyLeTotalOrder(es, slots[rt[o]], j, slots[c]);
        }
      } else if lc[c] == lc[o] {
        assert rt[c] == rt[o];
      }
    }
  }

  /** The slot edge of the root of `x`'s class comes no later than any edge leaving
      `x`'s component. */
  lemma RootSlotBefore(ls: seq<nat>, lc: seq<nat>, es: seq<Edge>, slots: seq<nat>, done: seq<nat>, rt: seq<nat>, x: nat, j: nat)
    requires EdgesWithin(es, |ls|) && LeaderMap(ls) && SlotsCheapest(ls, es, slots)
    requires Rooted(ls, lc, es, slots, done, rt)
    requires x < |ls| && ls[x] == x && j < |es| && Leaves(ls, es, j, x)
    ensures slots[rt[x]] < |es| && KeyLe(es, slots[rt[x]], j)
  {
    assert HasExit(ls, es, x);
    if rt[x] != x {
      KeyLeTotalOrder(es, slots[rt[x]], slots[x], j);
    }
  }

  lemma RefinesTrans(ls: seq<nat>, ms: seq<nat>, ns: seq<nat>)
    requires Refines(ls, ms) && Refines(ms, ns)
    ensures Refines(ls, ns)
  {
  }

  /** Merging along distinct selected edges, in any order, accepts every one of them. */
  lemma {:induction false} SelectedAllMerge(ls: seq<nat>, es: seq<Edge>, slots: seq<nat>, order: seq<nat>)
    returns (rt: seq<nat>)
    requires EdgesWithin(es, |ls|) && LeaderMap(ls) && SlotsCheapest(ls, es, slots)
    requires IndicesBelow(order, |es|) && Distinct(order)
    requires forall t :: 0 <= t < |order| ==> Selected(ls, es, slots, order[t])
    ensures MergeAlong(ls, es, order).accepted == order
    ensures Rooted(ls, MergeAlong(ls, es, order).leaders, es, slots, order, rt)
    decreases |order|
  {
    if order == [] {
      RootedStart(ls, es, slots);
      rt := ls;
    } else {
      var m := |order| - 1;
      var init, j := order[..m], order[m];
      assert order == init + [j];
      assert j !in init by {
        forall t | 0 <= t < m
          ensures init[t] != j
        {
          assert init[t] == order[t];
        }
      }
      var rt0 := SelectedAllMerge(ls, es, slots, init);
      MergeAlongStep(ls, es, init, j);
      rt := RootedStep(ls, MergeAlong(ls, es, init).leaders, es, slots, init, rt0, j);
    }
  }

  /** A non-empty `c` is its front followed by its last index, also after `a`. */
  lemma SplitLast(a: seq<nat>, c: seq<nat>)
    requires c != []
    ensures c == c[..|c| - 1] + [c[|c| - 1]]
    ensures a + c == (a + c[..|c| - 1]) + [c[|c| - 1]]
  {
    assert c == c[..|c| - 1] + [c[|c| - 1]];
  }

  /** Appending one index after two lists does not depend on the grouping. */
  lemma AppendAssoc(x: seq<nat>, y: seq<nat>, j: nat)
    ensures (x + y) + [j] == x + (y + [j])
  {
  }

  /** Merging along `a` and then along `c` is merging along `a + c`. */
  lemma {:induction false} MergeAlongConcat(ls: seq<nat>, es: seq<Edge>, a: seq<nat>, c: seq<nat>)
    requires EdgesWithin(es, |ls|) && IndicesBelow(a, |es|) && IndicesBelow(c, |es|)
    ensures IndicesBelow(a + c, |es|)
    ensures var p := MergeAlong(ls, es, a);
      var q := MergeAlong(p.leaders, es, c);
      MergeAlong(ls, es, a + c) == Run(q.leaders, p.accepted + q.accepted)
    decreases |c|
  {
    var p := MergeAlong(ls, es, a);
    if c == [] {
      assert a + c == a && p.accepted + [] == p.accepted;
    } else {
      var c0, j := c[..|c| - 1], c[|c| - 1];
      MergeAlongConcat(ls, es, a, c0);
      SplitLast(a, c);
      MergeAlongStep(ls, es, a + c0, j);
      MergeAlongStep(p.leaders, es, c0, j);
      var q0 := MergeAlong(p.leaders, es, c0);
      AppendAssoc(p.accepted, q0.accepted, j);
    }
  }

  // ---------------------------------------------------------------------------
  // Partitions that differ only in their leaders

  /** `ls` and `ms` put the same vertices together, whatever vertices lead the classes. */
  ghost predicate SamePartition(ls: seq<nat>, ms: seq<nat>) {
    && |ls| == |ms|
    && forall x, y :: 0 <= x < |ls| && 0 <= y < |ls| ==> (ls[x] == ls[y] <==> ms[x] == ms[y])
  }

  /** Which edges are chosen, and whether any edge joins two classes, depends on the
      partition only, not on the vertices that lead its classes. */
  lemma ChosenSamePartition(ls: seq<nat>, ms: seq<nat>, es: seq<Edge>)
    requires EdgesWithin(es, |ls|) && SamePartition(ls, ms)
    ensures forall j :: 0 <= j < |es| ==> (Chosen(ls, es, j) <==> Chosen(ms, es, j))
    ensures Closed(ls, es) <==> Closed(ms, es)
  {
    forall j, c | 0 <= j < |es| && 0 <= c < |ls|
      ensures CheapestOut(ls, es, ls[c], 0, |es|, j) <==> CheapestOut(ms, es, ms[c], 0, |es|, j)
    {
      assert forall i :: 0 <= i < |es| ==> (Leaves(ls, es, i, ls[c]) <==> Leaves(ms, es, i, ms[c]));
    }
  }
}

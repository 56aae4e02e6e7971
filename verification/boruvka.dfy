/**
 The state of a `Boruvka` solver (boruvka_lib/boruvka.cpp) and the four steps of
 one round, each run by a single worker over a range of edge indices or vertex
 ids: register the cheapest edge leaving every component, collect the edges some
 component registered, merge along them, and reset the registrations.

 Every compare-and-swap of the source is a plain assignment here. The slot array
 `chippestEdgeOut` is `cheapest`; a slot holding `|edges|` is empty. Properties of
 the slots are stated against the partition into components given by the
 union-find's leader sequence `ls` (see `UnionFind.Leaders`), which path
 compression leaves unchanged.
 */
module BoruvkaMst {
  import opened Edges
  import opened UnionFind
  import opened Connectivity

  /** The solver's fields; the adjacency list `Graph_`, which nothing reads, is omitted. */
  datatype Boruvka = Boruvka(
    workers: nat,
    vertices: nat,
    edges: seq<Edge>,
    cheapest: seq<nat>,
    mst: seq<Edge>,
    costMst: int,
    dsu: Dsu)

  ghost predicate WellFormed(b: Boruvka) {
    && |b.cheapest| == b.vertices
    && |b.dsu.parent| == b.vertices
    && Valid(b.dsu)
    && EdgesWithin(b.edges, b.vertices)
    && forall v :: 0 <= v < |b.cheapest| ==> b.cheapest[v] <= |b.edges|
  }

  /** The bookkeeping `CalcMST` relies on: the running cost is the cost of the
      built edges, and every built edge removed one component. */
  ghost predicate Accounted(b: Boruvka) {
    b.costMst == CostSum(b.mst) && |b.mst| + b.dsu.components == b.vertices
  }

  predicate SlotsEmpty(b: Boruvka) {
    forall v :: 0 <= v < |b.cheapest| ==> b.cheapest[v] == |b.edges|
  }

  /** The partition into components, one leader per vertex. */
  ghost function Lead(b: Boruvka): seq<nat>
    requires Valid(b.dsu)
  {
    Leaders(b.dsu.parent)
  }

  // ---------------------------------------------------------------------------
  // Edges leaving a component

  /** Edge `i` joins two different components. */
  ghost predicate Crossing(ls: seq<nat>, es: seq<Edge>, i: nat)
    requires EdgesWithin(es, |ls|) && i < |es|
  {
    ls[es[i].from] != ls[es[i].to]
  }

  /** Edge `i` leaves the component led by `c`. */
  ghost predicate Leaves(ls: seq<nat>, es: seq<Edge>, i: nat, c: nat)
    requires EdgesWithin(es, |ls|) && i < |es|
  {
    Crossing(ls, es, i) && (ls[es[i].from] == c || ls[es[i].to] == c)
  }

  /** `k` is a cheapest edge of `[lo, hi)` leaving the component led by `c`, and the
      last one among those of equal cost. */
  ghost predicate CheapestOut(ls: seq<nat>, es: seq<Edge>, c: nat, lo: nat, hi: nat, k: nat)
    requires EdgesWithin(es, |ls|)
  {
    && lo <= k < hi && k < |es| && Leaves(ls, es, k, c)
    && forall j :: lo <= j < hi && j < |es| && Leaves(ls, es, j, c) ==>
         es[k].cost < es[j].cost || (es[k].cost == es[j].cost && j <= k)
  }

  /** Some edge leaves the component led by `c`. */
  ghost predicate HasExit(ls: seq<nat>, es: seq<Edge>, c: nat)
    requires EdgesWithin(es, |ls|)
  {
    exists j :: 0 <= j < |es| && Leaves(ls, es, j, c)
  }

  /** Edge `j` would replace the registration `s0` of leader `c`. */
  ghost predicate Challenges(ls: seq<nat>, es: seq<Edge>, s0: nat, c: nat, j: nat)
    requires EdgesWithin(es, |ls|) && s0 <= |es| && j < |es|
  {
    Leaves(ls, es, j, c) && (s0 == |es| || es[j].cost <= es[s0].cost)
  }

  ghost predicate Challenged(ls: seq<nat>, es: seq<Edge>, s0: nat, c: nat, lo: nat, hi: nat)
    requires EdgesWithin(es, |ls|) && s0 <= |es|
  {
    exists j :: lo <= j < hi && j < |es| && Challenges(ls, es, s0, c, j)
  }

  /** The slot of leader `c`, holding `s0` before the edges of `[lo, hi)` were
      registered, holds `s` afterwards: the cheapest leaving edge of the range if
      any of them would displace `s0`, and `s0` otherwise. */
  ghost predicate SlotAfter(ls: seq<nat>, es: seq<Edge>, s0: nat, s: nat, c: nat, lo: nat, hi: nat)
    requires EdgesWithin(es, |ls|) && s0 <= |es|
  {
    if Challenged(ls, es, s0, c, lo, hi) then CheapestOut(ls, es, c, lo, hi, s) else s == s0
  }

  /** Registering edge `i` on the slot `s` of leader `c` gives `s'`. */
  ghost predicate Registered(ls: seq<nat>, es: seq<Edge>, s: nat, s': nat, c: nat, i: nat)
    requires EdgesWithin(es, |ls|) && s <= |es| && i < |es|
  {
    if Leaves(ls, es, i, c) && (s == |es| || es[i].cost <= es[s].cost) then s' == i else s' == s
  }

  /** One more registered edge extends the range a slot summarizes by one. */
  lemma SlotStep(ls: seq<nat>, es: seq<Edge>, s0: nat, s: nat, s': nat, c: nat, lo: nat, i: nat)
    requires EdgesWithin(es, |ls|) && lo <= i < |es| && s0 <= |es| && s <= |es|
    requires SlotAfter(ls, es, s0, s, c, lo, i)
    requires Registered(ls, es, s, s', c, i)
    ensures SlotAfter(ls, es, s0, s', c, lo, i + 1)
  {
    if Challenged(ls, es, s0, c, lo, i) {
      var j :| lo <= j < i && j < |es| && Challenges(ls, es, s0, c, j);
      assert lo <= j < i + 1 && Challenges(ls, es, s0, c, j);
      if Leaves(ls, es, i, c) && es[i].cost <= es[s].cost {
        assert CheapestOut(ls, es, c, lo, i + 1, i);
      } else {
        assert CheapestOut(ls, es, c, lo, i + 1, s);
      }
    } else if Challenges(ls, es, s0, c, i) {
      assert s == s0 && s' == i;
      forall j | lo <= j < i + 1 && j < |es| && Leaves(ls, es, j, c)
        ensures es[i].cost < es[j].cost || (es[i].cost == es[j].cost && j <= i)
      {
        if j < i {
          assert !Challenges(ls, es, s0, c, j);
        }
      }
      assert CheapestOut(ls, es, c, lo, i + 1, i);
    } else {
      forall j | lo <= j < i + 1 && j < |es|
        ensures !Challenges(ls, es, s0, c, j)
      {
      }
    }
  }

  /** Registering `[lo, mid)` and then `[mid, hi)` on an empty slot is registering `[lo, hi)`. */
  lemma SlotCompose(ls: seq<nat>, es: seq<Edge>, s1: nat, s2: nat, c: nat, lo: nat, mid: nat, hi: nat)
    requires EdgesWithin(es, |ls|) && lo <= mid <= hi && s1 <= |es|
    requires SlotAfter(ls, es, |es|, s1, c, lo, mid)
    requires SlotAfter(ls, es, s1, s2, c, mid, hi)
    ensures SlotAfter(ls, es, |es|, s2, c, lo, hi)
  {
    if Challenged(ls, es, |es|, c, lo, mid) {
      var j :| lo <= j < mid && j < |es| && Challenges(ls, es, |es|, c, j);
      assert lo <= j < hi && Challenges(ls, es, |es|, c, j);
      if Challenged(ls, es, s1, c, mid, hi) {
        var j2 :| mid <= j2 < hi && j2 < |es| && Challenges(ls, es, s1, c, j2);
        assert CheapestOut(ls, es, c, mid, hi, s2);
        assert es[s2].cost <= es[j2].cost <= es[s1].cost;
        assert CheapestOut(ls, es, c, lo, hi, s2);
      } else {
        forall j' | mid <= j' < hi && j' < |es| && Leaves(ls, es, j', c)
          ensures es[s1].cost < es[j'].cost
        {
          assert !Challenges(ls, es, s1, c, j');
        }
        assert CheapestOut(ls, es, c, lo, hi, s2);
      }
    } else {
      assert s1 == |es|;
      forall j' | lo <= j' < mid && j' < |es|
        ensures !Leaves(ls, es, j', c)
      {
        assert !Challenges(ls, es, |es|, c, j');
      }
      if Challenged(ls, es, s1, c, mid, hi) {
        var j2 :| mid <= j2 < hi && j2 < |es| && Challenges(ls, es, s1, c, j2);
        assert lo <= j2 < hi && Challenges(ls, es, |es|, c, j2);
        assert CheapestOut(ls, es, c, lo, hi, s2);
      } else {
        forall j' | lo <= j' < hi && j' < |es|
          ensures !Challenges(ls, es, |es|, c, j')
        {
          if j' >= mid {
            assert !Challenges(ls, es, s1, c, j');
          }
        }
      }
    }
  }

  /** Over the whole edge list, starting from an empty slot: the slot stays empty iff
      no edge leaves the component, and otherwise holds the cheapest leaving edge. */
  lemma SlotAfterAll(ls: seq<nat>, es: seq<Edge>, s: nat, c: nat)
    requires EdgesWithin(es, |ls|)
    requires SlotAfter(ls, es, |es|, s, c, 0, |es|)
    ensures s == |es| <==> forall j :: 0 <= j < |es| ==> !Leaves(ls, es, j, c)
    ensures s != |es| ==> CheapestOut(ls, es, c, 0, |es|, s)
  {
    if !Challenged(ls, es, |es|, c, 0, |es|) {
      forall j | 0 <= j < |es|
        ensures !Leaves(ls, es, j, c)
      {
        assert !Challenges(ls, es, |es|, c, j);
      }
    } else {
      var j :| 0 <= j < |es| && Challenges(ls, es, |es|, c, j);
      assert Leaves(ls, es, j, c);
    }
  }

  // ---------------------------------------------------------------------------
  // The four steps

  /** `SetMinEdge(index, vertex)`: installs `index` in the slot of `vertex` unless the
      slot holds a real edge strictly cheaper than it; answers whether it installed. */
  function SetMinEdge(b: Boruvka, index: nat, vertex: nat): (res: (bool, Boruvka))
    requires WellFormed(b) && index < |b.edges| && vertex < b.vertices
    ensures WellFormed(res.1) && res.1 == b.(cheapest := res.1.cheapest)
    ensures var s := b.cheapest[vertex];
      res.0 <==> s == |b.edges| || b.edges[index].cost <= b.edges[s].cost
    ensures res.1.cheapest[vertex] == if res.0 then index else b.cheapest[vertex]
    ensures forall v :: 0 <= v < b.vertices && v != vertex ==> res.1.cheapest[v] == b.cheapest[v]
  {
    var current := b.cheapest[vertex];
    if current != |b.edges| && Less(b.edges[current], b.edges[index]) then
      (false, b)
    else
      (true, b.(cheapest := b.cheapest[vertex := index]))
  }

  /** The slot update of `SetMinEdge`, on the value of one slot. */
  function Offer(es: seq<Edge>, s: nat, i: nat): nat
    requires s <= |es| && i < |es|
  {
    if s == |es| || es[i].cost <= es[s].cost then i else s
  }

  /** Offering a crossing edge to the slots of its endpoints' two leaders, or not
      offering a non-crossing one, registers it at every leader. */
  lemma RegisteredAll(ls: seq<nat>, es: seq<Edge>, slots: seq<nat>, slots': seq<nat>, i: nat)
    requires EdgesWithin(es, |ls|) && LeaderMap(ls) && i < |es| && |slots| == |ls| && |slots'| == |ls|
    requires forall c :: 0 <= c < |ls| ==> slots[c] <= |es|
    requires Crossing(ls, es, i) ==>
      var a, z := ls[es[i].from], ls[es[i].to];
      && slots'[a] == Offer(es, slots[a], i) && slots'[z] == Offer(es, slots[z], i)
      && forall c :: 0 <= c < |ls| && c != a && c != z ==> slots'[c] == slots[c]
    requires !Crossing(ls, es, i) ==> slots' == slots
    ensures forall c :: 0 <= c < |ls| ==> Registered(ls, es, slots[c], slots'[c], c, i)
  {
  }

  /** One iteration of the loop of `UpdateChippestEdges`: edge `i`, if it joins two
      components, is offered to the slots of both endpoints' leaders. */
  method RegisterEdge(b: Boruvka, i: nat) returns (b': Boruvka)
    requires WellFormed(b) && i < |b.edges|
    ensures WellFormed(b') && b' == b.(cheapest := b'.cheapest, dsu := b'.dsu)
    ensures SameLeaders(b.dsu.parent, b'.dsu.parent) && b'.dsu.components == b.dsu.components
    ensures forall c :: 0 <= c < b.vertices && Lead(b)[c] != c ==> b'.cheapest[c] == b.cheapest[c]
    ensures forall c :: 0 <= c < b.vertices ==>
      Registered(Lead(b), b.edges, b.cheapest[c], b'.cheapest[c], c, i)
  {
    ghost var ls := Lead(b);
    LeadersAreLeaderMap(b.dsu.parent);
    var e := b.edges[i];
    var same, d1 := SameComponent(b.dsu, e.from, e.to);
    b' := b.(dsu := d1);
    if !same {
      var a, d2 := FindLeader(b'.dsu, e.from);
      var (_, c1) := SetMinEdge(b'.(dsu := d2), i, a);
      var z, d3 := FindLeader(c1.dsu, e.to);
      var (_, c2) := SetMinEdge(c1.(dsu := d3), i, z);
      b' := c2;
      assert a == ls[e.from] && z == ls[e.to] && a != z;
      assert b'.cheapest[a] == Offer(b.edges, b.cheapest[a], i);
      RootsAreSelfLed(b.dsu.parent);
    }
    RegisteredAll(ls, b.edges, b.cheapest, b'.cheapest, i);
  }

  /** `UpdateChippestEdges(l, r)`: every edge of `[l, r)` joining two components is
      registered at the leaders of both endpoints. Afterwards the slot of every leader
      summarizes the range (`SlotAfter`); the slots of other vertices and the
      partition are unchanged. */
  method UpdateChippestEdges(b: Boruvka, l: nat, r: nat) returns (b': Boruvka)
    requires WellFormed(b) && (l >= r || r <= |b.edges|)
    ensures WellFormed(b') && b' == b.(cheapest := b'.cheapest, dsu := b'.dsu)
    ensures SameLeaders(b.dsu.parent, b'.dsu.parent) && b'.dsu.components == b.dsu.components
    ensures forall c :: 0 <= c < b.vertices && Lead(b)[c] != c ==> b'.cheapest[c] == b.cheapest[c]
    ensures forall c :: 0 <= c < b.vertices && Lead(b)[c] == c ==>
      SlotAfter(Lead(b), b.edges, b.cheapest[c], b'.cheapest[c], c, l, r)
  {
    var cur := b;
    var i := l;
    while i < r
      invariant RegisterLoop(b, l, i, r, cur)
      decreases r - i
    {
      cur := RegisterNext(b, l, i, r, cur);
      i := i + 1;
    }
    b' := cur;
  }

  /** The state of the `UpdateChippestEdges` loop over `[l, r)` before index `i`: the
      partition is unchanged, and every leader's slot summarizes `[l, i)`. */
  ghost predicate RegisterLoop(b: Boruvka, l: nat, i: nat, r: nat, cur: Boruvka) {
    && WellFormed(b) && (l >= r || r <= |b.edges|) && l <= i && (i <= r || i == l)
    && WellFormed(cur) && cur == b.(cheapest := cur.cheapest, dsu := cur.dsu)
    && SameLeaders(b.dsu.parent, cur.dsu.parent) && cur.dsu.components == b.dsu.components
    && (forall c :: 0 <= c < b.vertices && Lead(b)[c] != c ==> cur.cheapest[c] == b.cheapest[c])
    && (forall c :: 0 <= c < b.vertices && Lead(b)[c] == c ==>
          SlotAfter(Lead(b), b.edges, b.cheapest[c], cur.cheapest[c], c, l, i))
  }

  /** One iteration of the `UpdateChippestEdges` loop: registering edge `i` extends
      every leader's summary to `[l, i + 1)`. */
  method RegisterNext(b: Boruvka, l: nat, i: nat, r: nat, cur: Boruvka) returns (cur': Boruvka)
    requires RegisterLoop(b, l, i, r, cur) && i < r
    ensures RegisterLoop(b, l, i + 1, r, cur')
  {
    ghost var ls := Lead(b);
    cur' := RegisterEdge(cur, i);
    forall c | 0 <= c < b.vertices && ls[c] == c
      ensures SlotAfter(ls, b.edges, b.cheapest[c], cur'.cheapest[c], c, l, i + 1)
    {
      SlotStep(ls, b.edges, b.cheapest[c], cur.cheapest[c], cur'.cheapest[c], c, l, i);
    }
  }

  /** Edge `i` is the registration of the leader of one of its endpoints. */
  ghost predicate Selected(ls: seq<nat>, es: seq<Edge>, slots: seq<nat>, i: nat)
    requires EdgesWithin(es, |ls|) && |slots| == |ls| && i < |es|
  {
    var a, z := ls[es[i].from], ls[es[i].to];
    (a < |slots| && slots[a] == i) || (z < |slots| && slots[z] == i)
  }

  /** Every slot of a leader is empty or holds an edge leaving its component. */
  ghost predicate SlotsSound(ls: seq<nat>, es: seq<Edge>, slots: seq<nat>)
    requires EdgesWithin(es, |ls|)
  {
    && |slots| == |ls|
    && forall c :: 0 <= c < |ls| && ls[c] == c ==>
         slots[c] == |es| || (slots[c] < |es| && Leaves(ls, es, slots[c], c))
  }

  /** A selected edge always joins two components. */
  lemma SelectedIsCrossing(ls: seq<nat>, es: seq<Edge>, slots: seq<nat>, i: nat)
    requires EdgesWithin(es, |ls|) && LeaderMap(ls) && i < |es|
    requires SlotsSound(ls, es, slots) && Selected(ls, es, slots, i)
    ensures Crossing(ls, es, i)
  {
    if slots[ls[es[i].from]] == i {
      assert Leaves(ls, es, i, ls[es[i].from]);
    } else {
      assert Leaves(ls, es, i, ls[es[i].to]);
    }
  }

  /** The selected indices of `[lo, hi)`, in increasing order. */
  ghost function SelectedIn(ls: seq<nat>, es: seq<Edge>, slots: seq<nat>, lo: nat, hi: nat): seq<nat>
    requires EdgesWithin(es, |ls|) && |slots| == |ls| && (lo >= hi || hi <= |es|)
    decreases hi
  {
    if hi <= lo then []
    else SelectedIn(ls, es, slots, lo, hi - 1) + (if Selected(ls, es, slots, hi - 1) then [hi - 1] else [])
  }

  /** One more index of the range adds it to `SelectedIn` iff it is selected. */
  lemma SelectedInStep(ls: seq<nat>, es: seq<Edge>, slots: seq<nat>, lo: nat, hi: nat)
    requires EdgesWithin(es, |ls|) && |slots| == |ls| && lo <= hi < |es|
    ensures Selected(ls, es, slots, hi) ==>
      SelectedIn(ls, es, slots, lo, hi + 1) == SelectedIn(ls, es, slots, lo, hi) + [hi]
    ensures !Selected(ls, es, slots, hi) ==>
      SelectedIn(ls, es, slots, lo, hi + 1) == SelectedIn(ls, es, slots, lo, hi)
  {
    var s := SelectedIn(ls, es, slots, lo, hi);
    assert s + [] == s;
  }

  /** `SelectedIn` lists each selected index of the range once, in increasing order,
      and nothing else. */
  lemma SelectedInSpec(ls: seq<nat>, es: seq<Edge>, slots: seq<nat>, lo: nat, hi: nat)
    requires EdgesWithin(es, |ls|) && |slots| == |ls| && (lo >= hi || hi <= |es|)
    ensures forall t :: 0 <= t < |SelectedIn(ls, es, slots, lo, hi)| ==>
      var k := SelectedIn(ls, es, slots, lo, hi)[t];
      lo <= k < hi && k < |es| && Selected(ls, es, slots, k)
    ensures forall t, u :: 0 <= t < u < |SelectedIn(ls, es, slots, lo, hi)| ==>
      SelectedIn(ls, es, slots, lo, hi)[t] < SelectedIn(ls, es, slots, lo, hi)[u]
    ensures forall j :: lo <= j < hi && j < |es| && Selected(ls, es, slots, j) ==>
      j in SelectedIn(ls, es, slots, lo, hi)
  {
    SelectedInSound(ls, es, slots, lo, hi);
    SelectedInIncreasing(ls, es, slots, lo, hi);
    SelectedInComplete(ls, es, slots, lo, hi);
  }

  /** Every index `SelectedIn` lists is a selected index of the range. */
  lemma {:induction false} SelectedInSound(ls: seq<nat>, es: seq<Edge>, slots: seq<nat>, lo: nat, hi: nat)
    requires EdgesWithin(es, |ls|) && |slots| == |ls| && (lo >= hi || hi <= |es|)
    ensures forall t :: 0 <= t < |SelectedIn(ls, es, slots, lo, hi)| ==>
      var k := SelectedIn(ls, es, slots, lo, hi)[t];
      lo <= k < hi && k < |es| && Selected(ls, es, slots, k)
    decreases hi
  {
    if hi > lo {
      SelectedInSound(ls, es, slots, lo, hi - 1);
      var s := SelectedIn(ls, es, slots, lo, hi - 1);
      var s' := SelectedIn(ls, es, slots, lo, hi);
      assert s' == s + (if Selected(ls, es, slots, hi - 1) then [hi - 1] else []);
      forall t | 0 <= t < |s'|
        ensures lo <= s'[t] < hi && s'[t] < |es| && Selected(ls, es, slots, s'[t])
      {
        if t < |s| {
          assert s'[t] == s[t];
        }
      }
    }
  }

  /** `SelectedIn` lists its indices in increasing order. */
  lemma {:induction false} SelectedInIncreasing(ls: seq<nat>, es: seq<Edge>, slots: seq<nat>, lo: nat, hi: nat)
    requires EdgesWithin(es, |ls|) && |slots| == |ls| && (lo >= hi || hi <= |es|)
    ensures forall t, u :: 0 <= t < u < |SelectedIn(ls, es, slots, lo, hi)| ==>
      SelectedIn(ls, es, slots, lo, hi)[t] < SelectedIn(ls, es, slots, lo, hi)[u]
    decreases hi
  {
    if hi > lo {
      SelectedInIncreasing(ls, es, slots, lo, hi - 1);
      SelectedInSound(ls, es, slots, lo, hi - 1);
      var s := SelectedIn(ls, es, slots, lo, hi - 1);
      var s' := SelectedIn(ls, es, slots, lo, hi);
      assert s' == s + (if Selected(ls, es, slots, hi - 1) then [hi - 1] else []);
      forall t, u | 0 <= t < u < |s'|
        ensures s'[t] < s'[u]
      {
        if u < |s| {
          assert s'[t] == s[t] && s'[u] == s[u];
        } else {
          assert s'[t] == s[t];
        }
      }
    }
  }

  /** `SelectedIn` lists every selected index of the range. */
  lemma {:induction false} SelectedInComplete(ls: seq<nat>, es: seq<Edge>, slots: seq<nat>, lo: nat, hi: nat)
    requires EdgesWithin(es, |ls|) && |slots| == |ls| && (lo >= hi || hi <= |es|)
    ensures forall j :: lo <= j < hi && j < |es| && Selected(ls, es, slots, j) ==>
      j in SelectedIn(ls, es, slots, lo, hi)
    decreases hi
  {
    if hi > lo {
      SelectedInComplete(ls, es, slots, lo, hi - 1);
      var s := SelectedIn(ls, es, slots, lo, hi - 1);
      var s' := SelectedIn(ls, es, slots, lo, hi);
      assert s' == s + (if Selected(ls, es, slots, hi - 1) then [hi - 1] else []);
      forall j | lo <= j < hi && j < |es| && Selected(ls, es, slots, j)
        ensures j in s'
      {
        if j < hi - 1 {
          var t :| 0 <= t < |s| && s[t] == j;
          assert s'[t] == j;
        } else {
          assert s'[|s|] == j;
        }
      }
    }
  }

  /** One iteration of the loop of `FindGoodEdges`: whether edge `i` is the
      registration of the leader of its first endpoint, or else of its second. */
  method IsGoodEdge(b: Boruvka, d: Dsu, i: nat) returns (d': Dsu, good: bool)
    requires WellFormed(b) && i < |b.edges|
    requires Valid(d) && |d.parent| == b.vertices && Leaders(d.parent) == Lead(b)
    ensures Valid(d') && |d'.parent| == b.vertices && d'.components == d.components
    ensures Leaders(d'.parent) == Lead(b)
    ensures good == Selected(Lead(b), b.edges, b.cheapest, i)
  {
    var e := b.edges[i];
    var fromParent, d1 := FindLeader(d, e.from);
    var toParent, d2 := FindLeader(d1, e.to);
    d' := d2;
    if b.cheapest[fromParent] == i {
      return d', true;
    }
    good := b.cheapest[toParent] == i;
  }

  /** `FindGoodEdges(l, r, goodEdges)`: appends to `good` the selected indices of
      `[l, r)` in increasing order (see `SelectedInSpec`). */
  method FindGoodEdges(b: Boruvka, l: nat, r: nat, good: seq<nat>) returns (b': Boruvka, good': seq<nat>)
    requires WellFormed(b) && (l >= r || r <= |b.edges|)
    ensures WellFormed(b') && b' == b.(dsu := b'.dsu)
    ensures SameLeaders(b.dsu.parent, b'.dsu.parent) && b'.dsu.components == b.dsu.components
    ensures good' == good + SelectedIn(Lead(b), b.edges, b.cheapest, l, r)
  {
    var d, added, i := b.dsu, [], l;
    while i < r
      invariant GoodScan(b, d, l, i, r, added) && d.components == b.dsu.components
      decreases r - i
    {
      d, added := CollectGood(b, d, l, i, r, added);
      i := i + 1;
    }
    ScanDone(b, d, l, i, r, added);
    b' := b.(dsu := d);
    good' := good + added;
  }

  /** The state of the `FindGoodEdges` loop over `[l, r)` before index `i`: the
      union-find still gives every vertex its leader, and `added` holds the selected
      indices of `[l, i)`. */
  ghost predicate GoodScan(b: Boruvka, d: Dsu, l: nat, i: nat, r: nat, added: seq<nat>) {
    && WellFormed(b) && l <= i && (if l < r then i <= r <= |b.edges| else i == l)
    && Valid(d) && |d.parent| == b.vertices && Leaders(d.parent) == Lead(b)
    && added == SelectedIn(Lead(b), b.edges, b.cheapest, l, i)
  }

  /** The end of the `FindGoodEdges` loop over `[l, r)`: the union-find still gives every
      vertex its leader, and `added` holds the selected indices of `[l, r)`. */
  ghost predicate ScanEnd(b: Boruvka, d: Dsu, l: nat, r: nat, added: seq<nat>) {
    && WellFormed(b) && (l >= r || r <= |b.edges|)
    && Valid(d) && |d.parent| == b.vertices && Leaders(d.parent) == Lead(b)
    && added == SelectedIn(Lead(b), b.edges, b.cheapest, l, r)
  }

  /** A scan that reached the end of its range has collected the whole range. */
  lemma ScanDone(b: Boruvka, d: Dsu, l: nat, i: nat, r: nat, added: seq<nat>)
    requires GoodScan(b, d, l, i, r, added) && i >= r
    ensures ScanEnd(b, d, l, r, added)
  {
    assert SelectedIn(Lead(b), b.edges, b.cheapest, l, i) == SelectedIn(Lead(b), b.edges, b.cheapest, l, r) == [] || i == r;
  }

  /** One iteration of the `FindGoodEdges` loop: index `i` is appended iff selected. */
  method CollectGood(b: Boruvka, d: Dsu, l: nat, i: nat, r: nat, added: seq<nat>) returns (d': Dsu, added': seq<nat>)
    requires GoodScan(b, d, l, i, r, added) && i < r
    ensures GoodScan(b, d', l, i + 1, r, added') && d'.components == d.components
  {
    var good;
    d', good := IsGoodEdge(b, d, i);
    SelectedInStep(Lead(b), b.edges, b.cheapest, l, i);
    added' := if good then added + [i] else added;
  }

  /** `Unite(edge)`: merges the components of the endpoints; on a merge, the cost is
      added and the edge is appended to the built edges. */
  method Unite(b: Boruvka, e: Edge) returns (b': Boruvka)
    requires WellFormed(b) && e.from < b.vertices && e.to < b.vertices
    ensures WellFormed(b') && b' == b.(dsu := b'.dsu, mst := b'.mst, costMst := b'.costMst)
    ensures var ls := Lead(b);
      ls[e.from] != ls[e.to] ==>
        && b'.mst == b.mst + [e] && b'.costMst == b.costMst + e.cost
        && b'.dsu.components + 1 == b.dsu.components
        && Relinked(b.dsu.parent, b'.dsu.parent, ls[e.from], ls[e.to])
    ensures var ls := Lead(b);
      ls[e.from] == ls[e.to] ==>
        && b'.mst == b.mst && b'.costMst == b.costMst
        && b'.dsu.components == b.dsu.components
        && SameLeaders(b.dsu.parent, b'.dsu.parent)
    ensures Lead(b')[e.from] == Lead(b')[e.to]
    ensures Coarser(b.dsu.parent, b'.dsu.parent)
    ensures Accounted(b) ==> Accounted(b')
  {
    var merged, d := UnionFind.Unite(b.dsu, e.from, e.to);
    if merged {
      CostSumAppend(b.mst, e);
      RelinkedCoarser(b.dsu.parent, d.parent, Lead(b)[e.from], Lead(b)[e.to]);
      b' := b.(dsu := d, mst := b.mst + [e], costMst := b.costMst + e.cost);
    } else {
      SameLeadersCoarser(b.dsu.parent, d.parent);
      b' := b.(dsu := d);
    }
  }

  /** Every index of `idx` is below `n`. */
  ghost predicate IndicesBelow(idx: seq<nat>, n: nat) {
    forall t :: 0 <= t < |idx| ==> idx[t] < n
  }

  /** The edges at the given indices, in order. */
  ghost function Pick(es: seq<Edge>, idx: seq<nat>): (picked: seq<Edge>)
    requires IndicesBelow(idx, |es|)
    ensures |picked| == |idx|
    ensures forall t :: 0 <= t < |idx| ==> picked[t] == es[idx[t]]
  {
    if idx == [] then [] else Pick(es, idx[..|idx| - 1]) + [es[idx[|idx| - 1]]]
  }

  /** Picking one more index appends that edge to the picked edges and its cost to their sum. */
  lemma PickAppend(built: seq<Edge>, es: seq<Edge>, idx: seq<nat>, j: nat)
    requires IndicesBelow(idx, |es|) && j < |es|
    ensures Pick(es, idx + [j]) == Pick(es, idx) + [es[j]]
    ensures built + Pick(es, idx + [j]) == (built + Pick(es, idx)) + [es[j]]
    ensures CostSum(Pick(es, idx + [j])) == CostSum(Pick(es, idx)) + es[j].cost
  {
    assert (idx + [j])[..|idx|] == idx;
    CostSumAppend(Pick(es, idx), es[j]);
  }

  ghost predicate Distinct(idx: seq<nat>) {
    forall t, u :: 0 <= t < u < |idx| ==> idx[t] != idx[u]
  }

  /** None of the edges at the indices `idx` joins two components. */
  ghost predicate Joined(ls: seq<nat>, es: seq<Edge>, idx: seq<nat>)
    requires EdgesWithin(es, |ls|)
  {
    forall t :: 0 <= t < |idx| ==> idx[t] < |es| && !Crossing(ls, es, idx[t])
  }

  /** Merging components never separates two joined vertices. */
  lemma JoinedStaysJoined(ls: seq<nat>, ms: seq<nat>, es: seq<Edge>, idx: seq<nat>)
    requires EdgesWithin(es, |ls|) && Refines(ls, ms) && Joined(ls, es, idx)
    ensures Joined(ms, es, idx)
  {
    forall t | 0 <= t < |idx|
      ensures !Crossing(ms, es, idx[t])
    {
      assert !Crossing(ls, es, idx[t]);
    }
  }

  /** The merges made since the partition was `lb`, now `lc`: the partition was only
      coarsened, and the indices `accepted` are distinct edges that each joined two
      components of `lb` and are inside one component of `lc`. */
  ghost predicate History(lb: seq<nat>, lc: seq<nat>, es: seq<Edge>, accepted: seq<nat>)
    requires EdgesWithin(es, |lb|) && |lc| == |lb|
  {
    && Refines(lb, lc)
    && Distinct(accepted)
    && (forall t :: 0 <= t < |accepted| ==> accepted[t] < |es| && Crossing(lb, es, accepted[t]))
    && Joined(lc, es, accepted)
  }

  /** The classes after merging the class led by `a` into the one led by `b`. */
  function MergeClass(ls: seq<nat>, a: nat, b: nat): (ms: seq<nat>)
    ensures |ms| == |ls|
    ensures forall x :: 0 <= x < |ls| ==> ms[x] == if ls[x] == a then b else ls[x]
  {
    seq(|ls|, x requires 0 <= x < |ls| => if ls[x] == a then b else ls[x])
  }

  /** Merging two classes keeps every class together. */
  lemma MergeClassRefines(ls: seq<nat>, a: nat, b: nat)
    ensures Refines(ls, MergeClass(ls, a, b))
  {
  }

  /** The leaders after a stretch of merges, and the indices of the edges that merged. */
  datatype Run = Run(leaders: seq<nat>, accepted: seq<nat>)

  /** The reference for a stretch of `Unite` calls: starting from the partition `ls`,
      take the edges at the indices `order`, first index first; an edge whose
      endpoints lie in different classes merges them (the class of `from` joins the
      class of `to`) and is accepted, any other edge changes nothing. */
  ghost function MergeAlong(ls: seq<nat>, es: seq<Edge>, order: seq<nat>): (r: Run)
    requires EdgesWithin(es, |ls|) && IndicesBelow(order, |es|)
    ensures |r.leaders| == |ls|
    decreases |order|
  {
    if order == [] then
      Run(ls, [])
    else
      var prev := MergeAlong(ls, es, order[..|order| - 1]);
      var l, e := prev.leaders, es[order[|order| - 1]];
      if l[e.from] != l[e.to] then Run(MergeClass(l, l[e.from], l[e.to]), prev.accepted + [order[|order| - 1]])
      else prev
  }

  /** Taking one more index extends the reference by one merge step. */
  lemma MergeAlongStep(ls: seq<nat>, es: seq<Edge>, order: seq<nat>, j: nat)
    requires EdgesWithin(es, |ls|) && IndicesBelow(order, |es|) && j < |es|
    ensures IndicesBelow(order + [j], |es|)
    ensures var prev, e := MergeAlong(ls, es, order), es[j];
      var l := prev.leaders;
      MergeAlong(ls, es, order + [j]) ==
        if l[e.from] != l[e.to] then Run(MergeClass(l, l[e.from], l[e.to]), prev.accepted + [j]) else prev
  {
    assert (order + [j])[..|order|] == order;
  }

  /** The indices of `s`, last one first. */
  ghost function Reversed(s: seq<nat>): (r: seq<nat>)
    ensures |r| == |s|
    ensures forall t :: 0 <= t < |s| ==> r[t] == s[|s| - 1 - t]
  {
    if s == [] then [] else Reversed(s[1..]) + [s[0]]
  }

  /** Walking one more index back from the end of `s` appends that index. */
  lemma ReversedStep(s: seq<nat>, k: nat)
    requires 0 < k <= |s|
    ensures Reversed(s[k - 1..]) == Reversed(s[k..]) + [s[k - 1]]
  {
    assert s[k - 1..][1..] == s[k..];
  }

  /** One more step of the merge loop, which walks `good` from the end, is one more
      step of the reference. */
  lemma MergeAlongBack(lb: seq<nat>, es: seq<Edge>, good: seq<nat>, k: nat,
                       lc: seq<nat>, acc: seq<nat>, lc': seq<nat>, acc': seq<nat>)
    requires EdgesWithin(es, |lb|) && IndicesBelow(good, |es|) && 0 < k <= |good|
    requires IndicesBelow(Reversed(good[k..]), |es|)
    requires Run(lc, acc) == MergeAlong(lb, es, Reversed(good[k..]))
    requires var e := es[good[k - 1]];
      Run(lc', acc') ==
        if lc[e.from] != lc[e.to] then Run(MergeClass(lc, lc[e.from], lc[e.to]), acc + [good[k - 1]])
        else Run(lc, acc)
    ensures IndicesBelow(Reversed(good[k - 1..]), |es|)
    ensures Run(lc', acc') == MergeAlong(lb, es, Reversed(good[k - 1..]))
  {
    MergeAlongStep(lb, es, Reversed(good[k..]), good[k - 1]);
    ReversedStep(good, k);
  }

  /** Relinking the root `a` under the root `b` merges the class of `a` into that of `b`. */
  lemma RelinkedMerges(p: seq<nat>, q: seq<nat>, a: nat, b: nat)
    requires Acyclic(p) && Acyclic(q) && |p| == |q| && Relinked(p, q, a, b)
    ensures Leaders(q) == MergeClass(Leaders(p), a, b)
  {
  }

  /** `Unite` along edge `j` extends the history, recording `j` iff it merged. */
  lemma HistoryStep(lb: seq<nat>, lc: seq<nat>, lc': seq<nat>, es: seq<Edge>, accepted: seq<nat>, j: nat)
    requires EdgesWithin(es, |lb|) && |lc| == |lb| && |lc'| == |lb| && j < |es|
    requires History(lb, lc, es, accepted) && Refines(lc, lc')
    requires lc'[es[j].from] == lc'[es[j].to]
    ensures History(lb, lc', es, accepted)
    ensures Crossing(lc, es, j) ==> History(lb, lc', es, accepted + [j])
  {
    JoinedStaysJoined(lc, lc', es, accepted);
    var e := es[j];
    if Crossing(lc, es, j) {
      var acc' := accepted + [j];
      forall t, u | 0 <= t < u < |acc'|
        ensures acc'[t] != acc'[u]
      {
        if u == |accepted| {
          assert !Crossing(lc, es, accepted[t]);
        }
      }
      assert Crossing(lb, es, j);
    }
  }

  /** The bookkeeping of the merge loop between `b`, where it started, and `cur`, given
      the indices `accepted` whose `Unite` merged so far: only the union-find and the
      built edges changed, and each accepted edge was appended and removed a component. */
  ghost predicate Booked(b: Boruvka, cur: Boruvka, accepted: seq<nat>) {
    && WellFormed(b) && WellFormed(cur)
    && cur == b.(dsu := cur.dsu, mst := cur.mst, costMst := cur.costMst, cheapest := cur.cheapest)
    && IndicesBelow(accepted, |b.edges|)
    && cur.mst == b.mst + Pick(b.edges, accepted)
    && cur.costMst == b.costMst + CostSum(Pick(b.edges, accepted))
    && |accepted| + cur.dsu.components == b.dsu.components
    && (LeadersReachable(Lead(b), b.mst) ==> LeadersReachable(Lead(cur), cur.mst))
  }

  /** How the partition moved from `lb` to `lc` while the merge loop went through
      `good[k..]`, last index first, accepting `accepted`. */
  ghost predicate Progress(lb: seq<nat>, lc: seq<nat>, es: seq<Edge>, accepted: seq<nat>, good: seq<nat>, k: nat)
    requires EdgesWithin(es, |lb|) && |lc| == |lb| && IndicesBelow(good, |es|) && k <= |good|
  {
    && History(lb, lc, es, accepted)
    && (accepted == [] ==> lc == lb)
    && (k == |good| ==> accepted == [])
    && (forall t :: 0 <= t < |accepted| ==> accepted[t] in good[k..])
    && Joined(lc, es, good[k..])
    && (k < |good| && Crossing(lb, es, good[|good| - 1]) ==> |accepted| > 0)
  }

  lemma ProgressStart(lb: seq<nat>, es: seq<Edge>, good: seq<nat>)
    requires EdgesWithin(es, |lb|) && IndicesBelow(good, |es|)
    ensures Progress(lb, lb, es, [], good, |good|)
  {
  }

  /** The merge loop keeps the running cost and the component count consistent. */
  lemma BookedAccounted(b: Boruvka, cur: Boruvka, accepted: seq<nat>)
    requires Booked(b, cur, accepted) && Accounted(b)
    ensures Accounted(cur)
  {
    CostSumConcat(b.mst, Pick(b.edges, accepted));
  }

  /** `Unite` along `good[k - 1]` takes the partition from `lc` to `lc'`. */
  lemma ProgressStep(lb: seq<nat>, lc: seq<nat>, lc': seq<nat>, es: seq<Edge>, accepted: seq<nat>, good: seq<nat>, k: nat)
    requires EdgesWithin(es, |lb|) && |lc| == |lb| && |lc'| == |lb| && IndicesBelow(good, |es|) && 0 < k <= |good|
    requires Progress(lb, lc, es, accepted, good, k)
    requires Refines(lc, lc') && lc'[es[good[k - 1]].from] == lc'[es[good[k - 1]].to]
    requires Crossing(lc, es, good[k - 1]) ==>
      forall x :: 0 <= x < |lc| ==> lc'[x] == if lc[x] == lc[es[good[k - 1]].from] then lc[es[good[k - 1]].to] else lc[x]
    requires !Crossing(lc, es, good[k - 1]) ==> lc' == lc
    ensures Crossing(lc, es, good[k - 1]) ==> Progress(lb, lc', es, accepted + [good[k - 1]], good, k - 1)
    ensures !Crossing(lc, es, good[k - 1]) ==> Progress(lb, lc', es, accepted, good, k - 1)
  {
    var j := good[k - 1];
    HistoryStep(lb, lc, lc', es, accepted, j);
    JoinedStaysJoined(lc, lc', es, good[k..]);
    assert good[k - 1..] == [j] + good[k..];
    if Crossing(lc, es, j) {
      var acc' := accepted + [j];
      forall t | 0 <= t < |acc'|
        ensures acc'[t] in good[k - 1..]
      {
        if t < |accepted| {
          assert accepted[t] in good[k..];
        }
      }
    }
  }

  /** One iteration of the merge loop: `Unite` along edge `good[k - 1]`. */
  method MergeOne(b: Boruvka, good: seq<nat>, k: nat, cur: Boruvka, ghost accepted: seq<nat>)
    returns (cur': Boruvka, ghost accepted': seq<nat>)
    requires Booked(b, cur, accepted) && IndicesBelow(good, |b.edges|) && 0 < k <= |good|
    requires Progress(Lead(b), Lead(cur), b.edges, accepted, good, k)
    ensures Booked(b, cur', accepted')
    ensures Progress(Lead(b), Lead(cur'), b.edges, accepted', good, k - 1)
    ensures var lc, e := Lead(cur), b.edges[good[k - 1]];
      Run(Lead(cur'), accepted') ==
        if lc[e.from] != lc[e.to] then Run(MergeClass(lc, lc[e.from], lc[e.to]), accepted + [good[k - 1]])
        else Run(lc, accepted)
    ensures cur'.cheapest == cur.cheapest
  {
    var j := good[k - 1];
    var e := cur.edges[j];
    ghost var lb, lc := Lead(b), Lead(cur);
    cur' := Unite(cur, e);
    ProgressStep(lb, lc, Lead(cur'), b.edges, accepted, good, k);
    if lc[e.from] != lc[e.to] {
      RelinkedMerges(cur.dsu.parent, cur'.dsu.parent, lc[e.from], lc[e.to]);
      PickAppend(b.mst, b.edges, accepted, j);
      if LeadersReachable(lb, b.mst) {
        ReachableAfterMerge(lc, Lead(cur'), cur.mst, e);
      }
      accepted' := accepted + [j];
    } else {
      accepted' := accepted;
    }
  }

  /** What the merge loop keeps after walking `good[k..]` from the end: the bookkeeping,
      the history, and agreement with the reference. */
  ghost predicate MergeLoop(b: Boruvka, good: seq<nat>, k: nat, cur: Boruvka, accepted: seq<nat>) {
    && k <= |good| && IndicesBelow(good, |b.edges|)
    && Booked(b, cur, accepted)
    && Progress(Lead(b), Lead(cur), b.edges, accepted, good, k)
    && IndicesBelow(Reversed(good[k..]), |b.edges|)
    && Run(Lead(cur), accepted) == MergeAlong(Lead(b), b.edges, Reversed(good[k..]))
    && cur.cheapest == b.cheapest
  }

  /** One pass of the `MergeGoodEdges` loop: merging along `good[k - 1]` keeps the
      loop's facts one position further back. */
  method MergeNext(b: Boruvka, good: seq<nat>, k: nat, cur: Boruvka, ghost accepted: seq<nat>)
    returns (cur': Boruvka, ghost accepted': seq<nat>)
    requires MergeLoop(b, good, k, cur, accepted) && k > 0
    ensures MergeLoop(b, good, k - 1, cur', accepted')
    ensures cur'.edges == cur.edges && cur'.cheapest == cur.cheapest
    ensures cur'.mst == cur.mst || cur'.mst == cur.mst + [b.edges[good[k - 1]]]
  {
    ghost var lc := Lead(cur);
    cur', accepted' := MergeOne(b, good, k, cur, accepted);
    MergeAlongBack(Lead(b), b.edges, good, k, lc, accepted, Lead(cur'), accepted');
    if accepted' != accepted {
      PickAppend(b.mst, b.edges, accepted, good[k - 1]);
    }
  }

  /** The merge loop of `DoWork`: `Unite` along the good edges, last one first.
      `accepted` lists the indices whose `Unite` merged, in the order merged. */
  method MergeGoodEdges(b: Boruvka, good: seq<nat>) returns (b': Boruvka, ghost accepted: seq<nat>)
    requires WellFormed(b) && IndicesBelow(good, |b.edges|)
    ensures Booked(b, b', accepted)
    ensures Progress(Lead(b), Lead(b'), b.edges, accepted, good, 0)
    ensures IndicesBelow(Reversed(good), |b.edges|)
    ensures Run(Lead(b'), accepted) == MergeAlong(Lead(b), b.edges, Reversed(good))
    ensures b'.cheapest == b.cheapest
    ensures Accounted(b) ==> Accounted(b')
  {
    var cur := b;
    accepted := [];
    var k: nat := |good|;
    MergeLoopStart(b, good);
    while k > 0
      invariant MergeLoop(b, good, k, cur, accepted)
    {
      cur, accepted := MergeNext(b, good, k, cur, accepted);
      k := k - 1;
    }
    b' := cur;
    MergeLoopEnd(b, good, b', accepted);
  }

  /** Before the merge loop nothing is merged and no good edge is passed. */
  lemma MergeLoopStart(b: Boruvka, good: seq<nat>)
    requires WellFormed(b) && IndicesBelow(good, |b.edges|)
    ensures MergeLoop(b, good, |good|, b, [])
  {
    assert Pick(b.edges, []) == [];
    ProgressStart(Lead(b), b.edges, good);
    assert good[|good|..] == [];
  }

  /** After the merge loop every good edge is passed, last one first. */
  lemma MergeLoopEnd(b: Boruvka, good: seq<nat>, cur: Boruvka, accepted: seq<nat>)
    requires MergeLoop(b, good, 0, cur, accepted)
    ensures Booked(b, cur, accepted)
    ensures Progress(Lead(b), Lead(cur), b.edges, accepted, good, 0)
    ensures IndicesBelow(Reversed(good), |b.edges|)
    ensures Run(Lead(cur), accepted) == MergeAlong(Lead(b), b.edges, Reversed(good))
    ensures cur.cheapest == b.cheapest
    ensures Accounted(b) ==> Accounted(cur)
  {
    assert good[0..] == good;
    if Accounted(b) {
      BookedAccounted(b, cur, accepted);
    }
  }

  /** `ClearChippestEdgeInfo(l, r)`: empties the slots of `[l, r)` and only those. */
  method ClearChippestEdgeInfo(b: Boruvka, l: nat, r: nat) returns (b': Boruvka)
    requires WellFormed(b) && (l >= r || r <= b.vertices)
    ensures WellFormed(b') && b' == b.(cheapest := b'.cheapest)
    ensures forall v :: 0 <= v < b.vertices ==>
      b'.cheapest[v] == if l <= v < r then |b.edges| else b.cheapest[v]
  {
    var slots := b.cheapest;
    var i := l;
    while i < r
      invariant l <= i && (i <= r || i == l)
      invariant |slots| == |b.cheapest|
      invariant forall v :: 0 <= v < |slots| ==> slots[v] == if l <= v < i then |b.edges| else b.cheapest[v]
    {
      slots := slots[i := |b.edges|];
      i := i + 1;
    }
    b' := b.(cheapest := slots);
  }

  /** The constructor: `n` singleton components, no built edges, cost 0, and every
      slot emptied by `ClearChippestEdgeInfo(0, n)`. */
  method NewBoruvka(edges: seq<Edge>, n: nat, workers: nat) returns (b: Boruvka)
    requires EdgesWithin(edges, n)
    ensures WellFormed(b) && Accounted(b) && SlotsEmpty(b)
    ensures b.edges == edges && b.vertices == n && b.workers == workers
    ensures b.mst == [] && b.costMst == 0 && b.dsu.components == n
    ensures forall v :: 0 <= v < n ==> Lead(b)[v] == v
    ensures LeadersReachable(Lead(b), b.mst)
  {
    var d := NewDsu(n);
    b := Boruvka(workers, n, edges, seq(n, _ => 0), [], 0, d);
    b := ClearChippestEdgeInfo(b, 0, n);
    SingletonsReachable(Lead(b), b.mst);
  }

  /** `GetBuiltMST()`: a copy of the built edges. Its contract only restates, for the
      returned list, the bookkeeping `Accounted(b)` it requires. */
  function GetBuiltMST(b: Boruvka): (built: seq<Edge>)
    requires Accounted(b)
    ensures CostSum(built) == b.costMst
    ensures |built| + b.dsu.components == b.vertices
  {
    b.mst
  }
}

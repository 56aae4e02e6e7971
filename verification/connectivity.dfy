/**
 Connectivity of a vertex set through a list of edges, the notion against which
 the spanning forests built by the Boruvka solver and the reference Kruskal are
 judged. A partition of the vertices is given by a sequence `ls` of leaders:
 `x` and `y` are in one class iff `ls[x] == ls[y]`.
 */
module Connectivity {
  import opened Edges

  predicate Touches(e: Edge, x: nat) {
    e.from == x || e.to == x
  }

  /** The endpoint of `e` opposite to `x`. */
  function Other(e: Edge, x: nat): nat {
    if e.from == x then e.to else e.from
  }

  /** A walk of at most `k` edges of `es` leads from `x` to `y`. */
  ghost predicate WalkWithin(es: seq<Edge>, x: nat, y: nat, k: nat)
    decreases k
  {
    x == y || (k > 0 && exists i :: 0 <= i < |es| && Touches(es[i], x) && WalkWithin(es, Other(es[i], x), y, k - 1))
  }

  ghost predicate Connected(es: seq<Edge>, x: nat, y: nat) {
    exists k: nat :: WalkWithin(es, x, y, k)
  }

  /** No edge joins two different classes of the partition `ls`. */
  ghost predicate Closed(ls: seq<nat>, es: seq<Edge>)
    requires EdgesWithin(es, |ls|)
  {
    forall i :: 0 <= i < |es| ==> ls[es[i].from] == ls[es[i].to]
  }

  /** Every vertex is connected to the leader of its class. */
  ghost predicate LeadersReachable(ls: seq<nat>, es: seq<Edge>) {
    forall x :: 0 <= x < |ls| ==> Connected(es, x, ls[x])
  }

  /** Every edge of `es` is also an edge of `fs`. */
  ghost predicate EdgesAmong(es: seq<Edge>, fs: seq<Edge>) {
    forall i :: 0 <= i < |es| ==> es[i] in fs
  }

  /** All vertices below `n` are connected to each other. */
  ghost predicate AllConnected(es: seq<Edge>, n: nat) {
    forall x :: 0 <= x < n ==> Connected(es, 0, x)
  }

  lemma ConnectedRefl(es: seq<Edge>, x: nat)
    ensures Connected(es, x, x)
  {
    assert WalkWithin(es, x, x, 0);
  }

  lemma EdgeConnects(es: seq<Edge>, i: nat)
    requires i < |es|
    ensures Connected(es, es[i].from, es[i].to) && Connected(es, es[i].to, es[i].from)
  {
    var e := es[i];
    assert WalkWithin(es, e.to, e.to, 0);
    assert Touches(e, e.from) && Other(e, e.from) == e.to;
    assert WalkWithin(es, e.from, e.to, 1);
    assert WalkWithin(es, e.from, e.from, 0);
    assert Touches(e, e.to) && Other(e, e.to) == e.from;
    assert WalkWithin(es, e.to, e.from, 1);
  }

  lemma {:induction false} WalkMoreFuel(es: seq<Edge>, x: nat, y: nat, k: nat, k': nat)
    requires WalkWithin(es, x, y, k) && k <= k'
    ensures WalkWithin(es, x, y, k')
    decreases k
  {
    if x != y {
      var i :| 0 <= i < |es| && Touches(es[i], x) && WalkWithin(es, Other(es[i], x), y, k - 1);
      WalkMoreFuel(es, Other(es[i], x), y, k - 1, k' - 1);
    }
  }

  lemma {:induction false} WalkConcat(es: seq<Edge>, x: nat, y: nat, z: nat, k1: nat, k2: nat)
    requires WalkWithin(es, x, y, k1) && WalkWithin(es, y, z, k2)
    ensures WalkWithin(es, x, z, k1 + k2)
    decreases k1
  {
    if x == y {
      WalkMoreFuel(es, y, z, k2, k1 + k2);
    } else {
      var i :| 0 <= i < |es| && Touches(es[i], x) && WalkWithin(es, Other(es[i], x), y, k1 - 1);
      WalkConcat(es, Other(es[i], x), y, z, k1 - 1, k2);
    }
  }

  lemma ConnectedTrans(es: seq<Edge>, x: nat, y: nat, z: nat)
    requires Connected(es, x, y) && Connected(es, y, z)
    ensures Connected(es, x, z)
  {
    var k1 :| WalkWithin(es, x, y, k1);
    var k2 :| WalkWithin(es, y, z, k2);
    WalkConcat(es, x, y, z, k1, k2);
  }

  lemma {:induction false} WalkReverse(es: seq<Edge>, x: nat, y: nat, k: nat)
    requires WalkWithin(es, x, y, k)
    ensures WalkWithin(es, y, x, k)
    decreases k
  {
    if x != y {
      var i :| 0 <= i < |es| && Touches(es[i], x) && WalkWithin(es, Other(es[i], x), y, k - 1);
      var w := Other(es[i], x);
      WalkReverse(es, w, y, k - 1);
      assert Touches(es[i], w) && Other(es[i], w) == x;
      assert WalkWithin(es, x, x, 0);
      assert WalkWithin(es, w, x, 1);
      WalkConcat(es, y, w, x, k - 1, 1);
    }
  }

  lemma ConnectedSym(es: seq<Edge>, x: nat, y: nat)
    requires Connected(es, x, y)
    ensures Connected(es, y, x)
  {
    var k :| WalkWithin(es, x, y, k);
    WalkReverse(es, x, y, k);
  }

  /** A walk never leaves a class of a partition that no edge crosses. */
  lemma {:induction false} WalkStaysInClass(ls: seq<nat>, es: seq<Edge>, x: nat, y: nat, k: nat)
    requires EdgesWithin(es, |ls|) && Closed(ls, es) && x < |ls| && y < |ls|
    requires WalkWithin(es, x, y, k)
    ensures ls[x] == ls[y]
    decreases k
  {
    if x != y {
      var i :| 0 <= i < |es| && Touches(es[i], x) && WalkWithin(es, Other(es[i], x), y, k - 1);
      WalkStaysInClass(ls, es, Other(es[i], x), y, k - 1);
    }
  }

  /** A walk through `es` is a walk through any list holding every edge of `es`. */
  lemma {:induction false} WalkTransfer(es: seq<Edge>, fs: seq<Edge>, x: nat, y: nat, k: nat)
    requires EdgesAmong(es, fs)
    requires WalkWithin(es, x, y, k)
    ensures WalkWithin(fs, x, y, k)
    decreases k
  {
    if x != y {
      var i :| 0 <= i < |es| && Touches(es[i], x) && WalkWithin(es, Other(es[i], x), y, k - 1);
      WalkTransfer(es, fs, Other(es[i], x), y, k - 1);
      var j :| 0 <= j < |fs| && fs[j] == es[i];
      assert Touches(fs[j], x) && WalkWithin(fs, Other(fs[j], x), y, k - 1);
    }
  }

  /** Two lists with the same edges (in any order and multiplicity) connect the same pairs. */
  lemma ConnectedSameEdges(es: seq<Edge>, fs: seq<Edge>, x: nat, y: nat)
    requires multiset(es) == multiset(fs)
    ensures Connected(es, x, y) <==> Connected(fs, x, y)
  {
    forall i | 0 <= i < |es|
      ensures es[i] in fs
    {
      assert es[i] in multiset(es);
    }
    forall i | 0 <= i < |fs|
      ensures fs[i] in es
    {
      assert fs[i] in multiset(fs);
    }
    if Connected(es, x, y) {
      var k :| WalkWithin(es, x, y, k);
      WalkTransfer(es, fs, x, y, k);
    }
    if Connected(fs, x, y) {
      var k :| WalkWithin(fs, x, y, k);
      WalkTransfer(fs, es, x, y, k);
    }
  }

  /** Partitions start as singletons: every vertex is its own leader. */
  lemma SingletonsReachable(ls: seq<nat>, es: seq<Edge>)
    requires forall x :: 0 <= x < |ls| ==> ls[x] == x
    ensures LeadersReachable(ls, es)
  {
    forall x | 0 <= x < |ls|
      ensures Connected(es, x, ls[x])
    {
      ConnectedRefl(es, x);
    }
  }

  /** Merging the class led by `a = ls[e.from]` into the class led by `b = ls[e.to]`
      along an edge `e` of `es` keeps every vertex connected to its leader. */
  lemma MergeAlongEdge(ls: seq<nat>, ls': seq<nat>, es: seq<Edge>, i: nat)
    requires i < |es| && es[i].from < |ls| && es[i].to < |ls| && |ls'| == |ls|
    requires LeadersReachable(ls, es)
    requires forall x :: 0 <= x < |ls| ==> ls'[x] == if ls[x] == ls[es[i].from] then ls[es[i].to] else ls[x]
    ensures LeadersReachable(ls', es)
  {
    var e := es[i];
    var a, b := ls[e.from], ls[e.to];
    forall x | 0 <= x < |ls'|
      ensures Connected(es, x, ls'[x])
    {
      if ls[x] == a {
        assert Connected(es, x, a);
        ConnectedSym(es, e.from, a);
        ConnectedTrans(es, x, a, e.from);
        EdgeConnects(es, i);
        ConnectedTrans(es, x, e.from, e.to);
        ConnectedTrans(es, x, e.to, b);
      }
    }
  }

  /** Every vertex stays connected to its leader when edges are added. */
  lemma ReachableMoreEdges(ls: seq<nat>, es: seq<Edge>, fs: seq<Edge>)
    requires EdgesAmong(es, fs)
    requires LeadersReachable(ls, es)
    ensures LeadersReachable(ls, fs)
  {
    forall x | 0 <= x < |ls|
      ensures Connected(fs, x, ls[x])
    {
      var k :| WalkWithin(es, x, ls[x], k);
      WalkTransfer(es, fs, x, ls[x], k);
    }
  }

  /** Merging the class of `e.from` into the class of `e.to` and appending `e` to the
      edges keeps every vertex connected to its leader. */
  lemma ReachableAfterMerge(ls: seq<nat>, ls': seq<nat>, es: seq<Edge>, e: Edge)
    requires e.from < |ls| && e.to < |ls| && |ls'| == |ls|
    requires LeadersReachable(ls, es)
    requires forall x :: 0 <= x < |ls| ==> ls'[x] == if ls[x] == ls[e.from] then ls[e.to] else ls[x]
    ensures LeadersReachable(ls', es + [e])
  {
    ReachableMoreEdges(ls, es, es + [e]);
    MergeAlongEdge(ls, ls', es + [e], |es|);
  }

  /** When every vertex is connected to its leader and no edge crosses the partition,
      the classes are exactly the connected components of the graph. */
  lemma ClassesAreComponents(ls: seq<nat>, es: seq<Edge>)
    requires EdgesWithin(es, |ls|) && LeadersReachable(ls, es) && Closed(ls, es)
    ensures forall x, y :: 0 <= x < |ls| && 0 <= y < |ls| ==> (ls[x] == ls[y] <==> Connected(es, x, y))
  {
    forall x, y | 0 <= x < |ls| && 0 <= y < |ls|
      ensures ls[x] == ls[y] <==> Connected(es, x, y)
    {
      if ls[x] == ls[y] {
        assert Connected(es, y, ls[y]);
        ConnectedSym(es, y, ls[y]);
        ConnectedTrans(es, x, ls[x], y);
      }
      if Connected(es, x, y) {
        var k :| WalkWithin(es, x, y, k);
        WalkStaysInClass(ls, es, x, y, k);
      }
    }
  }

  /** Edges `ms` taken from `es` that connect every vertex to its leader, for a
      partition no edge of `es` crosses, connect exactly the pairs `es` connects. */
  lemma SubgraphSpans(ls: seq<nat>, ms: seq<Edge>, es: seq<Edge>)
    requires EdgesWithin(es, |ls|) && EdgesAmong(ms, es)
    requires LeadersReachable(ls, ms) && Closed(ls, es)
    ensures forall x, y :: 0 <= x < |ls| && 0 <= y < |ls| ==> (ls[x] == ls[y] <==> Connected(es, x, y))
    ensures forall x, y :: 0 <= x < |ls| && 0 <= y < |ls| ==> (Connected(ms, x, y) <==> Connected(es, x, y))
  {
    ReachableMoreEdges(ls, ms, es);
    ClassesAreComponents(ls, es);
    forall x, y | 0 <= x < |ls| && 0 <= y < |ls|
      ensures Connected(ms, x, y) <==> Connected(es, x, y)
    {
      if Connected(ms, x, y) {
        var k :| WalkWithin(ms, x, y, k);
        WalkTransfer(ms, es, x, y, k);
      }
      if Connected(es, x, y) {
        assert ls[x] == ls[y];
        assert Connected(ms, y, ls[y]);
        ConnectedSym(ms, y, ls[y]);
        ConnectedTrans(ms, x, ls[x], y);
      }
    }
  }
}

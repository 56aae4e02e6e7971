/**
 The union-find of boruvka_lib/parallel_dsu.cpp, run by a single worker.

 `Parent_` is a sequence of vertex ids and `CurrentComponents_` a counter. With
 one worker every `compare_exchange_weak` succeeds on its first attempt, so the
 retry loop of `Unite` runs once and is a plain assignment.

 The source keeps no rank. Termination of the recursive `FindLeader` rests on
 the ghost invariant `Acyclic`: from every vertex the parent pointers reach a
 root (a vertex that is its own parent) in finitely many steps. `Root` and
 `Depth` are the reference definitions the operations are specified against.
 */
module UnionFind {

  datatype Dsu = Dsu(parent: seq<nat>, components: nat)

  ghost predicate InRange(p: seq<nat>) {
    forall v :: 0 <= v < |p| ==> p[v] < |p|
  }

  /** Following parent pointers from `v`, a root is met within `k` steps. */
  ghost predicate ReachesRoot(p: seq<nat>, v: nat, k: nat)
    requires InRange(p) && v < |p|
    decreases k
  {
    p[v] == v || (k > 0 && ReachesRoot(p, p[v], k - 1))
  }

  ghost function RootWithin(p: seq<nat>, v: nat, k: nat): (r: nat)
    requires InRange(p) && v < |p| && ReachesRoot(p, v, k)
    ensures r < |p| && p[r] == r
    decreases k
  {
    if p[v] == v then v else RootWithin(p, p[v], k - 1)
  }

  ghost function DepthWithin(p: seq<nat>, v: nat, k: nat): nat
    requires InRange(p) && v < |p| && ReachesRoot(p, v, k)
    decreases k
  {
    if p[v] == v then 0 else 1 + DepthWithin(p, p[v], k - 1)
  }

  /** The root met and the number of steps taken do not depend on the fuel. */
  lemma {:induction false} FuelIrrelevant(p: seq<nat>, v: nat, k1: nat, k2: nat)
    requires InRange(p) && v < |p| && ReachesRoot(p, v, k1) && ReachesRoot(p, v, k2)
    ensures RootWithin(p, v, k1) == RootWithin(p, v, k2)
    ensures DepthWithin(p, v, k1) == DepthWithin(p, v, k2)
    decreases k1
  {
    if p[v] != v {
      FuelIrrelevant(p, p[v], k1 - 1, k2 - 1);
    }
  }

  lemma {:induction false} MoreFuel(p: seq<nat>, v: nat, k: nat, k': nat)
    requires InRange(p) && v < |p| && ReachesRoot(p, v, k) && k <= k'
    ensures ReachesRoot(p, v, k')
    decreases k
  {
    if p[v] != v {
      MoreFuel(p, p[v], k - 1, k' - 1);
    }
  }

  ghost predicate HasRoot(p: seq<nat>, v: nat)
    requires InRange(p) && v < |p|
  {
    exists k: nat :: ReachesRoot(p, v, k)
  }

  /** The parent graph has no cycle: every vertex reaches a root. */
  ghost predicate Acyclic(p: seq<nat>) {
    InRange(p) && forall v :: 0 <= v < |p| ==> HasRoot(p, v)
  }

  ghost function Fuel(p: seq<nat>, v: nat): (k: nat)
    requires Acyclic(p) && v < |p|
    ensures ReachesRoot(p, v, k)
  {
    assert HasRoot(p, v);
    var k: nat :| ReachesRoot(p, v, k); k
  }

  /** The root reached from `v`: the leader of `v`'s component. */
  ghost function Root(p: seq<nat>, v: nat): (r: nat)
    requires Acyclic(p) && v < |p|
    ensures r < |p| && p[r] == r
  {
    RootWithin(p, v, Fuel(p, v))
  }

  /** The number of parent steps from `v` to its root. */
  ghost function Depth(p: seq<nat>, v: nat): nat
    requires Acyclic(p) && v < |p|
  {
    DepthWithin(p, v, Fuel(p, v))
  }

  lemma AnyFuel(p: seq<nat>, v: nat, k: nat)
    requires Acyclic(p) && v < |p| && ReachesRoot(p, v, k)
    ensures Root(p, v) == RootWithin(p, v, k) && Depth(p, v) == DepthWithin(p, v, k)
  {
    FuelIrrelevant(p, v, k, Fuel(p, v));
  }

  /** One parent step keeps the root and brings the depth down by one. */
  lemma RootStep(p: seq<nat>, v: nat)
    requires Acyclic(p) && v < |p|
    ensures p[v] == v ==> Root(p, v) == v && Depth(p, v) == 0
    ensures p[v] != v ==> Root(p, p[v]) == Root(p, v) && Depth(p, p[v]) + 1 == Depth(p, v)
  {
    var k := Fuel(p, v);
    if p[v] != v {
      AnyFuel(p, p[v], k - 1);
    }
  }

  /** `v` is a root exactly when it is its own leader. */
  lemma RootIff(p: seq<nat>, v: nat)
    requires Acyclic(p) && v < |p|
    ensures p[v] == v <==> Root(p, v) == v
  {
    RootStep(p, v);
  }

  /** The leader of every vertex, as a sequence: `Leaders(p)[v] == Root(p, v)`
      (`LeaderIsRoot`). */
  ghost function Leaders(p: seq<nat>): (ls: seq<nat>)
    requires Acyclic(p)
    ensures |ls| == |p|
    ensures forall v :: 0 <= v < |p| ==> ls[v] < |p|
  {
    LeadersBelow(p, |p|)
  }

  /** The roots of the vertices below `n`. */
  ghost function LeadersBelow(p: seq<nat>, n: nat): (ls: seq<nat>)
    requires Acyclic(p) && n <= |p|
    ensures |ls| == n
    ensures forall v :: 0 <= v < n ==> ls[v] < |p|
  {
    if n == 0 then [] else LeadersBelow(p, n - 1) + [Root(p, n - 1)]
  }

  lemma {:induction false} LeadersBelowRoot(p: seq<nat>, n: nat, v: nat)
    requires Acyclic(p) && v < n <= |p|
    ensures LeadersBelow(p, n)[v] == Root(p, v)
    decreases n
  {
    if v < n - 1 {
      LeadersBelowRoot(p, n - 1, v);
    }
  }

  lemma LeaderIsRoot(p: seq<nat>, v: nat)
    requires Acyclic(p) && v < |p|
    ensures Leaders(p)[v] == Root(p, v)
  {
    LeadersBelowRoot(p, |p|, v);
  }

  lemma LeadersAreRoots(p: seq<nat>)
    requires Acyclic(p)
    ensures forall v :: 0 <= v < |p| ==> Leaders(p)[v] == Root(p, v)
  {
    forall v | 0 <= v < |p|
      ensures Leaders(p)[v] == Root(p, v)
    {
      LeaderIsRoot(p, v);
    }
  }

  ghost function Roots(p: seq<nat>): set<nat> {
    set v | 0 <= v < |p| && p[v] == v
  }

  /** The component counter equals the number of roots, and the parent graph is acyclic. */
  ghost predicate Valid(d: Dsu) {
    Acyclic(d.parent) && d.components == |Roots(d.parent)|
  }

  /** Two parent arrays over the same vertices that give every vertex the same leader. */
  ghost predicate SameLeaders(p: seq<nat>, q: seq<nat>) {
    Acyclic(p) && Acyclic(q) && Leaders(p) == Leaders(q)
  }

  /** `q` is `p` after the root `a` was pointed at the root `b`: exactly the members of
      `a`'s class change leader, to `b`. */
  ghost predicate Relinked(p: seq<nat>, q: seq<nat>, a: nat, b: nat)
    requires Acyclic(p) && Acyclic(q) && |p| == |q|
  {
    forall x :: 0 <= x < |p| ==> Leaders(q)[x] == if Leaders(p)[x] == a then b else Leaders(p)[x]
  }

  lemma SameLeadersSameRoots(p: seq<nat>, q: seq<nat>)
    requires SameLeaders(p, q)
    ensures Roots(p) == Roots(q)
  {
    LeadersAreRoots(p);
    LeadersAreRoots(q);
    forall v | 0 <= v < |p|
      ensures p[v] == v <==> q[v] == v
    {
      RootIff(p, v);
      RootIff(q, v);
    }
  }

  // ---------------------------------------------------------------------------
  // Path compression

  /** Pointing `v` straight at its root keeps every vertex reaching the same root,
      within no more steps than before. */
  lemma {:induction false} CompressPoint(p: seq<nat>, v: nat, x: nat)
    requires Acyclic(p) && v < |p| && x < |p|
    ensures InRange(p[v := Root(p, v)])
    ensures ReachesRoot(p[v := Root(p, v)], x, Depth(p, x))
    ensures RootWithin(p[v := Root(p, v)], x, Depth(p, x)) == Root(p, x)
    decreases Depth(p, x)
  {
    var r := Root(p, v);
    var q := p[v := r];
    RootStep(p, x);
    RootStep(p, v);
    if x == v {
      if p[v] != v {
        assert q[r] == r;
        assert ReachesRoot(q, r, 0);
        assert ReachesRoot(q, v, 1);
        MoreFuel(q, v, 1, Depth(p, x));
        FuelIrrelevant(q, v, 1, Depth(p, x));
      }
    } else if p[x] != x {
      CompressPoint(p, v, p[x]);
      assert q[x] == p[x];
    }
  }

  lemma CompressPreserves(p: seq<nat>, v: nat)
    requires Acyclic(p) && v < |p|
    ensures SameLeaders(p, p[v := Root(p, v)])
    ensures Roots(p[v := Root(p, v)]) == Roots(p)
  {
    var q := p[v := Root(p, v)];
    forall x | 0 <= x < |q|
      ensures HasRoot(q, x)
    {
      CompressPoint(p, v, x);
    }
    assert Acyclic(q);
    forall x | 0 <= x < |q|
      ensures Root(q, x) == Root(p, x)
    {
      CompressPoint(p, v, x);
      AnyFuel(q, x, Depth(p, x));
    }
    LeadersAreRoots(p);
    LeadersAreRoots(q);
    assert Leaders(p) == Leaders(q);
    SameLeadersSameRoots(p, q);
  }

  // ---------------------------------------------------------------------------
  // Linking two roots

  lemma {:induction false} LinkPoint(p: seq<nat>, a: nat, b: nat, x: nat)
    requires Acyclic(p) && a < |p| && b < |p| && p[a] == a && p[b] == b && a != b && x < |p|
    ensures InRange(p[a := b])
    ensures ReachesRoot(p[a := b], x, Depth(p, x) + 1)
    ensures RootWithin(p[a := b], x, Depth(p, x) + 1) == if Root(p, x) == a then b else Root(p, x)
    decreases Depth(p, x)
  {
    var q := p[a := b];
    RootStep(p, x);
    if x == a {
      assert ReachesRoot(q, b, 0);
    } else if p[x] == x {
      assert ReachesRoot(q, x, 0);
    } else {
      LinkPoint(p, a, b, p[x]);
      assert q[x] == p[x];
    }
  }

  lemma LinkPreserves(p: seq<nat>, a: nat, b: nat)
    requires Acyclic(p) && a < |p| && b < |p| && p[a] == a && p[b] == b && a != b
    ensures Acyclic(p[a := b])
    ensures Relinked(p, p[a := b], a, b)
    ensures Roots(p[a := b]) == Roots(p) - {a}
    ensures |Roots(p[a := b])| == |Roots(p)| - 1
  {
    var q := p[a := b];
    forall x | 0 <= x < |q|
      ensures HasRoot(q, x)
    {
      LinkPoint(p, a, b, x);
    }
    assert Acyclic(q);
    forall x | 0 <= x < |q|
      ensures Root(q, x) == if Root(p, x) == a then b else Root(p, x)
    {
      LinkPoint(p, a, b, x);
      AnyFuel(q, x, Depth(p, x) + 1);
    }
    LeadersAreRoots(p);
    LeadersAreRoots(q);
    assert Roots(q) == Roots(p) - {a};
  }

  // ---------------------------------------------------------------------------
  // Operations

  /** The vertex ids below `n`. */
  ghost function Range(n: nat): (s: set<nat>)
    ensures |s| == n
    ensures forall v: nat :: v in s <==> v < n
  {
    if n == 0 then {} else Range(n - 1) + {n - 1}
  }

  /** The constructor `ParallelDsu(n)` followed by `ToIdPermutation(n)`: `Parent_` is
      value-initialised to zeros, then every vertex is made its own parent. */
  method NewDsu(n: nat) returns (d: Dsu)
    ensures Valid(d) && |d.parent| == n && d.components == n
    ensures forall v :: 0 <= v < n ==> d.parent[v] == v
    ensures forall v :: 0 <= v < n ==> Leaders(d.parent)[v] == v
  {
    var parent: seq<nat> := seq(n, _ => 0);
    var i := 0;
    while i < n
      invariant 0 <= i <= n && |parent| == n
      invariant forall v :: 0 <= v < i ==> parent[v] == v
    {
      parent := parent[i := i];
      i := i + 1;
    }
    forall v | 0 <= v < n
      ensures HasRoot(parent, v)
    {
      assert ReachesRoot(parent, v, 0);
    }
    assert Acyclic(parent);
    forall v | 0 <= v < n
      ensures Root(parent, v) == v
    {
      RootStep(parent, v);
    }
    assert Roots(parent) == Range(n);
    LeadersAreRoots(parent);
    d := Dsu(parent, n);
  }

  /** `FindLeader(v)`: the leader of `v`, with every vertex on the way pointed at it. */
  method FindLeader(d: Dsu, v: nat) returns (r: nat, d': Dsu)
    requires Valid(d) && v < |d.parent|
    ensures Valid(d') && |d'.parent| == |d.parent| && d'.components == d.components
    ensures r == Leaders(d.parent)[v]
    ensures d'.parent[r] == r
    ensures d'.parent[v] == r
    ensures SameLeaders(d.parent, d'.parent)
    decreases Depth(d.parent, v)
  {
    var current := d.parent[v];
    RootStep(d.parent, v);
    LeaderIsRoot(d.parent, v);
    if current == v {
      return v, d;
    }
    LeaderIsRoot(d.parent, current);
    var d1;
    r, d1 := FindLeader(d, current);
    LeaderIsRoot(d1.parent, v);
    CompressPreserves(d1.parent, v);
    d' := Dsu(d1.parent[v := r], d1.components);
  }

  /** `Unite(u, v)`: false when `u` and `v` already share a leader; otherwise the leader
      of `u` is pointed at the leader of `v` and the counter drops by one. */
  method Unite(d: Dsu, u: nat, v: nat) returns (merged: bool, d': Dsu)
    requires Valid(d) && u < |d.parent| && v < |d.parent|
    ensures Valid(d') && |d'.parent| == |d.parent|
    ensures var ls := Leaders(d.parent); merged <==> ls[u] != ls[v]
    ensures var ls := Leaders(d.parent); merged ==>
      && d'.components + 1 == d.components
      && d'.parent[ls[u]] == ls[v]
      && Relinked(d.parent, d'.parent, ls[u], ls[v])
    ensures !merged ==> d'.components == d.components && SameLeaders(d.parent, d'.parent)
    ensures Leaders(d'.parent)[u] == Leaders(d'.parent)[v]
  {
    var ru, d1 := FindLeader(d, u);
    var rv, d2 := FindLeader(d1, v);
    if ru == rv {
      return false, d2;
    }
    RootIff(d1.parent, ru);
    LeaderIsRoot(d1.parent, ru);
    RootIff(d2.parent, ru);
    LeaderIsRoot(d2.parent, ru);
    LinkPreserves(d2.parent, ru, rv);
    merged, d' := true, Dsu(d2.parent[ru := rv], d2.components - 1);
  }

  /** `SameComponent(u, v)`: whether `u` and `v` share a leader; only compresses paths. */
  method SameComponent(d: Dsu, u: nat, v: nat) returns (same: bool, d': Dsu)
    requires Valid(d) && u < |d.parent| && v < |d.parent|
    ensures Valid(d') && |d'.parent| == |d.parent| && d'.components == d.components
    ensures same <==> Leaders(d.parent)[u] == Leaders(d.parent)[v]
    ensures same <==> Leaders(d'.parent)[v] == Leaders(d'.parent)[u]
    ensures SameLeaders(d.parent, d'.parent)
  {
    var ru, d1 := FindLeader(d, u);
    var rv, d2 := FindLeader(d1, v);
    same, d' := ru == rv, d2;
  }

  /** `GetComponentsQuantity()`: the number of live components. */
  function GetComponentsQuantity(d: Dsu): (r: nat)
    requires Valid(d)
    ensures r == |Roots(d.parent)|
  {
    d.components
  }

  // ---------------------------------------------------------------------------
  // Properties relating several operations

  /** What `Unite(u, v)` does to the classes: afterwards `x` and `y` share a leader iff
      they did before, or one was with `u` and the other with `v`. */
  lemma UniteMergesClasses(p: seq<nat>, q: seq<nat>, u: nat, v: nat, x: nat, y: nat)
    requires Acyclic(p) && Acyclic(q) && |p| == |q| && u < |p| && v < |p| && x < |p| && y < |p|
    requires var ls := Leaders(p); ls[u] != ls[v] ==> Relinked(p, q, ls[u], ls[v])
    requires var ls := Leaders(p); ls[u] == ls[v] ==> SameLeaders(p, q)
    ensures var ls, lq := Leaders(p), Leaders(q);
      lq[x] == lq[y] <==>
        || ls[x] == ls[y]
        || (ls[x] == ls[u] && ls[y] == ls[v])
        || (ls[x] == ls[v] && ls[y] == ls[u])
  {
    var ls := Leaders(p);
    if ls[u] != ls[v] {
      LeaderOfLeader(p, v);
    }
  }

  /** Every class of the partition `ls` lies inside one class of `ms`. */
  ghost predicate Refines(ls: seq<nat>, ms: seq<nat>) {
    && |ls| == |ms|
    && forall x, y :: 0 <= x < |ls| && 0 <= y < |ls| && ls[x] == ls[y] ==> ms[x] == ms[y]
  }

  /** Classes of `p` were only merged on the way to `q`. */
  ghost predicate Coarser(p: seq<nat>, q: seq<nat>) {
    Acyclic(p) && Acyclic(q) && Refines(Leaders(p), Leaders(q))
  }

  lemma LeaderOfLeader(p: seq<nat>, x: nat)
    requires Acyclic(p) && x < |p|
    ensures Leaders(p)[Leaders(p)[x]] == Leaders(p)[x]
  {
    LeaderIsRoot(p, x);
    LeaderIsRoot(p, Root(p, x));
    RootIff(p, Root(p, x));
  }

  /** A leader sequence maps every vertex to a vertex that leads itself. */
  ghost predicate LeaderMap(ls: seq<nat>) {
    forall x :: 0 <= x < |ls| ==> ls[x] < |ls| && ls[ls[x]] == ls[x]
  }

  lemma LeadersAreLeaderMap(p: seq<nat>)
    requires Acyclic(p)
    ensures LeaderMap(Leaders(p))
  {
    forall x | 0 <= x < |p|
      ensures Leaders(p)[Leaders(p)[x]] == Leaders(p)[x]
    {
      LeaderOfLeader(p, x);
    }
  }

  /** A vertex is a root exactly when it is its own leader. */
  lemma RootsAreSelfLed(p: seq<nat>)
    requires Acyclic(p)
    ensures forall x :: 0 <= x < |p| ==> (p[x] == x <==> Leaders(p)[x] == x)
  {
    forall x | 0 <= x < |p|
      ensures p[x] == x <==> Leaders(p)[x] == x
    {
      LeaderIsRoot(p, x);
      RootIff(p, x);
    }
  }

  lemma CoarserKeepsTogether(p: seq<nat>, q: seq<nat>, x: nat, y: nat)
    requires Coarser(p, q) && x < |p| && y < |p| && Leaders(p)[x] == Leaders(p)[y]
    ensures Leaders(q)[x] == Leaders(q)[y]
  {
  }

  lemma SameLeadersCoarser(p: seq<nat>, q: seq<nat>)
    requires SameLeaders(p, q)
    ensures Coarser(p, q)
  {
  }

  lemma RelinkedCoarser(p: seq<nat>, q: seq<nat>, a: nat, b: nat)
    requires Acyclic(p) && Acyclic(q) && |p| == |q|
    requires Relinked(p, q, a, b)
    ensures Coarser(p, q)
  {
  }

  lemma CoarserTrans(p: seq<nat>, q: seq<nat>, r: seq<nat>)
    requires Coarser(p, q) && Coarser(q, r)
    ensures Coarser(p, r)
  {
  }

  lemma CoarserRefl(p: seq<nat>)
    requires Acyclic(p)
    ensures Coarser(p, p)
  {
  }

  /** Between 1 and `n` live components on a non-empty vertex set, and at most `n` always. */
  lemma ComponentBounds(d: Dsu)
    requires Valid(d)
    ensures d.components <= |d.parent|
    ensures |d.parent| > 0 ==> d.components >= 1
  {
    var p := d.parent;
    assert Roots(p) <= Range(|p|);
    SubsetCard(Roots(p), Range(|p|));
    if |p| > 0 {
      assert Root(p, 0) in Roots(p);
    }
  }

  lemma SubsetCard(a: set<nat>, b: set<nat>)
    requires a <= b
    ensures |a| <= |b|
    decreases b
  {
    if a != {} {
      var x :| x in a;
      SubsetCard(a - {x}, b - {x});
    }
  }

  lemma {:induction false} InjectionCard(a: set<nat>, b: set<nat>, f: nat -> nat)
    requires forall x :: x in a ==> f(x) in b
    requires forall x, y :: x in a && y in a && f(x) == f(y) ==> x == y
    ensures |a| <= |b|
    decreases a
  {
    if a != {} {
      var x :| x in a;
      InjectionCard(a - {x}, b - {f(x)}, f);
    }
  }

  lemma FewerRoots(p: seq<nat>, q: seq<nat>)
    requires Acyclic(p) && Acyclic(q) && |p| == |q|
    requires forall x, y :: 0 <= x < |p| && 0 <= y < |p| ==> (Leaders(p)[x] == Leaders(p)[y] <==> Leaders(q)[x] == Leaders(q)[y])
    ensures |Roots(p)| <= |Roots(q)|
  {
    var lp, lq := Leaders(p), Leaders(q);
    LeadersAreRoots(p);
    LeadersAreRoots(q);
    var f := (x: nat) => if x < |lq| then lq[x] else 0;
    forall r | r in Roots(p)
      ensures f(r) in Roots(q)
    {
      RootIff(q, lq[r]);
    }
    forall r, s | r in Roots(p) && s in Roots(p) && f(r) == f(s)
      ensures r == s
    {
      RootIff(p, r);
      RootIff(p, s);
    }
    InjectionCard(Roots(p), Roots(q), f);
  }

  /** Two union-finds that put the same pairs of vertices together count the same
      number of components. */
  lemma SamePartitionSameCount(d: Dsu, e: Dsu)
    requires Valid(d) && Valid(e) && |d.parent| == |e.parent|
    requires forall x, y :: 0 <= x < |d.parent| && 0 <= y < |d.parent| ==>
      (Leaders(d.parent)[x] == Leaders(d.parent)[y] <==> Leaders(e.parent)[x] == Leaders(e.parent)[y])
    ensures d.components == e.components
  {
    FewerRoots(d.parent, e.parent);
    FewerRoots(e.parent, d.parent);
  }

  /** When all vertices share one leader there is exactly one component. */
  lemma OneClassOneComponent(d: Dsu)
    requires Valid(d) && |d.parent| > 0
    requires forall x :: 0 <= x < |d.parent| ==> Leaders(d.parent)[x] == Leaders(d.parent)[0]
    ensures d.components == 1
  {
    var p := d.parent;
    var r := Root(p, 0);
    forall x | x in Roots(p)
      ensures x == r
    {
      assert 0 <= x < |p| && p[x] == x;
      RootIff(p, x);
      LeaderIsRoot(p, x);
      LeaderIsRoot(p, 0);
    }
    assert Roots(p) == {r};
  }
}

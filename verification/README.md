# Sequential Borůvka minimum spanning forest, its union-find, a Kruskal oracle and trial-division primality

This project models, in Dafny, the single-worker meaning of the parallel Borůvka
library `boruvka_lib` and its companions:

- `UnionFind` (union_find.dfy) is the `ParallelDsu` of `boruvka_lib/parallel_dsu.cpp`:
  a parent array with recursive path compression and a live-component counter.
  Every atomic load, store and compare-and-swap is a plain read or assignment. A
  ghost acyclicity argument (`Acyclic`, `Root`, `Depth`) makes `FindLeader`
  terminate. `Valid` states the invariants that every operation keeps: the parent
  graph is acyclic, and the counter equals the number of roots.
- `Edges` (edge.dfy) is the `Edge` struct of `boruvka_lib/boruvka.h` and
  `operator==`. Edges are ordered by cost only, and the default edge costs
  `COST_MAX` = 2^63 − 1.
- `BoruvkaMst` (boruvka.dfy) is the solver state of `boruvka_lib/boruvka.cpp` and
  the steps one worker runs over a range:
  - `SetMinEdge` and `UpdateChippestEdges` register the cheapest edge leaving
    each component. A slot holding `|edges|` is empty.
  - `FindGoodEdges` collects the edges that some component registered.
  - `Unite` merges along an edge and records it only on a real merge.
  - `ClearChippestEdgeInfo` resets the slots.

  The slot contents are stated against the partition into components,
  independently of how the slots were computed.
- `Blocks` (blocks.dfy) is the block arithmetic of `BoruvkaIteration`: blocks of
  length ⌈m/W⌉, clipped at `m`.
- `BoruvkaRounds` (boruvka_rounds.dfy) is one round of `BoruvkaIteration`/`DoWork`
  with `W` workers run one after the other, phase by phase:
  - every worker registers its block;
  - every worker collects from its block;
  - every worker merges, last collected edge first;
  - every worker resets its vertex block.
- `BoruvkaCalc` (boruvka_calc.dfy) is `CalcMST`: rounds repeat until the component
  count stops changing. The result is a spanning forest of the input graph.
- `MergeOrder` (merge_order.dfy) shows why the order of the merges does not matter.
  An edge a worker collects is exactly an edge that some component chose as its
  cheapest leaving edge (`Chosen`; among equal costs, the highest index). Merging
  along all of them, in any order, accepts every one, because no chosen edge can
  close a cycle. So, with the workers run one after another, a round accepts the
  same set of edges whatever the number of workers.
- `WorkerCount` (worker_count.dfy) runs the `CalcMST` round loop for two instances
  with different worker counts in lockstep, with the workers run one after another.
  Both stop after the same round, with the same edges up to order and the same cost.
  The worker count must be at least 1, because `BoruvkaIteration` divides by it
  (boruvka_lib/boruvka.cpp:126-127).
- `KruskalCheck` (kruskal.dfy) is the reference Kruskal of `tests/KruskalCheck.h`:
  sort by cost, then fold the edges through the union-find. It is compared with
  the Borůvka result.
- `Primality` (primality.dfy) is `is_prime_lib/is_prime.cpp` as written (loop bound
  `x * x < val`). It also holds corrected versions that decide primality exactly.
- `Connectivity` (connectivity.dfy) defines graph connectivity by bounded walks.
  The forest and component properties are stated with it.

## Model

| member | source | states |
|---|---|---|
| `UnionFind.NewDsu` | boruvka_lib/parallel_dsu.cpp:57-63 | the constructor (lines 7-13) via `ToIdPermutation` makes every vertex its own parent and its own leader, with the counter at `n` and the invariants established |
| `UnionFind.FindLeader` | boruvka_lib/parallel_dsu.cpp:15-23 | returns the root reached by following parents from `v`; afterwards that root is still a root and `v` points directly at it; the counter and every vertex's leader are unchanged (path compression is invisible) |
| `UnionFind.Unite` | boruvka_lib/parallel_dsu.cpp:25-43 | returns true exactly when `u` and `v` had different leaders; then `u`'s root now points at `v`'s root, the counter drops by exactly one, and only `u`'s class is relinked to `v`'s leader; otherwise counter and leaders are unchanged; either way `u` and `v` end up together and the invariants hold |
| `UnionFind.SameComponent` | boruvka_lib/parallel_dsu.cpp:45-50 | true exactly when the two leaders coincide, symmetric in `u` and `v`, and leaves counter and leaders unchanged |
| `UnionFind.GetComponentsQuantity` | boruvka_lib/parallel_dsu.cpp:52-54 | the counter it returns equals the number of roots of the parent array |
| `UnionFind.UniteMergesClasses` | boruvka_lib/parallel_dsu.cpp:25-43 | after `Unite(u, v)`, `x` and `y` share a leader iff they did before, or one was in `u`'s class and the other in `v`'s |
| `UnionFind.LinkPreserves` | boruvka_lib/parallel_dsu.cpp:33-35 | pointing one root at another keeps the parent graph acyclic, relinks exactly the first root's class, and removes exactly one root |
| `UnionFind.CompressPreserves` | boruvka_lib/parallel_dsu.cpp:20-21 | storing a vertex's root as its parent changes no vertex's leader and no root |
| `UnionFind.RootStep` | boruvka_lib/parallel_dsu.cpp:16-20 | a self-parented vertex is its own leader; any other vertex has its parent's leader, one step closer |
| `UnionFind.RootsAreSelfLed` | boruvka_lib/parallel_dsu.cpp:17-18 | a vertex is its own parent iff it is its own leader |
| `UnionFind.LeadersAreLeaderMap` | boruvka_lib/parallel_dsu.cpp:15-23 | the leader of a leader is itself |
| `UnionFind.ComponentBounds` | boruvka_lib/parallel_dsu.cpp:7-13 | the counter stays between 1 and `n` for a nonempty vertex set |
| `UnionFind.FewerRoots` | boruvka_lib/parallel_dsu.cpp:25-43 | two parent arrays that induce the same partition have the same number of roots (one direction as a bound) |
| `UnionFind.SamePartitionSameCount` | boruvka_lib/parallel_dsu.cpp:52-54 | two union-finds with the same partition into classes report the same counter |
| `UnionFind.OneClassOneComponent` | tests/test_boruvka_correctness.cpp:16-24 | when every vertex shares vertex 0's leader the counter is 1, which is what `CheckTree` tests |
| `Edges.DefaultEdge` | boruvka_lib/boruvka.h:38-40 | the default edge is `0 → 0` with cost `COST_MAX` (line 24, the int64 maximum), and it is `<` no edge whose cost fits in int64 |
| `Edges.Equal` | boruvka_lib/boruvka.cpp:5-7 | field-wise equality is exactly equality of edges |
| `Edges.LessIsStrictWeakOrder` | boruvka_lib/boruvka.h:42-44 | the cost-only `<` is irreflexive and transitive, edges of equal cost are incomparable, and incomparability is transitive |
| `Edges.EqualCostIncomparable` | boruvka_lib/boruvka.h:42-44 | two edges are mutually incomparable exactly when their costs are equal, whatever their endpoints |
| `Edges.CostSumConcat` | tests/test_boruvka_correctness.cpp:35-41 | the total cost of a concatenation is the sum of the totals |
| `Edges.CostSumPermuted` | tests/test_boruvka_correctness.cpp:35-41 | reordering an edge list does not change its total cost |
| `Blocks.BlocksLongEnough` | boruvka_lib/boruvka.cpp:126-127 | `W` blocks of length ⌈m/W⌉ are at least `m` long together, and nonempty when `m > 0` |
| `Blocks.BlockStep` | boruvka_lib/boruvka.cpp:132-135 | consecutive blocks abut: block `i` runs from the covered prefix up to the next one, and a block whose start exceeds `m` is empty |
| `Blocks.PrefixCoversAll` | boruvka_lib/boruvka.cpp:126-135 | the `W` blocks together reach exactly `m` |
| `Blocks.BlocksCover` | boruvka_lib/boruvka.cpp:126-135 | every index below `m` lies in the block `x / ⌈m/W⌉`, which is one of the `W` workers' |
| `Blocks.BlocksDisjoint` | boruvka_lib/boruvka.cpp:132-135 | no index lies in two different blocks |
| `Blocks.BlocksPartition` | boruvka_lib/boruvka.cpp:126-135 | the blocks partition `[0, m)`: they cover it, are pairwise disjoint, and a block starting at or past `m` ends no later than it starts, so its loop range is empty |
| `BoruvkaMst.SetMinEdge` | boruvka_lib/boruvka.cpp:50-60 | installs `index` (and returns true) iff the slot is empty or its edge is not strictly cheaper; ties replace; no other slot or field changes |
| `BoruvkaMst.SlotStep` | boruvka_lib/boruvka.cpp:50-60 | one more registration extends the range a slot summarizes by one edge |
| `BoruvkaMst.SlotCompose` | boruvka_lib/boruvka.cpp:62-69 | registering `[lo, mid)` then `[mid, hi)` leaves the slot as registering `[lo, hi)` would |
| `BoruvkaMst.SlotAfterAll` | boruvka_lib/boruvka.cpp:62-69 | after a full pass a leader's slot is empty iff no edge leaves its component, and otherwise holds the cheapest leaving edge, the highest index among equal costs |
| `BoruvkaMst.RegisteredAll` | boruvka_lib/boruvka.cpp:63-67 | registering one edge at both endpoint leaders updates every leader's slot as a one-edge registration does |
| `BoruvkaMst.RegisterEdge` | boruvka_lib/boruvka.cpp:63-67 | an edge inside one component is ignored; a crossing edge is offered to both endpoint leaders' slots; leaders, counter and non-leader slots are unchanged |
| `BoruvkaMst.UpdateChippestEdges` | boruvka_lib/boruvka.cpp:62-69 | after scanning `[l, r)` each leader's slot holds the cheapest edge of the range leaving its component (ties to the highest index) if any beats its previous content, else that content |
| `BoruvkaMst.RegisterNext` | boruvka_lib/boruvka.cpp:63-67 | one loop iteration extends every leader's slot summary from `[l, i)` to `[l, i + 1)`, keeping the partition and the non-leader slots |
| `BoruvkaMst.SelectedIsCrossing` | boruvka_lib/boruvka.cpp:78-90 | with sound slots, an edge selected by an endpoint leader's slot joins two different components |
| `BoruvkaMst.SelectedInStep` | boruvka_lib/boruvka.cpp:79-89 | the selected list over `[lo, hi + 1)` extends the one over `[lo, hi)` by `hi` exactly when edge `hi` is selected |
| `BoruvkaMst.SelectedInSpec` | boruvka_lib/boruvka.cpp:78-90 | the collected indices are exactly the selected ones in `[l, r)`, each once, in increasing order |
| `BoruvkaMst.SelectedInSound` | boruvka_lib/boruvka.cpp:82-88 | every collected index lies in `[l, r)` and equals the slot of one endpoint's leader |
| `BoruvkaMst.SelectedInIncreasing` | boruvka_lib/boruvka.cpp:79 | collected indices are strictly increasing, hence each appears once |
| `BoruvkaMst.SelectedInComplete` | boruvka_lib/boruvka.cpp:82-88 | every index of `[l, r)` that an endpoint leader's slot holds is collected |
| `BoruvkaMst.IsGoodEdge` | boruvka_lib/boruvka.cpp:80-88 | decides whether edge `i` is the slot of its `From` leader or of its `To` leader, leaving leaders and counter unchanged |
| `BoruvkaMst.FindGoodEdges` | boruvka_lib/boruvka.cpp:78-90 | appends to `goodEdges` exactly the selected indices of `[l, r)` in order; only path compression changes the state |
| `BoruvkaMst.ScanDone` | boruvka_lib/boruvka.cpp:79 | when the scan index reaches `r`, the indices collected so far are the selected list of all of `[l, r)` |
| `BoruvkaMst.CollectGood` | boruvka_lib/boruvka.cpp:80-88 | one scanned index extends the selected list by that index or by nothing |
| `BoruvkaMst.Unite` | boruvka_lib/boruvka.cpp:71-76 | on a crossing edge appends it to the MST list, adds its cost, and merges exactly its two classes with the counter one lower; otherwise changes nothing visible; preserves "cost = sum of listed costs, listed + components = n" |
| `BoruvkaMst.PickAppend` | boruvka_lib/boruvka.cpp:73-74 | appending an edge index adds that edge to the picked list and its cost to the picked total |
| `BoruvkaMst.JoinedStaysJoined` | boruvka_lib/boruvka.cpp:113-116 | edges whose endpoints share a component still do after further merges |
| `BoruvkaMst.HistoryStep` | boruvka_lib/boruvka.cpp:113-116 | a merge that joins an edge's endpoints extends the record of accepted crossing edges by that edge exactly when it was crossing |
| `BoruvkaMst.ProgressStep` | boruvka_lib/boruvka.cpp:113-116 | popping the last collected index and uniting along it keeps the merge bookkeeping, recording the edge iff it crossed |
| `BoruvkaMst.BookedAccounted` | boruvka_lib/boruvka.cpp:71-76 | the running cost and list stay accounted across any number of recorded merges |
| `BoruvkaMst.MergeOne` | boruvka_lib/boruvka.cpp:114-115 | one pop-and-unite step records the edge iff it merged two classes and leaves the slots alone; the new classes are the old ones with the two endpoint classes merged, or unchanged |
| `BoruvkaMst.MergeClass` | boruvka_lib/parallel_dsu.cpp:33-35 | merging class `a` into class `b` moves exactly the members of `a` to `b` and keeps the length |
| `BoruvkaMst.MergeClassRefines` | boruvka_lib/parallel_dsu.cpp:33-35 | a merge only coarsens the partition: vertices together before are together after |
| `BoruvkaMst.RelinkedMerges` | boruvka_lib/parallel_dsu.cpp:33-35 | pointing root `a` at root `b` gives the leaders of merging class `a` into class `b` |
| `BoruvkaMst.MergeAlongStep` | boruvka_lib/boruvka.cpp:71-76 | the reference run over one more index merges along that edge and accepts it iff its endpoints were in different classes |
| `BoruvkaMst.ReversedStep` | boruvka_lib/boruvka.cpp:113-116 | popping one more index from the back of `goodEdges` appends it to the reversed order |
| `BoruvkaMst.MergeAlongBack` | boruvka_lib/boruvka.cpp:113-116 | one more pop-and-unite step is one more step of the reference run along the reversed list |
| `BoruvkaMst.MergeNext` | boruvka_lib/boruvka.cpp:113-116 | one loop iteration leaves the slots alone, leaves the built list unchanged or appends the popped edge to it, and keeps the cost books, the record of merged edges and the agreement with the reference run along the popped suffix |
| `BoruvkaMst.MergeLoopStart` | boruvka_lib/boruvka.cpp:113 | before the loop nothing is popped, merged or booked |
| `BoruvkaMst.MergeLoopEnd` | boruvka_lib/boruvka.cpp:113-116 | when `goodEdges` is empty the run equals the reference along the whole reversed list and the books are kept |
| `BoruvkaMst.MergeGoodEdges` | boruvka_lib/boruvka.cpp:113-116 | uniting along the collected list from its end joins every collected edge's endpoints, adds exactly the merging edges to the list and cost, keeps the accounting, and equals the reference run (`MergeAlong`) along the reversed list |
| `BoruvkaMst.ClearChippestEdgeInfo` | boruvka_lib/boruvka.cpp:92-96 | slots in `[l, r)` become empty (`|edges|`), every other slot is unchanged |
| `BoruvkaMst.NewBoruvka` | boruvka_lib/boruvka.cpp:15-28 | a fresh solver has every vertex alone, all `n` slots empty (line 27), an empty list and zero cost |
| `BoruvkaMst.GetBuiltMST` | boruvka_lib/boruvka.cpp:45-47 | the built list's cost is the accumulated cost and its length is `n` minus the live components |
| `BoruvkaRounds.BookedCompose` | boruvka_lib/boruvka.cpp:113-116 | recorded merges of two stretches compose into those of both |
| `BoruvkaRounds.HistoryCompose` | boruvka_lib/boruvka.cpp:113-116 | accepted-edge records of two successive stretches compose |
| `BoruvkaRounds.SlotBlockStep` | boruvka_lib/boruvka.cpp:132-133 | a worker's block extends the registered prefix of edges to the next block boundary |
| `BoruvkaRounds.RegisterWorker` | boruvka_lib/boruvka.cpp:105 | worker `w`'s `UpdateChippestEdges` on its edge block extends the registered prefix past that block |
| `BoruvkaRounds.RegisterFrom` | boruvka_lib/boruvka.cpp:128-139 | running the remaining workers' registrations reaches the state after all workers |
| `BoruvkaRounds.RegisterPhase` | boruvka_lib/boruvka.cpp:105-106 | all workers registering their blocks before the first latch is one full registration pass |
| `BoruvkaRounds.RegisterEnd` | boruvka_lib/boruvka.cpp:126-135 | after every worker, each leader's slot summarizes the whole edge range |
| `BoruvkaRounds.GoodsSpec` | boruvka_lib/boruvka.cpp:108-109 | every index a worker collects is selected, and every selected edge is collected by some worker |
| `BoruvkaRounds.SelectPhase` | boruvka_lib/boruvka.cpp:108-110 | each worker's `goodEdges` is the selected list of its edge block; leaders and counter are unchanged |
| `BoruvkaRounds.MergeWorkerPartition` | boruvka_lib/boruvka.cpp:113-116 | after worker `w` merges, all edges collected by workers up to `w` are joined and the accepted record grows by that worker's merges |
| `BoruvkaRounds.BookedClear` | boruvka_lib/boruvka.cpp:119 | resetting slots keeps leaders and the merge record |
| `BoruvkaRounds.ClearedPrefix` | boruvka_lib/boruvka.cpp:119 | clearing a worker's vertex block extends the cleared prefix of slots to the next boundary |
| `BoruvkaRounds.MergeWorker` | boruvka_lib/boruvka.cpp:113-119 | after worker `w`'s merge loop and slot reset, the slots of vertex blocks `0..w` are empty and every edge collected by workers `0..w` lies inside one component; the merge record stays consistent |
| `BoruvkaRounds.MergePhase` | boruvka_lib/boruvka.cpp:112-119 | after all workers merge and clear, every slot is empty, every collected edge is joined, edges were accepted iff some worker collected something, and the result equals the reference run along the workers' lists in phase order |
| `BoruvkaRounds.ReversedSame` | boruvka_lib/boruvka.cpp:113-116 | popping a list from the back visits the same indices, distinct if they were |
| `BoruvkaRounds.ReversedGoods` | boruvka_lib/boruvka.cpp:108-109 | a worker's `goodEdges`, last first, are exactly the selected indices of its edge block, each once |
| `BoruvkaRounds.DistinctSplit` | boruvka_lib/boruvka.cpp:132-133 | distinct indices of an earlier block followed by distinct indices of a later block stay distinct |
| `BoruvkaRounds.SelectedAppend` | boruvka_lib/boruvka.cpp:132-133 | the selected indices below a block start, then those of the block, are the selected indices below its end, each once |
| `BoruvkaRounds.PhaseOrderFacts` | boruvka_lib/boruvka.cpp:112-116 | the merge order of workers `0..w-1` lists every selected index of their edge blocks exactly once, and nothing else |
| `BoruvkaRounds.PhaseOrderStep` | boruvka_lib/boruvka.cpp:113-116 | worker `w`'s merges continue the reference run along the phase order by its own list, last first |
| `BoruvkaRounds.RoundAcceptsChosen` | boruvka_lib/boruvka.cpp:105-119 | with the workers run one after another, merging along all workers' lists accepts exactly the edges some component chose, whatever the number of workers |
| `BoruvkaRounds.MergePhaseEnd` | boruvka_lib/boruvka.cpp:134-135 | the vertex blocks of all workers reset every slot |
| `BoruvkaRounds.SlotsAfterRegistering` | boruvka_lib/boruvka.cpp:62-69 | after a full pass every occupied slot holds a crossing edge, every component with a leaving edge holds its cheapest one (selected by it), and if some edge crosses then some leader has one |
| `BoruvkaRounds.CollectedFacts` | boruvka_lib/boruvka.cpp:105-110 | collected edges all cross, nothing is collected iff no edge crosses components, and every component's cheapest leaving edge is collected |
| `BoruvkaRounds.CollectPhases` | boruvka_lib/boruvka.cpp:105-110 | the two phases before the merge leave the partition unchanged and collect every component's cheapest leaving edge, and nothing iff no edge crosses |
| `BoruvkaRounds.MergedAlongAll` | boruvka_lib/boruvka.cpp:113-116 | after the merge phase each component with a leaving edge is joined along its cheapest one |
| `BoruvkaRounds.BoruvkaIteration` | boruvka_lib/boruvka.cpp:122-143 | one round joins every component that has a leaving edge along its cheapest one; it accepts nothing iff no edge crosses, records exactly the merging edges, accepts exactly the chosen edges, and ends with every slot empty |
| `BoruvkaCalc.RunRound` | boruvka_lib/boruvka.cpp:33-40 | a round leaves the component count unchanged iff no edge crossed components before it, otherwise the count strictly drops; the round's accepted indices extend the record and are exactly the chosen edges |
| `BoruvkaCalc.CalcMST` | boruvka_lib/boruvka.cpp:31-43 | at exit no edge joins two components, the returned value is the accumulated `CostMST_`, every built edge since the start is recorded in order, and the rounds number at most the components removed plus one (so at most `n + 1`) |
| `BoruvkaCalc.RunFresh` | boruvka_lib/boruvka.cpp:15-43 | from a fresh solver, the built list is a set of distinct input edges whose cost is the result, whose size is `n` minus the final components, and which reach every class leader |
| `BoruvkaCalc.LeadersDescribeComponents` | boruvka_lib/boruvka.cpp:37-40 | leaders that agree exactly on connectivity describe the graph's connected components and their count |
| `BoruvkaCalc.ConnectedOneComponent` | tests/test_boruvka_correctness.cpp:16-24 | on a connected graph such a union-find has one component |
| `BoruvkaCalc.PickedSpans` | boruvka_lib/boruvka.cpp:31-43 | the built edges connect exactly the pairs the input connects |
| `BoruvkaCalc.BuiltEdges` | boruvka_lib/boruvka.cpp:45-47 | the built list is the input edges at the accepted indices and spans each class |
| `BoruvkaCalc.SpanningForest` | tests/test_boruvka_correctness.cpp:85-87 | the result is a spanning forest: same connectivity as the input, `n - 1` edges on a connected graph, and on a tree input it costs the sum of all input costs |
| `BoruvkaCalc.PickAllCost` | tests/test_boruvka_correctness.cpp:85 | picking every input edge exactly once costs the input's total |
| `BoruvkaCalc.BuildMst` | tests/test_boruvka_correctness.cpp:76-104 | for any worker count, construct-then-`CalcMST`-then-`GetBuiltMST` yields distinct input edges with the input's connectivity, cost equal to their sum, `n - 1` of them on connected input, and on a tree input cost equal to the input's total |
| `MergeOrder.KeyLeTotalOrder` | boruvka_lib/boruvka.cpp:53 | cost-then-index is a total order on edge indices: total, antisymmetric, transitive |
| `MergeOrder.CheapestUnique` | boruvka_lib/boruvka.cpp:50-60 | a component has one cheapest leaving edge under that order |
| `MergeOrder.SelectedSlots` | boruvka_lib/boruvka.cpp:78-90 | a selected edge joins two different components, leaves both, is the slot edge of one, and both slot edges come no later than it |
| `MergeOrder.SelectedIffChosen` | boruvka_lib/boruvka.cpp:78-90 | after the registration pass, an edge is collected iff it is the cheapest edge leaving the component of one of its endpoints |
| `MergeOrder.RootedStart` | boruvka_lib/boruvka.cpp:113 | before any merge every component is its own root |
| `MergeOrder.SelectedStillCrossing` | boruvka_lib/boruvka.cpp:113-116 | a chosen edge not merged along yet still joins two classes, whatever merges came before |
| `MergeOrder.StepSides` | boruvka_lib/boruvka.cpp:113-116 | such an edge has one side whose root chose it and another side in a different class |
| `MergeOrder.RootedStep` | boruvka_lib/boruvka.cpp:113-116 | merging along such an edge keeps every class rooted at a component whose chosen edge is no later than the others' |
| `MergeOrder.RootedShape` | boruvka_lib/boruvka.cpp:113-116 | merging two classes and keeping one of their roots leaves every class with one root inside it |
| `MergeOrder.RootedOrder` | boruvka_lib/boruvka.cpp:113-116 | after that merge every non-root component's chosen edge is merged and no earlier than its root's |
| `MergeOrder.RootSlotBefore` | boruvka_lib/boruvka.cpp:50-60 | a class root's chosen edge is no later than any edge leaving a component in that class |
| `MergeOrder.SelectedAllMerge` | boruvka_lib/boruvka.cpp:113-116 | merging along distinct collected edges in any order accepts every one of them |
| `MergeOrder.MergeAlongConcat` | boruvka_lib/boruvka.cpp:113-116 | running the reference along `a` and then along `c` is running it along `a + c` |
| `MergeOrder.ChosenSamePartition` | boruvka_lib/boruvka.cpp:33-37 | which edges are chosen, and whether any edge crosses, depends only on the partition, not on which vertices lead |
| `WorkerCount.DistinctSameMultiset` | boruvka_lib/boruvka.cpp:113-116 | two lists of distinct indices with the same members hold the same indices up to order |
| `WorkerCount.PickPermuted` | boruvka_lib/boruvka.cpp:73-74 | indices equal up to order pick edges equal up to order |
| `WorkerCount.RunComponents` | boruvka_lib/boruvka.cpp:31-41 | from a fresh solver, two vertices share a leader iff the accepted edges connect them |
| `WorkerCount.ClassesOfPicked` | boruvka_lib/boruvka.cpp:71-76 | when the accepted edges join no two classes and reach every leader, two vertices share a leader iff those edges connect them |
| `WorkerCount.SameAcceptedSamePartition` | boruvka_lib/boruvka.cpp:31-41 | two runs that accepted the same indices have the same partition, equally many accepted edges, and the same built edges up to order |
| `WorkerCount.ExtendSame` | boruvka_lib/boruvka.cpp:31-41 | records with the same members, extended by rounds with the same members, still have the same members |
| `WorkerCount.CompareWorkers` | tests/test_boruvka_correctness.cpp:106-113 | the `CalcMST` round loop, run for both instances in lockstep with the workers run one after another, with any two worker counts (each at least 1) over the same input: it builds the same edges up to order and the same number of components, and returns the same cost |
| `KruskalCheck.Insert` | tests/KruskalCheck.h:12 | inserting into a cost-sorted list keeps it sorted and adds exactly the new edge |
| `KruskalCheck.SortByCost` | tests/KruskalCheck.h:12 | the result is sorted by cost and a permutation of the input |
| `KruskalCheck.NewKruskal` | tests/KruskalCheck.h:7-13 | the stored edges are a cost-sorted permutation of the input; every vertex alone; cost 0 |
| `KruskalCheck.FoldCloses` | tests/KruskalCheck.h:15-22 | after folding all edges no edge crosses components, and the partition only coarsened |
| `KruskalCheck.FoldOfClosed` | tests/KruskalCheck.h:15-22 | folding over a partition no edge crosses accepts nothing and changes nothing |
| `KruskalCheck.FoldReachable` | tests/KruskalCheck.h:15-22 | the accepted edges connect every vertex to its final leader |
| `KruskalCheck.FoldStep` | tests/KruskalCheck.h:16-20 | one more edge is accepted, merging its classes, iff its endpoints had different leaders |
| `KruskalCheck.ScanStep` | tests/KruskalCheck.h:17-19 | a `Unite` result that matches the leaders advances the scan by one edge, adding the cost iff it merged |
| `KruskalCheck.ScanEdge` | tests/KruskalCheck.h:17-19 | one loop iteration adds the edge's cost iff `Unite` returns true |
| `KruskalCheck.CalcMST` | tests/KruskalCheck.h:15-22 | the result adds to `Cost_` exactly the costs of the edges whose endpoints were apart when reached, components drop by their number, and no edge crosses at the end; on an already closed state it returns `Cost_` unchanged |
| `KruskalCheck.CalcMSTTwice` | tests/KruskalCheck.h:15-22 | a second `CalcMST` returns the same value as the first |
| `KruskalCheck.ComponentsOfPermuted` | tests/KruskalCheck.h:12 | sorting does not change the components of the graph |
| `KruskalCheck.RunKruskal` | tests/KruskalCheck.h:7-22 | construct-then-`CalcMST` accepts distinct edges whose cost is the result, with the input's connectivity, `n` minus components of them, and `n - 1` on connected input; on a tree input the cost is the input total |
| `KruskalCheck.KruskalForest` | tests/KruskalCheck.h:15-22 | the accepted edges form a spanning forest of the unsorted input |
| `KruskalCheck.FoldSpans` | tests/KruskalCheck.h:15-22 | from singletons, the accepted edges are distinct, reach every leader, and no input edge crosses at the end |
| `KruskalCheck.ForestPermuted` | tests/KruskalCheck.h:12 | spanning-forest facts about the sorted list carry over to the input order |
| `KruskalCheck.ComponentsUnique` | tests/KruskalCheck.h:15-22 | any two leader maps describing the components of one graph induce the same partition and count |
| `KruskalCheck.FewerLeaders` | tests/KruskalCheck.h:15-22 | one direction of the count comparison, by an injection between leader sets |
| `KruskalCheck.CompareWithKruskal` | tests/KruskalCheck.h:15-22 | Borůvka and the reference Kruskal build equally many edges with the same connectivity; on a tree input both cost the input total |
| `Primality.IsPrime` | is_prime_lib/is_prime.cpp:4-14 | false below 2; for `val ≥ 2` false iff some `2 ≤ x` with `x*x < val` divides it; true means only that no such `x` divides it |
| `Primality.IsPrimeFast` | is_prime_lib/is_prime.cpp:16-31 | false below 2, true at 2, false on every other even number; for odd `val ≥ 3` false iff some odd `3 ≤ x` with `x*x < val` divides it |
| `Primality.TrialDone` | is_prime_lib/is_prime.cpp:8-13 | the loop exits with no divisor below the first `x` with `x*x ≥ val` |
| `Primality.OddStep` | is_prime_lib/is_prime.cpp:26 | stepping `x` by 2 keeps it odd and keeps "no odd divisor below `x`" |
| `Primality.OddTrialDone` | is_prime_lib/is_prime.cpp:26-31 | the odd loop exits with no odd divisor `x` with `x*x < val` |
| `Primality.EvenDivisorMakesEven` | is_prime_lib/is_prime.cpp:23-24 | an even divisor makes the number even |
| `Primality.OddHasNoEvenDivisor` | is_prime_lib/is_prime.cpp:23-26 | an odd number has no even divisor, which is why the fast loop tests odd `x` only |
| `Primality.FastAgreesExceptFour` | is_prime_lib/is_prime.cpp:4-31 | the two functions agree on every `val` except 4, where `IsPrime` accepts and `IsPrimeFast` rejects |
| `Primality.SquaresOfPrimesAccepted` | is_prime_lib/is_prime.cpp:8 | 4, 9 and 25 are accepted by the loop as written though composite; 9 and 25 by both functions |
| `Primality.AcceptedCompositeIsPrimeSquare` | is_prime_lib/is_prime.cpp:8-13 | any composite `IsPrime` accepts is the square of a prime |
| `Primality.TrialDivisionAcceptsPrimesAndPrimeSquares` | is_prime_lib/is_prime.cpp:4-14 | `IsPrime` accepts every prime, and what it accepts is a prime or a prime's square |
| `Primality.Mul64Exact` | is_prime_lib/is_prime.cpp:8 | for `x` below 2^32 the unsigned 64-bit square does not wrap |
| `Primality.RootTrialDecidesPrimality` | is_prime_lib/is_prime.cpp:8 | with the bound `x*x ≤ val`, "no divisor found" is exactly primality for `val ≥ 2` |
| `Primality.RootTrialDone` | is_prime_lib/is_prime.cpp:8-13 | the corrected loop exits with no divisor up to the square root |
| `Primality.OddRootTrialDone` | is_prime_lib/is_prime.cpp:26-31 | the corrected odd loop exits with no divisor up to the square root of an odd number |
| `Primality.RootOfMaxDivides` | is_prime_lib/is_prime.cpp:8 | at the top of the exact range the corrected loop stops at 2^32 − 1 before its square could wrap |
| `Primality.IsPrimeCorrected` | is_prime_lib/is_prime.cpp:4-14 | with `x*x ≤ val`, returns true exactly for primes |
| `Primality.IsPrimeFastCorrected` | is_prime_lib/is_prime.cpp:16-31 | with `x*x ≤ val`, returns true exactly for primes |
| `Connectivity.ClassesAreComponents` | boruvka_lib/boruvka.cpp:37-40 | when no edge crosses the classes and the chosen edges reach each leader, two vertices share a class iff the graph connects them |
| `Connectivity.SubgraphSpans` | tests/test_boruvka_correctness.cpp:16-24 | a sub-list of the edges that reaches every leader of a closed partition connects exactly what the whole graph connects |
| `Connectivity.ConnectedSameEdges` | tests/KruskalCheck.h:12 | reordering the edge list does not change connectivity |
| `Connectivity.ReachableAfterMerge` | boruvka_lib/boruvka.cpp:71-76 | merging the classes of an edge's endpoints and recording that edge keeps every vertex connected to its leader |
| `Connectivity.WalkStaysInClass` | boruvka_lib/boruvka.cpp:37-40 | when no edge crosses classes, a walk never leaves its class |

## Left out

- Threads, latches and atomics are not modelled: thread spawning and joining, the two `Latch` barriers, memory ordering, and spurious failure of `compare_exchange_weak`. Each compare-and-swap is one assignment. The retry loops of `SetMinEdge` (boruvka.cpp:51-59) and `ParallelDsu::Unite` (parallel_dsu.cpp:32-42) therefore succeed at the first attempt.
- `BoruvkaRounds.BoruvkaIteration`: the `W` workers run one after another, phase by phase; interleavings within a phase are not modelled. Only the fact that the barriers separate the phases is kept.
- `ThreadSafeVector` is not part of this model: its locking is replaced by a plain `seq<Edge>` with append and copy. Also not part of this model: `mpsc_queue.h`, the top-level draft `boruvka.cpp` and `parallel_dsu.h`, and the header's member declarations that disagree with the definitions in boruvka_lib/boruvka.cpp.
- The adjacency list `Graph_` (boruvka.cpp:23-26) is built but never read, so it is omitted. `operator<<` only prints.
- The random graph generators and the benchmarks are not modelled. The test assertions are modelled as properties over every input instead.
- `Edges.Edge`: costs and `CostMST_` are unbounded integers. int64 overflow of sums is not modelled. `IsInt64` is used only to state that the default edge is maximal.
- `KruskalCheck.SortByCost`: `std::sort` leaves the order among equal-cost edges unspecified. The insertion sort fixes one order. Every property stated about Kruskal holds for any cost-sorted permutation of the input.
- `BoruvkaCalc.BuildMst`: minimality of the cost is not stated. Its cost is pinned to the input total only on tree inputs. Cost equality between worker counts is proved separately by `WorkerCount.CompareWorkers`, for every input, with the workers run one after another.
- `WorkerCount.CompareWorkers`: the same edges and the same final round hold only on the schedule where the workers run one after another. The tie order that `Chosen` uses also belongs to that schedule: among equal costs the highest index wins, because registration runs in index order and `SetMinEdge` replaces on a tie (boruvka_lib/boruvka.cpp:53-56). Under concurrent registration the last compare-and-swap wins a tie instead. Two equal-cost edges between the same two components can then be the slot edges of opposite sides, and both are collected. From that point the built edges and the round count can differ between worker counts, so only the cost is expected to agree. Proving that needs the minimum-spanning-forest exchange argument, which is not modelled. If two such edges point in opposite directions, two concurrent `ParallelDsu::Unite` calls each compare-and-swap only their own `u` root (boruvka_lib/parallel_dsu.cpp:33). Both can succeed and link the two roots to each other. The one-after-another schedule cannot produce this. Each worker count must be at least 1, because `BoruvkaIteration` divides by it (boruvka_lib/boruvka.cpp:126-127).
- `KruskalCheck.CompareWithKruskal`: equal cost with the reference Kruskal (tests/KruskalCheck.h:15-22) is proved only on tree inputs. On every input it proves equal edge counts and equal connectivity. Equal cost on every input needs the minimum-spanning-forest exchange argument, which is not modelled.
- `BoruvkaCalc.CalcMST`: the round count is bounded by the components removed plus one (at most `n + 1`), not by the classic `log n` halving bound.
- `Primality.IsPrime`: modelled only for `val ≤ (2^32 − 1)^2`, where `x * x` on `uint64_t` cannot wrap. Above that, the wrapped multiplication (`Mul64`) could in principle change the loop bound, and this is not modelled.
- `Primality.IsPrimeFast`: the same restriction to `val ≤ (2^32 − 1)^2` as `IsPrime`.

## Findings

| source | as written | input that shows it | evidently intended | confidence | as-written member | corrected member |
|---|---|---|---|---|---|---|
| is_prime_lib/is_prime.cpp:8 (and :26) | the trial loop runs while `x * x < val` | `IsPrime(4)`, `IsPrime(9)`, `IsPrime(25)` and `IsPrimeFast(9)`, `IsPrimeFast(25)` return true: the divisor equal to the square root is never tried | `x * x <= val`, so that a square of a prime is rejected | high; not executed | `Primality.SquaresOfPrimesAccepted` | `Primality.IsPrimeCorrected`, `Primality.IsPrimeFastCorrected` |

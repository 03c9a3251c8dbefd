# Verified model of the mutable query optimizer and interpreter

mutable is a research database engine.  This project models its optimizer and its interpreter in
Dafny and proves what they are for: join enumeration finds the cheapest plan of its search space,
the passes over a query keep its meaning, incremental code follows closed-form specifications, and
the block-wise operators compute what the SQL operators mean.  Relations are numbered, a set of
relations is a set of numbers, and the arithmetic on 64-bit sets that the engine uses instead is
proved to compute the same sets, with one exception: the portable step to the next set of the same
size, for which the sets that it misses are characterised.

`dafny verify dfyconfig.toml` checks everything.

## What is modelled

**Join enumeration.**  `SmallBitset`, `SizedSubsets`, `AdjacencyMatrix` and `PlanTable` (module
`PlanTables`) model the shared vocabulary: walks over subsets, the iterator over the sets of one
size in both ways it is built, connectivity of the query graph, and a plan table that grows by
`Update`.  A search space says which join trees are allowed; the central theorem,
`PlanTables.CallsAreOptimal`, speaks about any sequence of updates over any search space and any
monotone cost function, and reduces optimality to the order in which pairs are considered.  Every
enumerator is then a set of loops with the invariant which pairs have been passed:
`SubsetEnumerators` (DPsub, DPsubOpt, PEall), `SizeEnumerators` (DPsize, DPsizeOpt),
`SizeSubEnumerator` (DPsizeSub), `TopDownEnumerator` (TDbasic), `IKKBZ` on top of `SpanningForest`,
and `LinearizedDP`.  `EnumerationFacts` compares their results.  `TwoPhaseOptimizer` and
`HeuristicSearch` model the randomised search and the reconstruction of plans after a heuristic
search, and `PartialPlanGenerator` with `PartialPlans` the backtracking over partial plans.

**From WHERE to a plan.**  `Cnf` converts boolean expressions under the three-valued logic of
section 8.12 of ISO/IEC 9075:1992.  `QueryGraph` dispatches the clauses to sources and joins,
`FilterSplitting` cuts filters into stacks, and `JoinOrder` builds the operator tree from the plan
table, whose entries spell trees by `TableTrees` however it was filled.  `Relations` and `Plans` say
what operator trees compute: sequences of rows, compared as bags where the order depends on the plan.
`QueryGraph.PlanWhere` puts all of this together, for the tables of every enumerator.

**Schema minimisation.**  `Operators` gives operator trees with schemas a meaning, which
`OperatorMeaning` spells out, `SchemaMinimization` models the pass, `SchemaPreservation` proves that it keeps the rows, and
`SchemaMinimality` that it leaves nothing that is not needed.

**Storage access.**  `DataLayout` (module `DataLayouts`) models the code compiled for nested
layouts: pointers, bit masks, counters and stride jumps, against addresses by division and
remainder.  `LayoutAccess` writes and scans tuples with it, `LayoutLimits` says exactly when it is
right, and `LayoutFactories` proves that the layouts for tables meet these conditions.

**Interpreter operators.**  `Blocks` (masked blocks, filters, limits), `Joins` (nested loops),
`HashJoin`, `FilteredJoin` (the hash join below a filter) and `Grouping`.

**FIRST sets.**  `FirstSets` models the fixed-point computation of the k-prefixes of a grammar.

## What the proofs found

- `TDbasic` tests only whether both sides of a split are connected.  On a query graph of exactly two
  connected parts it therefore joins the parts by a cross product, which the other enumerators
  without cross products never do; on every other graph it agrees with them about the full set
  (`TopDownEnumerator.AgreesUnlessTwoParts`, `TopDownEnumerator.TwoIslands`).
- Without an instruction that extracts bits, the iterator over the sets of one size counts flipped
  bits with a builtin for 32-bit numbers.  With more than 32 relations it misses sets of every size
  but one and all; behind the relations 30 and 31, for example, it goes to 32 alone
  (`SizedSubsets.FollowingIsNextIff`, `SizedSubsets.EnumeratesIff`,
  `SizedSubsets.PortableLosesElement`).
- `DPsize`, `DPsizeOpt` and `DPsizeSub` walk with this iterator.  On such builds they are right on
  every query graph of up to 32 relations, and on no connected one of more.  A connected graph has a
  relation other than the last without which the others stay connected; no walk visits these others,
  so `DPsize` and `DPsizeOpt` never consider the pair of the two, and `DPsizeSub` makes no plan for
  the others.  What a missed pair does to the table depends on the costs: some costs make it wrong, but
  if joins are free then plans for all connected sets are enough (`SizedSubsets.PortableWalkVisits`,
  `SizeEnumerators.SparedMisses`, `SizeEnumerators.StarPairMissed`, `SizeSubEnumerator.Unvisited`,
  `EnumerationFacts.AlwaysSolvesIffComplete`, `EnumerationFacts.FreeJoinsNeedPlansOnly`).
- Schema minimisation is registered twice.  If the first pass has removed every aggregate of an
  aggregation without keys, an assertion of the second pass fails; if it has removed every projection
  of a projection, the second pass forms a reference to an element of an empty list, which is
  undefined (`SchemaPreservation.SecondPassRuns`, `SchemaPreservation.SecondPassCanFail`).
- A WHERE clause over no source is dropped, because clauses are only attached to sources
  (`QueryGraph.NoSourceLosesWhere`).
- `LIMIT 0` without an offset keeps all rows, because the plan gets no limit operator; and a limit keeps
  no row if its sum with the offset wraps around, as for the largest number behind any offset
  (`Blocks.LimitClause`).
- The hash join compares keys with the equality of tuples, for which NULL equals NULL; the nested
  loops evaluate the predicate, for which it does not (`HashJoin.JoinsAgreeIff`).
- The hash join fills its output block once per probe tuple, although it may hand the block on several
  times before the next one.  A filter directly above it erases tuples from that block, so that later
  results are put into slots that are not in use: an assertion fails, or without assertions results
  can get lost.  A result is lost exactly if one before it in the same slot has failed and the block is
  handed on again before the next probe tuple.  That takes more than 64 results for one probe tuple,
  and with 65 it can happen (`FilteredJoin.HashJoinBelowFilter`, `FilteredJoin.LosesNothingIff`,
  `FilteredJoin.AssertedLosesNothing`, `FilteredJoin.ResultsGetLost`).
- The running average divides by the number of all tuples, those with a NULL argument included.  It is
  the mean of the arguments that are not NULL only if none of them comes behind a NULL
  (`Grouping.AverageRightIff`).
- The compiled layout code follows a layout exactly if every attribute has a stride of whole bytes, or
  of one bit that starts at a byte or fills whole bytes; if NULL bits with a stride start at a byte;
  and if repetitions fit into their parents.  Attributes with strides of two to seven bits, and bits
  that start within a byte, pass all assertions and go wrong, at any nesting
  (`LayoutLimits.RightIffSupported`).
- A PAX layout computes how many blocks a large row takes, but a block with a single row never passes
  the assertion that leaves are not repeated there: making a PAX layout fails if two rows do not fit
  into a block.  It also fails for decimals of one digit, which take four bits, although row layouts
  admit one of them; and for blocks that have no room for the padding of the columns, because the
  remaining room wraps around (`LayoutFactories.MakePAX`, `LayoutFactories.WideRow`,
  `LayoutFactories.RowsPerBlock`).  A row layout fails for a single tuple, for two such decimals, and
  without reordering if an attribute other than a boolean would start within a byte
  (`LayoutFactories.MakeRow`).
- The computation of FIRST sets need not end for a grammar with a nonterminal that derives no word:
  the early exit from a rule lets a set appear that is then handed on between two nonterminals for
  ever (`FirstSets.RoundsAlternate`).  It ends, with the right sets, if no rule can end early in front
  of such a nonterminal (`FirstSets.ComputeFirst`).
- The comments of the two-phase optimizer promise hill climbing, an escape from local minima and
  bushy plans.  In the code every state is left-deep up to the order of operands, the associativity
  rule never applies, and no move changes the cost of a state, so climbing ends after one round and
  annealing returns its input (`TwoPhaseOptimizer.GuardNeverMet`,
  `TwoPhaseOptimizer.SameUnionsSameCost`, `TwoPhaseOptimizer.Climb`,
  `TwoPhaseOptimizer.SimulatedAnnealing`).

## Model

| member | source | states |
|---|---|---|
| SmallBitset.NextSubsetIsNext | include/mutable/util/ADT.hpp:269-273 | `next_subset` yields a non-empty subset of the set whose number is greater than that of the given subset, and skips no subset in between |
| SmallBitset.NextSubsetOnWords | include/mutable/util/ADT.hpp:269-273 | on machine words of any width `(subset - set) & set`, with wrap-around, spells exactly that next subset |
| SmallBitset.LeastSubsetOnWords | include/mutable/util/ADT.hpp:266-267 | `S & -S`, with wrap-around, spells the set of the lowest element |
| SmallBitset.LeastSubsetIsLeast | include/mutable/util/ADT.hpp:266-267 | the lowest element alone has the least number of all non-empty subsets |
| SmallBitset.NextOfSizeIsNext | include/mutable/util/ADT.hpp:859-874 | the set that an exact step of the iterator goes to: as many elements, a greater number, and no set of that size between; which builds take this step is `SizedSubsets.FollowingIsNextIff` |
| SmallBitset.FirstOfSizeIsLeast | include/mutable/util/ADT.hpp:838-846 | the enumeration of the sets of one size starts at the numerically least of them |
| SizedSubsets.IncrementOnWords | include/mutable/util/ADT.hpp:859-874 | with the bits extracted by an instruction or counted by the 32-bit builtin: wrap-around addition, exclusive or, shift and or spell the set the build goes to, at any width of 32 bits or more, as long as the carry stays in the word |
| SizedSubsets.FollowingIsNextIff | include/mutable/util/ADT.hpp:868-873 | a step goes to the next set of the same size if and only if bits are extracted, or the lowest run of bits ends below bit 32, or it is a single bit; otherwise to a proper part of that set |
| SizedSubsets.PortableLosesElement | include/mutable/util/ADT.hpp:870-873 | behind the relations 30 and 31 the portable step goes to 32 alone, instead of 0 and 32 |
| SizedSubsets.EnumeratesIff | include/mutable/util/ADT.hpp:838-878 | the iterator visits exactly the sets of a size, each once and in ascending order, if and only if bits are extracted, or there are at most 32 elements, or the size is one or that of the full set |
| SizedSubsets.PortableWalkVisits | include/mutable/util/ADT.hpp:838-878 | with more than 32 elements a portable walk that starts with the first elements, of whatever size, visits of the sets with exactly one element missing only the one without the last element, because its next step loses an element |
| SizedSubsets.GospersHack.Advance | include/mutable/util/ADT.hpp:858-875 | the iterator on its 64-bit word moves to the word of the set that the build goes to |
| SizedSubsets.SubsetsOfSize | src/IR/PlanEnumerator.cpp:181-193 | the loop of the enumerators over the iterator object visits exactly the walk of sets that `EnumeratesIff` speaks about |
| AdjacencyMatrix.Matrix.Reachable | include/mutable/util/AdjacencyMatrix.hpp:106-120 | the set returned contains the start, is closed under edges inside `S`, and holds only what a walk inside `S` reaches |
| AdjacencyMatrix.Matrix.IsConnected | include/mutable/util/AdjacencyMatrix.hpp:130-133 | true exactly if any two relations of the set are linked by a walk inside the set |
| AdjacencyMatrix.Matrix.IsConnectedPair | include/mutable/util/AdjacencyMatrix.hpp:135-144 | true exactly if some join edge runs between the two sets |
| AdjacencyMatrix.Matrix.ConnectedSplits | src/IR/PlanEnumerator.cpp:208-227 | every connected set of two or more relations splits into two connected, mutually adjacent parts, which is why every connected subproblem gets a plan |
| AdjacencyMatrix.Matrix.ConnectedSplitsAround | src/IR/PlanEnumerator.cpp:208-227 | the part with several relations can be chosen to hold any given one |
| AdjacencyMatrix.Matrix.ConnectedHasNoEmptyCut | src/IR/PlanEnumerator.cpp:219-224 | between any two non-empty parts of a connected set there is a join edge, as the enumerators insist |
| SpanningForest.MinimumSpanningForest | src/util/AdjacencyMatrix.cpp:64-117 | the result is a sub-graph without cycles that links whatever the graph links, on a connected graph a spanning tree; for symmetric weights that are not negative no part of the graph that links as much weighs less |
| SpanningForest.AttachLeast | src/util/AdjacencyMatrix.cpp:97-112 | whatever links the graph can be exchanged for something no heavier that contains the forest with its new edge, the lightest one that leaves the explored vertices |
| SpanningForest.OneNeighbor | src/IR/PlanEnumerator.cpp:389-403 | in a graph without cycles a relation outside a connected set has at most one neighbor in it, so no relation is queued twice |
| PlanTables.PlanTable.Update | include/mutable/IR/PlanTable.hpp:117-155 | the entry of the union becomes the cheaper of the two orders if there was none or it was more expensive; all other entries stay; the call is logged |
| PlanTables.UpdateCovers | include/mutable/IR/PlanTable.hpp:117-155 | joining two optimal operands bounds the entry of the union by every tree made of these two sides, in either order, and no entry gets dearer or loses its tree |
| PlanTables.CallsAreOptimal | include/mutable/IR/PlanTable.hpp:117-155 | for every search space, every monotone cost function and every sequence of calls that joins operands only after all their own splits: once all splits of a set were considered, its entry is the least cost of all its join trees |
| PlanTables.CoutMonotone | include/mutable/catalog/CostFunctionCout.hpp:23-30 | the cost function C_out is monotone, whatever the cardinality estimates are, so the theorems apply to it |
| PlanTables.CoutIsSum | include/mutable/catalog/CostFunctionCout.hpp:23-30 | under C_out a plan costs the sum of the cardinalities of all its intermediate results |
| EnumerationFacts.PlannedIffHasTree | include/mutable/IR/PlanTable.hpp:114-115 | after all its splits were considered, a set has a plan exactly if the search space has a join tree for it |
| EnumerationFacts.HasTreeIffConnected | src/IR/PlanEnumerator.cpp:208-227 | without cross products the sets with a join tree are exactly the connected ones |
| EnumerationFacts.CompleteCallsSolve | src/IR/PlanEnumerator.cpp:208-227 | a well-ordered sequence of calls that considers every pair of the search space leaves an entry for exactly the sets with a tree, each of least cost |
| EnumerationFacts.AlwaysSolvesIffComplete | include/mutable/IR/PlanTable.hpp:117-155 | well-ordered calls find the cheapest plans for all monotone costs if and only if they consider every pair; in whatever order the calls are, a missed pair leaves the table wrong for some monotone costs |
| EnumerationFacts.FreeJoinsNeedPlansOnly | include/mutable/IR/PlanTable.hpp:117-155 | for one cost function a missed pair need not matter: if all joins are free, any calls for pairs solve the search space exactly if every set with a join tree got a plan |
| EnumerationFacts.SolvedTablesAgree | src/IR/PlanEnumerator.cpp:76-267 | any two enumerators that solve the same search space end with plans for the same sets and of the same costs |
| EnumerationFacts.CrossProductsNeverDearer | src/IR/PlanEnumerator.cpp:40-61 | where cross products are allowed, as in `PEall`, no set gets a dearer plan than without |
| TableTrees.TableSpellsTree | include/mutable/IR/PlanTable.hpp:117-155 | following the operands of any entry of a well-ordered run spells a join tree of the search space over that set, whose cost is the cost stored in the entry |
| TableTrees.AnyTableSpellsTrees | include/mutable/IR/PlanTable.hpp:117-155 | after any sequence of updates with disjoint sides, in whatever order, every entry spells a join tree that is not dearer than the entry says, and exactly as dear if no entry was replaced |
| SubsetEnumerators.DPsub | src/IR/PlanEnumerator.cpp:207-229 | on every query graph: a set ends up with a plan exactly if it is connected, of least cost over all cross-product-free trees; the calls are exactly the pairs of connected, disjoint, adjacent sets, each ordered pair once |
| SubsetEnumerators.DPsubOpt | src/IR/PlanEnumerator.cpp:242-269 | the same plans and costs, although the walk stops at the highest relation: every pair is considered in exactly one order, once |
| SubsetEnumerators.PEall | src/IR/PlanEnumerator.cpp:39-63 | every set of relations gets a plan of least cost over all trees, cross products included; every pair of disjoint sets is considered in one order, once; the insisted plans are always there |
| SizeEnumerators.DPsize | src/IR/PlanEnumerator.cpp:75-101 | on every build only pairs are considered; on every connected query graph of two relations or more all pairs are considered, and the cheapest plans are found whatever the costs, if and only if bits are extracted or there are at most 32 relations; under that condition the table is the same as that of `DPsub` on every query graph, from size-driven loops, with each ordered pair once |
| SizeEnumerators.DPsizeOpt | src/IR/PlanEnumerator.cpp:116-167 | the same promises under exactly the same condition, with each pair in one order only: the smaller side on the left, or of equal sides the numerically smaller one |
| SizeEnumerators.SparedMisses | src/IR/PlanEnumerator.cpp:75-167 | on a connected query graph of two relations or more, calls whose sides come from portable walks over more than 32 relations miss a pair: a relation other than the last without which the others stay connected, and these others |
| SizeEnumerators.StarPairMissed | src/IR/PlanEnumerator.cpp:75-167 | a missed pair: if 33 relations or more are all joined with the last one, the first relation and all others are a pair, but no portable walk visits all others |
| SizeSubEnumerator.DPsizeSub | src/IR/PlanEnumerator.cpp:172-195 | the same promises under exactly the same condition, from all connected sets by size and all their subsets; on a connected query graph already the table for the given costs is right only under this condition |
| SizeSubEnumerator.Unvisited | src/IR/PlanEnumerator.cpp:181-193 | on a connected query graph, calls whose unions come from portable walks over more than 32 relations leave some connected set of two relations or more without any call |
| TopDownEnumerator.PlanGen | src/IR/PlanEnumerator.cpp:603-626 | memoised recursion: afterwards all splits of the subproblem into connected sides were considered, the canonical order of each once, and it has a plan exactly if there is such a tree; what has a plan never needs another visit |
| TopDownEnumerator.TDbasic | src/IR/PlanEnumerator.cpp:628-639 | on every query graph the full set gets the optimal tree with connected sides if there is one; on a connected graph this is the optimum without cross products |
| TopDownEnumerator.AgreesUnlessTwoParts | src/IR/PlanEnumerator.cpp:611-624 | `TDbasic` agrees with the enumerators without cross products about the full set if and only if the query graph does not fall into exactly two connected parts |
| TopDownEnumerator.TwoIslands | src/IR/PlanEnumerator.cpp:611-624 | two relations without a join: a graph for which `TDbasic` plans a cross product |
| IKKBZ.LinearizeFrom | src/IR/PlanEnumerator.cpp:373-410 | from a root, on a spanning tree: the order is a permutation of all relations, every prefix is connected in the tree, each step takes a relation of least rank on the frontier, no popped relation was joined before, and exactly the prefixes have plans |
| IKKBZ.ClearPrefixes | src/IR/PlanEnumerator.cpp:412-421 | all plans made for a linearization are cleared again: the table is as it was before |
| IKKBZ.Linearize | src/IR/PlanEnumerator.cpp:373-430 | one greedy linearization from each root; the one returned has the least linear-plan cost of all of them; the table is unchanged |
| IKKBZ.Enumerate | src/IR/PlanEnumerator.cpp:434-451 | the plan of the full set costs exactly what the cheapest of the linearizations along a minimum spanning tree costs, one from each root; every entry spells a tree of its cost |
| LinearizedDP.Sequence.ExtendAtFront | src/IR/PlanEnumerator.cpp:504-508 | adding the relation in front keeps the bitset equal to the relations of the window |
| LinearizedDP.Sequence.ExtendAtBack | src/IR/PlanEnumerator.cpp:510-514 | likewise for the relation behind |
| LinearizedDP.Sequence.ShrinkAtFront | src/IR/PlanEnumerator.cpp:516-520 | removing the first relation keeps the bitset equal to the relations of the window |
| LinearizedDP.Sequence.ShrinkAtBack | src/IR/PlanEnumerator.cpp:522-526 | likewise for the last relation |
| LinearizedDP.PlanIntervals | src/IR/PlanEnumerator.cpp:551-589 | the zig-zag window visits every interval of length at least two exactly once, shorter ones first; the full set gets the optimal tree whose nodes are intervals, no dearer than the linear plan |
| LinearizedDP.LinearizedDP | src/IR/PlanEnumerator.cpp:542-590 | the whole enumerator, also for fewer than two relations: the linearizations are greedy along a minimum spanning tree, one from each root; the plan is optimal among the contiguous trees of the chosen one and no dearer than the linear plan of any of them |
| PartialPlanGenerator.ForEachCompletePartialPlan | src/IR/PartialPlanGenerator.cpp:10-86 | for every final plan that a plan table holds, the three-stack backtracker terminates and calls back exactly the partial plans of the recursive specification, in order; its assertion and the bound of its decision stack hold throughout |
| PartialPlanGenerator.DecisionStackBound | src/IR/PartialPlanGenerator.cpp:28-35 | no reachable state has more than 2n decisions, n partial plans or n candidates |
| PartialPlans.CallbacksAreExactlyThePartialPlans | src/IR/PartialPlanGenerator.cpp:10-86 | every callback partitions the relations into subtrees of the final plan, no two callbacks are alike, every such partition is called back, and there are f(t) of them |
| PartialPlans.PlansCounted | src/IR/PartialPlanGenerator.cpp:36-85 | the number of partial plans obeys f(leaf) = 1 and f(node) = 1 + f(left) f(right) |
| PartialPlans.PlansAreSound | src/IR/PartialPlanGenerator.cpp:36-85 | every enumerated plan is a set of disjoint subtrees that covers all relations of the candidates |
| PartialPlans.PlansAreComplete | src/IR/PartialPlanGenerator.cpp:36-85 | every partition into subtrees is enumerated |
| PartialPlans.PlansAreDistinct | src/IR/PartialPlanGenerator.cpp:36-85 | plans at different positions of the enumeration are different partitions |
| Cnf.OrMeansOr | src/IR/CNF.cpp:62-76 | for non-empty formulas with non-empty clauses `or` on formulas means three-valued OR, keeps that shape, and multiplies the numbers of clauses |
| Cnf.NotMeansNot | src/IR/CNF.cpp:78-92 | for such formulas `!` means three-valued NOT and keeps the shape; the number of clauses is the product of the sizes of the clauses |
| Cnf.OrOperator | src/IR/CNF.cpp:62-76 | the nested loops compute the disjunction, with an empty formula as neutral element |
| Cnf.NotOperator | src/IR/CNF.cpp:86-92 | the loop over clauses computes the negation |
| Cnf.CNFGenerator.Visit | src/IR/CNF.cpp:207-296 | the visitor leaves its polarity as it found it and holds the formula for the expression in that polarity |
| Cnf.ConversionPreservesTruth | src/IR/CNF.cpp:248-291 | for every expression over AND, OR, NOT, boolean = and !=, every polarity and every three-valued valuation the formula means the expression, or its negation; no formula or clause is ever empty |
| Cnf.ConvertToCnf | src/IR/CNF.cpp:298-303 | the result of the conversion has the truth value of the expression under every valuation |
| QueryGraph.GraphBuilder.TryEmplace | src/IR/QueryGraph.cpp:460-466 | a clause is added unless one with the same predicates is found, and the same clause is always found; no clause is bound twice, and what is bound still stands for all clauses seen |
| QueryGraph.ClauseSourcesAreMentioned | src/IR/QueryGraph.cpp:442-458 | the sources of a clause are exactly those that some predicate of it mentions |
| QueryGraph.GraphBuilder.Dispatch | src/IR/QueryGraph.cpp:1668-1688 | a clause that mentions no source is added to the filters of all sources, one that mentions a single source to the filter of just this one, and one that mentions several becomes a join of exactly these sources; nothing else is added, and nothing lost |
| QueryGraph.SelectionsMembers | src/IR/QueryGraph.cpp:1669-1676 | after all clauses are dispatched, the filter of a source holds exactly the clauses that mention no other source |
| QueryGraph.CrossingsMembers | src/IR/QueryGraph.cpp:1677-1687 | and the joins are exactly the clauses that mention two sources or more, each with the set of all sources that it mentions |
| QueryGraph.GraphBuilder.ProcessWhere | src/IR/QueryGraph.cpp:1652-1690 | a joined row passes all filters and join conditions of the graph if and only if WHERE is TRUE for it, or the graph has no source; the bound clauses stand for those of the normal form, and each is where the sources that it mentions say |
| QueryGraph.NoSourceLosesWhere | src/IR/QueryGraph.cpp:1669-1672 | without any source the WHERE clause is lost: a row is kept for which it is not TRUE |
| FilterSplitting.OptimizeFilter | src/IR/Optimizer.cpp:63-107 | the filters hold the given clauses with their multiplicities, by ascending weight; every filter is non-empty, weighs at most 12 or is a single clause, and is closed only when the next clause would not fit |
| FilterSplitting.OptimizeSource | src/IR/Optimizer.cpp:259-289 | the plan is the stack of the split filters, a single clause of several predicates as a disjunctive filter, and yields row for row and in order what the whole filter yields |
| Plans.FilterAnyIsFilter | src/backend/Interpreter.cpp:970-990 | evaluating the predicates of a clause one by one filters like the clause |
| JoinOrder.Construction.Build | src/IR/Optimizer.cpp:323-375 | the recursion that erases joins from the shared list yields the tree of the plan table with each join condition at its lowest covering node, and leaves exactly the joins that the tree does not cover |
| JoinOrder.PlacedOnce | src/IR/Optimizer.cpp:338-372 | every join is placed at exactly one node if the tree covers its sources, and at none otherwise |
| JoinOrder.PlanFiltersProduct | src/IR/Optimizer.cpp:323-375 | row for row and in order, the constructed plan yields the cross product of its tree filtered by all conditions placed in it |
| JoinOrder.CrossIsProduct | src/IR/Optimizer.cpp:323-375 | the cross products of all join trees over the same sources are the same bag |
| JoinOrder.PlanMeansJoin | src/IR/Optimizer.cpp:323-375 | whatever tree the plan table spells, the plan yields the bag of the rows of the cross product that satisfy all join conditions |
| JoinOrder.PlansAgree | src/IR/Optimizer.cpp:323-375 | any two plan tables give plans with equal bags of rows |
| QueryGraph.PlanMeansWhere | src/IR/Optimizer.cpp:259-375 | filters on the sources and conditions in the join tree together yield the bag of rows that WHERE selects from the cross product |
| QueryGraph.PlanWhere | src/IR/QueryGraph.cpp:1652-1690 | end to end: conversion, dispatch, splitting and join construction, over any table with a plan for all sources whose updates had disjoint sides, yield exactly the rows of the cross product for which WHERE is TRUE, with their multiplicities; the plan is the tree that the table spells, with every join condition at its lowest covering node, over scans under their split filters, for filters and joins with exactly the sources that the distinct clauses mention |
| SchemaMinimization.SchemaMinimizer.Visit | src/IR/Operator.cpp:367-560 | the visitor with its two fields computes the minimised operator; all its subset assertions hold |
| SchemaMinimization.Compact | src/IR/Operator.cpp:430-449 | compacting in place keeps exactly the required entries in order and collects what they read |
| SchemaMinimization.AskedBelow | src/IR/Operator.cpp:392-405 | what an operator asks of its child is always part of the child's schema, so the subset assertions hold on every path |
| SchemaPreservation.SchemaBounds | src/IR/Operator.cpp:367-560 | the new schema lies between what is required above and the old schema; at the top of the plan nothing is lost |
| OperatorMeaning.FilterMeans | src/backend/Interpreter.cpp:955-968 | a filter hands on exactly the rows at the positions where the condition holds, in order and cut to its schema |
| OperatorMeaning.ProjectionMeans | src/backend/Interpreter.cpp:1141-1158 | a projection hands on one row for each of its child, which holds exactly the values of the projections, each under its name |
| OperatorMeaning.GroupingMeans | src/backend/Interpreter.cpp:1177-1303 | grouping hands on one row for every key that occurs, computed from exactly the rows with this key, in order |
| OperatorMeaning.SortingMeans | src/backend/Interpreter.cpp:1585-1652 | sorting hands on the rows at the positions that its order gives for the sort keys of all rows |
| SchemaPreservation.MinimizePreservesRows | src/IR/Operator.cpp:367-560 | row for row and in order, every minimised operator yields its old rows restricted to its new schema |
| SchemaPreservation.MinimizeTwice | src/IR/Operator.cpp:573-581 | a second pass with the same requirements changes nothing, not even the order of attributes |
| SchemaPreservation.MinimizeSchema | src/IR/Operator.cpp:562-566 | the pass over a whole plan keeps its attributes, and yields the same rows in the same order |
| SchemaMinimality.MinimizeIsTight | src/IR/Operator.cpp:367-560 | after the pass the schema of every operator is exactly what is required above it, plus the keys of a grouping; and what is required of a child is exactly what its parent hands on, keeps and reads, cut to that child |
| SchemaMinimality.MinimizeIsLeast | src/IR/Operator.cpp:367-560 | no other way to drop attributes and columns, after which everything that is handed on or read is still there, leaves fewer attributes at any operator |
| SchemaMinimality.MinimizeIsPruned | src/IR/Operator.cpp:367-560 | the result is itself such a way |
| SchemaPreservation.SecondPassRuns | src/IR/Operator.cpp:573-581 | the second registered pass meets its assertions if and only if the first one leaves an aggregate in every aggregation, and refers only to existing elements if and only if the first one leaves a projection in every projection |
| SchemaPreservation.SecondPassCanFail | src/IR/Operator.cpp:509-544 | a plan on which its assertion fails: an aggregation whose only aggregate nobody wants |
| DataLayouts.Compile | src/backend/Interpreter.cpp:72-122 | code compiled for a row starts with the pointers, masks and counters of the closed-form address of that row, at every nesting depth |
| DataLayouts.BitStep | src/backend/Interpreter.cpp:270-312 | shifting the mask and wrapping it to the next byte moves a pointer and mask on by exactly one bit position |
| DataLayouts.JumpsCompose | src/backend/Interpreter.cpp:420-502 | the jumps at all levels add up to the distance from behind the last repetition to the next instance of the innermost node |
| DataLayouts.CoveredIffRoomy | src/backend/Interpreter.cpp:426-428 | with unsigned remainders the jumps of all complete levels cover what they should if and only if the repetitions fit at all these levels, and otherwise more |
| DataLayouts.LeafRightIffRoomy | src/backend/Interpreter.cpp:406-502 | for a leaf whose bits are supported: advance and jumps bring it to its address for the next row, at any nesting, if and only if the repetitions fit at all complete levels |
| DataLayouts.NextCell | src/backend/Interpreter.cpp:109-539 | the passes over the layout, each with its own recursion, together advance every leaf and let it jump, and advance every counter |
| DataLayouts.NextIsRight | src/backend/Interpreter.cpp:401-539 | in a supported layout they bring all leaves and counters to the next row, whichever enclosing nodes are complete |
| DataLayouts.Cursor.Run | src/backend/Interpreter.cpp:34-542 | a run of code compiled at row r leaves every pointer, mask and counter where compiling at row r + 1 starts them, so n runs lead to row r + n; for a NULL bitmap pointer and adjustable offset together denote the same position |
| DataLayouts.CellsPointToRow | src/backend/Interpreter.cpp:109-135 | the cells for a row address exactly the positions that nested divisions and remainders give |
| LayoutLimits.RightIffSupported | src/backend/Interpreter.cpp:109-539 | for every layout that is constructed and compiled without a failing assertion and repeated without bound, at any nesting: the incremental code is right for every row and state if and only if attributes have strides of whole bytes or of one bit that starts at a byte or fills whole bytes, NULL bits with a stride start at a byte, and everything that holds a leaf fits into its parent |
| LayoutLimits.WrongStride | src/backend/Interpreter.cpp:128-133 | an attribute with a stride of two to seven bits, which the assertions admit, goes wrong at every access that completes no node, at any nesting |
| LayoutLimits.WrongFirstBit | src/backend/Interpreter.cpp:430-480 | bits of an attribute that start within a byte and do not fill whole bytes, and NULL bits with a stride that start within a byte, go wrong whenever their node is complete, at any nesting |
| LayoutLimits.WrongAtLast | src/backend/Interpreter.cpp:420-502 | every other unsupported layout, and every one whose repetitions do not fit at some level, goes wrong behind the last row of a node |
| LayoutAccess.WriteTuple | src/backend/Interpreter.cpp:114-327 | stores the NULL bits of a tuple and its values that are not NULL at the leaves; a row that shares no bit with it keeps its tuple |
| LayoutAccess.NullBitOf | src/backend/Interpreter.cpp:135-216 | address and mask of a NULL bit from the adjusted offset are those of the bit at the index of the attribute behind the start of the bitmap |
| LayoutAccess.Append | src/mutable.cpp:448-458 | writing tuples, NULLs included, with code compiled once for the first free row stores them at their rows and leaves earlier rows alone |
| LayoutAccess.Scan | src/backend/Interpreter.cpp:899-931 | a scan returns the stored tuples, in order: the k-th tuple written is the k-th tuple scanned |
| LayoutFactories.ComputeAttributeOrder | src/storage/DataLayoutFactory.cpp:72-87 | the permutation of the attributes by descending alignment, and by number where alignments are equal, if they are reordered; and otherwise their own order |
| LayoutFactories.RowOffsets | src/storage/DataLayoutFactory.cpp:96-105 | the attributes start one after the other in the given order, and the alignment is the largest of those of the attributes and of a byte |
| LayoutFactories.MakeRow | src/storage/DataLayoutFactory.cpp:89-131 | attributes and bitmap follow each other without gaps and the row is padded to the least multiple of the largest alignment; reordered attributes whose alignments divide their sizes and each other are aligned in every row; all assertions hold if and only if the layout is not for one tuple and at most one attribute takes half a byte, or without reordering whole bytes lie before every attribute but booleans; the compiled code can follow the layout |
| LayoutFactories.RowsPerBlock | src/storage/DataLayoutFactory.cpp:163-184 | the exact number of rows: for a number of tuples the greatest multiple of the lanes that is not larger, and for a number of bytes that of the rows that fit besides seven bits for every attribute that is not whole bytes, or one less; if that padding alone does not fit, the unsigned room wraps around and far too many rows are counted |
| LayoutFactories.ColumnOffsets | src/storage/DataLayoutFactory.cpp:186-195 | every column starts at a whole byte, directly behind the padded columns before it |
| LayoutFactories.MakePAX | src/storage/DataLayoutFactory.cpp:133-227 | columns in the order of the attributes, each padded to whole bytes, and the bitmap behind; the number of rows is exactly that of `RowsPerBlock` for the lanes of the smallest attribute; blocks are padded to the least multiple of the largest alignment, or are as many of the given size as a row takes; all assertions hold if and only if no attribute takes half a byte, a block has room for two rows and the padding, and the layout is not for one tuple; then nothing overlaps and the compiled code can follow the layout |
| LayoutFactories.WideRow | src/storage/DataLayoutFactory.cpp:220-221 | a table of which no two rows fit into a block of four kilobytes, so that making its layout fails |
| LayoutFactories.PackedIsNonOverlapping | src/storage/DataLayoutFactory.cpp:123-131 | in such layouts no two values and no two NULL bits overlap, in whatever rows and blocks they are |
| LayoutFactories.StoreAndScan | src/storage/DataLayoutFactory.cpp:89-227 | what is stored in a table with a row or PAX layout from the factories is what a scan returns, in order, NULLs included |
| FirstSets.FirstSet.AppendTerminal | utils/first_follow.py:433-442 | the sequences become the k-prefixes of their concatenations with the terminal |
| FirstSets.FirstSet.AppendSet | utils/first_follow.py:444-463 | the sequences become the k-prefixes of all concatenations with the other set |
| FirstSets.BreakEarly | utils/first_follow.py:481-483 | once all sequences have length k the rest of the rule does not change them, because it derives some word |
| FirstSets.AnalyzeRule | utils/first_follow.py:478-507 | for any grammar the loop over a rule yields its outcome: the sequences, or that a symbol is unknown |
| FirstSets.AnalyzedIsRight | utils/first_follow.py:478-507 | if all symbols of a rule derive some word, or those before the first that does not only derive words shorter than k: the sequences are true prefixes and all that the known sets give, and a rule that stops is used by no derivation the known sets cover |
| FirstSets.Round | utils/first_follow.py:474-524 | for any grammar and any map that meets the assertions, the loops of a round compute the union of the outcomes of all rules |
| FirstSets.RoundIsRight | utils/first_follow.py:474-524 | if every rule is like that: a round is sound and covers derivations that are higher by one, though its sets need not grow |
| FirstSets.ComputeFirst | utils/first_follow.py:470-530 | for every grammar in which no rule can end early in front of a symbol that derives no word: the iteration ends, with sets for exactly the nonterminals that derive some word, of exactly the k-prefixes of their words |
| FirstSets.ProductiveHasNoEarlyEnd | utils/first_follow.py:481-483 | this is so for every grammar whose symbols all derive some word |
| FirstSets.UselessHasNoEarlyEnd | utils/first_follow.py:481-483 | it is also so for a grammar with a nonterminal that derives no word |
| FirstSets.RoundsAlternate | utils/first_follow.py:473-528 | on a grammar with a symbol that derives no word no two rounds ever agree, so the iteration does not end |
| HeuristicSearch.MergeIsOrdered | include/mutable/IR/HeuristicSearchPlanEnumerator.hpp:1282-1293 | putting the union of two subproblems in the place of the larger one keeps the state in ascending order |
| HeuristicSearch.OrderIsUnique | src/IR/HeuristicSearchPlanEnumerator.cpp:53-73 | a state is determined by its set of subproblems |
| HeuristicSearch.Delta | src/IR/HeuristicSearchPlanEnumerator.cpp:52-73 | the walk over two neighbouring states returns exactly the two subproblems that were merged |
| HeuristicSearch.UnionIsNew | src/IR/HeuristicSearchPlanEnumerator.cpp:85-86 | while plans exist only for parts of the current subproblems, the union of two of them has none |
| HeuristicSearch.ReconstructBottomUp | src/IR/HeuristicSearchPlanEnumerator.cpp:75-87 | the updates are the joins on the path, in order: each for the two subproblems that the next state has in one, with planned operands and a new union; every subproblem of the state is planned, and every entry spells a tree of its cost |
| HeuristicSearch.ReconstructTopDown | src/IR/HeuristicSearchPlanEnumerator.cpp:89-103 | from the goal upwards: the updates are exactly the n - 1 joins on the way back, in order, ending at the full set, and every entry spells a tree of its cost |
| TwoPhaseOptimizer.GuardNeverMet | src/IR/TwoPhaseOptimizer.cpp:80-85 | in a valid state no two neighbouring joins match the pattern of the associativity rule |
| TwoPhaseOptimizer.ApplyAssociativity | src/IR/TwoPhaseOptimizer.cpp:73-89 | the effect of the rule with its aliasing references, and that a state is returned as it is when the pattern does not match |
| TwoPhaseOptimizer.GenerateNeighbors | src/IR/TwoPhaseOptimizer.cpp:40-62 | the neighbours are the commutations of each join followed by copies of the state itself; all are valid and pass through the same intermediate results |
| TwoPhaseOptimizer.GenerateRandomState | src/IR/TwoPhaseOptimizer.cpp:256-283 | for any order that the shuffle gives, the joins take its relations from behind, the last two first; they are n - 1 disjoint joins, each adding one relation to the union so far |
| TwoPhaseOptimizer.ComputeStateCost | src/IR/TwoPhaseOptimizer.cpp:233-254 | entries are only added, never replaced; every operand has a plan; the result is the sum of the costs of the intermediate results |
| TwoPhaseOptimizer.SameUnionsSameCost | src/IR/TwoPhaseOptimizer.cpp:233-254 | states with the same intermediate results cost the same, so no move ever changes the cost |
| TwoPhaseOptimizer.Climb | src/IR/TwoPhaseOptimizer.cpp:150-172 | hill climbing tries all neighbours once and ends after one round at the state where it started |
| TwoPhaseOptimizer.IterativeImprovement | src/IR/TwoPhaseOptimizer.cpp:135-180 | the states visited are the one of the first shuffle and, for each of ten restarts, the one of its shuffle followed by all its neighbours in order; the state returned is one of them and no dearer than any, and all of them keep their price |
| TwoPhaseOptimizer.SimulatedAnnealing | src/IR/TwoPhaseOptimizer.cpp:182-231 | for every random choice each state visited is the picked neighbour of the one visited before it, so every pick is accepted; there are fifty for every temperature, and the state returned is the one that was given |
| TwoPhaseOptimizer.UpdatePlanTable | src/IR/TwoPhaseOptimizer.cpp:285-297 | the joins of the final state are issued in order; no entry is lost or gets dearer, and for monotone costs no intermediate result stays dearer than the joins that lead to it |
| TwoPhaseOptimizer.Enumerate | src/IR/TwoPhaseOptimizer.cpp:103-133 | over a whole run the states visited are those of iterative improvement, the best of them again and the walk of annealing from it; the final state is that best one, no dearer than any visited; its joins are the last updates, so that for monotone costs the entry of every intermediate result of it, in particular of the full set, costs at most the joins that lead to it; no entry is lost or gets dearer, and every entry spells a tree that is not dearer than it says |
| Blocks.ClearLowestOnWords | src/backend/Interpreter.hpp:46 | `mask & (mask - 1)` removes exactly the lowest slot |
| Blocks.FilterBlock | src/backend/Interpreter.cpp:955-968 | erasing while iterating leaves the tuples whose condition is TRUE, in the order of their slots |
| Blocks.FilterStream | src/backend/Interpreter.cpp:955-968 | however a stream is cut into blocks, exactly the tuples whose condition is TRUE are handed on, in order, and no empty block |
| Blocks.DisjunctiveFilterStream | src/backend/Interpreter.cpp:970-990 | the same for the disjunction of predicates that are evaluated one by one |
| Blocks.LimitStream | src/backend/Interpreter.cpp:1160-1175 | for every cut into blocks, exactly the tuples at positions offset to offset + limit - 1, although the stream is left early; nothing when the sum wraps around |
| Blocks.LimitClause | src/IR/Optimizer.cpp:448-463 | the plan gets a limit operator unless both numbers are zero, so the clause gives the tuples it asks for exactly when not both are zero and their sum fits into a word, or when there is no tuple behind the offset |
| Joins.NestedLoops | src/backend/Interpreter.cpp:1075-1126 | the odometer ends and joins every combination of buffered tuples with every tuple of the last block exactly once, in lexicographic order, keeping those whose predicate is TRUE |
| HashJoin.HashJoin | src/backend/Interpreter.cpp:994-1043 | the batched probe phase yields, as a bag, every build tuple with an equal key for every probe tuple; no batch is empty or too large |
| FilteredJoin.HashJoinBelowFilter | src/backend/Interpreter.cpp:994-1031 | a hash join directly below a filter, which erases tuples from the output block of the join, hands on only results that pass the filter, for any cut into blocks; it hands on all of them exactly if for every probe tuple the blocks that it hands on keep its results, which holds if no key occurs more than 64 times in the build side, and in every run that puts results into slots in use only |
| FilteredJoin.LosesNothingIff | src/backend/Interpreter.cpp:1008-1023 | of the results for one probe tuple, behind those already in the block, none is lost exactly if, among the results handed on before the last block, every one that passes comes behind passing ones only in its slot |
| FilteredJoin.SafeForAllFilters | src/backend/Interpreter.cpp:1008-1023 | no filter at all can make results get lost exactly if all results handed on from the same slot are equal |
| FilteredJoin.AssertedLosesNothing | src/backend/Interpreter.hpp:124-129 | results for one probe tuple that are all put into slots in use, as the access to a slot asserts, all reach the filter, however often the block is handed on |
| FilteredJoin.ResultsGetLost | src/backend/Interpreter.cpp:1008-1013 | the bound of 64 is tight: after a probe tuple with 64 results that fail, a probe tuple with 65 results that pass loses 64 of them |
| HashJoin.NestedLoopsJoin | src/backend/Interpreter.cpp:1044-1139 | over all blocks of the last child the nested loops yield the bag of all combinations that satisfy the predicate |
| HashJoin.JoinsAgreeIff | include/mutable/IR/Tuple.hpp:301-310 | for conjunctions of equalities both joins yield the same bag if and only if no build and probe tuple have equal keys with a NULL in them, since tuples compare NULL as equal |
| Grouping.RunMeans | src/backend/Interpreter.cpp:1179-1284 | the running COUNT, SUM, MIN and MAX are the folds over the arguments that are not NULL, and the running AVG is their mean as long as none comes behind a NULL |
| Grouping.AverageRightIff | src/backend/Interpreter.cpp:1233-1245 | the divisor of AVG counts all tuples: given which arguments are NULL, it is the mean for all values of the others if and only if none of them comes behind a NULL |
| Grouping.HashBasedGrouping | src/backend/Interpreter.cpp:1501-1507 | for any cut of the input into blocks: one group for each distinct key, with the aggregates of its tuples |
| Grouping.GroupsMean | src/backend/Interpreter.cpp:1286-1303 | a key has a group exactly if some tuple has that key; its count and values are those of the tuples with the key |
| Grouping.EmitGroups | src/backend/Interpreter.cpp:1509-1528 | every group is handed on exactly once, in blocks that fit, and the counts add up to the number of tuples |
| Grouping.AggregateStream | src/backend/Interpreter.cpp:1305-1395 | aggregation without keys computes the folds over the whole input for any cut into blocks; over no tuples counts, sums and averages are zero, and MIN and MAX are NULL |
| Grouping.KeylessAgrees | src/backend/Interpreter.cpp:1530-1583 | on non-empty input it agrees with grouping under one key that is the same for all tuples |

## Left out

- SpanningForest.MinimumSpanningForest: least weight is stated for weights that are not negative, as selectivities are, and do not depend on the direction of an edge.
- IKKBZ.Enumerate: requires a connected query graph, as the code insists when it compares the length of the linearization with the number of sources; so does `LinearizedDP` for two or more relations.
- IKKBZ.Linearize: the rank of a relation is an arbitrary function of it and its parent, instead of the formula from cardinality estimates.
- TopDownEnumerator.TDbasic: starts from at least one relation.
- SubsetEnumerators.DPsub: the number of relations is unbounded; the engine shifts one by that number in a word of 64 bits, so that it has at most 63 of them.  The arithmetic on words of any width is proved separately in `SmallBitset`.
- PlanTables.PlanTable.Update: cardinality models are functions of the set of relations, and costs are real numbers; data models, rounding and infinities are not modelled.
- SizedSubsets.IncrementOnWords: the overflow for a set whose run of low bits ends at the width of the word is excluded; the enumerations stop before it because they use fewer elements than bits.
- SizeEnumerators.DPsize: for a portable build with more than 32 relations, the pairs that are missed besides those of `SizeEnumerators.SparedMisses` are not listed, and on a query graph that is not connected it is not said whether any is missed; the same holds for `DPsizeOpt` and `DPsizeSub`.  That the calls find the cheapest plans is said of all costs, not of those of one run, where a missed pair need not matter; of `DPsizeSub` it is said of both.
- PartialPlanGenerator.ForEachCompletePartialPlan: the callback is modelled by the sequence of plans that it is given.
- Cnf.ConversionPreservesTruth: atoms are arbitrary three-valued values; comparisons of other types, functions and subqueries are atoms.
- QueryGraph.GraphBuilder.TryEmplace: hashing is modelled by an arbitrary choice whether an equal clause is found, and the iteration over bound clauses takes any order.
- QueryGraph.PlanWhere: WHERE clauses without subqueries and correlation, over one source or more; which sources a predicate mentions is a parameter.
- FilterSplitting.OptimizeFilter: the weight of a clause is a parameter.
- JoinOrder.Construction.Build: operator trees are values, so their ownership and operator information are not modelled.
- SchemaMinimization.SchemaMinimizer.Visit: returns the new operator tree instead of updating it in place, and ignores the constraint flags of schema entries.
- SchemaPreservation.MinimizePreservesRows: operators without repeated names in a schema, expressions that read only what they declare, and sorting by an arbitrary function of the sort keys; physical choices for operators are not modelled.
- DataLayouts.Cursor.Run: the run after the last row of a bounded layout is excluded, since no row follows it.
- DataLayouts.Compile: leaves are identified by their position in the layout, all leaves are accessed, and the stack code is modelled by its effect on pointers, masks and counters.
- LayoutLimits.RightIffSupported: speaks about unbounded repetition; for a bounded layout the same condition is proved sufficient by `DataLayouts.Cursor.Run`.  Addresses do not wrap around.
- LayoutAccess.Scan: values are bit strings of fixed width, and all attributes are loaded; a value that is NULL leaves the bits of its leaf as they are.
- LayoutFactories.MakePAX: a row with its bitmap takes less than a 64th of 2^64 bits, and a block in bytes fewer than 2^64 bits; apart from the room for rows, sums and products are not wrapped around.
- FirstSets.ComputeFirst: for a grammar with a rule that can end early in front of a symbol that derives no word neither the end of the iteration nor its result is characterised; `FirstSets.RoundsAlternate` shows that it need not end.
- HeuristicSearch.Delta: states are ascending arrays of subproblems; the other representations of states are not modelled.
- TwoPhaseOptimizer.Enumerate: two relations or more, since for one relation the unsigned count of neighbours wraps around; random choices are parameters, temperatures are real numbers, and of the exponential function only its value at zero is used.
- HashJoin.HashJoin: speaks about parents that leave the output block as it is; tuples that are found come in any order.
- FilteredJoin.HashJoinBelowFilter: the condition speaks about the results in the order in which they are found, since the hash table gives equal keys in any order; a limit directly above the join, which erases tuples as well, is not modelled.
- Joins.NestedLoops: blocks are handed on as sequences of their tuples.
- Grouping.RunMeans: numbers are reals.
- DPccp, TDMinCutAGaT, GOO, TDGOO and the A* search itself are not part of this model.
- `ComputeFollow` changes the first sets of its caller in place and is not part of this model.
- HAVING, subqueries in SELECT, lifting of correlated clauses and the WebAssembly backend are not part of this model.
- Parsing, printing, catalog registration, timers, memory management and benchmarks would only add input and output.

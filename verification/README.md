# Cone path planner: seeding and first centre points

A Dafny model of the part of the cone-following path planner that runs when a
planner is constructed from the first snapshot of cones
(`src/path_planner.cpp`):

- **Classification.** Each cone is put in a list by its colour tag. `'b'` cones
  go to the left staging queue, `'y'` cones to the right staging queue and
  `'r'` cones to the timing list. Cones of any other colour are dropped.
- **Sorting.** `sortConesByDist` writes into each staged cone its distance to a
  reference point. It then sorts both queues by that distance using
  `compareConeDist`.
- **Seeding.** The car position becomes the first centre point. Each boundary
  chain starts with the staged cone of its colour that is nearest the car.
- **Promotion.** `popConesToAdd` moves queue heads onto the ends of the chains
  while they pass a distance gate.
- **Pairing.** `addFirstCentrePoints` pairs each left chain cone with a right
  chain cone found by `findOppositeClosest`. Each pair's midpoint becomes a
  centre point.
- **Reset.** `resetTempConeVectors` empties both staging queues.

## How the model represents the code

- **Index store.** The source keeps raw pointers to cones. The model keeps one
  store, a `seq<Cone>`. Every queue, chain and list holds `nat` indices into
  it.
- **State.** The planner's fields form one immutable `State` record. Each
  operation is a pure function from state to state.
- **Coordinates.** Coordinates are exact `real`s. Every `std::hypot(dx, dy) < c`
  is compared as `dx*dx + dy*dy < c*c`. Over the reals this is the same test,
  and `Geometry.SquaredCompare` states why.
- **Scratch distance.** The `dist` field holds the squared distance. Squaring is
  monotone, so the comparator orders every pair the same way.
- **`std::sort`.** It is modelled by an insertion sort whose contract promises
  only what `std::sort` promises: a permutation sorted by the comparator.
  No stated property depends on which sorted permutation is chosen, although
  the planner's behaviour does: among cones at equal distance, the choice
  decides which one seeds a chain and which head is gated first.
- **Promotion loop.** The loop is a recursive function. It decreases on the
  total number of staged cones.
- **`*end()` in `popConesToAdd`.** Line 142 re-sorts the queues against
  `(*l_cones_to_add.end())->position`, which reads past the end of the vector.
  That reference point is an arbitrary parameter `pastEnd`, a function of the
  iteration number. No stated property depends on its value.

Modules follow the program's structure:

| file | module | contents |
|---|---|---|
| geometry.dfy | `Geometry` | points, squared distances, midpoints |
| cones.dfy | `Cones` | the cone record, colour tags, index predicates |
| planner_state.dfy | `PlannerState` | the planner state and its well-formedness |
| classifier.dfy | `Classifier` | the constructor's classification loop |
| staging.dfy | `Staging` | `compareConeDist`, `sortConesByDist`, `resetTempConeVectors` |
| sequencer.dfy | `Sequencer` | `popConesToAdd` |
| centreline.dfy | `Centreline` | `findOppositeClosest`, `addFirstCentrePoints` |
| planner.dfy | `Planner` | the constructor |

### Where the code departs from the planner's design description

In each case the model follows the code.

- **Gate reference.** The described gate measures a head's distance from the
  second queued cone during construction and from the chain's tail in later
  cycles. The code measures it from the origin (lines 119 and 130).
- **Failing head.** The described behaviour discards a head that fails the
  gate. The code leaves it queued, and the loop stops once no head passes.
- **Sort stability.** The design asks for a stable sort. The code calls
  `std::sort`, which is not stable.
- **Re-sort reference.** The design re-sorts against each chain's newest cone.
  The code reads past the end of the staging queues (line 142).
- **Index direction.** The design pairs each left cone with its nearest right
  cone. The code's search returns a count taken from the END of the right
  chain (lines 91–98), and the caller uses that count as a forward index
  (lines 73–74). The designated cone is the nearest one, but the cone actually
  paired need not be. `Centreline.MirrorIndexPairsConeOutsideRadius` shows a
  pairing with a cone outside the radius.
- **Guard.** The design pairs only unmapped cones. The code's guard
  `~left_cones[i]->mapped` complements a `bool` promoted to `int`. That value
  is never zero, so every cone is tried (line 68).
- **Later gates.** The design also gates new centre points by distance to the
  car and adds a fallback tail midpoint. Neither appears in this code.

## Model

| member | source | states |
|---|---|---|
| Classifier.ClassifyPrefix | src/path_planner.cpp:17-35 | after the first `n` cones, each of the three lists holds, in store order and once each, exactly the indices below `n` whose cone has that list's colour; the counters equal the queue lengths |
| Classifier.Classify | src/path_planner.cpp:17-35 | classification is an order-preserving partition: an index is in the left, right or timing list exactly when its cone is `'b'`, `'y'` or `'r'`, every list is strictly increasing, other colours are dropped, and `num_l`/`num_r` equal the staged counts |
| Classifier.SelectionUnique | src/path_planner.cpp:17-35 | the selection property determines the list completely, so `Classify`'s contract pins down its result |
| Classifier.IncreasingSameElements | src/path_planner.cpp:17-35 | two strictly increasing index lists holding the same indices are equal; this is why a selection is unique |
| Staging.CompareConeDist | src/path_planner.cpp:176-179 | the comparator never ranks a cone below itself and never ranks two cones below each other; `CompareConeDistStrictWeakOrder` completes the strict weak ordering |
| Staging.CompareConeDistStrictWeakOrder | src/path_planner.cpp:176-179 | `compareConeDist` is irreflexive and transitive, and incomparability is transitive: the strict weak ordering `std::sort` requires |
| Staging.Insert | src/path_planner.cpp:159-160 | inserting a cone adds exactly that cone to the queue's multiset and keeps every index valid |
| Staging.InsertSorted | src/path_planner.cpp:159-160 | inserting into a queue sorted by `compareConeDist` keeps it sorted |
| Staging.Sort | src/path_planner.cpp:159-160 | the sorted queue is a permutation of the input with no later cone comparing less than an earlier one |
| Staging.SetDists | src/path_planner.cpp:150-156 | every queued cone's scratch distance becomes its squared distance to the reference; positions, colours, marks and every other cone's distance stay |
| Staging.SortedByDistFrom | src/path_planner.cpp:150-160 | once the distances are written, a queue sorted by the comparator is in ascending distance from the reference point |
| Staging.SortConesByDist | src/path_planner.cpp:148-164 | both queues become sorted permutations of their contents; the right queue is ascending by distance to its reference, and so is the left queue when the queues share no cone; both sorted flags become true; chains, centre points, positions and marks are unchanged |
| Staging.ResetTempConeVectors | src/path_planner.cpp:166-174 | both queues become empty and both sorted flags false, with chains, store and centre points untouched and every index still valid |
| Sequencer.PassesGate | src/path_planner.cpp:119-120 | a cone passes the promotion gate exactly when it lies strictly within 5 of the origin |
| Sequencer.PromoteHead | src/path_planner.cpp:117-127 | a queue head moves to the end of its chain exactly when its distance from the origin is below 5; a head that fails stays queued; chain plus queue keep the same multiset and the chain keeps its prefix |
| Sequencer.ConservesTrans | src/path_planner.cpp:111-145 | prefix-preserving, gated, element-conserving growth composes across iterations |
| Sequencer.Promote | src/path_planner.cpp:113-138 | one iteration's promotions: a side whose head passes moves exactly that head to the end of its chain and drops it from its queue; a side whose head fails is unchanged; the staged total shrinks exactly when some head passes |
| Sequencer.Iterate | src/path_planner.cpp:111-145 | a passing head is appended to its chain; when cones remain staged, both queues are then sorted by the comparator, both sorted flags are set and the right queue is ascending by distance to its reference; the loop goes round again exactly when some head was promoted and cones remain staged, and then the staged total has shrunk; this is the termination argument |
| Sequencer.PopLoop | src/path_planner.cpp:111-145 | the loop keeps every chain's prefix, adds only cones that pass the origin gate, loses no staged cone, and leaves positions, marks, centre points and the counter alone; a queue head that passes the gate on entry is the first cone its chain gains |
| Sequencer.PopConesToAdd | src/path_planner.cpp:105-146 | from the incoming queues: each chain keeps its prefix, gains only gated cones from its own queue and loses nothing staged; a head that passes on entry is the first cone its chain gains |
| Sequencer.PopLoopDrainsPassingQueues | src/path_planner.cpp:111-145 | when every staged cone passes the gate, the loop ends with both queues empty |
| Sequencer.PopLoopStopsOnlyAtFailing | src/path_planner.cpp:111-145 | when the loop stops, every queue it leaves non-empty still holds a cone that fails the gate, whatever order the last re-sort put it in |
| Sequencer.PopLoopKeepsChainsWhenNonePass | src/path_planner.cpp:111-145 | when no staged cone passes the gate, both chains are left exactly as they were |
| Sequencer.PopAfterResetKeepsChains | src/path_planner.cpp:166-174 | after `resetTempConeVectors`, promotion adds nothing to either chain and the queues stay empty |
| Centreline.Complement | src/path_planner.cpp:68 | `~mapped` on a `bool` promoted to a 32-bit `int` is never zero, so the guard is always taken |
| Centreline.ScanFromKeepsInv | src/path_planner.cpp:91-101 | over the squared distances in visiting order, the scan answers -1 when none is inside the radius, and otherwise the first position of a smallest one inside it |
| Centreline.VisitDistsFrom | src/path_planner.cpp:91-93 | the reverse iterator from `j` steps back visits one squared distance per remaining cone |
| Centreline.VisitDistsFromAt | src/path_planner.cpp:91-93 | entry `d` of the distances visited from `j` on is the squared distance to the cone `j + d` steps back from the end |
| Centreline.ScanFrom | src/path_planner.cpp:91-101 | the scan answers -1 or a visiting position, and either keeps the index it carries or replaces it by a position visited from `i` on; `ScanFromKeepsInv` says which |
| Centreline.FindOppositeClosest | src/path_planner.cpp:84-103 | the result is -1 or a position counted back from the chain's end; what it designates is stated by `FindOppositeClosestFinds` |
| Centreline.FindOppositeClosestFinds | src/path_planner.cpp:86-102 | -1 exactly when no cone is strictly within 6; otherwise, for a chain of `m` cones, the cone `cones[m-1-r]` is within 6, no farther than any other, and strictly closer than every cone after it, so ties go to the highest forward index |
| Centreline.FindIgnoresMapped | src/path_planner.cpp:84-103 | the search reads only positions: stores that differ only in marks and scratch distances give the same answer |
| Centreline.MarkMapped | src/path_planner.cpp:76-77 | marking a cone raises its `mapped` flag and changes no other cone |
| Centreline.PairOne | src/path_planner.cpp:70-79 | on a match, exactly one centre point is appended, the midpoint of the left cone and the right cone at the returned index used forward; both are marked, no other cone is newly marked, and `l_cone_index` grows by one; on -1 nothing changes |
| Centreline.AddFrom | src/path_planner.cpp:66-81 | the loop from `i` to `n` appends, in left-chain order, one pair midpoint per matched cone, keeps the centre prefix, counts the appends in `l_cone_index`, marks both cones of each pair and newly marks no other cone |
| Centreline.PairingBound | src/path_planner.cpp:62 | the bound is the length of the shorter chain |
| Centreline.AddFirstCentrePoints | src/path_planner.cpp:60-82 | every left cone below the shorter chain's length is tried; the centre points keep their prefix and gain exactly one point per match, the exact midpoint of the pair, in chain order; `l_cone_index` grows once per point; both cones of each pair are marked, no other cone is newly marked, and no other part of the state changes |
| Centreline.CentresFromPaired | src/path_planner.cpp:66-81 | the appended points, restated over the resulting store, are the pair midpoints of the matched cones in chain order |
| Centreline.AddFirstIgnoresMappedFlags | src/path_planner.cpp:68 | because the guard never skips a cone, the marks a state starts with make no difference to the centre points appended |
| Centreline.MirrorIndexPairsConeOutsideRadius | src/path_planner.cpp:70-74 | with the left cone at (0, 0) and right cones at (1, 0) and (10, 0), the search returns 1 for the cone at (1, 0), and the code pairs the left cone with the cone at (10, 0), which lies outside the radius, giving centre point (5, 0) |
| Geometry.Midpoint | src/path_planner.cpp:73-74 | the centre point is equidistant from both cones and half their distance from each |
| Geometry.SquaredCompare | src/path_planner.cpp:93-95 | for non-negative lengths, comparing them and comparing their squares agree |
| Planner.Stage | src/path_planner.cpp:10-39 | after classification both queues hold the classified cones, the chains are empty and the car position is the only centre point |
| Planner.Seed | src/path_planner.cpp:45-52 | each chain becomes its queue's head; the queue keeps the rest of its cones in their old order; both sorted flags are cleared |
| Planner.SeedsAreNearest | src/path_planner.cpp:41-46 | after sorting by distance to the car, each queue's head is the cone of its colour nearest the car |
| Planner.Prepare | src/path_planner.cpp:10-55 | up to the promotion loop: each chain holds just the nearest cone of its colour, seed plus queue hold exactly that side's classified cones, each queue is in ascending distance from its own seed after the re-sort at line 55, and the car is the only centre point |
| Planner.Complete | src/path_planner.cpp:56-57 | promotion then pairing keeps the seeds at the chain heads, makes a queue head that passes the gate the second cone of its chain, adds only gated cones, loses no staged cone, and follows the car position with one midpoint per matched left cone |
| Planner.Init | src/path_planner.cpp:7-58 | given at least one `'b'` and one `'y'` cone: `centre_points[0]` is the car position and the rest are the pair midpoints in chain order with `l_cone_index` counting them; each chain starts with its side's cone nearest the car and grows only by gated cones; chain plus queue hold exactly that side's cones; timing lists the `'r'` cones; `raw_cones` is the snapshot as passed |

## Left out

- Pointer lifetime. The staging queues point into the by-value `cones`
  parameter (lines 17–33), so they dangle once the constructor returns. The
  model uses store indices. That store is the parameter's copy, so marks and
  scratch distances land there and not in `raw_cones`.
- `delete` in `resetTempConeVectors` (lines 168–169). It frees pointers the
  planner never allocated. Memory is not modelled, so the model only clears
  the queues.
- The value read past the end of the queues at line 142. It is undefined
  behaviour, so it is a parameter with no stated property.
- Floating point. `float` rounding and `std::hypot` are replaced by exact reals
  and squared distances.
- Header defaults. The initial values of `l_cone_index` and of the sorted flags
  are set in a header that is not part of this model. The model starts the
  counter at 0. Both flags are overwritten before they are read.
- The velocity settings. `const_velocity`, `v_max`, `v_const` and `max_f_gain`
  are only stored by this code.
- `<iostream>`, and the curvature, velocity and finish-line logic, which are
  not in this code.
- Planner.Init: requires at least one `'b'` and one `'y'` cone, because the
  source dereferences the first element of both staging queues (lines 45–46),
  which is undefined when a queue is empty.
- Centreline.FindOppositeClosest: its own contract bounds the result only.
  The full characterisation is the lemma `FindOppositeClosestFinds`, kept
  apart so that pairing proofs do not carry it.
- Sequencer.PopConesToAdd: says nothing about the order of the queues it
  leaves behind, because the last re-sort uses reference points read past the
  end of the queues.
- Sequencer.PopLoop: does not name the cones left at the heads of the queues
  at exit, because the exiting iteration re-sorts the queues against
  past-end points after gating them. `PopLoopStopsOnlyAtFailing` states what
  holds whatever that order: each non-empty queue still holds a failing cone.
- Planner.Init: does not restate `Complete`'s clause that a re-sorted queue
  head which passes the gate becomes the second cone of its chain, because
  the re-sorted queues are internal to the constructor and naming them would
  repeat the whole preparation in its contract.
- Staging.SortConesByDist: promises the left queue ascending by distance to its
  own reference only when the two queues share no cone. A shared cone's
  scratch distance is overwritten by the right-hand pass. The constructor's
  queues never share a cone.

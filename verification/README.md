# Verified model of the sofmat placement, gating and handoff core

sofmat runs one language model over several machines of a LAN. This project models the parts of
it that keep real state or solve a real optimisation problem, and proves what they promise:

- **The partitioner** (`Layers`, `Plans`, `Pools`, `Solver`, `Budgets`, `IdSets`, `Packing`, `Replicas`,
  `Roles`) splits the layers over heterogeneous nodes, searches all groups of nodes for the fastest plan,
  packs disjoint replicas with a memoised subset search and reserves nodes for prefill and draft.
- **Two lock-based protocols** (`ConvGate`, `SlotPool`), as state machines whose steps are the
  critical sections of the program, run in any order; `PlanLifecycle` runs the paths of a turn on
  the gate, and `GateLeaks` the whole service, turns that panic included.
- **The KV wire stack** (`Bytes`, `Framing`, `Transport`, `KvHandoff`), from bytes up to the
  chunked, hashed handoff of a KV blob over one stream.
- **Bounded registries and the hash ring** (`Recency`, `KnownPrefixes`, `StickyTable`, `Ring`).
- **The self-updater** (`UpdateGuard`, `UpdateRuns`): its persisted guards and runs with restarts.
- **Room on a decode engine** (`DecodeRoom`) and **the streaming tool-call counter** (`SseToolCalls`).

Code that changes state is modelled by methods and classes, each proved against a function of its
inputs; the lemmas are about those functions. `Sums`, `Seqs`, `Sets`, `Options` and `StringOrder` hold shared facts.
`dafny verify dfyconfig.toml` checks everything.

## Where the program does something other than it says

- The comment at gateway.go:772 promises a release on every path. A turn keeps the gate for good exactly
  when the backend of `Chat` panics or `Finish` panics before it reaches finishRecord
  (`PlanLifecycle.RunTurn`, `GateLeaks.EmptyIffNoLeak`); from then on every request of that conversation
  waits its whole limit (`GateLeaks.LeakShutsTheConversation`; `GateLeaks.BackendPanicLeaks` is a run).
- "No map satisfies the network budget" (solver.go:338-342) is reported although one does exactly when no
  group's fastest split passes and some group's slowest does (`Budgets.SolveMissesMapIff`, at an input
  `Budgets.SolveMissesAMap`): planForSubset judges a group by its fastest split alone (solver.go:253-255).
  For the same reason Solve may return a slower map than it could (`Budgets.SolveReturnsASlowerMap`);
  `Budgets.SolveIsFastestMapIff` and `Budgets.SolveHasFewestHostsIff` say when it does not. SolveReplicas
  then blames memory (solver.go:538-542) for what the network budget did (`Replicas.RefusedForTheNetwork`).
- The updater's comments promise a finite number of attempts, kept on disk. Installing clears the counter
  before the re-exec, so a node whose re-exec fails downloads and installs the same release at every
  check (`UpdateRuns.FailedReexecsAreUnbounded`); `UpdateRuns.BudgetHoldsIffReexecWorks` is the exact condition.
- Content whose sha is already refused, and a file that does not answer, are turned down without marking
  the tag, so the artifact is downloaded again until the budget ends (`UpdateRuns.StaleRun` reaches the
  case, `UpdateRuns.RefusalEndsDownloadsIff` is the exact condition).
- `SendKV` accepts any chunk size up to the payload cap, but a piece over 2^24 bytes fails in the frame's
  dimension limit; a count of 2^32 chunks or more cannot be received; and where `total + chunkBytes` leaves
  63 bits it sends no chunk at all and reports success (`KvHandoff.SendSucceedsIff`,
  `KvHandoff.HandoffRoundTrip`; at inputs `KvHandoff.LongPieceIsRefused`, `KvHandoff.TooManyChunksAreLost`,
  `KvHandoff.OverflowLosesTheBlob`).
- `decodeRoom` counts idle slots that report no id, which `makeDecodeRoom` cannot erase; the two
  agree exactly on the snapshots of `DecodeRoom.CheckAgreesWithEviction` (at an input
  `DecodeRoom.NamelessSlotDisagrees`).

## Model

| member | source | states |
|---|---|---|
| `Layers.GreedyIsOptimal` | internal/partitioner/solver.go:166-216 | A split that loads a slower node beyond its first layer only when every faster one is full costs no more per token than any split giving each node 1..cap layers (exchange argument) |
| `Layers.GreedyIsUnique` | internal/partitioner/solver.go:193-214 | With ties broken by position there is only one such split, so the answer is deterministic |
| `Layers.GreedyExists` | internal/partitioner/solver.go:171-216 | Whenever every cap is at least 1 and the caps add up to enough layers, such a split exists |
| `Layers.SplitOfIsBest` | internal/partitioner/solver.go:171-216 | The split is nil exactly when no split gives every node 1..cap layers; otherwise none is faster |
| `Layers.StableOrder` | internal/partitioner/solver.go:193-203 | The order of filling is a permutation, fastest first, equal speeds in position order |
| `Layers.FillFastestFirst` | internal/partitioner/solver.go:171-216 | The filling loop computes the best split and places every layer |
| `Plans.StageMS` | internal/partitioner/solver.go:55-66 | An error exactly when the node has neither a measured nor a declared speed; the measured one wins |
| `Plans.Fits` | internal/partitioner/solver.go:158-164 | True exactly when the summed caps hold the resident model |
| `Plans.CollectCaps` | internal/partitioner/solver.go:172-184 | The truncated caps and their sum, or none when some node cannot hold a layer |
| `Plans.CollectSpeeds` | internal/partitioner/solver.go:193-202 | The per-layer times, or the first node without a speed |
| `Plans.AssignLayers` | internal/partitioner/solver.go:171-216 | No split when memory does not allow one, checked before speeds; then the first node without speed is the error; then the best split |
| `Plans.BuildStages` | internal/partitioner/solver.go:228-245 | Each stage starts where the previous ones end, with its memory and time; the compute times add up |
| `Plans.BuildPlan` | internal/partitioner/solver.go:228-259 | Token time is compute plus one boundary per link; the network share is its fraction |
| `Plans.PlanForSubset` | internal/partitioner/solver.go:218-259 | Error, no plan or plan, as the specification of a group says |
| `Plans.PlanIsFastest` | internal/partitioner/solver.go:218-259 | The plan of a group is no slower than the plan of any split of it that respects the caps |
| `Plans.PlanIsSound` | internal/partitioner/solver.go:218-259 | Stages tile layers 0..NLayers contiguously, one per node of the group, within each memory cap and the network budget, and take time |
| `Plans.HoldableFits` | internal/partitioner/solver.go:158-164 | Truncated per-node caps that hold all layers imply that the summed memory holds the model |
| `Plans.MeasuredSpeedWins` | internal/partitioner/solver.go:55-66 | A measured speed is used whatever bandwidth was declared |
| `Plans.DeclaredSpeedReads` | internal/partitioner/solver.go:55-66 | A declared bandwidth moves weights and one slot of KV per token, split over the layers |
| `Plans.ResidentIsFootprint` | internal/partitioner/solver.go:105-121 | What stays resident is the weights, the KV of every batch slot and the cached prefixes |
| `Plans.CapIsLargest` | internal/partitioner/solver.go:172-184 | A node's cap is the largest number of layers whose share of that footprint fits its memory |
| `Plans.StagesMean` | internal/partitioner/solver.go:226-242 | Every field of a stage, its memory a share of the footprint |
| `Plans.PlanTimeMeans` | internal/partitioner/solver.go:243-252 | Token time is all stage times plus one boundary between each two stages; the fraction is the boundaries' share |
| `Pools.PresentSortedIsPool` | internal/partitioner/solver.go:265-274 | Exactly the present nodes, in strict id order |
| `Pools.PresentSortedIgnoresOrder` | internal/partitioner/solver.go:265-274 | Any permutation of the input gives the same pool |
| `Pools.SortPresent` | internal/partitioner/solver.go:265-274 | The filter and sort compute that pool |
| `Pools.DropNodes` | internal/partitioner/solver.go:381-387 | The pool without the lost or reserved nodes, in order |
| `Pools.GroupsWithout` | internal/partitioner/solver.go:381-387 | The groups of what is left are the groups that do not use those nodes |
| `Pools.ListUnused` | internal/partitioner/solver.go:549-554 | The ids not in use, in pool order |
| `Pools.CombosComplete` | internal/partitioner/solver.go:276-299 | Every sub-group of a pool is enumerated at its size |
| `Pools.CombosSound` | internal/partitioner/solver.go:276-299 | Whatever is enumerated is a sub-group of exactly k nodes, in pool order |
| `Pools.CombinationsFrom` | internal/partitioner/solver.go:276-299 | The recursive enumeration yields those groups in that order |
| `Solver.SolveIsBest` | internal/partitioner/solver.go:305-377 | Among the groups whose fastest split meets the budget, no floor: no group has a faster plan, and none as fast uses fewer hosts. With a floor of v tokens/s that some plan reaches (ms per token times v at most 1000): the fewest hosts that reach it, the fastest with that many. With an unreachable floor: the fastest. `Budgets` covers the other groups |
| `Solver.SolveBeatsEverySplit` | internal/partitioner/solver.go:305-377 | With no floor the result is no slower than any cap-respecting split of any group whose fastest split meets the budget |
| `Solver.PlannedPoolFits` | internal/partitioner/solver.go:158-164 | The memory pre-check never rejects a pool in which some group has a plan |
| `Solver.SolveSucceedsIff` | internal/partitioner/solver.go:305-377 | Which outcome Solve has, for every pool: the memory pre-check, then a node without speed in a group that could hold the model, then whether some group has a plan |
| `Solver.MeasuredPoolSucceedsIff` | internal/partitioner/solver.go:305-377 | With usable profiles it succeeds exactly when some group has a plan |
| `Solver.SmallerPoolIsNoFaster` | internal/partitioner/solver.go:344-353 | With no floor, taking nodes away never makes the best plan faster |
| `Solver.SolveIgnoresOrder` | internal/partitioner/solver.go:265-398 | The whole result, fallbacks included, is the same for every permutation of the nodes |
| `Solver.FallbackIsBest` | internal/partitioner/solver.go:379-396 | The fallback for a lost node avoids it, is the best of the rest in the sense of SolveIsBest, floor included, is absent exactly when no group avoiding it has a plan or the rest fails the memory pre-check, and with no floor is never faster than the main plan |
| `Solver.SearchDepth` | internal/partitioner/solver.go:322-337 | The best plan of the groups of one size, or the first node without speed |
| `Solver.BuildTable` | internal/partitioner/solver.go:322-337 | The table of the best plan per size |
| `Solver.Fastest` | internal/partitioner/solver.go:344-353 | Whatever the map iteration order, the same depth: the fastest, shallowest on ties |
| `Solver.ChooseDepth` | internal/partitioner/solver.go:344-377 | No floor: a fastest depth; a floor some depth reaches: the smallest such depth; else the fastest |
| `Solver.LimitIsFloor` | internal/partitioner/solver.go:359-366 | Comparing with 1000 / floor ms is asking for at least floor tokens per second |
| `Solver.SolvePlan` | internal/partitioner/solver.go:305-377 | The search without fallbacks equals its specification on the sorted present pool |
| `Solver.Solve` | internal/partitioner/solver.go:305-398 | The whole operation, errors included, equals its specification, and a plan it returns is the best in the sense of SolveIsBest |
| `Budgets.BetweenFastestAndSlowest` | internal/partitioner/solver.go:171-216 | Every split of a group lies in time between its greedy split and the greedy split of the reversed speeds |
| `Budgets.FeasibleMeans` | internal/partitioner/solver.go:171-190 | A split is allowed exactly when each node holds at least one layer within its memory and all layers are placed |
| `Budgets.MapMeans` | internal/partitioner/solver.go:218-259 | An in-budget map in terms of the profiles: speeds, memory, layers, and boundaries within the budget's share of the time |
| `Budgets.HasMapIffSlowestPasses` | internal/partitioner/solver.go:245-255 | Some split of a group is within the network budget exactly when its slowest split is |
| `Budgets.GroupLosesMapIff` | internal/partitioner/solver.go:253-255 | A group with an in-budget split is refused exactly when its fastest split is over the budget and its slowest within |
| `Budgets.WronglyNoMapIff` | internal/partitioner/solver.go:338-342 | The error that no map satisfies the budget is wrong exactly when the pool fits, is measured, no fastest split passes and some slowest does |
| `Budgets.SolveMissesMapIff` | internal/partitioner/solver.go:305-342 | With usable profiles: Solve succeeds exactly when some fastest split passes, a map exists exactly when some slowest does, and it misses one exactly between the two |
| `Budgets.SolveMissesAMap` | internal/partitioner/solver.go:338-342 | Two nodes and three layers at which Solve reports no map while the split 1 + 2 is within the budget |
| `Budgets.SolveBeatsEveryMap` | internal/partitioner/solver.go:305-377 | No in-budget map of any group is faster than the result unless its group was dropped, and then only while its links cost less than the budget share of the result |
| `Budgets.SolveIsFastestMapIff` | internal/partitioner/solver.go:305-377 | The result is the fastest of all in-budget maps exactly when every in-budget split of every dropped group is matched by the fastest split of a group that passes |
| `Budgets.NothingDroppedNothingLost` | internal/partitioner/solver.go:305-377 | With no group dropped the result is the fastest of all in-budget maps |
| `Budgets.SolveHasFewestHostsIff` | internal/partitioner/solver.go:356-377 | With a floor the result reaches it with the fewest hosts of all in-budget maps that do exactly when every such map of a dropped group is matched in hosts by a group that passes |
| `Budgets.ResultReachesIff` | internal/partitioner/solver.go:356-377 | The result reaches the floor within k hosts exactly when some group of at most k does with its fastest split |
| `Budgets.SolveReturnsASlowerMap` | internal/partitioner/solver.go:305-377 | Three nodes at which the result takes over 100 ms and an in-budget map 22 ms |
| `IdSets.JoinInjective` | internal/partitioner/solver.go:409-416 | Joining non-empty ids without the separator loses nothing |
| `IdSets.KeyInjective` | internal/partitioner/solver.go:409-416 | Two sets of such ids with one cache key are one set |
| `IdSets.SetKey` | internal/partitioner/solver.go:409-416 | The key depends on the set, not on the map iteration order |
| `IdSets.FindLeast` | internal/partitioner/solver.go:471-476 | The least id, in whatever order the set is visited; the scan uses the empty id for none |
| `IdSets.SortIds` | internal/partitioner/solver.go:489-493 | The ids in order, each once |
| `IdSets.ListingIncreases` | internal/partitioner/solver.go:489-493 | In strictly increasing order |
| `IdSets.SelectCovers` | internal/partitioner/solver.go:494-500 | Every subset of the remaining ids is selected by some mask below 2^n |
| `IdSets.SelectLoop` | internal/partitioner/solver.go:494-500 | The bit loop selects that subset |
| `Packing.NearlyOptimal` | internal/partitioner/solver.go:456-528 | The aggregate is within eps * (2^n - 1) of every family of disjoint groups with plans |
| `Packing.ExactlyOptimal` | internal/partitioner/solver.go:456-528 | With eps = 0 it is optimal, and among equals has the fewest replicas |
| `Packing.DealIsFamily` | internal/partitioner/solver.go:456-528 | The answer is itself a family of disjoint groups whose rates add up to the aggregate |
| `Packing.PlacesWhenWorthwhile` | internal/partitioner/solver.go:456-528 | Something is placed exactly when some group alone runs faster than eps |
| `Packing.ScanLoses` | internal/partitioner/solver.go:494-525 | One scan over the masks loses at most one eps per mask against every offer and against idling the node |
| `Packing.ScanIsExact` | internal/partitioner/solver.go:494-525 | With eps = 0 a scan loses nothing, neither speed nor replica count |
| `Packing.RateMeans` | internal/partitioner/solver.go:517 | A plan serves 1000 / ms tokens per second |
| `Replicas.ReplicaSearch.constructor` | internal/partitioner/solver.go:427-461 | Empty tables over the present nodes |
| `Replicas.ReplicaSearch.Gather` | internal/partitioner/solver.go:438-441 | The nodes of the set, in any order |
| `Replicas.ReplicaSearch.PlanFor` | internal/partitioner/solver.go:432-454 | With the plan cache the answer is that of Solve on the group, whatever order the set is listed in |
| `Replicas.ReplicaSearch.BestAssignment` | internal/partitioner/solver.go:463-528 | With both memo tables the answer is that of the search without any |
| `Replicas.ReplicaSearch.TryAllMasks` | internal/partitioner/solver.go:489-525 | The mask loop, with the tables changing underneath, is the plain scan |
| `Replicas.ReplicaSearch.TryMask` | internal/partitioner/solver.go:494-525 | One mask is one step of the scan |
| `Replicas.Prefer` | internal/partitioner/solver.go:517-524 | With 1000 / ms tokens per second: a candidate replaces the best exactly when it is better by more than 1e-9, or equal within 1e-9 with fewer replicas |
| `Replicas.PlannerUsesGroup` | internal/partitioner/solver.go:433-454 | A group's plan uses only nodes of the group, is a plan of the pool and takes time |
| `Replicas.DealIsGood` | internal/partitioner/solver.go:432-558 | The found plans are plans of the pool, pairwise disjoint, their rates add up to the aggregate, and no family of disjoint groups beats it by more than the tolerance allows |
| `Replicas.RatesIgnoreOrder` | internal/partitioner/solver.go:555-558 | Sorting the replicas does not change what they add up to |
| `Replicas.SortPlans` | internal/partitioner/solver.go:555-557 | A permutation in key order |
| `Replicas.CollectUsed` | internal/partitioner/solver.go:543-548 | The nodes of all replicas |
| `Replicas.SearchAll` | internal/partitioner/solver.go:530-537 | Starting from empty tables, the search over all present nodes |
| `Replicas.SolveReplicas` | internal/partitioner/solver.go:421-559 | Disjoint replicas that with the idle nodes partition the pool, rates adding up to an aggregate within (2^n - 1) / 10^9 of the best; exactly the plans of the search in key order; refused exactly when every group that has a plan takes 10^12 ms per token or more |
| `Replicas.WorthwhileMeans` | internal/partitioner/solver.go:521-522 | A group beats idling exactly when 1000 / ms is above 1e-9 |
| `Replicas.NearlyBestOverMaps` | internal/partitioner/solver.go:432-558 | A placement is within 1e-9 * (2^n - 1) of every family of disjoint in-budget maps of groups that are not dropped |
| `Replicas.RefusedForTheNetwork` | internal/partitioner/solver.go:538-542 | A pool that holds the model and has an in-budget map, refused because its only group is dropped |
| `Replicas.ReplicasIgnoreOrder` | internal/partitioner/solver.go:421-559 | Any permutation of the nodes gives the same replicas in the same order, the same aggregate and the same idle list |
| `Roles.RolesNeverSpeedUpDecode` | internal/partitioner/solver.go:614-783 | With no floor, reserving nodes never makes decode faster than Solve on the whole pool |
| `Roles.DecodeStaysInPool` | internal/partitioner/solver.go:722-727 | The decode plan uses only nodes it was given |
| `Roles.ReservableForms` | internal/partitioner/solver.go:653-682 | The reservations allowed are exactly one node holding both roles or two different nodes holding one each |
| `Roles.Candidates` | internal/partitioner/solver.go:653-682 | All reservations in which each demanded role is resident within its node's cap, and no others, one node before two and in id order |
| `Roles.Evaluate` | internal/partitioner/solver.go:707-750 | The score of a reservation: decode on the rest, the draft at least the lead factor faster, no node shared |
| `Roles.PickReservation` | internal/partitioner/solver.go:695-782 | Nothing exactly when no candidate scores; else the first that no candidate scores below |
| `Roles.SolveWithoutRoles` | internal/partitioner/solver.go:627-643 | With no role demanded: the plain solve, and failure exactly when it fails |
| `Roles.SolveRoles` | internal/partitioner/solver.go:614-783 | Lexicographically least in (decode time, reserved nodes, prefill time) over all admissible reservations, ties by id; decode avoids reserved nodes; each failure exactly when its cause holds |
| `Roles.AnswerMeans` | internal/partitioner/solver.go:614-783 | On the fields of the answer: refused for a lead factor of 1 or less (0 means 2); decode on unreserved nodes; no admissible reservation decodes faster, or as fast with fewer nodes, or with as many and a faster prefill |
| `Roles.AdmissibleMeans` | internal/partitioner/solver.go:707-742 | A reservation is admissible exactly when the rest decodes, the role nodes have a speed, and the draft times its factor is at most the decode time |
| `Roles.BestIsLeast` | internal/partitioner/solver.go:750-754 | The same order for any best reservation |
| `Roles.BestIsUnique` | internal/partitioner/solver.go:750-755 | There is one best reservation |
| `Roles.RolesIgnoreOrder` | internal/partitioner/solver.go:614-783 | Any permutation of the nodes gives the same answer, failures included |
| `ConvGate.ConversationGate.Attempt` | internal/gateway/gateway.go:1437-1455 | One pass of the loop under the mutex: join a free key, or be handed the entry's channel |
| `ConvGate.ConversationGate.JoinCapped` | internal/gateway/gateway.go:1456-1466 | A request past its limit is counted in next to the others |
| `ConvGate.ConversationGate.Release` | internal/gateway/gateway.go:1473-1488 | One fewer; the last one removes the entry and closes its channel |
| `ConvGate.ConversationGate.constructor` | internal/gateway/gateway.go:1427 | An empty gate |
| `ConvGate.StepKeepsInv` | internal/gateway/gateway.go:1417-1488 | Every step of every request keeps: an entry exists exactly while its key has requests in flight and counts them; no channel closes twice; a blocked request's channel is closed or the live entry's; one uncapped turn per key |
| `ConvGate.EveryRunIsSound` | internal/gateway/gateway.go:1417-1488 | The same over every interleaving |
| `ConvGate.GateIsSafe` | internal/gateway/gateway.go:1417-1488 | The same from a new gate |
| `ConvGate.NoLostWakeup` | internal/gateway/gateway.go:1447-1459 | A request waiting for a key with nothing in flight can wake up |
| `ConvGate.ExpiredRequestGetsIn` | internal/gateway/gateway.go:1429-1471 | Past its deadline a request is admitted after at most four of its own steps (wake, pass, look at the clock, join), whatever the others do |
| `ConvGate.ExpiredRequestCanMove` | internal/gateway/gateway.go:1429-1471 | And such a step is always possible |
| `PlanLifecycle.Prepare` | internal/gateway/gateway.go:773-779 | A plan that is returned holds the gate; a panic after acquiring gives it back |
| `PlanLifecycle.FinishRecord` | internal/gateway/gateway.go:1404-1411 | Releases once, and only the first time |
| `PlanLifecycle.Finish` | internal/gateway/gateway.go:1117-1379 | Gives the gate back, or panics before finishRecord and keeps it |
| `PlanLifecycle.Chat` | internal/gateway/gateway.go:459-472 | One release, and none exactly when the backend panics or replies and Finish panics |
| `PlanLifecycle.ChatStream` | internal/coordinator/serve.go:1011-1027 | On every path, panics and deferred notes included, Finish runs exactly once; the gate is kept exactly when it panics |
| `PlanLifecycle.FinishOnce` | internal/coordinator/serve.go:1020-1026 | The flag is set before Finish runs, so a second call does nothing even after a panic |
| `PlanLifecycle.RunTurn` | internal/gateway/gateway.go:459-472 | A whole turn from its admission makes at most one gate call: a release when it is unprepared, when the backend fails, or when Finish records; none when the backend panics or Finish breaks down |
| `GateLeaks.LeaksIffPanicked` | internal/gateway/gateway.go:459-472 | A turn leaks exactly when its backend panicked or its Finish broke down |
| `GateLeaks.EveryPlayIsSound` | internal/gateway/gateway.go:1404-1488 | Every interleaving of requests and turns keeps the gate invariant; capped requests have waited their whole limit; an ended turn holds the gate exactly when it leaked |
| `GateLeaks.HeldIff` | internal/gateway/gateway.go:1417-1488 | A conversation is held exactly by its live requests and the ones that leaked |
| `GateLeaks.EmptyIffNoLeak` | internal/gateway/gateway.go:459-472 | Once every handler is over the gate is empty exactly when no backend panicked and no Finish broke down in a turn of a conversation |
| `GateLeaks.NothingIsLeftBehind` | internal/coordinator/serve.go:1011-1027 | If no backend and no Finish panics, nothing is left in the gate after the last handler |
| `GateLeaks.LeakShutsTheConversation` | internal/gateway/gateway.go:1429-1471 | After a leak the conversation stays held in every later run, and a request of it that waits at all is let in only capped, past its deadline |
| `GateLeaks.LateComersAreCapped` | internal/gateway/gateway.go:1429-1471 | So is every request on its way in when the leak happened, or that comes later |
| `GateLeaks.LateComerWaitsItsLimit` | internal/gateway/gateway.go:1429-1471 | A request that arrives after the leak with a limit is not let in before that limit has passed since its arrival |
| `GateLeaks.BackendPanicLeaks` | internal/gateway/gateway.go:459-472 | The smallest such run |
| `SlotPool.EnginePool.TryAcquire` | internal/coordinator/kvpipe.go:279-308 | On a split engine a slot exactly when one is free; on a unified one, with used the larger of the reading and what is in flight, exactly when one is free and used is 0 or 5 * (used + tokens) is at most 4 * budget |
| `SlotPool.EnginePool.Release` | internal/coordinator/kvpipe.go:309-321 | The slot and its tokens go back |
| `SlotPool.EnginePool.SetBudget` | internal/coordinator/kvpipe.go:517-524 | A positive size becomes the budget, any other changes nothing |
| `SlotPool.EnginePool.SetSplit` | internal/coordinator/kvpipe.go:528-535 | Only the mode changes |
| `SlotPool.EnginePool.constructor` | internal/coordinator/kvpipe.go:207-217 | Slots 0..3 free, nothing in flight |
| `SlotPool.ClampNeverFires` | internal/coordinator/kvpipe.go:311-317 | The tokens given back never exceed those in flight |
| `SlotPool.EveryRunIsSound` | internal/coordinator/kvpipe.go:279-321 | Every interleaving, settings of the budget and the mode included, keeps the partition and the accounts, for every occupancy reading; the bound too while nobody changes the settings |
| `SlotPool.PoolIsSafe` | internal/coordinator/kvpipe.go:207-217 | From a new pool: each of the slots 0..3 is free or held, in-flight equals the holders' sum in every run; a unified engine is at most 80% of the budget or a single prefill while its settings stay as they are |
| `SlotPool.IdleIsBounded` | internal/coordinator/kvpipe.go:279-321 | From any moment at which the pool is empty the bound holds again |
| `SlotPool.SmallerBudgetBreaksTheBound` | internal/coordinator/kvpipe.go:517-524 | A budget lowered under two prefills breaks it |
| `Framing.FramesAreABijection` | internal/framing/framing.go:105-192 | A buffer decodes to an activation exactly when that activation encodes to the buffer and its payload is within the cap |
| `Framing.DecodeLayout` | internal/framing/framing.go:139-192 | Decoding a laid-out frame gives back header and payload |
| `Framing.LayoutDecode` | internal/framing/framing.go:139-192 | Whatever is accepted lays out to the identical bytes |
| `Framing.LayoutMeans` | internal/framing/framing.go:105-135 | Where every field of a frame is, byte by byte, most significant byte first |
| `Framing.ShapeMeans` | internal/framing/framing.go:119-124 | And where each dimension is |
| `Framing.DTypeSizesAre` | internal/framing/framing.go:46-63 | The seven element sizes; every other dtype is refused |
| `Framing.WellFormedMeans` | internal/framing/framing.go:80-102 | A tensor below 2^63 bytes is legal exactly with at most 8 axes of at most 2^24 and a payload of element size times elements |
| `Bytes.Get32Means` | internal/framing/framing.go:156-170 | Two and four bytes read in network order |
| `Bytes.Get64Means` | internal/framing/framing.go:175 | Eight bytes read in network order |
| `Bytes.Wrap64Means` | internal/framing/framing.go:85-88 | A 64-bit int is the number modulo 2^64, read as signed |
| `Framing.ExpectedBytesLoop` | internal/framing/framing.go:80-90 | The product in wrapping 64-bit arithmetic |
| `Framing.ValidateShape` | internal/framing/framing.go:92-102 | Accepts exactly the shapes of at most 8 dimensions of at most 2^24 |
| `Framing.ReadShapeLoop` | internal/framing/framing.go:166-172 | The shape read from the buffer and the offset behind it |
| `Framing.EncodeActivation` | internal/framing/framing.go:105-135 | The encoder, errors included, is the layout |
| `Framing.DecodeActivation` | internal/framing/framing.go:139-192 | The decoder with its running offset is the specification |
| `Transport.FrameRoundTrip` | internal/transport/transport.go:69-93 | A frame followed by anything is received intact exactly when it is below 2^32 bytes and within the cap |
| `Transport.FrameBytesMean` | internal/transport/transport.go:69-73 | Four bytes of length in network order, then the frame |
| `Transport.FrameFitsCap` | internal/transport/transport.go:38-44 | A frame whose payload is within the payload cap is within the frame cap, for every limit |
| `Transport.CapsLeaveRoom` | internal/transport/transport.go:38-44 | The payload cap is the limit in MiB, 8 when it is not positive; the frame cap is always 512 more |
| `Transport.ActivationRoundTrip` | internal/transport/transport.go:49-63 | An activation sent on a stream is the one received, and the rest stays |
| `Transport.ReceivedWasSent` | internal/transport/transport.go:57-93 | Whatever is received, sending it again yields the very bytes consumed |
| `Transport.TcpTransport.constructor` | internal/transport/transport.go:38-44 | The two caps from the megabyte limit, in 64-bit arithmetic |
| `Transport.TcpTransport.SendActivation` | internal/transport/transport.go:49-78 | The stream grows by exactly the framed activation, or not at all |
| `Transport.TcpTransport.RecvFrameBytes` | internal/transport/transport.go:79-93 | One frame is consumed, or an error |
| `Transport.TcpTransport.RecvNext` | internal/transport/transport.go:57-93 | One activation is consumed from the stream |
| `KvHandoff.SendSucceedsIff` | internal/kvhandoff/kv_handoff.go:59-98 | Sending succeeds exactly when the chunk size is within the payload cap and no piece exceeds 2^24 bytes, or the chunk count overflows and nothing is sent |
| `KvHandoff.HandoffRoundTrip` | internal/kvhandoff/kv_handoff.go:59-143 | For every blob, id and chunk size that can be sent, receiving gives back exactly (id, blob) and leaves the rest if and only if the count neither overflows 64 bits nor reaches 2^32; otherwise an error when nothing follows on the stream or nothing overflowed |
| `KvHandoff.EndToEnd` | internal/kvhandoff/kv_handoff.go:59-143 | Between two ends of one megabyte limit: everything the sender accepts arrives exactly under those two conditions and a positive cap |
| `KvHandoff.DefaultChunkArrives` | internal/kvhandoff/kv_handoff.go:59-143 | With the default chunk size and a limit of 4 MB or more every blob below 2^32 chunks arrives |
| `KvHandoff.SenderCountFacts` | internal/kvhandoff/kv_handoff.go:66-69 | The wrapping count is the number of pieces, or zero or less exactly when it overflows |
| `KvHandoff.FormatMeans` | internal/kvhandoff/kv_handoff.go:22-42 | Stage ids 65534 and 65533, chunks of 4 MiB by default, and a manifest of total, chunk count and hash |
| `KvHandoff.ChunkMeans` | internal/kvhandoff/kv_handoff.go:84-91 | Chunk i is the i-th stretch of the chunk size, the last one shorter |
| `KvHandoff.OverflowLosesTheBlob` | internal/kvhandoff/kv_handoff.go:66-69 | A 2 MiB blob that is sent with success and cannot be received |
| `KvHandoff.LongPieceIsRefused` | internal/framing/framing.go:92-102 | 2^24 + 1 bytes in one chunk, within a cap of 32 MB, cannot be sent |
| `KvHandoff.TooManyChunksAreLost` | internal/kvhandoff/kv_handoff.go:71-74 | 2^32 chunks of one byte are sent with success and cannot be received |
| `KvHandoff.AcceptedHandoff` | internal/kvhandoff/kv_handoff.go:101-143 | Any accepted stream is a manifest and chunks 0..n-1 in order, of the declared number, total and hash, byte for byte |
| `KvHandoff.ChunksArrive` | internal/kvhandoff/kv_handoff.go:82-135 | From any chunk on, receiving any number of the sent chunks rebuilds that much of the blob |
| `KvHandoff.BodyArrives` | internal/kvhandoff/kv_handoff.go:101-143 | After the manifest, the sent chunks are accepted exactly when their number fits 32 bits |
| `KvHandoff.SendKV` | internal/kvhandoff/kv_handoff.go:59-98 | Success as the specification says, and on the wire the manifest and the chunks before the first that cannot be framed, on failure too |
| `KvHandoff.WrittenKVIsSent` | internal/kvhandoff/kv_handoff.go:59-98 | A send that succeeded wrote its whole stream |
| `KvHandoff.SendChunkLoop` | internal/kvhandoff/kv_handoff.go:84-96 | The chunk loop, its 64-bit end offset included, writes the chunks in order or stops with an error |
| `KvHandoff.ReceiveKV` | internal/kvhandoff/kv_handoff.go:101-143 | The receiver's loops accept exactly what the specification accepts |
| `KvHandoff.RecvChunkLoop` | internal/kvhandoff/kv_handoff.go:117-133 | The receiving loop appends in-order chunks, or stops with an error |
| `KnownPrefixes.InclusionProperty` | internal/gateway/admission.go:68-134 | Under one trace the smaller registry's order is always a subsequence of the larger one's, with equal values |
| `KnownPrefixes.SmallerNeverHotter` | internal/gateway/admission.go:125-134 | The smaller registry reports the same heat as the larger one, or none |
| `KnownPrefixes.RecordMeans` | internal/gateway/admission.go:93-106 | A recorded key is hot with its tokens; of the others only the least recently used goes, and only when full |
| `KnownPrefixes.ForgetMeans` | internal/gateway/admission.go:108-119 | A forgotten key is cold, the others as hot as before |
| `KnownPrefixes.RefreshMeans` | internal/gateway/admission.go:125-134 | Asking changes no heat and makes a known key the most recent |
| `KnownPrefixes.RunKeeps` | internal/gateway/admission.go:68-134 | The order always lists exactly the keys, once each, within the capacity |
| `KnownPrefixes.NewRegistry` | internal/gateway/admission.go:75-80 | An empty registry, or an error exactly when the capacity is not positive |
| `KnownPrefixes.PrefixRegistry.RecordKey` | internal/gateway/admission.go:93-106 | Evicts the oldest key for a new one when full, then moves the key to the end |
| `KnownPrefixes.PrefixRegistry.ForgetKey` | internal/gateway/admission.go:108-119 | Removes a key from the table and the order |
| `KnownPrefixes.PrefixRegistry.HotTokens` | internal/gateway/admission.go:125-134 | Reports a key's tokens and refreshes it, or reports zero and changes nothing |
| `StickyTable.ConversationKeepsEngine` | internal/coordinator/balancer.go:401-442 | Over every history of chooseNode and remember calls with their engine snapshots: from its last use a conversation keeps its engine, and chooseNode answers it, while fewer than 256 other keys are used, unless it is used while its engine is fenced or is remembered elsewhere |
| `StickyTable.StaysPut` | internal/coordinator/balancer.go:485-514 | The same at every point of the history, for any bound on the keys used since |
| `StickyTable.EvictSpares` | internal/coordinator/balancer.go:496-504 | An eviction never hits a key with fewer than 256 keys newer than it |
| `StickyTable.AssignKeeps` | internal/coordinator/balancer.go:496-514 | The order lists exactly the keys, once each, at most 256, all engine indices valid |
| `StickyTable.Balancer.SetLocked` | internal/coordinator/balancer.go:496-514 | Assigns, evicts and refreshes, keeping the table sound |
| `StickyTable.Balancer.ChooseNode` | internal/coordinator/balancer.go:401-442 | With the fences read anew at each of its three readings: a known key with an available engine stays; otherwise the least loaded or, with that one idle and in company, the next in rotation among those unfenced by then, and the rotation moves exactly then; none exactly when the scan finds all fenced |
| `StickyTable.Balancer.Remember` | internal/coordinator/balancer.go:485-494 | Moves the conversation to an engine of the pool; an unknown one changes nothing |
| `StickyTable.ScanLeastLoaded` | internal/coordinator/balancer.go:408-424 | The first available engine with the fewest tokens in flight, then the fewest requests |
| `StickyTable.ScanNth` | internal/coordinator/balancer.go:425-439 | The k-th available engine, or none exactly when there are not that many |
| `StickyTable.PickIndex` | internal/coordinator/balancer.go:426-440 | The rotation moves exactly when the lightest engine is idle and has company; then the engine with that many available ones before it, if there are enough; otherwise the lightest |
| `StickyTable.AvailableMeans` | internal/coordinator/balancer.go:410-415 | Available engines are counted |
| `Ring.AddMovesOnlyToNewMember` | internal/gateway/policy.go:208-221 | Adding a member moves keys only to it |
| `Ring.RemoveMovesOnlyItsKeys` | internal/gateway/policy.go:223-241 | Removing a member moves only the keys it owned |
| `Ring.RingIsCanonical` | internal/gateway/policy.go:192-241 | Two sorted rings with the same points are the same ring, so history does not matter |
| `Ring.FirstIsUnique` | internal/gateway/policy.go:243-255 | The cyclic successor of a key is one point |
| `Ring.Search` | internal/gateway/policy.go:247-250 | The first position not below the hash |
| `Ring.Locate` | internal/gateway/policy.go:243-255 | Binary search with wrap-around finds the cyclic first successor |
| `Ring.HashRing.constructor` | internal/gateway/policy.go:192-201 | No members, at least one virtual node each |
| `Ring.HashRing.Add` | internal/gateway/policy.go:208-221 | The ring becomes that of the members plus the new one |
| `Ring.HashRing.Remove` | internal/gateway/policy.go:223-241 | The ring becomes that of the members without it |
| `Ring.HashRing.Route` | internal/gateway/policy.go:243-255 | An owner exactly when there are members; it depends only on the member set |
| `Ring.OwnerIsUnique` | internal/gateway/policy.go:243-255 | A set of members has one owner per position |
| `Ring.Replay` | internal/gateway/policy.go:208-241 | A ring after any history of changes is that of the members left |
| `Ring.RouteAfter` | internal/gateway/policy.go:192-255 | Routing on a new ring after any history answers the owner among the members left |
| `Ring.HistoryDoesNotMatter` | internal/gateway/policy.go:192-255 | Two histories that leave the same members route every key alike |
| `UpdateGuard.StateFile.Spend` | cmd/sofmat/updateguard.go:267-282 | Spends an attempt exactly while fewer than three are spent on this artifact, or refuses and writes nothing |
| `UpdateGuard.StateFile.Refund` | cmd/sofmat/updateguard.go:330-342 | Gives an attempt back, never below zero |
| `UpdateGuard.StateFile.Installed` | cmd/sofmat/updateguard.go:354-373 | The purge loops keep exactly what is above the installed version |
| `UpdateGuard.StateFile.Boot` | cmd/sofmat/updateguard.go:389-409 | What a start writes |
| `UpdateGuard.BootstrapMeans` | cmd/sofmat/updateguard.go:389-409 | After a start the running binary is on record and only newer tags keep their attempts; a start that finds it on record writes nothing |
| `UpdateGuard.Purge` | cmd/sofmat/updateguard.go:356-370 | A purge loop keeps exactly the newer keys, with their values, in any order |
| `UpdateGuard.StateFile.Admit` | cmd/sofmat/updateguard.go:204-235 | The verdict, a file that cannot be hashed included, and the refusals it records |
| `UpdateGuard.StateFile.Check` | cmd/sofmat/update.go:120-222 | The decision order of one check |
| `UpdateGuard.CheckMeans` | cmd/sofmat/update.go:120-176 | When a check does not look, and when it is up to date |
| `UpdateGuard.NewerMeans` | cmd/sofmat/update.go:177-221 | How a check of a newer release ends: no asset, marked, three attempts spent, no path, no usable download |
| `UpdateGuard.JudgeMeans` | cmd/sofmat/updateguard.go:204-235 | The questions of the admission, in order |
| `UpdateGuard.DigestMeans` | cmd/sofmat/updateguard.go:215-216 | The sha256: prefix is not part of a digest and case does not matter |
| `StringOrder.LessMeans` | cmd/sofmat/update.go:173-176 | Stamps compare at their first difference; a proper prefix comes first |
| `UpdateGuard.StateFile.Install` | cmd/sofmat/update.go:352-388 | Download, admission, swap, record, re-exec |
| `UpdateGuard.FetchLoop` | cmd/sofmat/update.go:293-324 | The first try whose bytes match the published digest |
| `UpdateGuard.FetchMeans` | cmd/sofmat/update.go:293-324 | The first try that arrived and, with a published digest, has it as its sha |
| `UpdateRuns.NoUpdateLoop` | cmd/sofmat/update.go:173-206 | Over every run, restarts and a lost state file included, each re-exec goes to a strictly newer version than all before |
| `UpdateRuns.RefusedNeverInstalled` | cmd/sofmat/updateguard.go:204-235 | Content refused by sha is never installed later, under any tag |
| `UpdateRuns.RunKeepsCounters` | cmd/sofmat/updateguard.go:267-342 | Stored counters are always 1, 2 or 3 |
| `UpdateRuns.CheckSpends` | cmd/sofmat/update.go:193-221 | A failure not due to the network costs one attempt, everything short of an installation none; refused only when all three are spent |
| `UpdateRuns.FailuresAreBudgeted` | cmd/sofmat/update.go:193-221 | Against one published artifact, failures before installation are at most three per time a failed re-exec cleared the counter, restarts included |
| `UpdateRuns.AtMostThreeFailures` | cmd/sofmat/update.go:193-221 | Where re-exec works, at most three attempts fail |
| `UpdateRuns.BudgetHoldsIffReexecWorks` | cmd/sofmat/update.go:352-388 | All runs keep to three failures exactly on machines where re-exec works |
| `UpdateRuns.FailedReexecsAreUnbounded` | cmd/sofmat/update.go:352-388 | Where it fails, any number of attempts can fail |
| `UpdateRuns.NewDigestRestoresBudget` | cmd/sofmat/updateguard.go:267-282 | A republished artifact has its whole budget |
| `UpdateRuns.RefusalIsRemembered` | cmd/sofmat/updateguard.go:204-261 | A refusal marks the published digest exactly when the file could be hashed, its content was not refused before and it was judged |
| `UpdateRuns.NoDownloadsAfterRefusal` | cmd/sofmat/updateguard.go:241-250 | Once marked, nothing is downloaded again while it stays published, restarts included |
| `UpdateRuns.KnownBadIsFetchedAgain` | cmd/sofmat/updateguard.go:204-216 | Content refused under another tag is downloaded again at the next check until the budget ends |
| `UpdateRuns.StaleRun` | cmd/sofmat/updateguard.go:204-235 | A run that reaches it: mislabelled under "2", then twice downloaded and refused by sha under "3" |
| `UpdateRuns.RefusalEndsDownloadsIff` | cmd/sofmat/update.go:187-221 | After a refusing check with a published digest nothing is downloaded in any later run while it stays published if and only if the content was newly judged, or the budget is spent |
| `UpdateRuns.SpentOutStaysQuiet` | cmd/sofmat/updateguard.go:267-282 | With the budget spent nothing is downloaded while the artifact stays published, restarts included |
| `DecodeRoom.CheckAgreesWithEviction` | internal/coordinator/kvpipe.go:353-441 | The pre-check promises room exactly when eviction delivers it, for all budgets and needs, if and only if the idle slots can be addressed |
| `DecodeRoom.IdsMakeSlotsAddressable` | internal/coordinator/kvpipe.go:845-891 | Which holds whenever every slot reports an id |
| `DecodeRoom.NamelessSlotDisagrees` | internal/coordinator/kvpipe.go:862-869 | One idle slot without an id on which the two disagree |
| `DecodeRoom.CheckRoom` | internal/coordinator/kvpipe.go:845-891 | The free tokens, the size of the smallest idle slot, and as the one to evict the last new smallest of the scan that has an id, which is the smallest whenever that one has an id |
| `DecodeRoom.ScanSlots` | internal/coordinator/kvpipe.go:852-873 | The busy tokens, whether a slot is idle, and the smallest idle one |
| `DecodeRoom.SortIdle` | internal/coordinator/kvpipe.go:390 | Smallest first, nothing lost |
| `DecodeRoom.MakeUnifiedRoom` | internal/coordinator/kvpipe.go:415-440 | On a shared budget: room exactly when what cannot be erased leaves enough |
| `DecodeRoom.EvictUntilFits` | internal/coordinator/kvpipe.go:399-441 | Erases the target, then in order until the rest fits or nothing is left, and not a turn longer |
| `DecodeRoom.EvictionIsFair` | internal/coordinator/kvpipe.go:390-441 | No generating slot is erased, and apart from the target no surviving non-empty idle slot is smaller than an erased one |
| `DecodeRoom.EvictionIsLean` | internal/coordinator/kvpipe.go:427-440 | Without the last erase the state would not have fitted |
| `DecodeRoom.MakeRoom` | internal/coordinator/kvpipe.go:353-441 | Succeeds exactly when room can be made; erases no generating slot on any path; fair and lean; prefers the wanted slot; survivors and need fit a unified budget; split erases the target only |
| `DecodeRoom.CommittedKV` | internal/coordinator/serve.go:269-282 | All tokens less the largest idle slot, between the busy tokens and all tokens |
| `DecodeRoom.TokensMean` | internal/coordinator/kvpipe.go:364-385 | Which slots each token sum takes in |
| `DecodeRoom.BudgetMeans` | internal/coordinator/kvpipe.go:880-882 | An engine without a known size counts as 100096 tokens |
| `SseToolCalls.ChunkingInvariance` | internal/coordinator/serve.go:394-443 | Every way of cutting a stream into reads gives the same call indexes and the same pending bytes as one read |
| `SseToolCalls.PendingHasNoDelimiter` | internal/coordinator/serve.go:399-410 | What is left over never contains a whole delimiter |
| `SseToolCalls.StreamIsItsEvents` | internal/coordinator/serve.go:399-410 | The stream is its events with their delimiters followed by the pending bytes, no event contains a delimiter, and all their indexes are seen |
| `SseToolCalls.CounterMatchesStream` | internal/coordinator/serve.go:394-443 | However it is cut, the counter counts the indexes of the stream's events |
| `SseToolCalls.ToolCallCounter.FeedChunk` | internal/coordinator/serve.go:399-410 | The draining loop is the specification |
| `SseToolCalls.FindDelim` | internal/coordinator/serve.go:401-405 | The first delimiter, or none |

## Left out

- HTTP handlers, the panel, downloads, LAN discovery, process control and the node agents.
- Floating-point rounding: arithmetic is over `real`, truncated where the program converts to int.
- JSON, regular expressions, SHA-256 and the authentication handshake: functions of the model's parameters.
- Wall-clock time: integer ticks in the gate; the smoothing averages, cost-model constants and request-log fields are not modelled.
- `DecodeControl` as an inverse, the GGUF reader, training transactions, the handoff's route tables and the janitor.
- The conversation slot table of the gateway, which is first-in first-out despite its comment.
- The memory budget of interleaved `decodeBalancer.pick` calls: its check and its claim are separate steps.
- Solver.Solve: node ids are assumed distinct; two nodes with one id are not modelled.
- Solver.SolveIsBest: over the groups whose fastest split meets the budget; SolveIsFastestMapIff and SolveHasFewestHostsIff compare with all maps.
- Solver.SolveBeatsEverySplit: over the same groups; SolveBeatsEveryMap covers the others.
- Solver.PlannedPoolFits: caps are not negative; with negative ones the pre-check sums them too, as SolveSucceedsIff states.
- Solver.MeasuredPoolSucceedsIff: only where every node has a speed source and caps are not negative; SolveSucceedsIff is the general form.
- Budgets.SolveMissesMapIff: the boundary overhead is not negative, and every node has a speed source and a cap that is not negative; WronglyNoMapIff needs the first only.
- Plans.PlanForSubset: models are those `NewModelSpec` accepts (at least one layer, positive weights and slots, no negative caches).
- Roles.SolveRoles: node ids are not empty; the program writes the empty id for an unset role, so a node with that id would not be reserved.
- IdSets.FindLeast: the empty id is not in the set, for the same reason.
- Replicas.SolveReplicas: ids are assumed distinct, not empty and free of `|`, which the cache key needs, and the boundary overhead not negative; the machine width of `1 << n` is not modelled.
- Framing.EncodeActivation: payloads are shorter than 2^63 bytes, as every Go slice is.
- Ring.HashRing.Add: virtual nodes of the members in use are assumed not to collide.
- KvHandoff.ReceiveKV: a negative declared total, which the program cannot allocate, is an error.
- StickyTable.Balancer.ChooseNode: the rotation counter does not overflow; the number of engines is fixed; one scan reads all its fences at once.
- SlotPool.PoolIsSafe: the 80% bound is for settings that stay as they are, see SmallerBudgetBreaksTheBound; a prefill claims at least one token; waiting and its timeout are not modelled.
- DecodeRoom.MakeRoom: on one snapshot, with erases that succeed.
- UpdateRuns.AtMostThreeFailures: needs working re-execs, because installing clears the counter first; the exact condition is BudgetHoldsIffReexecWorks. Saves of the state file are assumed to succeed.
- UpdateRuns.NoDownloadsAfterRefusal: saves of the state file are assumed to succeed; the program ignores write errors.
- UpdateRuns.RefusalEndsDownloadsIff: saves of the state file are assumed to succeed.
- UpdateRuns.RefusedNeverInstalled: saves of the state file are assumed to succeed; only NoUpdateLoop allows the file to be lost.
- UpdateGuard.StateFile.Install: the sha recorded is that of the admitted file; a first hash that fails before a second one works, which records none, is not modelled.
- UpdateGuard.StateFile.Check: overlapping checks, which the `updating` flag turns away, are not steps of the model.
- PlanLifecycle.Finish: what it computes before finishRecord is one outcome, done or panicked; a panic after the release changes nothing about the gate.

/**
The network budget of a map, and the maps the search does not look at: planForSubset judges a
group by its fastest split alone (internal/partitioner/solver.go:218-259), while a slower split
of the same group, whose links are a smaller share of its time, may be within the budget.
*/
module Budgets {
  import opened Options
  import opened StringOrder
  import opened Sums
  import opened Layers
  import opened Plans
  import opened Pools
  import opened Solver

  predicate Measured(group: Group) {
    forall n :: n in group ==> n.HasSpeed()
  }

  /** A map of the group: every node 1..cap layers, all layers placed, links within the budget. */
  ghost predicate IsMap(group: Group, job: Job, counts: seq<int>)
    requires job.model.Valid()
  {
    && Measured(group) && Feasible(CapsOf(group, job.model), job.model.nLayers, counts)
    && WithinBudget(PlanWith(group, job, counts), job)
  }

  /** The node holds k layers: their share of the footprint is within its memory. */
  predicate NodeHolds(node: NodeProfile, model: ModelSpec, k: int) {
    k >= 1 && k as real * FootprintGB(model) <= node.capGB * model.nLayers as real
  }

  /** A split that respects the memory of its nodes and places every layer. */
  ghost predicate FitsNodes(group: Group, model: ModelSpec, counts: seq<int>) {
    && |counts| == |group| && Sum(counts) == model.nLayers
    && forall i :: 0 <= i < |group| ==> NodeHolds(group[i], model, counts[i])
  }

  lemma NodeHoldsIff(node: NodeProfile, model: ModelSpec, k: int)
    requires model.Valid()
    ensures 1 <= k <= CapLayers(node, model) <==> NodeHolds(node, model, k)
  {
    hide CapLayers, FootprintGB;
    if k >= 1 {
      CapIsLargest(node, model, k);
    }
  }

  lemma FeasibleMeans(group: Group, model: ModelSpec, counts: seq<int>)
    requires model.Valid()
    ensures Feasible(CapsOf(group, model), model.nLayers, counts) <==> FitsNodes(group, model, counts)
  {
    hide NodeHolds, CapLayers;
    var caps := CapsOf(group, model);
    if |counts| == |group| {
      forall i | 0 <= i < |group| ensures 1 <= counts[i] <= caps[i] <==> NodeHolds(group[i], model, counts[i]) {
        NodeHoldsIff(group[i], model, counts[i]);
      }
    }
  }

  /** In terms of the profiles and the job: speeds, memory, layers, and the links' share of the time. */
  lemma MapMeans(group: Group, job: Job, counts: seq<int>)
    requires job.model.Valid() && job.boundaryOverheadMS >= 0.0
    ensures IsMap(group, job, counts) <==>
            && (forall n :: n in group ==> n.msPerLayer > 0.0 || n.bandwidthGBps > 0.0)
            && FitsNodes(group, job.model, counts)
            && (|group| <= 1 || (|group| - 1) as real * job.boundaryOverheadMS
                                <= job.networkTimeBudget * PlanWith(group, job, counts).tokenMS)
  {
    FeasibleMeans(group, job.model, counts);
    if Measured(group) && Feasible(CapsOf(group, job.model), job.model.nLayers, counts) {
      WithinBudgetIff(group, job, counts);
    }
    hide PlanWith, WithinBudget, FitsNodes;
  }

  // ---------------------------------------------------------------- the slowest split

  function Negated(speeds: seq<real>): (r: seq<real>)
    ensures |r| == |speeds|
  {
    seq(|speeds|, i requires 0 <= i < |speeds| => -speeds[i])
  }

  lemma {:induction false} CostNegated(speeds: seq<real>, counts: seq<int>)
    requires |speeds| == |counts|
    ensures Cost(Negated(speeds), counts) == -Cost(speeds, counts)
  {
    if counts != [] {
      var n := |counts| - 1;
      CostNegated(speeds[..n], counts[..n]);
      assert Negated(speeds)[..n] == Negated(speeds[..n]);
      assert counts[n] as real * -speeds[n] == -(counts[n] as real * speeds[n]);
    }
  }

  ghost function FastestSplit(group: Group, job: Job): Split
    requires job.model.Valid()
  {
    SplitOf(CapsOf(group, job.model), SpeedsOf(group, job.model), job.model.nLayers)
  }

  /** The same greedy split with the order of the speeds turned round. */
  ghost function SlowestSplit(group: Group, job: Job): Split
    requires job.model.Valid()
  {
    SplitOf(CapsOf(group, job.model), Negated(SpeedsOf(group, job.model)), job.model.nLayers)
  }

  /** Every split of the group lies between the two in time. */
  lemma BetweenFastestAndSlowest(group: Group, job: Job, d: seq<int>)
    requires job.model.Valid() && Feasible(CapsOf(group, job.model), job.model.nLayers, d)
    ensures FastestSplit(group, job).Split? && SlowestSplit(group, job).Split?
    ensures PlanWith(group, job, FastestSplit(group, job).counts).tokenMS <= PlanWith(group, job, d).tokenMS
    ensures PlanWith(group, job, d).tokenMS <= PlanWith(group, job, SlowestSplit(group, job).counts).tokenMS
  {
    var caps, speeds, layers := CapsOf(group, job.model), SpeedsOf(group, job.model), job.model.nLayers;
    SplitOfIsBest(caps, speeds, layers);
    SplitOfIsBest(caps, Negated(speeds), layers);
    var fast, slow := FastestSplit(group, job).counts, SlowestSplit(group, job).counts;
    CostNegated(speeds, d);
    CostNegated(speeds, slow);
    TimesCost(group, job.model, fast);
    TimesCost(group, job.model, slow);
    TimesCost(group, job.model, d);
  }

  // ---------------------------------------------------------------- one group

  /** A share of the time is within the budget exactly when the links cost at most that share. */
  lemma ShareWithin(network: real, token: real, budget: real)
    requires token > 0.0
    ensures network / token <= budget <==> network <= budget * token
  {
    var share := network / token;
    assert share * token == network;
    if share <= budget {
      assert (budget - share) * token >= 0.0;
    } else {
      assert (share - budget) * token > 0.0;
    }
  }

  /** The links of a group cost the same in every split of it. */
  function LinksMS(group: Group, job: Job): real {
    (|group| - 1) as real * job.boundaryOverheadMS
  }

  lemma NotEmpty(group: Group, job: Job, d: seq<int>)
    requires job.model.Valid() && Feasible(CapsOf(group, job.model), job.model.nLayers, d)
    ensures group != []
  {
    EmptySum();
    assert group == [] ==> d == [];
  }

  lemma MapTakesTime(group: Group, job: Job, d: seq<int>)
    requires job.model.Valid() && job.boundaryOverheadMS >= 0.0 && Measured(group)
    requires Feasible(CapsOf(group, job.model), job.model.nLayers, d)
    ensures PlanWith(group, job, d).tokenMS > 0.0 && LinksMS(group, job) >= 0.0
  {
    NotEmpty(group, job, d);
    forall i | 0 <= i < |group| ensures group[i].HasSpeed() {
      assert group[i] in group;
    }
    PlanWithTakesTime(group, job, d);
    assert (|group| - 1) as real * job.boundaryOverheadMS >= 0.0;
  }

  /** The budget as a bound on the links: a group of one has none. */
  lemma WithinBudgetIff(group: Group, job: Job, d: seq<int>)
    requires job.model.Valid() && job.boundaryOverheadMS >= 0.0 && Measured(group)
    requires Feasible(CapsOf(group, job.model), job.model.nLayers, d)
    ensures var p := PlanWith(group, job, d);
            WithinBudget(p, job) <==> |group| <= 1 || LinksMS(group, job) <= job.networkTimeBudget * p.tokenMS
  {
    MapTakesTime(group, job, d);
    var p := PlanWith(group, job, d);
    ShareWithin(p.networkMS, p.tokenMS, job.networkTimeBudget);
  }

  lemma SlowerShare(links: real, budget: real, fast: real, slow: real)
    requires 0.0 < fast <= slow && 0.0 <= links <= budget * fast
    ensures links <= budget * slow
  {
    assert budget >= 0.0;
    assert budget * (slow - fast) >= 0.0;
  }

  /** Slower splits of a group pass whenever faster ones do. */
  lemma SlowerPasses(group: Group, job: Job, c: seq<int>, d: seq<int>)
    requires job.model.Valid() && job.boundaryOverheadMS >= 0.0 && IsMap(group, job, c)
    requires Feasible(CapsOf(group, job.model), job.model.nLayers, d)
    requires PlanWith(group, job, c).tokenMS <= PlanWith(group, job, d).tokenMS
    ensures IsMap(group, job, d)
  {
    MapTakesTime(group, job, c);
    WithinBudgetIff(group, job, c);
    WithinBudgetIff(group, job, d);
    hide PlanWith, WithinBudget, LinksMS;
    var fast, slow := PlanWith(group, job, c).tokenMS, PlanWith(group, job, d).tokenMS;
    if |group| > 1 {
      SlowerShare(LinksMS(group, job), job.networkTimeBudget, fast, slow);
    }
  }

  ghost predicate FastestPasses(group: Group, job: Job)
    requires job.model.Valid()
  {
    FastestSplit(group, job).Split? && IsMap(group, job, FastestSplit(group, job).counts)
  }

  ghost predicate SlowestPasses(group: Group, job: Job)
    requires job.model.Valid()
  {
    SlowestSplit(group, job).Split? && IsMap(group, job, SlowestSplit(group, job).counts)
  }

  lemma PlannedIffFastestPasses(group: Group, job: Job)
    requires job.model.Valid()
    ensures PlanOf(group, job).Planned? <==> FastestPasses(group, job)
    ensures FastestPasses(group, job) ==>
              PlanOf(group, job).plan == PlanWith(group, job, FastestSplit(group, job).counts)
  {
  }

  ghost predicate HasMap(group: Group, job: Job)
    requires job.model.Valid()
  {
    exists d :: IsMap(group, job, d)
  }

  /** Some split of a group is within the budget exactly when its slowest split is. */
  lemma HasMapIffSlowestPasses(group: Group, job: Job)
    requires job.model.Valid() && job.boundaryOverheadMS >= 0.0
    ensures HasMap(group, job) <==> SlowestPasses(group, job)
  {
    hide PlanWith;
    if d :| IsMap(group, job, d) {
      BetweenFastestAndSlowest(group, job, d);
      SlowerPasses(group, job, d, SlowestSplit(group, job).counts);
    }
  }

  /** The guard of the failing branch: the fastest split is over the budget, the slowest within. */
  ghost predicate Dropped(group: Group, job: Job)
    requires job.model.Valid()
  {
    SlowestPasses(group, job) && !FastestPasses(group, job)
  }

  /** A group loses a map it has exactly when it is dropped. */
  lemma GroupLosesMapIff(group: Group, job: Job)
    requires job.model.Valid() && job.boundaryOverheadMS >= 0.0
    ensures HasMap(group, job) && !PlanOf(group, job).Planned? <==> Dropped(group, job)
  {
    HasMapIffSlowestPasses(group, job);
    PlannedIffFastestPasses(group, job);
  }

  // ---------------------------------------------------------------- the whole pool

  ghost predicate MapInPool(pool: Group, job: Job)
    requires job.model.Valid()
  {
    exists ids :: HasMap(Restrict(pool, ids), job)
  }

  ghost predicate SomeFastestPasses(pool: Group, job: Job)
    requires job.model.Valid()
  {
    exists ids :: FastestPasses(Restrict(pool, ids), job)
  }

  ghost predicate SomeSlowestPasses(pool: Group, job: Job)
    requires job.model.Valid()
  {
    exists ids :: SlowestPasses(Restrict(pool, ids), job)
  }

  lemma PoolConditions(pool: Group, job: Job)
    requires job.model.Valid()
    ensures SomePlanned(pool, job) <==> SomeFastestPasses(pool, job)
    ensures job.boundaryOverheadMS >= 0.0 ==> (MapInPool(pool, job) <==> SomeSlowestPasses(pool, job))
  {
    hide PlanOf, FastestPasses, SlowestPasses, HasMap, Restrict;
    forall ids ensures PlanOf(Restrict(pool, ids), job).Planned? <==> FastestPasses(Restrict(pool, ids), job) {
      PlannedIffFastestPasses(Restrict(pool, ids), job);
    }
    if job.boundaryOverheadMS >= 0.0 {
      forall ids ensures HasMap(Restrict(pool, ids), job) <==> SlowestPasses(Restrict(pool, ids), job) {
        HasMapIffSlowestPasses(Restrict(pool, ids), job);
      }
    }
  }

  /** "No map satisfies the network budget" is wrong exactly in this case. */
  lemma WronglyNoMapIff(pool: Group, job: Job, floor: Option<real>)
    requires job.model.Valid() && job.boundaryOverheadMS >= 0.0 && IsPool(pool)
    ensures SolvePool(pool, job, floor) == Err(NoMapInBudget) && MapInPool(pool, job) <==>
            && TotalCap(pool) >= job.model.TotalGB() && pool != [] && AllMeasured(pool, job)
            && !SomeFastestPasses(pool, job) && SomeSlowestPasses(pool, job)
  {
    hide SolvePool, AllMeasured, SomePlanned, MapInPool, SomeFastestPasses, SomeSlowestPasses, TotalCap;
    PoolConditions(pool, job);
    SolveSucceedsIff(pool, job, floor);
  }

  /**
  With usable profiles: Solve fails although a map exists exactly when no group's fastest split
  passes and some group's slowest does; otherwise it finds a map exactly when there is one.
  */
  lemma SolveMissesMapIff(pool: Group, job: Job, floor: Option<real>)
    requires job.model.Valid() && job.boundaryOverheadMS >= 0.0 && IsPool(pool)
    requires forall n :: n in pool ==> n.capGB >= 0.0 && n.HasSpeed()
    ensures SolvePool(pool, job, floor).Ok? <==> SomeFastestPasses(pool, job)
    ensures MapInPool(pool, job) <==> SomeSlowestPasses(pool, job)
    ensures SolvePool(pool, job, floor).Ok? ==> MapInPool(pool, job)
    ensures SolvePool(pool, job, floor).Err? && MapInPool(pool, job) <==>
            !SomeFastestPasses(pool, job) && SomeSlowestPasses(pool, job)
  {
    hide SolvePool, SomePlanned, SomeSlowestPasses;
    PoolConditions(pool, job);
    MeasuredPoolSucceedsIff(pool, job, floor);
    if ids :| FastestPasses(Restrict(pool, ids), job) {
      assert HasMap(Restrict(pool, ids), job);
    }
  }

  // ---------------------------------------------------------------- optimality over all maps

  /** No in-budget map of any group is faster than what Solve returns, unless its group was dropped. */
  lemma SolveBeatsEveryMap(pool: Group, job: Job, ids: set<string>, d: seq<int>)
    requires job.model.Valid() && job.boundaryOverheadMS >= 0.0 && IsPool(pool)
    requires SolvePool(pool, job, None).Ok? && IsMap(Restrict(pool, ids), job, d)
    ensures var group, token := Restrict(pool, ids), SolvePool(pool, job, None).value.tokenMS;
            || token <= PlanWith(group, job, d).tokenMS
            || (Dropped(group, job) && LinksMS(group, job) < job.networkTimeBudget * token)
  {
    hide SolvePool, PlanOf, PlanWith, LinksMS, WithinBudget, Restrict, FastestSplit, SlowestSplit, FastestPasses;
    var group := Restrict(pool, ids);
    PlannedIffFastestPasses(group, job);
    if FastestPasses(group, job) {
      SolveBeatsEverySplit(pool, job, ids, d);
    } else {
      assert HasMap(group, job);
      HasMapIffSlowestPasses(group, job);
      DroppedBound(group, job, d, SolvePool(pool, job, None).value.tokenMS);
    }
  }

  lemma DroppedBound(group: Group, job: Job, d: seq<int>, token: real)
    requires job.model.Valid() && job.boundaryOverheadMS >= 0.0 && IsMap(group, job, d) && Dropped(group, job)
    ensures PlanWith(group, job, d).tokenMS < token ==> LinksMS(group, job) < job.networkTimeBudget * token
  {
    hide PlanWith, WithinBudget, LinksMS, SlowestSplit, FastestSplit;
    BetweenFastestAndSlowest(group, job, d);
    FastestIsFeasible(group, job);
    var c := FastestSplit(group, job).counts;
    WithinBudgetIff(group, job, c);
    WithinBudgetIff(group, job, d);
    MapTakesTime(group, job, d);
    MapTakesTime(group, job, c);
    DroppedHasLinks(group, job);
    var fast, slow := PlanWith(group, job, c).tokenMS, PlanWith(group, job, d).tokenMS;
    Window(LinksMS(group, job), job.networkTimeBudget, fast, slow, token);
  }

  lemma DroppedHasLinks(group: Group, job: Job)
    requires job.model.Valid()
    ensures Dropped(group, job) ==> |group| > 1
  {
  }

  lemma FastestIsFeasible(group: Group, job: Job)
    requires job.model.Valid() && FastestSplit(group, job).Split?
    ensures Feasible(CapsOf(group, job.model), job.model.nLayers, FastestSplit(group, job).counts)
  {
  }

  lemma Window(links: real, budget: real, fast: real, slow: real, token: real)
    requires 0.0 < fast <= slow && links >= 0.0 && budget * fast < links <= budget * slow
    ensures slow < token ==> links < budget * token
  {
    assert budget * slow >= 0.0;
    assert budget >= 0.0;
    assert budget > 0.0 by {
      assert budget == 0.0 ==> budget * fast == 0.0 && budget * slow == 0.0;
    }
    assert slow < token ==> budget * (token - slow) > 0.0;
  }

  ghost predicate NoFasterMap(pool: Group, job: Job, token: real)
    requires job.model.Valid()
  {
    forall ids, d :: IsMap(Restrict(pool, ids), job, d) ==> token <= PlanWith(Restrict(pool, ids), job, d).tokenMS
  }

  /** The time of a group's fastest split. */
  ghost function FastestMS(group: Group, job: Job): real
    requires job.model.Valid() && FastestPasses(group, job)
  {
    PlanWith(group, job, FastestSplit(group, job).counts).tokenMS
  }

  /** Some group whose fastest split passes is as fast as `ms`. */
  ghost predicate Matched(pool: Group, job: Job, ms: real)
    requires job.model.Valid()
  {
    exists ids :: FastestPasses(Restrict(pool, ids), job) && FastestMS(Restrict(pool, ids), job) <= ms
  }

  /** Every in-budget split of every dropped group is matched by a group that was not. */
  ghost predicate DroppedAreMatched(pool: Group, job: Job)
    requires job.model.Valid()
  {
    forall ids, d :: Dropped(Restrict(pool, ids), job) && IsMap(Restrict(pool, ids), job, d) ==>
                       Matched(pool, job, PlanWith(Restrict(pool, ids), job, d).tokenMS)
  }

  /** What Solve returns is a fastest split that passes, and no slower than any of them. */
  lemma ResultIsAFastest(pool: Group, job: Job, ms: real)
    requires job.model.Valid() && IsPool(pool) && SolvePool(pool, job, None).Ok?
    ensures SolvePool(pool, job, None).value.tokenMS <= ms <==> Matched(pool, job, ms)
  {
    hide SolvePool, PlanOf, FastestPasses, FastestSplit, PlanWith, Restrict;
    SolveIsBest(pool, job, None);
    var plan := SolvePool(pool, job, None).value;
    var own :| PlanOf(Restrict(pool, own), job) == Planned(plan);
    PlannedIffFastestPasses(Restrict(pool, own), job);
    assert FastestMS(Restrict(pool, own), job) == plan.tokenMS;
    if ids :| FastestPasses(Restrict(pool, ids), job) && FastestMS(Restrict(pool, ids), job) <= ms {
      PlannedIffFastestPasses(Restrict(pool, ids), job);
    }
  }

  /**
  The result is the fastest of all in-budget maps exactly when every in-budget split of a dropped
  group is matched by the fastest split of a group that passes.
  */
  lemma SolveIsFastestMapIff(pool: Group, job: Job)
    requires job.model.Valid() && job.boundaryOverheadMS >= 0.0 && IsPool(pool) && SolvePool(pool, job, None).Ok?
    ensures NoFasterMap(pool, job, SolvePool(pool, job, None).value.tokenMS) <==> DroppedAreMatched(pool, job)
  {
    hide SolvePool, PlanWith, Restrict, WithinBudget, LinksMS, Dropped, Matched;
    var token := SolvePool(pool, job, None).value.tokenMS;
    forall ids, d | IsMap(Restrict(pool, ids), job, d)
      ensures var ms := PlanWith(Restrict(pool, ids), job, d).tokenMS;
              (token <= ms <==> Matched(pool, job, ms)) && (token <= ms || Dropped(Restrict(pool, ids), job))
    {
      SolveBeatsEveryMap(pool, job, ids, d);
      ResultIsAFastest(pool, job, PlanWith(Restrict(pool, ids), job, d).tokenMS);
    }
  }

  /** With nothing dropped the result is the fastest of all in-budget maps. */
  lemma NothingDroppedNothingLost(pool: Group, job: Job)
    requires job.model.Valid() && job.boundaryOverheadMS >= 0.0 && IsPool(pool) && SolvePool(pool, job, None).Ok?
    requires forall ids :: !Dropped(Restrict(pool, ids), job)
    ensures NoFasterMap(pool, job, SolvePool(pool, job, None).value.tokenMS)
  {
    hide SolvePool, PlanWith, Dropped;
    SolveIsFastestMapIff(pool, job);
  }

  // ---------------------------------------------------------------- the floor, over all maps

  /** The map reaches the floor. */
  ghost predicate Reaches(group: Group, job: Job, d: seq<int>, floor: real)
    requires job.model.Valid()
  {
    IsMap(group, job, d) && (floor <= 0.0 || PlanWith(group, job, d).tokenMS * floor <= 1000.0)
  }

  /** The plan reaches the floor with no more hosts than any in-budget map that does. */
  ghost predicate NoFewerHosts(pool: Group, job: Job, floor: real, plan: Plan)
    requires job.model.Valid()
  {
    forall ids, d :: Reaches(Restrict(pool, ids), job, d, floor) ==>
                       (floor <= 0.0 || plan.tokenMS * floor <= 1000.0) && |plan.stages| <= |Restrict(pool, ids)|
  }

  /** Some group of at most k hosts reaches the floor with its fastest split. */
  ghost predicate ReachedBy(pool: Group, job: Job, floor: real, k: nat)
    requires job.model.Valid()
  {
    exists ids :: && FastestPasses(Restrict(pool, ids), job) && |Restrict(pool, ids)| <= k
                  && Reaches(Restrict(pool, ids), job, FastestSplit(Restrict(pool, ids), job).counts, floor)
  }

  ghost predicate DroppedAreReached(pool: Group, job: Job, floor: real)
    requires job.model.Valid()
  {
    forall ids, d :: Dropped(Restrict(pool, ids), job) && Reaches(Restrict(pool, ids), job, d, floor) ==>
                       ReachedBy(pool, job, floor, |Restrict(pool, ids)|)
  }

  /** The result reaches the floor within k hosts exactly when some group does with its fastest split. */
  lemma ResultReachesIff(pool: Group, job: Job, floor: real, k: nat)
    requires job.model.Valid() && IsPool(pool) && SolvePool(pool, job, Some(floor)).Ok?
    ensures var plan := SolvePool(pool, job, Some(floor)).value;
            (floor <= 0.0 || plan.tokenMS * floor <= 1000.0) && |plan.stages| <= k <==> ReachedBy(pool, job, floor, k)
  {
    hide SolvePool, PlanOf, FastestSplit, PlanWith, Restrict, IsMap;
    SolveIsBest(pool, job, Some(floor));
    var plan := SolvePool(pool, job, Some(floor)).value;
    var own :| PlanOf(Restrict(pool, own), job) == Planned(plan);
    PlannedIffFastestPasses(Restrict(pool, own), job);
    PlanIsSound(Restrict(pool, own), job);
    if ids :| FastestPasses(Restrict(pool, ids), job) && |Restrict(pool, ids)| <= k
              && Reaches(Restrict(pool, ids), job, FastestSplit(Restrict(pool, ids), job).counts, floor) {
      PlannedIffFastestPasses(Restrict(pool, ids), job);
      PlanIsSound(Restrict(pool, ids), job);
    }
  }

  /** A map that reaches the floor is matched in hosts by a fastest split, unless its group was dropped. */
  lemma ReachedOrDropped(pool: Group, job: Job, ids: set<string>, d: seq<int>, floor: real)
    requires job.model.Valid() && job.boundaryOverheadMS >= 0.0 && Reaches(Restrict(pool, ids), job, d, floor)
    ensures Dropped(Restrict(pool, ids), job) || ReachedBy(pool, job, floor, |Restrict(pool, ids)|)
  {
    hide PlanWith, Restrict, WithinBudget, FastestSplit, SlowestSplit;
    var group := Restrict(pool, ids);
    assert HasMap(group, job);
    HasMapIffSlowestPasses(group, job);
    BetweenFastestAndSlowest(group, job, d);
    if FastestPasses(group, job) {
      FasterReaches(PlanWith(group, job, FastestSplit(group, job).counts), PlanWith(group, job, d), floor);
      assert Reaches(group, job, FastestSplit(group, job).counts, floor);
    }
  }

  /**
  With a floor: the result reaches it with the fewest hosts of all in-budget maps that do exactly
  when every such map of a dropped group is matched, in hosts, by a group that passes.
  */
  lemma SolveHasFewestHostsIff(pool: Group, job: Job, floor: real)
    requires job.model.Valid() && job.boundaryOverheadMS >= 0.0 && IsPool(pool)
    requires SolvePool(pool, job, Some(floor)).Ok?
    ensures NoFewerHosts(pool, job, floor, SolvePool(pool, job, Some(floor)).value)
            <==> DroppedAreReached(pool, job, floor)
  {
    hide SolvePool, PlanWith, Restrict, Dropped, ReachedBy, Reaches;
    forall ids, d | Reaches(Restrict(pool, ids), job, d, floor)
      ensures Dropped(Restrict(pool, ids), job) || ReachedBy(pool, job, floor, |Restrict(pool, ids)|)
    {
      ReachedOrDropped(pool, job, ids, d, floor);
    }
    forall ids: set<string>
      ensures var plan, k := SolvePool(pool, job, Some(floor)).value, |Restrict(pool, ids)|;
              (floor <= 0.0 || plan.tokenMS * floor <= 1000.0) && |plan.stages| <= k <==>
              ReachedBy(pool, job, floor, k)
    {
      ResultReachesIff(pool, job, floor, |Restrict(pool, ids)|);
    }
  }

  // ---------------------------------------------------------------- two pools with a lost map

  const QUICK: NodeProfile := NodeProfile("a", 2.0, 1.0, 0.0, false)
  const STEADY: NodeProfile := NodeProfile("b", 2.0, 10.0, 0.0, false)
  const HUGE: NodeProfile := NodeProfile("c", 3.0, 100.0, 0.0, false)

  /** Three layers of 1 GB, 1 ms per link, at most 5% of the time on the links. */
  const SMALL_JOB: Job := Job(ModelSpec(3, 3.0, 0.0, 1, 0.0), 1.0, 0.05)

  lemma SmallCaps(n: NodeProfile)
    requires n == QUICK || n == STEADY || n == HUGE
    ensures CapLayers(n, SMALL_JOB.model) == if n == HUGE then 3 else 2
    ensures n.StageTime(1, SMALL_JOB.model.GBPerLayerTotal()) == n.msPerLayer
  {
    var model := SMALL_JOB.model;
    assert model.GBPerLayerResident() == 1.0 by {
      assert model.GBPerLayerResident() * 3.0 == 3.0;
    }
    assert n.capGB / 1.0 == n.capGB;
  }

  lemma PairProfile()
    ensures CapsOf([QUICK, STEADY], SMALL_JOB.model) == [2, 2]
    ensures SpeedsOf([QUICK, STEADY], SMALL_JOB.model) == [1.0, 10.0]
  {
    SmallCaps(QUICK);
    SmallCaps(STEADY);
  }

  lemma PairTimes(x: int, y: int)
    ensures var p := PlanWith([QUICK, STEADY], SMALL_JOB, [x, y]);
            && p.tokenMS == x as real + 10.0 * y as real + 1.0
            && (p.tokenMS > 0.0 ==> p.networkFraction == 1.0 / p.tokenMS) && |p.stages| == 2
  {
    PairProfile();
    TimesCost([QUICK, STEADY], SMALL_JOB.model, [x, y]);
    assert [x, y][..1] == [x] && [1.0, 10.0][..1] == [1.0];
    assert [x][..0] == [] && [1.0][..0] == [];
    assert Cost([1.0], [x]) == x as real;
  }

  lemma PairSums()
    ensures Sum([2, 1]) == 3 && Sum([1, 2]) == 3 && Sum([2, 2]) == 4
  {
    assert [2, 1][..1] == [2] && [1, 2][..1] == [1] && [2, 2][..1] == [2];
    assert [2][..0] == [] && [1][..0] == [];
    assert Sum([2]) == 2 && Sum([1]) == 1;
  }

  /** The fastest split of the pair, 2 + 1, spends 1/13 on its link; 1 + 2 spends 1/22. */
  lemma PairIsDropped()
    ensures PlanOf([QUICK, STEADY], SMALL_JOB) == NoPlan
    ensures IsMap([QUICK, STEADY], SMALL_JOB, [1, 2])
    ensures PlanWith([QUICK, STEADY], SMALL_JOB, [1, 2]).tokenMS == 22.0
  {
    var pair := [QUICK, STEADY];
    PairProfile();
    PairSums();
    PairTimes(2, 1);
    PairTimes(1, 2);
    GreedyIsUnique([2, 2], [1.0, 10.0], 3, FastestSplit(pair, SMALL_JOB).counts, [2, 1]);
  }

  lemma SinglesAreTooSmall(n: NodeProfile)
    requires n == QUICK || n == STEADY
    ensures PlanOf([n], SMALL_JOB) == NoPlan
  {
    SmallCaps(n);
    assert CapsOf([n], SMALL_JOB.model) == [2];
    assert [2][..0] == [];
    assert Sum([2]) == 2;
  }

  lemma NothingIsNoPlan(job: Job)
    requires job.model.Valid()
    ensures PlanOf([], job) == NoPlan
  {
    EmptySum();
    assert CapsOf([], job.model) == [];
  }

  lemma PairGroups(ids: set<string>)
    ensures var g := Restrict([QUICK, STEADY], ids);
            g == [] || g == [QUICK] || g == [STEADY] || g == [QUICK, STEADY]
  {
    assert [QUICK, STEADY][1..] == [STEADY] && [STEADY][1..] == [];
    assert Restrict([STEADY], ids) == if STEADY.id in ids then [STEADY] else [];
  }

  lemma PairHasNoPlan(ids: set<string>)
    ensures PlanOf(Restrict([QUICK, STEADY], ids), SMALL_JOB) == NoPlan
  {
    hide PlanOf;
    PairGroups(ids);
    NothingIsNoPlan(SMALL_JOB);
    SinglesAreTooSmall(QUICK);
    SinglesAreTooSmall(STEADY);
    PairIsDropped();
  }

  lemma PairIsPool()
    ensures IsPool([QUICK, STEADY]) && Restrict([QUICK, STEADY], {"a", "b"}) == [QUICK, STEADY]
    ensures TotalCap([QUICK, STEADY]) == 4.0
  {
    assert [QUICK, STEADY][1..] == [STEADY] && [STEADY][1..] == [];
    assert [QUICK, STEADY][..1] == [QUICK] && [QUICK][..0] == [];
    assert TotalCap([QUICK]) == 2.0;
    assert Restrict([STEADY], {"a", "b"}) == [STEADY];
  }

  /** Solve reports that no map satisfies the budget, with any floor, while one does. */
  lemma SolveMissesAMap(floor: Option<real>)
    ensures SolvePool([QUICK, STEADY], SMALL_JOB, floor) == Err(NoMapInBudget)
    ensures MapInPool([QUICK, STEADY], SMALL_JOB)
  {
    hide PlanOf, SolvePool, TotalCap, IsMap;
    var pool := [QUICK, STEADY];
    PairIsPool();
    PairIsDropped();
    assert HasMap(Restrict(pool, {"a", "b"}), SMALL_JOB);
    forall ids ensures PlanOf(Restrict(pool, ids), SMALL_JOB) == NoPlan {
      PairHasNoPlan(ids);
    }
    SolveSucceedsIff(pool, SMALL_JOB, floor);
  }

  lemma {:induction false} SumAtLeast(s: seq<real>, i: nat)
    requires i < |s| && forall k :: 0 <= k < |s| ==> s[k] >= 0.0
    ensures s[i] <= SumReal(s)
    ensures SumReal(s) >= 0.0
  {
    var n := |s| - 1;
    if i < n {
      SumAtLeast(s[..n], i);
    } else if n > 0 {
      SumAtLeast(s[..n], 0);
    }
  }

  /** A plan that uses the huge node takes at least one of its layers. */
  lemma HugeIsSlow(group: Group, i: nat)
    requires i < |group| && group[i] == HUGE && PlanOf(group, SMALL_JOB).Planned?
    ensures PlanOf(group, SMALL_JOB).plan.tokenMS >= 100.0
  {
    var model, counts := SMALL_JOB.model, FastestSplit(group, SMALL_JOB).counts;
    FastestIsFeasible(group, SMALL_JOB);
    var times := TimesOf(group, model, counts);
    forall k | 0 <= k < |times| ensures times[k] >= 0.0 {
      assert group[k] in group;
      StageTimePositive(group[k], counts[k], model);
    }
    SumAtLeast(times, i);
    assert times[i] == counts[i] as real * 100.0;
    assert (|group| - 1) as real * 1.0 >= 0.0;
  }

  lemma TrioIsPool()
    ensures IsPool([QUICK, STEADY, HUGE])
  {
    assert Less("a", "b") && Less("a", "c") && Less("b", "c");
    hide Less;
  }

  lemma TrioRestricts()
    ensures Restrict([QUICK, STEADY, HUGE], {"c"}) == [HUGE]
    ensures Restrict([QUICK, STEADY, HUGE], {"a", "b"}) == [QUICK, STEADY]
  {
    hide Restrict;
    PairIsPool();
    HugeIsLast({"a", "b"});
    HugeIsLast({"c"});
    PairWithoutC();
    assert [] + [HUGE] == [HUGE];
  }

  lemma HugeIsLast(ids: set<string>)
    ensures var front := Restrict([QUICK, STEADY], ids);
            Restrict([QUICK, STEADY, HUGE], ids) == if "c" in ids then front + [HUGE] else front
  {
    hide Restrict;
    RestrictAppend([QUICK, STEADY], HUGE, ids);
    assert [QUICK, STEADY] + [HUGE] == [QUICK, STEADY, HUGE];
  }

  lemma PairWithoutC()
    ensures Restrict([QUICK, STEADY], {"c"}) == []
  {
    hide Restrict;
    RestrictSame([QUICK, STEADY], {"c"}, {});
    RestrictNothing([QUICK, STEADY]);
  }

  lemma HugeAloneHasPlan()
    ensures PlanOf([HUGE], SMALL_JOB).Planned?
  {
    SmallCaps(HUGE);
    assert CapsOf([HUGE], SMALL_JOB.model) == [3];
    assert [3][..0] == [];
    assert Sum([3]) == 3;
    assert [HUGE][1..] == [];
  }

  /** A group of the three either uses the huge node or is a group of the pair. */
  lemma TrioGroups(ids: set<string>)
    ensures var g := Restrict([QUICK, STEADY, HUGE], ids);
            (exists i :: 0 <= i < |g| && g[i] == HUGE) || g == Restrict([QUICK, STEADY], ids)
  {
    HugeIsLast(ids);
    hide Restrict;
    var g, front := Restrict([QUICK, STEADY, HUGE], ids), Restrict([QUICK, STEADY], ids);
    if HUGE.id in ids {
      assert g[|front|] == HUGE;
    }
  }

  /** Solve succeeds, with a plan over four times slower than the in-budget map of a dropped group. */
  lemma SolveReturnsASlowerMap()
    ensures var pool := [QUICK, STEADY, HUGE];
            && SolvePool(pool, SMALL_JOB, None).Ok? && SolvePool(pool, SMALL_JOB, None).value.tokenMS >= 100.0
            && IsMap(Restrict(pool, {"a", "b"}), SMALL_JOB, [1, 2])
            && PlanWith(Restrict(pool, {"a", "b"}), SMALL_JOB, [1, 2]).tokenMS == 22.0
  {
    hide PlanOf, SolvePool, TotalCap, IsMap, PlanWith;
    var pool := [QUICK, STEADY, HUGE];
    TrioIsPool();
    TrioRestricts();
    PairIsDropped();
    HugeAloneHasPlan();
    assert SomePlanned(pool, SMALL_JOB);
    MeasuredPoolSucceedsIff(pool, SMALL_JOB, None);
    SolveIsBest(pool, SMALL_JOB, None);
    var plan := SolvePool(pool, SMALL_JOB, None).value;
    var ids :| PlanOf(Restrict(pool, ids), SMALL_JOB) == Planned(plan);
    TrioGroups(ids);
    PairHasNoPlan(ids);
    var g := Restrict(pool, ids);
    var i :| 0 <= i < |g| && g[i] == HUGE;
    HugeIsSlow(g, i);
  }
}

/**
SolveReplicas: independent replicas on disjoint sub-pools, memoised over node subsets
(internal/partitioner/solver.go:418-559).
*/
module Replicas {
  import opened Options
  import opened StringOrder
  import opened Plans
  import opened Pools
  import opened Solver
  import opened Budgets
  import opened IdSets
  import opened Packing

  const TOLERANCE: real := 0.000000001

  /** planFor without its cache: the fastest plan of a group of ids. */
  ghost function PlannerOf(pool: Group, job: Job): Planner
    requires job.model.Valid()
  {
    (ids: set<string>) => ToOption(SolvePool(Restrict(pool, ids), job, None))
  }

  ghost predicate CleanPool(pool: Group) {
    IsPool(pool) && forall n :: n in pool ==> Clean(n.id)
  }

  /** A list of pool nodes named by `ids`, in any order, is solved as the group itself. */
  lemma GroupInAnyOrder(pool: Group, ids: set<string>, listed: Group)
    requires IsPool(pool) && DistinctIds(listed)
    requires forall n :: n in listed <==> n in pool && n.id in ids
    ensures PresentSorted(listed) == Restrict(pool, ids)
  {
    PresentSortedIsPool(listed);
    RestrictMembers(pool, ids);
    SortedIsUnique(PresentSorted(listed), Restrict(pool, ids));
  }

  /** The closures of SolveReplicas and the two memo tables they share. */
  class ReplicaSearch {
    const pool: Group
    const byID: map<string, NodeProfile>
    const job: Job
    ghost const planner: Planner
    var planCache: map<string, Option<Plan>>
    var bestCache: map<string, Deal>

    constructor (present: Group, job: Job)
      requires job.model.Valid() && CleanPool(present)
      ensures Valid() && pool == present && planner == PlannerOf(present, job) && byID.Keys == IdsOf(present)
      ensures planCache == map[] && bestCache == map[]
    {
      pool := present;
      this.job := job;
      planner := PlannerOf(present, job);
      var index: map<string, NodeProfile> := map[];
      SortedIsDistinct(present);
      for i := 0 to |present|
        invariant forall k :: 0 <= k < i ==> present[k].id in index && index[present[k].id] == present[k]
        invariant forall id :: id in index ==> index[id] in present && index[id].id == id
      {
        index := index[present[i].id := present[i]];
      }
      byID := index;
      planCache := map[];
      bestCache := map[];
    }

    /** Facts that never change. */
    ghost predicate Fixed() {
      && job.model.Valid() && CleanPool(pool) && planner == PlannerOf(pool, job)
      && (forall n :: n in pool ==> n.id in byID && byID[n.id] == n)
      && (forall id :: id in byID ==> byID[id] in pool && byID[id].id == id)
    }

    /** A memo entry is what the search would compute again. */
    ghost predicate Valid()
      reads this
    {
      && Fixed()
      && (forall ids :: ids <= IdsOf(pool) && KeyOf(ids) in planCache ==>
                          planCache[KeyOf(ids)] == planner(ids))
      && (forall ids :: ids <= IdsOf(pool) && KeyOf(ids) in bestCache ==>
                          bestCache[KeyOf(ids)] == BestDeal(ids, planner, TOLERANCE))
    }

    lemma KeysDiffer(a: set<string>, b: set<string>)
      requires Fixed() && a <= IdsOf(pool) && b <= IdsOf(pool) && KeyOf(a) == KeyOf(b)
      ensures a == b
    {
      KeyInjective(a, b);
    }

    lemma GatherOne(group: Group, ids: set<string>, left: set<string>, id: string)
      requires Fixed() && ids <= IdsOf(pool) && left <= ids && id in left && DistinctIds(group)
      requires forall n :: n in group <==> n in pool && n.id in ids - left
      ensures id in byID && DistinctIds(group + [byID[id]])
      ensures forall n :: n in group + [byID[id]] <==> n in pool && n.id in ids - (left - {id})
    {
      assert id in IdsOf(pool);
      var next := group + [byID[id]];
      forall i | 0 <= i < |group| ensures group[i].id != id {
        assert group[i] in group;
      }
      forall n ensures n in next <==> n in pool && n.id in ids - (left - {id}) {
        assert n in next <==> n in group || n == byID[id];
      }
    }

    /** The nodes of a group, in the order a map happens to be iterated. */
    method Gather(ids: set<string>) returns (group: Group)
      requires Fixed() && ids <= IdsOf(pool)
      ensures DistinctIds(group)
      ensures forall n :: n in group <==> n in pool && n.id in ids
    {
      group := [];
      var left := ids;
      while left != {}
        invariant left <= ids && DistinctIds(group)
        invariant forall n :: n in group <==> n in pool && n.id in ids - left
        decreases left
      {
        var id :| id in left;
        GatherOne(group, ids, left, id);
        group := group + [byID[id]];
        left := left - {id};
      }
    }

    method PlanFor(ids: set<string>) returns (plan: Option<Plan>)
      requires Valid() && ids <= IdsOf(pool)
      modifies this`planCache
      ensures Valid() && plan == planner(ids)
    {
      hide SolvePool, KeyOf, BestDeal;
      var key := SetKey(ids);
      if key in planCache {
        return planCache[key];
      }
      var group := Gather(ids);
      GroupInAnyOrder(pool, ids, group);
      var r, _ := SolvePlan(group, job, None);
      plan := ToOption(r);
      planCache := planCache[key := plan];
      forall other | other <= IdsOf(pool) && KeyOf(other) == key ensures other == ids {
        KeysDiffer(other, ids);
      }
    }

    /** Remembering an answer keeps every other entry meaningful. */
    method Remember(ids: set<string>, key: string, deal: Deal)
      requires Valid() && ids <= IdsOf(pool) && key == KeyOf(ids)
      requires deal == BestDeal(ids, planner, TOLERANCE)
      modifies this`bestCache
      ensures Valid()
    {
      hide SolvePool, KeyOf, BestDeal;
      bestCache := bestCache[key := deal];
      forall other | other <= IdsOf(pool) && KeyOf(other) == key ensures other == ids {
        KeysDiffer(other, ids);
      }
    }

    method Recall(ids: set<string>, key: string) returns (deal: Option<Deal>)
      requires Valid() && ids <= IdsOf(pool) && key == KeyOf(ids)
      ensures deal.Some? ==> deal.value == BestDeal(ids, planner, TOLERANCE)
    {
      hide SolvePool, KeyOf, BestDeal;
      return if key in bestCache then Some(bestCache[key]) else None;
    }

    lemma NoEmptyId(ids: set<string>)
      requires Valid() && ids <= IdsOf(pool)
      ensures "" !in ids
    {
    }

    /** bestAssignment: what it returns does not depend on what the tables held before. */
    method BestAssignment(ids: set<string>) returns (best: Deal)
      requires Valid() && ids <= IdsOf(pool)
      modifies this
      ensures Valid() && best == BestDeal(ids, planner, TOLERANCE)
      decreases |ids|, 2
    {
      hide SolvePool, KeyOf, Listing, PlannerOf, Fixed, Valid, ScanMasks;
      if ids == {} {
        return Deal(0.0, []);
      }
      var key := SetKey(ids);
      var seen := Recall(ids, key);
      if seen.Some? {
        return seen.value;
      }
      NoEmptyId(ids);
      var first := FindLeast(ids);
      LeastIn(ids);
      var rest := ids - {first};
      best := BestAssignment(rest);
      var restIDs := SortIds(rest);
      best := TryAllMasks(ids, first, restIDs, best);
      Remember(ids, key, best);
    }

    /** Options: the smallest id serves in a replica with each subset of the rest. */
    method TryAllMasks(ids: set<string>, first: string, restIDs: seq<string>, idle: Deal) returns (best: Deal)
      requires Valid() && ids <= IdsOf(pool) && ids != {}
      requires first == Least(ids) && restIDs == Listing(ids - {first})
      requires idle == BestDeal(ids - {first}, planner, TOLERANCE)
      modifies this
      ensures Valid() && best == BestDeal(ids, planner, TOLERANCE)
      decreases |ids|, 1
    {
      hide *;
      ListingLength(ids - {first});
      LeastIn(ids);
      ScanEnds(ids, planner, TOLERANCE);
      var limit := PowerOfTwo(|restIDs|);
      best := idle;
      var mask := 0;
      while mask < limit
        invariant 0 <= mask <= limit && Valid()
        invariant best == ScanMasks(ids, planner, TOLERANCE, mask)
      {
        best := TryMask(ids, first, restIDs, mask, best);
        mask := mask + 1;
      }
    }

    /** One turn of the mask loop: the smallest id serves with the ids the mask selects. */
    method TryMask(ids: set<string>, first: string, restIDs: seq<string>, mask: nat, before: Deal) returns (best: Deal)
      requires Valid() && ids <= IdsOf(pool) && ids != {}
      requires first == Least(ids) && restIDs == Listing(ids - {first})
      requires before == ScanMasks(ids, planner, TOLERANCE, mask)
      modifies this
      ensures Valid() && best == ScanMasks(ids, planner, TOLERANCE, mask + 1)
      decreases |ids|, 0
    {
      hide *;
      var chosen := SelectLoop(mask, restIDs);
      var group := {first} + chosen;
      GroupIs(ids, mask);
      GroupWithin(ids, mask);
      var plan := PlanFor(group);
      if plan.None? {
        ScanNext(ids, planner, TOLERANCE, mask, before, plan, before);
        return before;
      }
      var sub := BestAssignment(ids - group);
      ScanNext(ids, planner, TOLERANCE, mask, before, plan, sub);
      best := Prefer(plan.value, sub, before);
    }
  }

  /** Higher aggregate wins; ties within the tolerance go to fewer replicas. */
  method Prefer(plan: Plan, sub: Deal, best: Deal) returns (r: Deal)
    ensures r == if Replaces(Extend(plan, sub), best, TOLERANCE) then Extend(plan, sub) else best
    ensures plan.tokenMS > 0.0 ==>
              var agg := 1000.0 / plan.tokenMS + sub.agg;
              var tie := best.agg - 0.000000001 <= agg <= best.agg + 0.000000001;
              r == if agg > best.agg + 0.000000001 || (tie && 1 + |sub.plans| < |best.plans|)
                   then Deal(agg, [plan] + sub.plans) else best
  {
    var cand := Deal(Rate(plan) + sub.agg, [plan] + sub.plans);
    if cand.agg > best.agg + TOLERANCE
       || (-TOLERANCE <= cand.agg - best.agg <= TOLERANCE && |cand.plans| < |best.plans|) {
      return cand;
    }
    return best;
  }

  lemma GroupIs(ids: set<string>, mask: nat)
    requires ids != {}
    ensures GroupOf(ids, mask) == {Least(ids)} + Select(mask, Listing(ids - {Least(ids)}))
  {
  }

  lemma ListingLength(ids: set<string>)
    ensures |Listing(ids)| == |ids|
  {
    ListingElements(ids);
  }

  method PowerOfTwo(n: nat) returns (p: nat)
    ensures p == Pow2(n)
  {
    p := 1;
    for i := 0 to n
      invariant p == Pow2(i)
    {
      p := 2 * p;
    }
  }

  // ---------------------------------------------------------------- the service-level plan

  datatype ReplicaPlan = ReplicaPlan(replicas: seq<Plan>, aggregateTokensS: real, idle: seq<string>)
  datatype ReplicaResult = Placed(plan: ReplicaPlan) | NoPresentNodes | NoReplicaFits

  ghost predicate PairwiseDisjoint(plans: seq<Plan>) {
    forall i, j :: 0 <= i < j < |plans| ==> plans[i].NodeIDs() !! plans[j].NodeIDs()
  }

  ghost function UsedBy(plans: seq<Plan>): set<string> {
    set i, id | 0 <= i < |plans| && id in plans[i].NodeIDs() :: id
  }

  /** The plan of a group uses nodes of that group only, and is a plan of the pool. */
  lemma PlannerUsesGroup(pool: Group, job: Job, group: set<string>)
    requires job.model.Valid() && IsPool(pool) && PlannerOf(pool, job)(group).Some?
    ensures var plan := PlannerOf(pool, job)(group).value;
            && plan.NodeIDs() <= group * IdsOf(pool) && PlanInPool(pool, job, plan)
            && (job.boundaryOverheadMS >= 0.0 ==> plan.tokenMS > 0.0)
  {
    hide PlanOf, SolvePool;
    var sub := Restrict(pool, group);
    RestrictIsPool(pool, group);
    SolveIsBest(sub, job, None);
    var plan := SolvePool(sub, job, None).value;
    var ids :| PlanOf(Restrict(sub, ids), job) == Planned(plan);
    RestrictAgain(pool, group, ids);
    assert PlanOf(Restrict(pool, group * ids), job) == Planned(plan);
    PlanIsSound(Restrict(sub, ids), job);
    RestrictMembers(sub, ids);
    RestrictMembers(pool, group);
    forall s | s in plan.stages ensures s.nodeID in group * IdsOf(pool) {
      var i :| 0 <= i < |plan.stages| && plan.stages[i] == s;
      assert Restrict(sub, ids)[i] in sub;
    }
  }

  /** The tokens per second of all the replicas together. */
  function Rates(plans: seq<Plan>): real {
    if plans == [] then 0.0 else Rate(plans[0]) + Rates(plans[1..])
  }

  lemma {:induction false} RatesAreTotal(plans: seq<Plan>, groups: seq<set<string>>, planner: Planner)
    requires |plans| == |groups| && forall i :: 0 <= i < |groups| ==> planner(groups[i]) == Some(plans[i])
    ensures Rates(plans) == Total(groups, planner)
  {
    if plans != [] {
      RatesAreTotal(plans[1..], groups[1..], planner);
    }
  }

  lemma {:induction false} RatesWithout(plans: seq<Plan>, k: nat)
    requires k < |plans|
    ensures Rates(plans) == Rate(plans[k]) + Rates(plans[..k] + plans[k + 1..])
  {
    if k > 0 {
      RatesWithout(plans[1..], k - 1);
      var rest := plans[..k] + plans[k + 1..];
      assert rest[1..] == plans[1..][..k - 1] + plans[1..][k..];
    } else {
      assert plans[..0] + plans[1..] == plans[1..];
    }
  }

  lemma TakenOut(a: seq<Plan>, k: nat)
    requires k < |a|
    ensures multiset(a[..k] + a[k + 1..]) == multiset(a) - multiset{a[k]}
  {
    assert a == a[..k] + [a[k]] + a[k + 1..];
  }

  lemma HeadTakenOff(a: seq<Plan>)
    requires a != []
    ensures multiset(a[1..]) == multiset(a) - multiset{a[0]}
  {
    assert a == [a[0]] + a[1..];
  }

  lemma PositionOf(a: seq<Plan>, p: Plan) returns (k: nat)
    requires p in a
    ensures k < |a| && a[k] == p
  {
    k :| 0 <= k < |a| && a[k] == p;
  }

  /** The head of one listing somewhere in the other, and what is left of both. */
  lemma MatchHead(a: seq<Plan>, b: seq<Plan>) returns (k: nat)
    requires a != [] && multiset(a) == multiset(b)
    ensures k < |b| && b[k] == a[0] && multiset(a[1..]) == multiset(b[..k] + b[k + 1..])
  {
    SameMembers(a, b);
    k := PositionOf(b, a[0]);
    TakenOut(b, k);
    HeadTakenOff(a);
  }

  lemma {:induction false} RatesIgnoreOrder(a: seq<Plan>, b: seq<Plan>)
    requires multiset(a) == multiset(b)
    ensures Rates(a) == Rates(b)
  {
    if a == [] {
      assert |b| == |multiset(b)|;
    } else {
      var k := MatchHead(a, b);
      RatesIgnoreOrder(a[1..], b[..k] + b[k + 1..]);
      RatesWithout(b, k);
    }
  }

  /** What a placement is worth, in terms of the pool alone. */
  ghost predicate GoodPlacement(pool: Group, job: Job, r: ReplicaPlan)
    requires job.model.Valid()
  {
    && PairwiseDisjoint(r.replicas)
    && (forall i :: 0 <= i < |r.replicas| ==> PlanInPool(pool, job, r.replicas[i]))
    && Rates(r.replicas) == r.aggregateTokensS
    && (forall groups :: Family(groups, IdsOf(pool), PlannerOf(pool, job)) ==>
                           Total(groups, PlannerOf(pool, job)) <=
                               r.aggregateTokensS + (Pow2(|IdsOf(pool)|) - 1) as real / 1000000000.0)
  }

  lemma DealIsGood(pool: Group, job: Job, deal: Deal)
    requires job.model.Valid() && IsPool(pool)
    requires deal == BestDeal(IdsOf(pool), PlannerOf(pool, job), TOLERANCE)
    ensures GoodPlacement(pool, job, ReplicaPlan(deal.plans, deal.agg, []))
    ensures UsedBy(deal.plans) <= IdsOf(pool)
  {
    hide PlannerOf, BestDeal, PlanInPool;
    var planner := PlannerOf(pool, job);
    var groups := DealIsFamily(IdsOf(pool), planner, TOLERANCE);
    RatesAreTotal(deal.plans, groups, planner);
    forall i | 0 <= i < |groups|
      ensures deal.plans[i].NodeIDs() <= groups[i] * IdsOf(pool) && PlanInPool(pool, job, deal.plans[i])
    {
      PlannerUsesGroup(pool, job, groups[i]);
    }
    assert PairwiseDisjoint(deal.plans) by {
      hide PlannerOf, PlanInPool, Total;
      forall i, j | 0 <= i < j < |groups| ensures deal.plans[i].NodeIDs() !! deal.plans[j].NodeIDs() {
        assert groups[i] !! groups[j];
      }
    }
    forall f | Family(f, IdsOf(pool), planner)
      ensures Total(f, planner) <= deal.agg + (Pow2(|IdsOf(pool)|) - 1) as real / 1000000000.0
    {
      NearlyOptimal(IdsOf(pool), planner, TOLERANCE, f);
    }
  }

  function PlanKey(plan: Plan): string {
    Join(StageIDs(plan))
  }

  ghost predicate SortedByKey(plans: seq<Plan>) {
    forall i, j :: 0 <= i < j < |plans| ==> AtMost(PlanKey(plans[i]), PlanKey(plans[j]))
  }

  /** sort.Slice on the joined node ids. */
  method SortPlans(plans: seq<Plan>) returns (sorted: seq<Plan>)
    ensures multiset(sorted) == multiset(plans) && SortedByKey(sorted)
  {
    hide PlanKey, AtMost;
    sorted := [];
    for n := 0 to |plans|
      invariant multiset(sorted) == multiset(plans[..n]) && SortedByKey(sorted)
    {
      var at := |sorted|;
      var key := PlanKey(plans[n]);
      while at > 0 && Less(key, PlanKey(sorted[at - 1]))
        invariant 0 <= at <= |sorted|
        invariant forall i :: at <= i < |sorted| ==> AtMost(key, PlanKey(sorted[i]))
      {
        AtMostFromLess(key, PlanKey(sorted[at - 1]));
        at := at - 1;
      }
      assert plans[..n + 1] == plans[..n] + [plans[n]];
      InsertKeepsOrder(sorted, at, plans[n]);
      assert sorted == sorted[..at] + sorted[at..];
      sorted := sorted[..at] + [plans[n]] + sorted[at..];
    }
    assert plans[..|plans|] == plans;
  }

  lemma AtMostFromLess(a: string, b: string)
    ensures Less(a, b) ==> AtMost(a, b)
    ensures !Less(b, a) ==> AtMost(a, b)
  {
    LessTotal(a, b);
  }

  lemma InsertKeepsOrder(sorted: seq<Plan>, at: nat, plan: Plan)
    requires at <= |sorted| && SortedByKey(sorted)
    requires at > 0 ==> !Less(PlanKey(plan), PlanKey(sorted[at - 1]))
    requires forall i :: at <= i < |sorted| ==> AtMost(PlanKey(plan), PlanKey(sorted[i]))
    ensures SortedByKey(sorted[..at] + [plan] + sorted[at..])
  {
    hide PlanKey, AtMost, Less;
    forall i | 0 <= i < at ensures AtMost(PlanKey(sorted[i]), PlanKey(plan)) {
      AtMostFromLess(PlanKey(sorted[at - 1]), PlanKey(plan));
      if i < at - 1 {
        AtMostTransitive(PlanKey(sorted[i]), PlanKey(sorted[at - 1]), PlanKey(plan));
      }
    }
    var placed := sorted[..at] + [plan] + sorted[at..];
    forall i, j | 0 <= i < j < |placed| ensures AtMost(PlanKey(placed[i]), PlanKey(placed[j])) {
      if i != at && j != at {
        var k, l := if i < at then i else i - 1, if j < at then j else j - 1;
        assert placed[i] == sorted[k] && placed[j] == sorted[l];
      }
    }
  }

  /** Reordering the replicas changes neither what they are nor that they are disjoint. */
  lemma ReorderKeepsGood(pool: Group, job: Job, plans: seq<Plan>, sorted: seq<Plan>, agg: real)
    requires job.model.Valid() && multiset(plans) == multiset(sorted)
    requires GoodPlacement(pool, job, ReplicaPlan(plans, agg, []))
    ensures GoodPlacement(pool, job, ReplicaPlan(sorted, agg, []))
    ensures UsedBy(sorted) == UsedBy(plans)
  {
    hide PlannerOf, PlanInPool;
    SameMembers(plans, sorted);
    RatesIgnoreOrder(plans, sorted);
    forall i | 0 <= i < |plans| ensures plans[i].NodeIDs() != {} {
      PlanHasNodes(pool, job, plans[i]);
    }
    ReorderKeepsDisjoint(plans, sorted);
    forall i | 0 <= i < |sorted| ensures PlanInPool(pool, job, sorted[i]) {
      assert sorted[i] in plans;
    }
  }

  lemma SameMembers(a: seq<Plan>, b: seq<Plan>)
    requires multiset(a) == multiset(b)
    ensures forall p :: p in a <==> p in b
    ensures UsedBy(a) == UsedBy(b)
  {
    assert forall p :: p in a <==> p in multiset(a);
    assert forall p :: p in b <==> p in multiset(b);
    UsedIsByMember(a);
    UsedIsByMember(b);
  }

  lemma UsedIsByMember(a: seq<Plan>)
    ensures forall id :: id in UsedBy(a) <==> exists p :: p in a && id in p.NodeIDs()
  {
  }

  lemma PlanHasNodes(pool: Group, job: Job, plan: Plan)
    requires job.model.Valid() && PlanInPool(pool, job, plan)
    ensures plan.NodeIDs() != {}
  {
    hide PlanOf;
    var ids :| PlanOf(Restrict(pool, ids), job) == Planned(plan);
    PlanIsSound(Restrict(pool, ids), job);
    assert plan.stages[0].nodeID in plan.NodeIDs();
  }

  lemma ReorderKeepsDisjoint(a: seq<Plan>, b: seq<Plan>)
    requires multiset(a) == multiset(b) && PairwiseDisjoint(a)
    requires forall i :: 0 <= i < |a| ==> a[i].NodeIDs() != {}
    ensures PairwiseDisjoint(b)
  {
    SameMembers(a, b);
    forall i, j | 0 <= i < j < |b| ensures b[i].NodeIDs() !! b[j].NodeIDs() {
      assert b[i] in a && b[j] in a;
      if b[i] == b[j] {
        TwiceInMultiset(b, i, j);
        OnceWhenDisjoint(a, b[i]);
        assert false;
      }
      var k :| 0 <= k < |a| && a[k] == b[i];
      var l :| 0 <= l < |a| && a[l] == b[j];
      if k < l {
        assert a[k].NodeIDs() !! a[l].NodeIDs();
      } else {
        assert a[l].NodeIDs() !! a[k].NodeIDs();
      }
    }
  }

  lemma TwiceInMultiset(b: seq<Plan>, i: nat, j: nat)
    requires i < j < |b| && b[i] == b[j]
    ensures multiset(b)[b[i]] >= 2
  {
    assert b == b[..i] + [b[i]] + b[i + 1..j] + [b[j]] + b[j + 1..];
  }

  lemma {:induction false} OnceWhenDisjoint(a: seq<Plan>, p: Plan)
    requires PairwiseDisjoint(a) && forall i :: 0 <= i < |a| ==> a[i].NodeIDs() != {}
    ensures multiset(a)[p] <= 1
  {
    if a != [] {
      var n := |a| - 1;
      assert a == a[..n] + [a[n]];
      OnceWhenDisjoint(a[..n], p);
      forall i | 0 <= i < n ensures a[..n][i] != a[n] {
        assert a[i].NodeIDs() !! a[n].NodeIDs();
      }
      assert a[n] !in multiset(a[..n]);
    }
  }

  // ---------------------------------------------------------------- the answer

  method CollectUsed(plans: seq<Plan>) returns (used: set<string>)
    ensures used == UsedBy(plans)
  {
    used := {};
    for i := 0 to |plans|
      invariant used == UsedBy(plans[..i])
    {
      var stages := plans[i].stages;
      ghost var before := used;
      for j := 0 to |stages|
        invariant used == before + set k | 0 <= k < j :: stages[k].nodeID
      {
        used := used + {stages[j].nodeID};
      }
      assert plans[i].NodeIDs() == set k | 0 <= k < |stages| :: stages[k].nodeID;
      assert plans[..i + 1] == plans[..i] + [plans[i]];
      UsedGrows(plans[..i], plans[i]);
    }
    assert plans[..|plans|] == plans;
  }

  lemma UsedGrows(plans: seq<Plan>, p: Plan)
    ensures UsedBy(plans + [p]) == UsedBy(plans) + p.NodeIDs()
  {
    UsedIsByMember(plans);
    UsedIsByMember(plans + [p]);
  }

  /** The search over all present nodes, with fresh memo tables. */
  method SearchAll(present: Group, job: Job) returns (best: Deal)
    requires job.model.Valid() && CleanPool(present)
    ensures best == BestDeal(IdsOf(present), PlannerOf(present, job), TOLERANCE)
  {
    var search := new ReplicaSearch(present, job);
    hide *;
    best := search.BestAssignment(search.byID.Keys);
  }

  /** The answer for a pool: the plans of the best deal in key order, and who is left idle. */
  ghost predicate ReplicasAnswer(pool: Group, job: Job, r: ReplicaResult)
    requires job.model.Valid()
  {
    var deal := BestDeal(IdsOf(pool), PlannerOf(pool, job), TOLERANCE);
    if pool == [] then r == NoPresentNodes
    else if deal.plans == [] then r == NoReplicaFits
    else
      && r.Placed? && multiset(r.plan.replicas) == multiset(deal.plans) && SortedByKey(r.plan.replicas)
      && r.plan.aggregateTokensS == deal.agg && r.plan.idle == Unused(pool, UsedBy(r.plan.replicas))
  }

  /**
  Disjoint replicas, every other present node idle, and an aggregate within the tolerance of
  the best packing. Turned down exactly when no group runs faster than the tolerance.
  */
  method SolveReplicas(nodes: Group, job: Job) returns (r: ReplicaResult)
    requires job.model.Valid() && job.boundaryOverheadMS >= 0.0
    requires DistinctIds(nodes) && forall n :: n in nodes ==> Clean(n.id)
    ensures ReplicasAnswer(PresentSorted(nodes), job, r)
    ensures r.NoPresentNodes? <==> PresentSorted(nodes) == []
    ensures r.Placed? ==>
              var pool := PresentSorted(nodes);
              && GoodPlacement(pool, job, r.plan) && SortedByKey(r.plan.replicas) && r.plan.replicas != []
              && UsedBy(r.plan.replicas) !! (set id | id in r.plan.idle)
              && UsedBy(r.plan.replicas) + (set id | id in r.plan.idle) == IdsOf(pool)
    ensures r.NoReplicaFits? <==>
              var pool := PresentSorted(nodes);
              pool != [] && forall group :: group != {} && group <= IdsOf(pool) ==>
                                              var plan := PlannerOf(pool, job)(group);
                                              plan.Some? ==> plan.value.tokenMS >= 1000000000000.0
  {
    hide SolvePool, BestDeal, GoodPlacement, SortedByKey, UsedBy, PlannerOf, Worthwhile;
    var present := SortPresent(nodes);
    if |present| == 0 {
      return NoPresentNodes;
    }
    PresentSortedIsPool(nodes);
    var best := SearchAll(present, job);
    PlacesWhenWorthwhile(IdsOf(present), PlannerOf(present, job), TOLERANCE);
    forall group | group != {} && group <= IdsOf(present)
      ensures var plan := PlannerOf(present, job)(group);
              Worthwhile(group, IdsOf(present), PlannerOf(present, job), TOLERANCE)
              <==> plan.Some? && plan.value.tokenMS < 1000000000000.0
    {
      WorthwhileMeans(present, job, group);
    }
    NothingElseIsWorthwhile(present, job);
    if |best.plans| == 0 {
      return NoReplicaFits;
    }
    DealIsGood(present, job, best);
    var used := CollectUsed(best.plans);
    var idle := ListUnused(present, used);
    UnusedIsTheRest(present, used);
    var sorted := SortPlans(best.plans);
    ReorderKeepsGood(present, job, best.plans, sorted, best.agg);
    IdleDoesNotMatter(present, job, sorted, best.agg, idle);
    return Placed(ReplicaPlan(sorted, best.agg, idle));
  }

  /** A billionth of a token per second is a token in 10^12 ms. */
  lemma WorthwhileMeans(pool: Group, job: Job, group: set<string>)
    requires job.model.Valid() && job.boundaryOverheadMS >= 0.0 && IsPool(pool) && group != {} && group <= IdsOf(pool)
    ensures var plan := PlannerOf(pool, job)(group);
            && (Worthwhile(group, IdsOf(pool), PlannerOf(pool, job), TOLERANCE)
                <==> plan.Some? && plan.value.tokenMS < 1000000000000.0)
            && (plan.Some? ==> plan.value.tokenMS > 0.0
                               && (plan.value.tokenMS < 1000000000000.0 <==> 1000.0 / plan.value.tokenMS > 0.000000001))
  {
    hide PlannerOf, Rate;
    if PlannerOf(pool, job)(group).Some? {
      PlannerUsesGroup(pool, job, group);
      var plan := PlannerOf(pool, job)(group).value;
      RateMeans(plan);
      RateAbove(plan.tokenMS);
    }
  }

  lemma RateAbove(ms: real)
    requires ms > 0.0
    ensures 1000.0 / ms > 0.000000001 <==> ms < 1000000000000.0
  {
    var q := 1000.0 / ms;
    assert q * ms == 1000.0;
    if q > 0.000000001 {
      assert (q - 0.000000001) * ms > 0.0;
    } else {
      assert (0.000000001 - q) * ms >= 0.0;
    }
  }

  lemma NothingElseIsWorthwhile(pool: Group, job: Job)
    requires job.model.Valid()
    ensures forall group :: Worthwhile(group, IdsOf(pool), PlannerOf(pool, job), TOLERANCE) ==>
                              group != {} && group <= IdsOf(pool)
  {
    hide PlannerOf, Rate;
  }

  lemma IdleDoesNotMatter(pool: Group, job: Job, plans: seq<Plan>, agg: real, idle: seq<string>)
    requires job.model.Valid() && GoodPlacement(pool, job, ReplicaPlan(plans, agg, []))
    ensures GoodPlacement(pool, job, ReplicaPlan(plans, agg, idle))
  {
  }

  // ---------------------------------------------------------------- one answer

  ghost predicate KeysTell(plans: seq<Plan>) {
    forall p, q :: p in plans && q in plans && PlanKey(p) == PlanKey(q) ==> p == q
  }

  function StageIDs(plan: Plan): seq<string> {
    seq(|plan.stages|, i requires 0 <= i < |plan.stages| => plan.stages[i].nodeID)
  }

  lemma KeyGivesNodes(p: Plan, q: Plan)
    requires forall id :: id in p.NodeIDs() + q.NodeIDs() ==> Clean(id)
    requires PlanKey(p) == PlanKey(q)
    ensures p.NodeIDs() == q.NodeIDs()
  {
    NodesAreListed(p);
    NodesAreListed(q);
    JoinInjective(StageIDs(p), StageIDs(q));
  }

  lemma NodesAreListed(p: Plan)
    ensures forall id :: id in StageIDs(p) <==> id in p.NodeIDs()
  {
    forall id | id in p.NodeIDs() ensures id in StageIDs(p) {
      var i :| 0 <= i < |p.stages| && p.stages[i].nodeID == id;
      assert StageIDs(p)[i] == id;
    }
  }

  /** Disjoint replicas on nodes with clean ids differ in their keys. */
  lemma DisjointKeysTell(plans: seq<Plan>)
    requires PairwiseDisjoint(plans) && forall i :: 0 <= i < |plans| ==> plans[i].NodeIDs() != {}
    requires forall id :: id in UsedBy(plans) ==> Clean(id)
    ensures KeysTell(plans)
  {
    hide PlanKey;
    UsedIsByMember(plans);
    forall p, q | p in plans && q in plans && PlanKey(p) == PlanKey(q) ensures p == q {
      KeyGivesNodes(p, q);
      var i := PositionOf(plans, p);
      var j := PositionOf(plans, q);
      SameNodesSamePlan(plans, i, j);
    }
  }

  lemma SameNodesSamePlan(plans: seq<Plan>, i: nat, j: nat)
    requires PairwiseDisjoint(plans) && i < |plans| && j < |plans|
    requires plans[i].NodeIDs() == plans[j].NodeIDs() != {}
    ensures i == j
  {
  }

  lemma {:induction false} SortedIsOneOrder(a: seq<Plan>, b: seq<Plan>)
    requires multiset(a) == multiset(b) && SortedByKey(a) && SortedByKey(b) && KeysTell(a)
    ensures a == b
  {
    SameMembers(a, b);
    if a == [] {
      assert |b| == |multiset(b)|;
    } else {
      hide PlanKey;
      SameHead(a, b);
      HeadTakenOff(a);
      HeadTakenOff(b);
      SortedIsOneOrder(a[1..], b[1..]);
      assert a == [a[0]] + a[1..] && b == [b[0]] + b[1..];
    }
  }

  lemma SameHead(a: seq<Plan>, b: seq<Plan>)
    requires a != [] && multiset(a) == multiset(b) && SortedByKey(a) && SortedByKey(b) && KeysTell(a)
    ensures b != [] && a[0] == b[0]
  {
    hide PlanKey, Less;
    SameMembers(a, b);
    assert a[0] in b;
    var k := PositionOf(b, a[0]);
    var l := PositionOf(a, b[0]);
    assert k == 0 || AtMost(PlanKey(b[0]), PlanKey(a[0]));
    assert l == 0 || AtMost(PlanKey(a[0]), PlanKey(b[0]));
    if Less(PlanKey(a[0]), PlanKey(b[0])) {
      LessAsymmetric(PlanKey(a[0]), PlanKey(b[0]));
    }
  }

  /** A pool has one answer. */
  lemma ReplicasAnswerIsUnique(pool: Group, job: Job, x: ReplicaResult, y: ReplicaResult)
    requires job.model.Valid() && CleanPool(pool) && ReplicasAnswer(pool, job, x) && ReplicasAnswer(pool, job, y)
    ensures x == y
  {
    hide PlannerOf, BestDeal, GoodPlacement, SortedByKey, UsedBy, Unused;
    if x.Placed? && y.Placed? {
      var deal := BestDeal(IdsOf(pool), PlannerOf(pool, job), TOLERANCE);
      var a, b := x.plan.replicas, y.plan.replicas;
      DealIsGood(pool, job, deal);
      ReorderKeepsGood(pool, job, deal.plans, a, deal.agg);
      GoodKeysTell(pool, job, a, deal.agg);
      SortedIsOneOrder(a, b);
    }
  }

  lemma GoodKeysTell(pool: Group, job: Job, plans: seq<Plan>, agg: real)
    requires job.model.Valid() && CleanPool(pool) && GoodPlacement(pool, job, ReplicaPlan(plans, agg, []))
    requires UsedBy(plans) <= IdsOf(pool)
    ensures KeysTell(plans)
  {
    hide PlannerOf, PlanInPool, KeysTell, UsedBy;
    forall i | 0 <= i < |plans| ensures plans[i].NodeIDs() != {} {
      PlanHasNodes(pool, job, plans[i]);
    }
    DisjointKeysTell(plans);
  }

  /** The nodes may be given in any order: the same replicas, aggregate and idle list. */
  lemma ReplicasIgnoreOrder(a: Group, b: Group, job: Job, x: ReplicaResult, y: ReplicaResult)
    requires job.model.Valid() && DistinctIds(a) && DistinctIds(b) && multiset(a) == multiset(b)
    requires forall n :: n in a ==> Clean(n.id)
    requires ReplicasAnswer(PresentSorted(a), job, x) && ReplicasAnswer(PresentSorted(b), job, y)
    ensures x == y
  {
    PresentSortedIgnoresOrder(a, b);
    PresentSortedIsPool(a);
    assert CleanPool(PresentSorted(a));
    hide *;
    ReplicasAnswerIsUnique(PresentSorted(a), job, x, y);
  }

  // ---------------------------------------------------------------- against all in-budget maps

  /** A map of some nodes of the pool. */
  datatype Share = Share(ids: set<string>, counts: seq<int>)

  ghost predicate IsShare(pool: Group, job: Job, s: Share)
    requires job.model.Valid()
  {
    var group := Restrict(pool, s.ids);
    s.ids != {} && s.ids <= IdsOf(pool) && IsMap(group, job, s.counts) && !Dropped(group, job)
  }

  /** In-budget maps on disjoint groups, none of which is dropped. */
  ghost predicate MapFamily(pool: Group, job: Job, shares: seq<Share>)
    requires job.model.Valid()
  {
    && (forall i :: 0 <= i < |shares| ==> IsShare(pool, job, shares[i]))
    && (forall i, j :: 0 <= i < j < |shares| ==> shares[i].ids !! shares[j].ids)
  }

  function ShareRate(pool: Group, job: Job, s: Share): real
    requires job.model.Valid()
  {
    if |s.counts| == |Restrict(pool, s.ids)| then Rate(PlanWith(Restrict(pool, s.ids), job, s.counts)) else 0.0
  }

  function ShareRates(pool: Group, job: Job, shares: seq<Share>): real
    requires job.model.Valid()
  {
    if shares == [] then 0.0 else ShareRate(pool, job, shares[0]) + ShareRates(pool, job, shares[1..])
  }

  /** Solve on the nodes of such a map finds a plan that is no slower. */
  lemma ShareIsPlanned(pool: Group, job: Job, s: Share)
    requires job.model.Valid() && job.boundaryOverheadMS >= 0.0 && IsPool(pool) && IsShare(pool, job, s)
    ensures var plan, group := PlannerOf(pool, job)(s.ids), Restrict(pool, s.ids);
            plan.Some? && 0.0 < plan.value.tokenMS <= PlanWith(group, job, s.counts).tokenMS
  {
    hide SolvePool, PlanOf, PlanWith, WithinBudget, FastestSplit, SlowestSplit, PlanInPool;
    var group := Restrict(pool, s.ids);
    RestrictIsPool(pool, s.ids);
    RestrictAll(group, IdsOf(group));
    assert HasMap(group, job);
    HasMapIffSlowestPasses(group, job);
    PlannedIffFastestPasses(group, job);
    OwnPoolSucceeds(group, job);
    SolveBeatsEverySplit(group, job, IdsOf(group), s.counts);
    PlannerUsesGroup(pool, job, s.ids);
  }

  /** A pool that is itself a planned group is solved. */
  lemma OwnPoolSucceeds(group: Group, job: Job)
    requires job.model.Valid() && IsPool(group) && Measured(group) && PlanOf(group, job).Planned?
    ensures SolvePool(group, job, None).Ok?
  {
    hide SolvePool, PlanOf, TotalCap;
    RestrictAll(group, IdsOf(group));
    forall ids ensures !PlanOf(Restrict(group, ids), job).NoSpeed? {
      RestrictMembers(group, ids);
      OutcomeFacts(Restrict(group, ids), job);
    }
    OutcomeFacts(group, job);
    HoldableFits(group, job.model);
    RestNotEmpty(group, job, IdsOf(group));
    assert PlanOf(Restrict(group, IdsOf(group)), job).Planned?;
    SolveSucceedsIff(group, job, None);
  }

  lemma FasterIsMore(fast: Plan, slow: Plan)
    requires 0.0 < fast.tokenMS <= slow.tokenMS
    ensures Rate(slow) <= Rate(fast)
  {
    assert 1000.0 / slow.tokenMS <= 1000.0 / fast.tokenMS by {
      var q := 1000.0 / slow.tokenMS;
      assert q > 0.0 && q * slow.tokenMS == 1000.0;
      assert q * fast.tokenMS <= q * slow.tokenMS;
    }
  }

  function GroupsOf(shares: seq<Share>): (groups: seq<set<string>>)
    ensures |groups| == |shares|
  {
    seq(|shares|, i requires 0 <= i < |shares| => shares[i].ids)
  }

  lemma {:induction false} SharesAreCovered(pool: Group, job: Job, shares: seq<Share>)
    requires job.model.Valid() && job.boundaryOverheadMS >= 0.0 && IsPool(pool) && MapFamily(pool, job, shares)
    ensures ShareRates(pool, job, shares) <= Total(GroupsOf(shares), PlannerOf(pool, job))
  {
    hide PlannerOf, Rate, IsShare, PlanWith;
    if shares != [] {
      SharesAreCovered(pool, job, shares[1..]);
      ShareIsCovered(pool, job, shares[0]);
      assert GroupsOf(shares)[1..] == GroupsOf(shares[1..]);
    }
  }

  lemma ShareIsCovered(pool: Group, job: Job, s: Share)
    requires job.model.Valid() && job.boundaryOverheadMS >= 0.0 && IsPool(pool) && IsShare(pool, job, s)
    ensures ShareRate(pool, job, s) <= RateOf(s.ids, PlannerOf(pool, job)) && PlannerOf(pool, job)(s.ids).Some?
  {
    ShareIsPlanned(pool, job, s);
    hide PlannerOf, Rate, PlanWith;
    FasterIsMore(PlannerOf(pool, job)(s.ids).value, PlanWith(Restrict(pool, s.ids), job, s.counts));
  }

  /** A good placement is within the tolerance of every family of disjoint in-budget maps of groups not dropped. */
  lemma NearlyBestOverMaps(pool: Group, job: Job, r: ReplicaPlan, shares: seq<Share>)
    requires job.model.Valid() && job.boundaryOverheadMS >= 0.0 && IsPool(pool)
    requires GoodPlacement(pool, job, r) && MapFamily(pool, job, shares)
    ensures ShareRates(pool, job, shares) <= r.aggregateTokensS + (Pow2(|IdsOf(pool)|) - 1) as real / 1000000000.0
  {
    hide PlannerOf, Total, GoodPlacement, ShareRates, MapFamily, Family, Pow2, GroupsOf;
    SharesAreCovered(pool, job, shares);
    SharesAreFamily(pool, job, shares);
    GoodBeats(pool, job, r, GroupsOf(shares));
  }

  lemma GoodBeats(pool: Group, job: Job, r: ReplicaPlan, groups: seq<set<string>>)
    requires job.model.Valid() && GoodPlacement(pool, job, r) && Family(groups, IdsOf(pool), PlannerOf(pool, job))
    ensures Total(groups, PlannerOf(pool, job)) <= r.aggregateTokensS + (Pow2(|IdsOf(pool)|) - 1) as real / 1000000000.0
  {
    hide PlannerOf, Total, PairwiseDisjoint, PlanInPool, Rates, Family, Pow2;
  }

  lemma SharesAreFamily(pool: Group, job: Job, shares: seq<Share>)
    requires job.model.Valid() && job.boundaryOverheadMS >= 0.0 && IsPool(pool) && MapFamily(pool, job, shares)
    ensures Family(GroupsOf(shares), IdsOf(pool), PlannerOf(pool, job))
  {
    hide PlannerOf, IsMap, Dropped;
    forall i | 0 <= i < |shares|
      ensures shares[i].ids != {} && shares[i].ids <= IdsOf(pool) && PlannerOf(pool, job)(shares[i].ids).Some?
    {
      ShareIsCovered(pool, job, shares[i]);
    }
  }

  /** A pool that holds the model, with an in-budget map, refused because its only group is dropped. */
  lemma RefusedForTheNetwork()
    ensures ReplicasAnswer([QUICK, STEADY], SMALL_JOB, NoReplicaFits)
    ensures MapInPool([QUICK, STEADY], SMALL_JOB) && TotalCap([QUICK, STEADY]) >= SMALL_JOB.model.TotalGB()
  {
    hide SolvePool, BestDeal, PlanOf, TotalCap, MapInPool;
    var pool := [QUICK, STEADY];
    SolveMissesAMap(None);
    PairIsPool();
    forall ids ensures PlannerOf(pool, SMALL_JOB)(ids).None? {
      PairNeverPlans(ids);
    }
    PlacesWhenWorthwhile(IdsOf(pool), PlannerOf(pool, SMALL_JOB), TOLERANCE);
  }

  lemma PairNeverPlans(ids: set<string>)
    ensures PlannerOf([QUICK, STEADY], SMALL_JOB)(ids).None?
  {
    hide SolvePool, PlanOf;
    var pool := [QUICK, STEADY];
    var sub := Restrict(pool, ids);
    PairIsPool();
    RestrictIsPool(pool, ids);
    forall more ensures !PlanOf(Restrict(sub, more), SMALL_JOB).Planned? {
      RestrictAgain(pool, ids, more);
      PairHasNoPlan(ids * more);
    }
    SolveSucceedsIff(sub, SMALL_JOB, None);
  }
}

/**
Solve: the best plan over every group of present nodes, with a speed floor and N-1
fallbacks (internal/partitioner/solver.go:301-398).
*/
module Solver {
  import opened Options
  import opened Sets
  import opened Sums
  import opened Layers
  import opened Plans
  import opened Pools

  datatype SolveError = NoNodes | DoesNotFit | NoSpeedSource(id: string) | NoMapInBudget
  datatype Result<+T> = Ok(value: T) | Err(error: SolveError)

  /** The two facts about one group that the search relies on. */
  lemma OutcomeFacts(group: Group, job: Job)
    requires job.model.Valid()
    ensures PlanOf(group, job).NoSpeed? ==> exists n :: n in group && !n.HasSpeed()
    ensures PlanOf(group, job).Planned? ==> Holdable(CapsOf(group, job.model), job.model.nLayers)
  {
  }

  // ---------------------------------------------------------------- one pipeline depth

  datatype Best = Failed(id: string) | Found(plan: Option<Plan>)

  /** The callback of the enumeration, folded over the groups in order. */
  ghost function BestIn(groups: seq<Group>, job: Job): Best
    requires job.model.Valid()
  {
    if groups == [] then Found(None)
    else
      var soFar := BestIn(groups[..|groups| - 1], job);
      if soFar.Failed? then soFar
      else
        match PlanOf(groups[|groups| - 1], job)
        case NoSpeed(id) => Failed(id)
        case NoPlan => soFar
        case Planned(p) =>
          if soFar.plan.None? || p.tokenMS < soFar.plan.value.tokenMS then Found(Some(p)) else soFar
  }

  ghost predicate BestAmong(groups: seq<Group>, job: Job, best: Best)
    requires job.model.Valid()
  {
    match best
    case Failed(id) => exists i :: 0 <= i < |groups| && PlanOf(groups[i], job) == NoSpeed(id)
    case Found(None) => forall i :: 0 <= i < |groups| ==> PlanOf(groups[i], job).NoPlan?
    case Found(Some(p)) =>
      && (exists i :: 0 <= i < |groups| && PlanOf(groups[i], job) == Planned(p))
      && forall i :: 0 <= i < |groups| ==>
                       var r := PlanOf(groups[i], job);
                       !r.NoSpeed? && (r.Planned? ==> p.tokenMS <= r.plan.tokenMS)
  }

  lemma {:induction false} BestInIsBest(groups: seq<Group>, job: Job)
    requires job.model.Valid()
    ensures BestAmong(groups, job, BestIn(groups, job))
  {
    hide PlanOf, BestAmong;
    if groups == [] {
      assert BestAmong([], job, Found(None)) by { NothingBest(job); }
    } else {
      var n := |groups| - 1;
      BestInIsBest(groups[..n], job);
      OneMoreGroup(groups, job, BestIn(groups[..n], job), BestIn(groups, job));
    }
  }

  lemma NothingBest(job: Job)
    requires job.model.Valid()
    ensures BestAmong([], job, Found(None))
  {
  }

  /** What the callback does with one more group. */
  ghost predicate Improves(outcome: PlanOutcome, before: Best, after: Best) {
    match outcome
    case NoSpeed(id) => after == if before.Failed? then before else Failed(id)
    case NoPlan => after == before
    case Planned(p) =>
      after == if before.Failed? || (before.plan.Some? && before.plan.value.tokenMS <= p.tokenMS) then before
               else Found(Some(p))
  }

  lemma OneMoreGroup(groups: seq<Group>, job: Job, before: Best, after: Best)
    requires job.model.Valid() && groups != [] && BestAmong(groups[..|groups| - 1], job, before)
    requires Improves(PlanOf(groups[|groups| - 1], job), before, after)
    ensures BestAmong(groups, job, after)
  {
    hide PlanOf;
    var n := |groups| - 1;
    var front, outcome := groups[..n], PlanOf(groups[n], job);
    forall i | 0 <= i < n ensures PlanOf(groups[i], job) == PlanOf(front[i], job) {
    }
    if before.Failed? {
      var i :| 0 <= i < n && PlanOf(front[i], job) == NoSpeed(before.id);
      assert PlanOf(groups[i], job) == NoSpeed(before.id);
    } else if outcome.NoSpeed? {
      assert PlanOf(groups[n], job) == NoSpeed(outcome.id);
    } else {
      BestStays(groups, job, before, after);
    }
  }

  lemma BestStays(groups: seq<Group>, job: Job, before: Best, after: Best)
    requires job.model.Valid() && groups != [] && BestAmong(groups[..|groups| - 1], job, before) && before.Found?
    requires Improves(PlanOf(groups[|groups| - 1], job), before, after) && !PlanOf(groups[|groups| - 1], job).NoSpeed?
    ensures BestAmong(groups, job, after)
  {
    hide PlanOf;
    var n := |groups| - 1;
    var front, outcome := groups[..n], PlanOf(groups[n], job);
    forall i | 0 <= i < n
      ensures PlanOf(groups[i], job) == PlanOf(front[i], job) && !PlanOf(groups[i], job).NoSpeed?
    {
      assert PlanOf(front[i], job) == PlanOf(groups[i], job);
    }
    if after.plan.Some? {
      if after == before {
        var i :| 0 <= i < n && PlanOf(front[i], job) == Planned(before.plan.value);
        assert PlanOf(groups[i], job) == Planned(after.plan.value);
      } else {
        assert PlanOf(groups[n], job) == Planned(after.plan.value);
      }
    }
  }

  /** The best plan of the groups of exactly k nodes, in terms of node ids. */
  ghost predicate BestOfSize(pool: Group, job: Job, k: nat, best: Option<Plan>)
    requires job.model.Valid()
  {
    && (best.Some? ==>
          exists ids :: |Restrict(pool, ids)| == k && PlanOf(Restrict(pool, ids), job) == Planned(best.value))
    && forall ids :: |Restrict(pool, ids)| == k ==>
                       var r := PlanOf(Restrict(pool, ids), job);
                       !r.NoSpeed? && (r.Planned? ==> best.Some? && best.value.tokenMS <= r.plan.tokenMS)
  }

  lemma CombosAreGroups(pool: Group, k: nat)
    requires IsPool(pool)
    ensures forall i :: 0 <= i < |Combos(pool, k)| ==>
                          var g := Combos(pool, k)[i]; |g| == k && g == Restrict(pool, IdsOf(g))
    ensures forall ids :: |Restrict(pool, ids)| == k ==> Restrict(pool, ids) in Combos(pool, k)
  {
    forall i | 0 <= i < |Combos(pool, k)|
      ensures var g := Combos(pool, k)[i]; |g| == k && g == Restrict(pool, IdsOf(g))
    {
      CombosSound(pool, k, Combos(pool, k)[i]);
    }
    forall ids | |Restrict(pool, ids)| == k
      ensures Restrict(pool, ids) in Combos(pool, k)
    {
      CombosComplete(pool, ids);
    }
  }

  lemma CombosCoverIds(pool: Group, job: Job, k: nat)
    requires job.model.Valid() && IsPool(pool)
    ensures var b := BestIn(Combos(pool, k), job);
            if b.Failed? then exists ids :: PlanOf(Restrict(pool, ids), job) == NoSpeed(b.id)
            else BestOfSize(pool, job, k, b.plan)
  {
    hide PlanOf, BestIn, Combos;
    var groups := Combos(pool, k);
    var b := BestIn(groups, job);
    BestInIsBest(groups, job);
    CombosAreGroups(pool, k);
    if b.Failed? {
      var i :| 0 <= i < |groups| && PlanOf(groups[i], job) == NoSpeed(b.id);
      assert groups[i] == Restrict(pool, IdsOf(groups[i]));
    } else {
      if b.plan.Some? {
        var i :| 0 <= i < |groups| && PlanOf(groups[i], job) == Planned(b.plan.value);
        assert groups[i] == Restrict(pool, IdsOf(groups[i]));
      }
      forall ids | |Restrict(pool, ids)| == k
        ensures var r := PlanOf(Restrict(pool, ids), job);
                !r.NoSpeed? && (r.Planned? ==> b.plan.Some? && b.plan.value.tokenMS <= r.plan.tokenMS)
      {
        var i :| 0 <= i < |groups| && groups[i] == Restrict(pool, ids);
      }
    }
  }

  // ---------------------------------------------------------------- all depths

  /** bestPerK: the best plan of each depth up to n, or the error that stopped the search. */
  datatype Table = Broken(id: string) | Table(best: map<int, Plan>)

  ghost function TableUpTo(pool: Group, n: nat, job: Job): Table
    requires job.model.Valid()
  {
    if n == 0 then Table(map[])
    else
      var t := TableUpTo(pool, n - 1, job);
      if t.Broken? then t
      else
        match BestIn(Combos(pool, n), job)
        case Failed(id) => Broken(id)
        case Found(None) => t
        case Found(Some(p)) => Table(t.best[n := p])
  }

  function Lookup(best: map<int, Plan>, k: int): Option<Plan> {
    if k in best then Some(best[k]) else None
  }

  ghost predicate TableOk(pool: Group, n: nat, job: Job, best: map<int, Plan>)
    requires job.model.Valid()
  {
    && (forall k :: k in best ==> 1 <= k <= n && |best[k].stages| == k)
    && (forall k :: 1 <= k <= n ==> BestOfSize(pool, job, k, Lookup(best, k)))
  }

  lemma TableGrows(pool: Group, job: Job, n: nat, before: map<int, Plan>, after: map<int, Plan>, found: Option<Plan>)
    requires job.model.Valid() && n >= 1 && TableOk(pool, n - 1, job, before)
    requires BestOfSize(pool, job, n, found) && (found.Some? ==> |found.value.stages| == n)
    requires after == if found.Some? then before[n := found.value] else before
    ensures TableOk(pool, n, job, after)
  {
    hide BestOfSize;
    assert Lookup(after, n) == found;
    forall k | 1 <= k < n ensures BestOfSize(pool, job, k, Lookup(after, k)) {
      assert Lookup(after, k) == Lookup(before, k);
    }
  }

  lemma BestHasItsDepth(pool: Group, job: Job, n: nat, best: Option<Plan>)
    requires job.model.Valid() && BestOfSize(pool, job, n, best)
    ensures best.Some? ==> |best.value.stages| == n
  {
    hide PlanOf;
    if best.Some? {
      var ids :| |Restrict(pool, ids)| == n && PlanOf(Restrict(pool, ids), job) == Planned(best.value);
      PlanIsSound(Restrict(pool, ids), job);
    }
  }

  lemma {:induction false} TableIsBest(pool: Group, n: nat, job: Job)
    requires job.model.Valid() && IsPool(pool)
    ensures var t := TableUpTo(pool, n, job);
            if t.Broken? then exists ids :: PlanOf(Restrict(pool, ids), job) == NoSpeed(t.id)
            else TableOk(pool, n, job, t.best)
  {
    hide PlanOf, BestOfSize, BestIn;
    if n == 0 {
      assert TableOk(pool, 0, job, map[]);
    } else {
      TableIsBest(pool, n - 1, job);
      CombosCoverIds(pool, job, n);
      var t := TableUpTo(pool, n - 1, job);
      var b := BestIn(Combos(pool, n), job);
      if t.Table? && b.Found? {
        var after := TableUpTo(pool, n, job).best;
        BestHasItsDepth(pool, job, n, b.plan);
        TableGrows(pool, job, n, t.best, after, b.plan);
      }
    }
  }

  // ---------------------------------------------------------------- the choice

  /** Fastest, ties towards fewer hosts. */
  ghost predicate IsFastest(best: map<int, Plan>, k: int) {
    k in best && forall j :: j in best ==> NoWorse(best, k, j)
  }

  /** Fewest hosts whose best plan reaches the floor. */
  ghost predicate IsFirstWithin(best: map<int, Plan>, floor: real, k: int) {
    && k in best && AtFloor(best[k], floor)
    && forall j :: j in best && AtFloor(best[j], floor) ==> k <= j
  }

  /** At least `floor` tokens per second; a floor of zero or less accepts every plan. */
  predicate AtFloor(plan: Plan, floor: real) {
    floor <= 0.0 || plan.tokenMS * floor <= 1000.0
  }

  /** a comes no later than b in the order the choice uses. */
  predicate NoWorse(best: map<int, Plan>, a: int, b: int)
    requires a in best && b in best
  {
    best[a].tokenMS < best[b].tokenMS || (best[a].tokenMS == best[b].tokenMS && a <= b)
  }

  lemma {:induction false} FastestExists(best: map<int, Plan>, among: set<int>) returns (k: int)
    requires among != {} && among <= best.Keys
    ensures k in among && forall j :: j in among ==> NoWorse(best, k, j)
    decreases among
  {
    var x := Pick(among);
    var rest := among - {x};
    k := x;
    if rest != {} {
      var j := FastestExists(best, rest);
      k := if NoWorse(best, j, x) then j else x;
    }
    assert forall i :: i in among ==> i == x || i in rest;
  }

  lemma {:induction false} LeastExists(among: set<int>) returns (k: int)
    requires among != {}
    ensures k in among && forall j :: j in among ==> k <= j
    decreases among
  {
    var x := Pick(among);
    var rest := among - {x};
    k := x;
    if rest != {} {
      var j := LeastExists(rest);
      k := if j < x then j else x;
    }
    assert forall i :: i in among ==> i == x || i in rest;
  }

  lemma ChoiceExists(best: map<int, Plan>, floor: real)
    requires best != map[]
    ensures exists k :: IsFastest(best, k)
    ensures (exists k :: k in best && AtFloor(best[k], floor)) ==> exists k :: IsFirstWithin(best, floor, k)
  {
    hide AtFloor;
    var k := FastestExists(best, best.Keys);
    assert IsFastest(best, k);
    var reaching := set j | j in best && AtFloor(best[j], floor);
    if j :| j in best && AtFloor(best[j], floor) {
      assert j in reaching;
      var f := LeastExists(reaching);
      assert forall j :: j in best && AtFloor(best[j], floor) ==> j in reaching;
      assert IsFirstWithin(best, floor, f);
    }
  }

  ghost function FastestOf(best: map<int, Plan>): (k: int)
    requires best != map[]
    ensures IsFastest(best, k)
  {
    ChoiceExists(best, 0.0);
    var k :| IsFastest(best, k);
    k
  }

  /** The depth chosen: no floor takes the fastest; a floor the shallowest that reaches it, else the fastest. */
  ghost function ChosenDepth(best: map<int, Plan>, floor: Option<real>): (k: int)
    requires best != map[]
    ensures k in best
  {
    if floor.Some? && exists k :: k in best && AtFloor(best[k], floor.value) then
      ChoiceExists(best, floor.value);
      var k :| IsFirstWithin(best, floor.value, k);
      k
    else FastestOf(best)
  }

  ghost function SolvePool(pool: Group, job: Job, floor: Option<real>): Result<Plan>
    requires job.model.Valid()
  {
    if pool == [] then Err(NoNodes)
    else if TotalCap(pool) < job.model.TotalGB() then Err(DoesNotFit)
    else
      var t := TableUpTo(pool, |pool|, job);
      if t.Broken? then Err(NoSpeedSource(t.id))
      else if t.best == map[] then Err(NoMapInBudget)
      else Ok(t.best[ChosenDepth(t.best, floor)])
  }

  // ---------------------------------------------------------------- what the choice guarantees

  /** `plan` is the plan of some group of the pool. */
  ghost predicate PlanInPool(pool: Group, job: Job, plan: Plan)
    requires job.model.Valid()
  {
    exists ids :: PlanOf(Restrict(pool, ids), job) == Planned(plan)
  }

  /** No group with a plan is faster, and none as fast uses fewer hosts. */
  ghost predicate FastestInPool(pool: Group, job: Job, plan: Plan)
    requires job.model.Valid()
  {
    forall ids :: PlanOf(Restrict(pool, ids), job).Planned? ==>
                    var q := PlanOf(Restrict(pool, ids), job).plan;
                    plan.tokenMS < q.tokenMS || (plan.tokenMS == q.tokenMS && |plan.stages| <= |q.stages|)
  }

  /** Some group of the pool has a plan of at least `floor` tokens per second. */
  ghost predicate Reachable(pool: Group, job: Job, floor: real)
    requires job.model.Valid()
  {
    exists ids :: && PlanOf(Restrict(pool, ids), job).Planned?
                  && (floor <= 0.0 || PlanOf(Restrict(pool, ids), job).plan.tokenMS * floor <= 1000.0)
  }

  /** Fewest hosts that reach the floor, and the fastest plan with that many hosts. */
  ghost predicate FewestHostsInPool(pool: Group, job: Job, floor: real, plan: Plan)
    requires job.model.Valid()
  {
    && (floor <= 0.0 || plan.tokenMS * floor <= 1000.0)
    && forall ids :: PlanOf(Restrict(pool, ids), job).Planned? ==>
                       var q := PlanOf(Restrict(pool, ids), job).plan;
                       && (floor <= 0.0 || q.tokenMS * floor <= 1000.0 ==> |plan.stages| <= |q.stages|)
                       && (|q.stages| == |plan.stages| ==> plan.tokenMS <= q.tokenMS)
  }

  /** What Solve owes the caller: a plan of the pool, the fastest or, with a floor in reach, the one of fewest hosts. */
  ghost predicate BestFor(pool: Group, job: Job, floor: Option<real>, plan: Plan)
    requires job.model.Valid()
  {
    && PlanInPool(pool, job, plan)
    && (floor.None? ==> FastestInPool(pool, job, plan))
    && (floor.Some? && Reachable(pool, job, floor.value) ==> FewestHostsInPool(pool, job, floor.value, plan))
    && (floor.Some? && !Reachable(pool, job, floor.value) ==> FastestInPool(pool, job, plan))
  }

  /** Every planned group is represented in the table, at its own depth and no slower. */
  lemma TableCovers(pool: Group, job: Job, best: map<int, Plan>, ids: set<string>)
    requires job.model.Valid() && IsPool(pool) && TableOk(pool, |pool|, job, best)
    requires PlanOf(Restrict(pool, ids), job).Planned?
    ensures var q := PlanOf(Restrict(pool, ids), job).plan;
            |q.stages| in best && best[|q.stages|].tokenMS <= q.tokenMS
  {
    hide PlanOf;
    var group := Restrict(pool, ids);
    RestrictMembers(pool, ids);
    PlanIsSound(group, job);
    assert BestOfSize(pool, job, |group|, Lookup(best, |group|));
  }

  lemma TableComesFromPool(pool: Group, job: Job, best: map<int, Plan>, k: int)
    requires job.model.Valid() && TableOk(pool, |pool|, job, best) && k in best
    ensures PlanInPool(pool, job, best[k])
  {
    hide PlanOf;
    assert BestOfSize(pool, job, k, Lookup(best, k));
  }

  /**
  What Solve returns, over every group of present nodes whose own fastest split meets the
  network budget: with no floor the fastest plan; with a reachable floor the fewest hosts
  that reach it; with an unreachable one the fastest plan.
  */
  lemma SolveIsBest(pool: Group, job: Job, floor: Option<real>)
    requires job.model.Valid() && IsPool(pool) && SolvePool(pool, job, floor).Ok?
    ensures BestFor(pool, job, floor, SolvePool(pool, job, floor).value)
  {
    hide PlanOf;
    TableIsBest(pool, |pool|, job);
    var best := TableUpTo(pool, |pool|, job).best;
    var k := ChosenDepth(best, floor);
    var plan := best[k];
    TableComesFromPool(pool, job, best, k);
    forall ids | PlanOf(Restrict(pool, ids), job).Planned?
      ensures var q := PlanOf(Restrict(pool, ids), job).plan;
              |q.stages| in best && best[|q.stages|].tokenMS <= q.tokenMS
    {
      TableCovers(pool, job, best, ids);
    }
    forall j | j in best ensures PlanInPool(pool, job, best[j]) {
      TableComesFromPool(pool, job, best, j);
    }
    if floor.Some? {
      FloorIsServed(pool, job, best, floor.value, k);
    }
  }

  lemma FasterReaches(fast: Plan, slow: Plan, floor: real)
    requires fast.tokenMS <= slow.tokenMS && AtFloor(slow, floor)
    ensures AtFloor(fast, floor)
  {
    if floor > 0.0 {
      assert (slow.tokenMS - fast.tokenMS) * floor >= 0.0;
    }
  }

  lemma FloorIsServed(pool: Group, job: Job, best: map<int, Plan>, floor: real, k: int)
    requires job.model.Valid() && k in best && k == ChosenDepth(best, Some(floor))
    requires forall j :: j in best ==> |best[j].stages| == j && PlanInPool(pool, job, best[j])
    requires forall ids :: PlanOf(Restrict(pool, ids), job).Planned? ==>
                             var q := PlanOf(Restrict(pool, ids), job).plan;
                             |q.stages| in best && best[|q.stages|].tokenMS <= q.tokenMS
    ensures Reachable(pool, job, floor) ==> FewestHostsInPool(pool, job, floor, best[k])
    ensures !Reachable(pool, job, floor) ==> FastestInPool(pool, job, best[k])
  {
    hide PlanOf;
    forall ids | PlanOf(Restrict(pool, ids), job).Planned? && AtFloor(PlanOf(Restrict(pool, ids), job).plan, floor)
      ensures AtFloor(best[|PlanOf(Restrict(pool, ids), job).plan.stages|], floor)
    {
      var q := PlanOf(Restrict(pool, ids), job).plan;
      FasterReaches(best[|q.stages|], q, floor);
    }
    if j :| j in best && AtFloor(best[j], floor) {
      var ids :| PlanOf(Restrict(pool, ids), job) == Planned(best[j]);
      assert AtFloor(PlanOf(Restrict(pool, ids), job).plan, floor);
      assert Reachable(pool, job, floor);
      assert IsFirstWithin(best, floor, k);
    } else {
      hide AtFloor;
      assert IsFastest(best, k);
    }
  }

  /** With no floor: no slower than ANY cap-respecting split of any such group. */
  lemma SolveBeatsEverySplit(pool: Group, job: Job, ids: set<string>, counts: seq<int>)
    requires job.model.Valid() && IsPool(pool) && SolvePool(pool, job, None).Ok?
    requires PlanOf(Restrict(pool, ids), job).Planned?
    requires Feasible(CapsOf(Restrict(pool, ids), job.model), job.model.nLayers, counts)
    ensures SolvePool(pool, job, None).value.tokenMS <= PlanWith(Restrict(pool, ids), job, counts).tokenMS
  {
    hide PlanOf;
    SolveIsBest(pool, job, None);
    PlanIsFastest(Restrict(pool, ids), job, counts);
  }

  lemma {:induction false} RestrictCapsLess(pool: Group, ids: set<string>)
    requires forall n :: n in pool ==> n.capGB >= 0.0
    ensures TotalCap(Restrict(pool, ids)) <= TotalCap(pool)
  {
    if pool == [] {
    } else {
      assert forall n :: n in pool[1..] ==> n in pool;
      RestrictCapsLess(pool[1..], ids);
      assert pool[0] in pool && pool == [pool[0]] + pool[1..];
      TotalCapCons(pool[0], pool[1..]);
      TotalCapCons(pool[0], Restrict(pool[1..], ids));
      var rest := Restrict(pool[1..], ids);
      assert Restrict(pool, ids) == if pool[0].id in ids then [pool[0]] + rest else rest;
    }
  }

  lemma {:induction false} TotalCapCons(n: NodeProfile, rest: Group)
    ensures TotalCap([n] + rest) == n.capGB + TotalCap(rest)
  {
    if rest == [] {
      assert [n] + rest == [n];
      assert TotalCap([n]) == TotalCap([]) + n.capGB;
    } else {
      TotalCapCons(n, rest[..|rest| - 1]);
      assert ([n] + rest)[..|rest|] == [n] + rest[..|rest| - 1];
    }
  }

  /** The capacity pre-check never turns down a pool with a plan, as long as no cap is negative. */
  lemma PlannedPoolFits(pool: Group, job: Job, ids: set<string>)
    requires job.model.Valid() && PlanOf(Restrict(pool, ids), job).Planned?
    requires forall n :: n in pool ==> n.capGB >= 0.0
    ensures pool != [] && TotalCap(pool) >= job.model.TotalGB()
  {
    hide PlanOf;
    OutcomeFacts(Restrict(pool, ids), job);
    HoldableFits(Restrict(pool, ids), job.model);
    RestrictCapsLess(pool, ids);
    PlanIsSound(Restrict(pool, ids), job);
    RestrictMembers(pool, ids);
  }

  /** No group that could hold the model contains a node without a speed source. */
  ghost predicate AllMeasured(pool: Group, job: Job)
    requires job.model.Valid()
  {
    forall ids :: !PlanOf(Restrict(pool, ids), job).NoSpeed?
  }

  ghost predicate SomePlanned(pool: Group, job: Job)
    requires job.model.Valid()
  {
    exists ids :: PlanOf(Restrict(pool, ids), job).Planned?
  }

  /** The table of a pool: broken by a node without speed, empty without a planned group. */
  lemma TableFacts(pool: Group, job: Job)
    requires job.model.Valid() && IsPool(pool)
    ensures var t := TableUpTo(pool, |pool|, job);
            && (t.Table? <==> AllMeasured(pool, job))
            && (t.Table? ==> (t.best != map[] <==> SomePlanned(pool, job)))
  {
    hide PlanOf, TableOk, TableUpTo, BestOfSize, IsPool;
    TableIsBest(pool, |pool|, job);
    var t := TableUpTo(pool, |pool|, job);
    if t.Table? {
      forall ids ensures !PlanOf(Restrict(pool, ids), job).NoSpeed? {
        NoSpeedBreaks(pool, job, t.best, ids);
      }
      if ids :| PlanOf(Restrict(pool, ids), job).Planned? {
        TableCovers(pool, job, t.best, ids);
      }
      if t.best != map[] {
        var k := Pick(t.best.Keys);
        TableComesFromPool(pool, job, t.best, k);
      }
    }
  }

  /** With a whole table no group stopped the search, the empty one included. */
  lemma NoSpeedBreaks(pool: Group, job: Job, best: map<int, Plan>, ids: set<string>)
    requires job.model.Valid() && IsPool(pool) && TableOk(pool, |pool|, job, best)
    ensures !PlanOf(Restrict(pool, ids), job).NoSpeed?
  {
    var group := Restrict(pool, ids);
    RestrictMembers(pool, ids);
    if group == [] {
      assert Sum([]) == 0;
      assert CapsOf(group, job.model) == [];
    } else {
      hide PlanOf;
      assert BestOfSize(pool, job, |group|, Lookup(best, |group|));
    }
  }

  /** Which of its outcomes Solve has, in terms of the groups of the pool. */
  lemma SolveSucceedsIff(pool: Group, job: Job, floor: Option<real>)
    requires job.model.Valid() && IsPool(pool)
    ensures var r, fits := SolvePool(pool, job, floor), pool != [] && TotalCap(pool) >= job.model.TotalGB();
            && (r.Ok? <==> fits && AllMeasured(pool, job) && SomePlanned(pool, job))
            && (r == Err(NoMapInBudget) <==> fits && AllMeasured(pool, job) && !SomePlanned(pool, job))
            && (r.Err? && r.error.NoSpeedSource? <==> fits && !AllMeasured(pool, job))
  {
    hide TotalCap, AllMeasured, SomePlanned, TableUpTo;
    TableFacts(pool, job);
  }

  /** With usable profiles only the groups' own plans matter. */
  lemma MeasuredPoolSucceedsIff(pool: Group, job: Job, floor: Option<real>)
    requires job.model.Valid() && IsPool(pool)
    requires forall n :: n in pool ==> n.capGB >= 0.0 && n.HasSpeed()
    ensures SolvePool(pool, job, floor).Ok? <==> SomePlanned(pool, job)
  {
    hide PlanOf, SolvePool, TotalCap;
    forall ids ensures !PlanOf(Restrict(pool, ids), job).NoSpeed? {
      RestrictMembers(pool, ids);
      OutcomeFacts(Restrict(pool, ids), job);
    }
    SolveSucceedsIff(pool, job, floor);
    if ids :| PlanOf(Restrict(pool, ids), job).Planned? {
      PlannedPoolFits(pool, job, ids);
    }
  }

  /** Fewer nodes never help when speed is the only objective. */
  lemma SmallerPoolIsNoFaster(pool: Group, job: Job, keep: set<string>)
    requires job.model.Valid() && IsPool(pool)
    requires SolvePool(pool, job, None).Ok? && SolvePool(Restrict(pool, keep), job, None).Ok?
    ensures SolvePool(pool, job, None).value.tokenMS <= SolvePool(Restrict(pool, keep), job, None).value.tokenMS
  {
    hide PlanOf;
    RestrictIsPool(pool, keep);
    SolveIsBest(pool, job, None);
    SolveIsBest(Restrict(pool, keep), job, None);
    var plan := SolvePool(Restrict(pool, keep), job, None).value;
    var ids :| PlanOf(Restrict(Restrict(pool, keep), ids), job) == Planned(plan);
    RestrictAgain(pool, keep, ids);
    assert PlanOf(Restrict(pool, keep * ids), job).Planned?;
  }

  // ---------------------------------------------------------------- fallbacks

  datatype PartitionResult = PartitionResult(plan: Plan, fallbacks: map<string, Option<Plan>>)

  function ToOption(r: Result<Plan>): Option<Plan> {
    if r.Ok? then Some(r.value) else None
  }

  ghost function FallbacksOf(pool: Group, job: Job, floor: Option<real>, plan: Plan): map<string, Option<Plan>>
    requires job.model.Valid()
  {
    map id | id in plan.NodeIDs() :: ToOption(SolvePool(Without(pool, {id}), job, floor))
  }

  ghost function SolveOf(nodes: Group, job: Job, floor: Option<real>, withFallbacks: bool): Result<PartitionResult>
    requires job.model.Valid()
  {
    var pool := PresentSorted(nodes);
    var r := SolvePool(pool, job, floor);
    if r.Err? then Err(r.error)
    else Ok(PartitionResult(r.value, if withFallbacks then FallbacksOf(pool, job, floor, r.value) else map[]))
  }

  /** Listing the same nodes in another order gives the same plan and the same fallbacks. */
  lemma SolveIgnoresOrder(a: Group, b: Group, job: Job, floor: Option<real>, withFallbacks: bool)
    requires job.model.Valid() && DistinctIds(a) && DistinctIds(b) && multiset(a) == multiset(b)
    ensures SolveOf(a, job, floor, withFallbacks) == SolveOf(b, job, floor, withFallbacks)
  {
    PresentSortedIgnoresOrder(a, b);
  }

  /**
  Each N-1 fallback avoids the lost node, is the best plan of what is left, is missing
  exactly when no group avoiding that node has a plan (or, with negative caps, when the rest
  fails the memory pre-check), and without a floor is never faster than the main plan.
  */
  lemma FallbackIsBest(pool: Group, job: Job, floor: Option<real>, id: string)
    requires job.model.Valid() && IsPool(pool) && SolvePool(pool, job, floor).Ok?
    requires id in SolvePool(pool, job, floor).value.NodeIDs()
    ensures var plan := SolvePool(pool, job, floor).value;
            var f := FallbacksOf(pool, job, floor, plan)[id];
            var avoidable := exists ids :: id !in ids && PlanOf(Restrict(pool, ids), job).Planned?;
            && (f.Some? <==> avoidable && TotalCap(Without(pool, {id})) >= job.model.TotalGB())
            && ((forall n :: n in pool ==> n.capGB >= 0.0) ==> (f.Some? <==> avoidable))
            && (f.Some? ==> id !in f.value.NodeIDs() && PlanInPool(pool, job, f.value))
            && (f.Some? ==> BestFor(Without(pool, {id}), job, floor, f.value))
            && (f.Some? && floor.None? ==> plan.tokenMS <= f.value.tokenMS)
  {
    hide PlanOf, SolvePool, TotalCap, PlanInPool, BestFor;
    var rest := Without(pool, {id});
    GroupsWithout(pool, {id}, {});
    SolveSucceedsIff(pool, job, floor);
    SolveSucceedsIff(rest, job, floor);
    forall ids ensures !PlanOf(Restrict(rest, ids), job).NoSpeed? {
      GroupsWithout(pool, {id}, ids);
    }
    AvoidableIffPlanned(pool, job, id);
    if ids :| PlanOf(Restrict(rest, ids), job).Planned? {
      OutcomeFacts(Restrict(rest, ids), job);
      RestNotEmpty(rest, job, ids);
      if forall n :: n in pool ==> n.capGB >= 0.0 {
        RestrictMembers(pool, IdsOf(pool) - {id});
        PlannedPoolFits(rest, job, ids);
      }
    }
    if SolvePool(rest, job, floor).Ok? {
      FallbackPlan(pool, job, floor, id);
      SolveIsBest(rest, job, floor);
    }
  }

  lemma AvoidableIffPlanned(pool: Group, job: Job, id: string)
    requires job.model.Valid() && IsPool(pool)
    ensures SomePlanned(Without(pool, {id}), job) <==>
            exists ids :: id !in ids && PlanOf(Restrict(pool, ids), job).Planned?
  {
    hide PlanOf;
    var rest := Without(pool, {id});
    if ids :| PlanOf(Restrict(rest, ids), job).Planned? {
      GroupsWithout(pool, {id}, ids);
      assert id !in ids - {id} && PlanOf(Restrict(pool, ids - {id}), job).Planned?;
    }
    if ids :| id !in ids && PlanOf(Restrict(pool, ids), job).Planned? {
      GroupsWithout(pool, {id}, ids);
      assert ids - {id} == ids;
      assert PlanOf(Restrict(rest, ids), job).Planned?;
    }
  }

  lemma RestNotEmpty(pool: Group, job: Job, ids: set<string>)
    requires job.model.Valid() && PlanOf(Restrict(pool, ids), job).Planned?
    ensures pool != []
  {
    hide PlanOf;
    PlanIsSound(Restrict(pool, ids), job);
    RestrictMembers(pool, ids);
  }

  lemma FallbackPlan(pool: Group, job: Job, floor: Option<real>, id: string)
    requires job.model.Valid() && IsPool(pool)
    requires SolvePool(pool, job, floor).Ok? && SolvePool(Without(pool, {id}), job, floor).Ok?
    ensures var f := SolvePool(Without(pool, {id}), job, floor).value;
            && id !in f.NodeIDs() && PlanInPool(pool, job, f)
            && (floor.None? ==> SolvePool(pool, job, floor).value.tokenMS <= f.tokenMS)
  {
    hide PlanOf, SolvePool;
    var rest := Without(pool, {id});
    GroupsWithout(pool, {id}, {});
    SolveIsBest(rest, job, floor);
    var f := SolvePool(rest, job, floor).value;
    var ids :| PlanOf(Restrict(rest, ids), job) == Planned(f);
    GroupsWithout(pool, {id}, ids);
    assert PlanOf(Restrict(pool, ids - {id}), job) == Planned(f);
    PlanIsSound(Restrict(rest, ids), job);
    RestrictMembers(rest, ids);
    forall s | s in f.stages ensures s.nodeID != id {
      var i :| 0 <= i < |f.stages| && f.stages[i] == s;
      assert Restrict(rest, ids)[i] in rest;
    }
    if floor.None? {
      SmallerPoolIsNoFaster(pool, job, IdsOf(pool) - {id});
    }
  }

  // ---------------------------------------------------------------- the loops

  /** The enumeration of one depth with its callback, stopping at the first error. */
  method SearchDepth(pool: Group, k: nat, job: Job) returns (best: Best)
    requires job.model.Valid()
    ensures best == BestIn(Combos(pool, k), job)
  {
    hide PlanOf, Combos;
    var groups := CombinationsFrom(pool, k, 0, []);
    assert pool[0..] == pool;
    assert groups == Combos(pool, k) by {
      forall i | 0 <= i < |groups| ensures groups[i] == Combos(pool, k)[i] {
        assert [] + Combos(pool, k)[i] == Combos(pool, k)[i];
      }
    }
    best := Found(None);
    for i := 0 to |groups|
      invariant best.Found? && best == BestIn(groups[..i], job)
    {
      assert groups[..i + 1][..i] == groups[..i];
      var r := PlanForSubset(groups[i], job);
      if r.NoSpeed? {
        BestInStopsAtError(groups, job, i + 1);
        return Failed(r.id);
      }
      if r.Planned? && (best.plan.None? || r.plan.tokenMS < best.plan.value.tokenMS) {
        best := Found(Some(r.plan));
      }
    }
    assert groups[..|groups|] == groups;
  }

  lemma {:induction false} BestInStopsAtError(groups: seq<Group>, job: Job, i: nat)
    requires job.model.Valid() && i <= |groups| && BestIn(groups[..i], job).Failed?
    ensures BestIn(groups, job) == BestIn(groups[..i], job)
    decreases |groups|
  {
    hide PlanOf;
    if i == |groups| {
      assert groups[..i] == groups;
    } else {
      var front := groups[..|groups| - 1];
      assert front[..i] == groups[..i];
      BestInStopsAtError(front, job, i);
    }
  }

  /** bestPerK over all depths. */
  method BuildTable(pool: Group, job: Job) returns (t: Table)
    requires job.model.Valid()
    ensures t == TableUpTo(pool, |pool|, job)
  {
    hide BestIn, Combos;
    t := Table(map[]);
    for k := 1 to |pool| + 1
      invariant t.Table? && t == TableUpTo(pool, k - 1, job)
    {
      var b := SearchDepth(pool, k, job);
      if b.Failed? {
        TableStopsAtError(pool, k, |pool|, job);
        return Broken(b.id);
      }
      if b.plan.Some? {
        t := Table(t.best[k := b.plan.value]);
      }
    }
  }

  lemma {:induction false} TableStopsAtError(pool: Group, k: nat, n: nat, job: Job)
    requires job.model.Valid() && k <= n && TableUpTo(pool, k, job).Broken?
    ensures TableUpTo(pool, n, job) == TableUpTo(pool, k, job)
    decreases n
  {
    hide BestIn, Combos;
    if k < n {
      TableStopsAtError(pool, k, n - 1, job);
    }
  }

  /** The scan over bestPerK, whose iteration order is unspecified; k is the depth of a plan. */
  method Fastest(best: map<int, Plan>) returns (k: int)
    requires best != map[]
    requires forall j :: j in best ==> |best[j].stages| == j
    ensures k == FastestOf(best)
  {
    var left := best.Keys;
    ghost var w := FastestOf(best);
    k :| k in left;
    left := left - {k};
    while left != {}
      invariant left <= best.Keys && k in best && k !in left
      invariant forall j :: j in best && j !in left ==> NoWorse(best, k, j)
      decreases left
    {
      ghost var some := Pick(left);
      var j :| j in left;
      if best[j].tokenMS < best[k].tokenMS
         || (best[j].tokenMS == best[k].tokenMS && |best[j].stages| < |best[k].stages|) {
        k := j;
      }
      left := left - {j};
    }
    assert NoWorse(best, k, w) && NoWorse(best, w, k);
  }

  /** The floor as the program compares it: ms per token against 1000 / floor, or against infinity. */
  lemma LimitIsFloor(plan: Plan, floor: real)
    requires floor > 0.0
    ensures plan.tokenMS <= 1000.0 / floor <==> AtFloor(plan, floor)
  {
    var limit := 1000.0 / floor;
    assert limit * floor == 1000.0;
    if plan.tokenMS <= limit {
      assert (limit - plan.tokenMS) * floor >= 0.0;
    } else {
      assert (plan.tokenMS - limit) * floor > 0.0;
    }
  }

  method ChooseDepth(best: map<int, Plan>, depths: nat, floor: Option<real>) returns (k: int)
    requires best != map[]
    requires forall j :: j in best ==> 1 <= j <= depths && |best[j].stages| == j
    ensures k == ChosenDepth(best, floor)
    ensures floor.None? ==> forall j :: j in best ==> best[k].tokenMS <= best[j].tokenMS
    ensures floor.Some?
            && (exists j :: j in best && (floor.value <= 0.0 || best[j].tokenMS * floor.value <= 1000.0)) ==>
              && (floor.value <= 0.0 || best[k].tokenMS * floor.value <= 1000.0)
              && forall j :: j in best && (floor.value <= 0.0 || best[j].tokenMS * floor.value <= 1000.0) ==> k <= j
  {
    if floor.Some? {
      var infinite := floor.value <= 0.0;
      var floorMS := if infinite then 0.0 else 1000.0 / floor.value;
      for j := 1 to depths + 1
        invariant forall i :: 1 <= i < j && i in best ==> !AtFloor(best[i], floor.value)
      {
        if j in best && !infinite {
          LimitIsFloor(best[j], floor.value);
        }
        if j in best && (infinite || best[j].tokenMS <= floorMS) {
          assert IsFirstWithin(best, floor.value, j);
          return j;
        }
      }
    }
    k := Fastest(best);
  }

  /** Solve without fallbacks, on nodes in any order. */
  method SolvePlan(nodes: Group, job: Job, floor: Option<real>) returns (r: Result<Plan>, present: Group)
    requires job.model.Valid() && DistinctIds(nodes)
    ensures present == PresentSorted(nodes) && r == SolvePool(present, job, floor)
  {
    hide TableOk;
    present := SortPresent(nodes);
    if |present| == 0 {
      return Err(NoNodes), present;
    }
    var ok := Fits(present, job.model);
    if !ok {
      return Err(DoesNotFit), present;
    }
    var t := BuildTable(present, job);
    if t.Broken? {
      return Err(NoSpeedSource(t.id)), present;
    }
    if t.best == map[] {
      return Err(NoMapInBudget), present;
    }
    PresentSortedIsPool(nodes);
    TableIsBest(present, |present|, job);
    TableDepths(present, job, t.best);
    var k := ChooseDepth(t.best, |present|, floor);
    return Ok(t.best[k]), present;
  }

  lemma TableDepths(pool: Group, job: Job, best: map<int, Plan>)
    requires job.model.Valid() && TableOk(pool, |pool|, job, best)
    ensures forall j :: j in best ==> 1 <= j <= |pool| && |best[j].stages| == j
  {
  }

  method Solve(nodes: Group, job: Job, floor: Option<real>, withFallbacks: bool) returns (r: Result<PartitionResult>)
    requires job.model.Valid() && DistinctIds(nodes)
    ensures r == SolveOf(nodes, job, floor, withFallbacks)
    ensures r.Ok? ==> BestFor(PresentSorted(nodes), job, floor, r.value.plan)
  {
    hide SolvePool, BestFor;
    PresentSortedIsPool(nodes);
    var s, present := SolvePlan(nodes, job, floor);
    if s.Err? {
      return Err(s.error);
    }
    var fallbacks: map<string, Option<Plan>> := map[];
    if withFallbacks {
      PresentSortedIsPool(nodes);
      for i := 0 to |s.value.stages|
        invariant fallbacks.Keys == set j | 0 <= j < i :: s.value.stages[j].nodeID
        invariant forall id :: id in fallbacks ==>
            fallbacks[id] == ToOption(SolvePool(Without(present, {id}), job, floor))
      {
        var id := s.value.stages[i].nodeID;
        var rest := DropNodes(present, {id});
        GroupsWithout(present, {id}, {});
        PresentSortedOfPool(rest);
        SortedIsDistinct(rest);
        var sub, _ := SolvePlan(rest, job, floor);
        fallbacks := fallbacks[id := ToOption(sub)];
      }
    }
    assert withFallbacks ==> fallbacks == FallbacksOf(present, job, floor, s.value);
    SolveIsBest(present, job, floor);
    return Ok(PartitionResult(s.value, fallbacks));
  }
}

/**
SolveRoles: dedicated prefill and draft nodes besides the decode pipeline
(internal/partitioner/solver.go:569-783). An unset role is None where the program uses "", so
node ids must not be empty.
*/
module Roles {
  import opened Options
  import opened Seqs
  import opened StringOrder
  import opened Plans
  import opened Pools
  import opened Solver

  datatype RoleDemand = RoleDemand(prefill: Option<ModelSpec>, draft: Option<ModelSpec>, draftLeadFactor: real) {
    /** 0 stands for the default. */
    function LeadFactor(): real {
      if draftLeadFactor == 0.0 then 2.0 else draftLeadFactor
    }

    predicate Valid() {
      (prefill.Some? ==> prefill.value.Valid()) && (draft.Some? ==> draft.value.Valid())
    }
  }

  datatype Reservation = Reservation(prefill: Option<string>, draft: Option<string>) {
    function Ids(): set<string> {
      (if prefill.Some? then {prefill.value} else {}) + (if draft.Some? then {draft.value} else {})
    }
  }

  datatype RolePlan = RolePlan(decode: PartitionResult, roles: Reservation, draftMS: real, idle: seq<string>)

  datatype RoleError = LeadTooLow | NoPresentNodes | DecodeFailed(error: SolveError) | NoRoleNode | NoAssignment
  datatype RoleResult = RolesPlaced(plan: RolePlan) | RoleFailure(error: RoleError)

  function Find(pool: Group, id: string): Option<NodeProfile> {
    if pool == [] then None
    else if pool[0].id == id then Some(pool[0])
    else Find(pool[1..], id)
  }

  lemma {:induction false} FindIsTheNode(pool: Group, n: NodeProfile)
    requires SortedById(pool) && n in pool
    ensures Find(pool, n.id) == Some(n)
  {
    HeadOnce(pool, n);
    if pool[0] != n {
      HeadIdOnce(pool);
      FindIsTheNode(pool[1..], n);
    }
  }

  lemma {:induction false} FindFinds(pool: Group, id: string)
    ensures Find(pool, id).Some? ==> Find(pool, id).value in pool && Find(pool, id).value.id == id
  {
    if pool != [] {
      FindFinds(pool[1..], id);
    }
  }

  function SizeOf(model: Option<ModelSpec>): real {
    if model.Some? then model.value.TotalGB() else 0.0
  }

  /** A reservation of exactly the demanded roles, each resident within its node's cap. */
  ghost predicate Reservable(pool: Group, demand: RoleDemand, r: Reservation) {
    && (r.prefill.Some? <==> demand.prefill.Some?) && (r.draft.Some? <==> demand.draft.Some?)
    && (r.prefill.Some? ==> exists n :: n in pool && n.id == r.prefill.value && n.capGB >= SizeOf(demand.prefill))
    && (r.draft.Some? ==> exists n :: n in pool && n.id == r.draft.value && n.capGB >= SizeOf(demand.draft))
    && (r.prefill.Some? && r.draft.Some? && r.prefill == r.draft ==>
          exists n :: n in pool && n.id == r.draft.value && n.capGB >= SizeOf(demand.prefill) + SizeOf(demand.draft))
  }

  /** Per-token time of a whole model resident on one node; None without a speed source. */
  function ResidentMS(node: Option<NodeProfile>, model: Option<ModelSpec>): Option<real>
    requires model.Some? ==> model.value.Valid()
  {
    if node.Some? && model.Some? && node.value.HasSpeed()
    then Some(node.value.StageTime(model.value.nLayers, model.value.GBPerLayerTotal()))
    else None
  }

  /** What the search compares: decode time, then reserved nodes, then prefill time. */
  datatype Score = Score(tokenMS: real, reserved: nat, prefillMS: real)

  predicate Below(a: Score, b: Score) {
    || a.tokenMS < b.tokenMS
    || (a.tokenMS == b.tokenMS && a.reserved < b.reserved)
    || (a.tokenMS == b.tokenMS && a.reserved == b.reserved && a.prefillMS < b.prefillMS)
  }

  datatype Task = Task(job: Job, floor: Option<real>, demand: RoleDemand) {
    predicate Valid() {
      job.model.Valid() && demand.Valid()
    }
  }

  function DraftMS(pool: Group, task: Task, r: Reservation): Option<real>
    requires task.Valid()
  {
    if r.draft.None? then Some(0.0) else ResidentMS(Find(pool, r.draft.value), task.demand.draft)
  }

  function PrefillMS(pool: Group, task: Task, r: Reservation): Option<real>
    requires task.Valid()
  {
    if r.prefill.None? then Some(0.0) else ResidentMS(Find(pool, r.prefill.value), task.demand.prefill)
  }

  ghost function DecodeOf(pool: Group, task: Task, r: Reservation): Result<Plan>
    requires task.Valid()
  {
    SolvePool(Without(pool, r.Ids()), task.job, task.floor)
  }

  /** The score of a reservation that leaves a decode pipeline its draft can stay ahead of. */
  ghost function ScoreOf(pool: Group, task: Task, r: Reservation): Option<Score>
    requires task.Valid()
  {
    var decode, draft, prefill := DecodeOf(pool, task, r), DraftMS(pool, task, r), PrefillMS(pool, task, r);
    if decode.Ok? && draft.Some? && prefill.Some?
       && (r.draft.Some? ==> draft.value * task.demand.LeadFactor() <= decode.value.tokenMS)
    then Some(Score(decode.value.tokenMS, |r.Ids()|, prefill.value)) else None
  }

  /** Ties are settled by the ids: the prefill node first, then the draft node. */
  predicate Earlier(a: Reservation, b: Reservation) {
    var p, q := IdOf(a.prefill), IdOf(b.prefill);
    Less(p, q) || (p == q && Less(IdOf(a.draft), IdOf(b.draft)))
  }

  function IdOf(role: Option<string>): string {
    if role.Some? then role.value else ""
  }

  ghost predicate Admissible(pool: Group, task: Task, r: Reservation)
    requires task.Valid()
  {
    Reservable(pool, task.demand, r) && ScoreOf(pool, task, r).Some?
  }

  /** q does not come before r: it scores higher, or the same with later ids. */
  ghost predicate NotBefore(pool: Group, task: Task, q: Reservation, r: Reservation)
    requires task.Valid() && ScoreOf(pool, task, q).Some? && ScoreOf(pool, task, r).Some?
  {
    var x, y := ScoreOf(pool, task, q).value, ScoreOf(pool, task, r).value;
    !Below(x, y) && (x == y ==> q == r || Earlier(r, q))
  }

  /** The best reservation: admissible, and no admissible one comes before it. */
  ghost predicate BestReservation(pool: Group, task: Task, r: Reservation)
    requires task.Valid()
  {
    && Admissible(pool, task, r)
    && forall q :: Admissible(pool, task, q) ==> NotBefore(pool, task, q, r)
  }

  /** The factor the draft must be ahead by: the demanded one, or 2 when none is given. */
  lemma LeadFactorMeans(demand: RoleDemand)
    ensures demand.draftLeadFactor == 0.0 ==> demand.LeadFactor() == 2.0
    ensures demand.draftLeadFactor != 0.0 ==> demand.LeadFactor() == demand.draftLeadFactor
  {
  }

  /** The time of a whole model on the node that holds a role. */
  lemma ResidentMeans(pool: Group, n: NodeProfile, model: ModelSpec)
    requires SortedById(pool) && n in pool && model.Valid()
    ensures var ms := ResidentMS(Find(pool, n.id), Some(model));
            && (ms.Some? <==> n.msPerLayer > 0.0 || n.bandwidthGBps > 0.0)
            && (ms.Some? ==> ms.value == n.StageTime(model.nLayers, model.GBPerLayerTotal()))
  {
    FindIsTheNode(pool, n);
  }

  /** The node that holds a role has a speed. */
  ghost predicate Speedy(pool: Group, role: Option<string>) {
    role.Some? ==> exists n :: n in pool && n.id == role.value && (n.msPerLayer > 0.0 || n.bandwidthGBps > 0.0)
  }

  lemma RoleMeans(pool: Group, role: Option<string>, model: Option<ModelSpec>)
    requires SortedById(pool) && (role.Some? ==> model.Some? && model.value.Valid())
    requires role.Some? ==> exists n :: n in pool && n.id == role.value
    ensures Speedy(pool, role) <==> role.None? || ResidentMS(Find(pool, role.value), model).Some?
    ensures role.Some? && Speedy(pool, role) ==>
              forall n :: n in pool && n.id == role.value ==>
                            ResidentMS(Find(pool, role.value), model).value
                            == n.StageTime(model.value.nLayers, model.value.GBPerLayerTotal())
  {
    if role.Some? {
      var n :| n in pool && n.id == role.value;
      ResidentMeans(pool, n, model.value);
      OnlyOne(pool, n);
    }
  }

  /** The draft node, times the lead factor (2 when none is given), is no slower than the decoding. */
  ghost predicate StaysAhead(pool: Group, demand: RoleDemand, role: Option<string>, tokenMS: real)
    requires demand.Valid() && demand.draft.Some?
  {
    var model := demand.draft.value;
    role.Some? ==> forall n :: n in pool && n.id == role.value ==>
                                 Ahead(n.StageTime(model.nLayers, model.GBPerLayerTotal()), demand, tokenMS)
  }

  predicate Ahead(ms: real, demand: RoleDemand, tokenMS: real) {
    ms * (if demand.draftLeadFactor == 0.0 then 2.0 else demand.draftLeadFactor) <= tokenMS
  }

  /**
  Admissible in terms of the nodes: the rest decodes, the role nodes have a speed, and the draft
  stays ahead of the decoding.
  */
  lemma AdmissibleMeans(pool: Group, task: Task, q: Reservation)
    requires task.Valid() && SortedById(pool) && Reservable(pool, task.demand, q)
    ensures Admissible(pool, task, q) <==>
            && DecodeOf(pool, task, q).Ok? && Speedy(pool, q.prefill) && Speedy(pool, q.draft)
            && (q.draft.Some? ==>
                  StaysAhead(pool, task.demand, q.draft, DecodeOf(pool, task, q).value.tokenMS))
  {
    hide SolvePool, Without, Speedy, StaysAhead, DecodeOf, Reservable, SortedById, PrefillMS, DraftMS;
    RolesAreTimed(pool, task, q);
    if q.draft.Some? && DecodeOf(pool, task, q).Ok? && Speedy(pool, q.draft) {
      DraftIsAhead(pool, task, q, DecodeOf(pool, task, q).value.tokenMS);
    }
  }

  lemma RolesAreTimed(pool: Group, task: Task, q: Reservation)
    requires task.Valid() && SortedById(pool) && Reservable(pool, task.demand, q)
    ensures Speedy(pool, q.prefill) <==> PrefillMS(pool, task, q).Some?
    ensures Speedy(pool, q.draft) <==> DraftMS(pool, task, q).Some?
    ensures q.draft.Some? ==> task.demand.draft.Some?
  {
    ReservedAreNodes(pool, task.demand, q);
    hide Find, ResidentMS, Speedy, Reservable, SortedById;
    RoleMeans(pool, q.prefill, task.demand.prefill);
    RoleMeans(pool, q.draft, task.demand.draft);
  }

  lemma DraftIsAhead(pool: Group, task: Task, q: Reservation, tokenMS: real)
    requires task.Valid() && SortedById(pool) && task.demand.draft.Some? && q.draft.Some? && Speedy(pool, q.draft)
    ensures var ms := DraftMS(pool, task, q);
            ms.Some? && (StaysAhead(pool, task.demand, q.draft, tokenMS)
                         <==> ms.value * task.demand.LeadFactor() <= tokenMS)
  {
    hide Find, ResidentMS, Speedy, SortedById, StaysAhead;
    AheadMeans(pool, task.demand, q.draft, tokenMS);
  }

  lemma ReservedAreNodes(pool: Group, demand: RoleDemand, q: Reservation)
    requires Reservable(pool, demand, q)
    ensures q.prefill.Some? ==> demand.prefill.Some? && exists n :: n in pool && n.id == q.prefill.value
    ensures q.draft.Some? ==> demand.draft.Some? && exists n :: n in pool && n.id == q.draft.value
  {
    hide SizeOf;
  }

  lemma AheadIs(ms: real, demand: RoleDemand, tokenMS: real)
    ensures Ahead(ms, demand, tokenMS) <==> ms * demand.LeadFactor() <= tokenMS
  {
    LeadFactorMeans(demand);
  }

  lemma AheadMeans(pool: Group, demand: RoleDemand, role: Option<string>, tokenMS: real)
    requires SortedById(pool) && demand.Valid() && demand.draft.Some? && role.Some? && Speedy(pool, role)
    ensures var ms := ResidentMS(Find(pool, role.value), demand.draft);
            ms.Some? && (StaysAhead(pool, demand, role, tokenMS) <==> ms.value * demand.LeadFactor() <= tokenMS)
  {
    hide ResidentMS, Find, SortedById, Ahead, NodeProfile.StageTime, ModelSpec.GBPerLayerTotal, RoleDemand.LeadFactor;
    var n :| n in pool && n.id == role.value && (n.msPerLayer > 0.0 || n.bandwidthGBps > 0.0);
    hide Speedy;
    OnlyOne(pool, n);
    ResidentMeans(pool, n, demand.draft.value);
    AheadIs(ResidentMS(Find(pool, role.value), demand.draft).value, demand, tokenMS);
  }

  lemma OnlyOne(pool: Group, n: NodeProfile)
    requires SortedById(pool) && n in pool
    ensures forall m :: m in pool && m.id == n.id ==> m == n
  {
    forall m | m in pool && m.id == n.id ensures m == n {
      FindIsTheNode(pool, m);
      FindIsTheNode(pool, n);
    }
  }

  /** A best reservation, in terms of times and counts: no admissible one is better in decode time first. */
  lemma BestIsLeast(pool: Group, task: Task, r: Reservation, q: Reservation)
    requires task.Valid() && BestReservation(pool, task, r) && Admissible(pool, task, q)
    ensures DecodeOf(pool, task, r).Ok? && DecodeOf(pool, task, q).Ok?
    ensures PrefillMS(pool, task, r).Some? && PrefillMS(pool, task, q).Some?
    ensures var mine, other := DecodeOf(pool, task, r).value.tokenMS, DecodeOf(pool, task, q).value.tokenMS;
            && mine <= other
            && (mine == other ==> |r.Ids()| <= |q.Ids()|)
            && (mine == other && |r.Ids()| == |q.Ids()| ==>
                  PrefillMS(pool, task, r).value <= PrefillMS(pool, task, q).value)
  {
    hide SolvePool, Without, Reservable, Earlier, DraftMS, PrefillMS;
    assert NotBefore(pool, task, q, r);
  }

  /** There is one best reservation. */
  lemma BestIsUnique(pool: Group, task: Task, a: Reservation, b: Reservation)
    requires task.Valid() && BestReservation(pool, task, a) && BestReservation(pool, task, b)
    ensures a == b
  {
    hide ScoreOf, Less;
    assert NotBefore(pool, task, a, b) && NotBefore(pool, task, b, a);
    if a != b {
      LaterIsNotEarlier(a, b);
    }
  }

  lemma LaterIsNotEarlier(a: Reservation, b: Reservation)
    ensures !(Earlier(a, b) && Earlier(b, a))
  {
    if Earlier(a, b) && Less(IdOf(a.prefill), IdOf(b.prefill)) {
      LessAsymmetric(IdOf(a.prefill), IdOf(b.prefill));
    } else if Earlier(a, b) {
      LessAsymmetric(IdOf(a.draft), IdOf(b.draft));
      LessIrreflexive(IdOf(a.prefill));
    }
  }

  /** The full map for a reservation: decode with its fallbacks, roles, and the idle rest. */
  ghost predicate MapFor(pool: Group, task: Task, plan: RolePlan)
    requires task.Valid()
  {
    var rest := Without(pool, plan.roles.Ids());
    && SolvePool(rest, task.job, task.floor) == Ok(plan.decode.plan)
    && plan.decode.fallbacks == FallbacksOf(rest, task.job, task.floor, plan.decode.plan)
    && DraftMS(pool, task, plan.roles) == Some(plan.draftMS)
    && plan.decode.plan.NodeIDs() !! plan.roles.Ids()
    && plan.idle == Unused(pool, plan.decode.plan.NodeIDs() + plan.roles.Ids())
  }

  /** No floor: giving nodes away never makes decoding faster than the whole pool would. */
  lemma RolesNeverSpeedUpDecode(pool: Group, task: Task, r: Reservation)
    requires task.Valid() && task.floor.None? && IsPool(pool)
    requires DecodeOf(pool, task, r).Ok? && SolvePool(pool, task.job, None).Ok?
    ensures SolvePool(pool, task.job, None).value.tokenMS <= DecodeOf(pool, task, r).value.tokenMS
  {
    SmallerPoolIsNoFaster(pool, task.job, IdsOf(pool) - r.Ids());
  }

  /** A decode plan only uses nodes of its own sub-pool. */
  lemma DecodeStaysInPool(pool: Group, job: Job, floor: Option<real>)
    requires job.model.Valid() && IsPool(pool) && SolvePool(pool, job, floor).Ok?
    ensures SolvePool(pool, job, floor).value.NodeIDs() <= IdsOf(pool)
  {
    hide PlanOf, SolvePool;
    SolveIsBest(pool, job, floor);
    var plan := SolvePool(pool, job, floor).value;
    var ids :| PlanOf(Restrict(pool, ids), job) == Planned(plan);
    PlanIsSound(Restrict(pool, ids), job);
    RestrictMembers(pool, ids);
    forall s | s in plan.stages ensures s.nodeID in IdsOf(pool) {
      var i :| 0 <= i < |plan.stages| && plan.stages[i] == s;
      assert Restrict(pool, ids)[i] in pool;
    }
  }

  // ---------------------------------------------------------------- enumerating reservations

  /** One node for both roles comes before two, and equal numbers in the order of the ids. */
  predicate Precedes(a: Reservation, b: Reservation) {
    |a.Ids()| < |b.Ids()| || (|a.Ids()| == |b.Ids()| && Earlier(a, b))
  }

  ghost predicate Listed(all: seq<Reservation>) {
    forall i, j :: 0 <= i < j < |all| ==> Precedes(all[i], all[j])
  }

  lemma ListedAppend(all: seq<Reservation>, more: seq<Reservation>)
    requires Listed(all) && Listed(more)
    requires forall a, b :: a in all && b in more ==> Precedes(a, b)
    ensures Listed(all + more)
  {
    hide Precedes;
    var both := all + more;
    forall i, j | 0 <= i < j < |both| ensures Precedes(both[i], both[j]) {
      if i < |all| <= j {
        assert both[i] in all && both[j] in more;
      } else if |all| <= i {
        assert both[i] == more[i - |all|] && both[j] == more[j - |all|];
      }
    }
  }

  /** The reservations the search tries, in its order. */
  method Candidates(pool: Group, demand: RoleDemand) returns (all: seq<Reservation>)
    requires SortedById(pool) && demand.Valid() && (demand.prefill.Some? || demand.draft.Some?)
    ensures forall r :: r in all <==> Reservable(pool, demand, r)
    ensures Listed(all)
  {
    if demand.prefill.Some? && demand.draft.Some? {
      all := DoubleRoles(pool, demand);
      var pairs := SeparateRoles(pool, demand);
      ghost var both := all;
      forall a, b | a in both && b in pairs ensures Precedes(a, b) {
        DoubleBeforeSeparate(pool, demand, a, b);
      }
      ListedAppend(both, pairs);
      all := all + pairs;
      forall r ensures r in all <==> Reservable(pool, demand, r) {
        assert r in all <==> r in both || r in pairs;
        ReservableForms(pool, demand, r);
      }
    } else {
      all := SingleRole(pool, demand);
    }
  }

  lemma DoubleBeforeSeparate(pool: Group, demand: RoleDemand, a: Reservation, b: Reservation)
    requires IsDouble(pool, demand, a) && IsSeparate(pool, demand, b)
    ensures Precedes(a, b)
  {
    assert a.Ids() == {a.prefill.value};
    assert b.Ids() == {b.prefill.value, b.draft.value};
  }

  predicate HoldsBoth(n: NodeProfile, demand: RoleDemand) {
    n.capGB >= SizeOf(demand.prefill) + SizeOf(demand.draft)
  }

  /** The ways to meet a double demand: one node for both roles, or two different nodes. */
  ghost predicate IsDouble(pool: Group, demand: RoleDemand, r: Reservation) {
    exists n :: n in pool && r == Reservation(Some(n.id), Some(n.id)) && HoldsBoth(n, demand)
  }

  ghost predicate IsSeparate(pool: Group, demand: RoleDemand, r: Reservation) {
    exists p, d :: p in pool && d in pool && p.id != d.id && r == Reservation(Some(p.id), Some(d.id))
                   && p.capGB >= SizeOf(demand.prefill) && d.capGB >= SizeOf(demand.draft)
  }

  lemma SizesPositive(demand: RoleDemand)
    requires demand.Valid()
    ensures SizeOf(demand.prefill) >= 0.0 && SizeOf(demand.draft) >= 0.0
  {
    if demand.prefill.Some? {
      var gb := demand.prefill.value.GBPerLayerResident();
      assert gb * demand.prefill.value.nLayers as real >= 0.0;
    }
    if demand.draft.Some? {
      var gb := demand.draft.value.GBPerLayerResident();
      assert gb * demand.draft.value.nLayers as real >= 0.0;
    }
  }

  lemma ReservableForms(pool: Group, demand: RoleDemand, r: Reservation)
    requires SortedById(pool) && demand.Valid() && demand.prefill.Some? && demand.draft.Some?
    ensures Reservable(pool, demand, r) <==> IsDouble(pool, demand, r) || IsSeparate(pool, demand, r)
  {
    SizesPositive(demand);
    if n :| n in pool && r == Reservation(Some(n.id), Some(n.id)) && HoldsBoth(n, demand) {
      assert Reservable(pool, demand, r);
    }
  }

  method DoubleRoles(pool: Group, demand: RoleDemand) returns (all: seq<Reservation>)
    requires SortedById(pool) && demand.prefill.Some? && demand.draft.Some?
    ensures forall r :: r in all <==> IsDouble(pool, demand, r)
    ensures Listed(all)
  {
    all := [];
    for i := 0 to |pool|
      invariant forall r :: r in all <==> IsDouble(pool[..i], demand, r)
      invariant Listed(all)
    {
      ghost var before := all;
      if pool[i].capGB >= demand.prefill.value.TotalGB() + demand.draft.value.TotalGB() {
        var last := Reservation(Some(pool[i].id), Some(pool[i].id));
        forall a, b | a in all && b in [last] ensures Precedes(a, b) {
          var n :| n in pool[..i] && a == Reservation(Some(n.id), Some(n.id));
          assert a.Ids() == {n.id} && last.Ids() == {pool[i].id};
        }
        ListedAppend(all, [last]);
        all := all + [last];
      }
      forall r ensures r in all <==> IsDouble(pool[..i + 1], demand, r) {
        assert pool[..i + 1] == pool[..i] + [pool[i]];
        assert IsDouble(pool[..i + 1], demand, r) <==> IsDouble(pool[..i], demand, r) || IsDouble([pool[i]], demand, r);
        assert pool[i] in [pool[i]];
      }
    }
    assert pool[..|pool|] == pool;
  }

  ghost predicate IsPairWith(p: NodeProfile, pool: Group, demand: RoleDemand, r: Reservation) {
    exists d :: d in pool && p.id != d.id && r == Reservation(Some(p.id), Some(d.id))
                && p.capGB >= SizeOf(demand.prefill) && d.capGB >= SizeOf(demand.draft)
  }

  /** Two pairs of different nodes compare by their ids. */
  lemma PairsInOrder(a: Reservation, b: Reservation)
    requires a.prefill.Some? && a.draft.Some? && a.prefill != a.draft
    requires b.prefill.Some? && b.draft.Some? && b.prefill != b.draft
    ensures Precedes(a, b) <==> Earlier(a, b)
  {
    assert a.Ids() == {a.prefill.value, a.draft.value};
    assert b.Ids() == {b.prefill.value, b.draft.value};
  }

  method PairsWith(p: NodeProfile, pool: Group, demand: RoleDemand) returns (all: seq<Reservation>)
    requires SortedById(pool) && demand.prefill.Some? && demand.draft.Some?
    ensures forall r :: r in all <==> IsPairWith(p, pool, demand, r)
    ensures Listed(all)
  {
    all := [];
    for i := 0 to |pool|
      invariant forall r :: r in all <==> IsPairWith(p, pool[..i], demand, r)
      invariant Listed(all)
    {
      var d := pool[i];
      if p.id != d.id && p.capGB >= demand.prefill.value.TotalGB() && d.capGB >= demand.draft.value.TotalGB() {
        var last := Reservation(Some(p.id), Some(d.id));
        forall a, b | a in all && b in [last] ensures Precedes(a, b) {
          var n :| n in pool[..i] && p.id != n.id && a == Reservation(Some(p.id), Some(n.id));
          PairsInOrder(a, last);
        }
        ListedAppend(all, [last]);
        all := all + [last];
      }
      assert pool[..i + 1] == pool[..i] + [d];
    }
    assert pool[..|pool|] == pool;
  }

  method SeparateRoles(pool: Group, demand: RoleDemand) returns (all: seq<Reservation>)
    requires SortedById(pool) && demand.prefill.Some? && demand.draft.Some?
    ensures forall r :: r in all <==> IsSeparate(pool, demand, r)
    ensures Listed(all)
  {
    all := [];
    for i := 0 to |pool|
      invariant forall r :: r in all <==> exists p :: p in pool[..i] && IsPairWith(p, pool, demand, r)
      invariant Listed(all)
    {
      var more := PairsWith(pool[i], pool, demand);
      forall a, b | a in all && b in more ensures Precedes(a, b) {
        var p :| p in pool[..i] && IsPairWith(p, pool, demand, a);
        PairsInOrder(a, b);
      }
      ListedAppend(all, more);
      all := all + more;
      assert pool[..i + 1] == pool[..i] + [pool[i]];
    }
    assert pool[..|pool|] == pool;
  }

  ghost predicate IsSingle(pool: Group, demand: RoleDemand, r: Reservation) {
    if demand.prefill.Some?
    then exists n :: n in pool && r == Reservation(Some(n.id), None) && n.capGB >= SizeOf(demand.prefill)
    else exists n :: n in pool && r == Reservation(None, Some(n.id)) && n.capGB >= SizeOf(demand.draft)
  }

  lemma SinglesInOrder(pool: Group, demand: RoleDemand, i: nat, a: Reservation, last: Reservation)
    requires SortedById(pool) && i < |pool| && IsSingle(pool[..i], demand, a)
    requires var id := Some(pool[i].id);
             last == if demand.prefill.Some? then Reservation(id, None) else Reservation(None, id)
    ensures Precedes(a, last)
  {
    var id := if demand.prefill.Some? then a.prefill.value else a.draft.value;
    assert a.Ids() == {id} && last.Ids() == {pool[i].id};
    var n :| n in pool[..i] && n.id == id;
    var k :| 0 <= k < i && pool[k] == n;
    LessIrreflexive("");
  }

  method SingleRole(pool: Group, demand: RoleDemand) returns (all: seq<Reservation>)
    requires SortedById(pool) && demand.prefill.Some? != demand.draft.Some?
    ensures forall r :: r in all <==> Reservable(pool, demand, r)
    ensures Listed(all)
  {
    all := [];
    for i := 0 to |pool|
      invariant forall r :: r in all <==> IsSingle(pool[..i], demand, r)
      invariant Listed(all)
    {
      var n := pool[i];
      var last := if demand.prefill.Some? then Reservation(Some(n.id), None) else Reservation(None, Some(n.id));
      forall a, b | a in all && b in [last] ensures Precedes(a, b) {
        SinglesInOrder(pool, demand, i, a, last);
      }
      ListedAppend(all, [last]);
      if demand.prefill.Some? {
        if n.capGB >= demand.prefill.value.TotalGB() {
          all := all + [last];
        }
      } else if n.capGB >= demand.draft.value.TotalGB() {
        all := all + [last];
      }
      assert pool[..i + 1] == pool[..i] + [n];
    }
    assert pool[..|pool|] == pool;
    forall r ensures IsSingle(pool, demand, r) <==> Reservable(pool, demand, r) {
    }
  }

  // ---------------------------------------------------------------- scoring one reservation

  method ListIdle(pool: Group, plan: Plan, reserved: set<string>) returns (idle: seq<string>)
    ensures idle == Unused(pool, plan.NodeIDs() + reserved)
  {
    var used := reserved;
    for i := 0 to |plan.stages|
      invariant used == reserved + set k | 0 <= k < i :: plan.stages[k].nodeID
    {
      used := used + {plan.stages[i].nodeID};
    }
    assert plan.NodeIDs() == set k | 0 <= k < |plan.stages| :: plan.stages[k].nodeID;
    assert used == plan.NodeIDs() + reserved;
    idle := ListUnused(pool, used);
  }

  /** The decode side of one reservation. */
  method SolveDecode(pool: Group, task: Task, reserved: set<string>) returns (r: Result<PartitionResult>)
    requires task.Valid() && IsPool(pool)
    ensures var rest := Without(pool, reserved);
            var s := SolvePool(rest, task.job, task.floor);
            && (s.Err? ==> r == Err(s.error))
            && (s.Ok? ==> r == Ok(PartitionResult(s.value, FallbacksOf(rest, task.job, task.floor, s.value)))
                          && s.value.NodeIDs() <= IdsOf(pool) - reserved)
  {
    hide SolvePool;
    var rest := DropNodes(pool, reserved);
    GroupsWithout(pool, reserved, {});
    SortedIsDistinct(rest);
    PresentSortedOfPool(rest);
    r := Solve(rest, task.job, task.floor, true);
    if r.Ok? {
      DecodeStaysInPool(rest, task.job, task.floor);
    }
  }

  method Evaluate(pool: Group, task: Task, r: Reservation)
      returns (score: Option<Score>, decode: Result<PartitionResult>, draftMS: real)
    requires task.Valid() && IsPool(pool)
    ensures score == ScoreOf(pool, task, r)
    ensures score.Some? ==>
              && decode.Ok? && DecodeOf(pool, task, r) == Ok(decode.value.plan)
              && decode.value.fallbacks == FallbacksOf(Without(pool, r.Ids()), task.job, task.floor, decode.value.plan)
              && decode.value.plan.NodeIDs() !! r.Ids()
              && DraftMS(pool, task, r) == Some(draftMS)
  {
    hide SolvePool, FallbacksOf, Without, Find;
    score, draftMS := None, 0.0;
    decode := SolveDecode(pool, task, r.Ids());
    if decode.Err? {
      return;
    }
    var draft := DraftMS(pool, task, r);
    if draft.None? {
      return;
    }
    draftMS := draft.value;
    if r.draft.Some? && draftMS * task.demand.LeadFactor() > decode.value.plan.tokenMS {
      return;
    }
    var prefill := PrefillMS(pool, task, r);
    if prefill.None? {
      return;
    }
    score := Some(Score(decode.value.plan.tokenMS, |r.Ids()|, prefill.value));
  }

  // ---------------------------------------------------------------- the search

  lemma BelowIsTransitive(a: Score, b: Score, c: Score)
    requires !Below(a, b) && Below(c, b)
    ensures !Below(a, c) && a != c
  {
  }

  /** `r` is one of the first n candidates, scored, and none of them comes before it. */
  ghost predicate Leads(pool: Group, task: Task, all: seq<Reservation>, n: nat, r: Reservation)
    requires task.Valid() && n <= |all|
  {
    && r in all[..n] && ScoreOf(pool, task, r).Some?
    && forall k :: 0 <= k < n && ScoreOf(pool, task, all[k]).Some? ==> NotBefore(pool, task, all[k], r)
  }

  /** A candidate takes the lead exactly when it scores strictly below the leader. */
  lemma LeadChanges(pool: Group, task: Task, all: seq<Reservation>, n: nat, r: Reservation)
    requires task.Valid() && n < |all| && Listed(all) && Leads(pool, task, all, n, r)
    requires ScoreOf(pool, task, all[n]).Some?
    ensures var x, y := ScoreOf(pool, task, all[n]).value, ScoreOf(pool, task, r).value;
            Leads(pool, task, all, n + 1, if Below(x, y) then all[n] else r)
  {
    hide ScoreOf, Below, Listed;
    var x, y := ScoreOf(pool, task, all[n]).value, ScoreOf(pool, task, r).value;
    OneMore(all, n);
    if Below(x, y) {
      forall k | 0 <= k < n && ScoreOf(pool, task, all[k]).Some? ensures NotBefore(pool, task, all[k], all[n]) {
        BelowIsTransitive(ScoreOf(pool, task, all[k]).value, y, x);
      }
      NotBelowItself(x);
    } else if x == y {
      var b :| 0 <= b < n && all[b] == r;
      TieKeepsFirst(pool, task, all, b, n);
    }
  }

  lemma NotBelowItself(x: Score)
    ensures !Below(x, x)
  {
  }

  lemma TieKeepsFirst(pool: Group, task: Task, all: seq<Reservation>, b: nat, n: nat)
    requires task.Valid() && b < n < |all| && Listed(all)
    requires ScoreOf(pool, task, all[b]).Some? && ScoreOf(pool, task, all[n]) == ScoreOf(pool, task, all[b])
    ensures Earlier(all[b], all[n])
  {
    hide ScoreOf, Earlier;
    ScoreCounts(pool, task, all[b]);
    ScoreCounts(pool, task, all[n]);
    assert Precedes(all[b], all[n]);
  }

  lemma ScoreCounts(pool: Group, task: Task, r: Reservation)
    requires task.Valid() && ScoreOf(pool, task, r).Some?
    ensures ScoreOf(pool, task, r).value.reserved == |r.Ids()|
  {
  }

  lemma LeadStays(pool: Group, task: Task, all: seq<Reservation>, n: nat, r: Reservation)
    requires task.Valid() && n < |all| && Leads(pool, task, all, n, r) && ScoreOf(pool, task, all[n]).None?
    ensures Leads(pool, task, all, n + 1, r)
  {
    hide ScoreOf;
    OneMore(all, n);
  }

  /** The loop over the candidate reservations. */
  method PickReservation(pool: Group, task: Task, all: seq<Reservation>) returns (best: Option<RolePlan>)
    requires task.Valid() && IsPool(pool) && Listed(all)
    ensures best.None? ==> forall r :: r in all ==> ScoreOf(pool, task, r).None?
    ensures best.Some? ==>
              MapFor(pool, task, best.value) && Leads(pool, task, all, |all|, best.value.roles)
  {
    hide ScoreOf, Leads;
    best := None;
    var bestScore := Score(0.0, 0, 0.0);
    for i := 0 to |all|
      invariant best.None? ==> forall k :: 0 <= k < i ==> ScoreOf(pool, task, all[k]).None?
      invariant best.Some? ==>
                  && MapFor(pool, task, best.value) && Leads(pool, task, all, i, best.value.roles)
                  && ScoreOf(pool, task, best.value.roles) == Some(bestScore)
    {
      hide SolvePool, FallbacksOf, Without, DraftMS, Listed;
      var r := all[i];
      var score, decode, draftMS := Evaluate(pool, task, r);
      if best.Some? {
        if score.Some? {
          LeadChanges(pool, task, all, i, best.value.roles);
        } else {
          LeadStays(pool, task, all, i, best.value.roles);
        }
      } else if score.Some? {
        FirstLeads(pool, task, all, i);
      }
      if score.Some? && (best.None? || Below(score.value, bestScore)) {
        var idle := ListIdle(pool, decode.value.plan, r.Ids());
        best := Some(RolePlan(decode.value, r, draftMS, idle));
        bestScore := score.value;
      }
    }
  }

  lemma FirstLeads(pool: Group, task: Task, all: seq<Reservation>, n: nat)
    requires task.Valid() && n < |all| && ScoreOf(pool, task, all[n]).Some?
    requires forall k :: 0 <= k < n ==> ScoreOf(pool, task, all[k]).None?
    ensures Leads(pool, task, all, n + 1, all[n])
  {
    hide ScoreOf;
    OneMore(all, n);
  }

  /** The answer for a pool: each failure exactly when its cause holds, else the map of the best reservation. */
  ghost predicate RolesAnswer(pool: Group, task: Task, r: RoleResult)
    requires task.Valid()
  {
    var none := task.demand.prefill.None? && task.demand.draft.None?;
    if task.demand.LeadFactor() <= 1.0 then r == RoleFailure(LeadTooLow)
    else if pool == [] then r == RoleFailure(NoPresentNodes)
    else if forall q :: !Reservable(pool, task.demand, q) then r == RoleFailure(NoRoleNode)
    else if forall q :: !Admissible(pool, task, q) then
      if none
      then DecodeOf(pool, task, NO_ROLES).Err? && r == RoleFailure(DecodeFailed(DecodeOf(pool, task, NO_ROLES).error))
      else r == RoleFailure(NoAssignment)
    else r.RolesPlaced? && MapFor(pool, task, r.plan) && BestReservation(pool, task, r.plan.roles)
  }

  /**
  What an answer promises, on its own fields: too low a lead factor is refused; a placed map decodes
  on unreserved nodes, and no admissible reservation decodes faster, or as fast with fewer nodes, or
  as fast with as many and a faster prefill.
  */
  lemma AnswerMeans(pool: Group, task: Task, r: RoleResult, q: Reservation)
    requires task.Valid() && RolesAnswer(pool, task, r)
    ensures r == RoleFailure(LeadTooLow) <==> task.demand.draftLeadFactor != 0.0 && task.demand.draftLeadFactor <= 1.0
    ensures r.RolesPlaced? ==>
              && r.plan.decode.plan.NodeIDs() !! r.plan.roles.Ids()
              && DecodeOf(pool, task, r.plan.roles) == Ok(r.plan.decode.plan)
    ensures r.RolesPlaced? && Admissible(pool, task, q) ==>
              && DecodeOf(pool, task, q).Ok? && PrefillMS(pool, task, q).Some?
              && PrefillMS(pool, task, r.plan.roles).Some?
              && var roles := r.plan.roles;
                 var mine, other := r.plan.decode.plan.tokenMS, DecodeOf(pool, task, q).value.tokenMS;
                 && mine <= other
                 && (mine == other ==> |roles.Ids()| <= |q.Ids()|)
                 && (mine == other && |roles.Ids()| == |q.Ids()| ==>
                       PrefillMS(pool, task, roles).value <= PrefillMS(pool, task, q).value)
  {
    LeadFactorMeans(task.demand);
    hide SolvePool, FallbacksOf, Without, Unused, Reservable, PrefillMS, DraftMS, BestReservation;
    if r.RolesPlaced? && Admissible(pool, task, q) {
      hide Admissible;
      BestIsLeast(pool, task, r.plan.roles, q);
    }
  }

  const NO_ROLES: Reservation := Reservation(None, None)

  lemma MapIsUnique(pool: Group, task: Task, p: RolePlan, q: RolePlan)
    requires task.Valid() && MapFor(pool, task, p) && MapFor(pool, task, q) && p.roles == q.roles
    ensures p == q
  {
    hide SolvePool, FallbacksOf, Without, Unused, DraftMS;
  }

  lemma AnswerIsUnique(pool: Group, task: Task, x: RoleResult, y: RoleResult)
    requires task.Valid() && RolesAnswer(pool, task, x) && RolesAnswer(pool, task, y)
    ensures x == y
  {
    hide Reservable, Admissible, DecodeOf, BestReservation, MapFor;
    if x.RolesPlaced? && y.RolesPlaced? {
      BestIsUnique(pool, task, x.plan.roles, y.plan.roles);
      MapIsUnique(pool, task, x.plan, y.plan);
    }
  }

  /** The nodes may be given in any order. */
  lemma RolesIgnoreOrder(a: Group, b: Group, task: Task, x: RoleResult, y: RoleResult)
    requires task.Valid() && DistinctIds(a) && DistinctIds(b) && multiset(a) == multiset(b)
    requires RolesAnswer(PresentSorted(a), task, x) && RolesAnswer(PresentSorted(b), task, y)
    ensures x == y
  {
    PresentSortedIgnoresOrder(a, b);
    hide *;
    AnswerIsUnique(PresentSorted(a), task, x, y);
  }

  /**
  Roles never share a node with decoding, fit their caps and keep the draft ahead; the
  reservation is lexicographically minimal over all admissible ones.
  */
  method SolveRoles(nodes: Group, task: Task) returns (r: RoleResult)
    requires task.Valid() && DistinctIds(nodes) && forall n :: n in nodes ==> n.id != ""
    ensures RolesAnswer(PresentSorted(nodes), task, r)
  {
    hide ScoreOf, MapFor, SolvePool, NotBefore;
    if task.demand.LeadFactor() <= 1.0 {
      return RoleFailure(LeadTooLow);
    }
    var present := SortPresent(nodes);
    PresentSortedIsPool(nodes);
    if |present| == 0 {
      return RoleFailure(NoPresentNodes);
    }
    if task.demand.prefill.None? && task.demand.draft.None? {
      assert Reservable(present, task.demand, NO_ROLES);
      r := SolveWithoutRoles(present, task);
      return;
    }
    var all := Candidates(present, task.demand);
    if |all| == 0 {
      assert forall q :: q !in all;
      return RoleFailure(NoRoleNode);
    }
    assert Reservable(present, task.demand, all[0]);
    var best := PickReservation(present, task, all);
    if best.None? {
      return RoleFailure(NoAssignment);
    }
    LeaderIsBest(present, task, all, best.value.roles);
    return RolesPlaced(best.value);
  }

  lemma LeaderIsBest(pool: Group, task: Task, all: seq<Reservation>, r: Reservation)
    requires task.Valid() && (forall q :: q in all <==> Reservable(pool, task.demand, q))
    requires Leads(pool, task, all, |all|, r)
    ensures BestReservation(pool, task, r)
  {
    hide ScoreOf, Reservable, NotBefore;
    assert all[..|all|] == all;
    forall q | Admissible(pool, task, q) ensures NotBefore(pool, task, q, r) {
      assert q in all;
    }
  }

  /** No role demanded: the plain solve of the whole pool. */
  method SolveWithoutRoles(pool: Group, task: Task) returns (r: RoleResult)
    requires task.Valid() && IsPool(pool) && task.demand.prefill.None? && task.demand.draft.None?
    ensures r.RolesPlaced? ==> MapFor(pool, task, r.plan) && BestReservation(pool, task, r.plan.roles)
    ensures r.RoleFailure? ==>
              && DecodeOf(pool, task, NO_ROLES).Err? && (forall q :: !Admissible(pool, task, q))
              && r.error == DecodeFailed(DecodeOf(pool, task, NO_ROLES).error)
  {
    hide SolvePool, FallbacksOf, Without;
    var none := NO_ROLES;
    var decode := SolveDecode(pool, task, {});
    assert none.Ids() == {};
    forall q | Reservable(pool, task.demand, q) ensures q == none {
    }
    if decode.Err? {
      return RoleFailure(DecodeFailed(decode.error));
    }
    var idle := ListIdle(pool, decode.value.plan, {});
    return RolesPlaced(RolePlan(decode.value, none, 0.0, idle));
  }
}

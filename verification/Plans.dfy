/**
Node profiles, the model to place, and the plan of one group of nodes
(internal/partitioner/solver.go:38-164 and 218-259). Floating point is `real`.
*/
module Plans {
  import opened Options
  import opened Seqs
  import opened Sums
  import opened Layers

  /** `msPerLayer` is measured, `bandwidthGBps` declared; a zero or negative one is not usable. */
  datatype NodeProfile = NodeProfile(id: string, capGB: real, msPerLayer: real, bandwidthGBps: real, absent: bool) {
    predicate HasSpeed() {
      msPerLayer > 0.0 || bandwidthGBps > 0.0
    }

    /** Per-token time of `layers` layers; 0 for a node with no speed source, which StageMS refuses. */
    function StageTime(layers: int, gbPerLayer: real): real {
      if msPerLayer > 0.0 then layers as real * msPerLayer
      else if bandwidthGBps > 0.0 then layers as real * gbPerLayer / bandwidthGBps * 1000.0
      else 0.0
    }
  }

  datatype ModelSpec = ModelSpec(nLayers: int, weightsGB: real, kvCacheGB: real, batchSlots: int, prefixCacheGB: real) {
    /** What NewModelSpec accepts. */
    predicate Valid() {
      nLayers >= 1 && batchSlots >= 1 && weightsGB > 0.0 && kvCacheGB >= 0.0 && prefixCacheGB >= 0.0
    }

    function KVTotalGB(): real {
      kvCacheGB * batchSlots as real + prefixCacheGB
    }

    function TotalGB(): real {
      weightsGB + KVTotalGB()
    }

    function GBPerLayerTotal(): real
      requires Valid()
    {
      (weightsGB + kvCacheGB) / nLayers as real
    }

    function GBPerLayerResident(): (gb: real)
      requires Valid()
      ensures gb > 0.0
      ensures gb * nLayers as real == TotalGB()
    {
      assert kvCacheGB * batchSlots as real >= 0.0;
      assert TotalGB() > 0.0;
      TotalGB() / nLayers as real
    }
  }

  /** What stays fixed through one call of a solver. */
  datatype Job = Job(model: ModelSpec, boundaryOverheadMS: real, networkTimeBudget: real)

  datatype Stage = Stage(nodeID: string, firstLayer: int, nLayers: int, memGB: real, stageMS: real)

  datatype Plan = Plan(stages: seq<Stage>, tokenMS: real, networkMS: real, networkFraction: real) {
    ghost function NodeIDs(): set<string> {
      set s | s in stages :: s.nodeID
    }
  }

  /** planForSubset: an error, no plan, or a plan. */
  datatype PlanOutcome = NoSpeed(id: string) | NoPlan | Planned(plan: Plan)

  /** Go's float-to-int conversion. */
  function Trunc(x: real): int {
    if x >= 0.0 then x.Floor else -((-x).Floor)
  }

  function CapLayers(node: NodeProfile, model: ModelSpec): int
    requires model.Valid()
  {
    Trunc(node.capGB / model.GBPerLayerResident())
  }

  function CapsOf(group: seq<NodeProfile>, model: ModelSpec): (caps: seq<int>)
    requires model.Valid()
    ensures |caps| == |group|
  {
    seq(|group|, i requires 0 <= i < |group| => CapLayers(group[i], model))
  }

  function SpeedsOf(group: seq<NodeProfile>, model: ModelSpec): (speeds: seq<real>)
    requires model.Valid()
    ensures |speeds| == |group|
  {
    seq(|group|, i requires 0 <= i < |group| => group[i].StageTime(1, model.GBPerLayerTotal()))
  }

  function TimesOf(group: seq<NodeProfile>, model: ModelSpec, counts: seq<int>): (times: seq<real>)
    requires model.Valid() && |counts| == |group|
    ensures |times| == |group|
  {
    seq(|group|, i requires 0 <= i < |group| => group[i].StageTime(counts[i], model.GBPerLayerTotal()))
  }

  /** Memory held by a stage of `layers` layers: weights plus all the resident KV, per layer. */
  function StageMem(model: ModelSpec, layers: int): real
    requires model.Valid()
  {
    layers as real * (model.weightsGB / model.nLayers as real + model.KVTotalGB() / model.nLayers as real)
  }

  /** The i-th stage starts where the layers of the previous ones end. */
  function StageAt(group: seq<NodeProfile>, model: ModelSpec, counts: seq<int>, i: nat): Stage
    requires model.Valid() && |counts| == |group| && i < |group|
  {
    Stage(group[i].id, Sum(counts[..i]), counts[i], StageMem(model, counts[i]),
          group[i].StageTime(counts[i], model.GBPerLayerTotal()))
  }

  function StagesOf(group: seq<NodeProfile>, model: ModelSpec, counts: seq<int>): (stages: seq<Stage>)
    requires model.Valid() && |counts| == |group|
    ensures |stages| == |group|
  {
    seq(|group|, i requires 0 <= i < |group| => StageAt(group, model, counts, i))
  }

  /** The plan that gives counts[i] consecutive layers to the i-th node of the group. */
  function PlanWith(group: seq<NodeProfile>, job: Job, counts: seq<int>): Plan
    requires job.model.Valid() && |counts| == |group|
  {
    var model := job.model;
    var stages := StagesOf(group, model, counts);
    var networkMS := (|group| - 1) as real * job.boundaryOverheadMS;
    var tokenMS := SumReal(TimesOf(group, model, counts)) + networkMS;
    Plan(stages, tokenMS, networkMS, if tokenMS > 0.0 then networkMS / tokenMS else 0.0)
  }

  predicate WithinBudget(plan: Plan, job: Job) {
    |plan.stages| > 1 ==> plan.networkFraction <= job.networkTimeBudget
  }

  /** The first node of the group with neither speed source, if any. */
  function FirstWithoutSpeed(group: seq<NodeProfile>): (r: Option<string>)
    ensures r.None? <==> forall n :: n in group ==> n.HasSpeed()
  {
    if group == [] then None
    else if !group[0].HasSpeed() then
      assert group[0] in group;
      Some(group[0].id)
    else
      assert forall n :: n in group <==> n == group[0] || n in group[1..];
      FirstWithoutSpeed(group[1..])
  }

  /**
  The outcome of one group. The capacity tests come before the speed test, and a group
  whose fastest split breaks the network budget is dropped even if a slower split would not.
  */
  ghost function PlanOf(group: seq<NodeProfile>, job: Job): PlanOutcome
    requires job.model.Valid()
  {
    var caps := CapsOf(group, job.model);
    if !Holdable(caps, job.model.nLayers) then NoPlan
    else if FirstWithoutSpeed(group).Some? then NoSpeed(FirstWithoutSpeed(group).value)
    else
      var plan := PlanWith(group, job, SplitOf(caps, SpeedsOf(group, job.model), job.model.nLayers).counts);
      if WithinBudget(plan, job) then Planned(plan) else NoPlan
  }

  // ---------------------------------------------------------------- time

  lemma StageTimeIsLinear(node: NodeProfile, layers: int, gb: real)
    ensures node.StageTime(layers, gb) == layers as real * node.StageTime(1, gb)
  {
    if node.msPerLayer <= 0.0 && node.bandwidthGBps > 0.0 {
      var bw := node.bandwidthGBps;
      assert layers as real * gb / bw == layers as real * (gb / bw);
    }
  }

  lemma {:induction false} TimesCost(group: seq<NodeProfile>, model: ModelSpec, counts: seq<int>)
    requires model.Valid() && |counts| == |group|
    ensures SumReal(TimesOf(group, model, counts)) == Cost(SpeedsOf(group, model), counts)
  {
    if group == [] {
    } else {
      var n := |group| - 1;
      TimesCost(group[..n], model, counts[..n]);
      assert TimesOf(group, model, counts)[..n] == TimesOf(group[..n], model, counts[..n]);
      assert SpeedsOf(group, model)[..n] == SpeedsOf(group[..n], model);
      StageTimeIsLinear(group[n], counts[n], model.GBPerLayerTotal());
    }
  }

  lemma StageTimePositive(node: NodeProfile, layers: int, model: ModelSpec)
    requires model.Valid() && node.HasSpeed() && layers >= 1
    ensures node.StageTime(layers, model.GBPerLayerTotal()) > 0.0
  {
    var gb := model.GBPerLayerTotal();
    assert gb > 0.0;
    if node.msPerLayer <= 0.0 {
      assert gb / node.bandwidthGBps > 0.0;
      StageTimeIsLinear(node, layers, gb);
      assert node.StageTime(1, gb) > 0.0;
    }
  }

  lemma {:induction false} SumRealPositive(s: seq<real>)
    requires s != []
    requires forall i :: 0 <= i < |s| ==> s[i] > 0.0
    ensures SumReal(s) > 0.0
  {
    if |s| > 1 {
      SumRealPositive(s[..|s| - 1]);
    }
  }

  // ---------------------------------------------------------------- what a plan guarantees

  /** No split of the group within the caps is faster than its plan. */
  lemma PlanIsFastest(group: seq<NodeProfile>, job: Job, d: seq<int>)
    requires job.model.Valid() && PlanOf(group, job).Planned?
    requires Feasible(CapsOf(group, job.model), job.model.nLayers, d)
    ensures PlanOf(group, job).plan.tokenMS <= PlanWith(group, job, d).tokenMS
  {
    var caps, speeds := CapsOf(group, job.model), SpeedsOf(group, job.model);
    var c := SplitOf(caps, speeds, job.model.nLayers).counts;
    GreedyIsOptimal(caps, speeds, job.model.nLayers, c, d);
    TimesCost(group, job.model, c);
    TimesCost(group, job.model, d);
  }

  /** Layers [0, nLayers) tiled in pipeline order. */
  ghost predicate Tiles(stages: seq<Stage>, nLayers: int) {
    && stages != [] && stages[0].firstLayer == 0
    && (forall i :: 0 <= i < |stages| ==> stages[i].nLayers >= 1)
    && (forall i :: 0 < i < |stages| ==> stages[i].firstLayer == stages[i - 1].firstLayer + stages[i - 1].nLayers)
    && stages[|stages| - 1].firstLayer + stages[|stages| - 1].nLayers == nLayers
  }

  lemma CapHoldsItsLayers(node: NodeProfile, model: ModelSpec, layers: int)
    requires model.Valid() && 1 <= layers <= CapLayers(node, model)
    ensures layers as real * model.GBPerLayerResident() <= node.capGB
  {
    var gb := model.GBPerLayerResident();
    var q := node.capGB / gb;
    assert q >= 0.0;
    assert layers as real <= q;
    assert q * gb == node.capGB;
    assert (q - layers as real) * gb >= 0.0;
  }

  lemma FirstLayers(counts: seq<int>, i: nat)
    requires 0 < i <= |counts|
    ensures Sum(counts[..i]) == Sum(counts[..i - 1]) + counts[i - 1]
  {
    OneMore(counts, i - 1);
  }

  lemma PlanWithTiles(group: seq<NodeProfile>, job: Job, counts: seq<int>)
    requires job.model.Valid() && |counts| == |group| > 0
    requires forall i :: 0 <= i < |counts| ==> counts[i] >= 1
    ensures Tiles(PlanWith(group, job, counts).stages, Sum(counts))
  {
    var n, stages := |group|, PlanWith(group, job, counts).stages;
    assert counts[..0] == [] && counts[..n] == counts;
    FirstLayers(counts, n);
    hide Sum, StageMem;
    forall i | 0 < i < n
      ensures stages[i].firstLayer == stages[i - 1].firstLayer + stages[i - 1].nLayers
    {
      FirstLayers(counts, i);
    }
    assert Sum([]) == 0 by { EmptySum(); }
  }

  lemma PlanWithFitsMemory(group: seq<NodeProfile>, job: Job, counts: seq<int>)
    requires job.model.Valid() && Feasible(CapsOf(group, job.model), job.model.nLayers, counts)
    ensures var plan := PlanWith(group, job, counts);
            forall i :: 0 <= i < |group| ==> plan.stages[i].memGB <= group[i].capGB
  {
    var model, plan := job.model, PlanWith(group, job, counts);
    assert model.weightsGB / model.nLayers as real + model.KVTotalGB() / model.nLayers as real ==
        model.GBPerLayerResident();
    forall i | 0 <= i < |group|
      ensures plan.stages[i].memGB <= group[i].capGB
    {
      CapHoldsItsLayers(group[i], model, counts[i]);
    }
  }

  lemma PlanWithTakesTime(group: seq<NodeProfile>, job: Job, counts: seq<int>)
    requires job.model.Valid() && job.boundaryOverheadMS >= 0.0 && |counts| == |group| > 0
    requires forall i :: 0 <= i < |counts| ==> counts[i] >= 1 && group[i].HasSpeed()
    ensures PlanWith(group, job, counts).tokenMS > 0.0
  {
    var times := TimesOf(group, job.model, counts);
    forall i | 0 <= i < |group| ensures times[i] > 0.0 {
      StageTimePositive(group[i], counts[i], job.model);
    }
    SumRealPositive(times);
    assert (|group| - 1) as real * job.boundaryOverheadMS >= 0.0;
  }

  /** What a plan promises about the group it was made for. */
  ghost predicate Sound(plan: Plan, group: seq<NodeProfile>, job: Job) {
    && |plan.stages| == |group| > 0
    && Tiles(plan.stages, job.model.nLayers)
    && (forall i :: 0 <= i < |group| ==> plan.stages[i].nodeID == group[i].id && plan.stages[i].memGB <= group[i].capGB)
    && WithinBudget(plan, job)
    && (job.boundaryOverheadMS >= 0.0 ==> plan.tokenMS > 0.0)
  }

  /** A plan tiles the model over exactly its group, inside every memory cap and the network budget. */
  lemma PlanIsSound(group: seq<NodeProfile>, job: Job)
    requires job.model.Valid() && PlanOf(group, job).Planned?
    ensures Sound(PlanOf(group, job).plan, group, job)
  {
    var counts := SplitOf(CapsOf(group, job.model), SpeedsOf(group, job.model), job.model.nLayers).counts;
    assert Sum([]) == 0;
    PlanWithTiles(group, job, counts);
    PlanWithFitsMemory(group, job, counts);
    forall i | 0 <= i < |group| ensures group[i].HasSpeed() {
      assert group[i] in group;
    }
    if job.boundaryOverheadMS >= 0.0 {
      PlanWithTakesTime(group, job, counts);
    }
  }

  // ---------------------------------------------------------------- in terms of the profiles

  /** A measured speed is used whatever bandwidth was declared. */
  lemma MeasuredSpeedWins(a: NodeProfile, b: NodeProfile, layers: int, gb: real)
    requires a.msPerLayer == b.msPerLayer > 0.0
    ensures a.StageTime(layers, gb) == b.StageTime(layers, gb) == layers as real * a.msPerLayer
  {
  }

  /** A declared bandwidth reads weights and one slot's KV per token, split over the layers. */
  lemma DeclaredSpeedReads(node: NodeProfile, layers: int, model: ModelSpec)
    requires model.Valid() && node.msPerLayer <= 0.0 && node.bandwidthGBps > 0.0
    ensures node.StageTime(layers, model.GBPerLayerTotal()) * node.bandwidthGBps * model.nLayers as real
            == layers as real * (model.weightsGB + model.kvCacheGB) * 1000.0
  {
    var gb, bw, n := model.GBPerLayerTotal(), node.bandwidthGBps, model.nLayers as real;
    var t := layers as real * gb / bw;
    assert t * bw == layers as real * gb;
    assert gb * n == model.weightsGB + model.kvCacheGB;
    assert t * 1000.0 * bw * n == (t * bw) * n * 1000.0;
    assert (layers as real * gb) * n == layers as real * (gb * n);
  }

  /** What the model keeps resident: the weights, the KV of every slot and the cached prefixes. */
  function FootprintGB(model: ModelSpec): real {
    model.weightsGB + model.kvCacheGB * model.batchSlots as real + model.prefixCacheGB
  }

  lemma ResidentIsFootprint(model: ModelSpec)
    requires model.Valid()
    ensures model.TotalGB() == FootprintGB(model) > 0.0
    ensures model.GBPerLayerResident() * model.nLayers as real
            == model.weightsGB + model.kvCacheGB * model.batchSlots as real + model.prefixCacheGB
  {
    assert model.kvCacheGB * model.batchSlots as real >= 0.0;
  }

  /** A node's cap is the largest number of layers whose share of the footprint fits its memory. */
  lemma CapIsLargest(node: NodeProfile, model: ModelSpec, k: int)
    requires model.Valid() && k >= 1
    ensures k <= CapLayers(node, model) <==> k as real * FootprintGB(model) <= node.capGB * model.nLayers as real
  {
    ResidentIsFootprint(model);
    var gb, n := model.GBPerLayerResident(), model.nLayers as real;
    var q := node.capGB / gb;
    assert q * gb == node.capGB;
    assert k <= CapLayers(node, model) <==> k as real <= q;
    assert k as real * FootprintGB(model) == k as real * gb * n;
    assert node.capGB * n == q * gb * n;
    assert gb * n > 0.0;
    if k as real <= q {
      assert (q - k as real) * (gb * n) >= 0.0;
    } else {
      assert (k as real - q) * (gb * n) > 0.0;
    }
  }

  /** The stages of a plan, field by field. */
  lemma StagesMean(group: seq<NodeProfile>, job: Job, counts: seq<int>, i: nat)
    requires job.model.Valid() && |counts| == |group| && i < |group|
    ensures var model, s := job.model, PlanWith(group, job, counts).stages[i];
            && s.nodeID == group[i].id && s.nLayers == counts[i] && s.firstLayer == Sum(counts[..i])
            && s.memGB * model.nLayers as real == counts[i] as real * FootprintGB(model)
            && s.stageMS == group[i].StageTime(counts[i], model.GBPerLayerTotal())
  {
    var model := job.model;
    var w, kv, n, c := model.weightsGB, model.KVTotalGB(), model.nLayers as real, counts[i] as real;
    assert w / n * n == w && kv / n * n == kv;
    assert c * (w / n + kv / n) * n == c * (w / n * n + kv / n * n);
  }

  /** The time of a plan: all stages, and one boundary between each two. */
  lemma PlanTimeMeans(group: seq<NodeProfile>, job: Job, counts: seq<int>)
    requires job.model.Valid() && |counts| == |group|
    ensures var p := PlanWith(group, job, counts);
            && p.networkMS == (|group| - 1) as real * job.boundaryOverheadMS
            && p.tokenMS == p.networkMS
                            + SumReal(seq(|p.stages|, i requires 0 <= i < |p.stages| => p.stages[i].stageMS))
            && (p.tokenMS > 0.0 ==> p.networkFraction * p.tokenMS == p.networkMS)
  {
    var p := PlanWith(group, job, counts);
    assert seq(|p.stages|, i requires 0 <= i < |p.stages| => p.stages[i].stageMS) == TimesOf(group, job.model, counts);
  }

  // ---------------------------------------------------------------- the capacity pre-check

  function TotalCap(nodes: seq<NodeProfile>): real {
    if nodes == [] then 0.0 else TotalCap(nodes[..|nodes| - 1]) + nodes[|nodes| - 1].capGB
  }

  lemma {:induction false} CapsCoverCounts(group: seq<NodeProfile>, model: ModelSpec, counts: seq<int>)
    requires model.Valid() && |counts| == |group|
    requires forall i :: 0 <= i < |group| ==> 1 <= counts[i] <= CapLayers(group[i], model)
    ensures Sum(counts) as real * model.GBPerLayerResident() <= TotalCap(group)
  {
    if group == [] {
    } else {
      var n := |group| - 1;
      CapsCoverCounts(group[..n], model, counts[..n]);
      CapHoldsItsLayers(group[n], model, counts[n]);
      var gb := model.GBPerLayerResident();
      assert (Sum(counts[..n]) + counts[n]) as real * gb == Sum(counts[..n]) as real * gb + counts[n] as real * gb;
    }
  }

  /** A group that can hold the model has the raw capacity `fits` asks for. */
  lemma HoldableFits(group: seq<NodeProfile>, model: ModelSpec)
    requires model.Valid() && Holdable(CapsOf(group, model), model.nLayers)
    ensures TotalCap(group) >= model.TotalGB()
  {
    var counts := SplitOf(CapsOf(group, model), SpeedsOf(group, model), model.nLayers).counts;
    CapsCoverCounts(group, model, counts);
  }

  // ---------------------------------------------------------------- the loops

  method Fits(nodes: seq<NodeProfile>, model: ModelSpec) returns (ok: bool)
    ensures ok <==> TotalCap(nodes) >= model.TotalGB()
    ensures ok <==>
            TotalCap(nodes) >= model.weightsGB + model.kvCacheGB * model.batchSlots as real + model.prefixCacheGB
  {
    var sum := 0.0;
    for i := 0 to |nodes|
      invariant sum == TotalCap(nodes[..i])
    {
      sum := sum + nodes[i].capGB;
      assert nodes[..i + 1][..i] == nodes[..i];
    }
    assert nodes[..|nodes|] == nodes;
    ok := sum >= model.TotalGB();
  }

  /** StageMS: fail-closed when the node has no speed source. */
  method StageMS(node: NodeProfile, layers: int, gbPerLayer: real) returns (ms: Option<real>)
    ensures ms.Some? <==> node.HasSpeed()
    ensures ms.Some? ==> ms.value == node.StageTime(layers, gbPerLayer)
    ensures node.msPerLayer > 0.0 ==> ms == Some(layers as real * node.msPerLayer)
    ensures node.msPerLayer <= 0.0 && node.bandwidthGBps > 0.0 ==>
              ms == Some(layers as real * gbPerLayer / node.bandwidthGBps * 1000.0)
    ensures node.msPerLayer <= 0.0 && node.bandwidthGBps <= 0.0 ==> ms == None
  {
    if node.msPerLayer > 0.0 {
      var time := layers as real * node.msPerLayer;
      return Some(time);
    }
    if node.bandwidthGBps > 0.0 {
      var time := layers as real * gbPerLayer / node.bandwidthGBps * 1000.0;
      return Some(time);
    }
    return None;
  }

  datatype Assignment = Refused(id: string) | Assigned(split: Split)

  /** The first loop of assignLayers; None when some node cannot hold a layer. */
  method CollectCaps(group: seq<NodeProfile>, model: ModelSpec) returns (caps: Option<seq<int>>, total: int)
    requires model.Valid()
    ensures caps.None? <==> exists i :: 0 <= i < |group| && CapsOf(group, model)[i] < 1
    ensures caps.Some? ==> caps.value == CapsOf(group, model) && total == Sum(caps.value)
  {
    var gbLayer := model.GBPerLayerResident();
    ghost var want := CapsOf(group, model);
    var all: seq<int> := [];
    total := 0;
    for i := 0 to |group|
      invariant all == want[..i] && total == Sum(all)
      invariant forall j :: 0 <= j < i ==> want[j] >= 1
    {
      var cap := Trunc(group[i].capGB / gbLayer);
      assert want[i] == cap;
      if cap < 1 {
        return None, 0;
      }
      OneMore(want, i);
      assert (all + [cap])[..i] == all;
      all := all + [cap];
      total := total + cap;
    }
    assert want[..|group|] == want;
    return Some(all), total;
  }

  /** The second loop; an error at the first node without a speed. */
  method CollectSpeeds(group: seq<NodeProfile>, model: ModelSpec) returns (speeds: seq<real>, missing: Option<string>)
    requires model.Valid()
    ensures missing == FirstWithoutSpeed(group)
    ensures missing.None? ==> speeds == SpeedsOf(group, model)
  {
    speeds := [];
    ghost var all := SpeedsOf(group, model);
    for i := 0 to |group|
      invariant speeds == all[..i]
      invariant FirstWithoutSpeed(group) == FirstWithoutSpeed(group[i..])
    {
      var ms := StageMS(group[i], 1, model.GBPerLayerTotal());
      assert group[i..][1..] == group[i + 1..];
      if ms.None? {
        return speeds, Some(group[i].id);
      }
      OneMore(all, i);
      speeds := speeds + [ms.value];
    }
    assert all[..|group|] == all;
    return speeds, None;
  }

  method AssignLayers(group: seq<NodeProfile>, model: ModelSpec) returns (r: Assignment)
    requires model.Valid()
    ensures !Holdable(CapsOf(group, model), model.nLayers) ==> r == Assigned(NoSplit)
    ensures Holdable(CapsOf(group, model), model.nLayers) ==>
              r == if FirstWithoutSpeed(group).Some? then Refused(FirstWithoutSpeed(group).value)
                   else Assigned(SplitOf(CapsOf(group, model), SpeedsOf(group, model), model.nLayers))
  {
    hide FirstWithoutSpeed, SplitOf;
    var caps, total := CollectCaps(group, model);
    if caps.None? || total < model.nLayers || model.nLayers < |group| {
      return Assigned(NoSplit);
    }
    var speeds, missing := CollectSpeeds(group, model);
    if missing.Some? {
      return Refused(missing.value);
    }
    var split := FillFastestFirst(caps.value, speeds, model.nLayers);
    return Assigned(split);
  }

  /** The stage loop of planForSubset and the sum of its times. */
  method BuildStages(group: seq<NodeProfile>, model: ModelSpec, counts: seq<int>)
      returns (stages: seq<Stage>, computeMS: real)
    requires model.Valid() && |counts| == |group|
    requires forall n :: n in group ==> n.HasSpeed()
    ensures stages == StagesOf(group, model, counts)
    ensures computeMS == SumReal(TimesOf(group, model, counts))
  {
    ghost var want, times := StagesOf(group, model, counts), TimesOf(group, model, counts);
    var gbPerLayer := model.GBPerLayerTotal();
    stages := [];
    var first := 0;
    computeMS := 0.0;
    for i := 0 to |group|
      invariant stages == want[..i]
      invariant first == Sum(counts[..i])
      invariant computeMS == SumReal(times[..i])
    {
      assert group[i] in group;
      var ms := StageMS(group[i], counts[i], gbPerLayer);
      var stage := Stage(group[i].id, first, counts[i], StageMem(model, counts[i]), ms.value);
      assert want[..i + 1] == want[..i] + [want[i]] && want[i] == StageAt(group, model, counts, i);
      stages := stages + [stage];
      assert counts[..i + 1][..i] == counts[..i];
      assert times[..i + 1][..i] == times[..i];
      first := first + counts[i];
      computeMS := computeMS + ms.value;
    }
    assert times[..|group|] == times;
  }

  /** planForSubset once the layers are assigned. */
  method BuildPlan(group: seq<NodeProfile>, job: Job, counts: seq<int>) returns (plan: Plan)
    requires job.model.Valid() && |counts| == |group|
    requires forall n :: n in group ==> n.HasSpeed()
    ensures plan == PlanWith(group, job, counts)
  {
    var stages, computeMS := BuildStages(group, job.model, counts);
    var networkMS := (|group| - 1) as real * job.boundaryOverheadMS;
    var tokenMS := computeMS + networkMS;
    var fraction := 0.0;
    if tokenMS > 0.0 {
      fraction := networkMS / tokenMS;
    }
    plan := Plan(stages, tokenMS, networkMS, fraction);
  }

  method PlanForSubset(group: seq<NodeProfile>, job: Job) returns (r: PlanOutcome)
    requires job.model.Valid()
    ensures r == PlanOf(group, job)
  {
    var a := AssignLayers(group, job.model);
    if a.Refused? {
      return NoSpeed(a.id);
    }
    if a.split.NoSplit? {
      return NoPlan;
    }
    var plan := BuildPlan(group, job, a.split.counts);
    if |group| > 1 && plan.networkFraction > job.networkTimeBudget {
      return NoPlan;
    }
    return Planned(plan);
  }
}

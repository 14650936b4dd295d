/**
The replica search as a problem over sets of ids: pack disjoint groups, each with a plan,
so that the summed speed is largest (internal/partitioner/solver.go:456-528).

`planner` gives the plan of a group, if it has one, and `eps` is the tolerance of the
comparison (1e-9 in the program). Nothing here depends on how plans are found.
*/
module Packing {
  import opened Options
  import opened Sets
  import opened Plans
  import opened IdSets

  type Planner = set<string> -> Option<Plan>

  /** Tokens per second. Every plan takes time, so the second branch is never used by the search. */
  function Rate(plan: Plan): real {
    if plan.tokenMS > 0.0 then 1000.0 / plan.tokenMS else 0.0
  }

  lemma RateMeans(plan: Plan)
    requires plan.tokenMS > 0.0
    ensures Rate(plan) == 1000.0 / plan.tokenMS
  {
  }

  datatype Deal = Deal(agg: real, plans: seq<Plan>)

  /** Higher aggregate wins; within the tolerance, fewer replicas do. */
  predicate Replaces(cand: Deal, best: Deal, eps: real) {
    || cand.agg > best.agg + eps
    || (-eps <= cand.agg - best.agg <= eps && |cand.plans| < |best.plans|)
  }

  function Extend(plan: Plan, sub: Deal): Deal {
    Deal(Rate(plan) + sub.agg, [plan] + sub.plans)
  }

  /** The group made of the smallest id and the ids a mask selects from the rest. */
  ghost function GroupOf(ids: set<string>, mask: nat): (group: set<string>)
    requires ids != {}
  {
    {Least(ids)} + Select(mask, Listing(ids - {Least(ids)}))
  }

  lemma GroupWithin(ids: set<string>, mask: nat)
    requires ids != {}
    ensures Least(ids) in GroupOf(ids, mask) && GroupOf(ids, mask) <= ids
    ensures |ids - GroupOf(ids, mask)| < |ids|
  {
    var rest := ids - {Least(ids)};
    SelectWithin(mask, Listing(rest));
    ListingElements(rest);
    SubsetSize(ids - GroupOf(ids, mask), rest);
  }

  /** bestAssignment: the smallest id stays idle, or serves with some subset of the rest. */
  ghost function BestDeal(ids: set<string>, planner: Planner, eps: real): Deal
    decreases |ids|, 1, 0
  {
    if ids == {} then Deal(0.0, [])
    else ScanMasks(ids, planner, eps, Pow2(|ids| - 1))
  }

  /** The best after the first `masks` masks. */
  ghost function ScanMasks(ids: set<string>, planner: Planner, eps: real, masks: nat): Deal
    requires ids != {}
    decreases |ids|, 0, masks
  {
    if masks == 0 then BestDeal(ids - {Least(ids)}, planner, eps)
    else
      var best := ScanMasks(ids, planner, eps, masks - 1);
      var group := GroupOf(ids, masks - 1);
      GroupWithin(ids, masks - 1);
      if planner(group).None? then best
      else
        var cand := Extend(planner(group).value, BestDeal(ids - group, planner, eps));
        if Replaces(cand, best, eps) then cand else best
  }

  /** One turn of the mask loop. */
  lemma ScanNext(ids: set<string>, planner: Planner, eps: real, mask: nat, best: Deal, plan: Option<Plan>, sub: Deal)
    requires ids != {} && best == ScanMasks(ids, planner, eps, mask) && plan == planner(GroupOf(ids, mask))
    requires plan.Some? ==> sub == BestDeal(ids - GroupOf(ids, mask), planner, eps)
    ensures ScanMasks(ids, planner, eps, mask + 1) ==
              if plan.Some? && Replaces(Extend(plan.value, sub), best, eps) then Extend(plan.value, sub) else best
  {
    hide GroupOf, BestDeal;
  }

  lemma ScanEnds(ids: set<string>, planner: Planner, eps: real)
    requires ids != {}
    ensures ScanMasks(ids, planner, eps, 0) == BestDeal(ids - {Least(ids)}, planner, eps)
    ensures ScanMasks(ids, planner, eps, Pow2(|ids| - 1)) == BestDeal(ids, planner, eps)
  {
  }

  // ---------------------------------------------------------------- families of groups

  /** Pairwise disjoint groups of the pool, each of them with a plan. */
  ghost predicate Family(groups: seq<set<string>>, ids: set<string>, planner: Planner) {
    && (forall i :: 0 <= i < |groups| ==> groups[i] != {} && groups[i] <= ids && planner(groups[i]).Some?)
    && (forall i, j :: 0 <= i < j < |groups| ==> groups[i] !! groups[j])
  }

  function RateOf(group: set<string>, planner: Planner): real {
    if planner(group).Some? then Rate(planner(group).value) else 0.0
  }

  function Total(groups: seq<set<string>>, planner: Planner): real {
    if groups == [] then 0.0 else RateOf(groups[0], planner) + Total(groups[1..], planner)
  }

  function Drop(groups: seq<set<string>>, i: nat): seq<set<string>>
    requires i < |groups|
  {
    groups[..i] + groups[i + 1..]
  }

  lemma {:induction false} TotalDrop(groups: seq<set<string>>, i: nat, planner: Planner)
    requires i < |groups|
    ensures Total(groups, planner) == RateOf(groups[i], planner) + Total(Drop(groups, i), planner)
  {
    if i == 0 {
      assert Drop(groups, 0) == groups[1..];
    } else {
      TotalDrop(groups[1..], i - 1, planner);
      assert Drop(groups, i)[0] == groups[0];
      assert Drop(groups, i)[1..] == Drop(groups[1..], i - 1);
    }
  }

  lemma FamilyDrop(groups: seq<set<string>>, i: nat, ids: set<string>, planner: Planner)
    requires i < |groups| && Family(groups, ids, planner)
    ensures Family(Drop(groups, i), ids - groups[i], planner)
  {
    var rest := Drop(groups, i);
    forall j | 0 <= j < |rest| ensures rest[j] !! groups[i] {
      assert rest[j] == groups[if j < i then j else j + 1];
    }
  }

  // ---------------------------------------------------------------- the masks miss nothing

  /** Every group holding the smallest id is tried. */
  lemma MaskOf(ids: set<string>, group: set<string>) returns (mask: nat)
    requires ids != {} && Least(ids) in group && group <= ids
    ensures mask < Pow2(|ids| - 1) && GroupOf(ids, mask) == group
  {
    hide Listing, Select, IsLeast;
    var rest := ids - {Least(ids)};
    ListingElements(rest);
    mask := SelectCovers(Listing(rest), group);
    forall x ensures x in group * (set y | y in Listing(rest)) <==> x in group && x != Least(ids) {
      assert x in Listing(rest) <==> x in rest;
    }
  }

  /** What trying one mask offers. */
  ghost function Offer(ids: set<string>, planner: Planner, eps: real, mask: nat): Deal
    requires ids != {} && planner(GroupOf(ids, mask)).Some?
  {
    Extend(planner(GroupOf(ids, mask)).value, BestDeal(ids - GroupOf(ids, mask), planner, eps))
  }

  /** One tolerance per mask. */
  function Loss(eps: real, masks: nat): real {
    if masks == 0 then 0.0 else Loss(eps, masks - 1) + eps
  }

  lemma {:induction false} LossIsProduct(eps: real, masks: nat)
    requires eps >= 0.0
    ensures Loss(eps, masks) == eps * masks as real >= 0.0
  {
    if masks > 0 {
      LossIsProduct(eps, masks - 1);
      assert eps * masks as real == eps * (masks - 1) as real + eps;
    }
  }

  /** A scan loses at most the tolerance per mask, whatever it replaced on the way. */
  lemma {:induction false} ScanLoses(ids: set<string>, planner: Planner, eps: real, masks: nat)
    requires ids != {} && eps >= 0.0
    ensures ScanMasks(ids, planner, eps, masks).agg >= BestDeal(ids - {Least(ids)}, planner, eps).agg - Loss(eps, masks)
    ensures forall m: nat :: m < masks && planner(GroupOf(ids, m)).Some? ==>
                          Offer(ids, planner, eps, m).agg <= ScanMasks(ids, planner, eps, masks).agg + Loss(eps, masks)
    decreases masks
  {
    hide GroupOf, BestDeal;
    if masks > 0 {
      ScanLoses(ids, planner, eps, masks - 1);
      LossIsProduct(eps, masks - 1);
      var before, after := ScanMasks(ids, planner, eps, masks - 1), ScanMasks(ids, planner, eps, masks);
      assert after.agg >= before.agg - eps;
      assert planner(GroupOf(ids, masks - 1)).Some? ==> after.agg >= Offer(ids, planner, eps, masks - 1).agg - eps;
    }
  }

  /** With no tolerance a scan keeps the best offer, and the smallest among equals. */
  ghost predicate AtLeast(a: Deal, agg: real, replicas: int) {
    a.agg > agg || (a.agg == agg && |a.plans| <= replicas)
  }

  lemma {:induction false} ScanIsExact(ids: set<string>, planner: Planner, masks: nat)
    requires ids != {}
    ensures var s := ScanMasks(ids, planner, 0.0, masks);
            var idle := BestDeal(ids - {Least(ids)}, planner, 0.0);
            AtLeast(s, idle.agg, |idle.plans|)
    ensures forall m: nat :: m < masks && planner(GroupOf(ids, m)).Some? ==>
                               var o := Offer(ids, planner, 0.0, m);
                               AtLeast(ScanMasks(ids, planner, 0.0, masks), o.agg, |o.plans|)
    decreases masks
  {
    hide GroupOf, BestDeal;
    if masks > 0 {
      ScanIsExact(ids, planner, masks - 1);
      var before, after := ScanMasks(ids, planner, 0.0, masks - 1), ScanMasks(ids, planner, 0.0, masks);
      assert AtLeast(after, before.agg, |before.plans|);
      if planner(GroupOf(ids, masks - 1)).Some? {
        var o := Offer(ids, planner, 0.0, masks - 1);
        assert AtLeast(after, o.agg, |o.plans|);
      }
    }
  }

  // ---------------------------------------------------------------- near-optimality

  /** The loss allowed for n ids: one tolerance for each mask tried on the way down. */
  function Slack(eps: real, n: nat): real {
    if n == 0 then 0.0 else Slack(eps, n - 1) + Loss(eps, Pow2(n - 1))
  }

  lemma {:induction false} SlackGrows(eps: real, m: nat, n: nat)
    requires eps >= 0.0 && m <= n
    ensures 0.0 <= Slack(eps, m) <= Slack(eps, n)
    decreases n
  {
    if m < n {
      SlackGrows(eps, m, n - 1);
      LossIsProduct(eps, Pow2(n - 1));
    } else if n > 0 {
      SlackGrows(eps, n - 1, n - 1);
      LossIsProduct(eps, Pow2(n - 1));
    }
  }

  /** In closed form: eps * (2^n - 1). */
  lemma {:induction false} SlackIsGeometric(eps: real, n: nat)
    requires eps >= 0.0
    ensures Slack(eps, n) == eps * (Pow2(n) - 1) as real
  {
    if n > 0 {
      SlackIsGeometric(eps, n - 1);
      LossIsProduct(eps, Pow2(n - 1));
      var half := Pow2(n - 1) as real;
      assert eps * (half - 1.0) + eps * half == eps * (2.0 * half - 1.0);
    }
  }

  /**
  The aggregate found is within eps * (2^n - 1) of every family of disjoint groups of the n ids.
  */
  lemma NearlyOptimal(ids: set<string>, planner: Planner, eps: real, groups: seq<set<string>>)
    requires eps >= 0.0 && Family(groups, ids, planner)
    ensures Total(groups, planner) <= BestDeal(ids, planner, eps).agg + eps * (Pow2(|ids|) - 1) as real
  {
    WithinSlack(ids, planner, eps, groups);
    SlackIsGeometric(eps, |ids|);
  }

  lemma {:induction false} WithinSlack(ids: set<string>, planner: Planner, eps: real, groups: seq<set<string>>)
    requires eps >= 0.0 && Family(groups, ids, planner)
    ensures Total(groups, planner) <= BestDeal(ids, planner, eps).agg + Slack(eps, |ids|)
    decreases |ids|
  {
    hide GroupOf, ScanMasks, Loss;
    if ids == {} {
      FamilyNeedsIds(groups, ids, planner);
      SlackGrows(eps, 0, 0);
    } else {
      var n := |ids|;
      var first := Least(ids);
      SlackGrows(eps, n - 1, n);
      ScanLoses(ids, planner, eps, Pow2(n - 1));
      if i :| 0 <= i < |groups| && first in groups[i] {
        var group, rest := groups[i], ids - groups[i];
        FamilyDrop(groups, i, ids, planner);
        TotalDrop(groups, i, planner);
        SubsetSize(rest, ids - {first});
        WithinSlack(rest, planner, eps, Drop(groups, i));
        SlackGrows(eps, |rest|, n - 1);
        var mask := MaskOf(ids, group);
        assert Offer(ids, planner, eps, mask).agg == RateOf(group, planner) + BestDeal(rest, planner, eps).agg;
      } else {
        assert Family(groups, ids - {first}, planner);
        WithinSlack(ids - {first}, planner, eps, groups);
      }
    }
  }

  lemma FamilyNeedsIds(groups: seq<set<string>>, ids: set<string>, planner: Planner)
    requires Family(groups, ids, planner)
    ensures groups == [] || ids != {}
  {
    if groups != [] {
      var x :| x in groups[0];
      assert x in ids;
    }
  }

  /** With no tolerance the answer is exactly optimal, with the fewest replicas among the best. */
  lemma {:induction false} ExactlyOptimal(ids: set<string>, planner: Planner, groups: seq<set<string>>)
    requires Family(groups, ids, planner)
    ensures AtLeast(BestDeal(ids, planner, 0.0), Total(groups, planner), |groups|)
    decreases |ids|
  {
    hide GroupOf, ScanMasks;
    if ids == {} {
      FamilyNeedsIds(groups, ids, planner);
    } else {
      var first := Least(ids);
      if i :| 0 <= i < |groups| && first in groups[i] {
        var rest := ids - groups[i];
        FamilyDrop(groups, i, ids, planner);
        SubsetSize(rest, ids - {first});
        ExactlyOptimal(rest, planner, Drop(groups, i));
        OfferIsExact(ids, planner, groups, i);
      } else {
        assert Family(groups, ids - {first}, planner);
        ExactlyOptimal(ids - {first}, planner, groups);
        IdleIsExact(ids, planner, Total(groups, planner), |groups|);
      }
    }
  }

  /** The best deal is no worse than serving group i and the best deal of the rest. */
  lemma OfferIsExact(ids: set<string>, planner: Planner, groups: seq<set<string>>, i: nat)
    requires ids != {} && Family(groups, ids, planner) && i < |groups| && Least(ids) in groups[i]
    requires AtLeast(BestDeal(ids - groups[i], planner, 0.0), Total(Drop(groups, i), planner), |groups| - 1)
    ensures AtLeast(BestDeal(ids, planner, 0.0), Total(groups, planner), |groups|)
  {
    hide GroupOf, ScanMasks, BestDeal, Family, Total;
    var mask := OfferMask(ids, planner, groups, i);
    TotalDrop(groups, i, planner);
    ScanEnds(ids, planner, 0.0);
    ScanIsExact(ids, planner, Pow2(|ids| - 1));
    var o := Offer(ids, planner, 0.0, mask);
    assert AtLeast(o, Total(groups, planner), |groups|);
  }

  lemma OfferMask(ids: set<string>, planner: Planner, groups: seq<set<string>>, i: nat) returns (mask: nat)
    requires ids != {} && Family(groups, ids, planner) && i < |groups| && Least(ids) in groups[i]
    ensures mask < Pow2(|ids| - 1) && GroupOf(ids, mask) == groups[i] && planner(groups[i]).Some?
  {
    mask := MaskOf(ids, groups[i]);
  }

  lemma IdleIsExact(ids: set<string>, planner: Planner, agg: real, replicas: int)
    requires ids != {} && AtLeast(BestDeal(ids - {Least(ids)}, planner, 0.0), agg, replicas)
    ensures AtLeast(BestDeal(ids, planner, 0.0), agg, replicas)
  {
    hide GroupOf, ScanMasks, BestDeal;
    ScanEnds(ids, planner, 0.0);
    ScanIsExact(ids, planner, Pow2(|ids| - 1));
  }

  // ---------------------------------------------------------------- the answer is itself a family

  /** The groups behind a deal: one per plan, disjoint, with exactly the promised aggregate. */
  ghost predicate Backs(groups: seq<set<string>>, ids: set<string>, planner: Planner, deal: Deal) {
    && Family(groups, ids, planner)
    && |groups| == |deal.plans|
    && (forall i :: 0 <= i < |groups| ==> planner(groups[i]) == Some(deal.plans[i]))
    && Total(groups, planner) == deal.agg
  }

  lemma BacksWider(groups: seq<set<string>>, narrow: set<string>, ids: set<string>, planner: Planner, deal: Deal)
    requires Backs(groups, narrow, planner, deal) && narrow <= ids
    ensures Backs(groups, ids, planner, deal)
  {
  }

  lemma BacksExtend(groups: seq<set<string>>, ids: set<string>, group: set<string>, planner: Planner, sub: Deal)
    requires group != {} && group <= ids && planner(group).Some? && Backs(groups, ids - group, planner, sub)
    ensures Backs([group] + groups, ids, planner, Extend(planner(group).value, sub))
  {
    var all := [group] + groups;
    assert all[1..] == groups;
    forall i, j | 0 <= i < j < |all| ensures all[i] !! all[j] {
      if i == 0 {
        assert all[j] == groups[j - 1];
      }
    }
  }

  lemma {:induction false} DealIsFamily(ids: set<string>, planner: Planner, eps: real)
      returns (groups: seq<set<string>>)
    ensures Backs(groups, ids, planner, BestDeal(ids, planner, eps))
    decreases |ids|, 1, 0
  {
    hide Backs;
    if ids == {} {
      groups := [];
      assert Backs([], {}, planner, Deal(0.0, [])) by { BacksNothing(planner); }
    } else {
      groups := ScanIsFamily(ids, planner, eps, Pow2(|ids| - 1));
    }
  }

  lemma BacksNothing(planner: Planner)
    ensures Backs([], {}, planner, Deal(0.0, []))
  {
  }

  lemma {:induction false} ScanIsFamily(ids: set<string>, planner: Planner, eps: real, masks: nat)
      returns (groups: seq<set<string>>)
    requires ids != {}
    ensures Backs(groups, ids, planner, ScanMasks(ids, planner, eps, masks))
    decreases |ids|, 0, masks
  {
    hide Backs, GroupOf, BestDeal;
    if masks == 0 {
      groups := DealIsFamily(ids - {Least(ids)}, planner, eps);
      BacksWider(groups, ids - {Least(ids)}, ids, planner, BestDeal(ids - {Least(ids)}, planner, eps));
    } else {
      groups := ScanIsFamily(ids, planner, eps, masks - 1);
      var group := GroupOf(ids, masks - 1);
      GroupWithin(ids, masks - 1);
      if planner(group).Some? {
        var sub := BestDeal(ids - group, planner, eps);
        if Replaces(Extend(planner(group).value, sub), ScanMasks(ids, planner, eps, masks - 1), eps) {
          var others := DealIsFamily(ids - group, planner, eps);
          BacksExtend(others, ids, group, planner, sub);
          groups := [group] + others;
        }
      }
    }
  }

  // ---------------------------------------------------------------- when anything is placed at all

  ghost predicate Worthwhile(group: set<string>, ids: set<string>, planner: Planner, eps: real) {
    group != {} && group <= ids && planner(group).Some? && Rate(planner(group).value) > eps
  }

  lemma {:induction false} DealShape(ids: set<string>, planner: Planner, eps: real)
    ensures var d := BestDeal(ids, planner, eps);
            d.agg >= 0.0 && (d.plans == [] ==> d.agg == 0.0)
  {
    var groups := DealIsFamily(ids, planner, eps);
    TotalNonNegative(groups, planner);
  }

  lemma {:induction false} TotalNonNegative(groups: seq<set<string>>, planner: Planner)
    ensures Total(groups, planner) >= 0.0
  {
    if groups != [] {
      TotalNonNegative(groups[1..], planner);
    }
  }

  /** Something is placed exactly when some group runs faster than the tolerance. */
  lemma {:induction false} PlacesWhenWorthwhile(ids: set<string>, planner: Planner, eps: real)
    requires eps >= 0.0
    ensures BestDeal(ids, planner, eps).plans != [] <==> exists g :: Worthwhile(g, ids, planner, eps)
    decreases |ids|, 1, 0
  {
    hide GroupOf, ScanMasks;
    if ids == {} {
      assert forall g :: !Worthwhile(g, ids, planner, eps);
    } else {
      var first, masks := Least(ids), Pow2(|ids| - 1);
      var rest := ids - {first};
      ScanPlaces(ids, planner, eps, masks);
      PlacesWhenWorthwhile(rest, planner, eps);
      if g :| Worthwhile(g, ids, planner, eps) {
        if first in g {
          var mask := MaskOf(ids, g);
          assert GroupOf(ids, mask) == g;
        } else {
          assert Worthwhile(g, rest, planner, eps);
        }
      }
      if g :| Worthwhile(g, rest, planner, eps) {
        assert Worthwhile(g, ids, planner, eps);
      }
    }
  }

  /** The scan has placed something once the idle option or one of the masks was worth it. */
  lemma {:induction false} ScanPlaces(ids: set<string>, planner: Planner, eps: real, masks: nat)
    requires ids != {} && eps >= 0.0
    ensures var s := ScanMasks(ids, planner, eps, masks);
            && (s.plans == [] ==> s.agg == 0.0)
            && (BestDeal(ids - {Least(ids)}, planner, eps).plans != [] ==> s.plans != [])
            && (forall m: nat :: m < masks && Worthwhile(GroupOf(ids, m), ids, planner, eps) ==> s.plans != [])
            && (s.plans != [] ==> (exists g :: Worthwhile(g, ids, planner, eps)))
    decreases |ids|, 0, masks
  {
    hide GroupOf, BestDeal;
    var rest := ids - {Least(ids)};
    if masks == 0 {
      DealShape(rest, planner, eps);
      PlacesWhenWorthwhile(rest, planner, eps);
      if g :| Worthwhile(g, rest, planner, eps) {
        assert Worthwhile(g, ids, planner, eps);
      }
    } else {
      ScanPlaces(ids, planner, eps, masks - 1);
      var group := GroupOf(ids, masks - 1);
      GroupWithin(ids, masks - 1);
      if planner(group).Some? {
        var sub := BestDeal(ids - group, planner, eps);
        DealShape(ids - group, planner, eps);
        PlacesWhenWorthwhile(ids - group, planner, eps);
        if g :| Worthwhile(g, ids - group, planner, eps) {
          assert Worthwhile(g, ids, planner, eps);
        }
        assert Rate(planner(group).value) > eps ==> Worthwhile(group, ids, planner, eps);
      }
    }
  }
}

/**
The layer split of one group of nodes (internal/partitioner/solver.go:166-216).

`caps[i]` is how many layers node i can hold and `speeds[i]` what one layer costs
there per token. A split is judged by the total per-token time only, so nothing in
this module mentions memory or node profiles.
*/
module Layers {
  import opened Sums

  /** A split the caller may accept: at least one layer each, caps respected, all layers placed. */
  ghost predicate Feasible(caps: seq<int>, layers: int, counts: seq<int>) {
    && |counts| == |caps|
    && (forall i :: 0 <= i < |caps| ==> 1 <= counts[i] <= caps[i])
    && Sum(counts) == layers
  }

  /** Stable order by speed: i is served before j. */
  predicate Before(speeds: seq<real>, i: nat, j: nat)
    requires i < |speeds| && j < |speeds|
  {
    speeds[i] < speeds[j] || (speeds[i] == speeds[j] && i < j)
  }

  /** No node holds a second layer while an earlier one still has room. */
  ghost predicate Greedy(caps: seq<int>, speeds: seq<real>, counts: seq<int>)
    requires |caps| == |speeds| == |counts|
  {
    forall i, j :: 0 <= i < |caps| && 0 <= j < |caps| && Before(speeds, i, j) && counts[j] > 1 ==> counts[i] == caps[i]
  }

  function Cost(speeds: seq<real>, counts: seq<int>): real
    requires |speeds| == |counts|
  {
    if counts == [] then 0.0
    else Cost(speeds[..|counts| - 1], counts[..|counts| - 1]) + counts[|counts| - 1] as real * speeds[|counts| - 1]
  }

  // ---------------------------------------------------------------- optimality

  /** The loaded node served last: everything after it in the order holds one layer. */
  lemma LastLoaded(speeds: seq<real>, counts: seq<int>) returns (j: nat)
    requires |speeds| == |counts|
    requires exists i :: 0 <= i < |counts| && counts[i] > 1
    ensures j < |counts| && counts[j] > 1
    ensures forall i :: 0 <= i < |counts| && counts[i] > 1 && i != j ==> Before(speeds, i, j)
  {
    j :| 0 <= j < |counts| && counts[j] > 1;
    var k := 0;
    while k < |counts|
      invariant 0 <= k <= |counts| && j < |counts| && counts[j] > 1
      invariant forall i :: 0 <= i < k && counts[i] > 1 && i != j ==> Before(speeds, i, j)
    {
      if counts[k] > 1 && Before(speeds, j, k) {
        j := k;
      }
      k := k + 1;
    }
  }

  lemma SameSign(move: int, gain: real)
    requires (gain < 0.0 ==> move <= 0) && (gain > 0.0 ==> move >= 0)
    ensures move as real * gain >= 0.0
  {
    if gain < 0.0 {
      assert (-move) as real * (-gain) >= 0.0;
    }
  }

  /** Moving layers from c to d against a price: each move costs at least the price. */
  lemma {:induction false} PriceBound(speeds: seq<real>, c: seq<int>, d: seq<int>, price: real)
    requires |speeds| == |c| == |d|
    requires forall i :: 0 <= i < |c| ==> (speeds[i] < price ==> d[i] <= c[i]) && (speeds[i] > price ==> d[i] >= c[i])
    ensures Cost(speeds, d) - Cost(speeds, c) >= (Sum(d) - Sum(c)) as real * price
  {
    if c == [] {
    } else {
      var n := |c| - 1;
      PriceBound(speeds[..n], c[..n], d[..n], price);
      var move := (d[n] - c[n]) as real;
      SameSign(d[n] - c[n], speeds[n] - price);
      assert move * (speeds[n] - price) == move * speeds[n] - move * price;
      assert move * speeds[n] == d[n] as real * speeds[n] - c[n] as real * speeds[n];
      var moved := (Sum(d[..n]) - Sum(c[..n])) as real;
      assert (Sum(d) - Sum(c)) as real == moved + move;
      assert (moved + move) * price == moved * price + move * price;
    }
  }

  /** The claim in the source: filling the fastest nodes first is optimal for the sum. */
  lemma GreedyIsOptimal(caps: seq<int>, speeds: seq<real>, layers: int, c: seq<int>, d: seq<int>)
    requires |caps| == |speeds|
    requires Feasible(caps, layers, c) && Greedy(caps, speeds, c)
    requires Feasible(caps, layers, d)
    ensures Cost(speeds, c) <= Cost(speeds, d)
  {
    if forall i :: 0 <= i < |c| ==> c[i] <= 1 {
      SumMonotone(c, d);
    } else {
      var j := LastLoaded(speeds, c);
      var price := speeds[j];
      forall i | 0 <= i < |c|
        ensures (speeds[i] < price ==> d[i] <= c[i]) && (speeds[i] > price ==> d[i] >= c[i])
      {
        assert speeds[i] < price ==> Before(speeds, i, j);
        assert speeds[i] > price ==> !Before(speeds, i, j);
      }
      PriceBound(speeds, c, d, price);
    }
  }

  /** The greedy split is one split, so "the split of this group" is well defined. */
  lemma GreedyIsUnique(caps: seq<int>, speeds: seq<real>, layers: int, c: seq<int>, d: seq<int>)
    requires |caps| == |speeds|
    requires Feasible(caps, layers, c) && Greedy(caps, speeds, c)
    requires Feasible(caps, layers, d) && Greedy(caps, speeds, d)
    ensures c == d
  {
    if i :| 0 <= i < |c| && c[i] < d[i] {
      if j :| 0 <= j < |c| && d[j] < c[j] {
        assert false;
      } else {
        SumMonotone(c, d);
      }
    } else {
      SumMonotone(d, c);
    }
  }

  // ---------------------------------------------------------------- existence

  /** The node served first among those with room left. */
  lemma FirstWithRoom(caps: seq<int>, speeds: seq<real>, counts: seq<int>) returns (j: nat)
    requires |caps| == |speeds| == |counts|
    requires exists i :: 0 <= i < |counts| && counts[i] < caps[i]
    ensures j < |counts| && counts[j] < caps[j]
    ensures forall i :: 0 <= i < |counts| && counts[i] < caps[i] && i != j ==> Before(speeds, j, i)
  {
    j :| 0 <= j < |counts| && counts[j] < caps[j];
    var k := 0;
    while k < |counts|
      invariant 0 <= k <= |counts| && j < |counts| && counts[j] < caps[j]
      invariant forall i :: 0 <= i < k && counts[i] < caps[i] && i != j ==> Before(speeds, j, i)
    {
      if counts[k] < caps[k] && Before(speeds, k, j) {
        j := k;
      }
      k := k + 1;
    }
  }

  /** One more layer goes to the first node with room, and the split stays greedy. */
  lemma {:induction false} GreedyExists(caps: seq<int>, speeds: seq<real>, layers: int) returns (counts: seq<int>)
    requires |caps| == |speeds|
    requires forall i :: 0 <= i < |caps| ==> 1 <= caps[i]
    requires |caps| <= layers <= Sum(caps)
    ensures Feasible(caps, layers, counts) && Greedy(caps, speeds, counts)
    decreases layers
  {
    if layers == |caps| {
      counts := seq(|caps|, i => 1);
      SumConstant(counts, 1);
    } else {
      var fewer := GreedyExists(caps, speeds, layers - 1);
      if forall i :: 0 <= i < |caps| ==> fewer[i] >= caps[i] {
        SumMonotone(caps, fewer);
      }
      var j := FirstWithRoom(caps, speeds, fewer);
      counts := fewer[j := fewer[j] + 1];
      SumUpdate(fewer, j, fewer[j] + 1);
      forall a, b | 0 <= a < |caps| && 0 <= b < |caps| && Before(speeds, a, b) && counts[b] > 1
        ensures counts[a] == caps[a]
      {
        if b == j {
          assert fewer[a] == caps[a];
        } else {
          assert fewer[a] == caps[a];
        }
      }
    }
  }

  // ---------------------------------------------------------------- the split as a value

  datatype Split = NoSplit | Split(counts: seq<int>)

  /** When the caps can hold the model at one layer or more per node. */
  predicate Holdable(caps: seq<int>, layers: int) {
    (forall i :: 0 <= i < |caps| ==> 1 <= caps[i]) && |caps| <= layers <= Sum(caps)
  }

  /** The split of a group: the greedy one when the caps can hold the model. */
  ghost function SplitOf(caps: seq<int>, speeds: seq<real>, layers: int): (split: Split)
    requires |caps| == |speeds|
    ensures split.Split? <==> Holdable(caps, layers)
    ensures split.Split? ==> Feasible(caps, layers, split.counts) && Greedy(caps, speeds, split.counts)
  {
    if Holdable(caps, layers) then
      assert exists c :: Feasible(caps, layers, c) && Greedy(caps, speeds, c) by {
        var c := GreedyExists(caps, speeds, layers);
      }
      var c :| Feasible(caps, layers, c) && Greedy(caps, speeds, c);
      Split(c)
    else NoSplit
  }

  /** nil exactly when no split gives every node 1..cap layers; otherwise no split is faster. */
  lemma SplitOfIsBest(caps: seq<int>, speeds: seq<real>, layers: int)
    requires |caps| == |speeds|
    ensures SplitOf(caps, speeds, layers).NoSplit? <==> !exists d :: Feasible(caps, layers, d)
    ensures SplitOf(caps, speeds, layers).Split? ==>
              forall d :: Feasible(caps, layers, d) ==>
                            Cost(speeds, SplitOf(caps, speeds, layers).counts) <= Cost(speeds, d)
  {
    var split := SplitOf(caps, speeds, layers);
    forall d | Feasible(caps, layers, d)
      ensures split.Split? && Cost(speeds, split.counts) <= Cost(speeds, d)
    {
      SumLowerBound(d, 1);
      SumMonotone(d, caps);
      GreedyIsOptimal(caps, speeds, layers, split.counts, d);
    }
    if split.Split? {
      assert Feasible(caps, layers, split.counts);
    }
  }

  // ---------------------------------------------------------------- the loops

  /** Node indexes, fastest first, equal speeds in their original order. */
  ghost predicate IsStableOrder(speeds: seq<real>, order: seq<nat>) {
    && |order| == |speeds|
    && (forall a :: 0 <= a < |order| ==> order[a] < |speeds|)
    && (forall a, b :: 0 <= a < b < |order| ==> Before(speeds, order[a], order[b]))
    && (forall i :: 0 <= i < |speeds| ==> i in order)
  }

  /** sort.SliceStable on the indexes. */
  method StableOrder(speeds: seq<real>) returns (order: seq<nat>)
    ensures IsStableOrder(speeds, order)
  {
    order := [];
    for n := 0 to |speeds|
      invariant PartOrder(speeds, order, n)
    {
      var at := n;
      while at > 0 && !Before(speeds, order[at - 1], n)
        invariant 0 <= at <= n
        invariant forall a :: at <= a < n ==> Before(speeds, n, order[a])
      {
        at := at - 1;
      }
      OrderGrows(speeds, order, at, n);
      order := order[..at] + [n] + order[at..];
    }
  }

  /** The order after the first n indexes. */
  ghost predicate PartOrder(speeds: seq<real>, order: seq<nat>, n: nat)
    requires n <= |speeds|
  {
    && |order| == n
    && (forall a :: 0 <= a < n ==> order[a] < n)
    && (forall a, b :: 0 <= a < b < n ==> Before(speeds, order[a], order[b]))
    && (forall i :: 0 <= i < n ==> i in order)
  }

  lemma OrderCovers(order: seq<nat>, at: nat, n: nat)
    requires at <= |order| && forall i :: 0 <= i < n ==> i in order
    ensures forall i :: 0 <= i < n + 1 ==> i in order[..at] + [n] + order[at..]
  {
    forall i | 0 <= i < n + 1 ensures i in order[..at] + [n] + order[at..] {
      assert order == order[..at] + order[at..];
      assert i < n ==> i in order;
    }
  }

  /** Two places of the grown order, seen in the old one. */
  lemma OrderPair(speeds: seq<real>, order: seq<nat>, at: nat, n: nat, a: nat, b: nat)
    requires n < |speeds| && PartOrder(speeds, order, n) && at <= n && a < b <= n
    requires at > 0 ==> Before(speeds, order[at - 1], n)
    requires forall k :: at <= k < n ==> Before(speeds, n, order[k])
    ensures var next := order[..at] + [n] + order[at..];
            next[a] <= n && next[b] <= n && Before(speeds, next[a], next[b])
  {
    var next := order[..at] + [n] + order[at..];
    if b < at {
      assert next[a] == order[a] && next[b] == order[b];
    } else if b == at {
      assert next[a] == order[a] && next[b] == n;
      assert a == at - 1 || Before(speeds, order[a], order[at - 1]);
    } else if a < at {
      assert next[a] == order[a] && next[b] == order[b - 1];
    } else if a == at {
      assert next[a] == n && next[b] == order[b - 1];
    } else {
      assert next[a] == order[a - 1] && next[b] == order[b - 1];
    }
  }

  lemma OrderGrows(speeds: seq<real>, order: seq<nat>, at: nat, n: nat)
    requires n < |speeds| && PartOrder(speeds, order, n) && at <= n
    requires at > 0 ==> Before(speeds, order[at - 1], n)
    requires forall a :: at <= a < n ==> Before(speeds, n, order[a])
    ensures PartOrder(speeds, order[..at] + [n] + order[at..], n + 1)
  {
    var next := order[..at] + [n] + order[at..];
    OrderCovers(order, at, n);
    forall a | 0 <= a < n + 1 ensures next[a] < n + 1 {
      assert next[a] == if a < at then order[a] else if a == at then n else order[a - 1];
    }
    forall a, b | 0 <= a < b < n + 1 ensures Before(speeds, next[a], next[b]) {
      hide PartOrder, Before;
      OrderPair(speeds, order, at, n, a, b);
    }
  }

  /** Where the fill stands after m nodes of the order. */
  ghost predicate Filling(caps: seq<int>, order: seq<nat>, layers: int, m: nat, counts: seq<int>, remaining: int)
    requires forall a :: 0 <= a < |order| ==> order[a] < |caps|
  {
    && m <= |order| && |counts| == |caps| && remaining >= 0 && Sum(counts) + remaining == layers
    && (forall i :: 0 <= i < |caps| ==> 1 <= counts[i] <= caps[i])
    && (forall a :: m <= a < |order| ==> counts[order[a]] == 1)
    && (remaining > 0 ==> forall a :: 0 <= a < m ==> counts[order[a]] == caps[order[a]])
    && (forall a, b :: 0 <= a < b < m && counts[order[b]] > 1 ==> counts[order[a]] == caps[order[a]])
  }

  /** A full node short of the end leaves nothing over, because the caps hold the model. */
  lemma FillEnds(caps: seq<int>, speeds: seq<real>, order: seq<nat>, layers: int, m: nat, counts: seq<int>,
                 remaining: int)
    requires |caps| == |speeds| && IsStableOrder(speeds, order) && Holdable(caps, layers)
    requires Filling(caps, order, layers, m, counts, remaining)
    requires m == |order| || remaining == 0
    ensures remaining == 0 && Feasible(caps, layers, counts)
  {
    if remaining > 0 {
      forall i | 0 <= i < |caps| ensures caps[i] <= counts[i] {
        assert i in order;
      }
      SumMonotone(caps, counts);
    }
  }

  lemma FillIsGreedy(caps: seq<int>, speeds: seq<real>, order: seq<nat>, layers: int, m: nat, counts: seq<int>)
    requires |caps| == |speeds| && IsStableOrder(speeds, order)
    requires Filling(caps, order, layers, m, counts, 0)
    ensures Greedy(caps, speeds, counts)
  {
    forall i, j | 0 <= i < |caps| && 0 <= j < |caps| && Before(speeds, i, j) && counts[j] > 1
      ensures counts[i] == caps[i]
    {
      assert i in order && j in order;
      var a :| 0 <= a < |order| && order[a] == i;
      var b :| 0 <= b < |order| && order[b] == j;
      assert b < m;
      assert a < b;
    }
  }

  lemma FillStep(caps: seq<int>, speeds: seq<real>, order: seq<nat>, layers: int, m: nat, counts: seq<int>,
                 remaining: int, take: int)
    requires |caps| == |speeds| && IsStableOrder(speeds, order)
    requires Filling(caps, order, layers, m, counts, remaining)
    requires m < |order| && remaining > 0
    requires take == if remaining < caps[order[m]] - 1 then remaining else caps[order[m]] - 1
    ensures Filling(caps, order, layers, m + 1, counts[order[m] := 1 + take], remaining - take)
  {
    var i := order[m];
    SumUpdate(counts, i, 1 + take);
    var next := counts[i := 1 + take];
    forall a | 0 <= a < |order| && a != m ensures order[a] != i {
      assert Before(speeds, order[a], i) || Before(speeds, i, order[a]);
    }
  }

  /** assignLayers past the capacity tests: one layer each, then the fastest nodes to their caps. */
  method FillFastestFirst(caps: seq<int>, speeds: seq<real>, layers: int) returns (split: Split)
    requires |caps| == |speeds|
    requires Holdable(caps, layers)
    ensures split == SplitOf(caps, speeds, layers)
  {
    var counts := seq(|caps|, i => 1);
    SumConstant(counts, 1);
    var remaining := layers - |caps|;
    var order := StableOrder(speeds);
    var m := 0;
    while m < |order| && remaining > 0
      invariant Filling(caps, order, layers, m, counts, remaining)
    {
      var i := order[m];
      var take := if remaining < caps[i] - counts[i] then remaining else caps[i] - counts[i];
      FillStep(caps, speeds, order, layers, m, counts, remaining, take);
      counts := counts[i := counts[i] + take];
      remaining := remaining - take;
      m := m + 1;
    }
    FillEnds(caps, speeds, order, layers, m, counts, remaining);
    FillIsGreedy(caps, speeds, order, layers, m, counts);
    split := Split(counts);
    GreedyIsUnique(caps, speeds, layers, counts, SplitOf(caps, speeds, layers).counts);
  }
}

/** Sums of finite sequences, read left to right as the loops of the program do. */
module Sums {

  function Sum(s: seq<int>): int {
    if s == [] then 0 else Sum(s[..|s| - 1]) + s[|s| - 1]
  }

  function SumReal(s: seq<real>): real {
    if s == [] then 0.0 else SumReal(s[..|s| - 1]) + s[|s| - 1]
  }

  lemma EmptySum()
    ensures Sum([]) == 0
  {
  }

  lemma {:induction false} SumUpdate(s: seq<int>, i: nat, v: int)
    requires i < |s|
    ensures Sum(s[i := v]) == Sum(s) - s[i] + v
  {
    var n := |s| - 1;
    if i == n {
      assert s[i := v][..n] == s[..n];
    } else {
      assert s[i := v][..n] == s[..n][i := v];
      SumUpdate(s[..n], i, v);
    }
  }

  /** Pointwise smaller sequences have smaller sums, and equal sums force equality. */
  lemma {:induction false} SumMonotone(s: seq<int>, t: seq<int>)
    requires |s| == |t|
    requires forall i :: 0 <= i < |s| ==> s[i] <= t[i]
    ensures Sum(s) <= Sum(t)
    ensures Sum(s) == Sum(t) ==> s == t
  {
    if s == [] {
    } else {
      var n := |s| - 1;
      SumMonotone(s[..n], t[..n]);
      assert s == s[..n] + [s[n]] && t == t[..n] + [t[n]];
    }
  }

  /** Every element bounded below by b: the sum is at least b per element. */
  lemma {:induction false} SumLowerBound(s: seq<int>, b: int)
    requires forall i :: 0 <= i < |s| ==> b <= s[i]
    ensures b * |s| <= Sum(s)
  {
    if s == [] {
    } else {
      SumLowerBound(s[..|s| - 1], b);
      assert b * |s| == b * (|s| - 1) + b;
    }
  }

  lemma {:induction false} SumConstant(s: seq<int>, b: int)
    requires forall i :: 0 <= i < |s| ==> s[i] == b
    ensures Sum(s) == b * |s|
  {
    if s == [] {
    } else {
      SumConstant(s[..|s| - 1], b);
      assert b * |s| == b * (|s| - 1) + b;
    }
  }
}

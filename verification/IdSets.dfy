/**
Sets of node ids: their sorted listing, the cache key built from it
(internal/partitioner/solver.go:409-416) and the subsets a bit mask selects (494-500).
*/
module IdSets {
  import opened Seqs
  import opened StringOrder

  ghost predicate IsLeast(ids: set<string>, m: string) {
    m in ids && forall x :: x in ids ==> AtMost(m, x)
  }

  lemma {:induction false} LeastExists(ids: set<string>) returns (m: string)
    requires ids != {}
    ensures IsLeast(ids, m)
    decreases ids
  {
    m :| m in ids;
    var rest := ids - {m};
    if rest == {} {
      assert ids == {m};
    } else {
      var k := LeastExists(rest);
      LessTotal(k, m);
      forall x | x in ids ensures AtMost(if Less(k, m) then k else m, x) {
        if x != m {
          assert x in rest;
          if Less(m, k) && Less(k, x) {
            LessTransitive(m, k, x);
          }
        }
      }
      m := if Less(k, m) then k else m;
    }
  }

  lemma LeastUnique(ids: set<string>, a: string, b: string)
    requires IsLeast(ids, a) && IsLeast(ids, b)
    ensures a == b
  {
    if a != b {
      LessAsymmetric(a, b);
    }
  }

  /** The smallest id. */
  ghost function Least(ids: set<string>): (m: string)
    requires ids != {}
    ensures IsLeast(ids, m)
  {
    assert exists m :: IsLeast(ids, m) by {
      var m := LeastExists(ids);
    }
    var m :| IsLeast(ids, m);
    m
  }

  lemma LeastIn(ids: set<string>)
    requires ids != {}
    ensures Least(ids) in ids
  {
  }

  /** The ids in increasing order. */
  ghost function Listing(ids: set<string>): seq<string> {
    if ids == {} then []
    else
      var m := Least(ids);
      [m] + Listing(ids - {m})
  }

  /** The listing is in strictly increasing order. */
  lemma {:induction false} ListingIncreases(ids: set<string>, i: nat, j: nat)
    requires i < j < |Listing(ids)|
    ensures Less(Listing(ids)[i], Listing(ids)[j])
    decreases ids
  {
    hide Less;
    var m := Least(ids);
    var rest := ids - {m};
    ListingElements(rest);
    if i > 0 {
      ListingIncreases(rest, i - 1, j - 1);
    } else {
      assert Listing(ids)[j] == Listing(rest)[j - 1];
      assert Listing(rest)[j - 1] in rest;
    }
  }

  lemma {:induction false} ListingElements(ids: set<string>)
    ensures |Listing(ids)| == |ids|
    ensures forall x :: x in Listing(ids) <==> x in ids
    decreases ids
  {
    if ids != {} {
      ListingElements(ids - {Least(ids)});
    }
  }

  /** The scan for the first id of a set; "" stands for none yet, so it must not be an id. */
  method FindLeast(ids: set<string>) returns (m: string)
    requires ids != {} && "" !in ids
    ensures m == Least(ids)
  {
    m := "";
    var left := ids;
    while left != {}
      invariant left <= ids && (m == "" ==> left == ids) && (m != "" ==> m in ids)
      invariant m != "" ==> forall x :: x in ids && x !in left ==> AtMost(m, x)
      decreases left
    {
      var x :| x in left;
      if m == "" || Less(x, m) {
        if m != "" {
          LessIsLeast(ids, left, x, m);
        }
        m := x;
      } else {
        LessTotal(x, m);
      }
      left := left - {x};
    }
    LeastUnique(ids, m, Least(ids));
  }

  lemma LessIsLeast(ids: set<string>, left: set<string>, x: string, m: string)
    requires Less(x, m) && forall y :: y in ids && y !in left ==> AtMost(m, y)
    ensures forall y :: y in ids && y !in left ==> AtMost(x, y)
  {
    forall y | y in ids && y !in left ensures AtMost(x, y) {
      AtMostTransitive(x, m, y);
    }
  }

  /** One step of the sort. */
  method PickLeast(ids: set<string>) returns (m: string)
    requires ids != {}
    ensures m == Least(ids)
  {
    if "" in ids {
      EmptyIsLeast(ids);
      return "";
    }
    m := FindLeast(ids);
  }

  lemma EmptyIsLeast(ids: set<string>)
    requires "" in ids
    ensures Least(ids) == ""
  {
    assert IsLeast(ids, "");
    LeastUnique(ids, "", Least(ids));
  }

  lemma ListingStep(ids: set<string>)
    ensures Listing(ids) == if ids == {} then [] else [Least(ids)] + Listing(ids - {Least(ids)})
  {
  }

  method SortIds(ids: set<string>) returns (s: seq<string>)
    ensures s == Listing(ids)
  {
    hide Listing, IsLeast;
    s := [];
    var left := ids;
    while left != {}
      invariant s + Listing(left) == Listing(ids)
      decreases left
    {
      ListingStep(left);
      var m := PickLeast(left);
      var rest := left - {m};
      Assoc(s, [m], Listing(rest));
      LeastIn(left);
      s := s + [m];
      left := rest;
    }
    ListingStep(left);
  }

  // ---------------------------------------------------------------- cache keys

  function Join(parts: seq<string>): string {
    if parts == [] then ""
    else if |parts| == 1 then parts[0]
    else parts[0] + "|" + Join(parts[1..])
  }

  /** Ids that make the joined key unambiguous: not empty, no separator inside. */
  ghost predicate Clean(id: string) {
    id != "" && '|' !in id
  }

  /** The first id ends at the first separator, or at the end of the key. */
  lemma JoinHead(a: seq<string>)
    requires a != [] && forall x :: x in a ==> Clean(x)
    ensures a[0] <= Join(a) && a[0] != "" && '|' !in a[0]
    ensures |a| == 1 ==> Join(a) == a[0]
    ensures |a| > 1 ==> |Join(a)| > |a[0]| && Join(a)[|a[0]|] == '|' && Join(a)[|a[0]| + 1..] == Join(a[1..])
  {
    assert a[0] in a;
  }

  lemma HeadsAgree(a: seq<string>, b: seq<string>)
    requires a != [] && forall x :: x in a ==> Clean(x)
    requires b != [] && forall x :: x in b ==> Clean(x)
    requires Join(a) == Join(b)
    ensures |a[0]| >= |b[0]|
  {
    JoinHead(a);
    JoinHead(b);
    var k := Join(a);
    assert forall i :: 0 <= i < |b[0]| ==> k[i] == b[0][i];
    assert forall i :: 0 <= i < |b[0]| ==> b[0][i] in b[0];
  }

  lemma {:induction false} JoinInjective(a: seq<string>, b: seq<string>)
    requires forall x :: x in a ==> Clean(x)
    requires forall x :: x in b ==> Clean(x)
    requires Join(a) == Join(b)
    ensures a == b
  {
    if a == [] || b == [] {
      if a != [] { JoinHead(a); }
      if b != [] { JoinHead(b); }
    } else {
      HeadsAgree(a, b);
      HeadsAgree(b, a);
      JoinHead(a);
      JoinHead(b);
      assert a[0] == b[0];
      assert a == [a[0]] + a[1..] && b == [b[0]] + b[1..];
      if |a| > 1 {
        JoinInjective(a[1..], b[1..]);
      }
    }
  }

  ghost function KeyOf(ids: set<string>): string {
    Join(Listing(ids))
  }

  /** Two different groups never share a cache entry. */
  lemma KeyInjective(a: set<string>, b: set<string>)
    requires forall x :: x in a + b ==> Clean(x)
    requires KeyOf(a) == KeyOf(b)
    ensures a == b
  {
    ListingElements(a);
    ListingElements(b);
    JoinInjective(Listing(a), Listing(b));
    forall x ensures x in a <==> x in b {
      assert x in Listing(a) <==> x in Listing(b);
    }
  }

  method SetKey(ids: set<string>) returns (key: string)
    ensures key == KeyOf(ids)
  {
    var parts := SortIds(ids);
    var i := |parts|;
    key := "";
    while i > 0
      invariant 0 <= i <= |parts| && key == Join(parts[i..])
    {
      i := i - 1;
      assert parts[i..][1..] == parts[i + 1..];
      key := if i + 1 == |parts| then parts[i] else parts[i] + "|" + key;
    }
    assert parts[0..] == parts;
  }

  // ---------------------------------------------------------------- masks

  function Pow2(n: nat): nat {
    if n == 0 then 1 else 2 * Pow2(n - 1)
  }

  lemma {:induction false} Pow2Monotone(a: nat, b: nat)
    requires a <= b
    ensures 1 <= Pow2(a) <= Pow2(b)
    decreases b
  {
    if a < b {
      Pow2Monotone(a, b - 1);
    } else if b > 0 {
      Pow2Monotone(b - 1, b - 1);
    }
  }

  /** The ids whose bit is set, lowest bit first. */
  function Select(mask: nat, ids: seq<string>): set<string> {
    if ids == [] then {}
    else (if mask % 2 == 1 then {ids[0]} else {}) + Select(mask / 2, ids[1..])
  }

  /** Counting the masks up to 2^n visits every subset. */
  lemma {:induction false} SelectCovers(ids: seq<string>, want: set<string>) returns (mask: nat)
    ensures mask < Pow2(|ids|)
    ensures Select(mask, ids) == want * set x | x in ids
  {
    if ids == [] {
      mask := 0;
    } else {
      var m := SelectCovers(ids[1..], want);
      mask := 2 * m + if ids[0] in want then 1 else 0;
      assert mask / 2 == m;
      assert (set x | x in ids) == {ids[0]} + set x | x in ids[1..];
    }
  }

  lemma {:induction false} SelectWithin(mask: nat, ids: seq<string>)
    ensures forall x :: x in Select(mask, ids) ==> x in ids
  {
    if ids != [] {
      SelectWithin(mask / 2, ids[1..]);
    }
  }

  method SelectLoop(mask: nat, ids: seq<string>) returns (chosen: set<string>)
    ensures chosen == Select(mask, ids)
  {
    chosen := {};
    var bits := mask;
    for i := 0 to |ids|
      invariant chosen + Select(bits, ids[i..]) == Select(mask, ids)
    {
      assert ids[i..][1..] == ids[i + 1..];
      if bits % 2 == 1 {
        chosen := chosen + {ids[i]};
      }
      bits := bits / 2;
    }
  }
}

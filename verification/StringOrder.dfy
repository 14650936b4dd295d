/** Lexicographic order on strings: what Go's `<` does on node ids and version stamps. */
module StringOrder {

  predicate Less(a: string, b: string) {
    b != [] && (a == [] || a[0] < b[0] || (a[0] == b[0] && Less(a[1..], b[1..])))
  }

  predicate AtMost(a: string, b: string) {
    a == b || Less(a, b)
  }

  lemma {:induction false} LessTransitive(a: string, b: string, c: string)
    requires Less(a, b) && Less(b, c)
    ensures Less(a, c)
  {
    if a == [] || a[0] != b[0] || b[0] != c[0] {
    } else {
      LessTransitive(a[1..], b[1..], c[1..]);
    }
  }

  lemma {:induction false} LessIrreflexive(a: string)
    ensures !Less(a, a)
  {
    if a != [] {
      LessIrreflexive(a[1..]);
    }
  }

  lemma {:induction false} LessTotal(a: string, b: string)
    ensures a == b || Less(a, b) || Less(b, a)
  {
    if a == [] || b == [] || a[0] != b[0] {
    } else {
      LessTotal(a[1..], b[1..]);
      assert a == [a[0]] + a[1..] && b == [b[0]] + b[1..];
    }
  }

  lemma LessAsymmetric(a: string, b: string)
    requires Less(a, b)
    ensures a != b && !Less(b, a)
  {
    LessIrreflexive(a);
    if Less(b, a) {
      LessTransitive(a, b, a);
    }
  }

  lemma AtMostTransitive(a: string, b: string, c: string)
    requires AtMost(a, b) && AtMost(b, c)
    ensures AtMost(a, c)
  {
    if Less(a, b) && Less(b, c) {
      LessTransitive(a, b, c);
    }
  }

  /** a and b agree before k, and there a ends or is smaller. */
  predicate SmallerAt(a: string, b: string, k: nat) {
    && k <= |a| && k < |b| && (k == |a| || a[k] < b[k])
    && forall i :: 0 <= i < k ==> a[i] == b[i]
  }

  lemma {:induction false} LessDiffers(a: string, b: string) returns (k: nat)
    requires Less(a, b)
    ensures SmallerAt(a, b, k)
  {
    k := 0;
    if a != [] && a[0] == b[0] {
      var rest := LessDiffers(a[1..], b[1..]);
      forall i | 0 <= i < rest + 1 ensures a[i] == b[i] {
        assert i > 0 ==> a[1..][i - 1] == b[1..][i - 1];
      }
      k := rest + 1;
    }
  }

  lemma {:induction false} DiffersLess(a: string, b: string, k: nat)
    requires SmallerAt(a, b, k)
    ensures Less(a, b)
  {
    if k > 0 {
      DiffersLess(a[1..], b[1..], k - 1);
    }
  }

  /** The first difference decides; a proper prefix comes first. */
  lemma LessMeans(a: string, b: string)
    ensures Less(a, b) <==> exists k: nat :: SmallerAt(a, b, k)
  {
    hide SmallerAt;
    if Less(a, b) {
      var k := LessDiffers(a, b);
    }
    if k: nat :| SmallerAt(a, b, k) {
      DiffersLess(a, b, k);
    }
  }
}

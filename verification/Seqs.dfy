/** Facts about sequences that the other modules share. */
module Seqs {

  lemma Assoc<T>(a: seq<T>, b: seq<T>, c: seq<T>)
    ensures a + b + c == a + (b + c)
  {
  }

  /** Appending at the end leaves the head alone. */
  lemma HeadStays<T>(a: seq<T>, x: T)
    requires a != []
    ensures (a + [x])[0] == a[0] && (a + [x])[1..] == a[1..] + [x]
  {
  }

  /** One more element of a sequence that is read from the front. */
  lemma OneMore<T>(a: seq<T>, i: nat)
    requires i < |a|
    ensures a[..i + 1] == a[..i] + [a[i]] && a[..i + 1][..i] == a[..i]
  {
  }
}

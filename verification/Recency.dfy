/** Recency lists: keys without repetition, least recently used first. */
module Recency {

  ghost predicate Distinct(order: seq<string>) {
    forall i, j :: 0 <= i < j < |order| ==> order[i] != order[j]
  }

  function Elems(order: seq<string>): set<string> {
    set k | k in order
  }

  /** The list without a key. */
  function Drop(order: seq<string>, key: string): seq<string> {
    if order == [] then []
    else if order[|order| - 1] == key then Drop(order[..|order| - 1], key)
    else Drop(order[..|order| - 1], key) + [order[|order| - 1]]
  }

  /** The sublist of the keys in a set. */
  function Keep(order: seq<string>, keys: set<string>): seq<string> {
    if order == [] then []
    else if order[|order| - 1] in keys then Keep(order[..|order| - 1], keys) + [order[|order| - 1]]
    else Keep(order[..|order| - 1], keys)
  }

  /** The key becomes the most recent one. */
  function Touch(order: seq<string>, key: string): seq<string> {
    Drop(order, key) + [key]
  }

  lemma DropAppend(order: seq<string>, last: string, key: string)
    ensures Drop(order + [last], key) == if last == key then Drop(order, key) else Drop(order, key) + [last]
  {
    assert (order + [last])[..|order|] == order;
  }

  lemma {:induction false} DropElems(order: seq<string>, key: string)
    ensures forall k :: k in Drop(order, key) <==> k in order && k != key
    ensures key !in order ==> Drop(order, key) == order
  {
    if order == [] {
    } else {
      var front, last := order[..|order| - 1], order[|order| - 1];
      assert order == front + [last];
      DropElems(front, key);
    }
  }

  lemma {:induction false} DropDistinct(order: seq<string>, key: string)
    requires Distinct(order)
    ensures Distinct(Drop(order, key))
    ensures |Drop(order, key)| == |order| - if key in order then 1 else 0
  {
    if order == [] {
    } else {
      var front, last := order[..|order| - 1], order[|order| - 1];
      assert order == front + [last];
      DropDistinct(front, key);
      DropElems(front, key);
      assert forall i :: 0 <= i < |front| ==> front[i] == order[i] != last;
      assert last !in front;
      assert forall i :: 0 <= i < |Drop(front, key)| ==> Drop(front, key)[i] in Drop(front, key);
    }
  }

  lemma {:induction false} KeepElems(order: seq<string>, keys: set<string>)
    ensures forall k :: k in Keep(order, keys) <==> k in order && k in keys
  {
    if order == [] {
    } else {
      var front, last := order[..|order| - 1], order[|order| - 1];
      assert order == front + [last];
      KeepElems(front, keys);
    }
  }

  lemma {:induction false} DropHead(order: seq<string>)
    requires Distinct(order) && order != []
    ensures Drop(order, order[0]) == order[1..]
  {
    var n := |order| - 1;
    if n == 0 {
      assert order[..0] == [];
      assert Drop(order[..0], order[0]) == [];
    } else {
      DropHead(order[..n]);
      assert order[1..] == order[..n][1..] + [order[n]];
    }
  }

  /** Dropping a key and keeping a set commute into keeping the smaller set. */
  lemma {:induction false} KeepDrop(order: seq<string>, keys: set<string>, key: string)
    ensures Drop(Keep(order, keys), key) == Keep(order, keys - {key})
    ensures Keep(Drop(order, key), keys) == Keep(order, keys - {key})
  {
    if order == [] {
    } else {
      var front, last := order[..|order| - 1], order[|order| - 1];
      assert order == front + [last];
      KeepDrop(front, keys, key);
      KeepAppend(front, last, keys);
      KeepAppend(front, last, keys - {key});
      KeepAppend(Drop(front, key), last, keys);
      DropAppend(front, last, key);
      DropAppend(Keep(front, keys), last, key);
      hide Keep, Drop;
    }
  }

  lemma {:induction false} KeepSame(order: seq<string>, a: set<string>, b: set<string>)
    requires forall k :: k in order ==> (k in a <==> k in b)
    ensures Keep(order, a) == Keep(order, b)
  {
    if order != [] {
      KeepSame(order[..|order| - 1], a, b);
    }
  }

  lemma KeepAppend(order: seq<string>, key: string, keys: set<string>)
    ensures Keep(order + [key], keys) == if key in keys then Keep(order, keys) + [key] else Keep(order, keys)
  {
    assert (order + [key])[..|order|] == order;
  }

  /** The oldest key, when kept, stays the oldest. */
  lemma {:induction false} KeepHead(order: seq<string>, keys: set<string>)
    requires order != [] && order[0] in keys
    ensures Keep(order, keys) != [] && Keep(order, keys)[0] == order[0]
  {
    var n := |order| - 1;
    if n == 0 {
      assert order[..0] == [];
      assert Keep(order[..0], keys) == [];
    } else {
      KeepHead(order[..n], keys);
    }
  }

  lemma DistinctSize(order: seq<string>)
    requires Distinct(order)
    ensures |Elems(order)| == |order|
    decreases |order|
  {
    if order == [] {
    } else {
      var front, last := order[..|order| - 1], order[|order| - 1];
      assert order == front + [last];
      DistinctSize(front);
      assert Elems(order) == Elems(front) + {last};
    }
  }

  // ---------------------------------------------------------------- what came after a key

  /** The keys more recent than `key`. */
  function Newer(order: seq<string>, key: string): set<string> {
    if order == [] || order[|order| - 1] == key then {}
    else {order[|order| - 1]} + Newer(order[..|order| - 1], key)
  }

  lemma {:induction false} NewerAfterDrop(order: seq<string>, key: string, other: string)
    requires other != key
    ensures Newer(Drop(order, other), key) <= Newer(order, key)
  {
    if order == [] {
    } else {
      var front, last := order[..|order| - 1], order[|order| - 1];
      NewerAfterDrop(front, key, other);
      var d := Drop(front, other);
      if last != other {
        assert Drop(order, other) == d + [last] && (d + [last])[..|d|] == d;
      } else {
        assert Drop(order, other) == d;
      }
    }
  }

  lemma NewerAfterTouch(order: seq<string>, key: string, other: string)
    ensures other != key ==> Newer(Touch(order, other), key) <= Newer(order, key) + {other}
    ensures Newer(Touch(order, key), key) == {}
  {
    var d := Drop(order, other);
    assert (d + [other])[..|d|] == d;
    if other != key {
      NewerAfterDrop(order, key, other);
    }
  }

  lemma {:induction false} NewerAfterEvict(order: seq<string>, key: string)
    requires order != []
    ensures Newer(order[1..], key) <= Newer(order, key)
  {
    var n := |order| - 1;
    if n > 0 && order[n] != key {
      NewerAfterEvict(order[..n], key);
      assert order[1..][..n - 1] == order[..n][1..];
    }
  }

  lemma ElemsGrow(order: seq<string>)
    requires Distinct(order) && |order| > 1
    ensures var n := |order| - 1;
            Elems(order) == Elems(order[..n]) + {order[n]} && order[n] != order[0] && Distinct(order[..n])
  {
    var n := |order| - 1;
    assert order == order[..n] + [order[n]];
  }

  /** Everything but the oldest key is newer than it. */
  lemma {:induction false} NewerThanOldest(order: seq<string>)
    requires Distinct(order) && order != []
    ensures Newer(order, order[0]) == Elems(order) - {order[0]}
  {
    var n := |order| - 1;
    if n > 0 {
      NewerThanOldest(order[..n]);
      ElemsGrow(order);
      hide Elems, Distinct;
      assert order[..n][0] == order[0] != order[n];
    }
  }

  /** The loop in both tables: splice the key out where it is, then append it. */
  method MoveToEnd(order: seq<string>, key: string) returns (r: seq<string>)
    requires Distinct(order)
    ensures r == Touch(order, key)
  {
    r := order;
    DropElems(order, key);
    for i := 0 to |order|
      invariant r == order
      invariant forall k :: 0 <= k < i ==> order[k] != key
    {
      if order[i] == key {
        SpliceIsDrop(order, i);
        r := order[..i] + order[i + 1..];
        break;
      }
    }
    r := r + [key];
  }

  lemma {:induction false} SpliceIsDrop(order: seq<string>, i: nat)
    requires Distinct(order) && i < |order|
    ensures Drop(order, order[i]) == order[..i] + order[i + 1..]
  {
    var n := |order| - 1;
    if i == n {
      DropElems(order[..n], order[i]);
    } else {
      SpliceIsDrop(order[..n], i);
      assert order[..i] + order[i + 1..] == order[..n][..i] + order[..n][i + 1..] + [order[n]];
    }
  }

  // ---------------------------------------------------------------- tables listed by such an order

  lemma TouchKeeps(order: seq<string>, key: string)
    requires Distinct(order)
    ensures Distinct(Touch(order, key))
    ensures forall k :: k in Touch(order, key) <==> k in order || k == key
    ensures |Touch(order, key)| == |order| + if key in order then 0 else 1
  {
    DropElems(order, key);
    DropDistinct(order, key);
    assert forall i :: 0 <= i < |Drop(order, key)| ==> Drop(order, key)[i] in Drop(order, key);
  }

  lemma RemovedSize<V>(m: map<string, V>, key: string)
    requires key in m
    ensures |m - {key}| == |m| - 1
  {
    assert (m - {key}).Keys == m.Keys - {key};
    assert |(m - {key}).Keys| == |m - {key}| && |m.Keys| == |m|;
  }

  lemma AddedSize<V>(m: map<string, V>, key: string, v: V)
    ensures |m[key := v]| == |m| + if key in m then 0 else 1
  {
    assert m[key := v].Keys == m.Keys + {key};
    assert |m[key := v].Keys| == |m[key := v]| && |m.Keys| == |m|;
  }

  /** The order lists exactly the keys of the table, each once. */
  ghost predicate Lists<V>(order: seq<string>, m: map<string, V>) {
    Distinct(order) && (forall k :: k in order <==> k in m) && |m| == |order|
  }

  lemma ListsDrop<V>(order: seq<string>, m: map<string, V>, key: string)
    requires Lists(order, m) && key in m
    ensures Lists(Drop(order, key), m - {key}) && |Drop(order, key)| == |order| - 1
  {
    DropDistinct(order, key);
    RemovedSize(m, key);
    DropElems(order, key);
    hide Distinct, Drop;
    forall k ensures k in Drop(order, key) <==> k in m - {key} {
      assert k in m - {key} <==> k in m && k != key;
    }
  }

  lemma ListsTouch<V>(order: seq<string>, m: map<string, V>, key: string, v: V)
    requires Lists(order, m)
    ensures Lists(Touch(order, key), m[key := v])
    ensures |Touch(order, key)| == |order| + if key in m then 0 else 1
  {
    TouchKeeps(order, key);
    AddedSize(m, key, v);
    hide Distinct, Touch;
    forall k ensures k in Touch(order, key) <==> k in m[key := v] {
      assert k in m[key := v] <==> k in m || k == key;
    }
  }
}

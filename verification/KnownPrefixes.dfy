/** The bounded registry of hot prefixes (internal/gateway/admission.go:64-134). */
module KnownPrefixes {
  import opened Recency

  datatype Registry = Registry(capacity: int, toks: map<string, int>, order: seq<string>) {
    /** The order lists exactly the keys, each once, within the capacity. */
    ghost predicate Valid() {
      capacity > 0 && Lists(order, toks) && |order| <= capacity
    }
  }

  function Empty(capacity: int): Registry {
    Registry(capacity, map[], [])
  }

  // ---------------------------------------------------------------- the operations

  /** Room for one more key: the oldest one goes when the registry is full. */
  function Evict(r: Registry): Registry {
    if |r.toks| >= r.capacity && r.order != [] then Registry(r.capacity, r.toks - {r.order[0]}, r.order[1..]) else r
  }

  function Record(r: Registry, key: string, tokens: int): Registry {
    var e := if key !in r.toks then Evict(r) else r;
    Registry(e.capacity, e.toks[key := tokens], Touch(e.order, key))
  }

  function Forget(r: Registry, key: string): Registry {
    if key !in r.toks then r else Registry(r.capacity, r.toks - {key}, Drop(r.order, key))
  }

  function Refresh(r: Registry, key: string): Registry {
    if key !in r.toks then r else r.(order := Touch(r.order, key))
  }

  /** What HotTokens reports. */
  function Heat(r: Registry, key: string): int {
    if key in r.toks then r.toks[key] else 0
  }

  datatype Op = RecordOp(key: string, tokens: int) | ForgetOp(key: string) | HotOp(key: string)

  function Apply(r: Registry, op: Op): Registry {
    match op
    case RecordOp(key, tokens) => Record(r, key, tokens)
    case ForgetOp(key) => Forget(r, key)
    case HotOp(key) => Refresh(r, key)
  }

  function Run(r: Registry, ops: seq<Op>): Registry {
    if ops == [] then r else Apply(Run(r, ops[..|ops| - 1]), ops[|ops| - 1])
  }

  // ---------------------------------------------------------------- what a caller sees

  /** A recorded key is hot with its tokens; of the others, only the least recently used may have gone. */
  lemma RecordMeans(r: Registry, key: string, tokens: int, other: string)
    requires r.Valid() && other != key
    ensures Heat(Record(r, key, tokens), key) == tokens
    ensures var full := key !in r.toks && |r.toks| == r.capacity;
            Heat(Record(r, key, tokens), other) == if full && r.order[0] == other then 0 else Heat(r, other)
    ensures Record(r, key, tokens).order[|Record(r, key, tokens).order| - 1] == key
  {
    hide Distinct, Drop;
  }

  lemma ForgetMeans(r: Registry, key: string, other: string)
    ensures Heat(Forget(r, key), key) == 0
    ensures other != key ==> Heat(Forget(r, key), other) == Heat(r, other)
  {
  }

  /** Asking for a key changes no heat and makes a known one the most recent. */
  lemma RefreshMeans(r: Registry, key: string, other: string)
    ensures Heat(Refresh(r, key), other) == Heat(r, other)
    ensures key in r.toks ==> Refresh(r, key).order != [] && Refresh(r, key).order[|Refresh(r, key).order| - 1] == key
    ensures key !in r.toks ==> Refresh(r, key) == r && Heat(r, key) == 0
  {
  }

  // ---------------------------------------------------------------- the registry stays well formed

  lemma ForgetKeeps(r: Registry, key: string)
    requires r.Valid()
    ensures Forget(r, key).Valid()
    ensures |Forget(r, key).order| == |r.order| - if key in r.toks then 1 else 0
  {
    if key in r.toks {
      DropElems(r.order, key);
      ListsDrop(r.order, r.toks, key);
      hide Lists, Drop;
    }
  }

  /** Eviction forgets the oldest key. */
  lemma EvictIsForget(r: Registry)
    requires r.Valid() && |r.toks| >= r.capacity
    ensures r.order != [] && r.order[0] in r.toks && Evict(r) == Forget(r, r.order[0])
  {
    DropHead(r.order);
  }

  lemma EvictKeeps(r: Registry)
    requires r.Valid()
    ensures Evict(r).Valid() && |Evict(r).order| < r.capacity && Evict(r).capacity == r.capacity
    ensures forall k :: k in Evict(r).toks ==> k in r.toks
  {
    if |r.toks| >= r.capacity {
      EvictIsForget(r);
      ForgetKeeps(r, r.order[0]);
    }
  }

  lemma ApplyKeeps(r: Registry, op: Op)
    requires r.Valid()
    ensures Apply(r, op).Valid() && Apply(r, op).capacity == r.capacity
  {
    hide Lists, Touch, Evict;
    match op {
      case RecordOp(key, tokens) =>
        EvictKeeps(r);
        var e := if key !in r.toks then Evict(r) else r;
        KeepsKnown(r, e, key);
        ListsTouch(e.order, e.toks, key, tokens);
      case ForgetOp(key) =>
        ForgetKeeps(r, key);
      case HotOp(key) =>
        if key in r.toks {
          ListsTouch(r.order, r.toks, key, r.toks[key]);
          assert r.toks[key := r.toks[key]] == r.toks;
        }
    }
  }

  /** What is recorded next is new and there is room for it, or is known already. */
  lemma KeepsKnown(r: Registry, e: Registry, key: string)
    requires r.Valid() && e == if key !in r.toks then Evict(r) else r
    ensures e.Valid() && e.capacity == r.capacity && (key in e.toks || |e.order| < e.capacity)
  {
    hide Lists, Evict;
    EvictKeeps(r);
  }

  lemma {:induction false} RunKeeps(r: Registry, ops: seq<Op>)
    requires r.Valid()
    ensures Run(r, ops).Valid() && Run(r, ops).capacity == r.capacity
  {
    if ops != [] {
      RunKeeps(r, ops[..|ops| - 1]);
      ApplyKeeps(Run(r, ops[..|ops| - 1]), ops[|ops| - 1]);
    }
  }

  // ---------------------------------------------------------------- inclusion

  /**
  `small` is what a smaller registry would hold: its order is a subsequence of the larger
  one's, with the same values, and it is not emptier than the capacities explain.
  */
  ghost predicate Included(small: Registry, large: Registry) {
    && small.order == Keep(large.order, small.toks.Keys)
    && (forall k :: k in small.toks ==> k in large.toks && large.toks[k] == small.toks[k])
    && |large.order| - |small.order| <= large.capacity - small.capacity
  }

  lemma ForgetIncluded(small: Registry, large: Registry, key: string)
    requires small.Valid() && large.Valid() && Included(small, large)
    ensures Included(Forget(small, key), Forget(large, key))
  {
    hide Keep, Drop, Distinct, Forget;
    ForgetForm(small, key);
    ForgetForm(large, key);
    DropBoth(small.order, large.order, small.toks.Keys, key);
    assert (small.toks - {key}).Keys == small.toks.Keys - {key};
  }

  /** Both lists lose the key. */
  lemma DropBoth(small: seq<string>, large: seq<string>, keys: set<string>, key: string)
    requires small == Keep(large, keys)
    ensures Drop(small, key) == Keep(Drop(large, key), keys - {key})
  {
    KeepDrop(large, keys, key);
    DropElems(large, key);
    KeepSame(Drop(large, key), keys, keys - {key});
  }

  lemma ForgetForm(r: Registry, key: string)
    requires r.Valid()
    ensures Forget(r, key) == Registry(r.capacity, r.toks - {key}, Drop(r.order, key))
    ensures |Drop(r.order, key)| == |r.order| - if key in r.toks then 1 else 0
  {
    DropElems(r.order, key);
    DropDistinct(r.order, key);
    if key !in r.toks {
      assert r.toks - {key} == r.toks;
    }
  }

  /** Both lists move the key to the end. */
  lemma TouchBoth(small: seq<string>, large: seq<string>, keys: set<string>, key: string)
    requires small == Keep(large, keys) && key in keys
    ensures Touch(small, key) == Keep(Touch(large, key), keys)
  {
    KeepDrop(large, keys, key);
    KeepAppend(Drop(large, key), key, keys);
  }

  /** Only the larger list has the key; the smaller one does not see the move. */
  lemma TouchLarge(small: seq<string>, large: seq<string>, keys: set<string>, key: string)
    requires small == Keep(large, keys) && key !in keys
    ensures small == Keep(Touch(large, key), keys)
  {
    KeepDrop(large, keys, key);
    KeepAppend(Drop(large, key), key, keys);
    assert keys - {key} == keys;
  }

  lemma HotIncluded(small: Registry, large: Registry, key: string)
    requires small.Valid() && large.Valid() && Included(small, large)
    ensures Included(Refresh(small, key), Refresh(large, key))
  {
    TouchKeeps(small.order, key);
    TouchKeeps(large.order, key);
    if key in small.toks {
      TouchBoth(small.order, large.order, small.toks.Keys, key);
    } else if key in large.toks {
      TouchLarge(small.order, large.order, small.toks.Keys, key);
    }
  }

  /** A full larger registry means a full smaller one, and the larger's oldest key is no loss to it. */
  lemma EvictIncluded(small: Registry, large: Registry)
    requires small.Valid() && large.Valid() && Included(small, large)
    ensures Included(Evict(small), Evict(large))
  {
    if |large.toks| >= large.capacity {
      EvictBoth(small, large);
    } else {
      hide Keep, Distinct;
      EvictSmall(small, large);
    }
  }

  lemma EvictBoth(small: Registry, large: Registry)
    requires small.Valid() && large.Valid() && Included(small, large) && |large.toks| >= large.capacity
    ensures Included(Evict(small), Evict(large))
  {
    hide Evict, Forget, Drop, Keep, Distinct;
    EvictIsForget(large);
    EvictIsForget(small);
    var gone, oldest := small.order[0], large.order[0];
    OldestIsNoLoss(small, large);
    EvictSmall(small, large);
    ForgetForm(small, gone);
    ForgetForm(large, oldest);
    assert (small.toks - {gone}).Keys == small.toks.Keys - {gone};
  }

  lemma OldestIsNoLoss(small: Registry, large: Registry)
    requires small.Valid() && large.Valid() && Included(small, large) && small.order != [] && large.order != []
    ensures large.order[0] !in small.toks.Keys - {small.order[0]}
    ensures Keep(large.order, small.toks.Keys - {small.order[0]}) ==
        Keep(Drop(large.order, large.order[0]), small.toks.Keys - {small.order[0]})
  {
    var keys, oldest := small.toks.Keys - {small.order[0]}, large.order[0];
    if oldest in small.toks {
      KeepHead(large.order, small.toks.Keys);
    }
    KeepDrop(large.order, keys, oldest);
    assert keys - {oldest} == keys;
  }

  lemma EvictSmall(small: Registry, large: Registry)
    requires small.Valid() && large.Valid() && Included(small, large)
    ensures Evict(small).order == Keep(large.order, Evict(small).toks.Keys)
    ensures |Evict(small).order| == if |small.order| >= small.capacity then small.capacity - 1 else |small.order|
  {
    if |small.toks| >= small.capacity {
      DropHead(small.order);
      KeepDrop(large.order, small.toks.Keys, small.order[0]);
      assert Evict(small).toks.Keys == small.toks.Keys - {small.order[0]};
    }
  }

  lemma RecordIncluded(small: Registry, large: Registry, key: string, tokens: int)
    requires small.Valid() && large.Valid() && Included(small, large) && small.capacity <= large.capacity
    ensures Included(Record(small, key, tokens), Record(large, key, tokens))
  {
    var s := if key !in small.toks then Evict(small) else small;
    var l := if key !in large.toks then Evict(large) else large;
    EvictKeeps(small);
    EvictKeeps(large);
    EvictIncluded(small, large);
    EvictSmall(small, large);
    hide Keep, Drop, Distinct;
    TouchKeeps(s.order, key);
    TouchKeeps(l.order, key);
    InsertIncluded(s, l, key, tokens);
  }

  /** With room on both sides, writing the same key to both keeps the inclusion. */
  lemma InsertIncluded(s: Registry, l: Registry, key: string, tokens: int)
    requires s.order == Keep(l.order, s.toks.Keys)
    requires forall k :: k in s.toks ==> k in l.toks && l.toks[k] == s.toks[k]
    requires |Touch(l.order, key)| - |Touch(s.order, key)| <= l.capacity - s.capacity
    ensures Included(Registry(s.capacity, s.toks[key := tokens], Touch(s.order, key)),
                     Registry(l.capacity, l.toks[key := tokens], Touch(l.order, key)))
  {
    hide Keep, Drop;
    var keys := s.toks.Keys + {key};
    assert s.toks[key := tokens].Keys == keys;
    KeepDrop(l.order, s.toks.Keys, key);
    KeepDrop(l.order, keys, key);
    KeepAppend(Drop(l.order, key), key, keys);
    assert keys - {key} == s.toks.Keys - {key};
  }

  lemma ApplyIncluded(small: Registry, large: Registry, op: Op)
    requires small.Valid() && large.Valid() && Included(small, large) && small.capacity <= large.capacity
    ensures Included(Apply(small, op), Apply(large, op))
  {
    hide Included;
    match op {
      case RecordOp(key, tokens) => RecordIncluded(small, large, key, tokens);
      case ForgetOp(key) => ForgetIncluded(small, large, key);
      case HotOp(key) => HotIncluded(small, large, key);
    }
  }

  /** Driven by the same trace, the smaller registry is always included in the larger one. */
  lemma {:induction false} InclusionProperty(small: int, large: int, ops: seq<Op>)
    requires 0 < small <= large
    ensures Included(Run(Empty(small), ops), Run(Empty(large), ops))
  {
    hide Included;
    if ops == [] {
      assert Included(Empty(small), Empty(large)) by { EmptyIncluded(small, large); }
    } else {
      var front := ops[..|ops| - 1];
      InclusionProperty(small, large, front);
      RunKeeps(Empty(small), front);
      RunKeeps(Empty(large), front);
      ApplyIncluded(Run(Empty(small), front), Run(Empty(large), front), ops[|ops| - 1]);
    }
  }

  lemma EmptyIncluded(small: int, large: int)
    requires small <= large
    ensures Included(Empty(small), Empty(large))
  {
  }

  /** So the smaller registry never reports heat the larger one does not. */
  lemma SmallerNeverHotter(small: int, large: int, ops: seq<Op>, key: string)
    requires 0 < small <= large
    ensures var s, l := Heat(Run(Empty(small), ops), key), Heat(Run(Empty(large), ops), key);
            s == l || s == 0
  {
    InclusionProperty(small, large, ops);
  }

  // ---------------------------------------------------------------- the object

  class PrefixRegistry {
    const capacity: int
    var toks: map<string, int>
    var order: seq<string>

    function State(): Registry
      reads this
    {
      Registry(capacity, toks, order)
    }

    constructor (capacity: int)
      requires capacity > 0
      ensures State() == Empty(capacity) && State().Valid()
    {
      this.capacity, toks, order := capacity, map[], [];
    }

    method RecordKey(key: string, tokens: int)
      requires State().Valid()
      modifies this
      ensures State() == Record(old(State()), key, tokens) && State().Valid()
    {
      ApplyKeeps(State(), RecordOp(key, tokens));
      EvictKeeps(State());
      if key !in toks && |toks| >= capacity {
        toks := toks - {order[0]};
        order := order[1..];
      }
      toks := toks[key := tokens];
      order := MoveToEnd(order, key);
    }

    method ForgetKey(key: string)
      requires State().Valid()
      modifies this
      ensures State() == Forget(old(State()), key) && State().Valid()
    {
      ApplyKeeps(State(), ForgetOp(key));
      if key !in toks {
        return;
      }
      toks := toks - {key};
      for i := 0 to |order|
        invariant order == old(order)
        invariant forall k :: 0 <= k < i ==> order[k] != key
      {
        if order[i] == key {
          SpliceIsDrop(order, i);
          order := order[..i] + order[i + 1..];
          return;
        }
      }
    }

    method HotTokens(key: string) returns (tokens: int)
      requires State().Valid()
      modifies this
      ensures tokens == Heat(old(State()), key) && State() == Refresh(old(State()), key) && State().Valid()
    {
      ApplyKeeps(State(), HotOp(key));
      if key !in toks {
        return 0;
      }
      order := MoveToEnd(order, key);
      return toks[key];
    }
  }

  /** NewKnownPrefixes: null stands for the error. */
  method NewRegistry(capacity: int) returns (r: PrefixRegistry?)
    ensures r == null <==> capacity <= 0
    ensures r != null ==> fresh(r) && r.State() == Empty(capacity) && r.State().Valid()
  {
    r := null;
    if capacity > 0 {
      r := new PrefixRegistry(capacity);
    }
  }
}

/**
The conversation-to-engine table of the decode balancer
(internal/coordinator/balancer.go:400-442, 485-514).
*/
module StickyTable {
  import opened Options
  import opened Sets
  import opened Recency

  const STICKY_CAP: int := 256

  /** What chooseNode reads of an engine: fenced or not, requests and tokens in flight. */
  datatype Engine = Engine(excluded: bool, inflight: int, tokens: int)

  datatype Table = Table(sticky: map<string, nat>, order: seq<string>, rr: nat) {
    /** The order lists exactly the keys, each once, at most 256 of them; every index names an engine. */
    ghost predicate Valid(engines: nat) {
      Lists(order, sticky) && |order| <= STICKY_CAP && (forall k :: k in sticky ==> sticky[k] < engines)
    }
  }

  // ---------------------------------------------------------------- choosing an engine

  function Available(engines: seq<Engine>): nat {
    if engines == [] then 0 else Available(engines[..|engines| - 1]) + if engines[|engines| - 1].excluded then 0 else 1
  }

  /** Available counts the engines that are not fenced. */
  lemma AvailableMeans(engines: seq<Engine>, e: Engine)
    ensures Available(engines + [e]) == Available(engines) + if e.excluded then 0 else 1
    ensures Available([]) == 0
  {
    assert (engines + [e])[..|engines|] == engines;
  }

  predicate LighterThan(a: Engine, b: Engine) {
    a.tokens < b.tokens || (a.tokens == b.tokens && a.inflight < b.inflight)
  }

  /** An unfenced engine no unfenced engine is lighter than; the first of them. */
  ghost predicate LeastLoaded(engines: seq<Engine>, i: nat) {
    && i < |engines| && !engines[i].excluded
    && (forall j :: 0 <= j < |engines| && !engines[j].excluded ==> !LighterThan(engines[j], engines[i]))
    && (forall j :: 0 <= j < i && !engines[j].excluded ==> LighterThan(engines[i], engines[j]))
  }

  /** The k-th unfenced engine, counting from zero. */
  ghost predicate Nth(engines: seq<Engine>, k: nat, i: nat) {
    i < |engines| && !engines[i].excluded && Available(engines[..i]) == k
  }

  /**
  The engines as chooseNode reads them: the fence of the assigned one, the scan for the least
  loaded, the scan of the rotation. Fences change between the readings, outside its lock.
  */
  datatype Readings = Readings(sticky: seq<Engine>, scan: seq<Engine>, again: seq<Engine>)

  predicate OfSize(r: Readings, n: nat) {
    |r.sticky| == n && |r.scan| == n && |r.again| == n
  }

  /**
  Where a conversation without a usable assignment goes: the least loaded engine, or, with
  that one idle and others available, the next in rotation among those unfenced by then; the
  least loaded one after all when the rotation runs out of engines.
  */
  ghost predicate PlacedAt(engines: seq<Engine>, again: seq<Engine>, rr: nat, i: nat) {
    exists best: nat :: LeastLoaded(engines, best) && TurnTo(engines, again, rr, best, i)
  }

  ghost predicate TurnTo(engines: seq<Engine>, again: seq<Engine>, rr: nat, best: nat, i: nat)
    requires best < |engines|
  {
    if engines[best].tokens == 0 && engines[best].inflight == 0 && Available(engines) > 1
       && rr % Available(engines) < Available(again)
    then Nth(again, rr % Available(engines), i)
    else i == best
  }

  /** The rotation moves on when the lightest engine is idle and has company. */
  ghost predicate Rotates(engines: seq<Engine>) {
    exists best: nat :: LeastLoaded(engines, best) &&
                   engines[best].tokens == 0 && engines[best].inflight == 0 && Available(engines) > 1
  }

  lemma LightestIsUnique(engines: seq<Engine>, a: nat, b: nat)
    requires LeastLoaded(engines, a) && LeastLoaded(engines, b)
    ensures a == b
  {
  }

  /** The first scan of chooseNode. */
  method ScanLeastLoaded(engines: seq<Engine>) returns (best: Option<nat>, avail: nat)
    ensures avail == Available(engines)
    ensures best.None? ==> forall j :: 0 <= j < |engines| ==> engines[j].excluded
    ensures best.Some? ==> LeastLoaded(engines, best.value)
    ensures best.Some? ==>
              best.value < |engines| && !engines[best.value].excluded &&
              forall j :: 0 <= j < |engines| && !engines[j].excluded ==>
                            var a, b := engines[best.value], engines[j];
                            a.tokens < b.tokens || (a.tokens == b.tokens && a.inflight < b.inflight)
                            || (a.tokens == b.tokens && a.inflight == b.inflight && best.value <= j)
  {
    best, avail := None, 0;
    for i := 0 to |engines|
      invariant avail == Available(engines[..i])
      invariant best.None? ==> forall j :: 0 <= j < i ==> engines[j].excluded
      invariant best.Some? ==> best.value < i && LeastLoaded(engines[..i], best.value)
    {
      assert engines[..i + 1][..i] == engines[..i];
      if !engines[i].excluded {
        avail := avail + 1;
        if best.None? || LighterThan(engines[i], engines[best.value]) {
          best := Some(i);
        }
      }
    }
    assert engines[..|engines|] == engines;
  }

  /** The rotation scan: the k-th unfenced engine, if there are that many. */
  method ScanNth(engines: seq<Engine>, k: nat) returns (i: Option<nat>)
    ensures i.Some? <==> k < Available(engines)
    ensures i.Some? ==> Nth(engines, k, i.value)
  {
    var left := k;
    for n := 0 to |engines|
      invariant left >= 0 && left + Available(engines[..n]) == k
    {
      assert engines[..n + 1][..n] == engines[..n];
      if !engines[n].excluded {
        if left == 0 {
          AvailableGrows(engines, n + 1);
          return Some(n);
        }
        left := left - 1;
      }
    }
    assert engines[..|engines|] == engines;
    return None;
  }

  lemma {:induction false} AvailableGrows(engines: seq<Engine>, n: nat)
    requires n <= |engines|
    ensures Available(engines[..n]) <= Available(engines)
  {
    if n == |engines| {
      assert engines[..n] == engines;
    } else {
      var front := engines[..|engines| - 1];
      assert front[..n] == engines[..n];
      AvailableGrows(front, n);
    }
  }

  // ---------------------------------------------------------------- the table as a value

  function Evict(t: Table): Table {
    if |t.sticky| >= STICKY_CAP && t.order != []
    then t.(sticky := t.sticky - {t.order[0]}, order := t.order[1..])
    else t
  }

  function Assign(t: Table, key: string, idx: nat): Table {
    var e := if key !in t.sticky then Evict(t) else t;
    Table(e.sticky[key := idx], Touch(e.order, key), e.rr)
  }

  /** A conversation keeps its engine while that engine is not fenced. */
  predicate Keeps(t: Table, key: string, engines: seq<Engine>) {
    key in t.sticky && t.sticky[key] < |engines| && !engines[t.sticky[key]].excluded
  }

  predicate AllFenced(engines: seq<Engine>) {
    forall j :: 0 <= j < |engines| ==> engines[j].excluded
  }

  /** chooseNode as a relation between the table before, its answer and the table after. */
  ghost predicate Chooses(t: Table, key: string, r: Readings, node: Option<nat>, u: Table) {
    if Keeps(t, key, r.sticky) then node == Some(t.sticky[key]) && u == t.(order := Touch(t.order, key))
    else if AllFenced(r.scan) then node.None? && u == t
    else
      && node.Some? && PlacedAt(r.scan, r.again, t.rr, node.value)
      && u == Assign(t, key, node.value).(rr := t.rr + if Rotates(r.scan) then 1 else 0)
  }

  /** Evicting drops the oldest key. */
  lemma EvictDrops(t: Table, engines: nat)
    requires t.Valid(engines) && |t.sticky| >= STICKY_CAP
    ensures t.order != [] && t.order[0] in t.sticky
    ensures Evict(t) == t.(sticky := t.sticky - {t.order[0]}, order := Drop(t.order, t.order[0]))
  {
    DropHead(t.order);
  }

  /** Dropping a key from the order and the table together keeps the table sound. */
  lemma DropKeeps(t: Table, key: string, engines: nat)
    requires t.Valid(engines) && key in t.sticky
    ensures t.(sticky := t.sticky - {key}, order := Drop(t.order, key)).Valid(engines)
    ensures |Drop(t.order, key)| == |t.order| - 1
  {
    hide Lists, Drop;
    ListsDrop(t.order, t.sticky, key);
  }

  lemma EvictKeeps(t: Table, engines: nat)
    requires t.Valid(engines)
    ensures Evict(t).Valid(engines) && |Evict(t).order| < STICKY_CAP
    ensures forall k :: k in Evict(t).sticky ==> k in t.sticky
  {
    if |t.sticky| >= STICKY_CAP {
      EvictDrops(t, engines);
      DropKeeps(t, t.order[0], engines);
      hide Evict, Drop, Lists;
    }
  }

  lemma InsertKeeps(e: Table, key: string, idx: nat, engines: nat)
    requires e.Valid(engines) && idx < engines && (key in e.sticky || |e.order| < STICKY_CAP)
    ensures Table(e.sticky[key := idx], Touch(e.order, key), e.rr).Valid(engines)
  {
    hide Lists, Touch;
    ListsTouch(e.order, e.sticky, key, idx);
  }

  lemma AssignKeeps(t: Table, key: string, idx: nat, engines: nat)
    requires t.Valid(engines) && idx < engines
    ensures Assign(t, key, idx).Valid(engines)
  {
    hide Distinct, Touch, Evict;
    EvictKeeps(t, engines);
    InsertKeeps(if key !in t.sticky then Evict(t) else t, key, idx, engines);
  }

  // ---------------------------------------------------------------- the object

  class Balancer {
    var sticky: map<string, nat>
    var order: seq<string>
    var rr: nat

    function State(): Table
      reads this
    {
      Table(sticky, order, rr)
    }

    constructor ()
      ensures State() == Table(map[], [], 0)
    {
      sticky, order, rr := map[], [], 0;
    }

    /** setLocked: remember() and a new placement both end here. */
    method SetLocked(key: string, idx: nat, ghost engines: nat)
      requires State().Valid(engines) && idx < engines
      modifies this
      ensures State() == Assign(old(State()), key, idx) && State().Valid(engines)
    {
      AssignKeeps(State(), key, idx, engines);
      EvictKeeps(State(), engines);
      if key !in sticky && |sticky| >= STICKY_CAP {
        sticky := sticky - {order[0]};
        order := order[1..];
      }
      sticky := sticky[key := idx];
      order := MoveToEnd(order, key);
    }

    /** remember: moves a conversation to an engine of the pool; an unknown engine changes nothing. */
    method Remember(key: string, node: nat, engines: nat)
      requires State().Valid(engines)
      modifies this
      ensures State() == (if node < engines then Assign(old(State()), key, node) else old(State()))
      ensures State().Valid(engines)
    {
      for i := 0 to engines
        invariant State() == old(State()) && (node < engines ==> i <= node)
      {
        if i == node {
          SetLocked(key, i, engines);
          return;
        }
      }
    }

    /** chooseNode: sticky while unfenced, else placed and remembered; None when all are fenced. */
    method ChooseNode(key: string, r: Readings) returns (node: Option<nat>)
      requires OfSize(r, |r.scan|) && State().Valid(|r.scan|)
      modifies this
      ensures State().Valid(|r.scan|) && Chooses(old(State()), key, r, node, State())
      ensures |sticky| <= 256 && forall k :: k in sticky ==> sticky[k] < |r.scan|
      ensures key in old(sticky) && old(sticky)[key] < |r.sticky| && !r.sticky[old(sticky)[key]].excluded ==>
                node == Some(old(sticky)[key]) && sticky == old(sticky)
      ensures node.Some? ==> key in sticky && sticky[key] == node.value && node.value < |r.scan|
    {
      if key in sticky && sticky[key] < |r.sticky| && !r.sticky[sticky[key]].excluded {
        TouchKeeps(order, key);
        order := MoveToEnd(order, key);
        return Some(sticky[key]);
      }
      var best, avail := ScanLeastLoaded(r.scan);
      if best.None? {
        return None;
      }
      node := PlaceAt(key, r, best.value, avail);
    }

    /** The placement once the lightest engine is known. */
    method PlaceAt(key: string, r: Readings, best: nat, avail: nat) returns (node: Option<nat>)
      requires OfSize(r, |r.scan|) && State().Valid(|r.scan|)
      requires LeastLoaded(r.scan, best) && avail == Available(r.scan)
      requires !Keeps(State(), key, r.sticky)
      modifies this
      ensures State().Valid(|r.scan|) && Chooses(old(State()), key, r, node, State())
    {
      ghost var t := State();
      var idx, turn := PickIndex(r.scan, r.again, rr, best, avail);
      assert !AllFenced(r.scan);
      hide PlacedAt, LeastLoaded, Available, Nth, Assign, Rotates, AllFenced, Keeps;
      if turn {
        rr := rr + 1;
      }
      assert State() == t.(rr := rr);
      AssignIgnoresTurn(t, key, idx, rr);
      SetLocked(key, idx, |r.scan|);
      return Some(idx);
    }
  }

  /** The lightest engine, or the next in rotation; `turn` says whether the rotation moves. */
  method PickIndex(engines: seq<Engine>, again: seq<Engine>, rr: nat, best: nat, avail: nat)
    returns (idx: nat, turn: bool)
    requires LeastLoaded(engines, best) && avail == Available(engines) && |again| == |engines|
    ensures idx < |engines| && PlacedAt(engines, again, rr, idx) && (turn <==> Rotates(engines))
    ensures turn <==> engines[best].tokens == 0 && engines[best].inflight == 0 && avail > 1
    ensures !turn || rr % avail >= Available(again) ==> idx == best
    ensures turn && rr % avail < Available(again) ==>
              !again[idx].excluded && Available(again[..idx]) == rr % avail
  {
    idx, turn := best, false;
    if engines[idx].tokens == 0 && engines[idx].inflight == 0 && avail > 1 {
      var next := ScanNth(again, rr % avail);
      if next.Some? {
        idx := next.value;
      }
      turn := true;
    }
    PlacementFacts(engines, again, rr, best, idx);
  }

  lemma PlacementFacts(engines: seq<Engine>, again: seq<Engine>, rr: nat, best: nat, idx: nat)
    requires LeastLoaded(engines, best) && TurnTo(engines, again, rr, best, idx)
    ensures PlacedAt(engines, again, rr, idx)
    ensures Rotates(engines) <==> engines[best].tokens == 0 && engines[best].inflight == 0 && Available(engines) > 1
  {
    hide TurnTo;
    if other: nat :| LeastLoaded(engines, other) && engines[other].tokens == 0 {
      LightestIsUnique(engines, best, other);
    }
  }

  lemma AssignIgnoresTurn(t: Table, key: string, idx: nat, rr: nat)
    ensures Assign(t.(rr := rr), key, idx) == Assign(t, key, idx).(rr := rr)
  {
  }

  // ---------------------------------------------------------------- a conversation keeps its engine

  /**
  Table operations of other requests and of this one: a use that finds the assignment
  usable touches it; every other use or move assigns.
  */
  datatype Op = TouchOp(key: string) | AssignOp(key: string, idx: nat)

  function Apply(t: Table, op: Op): Table {
    match op
    case TouchOp(key) => t.(order := Touch(t.order, key))
    case AssignOp(key, idx) => Assign(t, key, idx)
  }

  /** Touches are of known keys, assignments of existing engines. */
  predicate Possible(t: Table, op: Op, engines: nat) {
    match op
    case TouchOp(key) => key in t.sticky
    case AssignOp(key, idx) => idx < engines
  }

  lemma ApplyKeeps(t: Table, op: Op, engines: nat)
    requires t.Valid(engines) && Possible(t, op, engines)
    ensures Apply(t, op).Valid(engines)
  {
    match op {
      case TouchOp(key) => TouchKeeps(t.order, key);
      case AssignOp(key, idx) => AssignKeeps(t, key, idx, engines);
    }
  }

  /** Eviction cannot reach a key while fewer than 256 others were used after it. */
  lemma EvictSpares(t: Table, key: string, newcomer: string, since: set<string>, engines: nat)
    requires t.Valid(engines) && key in t.sticky && newcomer !in t.sticky
    requires Newer(t.order, key) <= since && newcomer in since && |since| < STICKY_CAP
    ensures key in Evict(t).sticky && Evict(t).sticky[key] == t.sticky[key]
    ensures Newer(Evict(t).order, key) <= since
  {
    if |t.sticky| >= STICKY_CAP {
      NewerAfterEvict(t.order, key);
      if t.order[0] == key {
        NewerThanOldest(t.order);
        DistinctSize(t.order);
        var others := Elems(t.order) - {key};
        assert |others| == STICKY_CAP - 1;
        assert newcomer !in others && others + {newcomer} <= since;
        SubsetSize(others + {newcomer}, since);
      }
    }
  }

  lemma OtherStepSpares(t: Table, op: Op, key: string, since: set<string>, engines: nat)
    requires t.Valid(engines) && Possible(t, op, engines) && key in t.sticky && op.key != key
    requires Newer(t.order, key) <= since && op.key in since && |since| < STICKY_CAP
    ensures var u := Apply(t, op);
            key in u.sticky && u.sticky[key] == t.sticky[key] && Newer(u.order, key) <= since
  {
    match op {
      case TouchOp(other) => NewerAfterTouch(t.order, key, other);
      case AssignOp(other, idx) =>
        if other !in t.sticky {
          EvictSpares(t, key, other, since, engines);
        }
        var e := if other !in t.sticky then Evict(t) else t;
        NewerAfterTouch(e.order, key, other);
    }
  }

  lemma OwnStepStays(t: Table, op: Op, key: string, engines: nat)
    requires t.Valid(engines) && key in t.sticky && op.key == key && (op.AssignOp? ==> op.idx == t.sticky[key])
    ensures var u := Apply(t, op);
            key in u.sticky && u.sticky[key] == t.sticky[key] && Newer(u.order, key) == {}
  {
    NewerAfterTouch(t.order, key, key);
  }

  // ---------------------------------------------------------------- over whole histories

  /** A call on the balancer, with what chooseNode read of the engines and what it answered. */
  datatype Call = Choose(key: string, readings: Readings, node: Option<nat>) | Remember(key: string, engine: nat)

  /** What a call does to the table of a balancer with n engines. */
  ghost predicate Does(t: Table, call: Call, u: Table, n: nat) {
    match call
    case Choose(key, readings, node) => OfSize(readings, n) && Chooses(t, key, readings, node, u)
    case Remember(key, node) => u == if node < n then Assign(t, key, node) else t
  }

  /** tables[i] is the table before calls[i]. */
  ghost predicate History(tables: seq<Table>, calls: seq<Call>, n: nat) {
    |tables| == |calls| + 1 && forall i :: 0 <= i < |calls| ==> Does(tables[i], calls[i], tables[i + 1], n)
  }

  /** The keys other than `key` that the calls use. */
  function Others(calls: seq<Call>, key: string): set<string> {
    set i | 0 <= i < |calls| && calls[i].key != key :: calls[i].key
  }

  /** The conversation is never used while its engine is fenced, nor remembered elsewhere. */
  ghost predicate Undisturbed(calls: seq<Call>, key: string, idx: nat, n: nat) {
    forall i :: 0 <= i < |calls| && calls[i].key == key ==> LeavesAlone(calls[i], idx, n)
  }

  predicate LeavesAlone(call: Call, idx: nat, n: nat) {
    match call
    case Choose(_, readings, _) => idx < |readings.sticky| && !readings.sticky[idx].excluded
    case Remember(_, node) => node == idx || node >= n
  }

  /** Every call is one of the two table operations, up to the rotation, or changes nothing. */
  lemma CallIsOp(t: Table, call: Call, u: Table, n: nat) returns (op: Option<Op>)
    requires t.Valid(n) && Does(t, call, u, n)
    ensures op.Some? ==> op.value.key == call.key && Possible(t, op.value, n)
    ensures op.Some? ==> u == Apply(t, op.value).(rr := u.rr)
    ensures op.None? ==> u == t
    ensures op == Some(AssignOp(call.key, t.sticky[call.key])) || op == Some(TouchOp(call.key)) || op.None?
            <== call.key in t.sticky && LeavesAlone(call, t.sticky[call.key], n)
  {
    match call
    case Choose(key, r, node) =>
      if Keeps(t, key, r.sticky) {
        op := Some(TouchOp(key));
      } else if AllFenced(r.scan) {
        op := None;
      } else {
        assert node.value < n by { PlacedIsEngine(r.scan, r.again, t.rr, node.value); }
        op := Some(AssignOp(key, node.value));
      }
    case Remember(key, node) =>
      op := if node < n then Some(AssignOp(key, node)) else None;
  }

  lemma PlacedIsEngine(engines: seq<Engine>, again: seq<Engine>, rr: nat, i: nat)
    requires PlacedAt(engines, again, rr, i) && |again| == |engines|
    ensures i < |engines|
  {
  }

  /** The conversation has engine idx, and only keys of `since` were used after it. */
  ghost predicate Settled(t: Table, key: string, idx: nat, since: set<string>, n: nat) {
    t.Valid(n) && key in t.sticky && t.sticky[key] == idx && Newer(t.order, key) <= since
  }

  lemma CallSettles(t: Table, call: Call, u: Table, key: string, idx: nat, since: set<string>, n: nat)
    requires Settled(t, key, idx, since, n) && Does(t, call, u, n) && |since| < STICKY_CAP
    requires if call.key == key then LeavesAlone(call, idx, n) else call.key in since
    ensures Settled(u, key, idx, since, n)
    ensures call.Choose? && call.key == key ==> call.node == Some(idx)
  {
    var op := CallIsOp(t, call, u, n);
    OwnAnswer(t, call, u, key, idx, n);
    hide Does, Chooses, Apply, Newer;
    if op.Some? {
      var v := Apply(t, op.value);
      ApplyKeeps(t, op.value, n);
      if call.key == key {
        OwnStepStays(t, op.value, key, n);
      } else {
        OtherStepSpares(t, op.value, key, since, n);
      }
      TurnDoesNotMatter(v, u.rr, key, idx, since, n);
    }
  }

  lemma OwnAnswer(t: Table, call: Call, u: Table, key: string, idx: nat, n: nat)
    requires key in t.sticky && t.sticky[key] == idx && Does(t, call, u, n)
    requires call.key == key ==> LeavesAlone(call, idx, n)
    ensures call.Choose? && call.key == key ==> call.node == Some(idx)
  {
  }

  lemma TurnDoesNotMatter(t: Table, rr: nat, key: string, idx: nat, since: set<string>, n: nat)
    requires Settled(t, key, idx, since, n)
    ensures Settled(t.(rr := rr), key, idx, since, n)
  {
    hide Distinct, Newer;
  }

  lemma {:induction false} StaysPut(tables: seq<Table>, calls: seq<Call>, key: string, idx: nat,
                                    since: set<string>, n: nat, i: nat)
    requires History(tables, calls, n) && i <= |calls| && Settled(tables[0], key, idx, since, n)
    requires Undisturbed(calls, key, idx, n) && Others(calls, key) <= since && |since| < STICKY_CAP
    ensures Settled(tables[i], key, idx, since, n)
  {
    hide Settled, Does, LeavesAlone;
    if i > 0 {
      StaysPut(tables, calls, key, idx, since, n, i - 1);
      var call := calls[i - 1];
      assert Does(tables[i - 1], call, tables[i - 1 + 1], n);
      assert call.key == key || call.key in Others(calls, key);
      hide History, Undisturbed, Others;
      CallSettles(tables[i - 1], call, tables[i], key, idx, since, n);
    }
  }

  /**
  From its last use on, a conversation keeps its engine, and every chooseNode for it answers that
  engine, over any history of calls that uses fewer than 256 other conversations, unless it is
  used while its engine is fenced or remembered elsewhere.
  */
  lemma ConversationKeepsEngine(tables: seq<Table>, calls: seq<Call>, key: string, idx: nat, n: nat)
    requires History(tables, calls, n) && tables[0].Valid(n) && key in tables[0].sticky && tables[0].sticky[key] == idx
    requires tables[0].order[|tables[0].order| - 1] == key
    requires Undisturbed(calls, key, idx, n) && |Others(calls, key)| < 256
    ensures forall i :: 0 <= i <= |calls| ==> key in tables[i].sticky && tables[i].sticky[key] == idx
    ensures forall i :: 0 <= i < |calls| && calls[i].Choose? && calls[i].key == key ==> calls[i].node == Some(idx)
  {
    var since := Others(calls, key);
    assert Settled(tables[0], key, idx, since, n);
    forall i | 0 <= i <= |calls|
      ensures Settled(tables[i], key, idx, since, n)
      ensures i < |calls| && calls[i].Choose? && calls[i].key == key ==> calls[i].node == Some(idx)
    {
      StaysPut(tables, calls, key, idx, since, n, i);
      hide Settled;
      if i < |calls| && calls[i].Choose? && calls[i].key == key {
        CallSettles(tables[i], calls[i], tables[i + 1], key, idx, since, n);
      }
    }
  }
}

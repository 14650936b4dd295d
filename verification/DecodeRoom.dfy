/**
Room on a decode engine, read from one snapshot of its slots: the cheap check before a
prefill, the eviction before a restore and the committed-KV formula
(internal/coordinator/kvpipe.go:353-441, 845-891; internal/coordinator/serve.go:269-282).
Erasing a slot is assumed to succeed.
*/
module DecodeRoom {
  import opened Seqs

  const DEFAULT_CTX: int := 100096

  /** "" is a slot that reports no id. */
  datatype Slot = Slot(id: string, tokens: nat, busy: bool)

  function BudgetOf(budget: int): int {
    if budget <= 0 then DEFAULT_CTX else budget
  }

  /** Idle and addressable: what makeDecodeRoom may erase. */
  predicate Erasable(s: Slot) {
    !s.busy && s.id != ""
  }

  /** Tokens of the slots that satisfy a condition. */
  function TokensWhere(slots: seq<Slot>, p: Slot -> bool): nat {
    if slots == [] then 0
    else TokensWhere(slots[..|slots| - 1], p) + if p(slots[|slots| - 1]) then slots[|slots| - 1].tokens else 0
  }

  function BusyTokens(slots: seq<Slot>): nat {
    TokensWhere(slots, (s: Slot) => s.busy)
  }

  /** What makeDecodeRoom cannot touch: generating slots and slots without an id. */
  function FixedTokens(slots: seq<Slot>): nat {
    TokensWhere(slots, (s: Slot) => !Erasable(s))
  }

  function AllTokens(slots: seq<Slot>): nat {
    TokensWhere(slots, (s: Slot) => true)
  }

  /** What the engine holds once the slots of `erased` were erased. */
  function TokensLeft(slots: seq<Slot>, erased: set<string>): nat {
    TokensWhere(slots, (s: Slot) => !(Erasable(s) && s.id in erased))
  }

  ghost predicate DistinctIds(slots: seq<Slot>) {
    forall i, j :: 0 <= i < j < |slots| && slots[i].id != "" ==> slots[i].id != slots[j].id
  }

  /** An engine without a known size counts as 100096 tokens. */
  lemma BudgetMeans(budget: int)
    ensures BudgetOf(budget) == if budget > 0 then budget else 100096
  {
  }

  /** Which slots each sum takes in, one slot at a time. */
  lemma TokensMean(slots: seq<Slot>, s: Slot, erased: set<string>)
    ensures BusyTokens(slots + [s]) == BusyTokens(slots) + if s.busy then s.tokens else 0
    ensures FixedTokens(slots + [s]) == FixedTokens(slots) + if s.busy || s.id == "" then s.tokens else 0
    ensures AllTokens(slots + [s]) == AllTokens(slots) + s.tokens
    ensures TokensLeft(slots + [s], erased)
            == TokensLeft(slots, erased) + if !s.busy && s.id != "" && s.id in erased then 0 else s.tokens
    ensures BusyTokens([]) == FixedTokens([]) == AllTokens([]) == TokensLeft([], erased) == 0
  {
    assert (slots + [s])[..|slots|] == slots;
  }

  // ---------------------------------------------------------------- the cheap check

  /** decodeRoom's answer. */
  function FreeTokens(slots: seq<Slot>, budget: int, split: bool): int {
    if forall i :: 0 <= i < |slots| ==> slots[i].busy then 0
    else if split then BudgetOf(budget)
    else BudgetOf(budget) - BusyTokens(slots)
  }

  /** An idle slot smaller than every idle slot before it. */
  predicate NewSmallest(slots: seq<Slot>, i: nat) {
    i < |slots| && !slots[i].busy && forall j :: 0 <= j < i && !slots[j].busy ==> slots[i].tokens < slots[j].tokens
  }

  /** The slot reported for eviction: the last new smallest of the scan that has an id. */
  ghost predicate Reported(slots: seq<Slot>, evict: string) {
    if evict == "" then forall i: nat :: NewSmallest(slots, i) ==> slots[i].id == ""
    else exists i: nat :: NewSmallest(slots, i) && slots[i].id == evict
                          && forall j: nat :: j > i && NewSmallest(slots, j) ==> slots[j].id == ""
  }

  /** Reported, for the first n slots of the snapshot. */
  ghost predicate ReportedIn(slots: seq<Slot>, n: nat, evict: string)
    requires n <= |slots|
  {
    if evict == "" then forall i: nat :: i < n && NewSmallest(slots, i) ==> slots[i].id == ""
    else exists i: nat :: i < n && NewSmallest(slots, i) && slots[i].id == evict
                          && forall j: nat :: i < j < n && NewSmallest(slots, j) ==> slots[j].id == ""
  }

  lemma ReportedNext(slots: seq<Slot>, i: nat, evict: string)
    requires i < |slots| && ReportedIn(slots, i, evict)
    ensures ReportedIn(slots, i + 1, if NewSmallest(slots, i) && slots[i].id != "" then slots[i].id else evict)
  {
    hide NewSmallest;
    if (!NewSmallest(slots, i) || slots[i].id == "") && evict != "" {
      var k: nat :| k < i && NewSmallest(slots, k) && slots[k].id == evict
                    && forall j: nat :: k < j < i && NewSmallest(slots, j) ==> slots[j].id == "";
      assert forall j: nat :: k < j < i + 1 && NewSmallest(slots, j) ==> slots[j].id == "";
    }
  }

  lemma ReportedWhole(slots: seq<Slot>, evict: string)
    requires ReportedIn(slots, |slots|, evict)
    ensures Reported(slots, evict)
  {
    assert forall i: nat :: NewSmallest(slots, i) ==> i < |slots|;
    hide NewSmallest;
    if evict != "" {
      var k: nat :| k < |slots| && NewSmallest(slots, k) && slots[k].id == evict
                    && forall j: nat :: k < j < |slots| && NewSmallest(slots, j) ==> slots[j].id == "";
      assert forall j: nat :: j > k && NewSmallest(slots, j) ==> slots[j].id == "";
    }
  }

  /** `evict` is the smallest idle slot whenever that one has an id. */
  method CheckRoom(slots: seq<Slot>, budget: int, split: bool) returns (free: int, evict: string, evictHeld: int)
    ensures free == FreeTokens(slots, budget, split)
    ensures (exists s :: s in slots && !s.busy) ==>
              && (forall s :: s in slots && !s.busy ==> evictHeld <= s.tokens)
              && (exists s :: s in slots && !s.busy && s.tokens == evictHeld && (s.id == "" || s.id == evict))
              && Reported(slots, evict)
    ensures (forall s :: s in slots ==> s.busy) ==> evict == "" && evictHeld == 0
  {
    hide NewSmallest, Reported, ReportedIn, BudgetOf;
    var held, idle;
    held, idle, evict, evictHeld := ScanSlots(slots);
    if idle == 0 {
      return 0, "", 0;
    }
    ReportedWhole(slots, evict);
    free := if split then BudgetOf(budget) else BudgetOf(budget) - held;
  }

  lemma BusyGrows(slots: seq<Slot>, i: nat)
    requires i < |slots|
    ensures BusyTokens(slots[..i + 1]) == BusyTokens(slots[..i]) + if slots[i].busy then slots[i].tokens else 0
  {
    OneMore(slots, i);
  }

  /** The scan of decodeRoom. */
  method ScanSlots(slots: seq<Slot>) returns (held: nat, idle: nat, evict: string, evictHeld: int)
    ensures held == BusyTokens(slots) && ReportedIn(slots, |slots|, evict)
    ensures idle == 0 <==> forall k :: 0 <= k < |slots| ==> slots[k].busy
    ensures forall s :: s in slots && !s.busy ==> evictHeld <= s.tokens
    ensures idle > 0 ==>
              exists s :: s in slots && !s.busy && s.tokens == evictHeld && (s.id == "" || s.id == evict)
  {
    hide NewSmallest, ReportedIn, BusyTokens;
    held, idle := 0, 0;
    evict, evictHeld := "", -1;
    ghost var m := 0;
    assert BusyTokens(slots[..0]) == 0 by { NothingBusy(); }
    assert ReportedIn(slots, 0, "") by { NothingReported(slots); }
    for i := 0 to |slots|
      invariant held == BusyTokens(slots[..i])
      invariant idle == 0 <==> forall k :: 0 <= k < i ==> slots[k].busy
      invariant idle >= 0 && (evictHeld < 0 <==> idle == 0)
      invariant forall k :: 0 <= k < i && !slots[k].busy ==> evictHeld <= slots[k].tokens
      invariant idle > 0 ==> 0 <= m < i && !slots[m].busy && slots[m].tokens == evictHeld
      invariant idle > 0 && slots[m].id != "" ==> evict == slots[m].id
      invariant ReportedIn(slots, i, evict)
    {
      BusyGrows(slots, i);
      ReportedNext(slots, i, evict);
      assert NewSmallest(slots, i) <==> !slots[i].busy && (evictHeld < 0 || slots[i].tokens < evictHeld) by {
        SmallestSoFar(slots, i, evictHeld);
      }
      if slots[i].busy {
        held := held + slots[i].tokens;
      } else {
        idle := idle + 1;
        if evictHeld < 0 || slots[i].tokens < evictHeld {
          evictHeld := slots[i].tokens;
          m := i;
          if slots[i].id != "" {
            evict := slots[i].id;
          }
        }
      }
    }
    assert slots[..|slots|] == slots;
    if idle > 0 {
      assert slots[m] in slots;
    }
  }

  lemma NothingBusy()
    ensures BusyTokens([]) == 0
  {
  }

  lemma NothingReported(slots: seq<Slot>)
    ensures ReportedIn(slots, 0, "")
  {
  }

  lemma SmallestSoFar(slots: seq<Slot>, i: nat, least: int)
    requires i < |slots| && (least < 0 ==> forall k :: 0 <= k < i ==> slots[k].busy)
    requires forall k :: 0 <= k < i && !slots[k].busy ==> least <= slots[k].tokens
    requires least >= 0 ==> exists k :: 0 <= k < i && !slots[k].busy && slots[k].tokens == least
    ensures NewSmallest(slots, i) <==> !slots[i].busy && (least < 0 || slots[i].tokens < least)
  {
  }

  // ---------------------------------------------------------------- making room

  /** The idle list: original order, then sorted by size. */
  function IdleOf(slots: seq<Slot>): seq<Slot> {
    if slots == [] then []
    else if Erasable(slots[|slots| - 1]) then IdleOf(slots[..|slots| - 1]) + [slots[|slots| - 1]]
    else IdleOf(slots[..|slots| - 1])
  }

  ghost predicate Distinct(idle: seq<Slot>) {
    forall i, j :: 0 <= i < j < |idle| ==> idle[i].id != idle[j].id
  }

  lemma {:induction false} IdleElems(slots: seq<Slot>)
    ensures forall s :: s in IdleOf(slots) <==> s in slots && Erasable(s)
    ensures DistinctIds(slots) ==> Distinct(IdleOf(slots))
  {
    if slots == [] {
    } else {
      var front, last := slots[..|slots| - 1], slots[|slots| - 1];
      assert slots == front + [last];
      IdleElems(front);
      if DistinctIds(slots) && Erasable(last) {
        forall s | s in IdleOf(front) ensures s.id != last.id {
          var i :| 0 <= i < |front| && front[i] == s;
          assert slots[i] == s;
        }
        assert forall i :: 0 <= i < |IdleOf(front)| ==> IdleOf(front)[i] in IdleOf(front);
      }
    }
  }

  /** Idle tokens still held after erasing. */
  function Kept(idle: seq<Slot>, erased: set<string>): nat {
    if idle == [] then 0
    else Kept(idle[..|idle| - 1], erased) + if idle[|idle| - 1].id in erased then 0 else idle[|idle| - 1].tokens
  }

  lemma {:induction false} LeftIsFixedPlusKept(slots: seq<Slot>, erased: set<string>)
    ensures TokensLeft(slots, erased) == FixedTokens(slots) + Kept(IdleOf(slots), erased)
  {
    if slots == [] {
    } else {
      var front, last := slots[..|slots| - 1], slots[|slots| - 1];
      LeftIsFixedPlusKept(front, erased);
      if Erasable(last) {
        assert (IdleOf(front) + [last])[..|IdleOf(front)|] == IdleOf(front);
      }
    }
  }

  lemma {:induction false} KeptConcat(a: seq<Slot>, b: seq<Slot>, erased: set<string>)
    ensures Kept(a + b, erased) == Kept(a, erased) + Kept(b, erased)
  {
    if b == [] {
      assert a + b == a;
    } else {
      KeptConcat(a, b[..|b| - 1], erased);
      assert (a + b)[..|a + b| - 1] == a + b[..|b| - 1];
    }
  }

  lemma KeptInsert(a: seq<Slot>, at: nat, s: Slot, erased: set<string>)
    requires at <= |a|
    ensures Kept(a[..at] + [s] + a[at..], erased) == Kept(a + [s], erased)
  {
    KeptConcat(a[..at] + [s], a[at..], erased);
    KeptConcat(a[..at], [s], erased);
    KeptConcat(a[..at], a[at..], erased);
    KeptConcat(a, [s], erased);
    assert a == a[..at] + a[at..];
  }

  ghost predicate SortedBySize(idle: seq<Slot>) {
    forall i, j :: 0 <= i < j < |idle| ==> idle[i].tokens <= idle[j].tokens
  }

  /** The same slots in another order. */
  ghost predicate SameSlots(a: seq<Slot>, b: seq<Slot>) {
    && |a| == |b| && (forall s :: s in a <==> s in b)
    && (forall erased :: Kept(a, erased) == Kept(b, erased))
  }

  lemma InsertSame(a: seq<Slot>, b: seq<Slot>, at: nat, s: Slot)
    requires SameSlots(a, b) && at <= |a|
    ensures SameSlots(a[..at] + [s] + a[at..], b + [s])
  {
    var r := a[..at] + [s] + a[at..];
    forall erased ensures Kept(r, erased) == Kept(b + [s], erased) {
      KeptInsert(a, at, s, erased);
      KeptConcat(a, [s], erased);
      KeptConcat(b, [s], erased);
    }
    forall x ensures x in r <==> x in b + [s] {
      assert a == a[..at] + a[at..];
      assert x in a <==> x in a[..at] || x in a[at..];
    }
  }

  /** Where the next slot goes keeps the order and the ids apart. */
  lemma InsertSorted(a: seq<Slot>, at: nat, s: Slot)
    requires SortedBySize(a) && Distinct(a) && at <= |a|
    requires forall i :: at <= i < |a| ==> a[i].tokens > s.tokens
    requires at > 0 ==> a[at - 1].tokens <= s.tokens
    requires forall k :: 0 <= k < |a| ==> a[k].id != s.id
    ensures SortedBySize(a[..at] + [s] + a[at..]) && Distinct(a[..at] + [s] + a[at..])
  {
    var r := a[..at] + [s] + a[at..];
    forall i, j | 0 <= i < j < |r| ensures r[i].tokens <= r[j].tokens && r[i].id != r[j].id {
      var k, l := if i < at then i else i - 1, if j < at then j else j - 1;
      assert i == at || r[i] == a[k];
      assert j == at || r[j] == a[l];
    }
  }

  /** sort.Slice by size; equal sizes may come in any order. */
  method SortIdle(idle: seq<Slot>) returns (sorted: seq<Slot>)
    requires Distinct(idle)
    ensures SortedBySize(sorted) && SameSlots(sorted, idle) && Distinct(sorted)
  {
    hide Kept;
    sorted := [];
    for n := 0 to |idle|
      invariant SortedBySize(sorted) && SameSlots(sorted, idle[..n]) && Distinct(sorted)
    {
      var at := |sorted|;
      while at > 0 && sorted[at - 1].tokens > idle[n].tokens
        invariant 0 <= at <= |sorted|
        invariant forall i :: at <= i < |sorted| ==> sorted[i].tokens > idle[n].tokens
      {
        at := at - 1;
      }
      forall k | 0 <= k < |sorted| ensures sorted[k].id != idle[n].id {
        assert sorted[k] in idle[..n];
      }
      hide SortedBySize, Distinct, SameSlots;
      InsertSorted(sorted, at, idle[n]);
      InsertSame(sorted, idle[..n], at, idle[n]);
      OneMore(idle, n);
      sorted := sorted[..at] + [idle[n]] + sorted[at..];
    }
    assert idle[..|idle|] == idle;
  }

  // ---------------------------------------------------------------- the eviction loop

  /** Erased after i turns: the target, and every other non-empty slot met so far. */
  function ErasedBy(idle: seq<Slot>, target: string, i: nat): set<string>
    requires i <= |idle|
  {
    {target} + set k | 0 <= k < i && idle[k].tokens != 0 :: idle[k].id
  }

  /** With everything met, nothing idle is left. */
  lemma {:induction false} NothingKept(idle: seq<Slot>, erased: set<string>)
    requires forall k :: 0 <= k < |idle| && idle[k].tokens != 0 ==> idle[k].id in erased
    ensures Kept(idle, erased) == 0
  {
    if idle != [] {
      NothingKept(idle[..|idle| - 1], erased);
    }
  }

  /** Erasing one more slot releases its tokens, unless it was already erased. */
  lemma {:induction false} KeptErase(idle: seq<Slot>, erased: set<string>, i: nat)
    requires i < |idle| && Distinct(idle)
    ensures Kept(idle, erased + {idle[i].id}) == Kept(idle, erased) - if idle[i].id in erased then 0 else idle[i].tokens
  {
    var n := |idle| - 1;
    if i < n {
      KeptErase(idle[..n], erased, i);
    } else {
      KeptUntouched(idle[..n], erased, idle[n].id);
    }
  }

  lemma {:induction false} KeptUntouched(idle: seq<Slot>, erased: set<string>, id: string)
    requires forall k :: 0 <= k < |idle| ==> idle[k].id != id
    ensures Kept(idle, erased + {id}) == Kept(idle, erased)
  {
    if idle != [] {
      KeptUntouched(idle[..|idle| - 1], erased, id);
    }
  }

  /** Some slot can be erased, and without all of those the state fits. */
  predicate RoomCanBeMade(slots: seq<Slot>, budget: int, split: bool, need: int) {
    && (exists i :: 0 <= i < |slots| && Erasable(slots[i]))
    && (if split then need <= BudgetOf(budget) else FixedTokens(slots) + need <= BudgetOf(budget))
  }

  /** Erased to make room, not because the restore goes there. */
  predicate Sacrificed(e: Slot, target: string, erased: set<string>) {
    e.id in erased && e.id != target
  }

  predicate Spared(s: Slot, erased: set<string>) {
    s.id !in erased && s.tokens != 0
  }

  /** What the eviction may do. */
  ghost predicate FairEviction(slots: seq<Slot>, target: string, erased: set<string>) {
    && (exists s :: s in slots && Erasable(s) && s.id == target)
    && (forall id :: id in erased ==> exists s :: s in slots && Erasable(s) && s.id == id)
    && (forall s, e :: s in slots && e in slots && Erasable(s) && Erasable(e)
                       && Sacrificed(e, target, erased) && Spared(s, erased) ==>
                         e.tokens <= s.tokens)
  }

  method PickTarget(idle: seq<Slot>, want: string) returns (target: string)
    requires idle != []
    ensures exists s :: s in idle && s.id == target
    ensures (exists s :: s in idle && s.id == want) ==> target == want
    ensures !(exists s :: s in idle && s.id == want) ==> target == idle[0].id
  {
    target := idle[0].id;
    assert idle[0] in idle;
    for i := 0 to |idle|
      invariant target == idle[0].id
      invariant forall k :: 0 <= k < i ==> idle[k].id != want
    {
      if idle[i].id == want {
        assert idle[i] in idle;
        return want;
      }
    }
  }

  /** The loop stopped after i turns: the state fits or nothing is left, and not a turn too late. */
  ghost predicate StoppedAt(idle: seq<Slot>, target: string, fixedTokens: nat, room: int, erased: set<string>, i: nat) {
    && i <= |idle| && erased == ErasedBy(idle, target, i)
    && (fixedTokens + Kept(idle, erased) <= room || i == |idle|)
    && (i > 0 ==> fixedTokens + Kept(idle, ErasedBy(idle, target, i - 1)) > room)
  }

  /** The unified loop: cheapest first, until the state fits. */
  method EvictUntilFits(idle: seq<Slot>, target: string, fixedTokens: nat, room: int)
      returns (held: int, erased: set<string>)
    requires Distinct(idle) && exists k :: 0 <= k < |idle| && idle[k].id == target
    ensures held == fixedTokens + Kept(idle, erased)
    ensures exists i: nat :: StoppedAt(idle, target, fixedTokens, room, erased, i)
  {
    held := fixedTokens + SumIdle(idle);
    ghost var t :| 0 <= t < |idle| && idle[t].id == target;
    var j := 0;
    // the target is erased first, whatever it holds
    var size := SizeOf(idle, target);
    KeptErase(idle, {}, t);
    assert {} + {target} == {target};
    held := held - size;
    erased := {target};
    assert ErasedBy(idle, target, 0) == {target};
    hide Kept, ErasedBy, Distinct;
    while j < |idle| && held > room
      invariant 0 <= j <= |idle| && erased == ErasedBy(idle, target, j)
      invariant held == fixedTokens + Kept(idle, erased)
      invariant j > 0 ==> fixedTokens + Kept(idle, ErasedBy(idle, target, j - 1)) > room
    {
      OneMoreTurn(idle, target, j);
      if idle[j].id != target && idle[j].tokens != 0 {
        KeptErase(idle, erased, j);
        held := held - idle[j].tokens;
        erased := erased + {idle[j].id};
      }
      j := j + 1;
    }
    assert StoppedAt(idle, target, fixedTokens, room, erased, j);
  }

  lemma OneMoreTurn(idle: seq<Slot>, target: string, j: nat)
    requires Distinct(idle) && j < |idle|
    ensures var before, erases := ErasedBy(idle, target, j), idle[j].id != target && idle[j].tokens != 0;
            && ErasedBy(idle, target, j + 1) == (if erases then before + {idle[j].id} else before)
            && (erases ==> idle[j].id !in before)
  {
    assert ErasedBy(idle, target, j + 1) ==
        ErasedBy(idle, target, j) + if idle[j].tokens != 0 then {idle[j].id} else {};
  }

  function SumIdle(idle: seq<Slot>): (n: nat)
    ensures n == Kept(idle, {})
  {
    if idle == [] then 0 else SumIdle(idle[..|idle| - 1]) + idle[|idle| - 1].tokens
  }

  method SizeOf(idle: seq<Slot>, id: string) returns (n: nat)
    requires Distinct(idle) && exists k :: 0 <= k < |idle| && idle[k].id == id
    ensures forall k :: 0 <= k < |idle| && idle[k].id == id ==> n == idle[k].tokens
  {
    n := 0;
    for i := 0 to |idle|
      invariant forall k :: 0 <= k < i ==> idle[k].id != id
    {
      if idle[i].id == id {
        return idle[i].tokens;
      }
    }
  }

  datatype RoomResult = Granted(target: string) | AllGenerating | TooBig | StillFull

  lemma SmallerGoesFirst(idle: seq<Slot>, target: string, i: nat, e: Slot, s: Slot)
    requires SortedBySize(idle) && Distinct(idle) && i <= |idle| && e in idle && s in idle
    requires Sacrificed(e, target, ErasedBy(idle, target, i)) && Spared(s, ErasedBy(idle, target, i))
    ensures e.tokens <= s.tokens
  {
    var k :| 0 <= k < i && idle[k].tokens != 0 && idle[k].id == e.id;
    var a :| 0 <= a < |idle| && idle[a] == e;
    assert k == a;
    var b :| 0 <= b < |idle| && idle[b] == s;
    assert b >= i;
  }

  /** Cheapest first: a sacrificed slot came before every non-empty slot that was spared. */
  lemma EvictionIsFair(slots: seq<Slot>, idle: seq<Slot>, target: string, i: nat)
    requires SortedBySize(idle) && i <= |idle| && (forall s :: s in idle <==>
        s in slots && Erasable(s)) && Distinct(idle)
    requires exists s :: s in idle && s.id == target
    ensures FairEviction(slots, target, ErasedBy(idle, target, i))
  {
    hide SortedBySize, Distinct;
    var erased := ErasedBy(idle, target, i);
    forall s, e | s in slots && e in slots && Erasable(s) && Erasable(e) && Sacrificed(e, target, erased) &&
        Spared(s, erased)
      ensures e.tokens <= s.tokens
    {
      SmallerGoesFirst(idle, target, i, e, s);
    }
    forall id | id in erased ensures exists s :: s in slots && Erasable(s) && s.id == id {
      if id != target {
        var k :| 0 <= k < i && idle[k].tokens != 0 && idle[k].id == id;
        assert idle[k] in idle;
      }
    }
  }

  lemma TargetIsFair(slots: seq<Slot>, target: string)
    requires exists s :: s in slots && Erasable(s) && s.id == target
    ensures FairEviction(slots, target, {target})
  {
  }

  /** Nothing is sacrificed in vain: without the last erase the state would not have fitted. */
  ghost predicate Lean(slots: seq<Slot>, target: string, erased: set<string>, room: int) {
    erased == {target} ||
    exists e :: e in slots && Sacrificed(e, target, erased) && TokensLeft(slots, erased - {e.id}) > room
  }

  lemma EvictionIsLean(slots: seq<Slot>, idle: seq<Slot>, target: string, room: int, erased: set<string>, i: nat)
    requires Distinct(idle) && SameSlots(idle, IdleOf(slots)) &&
        StoppedAt(idle, target, FixedTokens(slots), room, erased, i)
    requires TokensLeft(slots, erased) <= room
    ensures Lean(slots, target, erased, room)
  {
    LeftIsFixedPlusKept(slots, erased);
    if i == 0 {
      assert erased == {target};
    } else {
      var last, before := idle[i - 1], ErasedBy(idle, target, i - 1);
      LeftIsFixedPlusKept(slots, before);
      LastTurnErases(idle, target, i);
      IdleElems(slots);
      hide Kept, IdleOf, Distinct, ErasedBy, TokensLeft;
      assert last in idle;
    }
  }

  lemma LastTurnErases(idle: seq<Slot>, target: string, i: nat)
    requires Distinct(idle) && 0 < i <= |idle|
    requires ErasedBy(idle, target, i) != ErasedBy(idle, target, i - 1)
    ensures Sacrificed(idle[i - 1], target, ErasedBy(idle, target, i))
    ensures ErasedBy(idle, target, i) - {idle[i - 1].id} == ErasedBy(idle, target, i - 1)
  {
    OneMoreTurn(idle, target, i - 1);
  }

  /**
  makeDecodeRoom on a readable snapshot: it succeeds exactly when the room can be made, never
  erases a generating slot, sacrifices the smallest caches first and none in vain, and what
  survives fits. A refusal has erased idle slots too: the target always, all of them at the end.
  */
  method MakeRoom(slots: seq<Slot>, budget: int, split: bool, need: int, want: string)
    returns (r: RoomResult, erased: set<string>)
    requires DistinctIds(slots)
    ensures r.Granted? <==> RoomCanBeMade(slots, budget, split, need)
    ensures r.AllGenerating? <==> forall i :: 0 <= i < |slots| ==> !Erasable(slots[i])
    ensures r.AllGenerating? ==> erased == {}
    ensures forall id :: id in erased ==> exists s :: s in slots && Erasable(s) && s.id == id
    ensures r.StillFull? ==> !split && TokensLeft(slots, erased) == FixedTokens(slots)
    ensures r.Granted? ==> FairEviction(slots, r.target, erased)
    ensures r.Granted? && (exists s :: s in slots && Erasable(s) && s.id == want) ==> r.target == want
    ensures r.Granted? && !(exists s :: s in slots && Erasable(s) && s.id == want) ==>
              exists t :: t in slots && Erasable(t) && t.id == r.target
                          && forall s :: s in slots && Erasable(s) ==> t.tokens <= s.tokens
    ensures r.Granted? && split ==> erased == {r.target}
    ensures r.Granted? && !split ==>
              && TokensLeft(slots, erased) + need <= BudgetOf(budget)
              && Lean(slots, r.target, erased, BudgetOf(budget) - need)
  {
    erased := {};
    var idle, fixedTokens := ListIdle(slots);
    IdleElems(slots);
    if |idle| == 0 {
      assert forall i :: 0 <= i < |slots| ==> slots[i] in slots && slots[i] !in idle;
      return AllGenerating, erased;
    }
    assert idle[0] in slots;
    var sorted := SortIdle(idle);
    hide Kept, TokensWhere, Lean, TokensLeft, SortedBySize;
    var target := PickTarget(sorted, want);
    assert exists s :: s in slots && Erasable(s) && s.id == target;
    if split {
      erased := {target};
      if need > BudgetOf(budget) {
        return TooBig, erased;
      }
      TargetIsFair(slots, target);
      return Granted(target), erased;
    }
    var ok;
    ok, erased := MakeUnifiedRoom(slots, sorted, target, fixedTokens, BudgetOf(budget) - need);
    return if ok then Granted(target) else StillFull, erased;
  }

  /** All slots share one budget: erase the target, then neighbours until `room` is not exceeded. */
  method MakeUnifiedRoom(slots: seq<Slot>, sorted: seq<Slot>, target: string, fixedTokens: nat, room: int)
      returns (ok: bool, erased: set<string>)
    requires Distinct(sorted) && SortedBySize(sorted) && SameSlots(sorted, IdleOf(slots)) &&
        fixedTokens == FixedTokens(slots)
    requires exists s :: s in sorted && s.id == target
    ensures ok <==> FixedTokens(slots) <= room
    ensures FairEviction(slots, target, erased)
    ensures ok ==> TokensLeft(slots, erased) <= room && Lean(slots, target, erased, room)
    ensures !ok ==> TokensLeft(slots, erased) == FixedTokens(slots)
  {
    hide Kept, Lean, FairEviction, SortedBySize;
    ghost var s :| s in sorted && s.id == target;
    ghost var k :| 0 <= k < |sorted| && sorted[k] == s;
    assert sorted[k].id == target;
    var held;
    held, erased := EvictUntilFits(sorted, target, fixedTokens, room);
    ghost var i: nat :| StoppedAt(sorted, target, fixedTokens, room, erased, i);
    LeftIsFixedPlusKept(slots, erased);
    IdleElems(slots);
    EvictionIsFair(slots, sorted, target, i);
    ok := held <= room;
    if ok {
      EvictionIsLean(slots, sorted, target, room, erased, i);
    } else {
      NothingKept(sorted, erased);
    }
  }

  method ListIdle(slots: seq<Slot>) returns (idle: seq<Slot>, fixedTokens: nat)
    ensures idle == IdleOf(slots) && fixedTokens == FixedTokens(slots)
  {
    idle, fixedTokens := [], 0;
    for i := 0 to |slots|
      invariant idle == IdleOf(slots[..i]) && fixedTokens == FixedTokens(slots[..i])
    {
      assert slots[..i + 1][..i] == slots[..i];
      if slots[i].busy || slots[i].id == "" {
        fixedTokens := fixedTokens + slots[i].tokens;
      } else {
        idle := idle + [slots[i]];
      }
    }
    assert slots[..|slots|] == slots;
  }

  // ---------------------------------------------------------------- the two agree

  /** Idle slots the eviction cannot address. */
  function OrphanTokens(slots: seq<Slot>): nat {
    TokensWhere(slots, (s: Slot) => !s.busy && s.id == "")
  }

  lemma {:induction false} FixedIsBusyPlusOrphans(slots: seq<Slot>)
    ensures FixedTokens(slots) == BusyTokens(slots) + OrphanTokens(slots)
  {
    if slots != [] {
      FixedIsBusyPlusOrphans(slots[..|slots| - 1]);
    }
  }

  /** Every idle slot can be addressed, or the ones that cannot are empty and not alone. */
  predicate Addressable(slots: seq<Slot>) {
    && OrphanTokens(slots) == 0
    && ((exists i :: 0 <= i < |slots| && !slots[i].busy) ==> exists i :: 0 <= i < |slots| && Erasable(slots[i]))
  }

  /**
  For every budget and every need the pre-check promises room exactly when the eviction
  delivers it, if and only if the idle slots can be addressed.
  */
  lemma CheckAgreesWithEviction(slots: seq<Slot>)
    ensures Addressable(slots) <==>
              forall budget: int, split: bool, need: int :: need > 0 ==>
                (FreeTokens(slots, budget, split) >= need <==> RoomCanBeMade(slots, budget, split, need))
  {
    FixedIsBusyPlusOrphans(slots);
    if !Addressable(slots) {
      var budget := if BusyTokens(slots) + OrphanTokens(slots) == 0 then 1 else BusyTokens(slots) + OrphanTokens(slots);
      var need := if OrphanTokens(slots) == 0 then 1 else OrphanTokens(slots);
      if OrphanTokens(slots) != 0 {
        OrphansAreIdle(slots);
        assert FreeTokens(slots, budget, false) >= need;
        assert !RoomCanBeMade(slots, budget, false, need);
      } else {
        assert FreeTokens(slots, budget, true) >= need;
        assert !RoomCanBeMade(slots, budget, true, need);
      }
    }
  }

  lemma {:induction false} OrphansAreIdle(slots: seq<Slot>)
    requires OrphanTokens(slots) != 0
    ensures exists i :: 0 <= i < |slots| && !slots[i].busy
  {
    var n := |slots| - 1;
    if slots[n].busy || slots[n].id != "" {
      OrphansAreIdle(slots[..n]);
    }
  }

  /** With an id on every slot the two always agree. */
  /** An idle slot of 5 tokens without an id: the check promises 5 tokens of 5, the eviction has nothing to erase. */
  lemma NamelessSlotDisagrees()
    ensures var slots := [Slot("", 5, false)];
            FreeTokens(slots, 5, false) == 5 && !RoomCanBeMade(slots, 5, false, 5)
  {
    var slots := [Slot("", 5, false)];
    assert slots[..0] == [];
    assert BusyTokens(slots) == BusyTokens([]) + 0;
  }

  lemma IdsMakeSlotsAddressable(slots: seq<Slot>)
    requires forall i :: 0 <= i < |slots| ==> slots[i].id != ""
    ensures Addressable(slots)
  {
    NoOrphans(slots);
  }

  lemma {:induction false} NoOrphans(slots: seq<Slot>)
    requires forall i :: 0 <= i < |slots| ==> slots[i].id != ""
    ensures OrphanTokens(slots) == 0
  {
    if slots != [] {
      NoOrphans(slots[..|slots| - 1]);
    }
  }

  // ---------------------------------------------------------------- committed KV

  /** committedKV: everything held minus the largest idle slot. */
  method CommittedKV(slots: seq<Slot>) returns (committed: int)
    ensures BusyTokens(slots) <= committed <= AllTokens(slots)
    ensures forall s :: s in slots && !s.busy ==> committed + s.tokens <= AllTokens(slots)
    ensures committed == AllTokens(slots) ||
        exists s :: s in slots && !s.busy && committed + s.tokens == AllTokens(slots)
  {
    var held, reclaimable := 0, 0;
    for i := 0 to |slots|
      invariant held == AllTokens(slots[..i])
      invariant 0 <= reclaimable && BusyTokens(slots[..i]) + reclaimable <= held
      invariant forall k :: 0 <= k < i && !slots[k].busy ==> slots[k].tokens <= reclaimable
      invariant reclaimable == 0 || exists k :: 0 <= k < i && !slots[k].busy && slots[k].tokens == reclaimable
      invariant BusyTokens(slots[..i]) <= AllTokens(slots[..i])
    {
      assert slots[..i + 1][..i] == slots[..i];
      var n := slots[i].tokens;
      held := held + n;
      if !slots[i].busy && n > reclaimable {
        reclaimable := n;
      }
      assert BusyTokens(slots[..i + 1]) == BusyTokens(slots[..i]) + if slots[i].busy then n else 0;
    }
    assert slots[..|slots|] == slots;
    committed := held - reclaimable;
    if reclaimable != 0 {
      var k :| 0 <= k < |slots| && !slots[k].busy && slots[k].tokens == reclaimable;
      assert slots[k] in slots;
    }
  }
}

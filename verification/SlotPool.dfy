/**
The prefill slot pool of one engine
(internal/coordinator/kvpipe.go:207-217, 279-321, 517-534), for every interleaving of
acquireSlot, the release closures it hands out and the settings of its budget and mode.
*/
module SlotPool {

  const PREFILL_SLOTS: int := 4

  /** enginePool; `split` says the KV is divided per slot instead of shared. */
  datatype Pool = Pool(free: seq<int>, inflight: int, budget: int, split: bool)

  /** prefillBudgetUse is 0.80; the product is truncated to an int. */
  function Room(budget: int): int {
    if budget >= 0 then budget * 4 / 5 else -((-budget) * 4 / 5)
  }

  function NewPool(budget: int, split: bool): Pool {
    Pool([0, 1, 2, 3], 0, budget, split)
  }

  /** `held` is the occupancy read before the lock was taken, however old. */
  predicate Admits(p: Pool, held: int, tokens: int) {
    var used := if p.split then 0 else if held > p.inflight then held else p.inflight;
    |p.free| > 0 && (used + tokens <= Room(p.budget) || used == 0)
  }

  function Take(p: Pool, tokens: int): Pool
    requires |p.free| > 0
  {
    Pool(p.free[1..], p.inflight + tokens, p.budget, p.split)
  }

  function GiveBack(p: Pool, slot: int, tokens: int): Pool {
    Pool(p.free + [slot], if p.inflight - tokens < 0 then 0 else p.inflight - tokens, p.budget, p.split)
  }

  function Rebudget(p: Pool, n: int): Pool {
    if n <= 0 then p else p.(budget := n)
  }

  /** The pool as the object the locked regions change. */
  class EnginePool {
    var free: seq<int>
    var inflight: int
    var budget: int
    var split: bool

    function State(): Pool
      reads this
    {
      Pool(free, inflight, budget, split)
    }

    constructor (budget: int, split: bool)
      ensures State() == NewPool(budget, split)
    {
      this.budget, this.split := budget, split;
      inflight := 0;
      var slots: seq<int> := [];
      for i := 0 to PREFILL_SLOTS
        invariant |slots| == i && forall k :: 0 <= k < i ==> slots[k] == k
      {
        slots := slots + [i];
      }
      free := slots;
    }

    /** One turn of the acquire loop, from lock to unlock. */
    method TryAcquire(held: int, tokens: int) returns (slot: int, ok: bool)
      modifies this
      ensures ok <==> Admits(old(State()), held, tokens)
      ensures old(split) ==> (ok <==> |old(free)| > 0)
      ensures !old(split) && old(budget) >= 0 ==>
                var used := if held > old(inflight) then held else old(inflight);
                ok <==> |old(free)| > 0 && (used == 0 || 5 * (used + tokens) <= 4 * old(budget))
      ensures ok && !old(split) && old(budget) >= 0 && held > 0 && old(inflight) >= 0 ==>
                5 * (held + tokens) <= 4 * old(budget)
      ensures ok && !old(split) && old(budget) >= 0 && old(inflight) > 0 ==>
                5 * (old(inflight) + tokens) <= 4 * old(budget)
      ensures ok ==> slot == old(free)[0] && State() == Take(old(State()), tokens)
      ensures !ok ==> State() == old(State())
    {
      var room := Room(budget);
      var used := inflight;
      if split {
        used := 0;
      } else if held > used {
        used := held;
      }
      slot, ok := 0, false;
      if |free| > 0 && (used + tokens <= room || used == 0) {
        slot, ok := free[0], true;
        free := free[1..];
        inflight := inflight + tokens;
      }
    }

    /** setEngineBudget; a size that is not positive is ignored. */
    method SetBudget(n: int)
      modifies this
      ensures State() == Rebudget(old(State()), n)
    {
      if n <= 0 {
        return;
      }
      budget := n;
    }

    method SetSplit(divided: bool)
      modifies this
      ensures State() == old(State()).(split := divided)
    {
      split := divided;
    }

    method Release(slot: int, tokens: int)
      modifies this
      ensures State() == GiveBack(old(State()), slot, tokens)
    {
      free := free + [slot];
      inflight := inflight - tokens;
      if inflight < 0 {
        inflight := 0;
      }
    }
  }

  // ---------------------------------------------------------------- concurrent prefills

  datatype Holder = Holder(slot: int, tokens: int)

  datatype System = System(pool: Pool, holders: map<nat, Holder>)

  /** A prompt has at least one token by the time it asks for a slot. */
  datatype Step =
    | Acquire(id: nat, held: int, tokens: int)
    | Release(id: nat)
    | SetBudget(budget: int)
    | SetSplit(split: bool)

  predicate Enabled(s: System, step: Step) {
    match step
    case Acquire(id, held, tokens) => id !in s.holders && tokens >= 1 && Admits(s.pool, held, tokens)
    case Release(id) => id in s.holders
    case SetBudget(_) => true
    case SetSplit(_) => true
  }

  /** The step leaves the budget and the mode alone. */
  predicate Keeps(step: Step) {
    step.Acquire? || step.Release?
  }

  function Apply(s: System, step: Step): System
    requires Enabled(s, step)
  {
    match step
    case Acquire(id, held, tokens) =>
      System(Take(s.pool, tokens), s.holders[id := Holder(s.pool.free[0], tokens)])
    case Release(id) =>
      System(GiveBack(s.pool, s.holders[id].slot, s.holders[id].tokens), s.holders - {id})
    case SetBudget(n) => s.(pool := Rebudget(s.pool, n))
    case SetSplit(divided) => s.(pool := s.pool.(split := divided))
  }

  predicate Runnable(s: System, steps: seq<Step>)
    decreases |steps|
  {
    steps == [] || (Enabled(s, steps[0]) && Runnable(Apply(s, steps[0]), steps[1..]))
  }

  function Run(s: System, steps: seq<Step>): System
    requires Runnable(s, steps)
    decreases |steps|
  {
    if steps == [] then s else Run(Apply(s, steps[0]), steps[1..])
  }

  // ---------------------------------------------------------------- the invariant

  /** Tokens of all holders. */
  ghost function Claimed(holders: map<nat, Holder>): int
    decreases |holders|
  {
    if holders == map[] then 0
    else
      var id :| id in holders;
      holders[id].tokens + Claimed(holders - {id})
  }

  /** The sum does not depend on the order in which holders are counted. */
  lemma {:induction false} ClaimedWithout(holders: map<nat, Holder>, id: nat)
    requires id in holders
    ensures Claimed(holders) == holders[id].tokens + Claimed(holders - {id})
    decreases |holders|
  {
    var x :| x in holders && Claimed(holders) == holders[x].tokens + Claimed(holders - {x});
    if x != id {
      ClaimedWithout(holders - {x}, id);
      ClaimedWithout(holders - {id}, x);
      assert holders - {x} - {id} == holders - {id} - {x};
    }
  }

  lemma ClaimedWith(holders: map<nat, Holder>, id: nat, h: Holder)
    requires id !in holders
    ensures Claimed(holders[id := h]) == Claimed(holders) + h.tokens
  {
    ClaimedWithout(holders[id := h], id);
    assert holders[id := h] - {id} == holders;
  }

  lemma {:induction false} ClaimedPositive(holders: map<nat, Holder>)
    requires forall id :: id in holders ==> holders[id].tokens >= 1
    ensures Claimed(holders) >= |holders|
    decreases |holders|
  {
    if holders != map[] {
      var id :| id in holders;
      ClaimedWithout(holders, id);
      ClaimedPositive(holders - {id});
      assert |holders - {id}| == |holders| - 1 by {
        assert (holders - {id}).Keys == holders.Keys - {id};
        assert |holders.Keys| == |holders| && |(holders - {id}).Keys| == |holders - {id}|;
      }
    }
  }

  /** Free and held slots are {0..3}, each in exactly one place. */
  ghost predicate SlotsPartition(s: System) {
    && (forall k :: 0 <= k < PREFILL_SLOTS ==>
        k in s.pool.free || exists id :: id in s.holders && s.holders[id].slot == k)
    && (forall i :: 0 <= i < |s.pool.free| ==> 0 <= s.pool.free[i] < PREFILL_SLOTS)
    && (forall i, j :: 0 <= i < j < |s.pool.free| ==> s.pool.free[i] != s.pool.free[j])
    && (forall id :: id in s.holders ==> 0 <= s.holders[id].slot < PREFILL_SLOTS && s.holders[id].slot !in s.pool.free)
    && (forall a, b :: a in s.holders && b in s.holders && a != b ==> s.holders[a].slot != s.holders[b].slot)
  }

  ghost predicate Accounted(s: System) {
    && (forall id :: id in s.holders ==> s.holders[id].tokens >= 1)
    && s.pool.inflight == Claimed(s.holders)
  }

  /** Within 80% of the budget, or a single prefill that was let in alone. */
  ghost predicate Bounded(s: System) {
    s.pool.split || s.pool.inflight <= Room(s.pool.budget) || |s.holders| <= 1
  }

  /** What every step keeps, changes of the budget and the mode included. */
  ghost predicate Accounts(s: System) {
    SlotsPartition(s) && Accounted(s)
  }

  ghost predicate Inv(s: System) {
    Accounts(s) && Bounded(s)
  }

  lemma HolderCount(holders: map<nat, Holder>, id: nat)
    requires id in holders
    ensures |holders - {id}| == |holders| - 1
  {
    assert (holders - {id}).Keys == holders.Keys - {id};
    assert |holders.Keys| == |holders| && |(holders - {id}).Keys| == |holders - {id}|;
  }

  /** A release never meets a counter smaller than what it gives back: the clamp at zero is dead. */
  lemma ClampNeverFires(s: System, id: nat)
    requires Accounted(s) && id in s.holders
    ensures s.pool.inflight - s.holders[id].tokens >= 0
  {
    ClaimedWithout(s.holders, id);
    ClaimedPositive(s.holders - {id});
  }

  lemma AcquireKeeps(s: System, id: nat, held: int, tokens: int)
    requires Accounts(s) && Enabled(s, Acquire(id, held, tokens))
    ensures Accounts(Apply(s, Acquire(id, held, tokens)))
    ensures Bounded(s) ==> Bounded(Apply(s, Acquire(id, held, tokens)))
  {
    hide SlotsPartition, Room, Claimed;
    var t := Apply(s, Acquire(id, held, tokens));
    AcquirePartition(s, id, tokens);
    ClaimedWith(s.holders, id, Holder(s.pool.free[0], tokens));
    ClaimedPositive(s.holders);
    assert |t.holders| == |s.holders| + 1 by {
      HolderCount(t.holders, id);
      assert t.holders - {id} == s.holders;
    }
  }

  lemma AcquirePartition(s: System, id: nat, tokens: int)
    requires SlotsPartition(s) && id !in s.holders && |s.pool.free| > 0
    ensures SlotsPartition(System(Take(s.pool, tokens), s.holders[id := Holder(s.pool.free[0], tokens)]))
  {
    var t := System(Take(s.pool, tokens), s.holders[id := Holder(s.pool.free[0], tokens)]);
    assert s.pool.free == [s.pool.free[0]] + t.pool.free;
    forall k | 0 <= k < PREFILL_SLOTS
      ensures k in t.pool.free || exists h :: h in t.holders && t.holders[h].slot == k
    {
      if k == s.pool.free[0] {
        assert t.holders[id].slot == k;
      } else if k !in s.pool.free {
        var h :| h in s.holders && s.holders[h].slot == k;
        assert t.holders[h].slot == k;
      }
    }
  }

  lemma ReleaseKeeps(s: System, id: nat)
    requires Accounts(s) && id in s.holders
    ensures Accounts(Apply(s, Release(id)))
    ensures Bounded(s) ==> Bounded(Apply(s, Release(id)))
  {
    hide SlotsPartition, Room, Claimed;
    ReleasePartition(s, id);
    ClampNeverFires(s, id);
    ClaimedWithout(s.holders, id);
    HolderCount(s.holders, id);
  }

  lemma ReleasePartition(s: System, id: nat)
    requires SlotsPartition(s) && id in s.holders
    ensures SlotsPartition(Apply(s, Release(id)))
  {
    var t := Apply(s, Release(id));
    var slot := s.holders[id].slot;
    ReleaseCovers(s, id);
    FreeGrows(s.pool.free, slot);
    assert t.pool.free == s.pool.free + [slot] && t.holders == s.holders - {id};
    forall h | h in t.holders ensures 0 <= t.holders[h].slot < PREFILL_SLOTS && t.holders[h].slot !in t.pool.free {
      assert h in s.holders && h != id;
    }
  }

  lemma ReleaseCovers(s: System, id: nat)
    requires SlotsPartition(s) && id in s.holders
    ensures var t := Apply(s, Release(id));
            forall k :: 0 <= k < PREFILL_SLOTS ==>
                k in t.pool.free || exists h :: h in t.holders && t.holders[h].slot == k
  {
    var t := Apply(s, Release(id));
    forall k | 0 <= k < PREFILL_SLOTS
      ensures k in t.pool.free || exists h :: h in t.holders && t.holders[h].slot == k
    {
      if k !in s.pool.free && k != s.holders[id].slot {
        var h :| h in s.holders && s.holders[h].slot == k;
        assert h in t.holders && t.holders[h].slot == k;
      }
    }
  }

  lemma FreeGrows(free: seq<int>, slot: int)
    requires forall i, j :: 0 <= i < j < |free| ==> free[i] != free[j]
    requires slot !in free
    ensures forall i, j :: 0 <= i < j < |free + [slot]| ==> (free + [slot])[i] != (free + [slot])[j]
  {
  }

  /** A new budget or mode moves no slot and no token. */
  lemma SettingKeeps(s: System, step: Step)
    requires Accounts(s) && !Keeps(step)
    ensures Accounts(Apply(s, step))
  {
    hide Claimed;
  }

  lemma StepKeeps(s: System, step: Step)
    requires Accounts(s) && Enabled(s, step)
    ensures Accounts(Apply(s, step))
    ensures Keeps(step) && Bounded(s) ==> Bounded(Apply(s, step))
    ensures Keeps(step) ==> Apply(s, step).pool.budget == s.pool.budget && Apply(s, step).pool.split == s.pool.split
  {
    hide Accounts, Bounded;
    match step {
      case Acquire(id, held, tokens) => AcquireKeeps(s, id, held, tokens);
      case Release(id) => ReleaseKeeps(s, id);
      case SetBudget(_) => SettingKeeps(s, step);
      case SetSplit(_) => SettingKeeps(s, step);
    }
  }

  ghost predicate Unchanged(steps: seq<Step>) {
    forall i :: 0 <= i < |steps| ==> Keeps(steps[i])
  }

  /** The accounts over every schedule; the bound while nobody changes the budget or the mode. */
  lemma {:induction false} EveryRunIsSound(s: System, steps: seq<Step>)
    requires Accounts(s) && Runnable(s, steps)
    ensures Accounts(Run(s, steps))
    ensures Unchanged(steps) ==> Run(s, steps).pool.budget == s.pool.budget && Run(s, steps).pool.split == s.pool.split
    ensures Unchanged(steps) && Bounded(s) ==> Bounded(Run(s, steps))
    decreases |steps|
  {
    hide Accounts, Bounded, Keeps, Apply, Enabled;
    if steps != [] {
      StepKeeps(s, steps[0]);
      EveryRunIsSound(Apply(s, steps[0]), steps[1..]);
    }
  }

  lemma NewPoolIsSound(budget: int, split: bool)
    ensures Inv(System(NewPool(budget, split), map[]))
  {
    var start := System(NewPool(budget, split), map[]);
    forall k | 0 <= k < PREFILL_SLOTS ensures k in start.pool.free {
      assert start.pool.free[k] == k;
    }
  }

  /**
  For every schedule from a new pool, however stale the occupancy readings are: slots are
  never lost or shared and the counter is the holders' tokens; while the budget and the mode
  stay as they are, a unified engine stays within 80% of its budget unless exactly one prefill
  is in flight.
  */
  lemma PoolIsSafe(budget: int, split: bool, steps: seq<Step>)
    requires Runnable(System(NewPool(budget, split), map[]), steps)
    ensures var s := Run(System(NewPool(budget, split), map[]), steps);
            && SlotsPartition(s) && s.pool.inflight == Claimed(s.holders)
            && (Unchanged(steps) && !split && budget >= 0 ==>
                  5 * s.pool.inflight <= 4 * budget || |s.holders| == 1 || s.holders == map[])
            && (s.holders == map[] ==> s.pool.inflight == 0)
            && (forall k :: k == 0 || k == 1 || k == 2 || k == 3 ==>
                              (k in s.pool.free <==> !exists id :: id in s.holders && s.holders[id].slot == k))
  {
    var start := System(NewPool(budget, split), map[]);
    NewPoolIsSound(budget, split);
    EveryRunIsSound(start, steps);
    hide Run, Runnable, Unchanged;
    assert Claimed(map[]) == 0;
  }

  /** The bound is restored whenever the pool runs empty: an idle pool is within any budget. */
  lemma IdleIsBounded(s: System, steps: seq<Step>)
    requires Accounts(s) && s.holders == map[] && Runnable(s, steps) && Unchanged(steps)
    ensures Bounded(Run(s, steps))
  {
    hide Accounts, Run, Runnable, Unchanged;
    assert Bounded(s);
    EveryRunIsSound(s, steps);
  }

  /** Lowering the budget under running prefills breaks the bound: 40 + 40 in 100, then 50. */
  lemma SmallerBudgetBreaksTheBound()
    ensures var steps := [Acquire(0, 0, 40), Acquire(1, 0, 40), SetBudget(50)];
            var start := System(NewPool(100, false), map[]);
            Runnable(start, steps) && !Bounded(Run(start, steps))
  {
    var a, b, c := Acquire(0, 0, 40), Acquire(1, 0, 40), SetBudget(50);
    var s0 := System(NewPool(100, false), map[]);
    var s1 := Apply(s0, a);
    var s2 := Apply(s1, b);
    var s3 := Apply(s2, c);
    HolderCount(s1.holders, 0);
    HolderCount(s2.holders, 1);
    assert s1.holders - {0} == map[] && s2.holders - {1} == s1.holders;
    assert !Bounded(s3) && Enabled(s0, a) && Enabled(s1, b) && Enabled(s2, c);
    hide Bounded, Apply, Enabled;
    RunNothing(s3);
    RunOne(s2, c, []);
    RunOne(s1, b, [c]);
    RunOne(s0, a, [b, c]);
    assert [c] + [] == [c] && [b] + [c] == [b, c] && [a] + [b, c] == [a, b, c];
  }

  lemma RunNothing(s: System)
    ensures Runnable(s, []) && Run(s, []) == s
  {
  }

  lemma RunOne(s: System, step: Step, rest: seq<Step>)
    requires Enabled(s, step) && Runnable(Apply(s, step), rest)
    ensures Runnable(s, [step] + rest) && Run(s, [step] + rest) == Run(Apply(s, step), rest)
  {
    hide Apply, Enabled;
    assert ([step] + rest)[1..] == rest;
  }
}

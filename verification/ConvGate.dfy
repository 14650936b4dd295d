/**
The per-conversation gate (internal/gateway/gateway.go:1413-1488) as the critical sections
its mutex delimits, and the system of concurrent requests that run them in any order.
*/
module ConvGate {

  /** `done` names the channel that is closed when the last request of the entry leaves. */
  datatype Entry = Entry(n: int, done: nat)

  /** `closes` lists the channels closed so far, in order; `nextChannel` is the next channel name. */
  datatype Gate = Gate(entries: map<string, Entry>, closes: seq<nat>, nextChannel: nat)

  /** How the first critical section of acquire ends: joined, or blocked on a channel. */
  datatype Attempt = Joined | Blocked(done: nat)

  // ---------------------------------------------------------------- the critical sections

  function JoinEntry(g: Gate, key: string): Gate {
    if key in g.entries then
      var e := g.entries[key];
      g.(entries := g.entries[key := Entry(e.n + 1, e.done)])
    else Gate(g.entries[key := Entry(1, g.nextChannel)], g.closes, g.nextChannel + 1)
  }

  function TryEnter(g: Gate, key: string, limit: int): (Gate, Attempt) {
    if key == "" then (g, Joined)
    else if key !in g.entries || g.entries[key].n == 0 || limit <= 0 then (JoinEntry(g, key), Joined)
    else (g, Blocked(g.entries[key].done))
  }

  function Leave(g: Gate, key: string): Gate {
    if key == "" || key !in g.entries then g
    else
      var e := g.entries[key];
      if e.n - 1 <= 0 then Gate(g.entries - {key}, g.closes + [e.done], g.nextChannel)
      else g.(entries := g.entries[key := Entry(e.n - 1, e.done)])
  }

  /** convGate: each method body is one locked region. */
  class ConversationGate {
    var entries: map<string, Entry>
    var closes: seq<nat>
    var nextChannel: nat

    function State(): Gate
      reads this
    {
      Gate(entries, closes, nextChannel)
    }

    constructor ()
      ensures State() == Gate(map[], [], 0)
    {
      entries, closes, nextChannel := map[], [], 0;
    }

    /** The loop head of acquire. */
    method Attempt(key: string, limit: int) returns (r: Attempt)
      modifies this
      ensures (State(), r) == TryEnter(old(State()), key, limit)
      ensures key == "" ==> r.Joined? && State() == old(State())
      ensures key != "" && key !in old(entries) ==> r.Joined? && key in entries && entries[key].n == 1
      ensures key != "" && key in old(entries) && (old(entries)[key].n == 0 || limit <= 0) ==>
                r.Joined? && entries == old(entries)[key := Entry(old(entries)[key].n + 1, old(entries)[key].done)]
      ensures key != "" && key in old(entries) && old(entries)[key].n != 0 && limit > 0 ==>
                r == Blocked(old(entries)[key].done) && State() == old(State())
    {
      if key == "" {
        return Joined;
      }
      if key !in entries || entries[key].n == 0 || limit <= 0 {
        if key !in entries {
          entries := entries[key := Entry(0, nextChannel)];
          nextChannel := nextChannel + 1;
        }
        entries := entries[key := Entry(entries[key].n + 1, entries[key].done)];
        assert entries == JoinEntry(old(State()), key).entries;
        return Joined;
      }
      return Blocked(entries[key].done);
    }

    /** The branch taken when the cap ran out. */
    method JoinCapped(key: string)
      modifies this
      ensures State() == JoinEntry(old(State()), key)
      ensures key in entries && entries[key].n == (if key in old(entries) then old(entries)[key].n + 1 else 1)
      ensures forall k :: k != key ==>
                            (k in entries <==> k in old(entries)) && (k in entries ==> entries[k] == old(entries)[k])
    {
      if key in entries {
        entries := entries[key := Entry(entries[key].n + 1, entries[key].done)];
      } else {
        entries := entries[key := Entry(1, nextChannel)];
        nextChannel := nextChannel + 1;
      }
    }

    method Release(key: string)
      modifies this
      ensures State() == Leave(old(State()), key)
      ensures key in old(entries) && key != "" && old(entries)[key].n <= 1 ==>
                entries == old(entries) - {key} && closes == old(closes) + [old(entries)[key].done]
      ensures key in old(entries) && key != "" && old(entries)[key].n > 1 ==>
                entries == old(entries)[key := Entry(old(entries)[key].n - 1, old(entries)[key].done)]
    {
      if key == "" || key !in entries {
        return;
      }
      var e := Entry(entries[key].n - 1, entries[key].done);
      entries := entries[key := e];
      if e.n <= 0 {
        closes := closes + [e.done];
        entries := entries - {key};
        assert entries == old(entries) - {key};
      }
    }
  }

  // ---------------------------------------------------------------- concurrent requests

  /**
  Where a request stands: about to lock; past the lock with a channel in hand; blocked on
  the channel or the timer; past its deadline and about to join anyway; admitted; gone.
  */
  datatype Phase = Trying | Checked(done: nat) | Waiting(done: nat) | Capping | InFlight(capped: bool) | Gone

  datatype Request = Request(key: string, limit: int, deadline: int, phase: Phase)

  datatype System = System(gate: Gate, requests: map<nat, Request>, now: int)

  const INITIAL: System := System(Gate(map[], [], 0), map[], 0)

  datatype Step =
    | Arrive(id: nat, key: string, limit: int)
    | Pass(id: nat)
    | Look(id: nat)
    | Wake(id: nat)
    | Join(id: nat)
    | Finish(id: nat)
    | Tick(ms: nat)

  predicate Enabled(s: System, step: Step) {
    match step
    case Arrive(id, key, limit) => id !in s.requests
    case Pass(id) => id in s.requests && s.requests[id].phase.Trying?
    case Look(id) => id in s.requests && s.requests[id].phase.Checked?
    case Wake(id) =>
      && id in s.requests && s.requests[id].phase.Waiting?
      && (s.requests[id].phase.done in s.gate.closes || s.now >= s.requests[id].deadline)
    case Join(id) => id in s.requests && s.requests[id].phase.Capping?
    case Finish(id) => id in s.requests && s.requests[id].phase.InFlight?
    case Tick(ms) => true
  }

  function Move(s: System, id: nat, phase: Phase): map<nat, Request>
    requires id in s.requests
  {
    s.requests[id := s.requests[id].(phase := phase)]
  }

  function Apply(s: System, step: Step): System
    requires Enabled(s, step)
  {
    match step
    case Arrive(id, key, limit) => s.(requests := s.requests[id := Request(key, limit, s.now + limit, Trying)])
    case Pass(id) =>
      var (g, a) := TryEnter(s.gate, s.requests[id].key, s.requests[id].limit);
      s.(gate := g, requests := Move(s, id, if a.Joined? then InFlight(false) else Checked(a.done)))
    case Look(id) =>
      var r := s.requests[id];
      s.(requests := Move(s, id, if s.now >= r.deadline then Capping else Waiting(r.phase.done)))
    case Wake(id) => s.(requests := Move(s, id, Trying))
    case Join(id) => s.(gate := JoinEntry(s.gate, s.requests[id].key), requests := Move(s, id, InFlight(true)))
    case Finish(id) => s.(gate := Leave(s.gate, s.requests[id].key), requests := Move(s, id, Gone))
    case Tick(ms) => s.(now := s.now + ms)
  }

  /** Every step of the schedule is one the system could take. */
  predicate Runnable(s: System, steps: seq<Step>)
    decreases |steps|
  {
    steps == [] || (Enabled(s, steps[0]) && Runnable(Apply(s, steps[0]), steps[1..]))
  }

  function Run(s: System, steps: seq<Step>): System
    requires Runnable(s, steps)
    decreases |steps|
  {
    if steps == [] then s else Run(Apply(s, steps[0]), steps[1..])
  }

  // ---------------------------------------------------------------- the invariant

  function FlyingIn(requests: map<nat, Request>, key: string): set<nat> {
    set id | id in requests && requests[id].phase.InFlight? && requests[id].key == key
  }

  /** An entry exists exactly while requests of its key are in flight, and counts them. */
  ghost predicate CountsMatch(s: System) {
    && "" !in s.gate.entries
    && (forall key :: key != "" ==> (key in s.gate.entries <==> FlyingIn(s.requests, key) != {}))
    && (forall key :: key in s.gate.entries ==> s.gate.entries[key].n == |FlyingIn(s.requests, key)|)
  }

  /** Channels are closed at most once, and a live entry owns an open channel of its own. */
  ghost predicate ChannelsSound(g: Gate) {
    && (forall i, j :: 0 <= i < j < |g.closes| ==> g.closes[i] != g.closes[j])
    && (forall c :: c in g.closes ==> c < g.nextChannel)
    && (forall key :: key in g.entries ==> g.entries[key].done < g.nextChannel && g.entries[key].done !in g.closes)
    && (forall a, b :: a in g.entries && b in g.entries && a != b ==> g.entries[a].done != g.entries[b].done)
  }

  /** A blocked request holds a channel that was closed, or that will be closed with its entry. */
  ghost predicate WaitersSound(s: System) {
    forall id :: id in s.requests && (s.requests[id].phase.Checked? || s.requests[id].phase.Waiting?) ==>
                   var r := s.requests[id];
                   r.phase.done in s.gate.closes || (r.key in s.gate.entries &&
                       s.gate.entries[r.key].done == r.phase.done)
  }

  /** In flight, took its turn: neither capped nor configured not to wait. */
  predicate TookTurn(r: Request) {
    r.phase == InFlight(false) && r.limit > 0 && r.key != ""
  }

  /** One turn at a time per conversation. */
  ghost predicate TurnsExclusive(s: System) {
    forall a, b :: a in s.requests && b in s.requests && a != b
                   && TookTurn(s.requests[a]) && TookTurn(s.requests[b]) ==>
                     s.requests[a].key != s.requests[b].key
  }

  /** Found the conversation busy and is not in yet. */
  predicate HeldUp(phase: Phase) {
    phase.Checked? || phase.Waiting? || phase.Capping?
  }

  ghost predicate CappedHaveKeys(s: System) {
    forall id :: id in s.requests && HeldUp(s.requests[id].phase) ==> s.requests[id].key != ""
  }

  ghost predicate Inv(s: System) {
    CountsMatch(s) && ChannelsSound(s.gate) && WaitersSound(s) && TurnsExclusive(s) && CappedHaveKeys(s)
  }

  // ---------------------------------------------------------------- every step keeps it

  lemma FlyingJoins(s: System, id: nat, capped: bool)
    requires id in s.requests && !s.requests[id].phase.InFlight?
    ensures var after := Move(s, id, InFlight(capped));
            forall key :: FlyingIn(after, key) == if key ==
                s.requests[id].key then FlyingIn(s.requests, key) + {id} else FlyingIn(s.requests, key)
    ensures id !in FlyingIn(s.requests, s.requests[id].key)
  {
    var after := Move(s, id, InFlight(capped));
    forall key
      ensures FlyingIn(after, key) == if key == s.requests[id].key then FlyingIn(s.requests, key) + {id}
          else FlyingIn(s.requests, key)
    {
    }
  }

  lemma FlyingLeaves(s: System, id: nat)
    requires id in s.requests && s.requests[id].phase.InFlight?
    ensures var after := Move(s, id, Gone);
            forall key :: FlyingIn(after, key) == if key ==
                s.requests[id].key then FlyingIn(s.requests, key) - {id} else FlyingIn(s.requests, key)
    ensures id in FlyingIn(s.requests, s.requests[id].key)
  {
    var after := Move(s, id, Gone);
    forall key
      ensures FlyingIn(after, key) == if key == s.requests[id].key then FlyingIn(s.requests, key) - {id}
          else FlyingIn(s.requests, key)
    {
    }
  }

  /** Moving a request between phases that are not in flight changes no count. */
  lemma FlyingStays(s: System, requests: map<nat, Request>, id: nat)
    requires id in requests && !requests[id].phase.InFlight?
    requires id in s.requests ==> !s.requests[id].phase.InFlight?
    requires forall k :: k != id ==> (k in requests <==> k in s.requests) && (k in requests ==>
        requests[k] == s.requests[k])
    ensures forall key :: FlyingIn(requests, key) == FlyingIn(s.requests, key)
  {
    forall key ensures FlyingIn(requests, key) == FlyingIn(s.requests, key) {
    }
  }

  /** The system after a request joins. */
  function Admit(s: System, id: nat, capped: bool): System
    requires id in s.requests
  {
    s.(gate := JoinEntry(s.gate, s.requests[id].key), requests := Move(s, id, InFlight(capped)))
  }

  lemma JoinCounts(s: System, id: nat, capped: bool)
    requires CountsMatch(s) && id in s.requests && !s.requests[id].phase.InFlight? && s.requests[id].key != ""
    ensures CountsMatch(Admit(s, id, capped))
  {
    var t, k := Admit(s, id, capped), s.requests[id].key;
    FlyingJoins(s, id, capped);
    hide FlyingIn;
    assert |FlyingIn(t.requests, k)| == |FlyingIn(s.requests, k)| + 1;
    if k !in s.gate.entries {
      assert FlyingIn(s.requests, k) == {};
    }
    assert id in FlyingIn(t.requests, k);
  }

  lemma JoinChannels(g: Gate, key: string)
    requires ChannelsSound(g)
    ensures ChannelsSound(JoinEntry(g, key))
  {
  }

  lemma JoinTurns(s: System, id: nat, capped: bool)
    requires TurnsExclusive(s) && id in s.requests && !s.requests[id].phase.InFlight?
    requires capped || s.requests[id].limit <= 0 || FlyingIn(s.requests, s.requests[id].key) == {}
    ensures TurnsExclusive(Admit(s, id, capped))
  {
    forall a | a in s.requests && a != id && s.requests[a].key == s.requests[id].key && TookTurn(s.requests[a])
      ensures capped || s.requests[id].limit <= 0
    {
      assert a in FlyingIn(s.requests, s.requests[id].key);
    }
  }

  lemma JoinKeeps(s: System, id: nat, capped: bool)
    requires Inv(s) && id in s.requests && !s.requests[id].phase.InFlight? && s.requests[id].key != ""
    requires capped || s.requests[id].limit <= 0 || FlyingIn(s.requests, s.requests[id].key) == {}
    ensures Inv(Admit(s, id, capped))
  {
    hide CountsMatch, ChannelsSound, TurnsExclusive, WaitersSound, CappedHaveKeys, FlyingIn;
    JoinCounts(s, id, capped);
    JoinChannels(s.gate, s.requests[id].key);
    JoinTurns(s, id, capped);
    JoinWaiters(s, id, capped);
  }

  lemma JoinWaiters(s: System, id: nat, capped: bool)
    requires WaitersSound(s) && CappedHaveKeys(s) && id in s.requests
    ensures WaitersSound(Admit(s, id, capped)) && CappedHaveKeys(Admit(s, id, capped))
  {
  }

  /** The system after a request releases. */
  function Depart(s: System, id: nat): System
    requires id in s.requests
  {
    s.(gate := Leave(s.gate, s.requests[id].key), requests := Move(s, id, Gone))
  }

  lemma FinishCounts(s: System, id: nat)
    requires CountsMatch(s) && id in s.requests && s.requests[id].phase.InFlight?
    ensures CountsMatch(Depart(s, id))
  {
    var k := s.requests[id].key;
    FlyingLeaves(s, id);
    hide FlyingIn;
    var flying := FlyingIn(s.requests, k);
    assert |flying| == |flying - {id}| + 1;
    if k != "" {
      assert k in s.gate.entries;
      assert flying - {id} == {} <==> |flying - {id}| == 0;
    }
  }

  lemma FinishKeeps(s: System, id: nat)
    requires Inv(s) && id in s.requests && s.requests[id].phase.InFlight?
    ensures Inv(Depart(s, id))
  {
    hide CountsMatch, ChannelsSound, TurnsExclusive, WaitersSound, CappedHaveKeys, FlyingIn;
    FinishCounts(s, id);
    LeaveKeepsChannels(s.gate, s.requests[id].key);
    FinishWaiters(s, id);
  }

  lemma FinishWaiters(s: System, id: nat)
    requires WaitersSound(s) && CappedHaveKeys(s) && TurnsExclusive(s) && id in s.requests
    ensures WaitersSound(Depart(s, id)) && CappedHaveKeys(Depart(s, id)) && TurnsExclusive(Depart(s, id))
  {
  }

  lemma LeaveKeepsChannels(g: Gate, key: string)
    requires ChannelsSound(g)
    ensures ChannelsSound(Leave(g, key))
    ensures forall c :: c in g.closes ==> c in Leave(g, key).closes
    ensures key in g.entries && key != "" ==>
        key in Leave(g, key).entries || g.entries[key].done in Leave(g, key).closes
  {
  }

  lemma QuietKeeps(s: System, requests: map<nat, Request>, id: nat)
    requires Inv(s) && id in requests && !requests[id].phase.InFlight?
    requires id in s.requests ==> !s.requests[id].phase.InFlight?
    requires forall k :: k != id ==> (k in requests <==> k in s.requests) && (k in requests ==>
        requests[k] == s.requests[k])
    requires var r := requests[id];
             && (r.phase.Capping? ==> r.key != "")
             && (r.phase.Checked? || r.phase.Waiting? ==>
                   && r.key != ""
                   && (r.phase.done in s.gate.closes ||
                       (r.key in s.gate.entries && s.gate.entries[r.key].done == r.phase.done)))
    ensures Inv(s.(requests := requests))
  {
    FlyingStays(s, requests, id);
  }

  lemma EmptyKeyKeeps(s: System, id: nat)
    requires Inv(s) && id in s.requests && !s.requests[id].phase.InFlight? && s.requests[id].key == ""
    ensures Inv(s.(requests := Move(s, id, InFlight(false))))
  {
    FlyingJoins(s, id, false);
  }

  lemma StepKeepsInv(s: System, step: Step)
    requires Inv(s) && Enabled(s, step)
    ensures Inv(Apply(s, step))
  {
    hide Inv;
    match step {
      case Arrive(id, key, limit) => ArriveKeeps(s, id, key, limit);
      case Pass(id) => PassKeeps(s, id);
      case Look(id) => LookKeeps(s, id);
      case Wake(id) => QuietKeeps(s, Move(s, id, Trying), id);
      case Join(id) => CapJoinKeeps(s, id);
      case Finish(id) => FinishKeeps(s, id);
      case Tick(ms) => TickKeeps(s, ms);
    }
  }

  lemma ArriveKeeps(s: System, id: nat, key: string, limit: int)
    requires Inv(s) && id !in s.requests
    ensures Inv(s.(requests := s.requests[id := Request(key, limit, s.now + limit, Trying)]))
  {
    QuietKeeps(s, s.requests[id := Request(key, limit, s.now + limit, Trying)], id);
  }

  lemma EntriesAreBusy(s: System)
    requires CountsMatch(s)
    ensures forall key :: key in s.gate.entries ==> s.gate.entries[key].n > 0
  {
    forall key | key in s.gate.entries ensures s.gate.entries[key].n > 0 {
      assert key != "" && FlyingIn(s.requests, key) != {};
      assert |FlyingIn(s.requests, key)| != 0;
    }
  }

  lemma PassKeeps(s: System, id: nat)
    requires Inv(s) && Enabled(s, Pass(id))
    ensures Inv(Apply(s, Pass(id)))
  {
    var r := s.requests[id];
    var (g, a) := TryEnter(s.gate, r.key, r.limit);
    if r.key == "" {
      EmptyKeyKeeps(s, id);
    } else if a.Joined? {
      EntriesAreBusy(s);
      JoinKeeps(s, id, false);
    } else {
      QuietKeeps(s, Move(s, id, Checked(a.done)), id);
    }
  }

  lemma LookKeeps(s: System, id: nat)
    requires Inv(s) && Enabled(s, Look(id))
    ensures Inv(Apply(s, Look(id)))
  {
    var r := s.requests[id];
    QuietKeeps(s, Move(s, id, if s.now >= r.deadline then Capping else Waiting(r.phase.done)), id);
  }

  lemma CapJoinKeeps(s: System, id: nat)
    requires Inv(s) && Enabled(s, Join(id))
    ensures Inv(Apply(s, Join(id)))
  {
    JoinKeeps(s, id, true);
  }

  lemma TickKeeps(s: System, ms: nat)
    requires Inv(s)
    ensures Inv(s.(now := s.now + ms))
  {
  }

  /** In every interleaving, at every point. */
  lemma {:induction false} EveryRunIsSound(s: System, steps: seq<Step>)
    requires Inv(s) && Runnable(s, steps)
    ensures Inv(Run(s, steps))
    decreases |steps|
  {
    hide Inv;
    if steps != [] {
      StepKeepsInv(s, steps[0]);
      EveryRunIsSound(Apply(s, steps[0]), steps[1..]);
    }
  }

  /** From the empty gate: counts match, no channel closed twice, one turn at a time. */
  lemma GateIsSafe(steps: seq<Step>)
    requires Runnable(INITIAL, steps)
    ensures Inv(Run(INITIAL, steps))
  {
    assert Inv(INITIAL) by {
      assert forall key :: FlyingIn(INITIAL.requests, key) == {};
    }
    EveryRunIsSound(INITIAL, steps);
  }

  // ---------------------------------------------------------------- progress

  /** A blocked request whose conversation is idle can always wake up. */
  lemma NoLostWakeup(s: System, id: nat)
    requires Inv(s) && id in s.requests && s.requests[id].phase.Waiting?
    requires FlyingIn(s.requests, s.requests[id].key) == {}
    ensures Enabled(s, Wake(id))
  {
  }

  /** How many of its own steps a request past its deadline still needs. */
  function Distance(p: Phase): nat {
    match p
    case Waiting(_) => 4
    case Trying => 3
    case Checked(_) => 2
    case Capping => 1
    case InFlight(_) => 0
    case Gone => 0
  }

  predicate IsOwn(step: Step, id: nat) {
    !step.Tick? && step.id == id
  }

  function OwnSteps(steps: seq<Step>, id: nat): nat {
    if steps == [] then 0 else (if IsOwn(steps[0], id) then 1 else 0) + OwnSteps(steps[1..], id)
  }

  lemma OneStepCloser(s: System, step: Step, id: nat)
    requires Enabled(s, step) && id in s.requests && s.now >= s.requests[id].deadline
    ensures var t := Apply(s, step);
            && id in t.requests && t.requests[id].deadline == s.requests[id].deadline &&
                t.now >= t.requests[id].deadline
            && (!IsOwn(step, id) ==> t.requests[id].phase == s.requests[id].phase)
            && (IsOwn(step, id) ==> Distance(t.requests[id].phase) < Distance(s.requests[id].phase)
                                    || (Distance(s.requests[id].phase) == 0 && t.requests[id].phase.Gone?))
  {
  }

  /**
  Past its deadline a request is admitted within four steps of its own, whatever the others do.
  */
  lemma {:induction false} ExpiredRequestGetsIn(s: System, steps: seq<Step>, id: nat)
    requires Runnable(s, steps) && id in s.requests && s.now >= s.requests[id].deadline
    ensures id in Run(s, steps).requests
    ensures OwnSteps(steps, id) >= Distance(s.requests[id].phase) ==>
              var p := Run(s, steps).requests[id].phase; p.InFlight? || p.Gone?
    decreases |steps|
  {
    if steps != [] {
      OneStepCloser(s, steps[0], id);
      ExpiredRequestGetsIn(Apply(s, steps[0]), steps[1..], id);
    }
  }

  /** And it is never stuck: one of its own steps is always possible. */
  lemma ExpiredRequestCanMove(s: System, id: nat)
    requires id in s.requests && s.now >= s.requests[id].deadline && !s.requests[id].phase.Gone?
    ensures exists step :: IsOwn(step, id) && Enabled(s, step)
  {
    var p := s.requests[id].phase;
    var step := if p.Trying? then Pass(id)
                else if p.Checked? then Look(id)
                else if p.Waiting? then Wake(id)
                else if p.Capping? then Join(id)
                else Finish(id);
    assert IsOwn(step, id) && Enabled(s, step);
  }
}

/**
The service as a whole: concurrent requests that pass the conversation gate, each followed by a
turn that gives the gate back or leaks it (internal/gateway/gateway.go:459-472, 1085-1099,
1404-1488; internal/coordinator/serve.go:1011-1027).
*/
module GateLeaks {
  import opened ConvGate
  import opened PlanLifecycle

  /** `turns` says how each request will go once admitted, `ended` which handlers are over. */
  datatype Service = Service(sys: System, turns: map<nat, Turn>, ended: set<nat>)

  datatype Event =
    | Serve(id: nat, key: string, limit: int, turn: Turn)
    | Proceed(step: Step)
    | End(id: nat)

  const IDLE_SERVICE: Service := Service(INITIAL, map[], {})

  /** The steps of requests on their way in, and of the clock. */
  predicate Entering(step: Step) {
    step.Pass? || step.Look? || step.Wake? || step.Join? || step.Tick?
  }

  predicate Possible(s: Service, e: Event) {
    match e
    case Serve(id, key, limit, turn) => id !in s.sys.requests
    case Proceed(step) => Entering(step) && Enabled(s.sys, step)
    case End(id) => id in s.sys.requests && s.sys.requests[id].phase.InFlight? && id in s.turns && id !in s.ended
  }

  /** A turn that ends makes the one gate call RunTurn makes. */
  function Next(s: Service, e: Event): Service
    requires Possible(s, e)
  {
    match e
    case Serve(id, key, limit, turn) => s.(sys := Apply(s.sys, Arrive(id, key, limit)), turns := s.turns[id := turn])
    case Proceed(step) => s.(sys := Apply(s.sys, step))
    case End(id) =>
      s.(sys := if Leaks(s.turns[id]) then s.sys else Apply(s.sys, ConvGate.Finish(id)), ended := s.ended + {id})
  }

  predicate Playable(s: Service, events: seq<Event>)
    decreases |events|
  {
    events == [] || (Possible(s, events[0]) && Playable(Next(s, events[0]), events[1..]))
  }

  function Play(s: Service, events: seq<Event>): Service
    requires Playable(s, events)
    decreases |events|
  {
    if events == [] then s else Play(Next(s, events[0]), events[1..])
  }

  // ---------------------------------------------------------------- the invariant

  /** A request that was capped has waited its whole limit. */
  ghost predicate CappedAreLate(s: System) {
    forall id :: id in s.requests && (s.requests[id].phase.Capping? || s.requests[id].phase == InFlight(true)) ==>
                   s.now >= s.requests[id].deadline
  }

  /** A handler that is over gave the gate back, unless its turn leaked. */
  ghost predicate EndedMatch(s: Service) {
    && s.turns.Keys == s.sys.requests.Keys && s.ended <= s.sys.requests.Keys
    && (forall id :: id in s.ended ==>
                       if Leaks(s.turns[id]) then s.sys.requests[id].phase.InFlight?
                           else s.sys.requests[id].phase.Gone?)
    && (forall id :: id in s.sys.requests && s.sys.requests[id].phase.Gone? ==> id in s.ended)
  }

  ghost predicate ServiceInv(s: Service) {
    Inv(s.sys) && CappedAreLate(s.sys) && EndedMatch(s)
  }

  lemma StepKeepsLate(s: System, step: Step)
    requires CappedAreLate(s) && Enabled(s, step)
    ensures CappedAreLate(Apply(s, step))
  {
  }

  lemma NextKeepsEnded(s: Service, e: Event)
    requires EndedMatch(s) && Possible(s, e)
    ensures EndedMatch(Next(s, e))
  {
    hide Leave, JoinEntry, TryEnter;
  }

  lemma NextKeeps(s: Service, e: Event)
    requires ServiceInv(s) && Possible(s, e)
    ensures ServiceInv(Next(s, e))
  {
    NextKeepsEnded(s, e);
    hide Inv, EndedMatch, CappedAreLate, Apply;
    match e {
      case Serve(id, key, limit, turn) =>
        StepKeepsInv(s.sys, Arrive(id, key, limit));
        StepKeepsLate(s.sys, Arrive(id, key, limit));
      case Proceed(step) =>
        StepKeepsInv(s.sys, step);
        StepKeepsLate(s.sys, step);
      case End(id) =>
        StepKeepsInv(s.sys, ConvGate.Finish(id));
        StepKeepsLate(s.sys, ConvGate.Finish(id));
    }
  }

  lemma {:induction false} EveryPlayIsSound(s: Service, events: seq<Event>)
    requires ServiceInv(s) && Playable(s, events)
    ensures ServiceInv(Play(s, events))
    decreases |events|
  {
    hide ServiceInv, Next, Possible;
    if events != [] {
      NextKeeps(s, events[0]);
      EveryPlayIsSound(Next(s, events[0]), events[1..]);
    }
  }

  lemma IdleIsSound()
    ensures ServiceInv(IDLE_SERVICE)
  {
    assert forall key :: FlyingIn(INITIAL.requests, key) == {};
  }

  // ---------------------------------------------------------------- who keeps the gate

  /** Admitted, and its handler still at work. */
  predicate Live(s: Service, id: nat) {
    id in s.sys.requests && s.sys.requests[id].phase.InFlight? && id !in s.ended
  }

  /** Its handler is over and left the gate taken. */
  predicate Leaked(s: Service, id: nat) {
    id in s.ended && id in s.turns && Leaks(s.turns[id])
  }

  ghost predicate HeldBySome(s: Service, key: string) {
    exists id :: id in s.sys.requests && s.sys.requests[id].key == key && (Live(s, id) || Leaked(s, id))
  }

  /** A conversation is held exactly by its live requests and the ones that leaked. */
  lemma HeldIff(s: Service, key: string)
    requires ServiceInv(s)
    ensures key in s.sys.gate.entries <==> key != "" && HeldBySome(s, key)
  {
    var flying := FlyingIn(s.sys.requests, key);
    forall id | id in s.sys.requests && s.sys.requests[id].key == key
      ensures id in flying <==> Live(s, id) || Leaked(s, id)
    {
    }
    if flying != {} {
      var id :| id in flying;
      assert Live(s, id) || Leaked(s, id);
    }
  }

  ghost predicate NoneLive(s: Service) {
    forall id :: !Live(s, id)
  }

  /** The backend panicked, or Finish broke down before it gave the gate back. */
  predicate Panicked(turn: Turn) {
    || (turn.Whole? && turn.backend.Panics?)
    || (turn.Whole? && turn.backend.Replies? && turn.finishing.BreaksDown?)
    || (turn.Stream? && turn.finishing.BreaksDown?)
  }

  /** A turn of some conversation kept its gate for good. */
  ghost predicate SomeLeak(s: Service) {
    exists id :: id in s.ended && id in s.turns && Panicked(s.turns[id])
                 && id in s.sys.requests && s.sys.requests[id].key != ""
  }

  lemma LeaksIffPanicked(turn: Turn)
    ensures Leaks(turn) <==> Panicked(turn)
  {
  }

  /** Once every handler is over the gate is empty exactly when none of them leaked. */
  lemma EmptyIffNoLeak(events: seq<Event>)
    requires Playable(IDLE_SERVICE, events)
    ensures var s := Play(IDLE_SERVICE, events);
            NoneLive(s) ==> (s.sys.gate.entries == map[] <==> !SomeLeak(s))
  {
    IdleIsSound();
    EveryPlayIsSound(IDLE_SERVICE, events);
    var s := Play(IDLE_SERVICE, events);
    forall id ensures Leaked(s, id) <==> id in s.ended && id in s.turns && Panicked(s.turns[id]) {
      if id in s.turns {
        LeaksIffPanicked(s.turns[id]);
      }
    }
    hide ServiceInv, Play, Playable, Live, Leaked, Panicked;
    forall key ensures key in s.sys.gate.entries <==> key != "" && HeldBySome(s, key) {
      HeldIff(s, key);
    }
    if NoneLive(s) && !SomeLeak(s) {
      assert forall key :: key !in s.sys.gate.entries;
    }
    if id :| id in s.sys.requests && s.sys.requests[id].key != "" && Leaked(s, id) {
      assert s.sys.requests[id].key in s.sys.gate.entries;
    }
  }

  /** No backend panics, and no Finish breaks down. */
  ghost predicate NoPanics(events: seq<Event>) {
    forall i :: 0 <= i < |events| && events[i].Serve? ==>
                  && !(events[i].turn.Whole? && events[i].turn.backend.Panics?)
                  && (events[i].turn.Unprepared? || events[i].turn.finishing.Records?)
  }

  lemma {:induction false} NoPanicsNoLeaks(s: Service, events: seq<Event>)
    requires Playable(s, events) && NoPanics(events) && forall id :: id in s.turns ==> !Leaks(s.turns[id])
    ensures forall id :: id in Play(s, events).turns ==> !Leaks(Play(s, events).turns[id])
    decreases |events|
  {
    hide Apply;
    if events != [] {
      NoPanicsNoLeaks(Next(s, events[0]), events[1..]);
    }
  }

  /** No backend and no Finish panics: after the last handler the gate is as it was at the start. */
  lemma NothingIsLeftBehind(events: seq<Event>)
    requires Playable(IDLE_SERVICE, events) && NoPanics(events) && NoneLive(Play(IDLE_SERVICE, events))
    ensures Play(IDLE_SERVICE, events).sys.gate.entries == map[]
  {
    NoPanicsNoLeaks(IDLE_SERVICE, events);
    EmptyIffNoLeak(events);
  }

  // ---------------------------------------------------------------- after a leak

  /** The request cannot have taken a turn: on its way, or let in capped after its whole limit. */
  ghost predicate OnlyCapped(s: System, id: nat) {
    id in s.requests && s.requests[id].limit > 0 ==>
      s.requests[id].phase != InFlight(false) && (s.requests[id].phase.InFlight? ==> s.now >= s.requests[id].deadline)
  }

  lemma LeakStays(s: Service, e: Event, leaked: nat)
    requires ServiceInv(s) && Possible(s, e) && Leaked(s, leaked)
    ensures Leaked(Next(s, e), leaked) && leaked in s.sys.requests
    ensures Next(s, e).sys.requests[leaked] == s.sys.requests[leaked]
  {
    hide Leave, JoinEntry, TryEnter, Inv;
  }

  /** While a key is held, nobody else of that key is let in uncapped. */
  lemma HeldKeyCaps(s: System, step: Step, holder: nat, other: nat)
    requires Inv(s) && CappedAreLate(s) && Enabled(s, step) && !step.Arrive? && holder != other
    requires holder in s.requests && s.requests[holder].phase.InFlight? && s.requests[holder].key != ""
    requires other in s.requests && s.requests[other].key == s.requests[holder].key && OnlyCapped(s, other)
    ensures OnlyCapped(Apply(s, step), other)
  {
    var key := s.requests[holder].key;
    assert holder in FlyingIn(s.requests, key);
    EntriesAreBusy(s);
    assert key in s.gate.entries && s.gate.entries[key].n > 0;
    hide Inv, FlyingIn, Leave, JoinEntry;
  }

  ghost predicate ShutFor(s: System, key: string, other: nat) {
    other in s.requests && s.requests[other].key == key ==> OnlyCapped(s, other)
  }

  lemma NextKeepsShut(s: Service, e: Event, leaked: nat, other: nat)
    requires ServiceInv(s) && Possible(s, e) && Leaked(s, leaked) && leaked != other
    requires leaked in s.sys.requests && s.sys.requests[leaked].key != ""
    requires ShutFor(s.sys, s.sys.requests[leaked].key, other)
    ensures ShutFor(Next(s, e).sys, s.sys.requests[leaked].key, other)
  {
    hide Inv, CappedAreLate;
    if other in s.sys.requests && s.sys.requests[other].key == s.sys.requests[leaked].key {
      if e.Proceed? {
        HeldKeyCaps(s.sys, e.step, leaked, other);
      } else if e.End? {
        HeldKeyCaps(s.sys, ConvGate.Finish(e.id), leaked, other);
      }
    }
    hide Leave, JoinEntry, TryEnter;
  }

  /**
  After a leak the conversation stays held for good, and a later request of it that waits at all
  is let in only capped, when its whole limit has run out.
  */
  lemma {:induction false} LeakShutsTheConversation(s: Service, events: seq<Event>, leaked: nat, other: nat)
    requires ServiceInv(s) && Playable(s, events) && Leaked(s, leaked) && leaked != other
    requires leaked in s.sys.requests && s.sys.requests[leaked].key != ""
    requires ShutFor(s.sys, s.sys.requests[leaked].key, other)
    ensures var t, key := Play(s, events), s.sys.requests[leaked].key;
            && Leaked(t, leaked) && key in t.sys.gate.entries && ShutFor(t.sys, key, other)
    decreases |events|
  {
    if events == [] {
      HeldIff(s, s.sys.requests[leaked].key);
    } else {
      NextKeeps(s, events[0]);
      LeakStays(s, events[0], leaked);
      NextKeepsShut(s, events[0], leaked, other);
      hide ServiceInv, Leaked, ShutFor, Next, Possible;
      LeakShutsTheConversation(Next(s, events[0]), events[1..], leaked, other);
    }
  }

  /** A request on its way in when the leak happened, or one that comes later, is let in only capped. */
  lemma LateComersAreCapped(s: Service, events: seq<Event>, leaked: nat, other: nat)
    requires ServiceInv(s) && Playable(s, events) && Leaked(s, leaked) && leaked != other
    requires leaked in s.sys.requests && s.sys.requests[leaked].key != ""
    requires other in s.sys.requests ==> Distance(s.sys.requests[other].phase) > 0
    ensures ShutFor(Play(s, events).sys, s.sys.requests[leaked].key, other)
  {
    hide ServiceInv, Playable, Play, Leaked;
    LeakShutsTheConversation(s, events, leaked, other);
  }

  lemma {:induction false} RequestStays(s: Service, events: seq<Event>, id: nat)
    requires Playable(s, events) && id in s.sys.requests
    ensures var t := Play(s, events).sys.requests;
            && id in t && t[id].key == s.sys.requests[id].key && t[id].limit == s.sys.requests[id].limit
            && t[id].deadline == s.sys.requests[id].deadline
    decreases |events|
  {
    hide Leave, JoinEntry, TryEnter, Leaks;
    if events != [] {
      RequestStays(Next(s, events[0]), events[1..], id);
    }
  }

  /** A request that comes after the leak with a limit to wait is not let in before that limit has passed. */
  lemma LateComerWaitsItsLimit(s: Service, leaked: nat, id: nat, limit: int, turn: Turn, events: seq<Event>)
    requires ServiceInv(s) && Leaked(s, leaked) && leaked in s.sys.requests && s.sys.requests[leaked].key != ""
    requires id !in s.sys.requests && limit > 0
    requires Playable(Next(s, Serve(id, s.sys.requests[leaked].key, limit, turn)), events)
    ensures var t := Play(Next(s, Serve(id, s.sys.requests[leaked].key, limit, turn)), events).sys;
            id in t.requests && (t.requests[id].phase.InFlight? ==>
                                   t.requests[id].phase == InFlight(true) && t.now >= s.sys.now + limit)
  {
    var arrival := Serve(id, s.sys.requests[leaked].key, limit, turn);
    var next := Next(s, arrival);
    assert next.sys.requests[id] == Request(s.sys.requests[leaked].key, limit, s.sys.now + limit, Trying);
    NextKeeps(s, arrival);
    LeakStays(s, arrival, leaked);
    RequestStays(next, events, id);
    hide ServiceInv, Playable, Play, Leaked, Next;
    LateComersAreCapped(next, events, leaked, id);
  }

  // ---------------------------------------------------------------- the smallest leak

  lemma PlayNothing(s: Service)
    ensures Playable(s, []) && Play(s, []) == s
  {
  }

  lemma PlayOne(s: Service, e: Event, rest: seq<Event>)
    requires Possible(s, e) && Playable(Next(s, e), rest)
    ensures Playable(s, [e] + rest) && Play(s, [e] + rest) == Play(Next(s, e), rest)
  {
    hide Next, Possible;
    assert ([e] + rest)[1..] == rest;
  }

  /** The three states of a request whose backend panics. */
  lemma PanicSteps(key: string, limit: int) returns (s1: Service, s2: Service, s3: Service)
    requires key != ""
    ensures var a, b, c := Serve(0, key, limit, Whole(Panics, Records)), Proceed(Pass(0)), End(0);
            && Possible(IDLE_SERVICE, a) && s1 == Next(IDLE_SERVICE, a)
            && Possible(s1, b) && s2 == Next(s1, b)
            && Possible(s2, c) && s3 == Next(s2, c)
    ensures NoneLive(s3) && key in s3.sys.gate.entries
  {
    var turn := Whole(Panics, Records);
    s1 := Next(IDLE_SERVICE, Serve(0, key, limit, turn));
    assert s1.sys.requests == map[0 := Request(key, limit, limit, Trying)] && s1.turns == map[0 := turn];
    s2 := Next(s1, Proceed(Pass(0)));
    assert s2.sys.requests == map[0 := Request(key, limit, limit, InFlight(false))] && s2.turns == s1.turns;
    assert key in s2.sys.gate.entries;
    s3 := Next(s2, End(0));
    assert s3 == Service(s2.sys, s2.turns, {0});
  }

  /** The smallest such run: the backend of the only request panics. */
  lemma BackendPanicLeaks(key: string, limit: int)
    requires key != ""
    ensures var events := [Serve(0, key, limit, Whole(Panics, Records)), Proceed(Pass(0)), End(0)];
            && Playable(IDLE_SERVICE, events) && NoneLive(Play(IDLE_SERVICE, events))
            && key in Play(IDLE_SERVICE, events).sys.gate.entries
  {
    var a, b, c := Serve(0, key, limit, Whole(Panics, Records)), Proceed(Pass(0)), End(0);
    var s1, s2, s3 := PanicSteps(key, limit);
    hide Next, Possible, NoneLive, Playable, Play;
    PlayNothing(s3);
    PlayOne(s2, c, []);
    assert [c] + [] == [c];
    PlayOne(s1, b, [c]);
    assert [b] + [c] == [b, c];
    PlayOne(IDLE_SERVICE, a, [b, c]);
    assert [a] + [b, c] == [a, b, c];
  }
}

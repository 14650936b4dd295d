/**
What a turn does to the conversation gate once it was admitted: the deferred release of Prepare,
the plan that takes the gate over, and the paths of Chat and chatStream to finishRecord
(internal/gateway/gateway.go:459-472, 773-779, 1085-1099, 1117-1411 and
internal/coordinator/serve.go:1011-1027, 1115-1168). Each method runs on the gate itself.
*/
module PlanLifecycle {
  import opened ConvGate

  datatype Backend = Replies | Fails | Panics

  /** Finish reaches finishRecord, or panics on the way to it. */
  datatype Finishing = Records | BreaksDown

  /**
  How the handler of a stream goes: it returns or panics before the stream is open, fails to
  pick an engine, which finishes explicitly, or streams, and then the deferred notes run or panic.
  */
  datatype StreamPath = Returns | PickFails | BodyPanics | Streams | NotesPanic

  /** What happens to a request after it was let in. Unprepared: Prepare panics holding the gate. */
  datatype Turn =
    | Unprepared
    | Whole(backend: Backend, finishing: Finishing)
    | Stream(path: StreamPath, finishing: Finishing)

  /** The turns that end without giving the gate back. */
  predicate Leaks(turn: Turn) {
    match turn
    case Unprepared => false
    case Whole(backend, finishing) => backend.Panics? || (backend.Replies? && finishing.BreaksDown?)
    case Stream(_, finishing) => finishing.BreaksDown?
  }

  class Plan {
    const ckey: string
    var gated: bool

    constructor (ckey: string)
      ensures this.ckey == ckey && gated
    {
      this.ckey := ckey;
      gated := true;
    }
  }

  /** Prepare after the acquire: the deferred release runs unless the plan took the gate over. */
  method Prepare(gate: ConversationGate, key: string, breaks: bool) returns (plan: Plan?)
    modifies gate
    ensures plan == null <==> breaks
    ensures plan != null ==> fresh(plan) && plan.gated && plan.ckey == key && gate.State() == old(gate.State())
    ensures plan == null ==> gate.State() == Leave(old(gate.State()), key)
  {
    plan := null;
    var planned := false;
    if !breaks {
      planned := true;
      plan := new Plan(key);
    }
    if !planned {
      gate.Release(key);
    }
  }

  /** finishRecord: the plan gives the gate back the first time only. */
  method FinishRecord(gate: ConversationGate, plan: Plan)
    modifies gate, plan
    ensures !plan.gated
    ensures gate.State() == if old(plan.gated) then Leave(old(gate.State()), plan.ckey) else old(gate.State())
  {
    if plan.gated {
      plan.gated := false;
      gate.Release(plan.ckey);
    }
  }

  /** Finish: everything before finishRecord may panic. */
  method Finish(gate: ConversationGate, plan: Plan, finishing: Finishing) returns (panicked: bool)
    modifies gate, plan
    ensures panicked <==> finishing.BreaksDown?
    ensures panicked ==> gate.State() == old(gate.State()) && plan.gated == old(plan.gated)
    ensures !panicked ==> !plan.gated
    ensures !panicked ==>
              gate.State() == if old(plan.gated) then Leave(old(gate.State()), plan.ckey) else old(gate.State())
  {
    if finishing.BreaksDown? {
      return true;
    }
    FinishRecord(gate, plan);
    return false;
  }

  /** Chat after Prepare: nothing is deferred, so a panic of the backend or of Finish keeps the gate. */
  method Chat(gate: ConversationGate, plan: Plan, backend: Backend, finishing: Finishing)
    requires plan.gated
    modifies gate, plan
    ensures backend.Fails? || (backend.Replies? && finishing.Records?) ==>
              gate.State() == Leave(old(gate.State()), plan.ckey)
    ensures backend.Panics? || (backend.Replies? && finishing.BreaksDown?) ==> gate.State() == old(gate.State())
  {
    if backend.Panics? {
      return;
    }
    if backend.Fails? {
      FinishRecord(gate, plan);
      return;
    }
    var _ := Finish(gate, plan, finishing);
  }

  /** The closure of chatStream: the flag is set before Finish runs. */
  method FinishOnce(gate: ConversationGate, plan: Plan, finishing: Finishing, was: bool)
    returns (finished: bool, panicked: bool)
    requires !was ==> plan.gated
    modifies gate, plan
    ensures finished
    ensures was ==> !panicked && gate.State() == old(gate.State()) && plan.gated == old(plan.gated)
    ensures !was ==> (panicked <==> finishing.BreaksDown?)
    ensures !was ==>
              gate.State() == if finishing.BreaksDown? then old(gate.State()) else Leave(old(gate.State()), plan.ckey)
  {
    finished, panicked := was, false;
    if !finished {
      finished := true;
      panicked := Finish(gate, plan, finishing);
    }
  }

  /**
  chatStream: the explicit finish and the deferred ones, in the order a return or a panic runs
  them. Whatever the path, Finish runs exactly once, and the gate is kept exactly when it panics.
  */
  method ChatStream(gate: ConversationGate, plan: Plan, path: StreamPath, finishing: Finishing)
    requires plan.gated
    modifies gate, plan
    ensures finishing.Records? ==> gate.State() == Leave(old(gate.State()), plan.ckey)
    ensures finishing.BreaksDown? ==> gate.State() == old(gate.State())
  {
    var finished, panicked := false, false;
    if path.PickFails? {
      finished, panicked := FinishOnce(gate, plan, finishing, finished);
    }
    if path.Streams? {
      // the deferred notes, then their finish
      finished, panicked := FinishOnce(gate, plan, finishing, finished);
    }
    // the outermost deferred finish
    finished, panicked := FinishOnce(gate, plan, finishing, finished);
  }

  /** The whole turn from its admission: at most one release, and none exactly when it leaks. */
  method RunTurn(gate: ConversationGate, key: string, turn: Turn)
    modifies gate
    ensures turn.Unprepared? ==> gate.State() == Leave(old(gate.State()), key)
    ensures turn.Whole? && turn.backend.Fails? ==> gate.State() == Leave(old(gate.State()), key)
    ensures turn.Whole? && turn.backend.Panics? ==> gate.State() == old(gate.State())
    ensures (turn.Whole? && turn.backend.Replies?) || turn.Stream? ==>
              gate.State() == if turn.finishing.Records? then Leave(old(gate.State()), key) else old(gate.State())
    ensures gate.State() == if Leaks(turn) then old(gate.State()) else Leave(old(gate.State()), key)
  {
    var plan := Prepare(gate, key, turn.Unprepared?);
    if plan == null {
      return;
    }
    match turn {
      case Whole(backend, finishing) => Chat(gate, plan, backend, finishing);
      case Stream(path, finishing) => ChatStream(gate, plan, path, finishing);
    }
  }
}

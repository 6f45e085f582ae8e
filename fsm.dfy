/** The machine as an object: an immutable configuration and the three fields
    that every operation updates in place. Each method is proved against the
    matching function of FsmSpec, applied to the fields before the call. */
module Fsm {
  import opened FsmSpec

  /** What a call that can throw came to: it completed, or it raised `error`
      and changed nothing. */
  datatype Outcome = Done | Failed(error: Error)

  class FSM {
    const config: Config
    var state: StateId
    var prevState: seq<StateId>
    var nextState: seq<StateId>

    /** The object invariant: a well-formed configuration, and every state held
        now or in either history is declared in it. */
    ghost predicate Valid()
      reads this
    {
      WellFormed(config) && ValidHistory(config, Snapshot())
    }

    /** The three mutable fields as one value. */
    function Snapshot(): History
      reads this
    {
      History(state, prevState, nextState)
    }

    constructor (config: Config)
      requires WellFormed(config)
      ensures Valid() && this.config == config
      ensures state == config.initial && prevState == [] && nextState == []
      ensures Init(Some(config)) == Ok(Snapshot())
    {
      this.config := config;
      state := config.initial;
      prevState := [];
      nextState := [];
    }

    /** The active state, always one the configuration declares. */
    function GetState(): (s: StateId)
      reads this
      requires Valid()
      ensures s in config.states
      ensures s == Timeline(Snapshot())[|prevState|]
    {
      state
    }

    method ChangeState(target: StateId) returns (r: Outcome)
      requires Valid()
      modifies this
      ensures Valid()
      ensures r.Done? <==> target in config.states
      ensures r.Done? ==> state == target && prevState == old(prevState) + [old(state)] && nextState == []
      ensures r.Failed? ==> r.error == UnknownStateError && Snapshot() == old(Snapshot())
      ensures FsmSpec.ChangeState(config, old(Snapshot()), target)
              == if r.Done? then Ok(Snapshot()) else Err(r.error)
    {
      if target in config.states {
        prevState := prevState + [state];
        state := target;
        nextState := [];
        r := Done;
      } else {
        r := Failed(UnknownStateError);
      }
    }

    method Trigger(event: EventId) returns (r: Outcome)
      requires Valid()
      modifies this
      ensures Valid()
      ensures r.Done? <==> Fires(config, old(state), event)
      ensures r.Done? ==>
        && state == config.states[old(state)].transitions[event]
        && prevState == old(prevState) + [old(state)]
        && nextState == []
      ensures r.Failed? ==> r.error == UnknownEventError && Snapshot() == old(Snapshot())
      ensures FsmSpec.Trigger(config, old(Snapshot()), event)
              == if r.Done? then Ok(Snapshot()) else Err(r.error)
    {
      var transitions := config.states[state].transitions;
      if event in transitions && transitions[event] != "" {
        prevState := prevState + [state];
        state := transitions[event];
        nextState := [];
        r := Done;
      } else {
        r := Failed(UnknownEventError);
      }
    }

    /** Back to the initial state; neither history is touched. */
    method Reset()
      requires Valid()
      modifies this
      ensures Valid()
      ensures state == config.initial && prevState == old(prevState) && nextState == old(nextState)
      ensures Snapshot() == FsmSpec.Reset(config, old(Snapshot()))
    {
      state := config.initial;
    }

    /** Every declared state for a falsy event; otherwise the declared states
        with a transition on the event, in declaration order. */
    function GetStates(event: Option<EventId>): (r: seq<StateId>)
      ensures Falsy(event) ==> r == config.order
      ensures !Falsy(event) ==> IsSubsequence(r, config.order)
      ensures !Falsy(event) ==> forall s :: s in r <==> s in config.order && HasEvent(config.states, s, event.value)
    {
      FsmSpec.GetStates(config, event)
    }

    method Undo() returns (moved: bool)
      requires Valid()
      modifies this
      ensures Valid()
      ensures moved <==> old(prevState) != []
      ensures moved ==>
        && prevState + [state] == old(prevState)
        && nextState == old(nextState) + [old(state)]
      ensures !moved ==> Snapshot() == old(Snapshot())
      ensures (moved, Snapshot()) == FsmSpec.Undo(old(Snapshot()))
    {
      if |prevState| != 0 {
        nextState := nextState + [state];
        assert prevState[|prevState| - 1] in prevState;
        state := prevState[|prevState| - 1];
        prevState := prevState[..|prevState| - 1];
        moved := true;
      } else {
        moved := false;
      }
    }

    method Redo() returns (moved: bool)
      requires Valid()
      modifies this
      ensures Valid()
      ensures moved <==> old(nextState) != []
      ensures moved ==>
        && nextState + [state] == old(nextState)
        && prevState == old(prevState) + [old(state)]
      ensures !moved ==> Snapshot() == old(Snapshot())
      ensures (moved, Snapshot()) == FsmSpec.Redo(old(Snapshot()))
    {
      if |nextState| != 0 {
        prevState := prevState + [state];
        assert nextState[|nextState| - 1] in nextState;
        state := nextState[|nextState| - 1];
        nextState := nextState[..|nextState| - 1];
        moved := true;
      } else {
        moved := false;
      }
    }

    /** Forget both histories; the active state stays. */
    method ClearHistory()
      requires Valid()
      modifies this
      ensures Valid()
      ensures state == old(state) && prevState == [] && nextState == []
      ensures Snapshot() == FsmSpec.ClearHistory(old(Snapshot()))
    {
      prevState := [];
      nextState := [];
    }
  }

  /** Construction from a possibly missing configuration: a missing one is
      refused with ConfigError, otherwise a fresh machine starts in the
      initial state with empty histories. */
  method Create(config: Option<Config>) returns (r: Result<FSM>)
    requires config.Some? ==> WellFormed(config.value)
    ensures r.Err? <==> config.None?
    ensures r.Err? ==> r.error == ConfigError
    ensures r.Ok? ==> fresh(r.value) && r.value.Valid() && r.value.config == config.value
    ensures r.Ok? ==> Init(config) == Ok(r.value.Snapshot())
  {
    match config
    case None =>
      r := Err(ConfigError);
    case Some(c) =>
      var m := new FSM(c);
      r := Ok(m);
  }
}

/** The player state machine's transition rule. The states are the two
    instances created in `Awake`; what their `Enter`/`Exit`/`Tick` do is not
    modelled, only the order in which `Enter` and `Exit` are called. */
module PlayerFsm {
  import opened Wrappers

  datatype PlayerStateId = Idle | Move

  datatype Call = Enter(state: PlayerStateId) | Exit(state: PlayerStateId)

  /** The calls alternate Enter, Exit, Enter, …, and every Exit leaves the
      state entered just before it. */
  predicate Alternates(calls: seq<Call>)
  {
    && (forall i :: 0 <= i < |calls| ==> (calls[i].Enter? <==> i % 2 == 0))
    && (forall i :: 0 < i < |calls| && calls[i].Exit? ==> calls[i].state == calls[i - 1].state)
  }

  class PlayerStateMachine {
    var currentState: Option<PlayerStateId>
    /** The `Enter`/`Exit` calls made so far, in order. */
    var calls: seq<Call>

    /** No state before the first transition; once there is one, it is the
        state of the last call, which is an Enter. */
    predicate Valid()
      reads this
    {
      && Alternates(calls)
      && (currentState.Nothing? <==> calls == [])
      && (currentState.Some? ==> calls[|calls| - 1] == Enter(currentState.value))
    }

    /** After `Awake`: both states exist, none is current. */
    constructor ()
      ensures currentState.Nothing? && calls == [] && Valid()
    {
      currentState := Nothing;
      calls := [];
    }

    /** `Start`: the first transition, into Idle, calls only `Enter`. */
    method Start()
      requires Valid()
      modifies this
      ensures Valid() && currentState == Some(Idle)
      ensures old(currentState).Nothing? ==> calls == [Enter(Idle)]
    {
      ChangeState(Idle);
    }

    /** A transition to the current state does nothing; any other exits the
        current state, if there is one, and then enters the new one. */
    method ChangeState(newState: PlayerStateId)
      requires Valid()
      modifies this
      ensures Valid()
      ensures old(currentState) == Some(newState) ==> unchanged(this)
      ensures old(currentState) != Some(newState) ==>
                && currentState == Some(newState)
                && calls == old(calls) + (if old(currentState).Some? then [Exit(old(currentState).value)] else [])
                                       + [Enter(newState)]
    {
      if currentState == Some(newState) { return; }
      if currentState.Some? {
        calls := calls + [Exit(currentState.value)];
      }
      currentState := Some(newState);
      calls := calls + [Enter(newState)];
    }
  }

}

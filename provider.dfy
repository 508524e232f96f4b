/**
 * The store behind `useReducer(reducer, initialState)`: the current snapshot
 * and the actions dispatched so far, in dispatch order.
 */
module Provider {
  import opened Types
  import opened Reducer

  class Store {
    var state: AppState
    var log: seq<Action>

    /** The snapshot is the initial state with the log applied, and so keeps the invariants. */
    ghost predicate Consistent()
      reads this
    {
      state == ReduceAll(InitialState(), log) && Valid(state)
    }

    constructor ()
      ensures state == InitialState() && log == []
      ensures Consistent()
    {
      state := InitialState();
      log := [];
      InitialStateValid();
    }

    /** `dispatch(a)`: the reducer computes the next snapshot. */
    method Dispatch(a: Action)
      modifies this
      ensures state == Reduce(old(state), a)
      ensures log == old(log) + [a]
      ensures old(Consistent()) ==> Consistent()
    {
      ghost var before := state;
      state := Reduce(state, a);
      log := log + [a];
      if before == ReduceAll(InitialState(), old(log)) && Valid(before) {
        ReduceAllSnoc(InitialState(), old(log), a);
        ReducePreservesValid(before, a);
      }
    }
  }
}

/**
 * `FSMState` from src/dt_logic/fsm_state.py: a state carrying optional entry
 * and exit callbacks together with the positional and keyword arguments they
 * are called with. The callbacks are foreign code, so running one is recorded
 * as a `Call` in a `CallLog` standing for the world they act on.
 */
module FsmState {
  import opened Wrappers

  /** A callable, known only by its identity. */
  datatype Callback = Callback(name: string)

  /** An argument value handed to a callback. */
  datatype Value = IntValue(i: int) | StrValue(s: string) | ObjectRef(id: nat)

  /** One run of a callback with the arguments it received. */
  datatype Call = Call(callback: Callback, args: seq<Value>, kwargs: map<string, Value>)

  /** The effects of callbacks observed so far, oldest first. */
  class CallLog {
    var calls: seq<Call>

    constructor ()
      ensures calls == []
    {
      calls := [];
    }
  }

  /**
   * The callback runs `action` performs with its bound arguments: one run
   * when a callable is stored, none otherwise.
   */
  function Invoke(action: Option<Callback>, args: seq<Value>, kwargs: map<string, Value>): (r: seq<Call>)
    ensures |r| == if action.Some? then 1 else 0
    ensures forall c | c in r :: c.callback == action.value && c.args == args && c.kwargs == kwargs
  {
    match action
    case None => []
    case Some(f) => [Call(f, args, kwargs)]
  }

  /**
   * A state of the machine. States are compared by identity, as Python objects
   * without `__eq__` are: two states with the same `uid` are different states.
   */
  class State {
    const uid: string
    const entryAction: Option<Callback>
    const entryArgs: seq<Value>
    const entryKwargs: map<string, Value>
    const exitAction: Option<Callback>
    const exitArgs: seq<Value>
    const exitKwargs: map<string, Value>

    /** Missing argument lists default to `[]`, missing keyword maps to the empty map. */
    constructor (uid: string,
                 entryAction: Option<Callback> := None,
                 entryArgs: Option<seq<Value>> := None,
                 entryKwargs: Option<map<string, Value>> := None,
                 exitAction: Option<Callback> := None,
                 exitArgs: Option<seq<Value>> := None,
                 exitKwargs: Option<map<string, Value>> := None)
      ensures this.uid == uid && ToString() == uid
      ensures this.entryAction == entryAction && this.exitAction == exitAction
      ensures this.entryArgs == (if entryArgs.None? then [] else entryArgs.value)
      ensures this.entryKwargs == (if entryKwargs.None? then map[] else entryKwargs.value)
      ensures this.exitArgs == (if exitArgs.None? then [] else exitArgs.value)
      ensures this.exitKwargs == (if exitKwargs.None? then map[] else exitKwargs.value)
    {
      this.uid := uid;
      this.entryAction := entryAction;
      this.entryArgs := entryArgs.GetOr([]);
      this.entryKwargs := entryKwargs.GetOr(map[]);
      this.exitAction := exitAction;
      this.exitArgs := exitArgs.GetOr([]);
      this.exitKwargs := exitKwargs.GetOr(map[]);
    }

    /** The callback runs performed by `enter()`. */
    function EntryCalls(): seq<Call> {
      Invoke(entryAction, entryArgs, entryKwargs)
    }

    /** The callback runs performed by `exit()`. */
    function ExitCalls(): seq<Call> {
      Invoke(exitAction, exitArgs, exitKwargs)
    }

    /** Runs the entry callback, if one is stored, with the stored arguments. */
    method Enter(log: CallLog)
      modifies log
      ensures log.calls == old(log.calls) + Invoke(entryAction, entryArgs, entryKwargs)
    {
      if entryAction.Some? {
        log.calls := log.calls + [Call(entryAction.value, entryArgs, entryKwargs)];
      }
    }

    /** Runs the exit callback, if one is stored, with the stored arguments. */
    method Exit(log: CallLog)
      modifies log
      ensures log.calls == old(log.calls) + Invoke(exitAction, exitArgs, exitKwargs)
    {
      if exitAction.Some? {
        log.calls := log.calls + [Call(exitAction.value, exitArgs, exitKwargs)];
      }
    }

    /** `__repr__`. */
    function ToString(): string {
      uid
    }
  }

  /** A hook the machine ran on a state: its `enter()` or its `exit()`. */
  datatype Hook = Entered(state: State) | Exited(state: State)

  /** The callback runs a single hook performs. */
  function HookCalls(h: Hook): seq<Call> {
    match h
    case Entered(s) => s.EntryCalls()
    case Exited(s) => s.ExitCalls()
  }

  /** The callback runs a sequence of hooks performs, in order. */
  function CallsOf(hooks: seq<Hook>): seq<Call>
    decreases |hooks|
  {
    if hooks == [] then [] else CallsOf(hooks[..|hooks| - 1]) + HookCalls(hooks[|hooks| - 1])
  }

  /** Running two stretches of hooks one after the other runs their callbacks one after the other. */
  lemma {:induction false} CallsOfAppend(a: seq<Hook>, b: seq<Hook>)
    ensures CallsOf(a + b) == CallsOf(a) + CallsOf(b)
    decreases |b|
  {
    if b == [] {
      assert a + b == a;
    } else {
      var b' := b[..|b| - 1];
      assert (a + b)[..|a + b| - 1] == a + b';
      assert (a + b)[|a + b| - 1] == b[|b| - 1];
      CallsOfAppend(a, b');
    }
  }

  /** A transition from `s` to `d` runs the exit callback of `s`, then the entry callback of `d`. */
  lemma TransitionCalls(s: State, d: State)
    ensures CallsOf([Exited(s), Entered(d)]) == s.ExitCalls() + d.EntryCalls()
  {
    var hooks := [Exited(s), Entered(d)];
    assert hooks[..1] == [Exited(s)] && [Exited(s)][..0] == [];
    assert CallsOf([Exited(s)]) == s.ExitCalls();
    assert CallsOf(hooks) == CallsOf([Exited(s)]) + d.EntryCalls();
  }
}

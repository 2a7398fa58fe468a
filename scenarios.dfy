/**
 * The scenarios of src/dt_logic_tests/test_fsm.py and test_utilities.py,
 * stated over the model: each method builds the machine the test builds,
 * fires the events it fires, and promises in its postcondition what the test
 * asserts, for every input the test draws from.
 */
module FsmScenarios {
  import opened Wrappers
  import opened FsmState
  import opened TransitionTable
  import opened GraphFsm

  /** Two distinct events, as `FSMEvent("e0")` and `FSMEvent("e1")`. */
  datatype Toggle = E0 | E1

  /** The two events of the sequential test: a self-loop and a step to the next state. */
  datatype Step = Stay | Advance

  /** No state occurs twice in the list. */
  predicate Distinct(states: seq<State>) {
    forall i, j | 0 <= i < j < |states| :: states[i] != states[j]
  }

  /** How many `Advance` events the sequence holds. */
  function Advances(events: seq<Step>): (n: nat)
    ensures n <= |events|
    decreases |events|
  {
    if events == [] then 0
    else Advances(events[..|events| - 1]) + (if events[|events| - 1] == Advance then 1 else 0)
  }

  /** A prefix followed by its next event never holds more `Advance` events than the whole sequence. */
  lemma {:induction false} AdvancesPrefix(events: seq<Step>, i: nat)
    requires i < |events|
    ensures Advances(events[..i + 1]) == Advances(events[..i]) + (if events[i] == Advance then 1 else 0)
    ensures Advances(events[..i + 1]) <= Advances(events)
    decreases |events|
  {
    var n := |events| - 1;
    assert events[..i + 1][..i] == events[..i];
    if i < n {
      var init := events[..n];
      assert init[..i + 1] == events[..i + 1];
      AdvancesPrefix(init, i);
    } else {
      assert events[..i + 1] == events;
    }
  }

  /** The self-loop list of the sequential test: every state paired with itself. */
  function SelfPairs(states: seq<State>): (pairs: seq<(State, State)>)
    ensures |pairs| == |states|
    ensures forall k | 0 <= k < |states| :: pairs[k] == (states[k], states[k])
  {
    seq(|states|, k requires 0 <= k < |states| => (states[k], states[k]))
  }

  /** The chain list of the sequential test: every state but the last paired with its successor. */
  function ChainPairs(states: seq<State>): (pairs: seq<(State, State)>)
    requires |states| >= 1
    ensures |pairs| == |states| - 1
    ensures forall k | 0 <= k < |states| - 1 :: pairs[k] == (states[k], states[k + 1])
  {
    seq(|states| - 1, k requires 0 <= k < |states| - 1 => (states[k], states[k + 1]))
  }

  /** The transitions dictionary of the sequential test. */
  function ChainTransitions(states: seq<State>): Transitions<Step, State>
    requires |states| >= 1
  {
    [(Stay, SelfPairs(states)), (Advance, ChainPairs(states))]
  }

  /** In the sequential table every state loops to itself on `Stay`. */
  lemma ChainTableStay(states: seq<State>, k: nat)
    requires |states| >= 1 && Distinct(states) && k < |states|
    ensures Get(BuildMap(ChainTransitions(states)), Stay, states[k]) == Some(states[k])
  {
    var ts := ChainTransitions(states);
    var pairs := SelfPairs(states);
    assert EventsDistinct(ts);
    BuildMapRow(ts, 0, states[k]);
    assert forall j | k < j < |pairs| :: pairs[j].0 != pairs[k].0 by {
      forall j | k < j < |pairs| ensures pairs[j].0 != pairs[k].0 {
        assert pairs[j].0 == states[j];
      }
    }
    BindAllLastWins(map[], Stay, pairs, k);
  }

  /** In the sequential table every state but the last steps to its successor on `Advance`. */
  lemma ChainTableAdvance(states: seq<State>, k: nat)
    requires |states| >= 1 && Distinct(states) && k < |states| - 1
    ensures Get(BuildMap(ChainTransitions(states)), Advance, states[k]) == Some(states[k + 1])
  {
    var ts := ChainTransitions(states);
    var pairs := ChainPairs(states);
    assert EventsDistinct(ts);
    BuildMapRow(ts, 1, states[k]);
    assert forall j | k < j < |pairs| :: pairs[j].0 != pairs[k].0 by {
      forall j | k < j < |pairs| ensures pairs[j].0 != pairs[k].0 {
        assert pairs[j].0 == states[j];
      }
    }
    BindAllLastWins(map[], Advance, pairs, k);
  }

  /** Every pair of the sequential test joins two listed states. */
  lemma ChainDeclared(states: seq<State>)
    requires |states| >= 1
    ensures EntriesDeclared(ChainTransitions(states), Nodes(states))
  {
    var ts := ChainTransitions(states);
    forall i | 0 <= i < |ts|
      ensures AllDeclared(ts[i].1, Nodes(states))
    {
      forall j | 0 <= j < |ts[i].1|
        ensures Declared(ts[i].1[j], Nodes(states))
      {
        assert ts[i].1[j].0 in states && ts[i].1[j].1 in states;
      }
    }
  }

  /** What the sequential test relies on in the table: a loop on every state, a step along the list. */
  ghost predicate ChainShaped(em: EventMap<Step, State>, states: seq<State>) {
    && (forall k | 0 <= k < |states| :: Get(em, Stay, states[k]) == Some(states[k]))
    && (forall k | 0 <= k < |states| - 1 :: Get(em, Advance, states[k]) == Some(states[k + 1]))
  }

  /** The machine of the sequential test, built over its states and started in the first of them. */
  method NewChainMachine(states: seq<State>) returns (m: Machine<Step>, log: CallLog)
    requires |states| >= 1 && Distinct(states)
    ensures fresh(m) && fresh(log)
    ensures m.Valid() && m.state == states[0] && ChainShaped(m.eventMap, states)
  {
    log := new CallLog();
    var ts := ChainTransitions(states);
    ChainDeclared(states);
    var r := Machine.Create(states, ts, states[0], log);
    assert r.Success?;
    m := r.value;
    forall k | 0 <= k < |states|
      ensures Get(m.eventMap, Stay, states[k]) == Some(states[k])
      ensures k < |states| - 1 ==> Get(m.eventMap, Advance, states[k]) == Some(states[k + 1])
    {
      ChainTableStay(states, k);
      if k < |states| - 1 {
        ChainTableAdvance(states, k);
      }
    }
  }

  /**
   * `test_sequential_state_transitions`: with a self-loop on every state and a
   * chain through the states in list order, any interleaving of the two
   * events ends in the state as far down the list as there were `Advance`
   * events, whatever the order they came in.
   */
  method ChainScenario(states: seq<State>, events: seq<Step>) returns (final: Option<State>)
    requires |states| >= 1 && Distinct(states)
    requires Advances(events) <= |states| - 1
    ensures final == Some(states[Advances(events)])
  {
    var m, log := NewChainMachine(states);
    final := Some(m.CurrentState());
    var i := 0;
    while i < |events|
      invariant 0 <= i <= |events|
      invariant m.Valid() && ChainShaped(m.eventMap, states)
      invariant Advances(events[..i]) <= Advances(events)
      invariant m.state == states[Advances(events[..i])]
      invariant final == Some(m.state)
    {
      AdvancesPrefix(events, i);
      final := m.FireEvent(events[i], log);
      i := i + 1;
    }
    assert events[..i] == events;
  }

  /** The two-state machine of `test_circular_transitions`: `E0` leads from `sa` to `sb`, `E1` back, and it starts in `sa`. */
  method NewPingPong(sa: State, sb: State) returns (m: Machine<Toggle>, log: CallLog)
    requires sa != sb
    ensures fresh(m) && fresh(log)
    ensures m.Valid() && m.state == sa && log.calls == sa.EntryCalls()
    ensures Get(m.eventMap, E0, sa) == Some(sb) && Get(m.eventMap, E1, sb) == Some(sa) && Get(m.eventMap, E1, sa) == None
  {
    log := new CallLog();
    var ts := [(E0, [(sa, sb)]), (E1, [(sb, sa)])];
    assert EntriesDeclared(ts, Nodes([sa, sb]));
    var r := Machine.Create([sa, sb], ts, sa, log);
    assert r.Success?;
    m := r.value;
    assert EventsDistinct(ts);
    BuildMapRow(ts, 0, sa);
    BindAllLastWins(map[], E0, [(sa, sb)], 0);
    BuildMapRow(ts, 1, sb);
    BindAllLastWins(map[], E1, [(sb, sa)], 0);
    BuildMapRow(ts, 1, sa);
    BindAllElsewhere(map[], E1, [(sb, sa)], E1, sa);
    assert [Entered(sa)][..0] == [];
  }

  /** The callbacks of the hooks run since `t0` are those up to `t1` followed by those since `t1`. */
  lemma CallsOfExtend(t0: seq<Hook>, t1: seq<Hook>, t2: seq<Hook>)
    requires |t0| <= |t1| <= |t2| && t1[..|t0|] == t0 && t2[..|t1|] == t1
    ensures |t0| <= |t2| && t2[..|t0|] == t0
    ensures CallsOf(t2[|t0|..]) == CallsOf(t1[|t0|..]) + CallsOf(t2[|t1|..])
  {
    assert t2[|t0|..] == t1[|t0|..] + t2[|t1|..];
    CallsOfAppend(t1[|t0|..], t2[|t1|..]);
  }

  /**
   * The loop of `test_circular_transitions`: fire `E0` on even steps and `E1`
   * on odd ones, `n` times, starting in `sa`. The callbacks run are exactly
   * those of the hooks the machine ran meanwhile.
   */
  method FireAlternately(m: Machine<Toggle>, log: CallLog, sa: State, sb: State, n: nat)
    requires m.Valid() && m.state == sa
    requires Get(m.eventMap, E0, sa) == Some(sb) && Get(m.eventMap, E1, sb) == Some(sa)
    modifies m, log
    ensures m.Valid() && m.eventMap == old(m.eventMap)
    ensures m.state == if n % 2 == 0 then sa else sb
    ensures |old(m.trace)| <= |m.trace| && log.calls == old(log.calls) + CallsOf(m.trace[|old(m.trace)|..])
  {
    ghost var t0 := m.trace;
    var i := 0;
    while i < n
      invariant 0 <= i <= n
      invariant m.Valid() && m.eventMap == old(m.eventMap)
      invariant m.state == if i % 2 == 0 then sa else sb
      invariant |t0| <= |m.trace| && m.trace[..|t0|] == t0
      invariant log.calls == old(log.calls) + CallsOf(m.trace[|t0|..])
    {
      ghost var t1 := m.trace;
      if i % 2 == 0 {
        var _ := m.FireEvent(E0, log);
        assert (i + 1) % 2 == 1;
      } else {
        var _ := m.FireEvent(E1, log);
        assert (i + 1) % 2 == 0;
      }
      CallsOfExtend(t0, t1, m.trace);
      i := i + 1;
    }
  }

  /**
   * `test_circular_transitions`: `e0` leads from `sa` to `sb` and `e1` back;
   * alternating them 42 times returns to `sa`, 199 more times ends in `sb`.
   */
  method CircularScenario(sa: State, sb: State) returns (after42: State, after241: State)
    requires sa != sb
    ensures after42 == sa && after241 == sb
  {
    var m, log := NewPingPong(sa, sb);
    FireAlternately(m, log, sa, sb, 42);
    after42 := m.CurrentState();
    FireAlternately(m, log, sa, sb, 199);
    after241 := m.CurrentState();
  }

  /** `test_single_transition`: `e0` moves the machine from `sa` to `sb`. */
  method SingleTransitionScenario(sa: State, sb: State) returns (before: State, next: Option<State>, after: State)
    requires sa != sb
    ensures before == sa && next == Some(sb) && after == sb
  {
    var log := new CallLog();
    var ts := [(E0, [(sa, sb)])];
    assert EntriesDeclared(ts, Nodes([sa, sb]));
    var r := Machine.Create([sa, sb], ts, sa, log);
    assert r.Success?;
    var m := r.value;
    BuildMapRow(ts, 0, sa);
    BindAllLastWins(map[], E0, [(sa, sb)], 0);
    before := m.CurrentState();
    next := m.FireEvent(E0, log);
    after := m.CurrentState();
  }

  /**
   * `test_event_no_transition`: `e1` is bound only from `sb`, so firing it in
   * `sa` returns None and the machine stays in `sa` without running a hook.
   */
  method EventNoTransitionScenario(sa: State, sb: State) returns (next: Option<State>, after: State, calls: seq<Call>)
    requires sa != sb
    ensures next == None && after == sa && calls == sa.EntryCalls()
  {
    var m, log := NewPingPong(sa, sb);
    next := m.FireEvent(E1, log);
    after := m.CurrentState();
    calls := log.calls;
  }

  /**
   * `test_self_transition`: a self-loop keeps the state but still runs its
   * exit hook and then its entry hook again.
   */
  method SelfLoopScenario(sa: State) returns (next: Option<State>, after: State, calls: seq<Call>)
    ensures next == Some(sa) && after == sa
    ensures calls == sa.EntryCalls() + sa.ExitCalls() + sa.EntryCalls()
  {
    var log := new CallLog();
    var ts := [(E0, [(sa, sa)])];
    assert EntriesDeclared(ts, Nodes([sa]));
    var r := Machine.Create([sa], ts, sa, log);
    assert r.Success?;
    var m := r.value;
    BuildMapRow(ts, 0, sa);
    BindAllLastWins(map[], E0, [(sa, sa)], 0);
    assert CallsOf([Entered(sa)]) == sa.EntryCalls() by {
      assert [Entered(sa)][..0] == [];
    }
    next := m.FireEvent(E0, log);
    after := m.CurrentState();
    calls := log.calls;
  }

  /** `test_one_state`: one state, no transitions, and it is the initial one. */
  method OneStateScenario() returns (a: State, outcome: Option<BuildError>, current: State?)
    ensures outcome == None && current == a
  {
    var log := new CallLog();
    a := new State("a");
    var r := Machine<Toggle>.Create([a], [], a, log);
    assert Nodes([a]) == {a};
    outcome, current := None, null;
    match r
    case Success(m) => current := m.CurrentState();
    case Failure(err) => outcome := Some(err);
  }

  /** `test_invalid_initial_state`: no states, no transitions and no initial state. */
  method InvalidInitialStateScenario() returns (outcome: Option<BuildError>)
    ensures outcome == Some(InvalidInitialState)
  {
    var log := new CallLog();
    var r := Machine<Toggle>.Create([], [], null, log);
    outcome := if r.Failure? then Some(r.error) else None;
  }

  /**
   * `test_wrong_transition_node`: a transition into a state that was never
   * declared is refused, even when that state has the same `uid` as a
   * declared one, since states are told apart by identity.
   */
  method WrongTransitionNodeScenario() returns (outcome: Option<BuildError>, twinOutcome: Option<BuildError>)
    ensures outcome == Some(InvalidReference) && twinOutcome == Some(InvalidReference)
  {
    var log := new CallLog();
    var a := new State("a");
    var stray := new State("non exist");
    var twin := new State("a");
    var r := Machine.Create([a], [(E0, [(a, stray)])], a, log);
    UndeclaredEndpointRejected([a], [(E0, [(a, stray)])], a, 0, 0);
    outcome := if r.Failure? then Some(r.error) else None;
    var r' := Machine.Create([a], [(E0, [(a, twin)])], a, log);
    UndeclaredEndpointRejected([a], [(E0, [(a, twin)])], a, 0, 0);
    twinOutcome := if r'.Failure? then Some(r'.error) else None;
  }

  /** `simple_action` of the tests, as a callback identity. */
  const SimpleAction := Callback("simple_action")

  /** The `SimpleNamespace` instance the tests hand to the callback. */
  const Namespace := ObjectRef(0)

  /**
   * `test_entry_action`: building the machine runs the entry callback of the
   * initial state once, with the positional arguments stored on the state.
   */
  method EntryActionScenario() returns (calls: seq<Call>)
    ensures calls == [Call(SimpleAction, [Namespace], map[])]
  {
    var log := new CallLog();
    var sa := new State("sa", entryAction := Some(SimpleAction), entryArgs := Some([Namespace]));
    var r := Machine<Toggle>.Create([sa], [], sa, log);
    assert Nodes([sa]) == {sa};
    assert CallsOf([Entered(sa)]) == sa.EntryCalls() by {
      assert [Entered(sa)][..0] == [];
    }
    calls := log.calls;
  }

  /**
   * `test_exit_action`: nothing runs when the machine is built (`sa` has no
   * entry callback); firing `e0` runs the exit callback of `sa` once, with
   * the keyword arguments stored on it, and `sb` adds nothing.
   */
  method ExitActionScenario() returns (before: seq<Call>, after: seq<Call>)
    ensures before == []
    ensures after == [Call(SimpleAction, [], map["instance" := Namespace, "amount" := IntValue(5)])]
  {
    var log := new CallLog();
    var sa := new State("sa", exitAction := Some(SimpleAction),
                        exitKwargs := Some(map["instance" := Namespace, "amount" := IntValue(5)]));
    var sb := new State("sb");
    var ts := [(E0, [(sa, sb)])];
    assert EntriesDeclared(ts, Nodes([sa, sb]));
    var r := Machine.Create([sa, sb], ts, sa, log);
    assert r.Success?;
    var m := r.value;
    assert CallsOf([Entered(sa)]) == sa.EntryCalls() by {
      assert [Entered(sa)][..0] == [];
    }
    before := log.calls;
    BuildMapRow(ts, 0, sa);
    BindAllLastWins(map[], E0, [(sa, sb)], 0);
    var _ := m.FireEvent(E0, log);
    after := log.calls;
  }
}

/**
 * The `FSM` class of src/dt_logic/graph_fsm.py: a directed graph whose nodes
 * are the declared states and whose edges carry event labels, the lookup
 * table `event_map[event][source] = dest`, and the one mutable reference to the
 * current state.
 */
module GraphFsm {
  import opened Wrappers
  import opened FsmState
  import opened TransitionTable

  /** Why construction stops: the Python `assert`s of the constructor and of `bind_event`. */
  datatype BuildError =
    | InvalidReference     // a transition names a state that was not declared
    | InvalidInitialState  // the initial state was not declared (or is None)

  /** The node set `add_nodes_from(states)` produces. */
  function Nodes(states: seq<State>): set<State> {
    set s | s in states
  }

  /** The outcome the constructor's checks decide: the first failing assert, or none. */
  function ConstructionError<E(==)>(states: seq<State>, ts: Transitions<E, State>, initial: State?): Option<BuildError> {
    if !EntriesDeclared(ts, Nodes(states)) then Some(InvalidReference)
    else if initial == null || initial !in Nodes(states) then Some(InvalidInitialState)
    else None
  }

  class Machine<E(==)> {
    /** The graph's node set: the declared states. */
    var nodes: set<State>
    /** The transition lookup table. */
    var eventMap: EventMap<E, State>
    /** The graph's edges, each with the event label it carries. */
    var edgeLabels: map<(State, State), E>
    /** `_state`; it does not exist yet while the constructor is binding events. */
    var state: State?
    /** The hooks the machine has run, oldest first. */
    ghost var trace: seq<Hook>
    /** The redefinition warnings logged so far. */
    ghost var warnings: seq<(E, State)>

    /** The table and the edges only join declared states. */
    ghost predicate Wellformed()
      reads this
    {
      Closed(eventMap, nodes) && EdgesClosed(edgeLabels, nodes)
    }

    /** A constructed machine: its current state is always a declared node. */
    ghost predicate Valid()
      reads this
    {
      Wellformed() && state != null && state in nodes
    }

    /** The first phase of the constructor: the nodes, and an empty table. */
    constructor (states: seq<State>)
      ensures nodes == Nodes(states) && eventMap == map[] && edgeLabels == map[]
      ensures state == null && trace == [] && warnings == []
      ensures Wellformed()
    {
      nodes := Nodes(states);
      eventMap := map[];
      edgeLabels := map[];
      state := null;
      trace := [];
      warnings := [];
    }

    /**
     * `bind_event`: bind each pair to `e` in order, warning when a source is
     * already bound for `e`. At the first pair naming an undeclared state it
     * stops and answers false; the pairs before it stay bound.
     */
    method BindEvent(e: E, pairs: seq<(State, State)>) returns (ok: bool)
      requires Wellformed()
      modifies this
      ensures Wellformed()
      ensures nodes == old(nodes) && state == old(state) && trace == old(trace)
      ensures ok == AllDeclared(pairs, nodes)
      ensures var k := DeclaredPrefix(pairs, nodes);
              && eventMap == BindAll(old(eventMap), e, pairs[..k])
              && edgeLabels == LabelAll(old(edgeLabels), e, pairs[..k])
              && warnings == old(warnings) + Redefinitions(old(eventMap), e, pairs[..if ok then k else k + 1])
    {
      BindPrefixClosed(eventMap, edgeLabels, e, pairs, nodes);
      eventMap, edgeLabels, warnings, ok := BindPairs<E, State>(nodes, eventMap, edgeLabels, warnings, e, pairs);
    }

    /**
     * `FSM.__init__`: add the states as nodes, bind every event in dictionary
     * order, check the initial state, make it current and run its entry hook.
     */
    static method Create(states: seq<State>, ts: Transitions<E, State>, initial: State?, log: CallLog)
      returns (r: Result<Machine<E>, BuildError>)
      modifies log
      ensures r.Failure? <==> ConstructionError(states, ts, initial).Some?
      ensures r.Failure? ==> Some(r.error) == ConstructionError(states, ts, initial) && log.calls == old(log.calls)
      ensures r.Success? ==>
                && fresh(r.value) && r.value.Valid()
                && r.value.nodes == Nodes(states)
                && r.value.eventMap == BuildMap(ts)
                && r.value.edgeLabels == BuildLabels(ts)
                && r.value.warnings == BuildWarnings(ts)
                && r.value.state == initial
                && r.value.trace == [Entered(initial)]
                && log.calls == old(log.calls) + CallsOf(r.value.trace)
    {
      var m := new Machine<E>(states);
      var ok := m.BindTransitions(ts);
      if !ok {
        return Failure(InvalidReference);
      }
      if initial == null || initial !in m.nodes {
        return Failure(InvalidInitialState);
      }
      m.state := initial;
      initial.Enter(log);
      m.trace := m.trace + [Entered(initial)];
      assert [Entered(initial)][..0] == [];
      return Success(m);
    }

    /** The constructor's loop: `bind_event` for each event of the dictionary, in order. */
    method BindTransitions(ts: Transitions<E, State>) returns (ok: bool)
      requires Wellformed() && eventMap == map[] && edgeLabels == map[] && warnings == []
      modifies this
      ensures Wellformed()
      ensures nodes == old(nodes) && state == old(state) && trace == old(trace)
      ensures ok == EntriesDeclared(ts, nodes)
      ensures ok ==> eventMap == BuildMap(ts) && edgeLabels == BuildLabels(ts) && warnings == BuildWarnings(ts)
    {
      var i := 0;
      while i < |ts|
        invariant 0 <= i <= |ts|
        invariant nodes == old(nodes) && state == old(state) && trace == old(trace)
        invariant EntriesDeclared(ts[..i], nodes)
        invariant eventMap == BuildMap(ts[..i])
        invariant edgeLabels == BuildLabels(ts[..i])
        invariant warnings == BuildWarnings(ts[..i])
      {
        BuildStep(ts, i);
        BuildClosed(ts[..i], nodes);
        ok := BindEvent(ts[i].0, ts[i].1);
        if !ok {
          assert !AllDeclared(ts[i].1, nodes);
          return false;
        }
        assert ts[i].1[..|ts[i].1|] == ts[i].1;
        EntriesDeclaredStep(ts, i, nodes);
        i := i + 1;
      }
      assert ts[..i] == ts;
      BuildClosed(ts, nodes);
      return true;
    }

    /** `current_state`. */
    function CurrentState(): (s: State)
      reads this
      requires Valid()
      ensures s in nodes
    {
      state
    }

    /**
     * `_transit_to`: run the exit hook of the current state, move the current-state field,
     * then run the entry hook of the new state, in that order.
     */
    method TransitTo(next: State, log: CallLog)
      requires Valid() && next in nodes
      modifies this, log
      ensures Valid() && state == next
      ensures nodes == old(nodes) && eventMap == old(eventMap) && edgeLabels == old(edgeLabels) && warnings == old(warnings)
      ensures trace == old(trace) + [Exited(old(state)), Entered(next)]
      ensures log.calls == old(log.calls) + old(state).ExitCalls() + next.EntryCalls()
    {
      state.Exit(log);
      trace := trace + [Exited(state)];
      state := next;
      state.Enter(log);
      trace := trace + [Entered(state)];
    }

    /**
     * `fire_event` without visualisation: look up `(e, current state)`; with
     * no binding nothing happens and None is returned, otherwise the machine
     * transits to the destination (a self-loop too) and returns it.
     */
    method FireEvent(e: E, log: CallLog) returns (next: Option<State>)
      requires Valid()
      modifies this, log
      ensures Valid()
      ensures nodes == old(nodes) && eventMap == old(eventMap) && edgeLabels == old(edgeLabels) && warnings == old(warnings)
      ensures next == Get(eventMap, e, old(state))
      ensures next.None? ==> state == old(state) && trace == old(trace) && log.calls == old(log.calls)
      ensures next.Some? ==>
                && state == next.value
                && trace == old(trace) + [Exited(old(state)), Entered(next.value)]
                && log.calls == old(log.calls) + old(state).ExitCalls() + next.value.EntryCalls()
      ensures |old(trace)| <= |trace| && trace[..|old(trace)|] == old(trace)
      ensures log.calls == old(log.calls) + CallsOf(trace[|old(trace)|..])
    {
      next := Get(eventMap, e, state);
      match next
      case None =>
        // no transition for this event from the current state: only a debug log line
        assert trace[|old(trace)|..] == [];
      case Some(d) =>
        // a self-loop and an ordinary transition differ only in their info log line
        TransitTo(d, log);
        assert trace[|old(trace)|..] == [Exited(old(state)), Entered(d)];
        TransitionCalls(old(state), d);
    }
  }

  /** With no declared states every construction fails, whatever the transitions and initial state. */
  lemma EmptyStatesRejected<E>(ts: Transitions<E, State>, initial: State?)
    ensures ConstructionError([], ts, initial).Some?
  {
    assert Nodes([]) == {};
  }

  /** A transition naming an undeclared source or destination makes construction fail, whatever the initial state. */
  lemma UndeclaredEndpointRejected<E>(states: seq<State>, ts: Transitions<E, State>, initial: State?, i: nat, j: nat)
    requires i < |ts| && j < |ts[i].1|
    requires ts[i].1[j].0 !in states || ts[i].1[j].1 !in states
    ensures ConstructionError(states, ts, initial) == Some(InvalidReference)
  {
    assert !Declared(ts[i].1[j], Nodes(states));
  }
}

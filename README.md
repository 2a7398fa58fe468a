# dt-logic finite-state machine, modelled in Dafny

This project models the transition engine of `dt_logic`, a small Python
library for finite-state machines. A machine is a directed graph. Its nodes
are the declared states. Its edges carry event labels. A two-level table
`event_map[event][source] = dest` drives dispatch, and one mutable field
names the current state.

The model covers the following behaviour:

- **States** (`FsmState`). Each state has an optional entry callback and an
  optional exit callback.
  - Each callback has bound positional and keyword arguments. These default
    to an empty list and an empty map.
  - `enter()` and `exit()` run the callback only when one is stored.
  - States are Dafny objects and compare by identity, as the Python objects
    do. Two states with the same `uid` are different states.
  - The callbacks are foreign code. A run of one is recorded as a `Call` in a
    `CallLog` object, which stands for the world the callbacks act on.
- **The lookup helper** (`ChainedDict`). `safe_chained_dict_get` walks a
  key chain through nested dictionaries and answers None at the first missing
  link. The model is the same `while` loop, proved against a recursive
  specification and against a reference "subscript every key" definition.
- **The table and the edges** (`TransitionTable`). This module holds the
  table and the edge labels as values.
  - Folds say what binding a list of pairs does: the table, the labels and
    the redefinition warnings.
  - Lemmas state last-write-wins, the "nothing else changes" facts, the
    warnings, and closure over the declared states.
  - The loop of `bind_event` is the method `BindPairs`.
- **The machine** (`GraphFsm`). `Machine` is a class with these fields:
  `nodes`, `eventMap`, `edgeLabels`, `state`, a ghost `trace` of the hooks it
  ran and a ghost list of `warnings`.
  - Construction either fails with the error the Python `assert`s raise, or
    yields a machine whose state is the initial one, whose trace is exactly
    one entry hook, and whose table is the fold of the transitions dictionary.
  - `FireEvent` either leaves everything unchanged and returns None, or runs
    the exit hook, moves the current state, runs the entry hook, and returns the
    destination.
- **The tests as theorems** (`FsmScenarios`). Each test of `test_fsm.py` and
  `test_utilities.py` is restated for all the inputs it draws at random. For
  example, any interleaving of self-loop and advance events along a chain ends
  at the state indexed by the number of advances.

On these points the model follows the code:

- `fire_event` returns `next_state`. With no binding this is None, not the
  current state (src/dt_logic/graph_fsm.py:96).
- Events and states compare by object identity. No `__eq__` is defined, so
  equal `uid`s do not make two events or two states equal. Events are an
  opaque type parameter `E` with equality.
- A redefined `(event, source)` keeps the newest destination. The old one is
  not kept (src/dt_logic/graph_fsm.py:60).
- `bind_event` stores a pair before it asserts that the pair's endpoints are
  declared. See "Findings".
- `bind_event` is a public method that may be called after construction. The
  model allows this on any well-formed machine.

## Model

| member | source | states |
|---|---|---|
| ChainedDict.SafeChainedDictGet | src/dt_logic/validation.py:4-14 | the loop answers what the recursive chain lookup answers, for every key chain; with no keys it returns the input object itself; it only reads its argument |
| ChainedDict.ChainedGetFollowsWalk | src/dt_logic/validation.py:8-14 | when every key is present, the lookup yields the object reached by subscripting the keys in order |
| ChainedDict.ChainedGetMissingLink | src/dt_logic/validation.py:10-12 | a missing key at any position of the chain, first or later, makes the lookup answer None |
| ChainedDict.ChainedGetNoGet | src/dt_logic/validation.py:10 | reaching an object without `.get` before the keys run out raises instead of answering |
| ChainedDict.StoredNullIsMissing | src/dt_logic/validation.py:10-12 | a key stored with the value None is indistinguishable from an absent key |
| ChainedDict.UtilitiesExample | src/dt_logic_tests/test_utilities.py:4-8 | on `{'a': {'b': {'c': 1}}}` the keys a,b,c give 1, and the keys a,c and the key b give None |
| FsmState.Invoke | src/dt_logic/fsm_state.py:36-44 | a stored callback runs exactly once with the stored args and kwargs; with none stored nothing runs |
| FsmState.State.constructor | src/dt_logic/fsm_state.py:6-47 | uid and callbacks are stored unchanged; missing args default to the empty list and missing kwargs to the empty map; `__repr__` gives the uid back |
| FsmState.State.Enter | src/dt_logic/fsm_state.py:36-39 | `enter()` appends to the world exactly the runs of the entry callback, so it never runs the exit callback |
| FsmState.State.Exit | src/dt_logic/fsm_state.py:41-44 | `exit()` appends to the world exactly the runs of the exit callback, so it never runs the entry callback |
| FsmState.CallsOfAppend | src/dt_logic/graph_fsm.py:180-182 | the callback runs of two stretches of hooks are the runs of the first followed by those of the second |
| FsmState.TransitionCalls | src/dt_logic/graph_fsm.py:180-182 | a transition from s to d runs the exit callback of s, then the entry callback of d |
| TransitionTable.BindClosed | src/dt_logic/graph_fsm.py:60-62 | binding one pair of declared states keeps every table entry between declared states |
| TransitionTable.BindAllLastWins | src/dt_logic/graph_fsm.py:56-60 | the last pair from a source decides that source's destination (last write wins) |
| TransitionTable.BindAllElsewhere | src/dt_logic/graph_fsm.py:56-60 | binding leaves the lookups of other events, and of sources none of the pairs names, unchanged |
| TransitionTable.BindAllBound | src/dt_logic/graph_fsm.py:56-60 | after binding, a source is bound for the event if and only if it was bound before or some pair names it |
| TransitionTable.RedefinitionsExact | src/dt_logic/graph_fsm.py:56-59 | a warning `(e', s)` is emitted if and only if e' is the bound event and some pair from s meets an existing binding, from an earlier pair or from before |
| TransitionTable.RedefinitionsNameEvent | src/dt_logic/graph_fsm.py:57-59 | every redefinition warning names the event being bound |
| TransitionTable.BindAllClosed | src/dt_logic/graph_fsm.py:56-62 | binding pairs of declared states keeps the table between declared states |
| TransitionTable.LabelAllSpec | src/dt_logic/graph_fsm.py:63 | `add_edge` for each pair: the edges are the old ones plus the pairs, each pair labelled with the event, and other edges keep their label |
| TransitionTable.LabelAllClosed | src/dt_logic/graph_fsm.py:62-63 | adding edges between declared states keeps every edge between declared states |
| TransitionTable.BindPrefixClosed | src/dt_logic/graph_fsm.py:56-63 | binding the pairs before the first undeclared one keeps the table and the edges closed |
| TransitionTable.BindPairs | src/dt_logic/graph_fsm.py:56-63 | the loop binds exactly the pairs before the first one naming an undeclared state and labels their edges; it warns for each of them and for that pair; it answers whether all pairs were declared |
| TransitionTable.PartialBindEscapes | src/dt_logic/graph_fsm.py:60-62 | as written, a rejected pair into an undeclared state stays in the table, which then leads out of the node set |
| TransitionTable.BuildClosed | src/dt_logic/graph_fsm.py:41-42 | when every pair of the dictionary is declared, the built table and edges join declared states only |
| TransitionTable.BuildMapRow | src/dt_logic/graph_fsm.py:40-42 | with distinct events, each event's row is what binding its own pairs to an empty table gives |
| TransitionTable.BuildMapUnbound | src/dt_logic/graph_fsm.py:40-42 | an event absent from the dictionary has no binding for any state |
| TransitionTable.BindAllFromSameRow | src/dt_logic/graph_fsm.py:56-60 | the lookup after binding depends only on the row being bound, not on the rest of the table |
| TransitionTable.BuildLabelsEdges | src/dt_logic/graph_fsm.py:41-42 | the graph has an edge if and only if some event of the dictionary lists that pair |
| TransitionTable.BuildLabelsLastWins | src/dt_logic/graph_fsm.py:41-42 | an edge listed by several events carries the label of the last of them |
| TransitionTable.GetIsChainedGet | src/dt_logic/graph_fsm.py:76 | the table lookup is `safe_chained_dict_get(event_map, event, state)`: the destination when bound, None otherwise |
| GraphFsm.EmptyStatesRejected | src/dt_logic/graph_fsm.py:43 | with no declared states every construction fails |
| GraphFsm.UndeclaredEndpointRejected | src/dt_logic/graph_fsm.py:61-62 | a transition naming an undeclared source or destination makes construction fail with an invalid reference |
| GraphFsm.Machine.constructor | src/dt_logic/graph_fsm.py:36-40 | the nodes are the declared states, the table and the edges are empty, and no state is current yet |
| GraphFsm.Machine.BindEvent | src/dt_logic/graph_fsm.py:47-63 | binds the declared prefix of the pairs; keeps the table and edges closed; nodes, current state and trace are unchanged; answers whether every pair was declared |
| GraphFsm.Machine.BindTransitions | src/dt_logic/graph_fsm.py:40-42 | binding each event of the dictionary in order gives the folded table, edges and warnings, or stops at an undeclared endpoint |
| GraphFsm.Machine.Create | src/dt_logic/graph_fsm.py:23-45 | fails exactly when an endpoint or the initial state is undeclared, and then runs no callback; otherwise the state is the initial one, the trace is one entry hook and the world saw exactly its entry callback |
| GraphFsm.Machine.CurrentState | src/dt_logic/graph_fsm.py:186-189 | the current state is always a declared node |
| GraphFsm.Machine.TransitTo | src/dt_logic/graph_fsm.py:173-182 | exit hook of the old state, then the current state moves, then the entry hook of the new one; table and nodes untouched |
| GraphFsm.Machine.FireEvent | src/dt_logic/graph_fsm.py:65-96 | returns the table's binding for the event and the current state; with none nothing changes; with one, self-loops included, the trace grows by exactly exit(old) then enter(new) and the state becomes the destination; the trace only grows and the callbacks run are those of its new hooks |
| FsmScenarios.ChainTableStay | src/dt_logic_tests/test_fsm.py:26-32 | in the sequential test's table every state loops to itself on the self event |
| FsmScenarios.ChainTableAdvance | src/dt_logic_tests/test_fsm.py:26-32 | in the sequential test's table every state but the last steps to its successor on the advance event |
| FsmScenarios.ChainDeclared | src/dt_logic_tests/test_fsm.py:25-32 | every pair of the sequential test joins declared states, so its construction succeeds |
| FsmScenarios.ChainScenario | src/dt_logic_tests/test_fsm.py:14-58 | any interleaving of self events and at most n-1 advance events ends at the state indexed by the number of advances |
| FsmScenarios.FireAlternately | src/dt_logic_tests/test_fsm.py:120-121 | alternating e0 and e1 n times from sa ends in sa when n is even and in sb when n is odd; the callbacks run meanwhile are exactly those of the hooks the machine ran |
| FsmScenarios.CircularScenario | src/dt_logic_tests/test_fsm.py:114-125 | 42 alternating fires return to sa; 199 more end in sb |
| FsmScenarios.SingleTransitionScenario | src/dt_logic_tests/test_fsm.py:94-102 | the machine starts in sa, and e0 returns sb and moves it there |
| FsmScenarios.EventNoTransitionScenario | src/dt_logic_tests/test_fsm.py:104-112 | an event unbound from the current state returns None, keeps the state and runs no callback |
| FsmScenarios.SelfLoopScenario | src/dt_logic_tests/test_fsm.py:87-92 | a self-loop keeps the state but runs its exit callback and then its entry callback again |
| FsmScenarios.OneStateScenario | src/dt_logic_tests/test_fsm.py:71-73 | one state, no transitions: construction succeeds and that state is current |
| FsmScenarios.InvalidInitialStateScenario | src/dt_logic_tests/test_fsm.py:62-69 | no states and no initial state: construction fails on the initial state |
| FsmScenarios.WrongTransitionNodeScenario | src/dt_logic_tests/test_fsm.py:75-83 | a transition into an undeclared state fails, even when that state shares the uid of a declared one |
| FsmScenarios.EntryActionScenario | src/dt_logic_tests/test_fsm.py:135-140 | construction runs the initial state's entry callback once with its positional args |
| FsmScenarios.ExitActionScenario | src/dt_logic_tests/test_fsm.py:142-156 | nothing runs before the fire; afterwards exactly one run of the exit callback with its kwargs, amount 5 |

## Findings

| source | as written | input that shows it | evidently intended | confidence | as-written member | corrected member |
|---|---|---|---|---|---|---|
| src/dt_logic/graph_fsm.py:60-62 | `event_map[event][e0] = e1` runs before `assert e0 in nodes and e1 in nodes` | `fsm = FSM([a], {}, a)`; `fsm.bind_event(e, [(a, x)])` with `x` undeclared raises, but the caller catches it; `fsm.fire_event(e)` then moves `_state` to `x`, which is not a node | a rejected pair leaves no trace in the table, so the current state stays a declared node | medium, not executed | TransitionTable.PartialBindEscapes | GraphFsm.Machine.BindEvent |

## Left out

- `FSM.visualize` and the `viz` argument of `fire_event` (src/dt_logic/graph_fsm.py:89-94, 98-171) are left out. They are matplotlib and networkx drawing that returns a numpy image. `FireEvent` returns only `next_state`, the first half of the Python tuple.
- The networkx `DiGraph` internals are left out. The graph is a node set plus a map from `(source, dest)` to the event label. Graph attributes passed through `**attr` are also left out.
- Logging is left out, except the redefinition warnings. Those are kept as the ghost sequence `warnings`. The debug and info lines of `fire_event` have no effect on state.
- The bodies of user callbacks and the exceptions they raise are left out. A callback run is a `Call` appended to a `CallLog`. Because of this, the model does not check the counter values the action tests assert (1 and 5). It checks the calls that produce them.
- A callback that calls back into the machine (re-entrant `fire_event` or `current_state`) is left out.
- Running Python with `-O`, which disables the `assert`s, is left out. The asserts are modelled as construction failing.
- GraphFsm.Machine.BindEvent: the method stops before writing the pair that fails the assert. It does not reproduce the source's partial write, which is logged under "Findings" and modelled by `TransitionTable.BindAsWritten`. The warning for that pair is still emitted.
- TransitionTable.BindPairs: the loop stops before writing the pair that names an undeclared state, while the source writes that pair into `event_map` before its assert fails. The table as the source leaves it is `TransitionTable.BindAsWritten`.
- FsmState.State.constructor: the bound args and kwargs are values captured at construction. In Python they are the caller's own list and dict, so later changes to them reach the callback.
- GraphFsm.Machine.Create: an `AssertionError` is a `Failure` result. When an undeclared endpoint is found, the machine that was partly built is discarded, as the exception discards it in Python.
- src/dt_logic/fsm_event.py is not modelled as its own type. It has only a `uid` and `__repr__`, and events are an opaque type parameter with identity equality.
- The packaging in setup.py and the re-exports and logger setup in src/dt_logic/__init__.py are not part of this model.
- The random choices of the sequential test (`random.seed`, `shuffle`, `randint`) are not modelled. `ChainScenario` quantifies over every state list and every event order they could produce.
- Python dictionaries that hold non-dictionary values, other than `None` and scalars, are not modelled. `ChainedDict.Obj` has only these three shapes.

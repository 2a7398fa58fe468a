/**
 * The lookup structures `FSM.bind_event` builds in src/dt_logic/graph_fsm.py:
 * the two-level table `event_map[event][source] = dest` and the edge labels of
 * the underlying directed graph, as values, together with the folds that
 * describe what binding a list of pairs does to them.
 */
module TransitionTable {
  import opened Wrappers
  import ChainedDict

  /** `event_map`: event -> source state -> destination state. */
  type EventMap<E, S> = map<E, map<S, S>>

  /** The transitions argument: each event with its (source, dest) pairs, in dictionary order. */
  type Transitions<E, S> = seq<(E, seq<(S, S)>)>

  /** `event_map[event]` on the defaultdict: an event never bound has an empty row. */
  function Row<E(==), S(==)>(em: EventMap<E, S>, e: E): map<S, S> {
    if e in em then em[e] else map[]
  }

  /** The two-key lookup `safe_chained_dict_get(event_map, event, source)`. */
  function Get<E(==), S(==)>(em: EventMap<E, S>, e: E, s: S): Option<S> {
    if s in Row(em, e) then Some(Row(em, e)[s]) else None
  }

  /** `event_map[event][source] = dest`. */
  function Bind<E(==), S(==)>(em: EventMap<E, S>, e: E, src: S, dst: S): EventMap<E, S> {
    em[e := Row(em, e)[src := dst]]
  }

  /** The table after binding `pairs` to `e` one by one. */
  function BindAll<E(==), S(==)>(em: EventMap<E, S>, e: E, pairs: seq<(S, S)>): EventMap<E, S>
    decreases |pairs|
  {
    if pairs == [] then em
    else
      var last := pairs[|pairs| - 1];
      Bind(BindAll(em, e, pairs[..|pairs| - 1]), e, last.0, last.1)
  }

  /** The edge labels after `add_edge(source, dest, event=e)` for each pair: the label is overwritten. */
  function LabelAll<E(==), S(==)>(labels: map<(S, S), E>, e: E, pairs: seq<(S, S)>): map<(S, S), E>
    decreases |pairs|
  {
    if pairs == [] then labels
    else LabelAll(labels, e, pairs[..|pairs| - 1])[pairs[|pairs| - 1] := e]
  }

  /**
   * The redefinition warnings binding `pairs` to `e` emits: one `(e, source)`
   * for every pair whose source is already bound for `e` when it is reached.
   */
  function Redefinitions<E(==), S(==)>(em: EventMap<E, S>, e: E, pairs: seq<(S, S)>): seq<(E, S)>
    decreases |pairs|
  {
    if pairs == [] then []
    else
      var init := pairs[..|pairs| - 1];
      var src := pairs[|pairs| - 1].0;
      Redefinitions(em, e, init) + (if Get(BindAll(em, e, init), e, src).Some? then [(e, src)] else [])
  }

  /** Both endpoints of a pair are declared states. */
  predicate Declared<S(==)>(p: (S, S), nodes: set<S>) {
    p.0 in nodes && p.1 in nodes
  }

  predicate AllDeclared<S(==)>(pairs: seq<(S, S)>, nodes: set<S>) {
    forall j | 0 <= j < |pairs| :: Declared(pairs[j], nodes)
  }

  predicate EntriesDeclared<E(==), S(==)>(ts: Transitions<E, S>, nodes: set<S>) {
    forall i | 0 <= i < |ts| :: AllDeclared(ts[i].1, nodes)
  }

  /** The position of the first pair naming an undeclared state, or `|pairs|` when there is none. */
  function DeclaredPrefix<S(==)>(pairs: seq<(S, S)>, nodes: set<S>): (k: nat)
    ensures k <= |pairs|
    ensures forall j | 0 <= j < k :: Declared(pairs[j], nodes)
    ensures k < |pairs| ==> !Declared(pairs[k], nodes)
    decreases |pairs|
  {
    if pairs == [] || !Declared(pairs[0], nodes) then 0
    else 1 + DeclaredPrefix(pairs[1..], nodes)
  }

  /** Every table entry joins two declared states. */
  ghost predicate Closed<E, S>(em: EventMap<E, S>, nodes: set<S>) {
    forall e, s | e in em && s in em[e] :: s in nodes && em[e][s] in nodes
  }

  /** Every graph edge joins two declared states. */
  ghost predicate EdgesClosed<E, S>(labels: map<(S, S), E>, nodes: set<S>) {
    forall p | p in labels :: p.0 in nodes && p.1 in nodes
  }

  /** The table the constructor builds from the whole transitions argument. */
  function BuildMap<E(==), S(==)>(ts: Transitions<E, S>): EventMap<E, S>
    decreases |ts|
  {
    if ts == [] then map[]
    else
      var last := ts[|ts| - 1];
      BindAll(BuildMap(ts[..|ts| - 1]), last.0, last.1)
  }

  /** The edge labels the constructor leaves on the graph. */
  function BuildLabels<E(==), S(==)>(ts: Transitions<E, S>): map<(S, S), E>
    decreases |ts|
  {
    if ts == [] then map[]
    else
      var last := ts[|ts| - 1];
      LabelAll(BuildLabels(ts[..|ts| - 1]), last.0, last.1)
  }

  /** The redefinition warnings the constructor emits, in order. */
  function BuildWarnings<E(==), S(==)>(ts: Transitions<E, S>): seq<(E, S)>
    decreases |ts|
  {
    if ts == [] then []
    else
      var init := ts[..|ts| - 1];
      var last := ts[|ts| - 1];
      BuildWarnings(init) + Redefinitions(BuildMap(init), last.0, last.1)
  }

  /** A Python dictionary holds each event once. */
  predicate EventsDistinct<E(==), S(==)>(ts: Transitions<E, S>) {
    forall i, j | 0 <= i < j < |ts| :: ts[i].0 != ts[j].0
  }

  // ----- One step of the folds, as the loops of the machine take it -----

  lemma BindStep<E, S>(em: EventMap<E, S>, labels: map<(S, S), E>, e: E, pairs: seq<(S, S)>, i: nat)
    requires i < |pairs|
    ensures BindAll(em, e, pairs[..i + 1]) == Bind(BindAll(em, e, pairs[..i]), e, pairs[i].0, pairs[i].1)
    ensures LabelAll(labels, e, pairs[..i + 1]) == LabelAll(labels, e, pairs[..i])[pairs[i] := e]
    ensures Redefinitions(em, e, pairs[..i + 1]) ==
            Redefinitions(em, e, pairs[..i]) +
            (if Get(BindAll(em, e, pairs[..i]), e, pairs[i].0).Some? then [(e, pairs[i].0)] else [])
  {
    assert pairs[..i + 1][..i] == pairs[..i];
  }

  lemma BuildStep<E, S>(ts: Transitions<E, S>, i: nat)
    requires i < |ts|
    ensures BuildMap(ts[..i + 1]) == BindAll(BuildMap(ts[..i]), ts[i].0, ts[i].1)
    ensures BuildLabels(ts[..i + 1]) == LabelAll(BuildLabels(ts[..i]), ts[i].0, ts[i].1)
    ensures BuildWarnings(ts[..i + 1]) == BuildWarnings(ts[..i]) + Redefinitions(BuildMap(ts[..i]), ts[i].0, ts[i].1)
  {
    assert ts[..i + 1][..i] == ts[..i];
  }

  /** The first undeclared pair is unique, so a position with its two properties is it. */
  lemma DeclaredPrefixAt<S>(pairs: seq<(S, S)>, nodes: set<S>, k: nat)
    requires k <= |pairs|
    requires forall j | 0 <= j < k :: Declared(pairs[j], nodes)
    requires k < |pairs| ==> !Declared(pairs[k], nodes)
    ensures DeclaredPrefix(pairs, nodes) == k
    ensures AllDeclared(pairs, nodes) <==> k == |pairs|
  {
  }

  /** Binding one pair of declared states keeps the table between declared states. */
  lemma BindClosed<E, S>(em: EventMap<E, S>, e: E, src: S, dst: S, nodes: set<S>)
    requires Closed(em, nodes) && src in nodes && dst in nodes
    ensures Closed(Bind(em, e, src, dst), nodes)
  {
  }

  // ----- Binding: the newest binding wins, nothing else changes -----

  /** The last pair bound from a source decides that source's destination. */
  lemma {:induction false} BindAllLastWins<E, S>(em: EventMap<E, S>, e: E, pairs: seq<(S, S)>, i: nat)
    requires i < |pairs|
    requires forall j | i < j < |pairs| :: pairs[j].0 != pairs[i].0
    ensures Get(BindAll(em, e, pairs), e, pairs[i].0) == Some(pairs[i].1)
    decreases |pairs|
  {
    if i < |pairs| - 1 {
      BindAllLastWins(em, e, pairs[..|pairs| - 1], i);
    }
  }

  /** Lookups for another event, or for a source none of the pairs names, are unchanged. */
  lemma {:induction false} BindAllElsewhere<E, S>(em: EventMap<E, S>, e: E, pairs: seq<(S, S)>, e': E, s: S)
    requires e' != e || forall j | 0 <= j < |pairs| :: pairs[j].0 != s
    ensures Get(BindAll(em, e, pairs), e', s) == Get(em, e', s)
    decreases |pairs|
  {
    if pairs != [] {
      BindAllElsewhere(em, e, pairs[..|pairs| - 1], e', s);
    }
  }

  /** After binding, a source is bound for `e` exactly when it was before or some pair names it. */
  lemma {:induction false} BindAllBound<E, S>(em: EventMap<E, S>, e: E, pairs: seq<(S, S)>, s: S)
    ensures Get(BindAll(em, e, pairs), e, s).Some? <==>
            Get(em, e, s).Some? || exists j | 0 <= j < |pairs| :: pairs[j].0 == s
    decreases |pairs|
  {
    if pairs != [] {
      var init := pairs[..|pairs| - 1];
      BindAllBound(em, e, init, s);
      if exists j | 0 <= j < |pairs| :: pairs[j].0 == s {
        var j :| 0 <= j < |pairs| && pairs[j].0 == s;
        if j < |init| {
          assert init[j].0 == s;
        }
      }
    }
  }

  /**
   * The pair at position `j` rebinds source `s`: it starts from `s` while
   * `(e, s)` is already bound, by the table before or by an earlier pair.
   */
  ghost predicate RebindsAt<E, S>(em: EventMap<E, S>, e: E, pairs: seq<(S, S)>, j: nat, s: S)
    requires j < |pairs|
  {
    pairs[j].0 == s && (Get(em, e, s).Some? || exists i | 0 <= i < j :: pairs[i].0 == s)
  }

  /** The warnings are exactly the re-bindings: `(e', s)` is warned about iff `e' == e` and some pair rebinds `s`. */
  lemma {:induction false} RedefinitionsExact<E, S>(em: EventMap<E, S>, e: E, pairs: seq<(S, S)>, e': E, s: S)
    ensures (e', s) in Redefinitions(em, e, pairs) <==>
            e' == e && exists j | 0 <= j < |pairs| :: RebindsAt(em, e, pairs, j, s)
    decreases |pairs|
  {
    if pairs != [] {
      var n := |pairs| - 1;
      var init := pairs[..n];
      RedefinitionsExact(em, e, init, e', s);
      forall j | 0 <= j < n
        ensures RebindsAt(em, e, pairs, j, s) <==> RebindsAt(em, e, init, j, s)
      {
        assert forall i | 0 <= i <= j :: init[i] == pairs[i];
      }
      assert RebindsAt(em, e, pairs, n, s) <==> pairs[n].0 == s && Get(BindAll(em, e, init), e, s).Some? by {
        BindAllBound(em, e, init, s);
        assert (exists i | 0 <= i < n :: pairs[i].0 == s) <==> (exists i | 0 <= i < |init| :: init[i].0 == s) by {
          if exists i | 0 <= i < n :: pairs[i].0 == s {
            var i :| 0 <= i < n && pairs[i].0 == s;
            assert init[i].0 == s;
          }
        }
      }
      assert (exists j | 0 <= j < |pairs| :: RebindsAt(em, e, pairs, j, s)) <==>
             (exists j | 0 <= j < n :: RebindsAt(em, e, init, j, s)) || RebindsAt(em, e, pairs, n, s)
      by {
        if exists j | 0 <= j < |pairs| :: RebindsAt(em, e, pairs, j, s) {
          var j :| 0 <= j < |pairs| && RebindsAt(em, e, pairs, j, s);
          if j < n {
            assert RebindsAt(em, e, init, j, s);
          }
        }
        if exists j | 0 <= j < n :: RebindsAt(em, e, init, j, s) {
          var j :| 0 <= j < n && RebindsAt(em, e, init, j, s);
          assert RebindsAt(em, e, pairs, j, s);
        }
      }
    }
  }

  /** Every warning names the event being bound. */
  lemma {:induction false} RedefinitionsNameEvent<E, S>(em: EventMap<E, S>, e: E, pairs: seq<(S, S)>)
    ensures forall w | w in Redefinitions(em, e, pairs) :: w.0 == e
    decreases |pairs|
  {
    if pairs != [] {
      RedefinitionsNameEvent(em, e, pairs[..|pairs| - 1]);
    }
  }

  /** Binding pairs of declared states keeps every table entry between declared states. */
  lemma {:induction false} BindAllClosed<E, S>(em: EventMap<E, S>, e: E, pairs: seq<(S, S)>, nodes: set<S>)
    requires Closed(em, nodes) && AllDeclared(pairs, nodes)
    ensures Closed(BindAll(em, e, pairs), nodes)
    decreases |pairs|
  {
    if pairs != [] {
      var init := pairs[..|pairs| - 1];
      BindAllClosed(em, e, init, nodes);
      BindClosed(BindAll(em, e, init), e, pairs[|pairs| - 1].0, pairs[|pairs| - 1].1, nodes);
    }
  }

  /**
   * `add_edge` for each pair: the edges are the old ones plus the pairs; every
   * pair carries `e`, and an edge not among the pairs keeps its label.
   */
  lemma {:induction false} LabelAllSpec<E, S>(labels: map<(S, S), E>, e: E, pairs: seq<(S, S)>, p: (S, S))
    ensures p in LabelAll(labels, e, pairs) <==> p in labels || p in pairs
    ensures p in pairs ==> LabelAll(labels, e, pairs)[p] == e
    ensures p in labels && p !in pairs ==> LabelAll(labels, e, pairs)[p] == labels[p]
    decreases |pairs|
  {
    if pairs != [] {
      var init := pairs[..|pairs| - 1];
      LabelAllSpec(labels, e, init, p);
      assert p in pairs <==> p in init || p == pairs[|pairs| - 1];
    }
  }

  /** Adding edges between declared states keeps every edge between declared states. */
  lemma LabelAllClosed<E, S>(labels: map<(S, S), E>, e: E, pairs: seq<(S, S)>, nodes: set<S>)
    requires EdgesClosed(labels, nodes) && AllDeclared(pairs, nodes)
    ensures EdgesClosed(LabelAll(labels, e, pairs), nodes)
  {
    forall p | p in LabelAll(labels, e, pairs)
      ensures p.0 in nodes && p.1 in nodes
    {
      LabelAllSpec(labels, e, pairs, p);
    }
  }

  /** Binding the declared prefix of `pairs`, as `bind_event` does, keeps the table and the edges closed. */
  lemma BindPrefixClosed<E, S>(em: EventMap<E, S>, labels: map<(S, S), E>, e: E, pairs: seq<(S, S)>, nodes: set<S>)
    requires Closed(em, nodes) && EdgesClosed(labels, nodes)
    ensures var k := DeclaredPrefix(pairs, nodes);
            Closed(BindAll(em, e, pairs[..k]), nodes) && EdgesClosed(LabelAll(labels, e, pairs[..k]), nodes)
  {
    var k := DeclaredPrefix(pairs, nodes);
    assert AllDeclared(pairs[..k], nodes);
    BindAllClosed(em, e, pairs[..k], nodes);
    LabelAllClosed(labels, e, pairs[..k], nodes);
  }

  /**
   * The loop of `bind_event` on the table, the edges and the warnings: each
   * pair of declared states is bound in turn; at the first pair naming an
   * undeclared state only its redefinition warning is added and the answer is
   * false. (The source writes that pair into the table before its assert
   * fails; the model stops before the write.)
   */
  method BindPairs<E(==), S(==)>(nodes: set<S>, em0: EventMap<E, S>, labels0: map<(S, S), E>, ghost warns0: seq<(E, S)>,
                                 e: E, pairs: seq<(S, S)>)
    returns (em: EventMap<E, S>, labels: map<(S, S), E>, ghost warns: seq<(E, S)>, ok: bool)
    ensures ok == AllDeclared(pairs, nodes)
    ensures var k := DeclaredPrefix(pairs, nodes);
            && em == BindAll(em0, e, pairs[..k])
            && labels == LabelAll(labels0, e, pairs[..k])
            && warns == warns0 + Redefinitions(em0, e, pairs[..if ok then k else k + 1])
  {
    em, labels, warns := em0, labels0, warns0;
    var i := 0;
    while i < |pairs| && Declared(pairs[i], nodes)
      invariant 0 <= i <= |pairs|
      invariant forall j | 0 <= j < i :: Declared(pairs[j], nodes)
      invariant em == BindAll(em0, e, pairs[..i])
      invariant labels == LabelAll(labels0, e, pairs[..i])
      invariant warns == warns0 + Redefinitions(em0, e, pairs[..i])
    {
      var src, dst := pairs[i].0, pairs[i].1;
      BindStep(em0, labels0, e, pairs, i);
      if Get(em, e, src).Some? {
        warns := warns + [(e, src)];
      }
      em := Bind(em, e, src, dst);
      labels := labels[(src, dst) := e];
      i := i + 1;
    }
    DeclaredPrefixAt(pairs, nodes, i);
    if i < |pairs| {
      BindStep(em0, labels0, e, pairs, i);
      if Get(em, e, pairs[i].0).Some? {
        warns := warns + [(e, pairs[i].0)];
      }
      ok := false;
    } else {
      assert pairs[..i] == pairs;
      ok := true;
    }
  }

  // ----- The whole transitions argument -----

  /**
   * The table `bind_event` leaves as written: the pair that fails the assert
   * has already been stored by the line before the assert.
   */
  function BindAsWritten<E(==), S(==)>(em: EventMap<E, S>, e: E, pairs: seq<(S, S)>, nodes: set<S>): EventMap<E, S> {
    var k := DeclaredPrefix(pairs, nodes);
    BindAll(em, e, pairs[..if k < |pairs| then k + 1 else k])
  }

  /**
   * As written, a rejected pair from a declared source to an undeclared
   * destination stays in the table: the lookup from that source then yields
   * a state that is not a node, so the table is no longer closed.
   */
  lemma PartialBindEscapes<E, S>(em: EventMap<E, S>, e: E, src: S, dst: S, nodes: set<S>)
    requires src in nodes && dst !in nodes
    ensures Get(BindAsWritten(em, e, [(src, dst)], nodes), e, src) == Some(dst)
    ensures !Closed(BindAsWritten(em, e, [(src, dst)], nodes), nodes)
  {
    var pairs := [(src, dst)];
    assert DeclaredPrefix(pairs, nodes) == 0;
    assert pairs[..1] == pairs && pairs[..0] == [];
    var r := BindAsWritten(em, e, pairs, nodes);
    assert r == BindAll(em, e, pairs);
    assert r == Bind(BindAll(em, e, pairs[..0]), e, src, dst);
    assert r == Bind(em, e, src, dst);
    assert e in r && src in r[e] && r[e][src] == dst;
  }

  /** Extending a checked prefix of the dictionary by one checked entry. */
  lemma EntriesDeclaredStep<E, S>(ts: Transitions<E, S>, i: nat, nodes: set<S>)
    requires i < |ts| && EntriesDeclared(ts[..i], nodes) && AllDeclared(ts[i].1, nodes)
    ensures EntriesDeclared(ts[..i + 1], nodes)
  {
    var prefix, init := ts[..i + 1], ts[..i];
    forall j | 0 <= j < |prefix|
      ensures AllDeclared(prefix[j].1, nodes)
    {
      if j < i {
        assert prefix[j] == init[j];
      }
    }
  }

  /** The constructor's table and edges join declared states when every entry does. */
  lemma {:induction false} BuildClosed<E, S>(ts: Transitions<E, S>, nodes: set<S>)
    requires EntriesDeclared(ts, nodes)
    ensures Closed(BuildMap(ts), nodes) && EdgesClosed(BuildLabels(ts), nodes)
    decreases |ts|
  {
    if ts != [] {
      var n := |ts| - 1;
      assert EntriesDeclared(ts[..n], nodes) by {
        forall i | 0 <= i < n ensures AllDeclared(ts[..n][i].1, nodes) {
          assert ts[..n][i] == ts[i];
        }
      }
      BuildClosed(ts[..n], nodes);
      BindAllClosed(BuildMap(ts[..n]), ts[n].0, ts[n].1, nodes);
      LabelAllClosed(BuildLabels(ts[..n]), ts[n].0, ts[n].1, nodes);
    }
  }

  /** An event of the dictionary gets exactly the row that binding its own pairs produces. */
  lemma {:induction false} BuildMapRow<E, S>(ts: Transitions<E, S>, i: nat, s: S)
    requires EventsDistinct(ts) && i < |ts|
    ensures Get(BuildMap(ts), ts[i].0, s) == Get(BindAll(map[], ts[i].0, ts[i].1), ts[i].0, s)
    decreases |ts|
  {
    var n := |ts| - 1;
    var init := ts[..n];
    if i < n {
      BindAllElsewhere(BuildMap(init), ts[n].0, ts[n].1, ts[i].0, s);
      BuildMapRow(init, i, s);
    } else {
      BuildMapUnbound(init, ts[i].0, s);
      BindAllFromSameRow(BuildMap(init), map[], ts[i].0, ts[i].1, s);
    }
  }

  /** An event the dictionary does not hold has no transitions. */
  lemma {:induction false} BuildMapUnbound<E, S>(ts: Transitions<E, S>, e: E, s: S)
    requires forall i | 0 <= i < |ts| :: ts[i].0 != e
    ensures Get(BuildMap(ts), e, s) == None
    decreases |ts|
  {
    if ts != [] {
      var n := |ts| - 1;
      BindAllElsewhere(BuildMap(ts[..n]), ts[n].0, ts[n].1, e, s);
      BuildMapUnbound(ts[..n], e, s);
    }
  }

  /** Binding the same pairs into two tables that agree on a lookup keeps them agreeing on it. */
  lemma {:induction false} BindAllFromSameRow<E, S>(em1: EventMap<E, S>, em2: EventMap<E, S>, e: E, pairs: seq<(S, S)>, s: S)
    requires Get(em1, e, s) == Get(em2, e, s)
    ensures Get(BindAll(em1, e, pairs), e, s) == Get(BindAll(em2, e, pairs), e, s)
    decreases |pairs|
  {
    if pairs != [] {
      BindAllFromSameRow(em1, em2, e, pairs[..|pairs| - 1], s);
    }
  }

  /** The graph has an edge for exactly the pairs some event binds. */
  lemma {:induction false} BuildLabelsEdges<E, S>(ts: Transitions<E, S>, p: (S, S))
    ensures p in BuildLabels(ts) <==> exists i | 0 <= i < |ts| :: p in ts[i].1
    decreases |ts|
  {
    if ts != [] {
      var n := |ts| - 1;
      BuildLabelsEdges(ts[..n], p);
      LabelAllSpec(BuildLabels(ts[..n]), ts[n].0, ts[n].1, p);
      if exists i | 0 <= i < |ts| :: p in ts[i].1 {
        var i :| 0 <= i < |ts| && p in ts[i].1;
        if i < n {
          assert ts[..n][i] == ts[i];
        }
      }
    }
  }

  /**
   * An edge shared by several events carries the label of the last event that
   * binds it: the label map keeps one event per (source, dest) pair.
   */
  lemma {:induction false} BuildLabelsLastWins<E, S>(ts: Transitions<E, S>, i: nat, p: (S, S))
    requires i < |ts| && p in ts[i].1
    requires forall j | i < j < |ts| :: p !in ts[j].1
    ensures p in BuildLabels(ts) && BuildLabels(ts)[p] == ts[i].0
    decreases |ts|
  {
    var n := |ts| - 1;
    LabelAllSpec(BuildLabels(ts[..n]), ts[n].0, ts[n].1, p);
    if i < n {
      BuildLabelsLastWins(ts[..n], i, p);
    }
  }

  // ----- The link with safe_chained_dict_get -----

  /** A key of the nested dictionary: an event at the first level, a state at the second. */
  datatype Key<E, S> = EventKey(event: E) | StateKey(state: S)

  function NestedRow<E(==), S(==)>(row: map<S, S>): ChainedDict.Obj<Key<E, S>, S> {
    var keys := set s | s in row :: StateKey(s);
    ChainedDict.Dict(map k | k in keys :: ChainedDict.Scalar(row[k.state]))
  }

  /** `event_map` seen as the nested Python dictionary the lookup walks. */
  function Nested<E(==), S(==)>(em: EventMap<E, S>): ChainedDict.Obj<Key<E, S>, S> {
    var keys := set e | e in em :: EventKey(e);
    ChainedDict.Dict(map k | k in keys :: NestedRow(em[k.event]))
  }

  /** The two-key lookup is `safe_chained_dict_get` with the keys `(event, state)`. */
  lemma GetIsChainedGet<E, S>(em: EventMap<E, S>, e: E, s: S)
    ensures ChainedDict.ChainedGet(Nested(em), [EventKey(e), StateKey(s)]) ==
            Success(match Get(em, e, s) case Some(d) => ChainedDict.Scalar(d) case None => ChainedDict.Null)
  {
    var keys: seq<Key<E, S>> := [EventKey(e), StateKey(s)];
    var top := Nested(em);
    if e in em {
      assert EventKey(e) in top.entries;
      var row := NestedRow<E, S>(em[e]);
      assert ChainedDict.DictGet(top.entries, keys[0]) == row;
      assert keys[1..] == [StateKey(s)];
      if s in em[e] {
        assert StateKey(s) in row.entries;
        assert ChainedDict.DictGet(row.entries, StateKey(s)) == ChainedDict.Scalar(em[e][s]);
        assert keys[1..][1..] == [];
        assert ChainedDict.ChainedGet(row, keys[1..]) == Success(ChainedDict.Scalar(em[e][s]));
        assert Get(em, e, s) == Some(em[e][s]);
      } else {
        assert StateKey(s) !in row.entries;
      }
    } else {
      assert EventKey(e) !in top.entries;
    }
  }
}

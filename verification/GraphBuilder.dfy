/** buildServiceGraph of internal/queryapi/graph.go: one pass over the records, one walk over the
    flow map in any order, proved against the declarative graph. */
module GraphBuilder {
  import opened Wrappers
  import opened Sequences
  import opened Ordering
  import opened Fields
  import opened GraphRecords
  import opened GraphSpec

  datatype EdgeState = EdgeState(error: bool, propagated: bool)

  // ----- first pass: nodes and flows

  ghost predicate NodesTallied(views: seq<View>, nodes: map<string, Node>) {
    && nodes.Keys == LoggingServices(views)
    && forall s :: s in nodes ==>
         nodes[s] == Node(s, |Filter(OfService(s), views)|, |Filter(ErrorOf(s), views)|, 0)
  }

  ghost predicate FlowsTallied(views: seq<View>, flows: map<string, seq<View>>) {
    && flows.Keys == FlowKeys(views)
    && forall k :: k in flows ==> flows[k] == Flow(views, k)
  }

  lemma {:induction false} NoRecordsYet(views: seq<View>, s: string)
    requires s !in LoggingServices(views)
    ensures Filter(OfService(s), views) == [] && Filter(ErrorOf(s), views) == []
  {
    FilterEmpty(OfService(s), views);
    FilterEmpty(ErrorOf(s), views);
  }

  lemma NoFlowYet(views: seq<View>, k: string)
    requires k != "" && k !in FlowKeys(views)
    ensures Flow(views, k) == []
  {
    FilterEmpty(InFlow(k), views);
  }

  /** Counts one record at its node, creating the node when it is the first. */
  function CountRecord(nodes: map<string, Node>, v: View): map<string, Node> {
    if v.service == "" then nodes
    else
      var node := NodeOrNew(nodes, v.service);
      nodes[v.service := node.(logCount := node.logCount + 1,
                               errorCount := node.errorCount + if v.isError then 1 else 0)]
  }

  function JoinFlow(flows: map<string, seq<View>>, v: View): map<string, seq<View>> {
    if v.service == "" || v.flowKey == "" then flows
    else flows[v.flowKey := (if v.flowKey in flows then flows[v.flowKey] else []) + [v]]
  }

  lemma LoggingOneMore(views: seq<View>, v: View)
    ensures LoggingServices(views + [v]) == LoggingServices(views) + if v.service != "" then {v.service} else {}
  {
  }

  lemma FlowKeysOneMore(views: seq<View>, v: View)
    ensures FlowKeys(views + [v]) == FlowKeys(views) + if v.service != "" && v.flowKey != "" then {v.flowKey} else {}
  {
  }

  function NodeOrNew(nodes: map<string, Node>, service: string): Node {
    if service in nodes then nodes[service] else Node(service, 0, 0, 0)
  }

  lemma CountedSoFar(views: seq<View>, nodes: map<string, Node>, s: string)
    requires NodesTallied(views, nodes)
    ensures NodeOrNew(nodes, s) == Node(s, |Filter(OfService(s), views)|, |Filter(ErrorOf(s), views)|, 0)
  {
    if s !in nodes {
      NoRecordsYet(views, s);
    }
  }

  lemma CountOneMoreAt(views: seq<View>, v: View, nodes: map<string, Node>, s: string)
    requires NodesTallied(views, nodes) && s in CountRecord(nodes, v)
    ensures CountRecord(nodes, v)[s] ==
            Node(s, |Filter(OfService(s), views + [v])|, |Filter(ErrorOf(s), views + [v])|, 0)
  {
    CountedSoFar(views, nodes, s);
    FilterSnoc(OfService(s), views, v);
    FilterSnoc(ErrorOf(s), views, v);
  }

  lemma CountOneMore(views: seq<View>, i: nat, nodes: map<string, Node>)
    requires i < |views| && NodesTallied(views[..i], nodes)
    ensures NodesTallied(views[..i + 1], CountRecord(nodes, views[i]))
  {
    assert views[..i + 1] == views[..i] + [views[i]];
    LoggingOneMore(views[..i], views[i]);
    forall s | s in CountRecord(nodes, views[i])
      ensures CountRecord(nodes, views[i])[s]
              == Node(s, |Filter(OfService(s), views[..i + 1])|, |Filter(ErrorOf(s), views[..i + 1])|, 0)
    {
      CountOneMoreAt(views[..i], views[i], nodes, s);
    }
  }

  lemma JoinOneMore(views: seq<View>, i: nat, flows: map<string, seq<View>>)
    requires i < |views| && FlowsTallied(views[..i], flows)
    ensures FlowsTallied(views[..i + 1], JoinFlow(flows, views[i]))
  {
    var v, before, after, flows' := views[i], views[..i], views[..i + 1], JoinFlow(flows, views[i]);
    assert after == before + [v];
    FlowKeysOneMore(before, v);
    forall k | k in flows' ensures flows'[k] == Flow(after, k) {
      FilterSnoc(InFlow(k), before, v);
      if k !in flows {
        NoFlowYet(before, k);
      }
    }
  }

  method TallyRecords(views: seq<View>) returns (nodes: map<string, Node>, flows: map<string, seq<View>>)
    ensures NodesTallied(views, nodes) && FlowsTallied(views, flows)
  {
    nodes, flows := map[], map[];
    assert views[..0] == [];
    for i := 0 to |views|
      invariant NodesTallied(views[..i], nodes) && FlowsTallied(views[..i], flows)
    {
      CountOneMore(views, i, nodes);
      JoinOneMore(views, i, flows);
      nodes, flows := CountRecord(nodes, views[i]), JoinFlow(flows, views[i]);
    }
    assert views[..|views|] == views;
  }

  // ----- one flow

  function Note(holds: bool, edges: map<Transition, EdgeState>, e: Transition, error: bool, propagated: bool)
      : map<Transition, EdgeState>
  {
    if !holds then edges
    else
      var state := if e in edges then edges[e] else EdgeState(false, false);
      edges[e := EdgeState(state.error || error, state.propagated || propagated)]
  }

  predicate ErrorIn(edges: map<Transition, EdgeState>, e: Transition) {
    e in edges && edges[e].error
  }

  predicate PropagatedIn(edges: map<Transition, EdgeState>, e: Transition) {
    e in edges && edges[e].propagated
  }

  ghost predicate NotedAt(f: seq<View>, edges: map<Transition, EdgeState>, e: Transition) {
    && (e in edges <==> HasEdge(f, e))
    && (ErrorIn(edges, e) <==> EdgeError(f, e))
    && (PropagatedIn(edges, e) <==> EdgePropagated(f, e))
  }

  ghost predicate FlowNoted(f: seq<View>, edges: map<Transition, EdgeState>) {
    forall e: Transition :: NotedAt(f, edges, e)
  }

  lemma TransitionPrefix(f: seq<View>, i: nat, e: Transition)
    requires i < |f|
    ensures HasEdge(f[..i + 1], e) <==> HasEdge(f[..i], e) || TransitionAt(f, i, e)
    ensures EdgeError(f[..i + 1], e) <==> EdgeError(f[..i], e) || (TransitionAt(f, i, e) && f[i].isError)
    ensures EdgePropagated(f[..i + 1], e) <==>
              EdgePropagated(f[..i], e) || (AdjacentAt(f, i, e) && f[i - 1].isError && f[i].isError)
  {
    var longer, shorter := f[..i + 1], f[..i];
    assert forall j :: 0 <= j <= i ==> longer[j] == f[j];
    assert forall j :: 0 <= j < i ==> shorter[j] == f[j];
    assert TransitionAt(longer, i, e) == TransitionAt(f, i, e);
    assert AdjacentAt(longer, i, e) == AdjacentAt(f, i, e);
    forall j | 0 <= j < i ensures TransitionAt(shorter, j, e) == TransitionAt(longer, j, e) {}
    forall j | 0 <= j < i ensures AdjacentAt(shorter, j, e) == AdjacentAt(longer, j, e) {}
  }

  lemma {:induction false} HasEdgeIffTransition(f: seq<View>, e: Transition)
    ensures HasEdge(f, e) <==> e in Transitions(f)
  {
    if f != [] {
      var n := |f| - 1;
      HasEdgeIffTransition(f[..n], e);
      TransitionPrefix(f, n, e);
      assert f[..n + 1] == f;
      assert e in Transitions(f) <==> e in Transitions(f[..n]) || TransitionAt(f, n, e);
    }
  }

  function NoteExplicit(edges: map<Transition, EdgeState>, v: View): map<Transition, EdgeState> {
    Note(v.downstream != "" && v.downstream != v.service,
         Note(v.upstream != "" && v.upstream != v.service, edges, (v.upstream, v.service), v.isError, false),
         (v.service, v.downstream), v.isError, false)
  }

  function NoteAdjacent(edges: map<Transition, EdgeState>, previous: View, v: View): map<Transition, EdgeState> {
    Note(previous.service != "" && v.service != "" && previous.service != v.service,
         edges, (previous.service, v.service),
         v.isError, previous.isError && v.isError)
  }

  lemma NoteFacts(holds: bool, edges: map<Transition, EdgeState>, x: Transition, error: bool, propagated: bool,
                  e: Transition)
    ensures var noted := Note(holds, edges, x, error, propagated);
            var here := holds && e == x;
            && (e in noted <==> e in edges || here)
            && (ErrorIn(noted, e) <==> ErrorIn(edges, e) || (here && error))
            && (PropagatedIn(noted, e) <==> PropagatedIn(edges, e) || (here && propagated))
  {
  }

  lemma NoteExplicitFacts(edges: map<Transition, EdgeState>, v: View, e: Transition)
    ensures var noted := NoteExplicit(edges, v);
            && (e in noted <==> e in edges || ExplicitAt(v, e))
            && (ErrorIn(noted, e) <==> ErrorIn(edges, e) || (ExplicitAt(v, e) && v.isError))
            && (PropagatedIn(noted, e) <==> PropagatedIn(edges, e))
  {
    var up := v.upstream != "" && v.upstream != v.service;
    NoteFacts(up, edges, (v.upstream, v.service), v.isError, false, e);
    NoteFacts(v.downstream != "" && v.downstream != v.service,
              Note(up, edges, (v.upstream, v.service), v.isError, false),
              (v.service, v.downstream), v.isError, false, e);
  }

  /** The transitions at one record, noted on top of the flow so far. */
  method NoteRecord(f: seq<View>, i: nat, edges0: map<Transition, EdgeState>)
      returns (edges: map<Transition, EdgeState>)
    requires i < |f| && FlowNoted(f[..i], edges0)
    requires forall v :: v in f ==> v.service != ""
    ensures FlowNoted(f[..i + 1], edges)
  {
    edges := NoteExplicit(edges0, f[i]);
    if i > 0 {
      edges := NoteAdjacent(edges, f[i - 1], f[i]);
    }
    NotedOneMore(f, i, edges0, edges);
  }

  lemma NotedOneMore(f: seq<View>, i: nat, edges0: map<Transition, EdgeState>, edges: map<Transition, EdgeState>)
    requires i < |f| && FlowNoted(f[..i], edges0)
    requires forall v :: v in f ==> v.service != ""
    requires edges == if i > 0 then NoteAdjacent(NoteExplicit(edges0, f[i]), f[i - 1], f[i])
             else NoteExplicit(edges0, f[i])
    ensures FlowNoted(f[..i + 1], edges)
  {
    var longer := f[..i + 1];
    forall e: Transition ensures NotedAt(longer, edges, e) {
      assert NotedAt(f[..i], edges0, e);
      NotedOneMoreAt(f, i, edges0, edges, e);
    }
  }

  lemma {:induction false} NotedOneMoreAt(f: seq<View>, i: nat, edges0: map<Transition, EdgeState>,
                                          edges: map<Transition, EdgeState>, e: Transition)
    requires i < |f| && NotedAt(f[..i], edges0, e)
    requires forall v :: v in f ==> v.service != ""
    requires edges == if i > 0 then NoteAdjacent(NoteExplicit(edges0, f[i]), f[i - 1], f[i])
             else NoteExplicit(edges0, f[i])
    ensures NotedAt(f[..i + 1], edges, e)
  {
    var v := f[i];
    TransitionPrefix(f, i, e);
    NoteExplicitFacts(edges0, v, e);
    if i > 0 {
      var previous := f[i - 1];
      assert previous in f && v in f;
      NoteFacts(previous.service != v.service, NoteExplicit(edges0, v), (previous.service, v.service), v.isError,
                previous.isError && v.isError, e);
    }
  }

  datatype Walk = Walk(seen: set<string>, traceIds: set<string>, userId: string, errorCount: nat)

  ghost predicate Walked(f: seq<View>, w: Walk) {
    w == Walk(Seen(f), TraceIds(f), FirstUser(f), |Filter(IsError(), f)|)
  }

  /** Services, trace ids, user and errors of a flow after one more record. */
  method WalkRecord(f: seq<View>, i: nat, w0: Walk) returns (w: Walk)
    requires i < |f| && Walked(f[..i], w0)
    ensures Walked(f[..i + 1], w)
  {
    var v := f[i];
    var seen, traceIds, userId, errorCount := w0.seen + {v.service}, w0.traceIds, w0.userId, w0.errorCount;
    if v.traceId != "" {
      traceIds := traceIds + {v.traceId};
    }
    if userId == "" {
      userId := v.userId;
    }
    if v.isError {
      errorCount := errorCount + 1;
    }
    if v.upstream != "" && v.upstream != v.service {
      seen := seen + {v.upstream};
    }
    if v.downstream != "" && v.downstream != v.service {
      seen := seen + {v.downstream};
    }
    PrefixFacts(f, i);
    assert seen == w0.seen + NamedBy(v);
    return Walk(seen, traceIds, userId, errorCount);
  }

  lemma PrefixFacts(f: seq<View>, i: nat)
    requires i < |f|
    ensures Seen(f[..i + 1]) == Seen(f[..i]) + NamedBy(f[i])
    ensures TraceIds(f[..i + 1]) == TraceIds(f[..i]) + if f[i].traceId != "" then {f[i].traceId} else {}
    ensures FirstUser(f[..i + 1]) == if FirstUser(f[..i]) != "" then FirstUser(f[..i]) else f[i].userId
    ensures |Filter(IsError(), f[..i + 1])| == |Filter(IsError(), f[..i])| + if f[i].isError then 1 else 0
  {
    assert f[..i + 1] == f[..i] + [f[i]] && f[..i + 1][..i] == f[..i];
    FilterPrefix(IsError(), f, i);
  }

  /** Nodes that are only named by a flow start out empty. */
  function WithNamed(nodes: map<string, Node>, service: string): map<string, Node> {
    if service in nodes then nodes else nodes[service := Node(service, 0, 0, 0)]
  }

  ghost predicate NamedAdded(nodes0: map<string, Node>, nodes: map<string, Node>, seen: set<string>) {
    && nodes.Keys == nodes0.Keys + seen
    && forall s :: s in nodes ==> nodes[s] == if s in nodes0 then nodes0[s] else Node(s, 0, 0, 0)
  }

  method NameNodes(v: View, nodes0: map<string, Node>, nodes1: map<string, Node>, ghost seen: set<string>)
      returns (nodes: map<string, Node>)
    requires NamedAdded(nodes0, nodes1, seen) && v.service in nodes0
    ensures NamedAdded(nodes0, nodes, seen + NamedBy(v))
  {
    nodes := nodes1;
    if v.upstream != "" && v.upstream != v.service {
      nodes := WithNamed(nodes, v.upstream);
    }
    if v.downstream != "" && v.downstream != v.service {
      nodes := WithNamed(nodes, v.downstream);
    }
  }

  method WalkFlow(f: seq<View>, nodes0: map<string, Node>)
      returns (w: Walk, flowEdges: map<Transition, EdgeState>, nodes: map<string, Node>)
    requires forall v :: v in f ==> v.service != "" && v.service in nodes0
    ensures Walked(f, w) && FlowNoted(f, flowEdges) && NamedAdded(nodes0, nodes, Seen(f))
  {
    w, flowEdges, nodes := Walk({}, {}, "", 0), map[], nodes0;
    assert f[..0] == [];
    for i := 0 to |f|
      invariant Walked(f[..i], w) && FlowNoted(f[..i], flowEdges) && NamedAdded(nodes0, nodes, Seen(f[..i]))
    {
      assert f[i] in f;
      PrefixFacts(f, i);
      w := WalkRecord(f, i, w);
      nodes := NameNodes(f[i], nodes0, nodes, Seen(f[..i]));
      flowEdges := NoteRecord(f, i, flowEdges);
    }
    assert f[..|f|] == f;
  }

  // ----- counting the flow at its nodes and edges

  ghost predicate CountedAtNodes(nodes0: map<string, Node>, nodes: map<string, Node>, seen: set<string>) {
    && nodes.Keys == nodes0.Keys
    && forall s :: s in nodes ==>
         nodes[s] == if s in seen then nodes0[s].(flowCount := nodes0[s].flowCount + 1) else nodes0[s]
  }

  method AddFlowToNodes(nodes0: map<string, Node>, seen: set<string>) returns (nodes: map<string, Node>)
    requires seen <= nodes0.Keys
    ensures CountedAtNodes(nodes0, nodes, seen)
  {
    nodes := nodes0;
    var rest := seen;
    while rest != {}
      invariant rest <= seen && CountedAtNodes(nodes0, nodes, seen - rest)
    {
      var s := AnyOf(rest);
      nodes := nodes[s := nodes[s].(flowCount := nodes[s].flowCount + 1)];
      rest := rest - {s};
    }
    assert seen - rest == seen;
  }

  function EdgeOrNew(edges: map<Transition, Edge>, e: Transition): Edge {
    if e in edges then edges[e] else Edge(e.0, e.1, 0, 0, 0)
  }

  function WithFlow(edge: Edge, state: EdgeState): Edge {
    edge.(flowCount := edge.flowCount + 1,
          errorFlowCount := edge.errorFlowCount + if state.error then 1 else 0,
          propagatedErrorCount := edge.propagatedErrorCount + if state.propagated then 1 else 0)
  }

  ghost predicate CountedAtEdges(edges0: map<Transition, Edge>, edges: map<Transition, Edge>,
                                 flowEdges: map<Transition, EdgeState>, counted: set<Transition>)
    requires counted <= flowEdges.Keys
  {
    && edges.Keys == edges0.Keys + counted
    && forall e :: e in edges ==>
         edges[e] == if e in counted then WithFlow(EdgeOrNew(edges0, e), flowEdges[e]) else edges0[e]
  }

  method AddFlowToEdges(edges0: map<Transition, Edge>, flowEdges: map<Transition, EdgeState>)
      returns (edges: map<Transition, Edge>)
    ensures CountedAtEdges(edges0, edges, flowEdges, flowEdges.Keys)
  {
    edges := edges0;
    var rest := flowEdges.Keys;
    while rest != {}
      invariant rest <= flowEdges.Keys && CountedAtEdges(edges0, edges, flowEdges, flowEdges.Keys - rest)
    {
      var e := AnyOf(rest);
      var edge := EdgeOrNew(edges, e);
      edge := edge.(flowCount := edge.flowCount + 1);
      if flowEdges[e].error {
        edge := edge.(errorFlowCount := edge.errorFlowCount + 1);
      }
      if flowEdges[e].propagated {
        edge := edge.(propagatedErrorCount := edge.propagatedErrorCount + 1);
      }
      edges := edges[e := edge];
      rest := rest - {e};
    }
    assert flowEdges.Keys - rest == flowEdges.Keys;
  }

  // ----- the walk over the flow map

  ghost predicate NodesUpTo(views: seq<View>, walked: set<string>, nodes: map<string, Node>) {
    && nodes.Keys == LoggingServices(views) + SeenIn(views, walked)
    && forall s :: s in nodes ==> nodes[s] == NodeFor(views, walked, s)
  }

  ghost predicate EdgesUpTo(views: seq<View>, walked: set<string>, edges: map<Transition, Edge>) {
    && edges.Keys == TransitionsIn(views, walked)
    && forall e :: e in edges ==> edges[e] == EdgeFor(views, walked, e)
  }

  lemma SeeingOneMore(views: seq<View>, walked: set<string>, key: string, s: string)
    requires key !in walked
    ensures |FlowsSeeing(views, walked + {key}, s)|
            == |FlowsSeeing(views, walked, s)| + if s in Seen(Flow(views, key)) then 1 else 0
  {
    assert FlowsSeeing(views, walked + {key}, s) ==
           FlowsSeeing(views, walked, s) + if s in Seen(Flow(views, key)) then {key} else {};
  }

  lemma ThroughOneMore(views: seq<View>, walked: set<string>, key: string, e: Transition)
    requires key !in walked
    ensures |FlowsThrough(views, walked + {key}, e)|
            == |FlowsThrough(views, walked, e)| + if HasEdge(Flow(views, key), e) then 1 else 0
  {
    assert FlowsThrough(views, walked + {key}, e) ==
           FlowsThrough(views, walked, e) + if HasEdge(Flow(views, key), e) then {key} else {};
  }

  lemma FailingOneMore(views: seq<View>, walked: set<string>, key: string, e: Transition)
    requires key !in walked
    ensures |FlowsFailing(views, walked + {key}, e)|
            == |FlowsFailing(views, walked, e)| + if EdgeError(Flow(views, key), e) then 1 else 0
  {
    assert FlowsFailing(views, walked + {key}, e) ==
           FlowsFailing(views, walked, e) + if EdgeError(Flow(views, key), e) then {key} else {};
  }

  lemma PropagatingOneMore(views: seq<View>, walked: set<string>, key: string, e: Transition)
    requires key !in walked
    ensures |FlowsPropagating(views, walked + {key}, e)|
            == |FlowsPropagating(views, walked, e)| + if EdgePropagated(Flow(views, key), e) then 1 else 0
  {
    assert FlowsPropagating(views, walked + {key}, e) ==
           FlowsPropagating(views, walked, e) + if EdgePropagated(Flow(views, key), e) then {key} else {};
  }

  lemma {:induction false} EdgeForOneMore(views: seq<View>, walked: set<string>, key: string, e: Transition,
                                          edges0: map<Transition, Edge>, flowEdges: map<Transition, EdgeState>)
    requires key !in walked && EdgesUpTo(views, walked, edges0) && NotedAt(Flow(views, key), flowEdges, e)
    requires e in flowEdges || e in edges0
    ensures EdgeFor(views, walked + {key}, e) ==
            if e in flowEdges then WithFlow(EdgeOrNew(edges0, e), flowEdges[e]) else edges0[e]
  {
    assert EdgeOrNew(edges0, e) == EdgeFor(views, walked, e) by {
      if e !in edges0 {
        NoFlowThrough(views, walked, e);
      }
    }
    ThroughOneMore(views, walked, key, e);
    FailingOneMore(views, walked, key, e);
    PropagatingOneMore(views, walked, key, e);
    ErrorsAreEdges(Flow(views, key), e);
  }

  lemma NothingWalked(views: seq<View>, nodes: map<string, Node>)
    requires NodesTallied(views, nodes)
    ensures GraphUpTo(views, [], Graph(nodes, map[], []))
  {
    assert SeenIn(views, {}) == {} && TransitionsIn(views, {}) == {};
    forall s ensures FlowsSeeing(views, {}, s) == {} {}
  }

  lemma NodeForOneMore(views: seq<View>, walked: set<string>, key: string, nodes0: map<string, Node>, s: string)
    requires NodesUpTo(views, walked, nodes0) && key !in walked
    ensures var node := if s in nodes0 then nodes0[s] else Node(s, 0, 0, 0);
            NodeFor(views, walked + {key}, s) ==
            if s in Seen(Flow(views, key)) then node.(flowCount := node.flowCount + 1) else node
  {
    SeeingOneMore(views, walked, key, s);
    if s !in nodes0 {
      NoRecordsYet(views, s);
      assert FlowsSeeing(views, walked, s) == {};
    }
  }

  lemma SeenInOneMore(views: seq<View>, walked: set<string>, key: string)
    ensures SeenIn(views, walked + {key}) == SeenIn(views, walked) + Seen(Flow(views, key))
  {
  }

  lemma {:induction false} NodesOneMore(views: seq<View>, walked: set<string>, key: string, nodes0: map<string, Node>,
                     nodes1: map<string, Node>, nodes2: map<string, Node>)
    requires NodesUpTo(views, walked, nodes0) && key !in walked
    requires NamedAdded(nodes0, nodes1, Seen(Flow(views, key)))
    requires CountedAtNodes(nodes1, nodes2, Seen(Flow(views, key)))
    ensures NodesUpTo(views, walked + {key}, nodes2)
  {
    SeenInOneMore(views, walked, key);
    forall s | s in nodes2 ensures nodes2[s] == NodeFor(views, walked + {key}, s) {
      NodeForOneMore(views, walked, key, nodes0, s);
    }
  }

  lemma TransitionsInOneMore(views: seq<View>, walked: set<string>, key: string)
    ensures TransitionsIn(views, walked + {key}) == TransitionsIn(views, walked) + Transitions(Flow(views, key))
  {
  }

  lemma NotedTransitions(f: seq<View>, flowEdges: map<Transition, EdgeState>)
    requires FlowNoted(f, flowEdges)
    ensures flowEdges.Keys == Transitions(f)
  {
    forall e: Transition ensures e in flowEdges <==> e in Transitions(f) {
      assert NotedAt(f, flowEdges, e);
      HasEdgeIffTransition(f, e);
    }
  }

  lemma {:induction false} EdgesOneMore(views: seq<View>, walked: set<string>, key: string,
                                        edges0: map<Transition, Edge>, flowEdges: map<Transition, EdgeState>,
                                        edges: map<Transition, Edge>)
    requires EdgesUpTo(views, walked, edges0) && key !in walked
    requires FlowNoted(Flow(views, key), flowEdges) && CountedAtEdges(edges0, edges, flowEdges, flowEdges.Keys)
    ensures EdgesUpTo(views, walked + {key}, edges)
  {
    NotedTransitions(Flow(views, key), flowEdges);
    TransitionsInOneMore(views, walked, key);
    forall e: Transition | e in edges ensures edges[e] == EdgeFor(views, walked + {key}, e) {
      assert NotedAt(Flow(views, key), flowEdges, e);
      EdgeForOneMore(views, walked, key, e, edges0, flowEdges);
    }
  }

  /** A propagated error is an error of the flow at that transition, and an error is a transition. */
  lemma ErrorsAreEdges(f: seq<View>, e: Transition)
    ensures EdgePropagated(f, e) ==> EdgeError(f, e)
    ensures EdgeError(f, e) ==> HasEdge(f, e)
  {
    if EdgePropagated(f, e) {
      var i :| 0 <= i < |f| && AdjacentAt(f, i, e) && f[i - 1].isError && f[i].isError;
      assert TransitionAt(f, i, e);
    }
  }

  lemma NoFlowThrough(views: seq<View>, keys: set<string>, e: Transition)
    requires e !in TransitionsIn(views, keys)
    ensures EdgeFor(views, keys, e) == Edge(e.0, e.1, 0, 0, 0)
  {
    forall k | k in keys
      ensures !HasEdge(Flow(views, k), e) && !EdgeError(Flow(views, k), e) && !EdgePropagated(Flow(views, k), e)
    {
      HasEdgeIffTransition(Flow(views, k), e);
      ErrorsAreEdges(Flow(views, k), e);
    }
    assert FlowsThrough(views, keys, e) == {};
    assert FlowsFailing(views, keys, e) == {};
    assert FlowsPropagating(views, keys, e) == {};
  }

  // ----- sessions

  method SortedServices(s: set<string>) returns (xs: seq<string>)
    ensures xs == SortedStrings(s)
  {
    BelowIsStrictOrder();
    xs := SortSet(Below, s);
    AscendingUnique(Below, xs, SortedStrings(s));
  }

  method DescribeFlow(views: seq<View>, key: string, f: seq<View>, w: Walk) returns (session: Session)
    requires key in FlowKeys(views) && f == Flow(views, key) && Walked(f, w) && f != []
    ensures session == SessionFor(views, key)
  {
    var (kind, id) := SplitFlowKey(key);
    var traceIds := SortedServices(w.traceIds);
    var services := SortedServices(w.seen - {""});
    session := Session(id, kind, w.userId, traceIds, services, f[0].at, f[|f| - 1].at, |f|, w.errorCount);
  }

  ghost predicate SessionsSorted(sessions: seq<Session>) {
    forall i, j :: 0 <= i < j < |sessions| ==> SessionBefore(sessions[i], sessions[j])
  }

  lemma {:induction false} SessionBeforeIsPreorder()
    ensures forall a: Session, b: Session :: SessionBefore(a, b) || SessionBefore(b, a)
    ensures forall a: Session, b: Session, c: Session :: SessionBefore(a, b) && SessionBefore(b, c) ==>
            SessionBefore(a, c)
  {
    BelowIsStrictOrder();
  }

  method InsertSession(sorted: seq<Session>, session: Session) returns (sessions: seq<Session>)
    requires SessionsSorted(sorted)
    ensures SessionsSorted(sessions) && multiset(sessions) == multiset(sorted) + multiset{session}
  {
    var i := |sorted|;
    while i > 0 && !SessionBefore(sorted[i - 1], session)
      invariant 0 <= i <= |sorted|
      invariant forall j :: i <= j < |sorted| ==> SessionBefore(session, sorted[j])
    {
      BeforeOneMore(sorted, session, i);
      i := i - 1;
    }
    AllBefore(sorted, session, i);
    sessions := sorted[..i] + [session] + sorted[i..];
    InsertedSorted(sorted, session, i);
  }

  lemma InsertedSorted(sorted: seq<Session>, session: Session, i: nat)
    requires SessionsSorted(sorted) && i <= |sorted|
    requires forall j :: i <= j < |sorted| ==> SessionBefore(session, sorted[j])
    requires forall j :: 0 <= j < i ==> SessionBefore(sorted[j], session)
    ensures var sessions := sorted[..i] + [session] + sorted[i..];
            SessionsSorted(sessions) && multiset(sessions) == multiset(sorted) + multiset{session}
  {
    assert sorted == sorted[..i] + sorted[i..];
  }

  lemma {:induction false} AllBefore(sorted: seq<Session>, session: Session, i: nat)
    requires SessionsSorted(sorted) && i <= |sorted| && (i > 0 ==> SessionBefore(sorted[i - 1], session))
    ensures forall j :: 0 <= j < i ==> SessionBefore(sorted[j], session)
  {
    SessionBeforeIsPreorder();
  }

  lemma BeforeOneMore(sorted: seq<Session>, session: Session, i: nat)
    requires 0 < i <= |sorted| && !SessionBefore(sorted[i - 1], session)
    ensures SessionBefore(session, sorted[i - 1])
  {
    SessionBeforeIsPreorder();
  }

  method SortSessions(unsorted: seq<Session>) returns (sessions: seq<Session>)
    ensures SessionsSorted(sessions) && multiset(sessions) == multiset(unsorted)
  {
    sessions := [];
    for i := 0 to |unsorted|
      invariant SessionsSorted(sessions) && multiset(sessions) == multiset(unsorted[..i])
    {
      sessions := InsertSession(sessions, unsorted[i]);
      assert unsorted[..i + 1] == unsorted[..i] + [unsorted[i]];
    }
    assert unsorted[..|unsorted|] == unsorted;
  }

  // ----- the whole graph

  ghost predicate Order(keys: seq<string>, walked: set<string>) {
    Elements(keys) == walked && forall i, j :: 0 <= i < j < |keys| ==> keys[i] != keys[j]
  }

  lemma OrderOneMore(keys: seq<string>, walked: set<string>, key: string)
    requires Order(keys, walked) && key !in walked
    ensures Order(keys + [key], walked + {key}) && Elements(keys + [key]) == walked + {key}
  {
    forall x ensures x in Elements(keys + [key]) <==> x in walked + {key} {
      assert x in Elements(keys) <==> x in walked;
    }
    forall i | 0 <= i < |keys| ensures keys[i] != key {
      assert keys[i] in Elements(keys);
    }
  }

  lemma FlowRecordsLogged(views: seq<View>, key: string)
    requires key in FlowKeys(views)
    ensures forall v :: v in Flow(views, key) ==> v.service != "" && v.service in LoggingServices(views)
  {
    forall v | v in Flow(views, key) ensures v.service != "" && v in views {
      FilterMember(InFlow(key), views, v);
    }
  }

  ghost predicate SessionsUpTo(views: seq<View>, walked: set<string>, keys: seq<string>, sessions: seq<Session>) {
    walked <= FlowKeys(views) && Order(keys, walked) && sessions == SessionsFor(views, keys)
  }

  lemma SessionsOneMore(views: seq<View>, walked: set<string>, keys: seq<string>, sessions: seq<Session>, key: string)
    requires SessionsUpTo(views, walked, keys, sessions) && key in FlowKeys(views) && key !in walked
    requires Flow(views, key) != []
    ensures SessionsUpTo(views, walked + {key}, keys + [key], sessions + [SessionFor(views, key)])
    ensures Elements(keys + [key]) == walked + {key}
  {
    OrderOneMore(keys, walked, key);
    assert (keys + [key])[..|keys|] == keys;
  }

  datatype Graph = Graph(nodes: map<string, Node>, edges: map<Transition, Edge>, sessions: seq<Session>)

  /** The graph of the flows walked so far, in the order they were walked. */
  ghost predicate GraphUpTo(views: seq<View>, keys: seq<string>, g: Graph) {
    && NodesUpTo(views, Elements(keys), g.nodes) && EdgesUpTo(views, Elements(keys), g.edges)
    && SessionsUpTo(views, Elements(keys), keys, g.sessions)
  }

  /** One flow: walk its records, then count it at its nodes and edges. */
  method AddFlow(views: seq<View>, ghost keys: seq<string>, key: string, f: seq<View>, g0: Graph) returns (g: Graph)
    requires key in FlowKeys(views) && key !in Elements(keys) && f == Flow(views, key)
    requires GraphUpTo(views, keys, g0)
    ensures GraphUpTo(views, keys + [key], g) && Elements(keys + [key]) == Elements(keys) + {key}
  {
    ghost var walked := Elements(keys);
    FlowRecordsLogged(views, key);
    FlowNonEmpty(views, key);
    var w, flowEdges, nodes1 := WalkFlow(f, g0.nodes);
    var nodes := AddFlowToNodes(nodes1, w.seen);
    NodesOneMore(views, walked, key, g0.nodes, nodes1, nodes);
    var edges := AddFlowToEdges(g0.edges, flowEdges);
    EdgesOneMore(views, walked, key, g0.edges, flowEdges, edges);
    var session := DescribeFlow(views, key, f, w);
    SessionsOneMore(views, walked, keys, g0.sessions, key);
    g := Graph(nodes, edges, g0.sessions + [session]);
  }

  /** Walks the flow map in whatever order it is handed out. */
  method WalkFlows(views: seq<View>, nodes0: map<string, Node>, flows: map<string, seq<View>>)
      returns (g: Graph, ghost keys: seq<string>)
    requires NodesTallied(views, nodes0) && FlowsTallied(views, flows)
    ensures GraphUpTo(views, keys, g) && Elements(keys) == FlowKeys(views)
  {
    g, keys := Graph(nodes0, map[], []), [];
    NothingWalked(views, nodes0);
    var rest := flows.Keys;
    while rest != {}
      invariant rest <= flows.Keys && Elements(keys) == flows.Keys - rest
      invariant GraphUpTo(views, keys, g)
    {
      var key := AnyOf(rest);
      assert key in FlowKeys(views) && key !in Elements(keys);
      assert flows[key] == Flow(views, key);
      g := AddFlow(views, keys, key, flows[key], g);
      keys, rest := keys + [key], rest - {key};
    }
  }

  method ListNodes(views: seq<View>, nodeMap: map<string, Node>) returns (nodes: seq<Node>)
    requires NodesUpTo(views, FlowKeys(views), nodeMap)
    ensures nodes == Nodes(views)
  {
    ghost var node := NodeBy(views, FlowKeys(views));
    var services := SortedServices(nodeMap.Keys);
    nodes := [];
    for i := 0 to |services|
      invariant nodes == Image(node, services[..i])
    {
      assert services[i] in Elements(services);
      ImagePrefix(node, services, i);
      nodes := nodes + [nodeMap[services[i]]];
    }
    assert services[..|services|] == services;
  }

  method SortedEdgeKeys(s: set<Transition>) returns (es: seq<Transition>)
    ensures es == SortedTransitions(s)
  {
    TransitionBelowIsStrictOrder();
    es := SortSet(TransitionBelow, s);
    AscendingUnique(TransitionBelow, es, SortedTransitions(s));
  }

  method ListEdges(views: seq<View>, edgeMap: map<Transition, Edge>) returns (edges: seq<Edge>)
    requires EdgesUpTo(views, FlowKeys(views), edgeMap)
    ensures edges == Edges(views)
  {
    ghost var edge := EdgeBy(views, FlowKeys(views));
    var es := SortedEdgeKeys(edgeMap.Keys);
    edges := [];
    for i := 0 to |es|
      invariant edges == Image(edge, es[..i])
    {
      assert es[i] in Elements(es);
      ImagePrefix(edge, es, i);
      edges := edges + [edgeMap[es[i]]];
    }
    assert es[..|es|] == es;
  }

  /** The graph of a time-ordered record sequence. Nodes and edges are fixed by the records alone; the sessions are
      one per flow, in an order that only ties leave open. */
  method BuildServiceGraph(t: Text, records: seq<GraphRecord>)
      returns (nodes: seq<Node>, edges: seq<Edge>, sessions: seq<Session>)
    ensures nodes == Nodes(ViewsOf(t, records)) && edges == Edges(ViewsOf(t, records))
    ensures IsSessionList(ViewsOf(t, records), sessions)
  {
    var views := InspectAll(t, records);
    var nodeMap, flows := TallyRecords(views);
    var g, keys := WalkFlows(views, nodeMap, flows);
    nodes := ListNodes(views, g.nodes);
    edges := ListEdges(views, g.edges);
    sessions := SortSessions(g.sessions);
    assert SessionList(views, sessions, keys);
  }
}

/** What the service graph keeps: log counts are conserved, edges join distinct nodes, and the counts are ordered. */
module GraphLaws {
  import opened Wrappers
  import opened Sequences
  import opened Ordering
  import opened Fields
  import opened GraphRecords
  import opened GraphSpec
  import opened GraphBuilder
  import Keys

  // ----- conservation

  function NodeLogs(): Node -> nat {
    (n: Node) => n.logCount
  }

  function NodeErrors(): Node -> nat {
    (n: Node) => n.errorCount
  }

  function SessionLogs(): Session -> nat {
    (s: Session) => s.logCount
  }

  function HasService(): View -> bool {
    (v: View) => v.service != ""
  }

  function FailedWithService(): View -> bool {
    (v: View) => v.service != "" && v.isError
  }

  function HasServiceAndFlow(): View -> bool {
    (v: View) => v.service != "" && v.flowKey != ""
  }

  function ByService(): (string, View) -> bool {
    (s: string, v: View) => v.service != "" && v.service == s
  }

  function FailedByService(): (string, View) -> bool {
    (s: string, v: View) => v.service != "" && v.service == s && v.isError
  }

  function ByFlow(): (string, View) -> bool {
    (k: string, v: View) => v.service != "" && v.flowKey == k
  }

  lemma {:induction false} NodeTotals(views: seq<View>, keys: set<string>, services: seq<string>)
    ensures Total(NodeLogs(), Image(NodeBy(views, keys), services)) == PartTotal(ByService(), services, views)
    ensures Total(NodeErrors(), Image(NodeBy(views, keys), services)) == PartTotal(FailedByService(), services, views)
  {
    if services != [] {
      var n, s := |services| - 1, services[|services| - 1];
      NodeTotals(views, keys, services[..n]);
      var image := Image(NodeBy(views, keys), services);
      assert image[..n] == Image(NodeBy(views, keys), services[..n]);
      FilterAgree(OfService(s), PartOf(ByService(), s), views);
      FilterAgree(ErrorOf(s), PartOf(FailedByService(), s), views);
    }
  }

  lemma AscendingDistinct(keys: seq<string>)
    requires Ascending(Below, keys)
    ensures forall i, j :: 0 <= i < j < |keys| ==> keys[i] != keys[j]
  {
    BelowIsStrictOrder();
  }

  /** Every record with a service is counted at exactly one node. */
  lemma NodeCountsConserveRecords(views: seq<View>)
    ensures Total(NodeLogs(), Nodes(views)) == |Filter(HasService(), views)|
    ensures Total(NodeErrors(), Nodes(views)) == |Filter(FailedWithService(), views)|
  {
    var keys := FlowKeys(views);
    var services := SortedStrings(LoggingServices(views) + SeenIn(views, keys));
    NodeTotals(views, keys, services);
    AscendingDistinct(services);
    PartsAddUp(ByService(), services, views);
    PartsAddUp(FailedByService(), services, views);
    forall v | v in views
      ensures Among(ByService(), services)(v) == HasService()(v)
      ensures Among(FailedByService(), services)(v) == FailedWithService()(v)
    {
      if v.service != "" {
        assert v.service in Elements(services);
        var i :| 0 <= i < |services| && services[i] == v.service;
        assert ByService()(services[i], v);
        assert v.isError ==> FailedByService()(services[i], v);
      }
    }
    FilterAgree(Among(ByService(), services), HasService(), views);
    FilterAgree(Among(FailedByService(), services), FailedWithService(), views);
  }

  lemma {:induction false} SessionTotals(views: seq<View>, keys: seq<string>)
    requires Elements(keys) <= FlowKeys(views)
    ensures Total(SessionLogs(), SessionsFor(views, keys)) == PartTotal(ByFlow(), keys, views)
  {
    if keys != [] {
      var n, k := |keys| - 1, keys[|keys| - 1];
      assert k in Elements(keys) && Elements(keys[..n]) <= Elements(keys);
      SessionTotals(views, keys[..n]);
      FlowNonEmpty(views, k);
      assert SessionsFor(views, keys)[..n] == SessionsFor(views, keys[..n]);
      FilterAgree(InFlow(k), PartOf(ByFlow(), k), views);
    }
  }

  /** Every record with a service and a correlation is counted in exactly one session. */
  lemma SessionCountsConserveRecords(views: seq<View>, sessions: seq<Session>)
    requires IsSessionList(views, sessions)
    ensures Total(SessionLogs(), sessions) == |Filter(HasServiceAndFlow(), views)|
  {
    var keys :| SessionList(views, sessions, keys);
    TotalPermuted(SessionLogs(), sessions, SessionsFor(views, keys));
    SessionTotals(views, keys);
    PartsAddUp(ByFlow(), keys, views);
    forall v | v in views ensures Among(ByFlow(), keys)(v) == HasServiceAndFlow()(v) {
      if Among(ByFlow(), keys)(v) {
        var i :| 0 <= i < |keys| && ByFlow()(keys[i], v);
        assert keys[i] in Elements(keys);
      }
      if HasServiceAndFlow()(v) {
        assert v.flowKey in Elements(keys);
        var i :| 0 <= i < |keys| && keys[i] == v.flowKey;
        assert ByFlow()(keys[i], v);
      }
    }
    FilterAgree(Among(ByFlow(), keys), HasServiceAndFlow(), views);
  }

  // ----- edges

  lemma {:induction false} SeenAll(f: seq<View>, i: nat)
    requires i < |f|
    ensures NamedBy(f[i]) <= Seen(f)
  {
    if i < |f| - 1 {
      SeenAll(f[..|f| - 1], i);
    }
  }

  /** A transition joins two different services of its flow. */
  lemma TransitionJoinsSeen(f: seq<View>, e: Transition)
    requires HasEdge(f, e)
    ensures e.0 != e.1 && e.0 in Seen(f) && e.1 in Seen(f)
  {
    var i :| 0 <= i < |f| && TransitionAt(f, i, e);
    SeenAll(f, i);
    if i > 0 {
      SeenAll(f, i - 1);
    }
  }

  lemma SubsetSize<T>(a: set<T>, b: set<T>)
    requires a <= b
    ensures |a| <= |b|
  {
    assert b == a + (b - a);
  }

  lemma EdgeCountsOrdered(views: seq<View>, keys: set<string>, e: Transition)
    ensures |FlowsPropagating(views, keys, e)| <= |FlowsFailing(views, keys, e)| <= |FlowsThrough(views, keys, e)|
    ensures |FlowsThrough(views, keys, e)| <= |FlowsSeeing(views, keys, e.0)| <= |keys|
    ensures |FlowsThrough(views, keys, e)| <= |FlowsSeeing(views, keys, e.1)| <= |keys|
  {
    forall k | k in keys
      ensures EdgePropagated(Flow(views, k), e) ==> EdgeError(Flow(views, k), e)
      ensures EdgeError(Flow(views, k), e) ==> HasEdge(Flow(views, k), e)
      ensures HasEdge(Flow(views, k), e) ==> e.0 in Seen(Flow(views, k)) && e.1 in Seen(Flow(views, k))
    {
      ErrorsAreEdges(Flow(views, k), e);
      if HasEdge(Flow(views, k), e) {
        TransitionJoinsSeen(Flow(views, k), e);
      }
    }
    SubsetSize(FlowsPropagating(views, keys, e), FlowsFailing(views, keys, e));
    SubsetSize(FlowsFailing(views, keys, e), FlowsThrough(views, keys, e));
    SubsetSize(FlowsThrough(views, keys, e), FlowsSeeing(views, keys, e.0));
    SubsetSize(FlowsThrough(views, keys, e), FlowsSeeing(views, keys, e.1));
    SubsetSize(FlowsSeeing(views, keys, e.0), keys);
    SubsetSize(FlowsSeeing(views, keys, e.1), keys);
  }

  /** The edge's counts fit between zero and those of the node at one of its ends. */
  predicate FitsNode(edge: Edge, node: Node) {
    edge.propagatedErrorCount <= edge.errorFlowCount <= edge.flowCount <= node.flowCount
  }

  lemma {:induction false} NodeOf(views: seq<View>, service: string) returns (j: nat)
    requires service in SeenIn(views, FlowKeys(views))
    ensures j < |Nodes(views)| && Nodes(views)[j] == NodeFor(views, FlowKeys(views), service)
  {
    var services := SortedStrings(LoggingServices(views) + SeenIn(views, FlowKeys(views)));
    assert service in Elements(services);
    j :| 0 <= j < |services| && services[j] == service;
  }

  /** Every edge joins two different nodes of the graph, was taken by some flow, and its counts are ordered. */
  lemma {:induction false} EdgesWellFormed(views: seq<View>, i: nat) returns (source: nat, target: nat)
    requires i < |Edges(views)|
    ensures var edge := Edges(views)[i]; edge.source != edge.target && edge.flowCount > 0
    ensures source < |Nodes(views)| && target < |Nodes(views)|
    ensures Nodes(views)[source].service == Edges(views)[i].source && FitsNode(Edges(views)[i], Nodes(views)[source])
    ensures Nodes(views)[target].service == Edges(views)[i].target && FitsNode(Edges(views)[i], Nodes(views)[target])
  {
    var keys := FlowKeys(views);
    var es := SortedTransitions(TransitionsIn(views, keys));
    var e := es[i];
    assert e in Elements(es);
    var k :| k in keys && e in Transitions(Flow(views, k));
    HasEdgeIffTransition(Flow(views, k), e);
    TransitionJoinsSeen(Flow(views, k), e);
    assert k in FlowsThrough(views, keys, e);
    source := NodeOf(views, e.0);
    target := NodeOf(views, e.1);
    EdgeCountsOrdered(views, keys, e);
  }

  // ----- nodes and sessions

  function Lists(service: string): Session -> bool {
    (s: Session) => service in s.services
  }

  lemma {:induction false} FlowsListing(views: seq<View>, keys: seq<string>, service: string)
    requires Elements(keys) <= FlowKeys(views) && service != ""
    requires forall i, j :: 0 <= i < j < |keys| ==> keys[i] != keys[j]
    ensures |Filter(Lists(service), SessionsFor(views, keys))| == |FlowsSeeing(views, Elements(keys), service)|
  {
    if keys == [] {
      assert FlowsSeeing(views, Elements(keys), service) == {};
    } else {
      var n, k := |keys| - 1, keys[|keys| - 1];
      assert k in Elements(keys) && Elements(keys[..n]) <= Elements(keys);
      FlowsListing(views, keys[..n], service);
      FlowNonEmpty(views, k);
      FilterSnoc(Lists(service), SessionsFor(views, keys[..n]), SessionFor(views, k));
      ListsSeen(views, k, service);
      assert k !in Elements(keys[..n]) && Elements(keys) == Elements(keys[..n]) + {k};
      SeeingOneMore(views, Elements(keys[..n]), k, service);
    }
  }

  /** A session lists exactly the named services of its flow. */
  lemma ListsSeen(views: seq<View>, key: string, service: string)
    requires Flow(views, key) != [] && service != ""
    ensures Lists(service)(SessionFor(views, key)) <==> service in Seen(Flow(views, key))
  {
    var services := SessionFor(views, key).services;
    assert service in services <==> service in Elements(services);
  }

  lemma ServicesNamed(views: seq<View>, service: string)
    requires service in LoggingServices(views) + SeenIn(views, FlowKeys(views))
    ensures service != ""
  {
    forall k | k in FlowKeys(views) ensures "" !in Seen(Flow(views, k)) {
      FlowRecordsLogged(views, k);
      SeenNamed(Flow(views, k));
    }
  }

  lemma {:induction false} SeenNamed(f: seq<View>)
    requires forall v :: v in f ==> v.service != ""
    ensures "" !in Seen(f)
  {
    if f != [] {
      assert f[|f| - 1] in f;
      SeenNamed(f[..|f| - 1]);
    }
  }

  /** A node's flow count is the number of sessions that list its service, at most all of them. */
  lemma {:induction false} NodeFlowCountIsSessionCount(views: seq<View>, sessions: seq<Session>, i: nat)
    requires IsSessionList(views, sessions) && i < |Nodes(views)|
    ensures var node := Nodes(views)[i]; node.flowCount == |Filter(Lists(node.service), sessions)| <= |sessions|
  {
    var services := SortedStrings(LoggingServices(views) + SeenIn(views, FlowKeys(views)));
    var service := services[i];
    assert service in Elements(services);
    ServicesNamed(views, service);
    var keys :| SessionList(views, sessions, keys);
    FlowsListing(views, keys, service);
    FilterPermuted(Lists(service), sessions, SessionsFor(views, keys));
    assert |Filter(Lists(service), sessions)| == |multiset(Filter(Lists(service), sessions))|;
  }

  // ----- sessions

  ghost predicate TimeOrdered(views: seq<View>) {
    forall i, j :: 0 <= i <= j < |views| ==> views[i].at <= views[j].at
  }

  lemma {:induction false} FilterKeepsTimeOrder(keep: View -> bool, views: seq<View>)
    requires TimeOrdered(views)
    ensures TimeOrdered(Filter(keep, views))
  {
    if views != [] {
      var n := |views| - 1;
      FilterKeepsTimeOrder(keep, views[..n]);
      forall v | v in Filter(keep, views[..n]) ensures v.at <= views[n].at {
        FilterMember(keep, views[..n], v);
      }
    }
  }

  /** On time-ordered records the bounds of a session enclose every record of its flow. */
  lemma SessionBoundsEncloseFlow(views: seq<View>, key: string, v: View)
    requires TimeOrdered(views) && key in FlowKeys(views)
    requires v in views && v.service != "" && v.flowKey == key
    ensures Flow(views, key) != []
    ensures SessionFor(views, key).startedAt <= v.at <= SessionFor(views, key).endedAt
  {
    FlowNonEmpty(views, key);
    FilterKeepsTimeOrder(InFlow(key), views);
    FilterMember(InFlow(key), views, v);
  }

  /** And each bound is the time of some record of the flow. */
  lemma SessionBoundsTaken(views: seq<View>, key: string) returns (first: View, last: View)
    requires key in FlowKeys(views)
    ensures Flow(views, key) != []
    ensures first in views && first.service != "" && first.flowKey == key
    ensures first.at == SessionFor(views, key).startedAt
    ensures last in views && last.service != "" && last.flowKey == key && last.at == SessionFor(views, key).endedAt
  {
    FlowNonEmpty(views, key);
    var f := Flow(views, key);
    first, last := f[0], f[|f| - 1];
    FilterMember(InFlow(key), views, first);
    FilterMember(InFlow(key), views, last);
  }

  lemma KeyFromRecord(t: Text, records: seq<GraphRecord>, key: string) returns (r: GraphRecord)
    requires key in FlowKeys(ViewsOf(t, records))
    ensures r in records && FlowOf(t, r).Some? && SplitFlowKey(key) == FlowOf(t, r).value && key == FlowKeyOf(t, r)
  {
    var views := ViewsOf(t, records);
    var v :| v in views && v.service != "" && v.flowKey != "" && v.flowKey == key;
    var i :| 0 <= i < |views| && views[i] == v;
    assert views[i] == ViewBy(t)(records[i]);
    r := records[i];
    FlowKeysFaithful(t, r, r);
  }

  /** Two sessions never share both kind and id. */
  lemma {:induction false} SessionsNameTheirFlow(t: Text, records: seq<GraphRecord>, key: string, other: string)
    requires key in FlowKeys(ViewsOf(t, records)) && other in FlowKeys(ViewsOf(t, records)) && key != other
    ensures SplitFlowKey(key) != SplitFlowKey(other)
  {
    var r := KeyFromRecord(t, records, key);
    var s := KeyFromRecord(t, records, other);
  }
}

/** The sessions of the service graph, said on the log records themselves. */
module GraphSessions {
  import opened Wrappers
  import opened Sequences
  import opened Positions
  import opened Ordering
  import opened Fields
  import opened GraphRecords
  import opened GraphSpec
  import opened GraphLaws
  import opened GraphMeaning
  import Keys

  /** The user is the first one that any record of the flow names. */
  ghost predicate UserOf(t: Text, n: FieldNames, records: seq<GraphRecord>, at: seq<int>, user: string)
    requires forall i :: 0 <= i < |at| ==> 0 <= at[i] < |records|
  {
    if user == "" then forall i :: 0 <= i < |at| ==> Reads(t, records[at[i]], n.user, "")
    else exists i :: 0 <= i < |at| && Reads(t, records[at[i]], n.user, user) &&
                     forall j :: 0 <= j < i ==> Reads(t, records[at[j]], n.user, "")
  }

  ghost predicate Within(records: seq<GraphRecord>, at: seq<int>) {
    forall i :: 0 <= i < |at| ==> 0 <= at[i] < |records|
  }

  /** Times, counts and user are those of the records at these positions. */
  ghost predicate Sums(t: Text, n: FieldNames, records: seq<GraphRecord>, session: Session, at: seq<int>)
    requires Within(records, at) && at != []
  {
    && session.startedAt == records[at[0]].timestamp && session.endedAt == records[at[|at| - 1]].timestamp
    && session.logCount == |at|
    && session.errorCount == |set i | 0 <= i < |at| && Failed(t, records[at[i]])|
    && UserOf(t, n, records, at, session.userId)
  }

  /** Their trace ids, and the services that take part in the flow, each once and in order. */
  ghost predicate ListsAll(t: Text, n: FieldNames, records: seq<GraphRecord>, session: Session, at: seq<int>)
    requires Within(records, at)
  {
    && Ascending(Below, session.traceIds) && Ascending(Below, session.services)
    && (forall id :: id in session.traceIds <==>
          id != "" && exists i :: 0 <= i < |at| && records[at[i]].traceId == id)
    && (forall service :: service in session.services <==>
          service != "" && TakesPart(t, n, records, session.kind, session.id, service))
  }

  /** The session of the flow whose records are at these positions. */
  ghost predicate Describes(t: Text, n: FieldNames, records: seq<GraphRecord>, session: Session, at: seq<int>)
  {
    && FlowAt(t, n, records, session.kind, session.id, at) && at != [] && Within(records, at)
    && Sums(t, n, records, session, at) && ListsAll(t, n, records, session, at)
  }

  lemma {:induction false} FirstUserMeans(f: seq<View>, user: string)
    requires user == FirstUser(f)
    ensures if user == "" then forall i :: 0 <= i < |f| ==> f[i].userId == ""
            else exists i :: 0 <= i < |f| && f[i].userId == user && forall j :: 0 <= j < i ==> f[j].userId == ""
  {
    if f != [] {
      var n := |f| - 1;
      var past := FirstUser(f[..n]);
      FirstUserMeans(f[..n], past);
      forall j | 0 <= j < n ensures f[..n][j] == f[j] {}
      if past != "" {
        var i :| 0 <= i < n && f[..n][i].userId == past && forall j :: 0 <= j < i ==> f[..n][j].userId == "";
        assert f[i].userId == user && forall j :: 0 <= j < i ==> f[j].userId == "";
      } else if user != "" {
        assert f[n].userId == user && forall j :: 0 <= j < n ==> f[j].userId == "";
      }
    }
  }

  lemma ReadsUser(t: Text, n: FieldNames, records: seq<GraphRecord>, at: seq<int>, f: seq<View>)
    requires n == InUse() && FlowViews(t, records, f, at)
    ensures UserOf(t, n, records, at, FirstUser(f))
  {
    FirstUserMeans(f, FirstUser(f));
    forall i | 0 <= i < |at| ensures Reads(t, records[at[i]], n.user, f[i].userId) {
      ViewMeans(t, n, records, at[i]);
    }
  }

  lemma TracesMean(t: Text, n: FieldNames, records: seq<GraphRecord>, at: seq<int>, f: seq<View>, id: string)
    requires n == InUse() && FlowViews(t, records, f, at)
    ensures id in TraceIds(f) <==> id != "" && exists i :: 0 <= i < |at| && records[at[i]].traceId == id
  {
    forall i | 0 <= i < |at| ensures f[i].traceId == records[at[i]].traceId {
      ViewMeans(t, n, records, at[i]);
    }
    if id in TraceIds(f) {
      var v :| v in f && v.traceId == id;
      var i :| 0 <= i < |f| && f[i] == v;
    }
  }

  lemma ErrorsCounted(t: Text, n: FieldNames, records: seq<GraphRecord>, at: seq<int>, f: seq<View>)
    requires n == InUse() && FlowViews(t, records, f, at)
    ensures |Filter(IsError(), f)| == |set i | 0 <= i < |at| && Failed(t, records[at[i]])|
  {
    FailedViews(t, n, records, at, f);
    FilterCount(IsError(), f);
    assert PositionsOf(f, IsError()) == set i | 0 <= i < |at| && Failed(t, records[at[i]]);
  }

  lemma SessionSums(t: Text, n: FieldNames, records: seq<GraphRecord>, key: string, at: seq<int>, session: Session)
    requires n == InUse() && FlowViews(t, records, Flow(ViewsOf(t, records), key), at) && at != []
    requires Flow(ViewsOf(t, records), key) != [] && session == SessionFor(ViewsOf(t, records), key)
    ensures Within(records, at) && Sums(t, n, records, session, at)
  {
    var f := Flow(ViewsOf(t, records), key);
    ReadsUser(t, n, records, at, f);
    ErrorsCounted(t, n, records, at, f);
    ViewMeans(t, n, records, at[0]);
    ViewMeans(t, n, records, at[|at| - 1]);
  }

  lemma SessionLists(t: Text, n: FieldNames, records: seq<GraphRecord>, kind: string, id: string, at: seq<int>,
                     session: Session)
    requires n == InUse() && ':' !in kind
    requires FlowViews(t, records, Flow(ViewsOf(t, records), Keys.Join(kind, id)), at)
    requires Flow(ViewsOf(t, records), Keys.Join(kind, id)) != []
    requires session == SessionFor(ViewsOf(t, records), Keys.Join(kind, id))
    ensures session.kind == kind && session.id == id
    ensures Within(records, at) && ListsAll(t, n, records, session, at)
  {
    var f := Flow(ViewsOf(t, records), Keys.Join(kind, id));
    JoinSplits(kind, id);
    forall trace
      ensures trace in session.traceIds <==>
              trace != "" && exists i :: 0 <= i < |at| && records[at[i]].traceId == trace
    {
      TracesMean(t, n, records, at, f, trace);
      assert trace in session.traceIds <==> trace in Elements(session.traceIds);
    }
    forall service
      ensures service in session.services <==> service != "" && TakesPart(t, n, records, kind, id, service)
    {
      if service != "" {
        TakesPartIff(t, n, records, kind, id, service);
      }
      assert service in session.services <==> service in Elements(session.services);
    }
  }

  lemma SessionDescribes(t: Text, n: FieldNames, records: seq<GraphRecord>, kind: string, id: string)
      returns (at: seq<int>)
    requires n == InUse() && ':' !in kind && Keys.Join(kind, id) in FlowKeys(ViewsOf(t, records))
    ensures Flow(ViewsOf(t, records), Keys.Join(kind, id)) != []
    ensures var session := SessionFor(ViewsOf(t, records), Keys.Join(kind, id));
            session.kind == kind && session.id == id && Describes(t, n, records, session, at)
  {
    var views, key := ViewsOf(t, records), Keys.Join(kind, id);
    at := FlowPositions(t, n, records, kind, id);
    FlowNonEmpty(views, key);
    SessionSums(t, n, records, key, at, SessionFor(views, key));
    SessionLists(t, n, records, kind, id, at, SessionFor(views, key));
  }

  // ----- the whole list

  /** Nodes come by service, edges by source and then target, sessions latest first and then by id. */
  lemma ResponseOrdered(views: seq<View>, sessions: seq<Session>)
    requires IsSessionList(views, sessions)
    ensures forall i, j :: 0 <= i < j < |Nodes(views)| ==> Below(Nodes(views)[i].service, Nodes(views)[j].service)
    ensures forall i, j :: 0 <= i < j < |Edges(views)| ==>
              var e, f := Edges(views)[i], Edges(views)[j];
              Below(e.source, f.source) || (e.source == f.source && Below(e.target, f.target))
    ensures forall i, j :: 0 <= i < j < |sessions| ==>
              var s, u := sessions[i], sessions[j];
              s.startedAt > u.startedAt || (s.startedAt == u.startedAt && !Below(u.id, s.id))
  {
    NodesOrdered(views);
    EdgesOrdered(views);
    var keys :| SessionList(views, sessions, keys);
    forall i, j | 0 <= i < j < |sessions| ensures SessionBefore(sessions[i], sessions[j]) {}
    NotBothBelow();
  }

  lemma NotBothBelow()
    ensures forall a, b :: a == b || Below(a, b) ==> !Below(b, a)
  {
    forall a, b | a == b || Below(a, b) ensures !Below(b, a) {
      BelowTotal(a, a);
      if Below(a, b) && Below(b, a) {
        BelowTransitive(a, b, a);
      }
    }
  }

  lemma NodesOrdered(views: seq<View>)
    ensures forall i, j :: 0 <= i < j < |Nodes(views)| ==> Below(Nodes(views)[i].service, Nodes(views)[j].service)
  {
    var services := SortedStrings(LoggingServices(views) + SeenIn(views, FlowKeys(views)));
    assert forall i :: 0 <= i < |services| ==> Nodes(views)[i].service == services[i];
  }

  lemma EdgesOrdered(views: seq<View>)
    ensures forall i, j :: 0 <= i < j < |Edges(views)| ==>
              var e, f := Edges(views)[i], Edges(views)[j];
              Below(e.source, f.source) || (e.source == f.source && Below(e.target, f.target))
  {
    var es := SortedTransitions(TransitionsIn(views, FlowKeys(views)));
    forall i, j | 0 <= i < j < |Edges(views)|
      ensures Below(Edges(views)[i].source, Edges(views)[j].source)
              || (Edges(views)[i].source == Edges(views)[j].source
                  && Below(Edges(views)[i].target, Edges(views)[j].target))
    {
      assert TransitionBelow(es[i], es[j]);
    }
  }

  lemma SessionAt(views: seq<View>, keys: seq<string>, session: Session) returns (key: string)
    requires Elements(keys) <= FlowKeys(views) && session in SessionsFor(views, keys)
    ensures key in FlowKeys(views) && Flow(views, key) != [] && session == SessionFor(views, key)
  {
    var i :| 0 <= i < |keys| && SessionsFor(views, keys)[i] == session;
    SessionsListed(views, keys, i);
    key := keys[i];
  }

  /** Every session describes the flow of its own kind and id: all records with that first identifier, and no others. */
  lemma SessionMeans(t: Text, records: seq<GraphRecord>, sessions: seq<Session>, session: Session)
      returns (at: seq<int>)
    requires IsSessionList(ViewsOf(t, records), sessions) && session in sessions
    ensures Describes(t, WrittenOut(), records, session, at)
  {
    NamesInUse();
    var views := ViewsOf(t, records);
    var keys :| SessionList(views, sessions, keys);
    assert session in multiset(sessions);
    var key := SessionAt(views, keys, session);
    KeySplits(t, records, key);
    at := SessionDescribes(t, InUse(), records, SplitFlowKey(key).0, SplitFlowKey(key).1);
  }

  function Named(kind: string, id: string): Session -> bool {
    (s: Session) => s.kind == kind && s.id == id
  }

  ghost function SessionsNamed(sessions: seq<Session>, kind: string, id: string): set<int> {
    set k | 0 <= k < |sessions| && sessions[k].kind == kind && sessions[k].id == id
  }

  lemma {:induction false} KeptOnce(keys: seq<string>, sessions: seq<Session>, keep: Session -> bool, key: string)
    requires |keys| == |sessions| && forall i, j :: 0 <= i < j < |keys| ==> keys[i] != keys[j]
    requires forall i :: 0 <= i < |keys| ==> (keep(sessions[i]) <==> keys[i] == key)
    ensures |Filter(keep, sessions)| == if key in keys then 1 else 0
  {
    if keys != [] {
      var n := |keys| - 1;
      KeptOnce(keys[..n], sessions[..n], keep, key);
      assert keys == keys[..n] + [keys[n]];
    }
  }

  lemma {:induction false} SessionsListed(views: seq<View>, keys: seq<string>, i: nat)
    requires Elements(keys) <= FlowKeys(views) && i < |keys|
    ensures keys[i] in FlowKeys(views) && Flow(views, keys[i]) != []
    ensures SessionsFor(views, keys)[i] == SessionFor(views, keys[i])
  {
    var n := |keys| - 1;
    assert keys[n] in Elements(keys) && Elements(keys[..n]) <= Elements(keys);
    FlowNonEmpty(views, keys[n]);
    if i < n {
      SessionsListed(views, keys[..n], i);
    }
  }

  lemma NamedByKey(t: Text, records: seq<GraphRecord>, key: string, kind: string, id: string)
    requires key in FlowKeys(ViewsOf(t, records)) && Flow(ViewsOf(t, records), key) != [] && ':' !in kind
    ensures Named(kind, id)(SessionFor(ViewsOf(t, records), key)) <==> key == Keys.Join(kind, id)
  {
    KeySplits(t, records, key);
    JoinSplits(kind, id);
  }

  lemma NamedInList(t: Text, records: seq<GraphRecord>, sessions: seq<Session>, kind: string, id: string)
    requires IsSessionList(ViewsOf(t, records), sessions) && ':' !in kind
    ensures |SessionsNamed(sessions, kind, id)| ==
            if Keys.Join(kind, id) in FlowKeys(ViewsOf(t, records)) then 1 else 0
  {
    var views := ViewsOf(t, records);
    var keys :| SessionList(views, sessions, keys);
    forall i | 0 <= i < |keys|
      ensures Named(kind, id)(SessionsFor(views, keys)[i]) <==> keys[i] == Keys.Join(kind, id)
    {
      SessionsListed(views, keys, i);
      NamedByKey(t, records, keys[i], kind, id);
    }
    KeptOnce(keys, SessionsFor(views, keys), Named(kind, id), Keys.Join(kind, id));
    assert Keys.Join(kind, id) in keys <==> Keys.Join(kind, id) in Elements(keys);
    NamedCount(sessions, SessionsFor(views, keys), kind, id);
  }

  lemma NamedCount(sessions: seq<Session>, others: seq<Session>, kind: string, id: string)
    requires multiset(sessions) == multiset(others)
    ensures |SessionsNamed(sessions, kind, id)| == |Filter(Named(kind, id), others)|
  {
    FilterPermuted(Named(kind, id), sessions, others);
    SameSize(Filter(Named(kind, id), sessions), Filter(Named(kind, id), others));
    FilterCount(Named(kind, id), sessions);
    assert PositionsOf(sessions, Named(kind, id)) == SessionsNamed(sessions, kind, id);
  }

  /** There is exactly one session for each flow, and none besides. */
  lemma OneSessionPerFlow(t: Text, records: seq<GraphRecord>, sessions: seq<Session>, kind: string, id: string)
    requires IsSessionList(ViewsOf(t, records), sessions)
    ensures |SessionsNamed(sessions, kind, id)| ==
            if exists i :: InFlowOf(t, WrittenOut(), records, i, kind, id) then 1 else 0
  {
    NamesInUse();
    if ':' !in kind {
      NamedInList(t, records, sessions, kind, id);
      KeyIff(t, InUse(), records, kind, id);
    } else {
      NoSuchKind(t, InUse(), records, sessions, kind, id);
    }
  }

  lemma SameSize<T>(xs: seq<T>, ys: seq<T>)
    requires multiset(xs) == multiset(ys)
    ensures |xs| == |ys|
  {
    assert |multiset(xs)| == |xs| && |multiset(ys)| == |ys|;
  }

  lemma PlainSession(t: Text, n: FieldNames, records: seq<GraphRecord>, session: Session, at: seq<int>)
    requires Describes(t, n, records, session, at)
    ensures ':' !in session.kind
  {
    assert at[0] in at;
    PlainKind(t, n, records[at[0]], session.kind, session.id);
  }

  lemma NoSuchKind(t: Text, n: FieldNames, records: seq<GraphRecord>, sessions: seq<Session>, kind: string, id: string)
    requires n == InUse() && IsSessionList(ViewsOf(t, records), sessions) && ':' in kind
    ensures SessionsNamed(sessions, kind, id) == {}
    ensures forall i :: !InFlowOf(t, n, records, i, kind, id)
  {
    forall i ensures !InFlowOf(t, n, records, i, kind, id) {
      if InFlowOf(t, n, records, i, kind, id) {
        PlainKind(t, n, records[i], kind, id);
      }
    }
    NamesInUse();
    if k :| k in SessionsNamed(sessions, kind, id) {
      var at := SessionMeans(t, records, sessions, sessions[k]);
      PlainSession(t, n, records, sessions[k], at);
    }
  }
}

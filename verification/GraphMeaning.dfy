/** The service graph said on the log records themselves: field names, levels and kinds written out, flows as positions
    in the slice. */
module GraphMeaning {
  import opened Wrappers
  import opened Sequences
  import opened Positions
  import opened Ordering
  import opened Fields
  import opened GraphRecords
  import opened GraphSpec
  import opened GraphBuilder
  import opened GraphLaws
  import Keys

  // ----- one record

  /** The names a field may go by, for each thing the graph reads. */
  datatype FieldNames = FieldNames(session: seq<string>, request: seq<string>, user: seq<string>,
                                   upstream: seq<string>, downstream: seq<string>)

  function WrittenOut(): FieldNames {
    FieldNames(["session_id", "sessionid", "session-id"],
               ["request_id", "requestid", "request-id", "correlation_id"],
               ["user_id", "userid", "user-id"],
               ["upstream_service", "upstream.service", "caller_service"],
               ["downstream_service", "downstream.service", "peer_service", "target_service"])
  }

  function ServiceOf(t: Text, r: GraphRecord): string {
    t.lower(t.trim(r.service))
  }

  predicate Failed(t: Text, r: GraphRecord) {
    var level := t.lower(t.trim(r.level));
    level == "error" || level == "fatal" || level == "critical" || level == "panic"
  }

  /** The same letters, whatever the case, the blanks around them and the separators. */
  predicate SpelledLike(t: Text, key: string, names: seq<string>) {
    exists i :: 0 <= i < |names| && Bare(t, key) == Bare(t, names[i])
  }

  function Bare(t: Text, key: string): string {
    WithoutSeparators(t.lower(t.trim(key)))
  }

  ghost predicate LeastLike(t: Text, r: GraphRecord, names: seq<string>, key: string) {
    && key in r.fields && SpelledLike(t, key, names)
    && forall other :: other in r.fields && SpelledLike(t, other, names) ==> other == key || Below(key, other)
  }

  /** The trimmed value of the least field with one of the names, blank when there is none. */
  ghost predicate Reads(t: Text, r: GraphRecord, names: seq<string>, value: string) {
    if exists key :: key in r.fields && SpelledLike(t, key, names)
    then exists key :: LeastLike(t, r, names, key) && value == t.trim(r.fields[key])
    else value == ""
  }

  ghost predicate NamesService(t: Text, r: GraphRecord, names: seq<string>, service: string) {
    exists value :: Reads(t, r, names, value) && service == t.lower(t.trim(value))
  }

  /** The first identifier that is there, among session, request, trace and user. */
  ghost predicate IdentifiedBy(t: Text, n: FieldNames, r: GraphRecord, kind: string, id: string) {
    exists session, request, user ::
      && Reads(t, r, n.session, session) && Reads(t, r, n.request, request) && Reads(t, r, n.user, user)
      && FirstOf(session, request, r.traceId, user, kind, id)
  }

  predicate FirstOf(session: string, request: string, trace: string, user: string, kind: string, id: string) {
    && id != ""
    && if session != "" then kind == "session" && id == session
       else if request != "" then kind == "request" && id == request
       else if trace != "" then kind == "trace" && id == trace
       else kind == "user" && id == user
  }

  function Letter(): char -> bool {
    (c: char) => c != '_' && c != '-' && c != '.'
  }

  lemma {:induction false} LettersFiltered(s: string)
    ensures WithoutSeparators(s) == Filter(Letter(), s)
  {
    if s != "" {
      LettersFiltered(s[1..]);
      FilterConcat(Letter(), [s[0]], s[1..]);
      FilterSnoc(Letter(), [], s[0]);
      assert [] + [s[0]] == [s[0]] && s == [s[0]] + s[1..];
    }
  }

  /** A field name counts without its underscores, dashes and dots, and nothing else is dropped from it. */
  lemma LettersOnly(s: string) returns (at: seq<int>)
    ensures Picks(s, WithoutSeparators(s), at)
    ensures forall k :: 0 <= k < |s| ==> (k in at <==> s[k] != '_' && s[k] != '-' && s[k] != '.')
  {
    LettersFiltered(s);
    at := FilterPicks(Letter(), s);
  }

  lemma {:induction false} ReadsField(t: Text, r: GraphRecord, names: seq<string>, value: string)
    ensures Reads(t, r, names, value) <==> value == Field(t, r.fields, names)
  {
    var norm := KeyNorm(t);
    forall key ensures SpelledLike(t, key, names) <==> Names(norm, key, names) {}
    if key :| key in r.fields && SpelledLike(t, key, names) {
      var first := LeastNamed(norm, r.fields, names, key);
      FirstValueIs(norm, r.fields, names, first);
      assert LeastLike(t, r, names, first);
      forall other | LeastLike(t, r, names, other) ensures other == first {
        assert FirstNamed(norm, r.fields, names, other);
        FirstValueIs(norm, r.fields, names, other);
        BelowTotal(first, first);
        if other != first {
          BelowTransitive(first, other, first);
        }
      }
    }
  }

  lemma NamesServiceIff(t: Text, r: GraphRecord, names: seq<string>, service: string)
    ensures NamesService(t, r, names, service) <==> service == NormalizeService(t, Field(t, r.fields, names))
  {
    ReadsField(t, r, names, Field(t, r.fields, names));
    forall value ensures Reads(t, r, names, value) <==> value == Field(t, r.fields, names) {
      ReadsField(t, r, names, value);
    }
  }

  lemma IdentifiedIff(t: Text, n: FieldNames, r: GraphRecord, kind: string, id: string)
    ensures IdentifiedBy(t, n, r, kind, id) <==>
            FirstIdentifier(Field(t, r.fields, n.session), Field(t, r.fields, n.request), r.traceId,
                            Field(t, r.fields, n.user)) == Some((kind, id))
  {
    var session, request, user :=
      Field(t, r.fields, n.session), Field(t, r.fields, n.request), Field(t, r.fields, n.user);
    forall value
      ensures Reads(t, r, n.session, value) <==> value == session
      ensures Reads(t, r, n.request, value) <==> value == request
      ensures Reads(t, r, n.user, value) <==> value == user
    {
      ReadsField(t, r, n.session, value);
      ReadsField(t, r, n.request, value);
      ReadsField(t, r, n.user, value);
    }
    FirstIff(session, request, r.traceId, user, kind, id);
  }

  lemma FirstIff(session: string, request: string, trace: string, user: string, kind: string, id: string)
    ensures FirstOf(session, request, trace, user, kind, id) <==>
            FirstIdentifier(session, request, trace, user) == Some((kind, id))
  {
  }

  /** The names the code uses. */
  function InUse(): FieldNames {
    FieldNames(SESSION_FIELDS, REQUEST_FIELDS, USER_FIELDS, UPSTREAM_FIELDS, DOWNSTREAM_FIELDS)
  }

  lemma NamesInUse()
    ensures InUse() == WrittenOut()
  {
  }

  // ----- flows

  /** The record belongs to the flow. */
  ghost predicate InFlowOf(t: Text, n: FieldNames, records: seq<GraphRecord>, i: int, kind: string, id: string) {
    0 <= i < |records| && ServiceOf(t, records[i]) != "" && IdentifiedBy(t, n, records[i], kind, id)
  }

  /** The second record follows the first in the flow, with none of the flow between. */
  ghost predicate Follows(t: Text, n: FieldNames, records: seq<GraphRecord>, h: int, i: int, kind: string, id: string) {
    && h < i && InFlowOf(t, n, records, h, kind, id) && InFlowOf(t, n, records, i, kind, id)
    && forall j :: h < j < i ==> !InFlowOf(t, n, records, j, kind, id)
  }

  /** A record of b names its caller a, or one of a its callee b. */
  ghost predicate Calls(t: Text, n: FieldNames, r: GraphRecord, a: string, b: string) {
    && a != "" && b != "" && a != b
    && ((ServiceOf(t, r) == b && NamesService(t, r, n.upstream, a))
        || (ServiceOf(t, r) == a && NamesService(t, r, n.downstream, b)))
  }

  /** Two consecutive records of the flow, of a and of b. */
  ghost predicate Passes(t: Text, n: FieldNames, records: seq<GraphRecord>, h: int, i: int, kind: string, id: string,
                         a: string, b: string)
  {
    && Follows(t, n, records, h, i, kind, id)
    && a != b && ServiceOf(t, records[h]) == a && ServiceOf(t, records[i]) == b
  }

  /** The flow goes from a to b at this record. */
  ghost predicate GoesAt(t: Text, n: FieldNames, records: seq<GraphRecord>, i: int, kind: string, id: string, a: string,
                         b: string)
  {
    && InFlowOf(t, n, records, i, kind, id)
    && (Calls(t, n, records[i], a, b) || exists h :: Passes(t, n, records, h, i, kind, id, a, b))
  }

  lemma ViewMeans(t: Text, n: FieldNames, records: seq<GraphRecord>, i: nat)
    requires i < |records| && n == InUse()
    ensures var r, v := records[i], ViewsOf(t, records)[i];
            && v == ViewOf(t, r) && v.at == r.timestamp && v.traceId == r.traceId
            && v.service == ServiceOf(t, r) && (v.isError <==> Failed(t, r))
            && Reads(t, r, n.user, v.userId)
            && (forall a :: NamesService(t, r, n.upstream, a) <==> a == v.upstream)
            && (forall a :: NamesService(t, r, n.downstream, a) <==> a == v.downstream)
  {
    var r := records[i];
    assert ViewsOf(t, records)[i] == ViewBy(t)(r);
    ReadsField(t, r, n.user, Field(t, r.fields, n.user));
    forall a
      ensures NamesService(t, r, n.upstream, a) <==> a == NormalizeService(t, Field(t, r.fields, n.upstream))
      ensures NamesService(t, r, n.downstream, a) <==> a == NormalizeService(t, Field(t, r.fields, n.downstream))
    {
      NamesServiceIff(t, r, n.upstream, a);
      NamesServiceIff(t, r, n.downstream, a);
    }
  }

  lemma FlowMeans(t: Text, n: FieldNames, records: seq<GraphRecord>, i: int, kind: string, id: string)
    requires n == InUse() && ':' !in kind
    ensures InFlowOf(t, n, records, i, kind, id) <==>
            0 <= i < |records| && InFlow(Keys.Join(kind, id))(ViewsOf(t, records)[i])
  {
    if 0 <= i < |records| {
      ViewMeans(t, n, records, i);
      IdentifiedIff(t, n, records[i], kind, id);
      KeyOfIdentity(FlowOf(t, records[i]), kind, id);
    }
  }

  lemma {:induction false} KeyOfIdentity(flow: Option<(string, string)>, kind: string, id: string)
    requires ':' !in kind && (flow.Some? ==> ':' !in flow.value.0)
    ensures FlowKey(flow) == Keys.Join(kind, id) <==> flow == Some((kind, id))
  {
    Keys.SplitJoin(kind, id);
    FlowKeySplits(flow);
    if flow.Some? {
      Keys.SplitJoin(flow.value.0, flow.value.1);
    }
  }

  // ----- one flow's transitions

  /** The positions of the flow's records. */
  ghost predicate FlowAt(t: Text, n: FieldNames, records: seq<GraphRecord>, kind: string, id: string, at: seq<int>) {
    && (forall i, j :: 0 <= i < j < |at| ==> at[i] < at[j])
    && (forall k :: k in at <==> InFlowOf(t, n, records, k, kind, id))
  }

  lemma FlowPositions(t: Text, n: FieldNames, records: seq<GraphRecord>, kind: string, id: string)
      returns (at: seq<int>)
    requires n == InUse() && ':' !in kind
    ensures FlowAt(t, n, records, kind, id, at)
    ensures FlowViews(t, records, Flow(ViewsOf(t, records), Keys.Join(kind, id)), at)
  {
    var views := ViewsOf(t, records);
    at := FilterPicks(InFlow(Keys.Join(kind, id)), views);
    forall k ensures k in at <==> InFlowOf(t, n, records, k, kind, id) {
      FlowMeans(t, n, records, k, kind, id);
      if k in at {
        var i :| 0 <= i < |at| && at[i] == k;
      }
    }
  }

  ghost function Member(t: Text, n: FieldNames, records: seq<GraphRecord>, kind: string, id: string): int -> bool {
    (k: int) => InFlowOf(t, n, records, k, kind, id)
  }

  /** Consecutive records of a flow are the neighbours among its positions. */
  lemma FollowsIff(t: Text, n: FieldNames, records: seq<GraphRecord>, kind: string, id: string, at: seq<int>, i: nat,
                   h: int)
    requires FlowAt(t, n, records, kind, id, at) && i < |at|
    ensures Follows(t, n, records, h, at[i], kind, id) <==> i > 0 && h == at[i - 1]
  {
    assert at[i] in at;
    Neighbours(at, Member(t, n, records, kind, id), i, h);
  }

  /** The flow's views are those at its positions. */
  ghost predicate FlowViews(t: Text, records: seq<GraphRecord>, f: seq<View>, at: seq<int>) {
    |f| == |at| && forall i :: 0 <= i < |at| ==> 0 <= at[i] < |records| && f[i] == ViewsOf(t, records)[at[i]]
  }

  lemma AdjacentIff(t: Text, n: FieldNames, records: seq<GraphRecord>, kind: string, id: string, at: seq<int>,
                    f: seq<View>, i: nat, e: Transition, h: int)
    requires n == InUse() && FlowAt(t, n, records, kind, id, at) && FlowViews(t, records, f, at) && i < |at|
    ensures Passes(t, n, records, h, at[i], kind, id, e.0, e.1) <==> i > 0 && h == at[i - 1] && AdjacentAt(f, i, e)
  {
    FollowsIff(t, n, records, kind, id, at, i, h);
    ViewMeans(t, n, records, at[i]);
    if i > 0 {
      ViewMeans(t, n, records, at[i - 1]);
    }
  }

  lemma ExplicitIff(t: Text, n: FieldNames, records: seq<GraphRecord>, i: nat, e: Transition)
    requires n == InUse() && i < |records| && ServiceOf(t, records[i]) != ""
    ensures Calls(t, n, records[i], e.0, e.1) <==> ExplicitAt(ViewsOf(t, records)[i], e)
  {
    ViewMeans(t, n, records, i);
  }

  lemma FailedViews(t: Text, n: FieldNames, records: seq<GraphRecord>, at: seq<int>, f: seq<View>)
    requires n == InUse() && FlowViews(t, records, f, at)
    ensures forall i :: 0 <= i < |f| ==> (f[i].isError <==> Failed(t, records[at[i]]))
  {
    forall i | 0 <= i < |f| ensures f[i].isError <==> Failed(t, records[at[i]]) {
      ViewMeans(t, n, records, at[i]);
    }
  }

  lemma PassingIff(t: Text, n: FieldNames, records: seq<GraphRecord>, kind: string, id: string, at: seq<int>,
                   f: seq<View>, i: nat, e: Transition)
    requires n == InUse() && FlowAt(t, n, records, kind, id, at) && FlowViews(t, records, f, at) && i < |at|
    ensures (exists h :: Passes(t, n, records, h, at[i], kind, id, e.0, e.1)) <==> AdjacentAt(f, i, e)
  {
    if h :| Passes(t, n, records, h, at[i], kind, id, e.0, e.1) {
      AdjacentIff(t, n, records, kind, id, at, f, i, e, h);
    }
    if AdjacentAt(f, i, e) {
      AdjacentIff(t, n, records, kind, id, at, f, i, e, at[i - 1]);
    }
  }

  lemma TransitionIff(t: Text, n: FieldNames, records: seq<GraphRecord>, kind: string, id: string, at: seq<int>,
                      f: seq<View>, i: nat, e: Transition)
    requires n == InUse() && FlowAt(t, n, records, kind, id, at) && FlowViews(t, records, f, at) && i < |at|
    ensures GoesAt(t, n, records, at[i], kind, id, e.0, e.1) <==> TransitionAt(f, i, e)
  {
    assert at[i] in at;
    ExplicitIff(t, n, records, at[i], e);
    PassingIff(t, n, records, kind, id, at, f, i, e);
  }

  /** The flow goes from a to b somewhere; at a failed record; between two failed records. */
  ghost predicate Goes(t: Text, n: FieldNames, records: seq<GraphRecord>, kind: string, id: string, a: string,
                       b: string)
  {
    exists i :: GoesAt(t, n, records, i, kind, id, a, b)
  }

  ghost predicate GoesFailing(t: Text, n: FieldNames, records: seq<GraphRecord>, kind: string, id: string, a: string,
                              b: string)
  {
    exists i :: GoesAt(t, n, records, i, kind, id, a, b) && Failed(t, records[i])
  }

  ghost predicate PassesFailure(t: Text, n: FieldNames, records: seq<GraphRecord>, kind: string, id: string, a: string,
                                b: string)
  {
    exists h, i :: Passes(t, n, records, h, i, kind, id, a, b) && Failed(t, records[h]) && Failed(t, records[i])
  }

  lemma GoesIff(t: Text, n: FieldNames, records: seq<GraphRecord>, kind: string, id: string, e: Transition)
    requires n == InUse() && ':' !in kind
    ensures Goes(t, n, records, kind, id, e.0, e.1) <==> HasEdge(Flow(ViewsOf(t, records), Keys.Join(kind, id)), e)
  {
    var at := FlowPositions(t, n, records, kind, id);
    var f := Flow(ViewsOf(t, records), Keys.Join(kind, id));
    if k :| GoesAt(t, n, records, k, kind, id, e.0, e.1) {
      assert k in at;
      var i :| 0 <= i < |at| && at[i] == k;
      TransitionIff(t, n, records, kind, id, at, f, i, e);
    }
    if i :| 0 <= i < |f| && TransitionAt(f, i, e) {
      TransitionIff(t, n, records, kind, id, at, f, i, e);
    }
  }

  lemma GoesFailingIff(t: Text, n: FieldNames, records: seq<GraphRecord>, kind: string, id: string, e: Transition)
    requires n == InUse() && ':' !in kind
    ensures GoesFailing(t, n, records, kind, id, e.0, e.1) <==>
            EdgeError(Flow(ViewsOf(t, records), Keys.Join(kind, id)), e)
  {
    var at := FlowPositions(t, n, records, kind, id);
    var f := Flow(ViewsOf(t, records), Keys.Join(kind, id));
    if k :| GoesAt(t, n, records, k, kind, id, e.0, e.1) && Failed(t, records[k]) {
      assert k in at;
      var i :| 0 <= i < |at| && at[i] == k;
      TransitionIff(t, n, records, kind, id, at, f, i, e);
      FailedViews(t, n, records, at, f);
    }
    if i :| 0 <= i < |f| && TransitionAt(f, i, e) && f[i].isError {
      TransitionIff(t, n, records, kind, id, at, f, i, e);
      FailedViews(t, n, records, at, f);
    }
  }

  lemma PassesFailureIff(t: Text, n: FieldNames, records: seq<GraphRecord>, kind: string, id: string, e: Transition)
    requires n == InUse() && ':' !in kind
    ensures PassesFailure(t, n, records, kind, id, e.0, e.1) <==>
            EdgePropagated(Flow(ViewsOf(t, records), Keys.Join(kind, id)), e)
  {
    var at := FlowPositions(t, n, records, kind, id);
    var f := Flow(ViewsOf(t, records), Keys.Join(kind, id));
    if h, k :| Passes(t, n, records, h, k, kind, id, e.0, e.1) && Failed(t, records[h]) && Failed(t, records[k]) {
      assert k in at;
      var i :| 0 <= i < |at| && at[i] == k;
      AdjacentIff(t, n, records, kind, id, at, f, i, e, h);
      FailedViews(t, n, records, at, f);
    }
    if i :| 0 <= i < |f| && AdjacentAt(f, i, e) && f[i - 1].isError && f[i].isError {
      AdjacentIff(t, n, records, kind, id, at, f, i, e, at[i - 1]);
      FailedViews(t, n, records, at, f);
    }
  }

  // ----- flows by kind and id

  lemma FirstIsPlain(session: string, request: string, trace: string, user: string, kind: string, id: string)
    requires FirstOf(session, request, trace, user, kind, id)
    ensures ':' !in kind
  {
  }

  lemma PlainKind(t: Text, n: FieldNames, r: GraphRecord, kind: string, id: string)
    requires IdentifiedBy(t, n, r, kind, id)
    ensures ':' !in kind
  {
    var session, request, user :|
      && Reads(t, r, n.session, session) && Reads(t, r, n.request, request) && Reads(t, r, n.user, user)
      && FirstOf(session, request, r.traceId, user, kind, id);
    FirstIsPlain(session, request, r.traceId, user, kind, id);
  }

  lemma KeyIff(t: Text, n: FieldNames, records: seq<GraphRecord>, kind: string, id: string)
    requires n == InUse() && ':' !in kind
    ensures Keys.Join(kind, id) in FlowKeys(ViewsOf(t, records)) <==> exists i :: InFlowOf(t, n, records, i, kind, id)
  {
    var views, key := ViewsOf(t, records), Keys.Join(kind, id);
    if key in FlowKeys(views) {
      var v :| v in views && v.service != "" && v.flowKey == key;
      var i :| 0 <= i < |views| && views[i] == v;
      FlowMeans(t, n, records, i, kind, id);
    }
    if i :| InFlowOf(t, n, records, i, kind, id) {
      FlowMeans(t, n, records, i, kind, id);
      assert views[i] in views && key != "";
    }
  }

  lemma {:induction false} ImageSize<A, B>(s: set<A>, f: A -> B) returns (image: set<B>)
    requires forall x, y :: x in s && y in s && f(x) == f(y) ==> x == y
    ensures |image| == |s|
    ensures forall x :: x in s ==> f(x) in image
    ensures forall y :: y in image ==> exists x :: x in s && f(x) == y
  {
    image := {};
    if s != {} {
      var x :| x in s;
      var rest := ImageSize(s - {x}, f);
      image := rest + {f(x)};
    }
  }

  /** A key that is made of the parts it splits into. */
  predicate Splits(key: string) {
    ':' !in SplitFlowKey(key).0 && Keys.Join(SplitFlowKey(key).0, SplitFlowKey(key).1) == key
  }

  lemma JoinSplits(kind: string, id: string)
    requires ':' !in kind
    ensures SplitFlowKey(Keys.Join(kind, id)) == (kind, id)
  {
    Keys.SplitJoin(kind, id);
  }

  lemma PairsOfKeys(keys: set<string>) returns (flows: set<(string, string)>)
    requires forall key :: key in keys ==> Splits(key)
    ensures |flows| == |keys|
    ensures forall kind, id :: (kind, id) in flows <==> ':' !in kind && Keys.Join(kind, id) in keys
  {
    var split := (key: string) => SplitFlowKey(key);
    flows := ImageSize(keys, split);
    forall kind, id ensures (kind, id) in flows <==> ':' !in kind && Keys.Join(kind, id) in keys {
      if ':' !in kind && Keys.Join(kind, id) in keys {
        JoinSplits(kind, id);
        assert split(Keys.Join(kind, id)) == (kind, id);
      }
      if (kind, id) in flows {
        var key :| key in keys && split(key) == (kind, id);
        assert Splits(key);
      }
    }
  }

  /** As many flows as keys. */
  lemma FlowPairs(t: Text, records: seq<GraphRecord>, keys: set<string>) returns (flows: set<(string, string)>)
    requires keys <= FlowKeys(ViewsOf(t, records))
    ensures |flows| == |keys|
    ensures forall kind, id :: (kind, id) in flows <==> ':' !in kind && Keys.Join(kind, id) in keys
  {
    forall key | key in keys ensures Splits(key) {
      KeySplits(t, records, key);
    }
    flows := PairsOfKeys(keys);
  }

  lemma KeySplits(t: Text, records: seq<GraphRecord>, key: string)
    requires key in FlowKeys(ViewsOf(t, records))
    ensures Splits(key)
  {
    var r := KeyFromRecord(t, records, key);
  }

  // ----- edges

  /** An edge is in the response exactly when some flow goes that way. */
  lemma EdgeIff(t: Text, records: seq<GraphRecord>, a: string, b: string)
    ensures (exists edge :: edge in Edges(ViewsOf(t, records)) && edge.source == a && edge.target == b) <==>
            exists kind, id :: Goes(t, WrittenOut(), records, kind, id, a, b)
  {
    NamesInUse();
    EdgeIffInUse(t, InUse(), records, a, b);
  }

  lemma EdgeOfTransition(views: seq<View>, e: Transition)
    ensures (exists edge :: edge in Edges(views) && edge.source == e.0 && edge.target == e.1) <==>
            e in TransitionsIn(views, FlowKeys(views))
  {
    var es := SortedTransitions(TransitionsIn(views, FlowKeys(views)));
    if edge :| edge in Edges(views) && edge.source == e.0 && edge.target == e.1 {
      var i :| 0 <= i < |es| && Edges(views)[i] == edge;
      assert es[i] in Elements(es);
    }
    if e in TransitionsIn(views, FlowKeys(views)) {
      assert e in Elements(es);
      var i :| 0 <= i < |es| && es[i] == e;
      assert Edges(views)[i] in Edges(views);
    }
  }

  lemma EdgeIffInUse(t: Text, n: FieldNames, records: seq<GraphRecord>, a: string, b: string)
    requires n == InUse()
    ensures (exists edge :: edge in Edges(ViewsOf(t, records)) && edge.source == a && edge.target == b) <==>
            exists kind, id :: Goes(t, n, records, kind, id, a, b)
  {
    var views := ViewsOf(t, records);
    EdgeOfTransition(views, (a, b));
    if kind, id :| Goes(t, n, records, kind, id, a, b) {
      GoingKey(t, n, records, kind, id, (a, b));
      HasEdgeIffTransition(Flow(views, Keys.Join(kind, id)), (a, b));
    }
    if (a, b) in TransitionsIn(views, FlowKeys(views)) {
      var key :| key in FlowKeys(views) && (a, b) in Transitions(Flow(views, key));
      var kind, id := FlowGoes(t, n, records, key, (a, b));
    }
  }

  lemma FlowGoes(t: Text, n: FieldNames, records: seq<GraphRecord>, key: string, e: Transition)
      returns (kind: string, id: string)
    requires n == InUse() && key in FlowKeys(ViewsOf(t, records)) && e in Transitions(Flow(ViewsOf(t, records), key))
    ensures Goes(t, n, records, kind, id, e.0, e.1)
  {
    HasEdgeIffTransition(Flow(ViewsOf(t, records), key), e);
    KeySplits(t, records, key);
    kind, id := SplitFlowKey(key).0, SplitFlowKey(key).1;
    GoesIff(t, n, records, kind, id, e);
  }

  lemma GoingKey(t: Text, n: FieldNames, records: seq<GraphRecord>, kind: string, id: string, e: Transition)
    requires n == InUse() && Goes(t, n, records, kind, id, e.0, e.1)
    ensures ':' !in kind && Keys.Join(kind, id) in FlowKeys(ViewsOf(t, records))
    ensures HasEdge(Flow(ViewsOf(t, records), Keys.Join(kind, id)), e)
  {
    var i :| GoesAt(t, n, records, i, kind, id, e.0, e.1);
    PlainKind(t, n, records[i], kind, id);
    KeyIff(t, n, records, kind, id);
    GoesIff(t, n, records, kind, id, e);
  }

  ghost predicate CountedRight(t: Text, n: FieldNames, records: seq<GraphRecord>, kind: string, id: string, edge: Edge,
                               going: set<(string, string)>, failing: set<(string, string)>,
                               passing: set<(string, string)>)
  {
    && ((kind, id) in going <==> Goes(t, n, records, kind, id, edge.source, edge.target))
    && ((kind, id) in failing <==> GoesFailing(t, n, records, kind, id, edge.source, edge.target))
    && ((kind, id) in passing <==> PassesFailure(t, n, records, kind, id, edge.source, edge.target))
  }

  /** Its counts are those of the flows that go that way, that fail doing so, and that pass a failure on. */
  lemma EdgeMeans(t: Text, records: seq<GraphRecord>, edge: Edge)
      returns (going: set<(string, string)>, failing: set<(string, string)>, passing: set<(string, string)>)
    requires edge in Edges(ViewsOf(t, records))
    ensures edge.flowCount == |going| && edge.errorFlowCount == |failing| && edge.propagatedErrorCount == |passing|
    ensures forall kind, id :: CountedRight(t, WrittenOut(), records, kind, id, edge, going, failing, passing)
  {
    NamesInUse();
    var views := ViewsOf(t, records);
    var keys, es := FlowKeys(views), SortedTransitions(TransitionsIn(views, FlowKeys(views)));
    var i :| 0 <= i < |es| && Edges(views)[i] == edge;
    var e := es[i];
    going := FlowPairs(t, records, FlowsThrough(views, keys, e));
    failing := FlowPairs(t, records, FlowsFailing(views, keys, e));
    passing := FlowPairs(t, records, FlowsPropagating(views, keys, e));
    forall kind, id ensures CountedRight(t, InUse(), records, kind, id, edge, going, failing, passing) {
      EdgeFlow(t, InUse(), records, kind, id, e);
    }
  }

  lemma EdgeFlow(t: Text, n: FieldNames, records: seq<GraphRecord>, kind: string, id: string, e: Transition)
    requires n == InUse()
    ensures var views := ViewsOf(t, records);
            var keys, key := FlowKeys(views), Keys.Join(kind, id);
            && (Goes(t, n, records, kind, id, e.0, e.1) <==> ':' !in kind && key in FlowsThrough(views, keys, e))
            && (GoesFailing(t, n, records, kind, id, e.0, e.1) <==>
                  ':' !in kind && key in FlowsFailing(views, keys, e))
            && (PassesFailure(t, n, records, kind, id, e.0, e.1) <==>
                  ':' !in kind && key in FlowsPropagating(views, keys, e))
  {
    if h, i :| Passes(t, n, records, h, i, kind, id, e.0, e.1) && Failed(t, records[h]) && Failed(t, records[i]) {
      assert GoesAt(t, n, records, i, kind, id, e.0, e.1);
    }
    if i :| GoesAt(t, n, records, i, kind, id, e.0, e.1) && Failed(t, records[i]) {
      assert Goes(t, n, records, kind, id, e.0, e.1);
    }
    if Goes(t, n, records, kind, id, e.0, e.1) {
      GoingKey(t, n, records, kind, id, e);
    }
    if ':' !in kind {
      GoesIff(t, n, records, kind, id, e);
      GoesFailingIff(t, n, records, kind, id, e);
      PassesFailureIff(t, n, records, kind, id, e);
    }
  }

  // ----- nodes

  /** The record is of the service, or names it as its caller or callee. */
  ghost predicate Touches(t: Text, n: FieldNames, r: GraphRecord, service: string) {
    service != "" &&
    (ServiceOf(t, r) == service || NamesService(t, r, n.upstream, service) || NamesService(t, r, n.downstream, service))
  }

  ghost predicate TakesPart(t: Text, n: FieldNames, records: seq<GraphRecord>, kind: string, id: string,
                            service: string)
  {
    exists i :: InFlowOf(t, n, records, i, kind, id) && Touches(t, n, records[i], service)
  }

  ghost function RecordsOf(t: Text, records: seq<GraphRecord>, service: string): set<int> {
    set k | 0 <= k < |records| && ServiceOf(t, records[k]) == service
  }

  ghost function FailuresOf(t: Text, records: seq<GraphRecord>, service: string): set<int> {
    set k | 0 <= k < |records| && ServiceOf(t, records[k]) == service && Failed(t, records[k])
  }

  lemma {:induction false} SeenIff(f: seq<View>, service: string)
    ensures service in Seen(f) <==> exists i :: 0 <= i < |f| && service in NamedBy(f[i])
  {
    if f != [] {
      var n := |f| - 1;
      SeenIff(f[..n], service);
      if i :| 0 <= i < |f| && service in NamedBy(f[i]) {
        assert i < n ==> f[..n][i] == f[i];
      }
    }
  }

  lemma TouchesIff(t: Text, n: FieldNames, records: seq<GraphRecord>, i: nat, service: string)
    requires n == InUse() && i < |records| && service != ""
    ensures Touches(t, n, records[i], service) <==> service in NamedBy(ViewsOf(t, records)[i])
  {
    ViewMeans(t, n, records, i);
  }

  lemma TakesPartIff(t: Text, n: FieldNames, records: seq<GraphRecord>, kind: string, id: string, service: string)
    requires n == InUse() && ':' !in kind && service != ""
    ensures TakesPart(t, n, records, kind, id, service) <==>
            service in Seen(Flow(ViewsOf(t, records), Keys.Join(kind, id)))
  {
    var at := FlowPositions(t, n, records, kind, id);
    var f := Flow(ViewsOf(t, records), Keys.Join(kind, id));
    SeenIff(f, service);
    if k :| InFlowOf(t, n, records, k, kind, id) && Touches(t, n, records[k], service) {
      assert k in at;
      var i :| 0 <= i < |at| && at[i] == k;
      TouchesIff(t, n, records, k, service);
      assert service in NamedBy(f[i]);
    }
    if i :| 0 <= i < |f| && service in NamedBy(f[i]) {
      TouchesIff(t, n, records, at[i], service);
      assert at[i] in at;
    }
  }

  lemma SeeingIff(t: Text, n: FieldNames, records: seq<GraphRecord>, kind: string, id: string, service: string)
    requires n == InUse() && service != ""
    ensures TakesPart(t, n, records, kind, id, service) <==>
            var views := ViewsOf(t, records);
            ':' !in kind && Keys.Join(kind, id) in FlowsSeeing(views, FlowKeys(views), service)
  {
    if i :| InFlowOf(t, n, records, i, kind, id) && Touches(t, n, records[i], service) {
      PlainKind(t, n, records[i], kind, id);
      KeyIff(t, n, records, kind, id);
    }
    if ':' !in kind {
      TakesPartIff(t, n, records, kind, id, service);
    }
  }

  lemma ServicesAndFailures(t: Text, records: seq<GraphRecord>)
    ensures forall k :: 0 <= k < |records| ==>
              && ViewsOf(t, records)[k].service == ServiceOf(t, records[k])
              && (ViewsOf(t, records)[k].isError <==> Failed(t, records[k]))
  {
    forall k | 0 <= k < |records|
      ensures ViewsOf(t, records)[k].service == ServiceOf(t, records[k])
      ensures ViewsOf(t, records)[k].isError <==> Failed(t, records[k])
    {
      ViewMeans(t, InUse(), records, k);
    }
  }

  lemma LogsCounted(t: Text, records: seq<GraphRecord>, service: string)
    requires service != ""
    ensures |Filter(OfService(service), ViewsOf(t, records))| == |RecordsOf(t, records, service)|
    ensures |Filter(ErrorOf(service), ViewsOf(t, records))| == |FailuresOf(t, records, service)|
  {
    var views := ViewsOf(t, records);
    ServicesAndFailures(t, records);
    FilterCount(OfService(service), views);
    FilterCount(ErrorOf(service), views);
    assert PositionsOf(views, OfService(service)) == RecordsOf(t, records, service);
    assert PositionsOf(views, ErrorOf(service)) == FailuresOf(t, records, service);
  }

  /** A node counts the records and the failed records of its service, and the flows the service takes part in. */
  lemma NodeMeans(t: Text, records: seq<GraphRecord>, node: Node) returns (flows: set<(string, string)>)
    requires node in Nodes(ViewsOf(t, records))
    ensures node.service != "" && node.logCount == |RecordsOf(t, records, node.service)|
    ensures node.errorCount == |FailuresOf(t, records, node.service)| && node.flowCount == |flows|
    ensures forall kind, id ::
              (kind, id) in flows <==> TakesPart(t, WrittenOut(), records, kind, id, node.service)
  {
    NamesInUse();
    var views := ViewsOf(t, records);
    var keys := FlowKeys(views);
    var services := SortedStrings(LoggingServices(views) + SeenIn(views, keys));
    var i :| 0 <= i < |services| && Nodes(views)[i] == node;
    assert services[i] in Elements(services);
    ServicesNamed(views, services[i]);
    LogsCounted(t, records, services[i]);
    flows := FlowPairs(t, records, FlowsSeeing(views, keys, services[i]));
    forall kind, id ensures (kind, id) in flows <==> TakesPart(t, InUse(), records, kind, id, services[i]) {
      SeeingIff(t, InUse(), records, kind, id, services[i]);
    }
  }

  lemma NodeOfService(views: seq<View>, service: string)
    ensures (exists node :: node in Nodes(views) && node.service == service) <==>
            service in LoggingServices(views) + SeenIn(views, FlowKeys(views))
  {
    var services := SortedStrings(LoggingServices(views) + SeenIn(views, FlowKeys(views)));
    if node :| node in Nodes(views) && node.service == service {
      var i :| 0 <= i < |services| && Nodes(views)[i] == node;
      assert services[i] in Elements(services);
    }
    if service in LoggingServices(views) + SeenIn(views, FlowKeys(views)) {
      assert service in Elements(services);
      var i :| 0 <= i < |services| && services[i] == service;
      assert Nodes(views)[i] in Nodes(views);
    }
  }

  /** There is a node for exactly the services with a record and those that a record of some flow names. */
  lemma NodeIff(t: Text, records: seq<GraphRecord>, service: string)
    ensures (exists node :: node in Nodes(ViewsOf(t, records)) && node.service == service) <==>
            && service != ""
            && (RecordsOf(t, records, service) != {}
                || exists kind, id :: TakesPart(t, WrittenOut(), records, kind, id, service))
  {
    NamesInUse();
    var views := ViewsOf(t, records);
    NodeOfService(views, service);
    if service != "" {
      LoggingIff(t, records, service);
      SeenInIff(t, InUse(), records, service);
    } else if service in LoggingServices(views) + SeenIn(views, FlowKeys(views)) {
      ServicesNamed(views, service);
    }
  }

  lemma LoggingIff(t: Text, records: seq<GraphRecord>, service: string)
    requires service != ""
    ensures service in LoggingServices(ViewsOf(t, records)) <==> RecordsOf(t, records, service) != {}
  {
    LogsCounted(t, records, service);
    LoggingFilter(ViewsOf(t, records), service);
  }

  lemma LoggingFilter(views: seq<View>, service: string)
    requires service != ""
    ensures service in LoggingServices(views) <==> |Filter(OfService(service), views)| != 0
  {
    FilterEmpty(OfService(service), views);
  }

  lemma SeenInIff(t: Text, n: FieldNames, records: seq<GraphRecord>, service: string)
    requires n == InUse() && service != ""
    ensures service in SeenIn(ViewsOf(t, records), FlowKeys(ViewsOf(t, records))) <==>
            exists kind, id :: TakesPart(t, n, records, kind, id, service)
  {
    var views := ViewsOf(t, records);
    if kind, id :| TakesPart(t, n, records, kind, id, service) {
      SeeingIff(t, n, records, kind, id, service);
    }
    if service in SeenIn(views, FlowKeys(views)) {
      var key :| key in FlowKeys(views) && service in Seen(Flow(views, key));
      KeySplits(t, records, key);
      SeeingIff(t, n, records, SplitFlowKey(key).0, SplitFlowKey(key).1, service);
    }
  }
}

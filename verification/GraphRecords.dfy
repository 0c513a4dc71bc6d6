/** What the service graph of internal/queryapi/graph.go reads off one record. */
module GraphRecords {
  import opened Wrappers
  import opened Sequences
  import opened Ordering
  import opened Fields
  import Keys

  /** Field values are already printed as text. */
  datatype GraphRecord = GraphRecord(timestamp: int, service: string, level: string, traceId: string,
                                     fields: map<string, string>)

  /** The derived facts the graph is built from. */
  datatype View = View(at: int, service: string, isError: bool, flowKey: string, traceId: string, userId: string,
                       upstream: string, downstream: string)

  const SESSION_FIELDS := ["session_id", "sessionid", "session-id"]
  const REQUEST_FIELDS := ["request_id", "requestid", "request-id", "correlation_id"]
  const USER_FIELDS := ["user_id", "userid", "user-id"]
  const UPSTREAM_FIELDS := ["upstream_service", "upstream.service", "caller_service"]
  const DOWNSTREAM_FIELDS := ["downstream_service", "downstream.service", "peer_service", "target_service"]

  function NormalizeService(t: Text, value: string): string {
    t.lower(t.trim(value))
  }

  predicate IsErrorLevel(t: Text, level: string) {
    t.lower(t.trim(level)) in {"error", "fatal", "critical", "panic"}
  }

  function WithoutSeparators(s: string): string {
    if s == "" then ""
    else (if s[0] == '_' || s[0] == '-' || s[0] == '.' then "" else [s[0]]) + WithoutSeparators(s[1..])
  }

  function NormalizeFieldKey(t: Text, value: string): string {
    WithoutSeparators(t.lower(t.trim(value)))
  }

  function KeyNorm(t: Text): string -> string {
    (key: string) => NormalizeFieldKey(t, key)
  }

  /** The trimmed value of the least matching key; blank when there is none. */
  ghost function Field(t: Text, fields: map<string, string>, names: seq<string>): string {
    match FirstValue(KeyNorm(t), fields, names)
    case None => ""
    case Some(value) => t.trim(value)
  }

  method LookupField(t: Text, fields: map<string, string>, names: seq<string>) returns (value: string)
    ensures value == Field(t, fields, names)
  {
    var first := LookupFirst(KeyNorm(t), fields, names);
    value := if first.Some? then t.trim(first.value) else "";
  }

  /** The first identifier that is present decides the kind. */
  function FirstIdentifier(session: string, request: string, trace: string, user: string): Option<(string, string)> {
    if session != "" then Some(("session", session))
    else if request != "" then Some(("request", request))
    else if trace != "" then Some(("trace", trace))
    else if user != "" then Some(("user", user))
    else None
  }

  /** The correlation a record belongs to: its kind and id, if any. */
  ghost function FlowOf(t: Text, r: GraphRecord): Option<(string, string)> {
    FirstIdentifier(Field(t, r.fields, SESSION_FIELDS), Field(t, r.fields, REQUEST_FIELDS), r.traceId,
                    Field(t, r.fields, USER_FIELDS))
  }

  function FlowKey(flow: Option<(string, string)>): string {
    match flow
    case None => ""
    case Some((kind, id)) => Keys.Join(kind, id)
  }

  ghost function FlowKeyOf(t: Text, r: GraphRecord): string {
    FlowKey(FlowOf(t, r))
  }

  ghost function ViewOf(t: Text, r: GraphRecord): View {
    View(r.timestamp, NormalizeService(t, r.service), IsErrorLevel(t, r.level), FlowKeyOf(t, r), r.traceId,
         Field(t, r.fields, USER_FIELDS),
         NormalizeService(t, Field(t, r.fields, UPSTREAM_FIELDS)),
         NormalizeService(t, Field(t, r.fields, DOWNSTREAM_FIELDS)))
  }

  method FlowIdentity(t: Text, r: GraphRecord, sessionNames: seq<string>, requestNames: seq<string>,
                      userNames: seq<string>) returns (key: string, kind: string)
    ensures
      var flow := FirstIdentifier(Field(t, r.fields, sessionNames), Field(t, r.fields, requestNames), r.traceId,
                                  Field(t, r.fields, userNames));
      key == FlowKey(flow) && kind == if flow.Some? then flow.value.0 else ""
  {
    var session := LookupField(t, r.fields, sessionNames);
    if session != "" { return Keys.Join("session", session), "session"; }
    var request := LookupField(t, r.fields, requestNames);
    if request != "" { return Keys.Join("request", request), "request"; }
    if r.traceId != "" { return Keys.Join("trace", r.traceId), "trace"; }
    var user := LookupField(t, r.fields, userNames);
    if user != "" { return Keys.Join("user", user), "user"; }
    return "", "";
  }

  method Inspect(t: Text, r: GraphRecord) returns (v: View)
    ensures v == ViewOf(t, r)
  {
    var key, _ := FlowIdentity(t, r, SESSION_FIELDS, REQUEST_FIELDS, USER_FIELDS);
    var user := LookupField(t, r.fields, USER_FIELDS);
    var upstream := LookupField(t, r.fields, UPSTREAM_FIELDS);
    var downstream := LookupField(t, r.fields, DOWNSTREAM_FIELDS);
    v := View(r.timestamp, NormalizeService(t, r.service), IsErrorLevel(t, r.level), key, r.traceId, user,
              NormalizeService(t, upstream), NormalizeService(t, downstream));
  }

  ghost function ViewBy(t: Text): GraphRecord -> View {
    (r: GraphRecord) => ViewOf(t, r)
  }

  ghost function ViewsOf(t: Text, records: seq<GraphRecord>): seq<View> {
    Image(ViewBy(t), records)
  }

  method InspectAll(t: Text, records: seq<GraphRecord>) returns (views: seq<View>)
    ensures views == ViewsOf(t, records)
  {
    views := [];
    for i := 0 to |records|
      invariant views == Image(ViewBy(t), records[..i])
    {
      var v := Inspect(t, records[i]);
      ImagePrefix(ViewBy(t), records, i);
      views := views + [v];
    }
    assert records[..|records|] == records;
  }

  function SplitFlowKey(key: string): (string, string) {
    match Keys.Split(key)
    case None => ("flow", key)
    case Some(parts) => parts
  }

  /** A flow key gives back the kind and the id it was made from, colons in the id included, so two
      records share a flow exactly when they share both. */
  lemma FlowKeysFaithful(t: Text, r: GraphRecord, s: GraphRecord)
    ensures FlowOf(t, r).Some? ==> FlowKeyOf(t, r) != "" && SplitFlowKey(FlowKeyOf(t, r)) == FlowOf(t, r).value
    ensures FlowKeyOf(t, r) == FlowKeyOf(t, s) <==> FlowOf(t, r) == FlowOf(t, s)
  {
    FlowKeySplits(FlowOf(t, r));
    FlowKeySplits(FlowOf(t, s));
  }

  lemma FlowKeySplits(flow: Option<(string, string)>)
    requires flow.Some? ==> ':' !in flow.value.0
    ensures flow.Some? ==> FlowKey(flow) != "" && SplitFlowKey(FlowKey(flow)) == flow.value
  {
    if flow.Some? {
      Keys.SplitJoin(flow.value.0, flow.value.1);
    }
  }
}

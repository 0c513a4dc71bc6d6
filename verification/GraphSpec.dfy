/** The service graph declaratively: nodes, edges and sessions as counts over flows. */
module GraphSpec {
  import opened Wrappers
  import opened Sequences
  import opened Ordering
  import opened Fields
  import opened GraphRecords

  datatype Node = Node(service: string, logCount: nat, errorCount: nat, flowCount: nat)
  datatype Edge = Edge(source: string, target: string, flowCount: nat, errorFlowCount: nat, propagatedErrorCount: nat)
  datatype Session = Session(id: string, kind: string, userId: string, traceIds: seq<string>, services: seq<string>,
                             startedAt: int, endedAt: int, logCount: nat, errorCount: nat)

  type Transition = (string, string)

  // ----- flows

  function InFlow(key: string): View -> bool {
    (v: View) => v.service != "" && v.flowKey == key
  }

  /** The records of one flow, in time order. */
  function Flow(views: seq<View>, key: string): seq<View> {
    Filter(InFlow(key), views)
  }

  function FlowKeys(views: seq<View>): set<string> {
    set v | v in views && v.service != "" && v.flowKey != "" :: v.flowKey
  }

  // ----- transitions of one flow

  /** The record names its caller or its callee. */
  predicate ExplicitAt(v: View, e: Transition) {
    || (v.upstream != "" && v.upstream != v.service && e == (v.upstream, v.service))
    || (v.downstream != "" && v.downstream != v.service && e == (v.service, v.downstream))
  }

  /** The record directly before it in the flow came from another service. */
  predicate AdjacentAt(f: seq<View>, i: nat, e: Transition)
    requires i < |f|
  {
    i > 0 && f[i - 1].service != f[i].service && e == (f[i - 1].service, f[i].service)
  }

  predicate TransitionAt(f: seq<View>, i: nat, e: Transition)
    requires i < |f|
  {
    ExplicitAt(f[i], e) || AdjacentAt(f, i, e)
  }

  predicate HasEdge(f: seq<View>, e: Transition) {
    exists i :: 0 <= i < |f| && TransitionAt(f, i, e)
  }

  predicate EdgeError(f: seq<View>, e: Transition) {
    exists i :: 0 <= i < |f| && TransitionAt(f, i, e) && f[i].isError
  }

  /** Two consecutive records of the flow, on either side of the transition, are both errors. */
  predicate EdgePropagated(f: seq<View>, e: Transition) {
    exists i :: 0 <= i < |f| && AdjacentAt(f, i, e) && f[i - 1].isError && f[i].isError
  }

  function NamedBy(v: View): set<string> {
    {v.service} +
    (if v.upstream != "" && v.upstream != v.service then {v.upstream} else {}) +
    (if v.downstream != "" && v.downstream != v.service then {v.downstream} else {})
  }

  /** The services taking part in a flow, named ones included. */
  function Seen(f: seq<View>): set<string> {
    if f == [] then {} else Seen(f[..|f| - 1]) + NamedBy(f[|f| - 1])
  }

  function TransitionsOf(v: View): set<Transition> {
    (if v.upstream != "" && v.upstream != v.service then {(v.upstream, v.service)} else {}) +
    (if v.downstream != "" && v.downstream != v.service then {(v.service, v.downstream)} else {})
  }

  function Transitions(f: seq<View>): set<Transition> {
    if f == [] then {}
    else
      var n := |f| - 1;
      Transitions(f[..n]) + TransitionsOf(f[n]) +
      if n > 0 && f[n - 1].service != f[n].service then {(f[n - 1].service, f[n].service)} else {}
  }

  // ----- counting flows

  function FlowsThrough(views: seq<View>, keys: set<string>, e: Transition): set<string> {
    set k | k in keys && HasEdge(Flow(views, k), e)
  }

  function FlowsFailing(views: seq<View>, keys: set<string>, e: Transition): set<string> {
    set k | k in keys && EdgeError(Flow(views, k), e)
  }

  function FlowsPropagating(views: seq<View>, keys: set<string>, e: Transition): set<string> {
    set k | k in keys && EdgePropagated(Flow(views, k), e)
  }

  function FlowsSeeing(views: seq<View>, keys: set<string>, service: string): set<string> {
    set k | k in keys && service in Seen(Flow(views, k))
  }

  function EdgeFor(views: seq<View>, keys: set<string>, e: Transition): Edge {
    Edge(e.0, e.1, |FlowsThrough(views, keys, e)|, |FlowsFailing(views, keys, e)|, |FlowsPropagating(views, keys, e)|)
  }

  function OfService(service: string): View -> bool {
    (v: View) => v.service != "" && v.service == service
  }

  function ErrorOf(service: string): View -> bool {
    (v: View) => v.service != "" && v.service == service && v.isError
  }

  function NodeFor(views: seq<View>, keys: set<string>, service: string): Node {
    Node(service, |Filter(OfService(service), views)|, |Filter(ErrorOf(service), views)|,
         |FlowsSeeing(views, keys, service)|)
  }

  function LoggingServices(views: seq<View>): set<string> {
    set v | v in views && v.service != "" :: v.service
  }

  function SeenIn(views: seq<View>, keys: set<string>): set<string> {
    set k, s | k in keys && s in Seen(Flow(views, k)) :: s
  }

  function TransitionsIn(views: seq<View>, keys: set<string>): set<Transition> {
    set k, e | k in keys && e in Transitions(Flow(views, k)) :: e
  }

  function TraceIds(f: seq<View>): set<string> {
    set v | v in f && v.traceId != "" :: v.traceId
  }

  /** The first user id that any record of the flow carries. */
  function FirstUser(f: seq<View>): string {
    if f == [] then ""
    else if FirstUser(f[..|f| - 1]) != "" then FirstUser(f[..|f| - 1])
    else f[|f| - 1].userId
  }

  function IsError(): View -> bool {
    (v: View) => v.isError
  }

  ghost function SortedStrings(s: set<string>): (xs: seq<string>)
    ensures Ascending(Below, xs) && Elements(xs) == s
  {
    BelowIsStrictOrder();
    Sorted(Below, s)
  }

  ghost function SessionFor(views: seq<View>, key: string): Session
    requires Flow(views, key) != []
  {
    var f := Flow(views, key);
    var (kind, id) := SplitFlowKey(key);
    Session(id, kind, FirstUser(f), SortedStrings(TraceIds(f)), SortedStrings(Seen(f) - {""}),
            f[0].at, f[|f| - 1].at, |f|, |Filter(IsError(), f)|)
  }

  // ----- the response

  predicate TransitionBelow(a: Transition, b: Transition) {
    if a.0 != b.0 then Below(a.0, b.0) else Below(a.1, b.1)
  }

  lemma {:induction false} TransitionBelowIsStrictOrder()
    ensures StrictOrder(TransitionBelow)
  {
    BelowIsStrictOrder();
  }

  function NodeBy(views: seq<View>, keys: set<string>): string -> Node {
    (s: string) => NodeFor(views, keys, s)
  }

  function EdgeBy(views: seq<View>, keys: set<string>): Transition -> Edge {
    (e: Transition) => EdgeFor(views, keys, e)
  }

  ghost function Nodes(views: seq<View>): seq<Node> {
    Image(NodeBy(views, FlowKeys(views)), SortedStrings(LoggingServices(views) + SeenIn(views, FlowKeys(views))))
  }

  ghost function SortedTransitions(s: set<Transition>): (xs: seq<Transition>)
    ensures Ascending(TransitionBelow, xs) && Elements(xs) == s
  {
    TransitionBelowIsStrictOrder();
    Sorted(TransitionBelow, s)
  }

  ghost function Edges(views: seq<View>): seq<Edge> {
    Image(EdgeBy(views, FlowKeys(views)), SortedTransitions(TransitionsIn(views, FlowKeys(views))))
  }

  lemma FlowNonEmpty(views: seq<View>, key: string)
    requires key in FlowKeys(views)
    ensures Flow(views, key) != []
  {
    var v :| v in views && v.service != "" && v.flowKey == key;
    FilterMember(InFlow(key), views, v);
  }

  ghost function SessionsFor(views: seq<View>, keys: seq<string>): (ss: seq<Session>)
    requires Elements(keys) <= FlowKeys(views)
    ensures |ss| == |keys|
  {
    if keys == [] then []
    else
      var n := |keys| - 1;
      assert keys[n] in Elements(keys);
      assert Elements(keys[..n]) <= Elements(keys);
      FlowNonEmpty(views, keys[n]);
      SessionsFor(views, keys[..n]) + [SessionFor(views, keys[n])]
  }

  /** Latest start first, then by id; sessions agreeing on both may come in any order. */
  predicate SessionBefore(a: Session, b: Session) {
    a.startedAt > b.startedAt || (a.startedAt == b.startedAt && (a.id == b.id || Below(a.id, b.id)))
  }

  ghost predicate SessionList(views: seq<View>, sessions: seq<Session>, keys: seq<string>) {
    && Elements(keys) == FlowKeys(views)
    && (forall i, j :: 0 <= i < j < |keys| ==> keys[i] != keys[j])
    && multiset(sessions) == multiset(SessionsFor(views, keys))
    && forall i, j :: 0 <= i < j < |sessions| ==> SessionBefore(sessions[i], sessions[j])
  }

  /** One session per flow, in the response's order. */
  ghost predicate IsSessionList(views: seq<View>, sessions: seq<Session>) {
    exists keys :: SessionList(views, sessions, keys)
  }
}

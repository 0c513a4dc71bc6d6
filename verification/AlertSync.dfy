/** SyncAlertState of internal/alerts/state.go as one transaction over the alert tables, against a
    specification that looks at one alert key at a time. */
module AlertSync {
  import opened Wrappers
  import opened Sequences
  import opened Evaluation
  import opened AlertStore

  /** alert_instances by primary key, alert_events, and the enqueued notification_deliveries. */
  datatype Store = Store(rows: map<int, Instance>, nextId: int, events: seq<Event>, deliveries: seq<Event>)

  ghost predicate UniqueKeys(rows: map<int, Instance>) {
    forall i, j :: i in rows && j in rows && rows[i].key == rows[j].key ==> i == j
  }

  ghost predicate Valid(s: Store) {
    && UniqueKeys(s.rows)
    && (forall id :: id in s.rows ==> s.rows[id].id == id && id < s.nextId && !s.rows[id].status.Inactive?)
  }

  /** The instance of a key, if it has one. */
  ghost function At(rows: map<int, Instance>, key: Key): (i: Option<Instance>)
    ensures i.Some? ==> i.value.key == key
    ensures i.None? <==> forall id :: id in rows ==> rows[id].key != key
  {
    if exists id :: id in rows && rows[id].key == key
    then
      var id :| id in rows && rows[id].key == key;
      Some(rows[id])
    else None
  }

  lemma AtRow(rows: map<int, Instance>, id: int)
    requires UniqueKeys(rows) && id in rows
    ensures At(rows, rows[id].key) == Some(rows[id])
  {
  }

  // ----- the specification, one key at a time

  /** What a sync makes of one key: its instance afterwards and the kind of its event, if any. */
  function KeyNext(key: Key, before: Option<Instance>, rule: Option<Rule>, fired: bool, id: int, now: int):
    (Option<Instance>, Option<EventKind>)
  {
    if rule.None? then (before, None)
    else if fired then
      var (instance, kind) := Fired(rule.value, key, before, now);
      (Some(if before.None? then instance.(id := id) else instance), Some(kind))
    else if before.Some? && before.value.status.Firing? then (Some(Quiet(before.value, now)), Some(ResolvedEvent))
    else (before, None)
  }

  function OfKey(key: Key): Event -> bool {
    (e: Event) => e.key == key
  }

  function Notifies(): Event -> bool {
    (e: Event) => e.kind.TriggeredEvent? || e.kind.ResolvedEvent?
  }

  ghost predicate KeyStep(key: Key, before: Option<Instance>, after: Option<Instance>, events: seq<Event>,
                          rule: Option<Rule>, fired: bool, now: int)
  {
    var (instance, kind) := KeyNext(key, before, rule, fired, if after.Some? then after.value.id else 0, now);
    && after == instance
    && events == match kind
       case None => []
       case Some(k) => if after.Some? then [Event(after.value.id, key, k, now)] else []
  }

  /** A committed sync: every key takes its own step, and the deliveries are the notifying events. */
  ghost predicate SyncStep(before: Store, after: Store, added: seq<Event>, rules: seq<Rule>, triggers: seq<Trigger>,
                           now: int)
  {
    && after.events == before.events + added
    && after.deliveries == before.deliveries + Filter(Notifies(), added)
    && forall key :: KeyStep(key, At(before.rows, key), At(after.rows, key), Filter(OfKey(key), added),
                             RuleFor(rules, key.ruleId), key in FiredKeys(triggers), now)
  }

  predicate DistinctTriggers(triggers: seq<Trigger>) {
    forall i, j :: 0 <= i < j < |triggers| ==> TriggerKey(triggers[i]) != TriggerKey(triggers[j])
  }

  // ----- decisions by key

  predicate DistinctKeys(ds: seq<Decision>) {
    forall i, j :: 0 <= i < j < |ds| ==> ds[i].change.key != ds[j].change.key
  }

  predicate DistinctInstances(instances: seq<Instance>) {
    forall i, j :: 0 <= i < j < |instances| ==> instances[i].key != instances[j].key
  }

  predicate HasKey(ds: seq<Decision>, key: Key) {
    exists d :: d in ds && d.change.key == key
  }

  function FindUpsert(us: seq<Upsert>, key: Key): Option<Upsert> {
    if us == [] then None
    else
      var n := |us| - 1;
      if us[n].instance.key == key then Some(us[n]) else FindUpsert(us[..n], key)
  }

  predicate KeysAgree(ds: seq<Decision>) {
    forall d :: d in ds && d.upsert.Some? ==> d.upsert.value.instance.key == d.change.key
  }

  lemma {:induction false} UpsertOfDecision(ds: seq<Decision>, key: Key)
    requires DistinctKeys(ds) && KeysAgree(ds)
    ensures !HasKey(ds, key) ==> FindUpsert(UpsertsOf(ds), key) == None
    ensures forall d :: d in ds && d.change.key == key ==> FindUpsert(UpsertsOf(ds), key) == d.upsert
  {
    if ds != [] {
      var n := |ds| - 1;
      var d := ds[n];
      assert ds == ds[..n] + [d] && d in ds;
      UpsertOfDecision(ds[..n], key);
      PlanOneMore(ds[..n], d);
      if d.upsert.Some? {
        var us := UpsertsOf(ds[..n]);
        assert (us + [d.upsert.value])[..|us|] == us;
      } else {
        assert UpsertsOf(ds) == UpsertsOf(ds[..n]);
      }
    }
  }

  ghost predicate DecidesTrigger(d: Decision, rules: seq<Rule>, triggers: seq<Trigger>, instances: seq<Instance>,
                                 now: int)
  {
    exists t :: t in triggers && RuleFor(rules, t.ruleId).Some? &&
                d == Decide(RuleFor(rules, t.ruleId).value, t, InstanceFor(instances, TriggerKey(t)), now)
  }

  lemma {:induction false} InstanceForMember(instances: seq<Instance>, key: Key)
    ensures match InstanceFor(instances, key)
            case None => forall i :: i in instances ==> i.key != key
            case Some(i) => i in instances && i.key == key
  {
    if instances != [] {
      var n := |instances| - 1;
      assert instances == instances[..n] + [instances[n]];
      InstanceForMember(instances[..n], key);
    }
  }

  lemma {:induction false} TriggerDecisionsAt(rules: seq<Rule>, triggers: seq<Trigger>, instances: seq<Instance>,
                                              now: int, i: nat)
    requires AllKnown(rules, triggers) && i < |triggers|
    ensures |TriggerDecisions(rules, triggers, instances, now)| == |triggers|
    ensures triggers[i] in triggers
    ensures TriggerDecisions(rules, triggers, instances, now)[i] ==
            Decide(RuleFor(rules, triggers[i].ruleId).value, triggers[i],
                   InstanceFor(instances, TriggerKey(triggers[i])), now)
  {
    var n := |triggers| - 1;
    assert triggers[n] in triggers && forall t :: t in triggers[..n] ==> t in triggers;
    if n > 0 {
      TriggerDecisionsAt(rules, triggers[..n], instances, now, if i < n then i else n - 1);
    }
  }

  lemma TriggerDecisionsByKey(rules: seq<Rule>, triggers: seq<Trigger>, instances: seq<Instance>, now: int)
    requires DistinctTriggers(triggers) && AllKnown(rules, triggers)
    ensures var ds := TriggerDecisions(rules, triggers, instances, now);
            && |ds| == |triggers| && DistinctKeys(ds) && KeysAgree(ds)
            && (forall i :: 0 <= i < |ds| ==> ds[i].change.key == TriggerKey(triggers[i]))
            && (forall d :: d in ds ==> DecidesTrigger(d, rules, triggers, instances, now))
  {
    var ds := TriggerDecisions(rules, triggers, instances, now);
    assert triggers != [] ==> |ds| == |triggers| by {
      if triggers != [] { TriggerDecisionsAt(rules, triggers, instances, now, 0); }
    }
    forall i | 0 <= i < |ds|
      ensures ds[i].change.key == TriggerKey(triggers[i]) && DecidesTrigger(ds[i], rules, triggers, instances, now)
      ensures ds[i].upsert.Some? ==> ds[i].upsert.value.instance.key == ds[i].change.key
    {
      TriggerDecisionsAt(rules, triggers, instances, now, i);
      InstanceForMember(instances, TriggerKey(triggers[i]));
    }
  }

  lemma {:induction false} ResolveDecisionsByKey(rules: seq<Rule>, fired: set<Key>, instances: seq<Instance>, now: int)
    requires DistinctInstances(instances)
    ensures var ds := ResolveDecisions(rules, fired, instances, now);
            && DistinctKeys(ds) && KeysAgree(ds)
            && (forall d :: d in ds ==> exists i :: i in instances && Resolves(rules, fired, i) && d == Resolve(i, now))
            && (forall i :: i in instances && Resolves(rules, fired, i) ==> Resolve(i, now) in ds)
  {
    if instances != [] {
      var n := |instances| - 1;
      assert instances == instances[..n] + [instances[n]] && instances[n] in instances;
      ResolveDecisionsByKey(rules, fired, instances[..n], now);
      var ds := ResolveDecisions(rules, fired, instances[..n], now);
      forall d | d in ds ensures d.change.key != instances[n].key {
        var i :| i in instances[..n] && Resolves(rules, fired, i) && d == Resolve(i, now);
      }
    }
  }

  lemma DecisionsByKey(rules: seq<Rule>, triggers: seq<Trigger>, instances: seq<Instance>, now: int)
    requires DistinctTriggers(triggers) && AllKnown(rules, triggers) && DistinctInstances(instances)
    ensures var ds := Decisions(rules, triggers, instances, now);
            && DistinctKeys(ds) && KeysAgree(ds)
            && (forall d :: d in ds ==>
                  DecidesTrigger(d, rules, triggers, instances, now) ||
                  exists i :: i in instances && Resolves(rules, FiredKeys(triggers), i) && d == Resolve(i, now))
            && (forall key :: key in FiredKeys(triggers) ==> HasKey(ds, key))
            && (forall i :: i in instances && Resolves(rules, FiredKeys(triggers), i) ==> HasKey(ds, i.key))
  {
    TriggerDecisionsByKey(rules, triggers, instances, now);
    ResolveDecisionsByKey(rules, FiredKeys(triggers), instances, now);
    var first := TriggerDecisions(rules, triggers, instances, now);
    var second := ResolveDecisions(rules, FiredKeys(triggers), instances, now);
    var ds := Decisions(rules, triggers, instances, now);
    forall i, j | 0 <= i < |first| && 0 <= j < |second| ensures first[i].change.key != second[j].change.key {
      assert triggers[i] in triggers;
      assert second[j] in second;
    }
    forall key | key in FiredKeys(triggers) ensures HasKey(ds, key) {
      var t :| t in triggers && TriggerKey(t) == key;
      var i :| 0 <= i < |triggers| && triggers[i] == t;
      assert ds[i] in ds && ds[i].change.key == key;
    }
    forall i | i in instances && Resolves(rules, FiredKeys(triggers), i) ensures HasKey(ds, i.key) {
      assert Resolve(i, now) in ds;
    }
  }

  // ----- the plan carried out on the rows

  /** The rows after an upsert list, up to the ids that inserts draw. */
  ghost predicate Carried(rows0: map<int, Instance>, rows: map<int, Instance>, us: seq<Upsert>) {
    forall key :: match FindUpsert(us, key)
      case None => At(rows, key) == At(rows0, key)
      case Some(u) =>
        && At(rows, key).Some?
        && At(rows, key).value == if u.insert then u.instance.(id := At(rows, key).value.id) else u.instance
  }

  /** Inserts meet no instance of their key, updates meet the one they were read from. */
  ghost predicate PlanFits(rows: map<int, Instance>, us: seq<Upsert>) {
    && DistinctUpserts(us)
    && (forall u :: u in us ==> RowFits(rows, u))
  }

  ghost predicate RowFits(rows: map<int, Instance>, u: Upsert) {
    && !u.instance.status.Inactive?
    && if u.insert then At(rows, u.instance.key).None?
       else At(rows, u.instance.key).Some? && At(rows, u.instance.key).value.id == u.instance.id
  }

  lemma FitsUpserts(rows: map<int, Instance>, rules: seq<Rule>, triggers: seq<Trigger>, instances: seq<Instance>,
                    now: int)
    requires DistinctTriggers(triggers) && AllKnown(rules, triggers) && DistinctInstances(instances)
    requires forall key: Key :: RuleFor(rules, key.ruleId).Some? ==> InstanceFor(instances, key) == At(rows, key)
    requires forall i :: i in instances ==> At(rows, i.key) == Some(i)
    ensures PlanFits(rows, UpsertsOf(Decisions(rules, triggers, instances, now)))
  {
    DecisionsByKey(rules, triggers, instances, now);
    UpsertsFit(rows, Decisions(rules, triggers, instances, now));
  }

  lemma UpsertsFit(rows: map<int, Instance>, ds: seq<Decision>)
    requires DistinctKeys(ds) && KeysAgree(ds)
    requires forall d :: d in ds && d.upsert.Some? ==> RowFits(rows, d.upsert.value)
    ensures PlanFits(rows, UpsertsOf(ds))
  {
    UpsertKeysDistinct(ds);
    forall u | u in UpsertsOf(ds) ensures RowFits(rows, u) {
      UpsertDecided(ds, u);
      var j :| 0 <= j < |ds| && ds[j].upsert == Some(u);
      assert ds[j] in ds;
    }
  }

  predicate DistinctUpserts(us: seq<Upsert>) {
    forall i, j :: 0 <= i < j < |us| ==> us[i].instance.key != us[j].instance.key
  }

  lemma DistinctSnoc(us: seq<Upsert>, u: Upsert)
    requires DistinctUpserts(us) && forall v :: v in us ==> v.instance.key != u.instance.key
    ensures DistinctUpserts(us + [u])
  {
    assert forall i :: 0 <= i < |us| ==> us[i] in us;
  }

  lemma {:induction false} UpsertKeysDistinct(ds: seq<Decision>)
    requires DistinctKeys(ds) && KeysAgree(ds)
    ensures DistinctUpserts(UpsertsOf(ds))
  {
    if ds != [] {
      var n := |ds| - 1;
      assert ds[n] in ds;
      UpsertKeysDistinct(ds[..n]);
      forall v | v in UpsertsOf(ds[..n]) ensures v.instance.key != ds[n].change.key {
        UpsertDecided(ds[..n], v);
        var j :| 0 <= j < n && ds[..n][j].upsert == Some(v);
        assert ds[j] in ds;
      }
      if ds[n].upsert.Some? {
        DistinctSnoc(UpsertsOf(ds[..n]), ds[n].upsert.value);
      }
    }
  }

  lemma {:induction false} UpsertDecided(ds: seq<Decision>, u: Upsert)
    requires u in UpsertsOf(ds)
    ensures exists j :: 0 <= j < |ds| && ds[j].upsert == Some(u)
  {
    var n := |ds| - 1;
    if ds[n].upsert != Some(u) {
      UpsertDecided(ds[..n], u);
      var j :| 0 <= j < n && ds[..n][j].upsert == Some(u);
      assert ds[j].upsert == Some(u);
    }
  }
}

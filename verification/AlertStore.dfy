/** Alert lifecycle of internal/alerts/state.go: reconciling triggers with stored instances, and
    applying the plan in one transaction. */
module AlertStore {
  import opened Wrappers
  import opened Units
  import opened Sequences
  import opened Evaluation
  import Keys

  datatype Status = Inactive | Firing | Resolved

  /** What identifies an alert: the rule and its dedupe key. */
  datatype Key = Key(ruleId: int, dedupeKey: string)

  datatype Instance = Instance(id: int, key: Key, status: Status, firstFiredAt: int, lastFiredAt: int,
                               resolvedAt: Option<int>)

  /** Both kinds of suppression carry the same event type in the database; the flag records whether
      the suppressed trigger reopened a resolved alert or found it still firing. */
  datatype EventKind = TriggeredEvent | SuppressedEvent(reopening: bool) | ResolvedEvent

  datatype Change = Change(key: Key, status: Status, kind: EventKind, cause: Option<Trigger>, instanceId: int)

  datatype Event = Event(instanceId: int, key: Key, kind: EventKind, at: int)

  datatype Upsert = Upsert(instance: Instance, insert: bool)

  /** One entry of the plan: the change, and the row write that goes with it. */
  datatype Decision = Decision(change: Change, upsert: Option<Upsert>)

  function InstanceKey(key: Key): string {
    Keys.Join(Keys.Decimal(key.ruleId), key.dedupeKey)
  }

  /** Dedupe keys may contain colons, digits, anything: the text key still tells alerts apart. */
  lemma InstanceKeyInjective(a: Key, b: Key)
    ensures InstanceKey(a) == InstanceKey(b) <==> a == b
  {
    Keys.NumberedKeyInjective(a.ruleId, a.dedupeKey, b.ruleId, b.dedupeKey);
  }

  lemma InstanceKeysInjective()
    ensures forall a: Key, b: Key :: InstanceKey(a) == InstanceKey(b) ==> a == b
  {
    forall a: Key, b: Key ensures InstanceKey(a) == InstanceKey(b) ==> a == b {
      InstanceKeyInjective(a, b);
    }
  }

  function RuleFor(rules: seq<Rule>, id: int): Option<Rule> {
    if rules == [] then None
    else
      var n := |rules| - 1;
      if rules[n].id == id then Some(rules[n]) else RuleFor(rules[..n], id)
  }

  function InstanceFor(instances: seq<Instance>, key: Key): Option<Instance> {
    if instances == [] then None
    else
      var n := |instances| - 1;
      if instances[n].key == key then Some(instances[n]) else InstanceFor(instances[..n], key)
  }

  function TriggerKey(t: Trigger): Key {
    Key(t.ruleId, t.groupKey)
  }

  function FiredKeys(triggers: seq<Trigger>): set<Key> {
    set t | t in triggers :: TriggerKey(t)
  }

  function TextKeys(triggers: seq<Trigger>): set<string> {
    set t | t in triggers :: InstanceKey(TriggerKey(t))
  }

  predicate AllKnown(rules: seq<Rule>, triggers: seq<Trigger>) {
    forall t :: t in triggers ==> RuleFor(rules, t.ruleId).Some?
  }

  // ----- the reference decisions

  predicate InCooldown(rule: Rule, lastFiredAt: int, now: int) {
    var cooldown := rule.cooldownSeconds * NANOS_PER_SECOND;
    cooldown > 0 && now - lastFiredAt < cooldown
  }

  /** What a trigger makes of its key: the instance, without its id when it is new, and the event. */
  function Fired(rule: Rule, key: Key, existing: Option<Instance>, now: int): (Instance, EventKind) {
    match existing
    case None => (Instance(0, key, Firing, now, now, None), TriggeredEvent)
    case Some(i) =>
      if i.status.Resolved? then
        (i.(status := Firing, firstFiredAt := now, lastFiredAt := now, resolvedAt := None),
         if InCooldown(rule, i.lastFiredAt, now) then SuppressedEvent(true) else TriggeredEvent)
      else (i, SuppressedEvent(false))
  }

  function Quiet(i: Instance, now: int): Instance {
    i.(status := Resolved, resolvedAt := Some(now))
  }

  /** The plan for a trigger: an insert, an update when a resolved alert reopens, or the event alone. */
  function Decide(rule: Rule, t: Trigger, existing: Option<Instance>, now: int): Decision {
    var (instance, kind) := Fired(rule, TriggerKey(t), existing, now);
    var writes := existing.None? || existing.value.status.Resolved?;
    Decision(Change(TriggerKey(t), Firing, kind, Some(t), instance.id),
             if writes then Some(Upsert(instance, existing.None?)) else None)
  }

  function Resolve(i: Instance, now: int): Decision {
    Decision(Change(i.key, Resolved, ResolvedEvent, None, i.id), Some(Upsert(Quiet(i, now), false)))
  }

  predicate Resolves(rules: seq<Rule>, fired: set<Key>, i: Instance) {
    i.status.Firing? && i.key !in fired && RuleFor(rules, i.key.ruleId).Some?
  }

  function TriggerDecisions(rules: seq<Rule>, triggers: seq<Trigger>, instances: seq<Instance>, now: int)
      : seq<Decision>
  {
    if triggers == [] then []
    else
      var t := triggers[|triggers| - 1];
      TriggerDecisions(rules, triggers[..|triggers| - 1], instances, now) +
      match RuleFor(rules, t.ruleId)
      case None => []
      case Some(rule) => [Decide(rule, t, InstanceFor(instances, TriggerKey(t)), now)]
  }

  function ResolveDecisions(rules: seq<Rule>, fired: set<Key>, instances: seq<Instance>, now: int): seq<Decision> {
    if instances == [] then []
    else
      var i := instances[|instances| - 1];
      ResolveDecisions(rules, fired, instances[..|instances| - 1], now) +
      if Resolves(rules, fired, i) then [Resolve(i, now)] else []
  }

  function Decisions(rules: seq<Rule>, triggers: seq<Trigger>, instances: seq<Instance>, now: int): seq<Decision> {
    TriggerDecisions(rules, triggers, instances, now) + ResolveDecisions(rules, FiredKeys(triggers), instances, now)
  }

  function ChangesOf(ds: seq<Decision>): (cs: seq<Change>)
    ensures |cs| == |ds| && forall i :: 0 <= i < |ds| ==> cs[i] == ds[i].change
  {
    seq(|ds|, i requires 0 <= i < |ds| => ds[i].change)
  }

  function UpsertsOf(ds: seq<Decision>): seq<Upsert> {
    if ds == [] then []
    else
      var n := |ds| - 1;
      UpsertsOf(ds[..n]) + match ds[n].upsert case Some(u) => [u] case None => []
  }

  lemma PlanOneMore(ds: seq<Decision>, d: Decision)
    ensures ChangesOf(ds + [d]) == ChangesOf(ds) + [d.change]
    ensures UpsertsOf(ds + [d]) == UpsertsOf(ds) + match d.upsert case Some(u) => [u] case None => []
  {
    assert (ds + [d])[..|ds|] == ds;
  }

  /** The plan of a trigger in plain terms: the change names the trigger and its alert. A new alert is inserted with all
      its times now; a resolved one reopens the same way, announced unless it fired within the cooldown; a firing one
      is left alone. */
  ghost predicate PlansTrigger(d: Decision, rule: Rule, t: Trigger, existing: Option<Instance>, now: int) {
    && d.change.key == Key(t.ruleId, t.groupKey) && d.change.status == Firing && d.change.cause == Some(t)
    && (existing.Some? ==> d.change.instanceId == existing.value.id)
    && match existing
       case None =>
         && d.change.kind == TriggeredEvent && d.upsert.Some? && d.upsert.value.insert
         && Reopened(d.upsert.value.instance, d.change.key, 0, now)
       case Some(i) =>
         if i.status == Resolved then
           && d.upsert.Some? && !d.upsert.value.insert && Reopened(d.upsert.value.instance, i.key, i.id, now)
           && d.change.kind == (if now - i.lastFiredAt < rule.cooldownSeconds * 1_000_000_000
                                     && rule.cooldownSeconds > 0
                                then SuppressedEvent(true) else TriggeredEvent)
         else d.upsert.None? && d.change.kind == SuppressedEvent(false)
  }

  predicate Reopened(i: Instance, key: Key, id: int, now: int) {
    i.id == id && i.key == key && i.status == Firing && i.firstFiredAt == now && i.lastFiredAt == now
    && i.resolvedAt == None
  }

  /** The plan of a quiet alert: it resolves now, and keeps its id and when it fired. */
  ghost predicate PlansResolution(d: Decision, i: Instance, now: int) {
    && d.change == Change(i.key, Resolved, ResolvedEvent, None, i.id)
    && d.upsert.Some? && !d.upsert.value.insert
    && var written := d.upsert.value.instance;
    && written.id == i.id && written.key == i.key && written.firstFiredAt == i.firstFiredAt
    && written.lastFiredAt == i.lastFiredAt && written.status == Resolved && written.resolvedAt == Some(now)
  }

  /** The plan has the triggers' entries first, in their order, and then the resolutions in the order of the instances,
      exactly for those that fire, have a rule and no trigger. */
  lemma {:induction false} PlanMeans(rules: seq<Rule>, triggers: seq<Trigger>, instances: seq<Instance>, now: int)
      returns (resolved: seq<int>)
    requires AllKnown(rules, triggers)
    ensures var ds := Decisions(rules, triggers, instances, now);
            && |ds| == |triggers| + |resolved|
            && (forall i :: 0 <= i < |triggers| ==>
                  PlansTrigger(ds[i], RuleFor(rules, triggers[i].ruleId).value, triggers[i],
                               InstanceFor(instances, Key(triggers[i].ruleId, triggers[i].groupKey)), now))
            && (forall i :: 0 <= i < |resolved| ==>
                  0 <= resolved[i] < |instances|
                  && PlansResolution(ds[|triggers| + i], instances[resolved[i]], now))
    ensures forall i, j :: 0 <= i < j < |resolved| ==> resolved[i] < resolved[j]
    ensures forall k :: 0 <= k < |instances| ==>
              (k in resolved <==>
                 && instances[k].status == Firing && RuleFor(rules, instances[k].key.ruleId).Some?
                 && forall t :: t in triggers ==> Key(t.ruleId, t.groupKey) != instances[k].key)
  {
    TriggersPlanned(rules, triggers, instances, now);
    resolved := ResolutionsPlanned(rules, FiredKeys(triggers), instances, now);
  }

  lemma {:induction false} TriggersPlanned(rules: seq<Rule>, triggers: seq<Trigger>, instances: seq<Instance>, now: int)
    requires AllKnown(rules, triggers)
    ensures var ds := TriggerDecisions(rules, triggers, instances, now);
            && |ds| == |triggers|
            && (forall i :: 0 <= i < |triggers| ==>
                  PlansTrigger(ds[i], RuleFor(rules, triggers[i].ruleId).value, triggers[i],
                               InstanceFor(instances, Key(triggers[i].ruleId, triggers[i].groupKey)), now))
  {
    if triggers != [] {
      var n := |triggers| - 1;
      var t := triggers[n];
      assert t in triggers && forall u :: u in triggers[..n] ==> u in triggers;
      TriggersPlanned(rules, triggers[..n], instances, now);
      InstanceForKey(instances, TriggerKey(t));
      DecidePlans(RuleFor(rules, t.ruleId).value, t, InstanceFor(instances, TriggerKey(t)), now);
    }
  }

  lemma {:induction false} InstanceForKey(instances: seq<Instance>, key: Key)
    ensures InstanceFor(instances, key).Some? ==> InstanceFor(instances, key).value.key == key
  {
    if instances != [] {
      InstanceForKey(instances[..|instances| - 1], key);
    }
  }

  lemma DecidePlans(rule: Rule, t: Trigger, existing: Option<Instance>, now: int)
    requires existing.Some? ==> existing.value.key == TriggerKey(t)
    ensures PlansTrigger(Decide(rule, t, existing, now), rule, t, existing, now)
  {
  }

  lemma {:induction false} ResolutionsPlanned(rules: seq<Rule>, fired: set<Key>, instances: seq<Instance>, now: int)
      returns (resolved: seq<int>)
    ensures var ds := ResolveDecisions(rules, fired, instances, now);
            && |ds| == |resolved|
            && (forall i :: 0 <= i < |resolved| ==>
                  0 <= resolved[i] < |instances| && PlansResolution(ds[i], instances[resolved[i]], now))
    ensures forall i, j :: 0 <= i < j < |resolved| ==> resolved[i] < resolved[j]
    ensures forall k :: 0 <= k < |instances| ==>
              (k in resolved <==>
                 && instances[k].status == Firing && RuleFor(rules, instances[k].key.ruleId).Some?
                 && instances[k].key !in fired)
  {
    if instances == [] {
      resolved := [];
    } else {
      var n := |instances| - 1;
      var before := ResolutionsPlanned(rules, fired, instances[..n], now);
      resolved := before + if Resolves(rules, fired, instances[n]) then [n] else [];
      forall k | 0 <= k < |instances|
        ensures k in resolved <==>
                && instances[k].status == Firing && RuleFor(rules, instances[k].key.ruleId).Some?
                && instances[k].key !in fired
      {
        assert k < n ==> instances[..n][k] == instances[k];
      }
    }
  }

  // ----- reconciliation

  method IndexRules(rules: seq<Rule>) returns (ruleById: map<int, Rule>)
    ensures RulesIndexed(ruleById, rules)
  {
    ruleById := map[];
    for i := 0 to |rules|
      invariant RulesIndexed(ruleById, rules[..i])
    {
      assert rules[..i + 1][..i] == rules[..i];
      ruleById := ruleById[rules[i].id := rules[i]];
    }
    assert rules[..|rules|] == rules;
  }

  ghost predicate Indexes(byKey: map<string, Instance>, instances: seq<Instance>) {
    forall key: Key :: match InstanceFor(instances, key)
      case None => InstanceKey(key) !in byKey
      case Some(i) => InstanceKey(key) in byKey && byKey[InstanceKey(key)] == i
  }

  method IndexInstances(instances: seq<Instance>) returns (byKey: map<string, Instance>)
    ensures Indexes(byKey, instances)
  {
    byKey := map[];
    InstanceKeysInjective();
    for i := 0 to |instances|
      invariant Indexes(byKey, instances[..i])
    {
      assert instances[..i + 1][..i] == instances[..i];
      byKey := byKey[InstanceKey(instances[i].key) := instances[i]];
    }
    assert instances[..|instances|] == instances;
  }

  ghost predicate RulesIndexed(ruleById: map<int, Rule>, rules: seq<Rule>) {
    forall id :: RuleFor(rules, id) == if id in ruleById then Some(ruleById[id]) else None
  }

  ghost predicate Plans(upserts: seq<Upsert>, changes: seq<Change>, ds: seq<Decision>) {
    upserts == UpsertsOf(ds) && changes == ChangesOf(ds)
  }

  method ReconcileState(rules: seq<Rule>, triggers: seq<Trigger>, instances: seq<Instance>, observedAt: int)
      returns (plan: Result<(seq<Upsert>, seq<Change>)>)
    ensures plan.Success? <==> AllKnown(rules, triggers)
    ensures plan.Success? ==> Plans(plan.value.0, plan.value.1, Decisions(rules, triggers, instances, observedAt))
  {
    var ruleById := IndexRules(rules);
    var known, upserts, changes, triggered := PlanTriggers(rules, ruleById, triggers, instances, observedAt);
    if !known {
      return Failure("trigger references unknown rule");
    }
    upserts, changes := PlanResolutions(rules, ruleById, triggers, triggered, instances, observedAt, upserts, changes);
    return Success((upserts, changes));
  }

  method FindInstance(byKey: map<string, Instance>, key: Key, ghost instances: seq<Instance>)
      returns (existing: Option<Instance>)
    requires Indexes(byKey, instances)
    ensures existing == InstanceFor(instances, key)
  {
    var text := InstanceKey(key);
    existing := if text in byKey then Some(byKey[text]) else None;
  }

  ghost predicate PlannedUpTo(rules: seq<Rule>, triggers: seq<Trigger>, n: nat, instances: seq<Instance>, now: int,
                              upserts: seq<Upsert>, changes: seq<Change>, triggered: set<string>)
    requires n <= |triggers|
  {
    && AllKnown(rules, triggers[..n]) && triggered == TextKeys(triggers[..n])
    && Plans(upserts, changes, TriggerDecisions(rules, triggers[..n], instances, now))
  }

  lemma {:induction false} PlanTriggerOneMore(rules: seq<Rule>, triggers: seq<Trigger>, n: nat,
                                              instances: seq<Instance>, now: int, upserts: seq<Upsert>,
                                              changes: seq<Change>, triggered: set<string>, rule: Rule)
    requires n < |triggers| && RuleFor(rules, triggers[n].ruleId) == Some(rule)
    requires PlannedUpTo(rules, triggers, n, instances, now, upserts, changes, triggered)
    ensures var trigger := triggers[n];
            var d := Decide(rule, trigger, InstanceFor(instances, TriggerKey(trigger)), now);
            PlannedUpTo(rules, triggers, n + 1, instances, now,
                        upserts + if d.upsert.Some? then [d.upsert.value] else [], changes + [d.change],
                        triggered + {InstanceKey(TriggerKey(trigger))})
  {
    TriggersOneMore(rules, triggers, n, instances, now);
    PlanOneMore(TriggerDecisions(rules, triggers[..n], instances, now),
                Decide(rule, triggers[n], InstanceFor(instances, TriggerKey(triggers[n])), now));
  }

  lemma UnknownTrigger(rules: seq<Rule>, triggers: seq<Trigger>, n: nat)
    requires n < |triggers| && RuleFor(rules, triggers[n].ruleId).None?
    ensures !AllKnown(rules, triggers)
  {
    assert triggers[n] in triggers;
  }

  /** The first loop: one decision per trigger, against the stored instance of its key. */
  method PlanTriggers(rules: seq<Rule>, ruleById: map<int, Rule>, triggers: seq<Trigger>, instances: seq<Instance>,
                      observedAt: int)
      returns (known: bool, upserts: seq<Upsert>, changes: seq<Change>, triggered: set<string>)
    requires RulesIndexed(ruleById, rules)
    ensures known <==> AllKnown(rules, triggers)
    ensures known ==> triggered == TextKeys(triggers)
    ensures known ==> Plans(upserts, changes, TriggerDecisions(rules, triggers, instances, observedAt))
  {
    var instanceByKey := IndexInstances(instances);
    triggered, upserts, changes := {}, [], [];
    known := true;
    for n := 0 to |triggers|
      invariant known && PlannedUpTo(rules, triggers, n, instances, observedAt, upserts, changes, triggered)
    {
      var trigger := triggers[n];
      if trigger.ruleId !in ruleById {
        UnknownTrigger(rules, triggers, n);
        known := false;
        return;
      }
      var rule := ruleById[trigger.ruleId];
      PlanTriggerOneMore(rules, triggers, n, instances, observedAt, upserts, changes, triggered, rule);
      triggered := triggered + {InstanceKey(TriggerKey(trigger))};
      var existing := FindInstance(instanceByKey, TriggerKey(trigger), instances);
      var change, write := PlanTrigger(rule, trigger, existing, observedAt);
      upserts := upserts + if write.Some? then [write.value] else [];
      changes := changes + [change];
    }
    assert triggers[..|triggers|] == triggers;
  }

  lemma TriggersOneMore(rules: seq<Rule>, triggers: seq<Trigger>, n: nat, instances: seq<Instance>, now: int)
    requires n < |triggers|
    ensures TextKeys(triggers[..n + 1]) == TextKeys(triggers[..n]) + {InstanceKey(TriggerKey(triggers[n]))}
    ensures AllKnown(rules, triggers[..n + 1]) <==>
            AllKnown(rules, triggers[..n]) && RuleFor(rules, triggers[n].ruleId).Some?
    ensures AllKnown(rules, triggers) ==> RuleFor(rules, triggers[n].ruleId).Some?
    ensures TriggerDecisions(rules, triggers[..n + 1], instances, now) ==
            TriggerDecisions(rules, triggers[..n], instances, now) +
            match RuleFor(rules, triggers[n].ruleId)
            case None => []
            case Some(rule) => [Decide(rule, triggers[n], InstanceFor(instances, TriggerKey(triggers[n])), now)]
  {
    assert triggers[n] in triggers;
    assert triggers[..n + 1] == triggers[..n] + [triggers[n]] && triggers[..n + 1][..n] == triggers[..n];
  }

  /** The body of the first loop: open, reopen in or out of the cooldown, or suppress. */
  method PlanTrigger(rule: Rule, trigger: Trigger, existing: Option<Instance>, observedAt: int)
      returns (change: Change, write: Option<Upsert>)
    ensures Decision(change, write) == Decide(rule, trigger, existing, observedAt)
  {
    var key := TriggerKey(trigger);
    if existing.None? {
      change := Change(key, Firing, TriggeredEvent, Some(trigger), 0);
      write := Some(Upsert(Instance(0, key, Firing, observedAt, observedAt, None), true));
      return;
    }
    var instance := existing.value;
    if instance.status == Resolved {
      var lastFiredAt := instance.lastFiredAt;
      instance := instance.(status := Firing, firstFiredAt := observedAt, lastFiredAt := observedAt,
                            resolvedAt := None);
      var cooldown := rule.cooldownSeconds * NANOS_PER_SECOND;
      var kind := if cooldown > 0 && observedAt - lastFiredAt < cooldown then SuppressedEvent(true) else TriggeredEvent;
      change := Change(key, Firing, kind, Some(trigger), instance.id);
      write := Some(Upsert(instance, false));
      return;
    }
    change := Change(key, Firing, SuppressedEvent(false), Some(trigger), instance.id);
    write := None;
  }

  /** The second loop: resolve the firing instances of evaluated rules that no trigger names. */
  method PlanResolutions(rules: seq<Rule>, ruleById: map<int, Rule>, triggers: seq<Trigger>, triggered: set<string>,
                         instances: seq<Instance>, observedAt: int, upserts0: seq<Upsert>, changes0: seq<Change>)
      returns (upserts: seq<Upsert>, changes: seq<Change>)
    requires RulesIndexed(ruleById, rules)
    requires triggered == TextKeys(triggers)
    requires Plans(upserts0, changes0, TriggerDecisions(rules, triggers, instances, observedAt))
    ensures Plans(upserts, changes, Decisions(rules, triggers, instances, observedAt))
  {
    upserts, changes := upserts0, changes0;
    ghost var first := TriggerDecisions(rules, triggers, instances, observedAt);
    ghost var fired := FiredKeys(triggers);
    TriggeredTexts(triggers, triggered);
    ghost var ds := first;
    for n := 0 to |instances|
      invariant ds == first + ResolveDecisions(rules, fired, instances[..n], observedAt)
      invariant Plans(upserts, changes, ds)
    {
      var instance := instances[n];
      ResolveOneMore(rules, fired, instances, n, observedAt, first);
      if instance.status != Firing || InstanceKey(instance.key) in triggered || instance.key.ruleId !in ruleById {
        continue;
      }
      PlanOneMore(ds, Resolve(instance, observedAt));
      ds := ds + [Resolve(instance, observedAt)];
      upserts := upserts + [Upsert(instance.(status := Resolved, resolvedAt := Some(observedAt)), false)];
      changes := changes + [Change(instance.key, Resolved, ResolvedEvent, None, instance.id)];
    }
    assert instances[..|instances|] == instances;
  }

  lemma ResolveOneMore(rules: seq<Rule>, fired: set<Key>, instances: seq<Instance>, n: nat, now: int,
                       first: seq<Decision>)
    requires n < |instances|
    ensures var before := ResolveDecisions(rules, fired, instances[..n], now);
            var after := ResolveDecisions(rules, fired, instances[..n + 1], now);
            first + after ==
            if Resolves(rules, fired, instances[n]) then (first + before) + [Resolve(instances[n], now)]
            else first + before
  {
    assert instances[..n + 1][..n] == instances[..n];
  }

  lemma TriggeredTexts(triggers: seq<Trigger>, texts: set<string>)
    requires texts == TextKeys(triggers)
    ensures forall key: Key :: InstanceKey(key) in texts <==> key in FiredKeys(triggers)
  {
    forall key: Key ensures InstanceKey(key) in texts <==> key in FiredKeys(triggers) {
      if InstanceKey(key) in texts {
        var t :| t in triggers && InstanceKey(TriggerKey(t)) == InstanceKey(key);
        InstanceKeyInjective(TriggerKey(t), key);
      }
    }
  }
}

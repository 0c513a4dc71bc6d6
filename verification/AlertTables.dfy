/** The alert tables as an object, and SyncAlertState of internal/alerts/state.go on them. */
module AlertTables {
  import opened Wrappers
  import opened Sequences
  import opened Ordering
  import opened Evaluation
  import opened AlertStore
  import opened AlertSync

  function EventRow(c: Change, now: int): Event {
    Event(c.instanceId, c.key, c.kind, now)
  }

  function EventRows(changes: seq<Change>, now: int): (es: seq<Event>)
    ensures |es| == |changes| && forall i :: 0 <= i < |changes| ==> es[i] == EventRow(changes[i], now)
  {
    seq(|changes|, i requires 0 <= i < |changes| => EventRow(changes[i], now))
  }

  ghost predicate DistinctChanges(changes: seq<Change>) {
    forall i, j :: 0 <= i < j < |changes| ==> changes[i].key != changes[j].key
  }

  ghost predicate Covered(upserts: seq<Upsert>, changes: seq<Change>) {
    forall u :: u in upserts ==> exists i :: 0 <= i < |changes| && changes[i].key == u.instance.key
  }

  ghost predicate InsertsKey(upserts: seq<Upsert>, key: Key) {
    FindUpsert(upserts, key).Some? && FindUpsert(upserts, key).value.insert
  }

  /** The change with the id its insert drew. */
  ghost function Numbered(c: Change, rows: map<int, Instance>, upserts: seq<Upsert>): Change {
    if InsertsKey(upserts, c.key) && At(rows, c.key).Some? then c.(instanceId := At(rows, c.key).value.id) else c
  }

  // ----- one upsert at a time

  lemma FindUpsertOneMore(us: seq<Upsert>, i: nat, key: Key)
    requires i < |us|
    ensures FindUpsert(us[..i + 1], key) == if us[i].instance.key == key then Some(us[i]) else FindUpsert(us[..i], key)
  {
    assert us[..i + 1][..i] == us[..i];
  }

  lemma {:induction false} NotFoundYet(us: seq<Upsert>, key: Key)
    requires forall u :: u in us ==> u.instance.key != key
    ensures FindUpsert(us, key) == None
  {
    if us != [] {
      var n := |us| - 1;
      assert us[n] in us;
      NotFoundYet(us[..n], key);
    }
  }

  lemma EarlierKeysDiffer(us: seq<Upsert>, n: nat)
    requires n < |us| && forall i, j :: 0 <= i < j < |us| ==> us[i].instance.key != us[j].instance.key
    ensures forall u :: u in us[..n] ==> u.instance.key != us[n].instance.key
  {
    forall u | u in us[..n] ensures u.instance.key != us[n].instance.key {
      var j :| 0 <= j < n && us[j] == u;
    }
  }

  ghost predicate Wrote(before: map<int, Instance>, after: map<int, Instance>, u: Upsert) {
    && (forall key: Key :: key != u.instance.key ==> At(after, key) == At(before, key))
    && var written := At(after, u.instance.key);
    && written.Some?
    && written.value == if u.insert then u.instance.(id := written.value.id) else u.instance
  }

  lemma CurrentMatches(rows0: map<int, Instance>, rows: map<int, Instance>, us: seq<Upsert>, i: nat)
    requires i < |us| && PlanFits(rows0, us) && Carried(rows0, rows, us[..i])
    ensures RowFits(rows, us[i])
  {
    assert us[i] in us;
    EarlierKeysDiffer(us, i);
    NotFoundYet(us[..i], us[i].instance.key);
  }

  lemma CarryOne(rows0: map<int, Instance>, rows: map<int, Instance>, after: map<int, Instance>, us: seq<Upsert>,
                 i: nat)
    requires i < |us| && Carried(rows0, rows, us[..i])
    requires Wrote(rows, after, us[i])
    ensures Carried(rows0, after, us[..i + 1])
  {
    forall key: Key
      ensures match FindUpsert(us[..i + 1], key)
              case None => At(after, key) == At(rows0, key)
              case Some(u) =>
                && At(after, key).Some?
                && At(after, key).value == if u.insert then u.instance.(id := At(after, key).value.id) else u.instance
    {
      FindUpsertOneMore(us, i, key);
    }
  }

  lemma AtAfterWrite(rows: map<int, Instance>, id: int, instance: Instance)
    requires UniqueKeys(rows)
    requires forall j :: j in rows && rows[j].key == instance.key ==> j == id
    requires id in rows ==> rows[id].key == instance.key
    ensures UniqueKeys(rows[id := instance])
    ensures At(rows[id := instance], instance.key) == Some(instance)
    ensures forall key: Key :: key != instance.key ==> At(rows[id := instance], key) == At(rows, key)
  {
    var after := rows[id := instance];
    AtRow(after, id);
    forall key: Key | key != instance.key ensures At(after, key) == At(rows, key) {
      if j :| j in rows && rows[j].key == key {
        AtRow(rows, j);
        assert after[j] == rows[j];
        AtRow(after, j);
      }
    }
  }

  ghost predicate Identified(changes: seq<Change>, changes0: seq<Change>, rows: map<int, Instance>,
                             upserts: seq<Upsert>)
  {
    |changes| == |changes0| && forall i :: 0 <= i < |changes0| ==> changes[i] == Numbered(changes0[i], rows, upserts)
  }

  lemma IdentifyOne(was: seq<Change>, changes: seq<Change>, changes0: seq<Change>, before: map<int, Instance>,
                    rows: map<int, Instance>, us: seq<Upsert>, n: nat)
    requires n < |us| && DistinctChanges(changes0) && Identified(was, changes0, before, us[..n])
    requires Wrote(before, rows, us[n]) && |changes| == |was|
    requires forall u :: u in us[..n] ==> u.instance.key != us[n].instance.key
    requires forall i :: 0 <= i < |changes| ==>
               changes[i] == if us[n].insert && changes0[i].key == us[n].instance.key
                             then was[i].(instanceId := At(rows, us[n].instance.key).value.id) else was[i]
    ensures Identified(changes, changes0, rows, us[..n + 1])
  {
    NotFoundYet(us[..n], us[n].instance.key);
    forall i | 0 <= i < |changes0| ensures changes[i] == Numbered(changes0[i], rows, us[..n + 1]) {
      FindUpsertOneMore(us, n, changes0[i].key);
    }
  }

  // ----- statements on the rows, for any plan

  /** The unique constraint on (rule, dedupe key, status), leaving one row out. */
  predicate Taken(rows: map<int, Instance>, key: Key, status: Status, except: int) {
    exists j :: j in rows && j != except && rows[j].key == key && rows[j].status == status
  }

  /** An update writes the status and the times, never the key. */
  function Overwritten(row: Instance, instance: Instance): Instance {
    row.(status := instance.status, firstFiredAt := instance.firstFiredAt, lastFiredAt := instance.lastFiredAt,
         resolvedAt := instance.resolvedAt)
  }

  /** Rows and next id after one write, or nothing when the constraint refuses it. */
  function AfterUpsert(rows: map<int, Instance>, nextId: int, u: Upsert): Option<(map<int, Instance>, int)> {
    var i := u.instance;
    if u.insert then
      if exists j :: j in rows && rows[j].key == i.key && rows[j].status == i.status then None
      else Some((rows[nextId := i.(id := nextId)], nextId + 1))
    else if i.id !in rows then Some((rows, nextId))
    else if Taken(rows, rows[i.id].key, i.status, i.id) then None
    else Some((rows[i.id := Overwritten(rows[i.id], i)], nextId))
  }

  function AfterUpserts(rows: map<int, Instance>, nextId: int, us: seq<Upsert>): Option<(map<int, Instance>, int)> {
    if us == [] then Some((rows, nextId))
    else
      match AfterUpserts(rows, nextId, us[..|us| - 1])
      case None => None
      case Some((between, id)) => AfterUpsert(between, id, us[|us| - 1])
  }

  lemma AfterUpsertsPrefix(rows: map<int, Instance>, nextId: int, us: seq<Upsert>, n: nat)
    requires n < |us|
    ensures AfterUpserts(rows, nextId, us[..n + 1]) ==
            match AfterUpserts(rows, nextId, us[..n])
            case None => None
            case Some((between, id)) => AfterUpsert(between, id, us[n])
  {
    assert us[..n + 1][..n] == us[..n];
  }

  lemma {:induction false} RefusedUpserts(rows: map<int, Instance>, nextId: int, us: seq<Upsert>, n: nat)
    requires n <= |us| && AfterUpserts(rows, nextId, us[..n]).None?
    ensures AfterUpserts(rows, nextId, us).None?
    decreases |us| - n
  {
    if n == |us| {
      assert us[..n] == us;
    } else {
      AfterUpsertsPrefix(rows, nextId, us, n);
      RefusedUpserts(rows, nextId, us, n + 1);
    }
  }

  /** Changes that differ in the instance id at most. */
  predicate SameBut(changes: seq<Change>, changes0: seq<Change>) {
    |changes| == |changes0| && forall i :: 0 <= i < |changes| ==>
      changes[i] == changes0[i].(instanceId := changes[i].instanceId)
  }

  /** The changes of evaluated rules. */
  function OfKnownRule(rules: seq<Rule>): Change -> bool {
    (c: Change) => RuleFor(rules, c.key.ruleId).Some?
  }

  /** The notifying events of a change list. */
  function Announced(rules: seq<Rule>, changes: seq<Change>, now: int): seq<Event> {
    Filter(Notifies(), EventRows(Filter(OfKnownRule(rules), changes), now))
  }

  lemma {:induction false} KnownChangesAll(rules: seq<Rule>, changes: seq<Change>)
    requires forall c :: c in changes ==> RuleFor(rules, c.key.ruleId).Some?
    ensures Filter(OfKnownRule(rules), changes) == changes
  {
    if changes != [] {
      var n := |changes| - 1;
      assert changes == changes[..n] + [changes[n]] && changes[n] in changes;
      KnownChangesAll(rules, changes[..n]);
    }
  }

  lemma AnnouncedWhenKnown(rules: seq<Rule>, changes: seq<Change>, now: int)
    ensures (forall c :: c in changes ==> RuleFor(rules, c.key.ruleId).Some?) ==>
              Announced(rules, changes, now) == Filter(Notifies(), EventRows(changes, now))
  {
    if forall c :: c in changes ==> RuleFor(rules, c.key.ruleId).Some? {
      KnownChangesAll(rules, changes);
    }
  }

  lemma NotifyOneMore(rules: seq<Rule>, changes: seq<Change>, n: nat, now: int)
    requires n < |changes|
    ensures Announced(rules, changes[..n + 1], now) ==
            Announced(rules, changes[..n], now) +
            (if OfKnownRule(rules)(changes[n]) && Notifies()(EventRow(changes[n], now)) then [EventRow(changes[n], now)]
             else [])
  {
    var known, e := Filter(OfKnownRule(rules), changes[..n]), EventRow(changes[n], now);
    FilterPrefix(OfKnownRule(rules), changes, n);
    if OfKnownRule(rules)(changes[n]) {
      assert EventRows(known + [changes[n]], now) == EventRows(known, now) + [e];
      FilterSnoc(Notifies(), EventRows(known, now), e);
    } else {
      assert Filter(OfKnownRule(rules), changes[..n + 1]) == known;
      assert Filter(Notifies(), EventRows(known, now)) + [] == Filter(Notifies(), EventRows(known, now));
    }
  }

  class AlertDatabase {
    var rows: map<int, Instance>
    var nextId: int
    var events: seq<Event>
    var deliveries: seq<Event>

    ghost function Contents(): Store
      reads this
    {
      Store(rows, nextId, events, deliveries)
    }

    /** INSERT under the table's unique constraint on (rule, dedupe key, status). */
    method InsertInstance(instance: Instance) returns (id: Option<int>)
      modifies this`rows, this`nextId
      ensures id.None? <==>
              exists j :: j in old(rows) && old(rows)[j].key == instance.key && old(rows)[j].status == instance.status
      ensures id.None? ==> rows == old(rows) && nextId == old(nextId)
      ensures id.Some? ==> id.value == old(nextId) && nextId == old(nextId) + 1
      ensures id.Some? ==> rows == old(rows)[id.value := instance.(id := id.value)]
    {
      if exists j :: j in rows && rows[j].key == instance.key && rows[j].status == instance.status {
        return None;
      }
      id := Some(nextId);
      rows := rows[nextId := instance.(id := nextId)];
      nextId := nextId + 1;
    }

    /** UPDATE by id, of the status and the three times, under the same constraint. */
    method UpdateInstance(instance: Instance) returns (ok: bool)
      modifies this`rows
      ensures !ok <==>
              instance.id in old(rows) && Taken(old(rows), old(rows)[instance.id].key, instance.status, instance.id)
      ensures rows == if ok && instance.id in old(rows)
                      then old(rows)[instance.id := Overwritten(old(rows)[instance.id], instance)]
                      else old(rows)
    {
      if instance.id !in rows {
        return true;
      }
      var row := rows[instance.id];
      if exists j :: j in rows && j != instance.id && rows[j].key == row.key && rows[j].status == instance.status {
        return false;
      }
      rows := rows[instance.id := row.(status := instance.status, firstFiredAt := instance.firstFiredAt,
                                       lastFiredAt := instance.lastFiredAt, resolvedAt := instance.resolvedAt)];
      return true;
    }

    /** One row write of the plan; an insert yields its id. */
    method ApplyUpsert(u: Upsert) returns (ok: bool, id: Option<int>)
      modifies this`rows, this`nextId
      ensures ok ==> (id.Some? <==> u.insert)
      ensures ok <==> AfterUpsert(old(rows), old(nextId), u).Some?
      ensures (rows, nextId) == if ok then AfterUpsert(old(rows), old(nextId), u).value else (old(rows), old(nextId))
      ensures Valid(old(Contents())) && RowFits(old(rows), u) ==>
                && ok && Valid(Contents()) && Wrote(old(rows), rows, u)
                && (u.insert ==> id.value == At(rows, u.instance.key).value.id)
    {
      ghost var good := Valid(Contents()) && RowFits(rows, u);
      ghost var before := rows;
      if u.insert {
        id := InsertInstance(u.instance);
        ok := id.Some?;
        if good {
          AtAfterWrite(before, id.value, u.instance.(id := id.value));
        }
      } else {
        id := None;
        ok := UpdateInstance(u.instance);
        if good {
          AtAfterWrite(before, u.instance.id, u.instance);
        }
      }
    }

    /** The first half of applyPlan: write the rows, and hand each insert's id to its change. Any plan is carried
        out write by write up to the first one refused; one that fits the rows is never refused. */
    method ApplyUpserts(upserts: seq<Upsert>, changes0: seq<Change>) returns (ok: bool, changes: seq<Change>)
      requires Covered(upserts, changes0)
      modifies this`rows, this`nextId
      ensures ok <==> AfterUpserts(old(rows), old(nextId), upserts).Some?
      ensures ok ==> (rows, nextId) == AfterUpserts(old(rows), old(nextId), upserts).value && SameBut(changes, changes0)
      ensures Valid(old(Contents())) && PlanFits(old(rows), upserts) && DistinctChanges(changes0) ==>
                ok && Valid(Contents()) && Carried(old(rows), rows, upserts) &&
                Identified(changes, changes0, rows, upserts)
    {
      ghost var rows0 := rows;
      ghost var good := Valid(Contents()) && PlanFits(rows, upserts) && DistinctChanges(changes0);
      changes := changes0;
      var changeByKey := IndexChanges(changes0);
      ok := true;
      for n := 0 to |upserts|
        invariant ok && SameBut(changes, changes0)
        invariant AfterUpserts(old(rows), old(nextId), upserts[..n]) == Some((rows, nextId))
        invariant good ==> Valid(Contents()) && Carried(rows0, rows, upserts[..n])
        invariant good ==> Identified(changes, changes0, rows, upserts[..n])
      {
        var upsert := upserts[n];
        assert upsert in upserts;
        AfterUpsertsPrefix(old(rows), old(nextId), upserts, n);
        ghost var before, was := rows, changes;
        if good {
          CurrentMatches(rows0, rows, upserts, n);
        }
        var written, id := ApplyUpsert(upsert);
        if !written {
          RefusedUpserts(old(rows), old(nextId), upserts, n + 1);
          ok := false;
          return;
        }
        if good {
          CarryOne(rows0, before, rows, upserts, n);
        }
        if upsert.insert {
          var index := changeByKey[InstanceKey(upsert.instance.key)];
          changes := changes[index := changes[index].(instanceId := id.value)];
        }
        if good {
          EarlierKeysDiffer(upserts, n);
          IdentifyOne(was, changes, changes0, before, rows, upserts, n);
        }
      }
      assert upserts[..|upserts|] == upserts;
    }

    method IndexChanges(changes: seq<Change>) returns (byKey: map<string, nat>)
      ensures forall i :: 0 <= i < |changes| ==> InstanceKey(changes[i].key) in byKey
      ensures forall key: Key :: InstanceKey(key) in byKey ==>
                byKey[InstanceKey(key)] < |changes| && changes[byKey[InstanceKey(key)]].key == key
    {
      byKey := map[];
      InstanceKeysInjective();
      for n := 0 to |changes|
        invariant forall i :: 0 <= i < n ==> InstanceKey(changes[i].key) in byKey
        invariant forall key: Key :: InstanceKey(key) in byKey ==>
                    byKey[InstanceKey(key)] < n && changes[byKey[InstanceKey(key)]].key == key
      {
        byKey := byKey[InstanceKey(changes[n].key) := n];
      }
    }

    /** The second half of applyPlan: one event per change. */
    method InsertEvents(changes: seq<Change>, observedAt: int)
      modifies this`events
      ensures events == old(events) + EventRows(changes, observedAt)
    {
      for n := 0 to |changes|
        invariant events == old(events) + EventRows(changes[..n], observedAt)
      {
        assert EventRows(changes[..n + 1], observedAt) ==
               EventRows(changes[..n], observedAt) + [EventRow(changes[n], observedAt)];
        events := events + [EventRow(changes[n], observedAt)];
      }
      assert changes[..|changes|] == changes;
    }

    /** Enqueues one delivery per triggered or resolved change of an evaluated rule. */
    method EnqueueNotifications(rules: seq<Rule>, changes: seq<Change>, observedAt: int)
      modifies this`deliveries
      ensures deliveries == old(deliveries) + Announced(rules, changes, observedAt)
      ensures (forall c :: c in changes ==> RuleFor(rules, c.key.ruleId).Some?) ==>
                deliveries == old(deliveries) + Filter(Notifies(), EventRows(changes, observedAt))
    {
      var ruleById := IndexRules(rules);
      for n := 0 to |changes|
        invariant deliveries == old(deliveries) + Announced(rules, changes[..n], observedAt)
      {
        var change := changes[n];
        NotifyOneMore(rules, changes, n, observedAt);
        if change.kind != TriggeredEvent && change.kind != ResolvedEvent {
          continue;
        }
        if change.key.ruleId !in ruleById {
          continue;
        }
        deliveries := deliveries + [EventRow(change, observedAt)];
      }
      assert changes[..|changes|] == changes;
      AnnouncedWhenKnown(rules, changes, observedAt);
    }

    /** Reads the instances of the evaluated rules, in no particular order. */
    method LoadInstances(rules: seq<Rule>) returns (instances: seq<Instance>)
      ensures forall i :: i in instances <==> Loads(rows, rules, i)
      ensures UniqueKeys(rows) ==> DistinctInstances(instances)
    {
      var ruleById := IndexRules(rules);
      var pending := set id | id in rows && rows[id].key.ruleId in ruleById;
      ghost var wanted := pending;
      instances := [];
      while pending != {}
        invariant pending <= wanted
        invariant forall i :: i in instances <==> exists id :: id in wanted - pending && rows[id] == i
        invariant UniqueKeys(rows) ==> DistinctInstances(instances)
      {
        var id := AnyOf(pending);
        ghost var done := wanted - pending;
        pending := pending - {id};
        assert wanted - pending == done + {id};
        forall i | i in instances ensures UniqueKeys(rows) ==> i.key != rows[id].key {
          var j :| j in done && rows[j] == i;
        }
        instances := instances + [rows[id]];
      }
      forall i ensures i in instances <==> Loads(rows, rules, i) {
        if Loads(rows, rules, i) {
          var id :| id in rows && rows[id] == i;
          assert id in wanted;
        }
      }
    }

    /** One committed sync, or an error that leaves the tables as they were. */
    method SyncAlertState(rules: seq<Rule>, triggers: seq<Trigger>, observedAt: int)
        returns (result: Result<seq<Change>>)
      modifies this
      ensures result.Failure? ==> rows == old(rows) && events == old(events) && deliveries == old(deliveries)
      ensures rules != [] && !AllKnown(rules, triggers) ==> result.Failure?
      ensures Valid(old(Contents())) && DistinctTriggers(triggers) && AllKnown(rules, triggers) ==> result.Success?
      ensures Valid(old(Contents())) && DistinctTriggers(triggers) && result.Success? ==>
                && Valid(Contents())
                && SyncStep(old(Contents()), Contents(), EventRows(result.value, observedAt), rules, triggers,
                            observedAt)
    {
      if rules == [] {
        assert Filter(Notifies(), EventRows([], observedAt)) == [];
        return Success([]);
      }
      var savedRows, savedEvents, savedDeliveries := rows, events, deliveries;
      ghost var before := Contents();
      ghost var good := Valid(before) && DistinctTriggers(triggers);
      var instances := LoadInstances(rules);
      var plan := ReconcileState(rules, triggers, instances, observedAt);
      if plan.Failure? {
        return Failure(plan.error);
      }
      ghost var ds := Decisions(rules, triggers, instances, observedAt);
      PlanCovered(ds, rules, triggers, instances, observedAt);
      if good {
        LoadedMatches(rows, rules, instances);
        DecisionsByKey(rules, triggers, instances, observedAt);
        FitsUpserts(rows, rules, triggers, instances, observedAt);
      }
      var ok, changes := ApplyUpserts(plan.value.0, plan.value.1);
      if !ok {
        rows := savedRows;
        return Failure("unique constraint violated");
      }
      InsertEvents(changes, observedAt);
      EnqueueNotifications(rules, changes, observedAt);
      result := Success(changes);
      if good {
        SyncMeetsSpec(before, Contents(), ds, changes, rules, triggers, instances, observedAt);
      }
    }
  }

  ghost predicate Loads(rows: map<int, Instance>, rules: seq<Rule>, i: Instance) {
    RuleFor(rules, i.key.ruleId).Some? && exists id :: id in rows && rows[id] == i
  }

  lemma LoadedMatches(rows: map<int, Instance>, rules: seq<Rule>, instances: seq<Instance>)
    requires UniqueKeys(rows) && forall i :: i in instances <==> Loads(rows, rules, i)
    ensures forall key: Key :: RuleFor(rules, key.ruleId).Some? ==> InstanceFor(instances, key) == At(rows, key)
    ensures forall i :: i in instances ==> At(rows, i.key) == Some(i)
  {
    forall i | i in instances ensures At(rows, i.key) == Some(i) {
      var id :| id in rows && rows[id] == i;
      AtRow(rows, id);
    }
    forall key: Key | RuleFor(rules, key.ruleId).Some? ensures InstanceFor(instances, key) == At(rows, key) {
      InstanceForMember(instances, key);
      if At(rows, key).Some? {
        var id :| id in rows && rows[id].key == key;
        assert Loads(rows, rules, rows[id]);
      }
    }
  }

  lemma {:induction false} ResolvesKeysAgree(rules: seq<Rule>, fired: set<Key>, instances: seq<Instance>, now: int)
    ensures KeysAgree(ResolveDecisions(rules, fired, instances, now))
  {
    if instances != [] {
      ResolvesKeysAgree(rules, fired, instances[..|instances| - 1], now);
    }
  }

  lemma {:induction false} UpsertsFrom(ds: seq<Decision>)
    requires KeysAgree(ds)
    ensures Covered(UpsertsOf(ds), ChangesOf(ds))
  {
    if ds != [] {
      var n := |ds| - 1;
      assert ds == ds[..n] + [ds[n]] && ds[n] in ds;
      UpsertsFrom(ds[..n]);
      PlanOneMore(ds[..n], ds[n]);
      forall u | u in UpsertsOf(ds)
        ensures exists i :: 0 <= i < |ChangesOf(ds)| && ChangesOf(ds)[i].key == u.instance.key
      {
        if u in UpsertsOf(ds[..n]) {
          var i :| 0 <= i < n && ChangesOf(ds[..n])[i].key == u.instance.key;
          assert ChangesOf(ds)[i].key == u.instance.key;
        } else {
          assert ChangesOf(ds)[n].key == u.instance.key;
        }
      }
    }
  }

  lemma PlanCovered(ds: seq<Decision>, rules: seq<Rule>, triggers: seq<Trigger>, instances: seq<Instance>, now: int)
    requires AllKnown(rules, triggers) && ds == Decisions(rules, triggers, instances, now)
    ensures Covered(UpsertsOf(ds), ChangesOf(ds))
  {
    var first := TriggerDecisions(rules, triggers, instances, now);
    ResolvesKeysAgree(rules, FiredKeys(triggers), instances, now);
    if triggers != [] { TriggerDecisionsAt(rules, triggers, instances, now, 0); }
    forall i | 0 <= i < |first| && first[i].upsert.Some?
      ensures first[i].upsert.value.instance.key == first[i].change.key
    {
      TriggerDecisionsAt(rules, triggers, instances, now, i);
      InstanceForMember(instances, TriggerKey(triggers[i]));
    }
    UpsertsFrom(ds);
  }

  // ----- the transaction meets the per-key specification

  lemma {:induction false} FilterOnly(key: Key, es: seq<Event>, i: nat)
    requires i < |es| && es[i].key == key && forall j :: 0 <= j < |es| && j != i ==> es[j].key != key
    ensures Filter(OfKey(key), es) == [es[i]]
  {
    var n := |es| - 1;
    if i < n {
      FilterOnly(key, es[..n], i);
    } else {
      FilterEmpty(OfKey(key), es[..n]);
    }
  }

  /** The decision of a key, if it has one, is what its step asks for. */
  lemma DecisionIsKeyNext(d: Decision, before: Option<Instance>, after: Option<Instance>, rule: Option<Rule>,
                          fired: bool, now: int)
    requires rule.Some? && after.Some?
    requires before.Some? ==> before.value.key == d.change.key && !before.value.status.Inactive?
    requires
      || (fired && exists t :: TriggerKey(t) == d.change.key && d == Decide(rule.value, t, before, now))
      || (!fired && before.Some? && before.value.status.Firing? && d == Resolve(before.value, now))
    requires d.upsert.None? ==> after == before
    requires d.upsert.Some? ==>
               var written := d.upsert.value.instance;
               after.value == if d.upsert.value.insert then written.(id := after.value.id) else written
    ensures KeyNext(d.change.key, before, rule, fired, after.value.id, now) == (after, Some(d.change.kind))
    ensures !(d.upsert.Some? && d.upsert.value.insert) ==> d.change.instanceId == after.value.id
  {
  }

  /** The rows and changes a successful run of the plan leaves behind. */
  ghost predicate Ran(before: Store, after: Store, ds: seq<Decision>, changes: seq<Change>, rules: seq<Rule>,
                      triggers: seq<Trigger>, instances: seq<Instance>, now: int)
  {
    && Valid(before) && DistinctTriggers(triggers) && AllKnown(rules, triggers)
    && (forall i :: i in instances <==> Loads(before.rows, rules, i))
    && DistinctInstances(instances) && ds == Decisions(rules, triggers, instances, now)
    && Carried(before.rows, after.rows, UpsertsOf(ds))
    && Identified(changes, ChangesOf(ds), after.rows, UpsertsOf(ds))
  }

  lemma ChangesKnown(before: Store, after: Store, ds: seq<Decision>, changes: seq<Change>, rules: seq<Rule>,
                     triggers: seq<Trigger>, instances: seq<Instance>, now: int)
    requires Ran(before, after, ds, changes, rules, triggers, instances, now)
    ensures forall c :: c in changes ==> RuleFor(rules, c.key.ruleId).Some?
  {
    forall c | c in changes ensures RuleFor(rules, c.key.ruleId).Some? {
      var i :| 0 <= i < |changes| && changes[i] == c;
      assert ds[i] in ds;
      DecisionKnown(rules, triggers, instances, now, ds[i]);
    }
  }

  lemma DecisionKnown(rules: seq<Rule>, triggers: seq<Trigger>, instances: seq<Instance>, now: int, d: Decision)
    requires DistinctTriggers(triggers) && AllKnown(rules, triggers) && DistinctInstances(instances)
    requires d in Decisions(rules, triggers, instances, now)
    ensures RuleFor(rules, d.change.key.ruleId).Some?
    ensures d.change.key in FiredKeys(triggers) <==> DecidesTrigger(d, rules, triggers, instances, now)
    ensures d.change.key !in FiredKeys(triggers) ==>
              exists i :: i in instances && i.key == d.change.key && i.status.Firing? && d == Resolve(i, now)
  {
    DecisionsByKey(rules, triggers, instances, now);
    if DecidesTrigger(d, rules, triggers, instances, now) {
      var t :| t in triggers && RuleFor(rules, t.ruleId).Some? &&
               d == Decide(RuleFor(rules, t.ruleId).value, t, InstanceFor(instances, TriggerKey(t)), now);
      assert d.change.key == TriggerKey(t);
    } else {
      var i :| i in instances && Resolves(rules, FiredKeys(triggers), i) && d == Resolve(i, now);
    }
  }

  lemma KeyMeetsSpec(before: Store, after: Store, ds: seq<Decision>, key: Key, changes: seq<Change>, rules: seq<Rule>,
                     triggers: seq<Trigger>, instances: seq<Instance>, now: int)
    requires Ran(before, after, ds, changes, rules, triggers, instances, now)
    ensures KeyStep(key, At(before.rows, key), At(after.rows, key), Filter(OfKey(key), EventRows(changes, now)),
                    RuleFor(rules, key.ruleId), key in FiredKeys(triggers), now)
  {
    if HasKey(ds, key) {
      var d :| d in ds && d.change.key == key;
      var i :| 0 <= i < |ds| && ds[i] == d;
      DecidedKey(before, after, ds, i, changes, rules, triggers, instances, now);
    } else {
      UndecidedKey(before, after, ds, key, changes, rules, triggers, instances, now);
    }
  }

  lemma {:induction false} SyncMeetsSpec(before: Store, after: Store, ds: seq<Decision>, changes: seq<Change>,
                                         rules: seq<Rule>, triggers: seq<Trigger>, instances: seq<Instance>, now: int)
    requires Ran(before, after, ds, changes, rules, triggers, instances, now)
    requires after.events == before.events + EventRows(changes, now)
    requires (forall c :: c in changes ==> RuleFor(rules, c.key.ruleId).Some?) ==>
               after.deliveries == before.deliveries + Filter(Notifies(), EventRows(changes, now))
    ensures SyncStep(before, after, EventRows(changes, now), rules, triggers, now)
  {
    ChangesKnown(before, after, ds, changes, rules, triggers, instances, now);
    forall key: Key
      ensures KeyStep(key, At(before.rows, key), At(after.rows, key), Filter(OfKey(key), EventRows(changes, now)),
                      RuleFor(rules, key.ruleId), key in FiredKeys(triggers), now)
    {
      KeyMeetsSpec(before, after, ds, key, changes, rules, triggers, instances, now);
    }
  }

  lemma TriggerDecided(d: Decision, rules: seq<Rule>, triggers: seq<Trigger>, instances: seq<Instance>, now: int)
    requires DecidesTrigger(d, rules, triggers, instances, now)
    ensures var key := d.change.key;
            && RuleFor(rules, key.ruleId).Some?
            && exists t :: TriggerKey(t) == key &&
                           d == Decide(RuleFor(rules, key.ruleId).value, t, InstanceFor(instances, key), now)
  {
    var t :| t in triggers && RuleFor(rules, t.ruleId).Some? &&
             d == Decide(RuleFor(rules, t.ruleId).value, t, InstanceFor(instances, TriggerKey(t)), now);
    assert TriggerKey(t) == d.change.key;
  }

  lemma DecidedKey(before: Store, after: Store, ds: seq<Decision>, i: nat, changes: seq<Change>, rules: seq<Rule>,
                   triggers: seq<Trigger>, instances: seq<Instance>, now: int)
    requires Ran(before, after, ds, changes, rules, triggers, instances, now) && i < |ds|
    ensures var key := ds[i].change.key;
            KeyStep(key, At(before.rows, key), At(after.rows, key), Filter(OfKey(key), EventRows(changes, now)),
                    RuleFor(rules, key.ruleId), key in FiredKeys(triggers), now)
  {
    var d, key, added := ds[i], ds[i].change.key, EventRows(changes, now);
    assert d in ds;
    LoadedMatches(before.rows, rules, instances);
    DecisionKnown(rules, triggers, instances, now, d);
    DecisionUpsertCarried(before, after, ds, i, changes, rules, triggers, instances, now);
    var b, a := At(before.rows, key), At(after.rows, key);
    if key in FiredKeys(triggers) {
      TriggerDecided(d, rules, triggers, instances, now);
      assert InstanceFor(instances, key) == b;
    }
    DecisionIsKeyNext(d, b, a, RuleFor(rules, key.ruleId), key in FiredKeys(triggers), now);
  }

  lemma {:induction false} DecisionUpsertCarried(before: Store, after: Store, ds: seq<Decision>, i: nat,
                                                 changes: seq<Change>, rules: seq<Rule>, triggers: seq<Trigger>,
                                                 instances: seq<Instance>, now: int)
    requires Ran(before, after, ds, changes, rules, triggers, instances, now) && i < |ds|
    ensures var d, key := ds[i], ds[i].change.key;
            && Filter(OfKey(key), EventRows(changes, now)) == [EventRow(changes[i], now)]
            && changes[i] == Numbered(d.change, after.rows, UpsertsOf(ds))
            && FindUpsert(UpsertsOf(ds), key) == d.upsert
  {
    DecisionsByKey(rules, triggers, instances, now);
    assert ds[i] in ds;
    UpsertOfDecision(ds, ds[i].change.key);
    ChangesByKey(ds, changes, after.rows, i, now);
  }

  lemma {:induction false} ChangesByKey(ds: seq<Decision>, changes: seq<Change>, rows: map<int, Instance>, i: nat,
                                        now: int)
    requires DistinctKeys(ds) && i < |ds| && Identified(changes, ChangesOf(ds), rows, UpsertsOf(ds))
    ensures |changes| == |ds| && changes[i] == Numbered(ds[i].change, rows, UpsertsOf(ds))
    ensures Filter(OfKey(ds[i].change.key), EventRows(changes, now)) == [EventRow(changes[i], now)]
  {
    var es := EventRows(changes, now);
    forall j | 0 <= j < |es| ensures es[j].key == ds[j].change.key {
      assert changes[j] == Numbered(ChangesOf(ds)[j], rows, UpsertsOf(ds));
    }
    FilterOnly(ds[i].change.key, es, i);
  }

  lemma UndecidedKey(before: Store, after: Store, ds: seq<Decision>, key: Key, changes: seq<Change>, rules: seq<Rule>,
                     triggers: seq<Trigger>, instances: seq<Instance>, now: int)
    requires Ran(before, after, ds, changes, rules, triggers, instances, now) && !HasKey(ds, key)
    ensures KeyStep(key, At(before.rows, key), At(after.rows, key), Filter(OfKey(key), EventRows(changes, now)),
                    RuleFor(rules, key.ruleId), key in FiredKeys(triggers), now)
  {
    LoadedMatches(before.rows, rules, instances);
    DecisionsByKey(rules, triggers, instances, now);
    UpsertOfDecision(ds, key);
    forall e | e in EventRows(changes, now) ensures e.key != key {
      var i :| 0 <= i < |changes| && EventRows(changes, now)[i] == e;
      assert ds[i] in ds;
    }
    FilterEmpty(OfKey(key), EventRows(changes, now));
    var b := At(before.rows, key);
    if RuleFor(rules, key.ruleId).Some? && b.Some? {
      assert b.value in instances by { InstanceForMember(instances, key); }
      assert !Resolves(rules, FiredKeys(triggers), b.value);
    }
  }
}

/** A serial run of state syncs in which a backdated reopening lets two announcements come within the cooldown. */
module BackdatedRun {
  import opened Wrappers
  import opened Units
  import opened Sequences
  import opened Evaluation
  import opened AlertStore
  import opened AlertSync
  import opened AlertRuns

  const ALERT := Key(1, "k")

  function FiftySeconds(): int -> int {
    (id: int) => 50
  }

  function FiringRule(): Rule {
    Rule(1, 7, 0, 50, (r: Record) => true, (r: Record) => "k", CountThreshold(1))
  }

  function Seconds(at: int): int {
    at * NANOS_PER_SECOND
  }

  function AlertEvent(kind: EventKind, at: int): Event {
    Event(7, ALERT, kind, Seconds(at))
  }

  function FiringAt(at: int): Instance {
    Instance(7, ALERT, Firing, Seconds(at), Seconds(at), None)
  }

  function ResolvedAt(fired: int, at: int): Instance {
    FiringAt(fired).(status := Resolved, resolvedAt := Some(Seconds(at)))
  }

  function Holding(instance: Instance, events: seq<Event>, deliveries: seq<Event>): Store {
    Store(map[7 := instance], 8, events, deliveries)
  }

  function TriggersIf(fired: bool): seq<Trigger> {
    if fired then [Trigger(1, "k", 1, 0.0, 0.0, 0, 0.0)] else []
  }

  function SyncAt(fired: bool, at: int, e: Event): Sync {
    Committed([FiringRule()], TriggersIf(fired), Seconds(at), [e])
  }

  /** The alert's row is the only one. */
  ghost predicate Sole(s: Store, instance: Option<Instance>) {
    forall key: Key :: At(s.rows, key) == if key == ALERT then instance else None
  }

  lemma HoldingSole(instance: Instance, events: seq<Event>, deliveries: seq<Event>)
    requires instance.key == ALERT && instance.id == 7 && !instance.status.Inactive?
    ensures Valid(Holding(instance, events, deliveries)) && Sole(Holding(instance, events, deliveries), Some(instance))
  {
    var rows := map[7 := instance];
    assert 7 in rows && rows[7].key == ALERT;
  }

  lemma FiredSolely(fired: bool, key: Key)
    ensures key in FiredKeys(TriggersIf(fired)) <==> fired && key == ALERT
    ensures RuleFor([FiringRule()], key.ruleId) == if key.ruleId == 1 then Some(FiringRule()) else None
  {
    var rules := [FiringRule()];
    assert rules[..0] == [];
    if fired {
      assert TriggersIf(fired)[0] in TriggersIf(fired);
    }
  }

  lemma EventsSolely(e: Event, key: Key)
    ensures Filter(OfKey(key), [e]) == if e.key == key then [e] else []
  {
    FilterSnoc(OfKey(key), [], e);
    assert [] + [e] == [e];
  }

  lemma SoleKeyStep(before: Option<Instance>, instance: Instance, fired: bool, at: int, kind: EventKind, key: Key)
    requires instance.id == 7
    requires KeyNext(ALERT, before, Some(FiringRule()), fired, 7, Seconds(at)) == (Some(instance), Some(kind))
    ensures var b, a := if key == ALERT then before else None, if key == ALERT then Some(instance) else None;
            KeyStep(key, b, a, Filter(OfKey(key), [AlertEvent(kind, at)]), RuleFor([FiringRule()], key.ruleId),
                    key in FiredKeys(TriggersIf(fired)), Seconds(at))
  {
    FiredSolely(fired, key);
    EventsSolely(AlertEvent(kind, at), key);
  }

  /** A sync of the one rule and the one alert. */
  lemma SoleSync(before: Store, current: Option<Instance>, instance: Instance, fired: bool, at: int, kind: EventKind)
      returns (after: Store)
    requires Sole(before, current) && instance.key == ALERT && instance.id == 7 && !instance.status.Inactive?
    requires KeyNext(ALERT, current, Some(FiringRule()), fired, 7, Seconds(at)) == (Some(instance), Some(kind))
    ensures after.events == before.events + [AlertEvent(kind, at)] && Sole(after, Some(instance))
    ensures SyncTaken(before, after, SyncAt(fired, at, AlertEvent(kind, at)), FiftySeconds())
  {
    var e := AlertEvent(kind, at);
    after := Holding(instance, before.events + [e], before.deliveries + Filter(Notifies(), [e]));
    HoldingSole(instance, after.events, after.deliveries);
    forall key: Key
      ensures KeyStep(key, At(before.rows, key), At(after.rows, key), Filter(OfKey(key), [e]),
                      RuleFor([FiringRule()], key.ruleId), key in FiredKeys(TriggersIf(fired)), Seconds(at))
    {
      SoleKeyStep(current, instance, fired, at, kind, key);
    }
    forall id | RuleFor([FiringRule()], id).Some? ensures RuleFor([FiringRule()], id).value.cooldownSeconds == 50 {
      FiredSolely(fired, Key(id, ""));
    }
  }

  lemma RunGrows(states: seq<Store>, syncs: seq<Sync>, after: Store, sync: Sync)
    requires Run(states, syncs, FiftySeconds()) && SyncTaken(states[|syncs|], after, sync, FiftySeconds())
    ensures Run(states + [after], syncs + [sync], FiftySeconds())
  {
    var longer, all := states + [after], syncs + [sync];
    forall i | 0 <= i < |all| ensures SyncTakenAt(longer, all, FiftySeconds(), i) {
      if i < |syncs| {
        assert SyncTakenAt(states, syncs, FiftySeconds(), i);
      }
    }
  }

  lemma Extend(states: seq<Store>, syncs: seq<Sync>, current: Option<Instance>, instance: Instance, fired: bool,
               at: int, kind: EventKind) returns (longer: seq<Store>, all: seq<Sync>)
    requires Run(states, syncs, FiftySeconds()) && Sole(states[|syncs|], current)
    requires instance.key == ALERT && instance.id == 7 && !instance.status.Inactive?
    requires KeyNext(ALERT, current, Some(FiringRule()), fired, 7, Seconds(at)) == (Some(instance), Some(kind))
    ensures Run(longer, all, FiftySeconds()) && |all| == |syncs| + 1 && Sole(longer[|all|], Some(instance))
    ensures longer[|all|].events == states[|syncs|].events + [AlertEvent(kind, at)]
  {
    var after := SoleSync(states[|syncs|], current, instance, fired, at, kind);
    RunGrows(states, syncs, after, SyncAt(fired, at, AlertEvent(kind, at)));
    longer, all := states + [after], syncs + [SyncAt(fired, at, AlertEvent(kind, at))];
  }

  function Announcements(): seq<Event> {
    [AlertEvent(TriggeredEvent, 100), AlertEvent(ResolvedEvent, 101), AlertEvent(SuppressedEvent(true), 60),
     AlertEvent(ResolvedEvent, 102), AlertEvent(TriggeredEvent, 110)]
  }

  lemma {:induction false} SoleHistory(events: seq<Event>)
    requires forall i :: 0 <= i < |events| ==> events[i].key == ALERT
    ensures Filter(OfKey(ALERT), events) == events
  {
    if events != [] {
      var n := |events| - 1;
      SoleHistory(events[..n]);
      assert events == events[..n] + [events[n]];
    }
  }

  /** Fired at 100, resolved, reopened with a backdated 60 inside the cooldown of 50, resolved, and fired at 110. */
  lemma BackdatedEvents() returns (states: seq<Store>, syncs: seq<Sync>)
    ensures Run(states, syncs, FiftySeconds()) && |syncs| == 5 && states[5].events == Announcements()
  {
    states, syncs := [Store(map[], 7, [], [])], [];
    states, syncs := Extend(states, syncs, None, FiringAt(100), true, 100, TriggeredEvent);
    states, syncs := Extend(states, syncs, Some(FiringAt(100)), ResolvedAt(100, 101), false, 101, ResolvedEvent);
    states, syncs := Extend(states, syncs, Some(ResolvedAt(100, 101)), FiringAt(60), true, 60, SuppressedEvent(true));
    states, syncs := Extend(states, syncs, Some(FiringAt(60)), ResolvedAt(60, 102), false, 102, ResolvedEvent);
    states, syncs := Extend(states, syncs, Some(ResolvedAt(60, 102)), FiringAt(110), true, 110, TriggeredEvent);
  }

  /** Its two announcements are ten seconds apart, under a cooldown of fifty. */
  lemma BackdatedReopeningBreaksSpacing() returns (states: seq<Store>, syncs: seq<Sync>)
    ensures Run(states, syncs, FiftySeconds()) && |syncs| == 5
    ensures var h := History(states[5], ALERT);
            && |h| == 5 && h[0].kind == h[4].kind == TriggeredEvent
            && h[4].at - h[0].at == Seconds(10) < CooldownNanos(FiftySeconds(), ALERT) == Seconds(50)
  {
    states, syncs := BackdatedEvents();
    SoleHistory(Announcements());
  }
}

/** Whole runs of serial alert syncs: event accounting, cooldown spacing, agreement with triggers. */
module AlertRuns {
  import opened Wrappers
  import opened Units
  import opened Sequences
  import opened Evaluation
  import opened AlertStore
  import opened AlertSync

  // ----- one sync

  /** After a sync the firing keys of the evaluated rules are exactly the triggers' keys; instances of
      other rules are untouched and get no event; an instance keeps its id and every event carries it. */
  lemma {:induction false} SyncAgreesWithTriggers(before: Store, after: Store, added: seq<Event>, rules: seq<Rule>,
                                                  triggers: seq<Trigger>, now: int, key: Key)
    requires Valid(before) && SyncStep(before, after, added, rules, triggers, now)
    ensures RuleFor(rules, key.ruleId).Some? ==>
              (key in FiredKeys(triggers) <==> At(after.rows, key).Some? && At(after.rows, key).value.status.Firing?)
    ensures RuleFor(rules, key.ruleId).None? ==>
              At(after.rows, key) == At(before.rows, key) && Filter(OfKey(key), added) == []
    ensures At(before.rows, key).Some? ==>
              At(after.rows, key).Some? && At(after.rows, key).value.id == At(before.rows, key).value.id
    ensures forall e :: e in added && e.key == key ==>
            At(after.rows, key).Some? && e.instanceId == At(after.rows, key).value.id
  {
    var own := Filter(OfKey(key), added);
    assert KeyStep(key, At(before.rows, key), At(after.rows, key), own,
                   RuleFor(rules, key.ruleId), key in FiredKeys(triggers), now);
    ValidStatus(before, key);
    KeyAgrees(key, At(before.rows, key), At(after.rows, key), own, RuleFor(rules, key.ruleId),
              key in FiredKeys(triggers), now);
    forall e | e in added && e.key == key ensures e in own {
      FilterMember(OfKey(key), added, e);
    }
  }

  lemma KeyAgrees(key: Key, before: Option<Instance>, after: Option<Instance>, own: seq<Event>,
                  rule: Option<Rule>, fired: bool, now: int)
    requires KeyStep(key, before, after, own, rule, fired, now)
    requires before.Some? ==> !before.value.status.Inactive?
    ensures rule.Some? ==> (fired <==> after.Some? && after.value.status.Firing?)
    ensures rule.None? ==> after == before && own == []
    ensures before.Some? ==> after.Some? && after.value.id == before.value.id
    ensures forall e :: e in own ==> after.Some? && e.instanceId == after.value.id && e.at == now
    ensures |own| <= 1
  {
  }

  lemma ValidStatus(s: Store, key: Key)
    requires Valid(s)
    ensures At(s.rows, key).Some? ==> !At(s.rows, key).value.status.Inactive?
  {
    if At(s.rows, key).Some? {
      var id :| id in s.rows && s.rows[id].key == key;
      AtRow(s.rows, id);
    }
  }

  // ----- the language of one key's event history

  predicate Opens(e: Event) {
    e.kind.TriggeredEvent? || e.kind == SuppressedEvent(true)
  }

  /** Whether the alert is firing after the history. */
  predicate Open(h: seq<Event>) {
    h != [] &&
    var last := h[|h| - 1];
    if Opens(last) then true else if last.kind.ResolvedEvent? then false else Open(h[..|h| - 1])
  }

  function LastOpening(h: seq<Event>): Option<int> {
    if h == [] then None
    else
      var last := h[|h| - 1];
      if Opens(last) then Some(last.at) else LastOpening(h[..|h| - 1])
  }

  function LastResolution(h: seq<Event>): Option<int> {
    if h == [] then None
    else
      var last := h[|h| - 1];
      if last.kind.ResolvedEvent? then Some(last.at) else LastResolution(h[..|h| - 1])
  }

  predicate Legal(h: seq<Event>, cooldown: int) {
    h == [] ||
    var past, last := h[..|h| - 1], h[|h| - 1];
    && Legal(past, cooldown)
    && match last.kind
       case TriggeredEvent => !Open(past) && (LastOpening(past).None? || !Soon(past, last, cooldown))
       case SuppressedEvent(reopening) =>
         if reopening then !Open(past) && LastOpening(past).Some? && Soon(past, last, cooldown) else Open(past)
       case ResolvedEvent => Open(past)
  }

  /** An opening sooner than the cooldown after the previous opening. */
  predicate Soon(past: seq<Event>, e: Event, cooldown: int) {
    LastOpening(past).Some? && cooldown > 0 && e.at - LastOpening(past).value < cooldown
  }

  function Count(p: Event -> bool, h: seq<Event>): nat {
    |Filter(p, h)|
  }

  function Opening(): Event -> bool { (e: Event) => Opens(e) }
  function Triggering(): Event -> bool { (e: Event) => e.kind.TriggeredEvent? }
  function Resolving(): Event -> bool { (e: Event) => e.kind.ResolvedEvent? }

  /** Openings minus resolutions is one while the alert fires and zero otherwise. */
  lemma {:induction false} OpeningsBalance(h: seq<Event>, cooldown: int)
    requires Legal(h, cooldown)
    ensures Count(Opening(), h) - Count(Resolving(), h) == if Open(h) then 1 else 0
  {
    if h != [] {
      OpeningsBalance(h[..|h| - 1], cooldown);
    }
  }

  lemma {:induction false} NotificationsCount(h: seq<Event>)
    ensures |Filter(Notifies(), h)| == Count(Triggering(), h) + Count(Resolving(), h)
  {
    if h != [] {
      NotificationsCount(h[..|h| - 1]);
    }
  }

  lemma {:induction false} LegalPrefix(h: seq<Event>, cooldown: int, n: nat)
    requires Legal(h, cooldown) && n <= |h|
    ensures Legal(h[..n], cooldown)
  {
    if n < |h| {
      LegalPrefix(h[..|h| - 1], cooldown, n);
      assert h[..|h| - 1][..n] == h[..n];
    } else {
      assert h[..n] == h;
    }
  }

  /** An alert that was firing and is not any more was resolved in between. */
  lemma {:induction false} ClosedByResolve(h: seq<Event>, i: nat, j: nat)
    requires i <= j <= |h| && Open(h[..i]) && !Open(h[..j])
    ensures exists m :: i <= m < j && h[m].kind.ResolvedEvent?
  {
    if i < j {
      assert h[..j][..j - 1] == h[..j - 1];
      if Open(h[..j - 1]) {
        assert h[j - 1].kind.ResolvedEvent?;
      } else {
        ClosedByResolve(h, i, j - 1);
      }
    }
  }

  /** Two openings, and so two triggered events, always have a resolved event between them. */
  lemma {:induction false} ResolvedBetweenOpenings(h: seq<Event>, cooldown: int, i: nat, j: nat)
    requires Legal(h, cooldown) && i < j < |h| && Opens(h[i]) && Opens(h[j])
    ensures exists m :: i < m < j && h[m].kind.ResolvedEvent?
  {
    LegalPrefix(h, cooldown, j + 1);
    assert h[..j + 1][..j] == h[..j] && h[..i + 1][..i] == h[..i];
    ClosedByResolve(h, i + 1, j);
  }

  /** An opening is triggered exactly when no earlier opening is closer than the cooldown. */
  lemma OpeningTriggeredIff(h: seq<Event>, cooldown: int, j: nat)
    requires Legal(h, cooldown) && j < |h| && Opens(h[j])
    ensures h[j].kind.TriggeredEvent? <==> !Soon(h[..j], h[j], cooldown)
  {
    LegalPrefix(h, cooldown, j + 1);
    assert h[..j + 1][..j] == h[..j];
  }

  predicate Chronological(h: seq<Event>) {
    forall i, j :: 0 <= i < j < |h| ==> h[i].at <= h[j].at
  }

  lemma {:induction false} LastOpeningAtLeast(h: seq<Event>, i: nat)
    requires Chronological(h) && i < |h| && Opens(h[i])
    ensures LastOpening(h).Some? && LastOpening(h).value >= h[i].at
  {
    var n := |h| - 1;
    if !Opens(h[n]) {
      LastOpeningAtLeast(h[..n], i);
    }
  }

  /** Triggered events of one key are at least the cooldown apart. */
  lemma TriggeredSpacing(h: seq<Event>, cooldown: int, i: nat, j: nat)
    requires Legal(h, cooldown) && Chronological(h) && i < j < |h|
    requires h[i].kind.TriggeredEvent? && h[j].kind.TriggeredEvent?
    ensures h[j].at - h[i].at >= cooldown
  {
    OpeningTriggeredIff(h, cooldown, j);
    LastOpeningAtLeast(h[..j], i);
  }

  /** Only the first opening is ever announced, exactly when every reopening comes sooner than the
      cooldown after the opening before it: suppressed reopenings restart the clock too. */
  lemma OnlyFirstTriggered(h: seq<Event>, cooldown: int)
    requires Legal(h, cooldown)
    ensures (forall j :: 0 <= j < |h| && h[j].kind.TriggeredEvent? ==> LastOpening(h[..j]).None?) <==>
            (forall j :: 0 <= j < |h| && Opens(h[j]) && LastOpening(h[..j]).Some? ==> Soon(h[..j], h[j], cooldown))
  {
    forall j | 0 <= j < |h| && Opens(h[j])
      ensures h[j].kind.TriggeredEvent? <==> !Soon(h[..j], h[j], cooldown)
    {
      OpeningTriggeredIff(h, cooldown, j);
    }
  }

  function LastAnnouncement(h: seq<Event>): Option<int> {
    if h == [] then None
    else
      var last := h[|h| - 1];
      if last.kind.TriggeredEvent? then Some(last.at) else LastAnnouncement(h[..|h| - 1])
  }

  /** The first opening is always announced. */
  lemma {:induction false} AnnouncedOnceOpened(h: seq<Event>, cooldown: int)
    requires Legal(h, cooldown)
    ensures LastOpening(h).Some? <==> LastAnnouncement(h).Some?
  {
    if h != [] {
      AnnouncedOnceOpened(h[..|h| - 1], cooldown);
    }
  }

  // ----- runs

  /** A committed sync with its new events, or one whose transaction rolled back. */
  datatype Sync = Committed(rules: seq<Rule>, triggers: seq<Trigger>, now: int, added: seq<Event>) | RolledBack

  ghost predicate SyncTaken(before: Store, after: Store, sync: Sync, cooldown: int -> int) {
    match sync
    case RolledBack =>
      after.rows == before.rows && after.events == before.events && after.deliveries == before.deliveries
    case Committed(rules, triggers, now, added) =>
      && Valid(after) && SyncStep(before, after, added, rules, triggers, now)
      && forall id :: RuleFor(rules, id).Some? ==> RuleFor(rules, id).value.cooldownSeconds == cooldown(id)
  }

  ghost predicate SyncTakenAt(states: seq<Store>, syncs: seq<Sync>, cooldown: int -> int, i: nat)
    requires |states| == |syncs| + 1 && i < |syncs|
  {
    SyncTaken(states[i], states[i + 1], syncs[i], cooldown)
  }

  /** A serial run from empty tables, cooldowns fixed throughout. */
  ghost predicate Run(states: seq<Store>, syncs: seq<Sync>, cooldown: int -> int) {
    && |states| == |syncs| + 1
    && states[0].rows == map[] && states[0].events == [] && states[0].deliveries == []
    && forall i :: 0 <= i < |syncs| ==> SyncTakenAt(states, syncs, cooldown, i)
  }

  ghost function History(s: Store, key: Key): seq<Event> {
    Filter(OfKey(key), s.events)
  }

  function CooldownNanos(cooldown: int -> int, key: Key): int {
    cooldown(key.ruleId) * 1_000_000_000
  }

  /** The row is what the history says: its status, its times and its id. */
  ghost predicate Reflects(instance: Instance, h: seq<Event>) {
    && !instance.status.Inactive? && (instance.status.Firing? <==> Open(h))
    && LastOpening(h) == Some(instance.firstFiredAt) == Some(instance.lastFiredAt)
    && instance.resolvedAt == (if Open(h) then None else LastResolution(h))
    && forall e :: e in h ==> e.instanceId == instance.id
  }

  ghost predicate KeyInv(s: Store, key: Key, cooldown: int) {
    var h, instance := History(s, key), At(s.rows, key);
    && Legal(h, cooldown)
    && (instance.None? ==> h == [])
    && (instance.Some? ==> Reflects(instance.value, h))
    && Filter(OfKey(key), s.deliveries) == Filter(Notifies(), h)
  }

  lemma {:induction false} FilterCommute(p: Event -> bool, q: Event -> bool, xs: seq<Event>)
    ensures Filter(p, Filter(q, xs)) == Filter(q, Filter(p, xs))
  {
    if xs != [] {
      var n := |xs| - 1;
      FilterCommute(p, q, xs[..n]);
      FilterSnoc(p, Filter(q, xs[..n]), xs[n]);
      FilterSnoc(q, Filter(p, xs[..n]), xs[n]);
      if !q(xs[n]) { assert Filter(q, xs) == Filter(q, xs[..n]); }
      if !p(xs[n]) { assert Filter(p, xs) == Filter(p, xs[..n]); }
    }
  }

  lemma ProjectStep(before: Store, after: Store, added: seq<Event>, rules: seq<Rule>, triggers: seq<Trigger>, now: int,
                    key: Key)
    requires SyncStep(before, after, added, rules, triggers, now)
    ensures History(after, key) == History(before, key) + Filter(OfKey(key), added)
    ensures Filter(OfKey(key), after.deliveries) ==
            Filter(OfKey(key), before.deliveries) + Filter(Notifies(), Filter(OfKey(key), added))
    ensures Filter(Notifies(), History(after, key)) ==
            Filter(Notifies(), History(before, key)) + Filter(Notifies(), Filter(OfKey(key), added))
  {
    FilterConcat(OfKey(key), before.events, added);
    FilterConcat(OfKey(key), before.deliveries, Filter(Notifies(), added));
    FilterCommute(OfKey(key), Notifies(), added);
    FilterConcat(Notifies(), History(before, key), Filter(OfKey(key), added));
  }

  lemma StepKeepsKeyInv(before: Store, after: Store, sync: Sync, cooldown: int -> int, key: Key)
    requires SyncTaken(before, after, sync, cooldown) && KeyInv(before, key, CooldownNanos(cooldown, key))
    ensures KeyInv(after, key, CooldownNanos(cooldown, key))
  {
    match sync {
      case RolledBack =>
      case Committed(rules, triggers, now, added) =>
        ProjectStep(before, after, added, rules, triggers, now, key);
        var rule, fired := RuleFor(rules, key.ruleId), key in FiredKeys(triggers);
        var newest := Filter(OfKey(key), added);
        assert KeyStep(key, At(before.rows, key), At(after.rows, key), newest, rule, fired, now);
        HistoryGrows(History(before, key), newest, At(before.rows, key), At(after.rows, key), rule, fired, now,
                     CooldownNanos(cooldown, key), key);
    }
  }

  lemma HistoryGrows(h: seq<Event>, newest: seq<Event>, before: Option<Instance>, after: Option<Instance>,
                     rule: Option<Rule>, fired: bool, now: int, cooldown: int, key: Key)
    requires KeyStep(key, before, after, newest, rule, fired, now)
    requires rule.Some? ==> rule.value.cooldownSeconds * 1_000_000_000 == cooldown
    requires Legal(h, cooldown) && (before.None? ==> h == [])
    requires before.Some? ==> Reflects(before.value, h)
    ensures Legal(h + newest, cooldown) && (after.None? ==> h + newest == [])
    ensures after.Some? ==> Reflects(after.value, h + newest)
  {
    if newest == [] {
      assert h + newest == h;
    } else {
      assert |newest| == 1;
      assert (h + newest)[..|h|] == h;
    }
  }

  lemma StartKeyInv(s: Store, key: Key, cooldown: int)
    requires s.rows == map[] && s.events == [] && s.deliveries == []
    ensures KeyInv(s, key, cooldown)
  {
  }

  lemma RunStep(states: seq<Store>, syncs: seq<Sync>, cooldown: int -> int, n: nat)
    requires Run(states, syncs, cooldown) && 0 < n < |states|
    ensures SyncTaken(states[n - 1], states[n], syncs[n - 1], cooldown)
  {
    assert SyncTakenAt(states, syncs, cooldown, n - 1);
  }

  ghost function KeyInvariant(key: Key, cooldown: int): Store -> bool {
    (s: Store) => KeyInv(s, key, cooldown)
  }

  /** What holds at the start and is kept by every step holds throughout. */
  lemma {:induction false} HoldsThroughout(states: seq<Store>, inv: Store -> bool, n: nat)
    requires n < |states| && inv(states[0])
    requires forall i :: 0 <= i < |states| - 1 && inv(states[i]) ==> inv(states[i + 1])
    ensures inv(states[n])
    decreases n
  {
    if n > 0 {
      HoldsThroughout(states, inv, n - 1);
      assert inv(states[n - 1 + 1]);
    }
  }

  lemma StepKeepsInvariant(states: seq<Store>, syncs: seq<Sync>, cooldown: int -> int, i: nat, key: Key)
    requires Run(states, syncs, cooldown) && i < |states| - 1
    ensures var inv := KeyInvariant(key, CooldownNanos(cooldown, key)); inv(states[i]) ==> inv(states[i + 1])
  {
    RunStep(states, syncs, cooldown, i + 1);
    if KeyInv(states[i], key, CooldownNanos(cooldown, key)) {
      StepKeepsKeyInv(states[i], states[i + 1], syncs[i], cooldown, key);
    }
  }

  lemma RunKeepsKeyInv(states: seq<Store>, syncs: seq<Sync>, cooldown: int -> int, n: nat, key: Key)
    requires Run(states, syncs, cooldown) && n < |states|
    ensures KeyInv(states[n], key, CooldownNanos(cooldown, key))
  {
    var inv := KeyInvariant(key, CooldownNanos(cooldown, key));
    StartKeyInv(states[0], key, CooldownNanos(cooldown, key));
    forall i | 0 <= i < |states| - 1 && inv(states[i]) ensures inv(states[i + 1]) {
      StepKeepsInvariant(states, syncs, cooldown, i, key);
    }
    HoldsThroughout(states, inv, n);
  }

  /** The last event of its kind in the history is stamped at this time. */
  ghost predicate LatestAt(h: seq<Event>, kind: Event -> bool, at: int) {
    exists j :: 0 <= j < |h| && kind(h[j]) && h[j].at == at && forall k :: j < k < |h| ==> !kind(h[k])
  }

  lemma LatestStays(h: seq<Event>, kind: Event -> bool, at: int)
    requires h != [] && !kind(h[|h| - 1]) && LatestAt(h[..|h| - 1], kind, at)
    ensures LatestAt(h, kind, at)
  {
    var past := h[..|h| - 1];
    var j :| 0 <= j < |past| && kind(past[j]) && past[j].at == at && forall k :: j < k < |past| ==> !kind(past[k]);
    forall k | j < k < |h| ensures !kind(h[k]) {
      assert k < |past| ==> h[k] == past[k];
    }
    assert kind(h[j]);
  }

  lemma {:induction false} LatestStamps(h: seq<Event>)
    ensures LastOpening(h).Some? ==> LatestAt(h, Opening(), LastOpening(h).value)
    ensures LastResolution(h).Some? ==> LatestAt(h, Resolving(), LastResolution(h).value)
  {
    if h != [] {
      var last := h[|h| - 1];
      LatestStamps(h[..|h| - 1]);
      if LastOpening(h).Some? && !Opens(last) {
        LatestStays(h, Opening(), LastOpening(h).value);
      }
      if LastResolution(h).Some? && !last.kind.ResolvedEvent? {
        LatestStays(h, Resolving(), LastResolution(h).value);
      }
    }
  }

  lemma {:induction false} ClosedHasResolution(h: seq<Event>)
    requires !Open(h) && LastOpening(h).Some?
    ensures LastResolution(h).Some?
  {
    if !Opens(h[|h| - 1]) && !h[|h| - 1].kind.ResolvedEvent? {
      ClosedHasResolution(h[..|h| - 1]);
    }
  }

  /** Along every run the times of a row are those of its events: it fired first and last at its last opening, and is
      resolved as of its last resolution, or not at all while it fires. */
  lemma InstanceTimesAreEventTimes(states: seq<Store>, syncs: seq<Sync>, cooldown: int -> int, n: nat, key: Key)
    requires Run(states, syncs, cooldown) && n < |states| && At(states[n].rows, key).Some?
    ensures var h, instance := History(states[n], key), At(states[n].rows, key).value;
            && instance.key == key
            && LatestAt(h, Opening(), instance.firstFiredAt) && instance.lastFiredAt == instance.firstFiredAt
            && (instance.status.Firing? <==> instance.resolvedAt.None?)
            && (instance.status.Resolved? <==> instance.resolvedAt.Some?)
            && (instance.resolvedAt.Some? ==> LatestAt(h, Resolving(), instance.resolvedAt.value))
  {
    RunKeepsKeyInv(states, syncs, cooldown, n, key);
    LatestStamps(History(states[n], key));
    if !Open(History(states[n], key)) {
      ClosedHasResolution(History(states[n], key));
    }
  }

  /** Event accounting of any serial run: openings minus resolutions is 1 exactly while the instance
      fires, every event carries its instance's id, and deliveries are triggered plus resolved. */
  lemma LifecycleAccounting(states: seq<Store>, syncs: seq<Sync>, cooldown: int -> int, n: nat, key: Key)
    requires Run(states, syncs, cooldown) && n < |states|
    ensures
      var h, instance := History(states[n], key), At(states[n].rows, key);
      && Count(Opening(), h) - Count(Resolving(), h) ==
           (if instance.Some? && instance.value.status.Firing? then 1 else 0)
      && |Filter(OfKey(key), states[n].deliveries)| == Count(Triggering(), h) + Count(Resolving(), h)
      && (instance.None? ==> h == [])
      && (instance.Some? ==> forall e :: e in h ==> e.instanceId == instance.value.id)
  {
    RunKeepsKeyInv(states, syncs, cooldown, n, key);
    OpeningsBalance(History(states[n], key), CooldownNanos(cooldown, key));
    NotificationsCount(History(states[n], key));
  }

  /** Two announcements of one key in any serial run have its resolution between them. */
  lemma AnnouncementsAlternate(states: seq<Store>, syncs: seq<Sync>, cooldown: int -> int, n: nat, key: Key, i: nat,
                               j: nat)
    requires Run(states, syncs, cooldown) && n < |states|
    requires i < j < |History(states[n], key)|
    requires History(states[n], key)[i].kind.TriggeredEvent? && History(states[n], key)[j].kind.TriggeredEvent?
    ensures exists m :: i < m < j && History(states[n], key)[m].kind.ResolvedEvent?
  {
    RunKeepsKeyInv(states, syncs, cooldown, n, key);
    ResolvedBetweenOpenings(History(states[n], key), CooldownNanos(cooldown, key), i, j);
  }

  /** In any serial run an opening is announced exactly when it does not come within the rule's cooldown of the
      opening before it, though the code only reads last_fired_at off the instance. */
  lemma AnnouncedIffCooledDown(states: seq<Store>, syncs: seq<Sync>, cooldown: int -> int, n: nat, key: Key, j: nat)
    requires Run(states, syncs, cooldown) && n < |states|
    requires j < |History(states[n], key)| && Opens(History(states[n], key)[j])
    ensures var h := History(states[n], key);
            h[j].kind.TriggeredEvent? <==> !Soon(h[..j], h[j], CooldownNanos(cooldown, key))
  {
    RunKeepsKeyInv(states, syncs, cooldown, n, key);
    OpeningTriggeredIff(History(states[n], key), CooldownNanos(cooldown, key), j);
  }

  /** When the next announcement of a resolved alert is due, whatever time it is observed at: the sync's own choice. */
  predicate NextAnnounces(key: Key, instance: Instance, rule: Rule, now: int) {
    KeyNext(key, Some(instance), Some(rule), true, instance.id, now).1 == Some(TriggeredEvent)
  }

  /** The exact condition for the spacing, observation times in any order: in every reachable state the next
      announcement of a resolved alert is sure to keep the cooldown from the latest one exactly when no later opening
      was stamped before that one. */
  lemma NextAnnouncementSpacedIff(states: seq<Store>, syncs: seq<Sync>, cooldown: int -> int, n: nat, key: Key,
                                  rule: Rule)
    requires Run(states, syncs, cooldown) && n < |states|
    requires At(states[n].rows, key).Some? && At(states[n].rows, key).value.status.Resolved?
    requires rule.cooldownSeconds == cooldown(key.ruleId) > 0
    ensures var h, instance := History(states[n], key), At(states[n].rows, key).value;
            && LastAnnouncement(h).Some?
            && ((forall now :: NextAnnounces(key, instance, rule, now) ==>
                   now - LastAnnouncement(h).value >= CooldownNanos(cooldown, key))
                <==> instance.lastFiredAt >= LastAnnouncement(h).value)
  {
    RunKeepsKeyInv(states, syncs, cooldown, n, key);
    var h, instance := History(states[n], key), At(states[n].rows, key).value;
    AnnouncedOnceOpened(h, CooldownNanos(cooldown, key));
    assert NextAnnounces(key, instance, rule, instance.lastFiredAt + CooldownNanos(cooldown, key));
  }

  /** A sync that fires an alert which is firing already adds one suppressed event and nothing else, however long ago
      the alert opened: no match re-triggers an active alert. */
  lemma FiringAlertSuppressed(states: seq<Store>, syncs: seq<Sync>, cooldown: int -> int, n: nat, key: Key)
    requires Run(states, syncs, cooldown) && n < |syncs| && syncs[n].Committed?
    requires RuleFor(syncs[n].rules, key.ruleId).Some? && key in FiredKeys(syncs[n].triggers)
    requires At(states[n].rows, key).Some? && At(states[n].rows, key).value.status.Firing?
    ensures At(states[n + 1].rows, key) == At(states[n].rows, key)
    ensures History(states[n + 1], key) ==
            History(states[n], key) +
            [Event(At(states[n].rows, key).value.id, key, SuppressedEvent(false), syncs[n].now)]
    ensures Filter(OfKey(key), states[n + 1].deliveries) == Filter(OfKey(key), states[n].deliveries)
  {
    RunStep(states, syncs, cooldown, n + 1);
    RunKeepsKeyInv(states, syncs, cooldown, n, key);
    RunKeepsKeyInv(states, syncs, cooldown, n + 1, key);
    match syncs[n] {
      case Committed(rules, triggers, now, added) =>
        ProjectStep(states[n], states[n + 1], added, rules, triggers, now, key);
        SuppressedAlone(History(states[n], key), Filter(OfKey(key), added));
    }
  }

  lemma SuppressedAlone(h: seq<Event>, newest: seq<Event>)
    requires |newest| == 1 ==> !Notifies()(newest[0])
    ensures |newest| == 1 ==> Filter(Notifies(), h + newest) == Filter(Notifies(), h)
  {
    if |newest| == 1 {
      FilterSnoc(Notifies(), h, newest[0]);
      assert newest == [newest[0]];
    }
  }

  // ----- cooldown over runs with nondecreasing observation times

  predicate NoEarlierThan(sync: Sync, t: int) {
    sync.Committed? ==> t <= sync.now
  }

  ghost predicate Nondecreasing(syncs: seq<Sync>) {
    forall i, j :: 0 <= i < j < |syncs| && syncs[i].Committed? ==> NoEarlierThan(syncs[j], syncs[i].now)
  }

  ghost predicate Stamped(h: seq<Event>, syncs: seq<Sync>, n: nat)
    requires n <= |syncs|
  {
    forall e :: e in h ==> exists i :: 0 <= i < n && syncs[i].Committed? && syncs[i].now == e.at
  }

  lemma {:induction false} HistoryChronological(states: seq<Store>, syncs: seq<Sync>, cooldown: int -> int, n: nat,
                                                key: Key)
    requires Run(states, syncs, cooldown) && Nondecreasing(syncs) && n < |states|
    ensures Chronological(History(states[n], key)) && Stamped(History(states[n], key), syncs, n)
  {
    if n > 0 {
      HistoryChronological(states, syncs, cooldown, n - 1, key);
      RunStep(states, syncs, cooldown, n);
      RunKeepsKeyInv(states, syncs, cooldown, n - 1, key);
      match syncs[n - 1] {
        case RolledBack =>
        case Committed(rules, triggers, now, added) =>
          ProjectStep(states[n - 1], states[n], added, rules, triggers, now, key);
          var newest := Filter(OfKey(key), added);
          KeyAgrees(key, At(states[n - 1].rows, key), At(states[n].rows, key), newest,
                    RuleFor(rules, key.ruleId), key in FiredKeys(triggers), now);
          HistoryExtends(History(states[n - 1], key), newest, syncs, n);
      }
    }
  }

  lemma HistoryExtends(h: seq<Event>, newest: seq<Event>, syncs: seq<Sync>, n: nat)
    requires 0 < n <= |syncs| && syncs[n - 1].Committed? && Nondecreasing(syncs)
    requires Chronological(h) && Stamped(h, syncs, n - 1)
    requires |newest| <= 1 && forall e :: e in newest ==> e.at == syncs[n - 1].now
    ensures Chronological(h + newest) && Stamped(h + newest, syncs, n)
  {
    forall e | e in h ensures e.at <= syncs[n - 1].now {
      var i :| 0 <= i < n - 1 && syncs[i].Committed? && syncs[i].now == e.at;
      assert NoEarlierThan(syncs[n - 1], syncs[i].now);
    }
    assert forall i :: 0 <= i < |h| ==> h[i] in h;
  }

  /** In a run with nondecreasing observation times any two triggered events of a key are at least the
      rule's cooldown apart. */
  lemma AnnouncementsSpaced(states: seq<Store>, syncs: seq<Sync>, cooldown: int -> int, n: nat, key: Key, i: nat,
                            j: nat)
    requires Run(states, syncs, cooldown) && Nondecreasing(syncs) && n < |states|
    requires i < j < |History(states[n], key)|
    requires History(states[n], key)[i].kind.TriggeredEvent? && History(states[n], key)[j].kind.TriggeredEvent?
    ensures History(states[n], key)[j].at - History(states[n], key)[i].at >= CooldownNanos(cooldown, key)
  {
    RunKeepsKeyInv(states, syncs, cooldown, n, key);
    HistoryChronological(states, syncs, cooldown, n, key);
    TriggeredSpacing(History(states[n], key), CooldownNanos(cooldown, key), i, j);
  }

  /** In any serial run a key announces only its first opening exactly when every reopening comes
      sooner than the cooldown after the opening before it. */
  lemma FlappingAnnouncedOnce(states: seq<Store>, syncs: seq<Sync>, cooldown: int -> int, n: nat, key: Key)
    requires Run(states, syncs, cooldown) && n < |states|
    ensures
      var h := History(states[n], key);
      (forall j :: 0 <= j < |h| && h[j].kind.TriggeredEvent? ==> LastOpening(h[..j]).None?) <==>
      (forall j :: 0 <= j < |h| && Opens(h[j]) && LastOpening(h[..j]).Some? ==>
         Soon(h[..j], h[j], CooldownNanos(cooldown, key)))
  {
    RunKeepsKeyInv(states, syncs, cooldown, n, key);
    OnlyFirstTriggered(History(states[n], key), CooldownNanos(cooldown, key));
  }
}

/** The incremental alert engine of internal/alerts/engine.go: one event-time window per
    tenant and rule, kept across batches. */
module AlertEngine {
  import opened Wrappers
  import opened Numbers
  import opened Units
  import opened Sequences
  import opened Positions
  import opened Evaluation
  import Keys

  /** Conversion of an unsigned 64-bit tenant id to a signed one. */
  function ToInt64(id: int): int {
    if id < TWO_TO_63 then id else id - 2 * TWO_TO_63
  }

  function TenantOf(rule: Rule, records: seq<Record>): int {
    if rule.tenantId == 0 && records != [] then ToInt64(records[0].tenantId) else rule.tenantId
  }

  function RuleKey(rule: Rule, records: seq<Record>): string {
    Keys.Join(Keys.Decimal(TenantOf(rule, records)), Keys.Decimal(rule.id))
  }

  /** The tenant of the first record, as an unsigned 64-bit number. */
  function FirstTenant(records: seq<Record>): Option<int> {
    if records != [] && 0 <= records[0].tenantId < 0x1_0000_0000_0000_0000 then Some(records[0].tenantId) else None
  }

  /** Windows are shared exactly by calls for the same tenant and the same rule. */
  lemma RuleKeySeparates(r: Rule, rs: seq<Record>, s: Rule, ss: seq<Record>)
    ensures RuleKey(r, rs) == RuleKey(s, ss) <==> TenantOf(r, rs) == TenantOf(s, ss) && r.id == s.id
    // A rule with a tenant is that tenant's; a rule without one takes it from the first record.
    ensures r.tenantId != 0 && s.tenantId != 0 ==>
              (RuleKey(r, rs) == RuleKey(s, ss) <==> r.tenantId == s.tenantId && r.id == s.id)
    ensures r.tenantId == 0 && s.tenantId == 0 && FirstTenant(rs).Some? && FirstTenant(ss).Some? ==>
              (RuleKey(r, rs) == RuleKey(s, ss) <==> FirstTenant(rs) == FirstTenant(ss) && r.id == s.id)
    ensures 0 < r.tenantId < 0x8000_0000_0000_0000 && s.tenantId == 0 && FirstTenant(ss).Some? ==>
              (RuleKey(r, rs) == RuleKey(s, ss) <==> FirstTenant(ss) == Some(r.tenantId) && r.id == s.id)
  {
    Keys.NumberedKeyInjective(TenantOf(r, rs), Keys.Decimal(r.id), TenantOf(s, ss), Keys.Decimal(s.id));
    if Keys.Decimal(r.id) == Keys.Decimal(s.id) {
      Keys.DecimalInjective(r.id, s.id);
    }
  }

  function IngestIds(records: seq<Record>): set<string> {
    set r | r in records && r.ingestId != "" :: r.ingestId
  }

  function Unseen(ids: set<string>): Record -> bool {
    (r: Record) => r.ingestId == "" || r.ingestId !in ids
  }

  function Lookup(windows: map<string, seq<Record>>, key: string): seq<Record> {
    if key in windows then windows[key] else []
  }

  /** One batch: append what is not a redelivery of a retained batch, then evict. */
  function Advance(window: seq<Record>, batch: seq<Record>, windowSeconds: int): seq<Record> {
    InWindow(window + Filter(Unseen(IngestIds(window)), batch), windowSeconds)
  }

  // ----- the same step, said record by record

  /** A record without an id, or under one that no record of the window has. */
  ghost predicate New(window: seq<Record>, r: Record) {
    r.ingestId == "" || forall e :: e in window ==> e.ingestId != r.ingestId
  }

  ghost predicate NewOf(window: seq<Record>, batch: seq<Record>, added: seq<Record>) {
    exists at :: Picks(batch, added, at) && forall k :: 0 <= k < |batch| ==> (k in at <==> New(window, batch[k]))
  }

  /** The new records of the batch join at the end, and of all of them the recent ones stay, in order. */
  ghost predicate SlidesTo(window: seq<Record>, batch: seq<Record>, windowSeconds: int, next: seq<Record>) {
    exists added :: NewOf(window, batch, added) && RecentOf(window + added, windowSeconds, next)
  }

  lemma {:induction false} NewOfIff(window: seq<Record>, batch: seq<Record>, added: seq<Record>)
    ensures NewOf(window, batch, added) <==> added == Filter(Unseen(IngestIds(window)), batch)
  {
    var keep := Unseen(IngestIds(window));
    var at := FilterPicks(keep, batch);
    assert forall k :: 0 <= k < |batch| ==> (New(window, batch[k]) <==> keep(batch[k]));
    if NewOf(window, batch, added) {
      var bt :| Picks(batch, added, bt) && forall k :: 0 <= k < |batch| ==> (k in bt <==> New(window, batch[k]));
      PicksUnique(batch, added, Filter(keep, batch), bt, at);
    }
  }

  /** A step of the window is exactly that, whatever the window and the batch. */
  lemma {:induction false} AdvanceMeans(window: seq<Record>, batch: seq<Record>, windowSeconds: int, next: seq<Record>)
    requires windowSeconds > 0
    ensures SlidesTo(window, batch, windowSeconds, next) <==> next == Advance(window, batch, windowSeconds)
  {
    var added := Filter(Unseen(IngestIds(window)), batch);
    NewOfIff(window, batch, added);
    RecentOfIff(window + added, windowSeconds, next);
    if SlidesTo(window, batch, windowSeconds, next) {
      var other :| NewOf(window, batch, other) && RecentOf(window + other, windowSeconds, next);
      NewOfIff(window, batch, other);
    }
  }

  datatype Call = Call(rule: Rule, records: seq<Record>)

  function KeyOf(call: Call): string {
    RuleKey(call.rule, call.records)
  }

  function Step(windows: map<string, seq<Record>>, call: Call): map<string, seq<Record>> {
    if call.rule.windowSeconds <= 0 then windows
    else windows[KeyOf(call) := Advance(Lookup(windows, KeyOf(call)), call.records, call.rule.windowSeconds)]
  }

  ghost function Returned(windows: map<string, seq<Record>>, call: Call): Result<seq<Trigger>> {
    if call.rule.windowSeconds <= 0 then Outcome(call.rule, call.records)
    else Outcome(call.rule, Lookup(Step(windows, call), KeyOf(call)))
  }

  /** The first i records are compacted to the front, the rest are as they were. */
  ghost predicate Compacted(now: seq<Record>, was: seq<Record>, cutoff: int, i: nat, kept: nat) {
    && kept <= i <= |was| == |now|
    && now[..kept] == Filter(NotBefore(cutoff), was[..i])
    && now[i..] == was[i..]
  }

  lemma CompactOne(now: seq<Record>, was: seq<Record>, cutoff: int, i: nat, kept: nat)
    requires i < |was| && Compacted(now, was, cutoff, i, kept)
    ensures now[i] == was[i]
    ensures if was[i].timestamp >= cutoff then Compacted(now[kept := now[i]], was, cutoff, i + 1, kept + 1)
            else Compacted(now, was, cutoff, i + 1, kept)
  {
    assert now[i] == now[i..][0] == was[i..][0];
    FilterPrefix(NotBefore(cutoff), was, i);
    assert now[i + 1..] == now[i..][1..] && was[i + 1..] == was[i..][1..];
    var next := now[kept := now[i]];
    assert next[..kept + 1] == now[..kept] + [now[i]];
    assert next[i + 1..] == now[i + 1..];
  }

  class Engine {
    var windows: map<string, seq<Record>>

    constructor ()
      ensures windows == map[]
    {
      windows := map[];
    }

    method Evaluate(rule: Rule, records: seq<Record>) returns (result: Result<seq<Trigger>>)
      modifies this
      ensures windows == Step(old(windows), Call(rule, records))
      ensures result == Returned(old(windows), Call(rule, records))
      // The window under the call's key, record by record; no other window moves.
      ensures var key := RuleKey(rule, records);
              rule.windowSeconds > 0 ==>
                && windows == old(windows)[key := Lookup(windows, key)]
                && SlidesTo(Lookup(old(windows), key), records, rule.windowSeconds, Lookup(windows, key))
                && result == Outcome(rule, Lookup(windows, key))
      ensures rule.windowSeconds <= 0 ==> windows == old(windows) && result == Outcome(rule, records)
    {
      if rule.windowSeconds <= 0 {
        result := Evaluation.Evaluate(rule, records);
        return;
      }
      var key := RuleKey(rule, records);
      var existing := if key in windows then windows[key] else [];
      var window := Slide(existing, records, rule.windowSeconds);
      windows := windows[key := window];
      result := Evaluation.Evaluate(rule, window);
    }

    /** The next window, built in a slice of its own. */
    method Slide(existing: seq<Record>, records: seq<Record>, windowSeconds: int) returns (window: seq<Record>)
      requires windowSeconds > 0
      ensures window == Advance(existing, records, windowSeconds)
      ensures SlidesTo(existing, records, windowSeconds, window)
    {
      var existingIngestIds := IngestIds(existing);
      var appended := existing;
      for i := 0 to |records|
        invariant appended == existing + Filter(Unseen(existingIngestIds), records[..i])
      {
        FilterPrefix(Unseen(existingIngestIds), records, i);
        if records[i].ingestId == "" || records[i].ingestId !in existingIngestIds {
          appended := appended + [records[i]];
        }
      }
      assert records[..|records|] == records;
      var combined := new Record[|appended|](i requires 0 <= i < |appended| => appended[i]);
      assert combined[..] == appended;
      var kept := EvictInPlace(combined, appended, windowSeconds);
      window := combined[..kept];
      AdvanceMeans(existing, records, windowSeconds, window);
    }

    /** Compacts the slice onto its own front: the write position never passes the read position. */
    method EvictInPlace(combined: array<Record>, ghost was: seq<Record>, windowSeconds: int) returns (kept: nat)
      requires combined[..] == was && windowSeconds > 0
      modifies combined
      ensures kept <= combined.Length && combined[..kept] == InWindow(was, windowSeconds)
      ensures RecentOf(was, windowSeconds, combined[..kept])
    {
      kept := 0;
      var latest := LatestRecordTime(combined[..]);
      var cutoff := Cutoff(latest, windowSeconds);
      for i := 0 to combined.Length
        invariant kept <= i && Compacted(combined[..], was, cutoff, i, kept)
      {
        var record := combined[i];
        CompactOne(combined[..], was, cutoff, i, kept);
        assert record == was[i] && record in was;
        if !(record.timestamp < cutoff) && !(record.timestamp > latest) {
          combined[kept] := record;
          kept := kept + 1;
        }
      }
      assert was[..combined.Length] == was;
      assert combined[..][..kept] == combined[..kept];
      RecentOfIff(was, windowSeconds, combined[..kept]);
    }
  }

  // ----- runs: what one window holds after any sequence of calls

  function WindowsAfter(calls: seq<Call>): map<string, seq<Record>> {
    if calls == [] then map[] else Step(WindowsAfter(calls[..|calls| - 1]), calls[|calls| - 1])
  }

  /** The batches handed over for one key, in order. */
  function BatchesFor(calls: seq<Call>, key: string): seq<seq<Record>> {
    if calls == [] then []
    else
      var last := calls[|calls| - 1];
      BatchesFor(calls[..|calls| - 1], key) + if KeyOf(last) == key then [last.records] else []
  }

  function WindowAfter(batches: seq<seq<Record>>, windowSeconds: int): seq<Record> {
    if batches == [] then []
    else Advance(WindowAfter(batches[..|batches| - 1], windowSeconds), batches[|batches| - 1], windowSeconds)
  }

  /** The assumption that a rule's window length is fixed during the run. */
  ghost predicate FixedWindow(calls: seq<Call>, key: string, windowSeconds: int) {
    forall c :: c in calls && KeyOf(c) == key ==> c.rule.windowSeconds == windowSeconds
  }

  /** Calls for other tenants or rules leave a window alone. */
  lemma {:induction false} WindowsIndependent(calls: seq<Call>, key: string, windowSeconds: int)
    requires windowSeconds > 0 && FixedWindow(calls, key, windowSeconds)
    ensures Lookup(WindowsAfter(calls), key) == WindowAfter(BatchesFor(calls, key), windowSeconds)
  {
    if calls != [] {
      var n := |calls| - 1;
      var last := calls[n];
      FixedWindowParts(calls, key, windowSeconds);
      WindowsIndependent(calls[..n], key, windowSeconds);
      LookupStep(WindowsAfter(calls[..n]), last, key);
      var batches := BatchesFor(calls[..n], key);
      if KeyOf(last) == key {
        WindowAfterOneMore(batches, last.records, windowSeconds);
        assert BatchesFor(calls, key) == batches + [last.records];
      } else {
        assert BatchesFor(calls, key) == batches;
      }
    }
  }

  lemma FixedWindowParts(calls: seq<Call>, key: string, windowSeconds: int)
    requires calls != [] && FixedWindow(calls, key, windowSeconds)
    ensures FixedWindow(calls[..|calls| - 1], key, windowSeconds)
    ensures var last := calls[|calls| - 1]; KeyOf(last) == key ==> last.rule.windowSeconds == windowSeconds
  {
    assert calls[|calls| - 1] in calls;
  }

  lemma WindowAfterOneMore(batches: seq<seq<Record>>, batch: seq<Record>, windowSeconds: int)
    ensures WindowAfter(batches + [batch], windowSeconds) ==
            Advance(WindowAfter(batches, windowSeconds), batch, windowSeconds)
  {
    assert (batches + [batch])[..|batches|] == batches;
  }

  lemma LookupStep(windows: map<string, seq<Record>>, call: Call, key: string)
    ensures Lookup(Step(windows, call), key) ==
            if call.rule.windowSeconds > 0 && KeyOf(call) == key
            then Advance(Lookup(windows, key), call.records, call.rule.windowSeconds)
            else Lookup(windows, key)
  {
  }

  // ----- the reference: the whole history, each ingest id counted at its first delivery

  function SeenIds(batches: seq<seq<Record>>): set<string> {
    if batches == [] then {}
    else SeenIds(batches[..|batches| - 1]) + IngestIds(batches[|batches| - 1])
  }

  function FirstDeliveries(batches: seq<seq<Record>>): seq<Record> {
    if batches == [] then []
    else
      var n := |batches| - 1;
      FirstDeliveries(batches[..n]) + Filter(Unseen(SeenIds(batches[..n])), batches[n])
  }

  /** A redelivery brings nothing newer than the earlier delivery of the same id did. */
  ghost predicate Replays(batches: seq<seq<Record>>) {
    forall i, j, r :: 0 <= i < j < |batches| && r in batches[j] && r.ingestId in IngestIds(batches[i]) ==>
      NoNewerThan(batches[i], r)
  }

  ghost predicate NoNewerThan(batch: seq<Record>, r: Record) {
    exists h :: h in batch && h.ingestId == r.ingestId && h.timestamp >= r.timestamp
  }

  function OfIngestId(id: string): Record -> bool {
    (r: Record) => r.ingestId == id
  }

  /** Equal records per ingest id, which normalization guarantees, is more than Replays asks. */
  lemma SameRecordsReplay(batches: seq<seq<Record>>)
    requires forall i, j, id :: 0 <= i < j < |batches| && id in IngestIds(batches[i]) && id in IngestIds(batches[j]) ==>
      Filter(OfIngestId(id), batches[i]) == Filter(OfIngestId(id), batches[j])
    ensures Replays(batches)
  {
    forall i, j, r: Record | 0 <= i < j < |batches| && r in batches[j] && r.ingestId in IngestIds(batches[i])
      ensures NoNewerThan(batches[i], r)
    {
      var id := r.ingestId;
      assert id in IngestIds(batches[j]);
      FilterMember(OfIngestId(id), batches[j], r);
      FilterMember(OfIngestId(id), batches[i], r);
    }
  }

  lemma {:induction false} FirstDeliveriesIds(batches: seq<seq<Record>>)
    ensures IngestIds(FirstDeliveries(batches)) == SeenIds(batches)
  {
    if batches != [] {
      var n := |batches| - 1;
      FirstDeliveriesIds(batches[..n]);
      var earlier, added := FirstDeliveries(batches[..n]), Filter(Unseen(SeenIds(batches[..n])), batches[n]);
      forall id ensures id in IngestIds(earlier + added) <==> id in SeenIds(batches) {
        if id in IngestIds(batches[n]) {
          var r :| r in batches[n] && r.ingestId == id;
          FilterMember(Unseen(SeenIds(batches[..n])), batches[n], r);
          assert r in added || id in SeenIds(batches[..n]);
        }
        if id in IngestIds(added) {
          var r :| r in added && r.ingestId == id;
          FilterMember(Unseen(SeenIds(batches[..n])), batches[n], r);
        }
        if id in IngestIds(earlier) {
          var r :| r in earlier && r.ingestId == id;
          assert r in earlier + added;
        }
      }
    }
  }

  lemma {:induction false} FirstDeliveryCovers(batches: seq<seq<Record>>, batch: seq<Record>, r: Record)
    requires Replays(batches + [batch]) && r in batch && r.ingestId in SeenIds(batches)
    ensures NoNewerThan(FirstDeliveries(batches), r)
  {
    var n := |batches| - 1;
    if r.ingestId in SeenIds(batches[..n]) {
      ReplaysWithout(batches, batch);
      FirstDeliveryCovers(batches[..n], batch, r);
      var h :| h in FirstDeliveries(batches[..n]) && h.ingestId == r.ingestId && h.timestamp >= r.timestamp;
      assert h in FirstDeliveries(batches);
    } else {
      assert (batches + [batch])[n] == batches[n] && (batches + [batch])[n + 1] == batch;
      assert NoNewerThan(batches[n], r);
      var h :| h in batches[n] && h.ingestId == r.ingestId && h.timestamp >= r.timestamp;
      FilterMember(Unseen(SeenIds(batches[..n])), batches[n], h);
      assert h in FirstDeliveries(batches);
    }
  }

  /** Dropping the last earlier batch keeps the assumption. */
  lemma ReplaysWithout(batches: seq<seq<Record>>, batch: seq<Record>)
    requires batches != [] && Replays(batches + [batch])
    ensures Replays(batches[..|batches| - 1] + [batch])
  {
    var n := |batches| - 1;
    var all, some := batches + [batch], batches[..n] + [batch];
    forall i, j, r: Record | 0 <= i < j < |some| && r in some[j] && r.ingestId in IngestIds(some[i])
      ensures NoNewerThan(some[i], r)
    {
      assert some[i] == all[i];
      assert some[j] == all[if j < n then j else n + 1];
    }
  }

  lemma ReplaysPrefix(batches: seq<seq<Record>>, batch: seq<Record>)
    requires Replays(batches + [batch])
    ensures Replays(batches)
  {
    var all := batches + [batch];
    forall i, j, r: Record | 0 <= i < j < |batches| && r in batches[j] && r.ingestId in IngestIds(batches[i])
      ensures NoNewerThan(batches[i], r)
    {
      assert batches[i] == all[i] && batches[j] == all[j];
    }
  }

  // ----- the window is the reference window

  lemma LatestIs(records: seq<Record>, newest: Record)
    requires newest in records && forall r :: r in records ==> r.timestamp <= newest.timestamp
    ensures Latest(records) == newest.timestamp
  {
  }

  lemma {:induction false} FilterTwiceAgree(p: Record -> bool, q: Record -> bool, s: Record -> bool, xs: seq<Record>)
    requires forall x :: x in xs && p(x) ==> q(x) == s(x)
    ensures Filter(p, Filter(q, xs)) == Filter(p, Filter(s, xs))
  {
    if xs != [] {
      var n := |xs| - 1;
      assert xs[n] in xs;
      FilterTwiceAgree(p, q, s, xs[..n]);
      FilterSnoc(p, Filter(q, xs[..n]), xs[n]);
      FilterSnoc(p, Filter(s, xs[..n]), xs[n]);
      if !q(xs[n]) { assert Filter(q, xs) == Filter(q, xs[..n]); }
      if !s(xs[n]) { assert Filter(s, xs) == Filter(s, xs[..n]); }
    }
  }

  lemma {:induction false} NewestRetained(records: seq<Record>, windowSeconds: int)
    requires records != [] && windowSeconds > 0
    ensures InWindow(records, windowSeconds) != []
    ensures Latest(InWindow(records, windowSeconds)) == Latest(records)
    ensures forall r :: r in InWindow(records, windowSeconds) <==>
              r in records && r.timestamp >= Cutoff(Latest(records), windowSeconds)
  {
    var keep := NotBefore(Cutoff(Latest(records), windowSeconds));
    forall r ensures r in InWindow(records, windowSeconds) <==> r in records && keep(r) {
      FilterMember(keep, records, r);
    }
    var newest :| newest in records && newest.timestamp == Latest(records);
    assert keep(newest);
    LatestIs(InWindow(records, windowSeconds), newest);
  }

  /** Evicting twice is evicting once. */
  lemma {:induction false} InWindowIdempotent(records: seq<Record>, windowSeconds: int)
    ensures InWindow(InWindow(records, windowSeconds), windowSeconds) == InWindow(records, windowSeconds)
  {
    if windowSeconds > 0 && records != [] {
      NewestRetained(records, windowSeconds);
      var keep := NotBefore(Cutoff(Latest(records), windowSeconds));
      FilterImplied(keep, keep, records);
    }
  }

  /** The records of a batch whose id was seen but is retained no more, which the engine appends again, are too
      old for the next window. */
  ghost predicate ForgottenAreOld(history: seq<Record>, batch: seq<Record>, windowSeconds: int) {
    var seen, retained := IngestIds(history), IngestIds(InWindow(history, windowSeconds));
    forall r :: r in batch && r.ingestId in seen && r.ingestId !in retained ==>
      history != [] && r.timestamp < Cutoff(Latest(history + Filter(Unseen(seen), batch)), windowSeconds)
  }

  /** The heart of the engine: deduplicating against the retained ids only, and evicting on the way, gives what
      deduplicating the whole history and evicting once gives, exactly when what it has forgotten is old. */
  lemma {:induction false} RetainedDedupeExact(history: seq<Record>, batch: seq<Record>, windowSeconds: int)
    requires windowSeconds > 0
    ensures Advance(InWindow(history, windowSeconds), batch, windowSeconds) ==
            InWindow(history + Filter(Unseen(IngestIds(history)), batch), windowSeconds)
            <==> ForgottenAreOld(history, batch, windowSeconds)
  {
    if history == [] {
      assert IngestIds(history) == {};
    } else if ForgottenAreOld(history, batch, windowSeconds) {
      OldForgottenHarmless(history, batch, windowSeconds);
    } else {
      YoungForgottenCounted(history, batch, windowSeconds);
    }
  }

  /** What a batch adds to the history, and what the engine appends to its window. */
  lemma {:induction false} AddedAndAppended(history: seq<Record>, batch: seq<Record>, windowSeconds: int)
    requires windowSeconds > 0 && history != []
    ensures var window, seen := InWindow(history, windowSeconds), IngestIds(history);
            var added, appended := Filter(Unseen(seen), batch), Filter(Unseen(IngestIds(window)), batch);
            && IngestIds(window) <= seen && window != [] && Latest(window) == Latest(history)
            && (forall r :: r in added ==> r in appended)
            && (forall r :: r in appended ==>
                r in added || (r in batch && r.ingestId in seen && r.ingestId !in IngestIds(window)))
            && Latest(window + appended) >= Latest(history + added) >= Latest(history)
  {
    var window, seen := InWindow(history, windowSeconds), IngestIds(history);
    NewestRetained(history, windowSeconds);
    UnseenMembers(batch, seen, IngestIds(window));
    LatestOfBoth(history, Filter(Unseen(seen), batch));
    LatestOfBoth(window, Filter(Unseen(IngestIds(window)), batch));
    LatestMonotone(Filter(Unseen(seen), batch), Filter(Unseen(IngestIds(window)), batch));
  }

  lemma UnseenMembers(batch: seq<Record>, seen: set<string>, retained: set<string>)
    requires retained <= seen
    ensures forall r :: r in Filter(Unseen(seen), batch) ==> r in Filter(Unseen(retained), batch)
    ensures forall r :: r in Filter(Unseen(retained), batch) ==>
              r in Filter(Unseen(seen), batch) || (r in batch && r.ingestId in seen && r.ingestId !in retained)
  {
    forall r: Record ensures r in Filter(Unseen(retained), batch) <==> r in batch && Unseen(retained)(r) {
      FilterMember(Unseen(retained), batch, r);
    }
    forall r: Record ensures r in Filter(Unseen(seen), batch) <==> r in batch && Unseen(seen)(r) {
      FilterMember(Unseen(seen), batch, r);
    }
  }

  lemma LatestMonotone(xs: seq<Record>, ys: seq<Record>)
    requires forall r :: r in xs ==> r in ys
    ensures xs != [] ==> ys != [] && Latest(xs) <= Latest(ys)
  {
    if xs != [] {
      var latest := Latest(xs);
      var last :| last in xs && last.timestamp == latest;
      assert last in ys;
    }
  }

  lemma {:induction false} OldForgottenHarmless(history: seq<Record>, batch: seq<Record>, windowSeconds: int)
    requires windowSeconds > 0 && history != [] && ForgottenAreOld(history, batch, windowSeconds)
    ensures Advance(InWindow(history, windowSeconds), batch, windowSeconds) ==
            InWindow(history + Filter(Unseen(IngestIds(history)), batch), windowSeconds)
  {
    var window, seen := InWindow(history, windowSeconds), IngestIds(history);
    var retained := IngestIds(window);
    var added, appended := Filter(Unseen(seen), batch), Filter(Unseen(retained), batch);
    AddedAndAppended(history, batch, windowSeconds);
    var latest := Latest(history + added);
    NoLaterThan(history, window, added, appended);
    SameCutoff(history, window, added, appended, windowSeconds, latest);
    FilterTwiceAgree(NotBefore(Cutoff(latest, windowSeconds)), Unseen(retained), Unseen(seen), batch);
  }

  lemma {:induction false} NoLaterThan(history: seq<Record>, window: seq<Record>, added: seq<Record>,
                                       appended: seq<Record>)
    requires history != [] && window != [] && Latest(window) == Latest(history)
    requires forall r :: r in appended ==> r in added || r.timestamp < Latest(history + added)
    requires Latest(window + appended) >= Latest(history + added)
    ensures Latest(window + appended) == Latest(history + added)
  {
    LatestOfBoth(window, appended);
    LatestOfBoth(history, added);
    LatestNoEarlier(added, appended, Latest(history + added));
  }

  /** Under one cutoff the two windows differ at most in what they take from the batch. */
  lemma {:induction false} SameCutoff(history: seq<Record>, window: seq<Record>, added: seq<Record>,
                                      appended: seq<Record>, windowSeconds: int, latest: int)
    requires windowSeconds > 0 && history != [] && latest >= Latest(history)
    requires window == InWindow(history, windowSeconds)
    ensures var keep := NotBefore(Cutoff(latest, windowSeconds));
            && Filter(keep, window + appended) == Filter(keep, history) + Filter(keep, appended)
            && Filter(keep, history + added) == Filter(keep, history) + Filter(keep, added)
  {
    var keep := NotBefore(Cutoff(latest, windowSeconds));
    FilterImplied(keep, NotBefore(Cutoff(Latest(history), windowSeconds)), history);
    FilterConcat(keep, window, appended);
    FilterConcat(keep, history, added);
  }

  lemma {:induction false} FilterTwiceSnoc(p: Record -> bool, q: Record -> bool, xs: seq<Record>, x: Record)
    ensures |Filter(p, Filter(q, xs + [x]))| == |Filter(p, Filter(q, xs))| + if q(x) && p(x) then 1 else 0
  {
    FilterSnoc(q, xs, x);
    FilterSnoc(p, Filter(q, xs), x);
    if !q(x) {
      assert Filter(q, xs + [x]) == Filter(q, xs);
    }
  }

  /** A second filter that lets more through keeps at least as many, and more if something is let through anew. */
  lemma {:induction false} FilterTwiceLess(p: Record -> bool, q: Record -> bool, s: Record -> bool, xs: seq<Record>)
    requires forall x :: q(x) ==> s(x)
    ensures |Filter(p, Filter(q, xs))| <= |Filter(p, Filter(s, xs))|
    ensures (exists x :: x in xs && p(x) && s(x) && !q(x)) ==> |Filter(p, Filter(q, xs))| < |Filter(p, Filter(s, xs))|
  {
    if xs != [] {
      var n, x := |xs| - 1, xs[|xs| - 1];
      assert xs == xs[..n] + [x];
      FilterTwiceLess(p, q, s, xs[..n]);
      FilterTwiceSnoc(p, q, xs[..n], x);
      FilterTwiceSnoc(p, s, xs[..n], x);
    }
  }

  lemma {:induction false} YoungForgottenCounted(history: seq<Record>, batch: seq<Record>, windowSeconds: int)
    requires windowSeconds > 0 && history != [] && !ForgottenAreOld(history, batch, windowSeconds)
    ensures Advance(InWindow(history, windowSeconds), batch, windowSeconds) !=
            InWindow(history + Filter(Unseen(IngestIds(history)), batch), windowSeconds)
  {
    var window, seen := InWindow(history, windowSeconds), IngestIds(history);
    var retained := IngestIds(window);
    var added, appended := Filter(Unseen(seen), batch), Filter(Unseen(retained), batch);
    AddedAndAppended(history, batch, windowSeconds);
    var latest := Latest(history + added);
    if Latest(window + appended) == latest {
      var keep := NotBefore(Cutoff(latest, windowSeconds));
      SameCutoff(history, window, added, appended, windowSeconds, latest);
      YoungForgottenKept(batch, seen, retained, keep);
    } else {
      NewestRetained(history + added, windowSeconds);
      NewestRetained(window + appended, windowSeconds);
    }
  }

  lemma {:induction false} YoungForgottenKept(batch: seq<Record>, seen: set<string>, retained: set<string>,
                                              keep: Record -> bool)
    requires retained <= seen && "" !in seen
    requires exists r :: r in batch && r.ingestId in seen && r.ingestId !in retained && keep(r)
    ensures |Filter(keep, Filter(Unseen(seen), batch))| < |Filter(keep, Filter(Unseen(retained), batch))|
  {
    var r :| r in batch && r.ingestId in seen && r.ingestId !in retained && keep(r);
    assert keep(r) && Unseen(retained)(r) && !Unseen(seen)(r);
    FilterTwiceLess(keep, Unseen(seen), Unseen(retained), batch);
  }

  /** Redeliveries that bring nothing newer keep to the condition. */
  lemma {:induction false} RetainedDedupeSuffices(history: seq<Record>, seen: set<string>, batch: seq<Record>,
                                                  windowSeconds: int)
    requires windowSeconds > 0 && IngestIds(history) == seen
    requires forall r :: r in batch && r.ingestId in seen ==> NoNewerThan(history, r)
    ensures Advance(InWindow(history, windowSeconds), batch, windowSeconds) ==
            InWindow(history + Filter(Unseen(seen), batch), windowSeconds)
  {
    if history != [] {
      NewestRetained(history, windowSeconds);
      AddedAndAppended(history, batch, windowSeconds);
      forall r | r in batch && r.ingestId in seen && r.ingestId !in IngestIds(InWindow(history, windowSeconds))
        ensures r.timestamp < Cutoff(Latest(history), windowSeconds)
      {
        var h :| h in history && h.ingestId == r.ingestId && h.timestamp >= r.timestamp;
        assert h !in InWindow(history, windowSeconds);
      }
    }
    RetainedDedupeExact(history, batch, windowSeconds);
  }

  lemma LatestSnoc(xs: seq<Record>, r: Record)
    ensures Latest(xs + [r]) == if xs == [] then r.timestamp else Later(Latest(xs), r.timestamp)
  {
    assert (xs + [r])[..|xs|] == xs;
  }

  lemma {:induction false} LatestOfBoth(older: seq<Record>, newer: seq<Record>)
    requires older != []
    ensures Latest(older + newer) == if newer == [] then Latest(older) else Later(Latest(older), Latest(newer))
  {
    if newer == [] {
      assert older + newer == older;
    } else {
      var n := |newer| - 1;
      var last := newer[n];
      assert newer == newer[..n] + [last] && older + newer == (older + newer[..n]) + [last];
      LatestOfBoth(older, newer[..n]);
      LatestSnoc(older + newer[..n], last);
      LatestSnoc(newer[..n], last);
    }
  }

  /** Records of one side that the other side lacks are too old to matter. */
  lemma LatestNoEarlier(some: seq<Record>, others: seq<Record>, bound: int)
    requires forall r :: r in others ==> r in some || r.timestamp < bound
    ensures others != [] ==> Latest(others) < bound || (some != [] && Latest(others) <= Latest(some))
  {
    if others != [] {
      var latest := Latest(others);
      var last :| last in others && last.timestamp == latest;
    }
  }

  /** After any sequence of batches, late records, redeliveries and mixed batches included, the
      stored window is the window of the whole deduplicated history, in order. */
  lemma {:induction false} WindowIsHistoryWindow(batches: seq<seq<Record>>, windowSeconds: int)
    requires windowSeconds > 0 && Replays(batches)
    ensures WindowAfter(batches, windowSeconds) == InWindow(FirstDeliveries(batches), windowSeconds)
  {
    if batches != [] {
      var n := |batches| - 1;
      assert batches == batches[..n] + [batches[n]];
      ReplaysPrefix(batches[..n], batches[n]);
      WindowIsHistoryWindow(batches[..n], windowSeconds);
      FirstDeliveriesIds(batches[..n]);
      forall r | r in batches[n] && r.ingestId in SeenIds(batches[..n])
        ensures NoNewerThan(FirstDeliveries(batches[..n]), r)
      {
        FirstDeliveryCovers(batches[..n], batches[n], r);
      }
      RetainedDedupeSuffices(FirstDeliveries(batches[..n]), SeenIds(batches[..n]), batches[n], windowSeconds);
    }
  }

  ghost predicate MatchesHistory(batches: seq<seq<Record>>, windowSeconds: int) {
    WindowAfter(batches, windowSeconds) == InWindow(FirstDeliveries(batches), windowSeconds)
  }

  /** The batch after the first n brings no young records under a forgotten id. */
  ghost predicate OldAt(batches: seq<seq<Record>>, n: nat, windowSeconds: int)
    requires n < |batches|
  {
    ForgottenAreOld(FirstDeliveries(batches[..n]), batches[n], windowSeconds)
  }

  ghost predicate MatchesUpTo(batches: seq<seq<Record>>, n: nat, windowSeconds: int)
    requires n <= |batches|
  {
    var earlier := batches[..n];
    MatchesHistory(earlier, windowSeconds)
  }

  /** Without any assumption: the window has been the history's all along exactly when no batch brought records
      under a forgotten id that were young enough to count. */
  lemma {:induction false} WindowIsHistoryWindowIff(batches: seq<seq<Record>>, windowSeconds: int)
    requires windowSeconds > 0
    ensures (forall n :: 0 <= n <= |batches| ==> MatchesUpTo(batches, n, windowSeconds)) <==>
            (forall n :: 0 <= n < |batches| ==> OldAt(batches, n, windowSeconds))
  {
    var matched, aged := Matched(batches, windowSeconds), Aged(batches, windowSeconds);
    MatchesStepwise(batches, matched, aged, windowSeconds);
    AllAlongIff(matched, aged);
    MatchedAll(batches, matched, windowSeconds);
    AgedAll(batches, aged, windowSeconds);
  }

  lemma {:induction false} MatchedAll(batches: seq<seq<Record>>, matched: seq<bool>, windowSeconds: int)
    requires matched == Matched(batches, windowSeconds)
    ensures (forall n :: 0 <= n <= |batches| ==> MatchesUpTo(batches, n, windowSeconds)) <==>
            (forall n :: 0 <= n < |matched| ==> matched[n])
  {
    assert forall n :: 0 <= n <= |batches| ==> matched[n] == MatchesUpTo(batches, n, windowSeconds);
  }

  lemma {:induction false} AgedAll(batches: seq<seq<Record>>, aged: seq<bool>, windowSeconds: int)
    requires aged == Aged(batches, windowSeconds)
    ensures (forall n :: 0 <= n < |batches| ==> OldAt(batches, n, windowSeconds)) <==>
            (forall n :: 0 <= n < |aged| ==> aged[n])
  {
    assert forall n :: 0 <= n < |batches| ==> aged[n] == OldAt(batches, n, windowSeconds);
  }

  lemma {:induction false} MatchesStepwise(batches: seq<seq<Record>>, matched: seq<bool>, aged: seq<bool>,
                                           windowSeconds: int)
    requires windowSeconds > 0 && matched == Matched(batches, windowSeconds) && aged == Aged(batches, windowSeconds)
    ensures matched[0]
    ensures forall n :: 0 <= n < |aged| && matched[n] ==> (matched[n + 1] <==> aged[n])
  {
    EmptyMatches(batches, windowSeconds);
    forall n | 0 <= n < |aged| && matched[n] ensures matched[n + 1] <==> aged[n] {
      MatchesAt(batches, n, windowSeconds);
    }
  }

  ghost function Matched(batches: seq<seq<Record>>, windowSeconds: int): (held: seq<bool>)
    ensures |held| == |batches| + 1 && forall n :: 0 <= n <= |batches| ==>
            held[n] == MatchesUpTo(batches, n, windowSeconds)
  {
    seq(|batches| + 1, n requires 0 <= n <= |batches| => MatchesUpTo(batches, n, windowSeconds))
  }

  ghost function Aged(batches: seq<seq<Record>>, windowSeconds: int): (held: seq<bool>)
    ensures |held| == |batches| && forall n :: 0 <= n < |batches| ==> held[n] == OldAt(batches, n, windowSeconds)
  {
    seq(|batches|, n requires 0 <= n < |batches| => OldAt(batches, n, windowSeconds))
  }

  lemma {:induction false} AllAlongIff(held: seq<bool>, kept: seq<bool>)
    requires |held| == |kept| + 1 && held[0]
    requires forall n :: 0 <= n < |kept| && held[n] ==> (held[n + 1] <==> kept[n])
    ensures (forall n :: 0 <= n < |held| ==> held[n]) <==> (forall n :: 0 <= n < |kept| ==> kept[n])
  {
    if forall n :: 0 <= n < |kept| ==> kept[n] {
      for n := 0 to |kept|
        invariant forall i :: 0 <= i <= n ==> held[i]
      {
        assert held[n] && kept[n];
      }
    }
    if forall n :: 0 <= n < |held| ==> held[n] {
      forall n | 0 <= n < |kept| ensures kept[n] {
        assert held[n] && held[n + 1];
      }
    }
  }

  lemma {:induction false} EmptyMatches(batches: seq<seq<Record>>, windowSeconds: int)
    ensures MatchesUpTo(batches, 0, windowSeconds)
  {
    assert batches[..0] == [];
  }

  lemma {:induction false} MatchesAt(batches: seq<seq<Record>>, n: nat, windowSeconds: int)
    requires windowSeconds > 0 && n < |batches| && MatchesUpTo(batches, n, windowSeconds)
    ensures MatchesUpTo(batches, n + 1, windowSeconds) <==> OldAt(batches, n, windowSeconds)
  {
    var earlier, batch, longer := batches[..n], batches[n], batches[..n + 1];
    assert longer == earlier + [batch];
    MatchesOneMore(earlier, batch, windowSeconds);
  }

  lemma {:induction false} MatchesOneMore(batches: seq<seq<Record>>, batch: seq<Record>, windowSeconds: int)
    requires windowSeconds > 0 && MatchesHistory(batches, windowSeconds)
    ensures MatchesHistory(batches + [batch], windowSeconds) <==>
            ForgottenAreOld(FirstDeliveries(batches), batch, windowSeconds)
  {
    WindowAfterOneMore(batches, batch, windowSeconds);
    FirstDeliveriesIds(batches);
    assert (batches + [batch])[..|batches|] == batches;
    RetainedDedupeExact(FirstDeliveries(batches), batch, windowSeconds);
  }

  /** The same for the engine as a whole, tenants and rules interleaved, and for what it returns:
      metric rules see the entire deduplicated history, count and pattern rules its window. */
  lemma {:induction false} EngineEvaluatesHistory(calls: seq<Call>, call: Call)
    requires call.rule.windowSeconds > 0
    requires FixedWindow(calls + [call], KeyOf(call), call.rule.windowSeconds)
    requires Replays(BatchesFor(calls + [call], KeyOf(call)))
    ensures
      var history := FirstDeliveries(BatchesFor(calls + [call], KeyOf(call)));
      var window := InWindow(history, call.rule.windowSeconds);
      && Lookup(WindowsAfter(calls + [call]), KeyOf(call)) == window
      && Returned(WindowsAfter(calls), call) == Outcome(call.rule, window)
      && (Windowed(call.rule) ==> Returned(WindowsAfter(calls), call) == Outcome(call.rule, history))
  {
    var all := calls + [call];
    assert all[..|calls|] == calls;
    var windowSeconds := call.rule.windowSeconds;
    WindowsIndependent(all, KeyOf(call), windowSeconds);
    WindowIsHistoryWindow(BatchesFor(all, KeyOf(call)), windowSeconds);
    InWindowIdempotent(FirstDeliveries(BatchesFor(all, KeyOf(call))), windowSeconds);
  }

  // ----- redelivery at once

  lemma ReplaysAgain(batches: seq<seq<Record>>, batch: seq<Record>)
    requires Replays(batches + [batch])
    ensures Replays(batches + [batch] + [batch])
  {
    var once, twice := batches + [batch], batches + [batch] + [batch];
    var n := |batches|;
    forall i, j, r: Record | 0 <= i < j < |twice| && r in twice[j] && r.ingestId in IngestIds(twice[i])
      ensures NoNewerThan(twice[i], r)
    {
      if j <= n {
        assert twice[i] == once[i] && twice[j] == once[j];
      } else if i < n {
        assert twice[i] == once[i] && twice[j] == once[n];
      }
    }
  }

  /** What a redelivery at once still appends: the records without an ingest id. */
  lemma AppendedAgain(batches: seq<seq<Record>>, batch: seq<Record>, r: Record)
    ensures
      var delivered := batches + [batch];
      r in Filter(Unseen(SeenIds(delivered)), batch) <==> r in batch && r.ingestId == ""
    ensures r in batch && r.ingestId == "" ==> r in FirstDeliveries(batches + [batch])
  {
    assert (batches + [batch])[..|batches|] == batches;
    FilterMember(Unseen(SeenIds(batches + [batch])), batch, r);
    FilterMember(Unseen(SeenIds(batches)), batch, r);
    if r in batch && r.ingestId != "" {
      assert r.ingestId in IngestIds(batch);
    }
  }

  /** Appending copies of old records changes the window exactly when one of them is in it. */
  lemma AppendingOldRecords(history: seq<Record>, again: seq<Record>, windowSeconds: int)
    requires windowSeconds > 0 && forall r :: r in again ==> r in history
    ensures InWindow(history + again, windowSeconds) == InWindow(history, windowSeconds) <==>
              forall r :: r in again ==> r !in InWindow(history, windowSeconds)
  {
    if again == [] {
      assert history + again == history;
    } else {
      assert again[0] in history;
      NewestRetained(history, windowSeconds);
      var newest :| newest in history && newest.timestamp == Latest(history);
      LatestIs(history + again, newest);
      var keep := NotBefore(Cutoff(Latest(history), windowSeconds));
      FilterConcat(keep, history, again);
      FilterEmpty(keep, again);
      assert InWindow(history + again, windowSeconds) == InWindow(history, windowSeconds) + Filter(keep, again);
    }
  }

  /** Handing the same batch over again at once changes nothing, exactly when the window holds no
      record of that batch without an ingest id. */
  lemma ImmediateRedelivery(batches: seq<seq<Record>>, batch: seq<Record>, windowSeconds: int)
    requires windowSeconds > 0 && Replays(batches + [batch])
    ensures
      var once := WindowAfter(batches + [batch], windowSeconds);
      Advance(once, batch, windowSeconds) == once <==> forall r :: r in batch && r.ingestId == "" ==> r !in once
  {
    var delivered := batches + [batch];
    var history := FirstDeliveries(delivered);
    var again := Filter(Unseen(SeenIds(delivered)), batch);
    ReplaysAgain(batches, batch);
    WindowIsHistoryWindow(delivered, windowSeconds);
    WindowIsHistoryWindow(delivered + [batch], windowSeconds);
    WindowAfterOneMore(delivered, batch, windowSeconds);
    assert FirstDeliveries(delivered + [batch]) == history + again by {
      assert (delivered + [batch])[..|delivered|] == delivered;
    }
    forall r ensures (r in again <==> r in batch && r.ingestId == "") && (r in again ==> r in history) {
      AppendedAgain(batches, batch, r);
    }
    AppendingOldRecords(history, again, windowSeconds);
  }

  /** An engine that failed to persist a batch raises the same triggers when it is handed the batch
      again at once, for every batch whose records carry an ingest id. */
  lemma {:induction false} RetriedBatchTriggersAlike(calls: seq<Call>, call: Call)
    requires call.rule.windowSeconds > 0
    requires FixedWindow(calls + [call], KeyOf(call), call.rule.windowSeconds)
    requires Replays(BatchesFor(calls, KeyOf(call)) + [call.records])
    requires forall r :: r in call.records ==> r.ingestId != ""
    ensures WindowsAfter(calls + [call] + [call]) == WindowsAfter(calls + [call])
    ensures Returned(WindowsAfter(calls + [call]), call) == Returned(WindowsAfter(calls), call)
  {
    var key, windowSeconds := KeyOf(call), call.rule.windowSeconds;
    WindowsAfterOneMore(calls, call);
    WindowsAfterOneMore(calls + [call], call);
    WindowsIndependent(calls + [call], key, windowSeconds);
    BatchesForOneMore(calls, call);
    ImmediateRedelivery(BatchesFor(calls, key), call.records, windowSeconds);
    SettledStep(WindowsAfter(calls), call);
  }

  lemma WindowsAfterOneMore(calls: seq<Call>, call: Call)
    ensures WindowsAfter(calls + [call]) == Step(WindowsAfter(calls), call)
  {
    assert (calls + [call])[..|calls|] == calls;
  }

  lemma BatchesForOneMore(calls: seq<Call>, call: Call)
    requires call.rule.windowSeconds > 0
    ensures BatchesFor(calls + [call], KeyOf(call)) == BatchesFor(calls, KeyOf(call)) + [call.records]
  {
    assert (calls + [call])[..|calls|] == calls;
  }

  lemma SettledStep(windows: map<string, seq<Record>>, call: Call)
    requires call.rule.windowSeconds > 0
    requires var window := Lookup(Step(windows, call), KeyOf(call));
             Advance(window, call.records, call.rule.windowSeconds) == window
    ensures Step(Step(windows, call), call) == Step(windows, call)
    ensures Returned(Step(windows, call), call) == Returned(windows, call)
  {
    assert KeyOf(call) in Step(windows, call);
  }

  /** An id whose first records are evicted before newer ones arrive under the same id. */
  function ReusedId(): seq<seq<Record>> {
    [[Record(0, 1, "x", 0, map[])],
     [Record(5 * NANOS_PER_SECOND, 1, "y", 0, map[])],
     [Record(9 * NANOS_PER_SECOND, 1, "x", 0, map[])]]
  }

  /** Without the assumption the engine does count an id twice. */
  lemma {:induction false} ReplaysIsNeeded()
    ensures !Replays(ReusedId())
    ensures WindowAfter(ReusedId(), 1) != InWindow(FirstDeliveries(ReusedId()), 1)
  {
    var batches := ReusedId();
    var late := batches[2][0];
    assert late in batches[2] && "x" in IngestIds(batches[0]) && !NoNewerThan(batches[0], late);
    ReusedIdWindow();
    LateRecordNotCounted();
  }

  lemma {:induction false} ReusedIdWindow()
    ensures WindowAfter(ReusedId(), 1) == ReusedId()[2]
  {
    var batches := ReusedId();
    assert batches == [] + [batches[0]] + [batches[1]] + [batches[2]];
    WindowAfterOneMore([], batches[0], 1);
    WindowAfterOneMore([] + [batches[0]], batches[1], 1);
    WindowAfterOneMore([] + [batches[0]] + [batches[1]], batches[2], 1);
    SlideOne([], batches[0][0], 1);
    SlideOne(batches[0], batches[1][0], 1);
    SlideOne(batches[1], batches[2][0], 1);
  }

  lemma {:induction false} LateRecordNotCounted()
    ensures InWindow(FirstDeliveries(ReusedId()), 1) != ReusedId()[2]
  {
    var batches := ReusedId();
    var late := batches[2][0];
    FirstDeliveriesIds(batches[..2]);
    assert batches[..2][..1] == [batches[0]] && batches[..2][1] == batches[1];
    assert "x" in IngestIds(batches[0]) && SeenIds([batches[0]]) == IngestIds(batches[0]);
    assert "x" in SeenIds(batches[..2]);
    FilterEmpty(Unseen(SeenIds(batches[..2])), batches[2]);
    assert FirstDeliveries(batches) == FirstDeliveries(batches[..2]);
    TimestampsOf(batches[..2], 5 * NANOS_PER_SECOND);
    assert forall r :: r in FirstDeliveries(batches) ==> r != late;
    FilterMember(NotBefore(Cutoff(Latest(FirstDeliveries(batches)), 1)), FirstDeliveries(batches), late);
    assert late in batches[2];
  }

  lemma {:induction false} TimestampsOf(batches: seq<seq<Record>>, bound: int)
    requires forall b, r :: b in batches && r in b ==> r.timestamp <= bound
    ensures forall r :: r in FirstDeliveries(batches) ==> r.timestamp <= bound
  {
    if batches != [] {
      var n := |batches| - 1;
      TimestampsOf(batches[..n], bound);
      assert batches[n] in batches;
      forall r | r in FirstDeliveries(batches) ensures r.timestamp <= bound {
        FilterMember(Unseen(SeenIds(batches[..n])), batches[n], r);
      }
    }
  }

  lemma SlideOne(window: seq<Record>, r: Record, windowSeconds: int)
    requires windowSeconds > 0 && r.ingestId !in IngestIds(window)
    requires forall h :: h in window ==> h.timestamp < r.timestamp - windowSeconds * NANOS_PER_SECOND
    ensures Advance(window, [r], windowSeconds) == [r]
  {
    var keep := NotBefore(Cutoff(r.timestamp, windowSeconds));
    FilterSnoc(Unseen(IngestIds(window)), [], r);
    LatestIs(window + [r], r);
    FilterSnoc(keep, window, r);
    FilterEmpty(keep, window);
  }
}

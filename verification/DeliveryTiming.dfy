/** The lease protocol when every claim is recorded in time: one nondecreasing clock, one lease
    length, no worker that loses its batch. Then the lease is a mutual exclusion. */
module DeliveryTiming {
  import opened Wrappers
  import opened Ordering
  import opened Backoff
  import opened DeliveryStore
  import opened DeliveryProtocol

  /** No unrecorded claim has outlived its lease yet. */
  ghost predicate InLease(s: System, lease: int) {
    forall w, c :: w in s.workers && c in s.workers[w].held ==> s.clock <= c.claimedAt + lease
  }

  /** A step that keeps time; a claim may use a reading of the clock taken earlier. */
  ghost predicate OnTime(s: System, step: Step) {
    match step
    case ClaimBatch(_, _, at) => at <= s.clock
    case Tick(now) => s.clock <= now
    case Abandon(w) => w in s.workers ==> s.workers[w].held == []
    case _ => true
  }

  ghost predicate TimelyRun(policies: map<string, Policy>, clock: int, steps: seq<Step>, lease: int) {
    && LegalRun(policies, clock, steps)
    && InLease(StateAfter(policies, clock, steps), lease)
    && (steps != [] ==>
          var n := |steps| - 1;
          && TimelyRun(policies, clock, steps[..n], lease)
          && OnTime(StateAfter(policies, clock, steps[..n]), steps[n]))
  }

  predicate OneLease(policies: map<string, Policy>, lease: int) {
    forall w :: w in policies ==> policies[w].leaseDuration == lease
  }

  // ----- accounting

  function Dispatched(log: seq<Dispatch>, id: int): nat {
    if log == [] then 0
    else Dispatched(log[..|log| - 1], id) + if log[|log| - 1].id == id then 1 else 0
  }

  function Successes(log: seq<Dispatch>, id: int): nat {
    if log == [] then 0
    else
      var last := log[|log| - 1];
      Successes(log[..|log| - 1], id) + if last.id == id && last.ok then 1 else 0
  }

  predicate Holds(worker: Worker, id: int) {
    exists c :: c in worker.held && c.id == id
  }

  /** The worker the row is locked by has dispatched it and not recorded it yet. */
  predicate InFlight(s: System, id: int) {
    && id in s.tables.deliveries && s.tables.deliveries[id].lockedBy.Some?
    && var w := s.tables.deliveries[id].lockedBy.value;
    && w in s.workers && s.workers[w].held != [] && s.workers[w].held[0].id == id && s.workers[w].result.Some?
  }

  function FlightResult(s: System, id: int): bool
    requires InFlight(s, id)
  {
    s.workers[s.tables.deliveries[id].lockedBy.value].result.value
  }

  function IsSent(t: Tables, id: int): bool {
    id in t.deliveries && t.deliveries[id].status.Sent?
  }

  ghost predicate Accounted(s: System, id: int) {
    && Dispatched(s.dispatches, id) == AttemptsOf(s.tables, id) + (if InFlight(s, id) then 1 else 0)
    && Successes(s.dispatches, id) ==
         (if IsSent(s.tables, id) then 1 else 0) + (if InFlight(s, id) && FlightResult(s, id) then 1 else 0)
  }

  // ----- the timed invariant

  ghost predicate LockedByHolder(s: System) {
    && (forall w, c :: w in s.workers && c in s.workers[w].held ==>
          LeaseHeld(s.tables, c.id, w) && s.tables.deliveries[c.id].lockedAt == Some(c.claimedAt))
    && (forall id :: id in s.tables.deliveries && s.tables.deliveries[id].status.Processing? ==>
          var locker := s.tables.deliveries[id].lockedBy;
          locker.Some? && locker.value in s.workers && Holds(s.workers[locker.value], id))
  }

  ghost predicate TimedInv(s: System) {
    && LockedByHolder(s)
    && (forall w :: w in s.workers && s.workers[w].held == [] ==> s.workers[w].result.None?)
    && (forall id :: Accounted(s, id))
  }

  /** A processing row is held and in its lease, so nobody's claim can find it expired. */
  lemma OnlyUnlockedDue(s: System, id: int, at: int, lease: int)
    requires LockedByHolder(s) && InLease(s, lease) && at <= s.clock
    requires id in s.tables.deliveries && Due(s.tables.deliveries[id], at, lease)
    ensures !s.tables.deliveries[id].status.Processing?
  {
  }

  lemma ClaimKeepsTimed(policies: map<string, Policy>, s: System, w: string, ids: seq<int>, at: int, lease: int,
                        budget: int)
    requires Configured(policies, budget) && OneLease(policies, lease) && Inv(s, budget) && TimedInv(s)
    requires InLease(s, lease)
    requires Enabled(policies, s, ClaimBatch(w, ids, at)) && at <= s.clock
    ensures TimedInv(Apply(policies, s, ClaimBatch(w, ids, at)))
  {
    ClaimKeepsHolders(policies, s, w, ids, at, lease, budget);
    var after := Apply(policies, s, ClaimBatch(w, ids, at));
    forall id ensures Accounted(after, id) {
      assert Accounted(s, id);
      ClaimKeepsFlights(policies, s, w, ids, at, lease, budget, id);
    }
  }

  lemma ClaimKeepsFlights(policies: map<string, Policy>, s: System, w: string, ids: seq<int>, at: int, lease: int,
                          budget: int, id: int)
    requires Configured(policies, budget) && OneLease(policies, lease) && Inv(s, budget) && TimedInv(s)
    requires InLease(s, lease)
    requires Enabled(policies, s, ClaimBatch(w, ids, at)) && at <= s.clock
    ensures var after := Apply(policies, s, ClaimBatch(w, ids, at));
            && (InFlight(after, id) <==> InFlight(s, id))
            && (InFlight(s, id) ==> FlightResult(after, id) == FlightResult(s, id))
            && AttemptsOf(after.tables, id) == AttemptsOf(s.tables, id)
            && IsSent(after.tables, id) == IsSent(s.tables, id)
  {
    if id in s.tables.deliveries {
      assert RowOk(s.tables.deliveries[id], s.tables.attempts, id, budget);
      if id in ids {
        OnlyUnlockedDue(s, id, at, lease);
      }
    }
  }

  lemma {:induction false} ClaimKeepsHolders(policies: map<string, Policy>, s: System, w: string, ids: seq<int>,
                                             at: int, lease: int, budget: int)
    requires Configured(policies, budget) && OneLease(policies, lease) && Inv(s, budget) && LockedByHolder(s)
    requires InLease(s, lease)
    requires Enabled(policies, s, ClaimBatch(w, ids, at)) && at <= s.clock
    ensures LockedByHolder(Apply(policies, s, ClaimBatch(w, ids, at)))
  {
    var after := Apply(policies, s, ClaimBatch(w, ids, at));
    var claims := after.workers[w].held;
    forall id | id in ids ensures id in s.tables.deliveries && !s.tables.deliveries[id].status.Processing? {
      OnlyUnlockedDue(s, id, at, lease);
    }
    forall i | 0 <= i < |ids| ensures ids[i] in Elements(ids) && claims[i] in claims && claims[i].id == ids[i] {}
    ClaimLeases(policies, s, w, ids, at, lease, budget);
    forall id | id in after.tables.deliveries && after.tables.deliveries[id].status.Processing?
      ensures var locker := after.tables.deliveries[id].lockedBy;
              locker.Some? && locker.value in after.workers && Holds(after.workers[locker.value], id)
    {
      if id in Elements(ids) {
        var i :| 0 <= i < |ids| && ids[i] == id;
        assert claims[i] in claims;
      } else {
        var v := s.tables.deliveries[id].lockedBy.value;
        var c :| c in s.workers[v].held && c.id == id;
        assert c in after.workers[v].held;
      }
    }
  }

  /** Every held claim keeps its lease, the new ones included. */
  lemma ClaimLeases(policies: map<string, Policy>, s: System, w: string, ids: seq<int>, at: int, lease: int,
                    budget: int)
    requires Configured(policies, budget) && OneLease(policies, lease) && Inv(s, budget) && LockedByHolder(s)
    requires InLease(s, lease)
    requires Enabled(policies, s, ClaimBatch(w, ids, at)) && at <= s.clock
    ensures var after := Apply(policies, s, ClaimBatch(w, ids, at));
            forall v, c :: v in after.workers && c in after.workers[v].held ==>
              LeaseHeld(after.tables, c.id, v) && after.tables.deliveries[c.id].lockedAt == Some(c.claimedAt)
  {
    var after := Apply(policies, s, ClaimBatch(w, ids, at));
    var claims := after.workers[w].held;
    forall v, c | v in after.workers && c in after.workers[v].held
      ensures LeaseHeld(after.tables, c.id, v) && after.tables.deliveries[c.id].lockedAt == Some(c.claimedAt)
    {
      if v == w {
        var i :| 0 <= i < |claims| && claims[i] == c;
        assert ids[i] in Elements(ids);
      } else {
        assert c in s.workers[v].held && LeaseHeld(s.tables, c.id, v);
        assert !s.tables.deliveries[c.id].status.Pending?;
        if c.id in Elements(ids) {
          OnlyUnlockedDue(s, c.id, at, lease);
        }
      }
    }
  }

  lemma DispatchKeepsTimed(policies: map<string, Policy>, s: System, w: string, ok: bool, budget: int)
    requires Inv(s, budget) && TimedInv(s) && Enabled(policies, s, DispatchHead(w, ok))
    ensures TimedInv(Apply(policies, s, DispatchHead(w, ok)))
  {
    var after := Apply(policies, s, DispatchHead(w, ok));
    var head := s.workers[w].held[0];
    assert LeaseHeld(s.tables, head.id, w);
    assert after.dispatches[..|s.dispatches|] == s.dispatches;
    forall id | id in after.tables.deliveries && after.tables.deliveries[id].status.Processing?
      ensures var locker := after.tables.deliveries[id].lockedBy;
              locker.Some? && locker.value in after.workers && Holds(after.workers[locker.value], id)
    {
      var v := s.tables.deliveries[id].lockedBy.value;
      var c :| c in s.workers[v].held && c.id == id;
      assert c in after.workers[v].held;
    }
    forall id ensures Accounted(after, id) {
      assert Accounted(s, id);
    }
  }

  lemma RecordKeepsTimed(policies: map<string, Policy>, s: System, w: string, completedAt: int, retryAt: int,
                         budget: int)
    requires Inv(s, budget) && TimedInv(s) && Enabled(policies, s, RecordHead(w, completedAt, retryAt))
    ensures TimedInv(Apply(policies, s, RecordHead(w, completedAt, retryAt)))
  {
    RecordKeepsHolders(policies, s, w, completedAt, retryAt, budget);
    var after := Apply(policies, s, RecordHead(w, completedAt, retryAt));
    var head := s.workers[w].held[0];
    assert head in s.workers[w].held && LeaseHeld(s.tables, head.id, w) && ClaimOk(s.tables, w, head, budget);
    forall id ensures Accounted(after, id) {
      assert Accounted(s, id);
    }
  }

  lemma RecordKeepsHolders(policies: map<string, Policy>, s: System, w: string, completedAt: int, retryAt: int,
                           budget: int)
    requires Inv(s, budget) && LockedByHolder(s) && Enabled(policies, s, RecordHead(w, completedAt, retryAt))
    ensures LockedByHolder(Apply(policies, s, RecordHead(w, completedAt, retryAt)))
  {
    var after := Apply(policies, s, RecordHead(w, completedAt, retryAt));
    var held := s.workers[w].held;
    var head := held[0];
    assert head in held && LeaseHeld(s.tables, head.id, w) && ClaimOk(s.tables, w, head, budget);
    assert after.workers[w] == Worker(held[1..], None);
    forall v, c | v in after.workers && c in after.workers[v].held
      ensures LeaseHeld(after.tables, c.id, v) && after.tables.deliveries[c.id].lockedAt == Some(c.claimedAt)
    {
      assert c in s.workers[v].held && LeaseHeld(s.tables, c.id, v);
    }
    forall id | id in after.tables.deliveries && after.tables.deliveries[id].status.Processing?
      ensures var locker := after.tables.deliveries[id].lockedBy;
              locker.Some? && locker.value in after.workers && Holds(after.workers[locker.value], id)
    {
      var v := s.tables.deliveries[id].lockedBy.value;
      var c :| c in s.workers[v].held && c.id == id;
      assert c in after.workers[v].held;
    }
  }

  lemma {:induction false} RunKeepsTimed(policies: map<string, Policy>, clock: int, steps: seq<Step>, lease: int,
                                         budget: int)
    requires Configured(policies, budget) && budget >= 1 && OneLease(policies, lease)
    requires TimelyRun(policies, clock, steps, lease)
    ensures TimedInv(StateAfter(policies, clock, steps))
  {
    if steps != [] {
      var n := |steps| - 1;
      RunKeepsTimed(policies, clock, steps[..n], lease, budget);
      RunKeepsInv(policies, clock, steps[..n], budget);
      var s, after := StateAfter(policies, clock, steps[..n]), StateAfter(policies, clock, steps);
      match steps[n] {
        case ClaimBatch(w, ids, at) => ClaimKeepsTimed(policies, s, w, ids, at, lease, budget);
        case DispatchHead(w, ok) => DispatchKeepsTimed(policies, s, w, ok, budget);
        case RecordHead(w, completedAt, retryAt) => RecordKeepsTimed(policies, s, w, completedAt, retryAt, budget);
        case _ => QuietKeepsTimed(policies, s, steps[n], budget);
      }
    }
  }

  lemma QuietKeepsTimed(policies: map<string, Policy>, s: System, step: Step, budget: int)
    requires Inv(s, budget) && TimedInv(s) && Enabled(policies, s, step) && OnTime(s, step)
    requires step.Enqueue? || step.Abandon? || step.Tick?
    ensures TimedInv(Apply(policies, s, step))
  {
    var after := Apply(policies, s, step);
    forall id ensures Accounted(after, id) {
      assert Accounted(s, id);
    }
  }

  // ----- what timeliness buys

  /** No two workers ever hold the same delivery at once. */
  lemma ExclusiveHolders(policies: map<string, Policy>, clock: int, steps: seq<Step>, lease: int, budget: int,
                         v: string, w: string, id: int)
    requires Configured(policies, budget) && budget >= 1 && OneLease(policies, lease)
    requires TimelyRun(policies, clock, steps, lease)
    requires v in policies && w in policies
    ensures var workers := StateAfter(policies, clock, steps).workers;
            v in workers && w in workers && (Holds(workers[v], id) && Holds(workers[w], id) ==> v == w)
  {
    RunKeepsTimed(policies, clock, steps, lease, budget);
    WorkersStay(policies, clock, steps);
    var s := StateAfter(policies, clock, steps);
    if Holds(s.workers[v], id) && Holds(s.workers[w], id) {
      var c :| c in s.workers[v].held && c.id == id;
      var d :| d in s.workers[w].held && d.id == id;
      assert LeaseHeld(s.tables, c.id, v) && LeaseHeld(s.tables, d.id, w);
    }
  }

  lemma {:induction false} WorkersStay(policies: map<string, Policy>, clock: int, steps: seq<Step>)
    requires LegalRun(policies, clock, steps)
    ensures StateAfter(policies, clock, steps).workers.Keys == policies.Keys
  {
    if steps != [] {
      WorkersStay(policies, clock, steps[..|steps| - 1]);
    }
  }

  /** Every dispatch is recorded, apart from the one its holder is about to record; and a delivery is
      dispatched successfully at most once in the whole run. */
  lemma DispatchesRecordedOnce(policies: map<string, Policy>, clock: int, steps: seq<Step>, lease: int, budget: int,
                               id: int)
    requires Configured(policies, budget) && budget >= 1 && OneLease(policies, lease)
    requires TimelyRun(policies, clock, steps, lease)
    ensures
      var s := StateAfter(policies, clock, steps);
      && Dispatched(s.dispatches, id) == AttemptsOf(s.tables, id) + (if InFlight(s, id) then 1 else 0)
      && Successes(s.dispatches, id) <= 1
      && (Successes(s.dispatches, id) == 1 && !InFlight(s, id) ==> IsSent(s.tables, id))
  {
    RunKeepsTimed(policies, clock, steps, lease, budget);
    RunKeepsInv(policies, clock, steps, budget);
    var s := StateAfter(policies, clock, steps);
    assert Accounted(s, id);
    if InFlight(s, id) {
      assert RowOk(s.tables.deliveries[id], s.tables.attempts, id, budget);
    }
  }
}

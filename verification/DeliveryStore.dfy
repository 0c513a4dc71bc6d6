/** The notification delivery tables of internal/alerts/notifications.go, and the transactions on
    them: enqueue, claim, record. */
module DeliveryStore {
  import opened Wrappers
  import opened Ordering
  import opened Backoff

  datatype Status = Pending | Processing | Retrying | Sent | Failed

  datatype Delivery = Delivery(status: Status, attemptCount: nat, maxAttempts: int, availableAt: int,
                               nextRetryAt: Option<int>, sentAt: Option<int>,
                               lockedAt: Option<int>, lockedBy: Option<string>)

  /** The delivery row as the claiming transaction returned it to the worker. */
  datatype Claim = Claim(id: int, attemptCount: nat, maxAttempts: int, claimedAt: int)

  /** notification_deliveries, and notification_delivery_attempts by (delivery, attempt number). */
  datatype Tables = Tables(deliveries: map<int, Delivery>, attempts: map<(int, nat), bool>)

  function NewDelivery(now: int): Delivery {
    Delivery(Pending, 0, DEFAULT_ATTEMPTS, now, None, None, None, None)
  }

  /** The claim's WHERE clause; a comparison with a NULL lock time selects nothing. */
  predicate Due(d: Delivery, at: int, lease: int) {
    || ((d.status.Pending? || d.status.Retrying?) && d.availableAt <= at)
    || (d.status.Processing? && d.lockedAt.Some? && d.lockedAt.value < at - lease)
  }

  function Locked(d: Delivery, policy: Policy, at: int): Delivery {
    d.(status := Processing, lockedAt := Some(at), lockedBy := Some(policy.workerId), maxAttempts := policy.maxAttempts)
  }

  function ClaimRows(t: Tables, ids: set<int>, policy: Policy, at: int): Tables {
    t.(deliveries := map id | id in t.deliveries ::
        if id in ids then Locked(t.deliveries[id], policy, at) else t.deliveries[id])
  }

  /** The guard of the recording UPDATE. */
  predicate LeaseHeld(t: Tables, id: int, worker: string) {
    id in t.deliveries && t.deliveries[id].status.Processing? && t.deliveries[id].lockedBy == Some(worker)
  }

  /** The row after a recorded attempt; retryAt is when a failed one may run again. */
  function Recorded(d: Delivery, attempt: nat, maxAttempts: int, ok: bool, completedAt: int, retryAt: int): Delivery {
    var row := d.(attemptCount := attempt, lockedAt := None, lockedBy := None);
    if ok then row.(status := Sent, availableAt := completedAt, nextRetryAt := None, sentAt := Some(completedAt))
    else if attempt >= maxAttempts then
      row.(status := Failed, availableAt := retryAt, nextRetryAt := None, sentAt := None)
    else row.(status := Retrying, availableAt := retryAt, nextRetryAt := Some(retryAt), sentAt := None)
  }

  function AddAttempt(attempts: map<(int, nat), bool>, key: (int, nat), ok: bool): map<(int, nat), bool> {
    if key in attempts then attempts else attempts[key := ok]
  }

  /** Recording: both statements commit together, or the lost lease rolls both back. */
  function RecordRows(t: Tables, claim: Claim, worker: string, ok: bool, completedAt: int, retryAt: int): Tables {
    if !LeaseHeld(t, claim.id, worker) then t
    else
      var attempt := claim.attemptCount + 1;
      var row := Recorded(t.deliveries[claim.id], attempt, claim.maxAttempts, ok, completedAt, retryAt);
      Tables(t.deliveries[claim.id := row],
             AddAttempt(t.attempts, (claim.id, attempt), ok))
  }

  /** A failed attempt may run again after a delay that backs off with the failures before it. */
  predicate RetryTime(policy: Policy, id: int, earlier: nat, completedAt: int, retryAt: int) {
    0 < policy.baseRetryDelay <= policy.maxRetryDelay ==>
      BackedOff(policy.baseRetryDelay, policy.maxRetryDelay, id, earlier, retryAt - completedAt)
  }

  /** The row of a recorded attempt, column by column. */
  ghost predicate RowRecorded(was: Delivery, row: Delivery, claim: Claim, policy: Policy, ok: bool, completedAt: int) {
    && row.attemptCount == claim.attemptCount + 1 && row.maxAttempts == was.maxAttempts
    && row.lockedAt == None && row.lockedBy == None
    && if ok then
         && row.status == Sent && row.sentAt == Some(completedAt) && row.availableAt == completedAt
         && row.nextRetryAt == None
       else
         && row.sentAt == None && RetryTime(policy, claim.id, claim.attemptCount, completedAt, row.availableAt)
         && if claim.attemptCount + 1 < claim.maxAttempts
            then row.status == Retrying && row.nextRetryAt == Some(row.availableAt)
            else row.status == Failed && row.nextRetryAt == None
  }

  predicate DueBefore(a: (int, int), b: (int, int)) {
    a.0 < b.0 || (a.0 == b.0 && a.1 < b.1)
  }

  predicate Claimable(rows: map<int, Delivery>, id: int, at: int, lease: int, lockedElsewhere: set<int>) {
    id in rows && id !in lockedElsewhere && Due(rows[id], at, lease)
  }

  /** The claim's ORDER BY. */
  function Rank(rows: map<int, Delivery>, id: int): (int, int) {
    if id in rows then (rows[id].availableAt, id) else (0, id)
  }

  /** The ids are the first batch-size claimable rows. */
  ghost predicate FirstDue(rows: map<int, Delivery>, ids: set<int>, at: int, lease: int, batchSize: nat,
                           lockedElsewhere: set<int>)
  {
    && |ids| <= batchSize
    && (forall id :: id in ids ==> Claimable(rows, id, at, lease, lockedElsewhere))
    && (forall id :: Claimable(rows, id, at, lease, lockedElsewhere) && id !in ids ==>
          |ids| == batchSize && forall first :: first in ids ==> DueBefore(Rank(rows, first), Rank(rows, id)))
  }

  /** What a claim may take: a pending or retrying row from the time it is available, or a processing one whose lock is
      older than the lease. */
  ghost predicate Ready(d: Delivery, at: int, lease: int) {
    match d.status
    case Pending => d.availableAt <= at
    case Retrying => d.availableAt <= at
    case Processing => d.lockedAt.Some? && d.lockedAt.value + lease < at
    case _ => false
  }

  /** What a claim makes of a row: these columns, and no other. */
  ghost predicate LockedFor(was: Delivery, row: Delivery, policy: Policy, at: int) {
    && row.status == Processing && row.lockedAt == Some(at) && row.lockedBy == Some(policy.workerId)
    && row.maxAttempts == policy.maxAttempts && row.attemptCount == was.attemptCount
    && row.availableAt == was.availableAt && row.nextRetryAt == was.nextRetryAt && row.sentAt == was.sentAt
  }

  /** Available earlier, or at the same time and with the smaller id. */
  ghost predicate Earlier(rows: map<int, Delivery>, id: int, other: int) {
    && id in rows && other in rows
    && (rows[id].availableAt < rows[other].availableAt
        || (rows[id].availableAt == rows[other].availableAt && id < other))
  }

  ghost function IdsOf(claims: seq<Claim>): set<int> {
    set c | c in claims :: c.id
  }

  lemma TakingRanked(rows: map<int, Delivery>, ranked: seq<(int, int)>, ids: seq<int>,
                     at: int, lease: int, batchSize: nat, lockedElsewhere: set<int>)
    requires Ascending(DueBefore, ranked)
    requires Elements(ranked) ==
             set id | id in rows && Claimable(rows, id, at, lease, lockedElsewhere) :: Rank(rows, id)
    requires |ids| == (if |ranked| < batchSize then |ranked| else batchSize)
    requires forall i :: 0 <= i < |ids| ==> ids[i] == ranked[i].1
    ensures forall i, j :: 0 <= i < j < |ids| ==> ids[i] != ids[j]
    ensures FirstDue(rows, Elements(ids), at, lease, batchSize, lockedElsewhere)
  {
    forall i | 0 <= i < |ranked|
      ensures Claimable(rows, ranked[i].1, at, lease, lockedElsewhere) && ranked[i] == Rank(rows, ranked[i].1)
    {
      assert ranked[i] in Elements(ranked);
    }
    forall i, j | 0 <= i < j < |ids| ensures ids[i] != ids[j] {
      assert DueBefore(ranked[i], ranked[j]);
    }
    DistinctSize(ids);
    forall id | Claimable(rows, id, at, lease, lockedElsewhere) && id !in Elements(ids)
      ensures |ids| == batchSize
      ensures forall first :: first in Elements(ids) ==> DueBefore(Rank(rows, first), Rank(rows, id))
    {
      assert Rank(rows, id) in Elements(ranked);
      var k :| 0 <= k < |ranked| && ranked[k] == Rank(rows, id);
      assert forall i :: 0 <= i < |ids| ==> ids[i] in Elements(ids);
      assert k >= |ids|;
      forall first | first in Elements(ids) ensures DueBefore(Rank(rows, first), Rank(rows, id)) {
        var i :| 0 <= i < |ids| && ids[i] == first;
        assert DueBefore(ranked[i], ranked[k]);
      }
    }
  }

  /** A claim row by row: a claimed one was due and is now locked for the worker, the others are as they were, and a due
      one is left only when the batch is full of rows available earlier. */
  ghost predicate ClaimedRows(before: Tables, after: Tables, claims: seq<Claim>, policy: Policy, at: int,
                              lockedElsewhere: set<int>)
  {
    && |claims| <= policy.batchSize && after.attempts == before.attempts
    && after.deliveries.Keys == before.deliveries.Keys
    && (forall c :: c in claims ==>
          && c.id in before.deliveries && c.id !in lockedElsewhere
          && Ready(before.deliveries[c.id], at, policy.leaseDuration)
          && LockedFor(before.deliveries[c.id], after.deliveries[c.id], policy, at))
    && (forall id :: id in before.deliveries && id !in IdsOf(claims) ==>
          && after.deliveries[id] == before.deliveries[id]
          && (id !in lockedElsewhere && Ready(before.deliveries[id], at, policy.leaseDuration) ==>
                && |claims| == policy.batchSize
                && forall c :: c in claims ==> Earlier(before.deliveries, c.id, id)))
  }

  lemma {:induction false} ClaimedCount(claims: seq<Claim>)
    requires forall i, j :: 0 <= i < j < |claims| ==> claims[i].id != claims[j].id
    ensures |IdsOf(claims)| == |claims|
  {
    var ids := seq(|claims|, i requires 0 <= i < |claims| => claims[i].id);
    DistinctSize(ids);
    ClaimIds(claims, ids);
  }

  lemma ClaimIds(claims: seq<Claim>, ids: seq<int>)
    requires |claims| == |ids| && forall i :: 0 <= i < |ids| ==> claims[i].id == ids[i]
    ensures IdsOf(claims) == Elements(ids)
  {
    forall id ensures id in IdsOf(claims) <==> id in Elements(ids) {
      if id in ids {
        var j :| 0 <= j < |ids| && ids[j] == id;
        assert claims[j] in claims;
      }
    }
  }

  lemma {:induction false} ClaimMeans(before: Tables, after: Tables, claims: seq<Claim>, policy: Policy, at: int,
                                      lockedElsewhere: set<int>)
    requires policy.batchSize >= 0 && after == ClaimRows(before, IdsOf(claims), policy, at)
    requires FirstDue(before.deliveries, IdsOf(claims), at, policy.leaseDuration, policy.batchSize, lockedElsewhere)
    requires forall i, j :: 0 <= i < j < |claims| ==> claims[i].id != claims[j].id
    ensures ClaimedRows(before, after, claims, policy, at, lockedElsewhere)
  {
    ClaimedCount(claims);
    forall c | c in claims ensures Claimable(before.deliveries, c.id, at, policy.leaseDuration, lockedElsewhere) {
      assert c.id in IdsOf(claims);
    }
    forall id | id in before.deliveries && id !in IdsOf(claims) && id !in lockedElsewhere &&
                Ready(before.deliveries[id], at, policy.leaseDuration)
      ensures |claims| == policy.batchSize && forall c :: c in claims ==> Earlier(before.deliveries, c.id, id)
    {
      assert Claimable(before.deliveries, id, at, policy.leaseDuration, lockedElsewhere);
      forall c | c in claims ensures Earlier(before.deliveries, c.id, id) {
        assert c.id in IdsOf(claims);
        assert DueBefore(Rank(before.deliveries, c.id), Rank(before.deliveries, id));
      }
    }
  }

  /** A failure below the limit waits never less than the base, and as long as the products fit within a tenth of
      base * 2^attemptCount, while that does not exceed the maximum. */
  ghost predicate RetryWaits(row: Delivery, claim: Claim, policy: Policy, completedAt: int) {
    var wait, doubled := row.availableAt - completedAt, policy.baseRetryDelay * Pow2(claim.attemptCount);
    && row.nextRetryAt == Some(completedAt + wait)
    && policy.baseRetryDelay <= wait <= policy.maxRetryDelay
    && (doubled <= policy.maxRetryDelay <= 0x7FFF_FFFF_FFFF_FFFF / 10 && 0 <= claim.id
        && claim.id * 31 + (claim.attemptCount + 1) * 17 <= 0x7FFF_FFFF_FFFF_FFFF ==>
          doubled - doubled / 10 <= wait <= doubled + doubled / 10)
  }

  /** A committed record: the row, its attempt, and nothing else. */
  ghost predicate AttemptRecorded(before: Tables, after: Tables, claim: Claim, policy: Policy, completedAt: int,
                                  ok: bool)
  {
    && claim.id in before.deliveries && claim.id in after.deliveries
    && after.deliveries == before.deliveries[claim.id := after.deliveries[claim.id]]
    && RowRecorded(before.deliveries[claim.id], after.deliveries[claim.id], claim, policy, ok, completedAt)
    && after.attempts == map[(claim.id, claim.attemptCount + 1) := ok] + before.attempts
    && (!ok && claim.attemptCount + 1 < claim.maxAttempts && 0 < policy.baseRetryDelay <= policy.maxRetryDelay ==>
          RetryWaits(after.deliveries[claim.id], claim, policy, completedAt))
  }

  lemma {:induction false} RecordMeans(before: Tables, after: Tables, claim: Claim, policy: Policy, completedAt: int,
                                       ok: bool, retryAt: int)
    requires LeaseHeld(before, claim.id, policy.workerId)
    requires RetryTime(policy, claim.id, claim.attemptCount, completedAt, retryAt)
    requires after == RecordRows(before, claim, policy.workerId, ok, completedAt, retryAt)
    ensures AttemptRecorded(before, after, claim, policy, completedAt, ok)
  {
  }

  class DeliveryTables {
    var deliveries: map<int, Delivery>
    var attempts: map<(int, nat), bool>

    ghost function Contents(): Tables
      reads this
    {
      Tables(deliveries, attempts)
    }

    /** The candidate rows: the first due ones by availability and id, skipping rows other
        transactions have locked, up to the batch size. */
    method SelectDue(at: int, lease: int, batchSize: nat, lockedElsewhere: set<int>) returns (ids: seq<int>)
      ensures forall i, j :: 0 <= i < j < |ids| ==> ids[i] != ids[j]
      ensures FirstDue(deliveries, Elements(ids), at, lease, batchSize, lockedElsewhere)
    {
      var due := set id | id in deliveries && Claimable(deliveries, id, at, lease, lockedElsewhere) ::
                   Rank(deliveries, id);
      assert StrictOrder(DueBefore);
      var ranked := SortSet(DueBefore, due);
      var limit := if |ranked| < batchSize then |ranked| else batchSize;
      ids := seq(limit, i requires 0 <= i < limit => ranked[i].1);
      TakingRanked(deliveries, ranked, ids, at, lease, batchSize, lockedElsewhere);
    }

    /** Claims a batch of due rows for the worker, under the lease that starts now. */
    method ClaimDueDeliveries(policy: Policy, observedAt: int, lockedElsewhere: set<int>) returns (claims: seq<Claim>)
      requires policy.batchSize >= 0
      modifies this
      ensures Contents() == ClaimRows(old(Contents()), IdsOf(claims), policy, observedAt)
      ensures FirstDue(old(deliveries), IdsOf(claims), observedAt, policy.leaseDuration, policy.batchSize,
                       lockedElsewhere)
      ensures forall i, j :: 0 <= i < j < |claims| ==> claims[i].id != claims[j].id
      ensures forall c :: c in claims ==>
                c.id in old(deliveries) &&
                c == Claim(c.id, old(deliveries)[c.id].attemptCount, policy.maxAttempts, observedAt)
      ensures ClaimedRows(old(Contents()), Contents(), claims, policy, observedAt, lockedElsewhere)
    {
      ghost var before := Contents();
      var ids := SelectDue(observedAt, policy.leaseDuration, policy.batchSize, lockedElsewhere);
      forall i | 0 <= i < |ids| ensures ids[i] in deliveries {
        assert ids[i] in Elements(ids);
      }
      claims := LockRows(ids, policy, observedAt);
      ClaimMeans(before, Contents(), claims, policy, observedAt, lockedElsewhere);
    }

    /** The UPDATE of the selected rows, which returns them as claims. */
    method LockRows(ids: seq<int>, policy: Policy, at: int) returns (claims: seq<Claim>)
      requires forall i :: 0 <= i < |ids| ==> ids[i] in deliveries
      requires forall i, j :: 0 <= i < j < |ids| ==> ids[i] != ids[j]
      modifies this`deliveries
      ensures |claims| == |ids| && IdsOf(claims) == Elements(ids)
      ensures forall i :: 0 <= i < |ids| ==>
                claims[i] == Claim(ids[i], old(deliveries)[ids[i]].attemptCount, policy.maxAttempts, at)
      ensures Contents() == ClaimRows(old(Contents()), Elements(ids), policy, at)
    {
      ghost var was := deliveries;
      claims := [];
      for i := 0 to |ids|
        invariant deliveries.Keys == was.Keys && |claims| == i
        invariant forall j :: 0 <= j < i ==>
                    claims[j] == Claim(ids[j], was[ids[j]].attemptCount, policy.maxAttempts, at)
        invariant forall id :: id in was ==>
                    deliveries[id] == if id in ids[..i] then Locked(was[id], policy, at) else was[id]
      {
        var id := ids[i];
        assert ids[..i + 1] == ids[..i] + [id];
        deliveries := deliveries[id := Locked(deliveries[id], policy, at)];
        claims := claims + [Claim(id, deliveries[id].attemptCount, policy.maxAttempts, at)];
      }
      assert ids[..|ids|] == ids;
      ClaimIds(claims, ids);
      forall id | id in was
        ensures deliveries[id] == ClaimRows(old(Contents()), Elements(ids), policy, at).deliveries[id]
      {
        assert id in ids <==> id in Elements(ids);
      }
    }

    /** Inserts the attempt row, then updates the delivery row if the lease is still held; returns
        whether the transaction committed. */
    method RecordDeliveryAttempt(claim: Claim, policy: Policy, completedAt: int, ok: bool)
        returns (committed: bool, ghost retryAt: int)
      requires Fits(claim.id) && Fits(claim.attemptCount + 1) && Fits(policy.baseRetryDelay)
      requires Fits(policy.maxRetryDelay)
      modifies this
      ensures committed <==> LeaseHeld(old(Contents()), claim.id, policy.workerId)
      ensures RetryTime(policy, claim.id, claim.attemptCount, completedAt, retryAt)
      ensures Contents() == RecordRows(old(Contents()), claim, policy.workerId, ok, completedAt, retryAt)
      ensures if committed then AttemptRecorded(old(Contents()), Contents(), claim, policy, completedAt, ok)
              else Contents() == old(Contents())
    {
      var before := attempts;
      var attempt: nat := claim.attemptCount + 1;
      if (claim.id, attempt) !in attempts {
        attempts := attempts[(claim.id, attempt) := ok];
      }
      var delay := RetryDelay(claim.id, attempt, policy.baseRetryDelay, policy.maxRetryDelay);
      retryAt := completedAt + delay;
      var status := Sent;
      var availableAt := completedAt;
      var nextRetryAt := None;
      var sentAt := Some(completedAt);
      if !ok {
        status := Retrying;
        availableAt := completedAt + delay;
        nextRetryAt := Some(availableAt);
        sentAt := None;
        if attempt >= claim.maxAttempts {
          status := Failed;
          nextRetryAt := None;
        }
      }
      committed := claim.id in deliveries && deliveries[claim.id].status == Processing
                     && deliveries[claim.id].lockedBy == Some(policy.workerId);
      if !committed {
        attempts := before;
      } else {
        var row := deliveries[claim.id];
        deliveries := deliveries[claim.id :=
          row.(status := status, attemptCount := attempt, availableAt := availableAt, nextRetryAt := nextRetryAt,
               sentAt := sentAt, lockedAt := None, lockedBy := None)];
      }
      assert Contents() == RecordRows(old(Contents()), claim, policy.workerId, ok, completedAt, retryAt);
      if committed {
        RecordMeans(old(Contents()), Contents(), claim, policy, completedAt, ok, retryAt);
      }
    }
  }
}

/** The lease protocol of internal/alerts/notifications.go as a transition system: sequential
    workers with distinct ids claim, dispatch and record over the shared tables. A claim and a
    record are one transaction each; a dispatch happens outside any. */
module DeliveryProtocol {
  import opened Wrappers
  import opened Ordering
  import opened Backoff
  import opened DeliveryStore

  /** A worker's unfinished batch; result is the outcome of dispatching its head. */
  datatype Worker = Worker(held: seq<Claim>, result: Option<bool>)

  datatype Dispatch = Dispatch(id: int, worker: string, ok: bool)

  datatype System = System(tables: Tables, workers: map<string, Worker>, clock: int, dispatches: seq<Dispatch>)

  /** Abandon covers a crash, a failed statement and a cancelled context: the batch is dropped, the
      rows stay locked until the lease runs out. */
  datatype Step =
    | Enqueue(id: int, now: int)
    | ClaimBatch(worker: string, ids: seq<int>, at: int)
    | DispatchHead(worker: string, ok: bool)
    | RecordHead(worker: string, completedAt: int, retryAt: int)
    | Abandon(worker: string)
    | Tick(now: int)

  const Idle := Worker([], None)

  predicate Distinct<T(==)>(xs: seq<T>) {
    forall i, j :: 0 <= i < j < |xs| ==> xs[i] != xs[j]
  }

  predicate Enabled(policies: map<string, Policy>, s: System, step: Step) {
    match step
    case Enqueue(id, _) => id !in s.tables.deliveries
    case ClaimBatch(w, ids, at) =>
      w in s.workers && w in policies && s.workers[w] == Idle && Distinct(ids) &&
      forall i :: 0 <= i < |ids| ==>
        ids[i] in s.tables.deliveries && Due(s.tables.deliveries[ids[i]], at, policies[w].leaseDuration)
    case DispatchHead(w, _) => w in s.workers && s.workers[w].held != [] && s.workers[w].result.None?
    case RecordHead(w, _, _) => w in s.workers && s.workers[w].held != [] && s.workers[w].result.Some?
    case Abandon(w) => w in s.workers
    case Tick(_) => true
  }

  function ClaimsOf(t: Tables, ids: seq<int>, maxAttempts: int, at: int): (claims: seq<Claim>)
    requires forall i :: 0 <= i < |ids| ==> ids[i] in t.deliveries
    ensures |claims| == |ids|
    ensures forall i :: 0 <= i < |ids| ==>
            claims[i] == Claim(ids[i], t.deliveries[ids[i]].attemptCount, maxAttempts, at)
  {
    seq(|ids|, i requires 0 <= i < |ids| => Claim(ids[i], t.deliveries[ids[i]].attemptCount, maxAttempts, at))
  }

  /** A lost lease ends the whole batch: the worker returns the error and drops the rest. */
  function Apply(policies: map<string, Policy>, s: System, step: Step): System
    requires Enabled(policies, s, step)
  {
    match step
    case Enqueue(id, now) =>
      s.(tables := s.tables.(deliveries := s.tables.deliveries[id := NewDelivery(now)]))
    case ClaimBatch(w, ids, at) =>
      s.(tables := ClaimRows(s.tables, Elements(ids), policies[w], at),
         workers := s.workers[w := Worker(ClaimsOf(s.tables, ids, policies[w].maxAttempts, at), None)])
    case DispatchHead(w, ok) =>
      s.(workers := s.workers[w := s.workers[w].(result := Some(ok))],
         dispatches := s.dispatches + [Dispatch(s.workers[w].held[0].id, w, ok)])
    case RecordHead(w, completedAt, retryAt) =>
      var claim := s.workers[w].held[0];
      s.(tables := RecordRows(s.tables, claim, w, s.workers[w].result.value, completedAt, retryAt),
         workers := s.workers[w := if !LeaseHeld(s.tables, claim.id, w) then Idle
                                   else Worker(s.workers[w].held[1..], None)])
    case Abandon(w) => s.(workers := s.workers[w := Idle])
    case Tick(now) => s.(clock := now)
  }

  function Start(policies: map<string, Policy>, clock: int): System {
    System(Tables(map[], map[]), map w | w in policies :: Idle, clock, [])
  }

  ghost predicate LegalRun(policies: map<string, Policy>, clock: int, steps: seq<Step>)
    decreases |steps|, 0
  {
    steps == [] ||
    var n := |steps| - 1;
    LegalRun(policies, clock, steps[..n]) && Enabled(policies, StateAfter(policies, clock, steps[..n]), steps[n])
  }

  ghost function StateAfter(policies: map<string, Policy>, clock: int, steps: seq<Step>): System
    requires LegalRun(policies, clock, steps)
    decreases |steps|, 1
  {
    if steps == [] then Start(policies, clock)
    else
      var n := |steps| - 1;
      Apply(policies, StateAfter(policies, clock, steps[..n]), steps[n])
  }

  /** Every policy carries its worker's own id and at most the budget of attempts. */
  predicate Configured(policies: map<string, Policy>, budget: int) {
    forall w :: w in policies ==> policies[w].workerId == w && 1 <= policies[w].maxAttempts <= budget
  }

  // ----- the invariant of every interleaving

  ghost predicate RowOk(d: Delivery, attempts: map<(int, nat), bool>, id: int, budget: int) {
    && (d.status.Processing? <==> d.lockedBy.Some?) && (d.lockedBy.Some? <==> d.lockedAt.Some?)
    && (forall n: nat :: (id, n) in attempts <==> 1 <= n <= d.attemptCount)
    && (forall n: nat :: 1 <= n <= d.attemptCount ==> attempts[(id, n)] == (d.status.Sent? && n == d.attemptCount))
    && (d.status.Sent? || d.status.Failed? ==> 1 <= d.attemptCount)
    && (d.status.Failed? ==> d.maxAttempts <= d.attemptCount)
    && (d.status.Pending? ==> d.attemptCount == 0)
    && d.attemptCount <= budget
    && (!d.status.Sent? && !d.status.Failed? ==> d.attemptCount < budget)
  }

  ghost predicate TablesOk(t: Tables, budget: int) {
    && (forall id :: id in t.deliveries ==> RowOk(t.deliveries[id], t.attempts, id, budget))
    && (forall key :: key in t.attempts ==> key.0 in t.deliveries)
  }

  /** A claim the row still belongs to carries the row's own counts. */
  ghost predicate ClaimOk(t: Tables, w: string, c: Claim, budget: int) {
    && c.id in t.deliveries && 1 <= c.maxAttempts <= budget
    && (t.deliveries[c.id].lockedBy == Some(w) ==>
          t.deliveries[c.id].attemptCount == c.attemptCount && t.deliveries[c.id].maxAttempts == c.maxAttempts)
  }

  ghost predicate DistinctIds(claims: seq<Claim>) {
    forall i, j :: 0 <= i < j < |claims| ==> claims[i].id != claims[j].id
  }

  ghost predicate Inv(s: System, budget: int) {
    && TablesOk(s.tables, budget)
    && (forall w :: w in s.workers ==> DistinctIds(s.workers[w].held))
    && (forall w, c :: w in s.workers && c in s.workers[w].held ==> ClaimOk(s.tables, w, c, budget))
  }

  lemma RecordKeepsTables(t: Tables, c: Claim, w: string, ok: bool, completedAt: int, retryAt: int, budget: int)
    requires TablesOk(t, budget) && ClaimOk(t, w, c, budget)
    ensures TablesOk(RecordRows(t, c, w, ok, completedAt, retryAt), budget)
    ensures LeaseHeld(t, c.id, w) ==> (c.id, c.attemptCount + 1) !in t.attempts
  {
    if LeaseHeld(t, c.id, w) {
      var row := t.deliveries[c.id];
      assert RowOk(row, t.attempts, c.id, budget);
      assert (c.id, c.attemptCount + 1) !in t.attempts;
      var after := RecordRows(t, c, w, ok, completedAt, retryAt);
      forall id | id in after.deliveries ensures RowOk(after.deliveries[id], after.attempts, id, budget) {
        assert RowOk(t.deliveries[id], t.attempts, id, budget);
      }
    }
  }

  lemma StepKeepsInv(policies: map<string, Policy>, s: System, step: Step, budget: int)
    requires Configured(policies, budget) && budget >= 1 && Inv(s, budget) && Enabled(policies, s, step)
    ensures Inv(Apply(policies, s, step), budget)
  {
    match step {
      case Enqueue(id, now) => EnqueueKeepsInv(policies, s, id, now, budget);
      case ClaimBatch(w, ids, at) => ClaimKeepsInv(policies, s, w, ids, at, budget);
      case RecordHead(w, completedAt, retryAt) => RecordKeepsInv(policies, s, w, completedAt, retryAt, budget);
      case _ => QuietKeepsInv(policies, s, step, budget);
    }
  }

  lemma RecordKeepsInv(policies: map<string, Policy>, s: System, w: string, completedAt: int, retryAt: int, budget: int)
    requires Inv(s, budget) && Enabled(policies, s, RecordHead(w, completedAt, retryAt))
    ensures Inv(Apply(policies, s, RecordHead(w, completedAt, retryAt)), budget)
  {
    var c := s.workers[w].held[0];
    RecordKeepsTables(s.tables, c, w, s.workers[w].result.value, completedAt, retryAt, budget);
    RecordKeepsClaims(s, w, budget, Apply(policies, s, RecordHead(w, completedAt, retryAt)));
  }

  lemma QuietKeepsInv(policies: map<string, Policy>, s: System, step: Step, budget: int)
    requires Inv(s, budget) && Enabled(policies, s, step) && (step.DispatchHead? || step.Abandon? || step.Tick?)
    ensures Inv(Apply(policies, s, step), budget)
  {
  }

  lemma EnqueueKeepsInv(policies: map<string, Policy>, s: System, id: int, now: int, budget: int)
    requires budget >= 1 && Inv(s, budget) && Enabled(policies, s, Enqueue(id, now))
    ensures Inv(Apply(policies, s, Enqueue(id, now)), budget)
  {
    forall n: nat ensures (id, n) !in s.tables.attempts {
      assert (id, n) in s.tables.attempts ==> (id, n).0 in s.tables.deliveries;
    }
  }

  lemma ClaimKeepsTables(policies: map<string, Policy>, s: System, w: string, ids: seq<int>, at: int, budget: int)
    requires Configured(policies, budget) && TablesOk(s.tables, budget) && Enabled(policies, s, ClaimBatch(w, ids, at))
    ensures TablesOk(Apply(policies, s, ClaimBatch(w, ids, at)).tables, budget)
  {
    var after := Apply(policies, s, ClaimBatch(w, ids, at)).tables;
    forall id | id in after.deliveries ensures RowOk(after.deliveries[id], after.attempts, id, budget) {
      assert RowOk(s.tables.deliveries[id], s.tables.attempts, id, budget);
    }
  }

  lemma ClaimKeepsInv(policies: map<string, Policy>, s: System, w: string, ids: seq<int>, at: int, budget: int)
    requires Configured(policies, budget) && Inv(s, budget) && Enabled(policies, s, ClaimBatch(w, ids, at))
    ensures Inv(Apply(policies, s, ClaimBatch(w, ids, at)), budget)
  {
    var after := Apply(policies, s, ClaimBatch(w, ids, at));
    ClaimKeepsTables(policies, s, w, ids, at, budget);
    forall v, c | v in after.workers && c in after.workers[v].held ensures ClaimOk(after.tables, v, c, budget) {
      if v == w {
        var i :| 0 <= i < |ids| && after.workers[w].held[i] == c;
        assert ids[i] in ids;
      } else {
        assert ClaimOk(s.tables, v, c, budget);
      }
    }
  }

  lemma RecordKeepsClaims(s: System, w: string, budget: int, after: System)
    requires Inv(s, budget) && w in s.workers && s.workers[w].held != [] && after.workers.Keys == s.workers.Keys
    requires forall v :: v in s.workers ==>
               var held := s.workers[v].held;
               after.workers[v].held in {held, if held == [] then [] else held[1..], []}
    requires after.tables.deliveries.Keys == s.tables.deliveries.Keys
    requires forall id :: id in s.tables.deliveries && id != s.workers[w].held[0].id ==>
               after.tables.deliveries[id] == s.tables.deliveries[id]
    requires var id := s.workers[w].held[0].id; id in s.tables.deliveries ==>
               after.tables.deliveries[id] == s.tables.deliveries[id] || after.tables.deliveries[id].lockedBy.None?
    ensures forall v, c :: v in after.workers && c in after.workers[v].held ==> ClaimOk(after.tables, v, c, budget)
    ensures forall v :: v in after.workers ==> DistinctIds(after.workers[v].held)
  {
    forall v, c | v in after.workers && c in after.workers[v].held ensures ClaimOk(after.tables, v, c, budget) {
      assert c in s.workers[v].held;
      assert ClaimOk(s.tables, v, c, budget);
    }
  }

  lemma {:induction false} RunKeepsInv(policies: map<string, Policy>, clock: int, steps: seq<Step>, budget: int)
    requires Configured(policies, budget) && budget >= 1 && LegalRun(policies, clock, steps)
    ensures Inv(StateAfter(policies, clock, steps), budget)
  {
    if steps != [] {
      var n := |steps| - 1;
      RunKeepsInv(policies, clock, steps[..n], budget);
      StepKeepsInv(policies, StateAfter(policies, clock, steps[..n]), steps[n], budget);
    }
  }

  // ----- what holds in every reachable state

  /** Attempt rows are numbered exactly 1..attempt_count; the lock columns are set iff processing. */
  lemma AttemptsNumberedExactly(policies: map<string, Policy>, clock: int, steps: seq<Step>, budget: int, id: int)
    requires Configured(policies, budget) && budget >= 1 && LegalRun(policies, clock, steps)
    ensures
      var t := StateAfter(policies, clock, steps).tables;
      if id !in t.deliveries then forall n: nat :: (id, n) !in t.attempts
      else
        var d := t.deliveries[id];
        && (forall n: nat :: (id, n) in t.attempts <==> 1 <= n <= d.attemptCount)
        && (d.status.Processing? <==> d.lockedAt.Some?) && (d.status.Processing? <==> d.lockedBy.Some?)
        && d.attemptCount <= budget
  {
    RunKeepsInv(policies, clock, steps, budget);
    var t := StateAfter(policies, clock, steps).tables;
    if id in t.deliveries {
      assert RowOk(t.deliveries[id], t.attempts, id, budget);
    } else {
      assert forall key :: key in t.attempts ==> key.0 in t.deliveries;
      assert forall n: nat :: (id, n) in t.attempts ==> (id, n).0 in t.deliveries;
    }
  }

  ghost predicate Succeeded(t: Tables, id: int, n: nat) {
    (id, n) in t.attempts && t.attempts[(id, n)]
  }

  /** Sent means the last recorded attempt succeeded, the only one that did; failed means that all
      of at least max_attempts attempts failed. */
  lemma OutcomeMatchesAttempts(policies: map<string, Policy>, clock: int, steps: seq<Step>, budget: int, id: int)
    requires Configured(policies, budget) && budget >= 1 && LegalRun(policies, clock, steps)
    requires id in StateAfter(policies, clock, steps).tables.deliveries
    ensures
      var t := StateAfter(policies, clock, steps).tables;
      var d := t.deliveries[id];
      && (d.status.Sent? <==> Succeeded(t, id, d.attemptCount))
      && (d.status.Sent? <==> exists n: nat :: Succeeded(t, id, n))
      && (forall n: nat :: Succeeded(t, id, n) ==> n == d.attemptCount)
      && (d.status.Failed? ==> d.attemptCount >= d.maxAttempts && forall n: nat :: !Succeeded(t, id, n))
  {
    RunKeepsInv(policies, clock, steps, budget);
    var t := StateAfter(policies, clock, steps).tables;
    assert RowOk(t.deliveries[id], t.attempts, id, budget);
    if t.deliveries[id].status.Sent? {
      assert Succeeded(t, id, t.deliveries[id].attemptCount);
    }
  }

  /** A committed record always inserts its attempt row: ON CONFLICT never swallows one. */
  lemma CommittedRecordInsertsAttempt(policies: map<string, Policy>, clock: int, steps: seq<Step>, budget: int,
                                      w: string, completedAt: int, retryAt: int)
    requires Configured(policies, budget) && budget >= 1 && LegalRun(policies, clock, steps)
    requires Enabled(policies, StateAfter(policies, clock, steps), RecordHead(w, completedAt, retryAt))
    ensures
      var s := StateAfter(policies, clock, steps);
      var c := s.workers[w].held[0];
      var t := Apply(policies, s, RecordHead(w, completedAt, retryAt)).tables;
      LeaseHeld(s.tables, c.id, w) ==>
        && (c.id, c.attemptCount + 1) !in s.tables.attempts
        && t.attempts == s.tables.attempts[(c.id, c.attemptCount + 1) := s.workers[w].result.value]
        && t.deliveries[c.id].attemptCount == s.tables.deliveries[c.id].attemptCount + 1
  {
    RunKeepsInv(policies, clock, steps, budget);
    var s := StateAfter(policies, clock, steps);
    var c := s.workers[w].held[0];
    assert ClaimOk(s.tables, w, c, budget);
    RecordKeepsTables(s.tables, c, w, s.workers[w].result.value, completedAt, retryAt, budget);
  }

  predicate Terminal(t: Tables, id: int) {
    id in t.deliveries && (t.deliveries[id].status.Sent? || t.deliveries[id].status.Failed?)
  }

  lemma TerminalRowKept(policies: map<string, Policy>, s: System, step: Step, id: int)
    requires Enabled(policies, s, step) && Terminal(s.tables, id)
    ensures id in Apply(policies, s, step).tables.deliveries
    ensures Apply(policies, s, step).tables.deliveries[id] == s.tables.deliveries[id]
  {
  }

  /** Sent and failed are absorbing: the row never changes again in any continuation. */
  lemma {:induction false} TerminalIsForever(policies: map<string, Policy>, clock: int, steps: seq<Step>, k: nat,
                                             id: int)
    requires k <= |steps| && LegalRun(policies, clock, steps)
    requires LegalRun(policies, clock, steps[..k]) && Terminal(StateAfter(policies, clock, steps[..k]).tables, id)
    ensures id in StateAfter(policies, clock, steps).tables.deliveries
    ensures StateAfter(policies, clock, steps).tables.deliveries[id] ==
            StateAfter(policies, clock, steps[..k]).tables.deliveries[id]
  {
    if k == |steps| {
      assert steps[..k] == steps;
    } else {
      var n := |steps| - 1;
      assert steps[..n][..k] == steps[..k];
      TerminalIsForever(policies, clock, steps[..n], k, id);
      TerminalRowKept(policies, StateAfter(policies, clock, steps[..n]), steps[n], id);
    }
  }

  /** Committed records of one delivery in a run. */
  ghost function Commits(policies: map<string, Policy>, clock: int, steps: seq<Step>, id: int): nat
    requires LegalRun(policies, clock, steps)
  {
    if steps == [] then 0
    else
      var n := |steps| - 1;
      var s := StateAfter(policies, clock, steps[..n]);
      Commits(policies, clock, steps[..n], id) + if CommitsRecord(policies, s, steps[n], id) then 1 else 0
  }

  predicate CommitsRecord(policies: map<string, Policy>, s: System, step: Step, id: int)
    requires Enabled(policies, s, step)
  {
    step.RecordHead? && s.workers[step.worker].held[0].id == id && LeaseHeld(s.tables, id, step.worker)
  }

  function AttemptsOf(t: Tables, id: int): nat {
    if id in t.deliveries then t.deliveries[id].attemptCount else 0
  }

  lemma StepCounts(policies: map<string, Policy>, s: System, step: Step, budget: int, id: int)
    requires Inv(s, budget) && Enabled(policies, s, step)
    ensures AttemptsOf(Apply(policies, s, step).tables, id)
            == AttemptsOf(s.tables, id) + if CommitsRecord(policies, s, step, id) then 1 else 0
  {
    if step.RecordHead? {
      assert ClaimOk(s.tables, step.worker, s.workers[step.worker].held[0], budget);
    }
  }

  /** Every committed record uses up one attempt of the budget, so no run records more than that. */
  lemma {:induction false} CommitsWithinBudget(policies: map<string, Policy>, clock: int, steps: seq<Step>, budget: int,
                                               id: int)
    requires Configured(policies, budget) && budget >= 1 && LegalRun(policies, clock, steps)
    ensures
      Commits(policies, clock, steps, id) == AttemptsOf(StateAfter(policies, clock, steps).tables, id) <= budget
  {
    if steps != [] {
      var n := |steps| - 1;
      CommitsWithinBudget(policies, clock, steps[..n], budget, id);
      RunKeepsInv(policies, clock, steps[..n], budget);
      RunKeepsInv(policies, clock, steps, budget);
      StepCounts(policies, StateAfter(policies, clock, steps[..n]), steps[n], budget, id);
      var t := StateAfter(policies, clock, steps).tables;
      if id in t.deliveries {
        assert RowOk(t.deliveries[id], t.attempts, id, budget);
      }
    }
  }

  // ----- a lease that was taken over

  predicate ClaimsBy(step: Step, w: string) {
    step.ClaimBatch? && step.worker == w
  }

  lemma {:induction false} NotReacquired(policies: map<string, Policy>, clock: int, steps: seq<Step>, j: nat, w: string,
                                         id: int, budget: int)
    requires Configured(policies, budget) && LegalRun(policies, clock, steps) && j < |steps|
    requires steps[j].ClaimBatch? && steps[j].worker != w && id in steps[j].ids
    requires forall m :: j < m < |steps| ==> !ClaimsBy(steps[m], w)
    ensures !LeaseHeld(StateAfter(policies, clock, steps).tables, id, w)
  {
    var n := |steps| - 1;
    if j < n {
      NotReacquired(policies, clock, steps[..n], j, w, id, budget);
    }
  }

  /** Once another worker has claimed a delivery, the first holder's late record changes nothing,
      whatever happened in between. */
  lemma LateRecordChangesNothing(policies: map<string, Policy>, clock: int, steps: seq<Step>, j: nat, w: string,
                                 completedAt: int, retryAt: int, budget: int)
    requires Configured(policies, budget) && LegalRun(policies, clock, steps) && j < |steps|
    requires Enabled(policies, StateAfter(policies, clock, steps), RecordHead(w, completedAt, retryAt))
    requires steps[j].ClaimBatch? && steps[j].worker != w
    requires StateAfter(policies, clock, steps).workers[w].held[0].id in steps[j].ids
    requires forall m :: j < m < |steps| ==> !ClaimsBy(steps[m], w)
    ensures
      var s := StateAfter(policies, clock, steps);
      Apply(policies, s, RecordHead(w, completedAt, retryAt)) == s.(workers := s.workers[w := Idle])
  {
    NotReacquired(policies, clock, steps, j, w, StateAfter(policies, clock, steps).workers[w].held[0].id, budget);
  }
}

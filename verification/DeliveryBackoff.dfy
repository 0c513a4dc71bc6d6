/** Along runs whose records use the retry delay: a failed delivery is not claimed again before it. */
module DeliveryBackoff {
  import opened Wrappers
  import opened Ordering
  import opened Backoff
  import opened DeliveryStore
  import opened DeliveryProtocol

  /** A record computes its retry time as RecordDeliveryAttempt does. */
  ghost predicate BacksOff(policies: map<string, Policy>, s: System, step: Step) {
    step.RecordHead? && step.worker in policies && step.worker in s.workers && s.workers[step.worker].held != [] ==>
      var claim := s.workers[step.worker].held[0];
      RetryTime(policies[step.worker], claim.id, claim.attemptCount, step.completedAt, step.retryAt)
  }

  ghost predicate BacksOffAt(policies: map<string, Policy>, clock: int, steps: seq<Step>, n: nat)
    requires LegalRun(policies, clock, steps) && n < |steps|
  {
    LegalRun(policies, clock, steps[..n]) && BacksOff(policies, StateAfter(policies, clock, steps[..n]), steps[n])
  }

  ghost predicate Backing(policies: map<string, Policy>, clock: int, steps: seq<Step>)
    requires LegalRun(policies, clock, steps)
  {
    forall n :: 0 <= n < |steps| ==> BacksOffAt(policies, clock, steps, n)
  }

  predicate LeasesNotNegative(policies: map<string, Policy>) {
    forall w :: w in policies ==> policies[w].leaseDuration >= 0
  }

  /** After so many attempts the row waits until then, or a claim has already waited. */
  ghost predicate Waits(t: Tables, id: int, attempts: nat, until: int) {
    id in t.deliveries && t.deliveries[id].attemptCount >= attempts
    && (t.deliveries[id].attemptCount == attempts ==>
          || (t.deliveries[id].status.Retrying? && t.deliveries[id].availableAt >= until)
          || (t.deliveries[id].status.Processing? && t.deliveries[id].lockedAt.Some?
              && t.deliveries[id].lockedAt.value >= until))
  }

  lemma StepKeepsWaiting(policies: map<string, Policy>, s: System, step: Step, budget: int, id: int, attempts: nat,
                         until: int)
    requires Configured(policies, budget) && LeasesNotNegative(policies) && Inv(s, budget) && Enabled(policies, s, step)
    requires Waits(s.tables, id, attempts, until)
    ensures Waits(Apply(policies, s, step).tables, id, attempts, until)
  {
    if step.RecordHead? {
      assert ClaimOk(s.tables, step.worker, s.workers[step.worker].held[0], budget);
    }
  }

  /** The delivery is claimed at the step, and has had so many attempts. */
  ghost predicate ClaimedAt(policies: map<string, Policy>, clock: int, steps: seq<Step>, j: nat, id: int, attempts: nat)
    requires LegalRun(policies, clock, steps) && j < |steps|
  {
    && LegalRun(policies, clock, steps[..j]) && steps[j].ClaimBatch? && id in steps[j].ids
    && var t := StateAfter(policies, clock, steps[..j]).tables;
    id in t.deliveries && t.deliveries[id].attemptCount == attempts
  }

  /** The step records a failure of the delivery below the limit, while the lease is held. */
  ghost predicate FailsAt(policies: map<string, Policy>, clock: int, steps: seq<Step>, i: nat, id: int, earlier: nat)
    requires LegalRun(policies, clock, steps) && i < |steps|
  {
    && LegalRun(policies, clock, steps[..i]) && steps[i].RecordHead?
    && var s, w := StateAfter(policies, clock, steps[..i]), steps[i].worker;
    && w in policies && w in s.workers && s.workers[w].held != [] && s.workers[w].result == Some(false)
    && var claim := s.workers[w].held[0];
    && claim.id == id && claim.attemptCount == earlier && earlier + 1 < claim.maxAttempts
    && LeaseHeld(s.tables, id, w)
  }

  lemma {:induction false} LegalPrefix(policies: map<string, Policy>, clock: int, steps: seq<Step>, n: nat)
    requires LegalRun(policies, clock, steps) && n <= |steps|
    ensures LegalRun(policies, clock, steps[..n])
  {
    if n == |steps| {
      assert steps[..n] == steps;
    } else {
      LegalPrefix(policies, clock, steps[..|steps| - 1], n);
      assert steps[..|steps| - 1][..n] == steps[..n];
    }
  }

  lemma NextState(policies: map<string, Policy>, clock: int, steps: seq<Step>, n: nat)
    requires LegalRun(policies, clock, steps) && n < |steps|
    ensures LegalRun(policies, clock, steps[..n]) && LegalRun(policies, clock, steps[..n + 1])
    ensures Enabled(policies, StateAfter(policies, clock, steps[..n]), steps[n])
    ensures StateAfter(policies, clock, steps[..n + 1]) ==
            Apply(policies, StateAfter(policies, clock, steps[..n]), steps[n])
  {
    LegalPrefix(policies, clock, steps, n);
    LegalPrefix(policies, clock, steps, n + 1);
    assert steps[..n + 1][..n] == steps[..n];
  }

  lemma {:induction false} WaitsOn(policies: map<string, Policy>, clock: int, steps: seq<Step>, budget: int, id: int,
                                   attempts: nat, until: int, i: nat, j: nat)
    requires Configured(policies, budget) && budget >= 1 && LeasesNotNegative(policies)
    requires LegalRun(policies, clock, steps) && i <= j <= |steps|
    requires LegalRun(policies, clock, steps[..i])
    requires Waits(StateAfter(policies, clock, steps[..i]).tables, id, attempts, until)
    ensures LegalRun(policies, clock, steps[..j])
    ensures Waits(StateAfter(policies, clock, steps[..j]).tables, id, attempts, until)
    decreases j - i
  {
    if i < j {
      WaitsOn(policies, clock, steps, budget, id, attempts, until, i, j - 1);
      NextState(policies, clock, steps, j - 1);
      RunKeepsInv(policies, clock, steps[..j - 1], budget);
      StepKeepsWaiting(policies, StateAfter(policies, clock, steps[..j - 1]), steps[j - 1], budget, id, attempts,
                       until);
    }
  }

  /** A failure makes its row wait until the retry time it was recorded with. */
  lemma FailureWaits(policies: map<string, Policy>, s: System, step: Step, budget: int)
    requires Configured(policies, budget) && Inv(s, budget) && Enabled(policies, s, step) && step.RecordHead?
    requires step.worker in policies && s.workers[step.worker].result == Some(false)
    requires var claim := s.workers[step.worker].held[0];
             claim.attemptCount + 1 < claim.maxAttempts && LeaseHeld(s.tables, claim.id, step.worker)
    ensures var claim := s.workers[step.worker].held[0];
            Waits(Apply(policies, s, step).tables, claim.id, claim.attemptCount + 1, step.retryAt)
  {
  }

  lemma ClaimAfterWait(policies: map<string, Policy>, s: System, step: Step, id: int, attempts: nat, until: int)
    requires LeasesNotNegative(policies) && Enabled(policies, s, step) && step.ClaimBatch? && id in step.ids
    requires Waits(s.tables, id, attempts, until) && s.tables.deliveries[id].attemptCount == attempts
    ensures step.at >= until
  {
  }

  /** Between its failure and its next attempt a delivery is never claimed earlier than the base after the failure,
      nor, as long as the products fit a word, earlier than a tenth short of the base doubled once for each failure
      before it, up to the maximum. */
  lemma RetryNotBefore(policies: map<string, Policy>, clock: int, steps: seq<Step>, budget: int, i: nat, j: nat,
                       id: int, earlier: nat)
    requires Configured(policies, budget) && budget >= 1 && LeasesNotNegative(policies)
    requires LegalRun(policies, clock, steps) && Backing(policies, clock, steps) && i < j < |steps|
    requires FailsAt(policies, clock, steps, i, id, earlier)
    requires ClaimedAt(policies, clock, steps, j, id, earlier + 1)
    ensures var policy, wait := policies[steps[i].worker], steps[j].at - steps[i].completedAt;
            var base, doubled := policy.baseRetryDelay, policy.baseRetryDelay * Pow2(earlier);
            0 < base <= policy.maxRetryDelay ==>
              && wait >= base
              && (0 <= id && id * 31 + (earlier + 1) * 17 <= 0x7FFF_FFFF_FFFF_FFFF
                  && doubled <= policy.maxRetryDelay <= 0x7FFF_FFFF_FFFF_FFFF / 10 ==>
                    wait >= doubled - doubled / 10)
  {
    NextState(policies, clock, steps, i);
    NextState(policies, clock, steps, j);
    RunKeepsInv(policies, clock, steps[..i], budget);
    assert BacksOffAt(policies, clock, steps, i);
    FailureWaits(policies, StateAfter(policies, clock, steps[..i]), steps[i], budget);
    WaitsOn(policies, clock, steps, budget, id, earlier + 1, steps[i].retryAt, i + 1, j);
    ClaimAfterWait(policies, StateAfter(policies, clock, steps[..j]), steps[j], id, earlier + 1, steps[i].retryAt);
  }
}

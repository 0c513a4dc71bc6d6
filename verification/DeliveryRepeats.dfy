/** When a delivery can still be dispatched successfully a second time, by any road: a lease that is outlived, or a
    worker that dies between dispatch and record. */
module DeliveryRepeats {
  import opened Wrappers
  import opened Ordering
  import opened Numbers
  import opened Backoff
  import opened DeliveryStore
  import opened DeliveryProtocol
  import opened DeliveryTiming
  import opened DeliveryOverrun

  /** The claim is the j-th of the worker's batch, not dispatched yet, and the worker gets to it: the claims before it
      are still locked by the worker, so that recording them keeps the batch. */
  ghost predicate ReadyAt(s: System, w: string, id: int, j: nat) {
    && w in s.workers && j < |s.workers[w].held| && s.workers[w].held[j].id == id
    && (forall i :: 0 <= i < j ==> LeaseHeld(s.tables, s.workers[w].held[i].id, w))
    && !(j == 0 && s.workers[w].result.Some?)
  }

  ghost predicate Ready(s: System, w: string, id: int) {
    exists j: nat :: ReadyAt(s, w, id, j)
  }

  ghost function ReadyWorkers(s: System, id: int): set<string> {
    set w | w in s.workers && Ready(s, w, id)
  }

  /** The most successful dispatches that a delivery with a final status can still come to. */
  ghost function Potential(s: System, id: int): nat {
    Successes(s.dispatches, id) + |ReadyWorkers(s, id)|
  }

  // ----- a final status bounds them

  /** No step locks a row for a worker that does not claim. */
  lemma LocksShrink(policies: map<string, Policy>, s: System, step: Step, budget: int, v: string, x: int)
    requires Configured(policies, budget) && Enabled(policies, s, step)
    requires !(step.ClaimBatch? && step.worker == v)
    ensures LeaseHeld(Apply(policies, s, step).tables, x, v) ==> LeaseHeld(s.tables, x, v)
  {
  }

  /** So no step makes a worker ready for a delivery with a final status. */
  lemma ReadyShrinks(policies: map<string, Policy>, s: System, step: Step, budget: int, v: string, id: int)
    requires Configured(policies, budget) && Enabled(policies, s, step) && Terminal(s.tables, id)
    requires Ready(Apply(policies, s, step), v, id)
    ensures Ready(s, v, id)
  {
    var after := Apply(policies, s, step);
    var j: nat :| ReadyAt(after, v, id, j);
    if !(step.ClaimBatch? && step.worker == v) {
      forall i | 0 <= i < j ensures LeaseHeld(s.tables, after.workers[v].held[i].id, v) {
        LocksShrink(policies, s, step, budget, v, after.workers[v].held[i].id);
      }
      if step.RecordHead? && step.worker == v {
        assert ReadyAt(s, v, id, j + 1);
      } else {
        assert ReadyAt(s, v, id, j);
      }
    }
  }

  lemma DispatchedNotReady(policies: map<string, Policy>, s: System, w: string, ok: bool, budget: int, id: int)
    requires Inv(s, budget) && Enabled(policies, s, DispatchHead(w, ok)) && s.workers[w].held[0].id == id
    ensures Ready(s, w, id) && !Ready(Apply(policies, s, DispatchHead(w, ok)), w, id)
  {
    assert ReadyAt(s, w, id, 0);
  }

  lemma SubsetSize<T>(a: set<T>, b: set<T>)
    requires a <= b
    ensures |a| <= |b|
    ensures a != b ==> |a| < |b|
  {
    assert b == a + (b - a);
  }

  lemma PotentialFalls(policies: map<string, Policy>, s: System, step: Step, budget: int, id: int)
    requires Configured(policies, budget) && Inv(s, budget) && Enabled(policies, s, step) && Terminal(s.tables, id)
    ensures Potential(Apply(policies, s, step), id) <= Potential(s, id)
  {
    var after := Apply(policies, s, step);
    forall v | v in ReadyWorkers(after, id) ensures v in ReadyWorkers(s, id) {
      ReadyShrinks(policies, s, step, budget, v, id);
    }
    SubsetSize(ReadyWorkers(after, id), ReadyWorkers(s, id));
    if step.DispatchHead? {
      var d := Dispatch(s.workers[step.worker].held[0].id, step.worker, step.ok);
      SuccessesSnoc(s.dispatches, d, id);
      if d.id == id {
        DispatchedNotReady(policies, s, step.worker, step.ok, budget, id);
        assert step.worker in ReadyWorkers(s, id) && step.worker !in ReadyWorkers(after, id);
      }
    }
  }

  lemma {:induction false} FinalBound(policies: map<string, Policy>, clock: int, steps: seq<Step>, more: seq<Step>,
                                      budget: int, id: int)
    requires Configured(policies, budget) && budget >= 1 && LegalRun(policies, clock, steps)
    requires LegalRun(policies, clock, steps + more) && Terminal(StateAfter(policies, clock, steps).tables, id)
    ensures Terminal(StateAfter(policies, clock, steps + more).tables, id)
    ensures Potential(StateAfter(policies, clock, steps + more), id) <=
            Potential(StateAfter(policies, clock, steps), id)
    decreases |more|
  {
    if more == [] {
      assert steps + more == steps;
    } else {
      var n := |more| - 1;
      var before := steps + more[..n];
      assert (steps + more)[..|steps| + n] == before;
      FinalBound(policies, clock, steps, more[..n], budget, id);
      RunKeepsInv(policies, clock, before, budget);
      PotentialFalls(policies, StateAfter(policies, clock, before), more[n], budget, id);
      TerminalRowKept(policies, StateAfter(policies, clock, before), more[n], id);
    }
  }

  // ----- and a ready worker gets there

  lemma ReadyDispatches(policies: map<string, Policy>, clock: int, steps: seq<Step>, budget: int, w: string, id: int)
      returns (more: seq<Step>, t: System)
    requires Configured(policies, budget) && budget >= 1 && LegalRun(policies, clock, steps)
    requires Ready(StateAfter(policies, clock, steps), w, id)
    ensures LegalRun(policies, clock, steps + more) && t == StateAfter(policies, clock, steps + more)
    ensures Successes(t.dispatches, id) >= Successes(StateAfter(policies, clock, steps).dispatches, id) + 1
    ensures forall v :: v != w && Ready(StateAfter(policies, clock, steps), v, id) ==> Ready(t, v, id)
  {
    var s := StateAfter(policies, clock, steps);
    var j: nat :| ReadyAt(s, w, id, j);
    RunKeepsInv(policies, clock, steps, budget);
    var first, u := WorkOff(policies, clock, steps, w, j);
    SuccessesGrow(s.dispatches, u.dispatches, id);
    t := DispatchNow(policies, clock, steps + first, w, id);
    more := first + [DispatchHead(w, true)];
    assert (steps + first) + [DispatchHead(w, true)] == steps + more;
    forall v | v != w && Ready(s, v, id) ensures Ready(t, v, id) {
      var k: nat :| ReadyAt(s, v, id, k);
      assert ReadyAt(t, v, id, k);
    }
  }

  lemma TwoOf(a: set<string>) returns (x: string, y: string)
    requires |a| >= 2
    ensures x in a && y in a && x != y
  {
    x :| x in a;
    SubsetSize({x}, a);
    assert a - {x} != {};
    y :| y in a - {x};
  }

  lemma FinalReachable(policies: map<string, Policy>, clock: int, steps: seq<Step>, budget: int, id: int)
      returns (more: seq<Step>)
    requires Configured(policies, budget) && budget >= 1 && LegalRun(policies, clock, steps)
    requires Potential(StateAfter(policies, clock, steps), id) >= 2
    ensures LegalRun(policies, clock, steps + more)
    ensures Successes(StateAfter(policies, clock, steps + more).dispatches, id) >= 2
  {
    var s := StateAfter(policies, clock, steps);
    if Successes(s.dispatches, id) >= 2 {
      more := [];
      assert steps + more == steps;
    } else if Successes(s.dispatches, id) == 1 {
      assert ReadyWorkers(s, id) != {};
      var w :| w in ReadyWorkers(s, id);
      var t;
      more, t := ReadyDispatches(policies, clock, steps, budget, w, id);
    } else {
      var v, w := TwoOf(ReadyWorkers(s, id));
      var first, t := ReadyDispatches(policies, clock, steps, budget, v, id);
      var second, u := ReadyDispatches(policies, clock, steps + first, budget, w, id);
      more := first + second;
      assert (steps + first) + second == steps + more;
    }
  }

  // ----- before a final status every worker can repeat it

  /** A time at which the row is due, not before the clock. */
  function DueTime(d: Delivery, clock: int, lease: int): int {
    var due := if !d.status.Processing? then d.availableAt
               else if d.lockedAt.Some? then d.lockedAt.value + lease + 1
               else clock;
    if due > clock then due else clock
  }

  lemma DueThen(d: Delivery, attempts: map<(int, nat), bool>, id: int, budget: int, clock: int, lease: int)
    requires RowOk(d, attempts, id, budget) && !d.status.Sent? && !d.status.Failed?
    ensures Due(d, DueTime(d, clock, lease), lease) && DueTime(d, clock, lease) >= clock
  {
  }

  ghost predicate Unfinished(s: System, id: int) {
    id in s.tables.deliveries && !Terminal(s.tables, id)
  }

  /** One round: die if busy, wait until the row is due, claim and dispatch it, and never record it. */
  lemma OneRound(policies: map<string, Policy>, clock: int, steps: seq<Step>, budget: int, v: string, id: int)
      returns (more: seq<Step>, t: System)
    requires Configured(policies, budget) && budget >= 1 && LegalRun(policies, clock, steps) && v in policies
    requires Unfinished(StateAfter(policies, clock, steps), id)
    ensures LegalRun(policies, clock, steps + more) && t == StateAfter(policies, clock, steps + more)
    ensures Unfinished(t, id)
    ensures Successes(t.dispatches, id) == Successes(StateAfter(policies, clock, steps).dispatches, id) + 1
  {
    var s := StateAfter(policies, clock, steps);
    RunKeepsInv(policies, clock, steps, budget);
    WorkersStay(policies, clock, steps);
    var d, lease := s.tables.deliveries[id], policies[v].leaseDuration;
    var at := DueTime(d, s.clock, lease);
    DueThen(d, s.tables.attempts, id, budget, s.clock, lease);
    var s1 := OneMore(policies, clock, steps, Abandon(v));
    var s2 := OneMore(policies, clock, steps + [Abandon(v)], Tick(at));
    assert [id][0] in Elements([id]);
    var s3 := OneMore(policies, clock, steps + [Abandon(v)] + [Tick(at)], ClaimBatch(v, [id], at));
    t := DispatchNow(policies, clock, steps + [Abandon(v)] + [Tick(at)] + [ClaimBatch(v, [id], at)], v, id);
    more := [Abandon(v), Tick(at), ClaimBatch(v, [id], at), DispatchHead(v, true)];
    assert steps + [Abandon(v)] + [Tick(at)] + [ClaimBatch(v, [id], at)] + [DispatchHead(v, true)] == steps + more;
  }

  /** A delivery that does not exist yet is enqueued first. */
  lemma Begun(policies: map<string, Policy>, clock: int, steps: seq<Step>, id: int) returns (start: seq<Step>)
    requires LegalRun(policies, clock, steps) && !Terminal(StateAfter(policies, clock, steps).tables, id)
    ensures LegalRun(policies, clock, steps + start) && Unfinished(StateAfter(policies, clock, steps + start), id)
  {
    var s := StateAfter(policies, clock, steps);
    if id in s.tables.deliveries {
      start := [];
      assert steps + start == steps;
    } else {
      start := [Enqueue(id, s.clock)];
      var u := OneMore(policies, clock, steps, Enqueue(id, s.clock));
    }
  }

  lemma UnfinishedReachable(policies: map<string, Policy>, clock: int, steps: seq<Step>, budget: int, id: int)
      returns (more: seq<Step>)
    requires Configured(policies, budget) && budget >= 1 && LegalRun(policies, clock, steps) && policies != map[]
    requires !Terminal(StateAfter(policies, clock, steps).tables, id)
    ensures LegalRun(policies, clock, steps + more)
    ensures Successes(StateAfter(policies, clock, steps + more).dispatches, id) >= 2
  {
    var v :| v in policies;
    var start := Begun(policies, clock, steps, id);
    var first, t := OneRound(policies, clock, steps + start, budget, v, id);
    var second, u := OneRound(policies, clock, steps + start + first, budget, v, id);
    more := start + first + second;
    assert steps + start + first + second == steps + more;
  }

  lemma {:induction false} NoWorkersNoDispatch(policies: map<string, Policy>, clock: int, steps: seq<Step>)
    requires LegalRun(policies, clock, steps) && policies == map[]
    ensures StateAfter(policies, clock, steps).dispatches == []
  {
    if steps != [] {
      var n := |steps| - 1;
      NoWorkersNoDispatch(policies, clock, steps[..n]);
      WorkersStay(policies, clock, steps[..n]);
    }
  }

  // ----- the exact condition

  ghost predicate Reachable(policies: map<string, Policy>, clock: int, steps: seq<Step>, more: seq<Step>, id: int) {
    LegalRun(policies, clock, steps + more) && Successes(StateAfter(policies, clock, steps + more).dispatches, id) >= 2
  }

  /** In every reachable state a second successful dispatch of a delivery is reachable exactly when it has no final
      status and there is a worker at all, or when the successes so far and the workers that still get to their claim
      of it are two together. */
  lemma SecondSuccessReachableIff(policies: map<string, Policy>, clock: int, steps: seq<Step>, budget: int, id: int)
    requires Configured(policies, budget) && budget >= 1 && LegalRun(policies, clock, steps)
    ensures (exists more :: Reachable(policies, clock, steps, more, id)) <==>
            var s := StateAfter(policies, clock, steps);
            if Terminal(s.tables, id) then Potential(s, id) >= 2 else policies != map[]
  {
    var s := StateAfter(policies, clock, steps);
    if Terminal(s.tables, id) {
      forall more | Reachable(policies, clock, steps, more, id) ensures Potential(s, id) >= 2 {
        FinalBound(policies, clock, steps, more, budget, id);
      }
      if Potential(s, id) >= 2 {
        var more := FinalReachable(policies, clock, steps, budget, id);
        assert Reachable(policies, clock, steps, more, id);
      }
    } else if policies == map[] {
      forall more | Reachable(policies, clock, steps, more, id) ensures false {
        NoWorkersNoDispatch(policies, clock, steps + more);
      }
    } else {
      var more := UnfinishedReachable(policies, clock, steps, budget, id);
      assert Reachable(policies, clock, steps, more, id);
    }
  }
}

/** What happens when a claim outlives its lease: exactly then another worker can claim the delivery too, and both
    can dispatch it. */
module DeliveryOverrun {
  import opened Wrappers
  import opened Ordering
  import opened Backoff
  import opened DeliveryStore
  import opened DeliveryProtocol
  import opened DeliveryTiming

  // ----- when another worker gets in

  /** A worker's unrecorded claim on a row that it still locks. */
  predicate HoldsLocked(s: System, w: string, id: int) {
    w in s.workers && Holds(s.workers[w], id) && LeaseHeld(s.tables, id, w)
  }

  predicate IsIdle(policies: map<string, Policy>, s: System, v: string) {
    v in policies && v in s.workers && s.workers[v] == Idle
  }

  /** In every reachable state an idle worker can claim a delivery that another one holds exactly when the lease has
      run out at the time it reads. */
  lemma TakeoverIff(policies: map<string, Policy>, clock: int, steps: seq<Step>, lease: int, budget: int, v: string,
                    w: string, id: int, at: int)
    requires Configured(policies, budget) && budget >= 1 && OneLease(policies, lease)
    requires LegalRun(policies, clock, steps)
    requires HoldsLocked(StateAfter(policies, clock, steps), w, id)
    requires IsIdle(policies, StateAfter(policies, clock, steps), v)
    ensures var s := StateAfter(policies, clock, steps);
            && s.tables.deliveries[id].lockedAt.Some?
            && (Enabled(policies, s, ClaimBatch(v, [id], at)) <==> at - lease > s.tables.deliveries[id].lockedAt.value)
  {
    RunKeepsInv(policies, clock, steps, budget);
    var s := StateAfter(policies, clock, steps);
    assert RowOk(s.tables.deliveries[id], s.tables.attempts, id, budget);
    assert [id][0] == id;
  }

  /** So a worker whose clock reading is not ahead gets in exactly when the lease has been outlived. */
  lemma TakeoverIffOverrun(policies: map<string, Policy>, clock: int, steps: seq<Step>, lease: int, budget: int,
                           v: string, w: string, id: int)
    requires Configured(policies, budget) && budget >= 1 && OneLease(policies, lease)
    requires LegalRun(policies, clock, steps)
    requires HoldsLocked(StateAfter(policies, clock, steps), w, id)
    requires IsIdle(policies, StateAfter(policies, clock, steps), v)
    ensures var s := StateAfter(policies, clock, steps);
            && s.tables.deliveries[id].lockedAt.Some?
            && ((exists at :: at <= s.clock && Enabled(policies, s, ClaimBatch(v, [id], at))) <==>
                  s.clock - lease > s.tables.deliveries[id].lockedAt.value)
  {
    var s := StateAfter(policies, clock, steps);
    TakeoverIff(policies, clock, steps, lease, budget, v, w, id, s.clock);
    forall at | at <= s.clock && Enabled(policies, s, ClaimBatch(v, [id], at))
      ensures at - lease > s.tables.deliveries[id].lockedAt.value
    {
      TakeoverIff(policies, clock, steps, lease, budget, v, w, id, at);
    }
  }

  // ----- and the delivery is dispatched a second time

  /** Steps that take no time and drop nothing. */
  predicate Quick(steps: seq<Step>) {
    forall i :: 0 <= i < |steps| ==> steps[i].DispatchHead? || steps[i].RecordHead?
  }

  lemma OneMore(policies: map<string, Policy>, clock: int, steps: seq<Step>, step: Step) returns (s: System)
    requires LegalRun(policies, clock, steps) && Enabled(policies, StateAfter(policies, clock, steps), step)
    ensures LegalRun(policies, clock, steps + [step])
    ensures s == StateAfter(policies, clock, steps + [step])
    ensures s == Apply(policies, StateAfter(policies, clock, steps), step)
  {
    assert (steps + [step])[..|steps|] == steps;
    s := Apply(policies, StateAfter(policies, clock, steps), step);
  }

  lemma SuccessesSnoc(log: seq<Dispatch>, d: Dispatch, id: int)
    ensures Successes(log + [d], id) == Successes(log, id) + if d.id == id && d.ok then 1 else 0
  {
    assert (log + [d])[..|log|] == log;
  }

  lemma {:induction false} SuccessesGrow(log: seq<Dispatch>, longer: seq<Dispatch>, id: int)
    requires log <= longer
    ensures Successes(log, id) <= Successes(longer, id)
  {
    if longer != log {
      SuccessesGrow(log, longer[..|longer| - 1], id);
    }
  }

  /** A successful dispatch that is not recorded yet is in the log. */
  ghost predicate ResultsLogged(s: System) {
    forall w :: w in s.workers && s.workers[w].held != [] && s.workers[w].result == Some(true) ==>
      Successes(s.dispatches, s.workers[w].held[0].id) >= 1
  }

  lemma {:induction false} RunLogsResults(policies: map<string, Policy>, clock: int, steps: seq<Step>)
    requires LegalRun(policies, clock, steps)
    ensures ResultsLogged(StateAfter(policies, clock, steps))
  {
    if steps != [] {
      var n := |steps| - 1;
      RunLogsResults(policies, clock, steps[..n]);
      StepLogsResults(policies, StateAfter(policies, clock, steps[..n]), steps[n]);
    }
  }

  lemma StepLogsResults(policies: map<string, Policy>, s: System, step: Step)
    requires Enabled(policies, s, step) && ResultsLogged(s)
    ensures ResultsLogged(Apply(policies, s, step))
  {
    if step.DispatchHead? {
      var d := Dispatch(s.workers[step.worker].held[0].id, step.worker, step.ok);
      forall id
        ensures Successes(s.dispatches + [d], id) == Successes(s.dispatches, id) + if d.id == id && d.ok then 1 else 0
      {
        SuccessesSnoc(s.dispatches, d, id);
      }
    }
  }

  /** The worker works off the first j claims of its batch, all still locked by it, and nobody else moves. */
  ghost predicate WorkedOff(s: System, t: System, w: string, j: nat)
    requires w in s.workers && j <= |s.workers[w].held|
  {
    && t.workers.Keys == s.workers.Keys && (forall v :: v in s.workers && v != w ==> t.workers[v] == s.workers[v])
    && t.workers[w] == Worker(s.workers[w].held[j..], if j == 0 then s.workers[w].result else None)
    && t.clock == s.clock && s.dispatches <= t.dispatches && OthersLocked(s.tables, t.tables, w)
  }

  /** What other workers have locked stays locked by them. */
  ghost predicate OthersLocked(before: Tables, after: Tables, w: string) {
    forall v, id :: v != w && LeaseHeld(before, id, v) ==> LeaseHeld(after, id, v)
  }

  ghost predicate FirstLocked(s: System, w: string, j: nat) {
    && w in s.workers && j < |s.workers[w].held| && DistinctIds(s.workers[w].held)
    && forall i :: 0 <= i < j ==> LeaseHeld(s.tables, s.workers[w].held[i].id, w)
  }

  lemma RecordsHead(policies: map<string, Policy>, s: System, w: string, j: nat)
    requires j > 0 && FirstLocked(s, w, j) && s.workers[w].result.Some?
    ensures var t := Apply(policies, s, RecordHead(w, 0, 0));
            && t.workers == s.workers[w := Worker(s.workers[w].held[1..], None)] && FirstLocked(t, w, j - 1)
            && t.clock == s.clock && t.dispatches == s.dispatches && OthersLocked(s.tables, t.tables, w)
  {
    var t, held := Apply(policies, s, RecordHead(w, 0, 0)), s.workers[w].held;
    assert LeaseHeld(s.tables, held[0].id, w);
    forall i | 0 <= i < j - 1 ensures LeaseHeld(t.tables, t.workers[w].held[i].id, w) {
      assert held[i + 1].id != held[0].id;
    }
  }

  lemma WorkOffOne(policies: map<string, Policy>, clock: int, steps: seq<Step>, w: string, j: nat)
      returns (more: seq<Step>, t: System)
    requires LegalRun(policies, clock, steps) && j > 0 && FirstLocked(StateAfter(policies, clock, steps), w, j)
    ensures Quick(more) && LegalRun(policies, clock, steps + more) && t == StateAfter(policies, clock, steps + more)
    ensures WorkedOff(StateAfter(policies, clock, steps), t, w, 1) && FirstLocked(t, w, j - 1)
  {
    var s := StateAfter(policies, clock, steps);
    if s.workers[w].result.None? {
      var u := OneMore(policies, clock, steps, DispatchHead(w, true));
      RecordsHead(policies, u, w, j);
      t := OneMore(policies, clock, steps + [DispatchHead(w, true)], RecordHead(w, 0, 0));
      more := [DispatchHead(w, true), RecordHead(w, 0, 0)];
      assert (steps + [DispatchHead(w, true)]) + [RecordHead(w, 0, 0)] == steps + more;
    } else {
      RecordsHead(policies, s, w, j);
      t := OneMore(policies, clock, steps, RecordHead(w, 0, 0));
      more := [RecordHead(w, 0, 0)];
    }
  }

  lemma {:induction false} WorkOff(policies: map<string, Policy>, clock: int, steps: seq<Step>, w: string, j: nat)
      returns (more: seq<Step>, t: System)
    requires LegalRun(policies, clock, steps) && FirstLocked(StateAfter(policies, clock, steps), w, j)
    ensures Quick(more) && LegalRun(policies, clock, steps + more) && t == StateAfter(policies, clock, steps + more)
    ensures WorkedOff(StateAfter(policies, clock, steps), t, w, j)
    decreases j
  {
    if j == 0 {
      more, t := [], StateAfter(policies, clock, steps);
      assert steps + [] == steps && t.workers[w].held[0..] == t.workers[w].held;
    } else {
      var first, u := WorkOffOne(policies, clock, steps, w, j);
      var rest, last := WorkOff(policies, clock, steps + first, w, j - 1);
      more, t := first + rest, last;
      Joined(policies, clock, steps, first, rest);
      WorkedOffTwice(StateAfter(policies, clock, steps), u, t, w, j);
    }
  }

  lemma Joined(policies: map<string, Policy>, clock: int, steps: seq<Step>, first: seq<Step>, rest: seq<Step>)
    requires LegalRun(policies, clock, (steps + first) + rest) && Quick(first) && Quick(rest)
    ensures Quick(first + rest) && LegalRun(policies, clock, steps + (first + rest))
    ensures StateAfter(policies, clock, steps + (first + rest)) == StateAfter(policies, clock, (steps + first) + rest)
  {
    assert (steps + first) + rest == steps + (first + rest);
  }

  lemma WorkedOffTwice(s: System, u: System, t: System, w: string, j: nat)
    requires w in s.workers && 0 < j <= |s.workers[w].held| && WorkedOff(s, u, w, 1) && WorkedOff(u, t, w, j - 1)
    ensures WorkedOff(s, t, w, j)
  {
    assert s.workers[w].held[1..][j - 1..] == s.workers[w].held[j..];
  }

  /** A worker that can dispatch the delivery does, successfully. */
  lemma DispatchNow(policies: map<string, Policy>, clock: int, steps: seq<Step>, w: string, id: int) returns (t: System)
    requires LegalRun(policies, clock, steps)
    requires var s := StateAfter(policies, clock, steps);
             w in s.workers && s.workers[w].held != [] && s.workers[w].held[0].id == id && s.workers[w].result.None?
    ensures LegalRun(policies, clock, steps + [DispatchHead(w, true)])
    ensures t == StateAfter(policies, clock, steps + [DispatchHead(w, true)])
    ensures Successes(t.dispatches, id) == Successes(StateAfter(policies, clock, steps).dispatches, id) + 1
    ensures forall v :: v != w && v in StateAfter(policies, clock, steps).workers ==>
              v in t.workers && t.workers[v] == StateAfter(policies, clock, steps).workers[v]
    ensures t.tables == StateAfter(policies, clock, steps).tables
  {
    t := OneMore(policies, clock, steps, DispatchHead(w, true));
    SuccessesSnoc(StateAfter(policies, clock, steps).dispatches, Dispatch(id, w, true), id);
  }

  /** The claim that w holds is the j-th of its batch, the claims before it are still locked by w, and w has not failed
      to dispatch it. */
  ghost predicate CanDispatch(s: System, w: string, j: nat, id: int) {
    FirstLocked(s, w, j) && s.workers[w].held[j].id == id && !(j == 0 && s.workers[w].result == Some(false))
  }

  /** Once the other worker is in, a second successful dispatch is reachable at once: no clock step, no crash. */
  lemma SecondDispatchReachable(policies: map<string, Policy>, clock: int, steps: seq<Step>, lease: int, budget: int,
                                v: string, w: string, j: nat, id: int, at: int) returns (more: seq<Step>)
    requires Configured(policies, budget) && budget >= 1 && OneLease(policies, lease)
    requires LegalRun(policies, clock, steps)
    requires HoldsLocked(StateAfter(policies, clock, steps), w, id)
    requires IsIdle(policies, StateAfter(policies, clock, steps), v)
    requires CanDispatch(StateAfter(policies, clock, steps), w, j, id)
    requires Enabled(policies, StateAfter(policies, clock, steps), ClaimBatch(v, [id], at))
    ensures Quick(more) && LegalRun(policies, clock, steps + [ClaimBatch(v, [id], at)] + more)
    ensures Successes(StateAfter(policies, clock, steps + [ClaimBatch(v, [id], at)] + more).dispatches, id) >= 2
  {
    var s := StateAfter(policies, clock, steps);
    RunLogsResults(policies, clock, steps);
    var claimed := steps + [ClaimBatch(v, [id], at)];
    var s1 := OneMore(policies, clock, steps, ClaimBatch(v, [id], at));
    ClaimLeavesOthers(policies, s, v, id, at, w, j);
    var first, s2 := HolderDispatches(policies, clock, claimed, w, j, id);
    var s3 := DispatchNow(policies, clock, claimed + first, v, id);
    more := first + [DispatchHead(v, true)];
    assert (claimed + first) + [DispatchHead(v, true)] == claimed + more;
  }

  lemma HolderDispatches(policies: map<string, Policy>, clock: int, steps: seq<Step>, w: string, j: nat, id: int)
      returns (more: seq<Step>, t: System)
    requires LegalRun(policies, clock, steps) && CanDispatch(StateAfter(policies, clock, steps), w, j, id)
    requires var s := StateAfter(policies, clock, steps);
             j == 0 && s.workers[w].result == Some(true) ==> Successes(s.dispatches, id) >= 1
    ensures Quick(more) && LegalRun(policies, clock, steps + more) && t == StateAfter(policies, clock, steps + more)
    ensures Successes(t.dispatches, id) >= 1
    ensures forall v :: v != w && v in StateAfter(policies, clock, steps).workers ==>
              v in t.workers && t.workers[v] == StateAfter(policies, clock, steps).workers[v]
  {
    var s := StateAfter(policies, clock, steps);
    more, t := WorkOff(policies, clock, steps, w, j);
    if t.workers[w].result.None? {
      var first := more;
      t := DispatchNow(policies, clock, steps + first, w, id);
      more := first + [DispatchHead(w, true)];
      assert (steps + first) + [DispatchHead(w, true)] == steps + more;
    } else {
      assert j == 0 && s.workers[w].result.value;
      SuccessesGrow(s.dispatches, t.dispatches, id);
    }
  }

  lemma ClaimLeavesOthers(policies: map<string, Policy>, s: System, v: string, id: int, at: int, w: string, j: nat)
    requires Enabled(policies, s, ClaimBatch(v, [id], at)) && v != w && FirstLocked(s, w, j)
    requires s.workers[w].held[j].id == id
    ensures var s1 := Apply(policies, s, ClaimBatch(v, [id], at));
            && FirstLocked(s1, w, j) && s1.workers[w] == s.workers[w] && s1.dispatches == s.dispatches
            && v in s1.workers && |s1.workers[v].held| == 1 && s1.workers[v].held[0].id == id
            && s1.workers[v].result.None?
  {
    var s1 := Apply(policies, s, ClaimBatch(v, [id], at));
    forall i | 0 <= i < j ensures LeaseHeld(s1.tables, s.workers[w].held[i].id, w) {
      assert s.workers[w].held[i].id != id;
      assert s.workers[w].held[i].id !in Elements([id]);
    }
  }

  // ----- one such run

  function TwoWorkers(): map<string, Policy> {
    map["a" := Policy("a", 5, 1, 2, 10, 1), "b" := Policy("b", 5, 1, 2, 10, 1)]
  }

  /** The clock passes the end of worker a's lease of 10 before it dispatches. */
  function OverrunSteps(): seq<Step> {
    [Enqueue(1, 0), ClaimBatch("a", [1], 0), Tick(11), ClaimBatch("b", [1], 11), DispatchHead("a", true),
     DispatchHead("b", true)]
  }

  ghost predicate KeepsTime(policies: map<string, Policy>, clock: int, steps: seq<Step>, n: nat)
    requires n < |steps|
  {
    LegalRun(policies, clock, steps[..n]) && OnTime(StateAfter(policies, clock, steps[..n]), steps[n])
  }

  /** A dispatch that outlives its lease is repeated, though every step keeps time and all leases are equal. */
  lemma OverrunRepeatsDispatch()
    ensures LegalRun(TwoWorkers(), 0, OverrunSteps()) && OneLease(TwoWorkers(), 10)
    ensures forall n :: 0 <= n < |OverrunSteps()| ==> KeepsTime(TwoWorkers(), 0, OverrunSteps(), n)
    ensures !InLease(StateAfter(TwoWorkers(), 0, OverrunSteps()), 10)
    ensures Successes(StateAfter(TwoWorkers(), 0, OverrunSteps()).dispatches, 1) == 2
  {
    var p, steps := TwoWorkers(), OverrunSteps();
    var s4 := OverrunClaims();
    assert steps[..5] == steps[..4] + [steps[4]] && steps == steps[..5] + [steps[5]];
    var s5 := OneMore(p, 0, steps[..4], steps[4]);
    var s6 := OneMore(p, 0, steps[..5], steps[5]);
    assert s6.dispatches == [Dispatch(1, "a", true), Dispatch(1, "b", true)];
    assert s6.dispatches[..1] == [Dispatch(1, "a", true)] && s6.dispatches[..1][..0] == [];
    assert s6.workers["a"].held[0] in s6.workers["a"].held;
    forall n | 0 <= n < |steps| ensures KeepsTime(p, 0, steps, n) {
      assert n < 4 || n == 4 || n == 5;
    }
  }

  lemma OverrunClaims() returns (s: System)
    ensures LegalRun(TwoWorkers(), 0, OverrunSteps()[..4]) && s == StateAfter(TwoWorkers(), 0, OverrunSteps()[..4])
    ensures forall n :: 0 <= n < 4 ==> KeepsTime(TwoWorkers(), 0, OverrunSteps(), n)
    ensures s.dispatches == [] && s.workers.Keys == {"a", "b"} && s.clock == 11
    ensures s.workers["a"] == Worker([Claim(1, 0, 5, 0)], None) && s.workers["b"] == Worker([Claim(1, 0, 5, 11)], None)
  {
    var p, steps := TwoWorkers(), OverrunSteps();
    assert steps[..0] == [] && steps[..1] == [] + [steps[0]] && steps[..2] == steps[..1] + [steps[1]];
    assert steps[..3] == steps[..2] + [steps[2]] && steps[..4] == steps[..3] + [steps[3]];
    assert [1][0] in Elements([1]);
    var s1 := OneMore(p, 0, [], steps[0]);
    assert s1.tables.deliveries == map[1 := NewDelivery(0)];
    var s2 := OneMore(p, 0, steps[..1], steps[1]);
    assert s2.tables.deliveries[1] == Locked(NewDelivery(0), p["a"], 0);
    assert s2.workers["a"].held == [Claim(1, 0, 5, 0)];
    var s3 := OneMore(p, 0, steps[..2], steps[2]);
    s := OneMore(p, 0, steps[..3], steps[3]);
    assert s.workers["b"].held == [Claim(1, 0, 5, 11)];
  }
}

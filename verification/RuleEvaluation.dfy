/** evaluateAlertRules of internal/processor/consumer.go: every loaded rule over one batch, through the
    shared engine, stopping at the first rule that fails. */
module RuleEvaluation {
  import opened Wrappers
  import opened Ordering
  import opened Evaluation
  import opened EvaluationLaws
  import opened AlertEngine
  import opened AlertStore
  import opened AlertSync

  datatype Pass = Pass(windows: map<string, seq<Record>>, result: Result<seq<Trigger>>)

  /** A failing rule has slid its window; the rules after it have not. */
  ghost function PassOver(windows: map<string, seq<Record>>, rules: seq<Rule>, records: seq<Record>): Pass {
    if rules == [] then Pass(windows, Success([]))
    else
      var n := |rules| - 1;
      var before := PassOver(windows, rules[..n], records);
      match before.result
      case Failure(_) => before
      case Success(triggers) =>
        var call := Call(rules[n], records);
        Pass(Step(before.windows, call),
             match Returned(before.windows, call)
             case Failure(e) => Failure(e)
             case Success(more) => Success(triggers + more))
  }

  lemma PassPrefix(windows: map<string, seq<Record>>, rules: seq<Rule>, records: seq<Record>, i: nat)
    requires i < |rules|
    ensures PassOver(windows, rules[..i + 1], records) ==
            var before := PassOver(windows, rules[..i], records);
            match before.result
            case Failure(_) => before
            case Success(triggers) =>
              var call := Call(rules[i], records);
              Pass(Step(before.windows, call),
                   match Returned(before.windows, call)
                   case Failure(e) => Failure(e)
                   case Success(more) => Success(triggers + more))
  {
    assert rules[..i + 1][..i] == rules[..i];
  }

  lemma {:induction false} FailedPass(windows: map<string, seq<Record>>, rules: seq<Rule>, records: seq<Record>, i: nat)
    requires i <= |rules| && PassOver(windows, rules[..i], records).result.Failure?
    ensures PassOver(windows, rules, records) == PassOver(windows, rules[..i], records)
    decreases |rules| - i
  {
    if i == |rules| {
      assert rules[..i] == rules;
    } else {
      PassPrefix(windows, rules, records, i);
      FailedPass(windows, rules, records, i + 1);
    }
  }

  method EvaluateAlertRules(engine: Engine, rules: seq<Rule>, records: seq<Record>)
      returns (result: Result<seq<Trigger>>)
    modifies engine
    ensures Pass(engine.windows, result) == PassOver(old(engine.windows), rules, records)
  {
    ghost var windows := engine.windows;
    var triggers: seq<Trigger> := [];
    for i := 0 to |rules|
      invariant Pass(engine.windows, Success(triggers)) == PassOver(windows, rules[..i], records)
    {
      PassPrefix(windows, rules, records, i);
      var ruleTriggers := engine.Evaluate(rules[i], records);
      if ruleTriggers.Failure? {
        FailedPass(windows, rules, records, i + 1);
        return Failure(ruleTriggers.error);
      }
      triggers := triggers + ruleTriggers.value;
    }
    assert rules[..|rules|] == rules;
    return Success(triggers);
  }

  // ----- rules do not disturb each other

  ghost predicate DistinctRules(rules: seq<Rule>) {
    forall i, j :: 0 <= i < j < |rules| ==> rules[i].id != rules[j].id
  }

  lemma {:induction false} OtherWindowsKept(windows: map<string, seq<Record>>, rules: seq<Rule>, records: seq<Record>,
                                            call: Call)
    requires forall r :: r in rules ==> r.id != call.rule.id
    ensures Lookup(PassOver(windows, rules, records).windows, KeyOf(call)) == Lookup(windows, KeyOf(call))
  {
    if rules != [] {
      var n := |rules| - 1;
      OtherWindowsKept(windows, rules[..n], records, call);
      assert rules[n] in rules;
      RuleKeySeparates(rules[n], records, call.rule, call.records);
      LookupStep(PassOver(windows, rules[..n], records).windows, Call(rules[n], records), KeyOf(call));
    }
  }

  lemma {:induction false} PrefixSucceeds(windows: map<string, seq<Record>>, rules: seq<Rule>, records: seq<Record>,
                                          i: nat)
    requires i <= |rules| && PassOver(windows, rules, records).result.Success?
    ensures PassOver(windows, rules[..i], records).result.Success?
    decreases |rules|
  {
    if i == |rules| {
      assert rules[..i] == rules;
    } else {
      assert rules[..|rules| - 1][..i] == rules[..i];
      PrefixSucceeds(windows, rules[..|rules| - 1], records, i);
    }
  }

  lemma ReturnedAlike(windows: map<string, seq<Record>>, others: map<string, seq<Record>>, call: Call)
    requires Lookup(windows, KeyOf(call)) == Lookup(others, KeyOf(call))
    ensures Returned(windows, call) == Returned(others, call)
  {
    LookupStep(windows, call, KeyOf(call));
    LookupStep(others, call, KeyOf(call));
  }

  ghost predicate RaisedBy(windows: map<string, seq<Record>>, rule: Rule, records: seq<Record>, t: Trigger) {
    Returned(windows, Call(rule, records)).Success? && t in Returned(windows, Call(rule, records)).value
  }

  ghost predicate Any<T>(xs: seq<T>, holds: T -> bool) {
    exists x :: x in xs && holds(x)
  }

  lemma {:induction false} AnyPrefix<T>(xs: seq<T>, n: nat, holds: T -> bool)
    requires |xs| == n + 1
    ensures Any(xs, holds) <==> Any(xs[..n], holds) || holds(xs[n])
  {
    assert xs == xs[..n] + [xs[n]];
  }

  ghost function Raising(windows: map<string, seq<Record>>, records: seq<Record>, t: Trigger): Rule -> bool {
    rule => RaisedBy(windows, rule, records, t)
  }

  ghost predicate SomeRuleRaises(windows: map<string, seq<Record>>, rules: seq<Rule>, records: seq<Record>,
                                 t: Trigger)
  {
    Any(rules, Raising(windows, records, t))
  }

  /** A pass is the rules evaluated one by one, each over the windows from before the pass. */
  lemma {:induction false} TriggersOfTheirRule(windows: map<string, seq<Record>>, rules: seq<Rule>,
                                               records: seq<Record>, t: Trigger)
    requires DistinctRules(rules) && PassOver(windows, rules, records).result.Success?
    ensures t in PassOver(windows, rules, records).result.value <==> SomeRuleRaises(windows, rules, records, t)
  {
    if rules != [] {
      var n := |rules| - 1;
      PrefixSucceeds(windows, rules, records, n);
      TriggersOfTheirRule(windows, rules[..n], records, t);
      AnyPrefix(rules, n, Raising(windows, records, t));
      var call := Call(rules[n], records);
      OtherWindowsKept(windows, rules[..n], records, call);
      ReturnedAlike(PassOver(windows, rules[..n], records).windows, windows, call);
    }
  }

  lemma {:induction false} ReturnedTriggers(windows: map<string, seq<Record>>, call: Call)
    requires Returned(windows, call).Success?
    ensures DistinctTriggers(Returned(windows, call).value)
    ensures forall t :: t in Returned(windows, call).value ==> t.ruleId == call.rule.id
  {
    var records := if call.rule.windowSeconds <= 0 then call.records else Lookup(Step(windows, call), KeyOf(call));
    TriggersOnePerKey(call.rule, Considered(call.rule, records));
    BelowIsStrictOrder();
  }

  lemma {:induction false} RuleForMember(rules: seq<Rule>, i: nat)
    requires i < |rules|
    ensures RuleFor(rules, rules[i].id).Some?
  {
    if i < |rules| - 1 {
      RuleForMember(rules[..|rules| - 1], i);
    }
  }

  /** What the state sync relies on: a successful pass over rules with distinct ids raises at most one
      trigger for each (rule, dedupe key), and only for rules that were loaded. */
  lemma {:induction false} PassFitsSync(windows: map<string, seq<Record>>, rules: seq<Rule>, records: seq<Record>)
    requires DistinctRules(rules) && PassOver(windows, rules, records).result.Success?
    ensures DistinctTriggers(PassOver(windows, rules, records).result.value)
    ensures AllKnown(rules, PassOver(windows, rules, records).result.value)
  {
    if rules != [] {
      var n := |rules| - 1;
      PrefixSucceeds(windows, rules, records, n);
      PassFitsSync(windows, rules[..n], records);
      var before := PassOver(windows, rules[..n], records);
      var call := Call(rules[n], records);
      ReturnedTriggers(before.windows, call);
      forall t | t in before.result.value ensures t.ruleId != rules[n].id {
        TriggersOfTheirRule(windows, rules[..n], records, t);
        var rule :| rule in rules[..n] && RaisedBy(windows, rule, records, t);
        ReturnedTriggers(windows, Call(rule, records));
      }
      KnownByMore(rules, before.result.value);
      RuleForMember(rules, n);
    }
  }

  lemma RuleOfTrigger(windows: map<string, seq<Record>>, rules: seq<Rule>, records: seq<Record>, t: Trigger)
      returns (i: nat)
    requires DistinctRules(rules) && PassOver(windows, rules, records).result.Success?
    requires t in PassOver(windows, rules, records).result.value
    ensures i < |rules| && t.ruleId == rules[i].id
  {
    TriggersOfTheirRule(windows, rules, records, t);
    var rule :| rule in rules && RaisedBy(windows, rule, records, t);
    ReturnedTriggers(windows, Call(rule, records));
    i :| 0 <= i < |rules| && rules[i] == rule;
  }

  /** The triggers come in the order of their rules. */
  lemma {:induction false} TriggersInRuleOrder(windows: map<string, seq<Record>>, rules: seq<Rule>,
                                               records: seq<Record>, p: nat, q: nat)
      returns (i: nat, j: nat)
    requires DistinctRules(rules) && PassOver(windows, rules, records).result.Success?
    requires p < q < |PassOver(windows, rules, records).result.value|
    ensures i <= j < |rules|
    ensures PassOver(windows, rules, records).result.value[p].ruleId == rules[i].id
    ensures PassOver(windows, rules, records).result.value[q].ruleId == rules[j].id
    decreases |rules|
  {
    var n := |rules| - 1;
    PrefixSucceeds(windows, rules, records, n);
    var before, all := PassOver(windows, rules[..n], records), PassOver(windows, rules, records).result.value;
    var call := Call(rules[n], records);
    ReturnedTriggers(before.windows, call);
    if q < |before.result.value| {
      i, j := TriggersInRuleOrder(windows, rules[..n], records, p, q);
    } else {
      assert all[q] in Returned(before.windows, call).value;
      i, j := n, n;
      if p < |before.result.value| {
        i := RuleOfTrigger(windows, rules[..n], records, all[p]);
      } else {
        assert all[p] in Returned(before.windows, call).value;
      }
    }
  }

  lemma KnownByMore(rules: seq<Rule>, triggers: seq<Trigger>)
    requires rules != [] && AllKnown(rules[..|rules| - 1], triggers)
    ensures AllKnown(rules, triggers)
  {
  }

  // ----- the whole pass again

  /** Handing the records to this rule a second time would leave its window alone. */
  ghost predicate Settles(windows: map<string, seq<Record>>, call: Call) {
    call.rule.windowSeconds > 0 ==>
      var window := Lookup(Step(windows, call), KeyOf(call));
      Advance(window, call.records, call.rule.windowSeconds) == window
  }

  /** The call's window is what the call alone made of it. */
  ghost predicate OwnWindow(windows: map<string, seq<Record>>, after: map<string, seq<Record>>, call: Call) {
    && Lookup(after, KeyOf(call)) == Lookup(Step(windows, call), KeyOf(call))
    && (call.rule.windowSeconds > 0 ==> KeyOf(call) in after)
  }

  /** The rule's own step. */
  lemma OwnStep(windows: map<string, seq<Record>>, rules: seq<Rule>, records: seq<Record>, i: nat)
    requires DistinctRules(rules) && i < |rules| && PassOver(windows, rules[..i], records).result.Success?
    ensures OwnWindow(windows, PassOver(windows, rules[..i + 1], records).windows, Call(rules[i], records))
  {
    var before, call := PassOver(windows, rules[..i], records), Call(rules[i], records);
    PassPrefix(windows, rules, records, i);
    OtherWindowsKept(windows, rules[..i], records, call);
    LookupStep(before.windows, call, KeyOf(call));
    LookupStep(windows, call, KeyOf(call));
  }

  /** A step of another rule. */
  lemma OtherStep(windows: map<string, seq<Record>>, rules: seq<Rule>, records: seq<Record>, n: nat, call: Call)
    requires n < |rules| && rules[n].id != call.rule.id
    requires OwnWindow(windows, PassOver(windows, rules[..n], records).windows, call)
    ensures OwnWindow(windows, PassOver(windows, rules[..n + 1], records).windows, call)
  {
    PassPrefix(windows, rules, records, n);
    RuleKeySeparates(rules[n], records, call.rule, call.records);
    LookupStep(PassOver(windows, rules[..n], records).windows, Call(rules[n], records), KeyOf(call));
  }

  /** The windows after the first n rules of the pass. */
  ghost function PassedWindows(windows: map<string, seq<Record>>, rules: seq<Rule>, records: seq<Record>)
      : nat -> map<string, seq<Record>>
  {
    (n: nat) => if n <= |rules| then PassOver(windows, rules[..n], records).windows else map[]
  }

  ghost predicate OwnKept(windows: map<string, seq<Record>>, after: map<string, seq<Record>>,
                          next: map<string, seq<Record>>, call: Call)
  {
    OwnWindow(windows, after, call) ==> OwnWindow(windows, next, call)
  }

  lemma {:induction false} OwnThroughout(windows: map<string, seq<Record>>, after: nat -> map<string, seq<Record>>,
                                         call: Call, i: nat, n: nat)
    requires i <= n && OwnWindow(windows, after(i), call)
    requires forall k: nat :: i <= k < n ==> OwnKept(windows, after(k), after(k + 1), call)
    ensures OwnWindow(windows, after(n), call)
  {
    if i < n {
      OwnThroughout(windows, after, call, i, n - 1);
      assert OwnKept(windows, after(n - 1), after(n - 1 + 1), call);
    }
  }

  /** Later rules leave the window of a call alone. */
  lemma StepsKeep(windows: map<string, seq<Record>>, rules: seq<Rule>, records: seq<Record>, call: Call, i: nat)
    requires forall k :: i <= k < |rules| ==> rules[k].id != call.rule.id
    ensures var after := PassedWindows(windows, rules, records);
            forall k: nat :: i <= k < |rules| ==> OwnKept(windows, after(k), after(k + 1), call)
  {
    var after := PassedWindows(windows, rules, records);
    forall k: nat | i <= k < |rules| ensures OwnKept(windows, after(k), after(k + 1), call) {
      if OwnWindow(windows, after(k), call) {
        OtherStep(windows, rules, records, k, call);
      }
    }
  }

  /** After the pass a rule's window is what its own call made of it. */
  lemma WindowAfterPass(windows: map<string, seq<Record>>, rules: seq<Rule>, records: seq<Record>, i: nat, n: nat)
    requires DistinctRules(rules) && i < n <= |rules| && PassOver(windows, rules[..i], records).result.Success?
    ensures OwnWindow(windows, PassOver(windows, rules[..n], records).windows, Call(rules[i], records))
  {
    OwnStep(windows, rules, records, i);
    StepsKeep(windows, rules, records, Call(rules[i], records), i + 1);
    OwnThroughout(windows, PassedWindows(windows, rules, records), Call(rules[i], records), i + 1, n);
  }

  lemma {:induction false} EachReturned(windows: map<string, seq<Record>>, rules: seq<Rule>, records: seq<Record>,
                                        j: nat)
    requires DistinctRules(rules) && PassOver(windows, rules, records).result.Success? && j < |rules|
    ensures Returned(windows, Call(rules[j], records)).Success?
    decreases |rules|
  {
    var n := |rules| - 1;
    PrefixSucceeds(windows, rules, records, n);
    if j < n {
      EachReturned(windows, rules[..n], records, j);
    } else {
      OtherWindowsKept(windows, rules[..n], records, Call(rules[n], records));
      ReturnedAlike(PassOver(windows, rules[..n], records).windows, windows, Call(rules[n], records));
    }
  }

  lemma {:induction false} FirstFailure(windows: map<string, seq<Record>>, rules: seq<Rule>, records: seq<Record>,
                                        n: nat) returns (i: nat)
    requires n <= |rules| && PassOver(windows, rules[..n], records).result.Failure?
    ensures i < n && PassOver(windows, rules[..i], records).result.Success?
    ensures PassOver(windows, rules[..i + 1], records).result.Failure?
  {
    assert n > 0 && PassOver(windows, [], records).result.Success?;
    if PassOver(windows, rules[..n - 1], records).result.Failure? {
      i := FirstFailure(windows, rules, records, n - 1);
    } else {
      i := n - 1;
    }
  }

  lemma FailureReturned(windows: map<string, seq<Record>>, rules: seq<Rule>, records: seq<Record>, i: nat)
    requires DistinctRules(rules) && i < |rules| && PassOver(windows, rules[..i], records).result.Success?
    requires PassOver(windows, rules[..i + 1], records).result.Failure?
    ensures Returned(windows, Call(rules[i], records)) == PassOver(windows, rules[..i + 1], records).result
  {
    PassPrefix(windows, rules, records, i);
    OtherWindowsKept(windows, rules[..i], records, Call(rules[i], records));
    ReturnedAlike(PassOver(windows, rules[..i], records).windows, windows, Call(rules[i], records));
  }

  lemma SteppedUpTo(windows: map<string, seq<Record>>, rules: seq<Rule>, records: seq<Record>, i: nat, j: nat)
    requires DistinctRules(rules) && j <= i < |rules| && PassOver(windows, rules[..i], records).result.Success?
    ensures OwnWindow(windows, PassOver(windows, rules[..i + 1], records).windows, Call(rules[j], records))
  {
    PrefixSucceeds(windows, rules[..i], records, j);
    assert rules[..i][..j] == rules[..j];
    WindowAfterPass(windows, rules, records, j, i + 1);
  }

  /** A pass fails with the first rule that fails on its own; the windows up to and including that rule's have taken
      their step, and those of the rules after it have not. */
  lemma PassFailsFirst(windows: map<string, seq<Record>>, rules: seq<Rule>, records: seq<Record>) returns (i: nat)
    requires DistinctRules(rules) && PassOver(windows, rules, records).result.Failure?
    ensures i < |rules|
    ensures forall j :: 0 <= j < i ==> Returned(windows, Call(rules[j], records)).Success?
    ensures Returned(windows, Call(rules[i], records)) == PassOver(windows, rules, records).result
    ensures forall j :: 0 <= j <= i ==>
              OwnWindow(windows, PassOver(windows, rules, records).windows, Call(rules[j], records))
    ensures forall j :: i < j < |rules| ==>
              Lookup(PassOver(windows, rules, records).windows, KeyOf(Call(rules[j], records))) ==
              Lookup(windows, KeyOf(Call(rules[j], records)))
  {
    assert rules[..|rules|] == rules;
    i := FirstFailure(windows, rules, records, |rules|);
    FailedPass(windows, rules, records, i + 1);
    FailureReturned(windows, rules, records, i);
    forall j | 0 <= j < i ensures Returned(windows, Call(rules[j], records)).Success? {
      EachReturned(windows, rules[..i], records, j);
    }
    forall j | 0 <= j <= i
      ensures OwnWindow(windows, PassOver(windows, rules, records).windows, Call(rules[j], records))
    {
      SteppedUpTo(windows, rules, records, i, j);
    }
    forall j | i < j < |rules|
      ensures Lookup(PassOver(windows, rules, records).windows, KeyOf(Call(rules[j], records))) ==
              Lookup(windows, KeyOf(Call(rules[j], records)))
    {
      OtherWindowsKept(windows, rules[..i + 1], records, Call(rules[j], records));
    }
  }

  lemma SettledCall(windows: map<string, seq<Record>>, after: map<string, seq<Record>>, call: Call)
    requires Settles(windows, call) && OwnWindow(windows, after, call)
    ensures Step(after, call) == after && Returned(after, call) == Returned(windows, call)
  {
  }

  /** The second pass, rule by rule: it moves no window and returns what the first one did. */
  lemma {:induction false} SecondPass(windows: map<string, seq<Record>>, rules: seq<Rule>, records: seq<Record>, n: nat)
    requires DistinctRules(rules) && n <= |rules|
    requires forall i :: 0 <= i < |rules| ==> Settles(windows, Call(rules[i], records))
    ensures var after := PassOver(windows, rules, records).windows;
            PassOver(after, rules[..n], records) == Pass(after, PassOver(windows, rules[..n], records).result)
    decreases n
  {
    if n > 0 {
      var after := PassOver(windows, rules, records).windows;
      SecondPass(windows, rules, records, n - 1);
      PassPrefix(windows, rules, records, n - 1);
      PassPrefix(after, rules, records, n - 1);
      if PassOver(windows, rules[..n - 1], records).result.Success? {
        var call := Call(rules[n - 1], records);
        assert rules[..|rules|] == rules;
        WindowAfterPass(windows, rules, records, n - 1, |rules|);
        SettledCall(windows, after, call);
        OtherWindowsKept(windows, rules[..n - 1], records, call);
        ReturnedAlike(PassOver(windows, rules[..n - 1], records).windows, windows, call);
      }
    }
  }

  /** The pass over a redelivered batch, with the calls of all rules in between, and also when some rule fails:
      same windows, same triggers, same error. */
  lemma {:induction false} RetriedPassAlike(calls: seq<Call>, rules: seq<Rule>, records: seq<Record>)
    requires DistinctRules(rules) && forall r :: r in records ==> r.ingestId != ""
    requires forall i :: 0 <= i < |rules| && rules[i].windowSeconds > 0 ==> RetryFits(calls, Call(rules[i], records))
    ensures var windows := WindowsAfter(calls);
            PassOver(PassOver(windows, rules, records).windows, rules, records) == PassOver(windows, rules, records)
  {
    var windows := WindowsAfter(calls);
    forall i | 0 <= i < |rules| ensures Settles(windows, Call(rules[i], records)) {
      if rules[i].windowSeconds > 0 {
        RetrySettles(calls, Call(rules[i], records));
      }
    }
    SecondPass(windows, rules, records, |rules|);
    assert rules[..|rules|] == rules;
  }

  /** One rule's calls so far, and this one, have one window length and meet the redelivery assumption. */
  ghost predicate RetryFits(calls: seq<Call>, call: Call) {
    && FixedWindow(calls + [call], KeyOf(call), call.rule.windowSeconds)
    && Replays(BatchesFor(calls, KeyOf(call)) + [call.records])
  }

  lemma {:induction false} RetrySettles(calls: seq<Call>, call: Call)
    requires call.rule.windowSeconds > 0 && RetryFits(calls, call) && forall r :: r in call.records ==> r.ingestId != ""
    ensures Settles(WindowsAfter(calls), call)
  {
    WindowsAfterOneMore(calls, call);
    WindowsIndependent(calls + [call], KeyOf(call), call.rule.windowSeconds);
    BatchesForOneMore(calls, call);
    ImmediateRedelivery(BatchesFor(calls, KeyOf(call)), call.records, call.rule.windowSeconds);
  }
}

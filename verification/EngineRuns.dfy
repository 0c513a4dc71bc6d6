/** The processor's engine along stream runs: what reaches a rule's window, redeliveries and failed writes included,
    meets what the window results ask, so every window is its history's. The engine lives in the process: it starts
    empty again when the process does. */
module EngineRuns {
  import opened Wrappers
  import opened Numbers
  import opened Sequences
  import opened Fields
  import opened Evaluation
  import opened AlertEngine
  import opened RuleEvaluation
  import opened Batches
  import opened Processor
  import opened Settlement
  import opened StreamRuns

  /** The calls the engine has had since the process started. */
  datatype EngineState = EngineState(sys: System, calls: seq<Call>)

  // ----- the calls of one pass

  /** The rules up to and including the first that fails. */
  ghost function Made(windows: map<string, seq<Record>>, rules: seq<Rule>, records: seq<Record>): seq<Call> {
    if rules == [] then []
    else
      var n := |rules| - 1;
      Made(windows, rules[..n], records) +
      if PassOver(windows, rules[..n], records).result.Success? then [Call(rules[n], records)] else []
  }

  lemma {:induction false} MadeWindows(calls: seq<Call>, rules: seq<Rule>, records: seq<Record>)
    ensures WindowsAfter(calls + Made(WindowsAfter(calls), rules, records)) ==
            PassOver(WindowsAfter(calls), rules, records).windows
  {
    var windows := WindowsAfter(calls);
    if rules == [] {
      assert calls + [] == calls;
    } else {
      var n := |rules| - 1;
      var before := Made(windows, rules[..n], records);
      MadeWindows(calls, rules[..n], records);
      if PassOver(windows, rules[..n], records).result.Success? {
        WindowsAfterOneMore(calls + before, Call(rules[n], records));
        assert (calls + before) + [Call(rules[n], records)] == calls + Made(windows, rules, records);
      } else {
        assert before + [] == before;
      }
    }
  }

  lemma {:induction false} MadeMember(windows: map<string, seq<Record>>, rules: seq<Rule>, records: seq<Record>,
                                      call: Call)
    requires call in Made(windows, rules, records)
    ensures call.records == records && IsOneOf(rules, call.rule)
  {
    var n := |rules| - 1;
    assert rules[n] == rules[n];
    if call in Made(windows, rules[..n], records) {
      MadeMember(windows, rules[..n], records, call);
    }
  }

  ghost predicate IsOneOf(rules: seq<Rule>, rule: Rule) {
    exists i :: 0 <= i < |rules| && rules[i] == rule
  }

  // ----- steps

  /** The records of a delivery that get as far as the rules. */
  function Reaching(c: Codec, cfg: Config, books: Books, m: Message, a: Attempt): Option<seq<Record>> {
    var event := EventOf(cfg, m);
    if event.None? || cfg.accept(event.value).None? || !ReachesEvaluation(cfg.text, books.log, event.value, a) then None
    else Traverse(AlertRecord(c), cfg.accept(event.value).value)
  }

  /** Rows whose stored fields cannot be read back never get to the rules. */
  predicate Undecodable(c: Codec, cfg: Config, books: Books, m: Message, a: Attempt) {
    var event := EventOf(cfg, m);
    && event.Some? && cfg.accept(event.value).Some? && ReachesEvaluation(cfg.text, books.log, event.value, a)
    && Traverse(AlertRecord(c), cfg.accept(event.value).value).None?
  }

  /** Active rules are loaded for the batch's tenant. */
  ghost predicate TenantRules(rules: seq<Rule>, b: RawBatch) {
    forall i :: 0 <= i < |rules| ==> rules[i].tenantId == ToInt64(b.tenantId)
  }

  ghost predicate EngineStepTaken(c: Codec, cfg: Config, before: EngineState, after: EngineState, step: Step,
                                  rules: seq<Rule>)
  {
    && StepTaken(cfg, before.sys, after.sys, step)
    && match step
       case Publish(_, _) => after.calls == before.calls
       case Deliver(id, a, r) =>
         var m := Delivered(before.sys.messages[id]);
         var records := Reaching(c, cfg, before.sys.books, m, a);
         var calls := match records
           case None => before.calls
           case Some(xs) => before.calls + Made(WindowsAfter(before.calls), rules, xs);
         && (records.Some? ==>
               && TenantRules(rules, EventOf(cfg, m).value) && a.syncs == (rules != [])
               && a.evaluates == PassOver(WindowsAfter(before.calls), rules, records.value).result.Success?)
         && (Undecodable(c, cfg, before.sys.books, m, a) ==> !a.evaluates)
         && after.calls == if Consume(cfg, before.sys.books, id, m, a, r).1 == Settled then calls else []
  }

  ghost predicate EngineRun(c: Codec, cfg: Config, states: seq<EngineState>, steps: seq<Step>, rules: seq<seq<Rule>>) {
    && |states| == |steps| + 1 && |rules| == |steps|
    && states[0] == EngineState(System([], Books(Log([], []), [], [])), [])
    && forall i :: 0 <= i < |steps| ==> EngineStepAt(c, cfg, states, steps, rules, i)
  }

  ghost predicate EngineStepAt(c: Codec, cfg: Config, states: seq<EngineState>, steps: seq<Step>, rules: seq<seq<Rule>>,
                               i: nat)
    requires |states| == |steps| + 1 && |rules| == |steps| && i < |steps|
  {
    EngineStepTaken(c, cfg, states[i], states[i + 1], steps[i], rules[i])
  }

  // ----- where the calls come from

  /** The call is for the records of the message's batch and the batch's tenant. */
  ghost predicate SourcedCall(c: Codec, cfg: Config, m: Message, call: Call) {
    && EventOf(cfg, m).Some? && RecordsOf(c, cfg.accept, EventOf(cfg, m).value, call.records)
    && TenantOf(call.rule, call.records) == ToInt64(EventOf(cfg, m).value.tenantId)
  }

  ghost predicate SourcedBySome(c: Codec, cfg: Config, messages: seq<Message>, call: Call) {
    exists k :: 0 <= k < |messages| && SourcedCall(c, cfg, messages[k], call)
  }

  ghost predicate CallsSourced(c: Codec, cfg: Config, s: EngineState) {
    forall i :: 0 <= i < |s.calls| ==> SourcedBySome(c, cfg, s.sys.messages, s.calls[i])
  }

  lemma MadeSourced(c: Codec, cfg: Config, b: RawBatch, records: seq<Record>, windows: map<string, seq<Record>>,
                    rules: seq<Rule>, call: Call)
    requires StampsRows(cfg.accept, b) && RecordsOf(c, cfg.accept, b, records) && TenantRules(rules, b)
    requires call in Made(windows, rules, records)
    ensures call.records == records && TenantOf(call.rule, call.records) == ToInt64(b.tenantId)
  {
    MadeMember(windows, rules, records, call);
    TraverseIff(AlertRecord(c), cfg.accept(b).value);
    if records != [] {
      assert RowId(cfg.accept(b).value[0]) == IdOf(b);
    }
  }

  lemma CallSourcedLater(c: Codec, cfg: Config, messages: seq<Message>, later: seq<Message>, call: Call)
    requires Extends(messages, later) && SourcedBySome(c, cfg, messages, call)
    ensures SourcedBySome(c, cfg, later, call)
  {
    var k :| 0 <= k < |messages| && SourcedCall(c, cfg, messages[k], call);
    assert EventOf(cfg, messages[k]) == EventOf(cfg, later[k]);
    assert SourcedCall(c, cfg, later[k], call);
  }

  lemma StepKeepsSourced(c: Codec, cfg: Config, before: EngineState, after: EngineState, step: Step, rules: seq<Rule>)
    requires Stamping(cfg) && CallsSourced(c, cfg, before) && EngineStepTaken(c, cfg, before, after, step, rules)
    ensures CallsSourced(c, cfg, after)
  {
    StepExtends(cfg, before.sys, after.sys, step);
    forall i | 0 <= i < |after.calls| ensures SourcedBySome(c, cfg, after.sys.messages, after.calls[i]) {
      if i < |before.calls| && after.calls[i] == before.calls[i] {
        CallSourcedLater(c, cfg, before.sys.messages, after.sys.messages, before.calls[i]);
      } else {
        NewCallSourced(c, cfg, before, after, step, rules, after.calls[i]);
      }
    }
  }

  lemma NewCallSourced(c: Codec, cfg: Config, before: EngineState, after: EngineState, step: Step, rules: seq<Rule>,
                       call: Call)
    requires Stamping(cfg) && EngineStepTaken(c, cfg, before, after, step, rules) && step.Deliver?
    requires var records := Reaching(c, cfg, before.sys.books, Delivered(before.sys.messages[step.id]), step.attempt);
             records.Some? && call in Made(WindowsAfter(before.calls), rules, records.value)
    ensures SourcedBySome(c, cfg, after.sys.messages, call)
  {
    var m := Delivered(before.sys.messages[step.id]);
    var records := Reaching(c, cfg, before.sys.books, m, step.attempt).value;
    assert EventOf(cfg, after.sys.messages[step.id]) == EventOf(cfg, m);
    MadeSourced(c, cfg, EventOf(cfg, m).value, records, WindowsAfter(before.calls), rules, call);
    assert SourcedCall(c, cfg, after.sys.messages[step.id], call);
  }

  lemma {:induction false} RunKeepsSourced(c: Codec, cfg: Config, states: seq<EngineState>, steps: seq<Step>,
                                           rules: seq<seq<Rule>>, n: nat)
    requires Stamping(cfg) && EngineRun(c, cfg, states, steps, rules) && n <= |steps|
    ensures CallsSourced(c, cfg, states[n])
    decreases n
  {
    if n > 0 {
      RunKeepsSourced(c, cfg, states, steps, rules, n - 1);
      assert EngineStepAt(c, cfg, states, steps, rules, n - 1);
      var before, after := states[n - 1], states[n];
      StepKeepsSourced(c, cfg, before, after, steps[n - 1], rules[n - 1]);
    }
  }

  // ----- redeliveries replay

  /** Tenant ids are unsigned 64-bit numbers. */
  ghost predicate Tenants64(cfg: Config) {
    forall payload :: cfg.decode(payload).Some? ==> cfg.decode(payload).value.tenantId < 2 * TWO_TO_63
  }

  lemma {:induction false} BatchOfCall(calls: seq<Call>, key: string, i: nat) returns (n: nat)
    requires i < |BatchesFor(calls, key)|
    ensures n < |calls| && KeyOf(calls[n]) == key && calls[n].records == BatchesFor(calls, key)[i]
  {
    var last := |calls| - 1;
    if i < |BatchesFor(calls[..last], key)| {
      n := BatchOfCall(calls[..last], key, i);
    } else {
      n := last;
    }
  }

  /** Messages with the same tenant and ingest id carry batches whose rows have the same times. */
  ghost predicate IdsNameTimes(cfg: Config, messages: seq<Message>) {
    forall i, j, id ::
      0 <= i < |messages| && 0 <= j < |messages| && Carries(cfg, messages[i], id) && Carries(cfg, messages[j], id) ==>
      TimesAlike(BatchRows(cfg, messages[i], id), BatchRows(cfg, messages[j], id))
  }

  /** Logs submitted again keep their times. */
  lemma ResubmissionsNameTimes(c: Codec, cfg: Config, messages: seq<Message>)
    requires cfg.accept == Accepting(c) && IdsNameLogs(c, cfg, messages)
    ensures IdsNameTimes(cfg, messages)
  {
    ResubmissionsNameRows(c, cfg, messages);
    forall i, j, id |
      0 <= i < |messages| && 0 <= j < |messages| && Carries(cfg, messages[i], id) && Carries(cfg, messages[j], id)
      ensures TimesAlike(BatchRows(cfg, messages[i], id), BatchRows(cfg, messages[j], id))
    {
      assert RowsAlike(BatchRows(cfg, messages[i], id), BatchRows(cfg, messages[j], id));
    }
  }

  /** A record handed over again under one key finds one as late as itself in the earlier batch. */
  lemma SameKeyReplays(c: Codec, cfg: Config, messages: seq<Message>, a: Call, b: Call, r: Record)
    requires Stamping(cfg) && Tenants64(cfg) && IdsNameTimes(cfg, messages)
    requires SourcedBySome(c, cfg, messages, a) && SourcedBySome(c, cfg, messages, b) && KeyOf(a) == KeyOf(b)
    requires r in b.records && r.ingestId in IngestIds(a.records)
    ensures NoNewerThan(a.records, r)
  {
    var i :| 0 <= i < |messages| && SourcedCall(c, cfg, messages[i], a);
    var j :| 0 <= j < |messages| && SourcedCall(c, cfg, messages[j], b);
    var first, second := EventOf(cfg, messages[i]).value, EventOf(cfg, messages[j]).value;
    RuleKeySeparates(a.rule, a.records, b.rule, b.records);
    TenantsDiffer(cfg, messages[i], messages[j]);
    RecordsCarryId(c, cfg.accept, first, a.records);
    RecordsCarryId(c, cfg.accept, second, b.records);
    assert Carries(cfg, messages[i], IdOf(first)) && Carries(cfg, messages[j], IdOf(first));
    assert TimesAlike(BatchRows(cfg, messages[i], IdOf(first)), BatchRows(cfg, messages[j], IdOf(first)));
    ResubmittedReplays(c, cfg.accept, first, second, a.records, b.records, r);
  }

  lemma ResubmittedReplays(c: Codec, accept: Acceptance, a: RawBatch, b: RawBatch, first: seq<Record>,
                           second: seq<Record>, r: Record)
    requires RecordsOf(c, accept, a, first) && RecordsOf(c, accept, b, second)
    requires StampsRows(accept, a) && StampsRows(accept, b) && a.requestId == b.requestId
    requires TimesAlike(accept(a).value, accept(b).value) && r in second
    ensures NoNewerThan(first, r)
  {
    RecordsCarryId(c, accept, a, first);
    RecordsCarryId(c, accept, b, second);
    RecordTimes(c, accept, a, first);
    RecordTimes(c, accept, b, second);
    SameTimesReplay(first, second, a.requestId, r);
  }

  lemma TenantsDiffer(cfg: Config, m: Message, other: Message)
    requires Tenants64(cfg) && EventOf(cfg, m).Some? && EventOf(cfg, other).Some?
    requires ToInt64(EventOf(cfg, m).value.tenantId) == ToInt64(EventOf(cfg, other).value.tenantId)
    ensures EventOf(cfg, m).value.tenantId == EventOf(cfg, other).value.tenantId
  {
    assert cfg.decode(m.payload).value.tenantId < 2 * TWO_TO_63;
    assert cfg.decode(other.payload).value.tenantId < 2 * TWO_TO_63;
  }

  /** Along every stream run, redeliveries after failed writes and lost settlements included, what a rule's window has
      been handed since the process started meets the redelivery assumption; so the window is that of the whole
      history with each ingest id counted once. */
  lemma EngineWindowsAreHistories(c: Codec, cfg: Config, states: seq<EngineState>, steps: seq<Step>,
                                  rules: seq<seq<Rule>>, n: nat, key: string, windowSeconds: int)
    requires Stamping(cfg) && Tenants64(cfg) && EngineRun(c, cfg, states, steps, rules) && n <= |steps|
    requires IdsNameTimes(cfg, states[n].sys.messages)
    requires windowSeconds > 0 && FixedWindow(states[n].calls, key, windowSeconds)
    ensures var batches := BatchesFor(states[n].calls, key);
            && Replays(batches)
            && Lookup(WindowsAfter(states[n].calls), key) == InWindow(FirstDeliveries(batches), windowSeconds)
  {
    var calls := states[n].calls;
    var batches := BatchesFor(calls, key);
    RunKeepsSourced(c, cfg, states, steps, rules, n);
    forall i, j, r: Record | 0 <= i < j < |batches| && r in batches[j] && r.ingestId in IngestIds(batches[i])
      ensures NoNewerThan(batches[i], r)
    {
      var x := BatchOfCall(calls, key, i);
      var y := BatchOfCall(calls, key, j);
      SameKeyReplays(c, cfg, states[n].sys.messages, calls[x], calls[y], r);
    }
    WindowsIndependent(calls, key, windowSeconds);
    WindowIsHistoryWindow(batches, windowSeconds);
  }
}

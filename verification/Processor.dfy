/** One batch through internal/processor/consumer.go: check, evaluate, write, sync. The log store and the alert
    tables share no transaction; what holds between them rests on the order of the calls alone. */
module Processor {
  import opened Wrappers
  import opened Sequences
  import opened Fields
  import opened Evaluation
  import opened AlertEngine
  import opened AlertStore
  import opened AlertSync
  import opened AlertTables
  import opened RuleEvaluation
  import opened Batches

  /** How a call to another system ends. It may fail, or the process may die in it, before or after it took effect. */
  datatype Effect = Works | Fails(took: bool) | Crashes(took: bool)

  predicate Took(e: Effect) {
    e.Works? || e.took
  }

  /** Poison is an error that no redelivery can cure. Died is no return at all. */
  datatype Handled = Done | Retry | Poison | Died

  function Interrupted(e: Effect): Handled {
    if e.Crashes? then Died else Retry
  }

  /** The logs table, and the ids whose alert state was synced, in order. */
  datatype Log = Log(rows: seq<Row>, synced: seq<BatchId>)

  predicate Stored(rows: seq<Row>, id: BatchId) {
    exists r :: r in rows && RowId(r) == id
  }

  /** The environment of one handling: how each call ends, and whether the rules evaluate. A missing rule store
      loads no rules, and without rules there is no sync. */
  datatype Attempt = Attempt(writer: bool, check: Effect, load: Effect, evaluates: bool, write: Effect, syncs: bool,
                             sync: Effect, dispatch: Effect)

  /** The replay check refuses a blank ingest id, which validation lets through. */
  predicate CheckRefuses(text: Text, b: RawBatch) {
    text.trim(b.requestId) == ""
  }

  function AfterWrite(log: Log, id: BatchId, a: Attempt): (Log, Handled) {
    var after := if a.syncs && Took(a.sync) then log.(synced := log.synced + [id]) else log;
    if a.syncs && !a.sync.Works? then (after, Interrupted(a.sync))
    else if !a.dispatch.Works? then (after, Interrupted(a.dispatch))
    else (after, Done)
  }

  function Persist(log: Log, rows: seq<Row>, id: BatchId, a: Attempt): (Log, Handled) {
    var stored := if Took(a.write) then log.(rows := log.rows + rows) else log;
    if !a.write.Works? then (stored, Interrupted(a.write)) else AfterWrite(stored, id, a)
  }

  /** Whether the batch gets as far as the replay check's answer. */
  predicate Checked(text: Text, b: RawBatch, a: Attempt) {
    a.writer && !CheckRefuses(text, b) && a.check.Works?
  }

  function HandleRows(text: Text, log: Log, b: RawBatch, rows: seq<Row>, a: Attempt): (Log, Handled) {
    if !Checked(text, b, a) then (log, if a.writer && !CheckRefuses(text, b) then Interrupted(a.check) else Retry)
    else if Stored(log.rows, IdOf(b)) then (log, Done)
    else if !a.load.Works? then (log, Interrupted(a.load))
    else if !a.evaluates then (log, Retry)
    else Persist(log, rows, IdOf(b), a)
  }

  /** The rows of a batch, or nothing for one that is invalid or does not normalize. */
  type Acceptance = RawBatch -> Option<seq<Row>>

  ghost function Accepting(c: Codec): Acceptance {
    (b: RawBatch) => if Validate(b).None? then Normalized(c, b) else None
  }

  /** What the replay check relies on: an accepted batch has an ingest id, and rows, all of them under that id and
      its tenant. */
  ghost predicate StampsRows(accept: Acceptance, b: RawBatch) {
    accept(b).Some? ==> b.requestId != "" && accept(b).value != [] && Stamped(accept(b).value, IdOf(b))
  }

  lemma {:induction false} AcceptingStampsRows(c: Codec, b: RawBatch)
    ensures StampsRows(Accepting(c), b)
  {
    NormalizedRowsStamped(c, b);
    if Accepting(c)(b).Some? {
      ValidHasContent(b);
    }
  }

  /** The record's time can be read, or there is none, and the fields left without host and trace id can be encoded. */
  ghost predicate Readable(c: Codec, record: RawRecord, hosts: seq<string>, traces: seq<string>) {
    && (c.text.trim(record.timestamp) == "" || c.parseTime(c.text.trim(record.timestamp)).Some?)
    && Encodable(c, record.fields, hosts, traces)
  }

  ghost predicate Encodable(c: Codec, fields: map<string, string>, hosts: seq<string>, traces: seq<string>) {
    exists rest :: Untagged(c, fields, hosts, traces, rest) && Marshals(c, rest)
  }

  predicate Marshals(c: Codec, rest: map<string, string>) {
    rest == map[] || c.marshal(rest).Some?
  }

  lemma {:induction false} UntaggedUnique(c: Codec, fields: map<string, string>, hosts: seq<string>,
                                          traces: seq<string>, rest: map<string, string>, other: map<string, string>)
    requires Untagged(c, fields, hosts, traces, rest) && Untagged(c, fields, hosts, traces, other)
    ensures rest == other
  {
    assert rest.Keys == other.Keys;
  }

  lemma {:induction false} EncodableIff(c: Codec, fields: map<string, string>, hosts: seq<string>,
                                        traces: seq<string>, rest: map<string, string>)
    requires Untagged(c, fields, hosts, traces, rest)
    ensures Encodable(c, fields, hosts, traces) <==> Marshals(c, rest)
  {
    if Encodable(c, fields, hosts, traces) {
      var other :| Untagged(c, fields, hosts, traces, other) && Marshals(c, other);
      UntaggedUnique(c, fields, hosts, traces, rest, other);
    }
  }

  lemma {:induction false} ReadableIff(c: Codec, receivedAt: int, record: RawRecord, hosts: seq<string>,
                                       traces: seq<string>, rest: map<string, string>)
    requires Encodable(c, record.fields, hosts, traces) <==> Marshals(c, rest)
    ensures Readable(c, record, hosts, traces) <==>
            RecordTime(c, receivedAt, record).Some? && MarshalFields(c, rest).Some?
  {
  }

  /** When a batch is accepted: the schema, no required part missing, and times and fields that can be read. */
  lemma {:induction false} AcceptedIff(c: Codec, b: RawBatch)
    ensures Accepting(c)(b).Some? <==>
            && b.schemaVersion == "logs.raw.v1" && b.requestId != "" && b.fingerprint != "" && b.receivedAt != ""
            && b.tenantId != 0 && b.service != "" && b.env != "" && b.logs != []
            && c.parseTime(c.text.trim(b.receivedAt)).Some?
            && forall i :: 0 <= i < |b.logs| ==> Readable(c, b.logs[i], HOST_NAMES, TRACE_NAMES)
    // And its alert state is synced as of the time it was received.
    ensures Accepting(c)(b).Some? ==> c.parseTime(c.text.trim(b.receivedAt)) == Some(ObservedAt(c, b))
  {
    ValidIff(b);
    NormalizesIff(c, b);
  }

  lemma {:induction false} NormalizesIff(c: Codec, b: RawBatch)
    ensures Normalized(c, b).Some? <==>
            && c.parseTime(c.text.trim(b.receivedAt)).Some?
            && forall i :: 0 <= i < |b.logs| ==> Readable(c, b.logs[i], HOST_NAMES, TRACE_NAMES)
  {
    NormalizedRowsStamped(c, b);
    if ParseTimestamp(c, b.receivedAt).Some? {
      var receivedAt := ParseTimestamp(c, b.receivedAt).value;
      forall i | 0 <= i < |b.logs|
        ensures RecordNormalizes(c, receivedAt, b.logs[i], Tagging(c, b.traceId)) <==>
                Readable(c, b.logs[i], HOST_NAMES, TRACE_NAMES)
      {
        TagsUntag(c, b.traceId, b.logs[i].fields, HOST_NAMES, TRACE_NAMES);
        var rest := Tagging(c, b.traceId)(b.logs[i]).rest;
        EncodableIff(c, b.logs[i].fields, HOST_NAMES, TRACE_NAMES, rest);
        ReadableIff(c, receivedAt, b.logs[i], HOST_NAMES, TRACE_NAMES, rest);
      }
    }
  }

  function Handle(text: Text, accept: Acceptance, log: Log, b: RawBatch, a: Attempt): (Log, Handled) {
    match accept(b)
    case None => (log, Poison)
    case Some(rows) => HandleRows(text, log, b, rows, a)
  }

  /** When a handling is done: an accepted batch, every call up to the replay check's yes, or else every call. */
  predicate AllDone(text: Text, accept: Acceptance, log: Log, b: RawBatch, a: Attempt) {
    && accept(b).Some? && a.writer && text.trim(b.requestId) != "" && a.check == Works
    && ((exists r :: r in log.rows && r.tenantId == b.tenantId && r.ingestId == b.requestId)
        || (a.load == Works && a.evaluates && a.write == Works && (a.syncs ==> a.sync == Works) && a.dispatch == Works))
  }

  /** When the process died: in the first call that did not work, in the order check, load, write, sync, dispatch. */
  predicate DiedInside(text: Text, accept: Acceptance, log: Log, b: RawBatch, a: Attempt) {
    && accept(b).Some? && a.writer && text.trim(b.requestId) != ""
    && (a.check.Crashes? ||
        (a.check == Works && (forall r :: r in log.rows ==> r.tenantId != b.tenantId || r.ingestId != b.requestId) &&
         (a.load.Crashes? ||
          (a.load == Works && a.evaluates &&
           (a.write.Crashes? ||
            (a.write == Works &&
             ((a.syncs && a.sync.Crashes?) || ((a.syncs ==> a.sync == Works) && a.dispatch.Crashes?))))))))
  }

  /** The write was called: everything before it worked and nothing was stored for the batch. */
  predicate Writes(text: Text, accept: Acceptance, log: Log, b: RawBatch, a: Attempt) {
    && accept(b).Some? && a.writer && text.trim(b.requestId) != "" && a.check == Works
    && (forall r :: r in log.rows ==> r.tenantId != b.tenantId || r.ingestId != b.requestId)
    && a.load == Works && a.evaluates
  }

  /** Result and log of a handling, call by call. */
  lemma {:induction false} HandlingMeans(text: Text, accept: Acceptance, log: Log, b: RawBatch, a: Attempt)
    ensures var (after, outcome) := Handle(text, accept, log, b, a);
            && (outcome == Poison <==> accept(b).None?)
            && (outcome == Done <==> AllDone(text, accept, log, b, a))
            && (outcome == Died <==> DiedInside(text, accept, log, b, a))
            && after.rows == (if Writes(text, accept, log, b, a) && a.write !in {Fails(false), Crashes(false)}
                              then log.rows + accept(b).value else log.rows)
            && after.synced == (if Writes(text, accept, log, b, a) && a.write == Works && a.syncs
                                   && a.sync !in {Fails(false), Crashes(false)}
                                then log.synced + [BatchId(b.tenantId, b.requestId)] else log.synced)
  {
    assert Stored(log.rows, IdOf(b)) <==>
           exists r :: r in log.rows && r.tenantId == b.tenantId && r.ingestId == b.requestId;
  }

  predicate ReachesEvaluation(text: Text, log: Log, b: RawBatch, a: Attempt) {
    Checked(text, b, a) && !Stored(log.rows, IdOf(b)) && a.load.Works?
  }

  // ----- what the rules see

  function AlertRecord(c: Codec): Row -> Option<Record> {
    (r: Row) =>
      match c.attributes(r)
      case None => None
      case Some(attributes) => Some(Record(r.timestamp, r.tenantId, r.ingestId, r.rawSizeBytes, attributes))
  }

  method RecordsFromNormalized(c: Codec, rows: seq<Row>) returns (records: Option<seq<Record>>)
    ensures records == Traverse(AlertRecord(c), rows)
  {
    var converted: seq<Record> := [];
    for i := 0 to |rows|
      invariant Traverse(AlertRecord(c), rows[..i]) == Some(converted)
    {
      TraversePrefix(AlertRecord(c), rows, i);
      var record := AlertRecord(c)(rows[i]);
      if record.None? {
        TraverseFails(AlertRecord(c), rows, i + 1);
        return None;
      }
      converted := converted + [record.value];
    }
    assert rows[..|rows|] == rows;
    return Some(converted);
  }

  /** Each record has its row's time, tenant, id and size, and the attributes decoded from the row. */
  lemma RecordsMean(c: Codec, rows: seq<Row>)
    ensures Traverse(AlertRecord(c), rows).Some? <==> forall i :: 0 <= i < |rows| ==> c.attributes(rows[i]).Some?
    ensures Traverse(AlertRecord(c), rows).Some? ==>
              var records := Traverse(AlertRecord(c), rows).value;
              && |records| == |rows|
              && forall i :: 0 <= i < |rows| ==>
                   && records[i].timestamp == rows[i].timestamp && records[i].tenantId == rows[i].tenantId
                   && records[i].ingestId == rows[i].ingestId && records[i].rawSizeBytes == rows[i].rawSizeBytes
                   && c.attributes(rows[i]) == Some(records[i].attributes)
  {
    TraverseIff(AlertRecord(c), rows);
  }

  ghost function Evaluated(c: Codec, windows: map<string, seq<Record>>, rules: seq<Rule>, rows: seq<Row>): Pass {
    match Traverse(AlertRecord(c), rows)
    case None => Pass(windows, Failure("decode normalized fields_json"))
    case Some(records) => PassOver(windows, rules, records)
  }

  lemma EvaluatedSoundly(c: Codec, windows: map<string, seq<Record>>, rules: seq<Rule>, rows: seq<Row>)
    requires DistinctRules(rules) && Evaluated(c, windows, rules, rows).result.Success?
    ensures var triggers := Evaluated(c, windows, rules, rows).result.value;
            DistinctTriggers(triggers) && AllKnown(rules, triggers)
  {
    PassFitsSync(windows, rules, Traverse(AlertRecord(c), rows).value);
  }

  ghost predicate RecordsOf(c: Codec, accept: Acceptance, b: RawBatch, records: seq<Record>) {
    accept(b).Some? && Traverse(AlertRecord(c), accept(b).value) == Some(records)
  }

  lemma RecordsCarryId(c: Codec, accept: Acceptance, b: RawBatch, records: seq<Record>)
    requires StampsRows(accept, b) && RecordsOf(c, accept, b, records)
    ensures b.requestId != "" && forall r :: r in records ==> r.ingestId == b.requestId
  {
    var rows := accept(b).value;
    TraverseIff(AlertRecord(c), rows);
    forall i | 0 <= i < |records| ensures records[i].ingestId == b.requestId {
      assert RowId(rows[i]) == IdOf(b);
    }
  }

  lemma RecordTimes(c: Codec, accept: Acceptance, b: RawBatch, records: seq<Record>)
    requires RecordsOf(c, accept, b, records)
    ensures var rows := accept(b).value;
            |records| == |rows| && forall i :: 0 <= i < |rows| ==> records[i].timestamp == rows[i].timestamp
  {
    TraverseIff(AlertRecord(c), accept(b).value);
  }

  predicate SameTimes(accept: Acceptance, a: RawBatch, b: RawBatch) {
    accept(a).Some? && accept(b).Some? ==> TimesAlike(accept(a).value, accept(b).value)
  }

  /** Records under one id at the same times: each finds one as late among the others. */
  lemma SameTimesReplay(batch: seq<Record>, again: seq<Record>, id: string, r: Record)
    requires |batch| == |again| && forall i :: 0 <= i < |batch| ==> batch[i].timestamp == again[i].timestamp
    requires (forall x :: x in batch ==> x.ingestId == id) && (forall x :: x in again ==> x.ingestId == id)
    requires r in again
    ensures NoNewerThan(batch, r)
  {
    var i :| 0 <= i < |again| && again[i] == r;
    assert batch[i] in batch;
  }

  /** Normalized batches meet what the engine's window asks of redeliveries, as long as batches under one ingest id
      have rows at the same times; and each of their records carries an id. */
  lemma NormalizedBatchesReplay(c: Codec, accept: Acceptance, bs: seq<RawBatch>, batches: seq<seq<Record>>)
    requires |bs| == |batches|
    requires forall i :: 0 <= i < |bs| ==> StampsRows(accept, bs[i]) && RecordsOf(c, accept, bs[i], batches[i])
    requires forall i, j :: 0 <= i < j < |bs| && bs[i].requestId == bs[j].requestId ==>
               SameTimes(accept, bs[i], bs[j])
    ensures Replays(batches)
    ensures forall i, r :: 0 <= i < |batches| && r in batches[i] ==> r.ingestId != ""
  {
    forall i, r | 0 <= i < |batches| && r in batches[i] ensures r.ingestId == bs[i].requestId != "" {
      RecordsCarryId(c, accept, bs[i], batches[i]);
    }
    forall i, j, r: Record | 0 <= i < j < |batches| && r in batches[j] && r.ingestId in IngestIds(batches[i])
      ensures NoNewerThan(batches[i], r)
    {
      RecordsCarryId(c, accept, bs[i], batches[i]);
      RecordsCarryId(c, accept, bs[j], batches[j]);
      RecordTimes(c, accept, bs[i], batches[i]);
      RecordTimes(c, accept, bs[j], batches[j]);
      SameTimesReplay(batches[i], batches[j], bs[i].requestId, r);
    }
  }

  /** What the environment contributes to one handling; without a rule store there are no rules. */
  datatype Calls = Calls(writer: bool, check: Effect, load: Effect, rules: seq<Rule>, write: Effect, sync: Effect,
                         dispatch: Effect)

  function AttemptOf(calls: Calls, evaluates: bool, sync: Effect): Attempt {
    Attempt(calls.writer, calls.check, calls.load, evaluates, calls.write, calls.rules != [], sync, calls.dispatch)
  }

  /** A transaction that the tables refuse is a call without effect. */
  predicate Weakened(sync: Effect, asked: Effect) {
    sync == asked || (sync == if asked.Crashes? then Crashes(false) else Fails(false))
  }

  /** What a handling does to the alert tables: nothing unless it synced, and then a sync with these triggers. */
  ghost predicate AlertsFollow(before: Store, after: Store, synced: bool, rules: seq<Rule>, triggers: seq<Trigger>,
                               now: int)
  {
    if synced then
      Valid(before) && DistinctTriggers(triggers) ==>
        Valid(after) && exists added :: SyncStep(before, after, added, rules, triggers, now)
    else after.rows == before.rows && after.events == before.events && after.deliveries == before.deliveries
  }

  /** Triggers of a pass over rules with distinct ids, on consistent tables: the sync is not refused. */
  ghost predicate Sound(before: Store, rules: seq<Rule>, triggers: seq<Trigger>) {
    Valid(before) && DistinctTriggers(triggers) && AllKnown(rules, triggers)
  }

  /** The time alert state is synced at. Normalization has already parsed the same text, so it parses again. */
  function ObservedAt(c: Codec, b: RawBatch): int {
    match ParseTimestamp(c, b.receivedAt)
    case Some(at) => at
    case None => 0
  }

  class LogProcessor {
    const codec: Codec
    const engine: Engine
    const alerts: AlertDatabase
    var rows: seq<Row>
    var synced: seq<BatchId>

    constructor (codec: Codec, engine: Engine, alerts: AlertDatabase)
      ensures this.codec == codec && this.engine == engine && this.alerts == alerts && Contents() == Log([], [])
    {
      this.codec, this.engine, this.alerts, rows, synced := codec, engine, alerts, [], [];
    }

    function Contents(): Log
      reads this
    {
      Log(rows, synced)
    }

    method EvaluateBatch(batchRows: seq<Row>, rules: seq<Rule>) returns (result: Result<seq<Trigger>>)
      modifies engine
      ensures Pass(engine.windows, result) == Evaluated(codec, old(engine.windows), rules, batchRows)
    {
      var records := RecordsFromNormalized(codec, batchRows);
      if records.None? {
        return Failure("decode normalized fields_json");
      }
      result := EvaluateAlertRules(engine, rules, records.value);
    }

    /** The sync call, with its end decided by the environment unless the tables refuse it. */
    method SyncAlerts(id: BatchId, rules: seq<Rule>, triggers: seq<Trigger>, observedAt: int, asked: Effect)
        returns (sync: Effect)
      modifies this`synced, alerts
      ensures Weakened(sync, asked)
      ensures synced == if Took(sync) then old(synced) + [id] else old(synced)
      ensures AlertsFollow(old(alerts.Contents()), alerts.Contents(), Took(sync), rules, triggers, observedAt)
      ensures Sound(old(alerts.Contents()), rules, triggers) ==> sync == asked && Valid(alerts.Contents())
    {
      if !Took(asked) {
        return asked;
      }
      var result := alerts.SyncAlertState(rules, triggers, observedAt);
      if result.Failure? {
        return if asked.Crashes? then Crashes(false) else Fails(false);
      }
      synced := synced + [id];
      return asked;
    }

    method WriteBatch(batchRows: seq<Row>, write: Effect)
      modifies this`rows
      ensures rows == if Took(write) then old(rows) + batchRows else old(rows)
    {
      if Took(write) {
        rows := rows + batchRows;
      }
    }

    method SyncAndDispatch(b: RawBatch, calls: Calls, triggers: seq<Trigger>)
        returns (outcome: Handled, ghost sync: Effect)
      modifies this`synced, alerts
      ensures Weakened(sync, calls.sync)
      ensures (Contents(), outcome) == AfterWrite(old(Contents()), IdOf(b), AttemptOf(calls, true, sync))
      ensures AlertsFollow(old(alerts.Contents()), alerts.Contents(),
                           calls.rules != [] && Took(sync), calls.rules, triggers,
                           ObservedAt(codec, b))
      ensures Sound(old(alerts.Contents()), calls.rules, triggers) ==> sync == calls.sync && Valid(alerts.Contents())
    {
      sync := calls.sync;
      if calls.rules != [] {
        var done := SyncAlerts(IdOf(b), calls.rules, triggers, ObservedAt(codec, b), calls.sync);
        sync := done;
        if !done.Works? {
          return Interrupted(done), sync;
        }
      }
      if !calls.dispatch.Works? {
        return Interrupted(calls.dispatch), sync;
      }
      return Done, sync;
    }

    method PersistBatch(b: RawBatch, batchRows: seq<Row>, calls: Calls, triggers: seq<Trigger>)
        returns (outcome: Handled, ghost sync: Effect)
      modifies this`rows, this`synced, alerts
      ensures Weakened(sync, calls.sync)
      ensures (Contents(), outcome) == Persist(old(Contents()), batchRows, IdOf(b), AttemptOf(calls, true, sync))
      ensures AlertsFollow(old(alerts.Contents()), alerts.Contents(),
                           calls.rules != [] && calls.write.Works? && Took(sync),
                           calls.rules, triggers, ObservedAt(codec, b))
      ensures Sound(old(alerts.Contents()), calls.rules, triggers) ==> sync == calls.sync && Valid(alerts.Contents())
    {
      sync := calls.sync;
      WriteBatch(batchRows, calls.write);
      if !calls.write.Works? {
        return Interrupted(calls.write), sync;
      }
      outcome, sync := SyncAndDispatch(b, calls, triggers);
    }

    method HandleNormalized(b: RawBatch, batchRows: seq<Row>, calls: Calls) returns (outcome: Handled, ghost a: Attempt)
      modifies this`rows, this`synced, engine, alerts
      ensures a == AttemptOf(calls, a.evaluates, a.sync) && Weakened(a.sync, calls.sync)
      ensures (Contents(), outcome) == HandleRows(codec.text, old(Contents()), b, batchRows, a)
      ensures HandledWithin(b, batchRows, calls, a, old(Contents()), old(engine.windows), engine.windows,
                            old(alerts.Contents()), alerts.Contents())
      ensures Valid(old(alerts.Contents())) && DistinctRules(calls.rules) ==>
              a.sync == calls.sync && Valid(alerts.Contents())
    {
      a := AttemptOf(calls, true, calls.sync);
      if !calls.writer || CheckRefuses(codec.text, b) {
        return Retry, a;
      }
      if !calls.check.Works? {
        return Interrupted(calls.check), a;
      }
      if Stored(rows, IdOf(b)) {
        return Done, a;
      }
      if !calls.load.Works? {
        return Interrupted(calls.load), a;
      }
      var evaluated := EvaluateBatch(batchRows, calls.rules);
      if evaluated.Failure? {
        return Retry, AttemptOf(calls, false, calls.sync);
      }
      if DistinctRules(calls.rules) {
        EvaluatedSoundly(codec, old(engine.windows), calls.rules, batchRows);
      }
      ghost var sync;
      outcome, sync := PersistBatch(b, batchRows, calls, evaluated.value);
      return outcome, AttemptOf(calls, true, sync);
    }

    /** The engine slides its windows exactly when the batch is neither refused nor a replay, whatever becomes of
        the write; the alert tables are synced with what the engine returned, and only after a successful write. */
    ghost predicate HandledWithin(b: RawBatch, batchRows: seq<Row>, calls: Calls, a: Attempt, log: Log,
                                  windows: map<string, seq<Record>>, after: map<string, seq<Record>>,
                                  before: Store, store: Store)
    {
      var pass := Evaluated(codec, windows, calls.rules, batchRows);
      if !ReachesEvaluation(codec.text, log, b, a) then
        after == windows && AlertsFollow(before, store, false, [], [], 0)
      else
        && after == pass.windows && a.evaluates == pass.result.Success?
        && match pass.result
           case Failure(_) => AlertsFollow(before, store, false, [], [], 0)
           case Success(triggers) =>
             AlertsFollow(before, store, calls.rules != [] && calls.write.Works? && Took(a.sync), calls.rules, triggers,
                          ObservedAt(codec, b))
    }

    method HandleBatch(b: RawBatch, calls: Calls) returns (outcome: Handled, ghost a: Attempt)
      modifies this`rows, this`synced, engine, alerts
      ensures a == AttemptOf(calls, a.evaluates, a.sync) && Weakened(a.sync, calls.sync)
      ensures (Contents(), outcome) == Handle(codec.text, Accepting(codec), old(Contents()), b, a)
      ensures Accepting(codec)(b).Some? ==>
                HandledWithin(b, Accepting(codec)(b).value, calls, a, old(Contents()), old(engine.windows),
                              engine.windows, old(alerts.Contents()), alerts.Contents())
      ensures Accepting(codec)(b).None? ==>
              engine.windows == old(engine.windows) && alerts.Contents() == old(alerts.Contents())
      ensures Valid(old(alerts.Contents())) && DistinctRules(calls.rules) ==>
              a.sync == calls.sync && Valid(alerts.Contents())
    {
      var invalid := Validate(b).Some?;
      if invalid {
        return Poison, AttemptOf(calls, true, calls.sync);
      }
      var normalized := NormalizeBatch(codec, b);
      if normalized.None? {
        return Poison, AttemptOf(calls, true, calls.sync);
      }
      outcome, a := HandleNormalized(b, normalized.value, calls);
    }
  }
}

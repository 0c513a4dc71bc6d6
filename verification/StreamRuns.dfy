/** Whole runs of the stream: deliveries and redeliveries to one sequential consumer, with failures and crashes at
    every call, over a log store that reads its own writes. */
module StreamRuns {
  import opened Wrappers
  import opened Sequences
  import opened Fields
  import opened Batches
  import opened Processor
  import opened Settlement

  datatype System = System(messages: seq<Message>, books: Books)

  datatype Step =
    | Publish(payload: string, headers: Headers)
    | Deliver(id: nat, attempt: Attempt, receipt: Receipt)

  /** The server delivers open messages, up to its limit when it has one. */
  predicate Deliverable(cfg: Config, m: Message) {
    m.open && (cfg.maxDeliver <= 0 || m.delivered < cfg.maxDeliver)
  }

  predicate Closes(books: Books, after: Books) {
    |after.issued| > |books.issued| && after.issued[|after.issued| - 1].took
      && !after.issued[|after.issued| - 1].kind.Nak?
  }

  /** Metadata that can be read is right. */
  predicate Truthful(metadata: Option<nat>, m: Message) {
    metadata == None || metadata == Some(m.delivered)
  }

  function Delivered(m: Message): Message {
    m.(delivered := m.delivered + 1)
  }

  ghost predicate StepTaken(cfg: Config, before: System, after: System, step: Step) {
    match step
    case Publish(payload, headers) =>
      after == before.(messages := before.messages + [Message(payload, headers, 0, true)])
    case Deliver(id, a, r) =>
      && id < |before.messages| && Deliverable(cfg, before.messages[id])
      && var m := Delivered(before.messages[id]);
      && Truthful(r.metadata, m)
      && after.books == Consume(cfg, before.books, id, m, a, r).0
      && after.messages == before.messages[id := m.(open := !Closes(before.books, after.books))]
  }

  ghost predicate Stamping(cfg: Config) {
    forall b :: StampsRows(cfg.accept, b)
  }

  ghost predicate Run(cfg: Config, states: seq<System>, steps: seq<Step>) {
    && |states| == |steps| + 1
    && states[0] == System([], Books(Log([], []), [], []))
    && forall i :: 0 <= i < |steps| ==> StepTakenAt(cfg, states, steps, i)
  }

  ghost predicate StepTakenAt(cfg: Config, states: seq<System>, steps: seq<Step>, i: nat)
    requires |states| == |steps| + 1 && i < |steps|
  {
    StepTaken(cfg, states[i], states[i + 1], steps[i])
  }

  lemma RunStep(cfg: Config, states: seq<System>, steps: seq<Step>, n: nat)
    requires Run(cfg, states, steps) && 0 < n <= |steps|
    ensures StepTaken(cfg, states[n - 1], states[n], steps[n - 1])
  {
    assert StepTakenAt(cfg, states, steps, n - 1);
  }

  // ----- one handling

  function OfBatch(id: BatchId): Row -> bool {
    (r: Row) => RowId(r) == id
  }

  function RowsOf(rows: seq<Row>, id: BatchId): seq<Row> {
    Filter(OfBatch(id), rows)
  }

  /** The only ways a handling moves the log: a first write of the batch, and with it perhaps its sync. */
  ghost predicate Moved(accept: Acceptance, before: Log, after: Log, b: RawBatch) {
    || after == before
    || (accept(b).Some? && !Stored(before.rows, IdOf(b)) && after.rows == before.rows + accept(b).value
        && (after.synced == before.synced || after.synced == before.synced + [IdOf(b)]))
  }

  lemma HandleMoves(text: Text, accept: Acceptance, log: Log, b: RawBatch, a: Attempt)
    requires StampsRows(accept, b)
    ensures Moved(accept, log, Handle(text, accept, log, b, a).0, b)
    ensures Handle(text, accept, log, b, a).1 == Poison <==> accept(b).None?
    ensures Handle(text, accept, log, b, a).1 == Done ==>
            accept(b).Some? && Stored(Handle(text, accept, log, b, a).0.rows, IdOf(b))
  {
    if accept(b).Some? {
      WrittenIsStored(accept, log.rows, b);
    }
  }

  lemma WrittenIsStored(accept: Acceptance, rows: seq<Row>, b: RawBatch)
    requires accept(b).Some? && StampsRows(accept, b)
    ensures Stored(rows + accept(b).value, IdOf(b))
    ensures forall id :: Stored(rows, id) ==> Stored(rows + accept(b).value, id)
    ensures RowsOf(accept(b).value, IdOf(b)) == accept(b).value
    ensures forall id :: id != IdOf(b) ==> RowsOf(accept(b).value, id) == []
  {
    var batch := accept(b).value;
    assert batch[0] in rows + batch;
    forall id ensures RowsOf(batch, id) == if id == IdOf(b) then batch else [] {
      StampedRows(batch, IdOf(b), id);
    }
    forall id | Stored(rows, id) ensures Stored(rows + batch, id) {
      var r :| r in rows && RowId(r) == id;
      assert r in rows + batch;
    }
  }

  lemma {:induction false} StampedRows(rows: seq<Row>, id: BatchId, other: BatchId)
    requires Stamped(rows, id)
    ensures RowsOf(rows, other) == if other == id then rows else []
  {
    if rows != [] {
      StampedRows(rows[..|rows| - 1], id, other);
      assert RowId(rows[|rows| - 1]) == id;
    }
  }

  lemma NotStoredNoRows(rows: seq<Row>, id: BatchId)
    ensures Stored(rows, id) <==> RowsOf(rows, id) != []
  {
    if Stored(rows, id) {
      var r :| r in rows && RowId(r) == id;
      FilterMember(OfBatch(id), rows, r);
    } else {
      FilterEmpty(OfBatch(id), rows);
    }
  }

  // ----- the log

  ghost predicate Carries(cfg: Config, m: Message, id: BatchId) {
    EventOf(cfg, m).Some? && cfg.accept(EventOf(cfg, m).value).Some? && IdOf(EventOf(cfg, m).value) == id
  }

  ghost function BatchRows(cfg: Config, m: Message, id: BatchId): seq<Row>
    requires Carries(cfg, m, id)
  {
    cfg.accept(EventOf(cfg, m).value).value
  }

  /** The rows stored under an id are those of one message, all of them, once. */
  ghost predicate SourcedFrom(cfg: Config, m: Message, rows: seq<Row>, id: BatchId) {
    Carries(cfg, m, id) && RowsOf(rows, id) == BatchRows(cfg, m, id)
  }

  ghost predicate Sourced(cfg: Config, messages: seq<Message>, rows: seq<Row>, id: BatchId) {
    RowsOf(rows, id) == [] || exists i :: 0 <= i < |messages| && SourcedFrom(cfg, messages[i], rows, id)
  }

  predicate SyncedOnce(log: Log) {
    && (forall i :: 0 <= i < |log.synced| ==> Stored(log.rows, log.synced[i]))
    && (forall i, j :: 0 <= i < j < |log.synced| ==> log.synced[i] != log.synced[j])
  }

  ghost predicate LogInv(cfg: Config, s: System) {
    SyncedOnce(s.books.log) && forall id :: Sourced(cfg, s.messages, s.books.log.rows, id)
  }

  lemma MovedKeepsSyncedOnce(accept: Acceptance, before: Log, after: Log, b: RawBatch)
    requires StampsRows(accept, b) && SyncedOnce(before) && Moved(accept, before, after, b)
    ensures SyncedOnce(after) && forall id :: Stored(before.rows, id) ==> Stored(after.rows, id)
  {
    if after != before {
      WrittenIsStored(accept, before.rows, b);
    }
  }

  lemma MovedRowsOf(accept: Acceptance, before: Log, after: Log, b: RawBatch, id: BatchId)
    requires StampsRows(accept, b) && Moved(accept, before, after, b)
    ensures RowsOf(after.rows, id) == RowsOf(before.rows, id) ||
              (accept(b).Some? && id == IdOf(b) && RowsOf(after.rows, id) == accept(b).value)
  {
    if after.rows != before.rows {
      WrittenIsStored(accept, before.rows, b);
      FilterConcat(OfBatch(id), before.rows, accept(b).value);
      NotStoredNoRows(before.rows, IdOf(b));
      assert RowsOf(after.rows, id) == RowsOf(before.rows, id) + RowsOf(accept(b).value, id);
    }
  }

  /** Same messages, as far as their content goes, with perhaps more at the end. */
  predicate Extends(messages: seq<Message>, later: seq<Message>) {
    && |messages| <= |later|
    && forall i :: 0 <= i < |messages| ==>
         && messages[i].payload == later[i].payload && messages[i].headers == later[i].headers
         && messages[i].delivered <= later[i].delivered
  }

  lemma SourcedLater(cfg: Config, messages: seq<Message>, later: seq<Message>, rows: seq<Row>, id: BatchId)
    requires Extends(messages, later) && Sourced(cfg, messages, rows, id)
    ensures Sourced(cfg, later, rows, id)
  {
    if RowsOf(rows, id) != [] {
      var i :| 0 <= i < |messages| && SourcedFrom(cfg, messages[i], rows, id);
      assert EventOf(cfg, messages[i]) == EventOf(cfg, later[i]);
      assert SourcedFrom(cfg, later[i], rows, id);
    }
  }

  /** A delivery moves the log by the batch it carries, if it carries one. */
  lemma ConsumeMoves(cfg: Config, books: Books, id: nat, m: Message, a: Attempt, r: Receipt)
    requires Stamping(cfg)
    ensures var log := Consume(cfg, books, id, m, a, r).0.log;
            log == books.log || (EventOf(cfg, m).Some? && Moved(cfg.accept, books.log, log, EventOf(cfg, m).value))
  {
    if EventOf(cfg, m).Some? {
      HandleMoves(cfg.text, cfg.accept, books.log, EventOf(cfg, m).value, a);
    }
  }

  lemma StepExtends(cfg: Config, before: System, after: System, step: Step)
    requires StepTaken(cfg, before, after, step)
    ensures Extends(before.messages, after.messages)
  {
  }

  lemma StepKeepsLogInv(cfg: Config, before: System, after: System, step: Step)
    requires Stamping(cfg) && LogInv(cfg, before) && StepTaken(cfg, before, after, step)
    ensures LogInv(cfg, after)
    ensures forall id :: Stored(before.books.log.rows, id) ==> Stored(after.books.log.rows, id)
  {
    StepExtends(cfg, before, after, step);
    if step.Deliver? {
      DeliveryKeepsLogInv(cfg, before, after, step.id, step.attempt, step.receipt);
    } else {
      forall id ensures Sourced(cfg, after.messages, after.books.log.rows, id) {
        SourcedLater(cfg, before.messages, after.messages, before.books.log.rows, id);
      }
    }
  }

  lemma DeliveryKeepsLogInv(cfg: Config, before: System, after: System, k: nat, a: Attempt, r: Receipt)
    requires Stamping(cfg) && LogInv(cfg, before) && StepTaken(cfg, before, after, Deliver(k, a, r))
    requires Extends(before.messages, after.messages)
    ensures LogInv(cfg, after)
    ensures forall id :: Stored(before.books.log.rows, id) ==> Stored(after.books.log.rows, id)
  {
    var m := Delivered(before.messages[k]);
    var log, log' := before.books.log, after.books.log;
    ConsumeMoves(cfg, before.books, k, m, a, r);
    assert EventOf(cfg, after.messages[k]) == EventOf(cfg, m);
    if log' != log {
      MovedKeepsSyncedOnce(cfg.accept, log, log', EventOf(cfg, m).value);
    }
    forall id ensures Sourced(cfg, after.messages, log'.rows, id) {
      SourcedLater(cfg, before.messages, after.messages, log.rows, id);
      if log' != log {
        MovedRowsOf(cfg.accept, log, log', EventOf(cfg, m).value, id);
        SourcedAfterMove(cfg, after.messages, k, log, log', id);
      }
    }
  }

  lemma SourcedAfterMove(cfg: Config, messages: seq<Message>, k: nat, before: Log, after: Log, id: BatchId)
    requires k < |messages| && Sourced(cfg, messages, before.rows, id)
    requires RowsOf(after.rows, id) == RowsOf(before.rows, id) ||
               (Carries(cfg, messages[k], id) && RowsOf(after.rows, id) == BatchRows(cfg, messages[k], id))
    ensures Sourced(cfg, messages, after.rows, id)
  {
    if RowsOf(after.rows, id) != [] {
      if RowsOf(after.rows, id) == RowsOf(before.rows, id) {
        var i :| 0 <= i < |messages| && SourcedFrom(cfg, messages[i], before.rows, id);
        assert SourcedFrom(cfg, messages[i], after.rows, id);
      } else {
        assert SourcedFrom(cfg, messages[k], after.rows, id);
      }
    }
  }

  // ----- settlements

  predicate DeadLettered(books: Books, m: Message) {
    exists d :: d in books.dlq && d.rawPayload == m.payload
  }

  ghost predicate AckMeans(cfg: Config, rows: seq<Row>, m: Message) {
    && EventOf(cfg, m).Some? && Carries(cfg, m, IdOf(EventOf(cfg, m).value))
    && Stored(rows, IdOf(EventOf(cfg, m).value))
  }

  ghost predicate TermMeans(cfg: Config, books: Books, m: Message, delivery: nat) {
    && (cfg.publisher ==> DeadLettered(books, m))
    && (EventOf(cfg, m).Some? && cfg.accept(EventOf(cfg, m).value).Some? ==> delivery >= Limit(cfg.maxDeliver) > 0)
  }

  /** What a settlement call that was made tells about its message. */
  ghost predicate IssueMeans(cfg: Config, s: System, issue: Issue) {
    && issue.id < |s.messages| && issue.delivery <= s.messages[issue.id].delivered
    && match issue.kind
       case Ack => AckMeans(cfg, s.books.log.rows, s.messages[issue.id])
       case Term => TermMeans(cfg, s.books, s.messages[issue.id], issue.delivery)
       case Nak => true
  }

  ghost predicate IssuesInv(cfg: Config, s: System) {
    forall i :: 0 <= i < |s.books.issued| ==> IssueMeans(cfg, s, s.books.issued[i])
  }

  /** A message that is delivered no more was settled for good. */
  predicate ClosedBy(s: System, id: nat, i: nat) {
    i < |s.books.issued| && s.books.issued[i].id == id && s.books.issued[i].took && !s.books.issued[i].kind.Nak?
  }

  ghost predicate ClosedInv(s: System) {
    forall id :: 0 <= id < |s.messages| && !s.messages[id].open ==> exists i: nat :: ClosedBy(s, id, i)
  }

  /** The call, if any, that one delivery makes, and what it means. */
  ghost predicate IssuedSoundly(cfg: Config, books: Books, id: nat, m: Message, after: Books) {
    || after.issued == books.issued
    || exists issue ::
         && after.issued == books.issued + [issue] && issue.id == id && issue.delivery == m.delivered
         && (issue.kind == Ack ==> AckMeans(cfg, after.log.rows, m))
         && (issue.kind == Term ==> TermMeans(cfg, after, m, m.delivered))
  }

  lemma RejectedSoundly(cfg: Config, books: Books, id: nat, m: Message, reason: Reason, r: Receipt)
    requires EventOf(cfg, m).Some? && cfg.accept(EventOf(cfg, m).value).Some? ==>
             m.delivered >= Limit(cfg.maxDeliver) > 0
    ensures var after := Rejected(cfg, books, id, m, reason, r).0;
            IssuedSoundly(cfg, books, id, m, after) && after.log == books.log && books.dlq <= after.dlq
  {
    var after := Rejected(cfg, books, id, m, reason, r).0;
    if after.issued != books.issued {
      var issue := Issue(id, Term, m.delivered, Took(r.settle));
      assert after.issued == books.issued + [issue];
      if cfg.publisher {
        var event := Envelope(m, EventOf(cfg, m), DeliveryCount(r.metadata), reason);
        assert event in after.dlq && event.rawPayload == m.payload;
      }
    }
  }

  lemma ConsumeIssues(cfg: Config, books: Books, id: nat, m: Message, a: Attempt, r: Receipt)
    requires Stamping(cfg) && Truthful(r.metadata, m) && m.delivered > 0
    ensures IssuedSoundly(cfg, books, id, m, Consume(cfg, books, id, m, a, r).0)
    ensures books.dlq <= Consume(cfg, books, id, m, a, r).0.dlq
  {
    var event := EventOf(cfg, m);
    match event {
      case None => RejectedSoundly(cfg, books, id, m, MalformedPayload, r);
      case Some(b) =>
        HandleMoves(cfg.text, cfg.accept, books.log, b, a);
        var (log, handled) := Handle(cfg.text, cfg.accept, books.log, b, a);
        var moved, ruling := books.(log := log), RulingOn(handled, DeliveryCount(r.metadata), Limit(cfg.maxDeliver));
        if ruling.Reject? {
          RejectedSoundly(cfg, moved, id, m, ruling.reason, r);
          assert IssuedSoundly(cfg, books, id, m, Consume(cfg, books, id, m, a, r).0);
        } else if !ruling.NoRuling? {
          var issue := Issue(id, if ruling.Accept? then Ack else Nak, m.delivered, Took(r.settle));
          assert Consume(cfg, books, id, m, a, r).0.issued == books.issued + [issue];
        }
    }
  }

  lemma IssueStillMeans(cfg: Config, before: System, after: System, issue: Issue)
    requires IssueMeans(cfg, before, issue) && Extends(before.messages, after.messages)
    requires before.books.dlq <= after.books.dlq
    requires forall id :: Stored(before.books.log.rows, id) ==> Stored(after.books.log.rows, id)
    ensures IssueMeans(cfg, after, issue)
  {
    var m, m' := before.messages[issue.id], after.messages[issue.id];
    assert EventOf(cfg, m) == EventOf(cfg, m');
    if issue.kind == Term && cfg.publisher {
      var d :| d in before.books.dlq && d.rawPayload == m.payload;
      assert d in after.books.dlq;
    }
  }

  /** At most one settlement call a delivery. */
  predicate OneIssue(before: Books, after: Books) {
    before.issued <= after.issued && |after.issued| <= |before.issued| + 1
  }

  lemma {:induction false} DeliveryKeepsIssues(cfg: Config, before: System, after: System, k: nat, a: Attempt,
                                               r: Receipt)
    requires Stamping(cfg) && LogInv(cfg, before) && IssuesInv(cfg, before)
    requires StepTaken(cfg, before, after, Deliver(k, a, r))
    ensures IssuesInv(cfg, after) && OneIssue(before.books, after.books)
    ensures |after.books.issued| > |before.books.issued| ==> after.books.issued[|before.books.issued|].id == k
  {
    var m := Delivered(before.messages[k]);
    StepExtends(cfg, before, after, Deliver(k, a, r));
    StepKeepsLogInv(cfg, before, after, Deliver(k, a, r));
    ConsumeIssues(cfg, before.books, k, m, a, r);
    assert EventOf(cfg, after.messages[k]) == EventOf(cfg, m) && after.messages[k].payload == m.payload;
    forall i | 0 <= i < |after.books.issued| ensures IssueMeans(cfg, after, after.books.issued[i]) {
      if i < |before.books.issued| {
        IssueStillMeans(cfg, before, after, before.books.issued[i]);
      }
    }
  }

  lemma StepKeepsIssues(cfg: Config, before: System, after: System, step: Step)
    requires Stamping(cfg) && LogInv(cfg, before) && IssuesInv(cfg, before) && StepTaken(cfg, before, after, step)
    ensures IssuesInv(cfg, after) && OneIssue(before.books, after.books)
  {
    match step {
      case Deliver(k, a, r) => DeliveryKeepsIssues(cfg, before, after, k, a, r);
      case Publish(payload, headers) =>
        StepExtends(cfg, before, after, step);
        forall i | 0 <= i < |after.books.issued| ensures IssueMeans(cfg, after, after.books.issued[i]) {
          IssueStillMeans(cfg, before, after, before.books.issued[i]);
        }
    }
  }

  lemma StepKeepsClosed(cfg: Config, before: System, after: System, step: Step)
    requires Stamping(cfg) && LogInv(cfg, before) && IssuesInv(cfg, before) && ClosedInv(before)
    requires StepTaken(cfg, before, after, step)
    ensures ClosedInv(after)
  {
    StepKeepsIssues(cfg, before, after, step);
    forall id | 0 <= id < |after.messages| && !after.messages[id].open ensures exists i: nat :: ClosedBy(after, id, i) {
      if step.Deliver? && step.id == id {
        DeliveryKeepsIssues(cfg, before, after, id, step.attempt, step.receipt);
        assert ClosedBy(after, id, |before.books.issued|);
      } else {
        var i: nat :| ClosedBy(before, id, i);
        assert ClosedBy(after, id, i);
      }
    }
  }

  // ----- runs

  ghost predicate Inv(cfg: Config, s: System) {
    LogInv(cfg, s) && IssuesInv(cfg, s) && ClosedInv(s)
  }

  lemma {:induction false} RunKeepsInv(cfg: Config, states: seq<System>, steps: seq<Step>, n: nat)
    requires Stamping(cfg) && Run(cfg, states, steps) && n <= |steps|
    ensures Inv(cfg, states[n])
  {
    if n == 0 {
      assert forall id :: RowsOf([], id) == [];
    } else {
      RunKeepsInv(cfg, states, steps, n - 1);
      RunStep(cfg, states, steps, n);
      StepKeepsLogInv(cfg, states[n - 1], states[n], steps[n - 1]);
      StepKeepsIssues(cfg, states[n - 1], states[n], steps[n - 1]);
      StepKeepsClosed(cfg, states[n - 1], states[n], steps[n - 1]);
    }
  }

  /** Every acknowledged message is an accepted batch whose ingest id is in the log store; every terminated one has
      a published dead-letter event, and if its batch was acceptable its deliveries were used up. This holds of calls
      that never reached the server too, and at the end of every run with failures and crashes anywhere. */
  lemma SettlementsAreSound(cfg: Config, states: seq<System>, steps: seq<Step>, n: nat, i: nat)
    requires Stamping(cfg) && Run(cfg, states, steps) && n <= |steps| && i < |states[n].books.issued|
    ensures var s := states[n];
            var issue := s.books.issued[i];
            && issue.id < |s.messages|
            && (issue.kind == Ack ==> AckMeans(cfg, s.books.log.rows, s.messages[issue.id]))
            && (issue.kind == Term ==> TermMeans(cfg, s.books, s.messages[issue.id], issue.delivery))
  {
    RunKeepsInv(cfg, states, steps, n);
    assert IssueMeans(cfg, states[n], states[n].books.issued[i]);
  }

  /** Messages with the same tenant and ingest id carry batches whose rows differ in the trace id at most. */
  ghost predicate IdsNameRows(cfg: Config, messages: seq<Message>) {
    forall i, j, id ::
      0 <= i < |messages| && 0 <= j < |messages| && Carries(cfg, messages[i], id) && Carries(cfg, messages[j], id) ==>
      RowsAlike(BatchRows(cfg, messages[i], id), BatchRows(cfg, messages[j], id))
  }

  /** What ingest sees to: under one id come the same logs, each with a time of its own. */
  ghost predicate IdsNameLogs(c: Codec, cfg: Config, messages: seq<Message>) {
    forall i, j, id ::
      0 <= i < |messages| && 0 <= j < |messages| && Carries(cfg, messages[i], id) && Carries(cfg, messages[j], id) ==>
      && Resubmits(EventOf(cfg, messages[i]).value, EventOf(cfg, messages[j]).value)
      && OwnTimes(c, EventOf(cfg, messages[i]).value)
  }

  lemma ResubmissionsNameRows(c: Codec, cfg: Config, messages: seq<Message>)
    requires cfg.accept == Accepting(c) && IdsNameLogs(c, cfg, messages)
    ensures IdsNameRows(cfg, messages)
  {
    forall i, j, id |
      0 <= i < |messages| && 0 <= j < |messages| && Carries(cfg, messages[i], id) && Carries(cfg, messages[j], id)
      ensures RowsAlike(BatchRows(cfg, messages[i], id), BatchRows(cfg, messages[j], id))
    {
      ResubmittedRowsAlike(c, EventOf(cfg, messages[i]).value, EventOf(cfg, messages[j]).value);
    }
  }

  /** The rows stored under the message's id are its own, but perhaps for the trace id. */
  ghost predicate StoredAlike(cfg: Config, m: Message, rows: seq<Row>, id: BatchId) {
    Carries(cfg, m, id) && RowsAlike(RowsOf(rows, id), BatchRows(cfg, m, id))
  }

  /** A message that is no longer delivered is accounted for: exactly its rows are stored under its id, once, all
      columns but the trace id being its own, or it is on the dead-letter subject. */
  lemma ClosedMessagesAccountedFor(cfg: Config, states: seq<System>, steps: seq<Step>, n: nat, k: nat)
    requires Stamping(cfg) && Run(cfg, states, steps) && n <= |steps| && cfg.publisher
    requires IdsNameRows(cfg, states[n].messages)
    requires k < |states[n].messages| && !states[n].messages[k].open
    ensures var s := states[n];
            || DeadLettered(s.books, s.messages[k])
            || exists id :: StoredAlike(cfg, s.messages[k], s.books.log.rows, id)
  {
    RunKeepsInv(cfg, states, steps, n);
    var s := states[n];
    var i: nat :| ClosedBy(s, k, i);
    assert IssueMeans(cfg, s, s.books.issued[i]);
    if s.books.issued[i].kind == Ack {
      AcknowledgedRows(cfg, s, k);
    }
  }

  lemma AcknowledgedRows(cfg: Config, s: System, k: nat)
    requires k < |s.messages| && LogInv(cfg, s) && IdsNameRows(cfg, s.messages)
    requires AckMeans(cfg, s.books.log.rows, s.messages[k])
    ensures StoredAlike(cfg, s.messages[k], s.books.log.rows, IdOf(EventOf(cfg, s.messages[k]).value))
  {
    var id, rows := IdOf(EventOf(cfg, s.messages[k]).value), s.books.log.rows;
    NotStoredNoRows(rows, id);
    assert Sourced(cfg, s.messages, rows, id);
    var i :| 0 <= i < |s.messages| && SourcedFrom(cfg, s.messages[i], rows, id);
    assert Carries(cfg, s.messages[i], id) && Carries(cfg, s.messages[k], id);
  }

  ghost predicate SameRows(cfg: Config, m: Message, other: Message) {
    forall id :: Carries(cfg, m, id) && Carries(cfg, other, id) ==> BatchRows(cfg, m, id) == BatchRows(cfg, other, id)
  }

  /** The very rows are stored when the messages under the id normalize to the same ones. */
  lemma ClosedMessagesStoredExactly(cfg: Config, states: seq<System>, steps: seq<Step>, n: nat, k: nat)
    requires Stamping(cfg) && Run(cfg, states, steps) && n <= |steps| && cfg.publisher
    requires k < |states[n].messages| && !states[n].messages[k].open
    requires forall i :: 0 <= i < |states[n].messages| ==> SameRows(cfg, states[n].messages[i], states[n].messages[k])
    ensures var s := states[n];
            || DeadLettered(s.books, s.messages[k])
            || exists id :: SourcedFrom(cfg, s.messages[k], s.books.log.rows, id)
  {
    RunKeepsInv(cfg, states, steps, n);
    var s := states[n];
    var i: nat :| ClosedBy(s, k, i);
    assert IssueMeans(cfg, s, s.books.issued[i]);
    if s.books.issued[i].kind == Ack {
      var id, rows := IdOf(EventOf(cfg, s.messages[k]).value), s.books.log.rows;
      NotStoredNoRows(rows, id);
      assert Sourced(cfg, s.messages, rows, id);
      var j :| 0 <= j < |s.messages| && SourcedFrom(cfg, s.messages[j], rows, id);
      assert SourcedFrom(cfg, s.messages[k], rows, id);
    }
  }

  /** Whatever fails and however often batches are redelivered, the rows under an id are written at most once,
      and alert state is synced at most once for it and only with its rows stored. */
  lemma StoredOnceSyncedOnce(cfg: Config, states: seq<System>, steps: seq<Step>, n: nat, id: BatchId)
    requires Stamping(cfg) && Run(cfg, states, steps) && n <= |steps|
    ensures Sourced(cfg, states[n].messages, states[n].books.log.rows, id)
    ensures multiset(states[n].books.log.synced)[id] <= 1
    ensures id in states[n].books.log.synced ==> Stored(states[n].books.log.rows, id)
  {
    RunKeepsInv(cfg, states, steps, n);
    DistinctOnce(states[n].books.log.synced, id);
  }

  lemma {:induction false} DistinctOnce<T>(xs: seq<T>, x: T)
    requires forall i, j :: 0 <= i < j < |xs| ==> xs[i] != xs[j]
    ensures multiset(xs)[x] <= 1
  {
    if xs != [] {
      var n := |xs| - 1;
      DistinctOnce(xs[..n], x);
      assert xs == xs[..n] + [xs[n]];
      assert x == xs[n] ==> x !in xs[..n];
    }
  }
}

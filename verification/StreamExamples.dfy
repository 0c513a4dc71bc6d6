/** What the stream protocol does not promise, whatever the codec: for every configuration, and every payload that
    decodes to a batch the processor accepts, there is a run that strands the message and one that loses its sync. */
module StreamExamples {
  import opened Wrappers
  import opened Sequences
  import opened Fields
  import opened Batches
  import opened Processor
  import opened Settlement
  import opened StreamRuns
  import opened StreamLimits

  const WORKING := Attempt(true, Works, Works, true, Works, true, Works, Works)

  /** A message as delivered for the n-th time. */
  function Arrived(payload: string, headers: Headers, n: nat): Message {
    Message(payload, headers, n, true)
  }

  /** The message carries a batch that validates and normalizes, under an id that is not blank. */
  ghost predicate Processable(cfg: Config, payload: string, headers: Headers) {
    var event := EventOf(cfg, Arrived(payload, headers, 0));
    event.Some? && cfg.accept(event.value).Some? && !CheckRefuses(cfg.text, event.value)
  }

  ghost function BatchOf(cfg: Config, payload: string, headers: Headers): RawBatch
    requires Processable(cfg, payload, headers)
  {
    EventOf(cfg, Arrived(payload, headers, 0)).value
  }

  /** The real validation and normalization stamp their rows, whatever the parsers are. */
  lemma RealConfigStamps(c: Codec, cfg: Config)
    requires cfg.accept == Accepting(c)
    ensures Stamping(cfg)
  {
    forall b ensures StampsRows(cfg.accept, b) {
      AcceptingStampsRows(c, b);
    }
  }

  // ----- building runs

  lemma RunGrows(cfg: Config, states: seq<System>, steps: seq<Step>, after: System, step: Step)
    requires Run(cfg, states, steps) && StepTaken(cfg, states[|steps|], after, step)
    ensures Run(cfg, states + [after], steps + [step])
  {
    var longer, all := states + [after], steps + [step];
    forall i | 0 <= i < |all| ensures StepTakenAt(cfg, longer, all, i) {
      if i < |steps| {
        assert StepTakenAt(cfg, states, steps, i);
      }
    }
  }

  lemma PublishedRun(cfg: Config, payload: string, headers: Headers) returns (states: seq<System>, steps: seq<Step>)
    ensures Run(cfg, states, steps) && |steps| == 1
    ensures states[1] == System([Arrived(payload, headers, 0)], Books(Log([], []), [], []))
  {
    var empty := System([], Books(Log([], []), [], []));
    var published := empty.(messages := [Arrived(payload, headers, 0)]);
    steps, states := [Publish(payload, headers)], [empty, published];
    assert StepTakenAt(cfg, states, steps, 0);
  }

  /** The message alone, delivered once more in the given environment. */
  lemma DeliverNext(cfg: Config, states: seq<System>, steps: seq<Step>, m: Message, a: Attempt, r: Receipt)
      returns (longer: seq<System>, all: seq<Step>)
    requires Run(cfg, states, steps) && states[|steps|].messages == [m] && Deliverable(cfg, m)
    requires r.metadata == Some(m.delivered + 1)
    ensures Run(cfg, longer, all) && |all| == |steps| + 1 && all == steps + [Deliver(0, a, r)]
    ensures var before, after := states[|steps|].books, Consume(cfg, states[|steps|].books, 0, Delivered(m), a, r).0;
            longer[|all|] == System([Delivered(m).(open := !Closes(before, after))], after)
  {
    var before := states[|steps|];
    var books := Consume(cfg, before.books, 0, Delivered(m), a, r).0;
    var after := System([Delivered(m).(open := !Closes(before.books, books))], books);
    RunGrows(cfg, states, steps, after, Deliver(0, a, r));
    longer, all := states + [after], steps + [Deliver(0, a, r)];
  }

  lemma SameEvent(cfg: Config, payload: string, headers: Headers, m: Message)
    requires Processable(cfg, payload, headers) && m.payload == payload && m.headers == headers
    ensures EventOf(cfg, m) == Some(BatchOf(cfg, payload, headers))
  {
  }

  // ----- stranded by a crash

  lemma LoadFails(cfg: Config, books: Books, m: Message, a: Attempt, r: Receipt)
    requires EventOf(cfg, m).Some? && cfg.accept(EventOf(cfg, m).value).Some?
    requires !CheckRefuses(cfg.text, EventOf(cfg, m).value) && !Stored(books.log.rows, IdOf(EventOf(cfg, m).value))
    ensures a == WORKING.(load := Crashes(false)) ==> Consume(cfg, books, 0, m, a, r).0 == books
    ensures a == WORKING.(load := Fails(false)) && DeliveryCount(r.metadata) < Limit(cfg.maxDeliver) ==>
              Consume(cfg, books, 0, m, a, r).0
              == books.(issued := books.issued + [Issue(0, Nak, m.delivered, Took(r.settle))])
  {
  }

  /** The message after n deliveries in which the rules could not be loaded. */
  lemma {:induction false} FailingDeliveries(cfg: Config, payload: string, headers: Headers, n: nat)
      returns (states: seq<System>, steps: seq<Step>)
    requires Processable(cfg, payload, headers) && n < cfg.maxDeliver
    ensures Run(cfg, states, steps) && |steps| == n + 1 && states[n + 1].messages == [Arrived(payload, headers, n)]
    ensures states[n + 1].books.log == Log([], []) && states[n + 1].books.dlq == []
  {
    if n == 0 {
      states, steps := PublishedRun(cfg, payload, headers);
    } else {
      states, steps := FailingDeliveries(cfg, payload, headers, n - 1);
      var m, books := Arrived(payload, headers, n - 1), states[n].books;
      var a, r := WORKING.(load := Fails(false)), Receipt(Some(n), Works, Works);
      SameEvent(cfg, payload, headers, Delivered(m));
      LoadFails(cfg, books, Delivered(m), a, r);
      states, steps := DeliverNext(cfg, states, steps, m, a, r);
    }
  }

  /** Under any positive limit, a process that dies on the last delivery strands the message: neither stored nor
      dead-lettered, and never delivered again. */
  lemma CrashOnLastDeliveryStrands(cfg: Config, payload: string, headers: Headers)
      returns (states: seq<System>, steps: seq<Step>)
    requires Processable(cfg, payload, headers) && cfg.maxDeliver > 0
    ensures Run(cfg, states, steps) && |steps| == cfg.maxDeliver + 1
    ensures var s := states[|steps|];
            && |s.messages| == 1 && s.messages[0].payload == payload && Stranded(cfg, s.messages[0])
            && s.books.log.rows == [] && !DeadLettered(s.books, s.messages[0])
  {
    var n := cfg.maxDeliver - 1;
    states, steps := FailingDeliveries(cfg, payload, headers, n);
    var m, books := Arrived(payload, headers, n), states[n + 1].books;
    var a, r := WORKING.(load := Crashes(false)), Receipt(Some(n + 1), Works, Works);
    SameEvent(cfg, payload, headers, Delivered(m));
    LoadFails(cfg, books, Delivered(m), a, r);
    states, steps := DeliverNext(cfg, states, steps, m, a, r);
  }

  // ----- stored without a sync

  lemma LateWrite(cfg: Config, m: Message, a: Attempt, r: Receipt)
    requires EventOf(cfg, m).Some? && cfg.accept(EventOf(cfg, m).value).Some?
    requires StampsRows(cfg.accept, EventOf(cfg, m).value) && !CheckRefuses(cfg.text, EventOf(cfg, m).value)
    requires a == WORKING.(write := Fails(true)) && r == Receipt(Some(1), Works, Works) && Limit(cfg.maxDeliver) != 1
    requires m.delivered == 1
    ensures var books := Consume(cfg, Books(Log([], []), [], []), 0, m, a, r).0;
            && books == Books(Log(books.log.rows, []), [], [Issue(0, Nak, 1, true)])
            && Stored(books.log.rows, IdOf(EventOf(cfg, m).value))
  {
    LateWriteStores(cfg, EventOf(cfg, m).value, a);
  }

  lemma LateWriteStores(cfg: Config, b: RawBatch, a: Attempt)
    requires cfg.accept(b).Some? && StampsRows(cfg.accept, b) && !CheckRefuses(cfg.text, b)
    requires a == WORKING.(write := Fails(true))
    ensures var (log, handled) := Handle(cfg.text, cfg.accept, Log([], []), b, a);
            handled == Retry && log.synced == [] && Stored(log.rows, IdOf(b))
  {
    WrittenIsStored(cfg.accept, [], b);
    assert !Stored([], IdOf(b));
  }

  lemma ReplayOfStored(cfg: Config, books: Books, m: Message, a: Attempt, r: Receipt)
    requires EventOf(cfg, m).Some? && cfg.accept(EventOf(cfg, m).value).Some?
    requires !CheckRefuses(cfg.text, EventOf(cfg, m).value) && Stored(books.log.rows, IdOf(EventOf(cfg, m).value))
    requires a == WORKING && r.settle.Works?
    ensures Consume(cfg, books, 0, m, a, r).0 == books.(issued := books.issued + [Issue(0, Ack, m.delivered, true)])
  {
  }

  /** Unless a single delivery is all there is, a write that takes effect but reports failure can cost the batch its
      sync: the redelivery finds the rows stored and is acknowledged, though both attempts had rules to sync. */
  lemma StoredBatchCanMissItsSync(cfg: Config, payload: string, headers: Headers)
      returns (states: seq<System>, steps: seq<Step>)
    requires Stamping(cfg) && Processable(cfg, payload, headers) && Limit(cfg.maxDeliver) != 1
    ensures Run(cfg, states, steps) && |steps| == 3
    ensures steps[1].Deliver? && steps[1].attempt.syncs && steps[2].Deliver? && steps[2].attempt.syncs
    ensures var s := states[3];
            && |s.books.issued| == 2 && s.books.issued[1] == Issue(0, Ack, 2, true)
            && Stored(s.books.log.rows, IdOf(BatchOf(cfg, payload, headers))) && s.books.log.synced == []
  {
    var first, second := Arrived(payload, headers, 0), Arrived(payload, headers, 1);
    var late, retry := WORKING.(write := Fails(true)), WORKING;
    states, steps := PublishedRun(cfg, payload, headers);
    SameEvent(cfg, payload, headers, Delivered(first));
    LateWrite(cfg, Delivered(first), late, Receipt(Some(1), Works, Works));
    states, steps := DeliverNext(cfg, states, steps, first, late, Receipt(Some(1), Works, Works));
    SameEvent(cfg, payload, headers, Delivered(second));
    ReplayOfStored(cfg, states[2].books, Delivered(second), retry, Receipt(Some(2), Works, Works));
    states, steps := DeliverNext(cfg, states, steps, second, retry, Receipt(Some(2), Works, Works));
  }
}

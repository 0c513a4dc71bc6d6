/** How internal/stream/nats.go settles one delivered message, and the dead-letter envelope of
    internal/stream/consume_errors.go. */
module Settlement {
  import opened Wrappers
  import opened Numbers
  import opened Fields
  import opened Batches
  import opened Processor

  datatype Headers = Headers(requestId: string, traceId: string)

  /** A stored message. Delivered counts its deliveries; open messages are delivered again. */
  datatype Message = Message(payload: string, headers: Headers, delivered: nat, open: bool)

  datatype Reason = MalformedPayload | InvalidBatch | RetryExhausted

  datatype DlqEvent = DlqEvent(reason: Reason, attempts: nat, rawPayload: string, requestId: string, tenantId: nat,
                               service: string, env: string, source: string, event: Option<RawBatch>)

  datatype Kind = Ack | Nak | Term

  /** A settlement call made for a message on its n-th delivery, whether or not it reached the server. */
  datatype Issue = Issue(id: nat, kind: Kind, delivery: nat, took: bool)

  /** What is left behind: the log store, the dead-letter subject and the settlement calls. */
  datatype Books = Books(log: Log, dlq: seq<DlqEvent>, issued: seq<Issue>)

  /** JSON decoding is taken as given. MaxDeliver is the configured limit, also the server's; a limit that is not
      positive means none there. */
  datatype Config = Config(text: Text, accept: Acceptance, decode: string -> Option<RawBatch>, maxDeliver: int,
                           publisher: bool)

  /** The environment of one delivery. Metadata is the delivery count when it can be read. */
  datatype Receipt = Receipt(metadata: Option<nat>, publish: Effect, settle: Effect)

  /** Settled lets the consumer fetch on; Stopped ends Consume with an error; Gone is a dead process. */
  datatype Consumed = Settled | Stopped | Gone

  function After(e: Effect): Consumed {
    match e
    case Works => Settled
    case Fails(_) => Stopped
    case Crashes(_) => Gone
  }

  /** The limit as the consumer sees it, converted to an unsigned 64-bit number. */
  function Limit(maxDeliver: int): int {
    if maxDeliver < 0 then maxDeliver + TWO_TO_64 else maxDeliver
  }

  function DeliveryCount(metadata: Option<nat>): nat {
    if metadata.None? || metadata.value == 0 then 1 else metadata.value
  }

  function Correlate(text: Text, b: RawBatch, headers: Headers): RawBatch {
    var correlated := if b.correlationId == "" then text.trim(headers.requestId) else b.correlationId;
    b.(traceId := if b.traceId == "" then text.trim(headers.traceId) else b.traceId,
       correlationId := if correlated == "" then b.requestId else correlated)
  }

  function Decoded(text: Text, decode: string -> Option<RawBatch>, m: Message): Option<RawBatch> {
    match decode(m.payload)
    case None => None
    case Some(b) => Some(Correlate(text, b, m.headers))
  }

  function EventOf(cfg: Config, m: Message): Option<RawBatch> {
    Decoded(cfg.text, cfg.decode, m)
  }

  function Envelope(m: Message, event: Option<RawBatch>, attempts: nat, reason: Reason): DlqEvent {
    match event
    case None => DlqEvent(reason, attempts, m.payload, "", 0, "", "", "", None)
    case Some(b) => DlqEvent(reason, attempts, m.payload, b.requestId, b.tenantId, b.service, b.env, b.source, event)
  }

  datatype Ruling = Accept | Redeliver | Reject(reason: Reason) | NoRuling

  function RulingOn(handled: Handled, count: nat, limit: int): Ruling {
    match handled
    case Done => Accept
    case Poison => Reject(InvalidBatch)
    case Retry => if limit > 0 && count >= limit then Reject(RetryExhausted) else Redeliver
    case Died => NoRuling
  }

  function Issued(books: Books, id: nat, kind: Kind, m: Message, settle: Effect): (Books, Consumed) {
    (books.(issued := books.issued + [Issue(id, kind, m.delivered, Took(settle))]), After(settle))
  }

  /** A message is terminated only once its envelope is published; without a publisher there is none. */
  function Rejected(cfg: Config, books: Books, id: nat, m: Message, reason: Reason, r: Receipt): (Books, Consumed) {
    var event := Envelope(m, EventOf(cfg, m), DeliveryCount(r.metadata), reason);
    if !cfg.publisher then Issued(books, id, Term, m, r.settle)
    else
      var published := if Took(r.publish) then books.(dlq := books.dlq + [event]) else books;
      if !r.publish.Works? then (published, After(r.publish)) else Issued(published, id, Term, m, r.settle)
  }

  function Follow(cfg: Config, books: Books, id: nat, m: Message, ruling: Ruling, r: Receipt): (Books, Consumed) {
    match ruling
    case Accept => Issued(books, id, Ack, m, r.settle)
    case Redeliver => Issued(books, id, Nak, m, r.settle)
    case Reject(reason) => Rejected(cfg, books, id, m, reason, r)
    case NoRuling => (books, Gone)
  }

  /** What becomes of the message: decided by the payload, the handler's result and the delivery count. */
  function RulingFor(cfg: Config, books: Books, m: Message, a: Attempt, r: Receipt): Ruling {
    match EventOf(cfg, m)
    case None => Reject(MalformedPayload)
    case Some(b) =>
      RulingOn(Handle(cfg.text, cfg.accept, books.log, b, a).1, DeliveryCount(r.metadata), Limit(cfg.maxDeliver))
  }

  /** One delivered message, from decoding to settlement. */
  function Consume(cfg: Config, books: Books, id: nat, m: Message, a: Attempt, r: Receipt): (Books, Consumed) {
    match EventOf(cfg, m)
    case None => Follow(cfg, books, id, m, Reject(MalformedPayload), r)
    case Some(b) =>
      var (log, handled) := Handle(cfg.text, cfg.accept, books.log, b, a);
      Follow(cfg, books.(log := log), id, m, RulingOn(handled, DeliveryCount(r.metadata), Limit(cfg.maxDeliver)), r)
  }

  /** The dead-letter subject has one more event, for this message. */
  predicate Announces(publisher: bool, before: seq<DlqEvent>, after: seq<DlqEvent>, m: Message, reason: Reason,
                      attempts: nat)
  {
    publisher ==>
      && |after| == |before| + 1 && before <= after
      && var event := after[|before|];
      event.rawPayload == m.payload && event.reason == reason && event.attempts == attempts
  }

  // ----- what the decoded event and the envelope carry

  /** The event is the decoded one; a trace id that it lacks comes from the trace header, and a correlation id from the
      request header or else from its own request id. */
  predicate CorrelatedWith(text: Text, b: RawBatch, headers: Headers, event: RawBatch) {
    && event == b.(traceId := event.traceId, correlationId := event.correlationId)
    && event.traceId == (if b.traceId != "" then b.traceId else text.trim(headers.traceId))
    && (b.correlationId != "" ==> event.correlationId == b.correlationId)
    && (b.correlationId == "" ==>
          var request := text.trim(headers.requestId);
          event.correlationId == if request != "" then request else b.requestId)
  }

  /** The envelope repeats the payload, and of a payload that decodes the id, the tenant and the tags. */
  predicate EnvelopeOf(text: Text, decode: string -> Option<RawBatch>, m: Message, reason: Reason, attempts: nat,
                       envelope: DlqEvent)
  {
    && envelope.reason == reason && envelope.attempts == attempts && envelope.rawPayload == m.payload
    && match decode(m.payload)
       case None =>
         && envelope.requestId == "" && envelope.tenantId == 0 && envelope.service == "" && envelope.env == ""
         && envelope.source == "" && envelope.event == None
       case Some(b) =>
         && envelope.requestId == b.requestId && envelope.tenantId == b.tenantId && envelope.service == b.service
         && envelope.env == b.env && envelope.source == b.source
         && envelope.event.Some? && CorrelatedWith(text, b, m.headers, envelope.event.value)
  }

  lemma EnvelopeMeans(text: Text, decode: string -> Option<RawBatch>, m: Message, reason: Reason, attempts: nat)
    ensures EnvelopeOf(text, decode, m, reason, attempts, Envelope(m, Decoded(text, decode, m), attempts, reason))
  {
  }

  /** One settlement call, and how it ends. */
  predicate Settles(before: Books, after: Books, id: nat, kind: Kind, m: Message, settle: Effect, result: Consumed) {
    && after.dlq == before.dlq
    && after.issued == before.issued + [Issue(id, kind, m.delivered, settle !in {Fails(false), Crashes(false)})]
    && (result == Settled <==> settle == Works) && (result == Gone <==> settle.Crashes?)
  }

  /** A rejection: without a publisher the termination alone, with one the envelope first, and the termination only when
      the publication is known to have worked. */
  ghost predicate Rejects(cfg: Config, before: Books, after: Books, id: nat, m: Message, reason: Reason, attempts: nat,
                          r: Receipt, result: Consumed)
  {
    if !cfg.publisher then Settles(before, after, id, Term, m, r.settle, result)
    else
      exists envelope :: EnvelopeOf(cfg.text, cfg.decode, m, reason, attempts, envelope) &&
        var published := if r.publish !in {Fails(false), Crashes(false)} then before.(dlq := before.dlq + [envelope])
                         else before;
        if r.publish == Works then Settles(published, after, id, Term, m, r.settle, result)
        else after.dlq == published.dlq && after.issued == before.issued
             && result == if r.publish.Crashes? then Gone else Stopped
  }

  lemma {:induction false} RejectedMeans(cfg: Config, books: Books, id: nat, m: Message, reason: Reason, r: Receipt)
    ensures var (after, result) := Rejected(cfg, books, id, m, reason, r);
            && after.log == books.log
            && Rejects(cfg, books, after, id, m, reason,
                       (if r.metadata.Some? && r.metadata.value > 0 then r.metadata.value else 1), r, result)
  {
    EnvelopeMeans(cfg.text, cfg.decode, m, reason, DeliveryCount(r.metadata));
  }

  /** What the end of the handling leads to: done is acked, poison rejected, and a retry is naked until the deliveries
      reach the limit, where a negative limit counts as an unsigned number and zero as none. */
  ghost predicate EndsBy(cfg: Config, books: Books, after: Books, id: nat, m: Message, handled: Handled, r: Receipt,
                         result: Consumed)
  {
    var count := if r.metadata.Some? && r.metadata.value > 0 then r.metadata.value else 1;
    var limit := if cfg.maxDeliver < 0 then cfg.maxDeliver + 0x1_0000_0000_0000_0000 else cfg.maxDeliver;
    match handled
    case Done => Settles(books, after, id, Ack, m, r.settle, result)
    case Poison => Rejects(cfg, books, after, id, m, InvalidBatch, count, r, result)
    case Died => after.dlq == books.dlq && after.issued == books.issued && result == Gone
    case Retry =>
      if limit > 0 && count >= limit then Rejects(cfg, books, after, id, m, RetryExhausted, count, r, result)
      else Settles(books, after, id, Nak, m, r.settle, result)
  }

  lemma {:induction false} EndMeans(cfg: Config, books: Books, id: nat, m: Message, handled: Handled, r: Receipt)
    ensures var ruling := RulingOn(handled, DeliveryCount(r.metadata), Limit(cfg.maxDeliver));
            var (after, result) := Follow(cfg, books, id, m, ruling, r);
            after.log == books.log && EndsBy(cfg, books, after, id, m, handled, r, result)
  {
    if handled.Poison? {
      RejectedMeans(cfg, books, id, m, InvalidBatch, r);
    } else if handled.Retry? {
      RejectedMeans(cfg, books, id, m, RetryExhausted, r);
    }
  }

  /** One delivery in plain terms: a payload that does not decode is rejected as malformed, otherwise the correlated
      event is handled, and its end decides. */
  lemma {:induction false} ConsumeMeans(cfg: Config, books: Books, id: nat, m: Message, a: Attempt, r: Receipt)
    ensures var (after, result) := Consume(cfg, books, id, m, a, r);
            match cfg.decode(m.payload)
            case None =>
              var count := if r.metadata.Some? && r.metadata.value > 0 then r.metadata.value else 1;
              after.log == books.log && Rejects(cfg, books, after, id, m, MalformedPayload, count, r, result)
            case Some(b) =>
              exists event :: CorrelatedWith(cfg.text, b, m.headers, event) &&
                var (log, handled) := Handle(cfg.text, cfg.accept, books.log, event, a);
                after.log == log && EndsBy(cfg, books.(log := log), after, id, m, handled, r, result)
  {
    match cfg.decode(m.payload) {
      case None => RejectedMeans(cfg, books, id, m, MalformedPayload, r);
      case Some(b) =>
        var event := Correlate(cfg.text, b, m.headers);
        var (log, handled) := Handle(cfg.text, cfg.accept, books.log, event, a);
        assert CorrelatedWith(cfg.text, b, m.headers, event);
        EndMeans(cfg, books.(log := log), id, m, handled, r);
    }
  }

  class StreamConsumer {
    const decode: string -> Option<RawBatch>
    const maxDeliver: int
    const publisher: bool
    const processor: LogProcessor
    var dlq: seq<DlqEvent>
    var issued: seq<Issue>

    constructor (decode: string -> Option<RawBatch>, maxDeliver: int, publisher: bool, processor: LogProcessor)
      ensures this.decode == decode && this.maxDeliver == maxDeliver && this.publisher == publisher
      ensures this.processor == processor
      ensures dlq == [] && issued == []
    {
      this.decode, this.maxDeliver, this.publisher, this.processor := decode, maxDeliver, publisher, processor;
      dlq, issued := [], [];
    }

    ghost function Configuration(): Config {
      Config(processor.codec.text, Accepting(processor.codec), decode, maxDeliver, publisher)
    }

    function Contents(): Books
      reads this, processor
    {
      Books(processor.Contents(), dlq, issued)
    }

    method Settle(id: nat, kind: Kind, m: Message, settle: Effect) returns (result: Consumed)
      modifies this`issued
      ensures (Contents(), result) == Issued(old(Contents()), id, kind, m, settle)
    {
      issued := issued + [Issue(id, kind, m.delivered, Took(settle))];
      return After(settle);
    }

    method RejectMessage(id: nat, m: Message, event: Option<RawBatch>, reason: Reason, r: Receipt)
        returns (result: Consumed)
      requires event == EventOf(Configuration(), m)
      modifies this`dlq, this`issued
      ensures (Contents(), result) == Rejected(Configuration(), old(Contents()), id, m, reason, r)
      // With a publisher the message is terminated only once its envelope is out, complete with payload and reason.
      ensures issued != old(issued) ==> Announces(publisher, old(dlq), dlq, m, reason, DeliveryCount(r.metadata))
      // A publication that is not known to have worked leaves the message unsettled and ends the consumer.
      ensures publisher && !r.publish.Works? ==> issued == old(issued) && result != Settled
      ensures !publisher ==> dlq == old(dlq)
      ensures result == Settled ==>
              |issued| == |old(issued)| + 1 && issued[|old(issued)|] == Issue(id, Term, m.delivered, true)
    {
      if publisher {
        if Took(r.publish) {
          dlq := dlq + [Envelope(m, event, DeliveryCount(r.metadata), reason)];
        }
        if !r.publish.Works? {
          return After(r.publish);
        }
      }
      result := Settle(id, Term, m, r.settle);
    }

    /** The message as delivered, with the delivery already counted. */
    method ConsumeMessage(id: nat, m: Message, r: Receipt, calls: Calls) returns (result: Consumed, ghost a: Attempt)
      modifies this`dlq, this`issued, processor`rows, processor`synced, processor.engine, processor.alerts
      ensures a == AttemptOf(calls, a.evaluates, a.sync) && Weakened(a.sync, calls.sync)
      ensures (Contents(), result) == Consume(Configuration(), old(Contents()), id, m, a, r)
    {
      a := AttemptOf(calls, true, calls.sync);
      var event := Decoded(processor.codec.text, decode, m);
      if event.None? {
        result := RejectMessage(id, m, event, MalformedPayload, r);
        return;
      }
      var handled;
      handled, a := processor.HandleBatch(event.value, calls);
      match RulingOn(handled, DeliveryCount(r.metadata), Limit(maxDeliver)) {
        case Accept => result := Settle(id, Ack, m, r.settle);
        case Redeliver => result := Settle(id, Nak, m, r.settle);
        case Reject(reason) => result := RejectMessage(id, m, event, reason, r);
        case NoRuling => result := Gone;
      }
    }
  }
}

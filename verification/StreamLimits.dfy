/** What the stream protocol owes its delivery limit, and what it does not promise. */
module StreamLimits {
  import opened Wrappers
  import opened Sequences
  import opened Fields
  import opened Batches
  import opened Processor
  import opened Settlement
  import opened StreamRuns

  // ----- naks

  predicate LeavesDelivery(maxDeliver: int, delivery: nat) {
    maxDeliver <= 0 || delivery < maxDeliver
  }

  /** The delivery ended in a nak. */
  predicate Naks(before: Books, after: Books) {
    && |after.issued| == |before.issued| + 1 && before.issued <= after.issued
    && after.issued[|before.issued|].kind == Nak
  }

  lemma NakMeansRedeliver(cfg: Config, books: Books, id: nat, m: Message, a: Attempt, r: Receipt)
    requires Naks(books, Consume(cfg, books, id, m, a, r).0)
    ensures Limit(cfg.maxDeliver) <= 0 || DeliveryCount(r.metadata) < Limit(cfg.maxDeliver)
  {
  }

  /** A nak leaves the server a delivery, except on the last of several deliveries when the count cannot be read. */
  lemma {:induction false} NakLeavesDeliveryIff(cfg: Config, before: System, after: System, k: nat, a: Attempt,
                                                r: Receipt)
    requires StepTaken(cfg, before, after, Deliver(k, a, r)) && Naks(before.books, after.books)
    ensures var delivery := before.messages[k].delivered + 1;
            LeavesDelivery(cfg.maxDeliver, delivery) <==>
              !(r.metadata.None? && cfg.maxDeliver > 1 && delivery == cfg.maxDeliver)
  {
    NakMeansRedeliver(cfg, before.books, k, Delivered(before.messages[k]), a, r);
  }

  ghost predicate NaksInv(cfg: Config, books: Books) {
    forall i :: 0 <= i < |books.issued| && books.issued[i].kind == Nak ==>
      LeavesDelivery(cfg.maxDeliver, books.issued[i].delivery)
  }

  predicate Readable(steps: seq<Step>) {
    forall i :: 0 <= i < |steps| && steps[i].Deliver? ==> steps[i].receipt.metadata.Some?
  }

  lemma {:induction false} NaksLeaveDeliveries(cfg: Config, states: seq<System>, steps: seq<Step>, n: nat)
    requires Stamping(cfg) && Run(cfg, states, steps) && n <= |steps| && Readable(steps)
    ensures NaksInv(cfg, states[n].books)
  {
    if n > 0 {
      NaksLeaveDeliveries(cfg, states, steps, n - 1);
      RunStep(cfg, states, steps, n);
      StepKeepsNaks(cfg, states[n - 1], states[n], steps[n - 1]);
    }
  }

  lemma StepKeepsNaks(cfg: Config, before: System, after: System, step: Step)
    requires Stamping(cfg) && StepTaken(cfg, before, after, step) && NaksInv(cfg, before.books)
    requires step.Deliver? ==> step.receipt.metadata.Some?
    ensures NaksInv(cfg, after.books)
  {
    if step.Deliver? {
      var m := Delivered(before.messages[step.id]);
      ConsumeIssues(cfg, before.books, step.id, m, step.attempt, step.receipt);
      if after.books.issued != before.books.issued {
        var issue :| after.books.issued == before.books.issued + [issue] && issue.delivery == m.delivered;
        if issue.kind == Nak {
          NakLeavesDeliveryIff(cfg, before, after, step.id, step.attempt, step.receipt);
        }
      }
    }
  }

  // ----- progress

  predicate Survives(cfg: Config, books: Books, m: Message, a: Attempt) {
    match EventOf(cfg, m)
    case None => true
    case Some(b) => Handle(cfg.text, cfg.accept, books.log, b, a).1 != Died
  }

  /** A delivery that the process survives, with working settlement calls and a readable count, leaves its message
      settled for good or still to be delivered: none is forgotten. */
  lemma {:induction false} WorkingDeliverySettles(cfg: Config, before: System, after: System, k: nat, a: Attempt,
                                                  r: Receipt)
    requires StepTaken(cfg, before, after, Deliver(k, a, r))
    requires r.publish.Works? && r.settle.Works? && r.metadata.Some?
    requires Survives(cfg, before.books, Delivered(before.messages[k]), a)
    ensures after.messages[k].open ==> Deliverable(cfg, after.messages[k]) && Naks(before.books, after.books)
  {
    var m := Delivered(before.messages[k]);
    var issued := before.books.issued;
    var after' := Consume(cfg, before.books, k, m, a, r).0;
    assert |after'.issued| == |issued| + 1 && issued <= after'.issued && after'.issued[|issued|].took;
    if after.messages[k].open {
      NakLeavesDeliveryIff(cfg, before, after, k, a, r);
    }
  }

  // ----- the dead-letter publisher

  lemma {:induction false} NoPublisherNoEnvelopes(cfg: Config, states: seq<System>, steps: seq<Step>, n: nat)
    requires Run(cfg, states, steps) && n <= |steps| && !cfg.publisher
    ensures states[n].books.dlq == []
  {
    if n > 0 {
      NoPublisherNoEnvelopes(cfg, states, steps, n - 1);
      RunStep(cfg, states, steps, n);
    }
  }

  /** A terminated message has its dead-letter event exactly when a publisher is configured. */
  lemma TerminatedIsDeadLetteredIff(cfg: Config, states: seq<System>, steps: seq<Step>, n: nat, i: nat)
    requires Stamping(cfg) && Run(cfg, states, steps) && n <= |steps|
    requires i < |states[n].books.issued| && states[n].books.issued[i].kind == Term
    ensures var s := states[n];
            && s.books.issued[i].id < |s.messages|
            && (DeadLettered(s.books, s.messages[s.books.issued[i].id]) <==> cfg.publisher)
  {
    SettlementsAreSound(cfg, states, steps, n, i);
    if !cfg.publisher {
      NoPublisherNoEnvelopes(cfg, states, steps, n);
    }
  }

  // ----- closing and stranding

  /** The delivery takes its message off the stream. */
  predicate SettlesForGood(cfg: Config, ruling: Ruling, r: Receipt) {
    && Took(r.settle)
    && match ruling
       case Accept => true
       case Reject(_) => cfg.publisher ==> r.publish.Works?
       case _ => false
  }

  /** A message is closed by a delivery exactly when the ruling is final, the envelope it needs is known to be
      published, and the settlement call reaches the server. */
  lemma ClosedIff(cfg: Config, before: System, after: System, k: nat, a: Attempt, r: Receipt)
    requires StepTaken(cfg, before, after, Deliver(k, a, r))
    ensures !after.messages[k].open <==>
              SettlesForGood(cfg, RulingFor(cfg, before.books, Delivered(before.messages[k]), a, r), r)
  {
    var m := Delivered(before.messages[k]);
    match RulingFor(cfg, before.books, m, a, r) {
      case Accept =>
      case Redeliver =>
      case NoRuling =>
      case Reject(reason) =>
    }
  }

  predicate Stranded(cfg: Config, m: Message) {
    m.open && !Deliverable(cfg, m)
  }

  /** So the last delivery strands its message, neither settled nor delivered again, exactly when it does not settle
      it for good; any earlier delivery never does. */
  lemma StrandedIff(cfg: Config, before: System, after: System, k: nat, a: Attempt, r: Receipt)
    requires StepTaken(cfg, before, after, Deliver(k, a, r))
    ensures Stranded(cfg, after.messages[k]) <==>
              && cfg.maxDeliver > 0 && before.messages[k].delivered + 1 == cfg.maxDeliver
              && !SettlesForGood(cfg, RulingFor(cfg, before.books, Delivered(before.messages[k]), a, r), r)
  {
    ClosedIff(cfg, before, after, k, a, r);
  }

  // ----- stored but not synced

  /** The handling's sync goes through, after a write that is known to have worked. */
  predicate SyncGoesThrough(a: Attempt) {
    a.write.Works? && a.syncs && Took(a.sync)
  }

  lemma FirstWriteSyncsIff(text: Text, accept: Acceptance, log: Log, b: RawBatch, a: Attempt)
    requires SyncedOnce(log) && !Stored(log.rows, IdOf(b)) && Stored(Handle(text, accept, log, b, a).0.rows, IdOf(b))
    ensures IdOf(b) in Handle(text, accept, log, b, a).0.synced <==> SyncGoesThrough(a)
  {
  }

  /** The step that first stores the rows of an id. */
  ghost predicate StoresAt(states: seq<System>, steps: seq<Step>, i: nat, id: BatchId)
    requires |states| == |steps| + 1 && i < |steps|
  {
    steps[i].Deliver? && !Stored(states[i].books.log.rows, id) && Stored(states[i + 1].books.log.rows, id)
  }

  /** A step that does not first store an id leaves its entry in the sync log alone; the one that does decides it. */
  lemma StepSyncs(cfg: Config, before: System, after: System, step: Step, id: BatchId)
    requires Stamping(cfg) && LogInv(cfg, before) && StepTaken(cfg, before, after, step)
    ensures Stored(before.books.log.rows, id) || !Stored(after.books.log.rows, id) ==>
              (id in after.books.log.synced <==> id in before.books.log.synced)
    ensures !Stored(before.books.log.rows, id) && Stored(after.books.log.rows, id) ==>
              step.Deliver? && (id in after.books.log.synced <==> SyncGoesThrough(step.attempt))
  {
    if step.Deliver? {
      var event := EventOf(cfg, Delivered(before.messages[step.id]));
      if event.Some? {
        HandlingSyncs(cfg.text, cfg.accept, before.books.log, event.value, step.attempt, id);
      }
    }
  }

  lemma HandlingSyncs(text: Text, accept: Acceptance, log: Log, b: RawBatch, a: Attempt, id: BatchId)
    requires StampsRows(accept, b) && SyncedOnce(log)
    ensures var after := Handle(text, accept, log, b, a).0;
            if !Stored(log.rows, id) && Stored(after.rows, id) then id in after.synced <==> SyncGoesThrough(a)
            else id in after.synced <==> id in log.synced
  {
    var after := Handle(text, accept, log, b, a).0;
    HandleMoves(text, accept, log, b, a);
    if after != log {
      WrittenIsStored(accept, log.rows, b);
      MovedRowsOf(accept, log, after, b, id);
      NotStoredNoRows(log.rows, id);
      NotStoredNoRows(after.rows, id);
      FirstWriteSyncsIff(text, accept, log, b, a);
    }
  }

  /** Along every run the alert state of a stored batch has been synced exactly when the delivery that first stored
      its rows saw its write work and its sync go through: no later delivery makes up for it. */
  lemma {:induction false} StoredSyncedIff(cfg: Config, states: seq<System>, steps: seq<Step>, n: nat, id: BatchId)
      returns (i: nat)
    requires Stamping(cfg) && Run(cfg, states, steps) && n <= |steps| && Stored(states[n].books.log.rows, id)
    ensures i < n && StoresAt(states, steps, i, id)
    ensures id in states[n].books.log.synced <==> SyncGoesThrough(steps[i].attempt)
    decreases n
  {
    assert states[0].books.log.rows == [];
    RunKeepsInv(cfg, states, steps, n - 1);
    RunStep(cfg, states, steps, n);
    var before, after := states[n - 1], states[n];
    StepSyncs(cfg, before, after, steps[n - 1], id);
    if Stored(before.books.log.rows, id) {
      i := StoredSyncedIff(cfg, states, steps, n - 1, id);
    } else {
      i := n - 1;
    }
  }

  // ----- a blank ingest id

  /** A batch whose id is blank is accepted and then refused by the replay check, whatever works or fails. */
  lemma BlankIdRefused(text: Text, accept: Acceptance, log: Log, b: RawBatch, a: Attempt)
    requires accept(b).Some? && CheckRefuses(text, b)
    ensures Handle(text, accept, log, b, a) == (log, Retry)
  {
  }

  /** So it is dead-lettered by a delivery exactly when there is a publisher that works, at least as far as the
      envelope goes, and the delivery count read has reached the limit. */
  lemma BlankIdDeadLetteredIff(cfg: Config, before: System, after: System, k: nat, a: Attempt, r: Receipt)
    requires StepTaken(cfg, before, after, Deliver(k, a, r))
    requires var event := EventOf(cfg, before.messages[k]);
             event.Some? && cfg.accept(event.value).Some? && CheckRefuses(cfg.text, event.value)
    ensures var m := Delivered(before.messages[k]);
            var envelope := Envelope(m, EventOf(cfg, m), DeliveryCount(r.metadata), RetryExhausted);
            var exhausted := 0 < Limit(cfg.maxDeliver) <= DeliveryCount(r.metadata);
            && after.books.log == before.books.log
            && after.books.dlq == before.books.dlq +
               (if cfg.publisher && exhausted && Took(r.publish) then [envelope] else [])
            && (Naks(before.books, after.books) <==> !exhausted)
  {
    var m := Delivered(before.messages[k]);
    assert EventOf(cfg, m) == EventOf(cfg, before.messages[k]);
    BlankIdRefused(cfg.text, cfg.accept, before.books.log, EventOf(cfg, m).value, a);
    assert before.books.dlq + [] == before.books.dlq;
  }

  ghost predicate BlankIdsOut(cfg: Config, s: System) {
    && (forall id: BatchId :: cfg.text.trim(id.ingestId) == "" ==>
        !Stored(s.books.log.rows, id) && id !in s.books.log.synced)
    && (forall i :: 0 <= i < |s.books.issued| && s.books.issued[i].kind == Ack ==>
          var issue := s.books.issued[i];
          issue.id < |s.messages| && EventOf(cfg, s.messages[issue.id]).Some? &&
          !CheckRefuses(cfg.text, EventOf(cfg, s.messages[issue.id]).value))
  }

  lemma BlankIdNeverMoves(cfg: Config, log: Log, b: RawBatch, a: Attempt, id: BatchId)
    requires StampsRows(cfg.accept, b) && cfg.text.trim(id.ingestId) == "" && !Stored(log.rows, id)
    ensures !Stored(Handle(cfg.text, cfg.accept, log, b, a).0.rows, id)
  {
    var after := Handle(cfg.text, cfg.accept, log, b, a).0;
    HandleMoves(cfg.text, cfg.accept, log, b, a);
    if after != log {
      assert id != IdOf(b);
      MovedRowsOf(cfg.accept, log, after, b, id);
      NotStoredNoRows(log.rows, id);
      NotStoredNoRows(after.rows, id);
    }
  }

  /** Along every run nothing is ever stored or synced under a blank ingest id, and no message that carries one is
      acknowledged. */
  lemma {:induction false} BlankIdsNeverStored(cfg: Config, states: seq<System>, steps: seq<Step>, n: nat)
    requires Stamping(cfg) && Run(cfg, states, steps) && n <= |steps|
    ensures BlankIdsOut(cfg, states[n])
    decreases n
  {
    if n == 0 {
      assert states[0].books == Books(Log([], []), [], []);
    } else {
      BlankIdsNeverStored(cfg, states, steps, n - 1);
      RunKeepsInv(cfg, states, steps, n - 1);
      RunKeepsInv(cfg, states, steps, n);
      RunStep(cfg, states, steps, n);
      var before, after := states[n - 1], states[n];
      StepKeepsBlankIdsOut(cfg, before, after, steps[n - 1]);
    }
  }

  lemma StepKeepsBlankIdsOut(cfg: Config, before: System, after: System, step: Step)
    requires Stamping(cfg) && BlankIdsOut(cfg, before) && Inv(cfg, before) && Inv(cfg, after)
    requires StepTaken(cfg, before, after, step)
    ensures BlankIdsOut(cfg, after)
  {
    forall id: BatchId | cfg.text.trim(id.ingestId) == ""
      ensures !Stored(after.books.log.rows, id) && id !in after.books.log.synced
    {
      if step.Deliver? {
        var event := EventOf(cfg, Delivered(before.messages[step.id]));
        if event.Some? {
          BlankIdNeverMoves(cfg, before.books.log, event.value, step.attempt, id);
        }
      }
    }
    forall i | 0 <= i < |after.books.issued| && after.books.issued[i].kind == Ack
      ensures !CheckRefuses(cfg.text, EventOf(cfg, after.messages[after.books.issued[i].id]).value)
    {
      assert IssueMeans(cfg, after, after.books.issued[i]);
    }
  }
}

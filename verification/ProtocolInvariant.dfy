/** Every step keeps the protocol invariant. */
module ProtocolInvariant {
  import opened Common
  import opened RowScan
  import opened Validation
  import opened Importer
  import opened IntegrationStore
  import opened ApiStore
  import opened PartnerApi
  import opened IntegrationWorker
  import opened Protocol

  lemma TickKeeps(c: Config, s: State, elapsed: nat)
    requires Inv(c, s)
    ensures Inv(c, s.(now := s.now + elapsed))
  {
    hide CallsOk, WinnersOk, ImportsOk, ResultsOk, OutboxOk, DeliveriesOk, WritesOk, ReceiptsOk, RepliesOk;
  }

  // ---- Reserve ----

  lemma ReserveKeeps(c: Config, s: State, call: CallId, key: RequestKey, file: File, candidate: OperationId)
    requires Inv(c, s) && call !in s.calls && candidate !in s.operations
    ensures Inv(c, ApplyReserve(s, call, key, file, candidate))
  {
    hide ApiStore.Reserve, OperationsOk, CallsOk, WinnersOk, ImportsOk, ResultsOk, OutboxOk,
         EventsOk, DeliveriesOk, WritesOk, ReceiptsOk, RepliesOk;
    var (operations, reservation, i) := ApiStore.Reserve(s.operations, key, Sha256(file), candidate, s.now);
    ReserveKeepsOperations(s.operations, key, Sha256(file), candidate, s.now);
    FinishedStay(s.operations, operations, s.calls, s.outbox);
    if reservation.ShouldProcess() {
      ReserveAddsCall(s.operations, s.calls, call, key, file, candidate, s.now);
      NewCallHasNoResult(c, s.imports, operations, s.calls, call, Call(i, operations[i].attemptCount, file, Reserved));
    } else {
      ReservationUnchanged(s.operations, key, Sha256(file), candidate, s.now);
    }
  }

  /** Only the reserved row changes, and only if it was new or still processing. */
  predicate Undisturbed(before: Operations, after: Operations) {
    && (forall j | j in before :: j in after && (before[j].status.Done? ==> after[j] == before[j]))
    && (forall j | j in after && after[j].status.Done? :: j in before && after[j] == before[j])
    && (forall j | j in after && j in before :: after[j].request == before[j].request && after[j].key == before[j].key)
    && (forall j | j in after && j !in before :: !after[j].accepted)
    && (forall j | j in before :: after[j].accepted == before[j].accepted)
  }

  lemma ReserveKeepsOperations(operations: Operations, key: RequestKey, request: FileDigest, candidate: OperationId,
                               now: Timestamp)
    requires OperationsOk(operations, now) && candidate !in operations
    ensures var (after, reservation, i) := ApiStore.Reserve(operations, key, request, candidate, now);
            && OperationsOk(after, now) && Undisturbed(operations, after)
            && i in after
  {
    hide ApiStore.Reserve;
    var i := if Taken(operations, key) then Holder(operations, key) else candidate;
    ReservationDecided(operations, key, request, candidate, now, i);
    var (after, reservation, at) := ApiStore.Reserve(operations, key, request, candidate, now);
    match reservation
    case Created => assert OperationsOk(after, now);
    case Recovered => assert OperationsOk(after, now);
    case Replayed =>
  }

  lemma ReservationUnchanged(operations: Operations, key: RequestKey, request: FileDigest, candidate: OperationId,
                             now: Timestamp)
    requires !ApiStore.Reserve(operations, key, request, candidate, now).1.ShouldProcess()
    ensures ApiStore.Reserve(operations, key, request, candidate, now).0 == operations
  {}

  lemma FinishedStay(before: Operations, after: Operations, calls: map<CallId, Call>, outbox: Outbox)
    requires Undisturbed(before, after)
    ensures WinnersOk(before, calls) ==> WinnersOk(after, calls)
    ensures OutboxOk(before, outbox) ==> OutboxOk(after, outbox)
  {
    if OutboxOk(before, outbox) {
      forall e | e in outbox ensures after[outbox[e].operationId] == before[outbox[e].operationId] {
        assert Notifies(outbox[e], e, before[outbox[e].operationId]);
      }
    }
  }

  lemma ReserveAddsCall(operations: Operations, calls: map<CallId, Call>, call: CallId, key: RequestKey, file: File,
                        candidate: OperationId, now: Timestamp)
    requires OperationsOk(operations, now) && CallsOk(operations, calls) && call !in calls && candidate !in operations
    requires ApiStore.Reserve(operations, key, Sha256(file), candidate, now).1.ShouldProcess()
    ensures var (after, _, i) := ApiStore.Reserve(operations, key, Sha256(file), candidate, now);
            i in after && CallsOk(after, calls[call := Call(i, after[i].attemptCount, file, Reserved)])
  {
    var (after, _, i) := ApiStore.Reserve(operations, key, Sha256(file), candidate, now);
    var more := calls[call := Call(i, after[i].attemptCount, file, Reserved)];
    forall k | k in calls ensures !(calls[k].operation == i && calls[k].attempt == after[i].attemptCount) {
      assert calls[k].operation in operations;
    }
  }

  lemma NewCallHasNoResult(c: Config, t: Tables, operations: Operations, calls: map<CallId, Call>, call: CallId,
                           me: Call)
    requires call !in calls && me.phase.Reserved?
    ensures ResultsOk(c, t, calls) ==> ResultsOk(c, t, calls[call := me])
    ensures WinnersOk(operations, calls) ==> WinnersOk(operations, calls[call := me])
  {
    hide ResultOk;
    var more := calls[call := me];
    assert forall k, file :: Importing(more, k, file) <==> Importing(calls, k, file);
    assert forall k, i :: Winner(more, k, i) <==> Winner(calls, k, i);
  }

  // ---- Import ----

  lemma ImportKeeps(c: Config, s: State, call: CallId, batch: BatchId, fate: Fate)
    requires Inv(c, s) && call in s.calls && s.calls[call].phase.Reserved? && batch !in s.imports.batches
    requires fate.Aborts? ==> fate.outcome.DatabaseError? || fate.outcome.MigrationRequired?
    ensures Inv(c, ApplyImport(c, s, call, batch, fate))
  {
    hide ImportedFile, OperationsOk, CallsOk, WinnersOk, ImportsOk, ResultsOk, OutboxOk,
         EventsOk, DeliveriesOk, WritesOk, ReceiptsOk, RepliesOk;
    var me := s.calls[call];
    var (imports, result) := ImportedFile(c, s.imports, me.file, batch, fate);
    ImportedFileDecided(c, s.imports, me.file, batch, fate);
    RanKeepsCalls(s.operations, s.calls, call, result);
    RanKeepsResults(c, s.imports, imports, s.calls, call, result);
  }

  /** What one import step does to the tables and reports, whatever its fate. */
  lemma ImportedFileDecided(c: Config, t: Tables, file: File, batch: BatchId, fate: Fate)
    requires ImportsOk(c, t) && batch !in t.batches
    requires fate.Aborts? ==> fate.outcome.DatabaseError? || fate.outcome.MigrationRequired?
    ensures var (after, result) := ImportedFile(c, t, file, batch, fate);
            && ImportsOk(c, after) && Grows(t, after)
            && ResultOk(c, after, file, result)
            && (result.status.Imported? ==> !Known(t.batches, Sha256(file)))
  {
    hide Balanced, Checked, AllPresent, ImportRecords;
    var checked := Checked(c, file);
    if checked.Accepted() {
      CheckedRecordsDiffer(c, file);
      ImportOutcome(t, checked.records, Sha256(file), batch);
      ImportKeepsBooks(t, checked.records, Sha256(file), batch);
      AllOrNothing(t, checked.records, Sha256(file), batch);
      var (after, result) := ImportRecords(t, checked.records, Sha256(file), batch);
      if result.status.Imported? {
        assert ReportsBatch(after, file, result, batch);
      }
      PresentStays(c, t, after);
    }
  }

  /** The importer can rely on what validation accepts: distinct emails, rows in ascending order. */
  lemma CheckedRecordsDiffer(c: Config, file: File)
    requires Checked(c, file).Accepted()
    ensures DistinctEmails(Checked(c, file).records) && RowsAscend(Checked(c, file).records)
  {
    hide Validate;
    AcceptedIffClean(c.unicode, c.reader(file), MAX_ROWS);
  }

  /** Batches that were complete stay complete as the tables grow. */
  lemma PresentStays(c: Config, t: Tables, after: Tables)
    requires Grows(t, after)
    ensures forall b | b in t.batches && BatchComplete(c, t, b) :: b in after.batches && BatchComplete(c, after, b)
  {
    hide Checked;
  }

  lemma RanKeepsCalls(operations: Operations, calls: map<CallId, Call>, call: CallId, result: ImportResult)
    requires call in calls && calls[call].phase.Reserved?
    ensures var after := calls[call := calls[call].(phase := Ran(result))];
            && (CallsOk(operations, calls) ==> CallsOk(operations, after))
            && (WinnersOk(operations, calls) ==> WinnersOk(operations, after))
  {
    var after := calls[call := calls[call].(phase := Ran(result))];
    assert forall k, i :: Winner(after, k, i) <==> Winner(calls, k, i);
  }

  lemma ResultStaysOk(c: Config, t: Tables, after: Tables, file: File, result: ImportResult)
    requires Grows(t, after) && ResultOk(c, t, file, result)
    ensures ResultOk(c, after, file, result)
  {
    hide Checked;
    if Known(t.batches, Sha256(file)) {
      var b :| b in t.batches && t.batches[b].file == Sha256(file);
      assert b in after.batches && after.batches[b].file == Sha256(file);
    }
    if result.status.Imported? {
      var b :| ReportsBatch(t, file, result, b);
      assert ReportsBatch(after, file, result, b);
    }
  }

  lemma RanKeepsResults(c: Config, t: Tables, after: Tables, calls: map<CallId, Call>, call: CallId,
                        result: ImportResult)
    requires ResultsOk(c, t, calls) && call in calls && Grows(t, after)
    requires ResultOk(c, after, calls[call].file, result)
    requires result.status.Imported? ==> !Known(t.batches, Sha256(calls[call].file))
    ensures ResultsOk(c, after, calls[call := calls[call].(phase := Ran(result))])
  {
    hide ResultOk;
    var more := calls[call := calls[call].(phase := Ran(result))];
    forall k | k in more && more[k].HasResult()
      ensures ResultOk(c, after, more[k].file, more[k].phase.result)
    {
      if k != call { ResultStaysOk(c, t, after, calls[k].file, calls[k].phase.result); }
    }
    forall k, file | Importing(calls, k, file) ensures Known(t.batches, Sha256(file)) {
      ImportedIsKnown(c, t, file, calls[k].phase.result);
    }
    assert forall k, file | k != call :: Importing(more, k, file) ==> Importing(calls, k, file);
  }

  lemma ImportedIsKnown(c: Config, t: Tables, file: File, result: ImportResult)
    requires ResultOk(c, t, file, result) && (result.accepted || result.status.Imported?)
    ensures Known(t.batches, Sha256(file))
  {
    hide Checked;
  }

  // ---- Complete ----

  lemma CompleteKeeps(c: Config, s: State, call: CallId, durationMs: nat, event: EventId)
    requires Inv(c, s) && c.policy.Valid() && call in s.calls && s.calls[call].phase.Ran? && event !in s.outbox
    ensures Inv(c, ApplyComplete(s, call, durationMs, event))
  {
    hide OperationsOk, CallsOk, WinnersOk, ImportsOk, ResultsOk, OutboxOk,
         EventsOk, DeliveriesOk, WritesOk, ReceiptsOk, RepliesOk;
    var me := s.calls[call];
    var result := me.phase.result;
    var won := OwnsOperation(s.operations, me.operation, me.attempt);
    FinishKeepsResults(c, s.imports, s.calls, call, won);
    CallHasGoodResult(c, s.imports, s.calls, call);
    CompleteKeepsOperations(s.operations, s.calls, call, durationMs, s.now);
    if won {
      CompleteKeepsOutbox(s.operations, s.outbox, me.operation,
                          Completed(s.operations[me.operation], result, durationMs), result, event, s.now);
      if result.accepted {
        NotYetEnqueued(s.operations, s.outbox, s.now, me.operation);
        var row := NewEvent(PayloadFor(event, me.operation, result, s.now), s.now);
        NewEventKeepsRest(c.policy, s.outbox, s.partner, s.deliveries, event, row, s.now);
      }
    }
  }

  lemma CallHasGoodResult(c: Config, t: Tables, calls: map<CallId, Call>, call: CallId)
    requires ResultsOk(c, t, calls) && call in calls && calls[call].HasResult()
    ensures ResultOk(c, t, calls[call].file, calls[call].phase.result)
  {
    hide ResultOk;
  }

  lemma FinishKeepsResults(c: Config, t: Tables, calls: map<CallId, Call>, call: CallId, won: bool)
    requires ResultsOk(c, t, calls) && call in calls && calls[call].phase.Ran?
    ensures ResultsOk(c, t, calls[call := calls[call].(phase := Finished(calls[call].phase.result, won))])
  {
    hide ResultOk;
    var after := calls[call := calls[call].(phase := Finished(calls[call].phase.result, won))];
    assert forall k, file :: Importing(after, k, file) <==> Importing(calls, k, file);
  }

  /** The fenced update, and the call that made it or came too late. */
  lemma CompleteKeepsOperations(operations: Operations, calls: map<CallId, Call>, call: CallId, durationMs: nat,
                                now: Timestamp)
    requires OperationsOk(operations, now) && CallsOk(operations, calls) && WinnersOk(operations, calls)
    requires call in calls && calls[call].phase.Ran?
    ensures var me := calls[call];
            var won := OwnsOperation(operations, me.operation, me.attempt);
            var calls' := calls[call := me.(phase := Finished(me.phase.result, won))];
            var after := if won then
                           operations[me.operation := Completed(operations[me.operation], me.phase.result, durationMs)]
                         else operations;
            OperationsOk(after, now) && CallsOk(after, calls') && WinnersOk(after, calls')
  {
    hide OperationsOk, CallsOk, WinnersOk;
    var me := calls[call];
    if OwnsOperation(operations, me.operation, me.attempt) {
      var row := Completed(operations[me.operation], me.phase.result, durationMs);
      FinishedRowKeepsOperations(operations, me.operation, row, now);
      FinishKeepsCalls(operations, calls, call, row, true);
      FinishAddsWinner(operations, calls, call, row);
    } else {
      LateFinishKeeps(operations, calls, call);
    }
  }

  lemma FinishedRowKeepsOperations(operations: Operations, i: OperationId, row: Operation, now: Timestamp)
    requires OperationsOk(operations, now) && i in operations && row.key == operations[i].key
    requires row.attemptCount == operations[i].attemptCount && row.leaseExpiresAt == operations[i].leaseExpiresAt
    requires row.status.Done?
    ensures OperationsOk(operations[i := row], now)
  {}

  lemma FinishKeepsCalls(operations: Operations, calls: map<CallId, Call>, call: CallId, row: Operation, won: bool)
    requires CallsOk(operations, calls) && call in calls && calls[call].phase.Ran?
    requires calls[call].operation in operations
    requires row.attemptCount == operations[calls[call].operation].attemptCount
    requires row.request == operations[calls[call].operation].request
    ensures CallsOk(operations[calls[call].operation := row],
                    calls[call := calls[call].(phase := Finished(calls[call].phase.result, won))])
  {}

  lemma FinishAddsWinner(operations: Operations, calls: map<CallId, Call>, call: CallId, row: Operation)
    requires WinnersOk(operations, calls) && call in calls && calls[call].phase.Ran?
    requires OwnsOperation(operations, calls[call].operation, calls[call].attempt)
    requires Shows(row, calls[call].phase.result) && row.attemptCount == calls[call].attempt
    ensures WinnersOk(operations[calls[call].operation := row],
                      calls[call := calls[call].(phase := Finished(calls[call].phase.result, true))])
  {
    var at := calls[call].operation;
    var after := calls[call := calls[call].(phase := Finished(calls[call].phase.result, true))];
    assert forall k :: !Winner(calls, k, at);
    assert forall k, i :: Winner(after, k, i) <==> Winner(calls, k, i) || (k == call && i == at);
    forall i | i in operations && i != at && operations[i].status.Done? ensures exists k :: Winner(after, k, i) {
      var k :| Winner(calls, k, i);
      assert Winner(after, k, i);
    }
    assert Winner(after, call, at);
  }

  lemma LateFinishKeeps(operations: Operations, calls: map<CallId, Call>, call: CallId)
    requires CallsOk(operations, calls) && WinnersOk(operations, calls) && call in calls && calls[call].phase.Ran?
    ensures var after := calls[call := calls[call].(phase := Finished(calls[call].phase.result, false))];
            CallsOk(operations, after) && WinnersOk(operations, after)
  {
    var after := calls[call := calls[call].(phase := Finished(calls[call].phase.result, false))];
    assert forall k, i :: Winner(after, k, i) <==> Winner(calls, k, i);
  }

  lemma NotYetEnqueued(operations: Operations, outbox: Outbox, now: Timestamp, i: OperationId)
    requires OutboxOk(operations, outbox) && OperationsOk(operations, now)
    requires i in operations && operations[i].status.Processing?
    ensures !Enqueued(outbox, i)
  {}

  lemma CompleteKeepsOutbox(operations: Operations, outbox: Outbox, i: OperationId, row: Operation,
                            result: ImportResult, event: EventId, now: Timestamp)
    requires OutboxOk(operations, outbox) && OperationsOk(operations, now) && event !in outbox
    requires i in operations && operations[i].status.Processing? && Shows(row, result)
    ensures var payload := PayloadFor(event, i, result, now);
            OutboxOk(operations[i := row], if result.accepted then outbox[event := NewEvent(payload, now)] else outbox)
  {
    NotYetEnqueued(operations, outbox, now, i);
    var after := operations[i := row];
    var more := if result.accepted then outbox[event := NewEvent(PayloadFor(event, i, result, now), now)] else outbox;
    forall j | j in after && after[j].accepted ensures Enqueued(more, j) {
      if j == i {
        assert more[event].operationId == i;
      } else {
        var e :| e in outbox && outbox[e].operationId == j;
        assert e in more && more[e].operationId == j;
      }
    }
  }

  lemma NewEventKeepsRest(policy: RetryPolicy, outbox: Outbox, partner: PartnerTables,
                          deliveries: map<DeliveryId, Delivery>,
                          event: EventId, row: OutboxEvent, now: Timestamp)
    requires policy.Valid() && event !in outbox && row == NewEvent(row.payload, now)
    requires EventsOk(outbox, policy, now) && DeliveriesOk(outbox, deliveries)
    requires WritesOk(outbox, deliveries) && ReceiptsOk(outbox, partner)
    ensures var more := outbox[event := row];
            EventsOk(more, policy, now) && DeliveriesOk(more, deliveries) && WritesOk(more, deliveries)
                && ReceiptsOk(more, partner)
  {
    hide CanonicalBody;
  }

  // ---- Claim ----

  lemma ClaimKeeps(c: Config, s: State, delivery: DeliveryId, event: EventId, locked: set<EventId>)
    requires Inv(c, s) && delivery !in s.deliveries && Candidate(s.outbox, s.now, locked, event)
    ensures Inv(c, ApplyClaim(c, s, delivery, event))
  {
    hide OperationsOk, CallsOk, WinnersOk, ImportsOk, ResultsOk, OutboxOk,
         EventsOk, DeliveriesOk, WritesOk, ReceiptsOk, RepliesOk;
    var row := Claimed(s.outbox[event], s.now, c.policy.leaseSeconds);
    SamePayloadKeepsOutbox(s.operations, s.outbox, s.partner, event, row);
    ClaimKeepsEvents(c.policy, s.outbox, s.deliveries, delivery, event, s.now);
    ClaimKeepsReplies(s.partner, s.deliveries, delivery, Delivery(ClaimedEvent(event, row), [], Open));
  }

  /** A row update that keeps identity and payload, and does not deliver, disturbs no other table. */
  lemma SamePayloadKeepsOutbox(operations: Operations, outbox: Outbox, partner: PartnerTables, e: EventId,
                               row: OutboxEvent)
    requires OutboxOk(operations, outbox) && ReceiptsOk(outbox, partner)
    requires e in outbox && row.operationId == outbox[e].operationId && row.payload == outbox[e].payload
    requires row.status.Delivered? ==> e in partner.receipts
    ensures OutboxOk(operations, outbox[e := row]) && ReceiptsOk(outbox[e := row], partner)
  {
    SamePayloadKeepsNotifications(operations, outbox, e, row);
    SamePayloadKeepsReceipts(outbox, partner, e, row);
  }

  lemma SamePayloadKeepsReceipts(outbox: Outbox, partner: PartnerTables, e: EventId, row: OutboxEvent)
    requires ReceiptsOk(outbox, partner)
    requires e in outbox && row.payload == outbox[e].payload && (row.status.Delivered? ==> e in partner.receipts)
    ensures ReceiptsOk(outbox[e := row], partner)
  {
    hide CanonicalBody;
  }

  lemma SamePayloadKeepsNotifications(operations: Operations, outbox: Outbox, e: EventId, row: OutboxEvent)
    requires OutboxOk(operations, outbox)
    requires e in outbox && row.operationId == outbox[e].operationId && row.payload == outbox[e].payload
    ensures OutboxOk(operations, outbox[e := row])
  {
    var after := outbox[e := row];
    assert forall x | x in outbox :: after[x].operationId == outbox[x].operationId;
    forall i | i in operations && operations[i].accepted ensures Enqueued(after, i) {
      var x :| x in outbox && outbox[x].operationId == i;
      assert x in after && after[x].operationId == i;
    }
  }

  lemma ClaimKeepsEvents(policy: RetryPolicy, outbox: Outbox, deliveries: map<DeliveryId, Delivery>,
                         delivery: DeliveryId, e: EventId, now: Timestamp)
    requires EventsOk(outbox, policy, now) && DeliveriesOk(outbox, deliveries) && WritesOk(outbox, deliveries)
    requires delivery !in deliveries && e in outbox && Claimable(outbox[e], now)
    ensures var row := Claimed(outbox[e], now, policy.leaseSeconds);
            var more := deliveries[delivery := Delivery(ClaimedEvent(e, row), [], Open)];
            && EventsOk(outbox[e := row], policy, now)
            && DeliveriesOk(outbox[e := row], more) && WritesOk(outbox[e := row], more)
  {
    hide WritesOk;
    var row := Claimed(outbox[e], now, policy.leaseSeconds);
    var more := deliveries[delivery := Delivery(ClaimedEvent(e, row), [], Open)];
    AttemptsBelow(outbox, deliveries, e, row.attemptCount);
    ClaimKeepsWrites(outbox, deliveries, delivery, e, row);
  }

  /** No delivery holds an attempt number that was not given out yet. */
  lemma AttemptsBelow(outbox: Outbox, deliveries: map<DeliveryId, Delivery>, e: EventId, attempt: nat)
    requires DeliveriesOk(outbox, deliveries) && e in outbox && attempt == outbox[e].attemptCount + 1
    ensures forall d | d in deliveries && deliveries[d].event.eventId == e ::
              deliveries[d].event.row.attemptCount < attempt
  {}

  lemma ClaimKeepsWrites(outbox: Outbox, deliveries: map<DeliveryId, Delivery>, delivery: DeliveryId, e: EventId,
                         row: OutboxEvent)
    requires WritesOk(outbox, deliveries) && delivery !in deliveries && e in outbox
    requires !outbox[e].Finished() && row.status.Delivering?
    requires forall d | d in deliveries && deliveries[d].event.eventId == e ::
              deliveries[d].event.row.attemptCount < row.attemptCount
    ensures WritesOk(outbox[e := row], deliveries[delivery := Delivery(ClaimedEvent(e, row), [], Open)])
  {
    var after := outbox[e := row];
    var more := deliveries[delivery := Delivery(ClaimedEvent(e, row), [], Open)];
    assert forall d, x, attempt, status ::
        Wrote(more, d, x, attempt, status) <==> Wrote(deliveries, d, x, attempt, status);
    forall x | x in after && after[x].Finished()
      ensures exists d :: Wrote(more, d, x, after[x].attemptCount, after[x].status)
    {
      var d :| Wrote(deliveries, d, x, outbox[x].attemptCount, outbox[x].status);
      assert Wrote(more, d, x, after[x].attemptCount, after[x].status);
    }
  }

  lemma ClaimKeepsReplies(partner: PartnerTables, deliveries: map<DeliveryId, Delivery>, delivery: DeliveryId,
                          d: Delivery)
    requires RepliesOk(partner, deliveries) && delivery !in deliveries && d.replies == []
    ensures RepliesOk(partner, deliveries[delivery := d])
  {}

  // ---- Receive ----

  lemma ReceiveKeeps(c: Config, s: State, delivery: DeliveryId)
    requires Inv(c, s) && delivery in s.deliveries
    ensures Inv(c, ApplyReceive(c, s, delivery))
  {
    hide Record, CanonicalBody, OperationsOk, CallsOk, WinnersOk, ImportsOk, ResultsOk, OutboxOk,
         EventsOk, DeliveriesOk, WritesOk, ReceiptsOk, RepliesOk;
    ReceiveKeepsPartner(c, s.outbox, s.partner, s.deliveries, delivery);
    var d := s.deliveries[delivery];
    var (_, reply) := Record(s.partner, d.event.eventId, Sha256(CanonicalBody(d.event.row.payload)),
                             c.simulatedFailures);
    RepliesKeepDeliveries(s.outbox, s.deliveries, delivery, d.replies + [reply]);
  }

  lemma ReceiveKeepsPartner(c: Config, outbox: Outbox, partner: PartnerTables, deliveries: map<DeliveryId, Delivery>,
                            delivery: DeliveryId)
    requires ReceiptsOk(outbox, partner) && RepliesOk(partner, deliveries) && DeliveriesOk(outbox, deliveries)
    requires delivery in deliveries
    ensures var d := deliveries[delivery];
            var (after, reply) := Record(partner, d.event.eventId, Sha256(CanonicalBody(d.event.row.payload)),
                                         c.simulatedFailures);
            && ReceiptsOk(outbox, after)
            && RepliesOk(after, deliveries[delivery := d.(replies := d.replies + [reply])])
  {
    hide CanonicalBody;
  }

  lemma RepliesKeepDeliveries(outbox: Outbox, deliveries: map<DeliveryId, Delivery>, delivery: DeliveryId,
                              replies: seq<Reply>)
    requires DeliveriesOk(outbox, deliveries) && WritesOk(outbox, deliveries) && delivery in deliveries
    ensures var after := deliveries[delivery := deliveries[delivery].(replies := replies)];
            DeliveriesOk(outbox, after) && WritesOk(outbox, after)
  {
    var after := deliveries[delivery := deliveries[delivery].(replies := replies)];
    assert forall d, e, attempt, status ::
        Wrote(after, d, e, attempt, status) <==> Wrote(deliveries, d, e, attempt, status);
  }

  // ---- Settle ----

  lemma SettleKeeps(c: Config, s: State, delivery: DeliveryId, seen: Observation)
    requires Inv(c, s) && c.policy.Valid()
    requires delivery in s.deliveries && s.deliveries[delivery].phase.Open? && Credible(s.deliveries[delivery], seen)
    ensures Inv(c, ApplySettle(c, s, delivery, seen))
  {
    hide DeliverEvent, Credible, EventOk, OperationsOk, CallsOk, WinnersOk, ImportsOk, ResultsOk, OutboxOk,
         DeliveriesOk, WritesOk, ReceiptsOk, RepliesOk;
    var d := s.deliveries[delivery];
    var e, attempt := d.event.eventId, d.event.row.attemptCount;
    if Owns(s.outbox, e, attempt) {
      var row := SettledRow(s.outbox[e], seen, c.policy, s.now);
      SettledRowOk(s.outbox[e], seen, c.policy, s.now);
      CredibleMeansReceipt(s.partner, s.deliveries, delivery, seen);
      SamePayloadKeepsOutbox(s.operations, s.outbox, s.partner, e, row);
      SettleKeepsWrites(c.policy, s.outbox, s.deliveries, delivery, row, s.now);
      CloseKeepsReplies(s.partner, s.deliveries, delivery, Closed(Some(row.status)));
    } else {
      StaleKeepsWrites(s.outbox, s.deliveries, delivery);
      CloseKeepsReplies(s.partner, s.deliveries, delivery, Closed(None));
    }
  }

  /** The row that the owner of an attempt leaves behind. */
  function SettledRow(row: OutboxEvent, seen: Observation, policy: RetryPolicy, now: Timestamp): OutboxEvent {
    match DeliverEvent(seen)
    case DeliveredResult => row.(status := Delivered, leaseExpiresAt := None, deliveredAt := Some(now))
    case FailedResult(retryable, error) => FailedRow(row, error, retryable, policy, now)
  }

  lemma SettledRowOk(row: OutboxEvent, seen: Observation, policy: RetryPolicy, now: Timestamp)
    requires policy.Valid() && row.status.Delivering?
    ensures var after := SettledRow(row, seen, policy, now);
            && after.operationId == row.operationId && after.payload == row.payload
            && after.attemptCount == row.attemptCount && !after.status.Delivering?
            && (after.status.Delivered? <==> DeliverEvent(seen).DeliveredResult?)
            && (EventOk(row, policy, now) ==> EventOk(after, policy, now))
  {
    hide DeliverEvent, BackoffSeconds;
  }

  lemma CredibleMeansReceipt(partner: PartnerTables, deliveries: map<DeliveryId, Delivery>, delivery: DeliveryId,
                             seen: Observation)
    requires RepliesOk(partner, deliveries) && delivery in deliveries && Credible(deliveries[delivery], seen)
    ensures DeliverEvent(seen).DeliveredResult? ==> deliveries[delivery].event.eventId in partner.receipts
  {}

  lemma SettleKeepsWrites(policy: RetryPolicy, outbox: Outbox, deliveries: map<DeliveryId, Delivery>,
                          delivery: DeliveryId, row: OutboxEvent, now: Timestamp)
    requires EventsOk(outbox, policy, now) && DeliveriesOk(outbox, deliveries) && WritesOk(outbox, deliveries)
    requires delivery in deliveries && deliveries[delivery].phase.Open?
    requires Owns(outbox, deliveries[delivery].event.eventId, deliveries[delivery].event.row.attemptCount)
    requires row.payload == outbox[deliveries[delivery].event.eventId].payload && !row.status.Delivering?
    requires row.attemptCount == outbox[deliveries[delivery].event.eventId].attemptCount && EventOk(row, policy, now)
    ensures var after := outbox[deliveries[delivery].event.eventId := row];
            var more := deliveries[delivery := deliveries[delivery].(phase := Closed(Some(row.status)))];
            EventsOk(after, policy, now) && DeliveriesOk(after, more) && WritesOk(after, more)
  {
    var e := deliveries[delivery].event.eventId;
    var after := outbox[e := row];
    var more := deliveries[delivery := deliveries[delivery].(phase := Closed(Some(row.status)))];
    assert forall d, x, attempt, status :: Wrote(more, d, x, attempt, status) <==>
             Wrote(deliveries, d, x, attempt, status)
             || (d == delivery && x == e && attempt == row.attemptCount && status == row.status);
    assert Wrote(more, delivery, e, row.attemptCount, row.status);
    forall x | x in after && after[x].Finished()
      ensures exists d :: Wrote(more, d, x, after[x].attemptCount, after[x].status)
    {
      if x != e {
        var d :| Wrote(deliveries, d, x, outbox[x].attemptCount, outbox[x].status);
        assert Wrote(more, d, x, after[x].attemptCount, after[x].status);
      }
    }
  }

  lemma StaleKeepsWrites(outbox: Outbox, deliveries: map<DeliveryId, Delivery>, delivery: DeliveryId)
    requires DeliveriesOk(outbox, deliveries) && WritesOk(outbox, deliveries)
    requires delivery in deliveries && deliveries[delivery].phase.Open?
    ensures var more := deliveries[delivery := deliveries[delivery].(phase := Closed(None))];
            DeliveriesOk(outbox, more) && WritesOk(outbox, more)
  {
    var more := deliveries[delivery := deliveries[delivery].(phase := Closed(None))];
    assert forall d, x, attempt, status ::
        Wrote(more, d, x, attempt, status) <==> Wrote(deliveries, d, x, attempt, status);
  }

  lemma CloseKeepsReplies(partner: PartnerTables, deliveries: map<DeliveryId, Delivery>, delivery: DeliveryId,
                          phase: DeliveryPhase)
    requires RepliesOk(partner, deliveries) && delivery in deliveries
    ensures RepliesOk(partner, deliveries[delivery := deliveries[delivery].(phase := phase)])
  {}

  // ---- All steps, all runs ----

  lemma StepKeeps(c: Config, s: State, step: Step)
    requires c.policy.Valid() && Inv(c, s) && Enabled(s, step)
    ensures Inv(c, Apply(c, s, step))
  {
    hide Inv, ApplyReserve, ApplyImport, ApplyComplete, ApplyClaim, ApplyReceive, ApplySettle;
    match step
    case Tick(elapsed) => TickKeeps(c, s, elapsed);
    case Reserve(call, key, file, candidate) => ReserveKeeps(c, s, call, key, file, candidate);
    case RunImport(call, batch, fate) => ImportKeeps(c, s, call, batch, fate);
    case Complete(call, durationMs, event) => CompleteKeeps(c, s, call, durationMs, event);
    case Claim(delivery, event, locked) => ClaimKeeps(c, s, delivery, event, locked);
    case Receive(delivery) => ReceiveKeeps(c, s, delivery);
    case Settle(delivery, seen) => SettleKeeps(c, s, delivery, seen);
  }

  lemma InitOk(c: Config, now: Timestamp)
    ensures Inv(c, Init(now))
  {}

  lemma {:induction false} RunKeeps(c: Config, s: State, steps: seq<Step>)
    requires c.policy.Valid() && Inv(c, s) && Allowed(c, s, steps)
    ensures Inv(c, Run(c, s, steps))
    decreases |steps|
  {
    hide Inv, Apply;
    if steps != [] {
      StepKeeps(c, s, steps[0]);
      RunKeeps(c, Apply(c, s, steps[0]), steps[1..]);
    }
  }

  /** In every reachable state the invariant holds. */
  lemma ReachableOk(c: Config, s: State)
    requires c.policy.Valid() && Reachable(c, s)
    ensures Inv(c, s)
  {
    hide Inv, Apply;
    var now, steps :| Allowed(c, Init(now), steps) && s == Run(c, Init(now), steps);
    InitOk(c, now);
    RunKeeps(c, Init(now), steps);
  }

  // ---- Putting runs together ----

  lemma StepFirst(c: Config, s: State, step: Step, rest: seq<Step>)
    requires Enabled(s, step) && Allowed(c, Apply(c, s, step), rest)
    ensures Allowed(c, s, [step] + rest) && Run(c, s, [step] + rest) == Run(c, Apply(c, s, step), rest)
  {
    hide Enabled, Apply;
    assert ([step] + rest)[0] == step && ([step] + rest)[1..] == rest;
  }

  lemma {:induction false} RunAppend(c: Config, s: State, first: seq<Step>, second: seq<Step>)
    requires Allowed(c, s, first) && Allowed(c, Run(c, s, first), second)
    ensures Allowed(c, s, first + second) && Run(c, s, first + second) == Run(c, Run(c, s, first), second)
    decreases |first|
  {
    hide Apply, Enabled;
    if first == [] {
      assert first + second == second;
    } else {
      RunAppend(c, Apply(c, s, first[0]), first[1..], second);
      assert (first + second)[1..] == first[1..] + second;
    }
  }

  lemma ReachableGrows(c: Config, s: State, steps: seq<Step>)
    requires Reachable(c, s) && Allowed(c, s, steps)
    ensures Reachable(c, Run(c, s, steps))
  {
    hide Apply, Enabled;
    var now, before :| Allowed(c, Init(now), before) && s == Run(c, Init(now), before);
    RunAppend(c, Init(now), before, steps);
    assert Allowed(c, Init(now), before + steps);
  }

  lemma InitIsReachable(c: Config, now: Timestamp)
    ensures Reachable(c, Init(now))
  {
    assert Allowed(c, Init(now), []) && Run(c, Init(now), []) == Init(now);
  }

  lemma ReachableStep(c: Config, s: State, step: Step)
    requires Reachable(c, s) && Enabled(s, step)
    ensures Reachable(c, Apply(c, s, step))
  {
    hide Apply, Enabled, Reachable;
    var next := Apply(c, s, step);
    assert [step][1..] == [] && Allowed(c, next, []) && Run(c, next, []) == next;
    ReachableGrows(c, s, [step]);
  }
}

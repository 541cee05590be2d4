/** What holds in every reachable state of the protocol, and what no run can undo. */
module ProtocolSafety {
  import opened Common
  import opened Counting
  import opened Importer
  import opened IntegrationStore
  import opened ApiStore
  import opened PartnerApi
  import opened IntegrationWorker
  import opened Protocol
  import opened ProtocolInvariant

  // ---- From receipt to customers ----

  /** The records of the file are customers, and exactly one committed batch says so. */
  ghost predicate FileIsImported(c: Config, t: Tables, file: File) {
    && Checked(c, file).Accepted()
    && AllPresent(Checked(c, file).records, t.customers)
    && (exists b :: b in t.batches && t.batches[b].file == Sha256(file)
                    && t.batches[b].rowCount == |Checked(c, file).records|
                    && forall x | x in t.batches && t.batches[x].file == Sha256(file) :: x == b)
  }

  /** Accepted means done: the operation's own file is imported and its counts add up. */
  lemma AcceptedMeansImported(c: Config, s: State, i: OperationId)
    requires c.policy.Valid() && Reachable(c, s)
    requires i in s.operations && s.operations[i].accepted
    ensures var op := s.operations[i];
            && FileIsImported(c, s.imports, op.request.preimage)
            && op.totalRows == |Checked(c, op.request.preimage).records|
            && op.insertedRows + op.existingRows == op.totalRows
            && (op.status == Done(Imported) || (op.status == Done(AlreadyImported) && op.insertedRows == 0))
  {
    hide Checked, Reachable, AllPresent;
    ReachableOk(c, s);
    var k := WinnerOf(c, s, i);
    var file := s.calls[k].file;
    assert ResultOk(c, s.imports, file, s.calls[k].phase.result);
    var b :| b in s.imports.batches && s.imports.batches[b].file == Sha256(file);
    assert BatchComplete(c, s.imports, b);
  }

  lemma WinnerOf(c: Config, s: State, i: OperationId) returns (k: CallId)
    requires Inv(c, s) && i in s.operations && s.operations[i].status.Done?
    ensures Winner(s.calls, k, i) && Shows(s.operations[i], s.calls[k].phase.result)
    ensures s.operations[i].request == Sha256(s.calls[k].file)
  {
    hide ImportsOk, ResultsOk, OutboxOk, EventsOk, DeliveriesOk, WritesOk, ReceiptsOk, RepliesOk;
    k :| Winner(s.calls, k, i);
  }

  /** A receipt at the partner is a chain of evidence down to the customers themselves. */
  lemma ReceiptMeansImported(c: Config, s: State, e: EventId)
    requires c.policy.Valid() && Reachable(c, s)
    requires e in s.partner.receipts
    ensures e in s.outbox && s.outbox[e].operationId in s.operations
    ensures var row := s.outbox[e];
            var op := s.operations[row.operationId];
            && s.partner.receipts[e] == Sha256(CanonicalBody(row.payload))
            && op.accepted && op.status == Done(row.payload.importStatus)
            && op.totalRows == row.payload.totalRows && op.insertedRows == row.payload.insertedRows
            && op.existingRows == row.payload.existingRows
            && FileIsImported(c, s.imports, op.request.preimage)
  {
    hide Checked, Reachable, CanonicalBody, FileIsImported;
    ReachableOk(c, s);
    AcceptedMeansImported(c, s, s.outbox[e].operationId);
  }

  /** `delivered` is never claimed without a receipt, and the partner never sees a changed body. */
  lemma DeliveredMeansReceived(c: Config, s: State)
    requires c.policy.Valid() && Reachable(c, s)
    ensures forall e | e in s.outbox && s.outbox[e].status.Delivered? :: e in s.partner.receipts
    ensures forall d, i | d in s.deliveries && 0 <= i < |s.deliveries[d].replies| ::
              !s.deliveries[d].replies[i].BodyConflict?
  {
    hide Checked, Reachable, CanonicalBody;
    ReachableOk(c, s);
  }

  // ---- Outbox completeness ----

  /** An operation is accepted if and only if exactly one notification exists for it. */
  lemma OneEventPerAcceptedOperation(c: Config, s: State, i: OperationId)
    requires c.policy.Valid() && Reachable(c, s)
    ensures (i in s.operations && s.operations[i].accepted) <==>
            exists e :: && e in s.outbox && s.outbox[e].operationId == i
                        && forall f | f in s.outbox && s.outbox[f].operationId == i :: f == e
  {
    hide Reachable, OutboxOk, CallsOk, WinnersOk, ImportsOk, ResultsOk, EventsOk, DeliveriesOk, WritesOk, ReceiptsOk,
        RepliesOk;
    ReachableOk(c, s);
    NotificationsCorrespond(s.operations, s.outbox, i);
  }

  lemma NotificationsCorrespond(operations: Operations, outbox: Outbox, i: OperationId)
    requires OutboxOk(operations, outbox)
    ensures (i in operations && operations[i].accepted) <==>
            exists e :: && e in outbox && outbox[e].operationId == i
                        && forall f | f in outbox && outbox[f].operationId == i :: f == e
  {
    if i in operations && operations[i].accepted {
      var e :| e in outbox && outbox[e].operationId == i;
      assert forall f | f in outbox && outbox[f].operationId == i :: f == e;
    }
  }

  // ---- Conservation ----

  function RowsOf(operations: Operations): OperationId -> nat {
    i => if i in operations then operations[i].insertedRows else 0
  }

  ghost function InsertedRows(operations: Operations): nat {
    Sum(operations.Keys, RowsOf(operations))
  }

  /** Two operations on the same file cannot both have imported it. */
  lemma OneImportPerFile(c: Config, s: State, i: OperationId, j: OperationId)
    requires c.policy.Valid() && Reachable(c, s)
    requires i in s.operations && j in s.operations && s.operations[i].request == s.operations[j].request
    requires s.operations[i].status == Done(Imported) && s.operations[j].status == Done(Imported)
    ensures i == j
  {
    hide Checked, Reachable, CanonicalBody, Balanced;
    ReachableOk(c, s);
    var k := WinnerOf(c, s, i);
    var l := WinnerOf(c, s, j);
    assert Importing(s.calls, k, s.calls[k].file) && Importing(s.calls, l, s.calls[k].file);
  }

  /** The batch behind an operation that inserted rows. */
  lemma InsertingHasBatch(c: Config, s: State, i: OperationId)
    requires Inv(c, s) && i in s.operations && s.operations[i].insertedRows > 0
    ensures s.operations[i].status == Done(Imported)
    ensures exists b :: b in s.imports.batches && s.imports.batches[b].file == s.operations[i].request
                        && s.imports.batches[b].insertedCount == s.operations[i].insertedRows
  {
    hide Checked, CanonicalBody, Balanced;
    var k := WinnerOf(c, s, i);
    var result := s.calls[k].phase.result;
    assert ResultOk(c, s.imports, s.calls[k].file, result);
    var b :| ReportsBatch(s.imports, s.calls[k].file, result, b);
  }

  /** Every customer came in through one batch; operations never report more than was inserted. */
  lemma CustomersAreConserved(c: Config, s: State)
    requires c.policy.Valid() && Reachable(c, s)
    ensures |s.imports.customers| == InsertedTotal(s.imports.batches)
    ensures forall b | b in s.imports.batches ::
              && |BroughtBy(s.imports.customers, b)| == s.imports.batches[b].insertedCount
              && s.imports.batches[b].insertedCount + s.imports.batches[b].existingCount
                  == s.imports.batches[b].rowCount
    ensures InsertedRows(s.operations) <= |s.imports.customers|
  {
    hide Checked, CanonicalBody, Reachable;
    ReachableOk(c, s);
    var operations, batches := s.operations, s.imports.batches;
    forall i | i in operations && operations[i].insertedRows > 0
      ensures exists b :: b in batches && batches[b].file == operations[i].request
                          && batches[b].insertedCount == operations[i].insertedRows
    {
      InsertingHasBatch(c, s, i);
    }
    forall i, j | i in operations && j in operations && operations[i].insertedRows > 0 && operations[j].insertedRows > 0
                  && operations[i].request == operations[j].request
      ensures i == j
    {
      InsertingHasBatch(c, s, i);
      InsertingHasBatch(c, s, j);
      OneImportPerFile(c, s, i, j);
    }
    OperationsWithinBatches(operations, batches);
  }

  lemma OperationsWithinBatches(operations: Operations, batches: map<BatchId, Batch>)
    requires OneBatchPerFile(batches)
    requires forall i | i in operations && operations[i].insertedRows > 0 ::
               exists b :: b in batches && batches[b].file == operations[i].request
                           && batches[b].insertedCount == operations[i].insertedRows
    requires forall i, j | i in operations && j in operations && operations[i].insertedRows > 0
                           && operations[j].insertedRows > 0 && operations[i].request == operations[j].request :: i == j
    ensures InsertedRows(operations) <= InsertedTotal(batches)
  {
    var image: OperationId -> BatchId := i => BatchOf(operations, batches, i);
    var f, g := RowsOf(operations), CountOf(batches);
    forall i | i in operations && f(i) > 0
      ensures image(i) in batches && f(i) <= g(image(i)) && batches[image(i)].file == operations[i].request
    {}
    SumInjection(operations.Keys, f, batches.Keys, g, image);
  }

  ghost function BatchOf(operations: Operations, batches: map<BatchId, Batch>, i: OperationId): (b: BatchId)
    ensures i in operations && (exists x :: x in batches && batches[x].file == operations[i].request
                                            && batches[x].insertedCount == operations[i].insertedRows)
            ==> b in batches && batches[b].file == operations[i].request
                && batches[b].insertedCount == operations[i].insertedRows
  {
    if i in operations && exists x :: x in batches && batches[x].file == operations[i].request
                                      && batches[x].insertedCount == operations[i].insertedRows
    then
      var b :| b in batches && batches[b].file == operations[i].request
               && batches[b].insertedCount == operations[i].insertedRows;
      b
    else 0
  }

  // ---- What never changes again ----

  /** An operation keeps its identity, its token only grows, and a result is for ever. */
  predicate OperationEvolves(before: Operation, after: Operation) {
    && after.key == before.key && after.request == before.request
    && after.attemptCount >= before.attemptCount
    && (before.status.Done? ==> after == before)
    && (after.status.Processing? && after.attemptCount == before.attemptCount ==> after == before)
  }

  /** So does an event: payload and identity are fixed, terminal states are final. */
  predicate EventEvolves(before: OutboxEvent, after: OutboxEvent) {
    && after.operationId == before.operationId && after.payload == before.payload && after.createdAt == before.createdAt
    && after.attemptCount >= before.attemptCount
    && (before.Finished() ==> after == before)
    && (after.status.Delivering? && after.attemptCount == before.attemptCount ==> before.status.Delivering?)
  }

  ghost predicate Extends(s: State, s': State) {
    && s.now <= s'.now
    && (forall i | i in s.operations :: i in s'.operations && OperationEvolves(s.operations[i], s'.operations[i]))
    && (forall e | e in s.outbox :: e in s'.outbox && EventEvolves(s.outbox[e], s'.outbox[e]))
    && Grows(s.imports, s'.imports)
    && (forall e | e in s.partner.receipts ::
        e in s'.partner.receipts && s'.partner.receipts[e] == s.partner.receipts[e])
  }

  lemma ExtendsTransitive(s: State, t: State, u: State)
    requires Extends(s, t) && Extends(t, u)
    ensures Extends(s, u)
  {
    forall e | e in s.outbox ensures e in u.outbox && EventEvolves(s.outbox[e], u.outbox[e]) {
      assert EventEvolves(s.outbox[e], t.outbox[e]) && EventEvolves(t.outbox[e], u.outbox[e]);
    }
    forall i | i in s.operations ensures i in u.operations && OperationEvolves(s.operations[i], u.operations[i]) {
      assert OperationEvolves(s.operations[i], t.operations[i]) && OperationEvolves(t.operations[i], u.operations[i]);
    }
  }

  lemma ReserveEvolves(operations: Operations, key: RequestKey, request: FileDigest, candidate: OperationId,
                       now: Timestamp)
    requires KeysUnique(operations) && candidate !in operations
    ensures var after := ApiStore.Reserve(operations, key, request, candidate, now).0;
            forall j | j in operations :: j in after && OperationEvolves(operations[j], after[j])
  {}

  lemma ReserveExtends(s: State, call: CallId, key: RequestKey, file: File, candidate: OperationId)
    requires KeysUnique(s.operations) && candidate !in s.operations
    ensures Extends(s, ApplyReserve(s, call, key, file, candidate))
  {
    hide ApiStore.Reserve, OperationEvolves;
    ReserveEvolves(s.operations, key, Sha256(file), candidate, s.now);
  }

  lemma ImportExtends(c: Config, s: State, call: CallId, batch: BatchId, fate: Fate)
    requires ImportsOk(c, s.imports) && call in s.calls && batch !in s.imports.batches
    requires fate.Aborts? ==> fate.outcome.DatabaseError? || fate.outcome.MigrationRequired?
    ensures Extends(s, ApplyImport(c, s, call, batch, fate))
  {
    hide ImportedFile, ImportsOk;
    ImportedFileDecided(c, s.imports, s.calls[call].file, batch, fate);
  }

  lemma StepExtends(c: Config, s: State, step: Step)
    requires Inv(c, s) && Enabled(s, step)
    ensures Extends(s, Apply(c, s, step))
  {
    hide CallsOk, WinnersOk, ImportsOk, ResultsOk, OutboxOk, EventsOk, DeliveriesOk, WritesOk, ReceiptsOk, RepliesOk,
         ApplyReserve, ApplyImport, ApplyComplete, ApplyReceive, ApplySettle;
    match step
    case Tick(elapsed) =>
    case Reserve(call, key, file, candidate) => ReserveExtends(s, call, key, file, candidate);
    case RunImport(call, batch, fate) => ImportExtends(c, s, call, batch, fate);
    case Complete(call, durationMs, event) => CompleteExtends(s, call, durationMs, event);
    case Claim(delivery, event, locked) =>
    case Receive(delivery) => ReceiveExtends(c, s, delivery);
    case Settle(delivery, seen) => SettleExtends(c, s, delivery, seen);
  }

  lemma CompleteExtends(s: State, call: CallId, durationMs: nat, event: EventId)
    requires call in s.calls && s.calls[call].phase.Ran? && event !in s.outbox
    ensures Extends(s, ApplyComplete(s, call, durationMs, event))
  {}

  lemma ReceiveExtends(c: Config, s: State, delivery: DeliveryId)
    requires delivery in s.deliveries
    ensures Extends(s, ApplyReceive(c, s, delivery))
  {
    hide CanonicalBody;
  }

  lemma SettleExtends(c: Config, s: State, delivery: DeliveryId, seen: Observation)
    requires delivery in s.deliveries
    ensures Extends(s, ApplySettle(c, s, delivery, seen))
  {
    hide DeliverEvent, BackoffSeconds;
  }

  /** No run, however it interleaves crashes, stalls and retries, undoes anything. */
  lemma {:induction false} RunExtends(c: Config, s: State, steps: seq<Step>)
    requires c.policy.Valid() && Reachable(c, s) && Allowed(c, s, steps)
    ensures Extends(s, Run(c, s, steps))
    decreases |steps|
  {
    hide Inv, Reachable, Apply, Extends;
    if steps == [] {
      ExtendsReflexive(s);
    } else {
      var t := Apply(c, s, steps[0]);
      ReachableOk(c, s);
      ReachableStep(c, s, steps[0]);
      StepExtends(c, s, steps[0]);
      RunExtends(c, t, steps[1..]);
      ExtendsTransitive(s, t, Run(c, s, steps));
    }
  }

  lemma ExtendsReflexive(s: State)
    ensures Extends(s, s)
  {}

  // ---- Fencing ----

  /** Each attempt number has one holder; a finished row has exactly one call or delivery that finished it. */
  lemma OneFinisher(c: Config, s: State)
    requires c.policy.Valid() && Reachable(c, s)
    ensures forall k, l | k in s.calls && l in s.calls && s.calls[k].operation == s.calls[l].operation
                          && s.calls[k].attempt == s.calls[l].attempt :: k == l
    ensures forall i | i in s.operations :: s.operations[i].status.Done? <==> exists k :: Winner(s.calls, k, i)
    ensures forall k, l, i | Winner(s.calls, k, i) && Winner(s.calls, l, i) :: k == l
    ensures forall d, f | d in s.deliveries && f in s.deliveries
                          && s.deliveries[d].event.eventId == s.deliveries[f].event.eventId
                          && s.deliveries[d].event.row.attemptCount == s.deliveries[f].event.row.attemptCount :: d == f
    ensures forall e | e in s.outbox :: s.outbox[e].Finished() <==>
              exists d, status :: (status == Delivered || status == DeadLetter)
                  && Wrote(s.deliveries, d, e, s.outbox[e].attemptCount, status)
    ensures forall d, f, e, a, b, x, y | Wrote(s.deliveries, d, e, a, x) && Wrote(s.deliveries, f, e, b, y)
              && (x.Delivered? || x.DeadLetter?) && (y.Delivered? || y.DeadLetter?) :: d == f && a == b && x == y
  {
    hide Checked, Reachable, CanonicalBody, ImportsOk, ResultsOk, OutboxOk, EventsOk, ReceiptsOk, RepliesOk;
    ReachableOk(c, s);
    forall k, l, i | Winner(s.calls, k, i) && Winner(s.calls, l, i) ensures k == l {
      assert s.calls[k].attempt == s.operations[i].attemptCount == s.calls[l].attempt;
    }
  }

  /** Once overtaken, a holder is powerless for the rest of every run. */
  lemma OvertakenStaysPowerless(c: Config, s: State, steps: seq<Step>)
    requires c.policy.Valid() && Reachable(c, s) && Allowed(c, s, steps)
    ensures var s' := Run(c, s, steps);
            && (forall k | k in s.calls && !OwnsOperation(s.operations, s.calls[k].operation, s.calls[k].attempt) ::
                  !OwnsOperation(s'.operations, s.calls[k].operation, s.calls[k].attempt))
            && (forall d | d in s.deliveries
                           && !Owns(s.outbox, s.deliveries[d].event.eventId, s.deliveries[d].event.row.attemptCount) ::
                  !Owns(s'.outbox, s.deliveries[d].event.eventId, s.deliveries[d].event.row.attemptCount))
  {
    hide Apply, Reachable, OperationsOk, WinnersOk, ImportsOk, ResultsOk, OutboxOk, EventsOk, WritesOk, ReceiptsOk,
        RepliesOk;
    ReachableOk(c, s);
    RunExtends(c, s, steps);
  }

  // ---- Idempotent replay ----

  /** Whatever happens in between, the same key leads to the same operation and a finished result to itself. */
  lemma ReplayIsFaithful(c: Config, s: State, steps: seq<Step>, i: OperationId, request: FileDigest,
                         candidate: OperationId)
    requires c.policy.Valid() && Reachable(c, s) && Allowed(c, s, steps) && i in s.operations
    requires candidate !in Run(c, s, steps).operations
    ensures var s' := Run(c, s, steps);
            var replay := ApiStore.Reserve(s'.operations, s.operations[i].key, request, candidate, s'.now);
            && replay.2 == i && !replay.1.Created?
            && i in s'.operations && s'.operations[i].request == s.operations[i].request
            && (request != s.operations[i].request ==> replay == (s'.operations, Replayed, i))
            && (s.operations[i].status.Done? ==>
                  replay == (s'.operations, Replayed, i) && s'.operations[i] == s.operations[i])
  {
    hide Apply, ApiStore.Reserve, Inv, Reachable;
    RunExtends(c, s, steps);
    ReachableOk(c, s);
    RunKeeps(c, s, steps);
    var s' := Run(c, s, steps);
    InvHasUniqueKeys(c, s');
    var row := s.operations[i];
    assert OperationEvolves(row, s'.operations[i]);
    ReservationDecided(s'.operations, row.key, request, candidate, s'.now, i);
  }

  lemma InvHasUniqueKeys(c: Config, s: State)
    requires Inv(c, s)
    ensures KeysUnique(s.operations)
    ensures forall i | i in s.operations :: s.operations[i].leaseExpiresAt <= LeaseEnd(s.now)
  {}

  /** A caller who waits Retry-After and repeats its request recovers it, unless it is done or taken over. */
  lemma WaitingSuffices(c: Config, s: State, steps: seq<Step>, i: OperationId, candidate: OperationId)
    requires c.policy.Valid() && Reachable(c, s) && Allowed(c, s, steps)
    requires i in s.operations && s.operations[i].status.Processing?
    requires Run(c, s, steps).now >= s.now + RetryAfter(s.operations[i].leaseExpiresAt, s.now) * SECOND
    requires candidate !in Run(c, s, steps).operations
    ensures var s' := Run(c, s, steps);
            var retry := ApiStore.Reserve(s'.operations, s.operations[i].key, s.operations[i].request, candidate,
                                          s'.now);
            i in s'.operations &&
            (|| (retry.1.Recovered? && retry.2 == i)
             || s'.operations[i].status.Done?
             || s'.operations[i].attemptCount > s.operations[i].attemptCount)
  {
    hide Apply, ApiStore.Reserve, Inv, Reachable, RetryAfter;
    RunExtends(c, s, steps);
    ReachableOk(c, s);
    RunKeeps(c, s, steps);
    var s' := Run(c, s, steps);
    InvHasUniqueKeys(c, s);
    InvHasUniqueKeys(c, s');
    RetryAfterSuffices(s.operations[i].leaseExpiresAt, s.now);
    ReservationDecided(s'.operations, s.operations[i].key, s.operations[i].request, candidate, s'.now, i);
    assert OperationEvolves(s.operations[i], s'.operations[i]);
  }
}

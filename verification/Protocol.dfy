/**
 * Import, outbox and partner as one step machine. Each SQL transaction is one step; calls and
 * deliveries may stall for ever at any point, resume late, or never see the answer to a request.
 */
module Protocol {
  import opened Common
  import opened RowScan
  import opened Validation
  import opened Importer
  import opened IntegrationStore
  import opened ApiStore
  import opened PartnerApi
  import opened IntegrationWorker

  type File = string
  type CallId = nat
  type DeliveryId = nat

  /** `reader` is how the operating system and the CSV reader present a file's bytes. */
  datatype Config = Config(unicode: Unicode, reader: File -> Reading, policy: RetryPolicy, simulatedFailures: nat)

  function Checked(c: Config, file: File): ValidationResult { Validate(c.unicode, c.reader(file), MAX_ROWS) }

  /** An API process that was told to process: its fencing token and how far it got. */
  datatype CallPhase = Reserved | Ran(result: ImportResult) | Finished(result: ImportResult, won: bool)

  datatype Call = Call(operation: OperationId, attempt: nat, file: File, phase: CallPhase)
  {
    predicate HasResult() { !phase.Reserved? }
  }

  /** A worker's attempt: the event it claimed, the partner's answers, and the status it wrote, if any. */
  datatype DeliveryPhase = Open | Closed(written: Option<EventStatus>)

  datatype Delivery = Delivery(event: ClaimedEvent, replies: seq<Reply>, phase: DeliveryPhase)

  datatype State = State(
    now: Timestamp, operations: Operations, imports: Tables, outbox: Outbox, partner: PartnerTables,
    calls: map<CallId, Call>, deliveries: map<DeliveryId, Delivery>)

  function Init(now: Timestamp): State {
    State(now, map[], Tables(map[], map[]), map[], PartnerTables(map[], map[]), map[], map[])
  }

  // ---- Steps ----

  /** An import transaction commits, fails, or commits although the connection is lost. */
  datatype Fate = Commits | Aborts(outcome: Outcome) | CommitsUnseen

  datatype Step =
    | Tick(elapsed: nat)
    | Reserve(call: CallId, key: RequestKey, file: File, candidate: OperationId)
    | RunImport(call: CallId, batch: BatchId, fate: Fate)
    | Complete(call: CallId, durationMs: nat, event: EventId)
    | Claim(delivery: DeliveryId, event: EventId, locked: set<EventId>)
    | Receive(delivery: DeliveryId)
    | Settle(delivery: DeliveryId, seen: Observation)

  /** A worker sees success only if the partner accepted this very delivery. */
  predicate Credible(d: Delivery, seen: Observation) {
    DeliverEvent(seen).DeliveredResult? ==> exists i :: 0 <= i < |d.replies| && d.replies[i].Accepted?
  }

  predicate Enabled(s: State, step: Step) {
    match step
    case Tick(_) => true
    case Reserve(call, _, _, candidate) => call !in s.calls && candidate !in s.operations
    case RunImport(call, batch, fate) =>
      && call in s.calls && s.calls[call].phase.Reserved? && batch !in s.imports.batches
      && (fate.Aborts? ==> fate.outcome.DatabaseError? || fate.outcome.MigrationRequired?)
    case Complete(call, _, event) => call in s.calls && s.calls[call].phase.Ran? && event !in s.outbox
    case Claim(delivery, event, locked) => delivery !in s.deliveries && Candidate(s.outbox, s.now, locked, event)
    case Receive(delivery) => delivery in s.deliveries
    case Settle(delivery, seen) =>
      delivery in s.deliveries && s.deliveries[delivery].phase.Open? && Credible(s.deliveries[delivery], seen)
  }

  function Failure(total: nat, outcome: Outcome): ImportResult {
    ImportResult(false, outcome, total, 0, 0,
                 if outcome.MigrationRequired? then MIGRATION_REQUIRED else OPERATION_FAILED)
  }

  /** Tables and result of `import_csv` for a file, under the fate of its transaction. */
  function ImportedFile(c: Config, t: Tables, file: File, batch: BatchId, fate: Fate): (Tables, ImportResult) {
    var checked := Checked(c, file);
    var (after, result) := ImportCsv(t, checked, Sha256(file), batch);
    if !checked.Accepted() || fate.Commits? then (after, result)
    else if fate.Aborts? then (t, Failure(|checked.records|, fate.outcome))
    else (after, Failure(|checked.records|, DatabaseError))
  }

  /** A transaction that fails leaves the tables; one whose end is not seen commits, but is reported as failed. */
  lemma FateDecided(c: Config, t: Tables, file: File, batch: BatchId, fate: Fate)
    requires fate.Aborts? ==> fate.outcome.DatabaseError? || fate.outcome.MigrationRequired?
    ensures var checked := Checked(c, file);
            var (after, result) := ImportedFile(c, t, file, batch, fate);
            var (committed, reported) := ImportCsv(t, checked, Sha256(file), batch);
            && (!checked.Accepted() ==> after == t && result.status == ValidationFailed)
            && (checked.Accepted() ==> after == if fate.Aborts? then t else committed)
            && (fate.Commits? ==> result == reported)
            && (checked.Accepted() && !fate.Commits? ==>
                  && !result.accepted && result.totalRows == |checked.records|
                  && result.insertedRows == 0 && result.existingRows == 0
                  && if fate.Aborts? && fate.outcome == MigrationRequired then
                       && result.status == MigrationRequired
                       && result.issues == [Issue(None, Fault(InDatabase, MigrationMissing), None)]
                     else
                       && result.status == DatabaseError
                       && result.issues == [Issue(None, Fault(InDatabase, OperationFailed), None)])
  {
    hide Checked, ImportRecords;
  }

  ghost function ApplyReserve(s: State, call: CallId, key: RequestKey, file: File, candidate: OperationId): State {
    var (operations, reservation, i) := ApiStore.Reserve(s.operations, key, Sha256(file), candidate, s.now);
    if reservation.ShouldProcess() && i in operations then
      s.(operations := operations,
         calls := s.calls[call := Call(i, operations[i].attemptCount, file, Reserved)])
    else s.(operations := operations)
  }

  function ApplyImport(c: Config, s: State, call: CallId, batch: BatchId, fate: Fate): State
    requires call in s.calls
  {
    var (imports, result) := ImportedFile(c, s.imports, s.calls[call].file, batch, fate);
    s.(imports := imports, calls := s.calls[call := s.calls[call].(phase := Ran(result))])
  }

  function ApplyComplete(s: State, call: CallId, durationMs: nat, event: EventId): State
    requires call in s.calls && s.calls[call].phase.Ran?
  {
    var me := s.calls[call];
    var won := OwnsOperation(s.operations, me.operation, me.attempt);
    var (operations, outbox) := ApiStore.Complete(s.operations, s.outbox, me.operation, me.attempt,
                                                  me.phase.result, durationMs, event, s.now);
    s.(operations := operations, outbox := outbox,
       calls := s.calls[call := me.(phase := Finished(me.phase.result, won))])
  }

  function ApplyClaim(c: Config, s: State, delivery: DeliveryId, event: EventId): State
    requires event in s.outbox
  {
    var row := Claimed(s.outbox[event], s.now, c.policy.leaseSeconds);
    s.(outbox := s.outbox[event := row],
       deliveries := s.deliveries[delivery := Delivery(ClaimedEvent(event, row), [], Open)])
  }

  function ApplyReceive(c: Config, s: State, delivery: DeliveryId): State
    requires delivery in s.deliveries
  {
    var d := s.deliveries[delivery];
    var (partner, reply) := Record(s.partner, d.event.eventId, Sha256(CanonicalBody(d.event.row.payload)),
                                   c.simulatedFailures);
    s.(partner := partner, deliveries := s.deliveries[delivery := d.(replies := d.replies + [reply])])
  }

  function ApplySettle(c: Config, s: State, delivery: DeliveryId, seen: Observation): State
    requires delivery in s.deliveries
  {
    var d := s.deliveries[delivery];
    var e, attempt := d.event.eventId, d.event.row.attemptCount;
    var outbox := IntegrationWorker.Settle(s.outbox, d.event, seen, c.policy, s.now);
    var written := if Owns(s.outbox, e, attempt) && e in outbox then Some(outbox[e].status) else None;
    s.(outbox := outbox, deliveries := s.deliveries[delivery := d.(phase := Closed(written))])
  }

  ghost function Apply(c: Config, s: State, step: Step): State
    requires Enabled(s, step)
  {
    match step
    case Tick(elapsed) => s.(now := s.now + elapsed)
    case Reserve(call, key, file, candidate) => ApplyReserve(s, call, key, file, candidate)
    case RunImport(call, batch, fate) => ApplyImport(c, s, call, batch, fate)
    case Complete(call, durationMs, event) => ApplyComplete(s, call, durationMs, event)
    case Claim(delivery, event, _) => ApplyClaim(c, s, delivery, event)
    case Receive(delivery) => ApplyReceive(c, s, delivery)
    case Settle(delivery, seen) => ApplySettle(c, s, delivery, seen)
  }

  // ---- Runs ----

  ghost predicate Allowed(c: Config, s: State, steps: seq<Step>)
    decreases |steps|
  {
    steps == [] || (Enabled(s, steps[0]) && Allowed(c, Apply(c, s, steps[0]), steps[1..]))
  }

  ghost function Run(c: Config, s: State, steps: seq<Step>): State
    requires Allowed(c, s, steps)
    decreases |steps|
  {
    if steps == [] then s else Run(c, Apply(c, s, steps[0]), steps[1..])
  }

  ghost predicate Reachable(c: Config, s: State) {
    exists now, steps :: Allowed(c, Init(now), steps) && s == Run(c, Init(now), steps)
  }

  // ---- The invariant ----

  ghost predicate OperationsOk(operations: Operations, now: Timestamp) {
    && KeysUnique(operations)
    && forall i | i in operations ::
         && operations[i].attemptCount >= 1
         && operations[i].leaseExpiresAt <= LeaseEnd(now)
         && (operations[i].status.Processing? ==> !operations[i].accepted && operations[i].insertedRows == 0)
  }

  /** Each call works for one operation, on that operation's file, under an attempt number of its own. */
  ghost predicate CallsOk(operations: Operations, calls: map<CallId, Call>) {
    && (forall k | k in calls ::
          && calls[k].operation in operations
          && calls[k].attempt <= operations[calls[k].operation].attemptCount
          && Sha256(calls[k].file) == operations[calls[k].operation].request)
    && (forall k, l | k in calls && l in calls && calls[k].operation == calls[l].operation
                      && calls[k].attempt == calls[l].attempt :: k == l)
  }

  /** The operation shows exactly this result. */
  predicate Shows(row: Operation, result: ImportResult) {
    && row.status == Done(result.status) && row.accepted == result.accepted && row.issues == result.issues
    && row.totalRows == result.totalRows && row.insertedRows == result.insertedRows
    && row.existingRows == result.existingRows
  }

  /** Call `k` is the one that finished operation `i`. */
  predicate Winner(calls: map<CallId, Call>, k: CallId, i: OperationId) {
    k in calls && calls[k].operation == i && calls[k].phase.Finished? && calls[k].phase.won
  }

  ghost predicate WinnersOk(operations: Operations, calls: map<CallId, Call>) {
    && (forall k, i | Winner(calls, k, i) ::
          i in operations && Shows(operations[i], calls[k].phase.result)
          && operations[i].attemptCount == calls[k].attempt)
    && (forall i | i in operations && operations[i].status.Done? :: exists k :: Winner(calls, k, i))
  }

  /** A committed batch is a valid file, all of whose records are customers. */
  ghost predicate BatchComplete(c: Config, t: Tables, b: BatchId)
    requires b in t.batches
  {
    var checked := Checked(c, t.batches[b].file.preimage);
    checked.Accepted() && t.batches[b].rowCount == |checked.records| && AllPresent(checked.records, t.customers)
  }

  ghost predicate ImportsOk(c: Config, t: Tables) {
    Balanced(t) && forall b | b in t.batches :: BatchComplete(c, t, b)
  }

  /** The batch that an `imported` result reports. */
  predicate ReportsBatch(t: Tables, file: File, result: ImportResult, b: BatchId) {
    b in t.batches && t.batches[b] == Batch(Sha256(file), result.totalRows, result.insertedRows, result.existingRows)
  }

  /** Some record of the file belongs to a stored customer with other values. */
  ghost predicate Contradicted(c: Config, t: Tables, file: File) {
    exists r :: r in Checked(c, file).records && r.email in t.customers && t.customers[r.email].values != r.values
  }

  ghost predicate ResultOk(c: Config, t: Tables, file: File, result: ImportResult) {
    && (result.accepted <==> result.status.Imported? || result.status.AlreadyImported?)
    && (!result.status.Imported? ==> result.insertedRows == 0)
    && (result.accepted ==>
          && Known(t.batches, Sha256(file))
          && result.totalRows == |Checked(c, file).records|
          && result.insertedRows + result.existingRows == result.totalRows)
    && (result.status.Imported? ==> exists b :: ReportsBatch(t, file, result, b))
    && (result.status.ValidationFailed? <==> !Checked(c, file).Accepted())
    && (result.status.ValidationFailed? ==>
          result.issues == Checked(c, file).issues && result.totalRows == Checked(c, file).totalRows)
    && (result.status.Conflict? ==> Contradicted(c, t, file))
    && !result.status.ConfigurationError?
  }

  /** Call `k` was told that it imported `file`. */
  predicate Importing(calls: map<CallId, Call>, k: CallId, file: File) {
    k in calls && calls[k].file == file && calls[k].HasResult() && calls[k].phase.result.status.Imported?
  }

  ghost predicate ResultsOk(c: Config, t: Tables, calls: map<CallId, Call>) {
    && (forall k | k in calls && calls[k].HasResult() :: ResultOk(c, t, calls[k].file, calls[k].phase.result))
    && (forall k, l, file | Importing(calls, k, file) && Importing(calls, l, file) :: k == l)
  }

  /** The notification says what the operation says. */
  predicate Notifies(row: OutboxEvent, e: EventId, op: Operation) {
    && row.payload.eventId == e && row.payload.operationId == row.operationId
    && op.accepted && op.status == Done(row.payload.importStatus)
    && op.totalRows == row.payload.totalRows && op.insertedRows == row.payload.insertedRows
    && op.existingRows == row.payload.existingRows
  }

  /** Accepted operations and notifications correspond one to one. */
  ghost predicate OutboxOk(operations: Operations, outbox: Outbox) {
    && (forall e | e in outbox ::
          outbox[e].operationId in operations && Notifies(outbox[e], e, operations[outbox[e].operationId]))
    && (forall e, f | e in outbox && f in outbox && outbox[e].operationId == outbox[f].operationId :: e == f)
    && (forall i | i in operations && operations[i].accepted :: Enqueued(outbox, i))
  }

  predicate EventOk(row: OutboxEvent, policy: RetryPolicy, now: Timestamp) {
    && (row.status.Pending? ==> row.attemptCount < policy.maxAttempts)
    && (!row.status.Pending? ==> row.attemptCount >= 1)
    && (row.status.Delivering? <==> row.leaseExpiresAt.Some?)
    && (row.status.Delivered? <==> row.deliveredAt.Some?)
    && row.createdAt <= now && row.createdAt <= row.availableAt
    && (!row.status.Pending? ==> row.availableAt <= now)
  }

  predicate EventsOk(outbox: Outbox, policy: RetryPolicy, now: Timestamp) {
    forall e | e in outbox :: EventOk(outbox[e], policy, now)
  }

  /** Each delivery carries its event's payload, under an attempt number of its own. */
  ghost predicate DeliveriesOk(outbox: Outbox, deliveries: map<DeliveryId, Delivery>) {
    && (forall d | d in deliveries ::
          var e := deliveries[d].event.eventId;
          && e in outbox
          && deliveries[d].event.row.payload == outbox[e].payload
          && deliveries[d].event.row.attemptCount <= outbox[e].attemptCount)
    && (forall d, f | d in deliveries && f in deliveries
                      && deliveries[d].event.eventId == deliveries[f].event.eventId
                      && deliveries[d].event.row.attemptCount == deliveries[f].event.row.attemptCount :: d == f)
  }

  /** Delivery `d` wrote `status` to event `e` under `attempt`. */
  predicate Wrote(deliveries: map<DeliveryId, Delivery>, d: DeliveryId, e: EventId, attempt: nat, status: EventStatus) {
    && d in deliveries && deliveries[d].event.eventId == e && deliveries[d].event.row.attemptCount == attempt
    && deliveries[d].phase == Closed(Some(status))
  }

  /** What a delivery wrote is over, and if it was final it is still there. */
  ghost predicate WritesOk(outbox: Outbox, deliveries: map<DeliveryId, Delivery>) {
    && (forall d, e, attempt, status | Wrote(deliveries, d, e, attempt, status) ::
          && e in outbox && !Owns(outbox, e, attempt)
          && (status.Delivered? || status.DeadLetter? ==>
                outbox[e].status == status && outbox[e].attemptCount == attempt))
    && (forall e | e in outbox && outbox[e].Finished() ::
          exists d :: Wrote(deliveries, d, e, outbox[e].attemptCount, outbox[e].status))
  }

  ghost predicate ReceiptsOk(outbox: Outbox, partner: PartnerTables) {
    && (forall e | e in partner.receipts ::
          e in outbox && partner.receipts[e] == Sha256(CanonicalBody(outbox[e].payload)))
    && (forall e | e in outbox && outbox[e].status.Delivered? :: e in partner.receipts)
    && (forall e | e in partner.attempts :: e in outbox)
  }

  ghost predicate RepliesOk(partner: PartnerTables, deliveries: map<DeliveryId, Delivery>) {
    forall d, i | d in deliveries && 0 <= i < |deliveries[d].replies| ::
      && !deliveries[d].replies[i].BodyConflict?
      && (deliveries[d].replies[i].Accepted? ==> deliveries[d].event.eventId in partner.receipts)
  }

  ghost predicate Inv(c: Config, s: State) {
    && OperationsOk(s.operations, s.now) && CallsOk(s.operations, s.calls) && WinnersOk(s.operations, s.calls)
    && ImportsOk(c, s.imports) && ResultsOk(c, s.imports, s.calls)
    && OutboxOk(s.operations, s.outbox) && EventsOk(s.outbox, c.policy, s.now)
    && DeliveriesOk(s.outbox, s.deliveries) && WritesOk(s.outbox, s.deliveries)
    && ReceiptsOk(s.outbox, s.partner) && RepliesOk(s.partner, s.deliveries)
  }
}

/** `create_import`: reserve, import, complete, answer; and what its answers promise. */
module Api {
  import opened Common
  import opened Validation
  import opened Importer
  import opened IntegrationStore
  import opened ApiStore
  import opened Protocol
  import opened ProtocolInvariant
  import opened ProtocolSafety

  // ---- Answers ----

  function ResponseStatus(status: OperationStatus): int {
    match status
    case Processing => 202
    case Done(outcome) =>
      match outcome
      case Imported => 200
      case AlreadyImported => 200
      case ValidationFailed => 422
      case Conflict => 409
      case _ => 503
  }

  datatype Response = KeyReused | OperationJson(code: int, id: OperationId, row: Operation, retryAfter: Option<int>)

  function OperationJsonResponse(i: OperationId, row: Operation, now: Timestamp): Response {
    OperationJson(ResponseStatus(row.status), i, row,
                  if row.status.Processing? then Some(RetryAfter(row.leaseExpiresAt, now)) else None)
  }

  /** What one request brings along, and the instants at which it meets the clock. */
  datatype Upload = Upload(key: RequestKey, file: File, reservedAt: Timestamp, completedAt: Timestamp,
                           answeredAt: Timestamp, durationMs: nat)

  /** Identifiers drawn for rows that may be inserted. */
  datatype Identifiers = Identifiers(operation: OperationId, batch: BatchId, event: EventId)

  datatype ServiceTables = ServiceTables(operations: Operations, imports: Tables, outbox: Outbox)

  ghost function Served(c: Config, t: ServiceTables, u: Upload, ids: Identifiers): (ServiceTables, Response) {
    var (operations, reservation, i) := ApiStore.Reserve(t.operations, u.key, Sha256(u.file), ids.operation,
                                                         u.reservedAt);
    if !reservation.ShouldProcess() then
      (t.(operations := operations),
       if operations[i].request != Sha256(u.file) then KeyReused
       else OperationJsonResponse(i, operations[i], u.answeredAt))
    else
      var (imports, result) := ImportCsv(t.imports, Checked(c, u.file), Sha256(u.file), ids.batch);
      var (completed, outbox) := ApiStore.Complete(operations, t.outbox, i, operations[i].attemptCount, result,
                                                   u.durationMs, ids.event, u.completedAt);
      (ServiceTables(completed, imports, outbox),
       OperationJsonResponse(i, completed[i], u.answeredAt))
  }

  /** One request served without interruption. */
  method CreateImport(operations: OperationStore, customers: CustomerStore, c: Config, u: Upload,
                      ids: Identifiers) returns (response: Response)
    requires KeysUnique(operations.rows)
    requires ids.operation !in operations.rows && ids.batch !in customers.batches
        && ids.event !in operations.outbox.rows
    modifies operations`rows, operations.outbox, customers
    ensures KeysUnique(operations.rows)
    ensures (ServiceTables(operations.rows, customers.Contents(), operations.outbox.rows), response)
            == Served(c, ServiceTables(old(operations.rows), old(customers.Contents()), old(operations.outbox.rows)),
                      u, ids)
  {
    hide ImportCsv, ApiStore.Reserve, Validate;
    var request := Sha256(u.file);
    var reservation, i, row := operations.ReserveOperation(u.key, request, ids.operation, u.reservedAt);
    if !reservation.ShouldProcess() {
      if row.request != request { return KeyReused; }
      return OperationJsonResponse(i, row, u.answeredAt);
    }
    var result := customers.ImportFile(c.unicode, c.reader(u.file), request, ids.batch);
    row := operations.CompleteOperation(i, row.attemptCount, result, u.durationMs, ids.event, u.completedAt);
    return OperationJsonResponse(i, row, u.answeredAt);
  }

  // ---- One request as steps of the protocol ----

  function TablesOf(s: State): ServiceTables { ServiceTables(s.operations, s.imports, s.outbox) }

  /** Reserving does what the service sees, and gives the call its token if it is to process. */
  lemma ReserveStep(s: State, call: CallId, key: RequestKey, file: File, candidate: OperationId)
    requires KeysUnique(s.operations) && call !in s.calls && candidate !in s.operations
    ensures Enabled(s, Step.Reserve(call, key, file, candidate))
    ensures var (operations, reservation, i) := ApiStore.Reserve(s.operations, key, Sha256(file), candidate, s.now);
            var s' := ApplyReserve(s, call, key, file, candidate);
            && i in operations
            && TablesOf(s') == ServiceTables(operations, s.imports, s.outbox) && s'.now == s.now
            && (reservation.ShouldProcess() ==>
                  call in s'.calls && s'.calls[call] == Call(i, operations[i].attemptCount, file, CallPhase.Reserved))
  {}

  lemma ImportStep(c: Config, s: State, call: CallId, batch: BatchId)
    requires call in s.calls && s.calls[call].phase.Reserved? && batch !in s.imports.batches
    ensures Enabled(s, RunImport(call, batch, Commits))
    ensures var (imports, result) := ImportCsv(s.imports, Checked(c, s.calls[call].file), Sha256(s.calls[call].file),
                                               batch);
            var s' := ApplyImport(c, s, call, batch, Commits);
            && TablesOf(s') == ServiceTables(s.operations, imports, s.outbox) && s'.now == s.now
            && call in s'.calls && s'.calls[call] == s.calls[call].(phase := Ran(result))
  {
    hide ImportCsv, Checked;
  }

  lemma CompleteStep(s: State, call: CallId, durationMs: nat, event: EventId)
    requires call in s.calls && s.calls[call].phase.Ran? && event !in s.outbox
    ensures Enabled(s, Step.Complete(call, durationMs, event))
    ensures var me := s.calls[call];
            var (operations, outbox) := ApiStore.Complete(s.operations, s.outbox, me.operation, me.attempt,
                                                          me.phase.result,
                                                          durationMs, event, s.now);
            TablesOf(ApplyComplete(s, call, durationMs, event)) == ServiceTables(operations, s.imports, outbox)
  {
    hide ApiStore.Complete;
  }

  /** `create_import` is a run of the protocol: all that holds of every run holds of it. */
  lemma ServiceIsRun(c: Config, s: State, u: Upload, ids: Identifiers, call: CallId) returns (steps: seq<Step>)
    requires KeysUnique(s.operations) && s.now == u.reservedAt <= u.completedAt && call !in s.calls
    requires ids.operation !in s.operations && ids.batch !in s.imports.batches && ids.event !in s.outbox
    ensures Allowed(c, s, steps)
    ensures TablesOf(Run(c, s, steps)) == Served(c, TablesOf(s), u, ids).0
  {
    hide ImportCsv, Checked, ApiStore.Reserve, ApiStore.Complete, Enabled, Apply, ApplyReserve, ApplyImport,
        ApplyComplete;
    var reserve := Step.Reserve(call, u.key, u.file, ids.operation);
    ReserveStep(s, call, u.key, u.file, ids.operation);
    ApplyUnfolds(c, s, reserve);
    var s1 := Apply(c, s, reserve);
    var (operations, reservation, i) := ApiStore.Reserve(s.operations, u.key, Sha256(u.file), ids.operation, s.now);
    if !reservation.ShouldProcess() {
      StepFirst(c, s, reserve, []);
      steps := [reserve] + [];
    } else {
      var runImport := RunImport(call, ids.batch, Commits);
      ImportStep(c, s1, call, ids.batch);
      ApplyUnfolds(c, s1, runImport);
      var s2 := Apply(c, s1, runImport);
      var tick := Tick(u.completedAt - u.reservedAt);
      TickUnfolds(c, s2, u.completedAt - u.reservedAt);
      var s3 := Apply(c, s2, tick);
      var complete := Step.Complete(call, u.durationMs, ids.event);
      CompleteStep(s3, call, u.durationMs, ids.event);
      ApplyUnfolds(c, s3, complete);
      StepFirst(c, s3, complete, []);
      StepFirst(c, s2, tick, [complete] + []);
      StepFirst(c, s1, runImport, [tick] + ([complete] + []));
      StepFirst(c, s, reserve, [runImport] + ([tick] + ([complete] + [])));
      steps := [reserve] + ([runImport] + ([tick] + ([complete] + [])));
    }
  }

  lemma ApplyUnfolds(c: Config, s: State, step: Step)
    requires Enabled(s, step)
    ensures step.Reserve? ==> Apply(c, s, step) == ApplyReserve(s, step.call, step.key, step.file, step.candidate)
    ensures step.RunImport? ==>
        step.call in s.calls && Apply(c, s, step) == ApplyImport(c, s, step.call, step.batch, step.fate)
    ensures step.Complete? ==> step.call in s.calls && s.calls[step.call].phase.Ran?
                               && Apply(c, s, step) == ApplyComplete(s, step.call, step.durationMs, step.event)
  {
    hide ApplyReserve, ApplyImport, ApplyComplete, ApplyClaim, ApplyReceive, ApplySettle;
  }

  lemma TickUnfolds(c: Config, s: State, elapsed: nat)
    ensures Enabled(s, Tick(elapsed)) && Apply(c, s, Tick(elapsed)) == s.(now := s.now + elapsed)
  {}

  // ---- What an answer promises, whatever else is going on ----

  /** The file that a request came with. */
  function FileOf(s: State, step: Step): File
    requires (step.Reserve? || step.Complete?) && (step.Complete? ==> step.call in s.calls)
  {
    if step.Reserve? then step.file else s.calls[step.call].file
  }

  /** The answer that is formed from the row a step returns: at once for a replay, after completion otherwise. */
  ghost function AnswerTo(c: Config, s: State, step: Step, answeredAt: Timestamp): Option<Response>
    requires Enabled(s, step)
  {
    match step
    case Reserve(_, key, file, candidate) =>
      var (operations, reservation, i) := ApiStore.Reserve(s.operations, key, Sha256(file), candidate, s.now);
      if reservation.ShouldProcess() then None
      else if operations[i].request != Sha256(file) then Some(KeyReused)
      else Some(OperationJsonResponse(i, operations[i], answeredAt))
    case Complete(call, _, _) =>
      var i, after := s.calls[call].operation, Apply(c, s, step);
      if i in after.operations then Some(OperationJsonResponse(i, after.operations[i], answeredAt)) else None
    case _ => None
  }

  /** An answer shows the row as it is stored just then, of an operation for the file of the request. */
  lemma AnswerShowsRow(c: Config, s: State, step: Step, answeredAt: Timestamp)
    requires Inv(c, s) && Enabled(s, step)
    requires AnswerTo(c, s, step, answeredAt).Some? && AnswerTo(c, s, step, answeredAt).value.OperationJson?
    ensures var response, after := AnswerTo(c, s, step, answeredAt).value, Apply(c, s, step);
            && (step.Reserve? || (step.Complete? && step.call in s.calls))
            && response.id in after.operations && response.row == after.operations[response.id]
            && response.row.request == Sha256(FileOf(s, step))
            && response.code == ResponseStatus(response.row.status)
            && (response.retryAfter.Some? <==> response.row.status.Processing?)
            && (response.retryAfter.Some? ==>
                  LeastWait(response.row.leaseExpiresAt, answeredAt, response.retryAfter.value))
  {
    hide Inv, RetryAfter, LeastWait, Apply, ApplyReserve, ApplyComplete, ApiStore.Reserve;
    ApplyUnfolds(c, s, step);
    RetryAfterSuffices(AnswerTo(c, s, step, answeredAt).value.row.leaseExpiresAt, answeredAt);
    if step.Complete? {
      CallHasOperation(c, s, step.call);
      CompletionKeepsRequest(s, step.call, step.durationMs, step.event);
    } else {
      InvHasUniqueKeys(c, s);
      ReserveStep(s, step.call, step.key, step.file, step.candidate);
    }
  }

  lemma CallHasOperation(c: Config, s: State, call: CallId)
    requires Inv(c, s) && call in s.calls
    ensures s.calls[call].operation in s.operations
    ensures s.operations[s.calls[call].operation].request == Sha256(s.calls[call].file)
  {
    hide OperationsOk, WinnersOk, ImportsOk, ResultsOk, OutboxOk, EventsOk, DeliveriesOk, WritesOk, ReceiptsOk,
        RepliesOk;
  }

  lemma CompletionKeepsRequest(s: State, call: CallId, durationMs: nat, event: EventId)
    requires call in s.calls && s.calls[call].phase.Ran? && s.calls[call].operation in s.operations
    ensures var i, after := s.calls[call].operation, ApplyComplete(s, call, durationMs, event);
            i in after.operations && after.operations[i].request == s.operations[i].request
  {}

  /**
   * However requests, crashes and recoveries interleave, an answer of 200 means that the file of this very
   * request is imported, all of it, with counts that add up and a notification queued; and so it stays.
   */
  lemma OkMeansImported(c: Config, s: State, step: Step, answeredAt: Timestamp, later: seq<Step>)
    requires c.policy.Valid() && Reachable(c, s) && Enabled(s, step) && Allowed(c, Apply(c, s, step), later)
    requires AnswerTo(c, s, step, answeredAt).Some? && AnswerTo(c, s, step, answeredAt).value.OperationJson?
    requires AnswerTo(c, s, step, answeredAt).value.code == 200
    ensures step.Reserve? || (step.Complete? && step.call in s.calls)
    ensures var response, s' := AnswerTo(c, s, step, answeredAt).value, Run(c, Apply(c, s, step), later);
            && FileIsImported(c, s'.imports, FileOf(s, step))
            && response.row.accepted && response.row.totalRows == |Checked(c, FileOf(s, step)).records|
            && response.row.insertedRows + response.row.existingRows == response.row.totalRows
            && Enqueued(s'.outbox, response.id)
            && response.id in s'.operations && s'.operations[response.id] == response.row
  {
    hide Reachable, FileIsImported, Checked, Run, Allowed, Inv, Apply, AnswerTo, Enabled, FileOf;
    ReachableOk(c, s);
    AnswerShowsRow(c, s, step, answeredAt);
    var after, i := Apply(c, s, step), AnswerTo(c, s, step, answeredAt).value.id;
    var s' := Run(c, after, later);
    ReachableStep(c, s, step);
    RunExtends(c, after, later);
    assert OperationEvolves(after.operations[i], s'.operations[i]);
    ReachableGrows(c, after, later);
    ReachableOk(c, s');
    SuccessIsAccepted(c, s', i);
    AcceptedMeansImported(c, s', i);
  }

  /**
   * The status code of an answer, in every reachable interleaving: 200 exactly for an accepted operation, 202
   * exactly while it is processing, 422 exactly for a finished one whose file is not clean, 409 exactly for one
   * whose import met a stored customer with other values, 503 exactly for one that failed otherwise.
   */
  lemma AnswerCodes(c: Config, s: State, step: Step, answeredAt: Timestamp)
    requires c.policy.Valid() && Reachable(c, s) && Enabled(s, step)
    requires AnswerTo(c, s, step, answeredAt).Some? && AnswerTo(c, s, step, answeredAt).value.OperationJson?
    ensures step.Reserve? || (step.Complete? && step.call in s.calls)
    ensures var response, file := AnswerTo(c, s, step, answeredAt).value, FileOf(s, step);
            var row, code := response.row, response.code;
            var clean := CleanFile(c.unicode, c.reader(file), 10_000);
            && (code == 200 <==> row.accepted)
            && (code == 202 <==> row.status == Processing)
            && (code == 422 <==> row.status.Done? && !clean)
            && (code == 409 <==> row.status == Done(Conflict))
            && (code == 409 ==> clean && Contradicted(c, Apply(c, s, step).imports, file))
            && (code == 503 <==> row.status.Done? && clean && !row.accepted && row.status != Done(Conflict))
            && (code == 503 <==> row.status == Done(DatabaseError) || row.status == Done(MigrationRequired))
            && (code == 422 ==> row.issues == Checked(c, file).issues)
            && code in {200, 202, 409, 422, 503}
  {
    hide Reachable, Checked, Inv, Apply, AnswerTo, Enabled, FileOf, CleanFile, Validate, Contradicted;
    ReachableOk(c, s);
    AnswerShowsRow(c, s, step, answeredAt);
    ReachableStep(c, s, step);
    var after, i := Apply(c, s, step), AnswerTo(c, s, step, answeredAt).value.id;
    ReachableOk(c, after);
    CheckedIffClean(c, FileOf(s, step));
    RowTells(c, after, i);
  }

  lemma CheckedIffClean(c: Config, file: File)
    ensures Checked(c, file).Accepted() <==> CleanFile(c.unicode, c.reader(file), 10_000)
  {
    hide Validate, CleanFile;
    AcceptedIffClean(c.unicode, c.reader(file), MAX_ROWS);
  }

  /** What the status of a stored operation says of its file and of the customers. */
  lemma RowTells(c: Config, s: State, i: OperationId)
    requires Inv(c, s) && i in s.operations
    ensures var row, file := s.operations[i], s.operations[i].request.preimage;
            && (row.accepted <==> row.status == Done(Imported) || row.status == Done(AlreadyImported))
            && (row.status.Done? ==> (row.status == Done(ValidationFailed) <==> !Checked(c, file).Accepted()))
            && (row.status == Done(ValidationFailed) ==> row.issues == Checked(c, file).issues)
            && (row.status == Done(Conflict) ==> Contradicted(c, s.imports, file))
            && row.status != Done(ConfigurationError)
  {
    hide Checked, CallsOk, ImportsOk, OutboxOk, EventsOk, DeliveriesOk, WritesOk, ReceiptsOk, RepliesOk, Contradicted;
    if s.operations[i].status.Done? {
      var k := WinnerOf(c, s, i);
      assert ResultOk(c, s.imports, s.calls[k].file, s.calls[k].phase.result);
    }
  }

  /**
   * Which result an import step gives the call that will finish with it: a conflict exactly if the transaction
   * was not lost, the file is clean and new, and it met a stored customer with other values.
   */
  lemma ImportStepDecided(c: Config, t: Tables, file: File, batch: BatchId, fate: Fate)
    requires fate.Aborts? ==> fate.outcome.DatabaseError? || fate.outcome.MigrationRequired?
    requires batch !in t.batches
    ensures var status := ImportedFile(c, t, file, batch, fate).1.status;
            var clean := CleanFile(c.unicode, c.reader(file), 10_000);
            var known := exists b :: b in t.batches && t.batches[b].file == Sha256(file);
            && (status.ValidationFailed? <==> !clean)
            && (status.Conflict? <==> clean && fate.Commits? && !known && Contradicted(c, t, file))
            && (status.AlreadyImported? <==> clean && fate.Commits? && known)
            && (status.Imported? <==> clean && fate.Commits? && !known && !Contradicted(c, t, file))
  {
    hide Checked, CleanFile, Validate, ImportRecords, Known;
    CheckedIffClean(c, file);
    var checked := Checked(c, file);
    if checked.Accepted() {
      CheckedRecordsDiffer(c, file);
      ImportOutcome(t, checked.records, Sha256(file), batch);
      ImportReports(t, checked.records, Sha256(file), batch);
    }
  }

  /** An undisturbed request under an unused key is answered as its file and the tables deserve, and by nothing else. */
  lemma NewRequestAnswered(c: Config, t: ServiceTables, u: Upload, ids: Identifiers)
    requires KeysUnique(t.operations) && ids.operation !in t.operations && ids.batch !in t.imports.batches
    requires !Taken(t.operations, u.key)
    ensures var (after, response) := Served(c, t, u, ids);
            var clean := CleanFile(c.unicode, c.reader(u.file), 10_000);
            var known := exists b :: b in t.imports.batches && t.imports.batches[b].file == Sha256(u.file);
            var contradicted := Contradicted(c, t.imports, u.file);
            && response.OperationJson? && response.id == ids.operation
            && (response.code == 200 <==> clean && (known || !contradicted))
            && (response.code == 409 <==> clean && !known && contradicted)
            && (response.code == 422 <==> !clean)
            && (response.code == 200 && !known ==>
                  && response.row.status == Done(Imported) && ids.batch in after.imports.batches
                  && AllPresent(Checked(c, u.file).records, after.imports.customers)
                  && |after.imports.customers| == |t.imports.customers| + response.row.insertedRows)
            && (response.code != 200 ==> after.imports == t.imports && after.outbox == t.outbox)
  {
    hide Checked, CleanFile, Validate, ImportRecords, Conflicts, Newcomers, Known;
    CheckedIffClean(c, u.file);
    var checked := Checked(c, u.file);
    if checked.Accepted() {
      CheckedRecordsDiffer(c, u.file);
      ImportOutcome(t.imports, checked.records, Sha256(u.file), ids.batch);
      ImportReports(t.imports, checked.records, Sha256(u.file), ids.batch);
      AllOrNothing(t.imports, checked.records, Sha256(u.file), ids.batch);
    }
  }

  /** The operation in an answer is the stored one, under this key and for this file. */
  lemma ResponseShowsRow(c: Config, t: ServiceTables, u: Upload, ids: Identifiers)
    requires KeysUnique(t.operations) && ids.operation !in t.operations
    ensures var (after, response) := Served(c, t, u, ids);
            && (response.KeyReused? <==> exists i ::
                i in t.operations && t.operations[i].key == u.key && t.operations[i].request != Sha256(u.file))
            && (response.KeyReused? ==> after == t)
            && (response.OperationJson? ==>
                  && response.id in after.operations && response.row == after.operations[response.id]
                  && response.row.key == u.key && response.row.request == Sha256(u.file)
                  && response.code == ResponseStatus(response.row.status)
                  && (response.retryAfter.Some? <==> response.code == 202)
                  && (response.retryAfter.Some? ==>
                        LeastWait(response.row.leaseExpiresAt, u.answeredAt, response.retryAfter.value)))
  {
    hide ImportCsv, Checked, RetryAfter, LeastWait;
    var response := Served(c, t, u, ids).1;
    if response.OperationJson? { RetryAfterSuffices(response.row.leaseExpiresAt, u.answeredAt); }
  }

  lemma SuccessIsAccepted(c: Config, s: State, i: OperationId)
    requires Inv(c, s) && i in s.operations && ResponseStatus(s.operations[i].status) == 200
    ensures s.operations[i].accepted && Enqueued(s.outbox, i)
  {
    hide Checked, OperationsOk, CallsOk, ImportsOk, EventsOk, DeliveriesOk, WritesOk, ReceiptsOk, RepliesOk;
    var k := WinnerOf(c, s, i);
    assert ResultOk(c, s.imports, s.calls[k].file, s.calls[k].phase.result);
  }
}

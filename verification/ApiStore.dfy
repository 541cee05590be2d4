/** Idempotent HTTP operations: reservation, lease recovery, fenced completion. */
module ApiStore {
  import opened Common
  import opened RowScan
  import opened Importer
  import opened IntegrationStore

  const RECOVERY_LEASE_SECONDS: nat := 6 * 60

  datatype OperationStatus = Processing | Done(outcome: Outcome)

  /** The pair that makes a request unique: who sent it, under which idempotency key. */
  datatype RequestKey = RequestKey(actor: Hmac, idempotency: Hmac)

  datatype Operation = Operation(
    key: RequestKey, request: FileDigest, status: OperationStatus, accepted: bool,
    totalRows: nat, insertedRows: nat, existingRows: nat, durationMs: nat, issues: seq<Issue>,
    attemptCount: nat, leaseExpiresAt: Timestamp)

  type Operations = map<OperationId, Operation>

  datatype Reservation = Created | Recovered | Replayed
  {
    predicate ShouldProcess() { Created? || Recovered? }
  }

  // ---- Specification ----

  /** The unique constraint on actor and idempotency key. */
  predicate KeysUnique(rows: Operations) {
    forall i, j | i in rows && j in rows && rows[i].key == rows[j].key :: i == j
  }

  predicate Taken(rows: Operations, key: RequestKey) {
    exists i :: i in rows && rows[i].key == key
  }

  ghost function Holder(rows: Operations, key: RequestKey): (i: OperationId)
    requires Taken(rows, key)
    ensures i in rows && rows[i].key == key
  {
    var i :| i in rows && rows[i].key == key;
    i
  }

  function LeaseEnd(now: Timestamp): Timestamp { now + RECOVERY_LEASE_SECONDS * SECOND }

  function NewOperation(key: RequestKey, request: FileDigest, now: Timestamp): Operation {
    Operation(key, request, Processing, false, 0, 0, 0, 0, [], 1, LeaseEnd(now))
  }

  /** Only the same request may take over, and only once the lease has run out. */
  predicate Recoverable(row: Operation, request: FileDigest, now: Timestamp) {
    row.request == request && row.status.Processing? && row.leaseExpiresAt <= now
  }

  ghost function Reserve(rows: Operations, key: RequestKey, request: FileDigest, candidate: OperationId, now: Timestamp)
    : (Operations, Reservation, OperationId)
  {
    if !Taken(rows, key) then
      (rows[candidate := NewOperation(key, request, now)], Created, candidate)
    else
      var i := Holder(rows, key);
      if Recoverable(rows[i], request, now) then
        (rows[i := rows[i].(leaseExpiresAt := LeaseEnd(now), attemptCount := rows[i].attemptCount + 1)], Recovered, i)
      else
        (rows, Replayed, i)
  }

  /** The attempt number is the fencing token. */
  predicate OwnsOperation(rows: Operations, i: OperationId, attempt: nat) {
    i in rows && rows[i].attemptCount == attempt && rows[i].status.Processing?
  }

  function Completed(row: Operation, result: ImportResult, durationMs: nat): Operation {
    row.(status := Done(result.status), accepted := result.accepted, totalRows := result.totalRows,
         insertedRows := result.insertedRows, existingRows := result.existingRows,
         durationMs := durationMs, issues := result.issues)
  }

  function PayloadFor(e: EventId, i: OperationId, result: ImportResult, now: Timestamp): Payload {
    Payload(e, i, result.status, result.totalRows, result.insertedRows, result.existingRows, now)
  }

  /** Result and notification change together, in one transaction, or not at all. */
  function Complete(rows: Operations, outbox: Outbox, i: OperationId, attempt: nat, result: ImportResult,
                    durationMs: nat, e: EventId, now: Timestamp): (Operations, Outbox)
  {
    if OwnsOperation(rows, i, attempt) then
      (rows[i := Completed(rows[i], result, durationMs)],
       if result.accepted then Enqueue(outbox, PayloadFor(e, i, result, now), now) else outbox)
    else (rows, outbox)
  }

  // ---- The store ----

  class OperationStore {
    var rows: Operations
    const outbox: OutboxStore

    constructor (outbox: OutboxStore)
      ensures this.outbox == outbox && rows == map[]
    {
      this.outbox := outbox;
      rows := map[];
    }

    method ReserveOperation(key: RequestKey, request: FileDigest, candidate: OperationId, now: Timestamp)
      returns (reservation: Reservation, i: OperationId, row: Operation)
      requires KeysUnique(rows) && candidate !in rows
      modifies this`rows
      ensures KeysUnique(rows)
      ensures (rows, reservation, i) == Reserve(old(rows), key, request, candidate, now)
      ensures i in rows && row == rows[i]
    {
      if !exists x :: x in rows && rows[x].key == key {
        row := NewOperation(key, request, now);
        rows := rows[candidate := row];
        return Created, candidate, row;
      }
      i :| i in rows && rows[i].key == key;
      row := rows[i];
      if row.request == request && row.status.Processing? && row.leaseExpiresAt <= now {
        row := row.(leaseExpiresAt := LeaseEnd(now), attemptCount := row.attemptCount + 1);
        rows := rows[i := row];
        return Recovered, i, row;
      }
      return Replayed, i, row;
    }

    method CompleteOperation(i: OperationId, attempt: nat, result: ImportResult, durationMs: nat, e: EventId,
                             now: Timestamp)
      returns (row: Operation)
      requires i in rows && e !in outbox.rows
      modifies this`rows, outbox
      ensures (rows, outbox.rows) == Complete(old(rows), old(outbox.rows), i, attempt, result, durationMs, e, now)
      ensures row == rows[i]
    {
      row := rows[i];
      if row.attemptCount == attempt && row.status.Processing? {
        row := Completed(row, result, durationMs);
        rows := rows[i := row];
        if result.accepted {
          var _ := outbox.EnqueueCompletedImport(PayloadFor(e, i, result, now), now);
        }
      }
    }
  }

  // ---- What reservation means ----

  /** Exactly one of three outcomes, each decided by the stored row alone. */
  lemma ReservationDecided(rows: Operations, key: RequestKey, request: FileDigest, candidate: OperationId,
                           now: Timestamp, i: OperationId)
    requires KeysUnique(rows) && candidate !in rows
    requires Taken(rows, key) ==> i in rows && rows[i].key == key
    ensures var (after, reservation, at) := Reserve(rows, key, request, candidate, now);
            && KeysUnique(after)
            && (reservation.Created? <==> !Taken(rows, key))
            && (reservation.Recovered? <==> Taken(rows, key) && Recoverable(rows[i], request, now))
            && (reservation.Replayed? ==> after == rows)
            && (reservation.Created? ==> at == candidate)
            && (!reservation.Created? ==> at == i)
            && at in after && after[at].key == key
            && (reservation.ShouldProcess() ==>
                  && after[at].request == request && after[at].status.Processing?
                  && after[at].leaseExpiresAt == now + 360 * SECOND)
            && (reservation.Created? ==>
                after[at].attemptCount == 1 && !after[at].accepted && after[at].insertedRows == 0)
            && (reservation.Recovered? ==>
                  after[at] == rows[at].(attemptCount := rows[at].attemptCount + 1,
                                         leaseExpiresAt := now + 360 * SECOND))
            && (forall x | x in rows && x != at :: x in after && after[x] == rows[x])
            && after.Keys == rows.Keys + {at}
  {}

  /**
   * A used key leaves the table alone if and only if the body differs, the request is finished, or its lease
   * still runs; and then the stored row is replayed.
   */
  lemma MismatchChangesNothing(rows: Operations, key: RequestKey, request: FileDigest, candidate: OperationId,
                               now: Timestamp, i: OperationId)
    requires KeysUnique(rows) && i in rows && rows[i].key == key
    ensures Reserve(rows, key, request, candidate, now).0 == rows
            <==> rows[i].request != request || rows[i].status.Done? || now < rows[i].leaseExpiresAt
    ensures Reserve(rows, key, request, candidate, now).0 == rows ==>
              Reserve(rows, key, request, candidate, now) == (rows, Replayed, i)
  {
    var after := Reserve(rows, key, request, candidate, now).0;
    if Recoverable(rows[i], request, now) { assert after[i].attemptCount == rows[i].attemptCount + 1; }
  }

  /**
   * A result is written exactly by the attempt that the stored number names, while the operation is processing;
   * and then an accepted one queues a notification of just these counts, to be delivered from now on.
   */
  lemma CompletionDecided(rows: Operations, outbox: Outbox, i: OperationId, attempt: nat, result: ImportResult,
                          durationMs: nat, e: EventId, now: Timestamp)
    requires e !in outbox
    ensures var (after, queue) := Complete(rows, outbox, i, attempt, result, durationMs, e, now);
            if !(i in rows && rows[i].attemptCount == attempt && rows[i].status == Processing)
            then after == rows && queue == outbox
            else
              && after.Keys == rows.Keys && (forall x | x in rows && x != i :: after[x] == rows[x])
              && after[i].status == Done(result.status) && after[i].accepted == result.accepted
              && after[i].totalRows == result.totalRows && after[i].insertedRows == result.insertedRows
              && after[i].existingRows == result.existingRows && after[i].issues == result.issues
              && after[i].durationMs == durationMs && after[i].key == rows[i].key && after[i].request == rows[i].request
              && after[i].attemptCount == attempt && after[i].leaseExpiresAt == rows[i].leaseExpiresAt
              && (!result.accepted || (exists x :: x in outbox && outbox[x].operationId == i) ==> queue == outbox)
              && (result.accepted && (forall x | x in outbox :: outbox[x].operationId != i) ==>
                    && queue.Keys == outbox.Keys + {e} && (forall x | x in outbox :: queue[x] == outbox[x])
                    && queue[e].status == Pending && queue[e].attemptCount == 0 && queue[e].availableAt == now
                    && queue[e].operationId == i == queue[e].payload.operationId
                    && queue[e].payload.eventId == e && queue[e].payload.importStatus == result.status
                    && queue[e].payload.totalRows == result.totalRows
                    && queue[e].payload.insertedRows == result.insertedRows
                    && queue[e].payload.existingRows == result.existingRows && queue[e].payload.occurredAt == now)
  {}

  // ---- Retry-After ----

  /** `math.ceil` of a duration in seconds. */
  function CeilSeconds(duration: int): int { -((-duration) / SECOND) }

  /** The header of a 202 response, in whole seconds. */
  function RetryAfter(leaseExpiresAt: Timestamp, now: Timestamp): int {
    var remaining := CeilSeconds(leaseExpiresAt - now);
    var bounded := if remaining < RECOVERY_LEASE_SECONDS then remaining else RECOVERY_LEASE_SECONDS;
    if bounded < 1 then 1 else bounded
  }

  /** The fewest whole seconds after which the lease is over, from 1 to 360. */
  predicate LeastWait(leaseExpiresAt: Timestamp, now: Timestamp, seconds: int) {
    && 1 <= seconds <= 360
    && (leaseExpiresAt <= now + 360 * SECOND ==> leaseExpiresAt <= now + seconds * SECOND)
    && (seconds > 1 ==> now + (seconds - 1) * SECOND < leaseExpiresAt)
  }

  /**
   * Waiting as told suffices exactly when the lease ends within the recovery lease on the clock of
   * the process that answers; and then no shorter whole number of seconds, from one up, suffices.
   */
  lemma RetryAfterSuffices(leaseExpiresAt: Timestamp, now: Timestamp)
    ensures (leaseExpiresAt <= now + RetryAfter(leaseExpiresAt, now) * SECOND) <==>
            (leaseExpiresAt <= now + RECOVERY_LEASE_SECONDS * SECOND)
    ensures RetryAfter(leaseExpiresAt, now) > 1 ==>
              now + (RetryAfter(leaseExpiresAt, now) - 1) * SECOND < leaseExpiresAt
    ensures 1 <= RetryAfter(leaseExpiresAt, now) <= 360
    ensures LeastWait(leaseExpiresAt, now, RetryAfter(leaseExpiresAt, now))
  {
    var d := leaseExpiresAt - now;
    var q, r := (-d) / SECOND, (-d) % SECOND;
    assert -d == q * SECOND + r;
  }
}

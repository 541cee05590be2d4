/** The transactional outbox: enqueue, claim with a lease, and fenced settlement. */
module IntegrationStore {
  import opened Common
  import opened Importer

  type OperationId = nat
  type EventId = nat

  datatype EventStatus = Pending | Delivering | Delivered | DeadLetter

  datatype FailureCode = PartnerHttp(status: int) | PartnerTimeout | PartnerUnreachable

  /** The notification sent to the partner: counts and identifiers, never customer data. */
  datatype Payload = Payload(
    eventId: EventId, operationId: OperationId, importStatus: Outcome,
    totalRows: nat, insertedRows: nat, existingRows: nat, occurredAt: Timestamp)

  datatype OutboxEvent = OutboxEvent(
    operationId: OperationId, payload: Payload, status: EventStatus, attemptCount: nat,
    availableAt: Timestamp, leaseExpiresAt: Option<Timestamp>, lastFailureCode: Option<FailureCode>,
    deliveredAt: Option<Timestamp>, createdAt: Timestamp)
  {
    predicate Finished() { status.Delivered? || status.DeadLetter? }
  }

  type Outbox = map<EventId, OutboxEvent>

  datatype RetryPolicy = RetryPolicy(maxAttempts: nat, baseSeconds: nat, maxSeconds: nat, leaseSeconds: nat)
  {
    /** What the worker's settings enforce at start-up. */
    predicate Valid() {
      1 <= maxAttempts <= 20 && 1 <= baseSeconds <= maxSeconds <= 3600 && 1 <= leaseSeconds
    }
  }

  // ---- Specification ----

  predicate Enqueued(rows: Outbox, op: OperationId) {
    exists e :: e in rows && rows[e].operationId == op
  }

  function NewEvent(payload: Payload, now: Timestamp): OutboxEvent {
    OutboxEvent(payload.operationId, payload, Pending, 0, now, None, None, None, now)
  }

  /** `ON CONFLICT (operation_id)` keeps the row that is there. */
  function Enqueue(rows: Outbox, payload: Payload, now: Timestamp): Outbox {
    if Enqueued(rows, payload.operationId) then rows
    else rows[payload.eventId := NewEvent(payload, now)]
  }

  predicate LeaseExpired(row: OutboxEvent, now: Timestamp) {
    row.status.Delivering? && row.leaseExpiresAt.Some? && row.leaseExpiresAt.value <= now
  }

  predicate Claimable(row: OutboxEvent, now: Timestamp) {
    row.availableAt <= now && (row.status.Pending? || LeaseExpired(row, now))
  }

  /** `ORDER BY available_at, created_at`; rows with equal keys come in any order. */
  predicate AtOrBefore(a: OutboxEvent, b: OutboxEvent) {
    a.availableAt < b.availableAt || (a.availableAt == b.availableAt && a.createdAt <= b.createdAt)
  }

  /** A row that `LIMIT 1 FOR UPDATE SKIP LOCKED` may return while others hold `locked`. */
  predicate Candidate(rows: Outbox, now: Timestamp, locked: set<EventId>, e: EventId) {
    && e in rows && e !in locked && Claimable(rows[e], now)
    && forall x | x in rows && x !in locked && Claimable(rows[x], now) :: AtOrBefore(rows[e], rows[x])
  }

  function Claimed(row: OutboxEvent, now: Timestamp, leaseSeconds: nat): OutboxEvent {
    row.(status := Delivering,
         attemptCount := row.attemptCount + 1,
         leaseExpiresAt := Some(now + leaseSeconds * SECOND))
  }

  /** The fencing token: the attempt number the worker was given still owns the row. */
  predicate Owns(rows: Outbox, e: EventId, attempt: nat) {
    e in rows && rows[e].status.Delivering? && rows[e].attemptCount == attempt
  }

  function SettleDelivered(rows: Outbox, e: EventId, attempt: nat, now: Timestamp): Outbox {
    if Owns(rows, e, attempt)
    then rows[e := rows[e].(status := Delivered, leaseExpiresAt := None, deliveredAt := Some(now))]
    else rows
  }

  function Pow2(n: nat): nat { if n == 0 then 1 else 2 * Pow2(n - 1) }

  function BackoffSeconds(policy: RetryPolicy, attempt: nat): nat {
    var seconds := policy.baseSeconds * Pow2(if attempt == 0 then 0 else attempt - 1);
    if seconds < policy.maxSeconds then seconds else policy.maxSeconds
  }

  function FailedRow(row: OutboxEvent, code: FailureCode, retryable: bool, policy: RetryPolicy,
                     now: Timestamp): OutboxEvent {
    if retryable && row.attemptCount < policy.maxAttempts then
      row.(status := Pending, availableAt := now + BackoffSeconds(policy, row.attemptCount) * SECOND,
           leaseExpiresAt := None, lastFailureCode := Some(code))
    else
      row.(status := DeadLetter, leaseExpiresAt := None, lastFailureCode := Some(code))
  }

  function SettleFailed(rows: Outbox, e: EventId, attempt: nat, code: FailureCode, retryable: bool,
                      policy: RetryPolicy, now: Timestamp): Outbox
  {
    if Owns(rows, e, attempt) then rows[e := FailedRow(rows[e], code, retryable, policy, now)] else rows
  }

  // ---- The store ----

  /** The event a worker holds: its identifier and the row as it was when claimed. */
  datatype ClaimedEvent = ClaimedEvent(eventId: EventId, row: OutboxEvent)

  class OutboxStore {
    var rows: Outbox

    method EnqueueCompletedImport(payload: Payload, now: Timestamp) returns (e: EventId)
      requires payload.eventId !in rows
      modifies this
      ensures rows == Enqueue(old(rows), payload, now)
      ensures e in rows && rows[e].operationId == payload.operationId
      ensures e in old(rows) ==> rows == old(rows)
      ensures e !in old(rows) ==>
                && e == payload.eventId && rows == old(rows)[e := rows[e]] && rows[e].payload == payload
                && rows[e].status == Pending && rows[e].attemptCount == 0 && rows[e].leaseExpiresAt == None
                && rows[e].availableAt == now == rows[e].createdAt && rows[e].deliveredAt == None
    {
      if exists x :: x in rows && rows[x].operationId == payload.operationId {
        e :| e in rows && rows[e].operationId == payload.operationId;
      } else {
        e := payload.eventId;
        rows := rows[e := NewEvent(payload, now)];
      }
    }

    method ClaimNextEvent(now: Timestamp, leaseSeconds: nat, locked: set<EventId>) returns (event: Option<ClaimedEvent>)
      modifies this
      ensures event.None? ==>
                rows == old(rows) && forall x | x in rows :: x in locked || !Claimable(rows[x], now)
      ensures event.Some? ==>
                && Candidate(old(rows), now, locked, event.value.eventId)
                && rows == old(rows)[event.value.eventId := event.value.row]
                && event.value.row == Claimed(old(rows)[event.value.eventId], now, leaseSeconds)
      ensures event.Some? ==> LeasedOut(old(rows)[event.value.eventId], event.value.row, now + leaseSeconds * SECOND)
    {
      var claimable := set x | x in rows && x !in locked && Claimable(rows[x], now);
      if claimable == {} {
        assert forall x | x in rows :: x in locked || x in claimable || !Claimable(rows[x], now);
        return None;
      }
      EarliestExists(rows, claimable);
      var e :| e in claimable && forall x | x in claimable :: AtOrBefore(rows[e], rows[x]);
      var row := Claimed(rows[e], now, leaseSeconds);
      rows := rows[e := row];
      return Some(ClaimedEvent(e, row));
    }

    method MarkDelivered(event: ClaimedEvent, now: Timestamp) returns (persisted: bool)
      modifies this
      ensures persisted == Owns(old(rows), event.eventId, event.row.attemptCount)
      ensures rows == SettleDelivered(old(rows), event.eventId, event.row.attemptCount, now)
    {
      persisted := Owns(rows, event.eventId, event.row.attemptCount);
      if persisted {
        var row := rows[event.eventId];
        rows := rows[event.eventId := row.(status := Delivered, leaseExpiresAt := None, deliveredAt := Some(now))];
      }
    }

    /** Returns the new status, or nothing for a stale attempt. */
    method MarkFailedAttempt(event: ClaimedEvent, code: FailureCode, retryable: bool, policy: RetryPolicy,
                             now: Timestamp)
      returns (status: Option<EventStatus>)
      modifies this
      ensures status.Some? == Owns(old(rows), event.eventId, event.row.attemptCount)
      ensures rows == SettleFailed(old(rows), event.eventId, event.row.attemptCount, code, retryable, policy, now)
      ensures status.Some? ==> status.value == rows[event.eventId].status
    {
      var exhausted := event.row.attemptCount >= policy.maxAttempts;
      var next := if retryable && !exhausted then Pending else DeadLetter;
      var backoff := BackoffSeconds(policy, event.row.attemptCount);
      if !Owns(rows, event.eventId, event.row.attemptCount) {
        return None;
      }
      var row := rows[event.eventId];
      rows := rows[event.eventId := row.(
                     status := next,
                     availableAt := if next == Pending then now + backoff * SECOND else row.availableAt,
                     leaseExpiresAt := None,
                     lastFailureCode := Some(code))];
      return Some(next);
    }
  }

  /** Any non-empty set of rows has one that no other precedes. */
  lemma {:induction false} EarliestExists(rows: Outbox, among: set<EventId>)
    requires among != {} && forall x | x in among :: x in rows
    ensures exists e :: e in among && forall x | x in among :: AtOrBefore(rows[e], rows[x])
    decreases |among|
  {
    var a :| a in among;
    var rest := among - {a};
    if rest == {} {
      assert among == {a};
      assert AtOrBefore(rows[a], rows[a]);
    } else {
      EarliestExists(rows, rest);
      var b :| b in rest && forall x | x in rest :: AtOrBefore(rows[b], rows[x]);
      var e := if AtOrBefore(rows[a], rows[b]) then a else b;
      assert e in among && forall x | x in among :: AtOrBefore(rows[e], rows[x]);
    }
  }

  // ---- What a claim is ----

  /** The row after a claim: one attempt more, leased until `end`, everything else as it was. */
  predicate LeasedOut(before: OutboxEvent, after: OutboxEvent, end: Timestamp) {
    && after.status == Delivering && after.attemptCount == before.attemptCount + 1 && after.leaseExpiresAt == Some(end)
    && after.operationId == before.operationId && after.payload == before.payload
    && after.availableAt == before.availableAt && after.createdAt == before.createdAt
    && after.lastFailureCode == before.lastFailureCode && after.deliveredAt == before.deliveredAt
  }

  /**
   * Which row a claim may take: one that is available and either pending or abandoned, and of all such rows that
   * nobody has locked one that has been available longest, and among those was created first.
   */
  lemma ClaimDecided(rows: Outbox, now: Timestamp, locked: set<EventId>, e: EventId)
    ensures Candidate(rows, now, locked, e) <==>
              var open := set x | x in rows && x !in locked && rows[x].availableAt <= now
                                  && (rows[x].status == Pending
                                      || (rows[x].status == Delivering && rows[x].leaseExpiresAt.Some?
                                          && rows[x].leaseExpiresAt.value <= now));
              && e in open
              && (forall x | x in open :: rows[e].availableAt <= rows[x].availableAt)
              && (forall x | x in open && rows[x].availableAt == rows[e].availableAt ::
                    rows[e].createdAt <= rows[x].createdAt)
  {
    var open := set x | x in rows && x !in locked && rows[x].availableAt <= now
                        && (rows[x].status == Pending
                            || (rows[x].status == Delivering && rows[x].leaseExpiresAt.Some?
                                && rows[x].leaseExpiresAt.value <= now));
    assert forall x | x in rows :: x in open <==> x !in locked && Claimable(rows[x], now);
    if Candidate(rows, now, locked, e) {
      assert forall x | x in open :: AtOrBefore(rows[e], rows[x]);
    }
  }

  // ---- Backoff ----

  lemma {:induction false} Pow2Positive(n: nat)
    ensures Pow2(n) >= 1
  {
    if n > 0 { Pow2Positive(n - 1); }
  }

  /** The delay starts at the base, doubles with each attempt, and is capped; it is never zero. */
  lemma BackoffDoubles(policy: RetryPolicy, attempt: nat)
    requires policy.Valid() && attempt >= 1
    ensures BackoffSeconds(policy, 1) == policy.baseSeconds
    ensures 1 <= policy.baseSeconds <= BackoffSeconds(policy, attempt) <= policy.maxSeconds
    ensures var doubled := 2 * BackoffSeconds(policy, attempt);
            BackoffSeconds(policy, attempt + 1) == if doubled < policy.maxSeconds then doubled else policy.maxSeconds
  {
    assert Pow2(0) == 1;
    Pow2Positive(attempt - 1);
    var p := Pow2(attempt - 1);
    assert Pow2(attempt) == 2 * p;
    assert policy.baseSeconds * (2 * p) == 2 * (policy.baseSeconds * p);
    assert policy.baseSeconds * p >= policy.baseSeconds;
  }
}

/** The delivery worker: what it makes of a response, and one round of its loop. */
module IntegrationWorker {
  import opened Common
  import opened IntegrationStore
  import opened PartnerApi

  /** What the HTTP call shows the worker; the response may never arrive. */
  datatype Observation = Status(code: int) | Timeout | Unreachable

  datatype DeliveryResult = DeliveredResult | FailedResult(retryable: bool, error: FailureCode)

  function ClassifyHttpStatus(status: int): bool { status in {408, 425, 429} || status >= 500 }

  function DeliverEvent(seen: Observation): DeliveryResult {
    match seen
    case Status(code) =>
      if 200 <= code < 300 then DeliveredResult else FailedResult(ClassifyHttpStatus(code), PartnerHttp(code))
    case Timeout => FailedResult(true, PartnerTimeout)
    case Unreachable => FailedResult(true, PartnerUnreachable)
  }

  /** The status code the partner answers with. */
  function StatusOf(reply: Reply): int {
    match reply
    case Accepted(_) => 200
    case TransientFailure => 503
    case BodyConflict => 409
  }

  /** The write that ends a round. */
  function Settle(rows: Outbox, event: ClaimedEvent, seen: Observation, policy: RetryPolicy, now: Timestamp): Outbox {
    match DeliverEvent(seen)
    case DeliveredResult => SettleDelivered(rows, event.eventId, event.row.attemptCount, now)
    case FailedResult(retryable, error) =>
      SettleFailed(rows, event.eventId, event.row.attemptCount, error, retryable, policy, now)
  }

  /** What may be tried again: the transient status classes, and a network that stays silent. */
  predicate Transient(seen: Observation) {
    seen.Timeout? || seen.Unreachable? || seen.code in {408, 425, 429} || seen.code >= 500
  }

  /** What is stored of a failure: the status code, or the way the network failed. */
  function CodeOf(seen: Observation): FailureCode {
    match seen
    case Status(code) => PartnerHttp(code)
    case Timeout => PartnerTimeout
    case Unreachable => PartnerUnreachable
  }

  /**
   * What an observation does to the event. A holder that was overtaken changes nothing. The owner's event
   * ends delivered exactly on a 2xx; it waits for another attempt, between the base and the largest delay
   * from now, exactly after a transient failure below the attempt limit; everything else is given up, however
   * many attempts are left. Payload, attempt number and all other events stay as they are.
   */
  lemma DeliveryClassified(rows: Outbox, event: ClaimedEvent, seen: Observation, policy: RetryPolicy, now: Timestamp)
    requires policy.Valid() && event.row.attemptCount >= 1
    ensures var e, a, after := event.eventId, event.row.attemptCount, Settle(rows, event, seen, policy, now);
            var success := seen.Status? && 200 <= seen.code <= 299;
            if !(e in rows && rows[e].status == Delivering && rows[e].attemptCount == a) then after == rows
            else
              && after.Keys == rows.Keys && (forall x | x in rows && x != e :: after[x] == rows[x])
              && after[e].payload == rows[e].payload && after[e].attemptCount == a
              && after[e].leaseExpiresAt.None? && after[e].createdAt == rows[e].createdAt
              && (after[e].status.Delivered? <==> success)
              && (after[e].status.Pending? <==> !success && Transient(seen) && a < policy.maxAttempts)
              && (after[e].status.DeadLetter? <==> !success && (!Transient(seen) || a >= policy.maxAttempts))
              && after[e].deliveredAt == (if success then Some(now) else rows[e].deliveredAt)
              && after[e].lastFailureCode == (if success then rows[e].lastFailureCode else Some(CodeOf(seen)))
              && after[e].availableAt == (if after[e].status.Pending? then now + BackoffSeconds(policy, a) * SECOND
                                          else rows[e].availableAt)
              && (after[e].status.Pending? ==>
                    now + policy.baseSeconds * SECOND <= after[e].availableAt <= now + policy.maxSeconds * SECOND)
  {
    hide BackoffSeconds;
    BackoffDoubles(policy, event.row.attemptCount);
  }

  /**
   * The two ends fit together: an answer of the partner, sent as a status code and classified by the worker,
   * delivers the event if and only if the partner has written or recognised its receipt, retries it only
   * after a simulated failure, and gives it up at once if the partner holds another body.
   */
  lemma AnswerSettles(rows: Outbox, event: ClaimedEvent, partner: PartnerTables, simulatedFailures: nat,
                      policy: RetryPolicy, now: Timestamp)
    requires policy.Valid() && Owns(rows, event.eventId, event.row.attemptCount) && event.row.attemptCount >= 1
    ensures var e, body := event.eventId, Sha256(CanonicalBody(event.row.payload));
            var (tables, reply) := Record(partner, e, body, simulatedFailures);
            var after := Settle(rows, event, Status(StatusOf(reply)), policy, now);
            && (after[e].status.Delivered? <==> e in tables.receipts && tables.receipts[e] == body)
            && (after[e].status.Pending? <==> e !in tables.receipts && rows[e].attemptCount < policy.maxAttempts)
            && (after[e].status.DeadLetter? <==>
                  || (e in partner.receipts && partner.receipts[e] != body)
                  || (e !in tables.receipts && rows[e].attemptCount >= policy.maxAttempts))
            && (!after[e].status.Delivered? ==>
                  after[e].lastFailureCode == Some(PartnerHttp(if e in tables.receipts then 409 else 503)))
  {
    hide CanonicalBody, Settle, BackoffSeconds;
    var reply := Record(partner, event.eventId, Sha256(CanonicalBody(event.row.payload)), simulatedFailures).1;
    DeliveryClassified(rows, event, Status(StatusOf(reply)), policy, now);
  }

  /** `process_one` with an intact network: claim at `claimedAt`, deliver, settle at `settledAt`. */
  method ProcessOne(outbox: OutboxStore, partner: PartnerStore, policy: RetryPolicy, simulatedFailures: nat,
                    claimedAt: Timestamp, settledAt: Timestamp)
    returns (event: Option<ClaimedEvent>)
    modifies outbox, partner
    ensures event.None? ==>
              && outbox.rows == old(outbox.rows) && partner.Contents() == old(partner.Contents())
              && forall x | x in outbox.rows :: !Claimable(outbox.rows[x], claimedAt)
    ensures event.Some? ==>
              var claimed := event.value;
              && Candidate(old(outbox.rows), claimedAt, {}, claimed.eventId)
              && claimed.row == Claimed(old(outbox.rows)[claimed.eventId], claimedAt, policy.leaseSeconds)
              && var (tables, reply) := Record(old(partner.Contents()), claimed.eventId,
                                               Sha256(CanonicalBody(claimed.row.payload)), simulatedFailures);
              && partner.Contents() == tables
              && outbox.rows == Settle(old(outbox.rows)[claimed.eventId := claimed.row], claimed,
                                       Status(StatusOf(reply)), policy, settledAt)
  {
    hide CanonicalBody, Candidate, Record;
    event := outbox.ClaimNextEvent(claimedAt, policy.leaseSeconds, {});
    if event.Some? {
      var claimed := event.value;
      var body := Sha256(CanonicalBody(claimed.row.payload));
      var reply := partner.RecordPartnerDelivery(claimed.eventId, body, simulatedFailures);
      match DeliverEvent(Status(StatusOf(reply))) {
        case DeliveredResult =>
          var _ := outbox.MarkDelivered(claimed, settledAt);
        case FailedResult(retryable, error) =>
          var _ := outbox.MarkFailedAttempt(claimed, error, retryable, policy, settledAt);
      }
    }
  }
}

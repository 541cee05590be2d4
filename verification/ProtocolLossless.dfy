/** The exact fate of an event when no worker crashes and no answer is lost. */
module ProtocolLossless {
  import opened Common
  import Counting
  import opened IntegrationStore
  import opened PartnerApi
  import opened IntegrationWorker
  import opened Protocol
  import opened ProtocolInvariant
  import opened ProtocolProgress

  /** For event `e`, the step loses nothing: one request per attempt, processed and answered before it ends. */
  predicate Lossless(s: State, step: Step, e: EventId) {
    && !Reclaims(s, step, e)
    && (step.Receive? && step.delivery in s.deliveries && s.deliveries[step.delivery].event.eventId == e ==>
          && Owns(s.outbox, e, s.deliveries[step.delivery].event.row.attemptCount)
          && s.deliveries[step.delivery].replies == [])
    && (step.Settle? && step.delivery in s.deliveries && s.deliveries[step.delivery].event.eventId == e ==>
          && |s.deliveries[step.delivery].replies| == 1
          && step.seen == Status(StatusOf(s.deliveries[step.delivery].replies[0])))
  }

  ghost predicate LosslessRun(c: Config, s: State, steps: seq<Step>, e: EventId)
    requires Allowed(c, s, steps)
    decreases |steps|
  {
    steps == [] || (Lossless(s, steps[0], e) && LosslessRun(c, Apply(c, s, steps[0]), steps[1..], e))
  }

  /** Seconds of backoff after the first `n` failures. */
  function Waits(policy: RetryPolicy, n: nat): nat {
    if n == 0 then 0 else Waits(policy, n - 1) + BackoffSeconds(policy, n)
  }

  predicate DueAfter(row: OutboxEvent, policy: RetryPolicy, failures: nat) {
    row.availableAt >= row.createdAt + Waits(policy, failures) * SECOND
  }

  /** The owner's request is either on its way or answered, as the attempt number decides. */
  predicate OwnerView(c: Config, s: State, e: EventId, d: DeliveryId)
    requires d in s.deliveries && e in s.outbox
  {
    var a, k := s.outbox[e].attemptCount, Attempts(s.partner, e);
    || (s.deliveries[d].replies == [] && k + 1 == a && e !in s.partner.receipts)
    || (k == a && s.deliveries[d].replies == [if a <= c.simulatedFailures then TransientFailure else Accepted(false)]
        && (e in s.partner.receipts <==> a > c.simulatedFailures))
  }

  /** Event and partner in step with each other, for a worker that loses nothing. */
  predicate InStep(c: Config, s: State, e: EventId) {
    if e !in s.outbox then e !in s.partner.attempts && e !in s.partner.receipts
    else
      var row, a, f := s.outbox[e], s.outbox[e].attemptCount, c.simulatedFailures;
      match row.status
      case Pending => a == Attempts(s.partner, e) <= f && e !in s.partner.receipts && DueAfter(row, c.policy, a)
      case Delivering =>
        && 1 <= a <= c.policy.maxAttempts && a <= f + 1 && DueAfter(row, c.policy, a - 1)
        && forall d | d in s.deliveries && s.deliveries[d].event.eventId == e
                      && s.deliveries[d].event.row.attemptCount == a ::
             OwnerView(c, s, e, d)
      case Delivered => a == f + 1 <= c.policy.maxAttempts && DueAfter(row, c.policy, f)
                        && row.deliveredAt.Some? && row.deliveredAt.value >= row.availableAt
      case DeadLetter => a == c.policy.maxAttempts <= f
  }

  // ---- One step ----

  /** Only the partner's handling of a delivery of `e` changes what the partner knows of `e`. */
  lemma PartnerMoves(c: Config, s: State, step: Step, e: EventId)
    requires Enabled(s, step)
    requires !(step.Receive? && s.deliveries[step.delivery].event.eventId == e)
    ensures var s' := Apply(c, s, step);
            && (e in s'.partner.attempts <==> e in s.partner.attempts)
            && Attempts(s'.partner, e) == Attempts(s.partner, e)
            && (e in s'.partner.receipts <==> e in s.partner.receipts)
            && forall d | d in s'.deliveries && s'.deliveries[d].event.eventId == e ::
                 if d in s.deliveries then s'.deliveries[d].event == s.deliveries[d].event
                                           && s'.deliveries[d].replies == s.deliveries[d].replies
                 else step == Claim(d, e, step.locked) && s'.deliveries[d].replies == []
  {
    hide DeliverEvent, CanonicalBody, FailedRow, ImportedFile, ApiStore.Reserve, ApiStore.Complete;
  }

  lemma OthersStayInStep(c: Config, s: State, step: Step, e: EventId)
    requires c.policy.Valid() && Enabled(s, step) && InStep(c, s, e) && e in s.outbox
    requires !Claims(step, e) && !Settles(s, step, e)
    requires !(step.Receive? && s.deliveries[step.delivery].event.eventId == e)
    ensures InStep(c, Apply(c, s, step), e)
  {
    hide Apply, DueAfter, Enabled;
    EventMoves(c, s, step, e);
    PartnerMoves(c, s, step, e);
    DeliveryIsNew(c, s, step);
  }

  lemma DeliveryIsNew(c: Config, s: State, step: Step)
    requires Enabled(s, step)
    ensures step.Claim? ==> step.delivery !in s.deliveries
    ensures step.Receive? ==> step.delivery in s.deliveries
  {}

  lemma ClaimStaysInStep(c: Config, s: State, step: Step, e: EventId)
    requires c.policy.Valid() && EventsOk(s.outbox, c.policy, s.now) && DeliveriesOk(s.outbox, s.deliveries)
    requires Enabled(s, step) && InStep(c, s, e) && Claims(step, e) && Lossless(s, step, e)
    ensures InStep(c, Apply(c, s, step), e)
  {
    hide Apply, Waits;
    assert e in s.outbox && s.outbox[e].status.Pending?;
    EventMoves(c, s, step, e);
    PartnerMoves(c, s, step, e);
  }

  lemma ReceiveStaysInStep(c: Config, s: State, step: Step, e: EventId)
    requires DeliveriesOk(s.outbox, s.deliveries) && Enabled(s, step) && InStep(c, s, e) && Lossless(s, step, e)
    requires step.Receive? && s.deliveries[step.delivery].event.eventId == e
    ensures InStep(c, Apply(c, s, step), e)
  {
    hide CanonicalBody, DueAfter, Record, InStep, DeliveriesOk;
    var d := s.deliveries[step.delivery];
    var body := Sha256(CanonicalBody(d.event.row.payload));
    OwnerIsUnanswered(c, s, e, step.delivery);
    RecordsNext(s.partner, e, body, c.simulatedFailures);
    var reply := Record(s.partner, e, body, c.simulatedFailures).1;
    assert d.replies + [reply] == [reply];
    AnswerStaysInStep(c, s, ApplyReceive(c, s, step.delivery), e, step.delivery);
  }

  lemma OwnerIsUnanswered(c: Config, s: State, e: EventId, d: DeliveryId)
    requires InStep(c, s, e) && d in s.deliveries && s.deliveries[d].event.eventId == e
    requires Owns(s.outbox, e, s.deliveries[d].event.row.attemptCount) && s.deliveries[d].replies == []
    ensures e !in s.partner.receipts && Attempts(s.partner, e) + 1 == s.outbox[e].attemptCount
  {
    hide DueAfter;
    assert OwnerView(c, s, e, d);
  }

  lemma AnswerStaysInStep(c: Config, s: State, s': State, e: EventId, d: DeliveryId)
    requires InStep(c, s, e) && DeliveriesOk(s.outbox, s.deliveries)
    requires d in s.deliveries && s.deliveries[d].event.eventId == e
    requires Owns(s.outbox, e, s.deliveries[d].event.row.attemptCount)
    requires s'.outbox == s.outbox && Attempts(s'.partner, e) == s.outbox[e].attemptCount
    requires e in s'.partner.receipts <==> Attempts(s'.partner, e) > c.simulatedFailures
    requires s'.deliveries == s.deliveries[d := s.deliveries[d].(replies :=
               [if Attempts(s'.partner, e) <= c.simulatedFailures then TransientFailure else Accepted(false)])]
    ensures InStep(c, s', e)
  {
    hide DueAfter;
    forall x | x in s'.deliveries && s'.deliveries[x].event.eventId == e
               && s'.deliveries[x].event.row.attemptCount == s.outbox[e].attemptCount
      ensures OwnerView(c, s', e, x)
    {
      assert x == d;
    }
  }

  /** The partner's answer to a request for an event it has no receipt for. */
  lemma RecordsNext(t: PartnerTables, e: EventId, body: BodyDigest, f: nat)
    requires e !in t.receipts
    ensures var (after, reply) := Record(t, e, body, f);
            && Attempts(after, e) == Attempts(t, e) + 1
            && reply == (if Attempts(after, e) <= f then TransientFailure else Accepted(false))
            && (e in after.receipts <==> Attempts(after, e) > f)
  {}

  lemma SettleStaysInStep(c: Config, s: State, step: Step, e: EventId)
    requires c.policy.Valid() && EventsOk(s.outbox, c.policy, s.now)
    requires Enabled(s, step) && InStep(c, s, e) && Lossless(s, step, e) && Settles(s, step, e)
    ensures InStep(c, Apply(c, s, step), e)
  {
    hide Apply, Waits, BackoffSeconds;
    EventMoves(c, s, step, e);
    PartnerMoves(c, s, step, e);
    assert OwnerView(c, s, e, step.delivery);
    RetryIsDue(c.policy, s.outbox[e], step.seen, s.now);
  }

  lemma RetryIsDue(policy: RetryPolicy, row: OutboxEvent, seen: Observation, now: Timestamp)
    requires row.attemptCount >= 1 && row.availableAt <= now && DueAfter(row, policy, row.attemptCount - 1)
    ensures SettledRow(row, seen, policy, now).status.Pending? ==>
              DueAfter(SettledRow(row, seen, policy, now), policy, row.attemptCount)
    ensures !SettledRow(row, seen, policy, now).status.Pending? ==>
              DueAfter(SettledRow(row, seen, policy, now), policy, row.attemptCount - 1)
  {
    hide DeliverEvent, BackoffSeconds;
  }

  lemma StepStaysInStep(c: Config, s: State, step: Step, e: EventId)
    requires c.policy.Valid() && Inv(c, s) && Enabled(s, step) && InStep(c, s, e) && Lossless(s, step, e)
    ensures InStep(c, Apply(c, s, step), e)
  {
    hide Apply, InStep, Inv, Lossless, Enabled;
    EventsFromInv(c, s);
    DeliveriesFromInv(c, s);
    if e !in s.outbox {
      NewEventInStep(c, s, step, e);
    } else if Claims(step, e) {
      ClaimStaysInStep(c, s, step, e);
    } else if Settles(s, step, e) {
      SettleStaysInStep(c, s, step, e);
    } else {
      DeliveryIsNew(c, s, step);
      if step.Receive? && s.deliveries[step.delivery].event.eventId == e {
        ReceiveStaysInStep(c, s, step, e);
      } else {
        OthersStayInStep(c, s, step, e);
      }
    }
  }

  lemma NewEventInStep(c: Config, s: State, step: Step, e: EventId)
    requires Enabled(s, step) && InStep(c, s, e) && e !in s.outbox && DeliveriesOk(s.outbox, s.deliveries)
    ensures InStep(c, Apply(c, s, step), e)
  {
    hide Apply;
    PartnerMoves(c, s, step, e);
    if e in Apply(c, s, step).outbox { EventAppears(c, s, step, e); }
  }

  lemma DeliveriesFromInv(c: Config, s: State)
    requires Inv(c, s)
    ensures DeliveriesOk(s.outbox, s.deliveries)
  {
    hide OperationsOk, CallsOk, WinnersOk, ImportsOk, ResultsOk, OutboxOk, EventsOk, DeliveriesOk, WritesOk,
        ReceiptsOk, RepliesOk;
  }

  lemma {:induction false} RunStaysInStep(c: Config, s: State, steps: seq<Step>, e: EventId)
    requires c.policy.Valid() && Reachable(c, s) && Allowed(c, s, steps)
    requires InStep(c, s, e) && LosslessRun(c, s, steps, e)
    ensures InStep(c, Run(c, s, steps), e)
    decreases |steps|
  {
    hide Inv, Reachable, Apply, InStep, Lossless, Enabled;
    if steps != [] {
      ReachableOk(c, s);
      ReachableStep(c, s, steps[0]);
      StepStaysInStep(c, s, steps[0], e);
      RunStaysInStep(c, Apply(c, s, steps[0]), steps[1..], e);
    }
  }

  /**
   * With `f` simulated failures and nothing lost, an event that ends is delivered on attempt f + 1 if the
   * limit allows it and is given up at the limit otherwise; and it is not delivered before the backoffs of
   * f failures have passed since it was created.
   */
  lemma LosslessOutcome(c: Config, now: Timestamp, steps: seq<Step>, e: EventId)
    requires c.policy.Valid() && Allowed(c, Init(now), steps) && LosslessRun(c, Init(now), steps, e)
    requires e in Run(c, Init(now), steps).outbox && Run(c, Init(now), steps).outbox[e].Finished()
    ensures var row, f := Run(c, Init(now), steps).outbox[e], c.simulatedFailures;
            && (row.status.Delivered? <==> f < c.policy.maxAttempts)
            && row.attemptCount == (if f < c.policy.maxAttempts then f + 1 else c.policy.maxAttempts)
            && (row.status.Delivered? ==>
                  row.deliveredAt.Some? && row.deliveredAt.value >= row.createdAt + Waits(c.policy, f) * SECOND)
  {
    hide Inv, Apply, Run, Allowed, LosslessRun, Waits;
    InitIsReachable(c, now);
    RunStaysInStep(c, Init(now), steps, e);
  }

  // ---- Such runs exist ----

  lemma Prepend(c: Config, s: State, step: Step, rest: seq<Step>, e: EventId)
    requires Enabled(s, step) && Lossless(s, step, e)
    requires Allowed(c, Apply(c, s, step), rest) && LosslessRun(c, Apply(c, s, step), rest, e)
    ensures Allowed(c, s, [step] + rest) && LosslessRun(c, s, [step] + rest, e)
    ensures Run(c, s, [step] + rest) == Run(c, Apply(c, s, step), rest)
  {
    hide Apply, Enabled, Lossless;
    assert ([step] + rest)[0] == step && ([step] + rest)[1..] == rest;
  }

  /** Wait until the event is available, then claim it while every other event is locked. */
  lemma WaitAndClaim(c: Config, s: State, e: EventId) returns (wait: Step, claim: Step)
    requires e in s.outbox && s.outbox[e].status.Pending?
    ensures Enabled(s, wait) && Lossless(s, wait, e)
    ensures var s1 := Apply(c, s, wait);
            && Enabled(s1, claim) && Lossless(s1, claim, e) && claim.Claim?
            && var s2 := Apply(c, s1, claim);
            && claim.delivery in s2.deliveries && s2.deliveries[claim.delivery].event.eventId == e
            && s2.deliveries[claim.delivery].phase.Open? && s2.deliveries[claim.delivery].replies == []
            && s2.deliveries[claim.delivery].event.row.attemptCount == s.outbox[e].attemptCount + 1
            && Owns(s2.outbox, e, s.outbox[e].attemptCount + 1)
  {
    var row := s.outbox[e];
    var d := Counting.Unused(s.deliveries.Keys);
    wait := Tick(if row.availableAt <= s.now then 0 else row.availableAt - s.now);
    claim := Claim(d, e, s.outbox.Keys - {e});
    var s1 := Apply(c, s, wait);
    assert s1.outbox == s.outbox && s1.deliveries == s.deliveries;
    assert Candidate(s1.outbox, s1.now, claim.locked, e);
  }

  /** The partner processes the request. */
  lemma Deliver(c: Config, s: State, e: EventId, d: DeliveryId) returns (receive: Step)
    requires d in s.deliveries && s.deliveries[d].event.eventId == e && s.deliveries[d].replies == []
    requires s.deliveries[d].phase.Open? && Owns(s.outbox, e, s.deliveries[d].event.row.attemptCount)
    ensures Enabled(s, receive) && Lossless(s, receive, e)
    ensures var s' := Apply(c, s, receive);
            && s'.outbox == s.outbox && d in s'.deliveries && s'.deliveries[d].event == s.deliveries[d].event
            && s'.deliveries[d].phase.Open? && |s'.deliveries[d].replies| == 1
  {
    hide CanonicalBody, Record;
    receive := Receive(d);
  }

  /** The worker sees the answer and settles. */
  lemma Conclude(c: Config, s: State, e: EventId, d: DeliveryId) returns (settle: Step)
    requires c.policy.Valid()
    requires d in s.deliveries && s.deliveries[d].event.eventId == e && |s.deliveries[d].replies| == 1
    requires s.deliveries[d].phase.Open? && Owns(s.outbox, e, s.deliveries[d].event.row.attemptCount)
    ensures Enabled(s, settle) && Lossless(s, settle, e)
    ensures var s' := Apply(c, s, settle);
            && e in s'.outbox && !s'.outbox[e].status.Delivering?
            && s'.outbox[e].attemptCount == s.outbox[e].attemptCount
  {
    var reply := s.deliveries[d].replies[0];
    settle := Settle(d, Status(StatusOf(reply)));
    assert Credible(s.deliveries[d], settle.seen);
    assert Enabled(s, settle) && Settles(s, settle, e);
    SettledRowOk(s.outbox[e], settle.seen, c.policy, s.now);
    EventMoves(c, s, settle, e);
  }

  /** From any such state a pending event can be brought to its end without loss. */
  lemma {:induction false} CanFinish(c: Config, s: State, e: EventId) returns (steps: seq<Step>)
    requires c.policy.Valid() && Reachable(c, s) && InStep(c, s, e) && e in s.outbox
    requires s.outbox[e].status.Pending?
    ensures Allowed(c, s, steps) && LosslessRun(c, s, steps, e)
    ensures e in Run(c, s, steps).outbox && Run(c, s, steps).outbox[e].Finished()
    decreases c.policy.maxAttempts - s.outbox[e].attemptCount
  {
    hide Inv, Reachable, InStep, Apply, Enabled, Lossless;
    var wait, claim := WaitAndClaim(c, s, e);
    var s1 := Apply(c, s, wait);
    var s2 := Apply(c, s1, claim);
    var receive := Deliver(c, s2, e, claim.delivery);
    var s3 := Apply(c, s2, receive);
    var settle := Conclude(c, s3, e, claim.delivery);
    var s4 := Apply(c, s3, settle);
    StaysReachableInStep(c, s, wait, e);
    StaysReachableInStep(c, s1, claim, e);
    StaysReachableInStep(c, s2, receive, e);
    StaysReachableInStep(c, s3, settle, e);
    var rest := [];
    if s4.outbox[e].status.Pending? {
      ReachableOk(c, s4);
      EventsFromInv(c, s4);
      rest := CanFinish(c, s4, e);
    }
    Prepend(c, s3, settle, rest, e);
    Prepend(c, s2, receive, [settle] + rest, e);
    Prepend(c, s1, claim, [receive] + ([settle] + rest), e);
    Prepend(c, s, wait, [claim] + ([receive] + ([settle] + rest)), e);
    steps := [wait] + ([claim] + ([receive] + ([settle] + rest)));
  }

  lemma StaysReachableInStep(c: Config, s: State, step: Step, e: EventId)
    requires c.policy.Valid() && Reachable(c, s) && Enabled(s, step) && InStep(c, s, e) && Lossless(s, step, e)
    ensures Reachable(c, Apply(c, s, step)) && InStep(c, Apply(c, s, step), e)
  {
    hide Inv, Reachable, InStep, Apply, Enabled, Lossless;
    ReachableOk(c, s);
    ReachableStep(c, s, step);
    StepStaysInStep(c, s, step, e);
  }

  lemma {:induction false} LosslessAppend(c: Config, s: State, first: seq<Step>, second: seq<Step>, e: EventId)
    requires Allowed(c, s, first) && LosslessRun(c, s, first, e)
    requires Allowed(c, Run(c, s, first), second) && LosslessRun(c, Run(c, s, first), second, e)
    ensures Allowed(c, s, first + second) && LosslessRun(c, s, first + second, e)
    ensures Run(c, s, first + second) == Run(c, Run(c, s, first), second)
    decreases |first|
  {
    hide Apply, Enabled, Lossless;
    if first == [] {
      assert first + second == second;
    } else {
      LosslessAppend(c, Apply(c, s, first[0]), first[1..], second, e);
      assert (first + second)[1..] == first[1..] + second;
    }
  }

  /**
   * Any run that has lost nothing so far can go on to finish a pending event without loss: the outcome above is
   * never vacuous.
   */
  lemma LosslessRunsFinish(c: Config, now: Timestamp, before: seq<Step>, e: EventId) returns (after: seq<Step>)
    requires c.policy.Valid() && Allowed(c, Init(now), before) && LosslessRun(c, Init(now), before, e)
    requires e in Run(c, Init(now), before).outbox && Run(c, Init(now), before).outbox[e].status.Pending?
    ensures Allowed(c, Init(now), before + after) && LosslessRun(c, Init(now), before + after, e)
    ensures var s := Run(c, Init(now), before + after); e in s.outbox && s.outbox[e].Finished()
  {
    hide Inv, Reachable, InStep, Apply, Enabled, Lossless, Run, Allowed, LosslessRun;
    StartsInStep(c, now, e);
    InitIsReachable(c, now);
    RunStaysInStep(c, Init(now), before, e);
    ReachableGrows(c, Init(now), before);
    after := CanFinish(c, Run(c, Init(now), before), e);
    LosslessAppend(c, Init(now), before, after, e);
  }

  lemma StartsInStep(c: Config, now: Timestamp, e: EventId)
    ensures InStep(c, Init(now), e)
  {}
}

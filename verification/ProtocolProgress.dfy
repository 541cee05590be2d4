/** How an event moves through a run: attempt accounting, overtaking, and bounds on both. */
module ProtocolProgress {
  import opened Common
  import opened Importer
  import Counting
  import opened IntegrationStore
  import opened ApiStore
  import opened PartnerApi
  import opened IntegrationWorker
  import opened Protocol
  import opened ProtocolInvariant

  // ---- One step, seen from one event ----

  predicate Claims(step: Step, e: EventId) { step.Claim? && step.event == e }

  /** The step takes over an event whose lease ran out. */
  predicate Reclaims(s: State, step: Step, e: EventId) {
    Claims(step, e) && e in s.outbox && s.outbox[e].status.Delivering?
  }

  /** The step is the write of the delivery that owns the event. */
  predicate Settles(s: State, step: Step, e: EventId) {
    && step.Settle? && step.delivery in s.deliveries && s.deliveries[step.delivery].event.eventId == e
    && Owns(s.outbox, e, s.deliveries[step.delivery].event.row.attemptCount)
  }

  /** What a step does to event `e`: nothing, a claim, or the owner's settlement. */
  lemma EventMoves(c: Config, s: State, step: Step, e: EventId)
    requires c.policy.Valid() && Enabled(s, step) && e in s.outbox
    ensures var after := Apply(c, s, step);
            && e in after.outbox
            && (Claims(step, e) ==>
                  && Claimable(s.outbox[e], s.now)
                  && after.outbox[e] == Claimed(s.outbox[e], s.now, c.policy.leaseSeconds))
            && (Settles(s, step, e) ==>
                  && s.outbox[e].status.Delivering?
                  && after.outbox[e] == SettledRow(s.outbox[e], step.seen, c.policy, s.now))
            && (!Claims(step, e) && !Settles(s, step, e) ==> after.outbox[e] == s.outbox[e])
  {
    hide DeliverEvent, FailedRow, ApplyReserve, ApplyReceive, ApplyImport;
    if step.Reserve? { ReserveLeavesOutbox(s, step.call, step.key, step.file, step.candidate); }
    if step.RunImport? { ImportLeavesOutbox(c, s, step.call, step.batch, step.fate); }
    if step.Receive? { ReceiveLeavesOutbox(c, s, step.delivery); }
  }

  lemma ReserveLeavesOutbox(s: State, call: CallId, key: RequestKey, file: File, candidate: OperationId)
    ensures ApplyReserve(s, call, key, file, candidate).outbox == s.outbox
    ensures ApplyReserve(s, call, key, file, candidate).now == s.now
  {}

  lemma ImportLeavesOutbox(c: Config, s: State, call: CallId, batch: BatchId, fate: Fate)
    requires call in s.calls
    ensures ApplyImport(c, s, call, batch, fate).outbox == s.outbox
    ensures ApplyImport(c, s, call, batch, fate).now == s.now
  {
    hide ImportedFile;
  }

  lemma ReceiveLeavesOutbox(c: Config, s: State, delivery: DeliveryId)
    requires delivery in s.deliveries
    ensures ApplyReceive(c, s, delivery).outbox == s.outbox
    ensures ApplyReceive(c, s, delivery).now == s.now
  {
    hide Record, CanonicalBody;
  }

  /** A step adds at most the notification it commits: pending, untried, available from now. */
  lemma EventAppears(c: Config, s: State, step: Step, e: EventId)
    requires Enabled(s, step) && e !in s.outbox && e in Apply(c, s, step).outbox
    ensures var row := Apply(c, s, step).outbox[e];
            row.status.Pending? && row.attemptCount == 0 && row.availableAt == s.now == row.createdAt
    ensures !Claims(step, e) && !Settles(s, step, e)
  {
    hide DeliverEvent, FailedRow, ApplyReserve, ApplyReceive, ApplyImport;
    if step.Reserve? { ReserveLeavesOutbox(s, step.call, step.key, step.file, step.candidate); }
    if step.RunImport? { ImportLeavesOutbox(c, s, step.call, step.batch, step.fate); }
    if step.Receive? { ReceiveLeavesOutbox(c, s, step.delivery); }
  }

  // ---- Attempt accounting ----

  function AttemptOf(s: State, e: EventId): nat { if e in s.outbox then s.outbox[e].attemptCount else 0 }

  function Busy(s: State, e: EventId): nat { if e in s.outbox && !s.outbox[e].status.Pending? then 1 else 0 }

  function InDelivery(s: State, e: EventId): nat { if e in s.outbox && s.outbox[e].status.Delivering? then 1 else 0 }

  /** Counts over a run: leases taken over, retries scheduled, and changes of the row. */
  datatype Tally = Tally(reclaims: nat, retries: nat, changes: nat)

  ghost predicate Retries(c: Config, s: State, step: Step, e: EventId)
    requires Enabled(s, step)
  {
    Settles(s, step, e) && e in Apply(c, s, step).outbox && Apply(c, s, step).outbox[e].status.Pending?
  }

  ghost function StepTally(c: Config, s: State, step: Step, e: EventId): Tally
    requires Enabled(s, step)
  {
    Tally(if Reclaims(s, step, e) then 1 else 0,
          if Retries(c, s, step, e) then 1 else 0,
          if e in s.outbox && e in Apply(c, s, step).outbox && Apply(c, s, step).outbox[e] != s.outbox[e] then 1 else 0)
  }

  ghost function RunTally(c: Config, s: State, steps: seq<Step>, e: EventId): Tally
    requires Allowed(c, s, steps)
    decreases |steps|
  {
    if steps == [] then Tally(0, 0, 0) else
      var first := StepTally(c, s, steps[0], e);
      var rest := RunTally(c, Apply(c, s, steps[0]), steps[1..], e);
      Tally(first.reclaims + rest.reclaims, first.retries + rest.retries, first.changes + rest.changes)
  }

  lemma StepAccounts(c: Config, s: State, step: Step, e: EventId)
    requires c.policy.Valid() && EventsOk(s.outbox, c.policy, s.now) && Enabled(s, step)
    ensures var s', t := Apply(c, s, step), StepTally(c, s, step, e);
            && AttemptOf(s', e) + Busy(s, e) == AttemptOf(s, e) + t.retries + t.reclaims + Busy(s', e)
            && t.changes + t.reclaims + InDelivery(s', e) + 2 * AttemptOf(s, e)
               == 2 * AttemptOf(s', e) + InDelivery(s, e)
            && (AttemptOf(s', e) > AttemptOf(s, e) ==> t.reclaims == 1 || AttemptOf(s', e) <= c.policy.maxAttempts)
            && AttemptOf(s', e) <= AttemptOf(s, e) + 1
  {
    hide Apply, DeliverEvent, BackoffSeconds, Enabled;
    if e in s.outbox {
      EventMoves(c, s, step, e);
    } else if e in Apply(c, s, step).outbox {
      EventAppears(c, s, step, e);
    } else {
      NoEventNoSettle(s, step, e);
    }
  }

  lemma NoEventNoSettle(s: State, step: Step, e: EventId)
    requires e !in s.outbox
    ensures !Settles(s, step, e) && !Reclaims(s, step, e)
  {}

  /**
   * Over any run the attempt counter is the retries plus the reclaims, plus one while the event is
   * not pending; and the row changes exactly as often as this allows.
   */
  lemma {:induction false} AttemptsAccounted(c: Config, s: State, steps: seq<Step>, e: EventId)
    requires c.policy.Valid() && Reachable(c, s) && Allowed(c, s, steps)
    ensures var s', t := Run(c, s, steps), RunTally(c, s, steps, e);
            && AttemptOf(s', e) + Busy(s, e) == AttemptOf(s, e) + t.retries + t.reclaims + Busy(s', e)
            && t.changes + t.reclaims + InDelivery(s', e) + 2 * AttemptOf(s, e)
               == 2 * AttemptOf(s', e) + InDelivery(s, e)
    decreases |steps|
  {
    hide Inv, Reachable, Apply, StepTally, Enabled, AttemptOf, Busy, InDelivery;
    if steps != [] {
      ReachableOk(c, s);
      EventsFromInv(c, s);
      StepAccounts(c, s, steps[0], e);
      ReachableStep(c, s, steps[0]);
      AttemptsAccounted(c, Apply(c, s, steps[0]), steps[1..], e);
    }
  }

  /** Only a reclaim can take the counter past the limit. */
  lemma {:induction false} AttemptsWithinLimit(c: Config, s: State, steps: seq<Step>, e: EventId, excess: nat)
    requires c.policy.Valid() && Reachable(c, s) && Allowed(c, s, steps)
    requires AttemptOf(s, e) <= c.policy.maxAttempts + excess
    ensures AttemptOf(Run(c, s, steps), e) <= c.policy.maxAttempts + excess + RunTally(c, s, steps, e).reclaims
    decreases |steps|
  {
    hide Inv, Reachable, Apply, StepTally, Enabled, AttemptOf, Busy, InDelivery;
    if steps != [] {
      ReachableOk(c, s);
      EventsFromInv(c, s);
      StepAccounts(c, s, steps[0], e);
      ReachableStep(c, s, steps[0]);
      AttemptsWithinLimit(c, Apply(c, s, steps[0]), steps[1..], e, excess + StepTally(c, s, steps[0], e).reclaims);
    }
  }

  lemma EventsFromInv(c: Config, s: State)
    requires Inv(c, s)
    ensures EventsOk(s.outbox, c.policy, s.now)
  {
    hide OperationsOk, CallsOk, WinnersOk, ImportsOk, ResultsOk, OutboxOk, DeliveriesOk, WritesOk, ReceiptsOk,
        RepliesOk;
  }

  /** From the empty system: the attempt bound, and a bound on how often an event can change at all. */
  lemma AttemptsBounded(c: Config, now: Timestamp, steps: seq<Step>, e: EventId)
    requires c.policy.Valid() && Allowed(c, Init(now), steps)
    ensures var s', t := Run(c, Init(now), steps), RunTally(c, Init(now), steps, e);
            && AttemptOf(s', e) == t.retries + t.reclaims + Busy(s', e)
            && AttemptOf(s', e) <= c.policy.maxAttempts + t.reclaims
            && (e in s'.outbox && s'.outbox[e].status.Pending? ==> AttemptOf(s', e) < c.policy.maxAttempts)
            && t.changes <= 2 * c.policy.maxAttempts + t.reclaims
  {
    hide Inv, Apply, RunTally, Run, Allowed;
    InitOk(c, now);
    InitIsReachable(c, now);
    NothingYet(now, e);
    AttemptsAccounted(c, Init(now), steps, e);
    AttemptsWithinLimit(c, Init(now), steps, e, 0);
    RunKeeps(c, Init(now), steps);
    EventsFromInv(c, Run(c, Init(now), steps));
  }

  lemma NothingYet(now: Timestamp, e: EventId)
    ensures AttemptOf(Init(now), e) == Busy(Init(now), e) == InDelivery(Init(now), e) == 0
  {}

  // ---- When the limit holds ----

  /** An expired lease is taken over although the event has used up its attempts: nothing checks the limit here. */
  predicate LateReclaim(c: Config, s: State, step: Step, e: EventId) {
    Reclaims(s, step, e) && s.outbox[e].attemptCount >= c.policy.maxAttempts
  }

  ghost predicate NoLateReclaim(c: Config, s: State, steps: seq<Step>, e: EventId)
    requires Allowed(c, s, steps)
    decreases |steps|
  {
    steps == [] || (!LateReclaim(c, s, steps[0], e) && NoLateReclaim(c, Apply(c, s, steps[0]), steps[1..], e))
  }

  /** Attempts never decrease, and a step takes them past the limit exactly if it is a late reclaim. */
  lemma StepPassesLimitIff(c: Config, s: State, step: Step, e: EventId)
    requires c.policy.Valid() && EventsOk(s.outbox, c.policy, s.now) && Enabled(s, step)
    ensures AttemptOf(Apply(c, s, step), e) >= AttemptOf(s, e)
    ensures AttemptOf(s, e) <= c.policy.maxAttempts ==>
              (AttemptOf(Apply(c, s, step), e) > c.policy.maxAttempts <==> LateReclaim(c, s, step, e))
  {
    hide Apply, DeliverEvent, BackoffSeconds, Enabled;
    if e in s.outbox {
      EventMoves(c, s, step, e);
    } else {
      NoEventNoSettle(s, step, e);
      if e in Apply(c, s, step).outbox { EventAppears(c, s, step, e); }
    }
  }

  lemma {:induction false} AttemptsOnlyGrow(c: Config, s: State, steps: seq<Step>, e: EventId)
    requires c.policy.Valid() && Reachable(c, s) && Allowed(c, s, steps)
    ensures AttemptOf(Run(c, s, steps), e) >= AttemptOf(s, e)
    decreases |steps|
  {
    hide Inv, Reachable, Apply, Enabled, AttemptOf, LateReclaim;
    if steps != [] {
      ReachableOk(c, s);
      EventsFromInv(c, s);
      StepPassesLimitIff(c, s, steps[0], e);
      ReachableStep(c, s, steps[0]);
      AttemptsOnlyGrow(c, Apply(c, s, steps[0]), steps[1..], e);
    }
  }

  lemma {:induction false} WithinLimitIff(c: Config, s: State, steps: seq<Step>, e: EventId)
    requires c.policy.Valid() && Reachable(c, s) && Allowed(c, s, steps)
    requires AttemptOf(s, e) <= c.policy.maxAttempts
    ensures AttemptOf(Run(c, s, steps), e) <= c.policy.maxAttempts <==> NoLateReclaim(c, s, steps, e)
    decreases |steps|
  {
    hide Inv, Reachable, Apply, Enabled, AttemptOf, LateReclaim;
    if steps != [] {
      var next := Apply(c, s, steps[0]);
      ReachableOk(c, s);
      EventsFromInv(c, s);
      StepPassesLimitIff(c, s, steps[0], e);
      ReachableStep(c, s, steps[0]);
      if LateReclaim(c, s, steps[0], e) {
        AttemptsOnlyGrow(c, next, steps[1..], e);
      } else {
        WithinLimitIff(c, next, steps[1..], e);
      }
    }
  }

  /** An event is tried at most as often as the limit says if and only if no worker takes it over at the limit. */
  lemma LimitHoldsIff(c: Config, now: Timestamp, steps: seq<Step>, e: EventId)
    requires c.policy.Valid() && Allowed(c, Init(now), steps)
    ensures AttemptOf(Run(c, Init(now), steps), e) <= c.policy.maxAttempts <==> NoLateReclaim(c, Init(now), steps, e)
  {
    hide Run, NoLateReclaim;
    InitIsReachable(c, now);
    WithinLimitIff(c, Init(now), steps, e);
  }

  // ---- Bounded overtaking ----

  /** Pending events that the claim order may put before `e`. */
  function Ahead(s: State, e: EventId): set<EventId>
    requires e in s.outbox
  {
    set x | x in s.outbox && x != e && s.outbox[x].status.Pending? && AtOrBefore(s.outbox[x], s.outbox[e])
  }

  /** `e` is waiting its turn: pending, available, and created strictly before now. */
  predicate Waiting(s: State, e: EventId) {
    e in s.outbox && s.outbox[e].status.Pending? && s.outbox[e].availableAt <= s.now && s.outbox[e].createdAt < s.now
  }

  /** Another event is claimed although `e` was there to be claimed. */
  predicate Overtakes(s: State, step: Step, e: EventId) {
    step.Claim? && step.event != e && e !in step.locked
  }

  /** Nothing that happens while `e` waits puts an event ahead of it; each overtaking claim uses one up. */
  lemma OvertakingStep(c: Config, s: State, step: Step, e: EventId)
    requires c.policy.Valid() && EventsOk(s.outbox, c.policy, s.now) && Enabled(s, step)
    requires Waiting(s, e) && !Claims(step, e)
    ensures var s' := Apply(c, s, step);
            && Waiting(s', e)
            && Ahead(s', e) <= Ahead(s, e)
            && (Overtakes(s, step, e) && !Reclaims(s, step, step.event) ==>
                  step.event in Ahead(s, e) && step.event !in Ahead(s', e))
  {
    hide Apply, DeliverEvent, Enabled;
    var s' := Apply(c, s, step);
    EventMoves(c, s, step, e);
    TimeAdvances(c, s, step);
    forall x | x in Ahead(s', e) ensures x in Ahead(s, e) {
      if x in s.outbox {
        EventMoves(c, s, step, x);
        if Settles(s, step, x) { RetriesLandLater(c.policy, s.outbox[x], step.seen, s.now); }
      } else {
        EventAppears(c, s, step, x);
      }
    }
    if step.Claim? { ClaimTakesEarliest(c, s, step, e); }
  }

  lemma TimeAdvances(c: Config, s: State, step: Step)
    requires Enabled(s, step)
    ensures Apply(c, s, step).now >= s.now
  {
    hide DeliverEvent, FailedRow, ApplyReserve, ApplyReceive, ApplyImport;
    if step.Reserve? { ReserveLeavesOutbox(s, step.call, step.key, step.file, step.candidate); }
    if step.RunImport? { ImportLeavesOutbox(c, s, step.call, step.batch, step.fate); }
    if step.Receive? { ReceiveLeavesOutbox(c, s, step.delivery); }
  }

  lemma RetriesLandLater(policy: RetryPolicy, row: OutboxEvent, seen: Observation, now: Timestamp)
    requires policy.Valid() && row.status.Delivering? && row.attemptCount >= 1
    ensures SettledRow(row, seen, policy, now).status.Pending? ==> SettledRow(row, seen, policy, now).availableAt > now
  {
    hide DeliverEvent, BackoffSeconds;
    BackoffDoubles(policy, row.attemptCount);
  }

  lemma ClaimTakesEarliest(c: Config, s: State, step: Step, e: EventId)
    requires Enabled(s, step) && step.Claim? && Waiting(s, e)
    ensures step.event in s.outbox && Apply(c, s, step).outbox.Keys == s.outbox.Keys
    ensures Apply(c, s, step).outbox[step.event].status.Delivering?
    ensures Overtakes(s, step, e) && !Reclaims(s, step, step.event) ==> step.event in Ahead(s, e)
  {}

  /** While `e` waits throughout a run. */
  ghost predicate WaitsThroughout(c: Config, s: State, steps: seq<Step>, e: EventId)
    requires Allowed(c, s, steps)
    decreases |steps|
  {
    steps == [] || (!Claims(steps[0], e) && WaitsThroughout(c, Apply(c, s, steps[0]), steps[1..], e))
  }

  ghost function Overtakings(c: Config, s: State, steps: seq<Step>, e: EventId): nat
    requires Allowed(c, s, steps)
    decreases |steps|
  {
    if steps == [] then 0 else
      (if Overtakes(s, steps[0], e) then 1 else 0) + Overtakings(c, Apply(c, s, steps[0]), steps[1..], e)
  }

  ghost function AllReclaims(c: Config, s: State, steps: seq<Step>): nat
    requires Allowed(c, s, steps)
    decreases |steps|
  {
    if steps == [] then 0 else
      (if steps[0].Claim? && Reclaims(s, steps[0], steps[0].event) then 1 else 0)
      + AllReclaims(c, Apply(c, s, steps[0]), steps[1..])
  }

  /** A waiting event is overtaken at most once by each event ahead of it, and by expired leases. */
  lemma {:induction false} OvertakingIsBounded(c: Config, s: State, steps: seq<Step>, e: EventId)
    requires c.policy.Valid() && Reachable(c, s) && Allowed(c, s, steps)
    requires Waiting(s, e) && WaitsThroughout(c, s, steps, e)
    ensures Waiting(Run(c, s, steps), e)
    ensures Overtakings(c, s, steps, e) + |Ahead(Run(c, s, steps), e)| <= |Ahead(s, e)| + AllReclaims(c, s, steps)
    decreases |steps|
  {
    hide Inv, Reachable, Apply, Waiting, Enabled;
    WaitingExists(s, e);
    if steps != [] {
      var t := Apply(c, s, steps[0]);
      ReachableOk(c, s);
      EventsFromInv(c, s);
      OvertakingStep(c, s, steps[0], e);
      ReachableStep(c, s, steps[0]);
      OvertakingIsBounded(c, t, steps[1..], e);
      WaitingExists(t, e);
      ShrinkingSize(c, s, steps[0], e);
    }
    WaitingExists(Run(c, s, steps), e);
  }

  lemma WaitingExists(s: State, e: EventId)
    ensures Waiting(s, e) ==> e in s.outbox
  {}

  lemma ShrinkingSize(c: Config, s: State, step: Step, e: EventId)
    requires Enabled(s, step) && e in s.outbox && e in Apply(c, s, step).outbox
    requires Ahead(Apply(c, s, step), e) <= Ahead(s, e)
    ensures |Ahead(Apply(c, s, step), e)| <= |Ahead(s, e)|
    ensures step.Claim? && step.event in Ahead(s, e) && step.event !in Ahead(Apply(c, s, step), e) ==>
              |Ahead(Apply(c, s, step), e)| + 1 <= |Ahead(s, e)|
  {
    hide Ahead, Apply, Enabled;
    var before, after := Ahead(s, e), Ahead(Apply(c, s, step), e);
    Counting.SubsetSize(after, before);
    if step.Claim? && step.event in before && step.event !in after {
      Counting.SubsetSize(after, before - {step.event});
    }
  }
}

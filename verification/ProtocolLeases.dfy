/** While a lease runs, the row it protects belongs to its holder alone. */
module ProtocolLeases {
  import opened Common
  import opened Importer
  import opened IntegrationStore
  import opened ApiStore
  import opened PartnerApi
  import opened IntegrationWorker
  import opened Protocol
  import opened ProtocolInvariant
  import opened ProtocolSafety
  import opened ProtocolProgress

  // ---- Events ----

  predicate Leased(row: OutboxEvent, at: Timestamp) {
    row.status.Delivering? && row.leaseExpiresAt.Some? && at < row.leaseExpiresAt.value
  }

  /** A step leaves a leased event alone, or is its holder's own write. */
  lemma LeasedEventStep(c: Config, s: State, step: Step, e: EventId)
    requires c.policy.Valid() && Enabled(s, step) && e in s.outbox && Leased(s.outbox[e], s.now)
    ensures var after := Apply(c, s, step);
            && e in after.outbox
            && (after.outbox[e] == s.outbox[e]
                || exists d, status :: Wrote(after.deliveries, d, e, s.outbox[e].attemptCount, status))
  {
    hide Apply, DeliverEvent, FailedRow, Enabled;
    EventMoves(c, s, step, e);
    if Settles(s, step, e) { SettleWrites(c, s, step, e); }
  }

  lemma SettleWrites(c: Config, s: State, step: Step, e: EventId)
    requires Enabled(s, step) && Settles(s, step, e)
    ensures exists status :: Wrote(Apply(c, s, step).deliveries, step.delivery, e, s.outbox[e].attemptCount, status)
  {
    hide DeliverEvent, FailedRow;
    var after := Apply(c, s, step);
    assert Wrote(after.deliveries, step.delivery, e, s.outbox[e].attemptCount, after.outbox[e].status);
  }

  lemma WroteStays(c: Config, s: State, step: Step, d: DeliveryId, e: EventId, attempt: nat, status: EventStatus)
    requires Enabled(s, step) && Wrote(s.deliveries, d, e, attempt, status)
    ensures Wrote(Apply(c, s, step).deliveries, d, e, attempt, status)
  {
    hide DeliverEvent, FailedRow, CanonicalBody, Record, ApplyReserve, ImportedFile, ApiStore.Complete;
    if step.Reserve? { ReserveLeavesDeliveries(s, step.call, step.key, step.file, step.candidate); }
  }

  lemma ReserveLeavesDeliveries(s: State, call: CallId, key: RequestKey, file: File, candidate: OperationId)
    ensures ApplyReserve(s, call, key, file, candidate).deliveries == s.deliveries
  {}

  lemma {:induction false} WroteStaysForever(c: Config, s: State, steps: seq<Step>, d: DeliveryId, e: EventId,
                                             attempt: nat, status: EventStatus)
    requires Allowed(c, s, steps) && Wrote(s.deliveries, d, e, attempt, status)
    ensures Wrote(Run(c, s, steps).deliveries, d, e, attempt, status)
    decreases |steps|
  {
    hide Apply, Enabled, Wrote;
    if steps != [] {
      WroteStays(c, s, steps[0], d, e, attempt, status);
      WroteStaysForever(c, Apply(c, s, steps[0]), steps[1..], d, e, attempt, status);
    }
  }

  /** Before its lease ends, a claimed event is changed by nobody but the delivery that claimed it. */
  lemma {:induction false} LeaseProtectsEvent(c: Config, s: State, steps: seq<Step>, e: EventId)
    requires c.policy.Valid() && Reachable(c, s) && Allowed(c, s, steps)
    requires e in s.outbox && Leased(s.outbox[e], Run(c, s, steps).now)
    ensures var s' := Run(c, s, steps);
            && e in s'.outbox
            && (s'.outbox[e] == s.outbox[e]
                || exists d, status :: Wrote(s'.deliveries, d, e, s.outbox[e].attemptCount, status))
    decreases |steps|
  {
    hide Inv, Reachable, Apply, Enabled, Wrote, EventEvolves;
    ReachableOk(c, s);
    RunExtends(c, s, steps);
    if steps != [] {
      var next := Apply(c, s, steps[0]);
      LeasedEventStep(c, s, steps[0], e);
      ReachableStep(c, s, steps[0]);
      if next.outbox[e] == s.outbox[e] {
        LeaseProtectsEvent(c, next, steps[1..], e);
      } else {
        var d, status :| Wrote(next.deliveries, d, e, s.outbox[e].attemptCount, status);
        WroteStaysForever(c, next, steps[1..], d, e, s.outbox[e].attemptCount, status);
      }
    }
  }

  /**
   * What a claim does: the row is leased out until `leaseSeconds` from now, to a delivery that carries just
   * this row.
   */
  lemma ClaimLeasesOut(c: Config, s: State, d: DeliveryId, e: EventId, locked: set<EventId>)
    requires Enabled(s, Claim(d, e, locked))
    ensures e in s.outbox
    ensures var after := Apply(c, s, Claim(d, e, locked));
            && after.outbox.Keys == s.outbox.Keys
            && (forall x | x in s.outbox && x != e :: after.outbox[x] == s.outbox[x])
            && LeasedOut(s.outbox[e], after.outbox[e], s.now + c.policy.leaseSeconds * SECOND)
            && d in after.deliveries && after.deliveries[d].event.eventId == e
            && after.deliveries[d].event.row == after.outbox[e]
            && after.now == s.now && after.partner == s.partner && after.operations == s.operations
  {}

  /**
   * A claim holds for `leaseSeconds`: in every run that ends before, the row is as the claim left it and nobody
   * can claim it again, unless the claiming delivery itself has settled it.
   */
  lemma ClaimHolds(c: Config, s: State, d: DeliveryId, e: EventId, locked: set<EventId>, steps: seq<Step>)
    requires c.policy.Valid() && Reachable(c, s) && Enabled(s, Claim(d, e, locked))
    requires Allowed(c, Apply(c, s, Claim(d, e, locked)), steps)
    requires Run(c, Apply(c, s, Claim(d, e, locked)), steps).now < s.now + c.policy.leaseSeconds * SECOND
    ensures var claimed, s' := Apply(c, s, Claim(d, e, locked)), Run(c, Apply(c, s, Claim(d, e, locked)), steps);
            && e in claimed.outbox && e in s'.outbox
            && (|| (exists status :: Wrote(s'.deliveries, d, e, claimed.outbox[e].attemptCount, status))
                || (s'.outbox[e] == claimed.outbox[e]
                    && forall other, others :: !Enabled(s', Claim(other, e, others))))
  {
    hide Inv, Reachable, Apply, Enabled, Wrote;
    var claim := Claim(d, e, locked);
    var claimed := Apply(c, s, claim);
    var s' := Run(c, claimed, steps);
    ClaimLeasesOut(c, s, d, e, locked);
    ReachableStep(c, s, claim);
    LeaseProtectsEvent(c, claimed, steps, e);
    if s'.outbox[e] != claimed.outbox[e] {
      var x, status :| Wrote(s'.deliveries, x, e, claimed.outbox[e].attemptCount, status);
      ReachableGrows(c, claimed, steps);
      DeliveryStays(c, claimed, steps, d);
      OneDelivery(c, s', d, x, e, claimed.outbox[e].attemptCount, status);
    } else {
      forall other, others ensures !Enabled(s', Claim(other, e, others)) { LeasedIsNotClaimed(s', other, e, others); }
    }
  }

  /** Once the lease is over, an event that nobody settled can be claimed again, by any new delivery. */
  lemma ClaimEnds(c: Config, s: State, d: DeliveryId, e: EventId, locked: set<EventId>, steps: seq<Step>,
                  next: DeliveryId)
    requires c.policy.Valid() && Reachable(c, s) && Enabled(s, Claim(d, e, locked))
    requires Allowed(c, Apply(c, s, Claim(d, e, locked)), steps)
    requires var claimed, s' := Apply(c, s, Claim(d, e, locked)), Run(c, Apply(c, s, Claim(d, e, locked)), steps);
             && s'.now >= s.now + c.policy.leaseSeconds * SECOND && next !in s'.deliveries
             && e in s'.outbox && e in claimed.outbox && s'.outbox[e] == claimed.outbox[e]
    ensures var s' := Run(c, Apply(c, s, Claim(d, e, locked)), steps);
            Enabled(s', Claim(next, e, s'.outbox.Keys - {e}))
  {
    hide Inv, Reachable, Apply;
    var claimed := Apply(c, s, Claim(d, e, locked));
    var s' := Run(c, claimed, steps);
    ClaimLeasesOut(c, s, d, e, locked);
    ReachableStep(c, s, Claim(d, e, locked));
    RunExtends(c, claimed, steps);
    ClaimDecided(s.outbox, s.now, locked, e);
    ClaimDecided(s'.outbox, s'.now, s'.outbox.Keys - {e}, e);
  }

  lemma LeasedIsNotClaimed(s: State, d: DeliveryId, e: EventId, locked: set<EventId>)
    requires e in s.outbox && Leased(s.outbox[e], s.now)
    ensures !Enabled(s, Claim(d, e, locked))
  {}

  /** An attempt number has one holder. */
  lemma OneDelivery(c: Config, s: State, d: DeliveryId, x: DeliveryId, e: EventId, attempt: nat, status: EventStatus)
    requires c.policy.Valid() && Reachable(c, s) && Wrote(s.deliveries, x, e, attempt, status)
    requires d in s.deliveries && s.deliveries[d].event.eventId == e
    requires s.deliveries[d].event.row.attemptCount == attempt
    ensures d == x
  {
    hide Reachable, OperationsOk, CallsOk, WinnersOk, ImportsOk, ResultsOk, OutboxOk, EventsOk, WritesOk, ReceiptsOk,
         RepliesOk;
    ReachableOk(c, s);
  }

  lemma {:induction false} DeliveryStays(c: Config, s: State, steps: seq<Step>, d: DeliveryId)
    requires Allowed(c, s, steps) && d in s.deliveries
    ensures d in Run(c, s, steps).deliveries && Run(c, s, steps).deliveries[d].event == s.deliveries[d].event
    decreases |steps|
  {
    hide Apply, Enabled;
    if steps != [] {
      DeliveryKept(c, s, steps[0], d);
      DeliveryStays(c, Apply(c, s, steps[0]), steps[1..], d);
    }
  }

  lemma DeliveryKept(c: Config, s: State, step: Step, d: DeliveryId)
    requires Enabled(s, step) && d in s.deliveries
    ensures d in Apply(c, s, step).deliveries && Apply(c, s, step).deliveries[d].event == s.deliveries[d].event
  {
    hide DeliverEvent, FailedRow, CanonicalBody, Record, ApplyReserve, ImportedFile, ApiStore.Complete;
    if step.Reserve? { ReserveLeavesDeliveries(s, step.call, step.key, step.file, step.candidate); }
  }

  // ---- Operations ----

  /** Call `k` finished operation `i` under this attempt number. */
  predicate FinishedBy(calls: map<CallId, Call>, k: CallId, i: OperationId, attempt: nat) {
    Winner(calls, k, i) && calls[k].attempt == attempt
  }

  predicate OperationLeased(row: Operation, at: Timestamp) { row.status.Processing? && at < row.leaseExpiresAt }

  /** A step leaves a leased operation alone, or is its holder's completion. */
  lemma LeasedOperationStep(c: Config, s: State, step: Step, i: OperationId)
    requires Inv(c, s) && Enabled(s, step) && i in s.operations && OperationLeased(s.operations[i], s.now)
    ensures var after := Apply(c, s, step);
            && i in after.operations
            && (after.operations[i] == s.operations[i]
                || exists k :: FinishedBy(after.calls, k, i, s.operations[i].attemptCount))
  {
    hide Inv, ApplyReserve, ApplyImport, ApplyComplete, ApplyReceive, ApplySettle;
    match step
    case Reserve(call, key, file, candidate) =>
      InvHasUniqueKeys(c, s);
      LeasedIsNotRecovered(s, call, key, file, candidate, i);
    case RunImport(call, batch, fate) => ImportLeavesOperations(c, s, call, batch, fate);
    case Complete(call, durationMs, event) => OwnerCompletes(s, call, durationMs, event, i);
    case Receive(delivery) => DeliveryLeavesOperations(c, s, delivery);
    case Settle(delivery, seen) => SettleLeavesOperations(c, s, delivery, seen);
    case _ =>
  }

  lemma LeasedIsNotRecovered(s: State, call: CallId, key: RequestKey, file: File, candidate: OperationId,
                             i: OperationId)
    requires KeysUnique(s.operations) && candidate !in s.operations
    requires i in s.operations && OperationLeased(s.operations[i], s.now)
    ensures var after := ApplyReserve(s, call, key, file, candidate);
            i in after.operations && after.operations[i] == s.operations[i]
  {}

  lemma ImportLeavesOperations(c: Config, s: State, call: CallId, batch: BatchId, fate: Fate)
    requires call in s.calls
    ensures ApplyImport(c, s, call, batch, fate).operations == s.operations
  {
    hide ImportedFile;
  }

  lemma DeliveryLeavesOperations(c: Config, s: State, delivery: DeliveryId)
    requires delivery in s.deliveries
    ensures ApplyReceive(c, s, delivery).operations == s.operations
  {
    hide Record, CanonicalBody;
  }

  lemma SettleLeavesOperations(c: Config, s: State, delivery: DeliveryId, seen: Observation)
    requires delivery in s.deliveries
    ensures ApplySettle(c, s, delivery, seen).operations == s.operations
  {}

  lemma OwnerCompletes(s: State, call: CallId, durationMs: nat, event: EventId, i: OperationId)
    requires call in s.calls && s.calls[call].phase.Ran? && i in s.operations
    ensures var after := ApplyComplete(s, call, durationMs, event);
            && i in after.operations
            && (after.operations[i] == s.operations[i]
                || FinishedBy(after.calls, call, i, s.operations[i].attemptCount))
  {}

  lemma {:induction false} WinnerStays(c: Config, s: State, steps: seq<Step>, k: CallId, i: OperationId, attempt: nat)
    requires Allowed(c, s, steps) && FinishedBy(s.calls, k, i, attempt)
    ensures FinishedBy(Run(c, s, steps).calls, k, i, attempt)
    decreases |steps|
  {
    hide Apply, Enabled;
    if steps != [] {
      FinishedCallStays(c, s, steps[0], k);
      WinnerStays(c, Apply(c, s, steps[0]), steps[1..], k, i, attempt);
    }
  }

  lemma FinishedCallStays(c: Config, s: State, step: Step, k: CallId)
    requires Enabled(s, step) && k in s.calls && s.calls[k].phase.Finished?
    ensures k in Apply(c, s, step).calls && Apply(c, s, step).calls[k] == s.calls[k]
  {
    hide DeliverEvent, FailedRow, CanonicalBody, Record, ImportedFile, ApiStore.Reserve, ApiStore.Complete;
  }

  /** For six minutes after a reservation nobody else can take the operation over or finish it. */
  lemma {:induction false} LeaseProtectsOperation(c: Config, s: State, steps: seq<Step>, i: OperationId)
    requires c.policy.Valid() && Reachable(c, s) && Allowed(c, s, steps)
    requires i in s.operations && OperationLeased(s.operations[i], Run(c, s, steps).now)
    ensures var s' := Run(c, s, steps);
            && i in s'.operations
            && (s'.operations[i] == s.operations[i]
                || exists k :: FinishedBy(s'.calls, k, i, s.operations[i].attemptCount))
    decreases |steps|
  {
    hide Inv, Reachable, Apply, Enabled, FinishedBy, OperationEvolves;
    ReachableOk(c, s);
    RunExtends(c, s, steps);
    if steps != [] {
      var next := Apply(c, s, steps[0]);
      LeasedOperationStep(c, s, steps[0], i);
      ReachableStep(c, s, steps[0]);
      if next.operations[i] == s.operations[i] {
        LeaseProtectsOperation(c, next, steps[1..], i);
      } else {
        var k :| FinishedBy(next.calls, k, i, s.operations[i].attemptCount);
        WinnerStays(c, next, steps[1..], k, i, s.operations[i].attemptCount);
      }
    }
  }
}

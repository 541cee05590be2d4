/** One undisturbed round of the worker as steps of the protocol. */
module WorkerRounds {
  import opened Common
  import opened IntegrationStore
  import opened PartnerApi
  import opened IntegrationWorker
  import opened Protocol
  import opened ProtocolInvariant
  import opened Api

  ghost function Round(s: State, c: Config, e: EventId, settledAt: Timestamp): (Outbox, PartnerTables)
    requires e in s.outbox
  {
    var claimed := ClaimedEvent(e, Claimed(s.outbox[e], s.now, c.policy.leaseSeconds));
    var (partner, reply) := Record(s.partner, e, Sha256(CanonicalBody(claimed.row.payload)), c.simulatedFailures);
    (IntegrationWorker.Settle(s.outbox[e := claimed.row], claimed, Status(StatusOf(reply)), c.policy, settledAt),
     partner)
  }

  /** What `ProcessOne` does to outbox and partner is a run: claim, receive, settle. */
  lemma RoundIsRun(c: Config, s: State, e: EventId, d: DeliveryId, settledAt: Timestamp) returns (steps: seq<Step>)
    requires Candidate(s.outbox, s.now, {}, e) && d !in s.deliveries && s.now <= settledAt
    ensures Allowed(c, s, steps)
    ensures (Run(c, s, steps).outbox, Run(c, s, steps).partner) == Round(s, c, e, settledAt)
  {
    hide CanonicalBody, Record, DeliverEvent, FailedRow, Enabled, Apply;
    var claim := Claim(d, e, {});
    ClaimStep(c, s, e, d);
    var s1 := Apply(c, s, claim);
    var receive := Receive(d);
    ReceiveStep(c, s1, d);
    var s2 := Apply(c, s1, receive);
    var tick := Tick(settledAt - s.now);
    TickUnfolds(c, s2, settledAt - s.now);
    var s3 := Apply(c, s2, tick);
    var settle := Step.Settle(d, Status(StatusOf(s3.deliveries[d].replies[0])));
    SettleStep(c, s3, d);
    StepFirst(c, s3, settle, []);
    StepFirst(c, s2, tick, [settle] + []);
    StepFirst(c, s1, receive, [tick] + ([settle] + []));
    StepFirst(c, s, claim, [receive] + ([tick] + ([settle] + [])));
    steps := [claim] + ([receive] + ([tick] + ([settle] + [])));
  }

  lemma ClaimStep(c: Config, s: State, e: EventId, d: DeliveryId)
    requires Candidate(s.outbox, s.now, {}, e) && d !in s.deliveries
    ensures var claim := Claim(d, e, {});
            var row := Claimed(s.outbox[e], s.now, c.policy.leaseSeconds);
            && Enabled(s, claim)
            && Apply(c, s, claim) == s.(outbox := s.outbox[e := row],
                                        deliveries := s.deliveries[d := Delivery(ClaimedEvent(e, row), [], Open)])
  {}

  lemma ReceiveStep(c: Config, s: State, d: DeliveryId)
    requires d in s.deliveries && s.deliveries[d].replies == []
    ensures var me := s.deliveries[d];
            var (partner, reply) := Record(s.partner, me.event.eventId, Sha256(CanonicalBody(me.event.row.payload)),
                                           c.simulatedFailures);
            && Enabled(s, Receive(d))
            && Apply(c, s, Receive(d)) == s.(partner := partner,
                                             deliveries := s.deliveries[d := me.(replies := [reply])])
  {
    hide CanonicalBody, Record;
    var me := s.deliveries[d];
    var reply := Record(s.partner, me.event.eventId, Sha256(CanonicalBody(me.event.row.payload)),
                        c.simulatedFailures).1;
    assert me.replies + [reply] == [reply];
  }

  lemma SettleStep(c: Config, s: State, d: DeliveryId)
    requires d in s.deliveries && s.deliveries[d].phase.Open? && |s.deliveries[d].replies| == 1
    ensures var seen := Status(StatusOf(s.deliveries[d].replies[0]));
            && Enabled(s, Step.Settle(d, seen))
            && Apply(c, s, Step.Settle(d, seen)).partner == s.partner
            && Apply(c, s, Step.Settle(d, seen)).outbox
                == IntegrationWorker.Settle(s.outbox, s.deliveries[d].event, seen, c.policy, s.now)
  {
    hide FailedRow;
  }
}

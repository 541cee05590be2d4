/** Workers that keep dying: expired leases are taken over without limit, whatever the attempt limit is. */
module ProtocolReclaims {
  import opened Common
  import Counting
  import opened Validation
  import opened Importer
  import opened IntegrationStore
  import opened ApiStore
  import opened Protocol
  import opened ProtocolInvariant
  import opened ProtocolSafety
  import opened ProtocolProgress
  import opened Api

  /** The event is in the hands of a worker. */
  predicate HeldByWorker(s: State, e: EventId) {
    e in s.outbox && s.outbox[e].status.Delivering? && s.outbox[e].leaseExpiresAt.Some?
        && s.outbox[e].availableAt <= s.now
  }

  /** Let the lease run out. */
  lemma Expire(c: Config, s: State, e: EventId) returns (wait: Step)
    requires HeldByWorker(s, e)
    ensures Enabled(s, wait)
    ensures var s' := Apply(c, s, wait);
            && s'.outbox == s.outbox && s'.deliveries == s.deliveries
            && HeldByWorker(s', e) && LeaseExpired(s'.outbox[e], s'.now)
  {
    var expires := s.outbox[e].leaseExpiresAt.value;
    wait := Tick(if expires <= s.now then 0 else expires - s.now);
  }

  /** Claim the event, for the first time or again, while every other is locked. */
  lemma Take(c: Config, s: State, e: EventId) returns (claim: Step)
    requires e in s.outbox && Claimable(s.outbox[e], s.now)
    ensures Enabled(s, claim)
    ensures var s' := Apply(c, s, claim);
            HeldByWorker(s', e) && s'.outbox[e].attemptCount == s.outbox[e].attemptCount + 1
  {
    var d := Counting.Unused(s.deliveries.Keys);
    claim := Claim(d, e, s.outbox.Keys - {e});
    assert Candidate(s.outbox, s.now, claim.locked, e);
  }

  /** An event whose workers crash can be tried any number of times. */
  lemma {:induction false} AttemptsKeepGrowing(c: Config, s: State, e: EventId, n: nat) returns (steps: seq<Step>)
    requires HeldByWorker(s, e)
    ensures Allowed(c, s, steps) && HeldByWorker(Run(c, s, steps), e)
    ensures Run(c, s, steps).outbox[e].attemptCount == s.outbox[e].attemptCount + n
    decreases n
  {
    hide Apply, Enabled;
    steps := [];
    if n > 0 {
      var wait := Expire(c, s, e);
      var s1 := Apply(c, s, wait);
      var claim := Take(c, s1, e);
      var s2 := Apply(c, s1, claim);
      var rest := AttemptsKeepGrowing(c, s2, e, n - 1);
      StepFirst(c, s1, claim, rest);
      StepFirst(c, s, wait, [claim] + rest);
      steps := [wait] + ([claim] + rest);
    }
  }

  // ---- From the empty system ----

  /** The first accepted file puts one notification into the empty outbox, to be claimed at once. */
  lemma FirstUploadEnqueues(c: Config, u: Upload, ids: Identifiers)
    requires Checked(c, u.file).Accepted()
    ensures var outbox := Served(c, ServiceTables(map[], Tables(map[], map[]), map[]), u, ids).0.outbox;
            ids.event in outbox && outbox[ids.event].status.Pending? && outbox[ids.event].attemptCount == 0
            && outbox[ids.event].availableAt == u.completedAt
  {
    hide Validate, Conflicts, Newcomers, Inserted;
    var checked, file := Checked(c, u.file), Sha256(u.file);
    CheckedRecordsDiffer(c, u.file);
    ImportOutcome(Tables(map[], map[]), checked.records, file, ids.batch);
    AllOrNothing(Tables(map[], map[]), checked.records, file, ids.batch);
    assert ImportCsv(Tables(map[], map[]), checked, file, ids.batch).1.status == Imported;
    assert ImportCsv(Tables(map[], map[]), checked, file, ids.batch).1.accepted;
  }

  /** Upload an accepted file to the empty system; its notification is then there to be claimed. */
  lemma FirstUpload(c: Config, file: File, key: RequestKey, now: Timestamp) returns (steps: seq<Step>, e: EventId)
    requires c.policy.Valid() && Checked(c, file).Accepted()
    ensures Allowed(c, Init(now), steps)
    ensures var s := Run(c, Init(now), steps);
            e in s.outbox && Claimable(s.outbox[e], s.now) && s.outbox[e].attemptCount == 0
  {
    hide Checked, Served, Run, Allowed, Reachable;
    var u, ids := Upload(key, file, now, now, now, 0), Identifiers(0, 0, 0);
    e := ids.event;
    steps := ServiceIsRun(c, Init(now), u, ids, 0);
    FirstUploadEnqueues(c, u, ids);
    assert TablesOf(Init(now)) == ServiceTables(map[], Tables(map[], map[]), map[]);
    InitIsReachable(c, now);
    RunExtends(c, Init(now), steps);
  }

  /**
   * From the empty system, one accepted file and workers that crash lead to any number of attempts at its
   * notification: the attempt limit is passed as soon as n is larger.
   */
  lemma LimitCanBePassed(c: Config, file: File, key: RequestKey, now: Timestamp, n: nat)
    returns (steps: seq<Step>, e: EventId)
    requires c.policy.Valid() && Checked(c, file).Accepted() && n >= 1
    ensures Allowed(c, Init(now), steps) && AttemptOf(Run(c, Init(now), steps), e) == n
    ensures n > c.policy.maxAttempts ==> !NoLateReclaim(c, Init(now), steps, e)
  {
    hide Checked, Apply, Enabled, Run, Allowed, Claimable, NoLateReclaim;
    var upload: seq<Step>;
    upload, e := FirstUpload(c, file, key, now);
    var s := Run(c, Init(now), upload);
    var claim := Take(c, s, e);
    var rest := AttemptsKeepGrowing(c, Apply(c, s, claim), e, n - 1);
    StepFirst(c, s, claim, rest);
    RunAppend(c, Init(now), upload, [claim] + rest);
    steps := upload + ([claim] + rest);
    LimitHoldsIff(c, now, steps, e);
  }

  /** Such a file exists under every policy: the expected header alone is a valid file without rows. */
  lemma HeaderAloneIsAccepted(u: Unicode, policy: RetryPolicy, simulatedFailures: nat, file: File)
    ensures var header := Readable(40, Some(EXPECTED_FIELDS), [], None);
            Checked(Config(u, _ => header, policy, simulatedFailures), file).Accepted()
  {
    hide Validate, FieldRules;
    AcceptedIffClean(u, Readable(40, Some(EXPECTED_FIELDS), [], None), MAX_ROWS);
  }

  /** Five attempts allowed, six made. */
  lemma SixAttemptsOfFive(u: Unicode, key: RequestKey, now: Timestamp) returns (c: Config, steps: seq<Step>, e: EventId)
    ensures c.policy.Valid() && c.policy.maxAttempts == 5
    ensures Allowed(c, Init(now), steps) && AttemptOf(Run(c, Init(now), steps), e) == 6
  {
    hide Checked, Run, Allowed, AttemptOf;
    var policy := RetryPolicy(5, 2, 60, 30);
    c := Config(u, _ => Readable(40, Some(EXPECTED_FIELDS), [], None), policy, 0);
    HeaderAloneIsAccepted(u, policy, 0, "");
    steps, e := LimitCanBePassed(c, "", key, now, 6);
  }
}

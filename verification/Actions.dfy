/** Controlled actions: requested by one principal, approved by another, executed once, all of it audited. */
module Actions {
  import opened Common
  import L = Limits

  type ActionId = nat

  datatype Arguments = Arguments(customerReference: string, template: string, reason: string)

  datatype Planned = Planned(arguments: Arguments, provider: string, model: string)

  datatype Status = Pending | Approved | Executed | Rejected | Expired

  datatype Action = Action(
    requester: Hmac, planned: Planned, argumentsHash: Sha256<Arguments>, status: Status,
    approver: Option<Hmac>, resultCode: Option<string>,
    createdAt: Timestamp, approvedAt: Option<Timestamp>, executedAt: Option<Timestamp>)

  datatype EventKind = WasProposed | WasApproved | WasExecuted

  datatype AuditEvent = AuditEvent(
    action: ActionId, actor: Hmac, kind: EventKind, argumentsHash: Sha256<Arguments>, resultCode: Option<string>)

  datatype Error = ActionNotFound | SelfApproval | Transition | RateLimit | InvalidRateLimit

  datatype Result<T> = Ok(value: T) | Err(error: Error)

  const RESULT_CODE: string := "simulated_followup_queued"

  datatype Tables = Tables(actions: map<ActionId, Action>, audit: seq<AuditEvent>)

  // ---- Specification ----

  function NewAction(requester: Hmac, planned: Planned, now: Timestamp): Action {
    Action(requester, planned, Sha256(planned.arguments), Pending, None, None, now, None, None)
  }

  function Create(t: Tables, id: ActionId, requester: Hmac, planned: Planned, now: Timestamp): Tables {
    var a := NewAction(requester, planned, now);
    Tables(t.actions[id := a], t.audit + [AuditEvent(id, requester, WasProposed, a.argumentsHash, None)])
  }

  function Approve(t: Tables, id: ActionId, approver: Hmac, now: Timestamp): (Tables, Result<Action>) {
    if id !in t.actions then (t, Err(ActionNotFound))
    else
      var a := t.actions[id];
      if a.requester == approver then (t, Err(SelfApproval))
      else if a.status.Approved? && a.approver == Some(approver) then (t, Ok(a))
      else if !a.status.Pending? then (t, Err(Transition))
      else
        var b := a.(status := Approved, approver := Some(approver), approvedAt := Some(now));
        (Tables(t.actions[id := b], t.audit + [AuditEvent(id, approver, WasApproved, a.argumentsHash, None)]), Ok(b))
  }

  function Execute(t: Tables, id: ActionId, executor: Hmac, now: Timestamp): (Tables, Result<Action>) {
    if id !in t.actions then (t, Err(ActionNotFound))
    else
      var a := t.actions[id];
      if a.status.Executed? then (t, Ok(a))
      else if !a.status.Approved? then (t, Err(Transition))
      else
        var b := a.(status := Executed, executedAt := Some(now), resultCode := Some(RESULT_CODE));
        (Tables(t.actions[id := b],
                t.audit + [AuditEvent(id, executor, WasExecuted, a.argumentsHash, Some(RESULT_CODE))]), Ok(b))
  }

  /** The requests of one principal since an instant. */
  function RequestsSince(actions: map<ActionId, Action>, requester: Hmac, from: Timestamp): set<ActionId> {
    set id | id in actions && actions[id].requester == requester && actions[id].createdAt >= from
  }

  // ---- The store ----

  class ActionStore {
    var actions: map<ActionId, Action>
    var audit: seq<AuditEvent>

    function Contents(): Tables reads this { Tables(actions, audit) }

    /** Unlike the limit on questions, a limit of zero is an error here. */
    method EnforceActionRateLimit(requester: Hmac, perMinute: int, now: Timestamp) returns (failure: Option<Error>)
      ensures failure == Some(InvalidRateLimit) <==> perMinute < 1 || perMinute > 1000
      ensures 1 <= perMinute <= 1000 ==>
                (failure == None <==> |RequestsSince(actions, requester, now - 60 * SECOND)| < perMinute)
      ensures failure in {None, Some(InvalidRateLimit), Some(RateLimit)}
    {
      if !(1 <= perMinute <= 1000) { return Some(InvalidRateLimit); }
      var total := |RequestsSince(actions, requester, now - L.MINUTE)|;
      if total >= perMinute { return Some(RateLimit); }
      return None;
    }

    method CreateActionRequest(id: ActionId, requester: Hmac, planned: Planned, now: Timestamp) returns (a: Action)
      requires id !in actions
      modifies this
      ensures Contents() == Create(old(Contents()), id, requester, planned, now)
      ensures id in actions && a == actions[id]
    {
      a := NewAction(requester, planned, now);
      actions := actions[id := a];
      audit := audit + [AuditEvent(id, requester, WasProposed, a.argumentsHash, None)];
    }

    method ApproveAction(id: ActionId, approver: Hmac, now: Timestamp) returns (r: Result<Action>)
      modifies this
      ensures (Contents(), r) == Approve(old(Contents()), id, approver, now)
    {
      if id !in actions { return Err(ActionNotFound); }
      var current := actions[id];
      if current.requester == approver { return Err(SelfApproval); }
      if current.status.Approved? && current.approver == Some(approver) { return Ok(current); }
      if current.status != Pending { return Err(Transition); }
      current := current.(status := Approved, approver := Some(approver), approvedAt := Some(now));
      actions := actions[id := current];
      audit := audit + [AuditEvent(id, approver, WasApproved, current.argumentsHash, None)];
      return Ok(current);
    }

    method ExecuteAction(id: ActionId, executor: Hmac, now: Timestamp) returns (r: Result<Action>)
      modifies this
      ensures (Contents(), r) == Execute(old(Contents()), id, executor, now)
    {
      if id !in actions { return Err(ActionNotFound); }
      var current := actions[id];
      if current.status.Executed? { return Ok(current); }
      if current.status != Approved { return Err(Transition); }
      current := current.(status := Executed, executedAt := Some(now), resultCode := Some(RESULT_CODE));
      actions := actions[id := current];
      audit := audit + [AuditEvent(id, executor, WasExecuted, current.argumentsHash, Some(RESULT_CODE))];
      return Ok(current);
    }
  }

  // ---- Histories ----

  datatype Operation =
    | Creates(id: ActionId, requester: Hmac, planned: Planned)
    | Approves(id: ActionId, approver: Hmac)
    | Executes(id: ActionId, executor: Hmac)

  /** An operation and how long after the previous one it comes. */
  datatype Step = Step(elapsed: nat, operation: Operation)

  datatype State = State(now: Timestamp, tables: Tables)

  predicate Enabled(s: State, step: Step) { step.operation.Creates? ==> step.operation.id !in s.tables.actions }

  function Apply(s: State, step: Step): State
    requires Enabled(s, step)
  {
    var now := s.now + step.elapsed;
    State(now, match step.operation
               case Creates(id, requester, planned) => Create(s.tables, id, requester, planned, now)
               case Approves(id, approver) => Approve(s.tables, id, approver, now).0
               case Executes(id, executor) => Execute(s.tables, id, executor, now).0)
  }

  predicate Allowed(s: State, steps: seq<Step>)
    decreases |steps|
  {
    steps == [] || (Enabled(s, steps[0]) && Allowed(Apply(s, steps[0]), steps[1..]))
  }

  function Run(s: State, steps: seq<Step>): State
    requires Allowed(s, steps)
    decreases |steps|
  {
    if steps == [] then s else Run(Apply(s, steps[0]), steps[1..])
  }

  function Init(now: Timestamp): State { State(now, Tables(map[], [])) }

  function EventsOf(audit: seq<AuditEvent>, id: ActionId): seq<AuditEvent> {
    if audit == [] then []
    else
      var last := audit[|audit| - 1];
      EventsOf(audit[..|audit| - 1], id) + if last.action == id then [last] else []
  }

  lemma EventsOfAppend(audit: seq<AuditEvent>, e: AuditEvent, id: ActionId)
    ensures EventsOf(audit + [e], id) == EventsOf(audit, id) + if e.action == id then [e] else []
  {
    assert (audit + [e])[..|audit|] == audit;
  }

  /** Who did what to the action, told from its own row; the row does not say who executed it. */
  predicate AuditTells(id: ActionId, a: Action, events: seq<AuditEvent>) {
    var proposed := AuditEvent(id, a.requester, WasProposed, a.argumentsHash, None);
    match a.status
    case Pending => events == [proposed]
    case Approved =>
      a.approver.Some? && events == [proposed, AuditEvent(id, a.approver.value, WasApproved, a.argumentsHash, None)]
    case Executed =>
      && a.approver.Some? && |events| == 3
      && events[..2] == [proposed, AuditEvent(id, a.approver.value, WasApproved, a.argumentsHash, None)]
      && events[2] == AuditEvent(id, events[2].actor, WasExecuted, a.argumentsHash, Some(RESULT_CODE))
    case _ => false
  }

  /** Whoever approved is not the requester; instants follow one another; the hash is of the arguments. */
  predicate RowOk(a: Action, now: Timestamp) {
    && a.argumentsHash == Sha256(a.planned.arguments)
    && a.createdAt <= now
    && (a.approver.Some? <==> a.approvedAt.Some?) && (a.approver.Some? <==> a.status.Approved? || a.status.Executed?)
    && (a.approver.Some? ==> a.approver.value != a.requester && a.createdAt <= a.approvedAt.value <= now)
    && (a.executedAt.Some? <==> a.status.Executed?)
    && (a.resultCode == if a.status.Executed? then Some(RESULT_CODE) else None)
    && (a.executedAt.Some? ==> a.approvedAt.Some? && a.approvedAt.value <= a.executedAt.value <= now)
  }

  predicate Audited(s: State) {
    && (forall id | id in s.tables.actions ::
          RowOk(s.tables.actions[id], s.now) && AuditTells(id, s.tables.actions[id], EventsOf(s.tables.audit, id)))
    && (forall i | 0 <= i < |s.tables.audit| :: s.tables.audit[i].action in s.tables.actions)
  }

  lemma {:induction false} UnknownHasNoEvents(audit: seq<AuditEvent>, id: ActionId)
    requires forall i | 0 <= i < |audit| :: audit[i].action != id
    ensures EventsOf(audit, id) == []
  {
    if audit != [] { UnknownHasNoEvents(audit[..|audit| - 1], id); }
  }

  predicate Telling(t: Tables, now: Timestamp, id: ActionId) {
    id in t.actions ==> RowOk(t.actions[id], now) && AuditTells(id, t.actions[id], EventsOf(t.audit, id))
  }

  lemma CreateTells(t: Tables, id: ActionId, requester: Hmac, planned: Planned, now: Timestamp)
    requires EventsOf(t.audit, id) == []
    ensures Telling(Create(t, id, requester, planned, now), now, id)
  {
    hide EventsOf;
    EventsOfAppend(t.audit, AuditEvent(id, requester, WasProposed, Sha256(planned.arguments), None), id);
  }

  lemma ApproveTells(t: Tables, id: ActionId, approver: Hmac, before: Timestamp, now: Timestamp)
    requires Telling(t, before, id) && before <= now
    ensures Telling(Approve(t, id, approver, now).0, now, id)
  {
    hide EventsOf;
    if id in t.actions {
      EventsOfAppend(t.audit, AuditEvent(id, approver, WasApproved, t.actions[id].argumentsHash, None), id);
    }
  }

  lemma ExecuteTells(t: Tables, id: ActionId, executor: Hmac, before: Timestamp, now: Timestamp)
    requires Telling(t, before, id) && before <= now
    ensures Telling(Execute(t, id, executor, now).0, now, id)
  {
    hide EventsOf;
    if id in t.actions {
      EventsOfAppend(t.audit, AuditEvent(id, executor, WasExecuted, t.actions[id].argumentsHash, Some(RESULT_CODE)),
                     id);
    }
  }

  /** A step on one action leaves the row and the log of every other alone. */
  lemma OthersUntouched(s: State, step: Step, id: ActionId)
    requires Enabled(s, step) && step.operation.id != id
    ensures var t, t' := s.tables, Apply(s, step).tables;
            && (id in t'.actions <==> id in t.actions) && (id in t.actions ==> t'.actions[id] == t.actions[id])
            && EventsOf(t'.audit, id) == EventsOf(t.audit, id)
  {
    hide EventsOf;
    var after := Apply(s, step).tables;
    if after.audit != s.tables.audit {
      EventsOfAppend(s.tables.audit, after.audit[|after.audit| - 1], id);
    }
  }

  lemma StepKeepsTelling(s: State, step: Step, id: ActionId)
    requires Audited(s) && Enabled(s, step)
    ensures Telling(Apply(s, step).tables, Apply(s, step).now, id)
  {
    hide EventsOf, Create, Approve, Execute, AuditTells;
    var now := s.now + step.elapsed;
    assert Telling(s.tables, s.now, id);
    if step.operation.id != id {
      OthersUntouched(s, step, id);
    } else {
      match step.operation
      case Creates(_, requester, planned) =>
        UnknownHasNoEvents(s.tables.audit, id);
        CreateTells(s.tables, id, requester, planned, now);
      case Approves(_, approver) => ApproveTells(s.tables, id, approver, s.now, now);
      case Executes(_, executor) => ExecuteTells(s.tables, id, executor, s.now, now);
    }
  }

  lemma StepKeepsAudited(s: State, step: Step)
    requires Audited(s) && Enabled(s, step)
    ensures Audited(Apply(s, step))
  {
    hide RowOk, AuditTells;
    forall id | id in Apply(s, step).tables.actions
      ensures RowOk(Apply(s, step).tables.actions[id], Apply(s, step).now)
              && AuditTells(id, Apply(s, step).tables.actions[id], EventsOf(Apply(s, step).tables.audit, id))
    {
      StepKeepsTelling(s, step, id);
    }
  }

  lemma {:induction false} RunKeepsAudited(s: State, steps: seq<Step>)
    requires Audited(s) && Allowed(s, steps)
    ensures Audited(Run(s, steps))
    decreases |steps|
  {
    hide Audited, Apply, Enabled;
    if steps != [] {
      StepKeepsAudited(s, steps[0]);
      RunKeepsAudited(Apply(s, steps[0]), steps[1..]);
    }
  }

  /**
   * In every history, the audit log of an action is the beginning of proposed, approved, executed that its
   * status says.
   */
  lemma AuditIsComplete(now: Timestamp, steps: seq<Step>, id: ActionId)
    requires Allowed(Init(now), steps)
    ensures var t := Run(Init(now), steps).tables;
            && (id in t.actions ==> RowOk(t.actions[id], Run(Init(now), steps).now)
                                    && AuditTells(id, t.actions[id], EventsOf(t.audit, id)))
            && (id !in t.actions ==> EventsOf(t.audit, id) == [])
  {
    RunKeepsAudited(Init(now), steps);
    var t := Run(Init(now), steps).tables;
    if id !in t.actions { UnknownHasNoEvents(t.audit, id); }
  }

  /** Nothing is executed that two people did not agree on. */
  lemma ExecutedMeansTwoPeople(now: Timestamp, steps: seq<Step>, id: ActionId)
    requires Allowed(Init(now), steps) && id in Run(Init(now), steps).tables.actions
    requires exists i :: 0 <= i < |Run(Init(now), steps).tables.audit|
                         && Run(Init(now), steps).tables.audit[i].action == id
                         && Run(Init(now), steps).tables.audit[i].kind.WasExecuted?
    ensures var t := Run(Init(now), steps).tables;
            var events := EventsOf(t.audit, id);
            && t.actions[id].status.Executed? && |events| == 3
            && events[0].kind.WasProposed? && events[1].kind.WasApproved? && events[2].kind.WasExecuted?
            && events[0].actor == t.actions[id].requester && events[1].actor != events[0].actor
            && events[0].argumentsHash == events[1].argumentsHash == events[2].argumentsHash
               == Sha256(t.actions[id].planned.arguments)
  {
    var t := Run(Init(now), steps).tables;
    RunKeepsAudited(Init(now), steps);
    var i :| 0 <= i < |t.audit| && t.audit[i].action == id && t.audit[i].kind.WasExecuted?;
    EventsOfHas(t.audit, i);
    var k :| 0 <= k < |EventsOf(t.audit, id)| && EventsOf(t.audit, id)[k] == t.audit[i];
    assert AuditTells(id, t.actions[id], EventsOf(t.audit, id));
    if t.actions[id].status.Executed? {
      assert EventsOf(t.audit, id)[0] == EventsOf(t.audit, id)[..2][0]
          && EventsOf(t.audit, id)[1] == EventsOf(t.audit, id)[..2][1];
    }
  }

  lemma {:induction false} EventsOfHas(audit: seq<AuditEvent>, i: nat)
    requires i < |audit|
    ensures audit[i] in EventsOf(audit, audit[i].action)
    decreases |audit|
  {
    if i < |audit| - 1 { EventsOfHas(audit[..|audit| - 1], i); }
  }

  // ---- Each decision ----

  /**
   * Approval succeeds exactly for another person's pending action, or again for one's own approval; failures
   * change nothing.
   */
  lemma ApprovalDecided(t: Tables, id: ActionId, approver: Hmac, now: Timestamp)
    ensures var (t', r) := Approve(t, id, approver, now);
            && (r.Ok? <==> id in t.actions && t.actions[id].requester != approver
                           && (t.actions[id].status.Pending?
                               || (t.actions[id].status.Approved? && t.actions[id].approver == Some(approver))))
            && (r == Err(ActionNotFound) <==> id !in t.actions)
            && (r == Err(SelfApproval) <==> id in t.actions && t.actions[id].requester == approver)
            && (r.Err? ==> t' == t)
            && (r == Err(Transition) <==> r.Err? && id in t.actions && t.actions[id].requester != approver)
            && (r.Ok? ==> id in t'.actions && t'.actions[id] == r.value && Approve(t', id, approver, now) == (t', r))
            && (r.Ok? && t.actions[id].status.Approved? ==> t' == t)
            && (r.Ok? && t.actions[id].status.Pending? ==>
                  && r.value.status == Approved && r.value.approver == Some(approver) && r.value.approvedAt == Some(now)
                  && SameRequest(t.actions[id], r.value)
                  && r.value.executedAt == t.actions[id].executedAt && r.value.resultCode == t.actions[id].resultCode
                  && t'.actions == t.actions[id := r.value]
                  && t'.audit == t.audit + [AuditEvent(id, approver, WasApproved, t.actions[id].argumentsHash, None)])
  {}

  /** Nothing of what was asked for, by whom and when has changed. */
  predicate SameRequest(a: Action, b: Action) {
    && b.requester == a.requester && b.planned == a.planned
    && b.argumentsHash == a.argumentsHash && b.createdAt == a.createdAt
  }

  /** A request is stored as it was planned, pending, with its digest and its first audit event. */
  lemma CreationDecided(t: Tables, id: ActionId, requester: Hmac, planned: Planned, now: Timestamp)
    requires id !in t.actions
    ensures var t' := Create(t, id, requester, planned, now);
            var a := t'.actions[id];
            && t'.actions == t.actions[id := a]
            && a.requester == requester && a.planned == planned && a.argumentsHash == Sha256(planned.arguments)
            && a.status == Pending && a.createdAt == now && a.approver == None && a.approvedAt == None
            && a.executedAt == None && a.resultCode == None
            && t'.audit == t.audit + [AuditEvent(id, requester, WasProposed, Sha256(planned.arguments), None)]
  {}

  /** Anyone may execute an approved action, once; asking again changes nothing. */
  lemma ExecutionDecided(t: Tables, id: ActionId, executor: Hmac, again: Hmac, now: Timestamp, later: Timestamp)
    ensures var (t', r) := Execute(t, id, executor, now);
            && (r.Ok? <==> id in t.actions && (t.actions[id].status.Approved? || t.actions[id].status.Executed?))
            && (r == Err(ActionNotFound) <==> id !in t.actions)
            && (r.Err? ==> t' == t)
            && (r == Err(Transition) <==> r.Err? && id in t.actions)
            && (r.Ok? ==> id in t'.actions && t'.actions[id] == r.value && r.value.status.Executed?
                          && Execute(t', id, again, later) == (t', r))
            && (r.Ok? && t.actions[id].status.Executed? ==> t' == t)
            && (r.Ok? && t.actions[id].status.Approved? ==>
                  && r.value.executedAt == Some(now) && r.value.resultCode == Some("simulated_followup_queued")
                  && SameRequest(t.actions[id], r.value)
                  && r.value.approver == t.actions[id].approver && r.value.approvedAt == t.actions[id].approvedAt
                  && t'.actions == t.actions[id := r.value]
                  && t'.audit == t.audit + [AuditEvent(id, executor, WasExecuted, t.actions[id].argumentsHash,
                                                       Some("simulated_followup_queued"))])
  {}

  /** Who asked for what never changes; neither does an approval, nor anything about an executed action. */
  predicate Evolves(a: Action, b: Action) {
    && b.requester == a.requester && b.planned == a.planned && b.argumentsHash == a.argumentsHash
    && b.createdAt == a.createdAt
    && (!a.status.Pending? ==> b.approver == a.approver && b.approvedAt == a.approvedAt && !b.status.Pending?)
    && (a.status.Executed? ==> b == a)
  }

  lemma {:induction false} RunEvolves(s: State, steps: seq<Step>, id: ActionId)
    requires Allowed(s, steps) && id in s.tables.actions
    ensures id in Run(s, steps).tables.actions && Evolves(s.tables.actions[id], Run(s, steps).tables.actions[id])
    ensures s.tables.audit <= Run(s, steps).tables.audit
    decreases |steps|
  {
    if steps != [] {
      var next := Apply(s, steps[0]);
      assert s.tables.audit <= next.tables.audit;
      assert Evolves(s.tables.actions[id], next.tables.actions[id]);
      RunEvolves(next, steps[1..], id);
    }
  }

  // ---- Who the log says did it ----

  /** What a step does that deserves an audit event, told without the store: by whom, to what, with which digest. */
  function DeedOf(s: State, step: Step): seq<AuditEvent> {
    var actions := s.tables.actions;
    match step.operation
    case Creates(id, requester, planned) => [AuditEvent(id, requester, WasProposed, Sha256(planned.arguments), None)]
    case Approves(id, approver) =>
      if id in actions && actions[id].status == Pending && actions[id].requester != approver
      then [AuditEvent(id, approver, WasApproved, actions[id].argumentsHash, None)] else []
    case Executes(id, executor) =>
      if id in actions && actions[id].status == Approved
      then [AuditEvent(id, executor, WasExecuted, actions[id].argumentsHash, Some("simulated_followup_queued"))] else []
  }

  function Deeds(s: State, steps: seq<Step>): seq<AuditEvent>
    requires Allowed(s, steps)
    decreases |steps|
  {
    if steps == [] then [] else DeedOf(s, steps[0]) + Deeds(Apply(s, steps[0]), steps[1..])
  }

  /** The audit log of a history is exactly its deeds, in their order, each under the name of who did it. */
  lemma {:induction false} AuditIsDeeds(s: State, steps: seq<Step>)
    requires Allowed(s, steps)
    ensures Run(s, steps).tables.audit == s.tables.audit + Deeds(s, steps)
    decreases |steps|
  {
    if steps != [] {
      var next := Apply(s, steps[0]);
      assert next.tables.audit == s.tables.audit + DeedOf(s, steps[0]);
      AuditIsDeeds(next, steps[1..]);
    }
  }

  /** Step `i` of the history turned the action from approved to executed. */
  predicate ExecutesAt(s: State, steps: seq<Step>, i: nat, id: ActionId, who: Hmac)
    requires Allowed(s, steps)
  {
    && i < |steps| && steps[i].operation == Executes(id, who)
    && Allowed(s, steps[..i]) && Allowed(s, steps[..i + 1])
    && var before, after := Run(s, steps[..i]), Run(s, steps[..i + 1]);
       && id in before.tables.actions && before.tables.actions[id].status == Approved
       && id in after.tables.actions && after.tables.actions[id].status == Executed
       && after.tables.actions[id].executedAt == Some(after.now)
       && |after.tables.audit| > 0
       && after.tables.audit == before.tables.audit + [after.tables.audit[|after.tables.audit| - 1]]
       && after.tables.audit[|after.tables.audit| - 1].actor == who
       && after.tables.audit[|after.tables.audit| - 1].action == id
       && after.tables.audit[|after.tables.audit| - 1].kind == WasExecuted
  }

  lemma {:induction false} PrefixRuns(s: State, steps: seq<Step>, i: nat)
    requires Allowed(s, steps) && i <= |steps|
    ensures Allowed(s, steps[..i]) && Allowed(Run(s, steps[..i]), steps[i..])
    ensures Run(Run(s, steps[..i]), steps[i..]) == Run(s, steps)
    decreases |steps|
  {
    hide Apply, Enabled;
    if i == 0 {
      assert steps[..0] == [] && steps[0..] == steps;
    } else {
      PrefixRuns(Apply(s, steps[0]), steps[1..], i - 1);
      assert steps[..i][0] == steps[0] && steps[..i][1..] == steps[1..][..i - 1];
      assert steps[i..] == steps[1..][i - 1..];
    }
  }

  /** An action that was not executed and now is was executed by exactly one step. */
  lemma {:induction false} ExecutingStep(s: State, steps: seq<Step>, id: ActionId) returns (i: nat, who: Hmac)
    requires Allowed(s, steps) && !IsExecuted(s, id) && IsExecuted(Run(s, steps), id)
    ensures ExecutesAt(s, steps, i, id, who)
    decreases |steps|
  {
    var next := Apply(s, steps[0]);
    if IsExecuted(next, id) {
      i, who := 0, steps[0].operation.executor;
      assert steps[..0] == [] && steps[..1] == [steps[0]] && steps[..1][1..] == [];
      assert Run(s, steps[..1]) == next;
    } else {
      i, who := ExecutingStep(next, steps[1..], id);
      PrefixRuns(s, steps, i + 1);
      PrefixRuns(s, steps, i + 2);
      assert steps[..i + 1][1..] == steps[1..][..i] && steps[..i + 2][1..] == steps[1..][..i + 1];
      i := i + 1;
    }
  }

  predicate IsExecuted(s: State, id: ActionId) { id in s.tables.actions && s.tables.actions[id].status == Executed }

  /** The third event of an executed action names whoever's step executed it. */
  lemma LogNamesExecutor(now: Timestamp, steps: seq<Step>, id: ActionId) returns (i: nat, who: Hmac)
    requires Allowed(Init(now), steps) && IsExecuted(Run(Init(now), steps), id)
    ensures ExecutesAt(Init(now), steps, i, id, who)
    ensures var events := EventsOf(Run(Init(now), steps).tables.audit, id);
            && |events| == 3 && events[2].kind == WasExecuted && events[2].actor == who
            && (forall j, other | ExecutesAt(Init(now), steps, j, id, other) :: j == i && other == who)
  {
    hide Apply, EventsOf, AuditTells;
    i, who := ExecutingStep(Init(now), steps, id);
    AuditNames(now, steps, id, i, who);
    forall j, other | ExecutesAt(Init(now), steps, j, id, other) ensures j == i && other == who {
      ExecutedOnce(Init(now), steps, id, i, who, j, other);
      AuditNames(now, steps, id, j, other);
    }
  }

  lemma AuditNames(now: Timestamp, steps: seq<Step>, id: ActionId, i: nat, who: Hmac)
    requires Allowed(Init(now), steps) && IsExecuted(Run(Init(now), steps), id)
    requires ExecutesAt(Init(now), steps, i, id, who)
    ensures var events := EventsOf(Run(Init(now), steps).tables.audit, id);
            |events| == 3 && events[2].kind == WasExecuted && events[2].actor == who
  {
    hide Apply, Enabled, Allowed, Run, EventsOf;
    var t := Run(Init(now), steps).tables;
    var after := Run(Init(now), steps[..i + 1]);
    PrefixRuns(Init(now), steps, i + 1);
    RunEvolves(after, steps[i + 1..], id);
    var k := |after.tables.audit| - 1;
    assert t.audit[k] == after.tables.audit[k];
    EventsOfHas(t.audit, k);
    AuditIsComplete(now, steps, id);
    var events := EventsOf(t.audit, id);
    assert AuditTells(id, t.actions[id], events);
    assert events[..2][0] == events[0] && events[..2][1] == events[1];
    var m :| 0 <= m < |events| && events[m] == t.audit[k];
  }

  /** Executed once is executed for good, so no second step can do it. */
  lemma ExecutedOnce(s: State, steps: seq<Step>, id: ActionId, i: nat, who: Hmac, j: nat, other: Hmac)
    requires Allowed(s, steps) && ExecutesAt(s, steps, i, id, who) && ExecutesAt(s, steps, j, id, other)
    ensures i == j
  {
    if i < j {
      LaterStaysExecuted(s, steps, id, i, who, j);
    } else if j < i {
      LaterStaysExecuted(s, steps, id, j, other, i);
    }
  }

  lemma LaterStaysExecuted(s: State, steps: seq<Step>, id: ActionId, i: nat, who: Hmac, j: nat)
    requires Allowed(s, steps) && ExecutesAt(s, steps, i, id, who) && i < j <= |steps|
    ensures Allowed(s, steps[..j]) && IsExecuted(Run(s, steps[..j]), id)
  {
    hide Apply, Enabled, Allowed, Run;
    PrefixRuns(s, steps, j);
    PrefixRuns(s, steps[..j], i + 1);
    assert steps[..j][..i + 1] == steps[..i + 1];
    RunEvolves(Run(s, steps[..i + 1]), steps[..j][i + 1..], id);
  }
}

/**
 * Action requests side by side: the limit is checked in one transaction, the action planned outside any, and
 * the request created in another, while approvals and executions go on.
 */
module ActionCalls {
  import opened Common
  import opened Counting
  import opened Actions
  import L = Limits

  type CallId = nat

  /** The limit, and how many calls of one requester are open at once. */
  datatype Config = Config(perMinute: int, callsAtOnce: nat)

  /** A call that passed the check and has not created its action yet, and whose it is. */
  type Calls = map<CallId, Hmac>

  datatype State = State(now: Timestamp, tables: Actions.Tables, calls: Calls)

  datatype Step =
    | Tick(elapsed: nat)
    | Check(call: CallId, requester: Hmac)
    | Propose(call: CallId, id: ActionId, planned: Planned)
    | Vanish(call: CallId)
    | Approve(id: ActionId, approver: Hmac)
    | Execute(id: ActionId, executor: Hmac)

  function CallsBy(calls: Calls, p: Hmac): set<CallId> { set k | k in calls && calls[k] == p }

  predicate Enabled(c: Config, s: State, step: Step) {
    match step
    case Check(call, requester) => call !in s.calls && |CallsBy(s.calls, requester)| < c.callsAtOnce
    case Propose(call, id, _) => call in s.calls && id !in s.tables.actions
    case Vanish(call) => call in s.calls
    case _ => true
  }

  /** The limit lets a request pass while the last minute holds fewer. */
  predicate Passes(actions: map<ActionId, Action>, requester: Hmac, perMinute: int, now: Timestamp) {
    1 <= perMinute <= 1000 && |RequestsSince(actions, requester, L.From(L.LastMinute, now))| < perMinute
  }

  function Apply(c: Config, s: State, step: Step): State
    requires Enabled(c, s, step)
  {
    match step
    case Tick(elapsed) => s.(now := s.now + elapsed)
    case Check(call, requester) =>
      if Passes(s.tables.actions, requester, c.perMinute, s.now) then s.(calls := s.calls[call := requester]) else s
    case Propose(call, id, planned) =>
      s.(tables := Create(s.tables, id, s.calls[call], planned, s.now), calls := s.calls - {call})
    case Vanish(call) => s.(calls := s.calls - {call})
    case Approve(id, approver) => s.(tables := Actions.Approve(s.tables, id, approver, s.now).0)
    case Execute(id, executor) => s.(tables := Actions.Execute(s.tables, id, executor, s.now).0)
  }

  predicate Allowed(c: Config, s: State, steps: seq<Step>)
    decreases |steps|
  {
    steps == [] || (Enabled(c, s, steps[0]) && Allowed(c, Apply(c, s, steps[0]), steps[1..]))
  }

  function Run(c: Config, s: State, steps: seq<Step>): State
    requires Allowed(c, s, steps)
    decreases |steps|
  {
    if steps == [] then s else Run(c, Apply(c, s, steps[0]), steps[1..])
  }

  function Init(now: Timestamp): State { State.State(now, Actions.Tables(map[], []), map[]) }

  // ---- Seen from one requester: a log and what is in flight ----

  /** A log that weighs, from any instant on, what the table counts from that instant on. */
  ghost predicate Mirrors(actions: map<ActionId, Action>, requester: Hmac, log: seq<L.Entry>) {
    forall from: Timestamp :: |RequestsSince(actions, requester, from)| == L.Since(log, from)
  }

  lemma CreateMirrors(t: Actions.Tables, id: ActionId, creator: Hmac, planned: Planned, now: Timestamp, requester: Hmac,
                      log: seq<L.Entry>)
    requires id !in t.actions && Mirrors(t.actions, requester, log)
    ensures Mirrors(Create(t, id, creator, planned, now).actions, requester,
                    if creator == requester then log + [L.Entry(now, 1)] else log)
  {
    var after := Create(t, id, creator, planned, now).actions;
    forall from: Timestamp
      ensures |RequestsSince(after, requester, from)|
              == |RequestsSince(t.actions, requester, from)| + if creator == requester && now >= from then 1 else 0
    {
      assert RequestsSince(after, requester, from)
             == RequestsSince(t.actions, requester, from) + if creator == requester && now >= from then {id} else {};
    }
    forall from: Timestamp { L.SinceAppend(log, L.Entry(now, 1), from); }
  }

  lemma DecisionMirrors(before: map<ActionId, Action>, after: map<ActionId, Action>, requester: Hmac, log: seq<L.Entry>)
    requires Mirrors(before, requester, log) && after.Keys == before.Keys
    requires forall id | id in before ::
               after[id].requester == before[id].requester && after[id].createdAt == before[id].createdAt
    ensures Mirrors(after, requester, log)
  {
    forall from: Timestamp ensures RequestsSince(after, requester, from) == RequestsSince(before, requester, from) {}
  }

  lemma DecisionsKeepRequests(t: Actions.Tables, id: ActionId, who: Hmac, now: Timestamp)
    ensures var approved := Actions.Approve(t, id, who, now).0.actions;
            var executed := Actions.Execute(t, id, who, now).0.actions;
            && approved.Keys == t.actions.Keys == executed.Keys
            && forall x | x in t.actions ::
                 && approved[x].requester == t.actions[x].requester == executed[x].requester
                 && approved[x].createdAt == t.actions[x].createdAt == executed[x].createdAt
  {}

  function Policy(c: Config): L.Policy
    requires c.perMinute >= 0
  {
    L.Policy(L.LastMinute, c.perMinute, c.callsAtOnce, 1)
  }

  /** The requester's requests are the log's, and its open calls are in flight. */
  ghost predicate Views(s: State, p: Hmac, v: L.State) {
    v.now == s.now && v.inFlight == |CallsBy(s.calls, p)| && Mirrors(s.tables.actions, p, v.log)
  }

  lemma CallsMove(calls: Calls, k: CallId, who: Hmac, p: Hmac)
    ensures k !in calls ==> CallsBy(calls[k := who], p) == CallsBy(calls, p) + if who == p then {k} else {}
    ensures CallsBy(calls - {k}, p) == CallsBy(calls, p) - {k}
    ensures k in CallsBy(calls, p) <==> k in calls && calls[k] == p
  {}

  lemma CheckProjects(c: Config, s: State, call: CallId, p: Hmac, v: L.State)
    requires 1 <= c.perMinute <= 1000 && Enabled(c, s, Check(call, p)) && Views(s, p, v)
    ensures L.Enabled(Policy(c), v, L.Check) && Views(Apply(c, s, Check(call, p)), p, L.Apply(Policy(c), v, L.Check))
  {
    hide CallsBy, Mirrors, Passes, L.Passes;
    CallsMove(s.calls, call, p, p);
    CheckAgrees(s, p, v, c.perMinute);
  }

  lemma ProposeProjects(c: Config, s: State, step: Step, p: Hmac, v: L.State)
    requires c.perMinute >= 0 && step.Propose? && Enabled(c, s, step) && s.calls[step.call] == p && Views(s, p, v)
    ensures L.Enabled(Policy(c), v, L.Record(1)) && Views(Apply(c, s, step), p, L.Apply(Policy(c), v, L.Record(1)))
  {
    hide CallsBy, Mirrors, Create;
    CallsMove(s.calls, step.call, p, p);
    CreateMirrors(s.tables, step.id, p, step.planned, s.now, p, v.log);
  }

  lemma VanishProjects(c: Config, s: State, call: CallId, p: Hmac, v: L.State)
    requires c.perMinute >= 0 && call in s.calls && s.calls[call] == p && Views(s, p, v)
    ensures L.Enabled(Policy(c), v, L.Drop) && Views(Apply(c, s, Vanish(call)), p, L.Apply(Policy(c), v, L.Drop))
  {
    hide CallsBy, Mirrors;
    CallsMove(s.calls, call, p, p);
  }

  /** The step is not one of this requester's calls, nor a tick. */
  predicate Elsewhere(s: State, step: Step, p: Hmac) {
    match step
    case Tick(_) => false
    case Check(_, requester) => requester != p
    case Propose(call, _, _) => call in s.calls && s.calls[call] != p
    case Vanish(call) => call in s.calls && s.calls[call] != p
    case _ => true
  }

  lemma ElsewhereUnseen(c: Config, s: State, step: Step, p: Hmac, v: L.State)
    requires Enabled(c, s, step) && Elsewhere(s, step, p) && Views(s, p, v)
    ensures Views(Apply(c, s, step), p, v)
  {
    hide CallsBy, Mirrors, Create, Actions.Approve, Actions.Execute, Passes;
    match step
    case Check(call, requester) => CallsMove(s.calls, call, requester, p);
    case Propose(call, id, planned) =>
      CallsMove(s.calls, call, s.calls[call], p);
      CreateMirrors(s.tables, id, s.calls[call], planned, s.now, p, v.log);
    case Vanish(call) => CallsMove(s.calls, call, s.calls[call], p);
    case Approve(id, who) =>
      DecisionsKeepRequests(s.tables, id, who, s.now);
      DecisionMirrors(s.tables.actions, Apply(c, s, step).tables.actions, p, v.log);
    case Execute(id, who) =>
      DecisionsKeepRequests(s.tables, id, who, s.now);
      DecisionMirrors(s.tables.actions, Apply(c, s, step).tables.actions, p, v.log);
  }

  /** Each step is a check, a record, a drop, a tick, or nothing. */
  lemma StepProjects(c: Config, s: State, step: Step, p: Hmac, v: L.State) returns (steps: seq<L.Step>)
    requires 1 <= c.perMinute <= 1000 && Enabled(c, s, step) && Views(s, p, v)
    ensures L.Allowed(Policy(c), v, steps) && Views(Apply(c, s, step), p, L.Run(Policy(c), v, steps))
  {
    hide Views, L.Apply, L.Enabled;
    if Elsewhere(s, step, p) {
      ElsewhereUnseen(c, s, step, p, v);
      steps := [];
    } else {
      match step {
        case Tick(elapsed) =>
          TickProjects(c, s, elapsed, p, v);
          steps := [L.Tick(elapsed)];
        case Check(call, _) =>
          CheckProjects(c, s, call, p, v);
          steps := [L.Check];
        case Propose(_, _, _) =>
          ProposeProjects(c, s, step, p, v);
          steps := [L.Record(1)];
        case Vanish(call) =>
          VanishProjects(c, s, call, p, v);
          steps := [L.Drop];
      }
      L.RunOne(Policy(c), v, steps[0]);
    }
  }

  lemma TickProjects(c: Config, s: State, elapsed: nat, p: Hmac, v: L.State)
    requires c.perMinute >= 0 && Views(s, p, v)
    ensures L.Enabled(Policy(c), v, L.Tick(elapsed))
    ensures Views(Apply(c, s, Tick(elapsed)), p, L.Apply(Policy(c), v, L.Tick(elapsed)))
  {}

  lemma CheckAgrees(s: State, p: Hmac, v: L.State, perMinute: nat)
    requires Views(s, p, v) && 1 <= perMinute <= 1000
    ensures Passes(s.tables.actions, p, perMinute, s.now) <==> L.Passes(v.log, L.LastMinute, perMinute, v.now)
  {
    assert |RequestsSince(s.tables.actions, p, L.From(L.LastMinute, s.now))|
        == L.Since(v.log, L.From(L.LastMinute, s.now));
  }

  lemma {:induction false} RunProjects(c: Config, s: State, steps: seq<Step>, p: Hmac, v: L.State)
    returns (plan: seq<L.Step>)
    requires 1 <= c.perMinute <= 1000 && Allowed(c, s, steps) && Views(s, p, v)
    ensures L.Allowed(Policy(c), v, plan) && Views(Run(c, s, steps), p, L.Run(Policy(c), v, plan))
    decreases |steps|
  {
    hide Apply, Enabled, Views;
    plan := [];
    if steps != [] {
      var first := StepProjects(c, s, steps[0], p, v);
      var rest := RunProjects(c, Apply(c, s, steps[0]), steps[1..], p, L.Run(Policy(c), v, first));
      L.RunAppend(Policy(c), v, first, rest);
      plan := first + rest;
    }
  }

  lemma StartsIdle(now: Timestamp, p: Hmac)
    ensures Views(Init(now), p, L.Idle(now))
  {
    assert CallsBy(map[], p) == {};
    forall from: Timestamp ensures RequestsSince(map[], p, from) == {} {}
  }

  // ---- The bound, on the requests themselves ----

  /** The requests of one principal created between two instants, both included. */
  function RequestsBetween(actions: map<ActionId, Action>, p: Hmac, from: Timestamp, to: Timestamp): set<ActionId> {
    set id | id in actions && actions[id].requester == p && from <= actions[id].createdAt <= to
  }

  lemma RequestsCounted(actions: map<ActionId, Action>, p: Hmac, log: seq<L.Entry>, from: Timestamp, to: Timestamp)
    requires Mirrors(actions, p, log) && from <= to
    ensures |RequestsBetween(actions, p, from, to)| == L.Between(log, from, to)
  {
    L.BetweenIsDifference(log, from, to);
    var all, later := RequestsSince(actions, p, from), RequestsSince(actions, p, to + 1);
    assert |all| == L.Since(log, from) && |later| == L.Since(log, to + 1);
    assert all == RequestsBetween(actions, p, from, to) + later && RequestsBetween(actions, p, from, to) !! later;
  }

  /**
   * However requests interleave, a principal with at most c calls open creates at most L - 1 + c actions in any
   * minute.
   */
  lemma RequestsPerMinute(c: Config, now: Timestamp, steps: seq<Step>, p: Hmac, t: Timestamp)
    requires 1 <= c.perMinute <= 1000 && c.callsAtOnce >= 1 && Allowed(c, Init(now), steps)
    ensures var requests := RequestsBetween(Run(c, Init(now), steps).tables.actions, p, t - 60 * SECOND, t);
            |requests| <= c.perMinute - 1 + c.callsAtOnce && (c.callsAtOnce == 1 ==> |requests| <= c.perMinute)
  {
    hide Run, Allowed, L.Run, L.Allowed, Mirrors, RequestsBetween;
    StartsIdle(now, p);
    var plan := RunProjects(c, Init(now), steps, p, L.Idle(now));
    L.WindowsAreBounded(Policy(c), now, plan, t);
    var log := L.Run(Policy(c), L.Idle(now), plan).log;
    RequestsCounted(Run(c, Init(now), steps).tables.actions, p, log, t - 60 * SECOND, t);
  }

  // ---- The bound is reached ----

  /** A check or a record is the view of one step of some call. */
  lemma StepRealised(c: Config, s: State, p: Hmac, v: L.State, step: L.Step) returns (move: Step)
    requires 1 <= c.perMinute <= 1000 && Views(s, p, v) && L.Enabled(Policy(c), v, step)
    requires step == L.Check || step == L.Record(1)
    ensures Enabled(c, s, move) && Views(Apply(c, s, move), p, L.Apply(Policy(c), v, step))
  {
    hide Views, L.Apply, Apply;
    ViewsCount(s, p, v);
    if step == L.Check {
      var k := Unused(s.calls.Keys);
      move := Check(k, p);
      CheckProjects(c, s, k, p, v);
    } else {
      var k :| k in CallsBy(s.calls, p);
      var id := Unused(s.tables.actions.Keys);
      move := Propose(k, id, Planned(Arguments("", "", ""), "", ""));
      ProposeProjects(c, s, move, p, v);
    }
  }

  lemma ViewsCount(s: State, p: Hmac, v: L.State)
    requires Views(s, p, v)
    ensures v.inFlight == |CallsBy(s.calls, p)|
  {}

  lemma {:induction false} RunRealised(c: Config, s: State, p: Hmac, v: L.State, plan: seq<L.Step>)
    returns (steps: seq<Step>)
    requires 1 <= c.perMinute <= 1000 && Views(s, p, v) && L.Allowed(Policy(c), v, plan)
    requires forall step | step in plan :: step == L.Check || step == L.Record(1)
    ensures Allowed(c, s, steps) && Views(Run(c, s, steps), p, L.Run(Policy(c), v, plan))
    decreases |plan|
  {
    hide Apply, Enabled, Views, L.Apply, L.Enabled;
    steps := [];
    if plan != [] {
      assert plan[0] in plan && forall step | step in plan[1..] :: step in plan;
      var first := StepRealised(c, s, p, v, plan[0]);
      var rest := RunRealised(c, Apply(c, s, first), p, L.Apply(Policy(c), v, plan[0]), plan[1..]);
      steps := [first] + rest;
      assert steps[1..] == rest;
    }
  }

  /** The bound cannot be improved. */
  lemma RequestBoundIsReached(c: Config, now: Timestamp, p: Hmac) returns (steps: seq<Step>)
    requires 1 <= c.perMinute <= 1000 && c.callsAtOnce >= 1
    ensures Allowed(c, Init(now), steps)
    ensures |RequestsBetween(Run(c, Init(now), steps).tables.actions, p, now - 60 * SECOND, now)|
            == c.perMinute - 1 + c.callsAtOnce
  {
    hide Run, Allowed, L.Run, L.Allowed, Mirrors, RequestsBetween;
    StartsIdle(now, p);
    var light, heavy := L.BoundIsReached(Policy(c), now);
    var plan := light + heavy;
    steps := RunRealised(c, Init(now), p, L.Idle(now), plan);
    var log := L.Run(Policy(c), L.Idle(now), plan).log;
    RequestsCounted(Run(c, Init(now), steps).tables.actions, p, log, now - 60 * SECOND, now);
  }
}

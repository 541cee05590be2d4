/**
 * Calls of `answer_question` side by side. Each of its transactions is one step, so checks, lookups, traces
 * and cache writes of different calls interleave in any order; a call may also vanish at any point.
 */
module RagCalls {
  import opened Common
  import opened Counting
  import opened Text
  import opened RankFusion
  import opened Rag
  import L = Limits

  type CallId = nat

  /**
   * The service's settings, and what is known of its callers: how many calls of one principal are open at once,
   * and the most tokens one of them takes.
   */
  datatype Config = Config(perMinute: int, budget: int, callsAtOnce: nat, heaviest: nat)

  /** What a call is about to write into its trace. */
  datatype Note = Note(status: Status, tokens: nat, retrieved: nat, citations: nat, cached: bool)

  /** `charged`: the budget was checked before. `next` is how the call goes on once its trace is written. */
  datatype Phase =
    | Admitted
    | Searching
    | Weighing(evidence: seq<Hit>)
    | Recording(note: Note, charged: bool, next: Phase)
    | Storing(answer: Answer)
    | Ended(reply: Reply)
    | Vanished

  /** `asked`: the evidence that the provider was asked with, if it was; `traced`: the trace is written. */
  datatype Call = Call(request: Request, services: Services, phase: Phase, asked: Option<seq<Hit>>, traced: bool)

  datatype State = State(now: Timestamp, tables: Tables, calls: map<CallId, Call>)

  datatype Step =
    | Tick(elapsed: nat)
    | Begin(call: CallId, request: Request, services: Services)
    | LookUp(call: CallId, base: Base)
    | Search(call: CallId, base: Base)
    | Weigh(call: CallId)
    | Write(call: CallId)
    | Keep(call: CallId)
    | Vanish(call: CallId)

  predicate IsOpen(phase: Phase) { !phase.Ended? && !phase.Vanished? }

  /** A call that may still write a trace. */
  predicate Untraced(phase: Phase) {
    phase.Admitted? || phase.Searching? || phase.Weighing? || phase.Recording?
  }

  predicate Charged(phase: Phase) { phase.Recording? && phase.charged }

  function CallsOf(calls: map<CallId, Call>, p: Hmac, those: Phase -> bool): set<CallId> {
    set k | k in calls && calls[k].request.key.principal == p && those(calls[k].phase)
  }

  ghost predicate Sparing(v: Services, heaviest: nat) {
    forall q, evidence :: v.generate(q, evidence).Drafted? ==> v.generate(q, evidence).tokens <= heaviest
  }

  predicate InPhase(s: State, call: CallId, those: Phase -> bool) { call in s.calls && those(s.calls[call].phase) }

  ghost predicate Enabled(c: Config, s: State, step: Step) {
    match step
    case Tick(_) => true
    case Begin(call, r, v) =>
      && call !in s.calls && r.requestsPerMinute == c.perMinute && r.dailyTokenBudget == c.budget
      && Sparing(v, c.heaviest)
      && |CallsOf(s.calls, r.key.principal, IsOpen)| < c.callsAtOnce
    case LookUp(call, _) => call in s.calls && s.calls[call].phase.Admitted?
    case Search(call, _) => call in s.calls && s.calls[call].phase.Searching?
    case Weigh(call) => call in s.calls && s.calls[call].phase.Weighing? && s.calls[call].phase.evidence != []
    case Write(call) => call in s.calls && s.calls[call].phase.Recording?
    case Keep(call) => call in s.calls && s.calls[call].phase.Storing?
    case Vanish(call) => call in s.calls && IsOpen(s.calls[call].phase)
  }

  function Failing(f: Failure): Phase { Ended(Failed(f)) }

  /** An answer is traced, and then remembered if a time to live was asked for. */
  function Concluding(r: Request, answer: Answer, tokens: nat, retrieved: nat, charged: bool): Phase {
    Recording(Note(answer.status, tokens, retrieved, |answer.citations|, false), charged,
              if r.cacheTtlSeconds == 0 then Ended(Given(answer)) else Storing(answer))
  }

  function AfterBegin(t: Tables, r: Request, now: Timestamp): Phase {
    var failure := RateFailure(t.traces, r.key.principal, r.requestsPerMinute, now);
    if failure.Some? then Failing(failure.value) else Admitted
  }

  function AfterLookUp(t: Tables, r: Request, b: Base, now: Timestamp): Phase {
    var served := if r.cacheTtlSeconds != 0 then Lookup(t.cache, b, r.key, now) else None;
    if served.Some? then
      Recording(Note(served.value.status, 0, 0, |served.value.citations|, true), false, Ended(Given(served.value)))
    else Searching
  }

  ghost function AfterSearch(r: Request, v: Services, b: Base): Phase {
    if Strip(r.key.question.text) == [] then Failing(InvalidQuery)
    else
      var evidence := Evidence(v, b, r.key);
      if evidence == [] then Concluding(r, Refusal, 0, |Hits(v, b, r.key)|, false) else Weighing(evidence)
  }

  function AfterWeigh(t: Tables, r: Request, v: Services, evidence: seq<Hit>, now: Timestamp): Phase
    requires evidence != []
  {
    var failure := BudgetFailure(t.traces, r.key.principal, r.dailyTokenBudget, now);
    if failure.Some? then Failing(failure.value)
    else match Judge(v, r.key.question, evidence, r.allowDegraded)
         case Judged(answer, tokens) => Concluding(r, answer, tokens, |evidence|, true)
         case Down => Recording(Note(ProviderUnavailable, 0, |evidence|, 0, false), true, Failing(ProviderDown))
         case BadDraft => Failing(InvalidDraft)
  }

  function Traced(t: Tables, r: Request, n: Note, now: Timestamp): Tables {
    t.(traces := t.traces + [TraceOf(r, n.status, n.tokens, now, n.retrieved, n.citations, n.cached)])
  }

  function Kept(t: Tables, r: Request, answer: Answer, now: Timestamp): (Tables, Phase) {
    if TtlValid(r.cacheTtlSeconds)
    then (t.(cache := Remembered(t.cache, r.key, answer, r.cacheTtlSeconds, now)), Ended(Given(answer)))
    else (t, Failing(InvalidTtl))
  }

  function Moved(s: State, call: CallId, phase: Phase): State
    requires call in s.calls
  {
    s.(calls := s.calls[call := s.calls[call].(phase := phase)])
  }

  /** The provider is asked once the budget has let the call pass. */
  function AskedWith(t: Tables, me: Call, now: Timestamp): Call
    requires me.phase.Weighing?
  {
    if BudgetFailure(t.traces, me.request.key.principal, me.request.dailyTokenBudget, now).Some? then me
    else me.(asked := Some(me.phase.evidence))
  }

  ghost function Apply(c: Config, s: State, step: Step): State
    requires Enabled(c, s, step)
  {
    match step
    case Tick(elapsed) => s.(now := s.now + elapsed)
    case Begin(call, r, v) => s.(calls := s.calls[call := Call(r, v, AfterBegin(s.tables, r, s.now), None, false)])
    case LookUp(call, b) => Moved(s, call, AfterLookUp(s.tables, s.calls[call].request, b, s.now))
    case Search(call, b) => Moved(s, call, AfterSearch(s.calls[call].request, s.calls[call].services, b))
    case Weigh(call) =>
      var me := AskedWith(s.tables, s.calls[call], s.now);
      var phase := AfterWeigh(s.tables, me.request, me.services, me.phase.evidence, s.now);
      s.(calls := s.calls[call := me.(phase := phase)])
    case Write(call) =>
      var me := s.calls[call];
      s.(tables := Traced(s.tables, me.request, me.phase.note, s.now),
         calls := s.calls[call := me.(phase := me.phase.next, traced := true)])
    case Keep(call) =>
      var (tables, phase) := Kept(s.tables, s.calls[call].request, s.calls[call].phase.answer, s.now);
      Moved(s, call, phase).(tables := tables)
    case Vanish(call) => Moved(s, call, Vanished)
  }

  ghost predicate Allowed(c: Config, s: State, steps: seq<Step>)
    decreases |steps|
  {
    steps == [] || (Enabled(c, s, steps[0]) && Allowed(c, Apply(c, s, steps[0]), steps[1..]))
  }

  ghost function Run(c: Config, s: State, steps: seq<Step>): State
    requires Allowed(c, s, steps)
    decreases |steps|
  {
    if steps == [] then s else Run(c, Apply(c, s, steps[0]), steps[1..])
  }

  function Init(now: Timestamp): State { State(now, Tables([], map[]), map[]) }

  // ---- What every step keeps ----

  /**
   * Nothing uncharged weighs anything, nothing charged more than the heaviest call; and after its trace a call
   * writes no other.
   */
  predicate NoteOk(phase: Phase, heaviest: nat) {
    phase.Recording? ==>
      && phase.note.tokens <= (if phase.charged then heaviest else 0)
      && !Untraced(phase.next)
  }

  ghost predicate CallsOk(c: Config, calls: map<CallId, Call>) {
    && (forall k | k in calls ::
          && NoteOk(calls[k].phase, c.heaviest) && Sparing(calls[k].services, c.heaviest)
          && calls[k].request.requestsPerMinute == c.perMinute && calls[k].request.dailyTokenBudget == c.budget)
    && (forall p :: |CallsOf(calls, p, IsOpen)| <= c.callsAtOnce)
  }

  lemma WeighedWithin(t: Tables, r: Request, v: Services, evidence: seq<Hit>, now: Timestamp, heaviest: nat)
    requires evidence != [] && Sparing(v, heaviest)
    ensures NoteOk(AfterWeigh(t, r, v, evidence, now), heaviest)
  {
    hide Verified, BudgetFailure;
  }

  /** Moving one call among the calls of every principal. */
  lemma CallsMove(calls: map<CallId, Call>, k: CallId, me: Call, p: Hmac, those: Phase -> bool)
    requires k in calls ==> calls[k].request.key.principal == me.request.key.principal
    ensures var before, after := CallsOf(calls, p, those), CallsOf(calls[k := me], p, those);
            && after == (if p == me.request.key.principal && those(me.phase) then before + {k} else before - {k})
            && (k in before <==> k in calls && calls[k].request.key.principal == p && those(calls[k].phase))
  {}

  lemma StepKeepsCalls(c: Config, s: State, step: Step)
    requires CallsOk(c, s.calls) && Enabled(c, s, step)
    ensures CallsOk(c, Apply(c, s, step).calls)
  {
    hide Sparing, AfterBegin, AfterLookUp, AfterSearch, AfterWeigh, Kept, CallsOf;
    if !step.Tick? {
      var after := Apply(c, s, step).calls;
      var me := after[step.call];
      if step.Weigh? {
        WeighedWithin(s.tables, me.request, me.services, s.calls[step.call].phase.evidence, s.now, c.heaviest);
      } else {
        PhasesSimple(c, s, step);
      }
      forall p ensures |CallsOf(after, p, IsOpen)| <= c.callsAtOnce {
        CallsMove(s.calls, step.call, me, p, IsOpen);
      }
    }
  }

  lemma PhasesSimple(c: Config, s: State, step: Step)
    requires Enabled(c, s, step) && !step.Tick? && !step.Weigh?
    requires step.Write? ==> NoteOk(s.calls[step.call].phase, c.heaviest)
    ensures NoteOk(Apply(c, s, step).calls[step.call].phase, c.heaviest)
  {
    hide Sparing, RateFailure, Lookup, Evidence, Hits, Strip, CallsOf;
  }

  // ---- Seen from one principal: a log and what is in flight ----

  function RatePolicy(c: Config): L.Policy
    requires c.perMinute >= 0
  {
    L.Policy(L.LastMinute, c.perMinute, c.callsAtOnce, 1)
  }

  function RateView(s: State, p: Hmac): L.State {
    L.State(s.now, LogOf(s.tables.traces, p, false), |CallsOf(s.calls, p, Untraced)|)
  }

  function BudgetPolicy(c: Config): L.Policy
    requires c.budget >= 0
  {
    L.Policy(L.Today, c.budget, c.callsAtOnce, c.heaviest)
  }

  function BudgetView(s: State, p: Hmac): L.State {
    L.State(s.now, LogOf(s.tables.traces, p, true), |CallsOf(s.calls, p, Charged)|)
  }

  lemma LogGrows(traces: seq<Trace>, trace: Trace, principal: Hmac, byTokens: bool)
    ensures LogOf(traces + [trace], principal, byTokens)
            == LogOf(traces, principal, byTokens)
               + if trace.principal == principal then [L.Entry(trace.at, if byTokens then trace.tokens else 1)] else []
  {
    assert (traces + [trace])[..|traces|] == traces;
  }

  lemma FewerThanOpen(calls: map<CallId, Call>, p: Hmac, those: Phase -> bool)
    requires forall phase :: those(phase) ==> IsOpen(phase)
    ensures CallsOf(calls, p, those) <= CallsOf(calls, p, IsOpen)
    ensures |CallsOf(calls, p, those)| <= |CallsOf(calls, p, IsOpen)|
  {
    SubsetSize(CallsOf(calls, p, those), CallsOf(calls, p, IsOpen));
  }

  /** Against the request limit each step is a check, a record, a drop, a tick, or nothing. */
  lemma RateStep(c: Config, s: State, step: Step, p: Hmac) returns (steps: seq<L.Step>)
    requires 1 <= c.perMinute <= 10_000 && CallsOk(c, s.calls) && Enabled(c, s, step)
    ensures L.Allowed(RatePolicy(c), RateView(s, p), steps)
    ensures L.Run(RatePolicy(c), RateView(s, p), steps) == RateView(Apply(c, s, step), p)
  {
    hide Sparing, Lookup, Evidence, Hits, Strip, Judge, BudgetFailure, LogOf, L.Passes, CallsOf;
    var s' := Apply(c, s, step);
    steps := [];
    if step.Tick? {
      steps := [L.Tick(step.elapsed)];
      L.RunOne(RatePolicy(c), RateView(s, p), steps[0]);
    } else {
      var me := s'.calls[step.call];
      CallsMove(s.calls, step.call, me, p, Untraced);
      FewerThanOpen(s.calls, p, Untraced);
      if step.Write? {
        LogGrows(s.tables.traces, s'.tables.traces[|s.tables.traces|], p, false);
      }
      if me.request.key.principal == p {
        if step.Write? {
          steps := [L.Record(1)];
        } else if step.Begin? && me.phase.Admitted? {
          steps := [L.Check];
        } else if !step.Begin? && Untraced(s.calls[step.call].phase) && !Untraced(me.phase) {
          steps := [L.Drop];
        }
        if steps != [] { L.RunOne(RatePolicy(c), RateView(s, p), steps[0]); }
      }
    }
  }

  /** Against the token budget likewise; what is traced without a check of the budget weighs nothing. */
  lemma BudgetStep(c: Config, s: State, step: Step, p: Hmac) returns (steps: seq<L.Step>)
    requires 1 <= c.budget <= 1_000_000_000 && CallsOk(c, s.calls) && Enabled(c, s, step)
    ensures L.Allowed(BudgetPolicy(c), BudgetView(s, p), steps)
    ensures L.Run(BudgetPolicy(c), BudgetView(s, p), steps) == BudgetView(Apply(c, s, step), p)
  {
    hide Sparing, Lookup, Evidence, Hits, Strip, Verified, RateFailure, LogOf, L.Passes, CallsOf;
    var s' := Apply(c, s, step);
    steps := [];
    if step.Tick? {
      steps := [L.Tick(step.elapsed)];
      L.RunOne(BudgetPolicy(c), BudgetView(s, p), steps[0]);
    } else {
      var me := s'.calls[step.call];
      CallsMove(s.calls, step.call, me, p, Charged);
      if step.Write? {
        LogGrows(s.tables.traces, s'.tables.traces[|s.tables.traces|], p, true);
      }
      if me.request.key.principal == p {
        if step.Write? {
          var phase := s.calls[step.call].phase;
          steps := [if phase.charged then L.Record(phase.note.tokens) else L.Free];
        } else if step.Weigh? && Charged(me.phase) {
          OneMoreFits(c, s.calls, step.call, p);
          steps := [L.Check];
        } else if step.Vanish? && Charged(s.calls[step.call].phase) {
          steps := [L.Drop];
        }
        if steps != [] { L.RunOne(BudgetPolicy(c), BudgetView(s, p), steps[0]); }
      }
    }
  }

  /** An open call that is not charged yet is one more than those that are. */
  lemma OneMoreFits(c: Config, calls: map<CallId, Call>, k: CallId, p: Hmac)
    requires |CallsOf(calls, p, IsOpen)| <= c.callsAtOnce
    requires k in calls && calls[k].request.key.principal == p && IsOpen(calls[k].phase) && !Charged(calls[k].phase)
    ensures |CallsOf(calls, p, Charged)| < c.callsAtOnce
  {
    SubsetSize(CallsOf(calls, p, Charged), CallsOf(calls, p, IsOpen) - {k});
  }

  lemma {:induction false} RunProjects(c: Config, s: State, steps: seq<Step>, p: Hmac)
    returns (rate: seq<L.Step>, budget: seq<L.Step>)
    requires CallsOk(c, s.calls) && Allowed(c, s, steps)
    ensures 1 <= c.perMinute <= 10_000 ==>
              && L.Allowed(RatePolicy(c), RateView(s, p), rate)
              && L.Run(RatePolicy(c), RateView(s, p), rate) == RateView(Run(c, s, steps), p)
    ensures 1 <= c.budget <= 1_000_000_000 ==>
              && L.Allowed(BudgetPolicy(c), BudgetView(s, p), budget)
              && L.Run(BudgetPolicy(c), BudgetView(s, p), budget) == BudgetView(Run(c, s, steps), p)
    decreases |steps|
  {
    hide Apply, Enabled, CallsOk, RateView, BudgetView;
    rate, budget := [], [];
    if steps != [] {
      var next := Apply(c, s, steps[0]);
      StepKeepsCalls(c, s, steps[0]);
      var laterRate, laterBudget := RunProjects(c, next, steps[1..], p);
      if 1 <= c.perMinute <= 10_000 {
        var now := RateStep(c, s, steps[0], p);
        L.RunAppend(RatePolicy(c), RateView(s, p), now, laterRate);
        rate := now + laterRate;
      }
      if 1 <= c.budget <= 1_000_000_000 {
        var now := BudgetStep(c, s, steps[0], p);
        L.RunAppend(BudgetPolicy(c), BudgetView(s, p), now, laterBudget);
        budget := now + laterBudget;
      }
    }
  }

  lemma StartsIdle(c: Config, now: Timestamp, p: Hmac)
    ensures CallsOk(c, Init(now).calls) && RateView(Init(now), p) == L.Idle(now) == BudgetView(Init(now), p)
  {
    assert forall q, those :: CallsOf(map[], q, those) == {};
  }

  // ---- The bounds, on the traces themselves ----

  /** The traces of a principal written between two instants, both included. */
  function TracesBetween(traces: seq<Trace>, p: Hmac, from: Timestamp, to: Timestamp): set<nat> {
    set i: nat | i < |traces| && traces[i].principal == p && from <= traces[i].at <= to
  }

  lemma OneMoreTrace(traces: seq<Trace>, last: Trace, p: Hmac, from: Timestamp, to: Timestamp)
    ensures |TracesBetween(traces + [last], p, from, to)|
            == |TracesBetween(traces, p, from, to)| + if last.principal == p && from <= last.at <= to then 1 else 0
  {
    var before, n := TracesBetween(traces, p, from, to), |traces|;
    assert n !in before;
    assert TracesBetween(traces + [last], p, from, to)
           == before + if last.principal == p && from <= last.at <= to then {n} else {};
  }

  lemma {:induction false} TracesCounted(traces: seq<Trace>, p: Hmac, from: Timestamp, to: Timestamp)
    ensures |TracesBetween(traces, p, from, to)| == L.Between(LogOf(traces, p, false), from, to)
  {
    hide L.Between, TracesBetween;
    if traces == [] {
      NothingBetween(p, from, to);
    } else {
      var init, last := traces[..|traces| - 1], traces[|traces| - 1];
      assert traces == init + [last];
      TracesCounted(init, p, from, to);
      OneMoreTrace(init, last, p, from, to);
      LogGrows(init, last, p, false);
      L.BetweenAppend(LogOf(init, p, false), L.Entry(last.at, 1), from, to);
      assert LogOf(init, p, false) + [] == LogOf(init, p, false);
    }
  }

  lemma NothingBetween(p: Hmac, from: Timestamp, to: Timestamp)
    ensures TracesBetween([], p, from, to) == {} && L.Between([], from, to) == 0
  {}

  /**
   * However calls interleave, a principal with at most c of them open writes at most L - 1 + c traces in any
   * minute.
   */
  lemma TracesPerMinute(c: Config, now: Timestamp, steps: seq<Step>, p: Hmac, t: Timestamp)
    requires 1 <= c.perMinute <= 10_000 && c.callsAtOnce >= 1 && Allowed(c, Init(now), steps)
    ensures |TracesBetween(Run(c, Init(now), steps).tables.traces, p, t - 60 * SECOND, t)|
            <= c.perMinute - 1 + c.callsAtOnce
    ensures c.callsAtOnce == 1 ==>
              |TracesBetween(Run(c, Init(now), steps).tables.traces, p, t - 60 * SECOND, t)| <= c.perMinute
  {
    hide Run, Allowed, L.Run, L.Allowed, TracesBetween;
    StartsIdle(c, now, p);
    var rate, _ := RunProjects(c, Init(now), steps, p);
    L.WindowsAreBounded(RatePolicy(c), now, rate, t);
    TracesCounted(Run(c, Init(now), steps).tables.traces, p, t - 60 * SECOND, t);
  }

  /** The tokens in the traces of a principal written between two instants, both included. */
  function TokensBetween(traces: seq<Trace>, p: Hmac, from: Timestamp, to: Timestamp): nat {
    if traces == [] then 0
    else
      var last := traces[|traces| - 1];
      TokensBetween(traces[..|traces| - 1], p, from, to)
      + if last.principal == p && from <= last.at <= to then last.tokens else 0
  }

  lemma {:induction false} TokensCounted(traces: seq<Trace>, p: Hmac, from: Timestamp, to: Timestamp)
    ensures TokensBetween(traces, p, from, to) == L.Between(LogOf(traces, p, true), from, to)
  {
    hide L.Between;
    if traces == [] {
      NothingBetween(p, from, to);
    } else {
      var init, last := traces[..|traces| - 1], traces[|traces| - 1];
      assert traces == init + [last];
      TokensCounted(init, p, from, to);
      LogGrows(init, last, p, true);
      L.BetweenAppend(LogOf(init, p, true), L.Entry(last.at, last.tokens), from, to);
      assert LogOf(init, p, true) + [] == LogOf(init, p, true);
    }
  }

  /** And it takes at most B - 1 + c * m tokens a day, if no call takes more than m. */
  lemma TokensPerDay(c: Config, now: Timestamp, steps: seq<Step>, p: Hmac, t: Timestamp)
    requires 1 <= c.budget <= 1_000_000_000 && c.callsAtOnce >= 1 && c.heaviest >= 1 && Allowed(c, Init(now), steps)
    ensures TokensBetween(Run(c, Init(now), steps).tables.traces, p, t - t % (86_400 * SECOND), t)
            <= c.budget - 1 + c.heaviest * c.callsAtOnce
  {
    hide Run, Allowed, L.Run, L.Allowed;
    StartsIdle(c, now, p);
    var _, budget := RunProjects(c, Init(now), steps, p);
    L.WindowsAreBounded(BudgetPolicy(c), now, budget, t);
    TokensCounted(Run(c, Init(now), steps).tables.traces, p, L.From(L.Today, t), t);
  }

  // ---- An undisturbed call ----

  lemma StepFirst(c: Config, s: State, step: Step, rest: seq<Step>)
    requires Enabled(c, s, step) && Allowed(c, Apply(c, s, step), rest)
    ensures Allowed(c, s, [step] + rest) && Run(c, s, [step] + rest) == Run(c, Apply(c, s, step), rest)
  {
    hide Enabled, Apply;
    assert ([step] + rest)[0] == step && ([step] + rest)[1..] == rest;
  }

  /** The steps lead to these tables and leave the call in this phase. */
  ghost predicate LeadsTo(c: Config, s: State, steps: seq<Step>, call: CallId, t: Tables, phase: Phase) {
    Allowed(c, s, steps)
    && var s' := Run(c, s, steps); s'.tables == t && call in s'.calls && s'.calls[call].phase == phase
  }

  lemma StepLeads(c: Config, s: State, step: Step, rest: seq<Step>, call: CallId, t: Tables, phase: Phase)
    requires Enabled(c, s, step) && LeadsTo(c, Apply(c, s, step), rest, call, t, phase)
    ensures LeadsTo(c, s, [step] + rest, call, t, phase)
  {
    hide Enabled, Apply;
    StepFirst(c, s, step, rest);
  }

  /** Let time pass, then take the step. */
  lemma LaterLeads(c: Config, s: State, at: Timestamp, step: Step, rest: seq<Step>, call: CallId, t: Tables,
                   phase: Phase)
    requires s.now <= at
    requires Enabled(c, s.(now := at), step) && LeadsTo(c, Apply(c, s.(now := at), step), rest, call, t, phase)
    ensures LeadsTo(c, s, [Tick(at - s.now)] + ([step] + rest), call, t, phase)
  {
    hide LeadsTo;
    StepLeads(c, s.(now := at), step, rest, call, t, phase);
    assert Apply(c, s, Tick(at - s.now)) == s.(now := at);
    StepLeads(c, s, Tick(at - s.now), [step] + rest, call, t, phase);
  }

  lemma NothingLeads(c: Config, s: State, call: CallId)
    requires call in s.calls
    ensures LeadsTo(c, s, [], call, s.tables, s.calls[call].phase)
  {}

  /** Tables and phase after a call in this phase has written its trace and, if it does, the cache. */
  function Settled(t: Tables, r: Request, phase: Phase, clock: Clock): (Tables, Phase)
    requires phase.Recording?
  {
    var traced := Traced(t, r, phase.note, clock.recorded);
    if phase.next.Storing? then Kept(traced, r, phase.next.answer, clock.stored) else (traced, phase.next)
  }

  lemma RecordAndKeep(c: Config, s: State, call: CallId, clock: Clock) returns (steps: seq<Step>)
    requires call in s.calls && s.calls[call].phase.Recording? && s.now <= clock.recorded <= clock.stored
    ensures var (t, phase) := Settled(s.tables, s.calls[call].request, s.calls[call].phase, clock);
            LeadsTo(c, s, steps, call, t, phase)
  {
    hide LeadsTo;
    var (t, phase) := Settled(s.tables, s.calls[call].request, s.calls[call].phase, clock);
    var s1 := Apply(c, s.(now := clock.recorded), Write(call));
    var rest: seq<Step> := [];
    if s1.calls[call].phase.Storing? {
      var s2 := Apply(c, s1.(now := clock.stored), Keep(call));
      NothingLeads(c, s2, call);
      LaterLeads(c, s1, clock.stored, Keep(call), [], call, t, phase);
      rest := [Tick(clock.stored - s1.now)] + ([Keep(call)] + []);
    } else {
      NothingLeads(c, s1, call);
    }
    LaterLeads(c, s, clock.recorded, Write(call), rest, call, t, phase);
    steps := [Tick(clock.recorded - s.now)] + ([Write(call)] + rest);
  }

  lemma SettledIsConcluded(t: Tables, r: Request, answer: Answer, tokens: nat, retrieved: nat, charged: bool,
                           clock: Clock)
    ensures var (tables, reply) := Concluded(t, r, answer, tokens, retrieved, clock);
            Settled(t, r, Concluding(r, answer, tokens, retrieved, charged), clock) == (tables, Ended(reply))
  {}

  /** From the retrieval on. */
  lemma ProduceSteps(c: Config, s: State, call: CallId, b: Base, clock: Clock) returns (steps: seq<Step>)
    requires call in s.calls && s.calls[call].phase.Searching?
    requires s.now <= clock.budgeted <= clock.recorded <= clock.stored
    ensures var (t, reply) := Produced(s.tables, s.calls[call].request, s.calls[call].services, b, clock);
            LeadsTo(c, s, steps, call, t, Ended(reply))
  {
    hide LeadsTo, Evidence, Hits, Strip, BudgetFailure, Judge, Settled, Concluding, Concluded;
    var r, v := s.calls[call].request, s.calls[call].services;
    var (t, reply) := Produced(s.tables, r, v, b, clock);
    var s1 := Apply(c, s, Search(call, b));
    var rest: seq<Step> := [];
    if Strip(r.key.question.text) == [] {
      NothingLeads(c, s1, call);
    } else if Evidence(v, b, r.key) == [] {
      SettledIsConcluded(s.tables, r, Refusal, 0, |Hits(v, b, r.key)|, false, clock);
      ConcludingRecords(r, Refusal, 0, |Hits(v, b, r.key)|, false);
      rest := RecordAndKeep(c, s1, call, clock);
    } else {
      rest := WeighSteps(c, s1, call, clock);
    }
    StepLeads(c, s, Search(call, b), rest, call, t, Ended(reply));
    steps := [Search(call, b)] + rest;
  }

  lemma ConcludingRecords(r: Request, answer: Answer, tokens: nat, retrieved: nat, charged: bool)
    ensures Concluding(r, answer, tokens, retrieved, charged).Recording?
  {}

  lemma WeighSteps(c: Config, s: State, call: CallId, clock: Clock) returns (steps: seq<Step>)
    requires call in s.calls && s.calls[call].phase.Weighing? && s.calls[call].phase.evidence != []
    requires s.now <= clock.budgeted <= clock.recorded <= clock.stored
    ensures var me := s.calls[call];
            var (t, reply) := Weighed(s.tables, me.request, me.services, me.phase.evidence, clock);
            LeadsTo(c, s, steps, call, t, Ended(reply))
  {
    hide LeadsTo, BudgetFailure, Judge, Concluding, Concluded;
    var me := s.calls[call];
    var r, evidence := me.request, me.phase.evidence;
    var (t, reply) := Weighed(s.tables, r, me.services, evidence, clock);
    var s1 := Apply(c, s.(now := clock.budgeted), Weigh(call));
    var rest: seq<Step> := [];
    if BudgetFailure(s.tables.traces, r.key.principal, r.dailyTokenBudget, clock.budgeted).Some? {
      NothingLeads(c, s1, call);
    } else {
      match Judge(me.services, r.key.question, evidence, r.allowDegraded) {
        case Judged(answer, tokens) =>
          SettledIsConcluded(s.tables, r, answer, tokens, |evidence|, true, clock);
          ConcludingRecords(r, answer, tokens, |evidence|, true);
          rest := RecordAndKeep(c, s1, call, clock);
        case Down =>
          rest := RecordAndKeep(c, s1, call, clock);
        case BadDraft =>
          NothingLeads(c, s1, call);
      }
    }
    LaterLeads(c, s, clock.budgeted, Weigh(call), rest, call, t, Ended(reply));
    steps := [Tick(clock.budgeted - s.now)] + ([Weigh(call)] + rest);
  }

  /**
   * `answer_question` without interruption is a run of these steps, so the bounds hold of the code that the
   * method models.
   */
  lemma RespondIsRun(c: Config, s: State, call: CallId, r: Request, v: Services, atLookup: Base, atRetrieval: Base,
                     clock: Clock)
    returns (steps: seq<Step>)
    requires Enabled(c, s, Begin(call, r, v))
    requires s.now == clock.checked <= clock.lookedUp <= clock.budgeted <= clock.recorded <= clock.stored
    ensures var (t, reply) := Respond(s.tables, r, v, atLookup, atRetrieval, clock);
            LeadsTo(c, s, steps, call, t, Ended(reply))
  {
    hide LeadsTo, Lookup, RateFailure, Produced, Sparing, CallsOf;
    var (t, reply) := Respond(s.tables, r, v, atLookup, atRetrieval, clock);
    var s1 := Apply(c, s, Begin(call, r, v));
    var rest: seq<Step> := [];
    if RateFailure(s.tables.traces, r.key.principal, r.requestsPerMinute, s.now).Some? {
      NothingLeads(c, s1, call);
    } else {
      var s2 := Apply(c, s1.(now := clock.lookedUp), LookUp(call, atLookup));
      var last: seq<Step>;
      if s2.calls[call].phase.Searching? {
        last := ProduceSteps(c, s2, call, atRetrieval, clock);
      } else {
        last := RecordAndKeep(c, s2, call, clock);
      }
      LaterLeads(c, s1, clock.lookedUp, LookUp(call, atLookup), last, call, t, Ended(reply));
      rest := [Tick(clock.lookedUp - s1.now)] + ([LookUp(call, atLookup)] + last);
    }
    StepLeads(c, s, Begin(call, r, v), rest, call, t, Ended(reply));
    steps := [Begin(call, r, v)] + rest;
  }

  // ---- The bound is reached ----

  /** A principal all of whose open calls are about to write their traces. */
  predicate AboutToWrite(s: State, p: Hmac) {
    forall k | k in s.calls && s.calls[k].request.key.principal == p && IsOpen(s.calls[k].phase) ::
      s.calls[k].phase.Recording? && s.calls[k].phase.next.Ended?
  }

  /** Services that find nothing, so that every question is refused. */
  const Empty: Services := Services((_, _) => [], (_, _) => [], _ => "", (_, _) => ProviderRefuses, (_, _) => "")

  function Asking(c: Config, p: Hmac): Request {
    Request(Key(p, Question("?", map[], Model("", ""), Model("", ""))), c.perMinute, c.budget, 0, false)
  }

  lemma NoEvidence(b: Base, k: Key)
    ensures Evidence(Empty, b, k) == [] && Hits(Empty, b, k) == []
  {
    assert Union([], []) == {};
  }

  /** Beginning such a call is a check of the limit. */
  lemma BeginChecks(c: Config, s: State, k: CallId, p: Hmac)
    requires 1 <= c.perMinute <= 10_000 && AboutToWrite(s, p) && k !in s.calls
    requires L.Enabled(RatePolicy(c), RateView(s, p), L.Check)
    ensures Enabled(c, s, Begin(k, Asking(c, p), Empty))
    ensures var s' := Apply(c, s, Begin(k, Asking(c, p), Empty));
            && RateView(s', p) == L.Apply(RatePolicy(c), RateView(s, p), L.Check)
            && k in s'.calls && s'.calls[k] == Call(Asking(c, p), Empty, s'.calls[k].phase, None, false)
            && (s'.calls[k].phase.Admitted? || s'.calls[k].phase.Ended?)
            && AboutToWrite(s'.(calls := s'.calls - {k}), p)
  {
    hide LogOf, L.Passes, CallsOf, Sparing;
    OpenAreUntraced(s, p);
    EmptyIsSparing(c.heaviest);
    var s1 := Apply(c, s, Begin(k, Asking(c, p), Empty));
    CallsMove(s.calls, k, s1.calls[k], p, Untraced);
  }

  /** Once admitted it finds nothing and is about to write the trace of a refusal. */
  lemma AdmittedWrites(c: Config, s: State, k: CallId, p: Hmac) returns (steps: seq<Step>)
    requires k in s.calls && s.calls[k] == Call(Asking(c, p), Empty, Admitted, None, false)
        && AboutToWrite(s.(calls := s.calls - {k}), p)
    ensures Allowed(c, s, steps)
    ensures AboutToWrite(Run(c, s, steps), p) && RateView(Run(c, s, steps), p) == RateView(s, p)
  {
    hide Evidence, Hits, LogOf, CallsOf, AboutToWrite;
    var b := Base(map[], {}, {});
    NoEvidence(b, Asking(c, p).key);
    var s2 := Apply(c, s, LookUp(k, b));
    CallsMove(s.calls, k, s2.calls[k], p, Untraced);
    var s3 := Apply(c, s2, Search(k, b));
    CallsMove(s2.calls, k, s3.calls[k], p, Untraced);
    StepFirst(c, s2, Search(k, b), []);
    StepFirst(c, s, LookUp(k, b), [Search(k, b)] + []);
    steps := [LookUp(k, b)] + ([Search(k, b)] + []);
    assert Run(c, s, steps) == s3 && s3.calls - {k} == s.calls - {k};
    assert s3.(calls := s3.calls - {k}) == s.(calls := s.calls - {k});
    assert CallsOf(s3.calls, p, Untraced) == CallsOf(s2.calls, p, Untraced) == CallsOf(s.calls, p, Untraced);
    OthersToo(s3, k, p);
  }

  lemma OthersToo(s: State, k: CallId, p: Hmac)
    requires AboutToWrite(s.(calls := s.calls - {k}), p)
    requires k in s.calls && (IsOpen(s.calls[k].phase) ==> s.calls[k].phase.Recording? && s.calls[k].phase.next.Ended?)
    ensures AboutToWrite(s, p)
  {
    var others := s.(calls := s.calls - {k});
    forall x | x in s.calls && x != k ensures x in others.calls && others.calls[x] == s.calls[x] {}
  }

  lemma CheckRealised(c: Config, s: State, p: Hmac) returns (steps: seq<Step>)
    requires 1 <= c.perMinute <= 10_000 && AboutToWrite(s, p)
    requires L.Enabled(RatePolicy(c), RateView(s, p), L.Check)
    ensures Allowed(c, s, steps)
    ensures var s' := Run(c, s, steps);
            AboutToWrite(s', p) && RateView(s', p) == L.Apply(RatePolicy(c), RateView(s, p), L.Check)
  {
    hide L.Apply, L.Enabled, RateView, Enabled, Apply;
    var k := Unused(s.calls.Keys);
    var begin := Begin(k, Asking(c, p), Empty);
    BeginChecks(c, s, k, p);
    var s1 := Apply(c, s, begin);
    var rest: seq<Step> := [];
    if s1.calls[k].phase.Admitted? {
      rest := AdmittedWrites(c, s1, k, p);
    } else {
      OthersToo(s1, k, p);
    }
    StepFirst(c, s, begin, rest);
    steps := [begin] + rest;
  }

  lemma EmptyIsSparing(heaviest: nat)
    ensures Sparing(Empty, heaviest)
  {}

  lemma OpenAreUntraced(s: State, p: Hmac)
    requires AboutToWrite(s, p)
    ensures CallsOf(s.calls, p, IsOpen) == CallsOf(s.calls, p, Untraced)
  {}

  lemma RecordRealised(c: Config, s: State, p: Hmac) returns (steps: seq<Step>)
    requires c.perMinute >= 0 && AboutToWrite(s, p) && L.Enabled(RatePolicy(c), RateView(s, p), L.Record(1))
    ensures Allowed(c, s, steps)
    ensures var s' := Run(c, s, steps);
            AboutToWrite(s', p) && RateView(s', p) == L.Apply(RatePolicy(c), RateView(s, p), L.Record(1))
  {
    hide LogOf, L.Passes;
    var k :| k in CallsOf(s.calls, p, Untraced);
    var s1 := Apply(c, s, Write(k));
    CallsMove(s.calls, k, s1.calls[k], p, Untraced);
    LogGrows(s.tables.traces, s1.tables.traces[|s.tables.traces|], p, false);
    StepFirst(c, s, Write(k), []);
    steps := [Write(k)] + [];
  }

  /** Every run of checks and records is the view of some run of calls. */
  lemma {:induction false} RunRealised(c: Config, s: State, p: Hmac, plan: seq<L.Step>) returns (steps: seq<Step>)
    requires 1 <= c.perMinute <= 10_000 && AboutToWrite(s, p)
    requires L.Allowed(RatePolicy(c), RateView(s, p), plan)
    requires forall step | step in plan :: step == L.Check || step == L.Record(1)
    ensures Allowed(c, s, steps)
    ensures RateView(Run(c, s, steps), p) == L.Run(RatePolicy(c), RateView(s, p), plan)
    decreases |plan|
  {
    hide AboutToWrite, RateView, L.Enabled, L.Apply, Enabled, Apply;
    steps := [];
    if plan != [] {
      var first: seq<Step>;
      assert plan[0] in plan;
      if plan[0] == L.Check {
        first := CheckRealised(c, s, p);
      } else {
        first := RecordRealised(c, s, p);
      }
      assert forall step | step in plan[1..] :: step in plan;
      var rest := RunRealised(c, Run(c, s, first), p, plan[1..]);
      RunAppend(c, s, first, rest);
      steps := first + rest;
    }
  }

  lemma {:induction false} RunAppend(c: Config, s: State, first: seq<Step>, second: seq<Step>)
    requires Allowed(c, s, first) && Allowed(c, Run(c, s, first), second)
    ensures Allowed(c, s, first + second) && Run(c, s, first + second) == Run(c, Run(c, s, first), second)
    decreases |first|
  {
    hide Apply, Enabled;
    if first == [] {
      assert first + second == second;
    } else {
      RunAppend(c, Apply(c, s, first[0]), first[1..], second);
      assert (first + second)[1..] == first[1..] + second;
    }
  }

  /** The bound on traces cannot be improved. */
  lemma TraceBoundIsReached(c: Config, now: Timestamp, p: Hmac) returns (steps: seq<Step>)
    requires 1 <= c.perMinute <= 10_000 && c.callsAtOnce >= 1
    ensures Allowed(c, Init(now), steps)
    ensures |TracesBetween(Run(c, Init(now), steps).tables.traces, p, now - 60 * SECOND, now)|
            == c.perMinute - 1 + c.callsAtOnce
  {
    hide Run, Allowed, L.Run, L.Allowed, TracesBetween;
    StartsIdle(c, now, p);
    var light, heavy := L.BoundIsReached(RatePolicy(c), now);
    var plan := light + heavy;
    steps := RunRealised(c, Init(now), p, plan);
    TracesCounted(Run(c, Init(now), steps).tables.traces, p, now - 60 * SECOND, now);
  }
}

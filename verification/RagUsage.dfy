/** What the traces say of the tokens that the provider took, and how far the daily budget can be overshot. */
module RagUsage {
  import opened Common
  import opened Counting
  import opened Sorting
  import opened Text
  import opened RankFusion
  import opened Rag
  import opened RagCalls
  import L = Limits

  // ---- Traced tokens are reported tokens ----

  /** The tokens that the provider reports for a call: none if it was not asked, or sent no draft. */
  function Reported(me: Call): nat {
    if me.asked.None? then 0
    else match me.services.generate(me.request.key.question, me.asked.value)
         case Drafted(_, tokens) => tokens
         case ProviderRefuses => 0
         case ProviderIsDown => 0
  }

  /** All tokens in the traces of a principal. */
  function TokensOf(traces: seq<Trace>, p: Hmac): nat {
    if traces == [] then 0
    else
      var last := traces[|traces| - 1];
      TokensOf(traces[..|traces| - 1], p) + if last.principal == p then last.tokens else 0
  }

  function TracedCalls(calls: map<CallId, Call>, p: Hmac): set<CallId> {
    set k | k in calls && calls[k].request.key.principal == p && calls[k].traced
  }

  function Bill(calls: map<CallId, Call>): CallId -> nat { k => if k in calls then Reported(calls[k]) else 0 }

  /** What a call is about to trace is what the provider reported for it. */
  predicate Faithful(me: Call) {
    && (me.phase.Recording? ==> me.phase.note.tokens == Reported(me) && !Untraced(me.phase.next))
    && (Untraced(me.phase) ==> !me.traced)
    && (me.phase.Admitted? || me.phase.Searching? || me.phase.Weighing? ==> me.asked.None?)
  }

  ghost predicate Balanced(s: State) {
    && (forall k | k in s.calls :: Faithful(s.calls[k]))
    && forall p :: TokensOf(s.tables.traces, p) == Sum(TracedCalls(s.calls, p), Bill(s.calls))
  }

  lemma WeighingIsFaithful(t: Tables, me: Call, now: Timestamp)
    requires me.phase.Weighing? && me.phase.evidence != [] && Faithful(me)
    ensures Faithful(AskedWith(t, me, now).(phase := AfterWeigh(t, me.request, me.services, me.phase.evidence, now)))
  {
    hide BudgetFailure, Verified;
  }

  lemma StepIsFaithful(c: Config, s: State, step: Step)
    requires Enabled(c, s, step) && !step.Tick? && (step.Begin? || Faithful(s.calls[step.call]))
    ensures Faithful(Apply(c, s, step).calls[step.call])
    ensures !step.Write? ==> Apply(c, s, step).calls[step.call].traced == (!step.Begin? && s.calls[step.call].traced)
    ensures !step.Begin? && !step.Weigh? ==>
              Reported(Apply(c, s, step).calls[step.call]) == Reported(s.calls[step.call])
  {
    hide Sparing, RateFailure, BudgetFailure, Lookup, Evidence, Hits, Strip, CallsOf, AfterWeigh;
    if step.Weigh? { WeighingIsFaithful(s.tables, s.calls[step.call], s.now); }
  }

  /** Changing a call that is not traced, or not changing its report, leaves every bill. */
  lemma BillStays(calls: map<CallId, Call>, k: CallId, me: Call, p: Hmac)
    requires k in calls ==> calls[k].request.key.principal == me.request.key.principal
    requires me.traced <==> k in calls && calls[k].traced
    requires me.traced ==> Reported(me) == Reported(calls[k])
    ensures Sum(TracedCalls(calls[k := me], p), Bill(calls[k := me])) == Sum(TracedCalls(calls, p), Bill(calls))
  {
    hide Reported;
    assert TracedCalls(calls[k := me], p) == TracedCalls(calls, p);
    SumAgree(TracedCalls(calls, p), Bill(calls[k := me]), Bill(calls));
  }

  /** Tracing a call adds its report to the bill of its principal. */
  lemma BillGrows(calls: map<CallId, Call>, k: CallId, me: Call, p: Hmac)
    requires k in calls && !calls[k].traced && me.traced && Reported(me) == Reported(calls[k])
    requires calls[k].request.key.principal == me.request.key.principal
    ensures Sum(TracedCalls(calls[k := me], p), Bill(calls[k := me]))
         == Sum(TracedCalls(calls, p), Bill(calls)) + if me.request.key.principal == p then Reported(me) else 0
  {
    hide Reported;
    var before, after := TracedCalls(calls, p), TracedCalls(calls[k := me], p);
    if me.request.key.principal == p {
      assert after == before + {k} && k !in before && after - {k} == before;
      SumSplit(after, k, Bill(calls[k := me]));
    } else {
      assert after == before;
    }
    SumAgree(before, Bill(calls[k := me]), Bill(calls));
  }

  lemma StepKeepsBalance(c: Config, s: State, step: Step)
    requires Balanced(s) && Enabled(c, s, step)
    ensures Balanced(Apply(c, s, step))
  {
    hide Faithful, Reported, Sparing, AfterBegin, AfterLookUp, AfterSearch, AfterWeigh, AskedWith, CallsOf, TracedCalls;
    var s' := Apply(c, s, step);
    if !step.Tick? {
      var me := s'.calls[step.call];
      StepIsFaithful(c, s, step);
      assert s'.calls == s.calls[step.call := me];
      forall p ensures TokensOf(s'.tables.traces, p) == Sum(TracedCalls(s'.calls, p), Bill(s'.calls)) {
        if step.Write? {
          WritingBalances(s, step.call, me, p);
          assert s'.tables.traces == s.tables.traces + [s'.tables.traces[|s.tables.traces|]];
          TokensGrow(s.tables.traces, s'.tables.traces[|s.tables.traces|], p);
        } else {
          UntracedUntilWritten(c, s, step);
          BillStays(s.calls, step.call, me, p);
        }
      }
    }
  }

  lemma WritingBalances(s: State, k: CallId, me: Call, p: Hmac)
    requires k in s.calls && s.calls[k].phase.Recording? && Faithful(s.calls[k])
    requires me == s.calls[k].(phase := s.calls[k].phase.next, traced := true)
    ensures Sum(TracedCalls(s.calls[k := me], p), Bill(s.calls[k := me]))
         == Sum(TracedCalls(s.calls, p), Bill(s.calls))
            + if me.request.key.principal == p then s.calls[k].phase.note.tokens else 0
  {
    hide Bill, TracedCalls;
    BillGrows(s.calls, k, me, p);
  }

  lemma UntracedUntilWritten(c: Config, s: State, step: Step)
    requires Enabled(c, s, step) && !step.Tick? && !step.Write? && (step.Begin? || Faithful(s.calls[step.call]))
    ensures var me := Apply(c, s, step).calls[step.call];
            && (me.traced <==> step.call in s.calls && s.calls[step.call].traced)
            && (me.traced ==> Reported(me) == Reported(s.calls[step.call]))
            && (step.call in s.calls ==> s.calls[step.call].request == me.request)
  {
    hide Reported, Sparing, AfterBegin, AfterLookUp, AfterSearch, AfterWeigh, CallsOf, BudgetFailure;
    StepIsFaithful(c, s, step);
  }

  lemma TokensGrow(traces: seq<Trace>, last: Trace, p: Hmac)
    ensures TokensOf(traces + [last], p) == TokensOf(traces, p) + if last.principal == p then last.tokens else 0
  {
    assert (traces + [last])[..|traces|] == traces;
  }

  lemma {:induction false} RunKeepsBalance(c: Config, s: State, steps: seq<Step>)
    requires Balanced(s) && Allowed(c, s, steps)
    ensures Balanced(Run(c, s, steps))
    decreases |steps|
  {
    hide Balanced, Enabled, Apply;
    if steps != [] {
      StepKeepsBalance(c, s, steps[0]);
      RunKeepsBalance(c, Apply(c, s, steps[0]), steps[1..]);
    }
  }

  /** The tokens traced for a principal are those that the provider reported for its traced calls. */
  lemma TracedTokensAreReported(c: Config, now: Timestamp, steps: seq<Step>, p: Hmac)
    requires Allowed(c, Init(now), steps)
    ensures var s := Run(c, Init(now), steps);
            TokensOf(s.tables.traces, p) == Sum(TracedCalls(s.calls, p), Bill(s.calls))
  {
    hide Run, Allowed;
    assert forall q :: TracedCalls(map[], q) == {};
    RunKeepsBalance(c, Init(now), steps);
  }

  // ---- The daily bound is reached ----

  const Somewhere: Passage := Passage(0, "", "", 0, "")

  /** A knowledge base with one chunk that the principal may read. */
  function OneChunk(p: Hmac): Base { Base(map[0 := Somewhere], {0}, {Reader(0, p)}) }

  /** Services that find that chunk and draft an answer for `w` tokens. */
  function Spending(w: nat): Services {
    Services(
      (b: Base, k: Key) => if Authorized(b, k.principal, 0) then [RankedRow(0, b.chunks[0], 1.0)] else [],
      (_, _) => [], _ => "x", (_, _) => Drafted(Draft("?", false, []), w), (_, _) => "")
  }

  lemma SpendingIsLawful(w: nat)
    ensures Lawful(Spending(w)) && forall m: nat | w <= m :: Sparing(Spending(w), m)
  {}

  function Ask(c: Config, p: Hmac): Request {
    Request(Key(p, Question("?", map[], Model("", ""), Model("", ""))), c.perMinute, c.budget, 0, false)
  }

  lemma SpendingFinds(w: nat, p: Hmac, k: Key)
    requires k.principal == p
    ensures Evidence(Spending(w), OneChunk(p), k) != []
  {
    hide IsTop, Sorted;
    var b := OneChunk(p);
    assert Authorized(b, p, 0);
    var row := RankedRow(0, b.chunks[0], 1.0);
    var lexical := LexicalCandidates(Hybrid, "x", [row], EVIDENCE_LIMIT);
    var semantic := SemanticCandidates(Hybrid, [], EVIDENCE_LIMIT);
    assert lexical == [row] && semantic == [];
    var hits := Hits(Spending(w), b, k);
    assert hits == Top(lexical, semantic, EVIDENCE_LIMIT);
    OneRowOneHit(row, hits);
    assert hits[0] in SufficientOnes(hits);
    SameMembers(Sorted(Stronger, SufficientOnes(hits)), SufficientOnes(hits), hits[0]);
  }

  lemma OneRowOneHit(row: RankedRow, hits: seq<Hit>)
    requires row.value > 0.0 && IsTop([row], [], EVIDENCE_LIMIT, hits)
    ensures |hits| == 1 && Sufficient(hits[0])
  {
    assert Union([row], []) == {row.id};
    assert Place(RowIds([row]), row.id) == 1;
  }

  /** All open calls of the principal have been charged `w` tokens and are about to write their traces. */
  predicate AboutToCharge(s: State, p: Hmac, w: nat) {
    forall k | k in s.calls && s.calls[k].request.key.principal == p && IsOpen(s.calls[k].phase) ::
      Charging(s.calls[k].phase, w)
  }

  predicate Charging(phase: Phase, w: nat) {
    phase.Recording? && phase.charged && phase.note.tokens == w && phase.next.Ended?
  }

  /** A call that is begun and let through comes to the weighing of its evidence, and is weighed. */
  lemma CallIsWeighed(c: Config, s: State, k: CallId, p: Hmac, w: nat) returns (steps: seq<Step>, evidence: seq<Hit>)
    requires c.perMinute == 0 && w <= c.heaviest && k !in s.calls && |CallsOf(s.calls, p, IsOpen)| < c.callsAtOnce
    ensures Allowed(c, s, steps) && evidence != []
    ensures var me := AskedWith(s.tables, Call(Ask(c, p), Spending(w), Weighing(evidence), None, false), s.now);
            Run(c, s, steps)
            == s.(calls := s.calls[k := me.(phase := AfterWeigh(s.tables, Ask(c, p), Spending(w), evidence, s.now))])
  {
    hide Evidence, Hits, AfterWeigh, AskedWith, CallsOf, Sparing, Authorized;
    var r, v, b := Ask(c, p), Spending(w), OneChunk(p);
    SpendingIsLawful(w);
    SpendingFinds(w, p, r.key);
    evidence := Evidence(v, b, r.key);
    var s1 := Apply(c, s, Begin(k, r, v));
    var s2 := Apply(c, s1, LookUp(k, b));
    var s3 := Apply(c, s2, Search(k, b));
    assert s3.calls[k] == Call(r, v, Weighing(evidence), None, false);
    var s4 := Apply(c, s3, Weigh(k));
    var me := AskedWith(s.tables, s3.calls[k], s.now);
    AskingKeepsRest(s.tables, s3.calls[k], s.now);
    assert s4.calls == s.calls[k := me.(phase := AfterWeigh(s.tables, r, v, evidence, s.now))];
    StepFirst(c, s3, Weigh(k), []);
    StepFirst(c, s2, Search(k, b), [Weigh(k)] + []);
    StepFirst(c, s1, LookUp(k, b), [Search(k, b)] + ([Weigh(k)] + []));
    steps := [Begin(k, r, v)] + ([LookUp(k, b)] + ([Search(k, b)] + ([Weigh(k)] + [])));
    StepFirst(c, s, Begin(k, r, v), [LookUp(k, b)] + ([Search(k, b)] + ([Weigh(k)] + [])));
  }

  lemma WeighedIsCharged(c: Config, t: Tables, p: Hmac, w: nat, evidence: seq<Hit>, now: Timestamp)
    requires 1 <= c.budget <= 1_000_000_000 && evidence != []
    ensures var phase := AfterWeigh(t, Ask(c, p), Spending(w), evidence, now);
            if L.Passes(LogOf(t.traces, p, true), L.Today, c.budget, now) then Charging(phase, w) else phase.Ended?
  {
    hide L.Passes, LogOf;
    assert FirstOccurrences([]) == [];
  }

  lemma OpenAreCharged(s: State, p: Hmac, w: nat)
    requires AboutToCharge(s, p, w)
    ensures CallsOf(s.calls, p, IsOpen) == CallsOf(s.calls, p, Charged)
  {}

  /** Such a call, up to the weighing, is a check of the budget. */
  lemma CheckRealised(c: Config, s: State, p: Hmac, w: nat) returns (steps: seq<Step>)
    requires c.perMinute == 0 && 1 <= c.budget <= 1_000_000_000 && w <= c.heaviest && AboutToCharge(s, p, w)
    requires L.Enabled(BudgetPolicy(c), BudgetView(s, p), L.Check)
    ensures Allowed(c, s, steps)
    ensures var s' := Run(c, s, steps);
            AboutToCharge(s', p, w) && BudgetView(s', p) == L.Apply(BudgetPolicy(c), BudgetView(s, p), L.Check)
  {
    hide LogOf, L.Passes, CallsOf, AfterWeigh, AskedWith, Run, Allowed;
    OpenAreCharged(s, p, w);
    var k := Unused(s.calls.Keys);
    var evidence;
    steps, evidence := CallIsWeighed(c, s, k, p, w);
    WeighedIsCharged(c, s.tables, p, w, evidence, s.now);
    AskingKeepsRest(s.tables, Call(Ask(c, p), Spending(w), Weighing(evidence), None, false), s.now);
    CallsMove(s.calls, k, Run(c, s, steps).calls[k], p, Charged);
  }

  lemma AskingKeepsRest(t: Tables, me: Call, now: Timestamp)
    requires me.phase.Weighing?
    ensures AskedWith(t, me, now) == me.(asked := AskedWith(t, me, now).asked)
  {}

  lemma RecordRealised(c: Config, s: State, p: Hmac, w: nat) returns (steps: seq<Step>)
    requires c.budget >= 0 && AboutToCharge(s, p, w) && L.Enabled(BudgetPolicy(c), BudgetView(s, p), L.Record(w))
    ensures Allowed(c, s, steps)
    ensures var s' := Run(c, s, steps);
            AboutToCharge(s', p, w) && BudgetView(s', p) == L.Apply(BudgetPolicy(c), BudgetView(s, p), L.Record(w))
  {
    hide LogOf, L.Passes;
    var k :| k in CallsOf(s.calls, p, Charged);
    var s1 := Apply(c, s, Write(k));
    CallsMove(s.calls, k, s1.calls[k], p, Charged);
    LogGrows(s.tables.traces, s1.tables.traces[|s.tables.traces|], p, true);
    StepFirst(c, s, Write(k), []);
    steps := [Write(k)] + [];
  }

  /** Every run of checks and records of one weight is the view of some run of calls. */
  lemma {:induction false} RunRealised(c: Config, s: State, p: Hmac, w: nat, plan: seq<L.Step>)
    returns (steps: seq<Step>)
    requires c.perMinute == 0 && 1 <= c.budget <= 1_000_000_000 && w <= c.heaviest && AboutToCharge(s, p, w)
    requires L.Allowed(BudgetPolicy(c), BudgetView(s, p), plan)
    requires forall step | step in plan :: step == L.Check || step == L.Record(w)
    ensures Allowed(c, s, steps)
    ensures var s' := Run(c, s, steps);
            AboutToCharge(s', p, w) && BudgetView(s', p) == L.Run(BudgetPolicy(c), BudgetView(s, p), plan)
    decreases |plan|
  {
    hide AboutToCharge, BudgetView, L.Enabled, L.Apply, Enabled, Apply;
    steps := [];
    if plan != [] {
      var first: seq<Step>;
      assert plan[0] in plan;
      if plan[0] == L.Check {
        first := CheckRealised(c, s, p, w);
      } else {
        first := RecordRealised(c, s, p, w);
      }
      assert forall step | step in plan[1..] :: step in plan;
      var rest := RunRealised(c, Run(c, s, first), p, w, plan[1..]);
      RagCalls.RunAppend(c, s, first, rest);
      steps := first + rest;
    }
  }

  /** With nothing in flight the weight of what is in flight can be chosen anew. */
  lemma NothingInFlight(c: Config, s: State, p: Hmac, w: nat, heavier: nat)
    requires AboutToCharge(s, p, w) && BudgetView(s, p).inFlight == 0
    ensures AboutToCharge(s, p, heavier)
  {
    OpenAreCharged(s, p, w);
    assert forall k | k in s.calls && s.calls[k].request.key.principal == p && IsOpen(s.calls[k].phase) ::
             k in CallsOf(s.calls, p, IsOpen);
  }

  /** The bound on tokens cannot be improved: with requests unlimited, some run takes that many in a day. */
  lemma TokenBoundIsReached(c: Config, now: Timestamp, p: Hmac) returns (steps: seq<Step>)
    requires c.perMinute == 0 && 1 <= c.budget <= 1_000_000_000 && c.callsAtOnce >= 1 && c.heaviest >= 1
    ensures Allowed(c, Init(now), steps)
    ensures TokensBetween(Run(c, Init(now), steps).tables.traces, p, now - now % (86_400 * SECOND), now)
         == c.budget - 1 + c.heaviest * c.callsAtOnce
  {
    hide Run, Allowed, L.Run, L.Allowed, AboutToCharge, BudgetView;
    StartsIdle(c, now, p);
    var light, heavy := L.BoundIsReached(BudgetPolicy(c), now);
    assert AboutToCharge(Init(now), p, 1) by { NothingIsOpen(now, p, 1); }
    var first := RunRealised(c, Init(now), p, 1, light);
    var s1 := Run(c, Init(now), first);
    NothingInFlight(c, s1, p, 1, c.heaviest);
    var second := RunRealised(c, s1, p, c.heaviest, heavy);
    RagCalls.RunAppend(c, Init(now), first, second);
    steps := first + second;
    ViewHasLog(Run(c, Init(now), steps), p);
    TokensCounted(Run(c, Init(now), steps).tables.traces, p, L.From(L.Today, now), now);
  }

  lemma NothingIsOpen(now: Timestamp, p: Hmac, w: nat)
    ensures AboutToCharge(Init(now), p, w)
  {}

  lemma ViewHasLog(s: State, p: Hmac)
    ensures BudgetView(s, p).log == LogOf(s.tables.traces, p, true)
  {}
}

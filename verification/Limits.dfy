/**
 * Limits that are checked first and recorded later. Between the check and the record the caller holds
 * nothing, so concurrent callers can overshoot; this module says by how much, and that it does happen.
 */
module Limits {
  import opened Common

  const MINUTE: int := 60 * SECOND
  const DAY: int := 86_400 * SECOND

  /** What a limit looks back on: the last minute, or the day so far. */
  datatype Window = LastMinute | Today

  function From(w: Window, now: Timestamp): Timestamp {
    match w
    case LastMinute => now - MINUTE
    case Today => now - now % DAY
  }

  /** One recorded request: when, and what it weighs against the limit. */
  datatype Entry = Entry(at: Timestamp, weight: nat)

  /** What the query sums: everything recorded from an instant on. */
  function Since(log: seq<Entry>, from: Timestamp): nat {
    if log == [] then 0
    else var e := log[|log| - 1]; Since(log[..|log| - 1], from) + if e.at >= from then e.weight else 0
  }

  /** What was recorded between two instants, both included. */
  function Between(log: seq<Entry>, from: Timestamp, to: Timestamp): nat {
    if log == [] then 0
    else var e := log[|log| - 1]; Between(log[..|log| - 1], from, to) + if from <= e.at <= to then e.weight else 0
  }

  /** The check that comes before the work. */
  predicate Passes(log: seq<Entry>, w: Window, limit: nat, now: Timestamp) { Since(log, From(w, now)) < limit }

  // ---- One principal's calls ----

  /** `limit`, at most `calls` at once, none recorded as heavier than `heaviest`. */
  datatype Policy = Policy(window: Window, limit: nat, calls: nat, heaviest: nat)
  {
    predicate Valid() { limit >= 1 && calls >= 1 && heaviest >= 1 }

    function Ceiling(): int { limit - 1 + heaviest * calls }
  }

  datatype State = State(now: Timestamp, log: seq<Entry>, inFlight: nat)

  /** `Free` records a request that weighs nothing, which some paths do without a check. */
  datatype Step = Tick(elapsed: nat) | Check | Record(weight: nat) | Free | Drop

  predicate Enabled(p: Policy, s: State, step: Step) {
    match step
    case Tick(_) => true
    case Check => s.inFlight < p.calls
    case Record(weight) => s.inFlight > 0 && weight <= p.heaviest
    case Free => true
    case Drop => s.inFlight > 0
  }

  function Apply(p: Policy, s: State, step: Step): State
    requires Enabled(p, s, step)
  {
    match step
    case Tick(elapsed) => s.(now := s.now + elapsed)
    case Check => if Passes(s.log, p.window, p.limit, s.now) then s.(inFlight := s.inFlight + 1) else s
    case Record(weight) => s.(log := s.log + [Entry(s.now, weight)], inFlight := s.inFlight - 1)
    case Free => s.(log := s.log + [Entry(s.now, 0)])
    case Drop => s.(inFlight := s.inFlight - 1)
  }

  predicate Allowed(p: Policy, s: State, steps: seq<Step>)
    decreases |steps|
  {
    steps == [] || (Enabled(p, s, steps[0]) && Allowed(p, Apply(p, s, steps[0]), steps[1..]))
  }

  function Run(p: Policy, s: State, steps: seq<Step>): State
    requires Allowed(p, s, steps)
    decreases |steps|
  {
    if steps == [] then s else Run(p, Apply(p, s, steps[0]), steps[1..])
  }

  function Idle(now: Timestamp): State { State(now, [], 0) }

  // ---- The bound ----

  predicate Past(log: seq<Entry>, now: Timestamp) { forall i | 0 <= i < |log| :: log[i].at <= now }

  /**
   * What is recorded in the current window, and what may still be, stays under the ceiling; so did every
   * earlier window.
   */
  ghost predicate Bounded(p: Policy, s: State) {
    && Past(s.log, s.now) && s.inFlight <= p.calls
    && Since(s.log, From(p.window, s.now)) + p.heaviest * s.inFlight <= p.Ceiling()
    && forall t: Timestamp :: Between(s.log, From(p.window, t), t) <= p.Ceiling()
  }

  /** A later start or a closed end can only leave things out. */
  lemma {:induction false} SinceFalls(log: seq<Entry>, from: Timestamp, later: Timestamp)
    requires from <= later
    ensures Since(log, later) <= Since(log, from)
  {
    if log != [] { SinceFalls(log[..|log| - 1], from, later); }
  }

  lemma {:induction false} BetweenWithin(log: seq<Entry>, from: Timestamp, to: Timestamp, since: Timestamp)
    requires since <= from
    ensures Between(log, from, to) <= Since(log, since)
  {
    if log != [] { BetweenWithin(log[..|log| - 1], from, to, since); }
  }

  lemma FromMoves(w: Window, now: Timestamp, later: Timestamp)
    requires now <= later
    ensures From(w, now) <= From(w, later) && From(w, now) <= now
  {
    if w.Today? {
      var q, r := now / DAY, later / DAY;
      assert now == q * DAY + now % DAY && later == r * DAY + later % DAY;
      assert q <= r;
    }
  }

  lemma RecordKeepsWindows(p: Policy, s: State, weight: nat)
    requires p.Valid() && Bounded(p, s)
    requires Since(s.log, From(p.window, s.now)) + weight <= p.Ceiling()
    ensures forall t: Timestamp :: Between(s.log + [Entry(s.now, weight)], From(p.window, t), t) <= p.Ceiling()
  {
    var log := s.log + [Entry(s.now, weight)];
    assert log[..|log| - 1] == s.log;
    forall t: Timestamp ensures Between(log, From(p.window, t), t) <= p.Ceiling() {
      if From(p.window, t) <= s.now <= t {
        FromMoves(p.window, s.now, t);
        BetweenWithin(s.log, From(p.window, t), t, From(p.window, s.now));
      }
    }
  }

  lemma TickKeepsBound(p: Policy, s: State, elapsed: nat)
    requires Bounded(p, s)
    ensures Bounded(p, s.(now := s.now + elapsed))
  {
    hide From, Since, Between;
    FromMoves(p.window, s.now, s.now + elapsed);
    SinceFalls(s.log, From(p.window, s.now), From(p.window, s.now + elapsed));
  }

  lemma CheckKeepsBound(p: Policy, s: State)
    requires p.Valid() && Bounded(p, s) && s.inFlight < p.calls && Passes(s.log, p.window, p.limit, s.now)
    ensures Bounded(p, s.(inFlight := s.inFlight + 1))
  {
    hide From, Since, Between;
    Monotone(p.heaviest, s.inFlight + 1, p.calls);
  }

  /** Recording what was in flight moves weight into the window, and no more than was reserved for it. */
  lemma RecordKeepsBound(p: Policy, s: State, weight: nat, left: nat)
    requires p.Valid() && Bounded(p, s) && left <= s.inFlight
    requires Since(s.log, From(p.window, s.now)) + weight + p.heaviest * left <= p.Ceiling()
    ensures Bounded(p, s.(log := s.log + [Entry(s.now, weight)], inFlight := left))
  {
    hide From, Since, Between;
    Monotone(p.heaviest, 0, left);
    RecordKeepsWindows(p, s, weight);
    SinceGrows(s.log, Entry(s.now, weight), From(p.window, s.now));
  }

  lemma StepKeepsBound(p: Policy, s: State, step: Step)
    requires p.Valid() && Bounded(p, s) && Enabled(p, s, step)
    ensures Bounded(p, Apply(p, s, step))
  {
    hide From, Since, Between, Bounded, Passes;
    match step
    case Tick(elapsed) => TickKeepsBound(p, s, elapsed);
    case Check => if Passes(s.log, p.window, p.limit, s.now) { CheckKeepsBound(p, s); }
    case Record(weight) =>
      ReservedWeight(p, s);
      RecordKeepsBound(p, s, weight, s.inFlight - 1);
    case Free =>
      ReservedWeight(p, s);
      RecordKeepsBound(p, s, 0, s.inFlight);
    case Drop => DropKeepsBound(p, s);
  }

  lemma ReservedWeight(p: Policy, s: State)
    requires Bounded(p, s)
    ensures Since(s.log, From(p.window, s.now)) + p.heaviest * s.inFlight <= p.Ceiling()
    ensures s.inFlight > 0 ==>
              Since(s.log, From(p.window, s.now)) + p.heaviest + p.heaviest * (s.inFlight - 1) <= p.Ceiling()
  {
    hide From, Since, Between;
  }

  lemma DropKeepsBound(p: Policy, s: State)
    requires Bounded(p, s) && s.inFlight > 0
    ensures Bounded(p, s.(inFlight := s.inFlight - 1))
  {
    hide From, Since, Between;
    ReservedWeight(p, s);
    Monotone(p.heaviest, s.inFlight - 1, s.inFlight);
  }

  lemma SinceGrows(log: seq<Entry>, e: Entry, from: Timestamp)
    ensures Since(log + [e], from) <= Since(log, from) + e.weight
  {
    SinceAppend(log, e, from);
  }

  lemma Monotone(m: nat, a: nat, b: nat)
    requires a <= b
    ensures m * a <= m * b
  {}

  lemma {:induction false} RunKeepsBound(p: Policy, s: State, steps: seq<Step>)
    requires p.Valid() && Bounded(p, s) && Allowed(p, s, steps)
    ensures Bounded(p, Run(p, s, steps))
    decreases |steps|
  {
    hide Bounded, Apply, Enabled;
    if steps != [] {
      StepKeepsBound(p, s, steps[0]);
      RunKeepsBound(p, Apply(p, s, steps[0]), steps[1..]);
    }
  }

  /**
   * Whatever the interleaving, no minute (or day) records more than the limit less one, plus all calls in
   * flight at their heaviest.
   */
  lemma WindowsAreBounded(p: Policy, now: Timestamp, steps: seq<Step>, t: Timestamp)
    requires p.Valid() && Allowed(p, Idle(now), steps)
    ensures Between(Run(p, Idle(now), steps).log, From(p.window, t), t) <= p.limit - 1 + p.heaviest * p.calls
  {
    hide Run;
    Monotone(p.heaviest, 1, p.calls);
    RunKeepsBound(p, Idle(now), steps);
  }

  /** For a caller who sends one request after the other, a request limit is exact. */
  lemma SequentialIsExact(p: Policy, now: Timestamp, steps: seq<Step>, t: Timestamp)
    requires p.Valid() && p.calls == 1 && p.heaviest == 1 && Allowed(p, Idle(now), steps)
    ensures Between(Run(p, Idle(now), steps).log, From(p.window, t), t) <= p.limit
  {
    WindowsAreBounded(p, now, steps, t);
  }

  lemma RunOne(p: Policy, s: State, step: Step)
    requires Enabled(p, s, step)
    ensures Allowed(p, s, [step]) && Run(p, s, [step]) == Apply(p, s, step)
  {
    assert [step][1..] == [];
    assert Allowed(p, Apply(p, s, step), []) && Run(p, Apply(p, s, step), []) == Apply(p, s, step);
  }

  // ---- The bound is reached ----

  function Repeat<T>(x: seq<T>, n: nat): seq<T> { if n == 0 then [] else x + Repeat(x, n - 1) }

  lemma {:induction false} OnlyThese<T>(x: seq<T>, n: nat)
    ensures forall y | y in Repeat(x, n) :: y in x
  {
    if n > 0 { OnlyThese(x, n - 1); }
  }

  lemma {:induction false} RunAppend(p: Policy, s: State, first: seq<Step>, second: seq<Step>)
    requires Allowed(p, s, first) && Allowed(p, Run(p, s, first), second)
    ensures Allowed(p, s, first + second) && Run(p, s, first + second) == Run(p, Run(p, s, first), second)
    decreases |first|
  {
    if first == [] {
      assert first + second == second;
    } else {
      RunAppend(p, Apply(p, s, first[0]), first[1..], second);
      assert (first + second)[1..] == first[1..] + second;
    }
  }

  lemma SinceAppend(log: seq<Entry>, e: Entry, from: Timestamp)
    ensures Since(log + [e], from) == Since(log, from) + if e.at >= from then e.weight else 0
  {
    assert (log + [e])[..|log|] == log;
  }

  lemma BetweenAppend(log: seq<Entry>, e: Entry, from: Timestamp, to: Timestamp)
    ensures Between(log + [e], from, to) == Between(log, from, to) + if from <= e.at <= to then e.weight else 0
  {
    assert (log + [e])[..|log|] == log;
  }

  /** A closed interval is what begins before its end less what begins after it. */
  lemma {:induction false} BetweenIsDifference(log: seq<Entry>, from: Timestamp, to: Timestamp)
    requires from <= to
    ensures Between(log, from, to) == Since(log, from) - Since(log, to + 1)
  {
    if log != [] { BetweenIsDifference(log[..|log| - 1], from, to); }
  }

  /** One caller after another: each is checked and recorded with weight one. */
  lemma {:induction false} OneByOne(p: Policy, s: State, n: nat)
    requires p.Valid() && s.inFlight == 0 && Since(s.log, From(p.window, s.now)) + n < p.limit
    ensures Allowed(p, s, Repeat([Check, Record(1)], n))
    ensures var s' := Run(p, s, Repeat([Check, Record(1)], n));
            s'.now == s.now && s'.inFlight == 0
            && Since(s'.log, From(p.window, s.now)) == Since(s.log, From(p.window, s.now)) + n
    decreases n
  {
    hide From;
    if n > 0 {
      var pair := [Check, Record(1)];
      var s2 := CheckAndRecord(p, s);
      OneByOne(p, s2, n - 1);
      RunAppend(p, s, pair, Repeat(pair, n - 1));
    }
  }

  lemma CheckAndRecord(p: Policy, s: State) returns (s': State)
    requires p.Valid() && s.inFlight == 0 && Passes(s.log, p.window, p.limit, s.now)
    ensures Allowed(p, s, [Check, Record(1)]) && s' == Run(p, s, [Check, Record(1)])
    ensures s'.now == s.now && s'.inFlight == 0
    ensures Since(s'.log, From(p.window, s.now)) == Since(s.log, From(p.window, s.now)) + 1
  {
    hide From, Passes;
    var pair := [Check, Record(1)];
    assert pair[1..] == [Record(1)] && [Record(1)][1..] == [];
    var s1 := Apply(p, s, Check);
    s' := Apply(p, s1, Record(1));
    assert Allowed(p, s', []) && Run(p, s', []) == s';
    assert Allowed(p, s1, [Record(1)]) && Run(p, s1, [Record(1)]) == s';
    FromMoves(p.window, s.now, s.now);
    SinceAppend(s.log, Entry(s.now, 1), From(p.window, s.now));
  }

  lemma {:induction false} AllCheck(p: Policy, s: State, n: nat)
    requires p.Valid() && s.inFlight + n <= p.calls && Passes(s.log, p.window, p.limit, s.now)
    ensures Allowed(p, s, Repeat([Check], n))
    ensures Run(p, s, Repeat([Check], n)) == s.(inFlight := s.inFlight + n)
    decreases n
  {
    hide Passes;
    if n > 0 {
      AllCheck(p, Apply(p, s, Check), n - 1);
      assert ([Check] + Repeat([Check], n - 1))[1..] == Repeat([Check], n - 1);
    }
  }

  lemma {:induction false} AllRecord(p: Policy, s: State, n: nat)
    requires p.Valid() && s.inFlight >= n
    ensures Allowed(p, s, Repeat([Record(p.heaviest)], n))
    ensures var s' := Run(p, s, Repeat([Record(p.heaviest)], n));
            && s'.now == s.now
            && Since(s'.log, From(p.window, s.now)) == Since(s.log, From(p.window, s.now)) + p.heaviest * n
    decreases n
  {
    if n > 0 {
      var heavy := Record(p.heaviest);
      var next := Apply(p, s, heavy);
      FromMoves(p.window, s.now, s.now);
      SinceAppend(s.log, Entry(s.now, p.heaviest), From(p.window, s.now));
      AllRecord(p, next, n - 1);
      assert ([heavy] + Repeat([heavy], n - 1))[1..] == Repeat([heavy], n - 1);
      assert p.heaviest * n == p.heaviest * (n - 1) + p.heaviest;
    }
  }

  lemma {:induction false} SinceIsBetween(log: seq<Entry>, from: Timestamp, now: Timestamp)
    requires Past(log, now)
    ensures Since(log, from) == Between(log, from, now)
  {
    if log != [] { SinceIsBetween(log[..|log| - 1], from, now); }
  }

  /**
   * The bound cannot be improved. Light callers come one after another up to the limit less one; then heavy
   * ones are all checked before any of them is recorded.
   */
  lemma BoundIsReached(p: Policy, now: Timestamp) returns (light: seq<Step>, heavy: seq<Step>)
    requires p.Valid()
    ensures Allowed(p, Idle(now), light) && Run(p, Idle(now), light).inFlight == 0
    ensures Allowed(p, Run(p, Idle(now), light), heavy) && Allowed(p, Idle(now), light + heavy)
    ensures Run(p, Idle(now), light + heavy) == Run(p, Run(p, Idle(now), light), heavy)
    ensures Run(p, Idle(now), light + heavy).now == now
    ensures Between(Run(p, Idle(now), light + heavy).log, From(p.window, now), now)
         == p.limit - 1 + p.heaviest * p.calls
    ensures forall step | step in light :: step in {Check, Record(1)}
    ensures forall step | step in heavy :: step in {Check, Record(p.heaviest)}
  {
    hide Run, Allowed, Bounded, From;
    var s0 := Idle(now);
    light := Repeat([Check, Record(1)], p.limit - 1);
    var b, c := Repeat([Check], p.calls), Repeat([Record(p.heaviest)], p.calls);
    heavy := b + c;
    OneByOne(p, s0, p.limit - 1);
    var s1 := Run(p, s0, light);
    AllCheck(p, s1, p.calls);
    var s2 := Run(p, s1, b);
    AllRecord(p, s2, p.calls);
    RunAppend(p, s1, b, c);
    RunAppend(p, s0, light, heavy);
    OnlyThese([Check, Record(1)], p.limit - 1);
    OnlyThese([Check], p.calls);
    OnlyThese([Record(p.heaviest)], p.calls);
    EverythingPast(p, s0, light + heavy);
    SinceIsBetween(Run(p, s0, light + heavy).log, From(p.window, now), now);
  }

  lemma EverythingPast(p: Policy, s: State, steps: seq<Step>)
    requires p.Valid() && Allowed(p, s, steps) && s == Idle(s.now)
    ensures Past(Run(p, s, steps).log, Run(p, s, steps).now)
  {
    hide Run;
    Monotone(p.heaviest, 1, p.calls);
    RunKeepsBound(p, s, steps);
  }
}

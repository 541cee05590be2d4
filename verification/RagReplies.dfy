/** One request in plain terms: what it finds, when it is turned away, what it answers and what it records. */
module RagReplies {
  import opened Common
  import opened Counting
  import opened Text
  import opened RankFusion
  import opened Rag
  import opened RagSafety
  import L = Limits

  // ---- What is found ----

  /** A chunk that a search found and that is not among the hits stands behind all eight of them. */
  predicate RightlyLeftOut(hits: seq<Hit>, id: Uuid, p: Option<nat>, q: Option<nat>) {
    && |hits| == 8
    && forall i | 0 <= i < |hits| ::
         hits[i].score > Points(p, q) || (hits[i].score == Points(p, q) && hits[i].id < id)
  }

  /** The hits behind an answer: at most eight, of both searches, and none left out for a worse one. */
  lemma QuestionHits(v: Services, b: Base, k: Key)
    requires Lawful(v)
    ensures |Hits(v, b, k)| <= 8
    ensures forall h | h in Hits(v, b, k) ::
              && h.score == Points(h.entry.lexicalRank, h.entry.semanticRank)
              && Placed(v.lexical(b, k), v.terms(k.question) != "", h.id, h.entry.lexicalRank)
              && Placed(v.semantic(b, k), true, h.id, h.entry.semanticRank)
  {
    hide IsTop, Placed, Points;
    HitsDecided(Hybrid, v.terms(k.question), 8, v.lexical(b, k), v.semantic(b, k), Hits(v, b, k));
  }

  lemma QuestionLeavesOut(v: Services, b: Base, k: Key, id: Uuid, p: Option<nat>, q: Option<nat>)
    requires Lawful(v) && (p.Some? || q.Some?)
    requires Placed(v.lexical(b, k), v.terms(k.question) != "", id, p) && Placed(v.semantic(b, k), true, id, q)
    requires forall h | h in Hits(v, b, k) :: h.id != id
    ensures RightlyLeftOut(Hits(v, b, k), id, p, q)
  {
    hide IsTop, Placed, Points;
    var hits := Hits(v, b, k);
    assert forall i | 0 <= i < |hits| :: hits[i] in hits;
    LeftOutDecided(Hybrid, v.terms(k.question), 8, v.lexical(b, k), v.semantic(b, k), hits, id, p, q);
  }

  function Value(x: Option<real>, missing: real): real { if x.Some? then x.value else missing }

  /** A similarity of zero counts, like a missing one, as the least there is. */
  function Nearness(h: Hit): real {
    var similarity := Value(h.entry.semanticSimilarity, 0.0);
    if similarity == 0.0 then -1.0 else similarity
  }

  /** By lexical score, then similarity, then points, each falling, then by identifier. */
  predicate Leads(x: Hit, y: Hit) {
    var a, b := Value(x.entry.lexicalScore, 0.0), Value(y.entry.lexicalScore, 0.0);
    || a > b
    || (a == b && Nearness(x) > Nearness(y))
    || (a == b && Nearness(x) == Nearness(y) && x.score > y.score)
    || (a == b && Nearness(x) == Nearness(y) && x.score == y.score && x.id < y.id)
  }

  /** Evidence is every hit with a lexical score above zero or a similarity of at least 0.35, in that order. */
  lemma EvidenceDecided(v: Services, b: Base, k: Key)
    requires Lawful(v)
    ensures forall h :: h in Evidence(v, b, k) <==>
              && h in Hits(v, b, k)
              && (Value(h.entry.lexicalScore, 0.0) > 0.0 || Value(h.entry.semanticSimilarity, 0.0) >= 0.35)
    ensures forall i, j | 0 <= i < j < |Evidence(v, b, k)| :: Leads(Evidence(v, b, k)[i], Evidence(v, b, k)[j])
  {
    hide Lawful, Evidence, Hits, Sufficient, Leads, Stronger;
    EvidenceIsAuthorized(v, b, k);
    forall h: Hit ensures Sufficient(h) <==>
              Value(h.entry.lexicalScore, 0.0) > 0.0 || Value(h.entry.semanticSimilarity, 0.0) >= 0.35
    {
      SufficientDecided(h);
    }
    forall i, j | 0 <= i < j < |Evidence(v, b, k)| ensures Leads(Evidence(v, b, k)[i], Evidence(v, b, k)[j]) {
      StrongerLeads(Evidence(v, b, k)[i], Evidence(v, b, k)[j]);
    }
  }

  lemma SufficientDecided(h: Hit)
    ensures Sufficient(h) <==>
            Value(h.entry.lexicalScore, 0.0) > 0.0 || Value(h.entry.semanticSimilarity, 0.0) >= 0.35
  {}

  lemma StrongerLeads(x: Hit, y: Hit)
    ensures Stronger(x, y) <==> Leads(x, y)
  {}

  // ---- What is answered ----

  predicate MentionedBefore(ids: seq<Uuid>, a: Uuid, b: Uuid) {
    exists m :: 0 <= m < |ids| && ids[m] == a && b !in ids[..m]
  }

  /** Each of them once, in the order of first mention. */
  predicate InOrder(r: seq<Uuid>, ids: seq<Uuid>) {
    forall i, j | 0 <= i < j < |r| :: r[i] != r[j] && MentionedBefore(ids, r[i], r[j])
  }

  lemma LaterMention(r: seq<Uuid>, init: seq<Uuid>, last: Uuid)
    requires InOrder(r, init) && forall id :: id in r <==> id in init
    ensures InOrder(if last in r then r else r + [last], init + [last])
  {
    var ids, all := init + [last], if last in r then r else r + [last];
    forall i, j | 0 <= i < j < |all| ensures MentionedBefore(ids, all[i], all[j]) && all[i] != all[j] {
      assert all[i] == r[i] && r[i] in init;
      if j < |r| {
        assert r[i] != r[j] && MentionedBefore(init, r[i], r[j]);
        var m :| 0 <= m < |init| && init[m] == r[i] && r[j] !in init[..m];
        assert ids[m] == all[i] && ids[..m] == init[..m];
      } else {
        var m :| 0 <= m < |init| && init[m] == r[i];
        assert ids[m] == all[i] && all[j] !in init && forall x | x in ids[..m] :: x in init;
      }
    }
  }

  lemma {:induction false} FirstMentions(ids: seq<Uuid>)
    ensures InOrder(FirstOccurrences(ids), ids)
  {
    hide InOrder;
    if ids == [] {
      assert InOrder([], []) by { NothingInOrder(); }
    } else {
      var init, last := ids[..|ids| - 1], ids[|ids| - 1];
      FirstMentions(init);
      LaterMention(FirstOccurrences(init), init, last);
      assert ids == init + [last];
    }
  }

  lemma NothingInOrder()
    ensures InOrder([], [])
  {}

  predicate Mentions(evidence: seq<Hit>, id: Uuid) { exists h :: h in evidence && h.id == id }

  /** The citation says of its chunk what some evidence says. */
  predicate Repeats(c: Citation, evidence: seq<Hit>) {
    exists h :: h in evidence && var p := h.entry.passage; c == Citation(h.id, p.document, p.source, p.title, p.index)
  }

  /** The answer cites what the draft cites, in order of first mention, as the evidence shows it. */
  predicate Cites(citations: seq<Citation>, cited: seq<Uuid>, evidence: seq<Hit>) {
    && (forall i | 0 <= i < |citations| :: citations[i].chunk in cited)
    && (forall id | id in cited :: exists i :: 0 <= i < |citations| && citations[i].chunk == id)
    && InOrder(ChunksCited(citations), cited)
    && (forall i | 0 <= i < |citations| :: Repeats(citations[i], evidence))
  }

  /** What becomes of a draft. */
  predicate DraftAnswered(a: Answer, draft: Draft, evidence: seq<Hit>) {
    if draft.supported && draft.cited != [] && forall id | id in draft.cited :: Mentions(evidence, id) then
      a.status == Answered && a.text == draft.answer && Cites(a.citations, draft.cited, evidence)
    else IsRefusal(a)
  }

  predicate IsRefusal(a: Answer) {
    && a.status == Refused && a.citations == []
    && a.text == "No encontre evidencia autorizada suficiente para responder esa pregunta."
  }

  lemma IdsMentioned(evidence: seq<Hit>, id: Uuid)
    ensures id in HitIds(evidence) <==> Mentions(evidence, id)
  {
    if id in HitIds(evidence) {
      var i :| 0 <= i < |evidence| && HitIds(evidence)[i] == id;
      assert evidence[i] in evidence;
    }
    if Mentions(evidence, id) {
      var h :| h in evidence && h.id == id;
      var i :| 0 <= i < |evidence| && evidence[i] == h;
      assert HitIds(evidence)[i] == id;
    }
  }

  lemma DraftDecided(draft: Draft, evidence: seq<Hit>)
    ensures DraftAnswered(Verified(draft, evidence, Answered), draft, evidence)
  {
    hide Mentions, FirstOccurrences, Place, Cites;
    forall id ensures id in HitIds(evidence) <==> Mentions(evidence, id) { IdsMentioned(evidence, id); }
    DraftIsVerified(draft, evidence, Answered);
    var a := Verified(draft, evidence, Answered);
    if a.status == Answered {
      FirstMentions(draft.cited);
      forall i | 0 <= i < |a.citations| ensures Backed(a.citations[i], evidence) {
        assert ChunksCited(a.citations)[i] == FirstOccurrences(draft.cited)[i];
      }
      CitationsDecided(a.citations, draft.cited, evidence);
    }
  }

  predicate Backed(c: Citation, evidence: seq<Hit>) { exists h :: h in evidence && c == CitationOf(h) }

  lemma CitationsDecided(citations: seq<Citation>, cited: seq<Uuid>, evidence: seq<Hit>)
    requires ChunksCited(citations) == FirstOccurrences(cited) && InOrder(ChunksCited(citations), cited)
    requires forall i | 0 <= i < |citations| :: Backed(citations[i], evidence)
    ensures Cites(citations, cited, evidence)
  {
    hide FirstOccurrences, InOrder;
    var ids := ChunksCited(citations);
    forall i | 0 <= i < |citations|
      ensures citations[i].chunk in cited
      ensures Repeats(citations[i], evidence)
    {
      assert citations[i].chunk == ids[i] && ids[i] in ids;
      assert Backed(citations[i], evidence);
      var h :| h in evidence && citations[i] == CitationOf(h);
    }
    forall id | id in cited ensures exists i :: 0 <= i < |citations| && citations[i].chunk == id {
      assert id in ids;
      var i :| 0 <= i < |ids| && ids[i] == id;
      assert citations[i].chunk == id;
    }
  }

  /** The whole decision, from the question to the uncached reply. */
  ghost predicate Answers(v: Services, b: Base, k: Key, allowDegraded: bool, reply: Reply) {
    var evidence := Evidence(v, b, k);
    if Strip(k.question.text) == [] then reply == Failed(InvalidQuery)
    else if evidence == [] then reply.Given? && IsRefusal(reply.answer)
    else match v.generate(k.question, evidence)
         case ProviderRefuses => reply.Given? && IsRefusal(reply.answer)
         case Drafted(draft, _) => reply.Given? && DraftAnswered(reply.answer, draft, evidence)
         case ProviderIsDown =>
           var text, first := v.extract(k.question, evidence), evidence[0];
           if !allowDegraded then reply == Failed(ProviderDown)
           else if text == "" then reply == Failed(InvalidDraft)
           else reply == Given(Answer(Degraded, if |text| <= 3000 then text else text[..3000],
                                      [Citation(first.id, first.entry.passage.document, first.entry.passage.source,
                                                first.entry.passage.title, first.entry.passage.index)]))
  }

  lemma AnswerDecided(v: Services, b: Base, k: Key, allowDegraded: bool)
    requires Lawful(v)
    ensures Answers(v, b, k, allowDegraded, Fresh(v, b, k, allowDegraded))
  {
    hide Lawful, Evidence, Verified, Strip, DraftAnswered;
    var evidence := Evidence(v, b, k);
    EvidenceIsAuthorized(v, b, k);
    if evidence != [] {
      match v.generate(k.question, evidence) {
        case ProviderRefuses =>
        case Drafted(draft, _) => DraftDecided(draft, evidence);
        case ProviderIsDown =>
          var text := v.extract(k.question, evidence);
          CitesFirst(if |text| <= 3000 then text else text[..3000], evidence);
      }
    }
  }

  // ---- When a request is turned away ----

  /** The traces of a principal since an instant. */
  function TracesSince(traces: seq<Trace>, p: Hmac, from: Timestamp): set<nat> {
    set i: nat | i < |traces| && traces[i].principal == p && traces[i].at >= from
  }

  /** The tokens in them. */
  function TokensSince(traces: seq<Trace>, p: Hmac, from: Timestamp): nat {
    if traces == [] then 0
    else
      var last := traces[|traces| - 1];
      TokensSince(traces[..|traces| - 1], p, from) + if last.principal == p && last.at >= from then last.tokens else 0
  }

  lemma OneMoreSince(init: seq<Trace>, last: Trace, p: Hmac, from: Timestamp)
    ensures |TracesSince(init + [last], p, from)|
         == |TracesSince(init, p, from)| + if last.principal == p && last.at >= from then 1 else 0
    ensures TokensSince(init + [last], p, from)
         == TokensSince(init, p, from) + if last.principal == p && last.at >= from then last.tokens else 0
  {
    var before, n := TracesSince(init, p, from), |init|;
    assert n !in before && (init + [last])[..n] == init;
    assert TracesSince(init + [last], p, from)
           == before + if last.principal == p && last.at >= from then {n} else {};
  }

  lemma {:induction false} TracesSinceCounted(traces: seq<Trace>, p: Hmac, from: Timestamp)
    ensures |TracesSince(traces, p, from)| == L.Since(LogOf(traces, p, false), from)
    ensures TokensSince(traces, p, from) == L.Since(LogOf(traces, p, true), from)
  {
    if traces == [] {
      NothingSince(p, from);
    } else {
      hide L.Since, TracesSince, TokensSince;
      var init, last := traces[..|traces| - 1], traces[|traces| - 1];
      assert traces == init + [last];
      TracesSinceCounted(init, p, from);
      OneMoreSince(init, last, p, from);
      L.SinceAppend(LogOf(init, p, false), L.Entry(last.at, 1), from);
      L.SinceAppend(LogOf(init, p, true), L.Entry(last.at, last.tokens), from);
      assert LogOf(init, p, false) + [] == LogOf(init, p, false);
      assert LogOf(init, p, true) + [] == LogOf(init, p, true);
    }
  }

  lemma NothingSince(p: Hmac, from: Timestamp)
    ensures TracesSince([], p, from) == {}
  {}

  /** Zero switches a limit off; otherwise a minute holds so many requests, and a day so many tokens. */
  lemma LimitsDecided(traces: seq<Trace>, p: Hmac, limit: int, now: Timestamp)
    ensures RateFailure(traces, p, limit, now)
         == if limit == 0 then None
            else if limit < 1 || limit > 10_000 then Some(InvalidRequestLimit)
            else if |TracesSince(traces, p, now - 60 * SECOND)| >= limit then Some(RequestLimit) else None
    ensures BudgetFailure(traces, p, limit, now)
         == if limit == 0 then None
            else if limit < 1 || limit > 1_000_000_000 then Some(InvalidBudget)
            else if TokensSince(traces, p, now - now % (86_400 * SECOND)) >= limit then Some(DailyBudget) else None
  {
    TracesSinceCounted(traces, p, now - 60 * SECOND);
    TracesSinceCounted(traces, p, now - now % (86_400 * SECOND));
  }

  // ---- What the cache serves ----

  /** A row is served while it is fresh, of a known status, and all it cites is readable. */
  lemma LookupDecided(cache: Cache, b: Base, k: Key, now: Timestamp)
    ensures Lookup(cache, b, k, now).Some? <==>
              && k in cache && now < cache[k].expiresAt
              && cache[k].payload.status in {Answered, Refused, Degraded}
              && Distinct(ChunksCited(cache[k].payload.citations))
              && AllAuthorized(b, k.principal, cache[k].payload.citations)
    ensures Lookup(cache, b, k, now).Some? ==>
              var p, a := cache[k].payload, Lookup(cache, b, k, now).value;
              && a.status == p.status && a.citations == p.citations
              && a.text == if p.text.Some? then p.text.value
                           else "No encontre evidencia autorizada suficiente para responder esa pregunta."
  {
    hide Authorized, AuthorizedRows;
    if k in cache { CountMeansAll(b, k.principal, cache[k].payload.citations); }
  }

  /** What was remembered at `t` is served under its key until `t + ttl`, to those who may read what it cites. */
  lemma RememberedIsServed(cache: Cache, b: Base, k: Key, answer: Answer, ttl: int, t: Timestamp, now: Timestamp)
    requires Proper(answer)
    ensures Lookup(Remembered(cache, k, answer, ttl, t), b, k, now)
         == if now < t + ttl * SECOND && AllAuthorized(b, k.principal, answer.citations) then Some(answer) else None
    ensures forall other | other != k ::
              Lookup(Remembered(cache, k, answer, ttl, t), b, other, now) == Lookup(cache, b, other, now)
  {
    hide Authorized, AuthorizedRows;
    ServedIffAuthorized(Remembered(cache, k, answer, ttl, t), b, k, now);
  }

  // ---- What a request does ----

  /** One more trace, and nothing else. */
  predicate Traced(t: Tables, t': Tables, r: Request, status: Status, tokens: nat, at: Timestamp, retrieved: nat,
                   citations: nat, cached: bool)
  {
    var trace := Trace(r.key.principal, r.key.question.text, status, tokens, at, retrieved, citations, cached);
    t'.traces == t.traces + [trace]
  }

  /** An answer that was worked out is traced; with a time to live in range it is remembered too. */
  predicate AnswerKept(t: Tables, t': Tables, reply: Reply, r: Request, answer: Answer, tokens: nat, retrieved: nat,
                       clock: Clock)
  {
    && Traced(t, t', r, answer.status, tokens, clock.recorded, retrieved, |answer.citations|, false)
    && if r.cacheTtlSeconds == 0 then reply == Given(answer) && t'.cache == t.cache
       else if r.cacheTtlSeconds < 1 || r.cacheTtlSeconds > 86_400 then
         reply == Failed(InvalidTtl) && t'.cache == t.cache
       else
         && reply == Given(answer) && r.key in t'.cache && t'.cache - {r.key} == t.cache - {r.key}
         && t'.cache[r.key].payload == Payload(answer.status, Some(answer.text), answer.citations)
         && t'.cache[r.key].expiresAt == clock.stored + r.cacheTtlSeconds * SECOND
  }

  /** The tokens that the provider says it took. */
  function Usage(generation: Generation): nat { if generation.Drafted? then generation.tokens else 0 }

  /** A request with evidence: the budget, then the provider, then the record of what it took. */
  predicate EvidenceWeighed(t: Tables, r: Request, v: Services, evidence: seq<Hit>, drawn: Reply, clock: Clock,
                            t': Tables, reply: Reply)
  {
    var budget, day := r.dailyTokenBudget, clock.budgeted - clock.budgeted % (86_400 * SECOND);
    if budget != 0 && (budget < 1 || budget > 1_000_000_000) then t' == t && reply == Failed(InvalidBudget)
    else if budget != 0 && TokensSince(t.traces, r.key.principal, day) >= budget then
      t' == t && reply == Failed(DailyBudget)
    else if drawn == Failed(ProviderDown) then
      && reply == drawn && t'.cache == t.cache
      && Traced(t, t', r, ProviderUnavailable, 0, clock.recorded, |evidence|, 0, false)
    else if drawn.Failed? then t' == t && reply == drawn
    else AnswerKept(t, t', reply, r, drawn.answer, Usage(v.generate(r.key.question, evidence)), |evidence|, clock)
  }

  lemma WeighedDecided(t: Tables, r: Request, v: Services, b: Base, clock: Clock)
    requires Strip(r.key.question.text) != [] && Evidence(v, b, r.key) != []
    ensures var (t', reply) := Weighed(t, r, v, Evidence(v, b, r.key), clock);
            EvidenceWeighed(t, r, v, Evidence(v, b, r.key), Fresh(v, b, r.key, r.allowDegraded), clock, t', reply)
  {
    hide Evidence, Strip, Verified, BudgetFailure, TokensSince;
    LimitsDecided(t.traces, r.key.principal, r.dailyTokenBudget, clock.budgeted);
  }

  /**
   * What `answer_question` does, in its order: request limit, cache, retrieval, budget, provider. With evidence
   * and a reply the trace carries the provider's usage, whether or not the draft was refused.
   */
  lemma RequestDecided(t: Tables, r: Request, v: Services, atLookup: Base, atRetrieval: Base, clock: Clock)
    ensures var (t', reply) := Respond(t, r, v, atLookup, atRetrieval, clock);
            var evidence := Evidence(v, atRetrieval, r.key);
            var served := if r.cacheTtlSeconds != 0 then Lookup(t.cache, atLookup, r.key, clock.lookedUp) else None;
            var limit := r.requestsPerMinute;
            if limit != 0 && (limit < 1 || limit > 10_000) then t' == t && reply == Failed(InvalidRequestLimit)
            else if limit != 0 && |TracesSince(t.traces, r.key.principal, clock.checked - 60 * SECOND)| >= limit then
              t' == t && reply == Failed(RequestLimit)
            else if served.Some? then
              && reply == Given(served.value) && t'.cache == t.cache
              && Traced(t, t', r, served.value.status, 0, clock.recorded, 0, |served.value.citations|, true)
            else if Strip(r.key.question.text) == [] then t' == t && reply == Failed(InvalidQuery)
            else if evidence == [] then
              AnswerKept(t, t', reply, r, Refusal, 0, |Hits(v, atRetrieval, r.key)|, clock)
            else EvidenceWeighed(t, r, v, evidence, Fresh(v, atRetrieval, r.key, r.allowDegraded), clock, t', reply)
  {
    hide Evidence, Hits, Strip, Lookup, Fresh, Weighed, EvidenceWeighed, RateFailure;
    LimitsDecided(t.traces, r.key.principal, r.requestsPerMinute, clock.checked);
    if Strip(r.key.question.text) != [] && Evidence(v, atRetrieval, r.key) != [] {
      WeighedDecided(t, r, v, atRetrieval, clock);
    }
  }

  /** If the provider drafted and the request got a reply, the one new trace records what the provider took. */
  lemma TokensAreRecorded(t: Tables, r: Request, v: Services, atLookup: Base, atRetrieval: Base, clock: Clock)
    ensures var (t', reply) := Respond(t, r, v, atLookup, atRetrieval, clock);
            var evidence := Evidence(v, atRetrieval, r.key);
            var cached := r.cacheTtlSeconds != 0 && Lookup(t.cache, atLookup, r.key, clock.lookedUp).Some?;
            reply.Given? ==>
              && |t'.traces| == |t.traces| + 1 && t'.traces[..|t.traces|] == t.traces
              && var trace := t'.traces[|t.traces|];
                 && trace.principal == r.key.principal && trace.question == r.key.question.text
                 && trace.status == reply.answer.status && trace.citations == |reply.answer.citations|
                 && trace.cached == cached
                 && trace.tokens == if cached || evidence == [] then 0
                                    else match v.generate(r.key.question, evidence)
                                         case Drafted(_, n) => n
                                         case ProviderRefuses => 0
                                         case ProviderIsDown => 0
  {
    hide Evidence, Hits, Strip, Lookup, Fresh, Respond;
    RequestDecided(t, r, v, atLookup, atRetrieval, clock);
  }
}

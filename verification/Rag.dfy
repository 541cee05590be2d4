/** Answering from authorised evidence: citations, safe refusal, cache. */
module Rag {
  import opened Common
  import opened Counting
  import opened Sorting
  import opened Text
  import opened RankFusion
  import L = Limits

  const SAFE_REFUSAL: string := "No encontre evidencia autorizada suficiente para responder esa pregunta."
  const MIN_SEMANTIC_SIMILARITY: real := 0.35
  const EVIDENCE_LIMIT: nat := 8
  const MAX_LOCAL_ANSWER: nat := 3000

  // ---- Knowledge as seen by one query ----

  datatype Reader = Reader(document: nat, principal: Hmac)

  datatype Base = Base(chunks: map<Uuid, Passage>, active: set<nat>, readers: set<Reader>)

  predicate Authorized(b: Base, principal: Hmac, id: Uuid) {
    id in b.chunks && b.chunks[id].document in b.active && Reader(b.chunks[id].document, principal) in b.readers
  }

  // ---- Requests and replies ----

  datatype Model = Model(name: string, model: string)

  /** What the cache key is a digest of; the digest separates, so the key is named by its content. */
  datatype Question = Question(text: string, filter: map<string, string>, embedding: Model, answering: Model)

  datatype Key = Key(principal: Hmac, question: Question)

  datatype Request = Request(key: Key, requestsPerMinute: int, dailyTokenBudget: int, cacheTtlSeconds: int,
                             allowDegraded: bool)

  datatype Citation = Citation(chunk: Uuid, document: nat, source: string, title: string, index: nat)

  /** `Other` stands for any other word found in a stored payload. */
  datatype Status = Answered | Refused | Degraded | ProviderUnavailable | Other(word: string)
  {
    predicate Servable() { Answered? || Refused? || Degraded? }
  }

  datatype Answer = Answer(status: Status, text: string, citations: seq<Citation>)

  datatype Failure =
    | InvalidRequestLimit | RequestLimit | InvalidQuery | InvalidBudget | DailyBudget
    | ProviderDown | InvalidDraft | InvalidTtl

  datatype Reply = Given(answer: Answer) | Failed(failure: Failure)

  // ---- Services whose inside is not modelled ----

  datatype Draft = Draft(answer: string, supported: bool, cited: seq<Uuid>)

  datatype Generation = Drafted(draft: Draft, tokens: nat) | ProviderRefuses | ProviderIsDown

  /** Both searches, the query terms, the provider, and the sentence picked by the local generator. */
  datatype Services = Services(
    lexical: (Base, Key) -> seq<RankedRow>, semantic: (Base, Key) -> seq<RankedRow>, terms: Question -> string,
    generate: (Question, seq<Hit>) -> Generation, extract: (Question, seq<Hit>) -> string)

  /** A row shows a chunk as it is stored, to a principal who may read it. */
  predicate Shown(b: Base, principal: Hmac, id: Uuid, passage: Passage) {
    Authorized(b, principal, id) && passage == b.chunks[id]
  }

  predicate RowsShown(b: Base, principal: Hmac, rows: seq<RankedRow>) {
    forall i | 0 <= i < |rows| :: Shown(b, principal, rows[i].id, rows[i].passage)
  }

  /** Searches return chunks at most once, as stored, and only those the principal may read. */
  ghost predicate Lawful(v: Services) {
    forall b: Base, k: Key ::
      && Rankings(v.lexical(b, k), v.semantic(b, k))
      && RowsShown(b, k.principal, v.lexical(b, k))
      && RowsShown(b, k.principal, v.semantic(b, k))
  }

  // ---- Evidence ----

  ghost function Hits(v: Services, b: Base, k: Key): seq<Hit> {
    Top(LexicalCandidates(Hybrid, v.terms(k.question), v.lexical(b, k), EVIDENCE_LIMIT),
        SemanticCandidates(Hybrid, v.semantic(b, k), EVIDENCE_LIMIT), EVIDENCE_LIMIT)
  }

  predicate Sufficient(h: Hit) {
    || (h.entry.lexicalScore.Some? && h.entry.lexicalScore.value > 0.0)
    || (h.entry.semanticSimilarity.Some? && h.entry.semanticSimilarity.value >= MIN_SEMANTIC_SIMILARITY)
  }

  function SufficientOnes(hits: seq<Hit>): (r: seq<Hit>)
    ensures |r| <= |hits|
    ensures forall h :: h in r <==> h in hits && Sufficient(h)
  {
    if hits == [] then []
    else
      var last := hits[|hits| - 1];
      SufficientOnes(hits[..|hits| - 1]) + if Sufficient(last) then [last] else []
  }

  function LexicalKey(h: Hit): real { if h.entry.lexicalScore.Some? then h.entry.lexicalScore.value else 0.0 }

  /** `similarity or -1.0`: a similarity of zero counts as none. */
  function SimilarityKey(h: Hit): real {
    var similarity := h.entry.semanticSimilarity;
    if similarity.Some? && similarity.value != 0.0 then similarity.value else -1.0
  }

  predicate Stronger(a: Hit, b: Hit) {
    if LexicalKey(a) != LexicalKey(b) then LexicalKey(a) > LexicalKey(b)
    else if SimilarityKey(a) != SimilarityKey(b) then SimilarityKey(a) > SimilarityKey(b)
    else Before(a, b)
  }

  ghost function Evidence(v: Services, b: Base, k: Key): seq<Hit> {
    Sorted(Stronger, SufficientOnes(Hits(v, b, k)))
  }

  // ---- From a draft to an answer ----

  /** `list(dict.fromkeys(ids))`: each identifier where it first occurs. */
  function FirstOccurrences(ids: seq<Uuid>): (r: seq<Uuid>)
    ensures Distinct(r) && forall id :: id in r <==> id in ids
  {
    if ids == [] then []
    else
      var earlier, last := FirstOccurrences(ids[..|ids| - 1]), ids[|ids| - 1];
      assert ids == ids[..|ids| - 1] + [last];
      if last in earlier then earlier else earlier + [last]
  }

  function CitationOf(h: Hit): Citation {
    Citation(h.id, h.entry.passage.document, h.entry.passage.source, h.entry.passage.title, h.entry.passage.index)
  }

  function ChunksCited(citations: seq<Citation>): (ids: seq<Uuid>)
    ensures |ids| == |citations| && forall i | 0 <= i < |citations| :: ids[i] == citations[i].chunk
  {
    seq(|citations|, i requires 0 <= i < |citations| => citations[i].chunk)
  }

  function Cite(evidence: seq<Hit>, ids: seq<Uuid>): (r: seq<Citation>)
    requires forall id | id in ids :: id in HitIds(evidence)
    ensures |r| == |ids|
    ensures forall i | 0 <= i < |ids| :: r[i].chunk == ids[i] && exists h :: h in evidence && r[i] == CitationOf(h)
  {
    hide Place;
    seq(|ids|, i requires 0 <= i < |ids| => CitationOf(evidence[Place(HitIds(evidence), ids[i]) - 1]))
  }

  const Refusal: Answer := Answer(Refused, SAFE_REFUSAL, [])

  /** Unsupported drafts, and drafts citing nothing or anything outside the evidence, are refused. */
  function Verified(draft: Draft, evidence: seq<Hit>, status: Status): Answer {
    var cited := FirstOccurrences(draft.cited);
    if draft.supported && cited != [] && forall id | id in cited :: id in HitIds(evidence)
    then Answer(status, draft.answer, Cite(evidence, cited))
    else Refusal
  }

  datatype Judgement = Judged(answer: Answer, tokens: nat) | Down | BadDraft

  function Judge(v: Services, q: Question, evidence: seq<Hit>, allowDegraded: bool): Judgement
    requires evidence != []
  {
    match v.generate(q, evidence)
    case ProviderRefuses => Judged(Refusal, 0)
    case Drafted(draft, tokens) => Judged(Verified(draft, evidence, Answered), tokens)
    case ProviderIsDown =>
      if !allowDegraded then Down
      else
        var text := v.extract(q, evidence);
        var kept := if |text| > MAX_LOCAL_ANSWER then text[..MAX_LOCAL_ANSWER] else text;
        if kept == [] then BadDraft
        else Judged(Verified(Draft(kept, true, [evidence[0].id]), evidence, Degraded), 0)
  }

  /** The reply without cache and without limits. */
  ghost function Fresh(v: Services, b: Base, k: Key, allowDegraded: bool): Reply {
    if Strip(k.question.text) == [] then Failed(InvalidQuery)
    else
      var evidence := Evidence(v, b, k);
      if evidence == [] then Given(Refusal)
      else match Judge(v, k.question, evidence, allowDegraded)
           case Judged(answer, _) => Given(answer)
           case Down => Failed(ProviderDown)
           case BadDraft => Failed(InvalidDraft)
  }

  // ---- Tables ----

  datatype Trace = Trace(principal: Hmac, question: string, status: Status, tokens: nat, at: Timestamp,
                         retrieved: nat, citations: nat, cached: bool)

  datatype Payload = Payload(status: Status, text: Option<string>, citations: seq<Citation>)

  datatype CacheRow = CacheRow(payload: Payload, expiresAt: Timestamp)

  type Cache = map<Key, CacheRow>

  function AuthorizedRows(b: Base, principal: Hmac, ids: seq<Uuid>): set<Uuid> {
    set id | id in ids && Authorized(b, principal, id)
  }

  /** What `_cached_answer` finds fit to serve. */
  function Lookup(cache: Cache, b: Base, k: Key, now: Timestamp): Option<Answer> {
    if k !in cache || cache[k].expiresAt <= now then None
    else
      var p := cache[k].payload;
      if p.citations != [] && |AuthorizedRows(b, k.principal, ChunksCited(p.citations))| != |p.citations| then None
      else if !p.status.Servable() then None
      else Some(Answer(p.status, if p.text.Some? then p.text.value else SAFE_REFUSAL, p.citations))
  }

  function Remembered(cache: Cache, k: Key, answer: Answer, ttl: int, now: Timestamp): Cache {
    cache[k := CacheRow(Payload(answer.status, Some(answer.text), answer.citations), now + ttl * SECOND)]
  }

  predicate TtlValid(ttl: int) { 1 <= ttl <= 86_400 }

  /** A principal's requests, or tokens, as entries against a limit. */
  function LogOf(traces: seq<Trace>, principal: Hmac, byTokens: bool): seq<L.Entry> {
    if traces == [] then []
    else
      var t := traces[|traces| - 1];
      LogOf(traces[..|traces| - 1], principal, byTokens)
      + if t.principal == principal then [L.Entry(t.at, if byTokens then t.tokens else 1)] else []
  }

  function RateFailure(traces: seq<Trace>, principal: Hmac, perMinute: int, now: Timestamp): Option<Failure> {
    if perMinute == 0 then None
    else if !(1 <= perMinute <= 10_000) then Some(InvalidRequestLimit)
    else if L.Passes(LogOf(traces, principal, false), L.LastMinute, perMinute, now) then None
    else Some(RequestLimit)
  }

  function BudgetFailure(traces: seq<Trace>, principal: Hmac, budget: int, now: Timestamp): Option<Failure> {
    if budget == 0 then None
    else if !(1 <= budget <= 1_000_000_000) then Some(InvalidBudget)
    else if L.Passes(LogOf(traces, principal, true), L.Today, budget, now) then None
    else Some(DailyBudget)
  }

  // ---- One request ----

  datatype Tables = Tables(traces: seq<Trace>, cache: Cache)

  /** The instants at which one request meets the database, one for each of its transactions. */
  datatype Clock = Clock(
    checked: Timestamp, lookedUp: Timestamp, budgeted: Timestamp, recorded: Timestamp, stored: Timestamp)

  function TraceOf(r: Request, status: Status, tokens: nat, at: Timestamp, retrieved: nat, citations: nat,
                   cached: bool): Trace {
    Trace(r.key.principal, r.key.question.text, status, tokens, at, retrieved, citations, cached)
  }

  /** Recording an answer, then remembering it if a time to live was asked for. */
  function Concluded(t: Tables, r: Request, answer: Answer, tokens: nat, retrieved: nat, clock: Clock)
    : (Tables, Reply)
  {
    var trace := TraceOf(r, answer.status, tokens, clock.recorded, retrieved, |answer.citations|, false);
    var traced := t.(traces := t.traces + [trace]);
    if r.cacheTtlSeconds == 0 then (traced, Given(answer))
    else if !TtlValid(r.cacheTtlSeconds) then (traced, Failed(InvalidTtl))
    else (traced.(cache := Remembered(t.cache, r.key, answer, r.cacheTtlSeconds, clock.stored)), Given(answer))
  }

  /** What a request with evidence comes to. */
  function Weighed(t: Tables, r: Request, v: Services, evidence: seq<Hit>, clock: Clock): (Tables, Reply)
    requires evidence != []
  {
    var budget := BudgetFailure(t.traces, r.key.principal, r.dailyTokenBudget, clock.budgeted);
    if budget.Some? then (t, Failed(budget.value))
    else match Judge(v, r.key.question, evidence, r.allowDegraded)
         case Judged(answer, tokens) => Concluded(t, r, answer, tokens, |evidence|, clock)
         case Down =>
           var trace := TraceOf(r, ProviderUnavailable, 0, clock.recorded, |evidence|, 0, false);
           (t.(traces := t.traces + [trace]), Failed(ProviderDown))
         case BadDraft => (t, Failed(InvalidDraft))
  }

  ghost function Produced(t: Tables, r: Request, v: Services, b: Base, clock: Clock): (Tables, Reply) {
    var k := r.key;
    if Strip(k.question.text) == [] then (t, Failed(InvalidQuery))
    else
      var evidence := Evidence(v, b, k);
      if evidence == [] then Concluded(t, r, Refusal, 0, |Hits(v, b, k)|, clock)
      else Weighed(t, r, v, evidence, clock)
  }

  /** `answer_question`; the knowledge may change between the cache check and the retrieval. */
  ghost function Respond(t: Tables, r: Request, v: Services, atLookup: Base, atRetrieval: Base, clock: Clock)
    : (Tables, Reply)
  {
    var limit := RateFailure(t.traces, r.key.principal, r.requestsPerMinute, clock.checked);
    if limit.Some? then (t, Failed(limit.value))
    else
      var served := if r.cacheTtlSeconds != 0 then Lookup(t.cache, atLookup, r.key, clock.lookedUp) else None;
      if served.Some? then
        var trace := TraceOf(r, served.value.status, 0, clock.recorded, 0, |served.value.citations|, true);
        (t.(traces := t.traces + [trace]), Given(served.value))
      else Produced(t, r, v, atRetrieval, clock)
  }

  class RagStore {
    var traces: seq<Trace>
    var cache: Cache

    function Contents(): Tables reads this { Tables(traces, cache) }

    /** The row is looked up at one instant and the trace written, in a transaction of its own, at another. */
    method CachedAnswer(r: Request, b: Base, now: Timestamp, recordedAt: Timestamp) returns (answer: Option<Answer>)
      modifies this`traces
      ensures answer == Lookup(cache, b, r.key, now)
      ensures traces == old(traces) + if answer.None? then []
                                      else [TraceOf(r, answer.value.status, 0, recordedAt, 0,
                                                    |answer.value.citations|, true)]
    {
      if r.key !in cache || cache[r.key].expiresAt <= now { return None; }
      var p := cache[r.key].payload;
      if p.citations != [] {
        var authorized := |AuthorizedRows(b, r.key.principal, ChunksCited(p.citations))|;
        if authorized != |p.citations| { return None; }
      }
      if !p.status.Servable() { return None; }
      traces := traces + [TraceOf(r, p.status, 0, recordedAt, 0, |p.citations|, true)];
      return Some(Answer(p.status, if p.text.Some? then p.text.value else SAFE_REFUSAL, p.citations));
    }

    /** Fails on a time to live out of range; zero stores nothing. */
    method StoreCachedAnswer(k: Key, answer: Answer, ttl: int, now: Timestamp) returns (stored: bool)
      modifies this`cache
      ensures stored == (ttl == 0 || TtlValid(ttl))
      ensures cache == if TtlValid(ttl) then Remembered(old(cache), k, answer, ttl, now) else old(cache)
    {
      if ttl == 0 { return true; }
      if !(1 <= ttl <= 86_400) { return false; }
      cache := cache[k := CacheRow(Payload(answer.status, Some(answer.text), answer.citations), now + ttl * SECOND)];
      return true;
    }

    method Conclude(r: Request, answer: Answer, tokens: nat, retrieved: nat, clock: Clock) returns (reply: Reply)
      modifies this
      ensures (Contents(), reply) == Concluded(old(Contents()), r, answer, tokens, retrieved, clock)
    {
      traces := traces + [TraceOf(r, answer.status, tokens, clock.recorded, retrieved, |answer.citations|, false)];
      var stored := StoreCachedAnswer(r.key, answer, r.cacheTtlSeconds, clock.stored);
      reply := if stored then Given(answer) else Failed(InvalidTtl);
    }

    method WeighEvidence(r: Request, v: Services, evidence: seq<Hit>, clock: Clock) returns (reply: Reply)
      requires evidence != []
      modifies this
      ensures (Contents(), reply) == Weighed(old(Contents()), r, v, evidence, clock)
    {
      hide BudgetFailure, Concluded, Judge;
      var budget := BudgetFailure(traces, r.key.principal, r.dailyTokenBudget, clock.budgeted);
      if budget.Some? { return Failed(budget.value); }
      var judgement := JudgeDraft(v, r.key.question, evidence, r.allowDegraded);
      match judgement {
        case Judged(answer, tokens) =>
          reply := Conclude(r, answer, tokens, |evidence|, clock);
        case Down =>
          traces := traces + [TraceOf(r, ProviderUnavailable, 0, clock.recorded, |evidence|, 0, false)];
          return Failed(ProviderDown);
        case BadDraft =>
          return Failed(InvalidDraft);
      }
    }

    method AnswerQuestion(r: Request, v: Services, atLookup: Base, atRetrieval: Base, clock: Clock)
      returns (reply: Reply)
      requires Lawful(v)
      modifies this
      ensures (Contents(), reply) == Respond(old(Contents()), r, v, atLookup, atRetrieval, clock)
    {
      hide Lawful, Lookup, RateFailure, Weighed, Concluded, Evidence, Strip;
      var limit := RateFailure(traces, r.key.principal, r.requestsPerMinute, clock.checked);
      if limit.Some? { return Failed(limit.value); }
      if r.cacheTtlSeconds != 0 {
        var served := CachedAnswer(r, atLookup, clock.lookedUp, clock.recorded);
        if served.Some? { return Given(served.value); }
        assert traces == old(traces);
      }
      if Strip(r.key.question.text) == [] { return Failed(InvalidQuery); }
      var retrieved, evidence := CollectEvidence(v, atRetrieval, r.key);
      if evidence == [] {
        reply := Conclude(r, Refusal, 0, retrieved, clock);
        return;
      }
      reply := WeighEvidence(r, v, evidence, clock);
    }
  }

  method CollectEvidence(v: Services, b: Base, k: Key) returns (retrieved: nat, evidence: seq<Hit>)
    requires Lawful(v) && Strip(k.question.text) != []
    ensures retrieved == |Hits(v, b, k)| && evidence == Evidence(v, b, k)
  {
    hide Strip, IsTop, Sufficient;
    var found := RetrieveChunks(k.question.text, v.terms(k.question), Hybrid, EVIDENCE_LIMIT, v.lexical(b, k),
                                v.semantic(b, k));
    var hits := found.value;
    TopIsUnique(LexicalCandidates(Hybrid, v.terms(k.question), v.lexical(b, k), EVIDENCE_LIMIT),
                SemanticCandidates(Hybrid, v.semantic(b, k), EVIDENCE_LIMIT), EVIDENCE_LIMIT, hits, Hits(v, b, k));
    retrieved, evidence := |hits|, [];
    for i := 0 to |hits|
      invariant evidence == SufficientOnes(hits[..i])
    {
      assert hits[..i + 1][..i] == hits[..i];
      if Sufficient(hits[i]) { evidence := evidence + [hits[i]]; }
    }
    assert hits[..|hits|] == hits;
    evidence := Sorted(Stronger, evidence);
  }

  method JudgeDraft(v: Services, q: Question, evidence: seq<Hit>, allowDegraded: bool) returns (judgement: Judgement)
    requires evidence != []
    ensures judgement == Judge(v, q, evidence, allowDegraded)
  {
    hide Verified;
    var draft, tokens, status := Draft([], false, []), 0, Answered;
    match v.generate(q, evidence) {
      case ProviderRefuses => return Judged(Refusal, 0);
      case Drafted(d, n) => draft, tokens := d, n;
      case ProviderIsDown =>
        if !allowDegraded { return Down; }
        var text := v.extract(q, evidence);
        if |text| > MAX_LOCAL_ANSWER { text := text[..MAX_LOCAL_ANSWER]; }
        if text == [] { return BadDraft; }
        draft, status := Draft(text, true, [evidence[0].id]), Degraded;
    }
    var answer := Verify(draft, evidence, status);
    return Judged(answer, tokens);
  }

  method Verify(draft: Draft, evidence: seq<Hit>, status: Status) returns (answer: Answer)
    ensures answer == Verified(draft, evidence, status)
  {
    hide Place;
    var cited: seq<Uuid> := [];
    for i := 0 to |draft.cited|
      invariant cited == FirstOccurrences(draft.cited[..i])
    {
      assert draft.cited[..i + 1][..i] == draft.cited[..i];
      if draft.cited[i] !in cited { cited := cited + [draft.cited[i]]; }
    }
    assert draft.cited[..|draft.cited|] == draft.cited;
    var ids := HitIds(evidence);
    if !draft.supported || cited == [] || exists id :: id in cited && id !in ids { return Refusal; }
    var citations: seq<Citation> := [];
    for i := 0 to |cited|
      invariant |citations| == i && forall j | 0 <= j < i :: citations[j] == Cite(evidence, cited)[j]
    {
      citations := citations + [CitationOf(evidence[Place(ids, cited[i]) - 1])];
    }
    assert citations == Cite(evidence, cited);
    return Answer(status, draft.answer, citations);
  }
}

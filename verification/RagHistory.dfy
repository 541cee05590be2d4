/**
 * The cache over whole histories. A request that misses the cache and writes its answer later meets the
 * cache only when it writes; so reads that hit and writes, in any order, are all that can happen to it.
 */
module RagHistory {
  import opened Common
  import opened Text
  import opened RankFusion
  import opened Rag
  import opened RagSafety

  datatype Event =
    | Served(key: Key, base: Base, now: Timestamp)
    | Wrote(key: Key, base: Base, now: Timestamp, services: Services, allowDegraded: bool, ttl: int)

  ghost predicate Possible(cache: Cache, e: Event) {
    match e
    case Served(k, b, now) => Lookup(cache, b, k, now).Some?
    case Wrote(k, b, _, v, allowDegraded, ttl) => Lawful(v) && Fresh(v, b, k, allowDegraded).Given? && TtlValid(ttl)
  }

  ghost function AnswerOf(cache: Cache, e: Event): Answer
    requires Possible(cache, e)
  {
    match e
    case Served(k, b, now) => Lookup(cache, b, k, now).value
    case Wrote(k, b, _, v, allowDegraded, _) => Fresh(v, b, k, allowDegraded).answer
  }

  ghost function After(cache: Cache, e: Event): Cache
    requires Possible(cache, e)
  {
    if e.Served? then cache else Remembered(cache, e.key, AnswerOf(cache, e), e.ttl, e.now)
  }

  ghost predicate History(caches: seq<Cache>, events: seq<Event>) {
    && |caches| == |events| + 1 && caches[0] == map[]
    && forall i | 0 <= i < |events| :: Possible(caches[i], events[i]) && caches[i + 1] == After(caches[i], events[i])
  }

  predicate Writes(e: Event, k: Key) { e.Wrote? && e.key == k }

  /** The row that a writing event leaves. */
  ghost predicate LeftBy(e: Event, row: CacheRow) {
    && e.Wrote? && Lawful(e.services)
    && var drawn := Fresh(e.services, e.base, e.key, e.allowDegraded);
       && drawn.Given?
       && row == CacheRow(Payload(drawn.answer.status, Some(drawn.answer.text), drawn.answer.citations),
                          e.now + e.ttl * SECOND)
  }

  /** Every row was left by the last write under its key. */
  lemma {:induction false} LastWrite(caches: seq<Cache>, events: seq<Event>, n: nat, k: Key) returns (j: nat)
    requires History(caches, events) && n <= |events| && k in caches[n]
    ensures j < n && Writes(events[j], k) && LeftBy(events[j], caches[n][k])
    ensures forall m | j < m < n :: !Writes(events[m], k)
    decreases n
  {
    hide Lookup, Fresh, Lawful;
    if Writes(events[n - 1], k) {
      j := n - 1;
    } else {
      j := LastWrite(caches, events, n - 1, k);
    }
  }

  /**
   * What the cache serves is what the last write under that key computed: for this very principal and
   * question, not yet expired, and cited only from chunks that this principal may still read.
   */
  lemma ServedWasWritten(caches: seq<Cache>, events: seq<Event>, i: nat) returns (j: nat)
    requires History(caches, events) && i < |events| && events[i].Served?
    ensures j < i && Writes(events[j], events[i].key) && (forall m | j < m < i :: !Writes(events[m], events[i].key))
    ensures var wrote := events[j];
            && Lawful(wrote.services)
            && Fresh(wrote.services, wrote.base, wrote.key, wrote.allowDegraded)
                == Given(AnswerOf(caches[i], events[i]))
            && events[i].now < wrote.now + wrote.ttl * SECOND
    ensures Proper(AnswerOf(caches[i], events[i]))
    ensures AllAuthorized(events[i].base, events[i].key.principal, AnswerOf(caches[i], events[i]).citations)
  {
    hide Fresh, Lawful, AuthorizedRows, Proper, AllAuthorized, After;
    var e := events[i];
    assert Possible(caches[i], e);
    j := LastWrite(caches, events, i, e.key);
    var w := events[j];
    FreshIsSound(w.services, w.base, w.key, w.allowDegraded);
    ServedIffAuthorized(caches[i], e.base, e.key, e.now);
  }

  /** Every answer given, fresh or from the cache, is proper and cites only what its reader may read at that moment. */
  lemma EveryAnswerIsSound(caches: seq<Cache>, events: seq<Event>, i: nat)
    requires History(caches, events) && i < |events|
    ensures Proper(AnswerOf(caches[i], events[i]))
    ensures AllAuthorized(events[i].base, events[i].key.principal, AnswerOf(caches[i], events[i]).citations)
  {
    hide Fresh, Lawful, Lookup, Proper, AllAuthorized, After;
    assert Possible(caches[i], events[i]);
    if events[i].Served? {
      var j := ServedWasWritten(caches, events, i);
    } else {
      FreshIsSound(events[i].services, events[i].base, events[i].key, events[i].allowDegraded);
    }
  }

  // ---- Transparency ----

  /** The knowledge base stays put and every request meets the same services. */
  ghost predicate Steady(events: seq<Event>, v: Services, b: Base) {
    forall i | 0 <= i < |events| :: events[i].base == b && (events[i].Wrote? ==> events[i].services == v)
  }

  /**
   * An answer computed under one setting is the answer under another, unless it is degraded and that is not
   * allowed.
   */
  lemma SettingMatters(v: Services, b: Base, k: Key, wrote: bool, asked: bool)
    requires Fresh(v, b, k, wrote).Given?
    ensures Fresh(v, b, k, asked) == Fresh(v, b, k, wrote)
        <==> !(Fresh(v, b, k, wrote).answer.status.Degraded? && !asked)
  {
    hide Evidence, Verified, Strip;
    var evidence := Evidence(v, b, k);
    if evidence != [] {
      match v.generate(k.question, evidence) {
        case ProviderRefuses =>
        case Drafted(draft, _) => DraftIsVerified(draft, evidence, Answered);
        case ProviderIsDown =>
          var text := v.extract(k.question, evidence);
          var kept := if |text| > MAX_LOCAL_ANSWER then text[..MAX_LOCAL_ANSWER] else text;
          assert HitIds(evidence)[0] == evidence[0].id;
          DraftIsVerified(Draft(kept, true, [evidence[0].id]), evidence, Degraded);
      }
    }
  }

  /** Every remembered row is what the services answer, under some setting. */
  lemma ServedIsFresh(caches: seq<Cache>, events: seq<Event>, v: Services, b: Base, k: Key, now: Timestamp, asked: bool)
    requires History(caches, events) && Steady(events, v, b)
    requires Lookup(caches[|events|], b, k, now).Some?
    ensures var served := Lookup(caches[|events|], b, k, now).value;
            Fresh(v, b, k, asked) == Given(served) <==> !(served.status.Degraded? && !asked)
    ensures (forall i | 0 <= i < |events| && events[i].Wrote? :: events[i].allowDegraded == asked) ==>
              Fresh(v, b, k, asked) == Given(Lookup(caches[|events|], b, k, now).value)
  {
    hide Fresh, Lawful, AuthorizedRows, Proper, AllAuthorized, After, Possible;
    var cache := caches[|events|];
    var j := LastWrite(caches, events, |events|, k);
    var w := events[j];
    FreshIsSound(v, b, k, w.allowDegraded);
    ServedIffAuthorized(cache, b, k, now);
    SettingMatters(v, b, k, w.allowDegraded, asked);
  }

  /**
   * One request: served from the cache as it is, or produced afresh and remembered; a failure changes nothing
   * in the cache.
   */
  lemma RespondIsServedOrFresh(t: Tables, r: Request, v: Services, atLookup: Base, atRetrieval: Base, clock: Clock)
    requires Lawful(v)
    ensures var (t', reply) := Respond(t, r, v, atLookup, atRetrieval, clock);
            var served := Lookup(t.cache, atLookup, r.key, clock.lookedUp);
            var drawn := Fresh(v, atRetrieval, r.key, r.allowDegraded);
            && (reply.Failed? ==> t'.cache == t.cache)
            && (reply.Given? && r.cacheTtlSeconds != 0 && served.Some? ==>
                t'.cache == t.cache && reply.answer == served.value)
            && (reply.Given? && (r.cacheTtlSeconds == 0 || served.None?) ==>
                  && reply == drawn
                  && if r.cacheTtlSeconds == 0 then t'.cache == t.cache
                     else var e := Wrote(r.key, atRetrieval, clock.stored, v, r.allowDegraded, r.cacheTtlSeconds);
                          Possible(t.cache, e) && t'.cache == After(t.cache, e))
            && (r.requestsPerMinute == 0 && r.dailyTokenBudget == 0
                && (r.cacheTtlSeconds == 0 || TtlValid(r.cacheTtlSeconds)) ==>
                  reply == if r.cacheTtlSeconds != 0 && served.Some? then Given(served.value) else drawn)
  {
    hide Lawful, Lookup, Evidence, Judge, Strip, Hits;
  }

  /**
   * With limits off, the knowledge base steady and the generator a function of question and evidence,
   * a request answered through the cache differs from the same request without a cache if and only if
   * the cache serves a degraded answer to a caller who does not allow one.
   */
  lemma CacheIsTransparent(caches: seq<Cache>, events: seq<Event>, t: Tables, r: Request, v: Services, b: Base,
                           clock: Clock)
    requires History(caches, events) && Steady(events, v, b) && t.cache == caches[|events|] && Lawful(v)
    requires r.requestsPerMinute == 0 && r.dailyTokenBudget == 0
    requires r.cacheTtlSeconds == 0 || TtlValid(r.cacheTtlSeconds)
    ensures var reply := Respond(t, r, v, b, b, clock).1;
            reply == Fresh(v, b, r.key, r.allowDegraded)
            <==> !(reply.Given? && reply.answer.status.Degraded? && !r.allowDegraded)
    ensures (forall i | 0 <= i < |events| && events[i].Wrote? :: events[i].allowDegraded == r.allowDegraded) ==>
              Respond(t, r, v, b, b, clock).1 == Fresh(v, b, r.key, r.allowDegraded)
  {
    hide Fresh, Lookup, Respond, History, Steady, Lawful;
    RespondIsServedOrFresh(t, r, v, b, b, clock);
    if Fresh(v, b, r.key, r.allowDegraded).Given? { FreshIsSound(v, b, r.key, r.allowDegraded); }
    if Lookup(t.cache, b, r.key, clock.lookedUp).Some? {
      ServedIsFresh(caches, events, v, b, r.key, clock.lookedUp, r.allowDegraded);
    }
  }
}

/** What a reader can rely on in every reply, however requests and changes to the knowledge interleave. */
module RagSafety {
  import opened Common
  import opened Counting
  import opened Sorting
  import opened Text
  import opened RankFusion
  import opened Rag

  // ---- One reply ----

  /** Refusals are the safe text without citations; anything else cites distinct chunks, at least one. */
  predicate Proper(a: Answer) {
    && a.status.Servable() && Distinct(ChunksCited(a.citations))
    && (if a.status.Refused? then a == Refusal else a.citations != [])
  }

  predicate AllAuthorized(b: Base, principal: Hmac, citations: seq<Citation>) {
    forall i | 0 <= i < |citations| :: Authorized(b, principal, citations[i].chunk)
  }

  /** The citation repeats what the knowledge base says of the chunk. */
  predicate Quotes(b: Base, c: Citation) {
    && c.chunk in b.chunks
    && var p := b.chunks[c.chunk];
       c == Citation(c.chunk, p.document, p.source, p.title, p.index)
  }

  lemma HitsAreShown(v: Services, b: Base, k: Key, i: nat)
    requires Lawful(v) && i < |Hits(v, b, k)|
    ensures var h := Hits(v, b, k)[i]; Shown(b, k.principal, h.id, h.entry.passage)
  {
    hide IsTop, Shown;
    TopIsShown(b, k.principal, LexicalCandidates(Hybrid, v.terms(k.question), v.lexical(b, k), EVIDENCE_LIMIT),
               SemanticCandidates(Hybrid, v.semantic(b, k), EVIDENCE_LIMIT), EVIDENCE_LIMIT, Hits(v, b, k), i);
  }

  lemma TopIsShown(b: Base, principal: Hmac, lexical: seq<RankedRow>, semantic: seq<RankedRow>, limit: nat,
                   hits: seq<Hit>, i: nat)
    requires IsTop(lexical, semantic, limit, hits) && i < |hits|
    requires RowsShown(b, principal, lexical) && RowsShown(b, principal, semantic)
    ensures Shown(b, principal, hits[i].id, hits[i].entry.passage)
  {
    hide IsTop, Shown;
    RanksComeWithScores(lexical, semantic, limit, hits, i);
    var e := hits[i].entry;
    if e.lexicalRank.Some? {
      assert lexical[e.lexicalRank.value - 1].id == hits[i].id;
    } else {
      assert semantic[e.semanticRank.value - 1].id == hits[i].id;
    }
  }

  lemma StrongerIsStrict(hits: seq<Hit>)
    requires IdsDiffer(hits)
    ensures StrictOrder(Stronger) && Separates(Stronger, hits)
  {
    hide LexicalKey, SimilarityKey;
  }

  lemma {:induction false} SufficientOnesDistinct(hits: seq<Hit>)
    requires IdsDiffer(hits)
    ensures IdsDiffer(SufficientOnes(hits))
  {
    hide Sufficient;
    if hits != [] {
      var n := |hits| - 1;
      SufficientOnesDistinct(hits[..n]);
      var r := SufficientOnes(hits[..n]);
      assert IdsDiffer(hits[..n]);
      forall i | 0 <= i < |r| ensures r[i].id != hits[n].id {
        assert r[i] in r && r[i] in hits[..n];
        var j :| 0 <= j < n && hits[j] == r[i];
      }
      assert SufficientOnes(hits) == r || SufficientOnes(hits) == r + [hits[n]];
    }
  }

  /** Evidence is exactly the sufficient hits, strongest first, all readable by the principal. */
  lemma EvidenceIsAuthorized(v: Services, b: Base, k: Key)
    requires Lawful(v)
    ensures Ascending(Stronger, Evidence(v, b, k)) && IdsDiffer(Evidence(v, b, k))
    ensures forall h :: h in Evidence(v, b, k) <==> h in Hits(v, b, k) && Sufficient(h)
    ensures forall h | h in Evidence(v, b, k) :: Shown(b, k.principal, h.id, h.entry.passage)
  {
    hide Lawful, Sufficient, Stronger, Shown, Sorted, Hits, SufficientOnes;
    var hits := Hits(v, b, k);
    var sufficient := SufficientOnes(hits);
    HitsDiffer(v, b, k);
    SufficientOnesDistinct(hits);
    StrongerIsStrict(sufficient);
    SortedAscends(Stronger, sufficient);
    forall h ensures h in Evidence(v, b, k) <==> h in hits && Sufficient(h) {
      SameMembers(Evidence(v, b, k), sufficient, h);
    }
    ArrangedIdsDiffer(sufficient, Evidence(v, b, k));
    forall h | h in hits ensures Shown(b, k.principal, h.id, h.entry.passage) {
      var i :| 0 <= i < |hits| && hits[i] == h;
      HitsAreShown(v, b, k, i);
    }
  }

  lemma ArrangedIdsDiffer(hits: seq<Hit>, arranged: seq<Hit>)
    requires IdsDiffer(hits) && Ascending(Stronger, arranged) && forall h | h in arranged :: h in hits
    ensures IdsDiffer(arranged)
  {
    forall i, j | 0 <= i < j < |arranged| ensures arranged[i].id != arranged[j].id {
      assert Stronger(arranged[i], arranged[j]);
      assert arranged[i] in hits && arranged[j] in hits;
      var m, n :| 0 <= m < |hits| && 0 <= n < |hits| && hits[m] == arranged[i] && hits[n] == arranged[j];
    }
  }

  lemma HitsDiffer(v: Services, b: Base, k: Key)
    ensures IdsDiffer(Hits(v, b, k))
  {
    hide Union, EntryOf, Share;
  }

  /** A draft survives exactly if it is supported and cites something, and only evidence. */
  lemma DraftIsVerified(draft: Draft, evidence: seq<Hit>, status: Status)
    requires status.Answered? || status.Degraded?
    ensures var a := Verified(draft, evidence, status);
            && Proper(a)
            && (a.status == status || a == Refusal)
            && (a.status == status <==>
                draft.supported && draft.cited != [] && forall id | id in draft.cited :: id in HitIds(evidence))
            && (a.status == status ==>
                a.text == draft.answer && ChunksCited(a.citations) == FirstOccurrences(draft.cited))
            && (forall i | 0 <= i < |a.citations| :: exists h :: h in evidence && a.citations[i] == CitationOf(h))
  {
    hide FirstOccurrences, CitationOf;
    var cited := FirstOccurrences(draft.cited);
    if draft.cited != [] { assert draft.cited[0] in cited; }
    if cited != [] { assert cited[0] in draft.cited; }
  }

  /** An uncached answer is proper, and cites the knowledge base it was drawn from, as its reader may see it. */
  lemma FreshIsSound(v: Services, b: Base, k: Key, allowDegraded: bool)
    requires Lawful(v) && Fresh(v, b, k, allowDegraded).Given?
    ensures var a := Fresh(v, b, k, allowDegraded).answer;
            && Proper(a) && AllAuthorized(b, k.principal, a.citations)
            && (forall i | 0 <= i < |a.citations| :: Quotes(b, a.citations[i]))
            && (a.status.Degraded? ==> allowDegraded)
  {
    hide Lawful, Evidence, Verified, Shown, Authorized, Strip, Proper, Quotes;
    var evidence := Evidence(v, b, k);
    EvidenceIsAuthorized(v, b, k);
    RefusalIsProper();
    if evidence != [] {
      match v.generate(k.question, evidence) {
        case ProviderRefuses =>
        case Drafted(draft, _) => VerifiedIsSound(b, k.principal, draft, evidence, Answered);
        case ProviderIsDown =>
          var text := v.extract(k.question, evidence);
          var kept := if |text| > MAX_LOCAL_ANSWER then text[..MAX_LOCAL_ANSWER] else text;
          VerifiedIsSound(b, k.principal, Draft(kept, true, [evidence[0].id]), evidence, Degraded);
      }
    }
  }

  /** A degraded answer is at most 3000 characters picked from, and citing only, the strongest evidence there is. */
  lemma DegradedCitesStrongest(v: Services, b: Base, k: Key, allowDegraded: bool)
    requires Lawful(v) && Fresh(v, b, k, allowDegraded).Given? && Fresh(v, b, k, allowDegraded).answer.status.Degraded?
    ensures var a, evidence := Fresh(v, b, k, allowDegraded).answer, Evidence(v, b, k);
            && allowDegraded && evidence != [] && a.citations == [CitationOf(evidence[0])]
            && (forall h | h in Hits(v, b, k) && Sufficient(h) :: h == evidence[0] || Stronger(evidence[0], h))
            && 1 <= |a.text| <= 3000 && a.text <= v.extract(k.question, evidence)
            && (|a.text| < 3000 ==> a.text == v.extract(k.question, evidence))
  {
    hide Lawful, Evidence, Authorized, Shown, Strip, Proper, Quotes, Stronger, Sufficient, Hits, CitationOf;
    var evidence := Evidence(v, b, k);
    EvidenceIsAuthorized(v, b, k);
    if v.generate(k.question, evidence).Drafted? {
      DraftIsVerified(v.generate(k.question, evidence).draft, evidence, Answered);
    }
    var text := v.extract(k.question, evidence);
    var kept := if |text| > MAX_LOCAL_ANSWER then text[..MAX_LOCAL_ANSWER] else text;
    CitesFirst(kept, evidence);
  }

  lemma CitesFirst(text: string, evidence: seq<Hit>)
    requires evidence != [] && IdsDiffer(evidence)
    ensures Verified(Draft(text, true, [evidence[0].id]), evidence, Degraded)
        == Answer(Degraded, text, [CitationOf(evidence[0])])
  {
    hide CitationOf, Place;
    var id := evidence[0].id;
    assert HitIds(evidence)[0] == id;
    assert FirstOccurrences([]) == [] && [id][..0] == [] && FirstOccurrences([id]) == [id];
    assert Place(HitIds(evidence), id) == 1;
    assert Cite(evidence, [id]) == [CitationOf(evidence[0])];
  }

  lemma RefusalIsProper()
    ensures Proper(Refusal)
  {}

  lemma VerifiedIsSound(b: Base, principal: Hmac, draft: Draft, evidence: seq<Hit>, status: Status)
    requires status.Answered? || status.Degraded?
    requires forall h | h in evidence :: Shown(b, principal, h.id, h.entry.passage)
    ensures var a := Verified(draft, evidence, status);
            Proper(a) && AllAuthorized(b, principal, a.citations)
                && (forall i | 0 <= i < |a.citations| :: Quotes(b, a.citations[i]))
            && (a.status == status || a == Refusal)
  {
    hide Proper, Verified;
    DraftIsVerified(draft, evidence, status);
  }

  // ---- The counting check ----

  /**
   * The query counts authorised rows; the count equals the number of citations exactly if they are
   * pairwise distinct and each one is authorised.
   */
  lemma CountMeansAll(b: Base, principal: Hmac, citations: seq<Citation>)
    ensures |AuthorizedRows(b, principal, ChunksCited(citations))| == |citations|
            <==> Distinct(ChunksCited(citations)) && AllAuthorized(b, principal, citations)
  {
    hide Authorized;
    var ids := ChunksCited(citations);
    var rows, all := AuthorizedRows(b, principal, ids), Members(ids);
    MembersSize(ids);
    SubsetSize(rows, all);
    if |rows| == |ids| {
      SubsetOfSameSize(rows, all);
      assert forall i | 0 <= i < |ids| :: ids[i] in all;
    }
    if Distinct(ids) && AllAuthorized(b, principal, citations) {
      assert rows == all;
    }
  }

  /** A remembered answer is served exactly while it is fresh and all it cites is, now, readable by this principal. */
  lemma ServedIffAuthorized(cache: Cache, b: Base, k: Key, now: Timestamp)
    requires k in cache && cache[k].payload.text.Some?
    requires var p := cache[k].payload; Proper(Answer(p.status, p.text.value, p.citations))
    ensures var p := cache[k].payload;
            && (Lookup(cache, b, k, now).Some? <==>
                now < cache[k].expiresAt && AllAuthorized(b, k.principal, p.citations))
            && (Lookup(cache, b, k, now).Some?
                ==> Lookup(cache, b, k, now).value == Answer(p.status, p.text.value, p.citations))
  {
    hide Authorized, AuthorizedRows;
    CountMeansAll(b, k.principal, cache[k].payload.citations);
  }
}

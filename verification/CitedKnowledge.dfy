/** From a citation back to the ingestion behind it. */
module CitedKnowledge {
  import opened Common
  import opened Chunker
  import opened Knowledge
  import opened KnowledgeHistory
  import RankFusion
  import Rag
  import RagSafety

  /** The rows that retrieval joins, under the identifiers its chunks were given. */
  function BaseOf(s: Store, ids: map<RankFusion.Uuid, ChunkId>): Rag.Base {
    Rag.Base(
      map u | u in ids && ids[u] in s.chunks && ids[u].document in s.documents ::
        var d := s.documents[ids[u].document];
        RankFusion.Passage(ids[u].document, d.source, d.title, ids[u].index, s.chunks[ids[u]].content),
      set d | d in s.documents && s.documents[d].active,
      set p | p in s.permissions :: Rag.Reader(p.document, p.principal))
  }

  /** The chunk is a piece of the newest content of its source, which some ingestion opened to this reader. */
  ghost predicate NewestAndGranted(s: Store, ingestions: seq<Ingestion>, c: ChunkId, principal: Hmac) {
    && c in s.chunks && c.document in s.documents
    && var d := s.documents[c.document];
       var contents := Novelties(ingestions, d.owner, d.source);
       && contents != [] && d.version == |contents|
       && var newest := contents[|contents| - 1];
       && d.content == Sha256(newest)
       && Chunks(newest).Some? && c.index < |Chunks(newest).value|
       && s.chunks[c].content == Chunks(newest).value[c.index]
       && Granted(s.documents, ingestions, c.document, principal)
  }

  lemma AuthorizedIsNewest(stores: seq<Store>, ingestions: seq<Ingestion>, ids: map<RankFusion.Uuid, ChunkId>,
                           principal: Hmac, u: RankFusion.Uuid)
    requires History(stores, ingestions)
    requires Rag.Authorized(BaseOf(stores[|ingestions|], ids), principal, u)
    ensures u in ids && NewestAndGranted(stores[|ingestions|], ingestions, ids[u], principal)
  {
    hide Chunks, Granted, Ingested, Novelties;
    var s, c := stores[|ingestions|], ids[u];
    var d := s.documents[c.document];
    assert Permission(c.document, principal) in s.permissions;
    PermissionsAreGrants(stores, ingestions, c.document, principal);
    VersionsAreNovelties(stores, ingestions, d.owner, d.source);
    assert c.document in Group(s.documents, d.owner, d.source);
    ChunksAreComplete(stores, ingestions);
    assert Complete(s, c.document);
    assert c == ChunkId(c.document, c.index);
  }

  /** After any ingestions, an answer cites only the newest content of each source, opened to its reader. */
  lemma AnswersCiteNewest(stores: seq<Store>, ingestions: seq<Ingestion>, ids: map<RankFusion.Uuid, ChunkId>,
                          v: Rag.Services, k: Rag.Key, allowDegraded: bool, i: nat)
    requires History(stores, ingestions) && Rag.Lawful(v)
    requires var reply := Rag.Fresh(v, BaseOf(stores[|ingestions|], ids), k, allowDegraded);
             reply.Given? && i < |reply.answer.citations|
    ensures var citation := Rag.Fresh(v, BaseOf(stores[|ingestions|], ids), k, allowDegraded).answer.citations[i];
            && citation.chunk in ids
            && NewestAndGranted(stores[|ingestions|], ingestions, ids[citation.chunk], k.principal)
            && citation.document == ids[citation.chunk].document && citation.index == ids[citation.chunk].index
            && citation.source == stores[|ingestions|].documents[citation.document].source
            && citation.title == stores[|ingestions|].documents[citation.document].title
  {
    hide Rag.Fresh, Rag.Lawful, Ingested, NewestAndGranted, Rag.Authorized;
    var b := BaseOf(stores[|ingestions|], ids);
    RagSafety.FreshIsSound(v, b, k, allowDegraded);
    var citation := Rag.Fresh(v, b, k, allowDegraded).answer.citations[i];
    assert RagSafety.Quotes(b, citation);
    AuthorizedIsNewest(stores, ingestions, ids, k.principal, citation.chunk);
  }
}

/** Versioned documents: one active version for each owner and source, chunks, and permissions. */
module Knowledge {
  import opened Common
  import opened Chunker
  import opened Injection

  type DocumentId = nat

  /** Chunk identifiers are unique; this one is named after its document and place. */
  datatype ChunkId = ChunkId(document: DocumentId, index: nat)

  datatype Document = Document(
    owner: Hmac, source: string, title: string, version: nat, content: Sha256<string>, active: bool, flagged: bool)

  datatype Chunk = Chunk(content: string, flagged: bool)

  datatype Permission = Permission(document: DocumentId, principal: Hmac)

  datatype Store = Store(
    documents: map<DocumentId, Document>, chunks: map<ChunkId, Chunk>, permissions: set<Permission>)

  datatype Request = Request(owner: Hmac, readers: set<Hmac>, source: string, title: string, content: string)

  // ---- Specification ----

  /** The versions of one source. */
  function Group(documents: map<DocumentId, Document>, owner: Hmac, source: string): set<DocumentId> {
    set d | d in documents && documents[d].owner == owner && documents[d].source == source
  }

  predicate Holds(documents: map<DocumentId, Document>, d: DocumentId, r: Request) {
    && d in documents && documents[d].owner == r.owner && documents[d].source == r.source
    && documents[d].content == Sha256(r.content)
  }

  /** `coalesce(max(version), 0)`. */
  predicate IsLatest(documents: map<DocumentId, Document>, owner: Hmac, source: string, v: nat) {
    var g := Group(documents, owner, source);
    && (forall d | d in g :: documents[d].version <= v)
    && (if g == {} then v == 0 else exists d :: d in g && documents[d].version == v)
  }

  function Retired(documents: map<DocumentId, Document>, owner: Hmac, source: string): map<DocumentId, Document> {
    map d | d in documents ::
      if documents[d].owner == owner && documents[d].source == source
      then documents[d].(active := false) else documents[d]
  }

  function ChunkRows(d: DocumentId, chunks: seq<string>): map<ChunkId, Chunk> {
    map i | 0 <= i < |chunks| :: ChunkId(d, i) := Chunk(chunks[i], Flagged(chunks[i]))
  }

  function Grants(d: DocumentId, r: Request): set<Permission> {
    set p | p in r.readers + {r.owner} :: Permission(d, p)
  }

  /** The next version, active in place of all earlier ones, with its chunks and permissions. */
  function Added(s: Store, r: Request, d: DocumentId, latest: nat): Store
    requires Chunks(r.content).Some?
  {
    Store(
      Retired(s.documents, r.owner, r.source)[d :=
        Document(r.owner, r.source, r.title, latest + 1, Sha256(r.content), true, Flagged(r.content))],
      s.chunks + ChunkRows(d, Chunks(r.content).value),
      s.permissions + Grants(d, r))
  }

  predicate Stored(documents: map<DocumentId, Document>, r: Request) {
    exists x :: x in documents && Holds(documents, x, r)
  }

  /** What `ingest_document` may do to the store: refuse, reuse document `d`, or add it as the next version. */
  ghost predicate Ingested(s: Store, r: Request, d: DocumentId, s': Store) {
    if Chunks(r.content).None? then s' == s
    else if Stored(s.documents, r) then
      Holds(s.documents, d, r) && s' == s.(permissions := s.permissions + Grants(d, r))
    else
      d !in s.documents
      && exists latest: nat :: IsLatest(s.documents, r.owner, r.source, latest) && s' == Added(s, r, d, latest)
  }

  // ---- The store ----

  class KnowledgeStore {
    var documents: map<DocumentId, Document>
    var chunks: map<ChunkId, Chunk>
    var permissions: set<Permission>

    function Contents(): Store reads this { Store(documents, chunks, permissions) }

    /** Fails, changing nothing, when the content cannot be chunked. */
    method IngestDocument(r: Request, candidate: DocumentId) returns (d: Option<DocumentId>)
      requires candidate !in documents
      modifies this
      ensures d.None? <==> Chunks(r.content).None?
      ensures Ingested(old(Contents()), r, if d.Some? then d.value else candidate, Contents())
    {
      hide Chunks, Flagged, Holds, IsLatest, Added;
      var texts := ChunkText(r.content);
      if texts.None? { return None; }
      if exists x :: x in documents && Holds(documents, x, r) {
        var document :| document in documents && Holds(documents, document, r);
        GrantReaders(document, r);
        return Some(document);
      }
      AddVersion(r, candidate, texts.value);
      return Some(candidate);
    }

    method AddVersion(r: Request, document: DocumentId, texts: seq<string>)
      requires document !in documents && Chunks(r.content) == Some(texts)
      modifies this
      ensures exists latest: nat ::
                IsLatest(old(documents), r.owner, r.source, latest)
                    && Contents() == Added(old(Contents()), r, document, latest)
    {
      hide Chunks, Flagged, Retired, ChunkRows, Grants;
      var latest := LatestVersion(r.owner, r.source);
      documents := Retired(documents, r.owner, r.source);
      documents := documents[document :=
        Document(r.owner, r.source, r.title, latest + 1, Sha256(r.content), true, Flagged(r.content))];
      InsertChunks(document, texts);
      GrantReaders(document, r);
      assert Contents() == Added(old(Contents()), r, document, latest);
    }

    method LatestVersion(owner: Hmac, source: string) returns (latest: nat)
      ensures IsLatest(documents, owner, source, latest)
    {
      var g := Group(documents, owner, source);
      LatestExists(documents, owner, source, g);
      if g == {} { return 0; }
      var d :| d in g && forall x | x in g :: documents[x].version <= documents[d].version;
      latest := documents[d].version;
    }

    method InsertChunks(d: DocumentId, texts: seq<string>)
      modifies this`chunks
      ensures chunks == old(chunks) + ChunkRows(d, texts)
    {
      hide Flagged;
      for i := 0 to |texts|
        invariant chunks == old(chunks) + ChunkRows(d, texts[..i])
      {
        assert ChunkRows(d, texts[..i + 1])
            == ChunkRows(d, texts[..i])[ChunkId(d, i) := Chunk(texts[i], Flagged(texts[i]))];
        chunks := chunks[ChunkId(d, i) := Chunk(texts[i], Flagged(texts[i]))];
      }
      assert texts[..|texts|] == texts;
    }

    method GrantReaders(d: DocumentId, r: Request)
      modifies this`permissions
      ensures permissions == old(permissions) + Grants(d, r)
    {
      var left := r.readers + {r.owner};
      while left != {}
        invariant left <= r.readers + {r.owner}
        invariant permissions == old(permissions) + set p | p in r.readers + {r.owner} - left :: Permission(d, p)
        decreases |left|
      {
        var p :| p in left;
        permissions := permissions + {Permission(d, p)};
        left := left - {p};
      }
    }
  }

  lemma {:induction false} LatestExists(documents: map<DocumentId, Document>, owner: Hmac, source: string,
                                        g: set<DocumentId>)
    requires g <= Group(documents, owner, source)
    ensures g != {} ==> exists d :: d in g && forall x | x in g :: documents[x].version <= documents[d].version
    decreases |g|
  {
    if g != {} {
      var a :| a in g;
      LatestExists(documents, owner, source, g - {a});
      if g == {a} {
        assert a in g && forall x | x in g :: documents[x].version <= documents[a].version;
      } else {
        var b :| b in g - {a} && forall x | x in g - {a} :: documents[x].version <= documents[b].version;
        var d := if documents[a].version < documents[b].version then b else a;
        assert d in g && forall x | x in g :: documents[x].version <= documents[d].version;
      }
    }
  }
}

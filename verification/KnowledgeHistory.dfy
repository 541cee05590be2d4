/** What every sequence of ingestions leaves in the knowledge store. */
module KnowledgeHistory {
  import opened Common
  import opened Chunker
  import opened Injection
  import opened Knowledge

  const EmptyStore := Store(map[], map[], {})

  /** An ingestion: the request and the identifier it was given. */
  datatype Ingestion = Ingestion(request: Request, document: DocumentId)

  /** The stores after each ingestion, starting from the empty one. */
  ghost predicate History(stores: seq<Store>, ingestions: seq<Ingestion>) {
    && |stores| == |ingestions| + 1 && stores[0] == EmptyStore
    && forall i | 0 <= i < |ingestions| ::
         Ingested(stores[i], ingestions[i].request, ingestions[i].document, stores[i + 1])
  }

  /** The contents accepted for a source, each where it was first accepted. */
  function Novelties(ingestions: seq<Ingestion>, owner: Hmac, source: string): seq<string> {
    if ingestions == [] then []
    else
      var earlier, r := Novelties(ingestions[..|ingestions| - 1], owner, source), ingestions[|ingestions| - 1].request;
      if r.owner == owner && r.source == source && Chunks(r.content).Some? && r.content !in earlier
      then earlier + [r.content] else earlier
  }

  predicate HasVersion(documents: map<DocumentId, Document>, owner: Hmac, source: string, v: int) {
    exists d :: d in Group(documents, owner, source) && documents[d].version == v
  }

  /** The documents of a source are the listed contents: version v is the v-th, and the last is active. */
  ghost predicate Lists(documents: map<DocumentId, Document>, owner: Hmac, source: string, contents: seq<string>) {
    var g := Group(documents, owner, source);
    && (forall d | d in g ::
          && 1 <= documents[d].version <= |contents|
          && documents[d].content == Sha256(contents[documents[d].version - 1])
          && (documents[d].active <==> documents[d].version == |contents|))
    && (forall v | 1 <= v <= |contents| :: HasVersion(documents, owner, source, v))
    && (forall d, e | d in g && e in g && documents[d].version == documents[e].version :: d == e)
    && (forall i, j | 0 <= i < j < |contents| :: contents[i] != contents[j])
  }

  lemma LatestIsCount(documents: map<DocumentId, Document>, owner: Hmac, source: string, contents: seq<string>,
                      latest: nat)
    requires Lists(documents, owner, source, contents) && IsLatest(documents, owner, source, latest)
    ensures latest == |contents|
  {
    if contents != [] { assert HasVersion(documents, owner, source, |contents|); }
  }

  lemma StoredMeansListed(documents: map<DocumentId, Document>, r: Request, contents: seq<string>)
    requires Lists(documents, r.owner, r.source, contents)
    ensures Stored(documents, r) <==> r.content in contents
  {
    if Stored(documents, r) {
      var d :| d in documents && Holds(documents, d, r);
      assert d in Group(documents, r.owner, r.source);
    }
    if r.content in contents {
      var i :| 0 <= i < |contents| && contents[i] == r.content;
      assert HasVersion(documents, r.owner, r.source, i + 1);
      var d :| d in Group(documents, r.owner, r.source) && documents[d].version == i + 1;
      assert Holds(documents, d, r);
    }
  }

  /** Adding the next version extends its own list and leaves every other list alone. */
  lemma AddedLists(s: Store, r: Request, d: DocumentId, latest: nat, owner: Hmac, source: string, contents: seq<string>)
    requires Chunks(r.content).Some? && d !in s.documents && !Stored(s.documents, r)
    requires IsLatest(s.documents, r.owner, r.source, latest)
    requires Lists(s.documents, owner, source, contents)
    ensures Lists(Added(s, r, d, latest).documents, owner, source,
                  if r.owner == owner && r.source == source then contents + [r.content] else contents)
  {
    hide Chunks, IsLatest, ChunkRows, Lists;
    var before, after := s.documents, Added(s, r, d, latest).documents;
    if r.owner == owner && r.source == source {
      LatestIsCount(before, owner, source, contents, latest);
      StoredMeansListed(before, r, contents);
      assert Group(after, owner, source) == Group(before, owner, source) + {d};
      ListGrows(before, after, owner, source, contents, d, r.content);
    } else {
      assert Group(after, owner, source) == Group(before, owner, source);
      ListStays(before, after, owner, source, contents);
    }
  }

  lemma ListStays(before: map<DocumentId, Document>, after: map<DocumentId, Document>, owner: Hmac, source: string,
                  contents: seq<string>)
    requires Lists(before, owner, source, contents) && Group(after, owner, source) == Group(before, owner, source)
    requires forall x | x in Group(before, owner, source) :: after[x] == before[x]
    ensures Lists(after, owner, source, contents)
  {
    forall v | HasVersion(before, owner, source, v) ensures HasVersion(after, owner, source, v) {
      var x :| x in Group(before, owner, source) && before[x].version == v;
      assert x in Group(after, owner, source) && after[x].version == v;
    }
  }

  lemma ListGrows(before: map<DocumentId, Document>, after: map<DocumentId, Document>, owner: Hmac, source: string,
                  contents: seq<string>, d: DocumentId, content: string)
    requires Lists(before, owner, source, contents) && content !in contents
    requires d !in before && Group(after, owner, source) == Group(before, owner, source) + {d}
    requires forall x | x in Group(before, owner, source) :: after[x] == before[x].(active := false)
    requires after[d].version == |contents| + 1 && after[d].content == Sha256(content) && after[d].active
    ensures Lists(after, owner, source, contents + [content])
  {
    assert d in Group(after, owner, source) && HasVersion(after, owner, source, |contents| + 1);
    forall v | HasVersion(before, owner, source, v) ensures HasVersion(after, owner, source, v) {
      var x :| x in Group(before, owner, source) && before[x].version == v;
      assert x in Group(after, owner, source) && after[x].version == v;
    }
  }

  /** Version v of a source is its v-th distinct content, and exactly the last one is active. */
  lemma {:induction false} VersionsAreNovelties(stores: seq<Store>, ingestions: seq<Ingestion>, owner: Hmac,
                                                source: string)
    requires History(stores, ingestions)
    ensures Lists(stores[|ingestions|].documents, owner, source, Novelties(ingestions, owner, source))
    decreases |ingestions|
  {
    hide Chunks, Lists, IsLatest, Added;
    if ingestions == [] {
      EmptyLists(owner, source);
    } else {
      var n := |ingestions| - 1;
      HistoryPrefix(stores, ingestions);
      VersionsAreNovelties(stores[..n + 1], ingestions[..n], owner, source);
      VersionsAreNovelties(stores[..n + 1], ingestions[..n], ingestions[n].request.owner, ingestions[n].request.source);
      var s, s', r := stores[n], stores[n + 1], ingestions[n].request;
      assert stores[..n + 1][n] == s;
      StoredMeansListed(s.documents, r, Novelties(ingestions[..n], r.owner, r.source));
      if Chunks(r.content).Some? && !Stored(s.documents, r) {
        var latest: nat :| IsLatest(s.documents, r.owner, r.source, latest)
            && s' == Added(s, r, ingestions[n].document, latest);
        AddedLists(s, r, ingestions[n].document, latest, owner, source, Novelties(ingestions[..n], owner, source));
      }
    }
  }

  lemma EmptyLists(owner: Hmac, source: string)
    ensures Lists(map[], owner, source, [])
  {}

  lemma HistoryPrefix(stores: seq<Store>, ingestions: seq<Ingestion>)
    requires History(stores, ingestions) && ingestions != []
    ensures History(stores[..|stores| - 1], ingestions[..|ingestions| - 1])
  {
    hide Ingested;
    var shorter := stores[..|stores| - 1];
    assert forall i | 0 <= i < |shorter| :: shorter[i] == stores[i];
  }

  lemma ListHasOneActive(documents: map<DocumentId, Document>, owner: Hmac, source: string, contents: seq<string>)
    requires Lists(documents, owner, source, contents)
    ensures contents == [] <==> Group(documents, owner, source) == {}
    ensures contents != [] ==>
              exists d :: && d in Group(documents, owner, source) && documents[d].active
                          && documents[d].version == |contents|
                          && documents[d].content == Sha256(contents[|contents| - 1])
                          && forall e | e in Group(documents, owner, source) && documents[e].active :: e == d
  {
    if contents != [] {
      assert HasVersion(documents, owner, source, |contents|);
      var d :| d in Group(documents, owner, source) && documents[d].version == |contents|;
      assert forall e | e in Group(documents, owner, source) && documents[e].active :: e == d;
    } else {
      assert forall d :: d !in Group(documents, owner, source);
    }
  }

  /** As many versions as there are distinct contents, one of them active. */
  lemma OneActiveVersion(stores: seq<Store>, ingestions: seq<Ingestion>, owner: Hmac, source: string)
    requires History(stores, ingestions)
    ensures var documents, contents := stores[|ingestions|].documents, Novelties(ingestions, owner, source);
            && (contents == [] <==> Group(documents, owner, source) == {})
            && (contents != [] ==>
                  exists d :: && d in Group(documents, owner, source) && documents[d].active
                              && documents[d].version == |contents|
                              && documents[d].content == Sha256(contents[|contents| - 1])
                              && forall e | e in Group(documents, owner, source) && documents[e].active :: e == d)
  {
    hide Novelties, Lists, Ingested;
    VersionsAreNovelties(stores, ingestions, owner, source);
    ListHasOneActive(stores[|ingestions|].documents, owner, source, Novelties(ingestions, owner, source));
  }

  /**
   * Ingesting a content makes it the active one if and only if it is new to its source or was already
   * the active one: old content is not reactivated.
   */
  lemma IngestionActivatesOnlyNovelty(stores: seq<Store>, ingestions: seq<Ingestion>)
    requires History(stores, ingestions) && ingestions != []
    requires Chunks(ingestions[|ingestions| - 1].request.content).Some?
    ensures var n := |ingestions| - 1;
            var r := ingestions[n].request;
            var before, after := stores[n].documents, stores[n + 1].documents;
            (exists d :: Holds(after, d, r) && after[d].active) <==>
            (!Stored(before, r) || exists d :: Holds(before, d, r) && before[d].active)
  {
    hide Chunks, Lists;
    var n := |ingestions| - 1;
    var r := ingestions[n].request;
    if Stored(stores[n].documents, r) {
      assert stores[n + 1].documents == stores[n].documents;
    } else {
      var latest: nat :| IsLatest(stores[n].documents, r.owner, r.source, latest)
                         && stores[n + 1] == Added(stores[n], r, ingestions[n].document, latest);
      var d := ingestions[n].document;
      assert Holds(stores[n + 1].documents, d, r) && stores[n + 1].documents[d].active;
    }
  }

  // ---- Where a document comes from ----

  /** The ingestion created this document: it was not there before, and says what was asked. */
  ghost predicate Created(before: Store, i: Ingestion, d: DocumentId, document: Document) {
    var r := i.request;
    && i.document == d && d !in before.documents && Chunks(r.content).Some?
    && document.owner == r.owner && document.source == r.source && document.title == r.title
    && document.content.preimage == r.content && (document.flagged <==> Flagged(r.content))
  }

  /** What a later ingestion can change of a document is whether it is active. */
  lemma DocumentsStay(s: Store, r: Request, document: DocumentId, s': Store, d: DocumentId)
    requires Ingested(s, r, document, s') && d in s'.documents
    ensures d in s.documents ==> s'.documents[d] == s.documents[d].(active := s'.documents[d].active)
    ensures d !in s.documents ==> Created(s, Ingestion(r, document), d, s'.documents[d])
  {
    hide Chunks, Flagged, IsLatest, ChunkRows, Holds;
  }

  /** Every document was created by one of the ingestions, and still says what that one asked. */
  lemma {:induction false} DocumentsRemember(stores: seq<Store>, ingestions: seq<Ingestion>, d: DocumentId)
    returns (i: nat)
    requires History(stores, ingestions) && d in stores[|ingestions|].documents
    ensures i < |ingestions| && Created(stores[i], ingestions[i], d, stores[|ingestions|].documents[d])
    decreases |ingestions|
  {
    hide Ingested, Created;
    var n := |ingestions| - 1;
    assert ingestions != [];
    DocumentsStay(stores[n], ingestions[n].request, ingestions[n].document, stores[n + 1], d);
    if d in stores[n].documents {
      HistoryPrefix(stores, ingestions);
      assert stores[..n + 1][n] == stores[n];
      i := DocumentsRemember(stores[..n + 1], ingestions[..n], d);
      SameCreation(stores[i], ingestions[i], d, stores[n].documents[d], stores[n + 1].documents[d].active);
    } else {
      i := n;
    }
  }

  lemma SameCreation(before: Store, i: Ingestion, d: DocumentId, document: Document, active: bool)
    requires Created(before, i, d, document)
    ensures Created(before, i, d, document.(active := active))
  {
    hide Chunks, Flagged;
  }

  // ---- Chunks ----

  /** The stored chunks of a document are exactly those of its content, flagged as its content is. */
  ghost predicate Complete(s: Store, d: DocumentId)
    requires d in s.documents
  {
    var content := s.documents[d].content.preimage;
    && Chunks(content).Some?
    && (s.documents[d].flagged <==> Flagged(content))
    && (forall i: nat :: ChunkId(d, i) in s.chunks <==> i < |Chunks(content).value|)
    && (forall i: nat | i < |Chunks(content).value| ::
          s.chunks[ChunkId(d, i)] == Chunk(Chunks(content).value[i], Flagged(Chunks(content).value[i])))
  }

  ghost predicate AllComplete(s: Store) {
    && (forall d | d in s.documents :: Complete(s, d))
    && (forall k | k in s.chunks :: k.document in s.documents)
  }

  lemma ChunkRowsExact(d: DocumentId, texts: seq<string>)
    ensures forall k :: k in ChunkRows(d, texts) <==> k.document == d && k.index < |texts|
    ensures forall i: nat | i < |texts| :: ChunkRows(d, texts)[ChunkId(d, i)] == Chunk(texts[i], Flagged(texts[i]))
  {
    hide Flagged;
  }

  lemma IngestionKeepsComplete(s: Store, r: Request, d: DocumentId, s': Store)
    requires AllComplete(s) && Ingested(s, r, d, s')
    ensures AllComplete(s')
  {
    hide Chunks, Complete, IsLatest, Added, Stored;
    if Chunks(r.content).Some? && !Stored(s.documents, r) {
      var latest: nat :| IsLatest(s.documents, r.owner, r.source, latest) && s' == Added(s, r, d, latest);
      AddingKeepsComplete(s, r, d, latest);
    } else {
      forall x | x in s'.documents ensures Complete(s', x) { CompleteAgrees(s, s', x); }
    }
  }

  /** Completeness of a document depends on its content and its own chunks. */
  lemma CompleteAgrees(s: Store, s': Store, d: DocumentId)
    requires d in s.documents && d in s'.documents && Complete(s, d)
    requires s'.documents[d].content == s.documents[d].content && s'.documents[d].flagged == s.documents[d].flagged
    requires forall i: nat :: (ChunkId(d, i) in s'.chunks <==> ChunkId(d, i) in s.chunks)
                              && (ChunkId(d, i) in s.chunks ==> s'.chunks[ChunkId(d, i)] == s.chunks[ChunkId(d, i)])
    ensures Complete(s', d)
  {
    hide Chunks, Flagged;
  }

  lemma AddingKeepsComplete(s: Store, r: Request, d: DocumentId, latest: nat)
    requires AllComplete(s) && Chunks(r.content).Some? && d !in s.documents
    ensures AllComplete(Added(s, r, d, latest))
  {
    hide Chunks, Flagged, ChunkRows, Complete;
    var s' := Added(s, r, d, latest);
    ChunkRowsExact(d, Chunks(r.content).value);
    NewIsComplete(s, r, d, latest);
    forall x | x in s'.documents && x != d ensures Complete(s', x) { CompleteAgrees(s, s', x); }
  }

  lemma NewIsComplete(s: Store, r: Request, d: DocumentId, latest: nat)
    requires AllComplete(s) && Chunks(r.content).Some? && d !in s.documents
    ensures Complete(Added(s, r, d, latest), d)
  {
    hide Chunks, Flagged, ChunkRows;
    ChunkRowsExact(d, Chunks(r.content).value);
  }

  lemma {:induction false} ChunksAreComplete(stores: seq<Store>, ingestions: seq<Ingestion>)
    requires History(stores, ingestions)
    ensures AllComplete(stores[|ingestions|])
    decreases |ingestions|
  {
    hide AllComplete, Ingested;
    if ingestions == [] {
      EmptyComplete();
    } else {
      var n := |ingestions| - 1;
      HistoryPrefix(stores, ingestions);
      ChunksAreComplete(stores[..n + 1], ingestions[..n]);
      assert stores[..n + 1][n] == stores[n];
      IngestionKeepsComplete(stores[n], ingestions[n].request, ingestions[n].document, stores[n + 1]);
    }
  }

  lemma EmptyComplete()
    ensures AllComplete(EmptyStore)
  {}

  /** A flagged document in the store has a flagged chunk in the store. */
  lemma FlaggedDocumentShows(stores: seq<Store>, ingestions: seq<Ingestion>, d: DocumentId)
    requires History(stores, ingestions)
    requires d in stores[|ingestions|].documents && stores[|ingestions|].documents[d].flagged
    ensures exists k :: k in stores[|ingestions|].chunks && k.document == d && stores[|ingestions|].chunks[k].flagged
  {
    hide Chunks, Flagged;
    var s := stores[|ingestions|];
    ChunksAreComplete(stores, ingestions);
    assert Complete(s, d);
    var content := s.documents[d].content.preimage;
    FlaggedDocumentHasFlaggedChunk(content);
    var i :| 0 <= i < |Chunks(content).value| && Flagged(Chunks(content).value[i]);
    assert s.chunks[ChunkId(d, i)].flagged;
  }

  // ---- Permissions ----

  /** Some accepted ingestion of this very content let the principal read it. */
  predicate Granted(documents: map<DocumentId, Document>, ingestions: seq<Ingestion>, d: DocumentId, p: Hmac) {
    exists i :: && 0 <= i < |ingestions| && Chunks(ingestions[i].request.content).Some?
                && Holds(documents, d, ingestions[i].request)
                && p in ingestions[i].request.readers + {ingestions[i].request.owner}
  }

  /** No two documents share owner, source and content. */
  predicate ContentsUnique(documents: map<DocumentId, Document>) {
    forall d, e | d in documents && e in documents && documents[d].owner == documents[e].owner
                  && documents[d].source == documents[e].source
                  && documents[d].content == documents[e].content :: d == e
  }

  lemma ContentsStayUnique(stores: seq<Store>, ingestions: seq<Ingestion>)
    requires History(stores, ingestions)
    ensures ContentsUnique(stores[|ingestions|].documents)
  {
    var documents := stores[|ingestions|].documents;
    forall d, e | d in documents && e in documents && documents[d].owner == documents[e].owner
                  && documents[d].source == documents[e].source && documents[d].content == documents[e].content
      ensures d == e
    {
      VersionsAreNovelties(stores, ingestions, documents[d].owner, documents[d].source);
      assert d in Group(documents, documents[d].owner, documents[d].source);
      assert e in Group(documents, documents[d].owner, documents[d].source);
    }
  }

  lemma NoveltyListed(ingestions: seq<Ingestion>, i: nat)
    requires i < |ingestions| && Chunks(ingestions[i].request.content).Some?
    ensures var r := ingestions[i].request; r.content in Novelties(ingestions, r.owner, r.source)
    decreases |ingestions|
  {
    hide Chunks;
    if i < |ingestions| - 1 { NoveltyListed(ingestions[..|ingestions| - 1], i); }
  }

  /** Whatever was accepted earlier is stored. */
  lemma EarlierContentsStored(stores: seq<Store>, ingestions: seq<Ingestion>, i: nat)
    requires History(stores, ingestions) && i < |ingestions| && Chunks(ingestions[i].request.content).Some?
    ensures Stored(stores[|ingestions|].documents, ingestions[i].request)
  {
    hide Chunks, Lists, Stored, Ingested, Novelties;
    var r := ingestions[i].request;
    VersionsAreNovelties(stores, ingestions, r.owner, r.source);
    NoveltyListed(ingestions, i);
    StoredMeansListed(stores[|ingestions|].documents, r, Novelties(ingestions, r.owner, r.source));
  }

  lemma GrantedStep(documents: map<DocumentId, Document>, ingestions: seq<Ingestion>, d: DocumentId, p: Hmac)
    requires ingestions != []
    ensures var last := ingestions[|ingestions| - 1].request;
            Granted(documents, ingestions, d, p) <==>
            || Granted(documents, ingestions[..|ingestions| - 1], d, p)
            || (Chunks(last.content).Some? && Holds(documents, d, last) && p in last.readers + {last.owner})
  {
    hide Chunks, Holds;
    var init := ingestions[..|ingestions| - 1];
    if Granted(documents, init, d, p) {
      var i :| 0 <= i < |init| && Chunks(init[i].request.content).Some? && Holds(documents, d, init[i].request)
               && p in init[i].request.readers + {init[i].request.owner};
      assert ingestions[i] == init[i];
    }
    if Granted(documents, ingestions, d, p) {
      var i :| 0 <= i < |ingestions| && Chunks(ingestions[i].request.content).Some?
          && Holds(documents, d, ingestions[i].request)
               && p in ingestions[i].request.readers + {ingestions[i].request.owner};
      if i < |init| { assert ingestions[i] == init[i]; }
    }
  }

  /** One ingestion adds exactly its own grants, to a document that holds its content. */
  lemma LastGrant(s: Store, r: Request, document: DocumentId, s': Store, d: DocumentId, p: Hmac)
    requires Ingested(s, r, document, s')
    ensures Permission(d, p) in s'.permissions <==>
              Permission(d, p) in s.permissions
                  || (Chunks(r.content).Some? && d == document && p in r.readers + {r.owner})
    ensures Chunks(r.content).Some? ==> document in s'.documents && Holds(s'.documents, document, r)
    ensures forall x | x in s.documents ::
              x in s'.documents && forall q :: Holds(s'.documents, x, q) <==> Holds(s.documents, x, q)
    ensures forall x | x in s'.documents && x !in s.documents ::
              x == document && !Stored(s.documents, r) && Chunks(r.content).Some?
  {
    hide Chunks, IsLatest, ChunkRows;
  }

  lemma GrantedAgrees(before: map<DocumentId, Document>, after: map<DocumentId, Document>,
                      ingestions: seq<Ingestion>, d: DocumentId, p: Hmac)
    requires forall q :: Holds(after, d, q) <==> Holds(before, d, q)
    ensures Granted(after, ingestions, d, p) <==> Granted(before, ingestions, d, p)
  {
    hide Chunks, Holds;
  }

  /** Nobody was granted a document by ingestions before the one that created it. */
  lemma NoEarlierGrant(stores: seq<Store>, ingestions: seq<Ingestion>, documents: map<DocumentId, Document>,
                       d: DocumentId, p: Hmac, r: Request)
    requires History(stores, ingestions) && !Stored(stores[|ingestions|].documents, r) && Holds(documents, d, r)
    ensures !Granted(documents, ingestions, d, p)
  {
    hide Chunks, Ingested;
    if Granted(documents, ingestions, d, p) {
      var i :| 0 <= i < |ingestions| && Chunks(ingestions[i].request.content).Some?
          && Holds(documents, d, ingestions[i].request)
               && p in ingestions[i].request.readers + {ingestions[i].request.owner};
      EarlierContentsStored(stores, ingestions, i);
    }
  }

  /** A principal may read a document exactly if some ingestion of it said so: permissions only accumulate. */
  lemma {:induction false} PermissionsAreGrants(stores: seq<Store>, ingestions: seq<Ingestion>, d: DocumentId, p: Hmac)
    requires History(stores, ingestions)
    ensures Permission(d, p) in stores[|ingestions|].permissions <==>
              d in stores[|ingestions|].documents && Granted(stores[|ingestions|].documents, ingestions, d, p)
    decreases |ingestions|
  {
    hide Chunks, Granted, Stored, Holds;
    if ingestions != [] {
      var n := |ingestions| - 1;
      var s, s', r, document := stores[n], stores[n + 1], ingestions[n].request, ingestions[n].document;
      HistoryPrefix(stores, ingestions);
      assert stores[..n + 1][n] == s;
      PermissionsAreGrants(stores[..n + 1], ingestions[..n], d, p);
      GrantedStep(s'.documents, ingestions, d, p);
      LastGrant(s, r, document, s', d, p);
      if Chunks(r.content).Some? && Holds(s'.documents, d, r) {
        ContentsStayUnique(stores, ingestions);
        HoldersAgree(s'.documents, d, document, r);
      }
      if d in s.documents {
        GrantedAgrees(s.documents, s'.documents, ingestions[..n], d, p);
      } else if d in s'.documents {
        NoEarlierGrant(stores[..n + 1], ingestions[..n], s'.documents, d, p, r);
      }
    }
  }

  lemma HoldersAgree(documents: map<DocumentId, Document>, d: DocumentId, e: DocumentId, r: Request)
    requires ContentsUnique(documents) && Holds(documents, d, r) && Holds(documents, e, r)
    ensures d == e
  {}

  /**
   * The contract document says that ingesting replaces a document's permissions. It does so if and only
   * if everyone who could read it before is among the readers of the request; otherwise it adds to them.
   */
  lemma PermissionsReplacedIff(s: Store, r: Request, d: DocumentId, s': Store)
    requires Ingested(s, r, d, s') && Chunks(r.content).Some?
    ensures (forall p :: Permission(d, p) in s'.permissions <==> p in r.readers + {r.owner})
            <==> (forall p :: Permission(d, p) in s.permissions ==> p in r.readers + {r.owner})
  {
    hide Chunks, IsLatest, ChunkRows, Stored, Holds;
    forall p
      ensures Permission(d, p) in s'.permissions <==> Permission(d, p) in s.permissions || p in r.readers + {r.owner}
    {
      LastGrant(s, r, d, s', d, p);
    }
  }

  /** A reader who is left out the second time still reads. */
  lemma LeftOutReaderStays(owner: Hmac, reader: Hmac) returns (stores: seq<Store>, ingestions: seq<Ingestion>)
    requires reader != owner
    ensures History(stores, ingestions) && |ingestions| == 2
    ensures ingestions[0].document == ingestions[1].document && reader !in ingestions[1].request.readers
    ensures Permission(ingestions[1].document, reader) in stores[2].permissions
  {
    hide Chunks, Flagged, Retired, ChunkRows;
    assert Chunks("a").Some? by { OneLetterIsChunked(); }
    var first, second := Request(owner, {reader}, "source", "title", "a"), Request(owner, {}, "source", "title", "a");
    var s1 := Added(EmptyStore, first, 0, 0);
    assert IsLatest(EmptyStore.documents, owner, "source", 0);
    assert Ingested(EmptyStore, first, 0, s1);
    assert Holds(s1.documents, 0, second) && Stored(s1.documents, second);
    var s2 := s1.(permissions := s1.permissions + Grants(0, second));
    assert Ingested(s1, second, 0, s2);
    stores, ingestions := [EmptyStore, s1, s2], [Ingestion(first, 0), Ingestion(second, 0)];
    assert Permission(0, reader) in Grants(0, first);
  }

  /** Ingesting a, then b, then a again: the third ingestion reuses the first document, and b stays the active one. */
  lemma OldContentStaysInactive(owner: Hmac) returns (stores: seq<Store>, ingestions: seq<Ingestion>)
    ensures History(stores, ingestions) && |ingestions| == 3
    ensures ingestions[2].request == ingestions[0].request && ingestions[2].document == ingestions[0].document
    ensures var r := ingestions[2].request;
            && Holds(stores[3].documents, ingestions[2].document, r)
            && !(exists d :: Holds(stores[3].documents, d, r) && stores[3].documents[d].active)
            && ingestions[1].request.source == r.source && ingestions[1].request.content != r.content
            && Holds(stores[3].documents, ingestions[1].document, ingestions[1].request)
            && stores[3].documents[ingestions[1].document].active
  {
    hide Chunks, Flagged, ChunkRows;
    OneLetterIsChunked();
    var a, b := Request(owner, {}, "source", "title", "a"), Request(owner, {}, "source", "title", "b");
    var s1 := Added(EmptyStore, a, 0, 0);
    assert IsLatest(EmptyStore.documents, owner, "source", 0);
    assert 0 in Group(s1.documents, owner, "source");
    assert IsLatest(s1.documents, owner, "source", 1);
    var s2 := Added(s1, b, 1, 1);
    assert a.content[0] != b.content[0];
    assert Ingested(EmptyStore, a, 0, s1) && Ingested(s1, b, 1, s2);
    assert Holds(s2.documents, 0, a) && Stored(s2.documents, a);
    var s3 := s2.(permissions := s2.permissions + Grants(0, a));
    assert Ingested(s2, a, 0, s3);
    stores, ingestions := [EmptyStore, s1, s2, s3], [Ingestion(a, 0), Ingestion(b, 1), Ingestion(a, 0)];
  }

  lemma OneLetterIsChunked()
    ensures Chunks("a").Some? && Chunks("b").Some?
  {
    assert Normalize("a") == "a" && Normalize("b") == "b";
  }
}

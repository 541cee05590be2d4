/** Reciprocal rank fusion of a lexical and a semantic ranking. */
module RankFusion {
  import opened Common
  import opened Counting
  import opened Sorting
  import opened Text

  /** Chunk identifiers, numbered in the order of their text form. */
  type Uuid = nat

  datatype Passage = Passage(document: nat, source: string, title: string, index: nat, content: string)

  /** A row of either search: the chunk and its lexical score, or its semantic similarity. */
  datatype RankedRow = RankedRow(id: Uuid, passage: Passage, value: real)

  datatype Mode = Lexical | Semantic | Hybrid

  /** One value of the dictionary that collects both rankings. */
  datatype Entry = Entry(
    passage: Passage, lexicalRank: Option<nat>, lexicalScore: Option<real>,
    semanticRank: Option<nat>, semanticSimilarity: Option<real>)

  datatype Hit = Hit(id: Uuid, score: real, entry: Entry)

  const CANDIDATES: nat := 20

  // ---- Specification ----

  /** One-based position of `id`, or zero. */
  function Place(ids: seq<Uuid>, id: Uuid): (p: nat)
    ensures p <= |ids| && (p > 0 ==> ids[p - 1] == id)
    ensures p > 0 <==> id in ids
  {
    if ids == [] then 0
    else if ids[|ids| - 1] == id then |ids|
    else Place(ids[..|ids| - 1], id)
  }

  function RowIds(rows: seq<RankedRow>): (ids: seq<Uuid>)
    ensures |ids| == |rows| && forall i | 0 <= i < |rows| :: ids[i] == rows[i].id
  {
    seq(|rows|, i requires 0 <= i < |rows| => rows[i].id)
  }

  /** A query returns a chunk at most once. */
  predicate Rankings(lexical: seq<RankedRow>, semantic: seq<RankedRow>) {
    Distinct(RowIds(lexical)) && Distinct(RowIds(semantic))
  }

  function Union(lexical: seq<RankedRow>, semantic: seq<RankedRow>): set<Uuid> {
    Members(RowIds(lexical)) + Members(RowIds(semantic))
  }

  function EntryOf(lexical: seq<RankedRow>, semantic: seq<RankedRow>, id: Uuid): Entry
    requires id in Union(lexical, semantic)
  {
    var p, q := Place(RowIds(lexical), id), Place(RowIds(semantic), id);
    Entry(if p > 0 then lexical[p - 1].passage else semantic[q - 1].passage,
          if p > 0 then Some(p) else None, if p > 0 then Some(lexical[p - 1].value) else None,
          if q > 0 then Some(q) else None, if q > 0 then Some(semantic[q - 1].value) else None)
  }

  function Share(rank: Option<nat>): real {
    if rank.Some? && rank.value > 0 then 0.5 / (60 + rank.value) as real else 0.0
  }

  function Scored(id: Uuid, entry: Entry): Hit {
    Hit(id, Share(entry.lexicalRank) + Share(entry.semanticRank), entry)
  }

  function HitOf(lexical: seq<RankedRow>, semantic: seq<RankedRow>, id: Uuid): Hit
    requires id in Union(lexical, semantic)
  {
    Scored(id, EntryOf(lexical, semantic, id))
  }

  /** Higher score first, then by identifier. */
  predicate Before(a: Hit, b: Hit) { a.score > b.score || (a.score == b.score && a.id < b.id) }

  function HitIds(hits: seq<Hit>): (ids: seq<Uuid>)
    ensures |ids| == |hits| && forall i | 0 <= i < |hits| :: ids[i] == hits[i].id
  {
    seq(|hits|, i requires 0 <= i < |hits| => hits[i].id)
  }

  predicate IdsDiffer(hits: seq<Hit>) { forall i, j | 0 <= i < j < |hits| :: hits[i].id != hits[j].id }

  predicate Chosen(hits: seq<Hit>, id: Uuid) { exists i :: 0 <= i < |hits| && hits[i].id == id }

  /** The first `limit` chunks of the union in order of score, each with what both rankings say of it. */
  predicate IsTop(lexical: seq<RankedRow>, semantic: seq<RankedRow>, limit: nat, hits: seq<Hit>) {
    var all := Union(lexical, semantic);
    && |hits| == (if limit < |all| then limit else |all|)
    && Ascending(Before, hits)
    && (forall i | 0 <= i < |hits| :: hits[i].id in all && hits[i] == HitOf(lexical, semantic, hits[i].id))
    && (forall id | id in all && !Chosen(hits, id) ::
          forall i | 0 <= i < |hits| :: Before(hits[i], HitOf(lexical, semantic, id)))
  }

  function Limited<T>(rows: seq<T>, limit: int): seq<T> {
    var n := if limit > CANDIDATES then limit else CANDIDATES;
    if n < |rows| then rows[..n] else rows
  }

  function LexicalCandidates(mode: Mode, terms: string, matches: seq<RankedRow>, limit: int): seq<RankedRow> {
    if !mode.Semantic? && terms != [] then Limited(matches, limit) else []
  }

  function SemanticCandidates(mode: Mode, matches: seq<RankedRow>, limit: int): seq<RankedRow> {
    if !mode.Lexical? then Limited(matches, limit) else []
  }

  // ---- The merge ----

  /** The dictionary after some rows of each ranking. */
  ghost predicate Merged(combined: map<Uuid, Entry>, order: seq<Uuid>, lexical: seq<RankedRow>,
                         semantic: seq<RankedRow>) {
    && combined.Keys == Union(lexical, semantic) == Members(order) && Distinct(order)
    && forall id | id in combined :: combined[id] == EntryOf(lexical, semantic, id)
  }

  /** Dictionary of both rankings, filled row by row; `order` lists its keys as they were inserted. */
  method Combine(lexical: seq<RankedRow>, semantic: seq<RankedRow>) returns (combined: map<Uuid, Entry>,
                 order: seq<Uuid>)
    requires Rankings(lexical, semantic)
    ensures Merged(combined, order, lexical, semantic)
  {
    hide Merged, Distinct;
    combined, order := map[], [];
    NothingMerged();
    for i := 0 to |lexical|
      invariant Merged(combined, order, lexical[..i], [])
    {
      var row := lexical[i];
      LexicalMerge(combined, order, lexical, i);
      combined := combined[row.id := Entry(row.passage, Some(i + 1), Some(row.value), None, None)];
      order := order + [row.id];
    }
    assert lexical[..|lexical|] == lexical && semantic[..0] == [];
    for i := 0 to |semantic|
      invariant Merged(combined, order, lexical, semantic[..i])
    {
      var row := semantic[i];
      SemanticMerge(combined, order, lexical, semantic, i);
      ghost var before := combined;
      if row.id !in combined {
        combined := combined[row.id := Entry(row.passage, None, None, None, None)];
        order := order + [row.id];
      }
      combined := combined[row.id := combined[row.id].(semanticRank := Some(i + 1),
                                                       semanticSimilarity := Some(row.value))];
      assert combined == before[row.id := combined[row.id]];
    }
    assert semantic[..|semantic|] == semantic;
  }

  lemma NothingMerged()
    ensures Merged(map[], [], [], [])
    ensures forall lexical: seq<RankedRow> :: lexical[..0] == []
  {
    assert RowIds([]) == [];
  }

  lemma LexicalMerge(combined: map<Uuid, Entry>, order: seq<Uuid>, lexical: seq<RankedRow>, i: nat)
    requires i < |lexical| && Distinct(RowIds(lexical)) && Merged(combined, order, lexical[..i], [])
    ensures var row := lexical[i];
            Merged(combined[row.id := Entry(row.passage, Some(i + 1), Some(row.value), None, None)], order + [row.id],
                   lexical[..i + 1], [])
  {
    hide EntryOf, Union, Place;
    var id := lexical[i].id;
    LexicalStep(lexical, i);
    assert id !in Members(order) && Members(order + [id]) == Members(order) + {id};
    assert forall k | 0 <= k < |order| :: order[k] in Members(order);
  }

  lemma SemanticMerge(combined: map<Uuid, Entry>, order: seq<Uuid>, lexical: seq<RankedRow>,
                      semantic: seq<RankedRow>, i: nat)
    requires i < |semantic| && Rankings(lexical, semantic) && Merged(combined, order, lexical, semantic[..i])
    ensures var row := semantic[i];
            var start := if row.id in combined then combined[row.id] else Entry(row.passage, None, None, None, None);
            Merged(combined[row.id := start.(semanticRank := Some(i + 1), semanticSimilarity := Some(row.value))],
                   if row.id in combined then order else order + [row.id], lexical, semantic[..i + 1])
  {
    hide EntryOf, Union, Place;
    var id := semantic[i].id;
    SemanticStep(lexical, semantic, i);
    assert Members(order + [id]) == Members(order) + {id};
    assert forall k | 0 <= k < |order| :: order[k] in Members(order);
  }

  lemma PlaceStep(ids: seq<Uuid>, i: nat, id: Uuid)
    requires i < |ids|
    ensures Place(ids[..i + 1], id) == if id == ids[i] then i + 1 else Place(ids[..i], id)
  {
    assert ids[..i + 1][..i] == ids[..i];
  }

  lemma LexicalStep(lexical: seq<RankedRow>, i: nat)
    requires i < |lexical| && Distinct(RowIds(lexical))
    ensures Union(lexical[..i + 1], []) == Union(lexical[..i], []) + {lexical[i].id}
    ensures lexical[i].id !in Union(lexical[..i], [])
    ensures forall id | id in Union(lexical[..i], []) ::
        EntryOf(lexical[..i + 1], [], id) == EntryOf(lexical[..i], [], id)
    ensures EntryOf(lexical[..i + 1], [], lexical[i].id)
            == Entry(lexical[i].passage, Some(i + 1), Some(lexical[i].value), None, None)
  {
    hide Place;
    var ids := RowIds(lexical);
    assert RowIds(lexical[..i]) == ids[..i];
    assert RowIds(lexical[..i + 1]) == ids[..i + 1] == ids[..i] + [ids[i]];
    forall id ensures Place(ids[..i + 1], id) == if id == ids[i] then i + 1 else Place(ids[..i], id) {
      PlaceStep(ids, i, id);
    }
  }

  lemma SemanticStep(lexical: seq<RankedRow>, semantic: seq<RankedRow>, i: nat)
    requires i < |semantic| && Rankings(lexical, semantic)
    ensures Union(lexical, semantic[..i + 1]) == Union(lexical, semantic[..i]) + {semantic[i].id}
    ensures forall id | id in Union(lexical, semantic[..i]) && id != semantic[i].id ::
              EntryOf(lexical, semantic[..i + 1], id) == EntryOf(lexical, semantic[..i], id)
    ensures var row := semantic[i];
            EntryOf(lexical, semantic[..i + 1], row.id)
            == (if row.id in Union(lexical, semantic[..i]) then EntryOf(lexical, semantic[..i], row.id)
                else Entry(row.passage, None, None, None, None))
               .(semanticRank := Some(i + 1), semanticSimilarity := Some(row.value))
  {
    hide Place;
    var ids := RowIds(semantic);
    assert RowIds(semantic[..i]) == ids[..i];
    assert RowIds(semantic[..i + 1]) == ids[..i + 1] == ids[..i] + [ids[i]];
    forall id ensures Place(ids[..i + 1], id) == if id == ids[i] then i + 1 else Place(ids[..i], id) {
      PlaceStep(ids, i, id);
    }
  }

  /** Fails, as a `ValueError`, on a blank query or a limit out of range. */
  method RetrieveChunks(query: string, terms: string, mode: Mode, limit: int,
                        lexicalMatches: seq<RankedRow>, semanticMatches: seq<RankedRow>)
    returns (hits: Option<seq<Hit>>)
    requires Rankings(lexicalMatches, semanticMatches)
    ensures hits.None? <==> Strip(query) == [] || limit < 1 || limit > 20
    ensures hits.Some? ==> IsTop(LexicalCandidates(mode, terms, lexicalMatches, limit),
                                 SemanticCandidates(mode, semanticMatches, limit), limit, hits.value)
  {
    hide EntryOf, Place, Union, Share, IsTop, IsRanking, Ascending, Strip;
    if Strip(query) == [] || !(1 <= limit <= 20) { return None; }
    var lexical, semantic := LexicalCandidates(mode, terms, lexicalMatches, limit),
        SemanticCandidates(mode, semanticMatches, limit);
    CandidatesAreRankings(mode, terms, limit, lexicalMatches, semanticMatches);
    var combined, order := Combine(lexical, semantic);
    var all: seq<Hit> := [];
    for i := 0 to |order|
      invariant |all| == i && forall j | 0 <= j < i :: all[j] == Scored(order[j], combined[order[j]])
    {
      assert order[i] in Members(order);
      all := all + [Scored(order[i], combined[order[i]])];
    }
    SortedIsRanking(lexical, semantic, order, all);
    all := Sorted(Before, all);
    CutIsTop(lexical, semantic, limit, all);
    return Some(if limit < |all| then all[..limit] else all);
  }

  lemma CandidatesAreRankings(mode: Mode, terms: string, limit: int, lexicalMatches: seq<RankedRow>,
                              semanticMatches: seq<RankedRow>)
    requires Rankings(lexicalMatches, semanticMatches)
    ensures Rankings(LexicalCandidates(mode, terms, lexicalMatches, limit),
                     SemanticCandidates(mode, semanticMatches, limit))
  {}

  lemma BeforeIsStrict(hits: seq<Hit>)
    requires IdsDiffer(hits)
    ensures StrictOrder(Before) && Separates(Before, hits)
  {}

  /** All of the union, in order. */
  ghost predicate IsRanking(lexical: seq<RankedRow>, semantic: seq<RankedRow>, sorted: seq<Hit>) {
    var all := Union(lexical, semantic);
    && |sorted| == |all| && Ascending(Before, sorted)
    && (forall i | 0 <= i < |sorted| :: sorted[i].id in all && sorted[i] == HitOf(lexical, semantic, sorted[i].id))
    && (forall id | id in all :: Chosen(sorted, id))
  }

  lemma SortedIsRanking(lexical: seq<RankedRow>, semantic: seq<RankedRow>, order: seq<Uuid>, all: seq<Hit>)
    requires Distinct(order) && Members(order) == Union(lexical, semantic) && |all| == |order|
    requires forall j | 0 <= j < |order| :: order[j] in Members(order) && all[j] == HitOf(lexical, semantic, order[j])
    ensures IsRanking(lexical, semantic, Sorted(Before, all))
  {
    hide EntryOf, Union, Share, Sorted, IsRanking, Ascending;
    SortsHits(all);
    RankingByMembers(lexical, semantic, order, all, Sorted(Before, all));
  }

  lemma SortsHits(all: seq<Hit>)
    requires IdsDiffer(all)
    ensures var sorted := Sorted(Before, all);
            Ascending(Before, sorted) && |sorted| == |all| && forall h :: h in sorted <==> h in all
  {
    hide Sorted, Before;
    BeforeIsStrict(all);
    SortedAscends(Before, all);
    forall h ensures h in Sorted(Before, all) <==> h in all { SameMembers(Sorted(Before, all), all, h); }
  }

  lemma RankingByMembers(lexical: seq<RankedRow>, semantic: seq<RankedRow>, order: seq<Uuid>, all: seq<Hit>,
                         sorted: seq<Hit>)
    requires Distinct(order) && Members(order) == Union(lexical, semantic) && |all| == |order|
    requires forall j | 0 <= j < |order| :: order[j] in Members(order) && all[j] == HitOf(lexical, semantic, order[j])
    requires Ascending(Before, sorted) && |sorted| == |all| && forall h :: h in sorted <==> h in all
    ensures IsRanking(lexical, semantic, sorted)
  {
    hide EntryOf, Union, Share, Ascending;
    MembersSize(order);
    forall i | 0 <= i < |sorted|
      ensures sorted[i].id in Members(order) && sorted[i] == HitOf(lexical, semantic, sorted[i].id)
    {
      assert sorted[i] in all;
      var j :| 0 <= j < |all| && all[j] == sorted[i];
    }
    forall id | id in Members(order) ensures Chosen(sorted, id) {
      var j :| 0 <= j < |order| && order[j] == id;
      assert all[j] in sorted;
      var k :| 0 <= k < |sorted| && sorted[k] == all[j];
    }
  }

  /** Cutting the ranking leaves the top. */
  lemma CutIsTop(lexical: seq<RankedRow>, semantic: seq<RankedRow>, limit: nat, sorted: seq<Hit>)
    requires IsRanking(lexical, semantic, sorted)
    ensures IsTop(lexical, semantic, limit, if limit < |sorted| then sorted[..limit] else sorted)
  {
    hide EntryOf, Place, Union, Share;
    var top := if limit < |sorted| then sorted[..limit] else sorted;
    forall id | id in Union(lexical, semantic) && !Chosen(top, id)
      ensures forall i | 0 <= i < |top| :: Before(top[i], HitOf(lexical, semantic, id))
    {
      var k :| 0 <= k < |sorted| && sorted[k].id == id;
      assert forall m | 0 <= m < |top| :: top[m].id != id;
    }
  }

  lemma {:induction false} Listing(ids: set<Uuid>) returns (order: seq<Uuid>)
    ensures Distinct(order) && Members(order) == ids
    decreases |ids|
  {
    order := [];
    if ids != {} {
      var id :| id in ids;
      var rest := Listing(ids - {id});
      assert forall i | 0 <= i < |rest| :: rest[i] in Members(rest);
      order := rest + [id];
      assert Members(order) == Members(rest) + {id};
    }
  }

  lemma TopExists(lexical: seq<RankedRow>, semantic: seq<RankedRow>, limit: nat)
    ensures exists hits :: IsTop(lexical, semantic, limit, hits)
  {
    hide Union, EntryOf, Share, IsRanking, IsTop, Ascending, Sorted;
    var order := Listing(Union(lexical, semantic));
    assert forall j | 0 <= j < |order| :: order[j] in Members(order);
    var all := seq(|order|, j requires 0 <= j < |order| => HitOf(lexical, semantic, order[j]));
    SortedIsRanking(lexical, semantic, order, all);
    CutIsTop(lexical, semantic, limit, Sorted(Before, all));
  }

  /** The top, of which there is exactly one. */
  ghost function Top(lexical: seq<RankedRow>, semantic: seq<RankedRow>, limit: nat): (hits: seq<Hit>)
    ensures IsTop(lexical, semantic, limit, hits)
  {
    TopExists(lexical, semantic, limit);
    var hits :| IsTop(lexical, semantic, limit, hits);
    hits
  }

  // ---- The hits in terms of the two searches ----

  /** The rank of a chunk: its place, from one, among the first twenty rows of a search that was asked for. */
  predicate Placed(rows: seq<RankedRow>, asked: bool, id: Uuid, rank: Option<nat>) {
    match rank
    case Some(r) => asked && 1 <= r <= 20 && r <= |rows| && rows[r - 1].id == id
    case None => asked ==> forall i | 0 <= i < |rows| && i < 20 :: rows[i].id != id
  }

  /** Half a point over 60 and the rank, for each search. */
  function Points(lexical: Option<nat>, semantic: Option<nat>): real {
    (if lexical.Some? then 0.5 / (60 + lexical.value) as real else 0.0)
    + (if semantic.Some? then 0.5 / (60 + semantic.value) as real else 0.0)
  }

  /** The first twenty matches take part, of the lexical search only if there are terms to search for. */
  lemma CandidatesDecided(mode: Mode, terms: string, limit: int, lexicalMatches: seq<RankedRow>,
                          semanticMatches: seq<RankedRow>)
    requires 1 <= limit <= 20
    ensures LexicalCandidates(mode, terms, lexicalMatches, limit)
         == if mode in {Lexical, Hybrid} && terms != ""
            then if |lexicalMatches| <= 20 then lexicalMatches else lexicalMatches[..20] else []
    ensures SemanticCandidates(mode, semanticMatches, limit)
         == if mode in {Semantic, Hybrid}
            then if |semanticMatches| <= 20 then semanticMatches else semanticMatches[..20] else []
  {}

  lemma PlaceIsRank(rows: seq<RankedRow>, asked: bool, cut: seq<RankedRow>, id: Uuid, rank: Option<nat>)
    requires Distinct(RowIds(cut)) && cut == if !asked then [] else if |rows| <= 20 then rows else rows[..20]
    ensures var p := Place(RowIds(cut), id);
            Placed(rows, asked, id, rank) <==> rank == if p > 0 then Some(p) else None
  {
    hide Place;
    var ids, p := RowIds(cut), Place(RowIds(cut), id);
    if p == 0 {
      assert forall i | 0 <= i < |cut| :: ids[i] != id;
    } else {
      assert ids[p - 1] == id && cut[p - 1] == rows[p - 1];
      if Placed(rows, asked, id, rank) && rank.Some? { assert ids[rank.value - 1] == id; }
    }
  }

  /** What a chunk that either search found would be ranked by. */
  lemma HitDecided(mode: Mode, terms: string, limit: int, lexicalMatches: seq<RankedRow>,
                   semanticMatches: seq<RankedRow>, id: Uuid, p: Option<nat>, q: Option<nat>)
    requires Rankings(lexicalMatches, semanticMatches) && 1 <= limit <= 20
    requires Placed(lexicalMatches, mode in {Lexical, Hybrid} && terms != "", id, p)
    requires Placed(semanticMatches, mode in {Semantic, Hybrid}, id, q)
    ensures var lexical := LexicalCandidates(mode, terms, lexicalMatches, limit);
            var semantic := SemanticCandidates(mode, semanticMatches, limit);
            && (id in Union(lexical, semantic) <==> p.Some? || q.Some?)
            && (p.Some? || q.Some? ==>
                  HitOf(lexical, semantic, id)
                  == Hit(id, Points(p, q), Entry(
                         if p.Some? then lexicalMatches[p.value - 1].passage else semanticMatches[q.value - 1].passage,
                         p, if p.Some? then Some(lexicalMatches[p.value - 1].value) else None,
                         q, if q.Some? then Some(semanticMatches[q.value - 1].value) else None)))
  {
    hide Place;
    var lexical := LexicalCandidates(mode, terms, lexicalMatches, limit);
    var semantic := SemanticCandidates(mode, semanticMatches, limit);
    CandidatesDecided(mode, terms, limit, lexicalMatches, semanticMatches);
    CandidatesAreRankings(mode, terms, limit, lexicalMatches, semanticMatches);
    PlaceIsRank(lexicalMatches, mode in {Lexical, Hybrid} && terms != "", lexical, id, p);
    PlaceIsRank(semanticMatches, mode in {Semantic, Hybrid}, semantic, id, q);
  }

  lemma RankExists(rows: seq<RankedRow>, asked: bool, id: Uuid) returns (rank: Option<nat>)
    ensures Placed(rows, asked, id, rank)
  {
    rank := None;
    if i :| asked && 0 <= i < |rows| && i < 20 && rows[i].id == id { rank := Some(i + 1); }
  }

  /**
   * What `retrieve_chunks` returns, in terms of the rows that the searches found: each hit with its ranks and
   * points, in falling order of points and then by identifier.
   */
  lemma HitsDecided(mode: Mode, terms: string, limit: int, lexicalMatches: seq<RankedRow>,
                    semanticMatches: seq<RankedRow>, hits: seq<Hit>)
    requires Rankings(lexicalMatches, semanticMatches) && 1 <= limit <= 20
    requires IsTop(LexicalCandidates(mode, terms, lexicalMatches, limit),
                   SemanticCandidates(mode, semanticMatches, limit), limit, hits)
    ensures |hits| <= limit
    ensures forall i, j | 0 <= i < j < |hits| ::
              hits[i].score > hits[j].score || (hits[i].score == hits[j].score && hits[i].id < hits[j].id)
    ensures forall i | 0 <= i < |hits| ::
              && hits[i].score == Points(hits[i].entry.lexicalRank, hits[i].entry.semanticRank)
              && Placed(lexicalMatches, mode in {Lexical, Hybrid} && terms != "", hits[i].id, hits[i].entry.lexicalRank)
              && Placed(semanticMatches, mode in {Semantic, Hybrid}, hits[i].id, hits[i].entry.semanticRank)
  {
    hide Placed, Points, Union, Rankings, EntryOf, Share, LexicalCandidates, SemanticCandidates;
    forall i | 0 <= i < |hits|
      ensures && hits[i].score == Points(hits[i].entry.lexicalRank, hits[i].entry.semanticRank)
              && Placed(lexicalMatches, mode in {Lexical, Hybrid} && terms != "", hits[i].id, hits[i].entry.lexicalRank)
              && Placed(semanticMatches, mode in {Semantic, Hybrid}, hits[i].id, hits[i].entry.semanticRank)
    {
      var p := RankExists(lexicalMatches, mode in {Lexical, Hybrid} && terms != "", hits[i].id);
      var q := RankExists(semanticMatches, mode in {Semantic, Hybrid}, hits[i].id);
      HitDecided(mode, terms, limit, lexicalMatches, semanticMatches, hits[i].id, p, q);
    }
    TopAscends(hits);
  }

  lemma TopAscends(hits: seq<Hit>)
    requires Ascending(Before, hits)
    ensures forall i, j | 0 <= i < j < |hits| ::
              hits[i].score > hits[j].score || (hits[i].score == hits[j].score && hits[i].id < hits[j].id)
  {
    forall i, j | 0 <= i < j < |hits|
      ensures hits[i].score > hits[j].score || (hits[i].score == hits[j].score && hits[i].id < hits[j].id)
    {
      assert Before(hits[i], hits[j]);
    }
  }

  /** A chunk among the first twenty of a search is left out only behind `limit` better ones. */
  lemma LeftOutDecided(mode: Mode, terms: string, limit: int, lexicalMatches: seq<RankedRow>,
                       semanticMatches: seq<RankedRow>, hits: seq<Hit>, id: Uuid, p: Option<nat>, q: Option<nat>)
    requires Rankings(lexicalMatches, semanticMatches) && 1 <= limit <= 20
    requires IsTop(LexicalCandidates(mode, terms, lexicalMatches, limit),
                   SemanticCandidates(mode, semanticMatches, limit), limit, hits)
    requires Placed(lexicalMatches, mode in {Lexical, Hybrid} && terms != "", id, p)
    requires Placed(semanticMatches, mode in {Semantic, Hybrid}, id, q)
    requires (p.Some? || q.Some?) && forall i | 0 <= i < |hits| :: hits[i].id != id
    ensures |hits| == limit
    ensures forall i | 0 <= i < |hits| ::
              hits[i].score > Points(p, q) || (hits[i].score == Points(p, q) && hits[i].id < id)
  {
    hide Placed, Points, Union, Rankings, EntryOf, Share, LexicalCandidates, SemanticCandidates, Ascending;
    HitDecided(mode, terms, limit, lexicalMatches, semanticMatches, id, p, q);
    AllOrLimit(LexicalCandidates(mode, terms, lexicalMatches, limit),
               SemanticCandidates(mode, semanticMatches, limit), limit, hits, id);
  }

  lemma AllOrLimit(lexical: seq<RankedRow>, semantic: seq<RankedRow>, limit: nat, hits: seq<Hit>, id: Uuid)
    requires IsTop(lexical, semantic, limit, hits) && id in Union(lexical, semantic) && !Chosen(hits, id)
    ensures |hits| == limit
  {
    hide Union, HitOf;
    if |hits| != limit {
      TopSize(hits);
      SubsetOfSameSize(Ids(hits), Union(lexical, semantic));
    }
  }

  // ---- What the ranking means ----

  /** The top is determined by the two rankings. */
  lemma TopIsUnique(lexical: seq<RankedRow>, semantic: seq<RankedRow>, limit: nat, a: seq<Hit>, b: seq<Hit>)
    requires IsTop(lexical, semantic, limit, a) && IsTop(lexical, semantic, limit, b)
    ensures a == b
  {
    TopContained(lexical, semantic, limit, a, b);
    TopContained(lexical, semantic, limit, b, a);
    BeforeIsStrict([]);
    AscendingIsUnique(Before, a, b);
  }

  lemma TopContained(lexical: seq<RankedRow>, semantic: seq<RankedRow>, limit: nat, a: seq<Hit>, b: seq<Hit>)
    requires IsTop(lexical, semantic, limit, a) && IsTop(lexical, semantic, limit, b)
    ensures forall h | h in a :: h in b
  {
    hide EntryOf, Place, Union;
    forall h | h in a ensures h in b {
      var i :| 0 <= i < |a| && a[i] == h;
      NobodyMissing(lexical, semantic, limit, a, b, i);
      var k :| 0 <= k < |b| && b[k].id == h.id;
    }
  }

  lemma NobodyMissing(lexical: seq<RankedRow>, semantic: seq<RankedRow>, limit: nat, a: seq<Hit>, b: seq<Hit>, i: nat)
    requires IsTop(lexical, semantic, limit, a) && IsTop(lexical, semantic, limit, b) && i < |a|
    ensures Chosen(b, a[i].id)
  {
    hide EntryOf, Place, Union;
    if !Chosen(b, a[i].id) {
      TopSize(a);
      TopSize(b);
      assert a[i].id in Ids(a) && a[i].id !in Ids(b);
      if Ids(b) <= Ids(a) { SubsetOfSameSize(Ids(b), Ids(a)); }
    }
  }

  function Ids(hits: seq<Hit>): set<Uuid> { Members(HitIds(hits)) }

  lemma TopSize(hits: seq<Hit>)
    requires IdsDiffer(hits)
    ensures |Ids(hits)| == |hits|
  {
    MembersSize(HitIds(hits));
  }

  /** What an entry says is what the rows at its ranks say, and there is at least one such row. */
  predicate Explained(lexical: seq<RankedRow>, semantic: seq<RankedRow>, id: Uuid, e: Entry) {
    && (e.lexicalRank.Some? <==> e.lexicalScore.Some?) && (e.semanticRank.Some? <==> e.semanticSimilarity.Some?)
    && (e.lexicalRank.Some? || e.semanticRank.Some?)
    && (e.lexicalRank.Some? ==>
          && 1 <= e.lexicalRank.value <= |lexical|
          && lexical[e.lexicalRank.value - 1] == RankedRow(id, e.passage, e.lexicalScore.value))
    && (e.semanticRank.Some? ==>
          && 1 <= e.semanticRank.value <= |semantic|
          && semantic[e.semanticRank.value - 1].id == id
          && semantic[e.semanticRank.value - 1].value == e.semanticSimilarity.value
          && (e.lexicalRank.None? ==> semantic[e.semanticRank.value - 1].passage == e.passage))
  }

  lemma EntryIsExplained(lexical: seq<RankedRow>, semantic: seq<RankedRow>, id: Uuid)
    requires id in Union(lexical, semantic)
    ensures Explained(lexical, semantic, id, EntryOf(lexical, semantic, id))
  {}

  /** A rank is given exactly with the score or similarity behind it, and every hit has one of the two. */
  lemma RanksComeWithScores(lexical: seq<RankedRow>, semantic: seq<RankedRow>, limit: nat, hits: seq<Hit>, i: nat)
    requires IsTop(lexical, semantic, limit, hits) && i < |hits|
    ensures Explained(lexical, semantic, hits[i].id, hits[i].entry)
  {
    hide Ascending, Share, Explained, EntryOf, Union;
    EntryIsExplained(lexical, semantic, hits[i].id);
  }

  lemma ShareFalls(a: nat, b: nat)
    requires 1 <= a < b
    ensures Share(Some(a)) > Share(Some(b)) > 0.0
  {
    QuotientFalls((60 + a) as real, (60 + b) as real);
  }

  lemma QuotientFalls(x: real, y: real)
    requires 0.0 < x < y
    ensures 0.5 / x > 0.5 / y > 0.0
  {
    var p, q := 0.5 / x, 0.5 / y;
    assert p * x == 0.5 && q * y == 0.5;
    Ordered(p, q, x, y);
  }

  lemma Ordered(p: real, q: real, x: real, y: real)
    requires 0.0 < x < y && p * x == 0.5 && q * y == 0.5
    ensures p > q > 0.0
  {
    assert q > 0.0;
    assert (p - q) * x == q * (y - x);
  }

  /** At least as good in both rankings and better in one: never behind. */
  lemma BetterRanksScoreHigher(a: Entry, b: Entry, x: Uuid, y: Uuid)
    requires NoWorse(a.lexicalRank, b.lexicalRank) && NoWorse(a.semanticRank, b.semanticRank)
    requires a.lexicalRank != b.lexicalRank || a.semanticRank != b.semanticRank
    ensures Scored(x, a).score > Scored(y, b).score && Before(Scored(x, a), Scored(y, b))
  {
    hide Share;
    NoWorseShare(a.lexicalRank, b.lexicalRank);
    NoWorseShare(a.semanticRank, b.semanticRank);
  }

  /** A rank that counts at least as much: lower, or present where the other is absent. */
  predicate NoWorse(a: Option<nat>, b: Option<nat>) {
    && (a.Some? ==> a.value >= 1) && (b.Some? ==> b.value >= 1)
    && (b.Some? ==> a.Some? && a.value <= b.value)
  }

  lemma NoWorseShare(a: Option<nat>, b: Option<nat>)
    requires NoWorse(a, b)
    ensures Share(a) >= Share(b) && (a != b ==> Share(a) > Share(b))
  {
    if a.Some? && b.Some? && a != b { ShareFalls(a.value, b.value); }
    if a.Some? && b.None? { ShareFalls(a.value, a.value + 1); }
  }

  predicate InBoth(e: Entry) { e.lexicalRank.Some? && e.semanticRank.Some? }

  /** With at most 20 candidates a side, being in both rankings beats any place in just one: 1/80 > 1/122. */
  lemma BothBeatOne(a: Entry, b: Entry, x: Uuid, y: Uuid)
    requires InBoth(a) && 1 <= a.lexicalRank.value <= 20 && 1 <= a.semanticRank.value <= 20
    requires !InBoth(b) && (b.lexicalRank.Some? ==> b.lexicalRank.value >= 1)
        && (b.semanticRank.Some? ==> b.semanticRank.value >= 1)
    ensures Before(Scored(x, a), Scored(y, b))
  {
    NoWorseShare(a.lexicalRank, Some(20));
    NoWorseShare(a.semanticRank, Some(20));
    if b.lexicalRank.Some? { NoWorseShare(Some(1), b.lexicalRank); }
    if b.semanticRank.Some? { NoWorseShare(Some(1), b.semanticRank); }
    assert Share(Some(20)) == 0.5 / 80.0 && Share(Some(1)) == 0.5 / 61.0;
  }

  /** Chunks found by both searches come first, and none of them is left out for one found by a single search. */
  lemma BothComeFirst(lexical: seq<RankedRow>, semantic: seq<RankedRow>, limit: nat, hits: seq<Hit>, id: Uuid, j: nat)
    requires IsTop(lexical, semantic, limit, hits) && |lexical| <= CANDIDATES && |semantic| <= CANDIDATES
    requires id in RowIds(lexical) && id in RowIds(semantic)
    requires j < |hits| && !InBoth(hits[j].entry)
    ensures exists i :: 0 <= i < j && hits[i].id == id
  {
    hide Share;
    var h := HitOf(lexical, semantic, id);
    BothBeatOne(h.entry, hits[j].entry, id, hits[j].id);
    if Chosen(hits, id) {
      var i :| 0 <= i < |hits| && hits[i].id == id;
    }
  }
}

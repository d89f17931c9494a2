/** services/embeddings.py: writing a paper's chunks into the chromadb
    collection, post-processing a query's result, and the fetch-then-ingest
    sequence.

    The collection is modelled as a map from record id to record, in which
    `upsert` is map update. Embedding vectors come from an outside model
    and are never inspected; chromadb's nearest-neighbour ranking is an
    input function. */
module Embeddings {
  import opened Common
  import opened PyText
  import opened Etl

  /** An embedding vector, treated as an opaque value. */
  type Embedding = seq<real>

  /** The metadata stored with a chunk: `{"id": i, "title": title, "doi": doi}`. */
  datatype ChunkMeta = ChunkMeta(id: nat, title: string, doi: string)

  /** One record of the collection: the chunk, its vector, its metadata. */
  datatype Record = Record(document: string, embedding: Embedding, metadata: ChunkMeta)

  /** The contents of a collection, by record id. */
  type Store = map<string, Record>

  /** One call of `collection.upsert`. */
  datatype UpsertOp = UpsertOp(id: string, record: Record)

  function Min(a: int, b: int): int {
    if a <= b then a else b
  }

  // ---------------------------------------------------------------------
  // Record ids
  // ---------------------------------------------------------------------

  /** The record id `f"{i}_{doi}"`. */
  function ChunkKey(i: nat, doi: string): string {
    Decimal(i) + "_" + doi
  }

  /** In `digits + "_" + rest`, the first `_` is the one after the digits. */
  lemma UnderscoreEndsDigits(digits: string, rest: string)
    requires IsDigits(digits)
    ensures var key := digits + "_" + rest;
      key[|digits|] == '_' && forall k :: 0 <= k < |digits| ==> key[k] != '_'
  {
  }

  /** Record ids are injective in (index, doi): the decimal index holds no
      `_`, so the first `_` of an id ends the index. */
  lemma {:induction false} ChunkKeyInjective(i: nat, doi: string, j: nat, doi': string)
    requires ChunkKey(i, doi) == ChunkKey(j, doi')
    ensures i == j && doi == doi'
  {
    var a, b := Decimal(i), Decimal(j);
    var key := ChunkKey(i, doi);
    assert key == a + "_" + doi == b + "_" + doi';
    UnderscoreEndsDigits(a, doi);
    UnderscoreEndsDigits(b, doi');
    assert |a| == |b|;
    assert a == key[..|a|] == b;
    DecimalInjective(i, j);
    assert doi == key[|a| + 1..] == doi';
  }

  // ---------------------------------------------------------------------
  // Upserts as map updates
  // ---------------------------------------------------------------------

  /** The store after the given upserts, applied in order. */
  function Apply(store: Store, ops: seq<UpsertOp>): Store {
    if ops == [] then store
    else
      var last := ops[|ops| - 1];
      Apply(store, ops[..|ops| - 1])[last.id := last.record]
  }

  predicate DistinctIds(ops: seq<UpsertOp>) {
    forall j, k :: 0 <= j < k < |ops| ==> ops[j].id != ops[k].id
  }

  /** Upserts of ids other than `k` leave `k` as it was. */
  lemma {:induction false} ApplyFrame(store: Store, ops: seq<UpsertOp>, k: string)
    requires forall j :: 0 <= j < |ops| ==> ops[j].id != k
    ensures k in Apply(store, ops) <==> k in store
    ensures k in store ==> Apply(store, ops)[k] == store[k]
  {
    if ops != [] {
      var front := ops[..|ops| - 1];
      assert forall j :: 0 <= j < |front| ==> front[j] == ops[j];
      ApplyFrame(store, front, k);
    }
  }

  /** With distinct ids, every upsert's record is what the store ends with
      under its id. */
  lemma {:induction false} ApplyStores(store: Store, ops: seq<UpsertOp>, j: nat)
    requires DistinctIds(ops) && j < |ops|
    ensures ops[j].id in Apply(store, ops) && Apply(store, ops)[ops[j].id] == ops[j].record
  {
    var front := ops[..|ops| - 1];
    if j < |ops| - 1 {
      assert forall i :: 0 <= i < |front| ==> front[i] == ops[i];
      ApplyStores(store, front, j);
    }
  }

  /** The ids an ingest writes. */
  function ChunkKeys(n: nat, doi: string): set<string> {
    set i: nat | i < n :: ChunkKey(i, doi)
  }

  lemma {:induction false} ChunkKeysCount(n: nat, doi: string)
    ensures |ChunkKeys(n, doi)| == n
  {
    if n > 0 {
      ChunkKeysCount(n - 1, doi);
      assert ChunkKeys(n, doi) == ChunkKeys(n - 1, doi) + {ChunkKey(n - 1, doi)};
      if ChunkKey(n - 1, doi) in ChunkKeys(n - 1, doi) {
        var i: nat :| i < n - 1 && ChunkKey(i, doi) == ChunkKey(n - 1, doi);
        ChunkKeyInjective(i, doi, n - 1, doi);
      }
    }
  }

  // ---------------------------------------------------------------------
  // add_embeddings_to_db
  // ---------------------------------------------------------------------

  /** The upserts of `add_embeddings_to_db`, one per pair of
      `enumerate(zip(chunks, embeddings))`, in index order. */
  function Upserts(chunks: seq<string>, embeddings: seq<Embedding>, title: string, doi: string): (ops: seq<UpsertOp>)
    ensures |ops| == Min(|chunks|, |embeddings|)
    ensures forall i: nat :: i < |ops| ==>
      ops[i] == UpsertOp(ChunkKey(i, doi), Record(chunks[i], embeddings[i], ChunkMeta(i, title, doi)))
  {
    seq(Min(|chunks|, |embeddings|), (i: int) requires 0 <= i < Min(|chunks|, |embeddings|) =>
      UpsertOp(ChunkKey(i, doi), Record(chunks[i], embeddings[i], ChunkMeta(i, title, doi))))
  }

  lemma UpsertsDistinct(chunks: seq<string>, embeddings: seq<Embedding>, title: string, doi: string)
    ensures DistinctIds(Upserts(chunks, embeddings, title, doi))
  {
    var ops := Upserts(chunks, embeddings, title, doi);
    forall j, k | 0 <= j < k < |ops| ensures ops[j].id != ops[k].id {
      if ops[j].id == ops[k].id { ChunkKeyInjective(j, doi, k, doi); }
    }
  }

  /** The store after ingesting one paper's chunks. */
  function Ingest(store: Store, chunks: seq<string>, embeddings: seq<Embedding>, title: string, doi: string): Store {
    Apply(store, Upserts(chunks, embeddings, title, doi))
  }

  /** After ingest, `f"{i}_{doi}"` holds chunk i, embedding i and the
      metadata {id: i, title, doi}, for every index the zip reaches. */
  lemma IngestStoresEveryChunk(store: Store, chunks: seq<string>, embeddings: seq<Embedding>,
                               title: string, doi: string, i: nat)
    requires i < |chunks| && i < |embeddings|
    ensures var after := Ingest(store, chunks, embeddings, title, doi);
      ChunkKey(i, doi) in after
      && after[ChunkKey(i, doi)] == Record(chunks[i], embeddings[i], ChunkMeta(i, title, doi))
  {
    UpsertsDistinct(chunks, embeddings, title, doi);
    ApplyStores(store, Upserts(chunks, embeddings, title, doi), i);
  }

  /** Ingest leaves every id that is not `f"{i}_{doi}"` for an index in
      range exactly as it was. */
  lemma IngestLeavesOtherKeys(store: Store, chunks: seq<string>, embeddings: seq<Embedding>,
                              title: string, doi: string, k: string)
    requires forall i: nat :: i < Min(|chunks|, |embeddings|) ==> k != ChunkKey(i, doi)
    ensures var after := Ingest(store, chunks, embeddings, title, doi);
      (k in after <==> k in store) && (k in store ==> after[k] == store[k])
  {
    ApplyFrame(store, Upserts(chunks, embeddings, title, doi), k);
  }

  /** In particular the records of every other paper are untouched. */
  lemma IngestLeavesOtherPapers(store: Store, chunks: seq<string>, embeddings: seq<Embedding>,
                                title: string, doi: string, j: nat, otherDoi: string)
    requires otherDoi != doi
    ensures var after := Ingest(store, chunks, embeddings, title, doi);
      var k := ChunkKey(j, otherDoi);
      (k in after <==> k in store) && (k in store ==> after[k] == store[k])
  {
    forall i: nat | i < Min(|chunks|, |embeddings|) ensures ChunkKey(j, otherDoi) != ChunkKey(i, doi) {
      if ChunkKey(j, otherDoi) == ChunkKey(i, doi) { ChunkKeyInjective(j, otherDoi, i, doi); }
    }
    IngestLeavesOtherKeys(store, chunks, embeddings, title, doi, ChunkKey(j, otherDoi));
  }

  /** The ids after ingest are the ids before plus one per zipped pair. */
  lemma IngestKeys(store: Store, chunks: seq<string>, embeddings: seq<Embedding>, title: string, doi: string)
    ensures Ingest(store, chunks, embeddings, title, doi).Keys
         == store.Keys + ChunkKeys(Min(|chunks|, |embeddings|), doi)
  {
    var after := Ingest(store, chunks, embeddings, title, doi);
    var n := Min(|chunks|, |embeddings|);
    forall k | k in after.Keys ensures k in store.Keys + ChunkKeys(n, doi) {
      if k !in ChunkKeys(n, doi) { IngestLeavesOtherKeys(store, chunks, embeddings, title, doi, k); }
    }
    forall k | k in store.Keys + ChunkKeys(n, doi) ensures k in after.Keys {
      if k in ChunkKeys(n, doi) {
        var i: nat :| i < n && k == ChunkKey(i, doi);
        IngestStoresEveryChunk(store, chunks, embeddings, title, doi, i);
      } else {
        IngestLeavesOtherKeys(store, chunks, embeddings, title, doi, k);
      }
    }
  }

  /** Ingesting a paper into an empty collection gives one record per
      zipped pair: no two chunks share an id. */
  lemma IngestCountFromEmpty(chunks: seq<string>, embeddings: seq<Embedding>, title: string, doi: string)
    ensures |Ingest(map[], chunks, embeddings, title, doi)| == Min(|chunks|, |embeddings|)
  {
    IngestKeys(map[], chunks, embeddings, title, doi);
    ChunkKeysCount(Min(|chunks|, |embeddings|), doi);
    assert Ingest(map[], chunks, embeddings, title, doi).Keys == ChunkKeys(Min(|chunks|, |embeddings|), doi);
  }

  /** Re-ingesting the same data overwrites and adds nothing: the store,
      and so its count, stay as they were after the first ingest. */
  lemma ReingestIdempotent(store: Store, chunks: seq<string>, embeddings: seq<Embedding>, title: string, doi: string)
    ensures var once := Ingest(store, chunks, embeddings, title, doi);
      Ingest(once, chunks, embeddings, title, doi) == once
      && |Ingest(once, chunks, embeddings, title, doi)| == |once|
  {
    var once := Ingest(store, chunks, embeddings, title, doi);
    var twice := Ingest(once, chunks, embeddings, title, doi);
    var n := Min(|chunks|, |embeddings|);
    IngestKeys(store, chunks, embeddings, title, doi);
    IngestKeys(once, chunks, embeddings, title, doi);
    forall k | k in twice ensures twice[k] == once[k] {
      if k in ChunkKeys(n, doi) {
        var i: nat :| i < n && k == ChunkKey(i, doi);
        IngestStoresEveryChunk(store, chunks, embeddings, title, doi, i);
        IngestStoresEveryChunk(once, chunks, embeddings, title, doi, i);
      } else {
        IngestLeavesOtherKeys(once, chunks, embeddings, title, doi, k);
      }
    }
  }

  /** Every stored document is a cleaned chunk: one line, no surrounding
      whitespace. */
  ghost predicate CleanDocuments(store: Store) {
    forall k :: k in store ==> '\n' !in store[k].document && IsStripped(store[k].document)
  }

  /** Ingesting a paper prepared by `get_biorxiv_chunks` keeps every stored
      document clean. */
  lemma IngestKeepsDocumentsClean(store: Store, data: Paper, splitter: (string, nat, nat) -> seq<string>,
                                  chunkSize: nat, chunkOverlap: nat, embeddings: seq<Embedding>)
    requires CleanDocuments(store)
    ensures var paper := WithChunks(data, splitter, chunkSize, chunkOverlap);
      CleanDocuments(Ingest(store, paper.chunks, embeddings, data.title, data.doi))
  {
    var chunks := WithChunks(data, splitter, chunkSize, chunkOverlap).chunks;
    var after := Ingest(store, chunks, embeddings, data.title, data.doi);
    var n := Min(|chunks|, |embeddings|);
    forall k | k in after ensures '\n' !in after[k].document && IsStripped(after[k].document) {
      if k in ChunkKeys(n, data.doi) {
        var i: nat :| i < n && k == ChunkKey(i, data.doi);
        IngestStoresEveryChunk(store, chunks, embeddings, data.title, data.doi, i);
      } else {
        IngestLeavesOtherKeys(store, chunks, embeddings, data.title, data.doi, k);
      }
    }
  }

  // ---------------------------------------------------------------------
  // search_database
  // ---------------------------------------------------------------------

  /** The part of chromadb's query result that is read: "documents", a list
      holding one list of texts per query embedding (`None` when the key is
      missing or its value is None). */
  datatype QueryResult = QueryResult(documents: Option<seq<seq<string>>>)

  predicate HasDocuments(results: Option<QueryResult>) {
    results.Some? && results.value.documents.Some? && results.value.documents.value != []
  }

  /** Lines 43-46 of `search_database`: the texts for the first query,
      joined with newlines, or "" when there are none. */
  function ResultText(results: Option<QueryResult>): (text: string)
    ensures !HasDocuments(results) ==> text == ""
    ensures HasDocuments(results) ==> text == Join(results.value.documents.value[0], '\n')
  {
    if HasDocuments(results) then Join(results.value.documents.value[0], '\n') else ""
  }

  /** When the texts returned are stored documents of a clean store, the
      newline-joined answer splits back into exactly those texts, in order. */
  lemma ResultTextSplitsIntoRetrieved(store: Store, retrieved: seq<string>)
    requires CleanDocuments(store)
    requires |retrieved| >= 1
    requires forall k :: 0 <= k < |retrieved| ==> exists id :: id in store && store[id].document == retrieved[k]
    ensures Split(ResultText(Some(QueryResult(Some([retrieved])))), '\n') == retrieved
  {
    SplitJoin(retrieved, '\n');
  }

  // ---------------------------------------------------------------------
  // The collection
  // ---------------------------------------------------------------------

  /** A chromadb collection. `history` lists every upsert it received. */
  class Collection {
    var records: Store
    ghost var history: seq<UpsertOp>

    constructor ()
      ensures records == map[] && history == []
    {
      records := map[];
      history := [];
    }

    /** `collection.upsert` of one record: insert or overwrite by id. */
    method Upsert(id: string, document: string, embedding: Embedding, metadata: ChunkMeta)
      modifies this
      ensures records == old(records)[id := Record(document, embedding, metadata)]
      ensures history == old(history) + [UpsertOp(id, Record(document, embedding, metadata))]
    {
      records := records[id := Record(document, embedding, metadata)];
      history := history + [UpsertOp(id, Record(document, embedding, metadata))];
    }

    /** `collection.count()`. */
    method Count() returns (n: nat)
      ensures n == |records|
    {
      n := |records|;
    }

    /** `search_database`: the query is embedded by `encode`, chromadb's
        `query` (the `rank` input) picks at most `topK` records, and the
        texts are joined. */
    method SearchDatabase(query: string, encode: string -> Embedding,
                          rank: (Store, Embedding, int) -> Option<QueryResult>,
                          topK: int := 25)
      returns (text: string)
      ensures text == ResultText(rank(records, encode(query), topK))
    {
      var queryEmbedding := encode(query);
      var results := rank(records, queryEmbedding, topK);
      if HasDocuments(results) {
        text := Join(results.value.documents.value[0], '\n');
      } else {
        text := "";
      }
    }
  }

  /** `add_embeddings_to_db`: embed the chunks as one batch, then one upsert
      per (chunk, embedding) pair under `f"{i}_{doi}"`, in index order. */
  method AddEmbeddingsToDb(data: ChunkedPaper, encode: seq<string> -> seq<Embedding>, collection: Collection)
    modifies collection
    ensures collection.records
         == Ingest(old(collection.records), data.chunks, encode(data.chunks), data.paper.title, data.paper.doi)
    ensures collection.history
         == old(collection.history) + Upserts(data.chunks, encode(data.chunks), data.paper.title, data.paper.doi)
  {
    var embeddings := encode(data.chunks);
    var title := data.paper.title;
    var doi := data.paper.doi;
    ghost var ops := Upserts(data.chunks, embeddings, title, doi);
    var i: nat := 0;
    while i < |data.chunks| && i < |embeddings|
      invariant i <= |ops|
      invariant collection.records == Apply(old(collection.records), ops[..i])
      invariant collection.history == old(collection.history) + ops[..i]
    {
      collection.Upsert(ChunkKey(i, doi), data.chunks[i], embeddings[i], ChunkMeta(i, title, doi));
      assert ops[..i + 1][..i] == ops[..i];
      assert ops[..i + 1] == ops[..i] + [ops[i]];
      i := i + 1;
    }
    assert ops[..i] == ops;
  }

  /** `process_biorxiv`: fetch and chunk the paper with the default sizes,
      then ingest it; when the fetch raises, the collection is not touched. */
  method ProcessBiorxiv(fetched: Fetched, splitter: (string, nat, nat) -> seq<string>,
                        encode: seq<string> -> seq<Embedding>, collection: Collection)
    returns (r: Result<ChunkedPaper, PyError>)
    modifies collection
    ensures r == ChunkedPaperOf(fetched, splitter, DefaultChunkSize, DefaultChunkOverlap)
    ensures r.Err? ==> collection.records == old(collection.records) && collection.history == old(collection.history)
    ensures r.Ok? ==> (collection.records
         == Ingest(old(collection.records), r.value.chunks, encode(r.value.chunks), r.value.paper.title, r.value.paper.doi))
    ensures r.Ok? ==> (collection.history
         == old(collection.history) + Upserts(r.value.chunks, encode(r.value.chunks), r.value.paper.title, r.value.paper.doi))
  {
    r := GetBiorxivChunks(fetched, splitter);
    if r.Ok? {
      AddEmbeddingsToDb(r.value, encode, collection);
    }
  }
}

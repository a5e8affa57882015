/** The umn_hoax_detect knowledge store: the threshold filter over a similarity
    search, the collection's schema and index, and `create_collection`, which
    brings a Milvus collection to "exists and is indexed". */
module UmnVectorStore {
  import opened Wrappers
  import opened Seqs
  import opened Milvus

  const SimilarityThreshold: real := 0.3
  const DefaultTopK: nat := 5

  /** The output fields of a search hit, read with `hit.entity.get(...)`. */
  datatype Entity = Entity(
    title: Option<string>,
    content: Option<string>,
    text: Option<string>,
    fact: Option<string>,
    conclusion: Option<string>)

  /** One hit of a COSINE search: `hit.distance` and the requested fields. */
  datatype Hit = Hit(distance: real, entity: Entity)

  /** The dictionary built for a kept hit. */
  datatype Chunk = Chunk(
    score: real,
    title: Option<string>,
    content: Option<string>,
    text: Option<string>,
    fact: Option<string>,
    conclusion: Option<string>)

  /** Cosine similarity recovered from the distance. */
  function Similarity(h: Hit): real
  {
    1.0 - h.distance
  }

  function ToChunk(h: Hit): Chunk
  {
    Chunk(Similarity(h), h.entity.title, h.entity.content, h.entity.text, h.entity.fact, h.entity.conclusion)
  }

  function KeepAbove(threshold: real): Hit -> Option<Chunk>
  {
    (h: Hit) => if Similarity(h) >= threshold then Some(ToChunk(h)) else None
  }

  /** The back end answers with its ranking cut to `limit=top_k`; the
      comprehension keeps the hits whose similarity reaches the threshold. */
  function SearchSimilarChunks(ranking: seq<Hit>, topK: nat, threshold: real): (r: seq<Chunk>)
    ensures |r| <= topK && |r| <= |ranking|
  {
    FilterMap(Prefix(ranking, topK), KeepAbove(threshold))
  }

  /** What the search returns, completely: one dictionary per hit among the first
      top_k whose similarity reaches the threshold, at increasing positions, with
      score 1 - distance and the hit's fields; every hit left out scored below. */
  lemma {:induction false} SearchOrigins(ranking: seq<Hit>, topK: nat, threshold: real) returns (idx: seq<nat>)
    ensures var r := SearchSimilarChunks(ranking, topK, threshold);
      && |idx| == |r|
      && Ascending(idx, |Prefix(ranking, topK)|)
      && (forall k :: 0 <= k < |idx| ==>
            r[k] == ToChunk(ranking[idx[k]]) && r[k].score == 1.0 - ranking[idx[k]].distance && r[k].score >= threshold)
      && (forall j :: 0 <= j < |Prefix(ranking, topK)| && j !in idx ==> 1.0 - ranking[j].distance < threshold)
  {
    var window := Prefix(ranking, topK);
    idx := FilterMapOrigins(window, KeepAbove(threshold));
    forall k | 0 <= k < |idx|
      ensures ranking[idx[k]] == window[idx[k]]
    {
    }
    forall j | 0 <= j < |window| && j !in idx
      ensures 1.0 - ranking[j].distance < threshold
    {
      assert KeepAbove(threshold)(window[j]).None?;
    }
  }

  /** Searching with a higher threshold is filtering the lower-threshold answer
      again by score: the answer shrinks to a subsequence, never grows. */
  lemma {:induction false} RaiseThreshold(ranking: seq<Hit>, topK: nat, low: real, high: real)
    requires low <= high
    ensures SearchSimilarChunks(ranking, topK, high)
         == FilterMap(SearchSimilarChunks(ranking, topK, low), (c: Chunk) => if c.score >= high then Some(c) else None)
    ensures |SearchSimilarChunks(ranking, topK, high)| <= |SearchSimilarChunks(ranking, topK, low)|
  {
    var again := (c: Chunk) => if c.score >= high then Some(c) else None;
    FilterMapThen(Prefix(ranking, topK), KeepAbove(low), again, KeepAbove(high));
  }

  /** The seven column lists of one `collection.insert(data)` call. */
  datatype Columns = Columns(
    embeddings: seq<seq<real>>,
    titles: seq<string>,
    contents: seq<string>,
    texts: seq<string>,
    facts: seq<string>,
    conclusions: seq<string>,
    references: seq<string>)

  const Index := IndexParams(Embedding, IvfFlat, Cosine, 128)

  /** The schema of a freshly created collection (there is no `references` field). */
  const Schema := CollectionSchema(
    [ PrimaryKey(Id),
      FloatVector(Embedding, 768),
      VarChar(Title, 512),
      VarChar(Content, 8192),
      VarChar(Text, 8192),
      VarChar(Fact, 8192),
      VarChar(Conclusion, 4096) ],
    "Hoax detection embeddings")

  /** The field caps of the schema. */
  lemma {:induction false} SchemaCaps()
    ensures MaxLength(Schema.fields, Title) == Some(512)
    ensures MaxLength(Schema.fields, Content) == Some(8192)
    ensures MaxLength(Schema.fields, Text) == Some(8192)
    ensures MaxLength(Schema.fields, Fact) == Some(8192)
    ensures MaxLength(Schema.fields, Conclusion) == Some(4096)
    ensures Dim(Schema.fields, Embedding) == Some(768)
  {
  }

  /** What the back end knows about the collection: whether it exists, its schema,
      its index and the insert calls it has received. */
  datatype CollectionState = CollectionState(
    present: bool,
    schema: Option<CollectionSchema>,
    index: Option<IndexParams>,
    batches: seq<Columns>)

  /** An absent collection has no schema, index or data. */
  predicate WellFormed(s: CollectionState)
  {
    (s.present <==> s.schema.Some?) && (!s.present ==> s.index.None? && s.batches == [])
  }

  /** The state `create_collection` leaves behind. */
  function EnsureCollection(s: CollectionState): (t: CollectionState)
    requires WellFormed(s)
    ensures WellFormed(t) && t.present && t.index.Some?
    ensures s.present ==> t.schema == s.schema && t.batches == s.batches
    ensures s.present && s.index.Some? ==> t == s
    ensures s.present && s.index.None? ==> t.index == Some(Index)
    ensures !s.present ==> t.schema == Some(Schema) && t.index == Some(Index) && t.batches == []
  {
    if s.present then
      if s.index.Some? then s else s.(index := Some(Index))
    else CollectionState(true, Some(Schema), Some(Index), [])
  }

  /** Calling `create_collection` a second time changes nothing. */
  lemma {:induction false} EnsureCollectionIdempotent(s: CollectionState)
    requires WellFormed(s)
    ensures EnsureCollection(EnsureCollection(s)) == EnsureCollection(s)
  {
  }

  /** The Milvus collection, as the back end holds it. */
  class Collection {
    var present: bool
    var schema: Option<CollectionSchema>
    var index: Option<IndexParams>
    var batches: seq<Columns>

    function State(): CollectionState
      reads this
    {
      CollectionState(present, schema, index, batches)
    }

    ghost predicate Valid()
      reads this
    {
      WellFormed(State())
    }

    constructor (s: CollectionState)
      requires WellFormed(s)
      ensures Valid() && State() == s
    {
      present, schema, index, batches := s.present, s.schema, s.index, s.batches;
    }

    /** `create_collection()`: create the collection with its index if it is
        absent, otherwise add the index if it is missing. */
    method CreateCollection()
      requires Valid()
      modifies this
      ensures Valid() && State() == EnsureCollection(old(State()))
    {
      if present {
        if index.None? {
          index := Some(Index);
        }
        return;
      }
      present, schema := true, Some(Schema);
      index := Some(Index);
    }

    /** `collection.insert(data)`: the back end records the call. */
    method Insert(data: Columns)
      requires Valid() && present
      modifies this`batches
      ensures Valid() && batches == old(batches) + [data]
    {
      batches := batches + [data];
    }
  }
}

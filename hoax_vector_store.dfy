/** The hoax_detect knowledge store: the collection schema it declares and the
    threshold filter applied to the answer of a similarity search. */
module HoaxVectorStore {
  import opened Wrappers
  import opened Seqs
  import opened Milvus
  import opened HoaxModels

  const SimilarityThreshold: real := 0.3
  const DefaultTopK: nat := 5

  /** The output fields requested from a search hit. */
  datatype Entity = Entity(title: string, content: string, fact: string, conclusion: string)

  /** One hit of a COSINE search: `hit.score` and the requested fields. */
  datatype Hit = Hit(score: real, entity: Entity)

  /** The schema `create_collection` hands to `Collection(name, schema)`. */
  const Schema := CollectionSchema(
    [ PrimaryKey(Id),
      VarChar(Title, 512),
      VarChar(Content, 4096),
      VarChar(Fact, 1024),
      VarChar(Conclusion, 1024),
      FloatVector(Embedding, 768) ],
    "Hoax news embeddings")

  function CreateCollection(): (s: CollectionSchema)
    ensures MaxLength(s.fields, Title) == Some(512)
    ensures MaxLength(s.fields, Content) == Some(4096)
    ensures MaxLength(s.fields, Fact) == Some(1024)
    ensures MaxLength(s.fields, Conclusion) == Some(1024)
    ensures MaxLength(s.fields, Text) == None
    ensures Dim(s.fields, Embedding) == Some(768)
  {
    Schema
  }

  /** `HoaxChunk(title=..., content=..., fact=..., conclusion=...)`: the model's
      defaults leave `references` empty and `embedding` unset. */
  function ToChunk(e: Entity): HoaxChunk
  {
    HoaxChunk(e.title, e.content, e.fact, e.conclusion, [], None)
  }

  function KeepAbove(threshold: real): Hit -> Option<HoaxChunk>
  {
    (h: Hit) => if h.score >= threshold then Some(ToChunk(h.entity)) else None
  }

  /** The back end answers a search with its ranking cut to `limit=top_k`; the
      comprehension keeps the hits whose score reaches the threshold. */
  function SearchSimilarChunks(ranking: seq<Hit>, topK: nat, threshold: real): (r: seq<HoaxChunk>)
    ensures |r| <= topK && |r| <= |ranking|
  {
    FilterMap(Prefix(ranking, topK), KeepAbove(threshold))
  }

  /** What the search returns, completely: the chunks of the hits among the first
      top_k whose score reaches the threshold, at increasing positions (backend
      order kept), each copying its hit's fields; every hit left out scored below
      the threshold. */
  lemma {:induction false} SearchOrigins(ranking: seq<Hit>, topK: nat, threshold: real) returns (idx: seq<nat>)
    ensures var r := SearchSimilarChunks(ranking, topK, threshold);
      && |idx| == |r|
      && Ascending(idx, |Prefix(ranking, topK)|)
      && (forall k :: 0 <= k < |idx| ==>
            ranking[idx[k]].score >= threshold && r[k] == ToChunk(ranking[idx[k]].entity))
      && (forall j :: 0 <= j < |Prefix(ranking, topK)| && j !in idx ==> ranking[j].score < threshold)
  {
    var window := Prefix(ranking, topK);
    idx := FilterMapOrigins(window, KeepAbove(threshold));
    forall k | 0 <= k < |idx|
      ensures ranking[idx[k]] == window[idx[k]]
    {
    }
    forall j | 0 <= j < |window| && j !in idx
      ensures ranking[j].score < threshold
    {
      assert KeepAbove(threshold)(window[j]).None?;
    }
  }

  /** Raising the threshold never lengthens the answer. */
  lemma {:induction false} RaiseThreshold(ranking: seq<Hit>, topK: nat, low: real, high: real)
    requires low <= high
    ensures |SearchSimilarChunks(ranking, topK, high)| <= |SearchSimilarChunks(ranking, topK, low)|
  {
    FilterMapMonotone(Prefix(ranking, topK), KeepAbove(high), KeepAbove(low));
  }
}

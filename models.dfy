/** The request and record shapes of the hoax_detect service (pydantic models). */
module HoaxModels {
  import opened Wrappers

  /** A fact-check request; both retrieval legs default to on. */
  datatype FactCheckRequest = FactCheckRequest(query: string, useVectorDb: bool, useTavily: bool)

  datatype FactCheckResponse = FactCheckResponse(verdict: string, explanation: string, sources: seq<string>)

  /** One web-search hit; `score` is the provider's relevance score. */
  datatype NewsResult = NewsResult(title: string, url: string, content: string, score: real)

  /** One knowledge-base record as returned by the vector search. */
  datatype HoaxChunk = HoaxChunk(
    title: string,
    content: string,
    fact: string,
    conclusion: string,
    references: seq<string>,
    embedding: Option<seq<real>>)
}

/** What the two FastAPI services share at their boundary: the error a handler
    raises and the record of which retrieval back end a request consulted. */
module Http {

  /** `HTTPException(status_code, detail)`. */
  datatype HttpError = HttpError(status: nat, detail: string)

  /** One call of a retrieval leg, with the arguments it was given. */
  datatype Leg =
    | VectorSearch(query: string, topK: nat, threshold: real)
    | WebSearch(query: string, maxResults: nat)
}

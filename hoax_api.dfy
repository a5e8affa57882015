/** The hoax_detect FastAPI service: one fact check gathers evidence from the
    legs the request enables, prompts the language model and turns its reply into
    a verdict; a batch runs the single check query by query. */
module HoaxApi {
  import opened Wrappers
  import opened Seqs
  import opened TextUtil
  import opened HoaxModels
  import opened Http
  import HoaxPrompt
  import HoaxVectorStore

  /** `call_tavily_api`'s default `max_results`. */
  const WebMaxResults: nat := 3

  /** What a client sees when the reply is falsy: the handler's own
      HTTPException("LLM service error") is caught by its catch-all and re-raised
      with `str(e)` as detail, which renders the status code in front. */
  const LlmErrorDetail := "500: LLM service error"

  /** The collaborators, as deterministic functions of their inputs. A failure
      carries the text of the exception the call raised.
      rank: the query's embedding searched against the collection (hits in back-end order);
      webSearch: `call_tavily_api(query, max_results)`;
      llm: `call_openrouter(prompt)`, whose reply may be None;
      render: how an f-string renders a float score. */
  datatype Services = Services(
    rank: string -> Result<seq<HoaxVectorStore.Hit>, string>,
    webSearch: (string, nat) -> Result<seq<NewsResult>, string>,
    llm: string -> Result<Option<string>, string>,
    render: real -> string)

  /** The evidence `_retrieve_context` returns, plus the legs it consulted. */
  datatype Evidence = Evidence(chunks: seq<HoaxChunk>, web: seq<NewsResult>, legs: seq<Leg>)

  /** The verdict label read off a reply: HOAX wins over FACT, and a reply with
      neither is UNCERTAIN. */
  function Classify(reply: string): (verdict: string)
    ensures verdict == "HOAX" || verdict == "FACT" || verdict == "UNCERTAIN"
  {
    var shout := Upper(reply);
    if Contains(shout, "HOAX") then "HOAX"
    else if Contains(shout, "FACT") then "FACT"
    else "UNCERTAIN"
  }

  /** The label in terms of case-insensitive occurrences, each case both ways:
      HOAX exactly when "hoax" occurs in any case; FACT exactly when "fact" occurs
      and "hoax" does not; UNCERTAIN exactly when neither occurs. */
  lemma {:induction false} ClassifyMeaning(reply: string)
    ensures Classify(reply) == "HOAX" <==> OccursIgnoringCase(reply, "HOAX")
    ensures Classify(reply) == "FACT" <==> !OccursIgnoringCase(reply, "HOAX") && OccursIgnoringCase(reply, "FACT")
    ensures Classify(reply) == "UNCERTAIN" <==> !OccursIgnoringCase(reply, "HOAX") && !OccursIgnoringCase(reply, "FACT")
  {
    UpperContains(reply, "HOAX");
    UpperContains(reply, "FACT");
  }

  /** `_format_response`: the label, the whole reply as explanation and the web
      result URLs, in order, as sources. */
  function FormatResponse(reply: string, web: seq<NewsResult>): (r: FactCheckResponse)
    ensures r.explanation == reply
    ensures |r.sources| == |web| && forall i :: 0 <= i < |web| ==> r.sources[i] == web[i].url
  {
    FactCheckResponse(Classify(reply), reply, Map(web, (res: NewsResult) => res.url))
  }

  /** `search_similar_chunks(query)` with its defaults: top_k 5, threshold 0.3. */
  function SearchLeg(query: string, svc: Services): Result<seq<HoaxChunk>, string>
  {
    match svc.rank(query)
    case Failure(e) => Failure(e)
    case Success(ranking) =>
      Success(HoaxVectorStore.SearchSimilarChunks(ranking, HoaxVectorStore.DefaultTopK, HoaxVectorStore.SimilarityThreshold))
  }

  /** `_retrieve_context`: the vector leg, then the web leg, each only when the
      request enables it; a disabled leg contributes an empty list. The first
      exception raised ends the retrieval. */
  function RetrieveContext(req: FactCheckRequest, svc: Services): (r: Result<Evidence, string>)
    ensures r.Success? ==>
      && (VectorSearch(req.query, HoaxVectorStore.DefaultTopK, HoaxVectorStore.SimilarityThreshold) in r.value.legs <==> req.useVectorDb)
      && (WebSearch(req.query, WebMaxResults) in r.value.legs <==> req.useTavily)
      && (forall leg :: leg in r.value.legs ==> leg.query == req.query)
      && (!req.useVectorDb ==> r.value.chunks == [])
      && (!req.useTavily ==> r.value.web == [])
      && (req.useVectorDb ==> SearchLeg(req.query, svc) == Success(r.value.chunks))
      && (req.useTavily ==> svc.webSearch(req.query, WebMaxResults) == Success(r.value.web))
    ensures r.Failure? <==>
      (req.useVectorDb && SearchLeg(req.query, svc).Failure?)
      || (req.useTavily && svc.webSearch(req.query, WebMaxResults).Failure?)
  {
    var vector: Result<(seq<HoaxChunk>, seq<Leg>), string> :=
      if !req.useVectorDb then Success(([], []))
      else match SearchLeg(req.query, svc)
        case Failure(e) => Failure(e)
        case Success(chunks) => Success((chunks, [VectorSearch(req.query, HoaxVectorStore.DefaultTopK, HoaxVectorStore.SimilarityThreshold)]));
    match vector
    case Failure(e) => Failure(e)
    case Success((chunks, legs)) =>
      if !req.useTavily then Success(Evidence(chunks, [], legs))
      else match svc.webSearch(req.query, WebMaxResults)
        case Failure(e) => Failure(e)
        case Success(web) => Success(Evidence(chunks, web, legs + [WebSearch(req.query, WebMaxResults)]))
  }

  /** Python truthiness of the model's reply. */
  predicate Falsy(reply: Option<string>)
  {
    reply.None? || reply.value == []
  }

  /** `fact_check`: every exception inside the handler becomes an HTTP 500 whose
      detail is the exception's text. */
  function FactCheck(req: FactCheckRequest, svc: Services): (r: Result<FactCheckResponse, HttpError>)
    ensures r.Failure? ==> r.error.status == 500
  {
    match RetrieveContext(req, svc)
    case Failure(e) => Failure(HttpError(500, e))
    case Success(ev) =>
      match svc.llm(HoaxPrompt.Prompt(req.query, ev.chunks, Some(ev.web), svc.render))
      case Failure(e) => Failure(HttpError(500, e))
      case Success(reply) =>
        if Falsy(reply) then Failure(HttpError(500, LlmErrorDetail))
        else Success(FormatResponse(reply.value, ev.web))
  }

  /** A successful check answers with one of the three labels, explains with the
      model's non-empty reply to the prompt built from the retrieved evidence and
      cites exactly the web results' URLs, none when the web leg is off. */
  lemma {:induction false} FactCheckAnswer(req: FactCheckRequest, svc: Services)
    requires FactCheck(req, svc).Success?
    ensures var r := FactCheck(req, svc).value;
      var ev := RetrieveContext(req, svc).value;
      && RetrieveContext(req, svc).Success?
      && r.verdict in {"HOAX", "FACT", "UNCERTAIN"}
      && r.verdict == Classify(r.explanation)
      && r.explanation != []
      && svc.llm(HoaxPrompt.Prompt(req.query, ev.chunks, Some(ev.web), svc.render)) == Success(Some(r.explanation))
      && |r.sources| == |ev.web|
      && (forall i :: 0 <= i < |ev.web| ==> r.sources[i] == ev.web[i].url)
      && (!req.useTavily ==> r.sources == [])
  {
  }

  /** A falsy reply (None or empty) after a successful retrieval is a 500 with the
      rendered "LLM service error" detail. */
  lemma {:induction false} FalsyReplyIsServerError(req: FactCheckRequest, svc: Services)
    requires RetrieveContext(req, svc).Success?
    requires var ev := RetrieveContext(req, svc).value;
      var reply := svc.llm(HoaxPrompt.Prompt(req.query, ev.chunks, Some(ev.web), svc.render));
      reply.Success? && Falsy(reply.value)
    ensures FactCheck(req, svc) == Failure(HttpError(500, LlmErrorDetail))
  {
  }

  /** With both legs off nothing is consulted and the model sees the prompt of
      empty evidence; a verdict then cites no source. */
  lemma {:induction false} NoEvidence(query: string, svc: Services)
    ensures var req := FactCheckRequest(query, false, false);
      && RetrieveContext(req, svc) == Success(Evidence([], [], []))
      && (FactCheck(req, svc).Success? ==> FactCheck(req, svc).value.sources == [])
  {
  }

  /** The single request the batch handler builds for one of its queries. */
  function Single(query: string, useVectorDb: bool, useTavily: bool): FactCheckRequest
  {
    FactCheckRequest(query, useVectorDb, useTavily)
  }

  /** The answers of a batch: all responses in query order, or the error of the
      first query that failed (which ends the batch). */
  function BatchResult(queries: seq<string>, useVectorDb: bool, useTavily: bool, svc: Services): Result<seq<FactCheckResponse>, HttpError>
  {
    if queries == [] then Success([])
    else
      match BatchResult(queries[..|queries| - 1], useVectorDb, useTavily, svc)
      case Failure(e) => Failure(e)
      case Success(done) =>
        match FactCheck(Single(queries[|queries| - 1], useVectorDb, useTavily), svc)
        case Failure(e) => Failure(e)
        case Success(resp) => Success(done + [resp])
  }

  /** `batch_fact_check`: checks the queries one after another and stops at the
      first exception. */
  method BatchFactCheck(queries: seq<string>, useVectorDb: bool, useTavily: bool, svc: Services)
    returns (r: Result<seq<FactCheckResponse>, HttpError>)
    ensures r == BatchResult(queries, useVectorDb, useTavily, svc)
  {
    var results: seq<FactCheckResponse> := [];
    for i := 0 to |queries|
      invariant BatchResult(queries[..i], useVectorDb, useTavily, svc) == Success(results)
    {
      assert queries[..i + 1][..i] == queries[..i];
      var single := FactCheck(Single(queries[i], useVectorDb, useTavily), svc);
      if single.Failure? {
        BatchStopsAtFailure(queries, i + 1, useVectorDb, useTavily, svc);
        return Failure(single.error);
      }
      results := results + [single.value];
    }
    assert queries[..|queries|] == queries;
    return Success(results);
  }

  /** Once a prefix of the batch has failed, the whole batch fails the same way. */
  lemma {:induction false} BatchStopsAtFailure(queries: seq<string>, n: nat, useVectorDb: bool, useTavily: bool, svc: Services)
    requires n <= |queries|
    requires BatchResult(queries[..n], useVectorDb, useTavily, svc).Failure?
    ensures BatchResult(queries, useVectorDb, useTavily, svc) == BatchResult(queries[..n], useVectorDb, useTavily, svc)
    decreases |queries| - n
  {
    if n == |queries| {
      assert queries[..n] == queries;
    } else {
      assert queries[..n + 1][..n] == queries[..n];
      BatchStopsAtFailure(queries, n + 1, useVectorDb, useTavily, svc);
    }
  }

  /** A batch succeeds exactly when every one of its queries does. */
  lemma {:induction false} BatchSucceedsIff(queries: seq<string>, useVectorDb: bool, useTavily: bool, svc: Services)
    ensures BatchResult(queries, useVectorDb, useTavily, svc).Success?
        <==> forall i :: 0 <= i < |queries| ==> FactCheck(Single(queries[i], useVectorDb, useTavily), svc).Success?
    decreases |queries|
  {
    if queries != [] {
      var n := |queries| - 1;
      var front := queries[..n];
      BatchSucceedsIff(front, useVectorDb, useTavily, svc);
      assert forall i :: 0 <= i < n ==> front[i] == queries[i];
    }
  }

  /** A successful batch has one response per query, in query order, each the
      answer of that query's own check. */
  lemma {:induction false} BatchAnswers(queries: seq<string>, useVectorDb: bool, useTavily: bool, svc: Services)
    requires BatchResult(queries, useVectorDb, useTavily, svc).Success?
    ensures var r := BatchResult(queries, useVectorDb, useTavily, svc).value;
      && |r| == |queries|
      && forall i :: 0 <= i < |queries| ==> FactCheck(Single(queries[i], useVectorDb, useTavily), svc) == Success(r[i])
    decreases |queries|
  {
    if queries != [] {
      var n := |queries| - 1;
      var front := queries[..n];
      BatchAnswers(front, useVectorDb, useTavily, svc);
      assert forall i :: 0 <= i < n ==> front[i] == queries[i];
    }
  }

  /** A failed batch reports the error of its first failing query, after which
      no later query matters. */
  lemma {:induction false} BatchFirstError(queries: seq<string>, useVectorDb: bool, useTavily: bool, svc: Services) returns (i: nat)
    requires BatchResult(queries, useVectorDb, useTavily, svc).Failure?
    ensures i < |queries|
    ensures FactCheck(Single(queries[i], useVectorDb, useTavily), svc) == Failure(BatchResult(queries, useVectorDb, useTavily, svc).error)
    ensures forall j :: 0 <= j < i ==> FactCheck(Single(queries[j], useVectorDb, useTavily), svc).Success?
    decreases |queries|
  {
    var n := |queries| - 1;
    var front := queries[..n];
    if BatchResult(front, useVectorDb, useTavily, svc).Failure? {
      i := BatchFirstError(front, useVectorDb, useTavily, svc);
      forall j | 0 <= j <= i
        ensures front[j] == queries[j]
      {
      }
    } else {
      i := n;
      BatchSucceedsIff(front, useVectorDb, useTavily, svc);
      forall j | 0 <= j < n
        ensures front[j] == queries[j]
      {
      }
    }
  }
}

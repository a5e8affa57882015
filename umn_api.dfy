/** The umn_hoax_detect FastAPI handler: it retrieves evidence, asks the language
    model, lists the evidence's titles and URLs as sources and reads a verdict line
    out of the free-text reply. */
module UmnApi {
  import opened Wrappers
  import opened Seqs
  import opened TextUtil
  import opened Http
  import UmnVectorStore

  /** `top_k` and `max_results` the handler passes to its two legs. */
  const TopK: nat := 5
  const MaxResults: nat := 5

  /** The verdict when no line of the reply names one ("unknown"). */
  const Unknown := "Tidak diketahui"

  const NoReplyDetail := "No response from LLM."

  datatype FactCheckRequest = FactCheckRequest(query: string, useTavily: bool, useVectorDb: bool)

  datatype FactCheckResponse = FactCheckResponse(verdict: string, explanation: string, sources: seq<string>)

  /** A web-search result dictionary; a key may be missing. */
  datatype WebRecord = WebRecord(title: Option<string>, url: Option<string>, content: Option<string>)

  /** The collaborators, as deterministic functions of their inputs.
      rank: the query's embedding searched against the collection (hits in back-end order);
      webSearch: `call_tavily_api(query, max_results)`;
      buildPrompt: `build_prompt(query, vector_results, tavily_results)`;
      llm: `call_openrouter(prompt)`, whose reply may be None. */
  datatype Services = Services(
    rank: string -> seq<UmnVectorStore.Hit>,
    webSearch: (string, nat) -> seq<WebRecord>,
    buildPrompt: (string, seq<UmnVectorStore.Chunk>, seq<WebRecord>) -> string,
    llm: string -> Option<string>)

  /** Python truthiness of an optional string. */
  predicate Truthy(o: Option<string>)
  {
    o.Some? && o.value != []
  }

  function TitleSource(c: UmnVectorStore.Chunk): Option<string>
  {
    if Truthy(c.title) then c.title else None
  }

  function UrlSource(w: WebRecord): Option<string>
  {
    if Truthy(w.url) then w.url else None
  }

  /** The sources a response lists: truthy titles, then truthy URLs. */
  function Sources(chunks: seq<UmnVectorStore.Chunk>, web: seq<WebRecord>): seq<string>
  {
    FilterMap(chunks, TitleSource) + FilterMap(web, UrlSource)
  }

  /** The two source-collecting loops of the handler. */
  method ExtractSources(chunks: seq<UmnVectorStore.Chunk>, web: seq<WebRecord>) returns (sources: seq<string>)
    ensures sources == Sources(chunks, web)
  {
    sources := [];
    for i := 0 to |chunks|
      invariant sources == FilterMap(chunks[..i], TitleSource)
    {
      assert chunks[..i + 1] == chunks[..i] + [chunks[i]];
      FilterMapAppend(chunks[..i], [chunks[i]], TitleSource);
      if Truthy(chunks[i].title) {
        sources := sources + [chunks[i].title.value];
      }
    }
    assert chunks[..|chunks|] == chunks;
    ghost var titles := sources;
    for i := 0 to |web|
      invariant sources == titles + FilterMap(web[..i], UrlSource)
    {
      assert web[..i + 1] == web[..i] + [web[i]];
      FilterMapAppend(web[..i], [web[i]], UrlSource);
      if Truthy(web[i].url) {
        sources := sources + [web[i].url.value];
      }
    }
    assert web[..|web|] == web;
  }

  /** The sources, completely: first the titles of the chunks with a truthy title
      and then the URLs of the results with a truthy URL, each group in input
      order; every chunk or result left out has a missing or empty title or URL. */
  lemma {:induction false} SourcesOrigins(chunks: seq<UmnVectorStore.Chunk>, web: seq<WebRecord>) returns (ti: seq<nat>, ui: seq<nat>)
    ensures var s := Sources(chunks, web);
      && |s| == |ti| + |ui|
      && Ascending(ti, |chunks|) && Ascending(ui, |web|)
      && (forall k :: 0 <= k < |ti| ==> Truthy(chunks[ti[k]].title) && s[k] == chunks[ti[k]].title.value)
      && (forall k :: 0 <= k < |ui| ==> Truthy(web[ui[k]].url) && s[|ti| + k] == web[ui[k]].url.value)
      && (forall j :: 0 <= j < |chunks| && j !in ti ==> !Truthy(chunks[j].title))
      && (forall j :: 0 <= j < |web| && j !in ui ==> !Truthy(web[j].url))
  {
    ti := FilterMapOrigins(chunks, TitleSource);
    ui := FilterMapOrigins(web, UrlSource);
    forall j | 0 <= j < |chunks| && j !in ti
      ensures !Truthy(chunks[j].title)
    {
      assert TitleSource(chunks[j]).None?;
    }
    forall j | 0 <= j < |web| && j !in ui
      ensures !Truthy(web[j].url)
    {
      assert UrlSource(web[j]).None?;
    }
  }

  /** Whether a reply line names the verdict, in English or in Indonesian. */
  predicate MentionsVerdict(line: string)
  {
    var low := Lower(line);
    Contains(low, "verdict") || Contains(low, "putusan")
  }

  /** The first line that names the verdict, if any. */
  function FirstVerdictLine(lines: seq<string>): (r: Option<nat>)
    ensures r.Some? ==> r.value < |lines| && MentionsVerdict(lines[r.value])
    ensures r.Some? ==> forall j :: 0 <= j < r.value ==> !MentionsVerdict(lines[j])
    ensures r.None? <==> forall j :: 0 <= j < |lines| ==> !MentionsVerdict(lines[j])
  {
    if lines == [] then None
    else if MentionsVerdict(lines[0]) then Some(0)
    else match FirstVerdictLine(lines[1..])
      case None => None
      case Some(k) => Some(k + 1)
  }

  /** The raw verdict and the explanation: the stripped first verdict line and the
      stripped reply with every occurrence of that line deleted, or no verdict and
      the whole reply. */
  function SplitVerdict(reply: string): (string, string)
  {
    var lines := Lines(reply);
    match FirstVerdictLine(lines)
    case None => ("", reply)
    case Some(k) => (Strip(lines[k]), Strip(RemoveAll(reply, lines[k])))
  }

  /** A line naming the verdict with none before it is the first such line. */
  lemma {:induction false} FirstVerdictLineAt(lines: seq<string>, i: nat)
    requires i < |lines| && MentionsVerdict(lines[i])
    requires forall j :: 0 <= j < i ==> !MentionsVerdict(lines[j])
    ensures FirstVerdictLine(lines) == Some(i)
  {
  }

  /** The handler's loop over `splitlines()`, left at the first verdict line. */
  method ReadVerdict(reply: string) returns (verdict: string, explanation: string)
    ensures (verdict, explanation) == SplitVerdict(reply)
  {
    verdict := "";
    explanation := reply;
    var lines := Lines(reply);
    var i := 0;
    while i < |lines|
      invariant i <= |lines|
      invariant forall j :: 0 <= j < i ==> !MentionsVerdict(lines[j])
    {
      var line := lines[i];
      if MentionsVerdict(line) {
        FirstVerdictLineAt(lines, i);
        verdict := Strip(line);
        explanation := Strip(RemoveAll(reply, line));
        return;
      }
      i := i + 1;
    }
  }

  /** A line naming the verdict holds a letter, so it never strips to nothing. */
  lemma {:induction false} VerdictLineNotBlank(line: string)
    requires MentionsVerdict(line)
    ensures Strip(line) != []
  {
    var low := Lower(line);
    var w := if Contains(low, "verdict") then "verdict" else "putusan";
    ContainsAt(low, w);
    var i :| 0 <= i <= |low| && w <= low[i..];
    assert low[i] == w[0];
    StripNonEmpty(line, i);
  }

  /** What the verdict reading promises: with no verdict line the verdict is
      empty and the explanation is the whole reply; with one, the verdict is that
      line stripped (never empty), the line occurs in the reply and the
      explanation is the reply with every occurrence of the line deleted (see
      `TextUtil.RemoveStep`), stripped, so shorter by at least the line's length. */
  lemma {:induction false} SplitVerdictMeaning(reply: string)
    ensures var lines := Lines(reply);
      var (verdict, explanation) := SplitVerdict(reply);
      match FirstVerdictLine(lines)
      case None => verdict == [] && explanation == reply
      case Some(k) =>
        && verdict == Strip(lines[k]) && verdict != []
        && Contains(reply, lines[k])
        && explanation == Strip(RemoveAll(reply, lines[k]))
        && |explanation| <= |reply| - |lines[k]|
  {
    var lines := Lines(reply);
    match FirstVerdictLine(lines)
    case None =>
    case Some(k) =>
      VerdictLineNotBlank(lines[k]);
      LineOccurs(reply, k);
      RemovePresent(reply, lines[k]);
  }

  /** The response built from a reply and the retrieved evidence. */
  function Answer(reply: string, chunks: seq<UmnVectorStore.Chunk>, web: seq<WebRecord>): FactCheckResponse
  {
    var (verdict, explanation) := SplitVerdict(reply);
    FactCheckResponse(if verdict != [] then verdict else Unknown, explanation, Sources(chunks, web))
  }

  /** The legs a request consults, in order, with their arguments. */
  function Legs(req: FactCheckRequest): seq<Leg>
  {
    var vector := if req.useVectorDb then [VectorSearch(req.query, TopK, UmnVectorStore.SimilarityThreshold)] else [];
    if req.useTavily then vector + [WebSearch(req.query, MaxResults)] else vector
  }

  /** The evidence of a request: a disabled leg contributes an empty list. */
  function VectorResults(req: FactCheckRequest, svc: Services): seq<UmnVectorStore.Chunk>
  {
    if req.useVectorDb
    then UmnVectorStore.SearchSimilarChunks(svc.rank(req.query), TopK, UmnVectorStore.SimilarityThreshold)
    else []
  }

  function TavilyResults(req: FactCheckRequest, svc: Services): seq<WebRecord>
  {
    if req.useTavily then svc.webSearch(req.query, MaxResults) else []
  }

  /** What the handler answers for a request. */
  function FactCheckResult(req: FactCheckRequest, svc: Services): Result<FactCheckResponse, HttpError>
  {
    var chunks := VectorResults(req, svc);
    var web := TavilyResults(req, svc);
    var reply := svc.llm(svc.buildPrompt(req.query, chunks, web));
    if reply.None? || reply.value == [] then Failure(HttpError(500, NoReplyDetail))
    else Success(Answer(reply.value, chunks, web))
  }

  /** `fact_check`: retrieval, prompt, model call, then the two loops; `legs`
      records the retrieval calls made. */
  method FactCheck(req: FactCheckRequest, svc: Services) returns (r: Result<FactCheckResponse, HttpError>, legs: seq<Leg>)
    ensures r == FactCheckResult(req, svc)
    ensures legs == Legs(req)
  {
    legs := [];
    var vectorResults: seq<UmnVectorStore.Chunk> := [];
    if req.useVectorDb {
      vectorResults := UmnVectorStore.SearchSimilarChunks(svc.rank(req.query), TopK, UmnVectorStore.SimilarityThreshold);
      legs := [VectorSearch(req.query, TopK, UmnVectorStore.SimilarityThreshold)];
    }
    var tavilyResults: seq<WebRecord> := [];
    if req.useTavily {
      tavilyResults := svc.webSearch(req.query, MaxResults);
      legs := legs + [WebSearch(req.query, MaxResults)];
    }
    var prompt := svc.buildPrompt(req.query, vectorResults, tavilyResults);
    var reply := svc.llm(prompt);
    if reply.None? || reply.value == [] {
      return Failure(HttpError(500, NoReplyDetail)), legs;
    }
    var sources := ExtractSources(vectorResults, tavilyResults);
    var verdict, explanation := ReadVerdict(reply.value);
    r := Success(FactCheckResponse(if verdict != [] then verdict else Unknown, explanation, sources));
  }

  /** Each leg is consulted exactly when its flag is set, with top_k and
      max_results 5, and only once. */
  lemma {:induction false} LegsFollowFlags(req: FactCheckRequest)
    ensures VectorSearch(req.query, TopK, UmnVectorStore.SimilarityThreshold) in Legs(req) <==> req.useVectorDb
    ensures WebSearch(req.query, MaxResults) in Legs(req) <==> req.useTavily
    ensures |Legs(req)| == (if req.useVectorDb then 1 else 0) + (if req.useTavily then 1 else 0)
  {
  }

  /** A reply with no verdict line is answered "Tidak diketahui" with the whole
      reply as explanation; one with a verdict line is answered with that line
      stripped, explained by the reply without that line, stripped. A falsy
      reply is a 500. */
  lemma {:induction false} FactCheckVerdict(req: FactCheckRequest, svc: Services)
    ensures var reply := svc.llm(svc.buildPrompt(req.query, VectorResults(req, svc), TavilyResults(req, svc)));
      var r := FactCheckResult(req, svc);
      && (r.Failure? <==> reply.None? || reply.value == [])
      && (r.Failure? ==> r.error == HttpError(500, NoReplyDetail))
      && (r.Success? ==>
            var lines := Lines(reply.value);
            match FirstVerdictLine(lines)
            case None => r.value.verdict == Unknown && r.value.explanation == reply.value
            case Some(k) =>
              && r.value.verdict == Strip(lines[k])
              && r.value.explanation == Strip(RemoveAll(reply.value, lines[k])))
  {
    var reply := svc.llm(svc.buildPrompt(req.query, VectorResults(req, svc), TavilyResults(req, svc)));
    if reply.Some? && reply.value != [] {
      SplitVerdictMeaning(reply.value);
    }
  }
}

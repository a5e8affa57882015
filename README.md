# hoax-detection-indo, modelled in Dafny

The repository holds two generations of an Indonesian hoax fact-checking service
(`hoax_detect` and the older `umn_hoax_detect`), plus a third, minimal data
loader (`project`). Between their calls to Milvus, a sentence-embedding model,
Tavily web search and the OpenRouter language model lie small deterministic
pieces. This project models those pieces and proves what they promise:

- **Verdicts and responses.**
  - `hoax_detect/api.py` labels a reply HOAX, FACT or UNCERTAIN by substring
    precedence. The explanation is the reply, and the sources are the web-result
    URLs.
  - Retrieval legs run only when their flags are set, and a batch runs the
    single check query by query.
  - `umn_hoax_detect/api.py` lists truthy titles and then truthy URLs as sources.
    It reads the verdict off the first line that says "verdict" or "putusan".
- **The prompt.** `build_prompt` (`hoax_detect/services/llm.py`) builds a fixed
  template: the query, one block per knowledge-base chunk and one numbered block
  per web result, then a fixed footer.
- **The knowledge store.**
  - The threshold filters of both `search_similar_chunks`.
  - The two collection schemas.
  - `create_collection` of `umn_hoax_detect`, a class whose state is the
    collection as the Milvus server holds it.
- **Ingestion.** `insert_embeddings` (`umn_hoax_detect/embeddings.py`) is a
  nested loop that fills seven parallel lists and inserts them 1000 entries at a
  time. The collection records every insert call.
- **Loading.** The three `load_dataset` functions each change a pandas DataFrame
  step by step. They are modelled over the `DataFrame` class in `frames.dfy`,
  whose methods are the pandas operations they use. `initialize_vector_db`
  performs its steps in a fixed order.

The external services are function-typed parameters:
- `rank`: the back end's ranking for a query;
- `webSearch`, `llm` and `buildPrompt`;
- `split`: the text splitter;
- `embed`: the embedding model;
- `render`: f-string rendering of a float;
- `batchInsert`.

Milvus's `limit=top_k` takes the first `top_k` hits of the ranking. Strings are
`seq<char>`:
- `upper()` and `lower()` change ASCII letters only;
- `strip()` removes the characters `str.isspace()` accepts;
- `splitlines()` splits at Python's line boundaries;
- pandas' NaN renders as "nan".

Three details of the searches and schemas:
- Search results keep the back end's order and are not re-sorted.
- Neither search calls `create_collection`.
- The umn schema has a `text` field and no `references` field. The hoax_detect
  schema has neither.

`insert_embeddings` only prints its final `inserted_count`. The model returns it
as the method's result.

## Model

| member | source | states |
|---|---|---|
| HoaxApi.Classify | hoax_detect/api.py:112-118 | the verdict is always one of HOAX, FACT, UNCERTAIN |
| HoaxApi.ClassifyMeaning | hoax_detect/api.py:112-118 | HOAX iff "hoax" occurs in any case, even beside "fact"; FACT iff "fact" occurs and "hoax" does not; UNCERTAIN iff neither occurs |
| HoaxApi.FormatResponse | hoax_detect/api.py:108-123 | explanation is the raw reply; sources are the web results' URLs, same length and order, empty for no results |
| HoaxApi.RetrieveContext | hoax_detect/api.py:93-105 | each leg is consulted iff its flag is set, with the request's query; a disabled leg gives an empty list; an enabled leg's answer is returned as is; the call fails iff an enabled leg raised |
| HoaxApi.FactCheck | hoax_detect/api.py:53-76 | every failure of the handler is an HTTP 500 |
| HoaxApi.FactCheckAnswer | hoax_detect/api.py:58-72 | a successful check answers with one of the three labels, classifies and explains with the non-empty reply to the prompt of the retrieved evidence, and cites exactly the web URLs (none with the web leg off) |
| HoaxApi.FalsyReplyIsServerError | hoax_detect/api.py:66-76 | a None or empty reply never yields a response: it is a 500 with detail "500: LLM service error" |
| HoaxApi.NoEvidence | hoax_detect/api.py:97-105 | with both flags off no leg runs, the evidence is empty, and a verdict cites no source |
| HoaxApi.BatchFactCheck | hoax_detect/api.py:79-90 | the loop computes BatchResult: responses in query order, or the first failure |
| HoaxApi.BatchStopsAtFailure | hoax_detect/api.py:83-89 | once a prefix of the batch fails, the batch fails with the same error |
| HoaxApi.BatchSucceedsIff | hoax_detect/api.py:82-90 | a batch succeeds iff every single check succeeds |
| HoaxApi.BatchAnswers | hoax_detect/api.py:82-90 | a successful batch has exactly one response per query, in query order, each that query's own answer |
| HoaxApi.BatchFirstError | hoax_detect/api.py:83-89 | a failed batch reports the error of its first failing query, with every earlier query succeeding |
| HoaxPrompt.BuildPrompt | hoax_detect/services/llm.py:41-76 | the built string is Prompt(query, chunks, tavily, render) |
| HoaxPrompt.AppendChunkBlocks | hoax_detect/services/llm.py:47-55 | the first loop appends exactly the chunk blocks, in order |
| HoaxPrompt.AppendResultBlocks | hoax_detect/services/llm.py:57-66 | the second loop appends exactly the numbered result blocks, in order |
| HoaxPrompt.PromptFrame | hoax_detect/services/llm.py:47-76 | the prompt begins with "User Query:\n", the query verbatim and the context header, whose context starts with "Database Results:\n\n" even with no chunks, and ends with the fixed footer |
| HoaxPrompt.WebSection | hoax_detect/services/llm.py:57-58 | right after the chunk blocks comes the "Web Search Results:" header iff the results are truthy, otherwise the footer; None and [] build the same prompt |
| HoaxPrompt.ChunkBlockAt | hoax_detect/services/llm.py:48-55 | each chunk contributes exactly one Title/Content/Fact/Conclusion block at its position in input order |
| HoaxPrompt.ResultBlockAt | hoax_detect/services/llm.py:59-66 | the k-th web result is rendered once, as "Result k+1", between the results before and after it |
| TextUtil.DecimalRoundTrip | hoax_detect/services/llm.py:60 | the rendered result number reads back as the number |
| TextUtil.UpperContains | hoax_detect/api.py:114-116 | `w in s.upper()` holds iff w occurs in s in some mix of cases |
| UmnApi.ExtractSources | umn_hoax_detect/api.py:42-49 | the two loops compute Sources: truthy titles, then truthy URLs |
| UmnApi.SourcesOrigins | umn_hoax_detect/api.py:43-49 | sources are the truthy titles in chunk order followed by the truthy URLs in result order; every entry left out has a missing or empty title or URL |
| UmnApi.FirstVerdictLine | umn_hoax_detect/api.py:55-59 | the chosen line names the verdict and no earlier line does; there is none iff no line does |
| UmnApi.ReadVerdict | umn_hoax_detect/api.py:51-59 | the loop with `break` computes SplitVerdict: the first verdict line stripped, and the reply without that line, stripped; else "" and the whole reply |
| UmnApi.VerdictLineNotBlank | umn_hoax_detect/api.py:56-57 | a line naming the verdict never strips to the empty string |
| UmnApi.SplitVerdictMeaning | umn_hoax_detect/api.py:52-59 | with no verdict line, the verdict is empty and the explanation is the whole reply; with one, the verdict is that line stripped and non-empty, the line occurs in the reply, and the explanation is the reply with every occurrence of that line deleted, then stripped, so shorter by at least the line's length |
| UmnApi.FactCheck | umn_hoax_detect/api.py:25-65 | the handler computes FactCheckResult and consults exactly the legs Legs(req) |
| UmnApi.LegsFollowFlags | umn_hoax_detect/api.py:27-34 | each leg is consulted iff its flag is set, with top_k 5 and max_results 5, and at most once |
| UmnApi.FactCheckVerdict | umn_hoax_detect/api.py:38-65 | the check fails iff the reply is falsy, then with 500 "No response from LLM."; with no verdict line the verdict is "Tidak diketahui" and the explanation the whole reply; with one, the verdict is that line stripped and the explanation the reply with that line deleted everywhere, stripped |
| TextUtil.Lines | umn_hoax_detect/api.py:55 | `splitlines()`: no line holds a boundary character; only the empty string has no lines |
| TextUtil.LinesRoundTrip | umn_hoax_detect/api.py:55 | `splitlines()` gives back the boundary-free lines a text was built from, each followed by a line feed, plus an optional last line without one; a final line feed opens no empty line |
| TextUtil.LineOccurs | umn_hoax_detect/api.py:55-58 | every line of the reply occurs in the reply |
| TextUtil.Strip | umn_hoax_detect/api.py:57 | `strip()` yields the infix between leading and trailing whitespace, which neither starts nor ends with whitespace |
| TextUtil.StripNonEmpty | umn_hoax_detect/api.py:57 | a string holding a non-whitespace character strips to a non-empty string |
| TextUtil.RemoveAbsent | umn_hoax_detect/api.py:58 | `replace(line, "")` changes nothing when the line does not occur |
| TextUtil.RemoveStep | umn_hoax_detect/api.py:58 | `replace(p, "")` deletes occurrences leftmost first and without overlap: text before the first occurrence is kept, that occurrence is deleted and deletion continues after it; with RemoveAbsent this fixes every occurrence |
| TextUtil.RemovePresent | umn_hoax_detect/api.py:58 | `replace(line, "")` removes at least the line's length when it occurs |
| UmnVectorStore.SearchSimilarChunks | umn_hoax_detect/vector_store.py:47-68 | at most top_k results, never more than the back end returned |
| UmnVectorStore.SearchOrigins | umn_hoax_detect/vector_store.py:56-68 | each result comes from a hit among the first top_k, in back-end order, with score 1 - distance and score >= threshold, copying the hit's fields; every hit left out scored below the threshold |
| UmnVectorStore.RaiseThreshold | umn_hoax_detect/vector_store.py:67 | a higher threshold answers the lower threshold's answer filtered again by score, so never more hits |
| UmnVectorStore.SchemaCaps | umn_hoax_detect/vector_store.py:110-119 | caps: title 512, content, text and fact 8192, conclusion 4096, embedding dimension 768 |
| UmnVectorStore.EnsureCollection | umn_hoax_detect/vector_store.py:89-134 | afterwards the collection exists with an index; an indexed collection is unchanged; an unindexed one gains the IVF_FLAT/COSINE index and keeps its schema and data; an absent one is created with the schema and index |
| UmnVectorStore.EnsureCollectionIdempotent | umn_hoax_detect/vector_store.py:92-107 | a second `create_collection` changes nothing |
| UmnVectorStore.Collection.CreateCollection | umn_hoax_detect/vector_store.py:89-134 | the collection's new state is EnsureCollection of the old one |
| UmnVectorStore.Collection.Insert | umn_hoax_detect/embeddings.py:68 | the collection records one more insert call with the given lists |
| HoaxVectorStore.CreateCollection | hoax_detect/services/vector_store.py:17-32 | caps: title 512, content 4096, fact 1024, conclusion 1024, no text field, embedding dimension 768 |
| HoaxVectorStore.SearchSimilarChunks | hoax_detect/services/vector_store.py:34-65 | at most top_k results, never more than the back end returned |
| HoaxVectorStore.SearchOrigins | hoax_detect/services/vector_store.py:56-65 | each result comes from a hit among the first top_k with score >= threshold, in back-end order, copying title, content, fact and conclusion with empty references and no embedding; every hit left out scored below |
| HoaxVectorStore.RaiseThreshold | hoax_detect/services/vector_store.py:64 | raising the threshold never lengthens the answer |
| UmnEmbeddings.MakeEntry | umn_hoax_detect/embeddings.py:48-55 | each stored field is a prefix of its source value within its cap: title and conclusion 512, content, text, fact and references 2048 |
| UmnEmbeddings.ChunkEntriesAt | umn_hoax_detect/embeddings.py:47-55 | one entry per chunk of a row, in chunk order |
| UmnEmbeddings.NoChunksNoEntries | umn_hoax_detect/embeddings.py:45-47 | a row the splitter makes no chunk of adds no entry to any insert |
| UmnEmbeddings.EntriesCount | umn_hoax_detect/embeddings.py:44-55 | there are as many entries as chunks over all rows |
| UmnEmbeddings.ToColumns | umn_hoax_detect/embeddings.py:49-55 | the seven lists always have the same length, the number of entries |
| UmnEmbeddings.ToColumnsAt | umn_hoax_detect/embeddings.py:49-55 | position i of each list holds the matching field of entry i |
| UmnEmbeddings.BatchesJoin | umn_hoax_detect/embeddings.py:44-94 | the inserts, joined, are the entries in row order, then chunk order |
| UmnEmbeddings.BatchesSizes | umn_hoax_detect/embeddings.py:41-94 | every insert holds 1 to 1000 entries and all but the last exactly 1000; no insert is empty |
| UmnEmbeddings.BatchCount | umn_hoax_detect/embeddings.py:58-94 | the number of inserts is the number of entries divided by 1000, rounded up |
| UmnEmbeddings.Flush | umn_hoax_detect/embeddings.py:58-68 | inserting the pending lists after whole batches adds them as the next insert |
| UmnEmbeddings.AddChunks | umn_hoax_detect/embeddings.py:47-79 | after one row's chunks, the inserted and pending entries extend by that row's entries, the inserts are whole batches of 1000 in order, the lists hold the pending entries, and the count is the number inserted; only the recorded inserts change, the schema and index stay |
| UmnEmbeddings.InsertEmbeddings | umn_hoax_detect/embeddings.py:17-99 | the collection receives exactly Batches(entries) as seven-list inserts, in order, and the final count is the number of chunks over all rows; only the recorded inserts change, the schema and index stay |
| UmnLoader.LoadDataset | umn_hoax_detect/data/loader.py:5-39 | a missing column is a KeyError naming the missing set; otherwise the frame has the four columns plus text and its rows are LoadRow of the input rows, in order |
| UmnLoader.FirstPassSteps | umn_hoax_detect/data/loader.py:28-31 | the four successive column slices make one truncation pass |
| UmnLoader.SecondPassIdle | umn_hoax_detect/data/loader.py:34-37 | the second truncation pass changes nothing |
| UmnLoader.LoadRowMeaning | umn_hoax_detect/data/loader.py:19-37 | a row is dropped iff its title or content is missing; a kept row has exactly the five columns, each of the four is its input's prefix up to 512/2048/2048/512, and text is the labelled text of the uncut values |
| UmnLoader.LoadedWithinCaps | umn_hoax_detect/data/loader.py:28-31 | loaded fields are within their caps and prefixes of the input values |
| UmnLoader.LoadedRows | umn_hoax_detect/data/loader.py:19 | kept rows keep the input order; every row left out lacks a title or a content |
| Mafindo.LabeledText | umn_hoax_detect/data/loader.py:22-25 | the embedding text starts with the title followed by a blank line |
| Mafindo.LabelledFields | project/data/loader.py:10-19 | after selection and the text column, the row has exactly the five columns, the four with their input values and text the labelled text |
| ProjectLoader.LoadDataset | project/data/loader.py:4-21 | a missing column is a KeyError naming the missing set; otherwise the frame has the four columns plus text and its rows are LoadRow of the input rows, in order |
| ProjectLoader.LoadRowMeaning | project/data/loader.py:10-19 | a row is dropped iff its title or content is missing; a kept row has the five columns, the four uncut input values and the labelled text |
| ProjectLoader.LoadedRows | project/data/loader.py:13-19 | the loaded rows, one per input row with title and content, in order, each carrying that row's values and its labelled text; every row left out lacks title or content |
| HoaxLoader.LoadDataset | hoax_detect/data/loader.py:11-35 | a missing column fails as RuntimeError(ValueError(missing set)); otherwise the frame has the four columns plus text and its rows are LoadRow of the input rows, in order |
| HoaxLoader.CleanSteps | hoax_detect/data/loader.py:27-31 | the five successive column assignments make Clean |
| HoaxLoader.LoadRowMeaning | hoax_detect/data/loader.py:23-31 | a row is dropped iff one of the four columns is missing; a kept row has exactly the five columns, the title uncut, content/fact/conclusion cut to 4096/2048/2048, and text the uncut content and fact joined by a blank line, cut to 8192 |
| HoaxLoader.LoadedRows | hoax_detect/data/loader.py:23 | kept rows keep the input order; every row left out misses one of the four columns |
| HoaxLoader.InitializeVectorDb | hoax_detect/data/loader.py:38-60 | fails iff loading fails; the insert gets the loaded rows; the steps taken are InitSteps |
| HoaxLoader.InitOrder | hoax_detect/data/loader.py:41-55 | clearing happens iff asked and before the collection is created; creating precedes loading; inserting is last and only after a successful load |
| Frames.Missing | hoax_detect/data/loader.py:17-19 | the missing set is empty iff the wanted columns are a subset of the frame's (`issubset`), and otherwise holds every wanted column the frame lacks and nothing else |
| Frames.ProjectComplete | umn_hoax_detect/data/loader.py:11-19 | when the dropna subset lies within the selected columns, a row survives dropna after selection iff it would have survived before it, so select and dropna commute |
| Frames.DataFrame.Select | project/data/loader.py:10 | `df[cols]` fails with KeyError naming the missing columns, else is a new frame of those columns |
| Frames.DataFrame.DropNa | project/data/loader.py:13 | in-place `dropna` keeps, in order, the rows complete in the subset |
| Frames.DataFrame.DroppedNa | hoax_detect/data/loader.py:23 | `dropna` into a new frame keeps, in order, the rows complete in the subset |
| Frames.DataFrame.Assign | umn_hoax_detect/data/loader.py:22-37 | a column assignment overwrites or appends the column and sets it row by row |

## Left out

- Network and service clients are out: Milvus connections, `load`, `release`, `flush` and the ANN search itself, plus the embedding model, the LangChain splitter, OpenRouter and Tavily. They are the function parameters described above, so nothing is claimed about chunk coverage, chunk overlap or embedding values.
- `read_csv` is out: the raw frame is an input.
- `load_trusted_domains`, the FastAPI app setup, CORS, logging, the `verbose` prompt log, `/health`, the Gradio app, the CLI, `data_summary.py` and all configuration loading are out.
- Floating point is out: scores and distances are `real`, and a float's f-string rendering is the `render` parameter.
- Unicode case mapping is out: `upper()` and `lower()` change ASCII letters only.
- `batch_insert_data` and `clear_collection` are not defined in the repository. Only their places in `initialize_vector_db`'s order are modelled.
- HoaxLoader.InitializeVectorDb: an exception from connecting, clearing, creating or inserting is not modelled, because those services are not part of this model. Only a failed load ends the run early.
- UmnApi.FactCheck: an exception raised by a retrieval leg or by the model call propagates out of the handler in the source. The services here always answer.
- The umn request's flags are `bool`, so the `None` that `Optional[bool]` admits (falsy) is not modelled.
- The hoax_detect search hit's fields are strings. A hit missing a field (`entity.get` answering None) would fail `HoaxChunk` validation in the source, and that is not modelled.
- UmnEmbeddings.InsertEmbeddings: the rows must have the columns the loop subscripts and a string `text`. A row without them raises KeyError or TypeError in the source, which is not modelled.
- UmnEmbeddings.InsertEmbeddings: the inserts are not checked against the umn schema, which has no `references` field and different caps.
- The commented-out `insert_embeddings` in `umn_hoax_detect/vector_store.py` and the progress messages are out.
- Concurrency is out: the async endpoints run one request at a time.

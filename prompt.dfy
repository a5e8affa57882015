/** `build_prompt` of hoax_detect: the query, the knowledge-base chunks and the
    web results laid out in a fixed template. */
module HoaxPrompt {
  import opened Wrappers
  import opened TextUtil
  import opened HoaxModels
  import Seqs

  const QueryHeader := "User Query:\n"
  const ContextHeader := "\nRetrieved Context:\n"
  const DatabaseHeader := "Database Results:\n\n"
  const WebHeader := "\n\nWeb Search Results:"
  const Footer := "Based on the above information, determine if the user query is factual or a hoax. "
    + "Provide:\n"
    + "1. A clear verdict (HOAKS or FAKTA)\n"
    + "2. A detailed explanation in Indonesian\n"
    + "3. Sources used (if any)\n"

  /** The block one knowledge-base chunk contributes. */
  function ChunkBlock(c: HoaxChunk): string
  {
    "\n---\n" + "Title: " + c.title + "\n" + "Content: " + c.content + "\n"
      + "Fact: " + c.fact + "\n" + "Conclusion: " + c.conclusion + "\n"
  }

  /** The chunk blocks in input order. */
  function ChunkBlocks(cs: seq<HoaxChunk>): string
  {
    Seqs.Flatten(cs, ChunkBlock)
  }

  /** The block of one web result with its 1-based number; `render` is the
      f-string rendering of the float score. */
  function ResultBlock(r: NewsResult, number: nat, render: real -> string): string
  {
    "\nResult " + Decimal(number) + ":\n" + "Title: " + r.title + "\n" + "URL: " + r.url + "\n"
      + "Content: " + r.content + "\n" + "Score: " + render(r.score) + "\n"
  }

  function ResultRenderer(render: real -> string): (NewsResult, nat) -> string
  {
    (r: NewsResult, number: nat) => ResultBlock(r, number, render)
  }

  /** The web-result blocks, numbered from 1 in input order. */
  function ResultBlocks(rs: seq<NewsResult>, render: real -> string): string
  {
    Seqs.Numbered(rs, 0, ResultRenderer(render))
  }

  /** Python truthiness of `tavily_results`: neither None nor empty. */
  predicate Truthy(t: Option<seq<NewsResult>>)
  {
    t.Some? && t.value != []
  }

  function Context(cs: seq<HoaxChunk>, t: Option<seq<NewsResult>>, render: real -> string): string
  {
    DatabaseHeader + ChunkBlocks(cs) + (if Truthy(t) then WebHeader + ResultBlocks(t.value, render) else "")
  }

  function Prompt(query: string, cs: seq<HoaxChunk>, t: Option<seq<NewsResult>>, render: real -> string): string
  {
    QueryHeader + query + "\n" + ContextHeader + Context(cs, t, render) + "\n" + Footer
  }

  /** `build_prompt`: grows the context block by block, then wraps it. */
  method BuildPrompt(query: string, chunks: seq<HoaxChunk>, tavily: Option<seq<NewsResult>>, render: real -> string)
    returns (p: string)
    ensures p == Prompt(query, chunks, tavily, render)
  {
    var context := AppendChunkBlocks(DatabaseHeader, chunks);
    if tavily.Some? && tavily.value != [] {
      context := AppendResultBlocks(context + WebHeader, tavily.value, render);
      Seqs.AppendAssoc(DatabaseHeader + ChunkBlocks(chunks), WebHeader, ResultBlocks(tavily.value, render));
      Seqs.AppendAssoc(DatabaseHeader, ChunkBlocks(chunks), WebHeader + ResultBlocks(tavily.value, render));
    } else {
      Seqs.AppendEmpty(context);
    }
    p := QueryHeader + query + "\n" + ContextHeader + context + "\n" + Footer;
  }

  /** The first loop of `build_prompt`: one block per chunk, appended in order. */
  method AppendChunkBlocks(start: string, chunks: seq<HoaxChunk>) returns (context: string)
    ensures context == start + ChunkBlocks(chunks)
  {
    context := start;
    for i := 0 to |chunks|
      invariant context == start + ChunkBlocks(chunks[..i])
    {
      Seqs.FlattenSnoc(chunks, i, ChunkBlock);
      Seqs.AppendAssoc(start, ChunkBlocks(chunks[..i]), ChunkBlock(chunks[i]));
      context := context + ChunkBlock(chunks[i]);
    }
    assert chunks[..|chunks|] == chunks;
  }

  /** The second loop of `build_prompt`: one numbered block per web result,
      appended in order. */
  method AppendResultBlocks(start: string, rs: seq<NewsResult>, render: real -> string) returns (context: string)
    ensures context == start + ResultBlocks(rs, render)
  {
    context := start;
    for i := 0 to |rs|
      invariant context == start + Seqs.Numbered(rs[..i], 0, ResultRenderer(render))
    {
      Seqs.NumberedSnoc(rs, i, ResultRenderer(render));
      assert ResultRenderer(render)(rs[i], i + 1) == ResultBlock(rs[i], i + 1, render);
      Seqs.AppendAssoc(start, Seqs.Numbered(rs[..i], 0, ResultRenderer(render)), ResultBlock(rs[i], i + 1, render));
      context := context + ResultBlock(rs[i], i + 1, render);
    }
    assert rs[..|rs|] == rs;
  }

  /** Length of everything before the web section: query part and database part. */
  function WebOffset(query: string, cs: seq<HoaxChunk>): nat
  {
    |QueryHeader + query + "\n" + ContextHeader + DatabaseHeader + ChunkBlocks(cs)|
  }

  /** The prompt opens with the query verbatim and closes with the fixed footer. */
  lemma {:induction false} PromptFrame(query: string, cs: seq<HoaxChunk>, t: Option<seq<NewsResult>>, render: real -> string)
    ensures var p := Prompt(query, cs, t, render);
      && QueryHeader + query + "\n" + ContextHeader + DatabaseHeader <= p
      && |p| >= |Footer| && p[|p| - |Footer|..] == Footer
  {
    var pre := QueryHeader + query + "\n" + ContextHeader;
    var web := if Truthy(t) then WebHeader + ResultBlocks(t.value, render) else "";
    var rest := ChunkBlocks(cs) + web;
    var head := pre + DatabaseHeader;
    Seqs.AppendAssoc(DatabaseHeader, ChunkBlocks(cs), web);
    Seqs.AppendAssoc(pre, DatabaseHeader, rest);
    Seqs.AppendAssoc(head, rest, "\n");
    Seqs.AppendAssoc(head, rest + "\n", Footer);
    assert Prompt(query, cs, t, render) == head + (rest + "\n" + Footer);
    Seqs.DropFront(pre + Context(cs, t, render) + "\n", Footer);
  }

  /** The web section is there exactly when the results are truthy: right after the
      chunk blocks stands either the "Web Search Results:" header or, when the
      results are None or empty, directly the footer; None and [] build the
      same prompt. */
  lemma {:induction false} WebSection(query: string, cs: seq<HoaxChunk>, t: Option<seq<NewsResult>>, render: real -> string)
    ensures var p := Prompt(query, cs, t, render);
      var at := WebOffset(query, cs);
      && at <= |p|
      && (Truthy(t) ==> WebHeader <= p[at..])
      && (!Truthy(t) ==> p[at..] == "\n" + Footer)
    ensures !Truthy(t) ==> Prompt(query, cs, t, render) == Prompt(query, cs, None, render)
  {
    var pre := QueryHeader + query + "\n" + ContextHeader;
    var front := pre + DatabaseHeader + ChunkBlocks(cs);
    var web := if Truthy(t) then WebHeader + ResultBlocks(t.value, render) else "";
    Seqs.AppendAssoc(pre, DatabaseHeader + ChunkBlocks(cs), web);
    Seqs.AppendAssoc(pre, DatabaseHeader, ChunkBlocks(cs));
    Seqs.AppendAssoc(front, web, "\n");
    Seqs.AppendAssoc(front, web + "\n", Footer);
    assert Prompt(query, cs, t, render) == front + (web + "\n" + Footer);
    Seqs.DropFront(front, web + "\n" + Footer);
    if Truthy(t) {
      Seqs.AppendAssoc(WebHeader, ResultBlocks(t.value, render), "\n");
      Seqs.AppendAssoc(WebHeader, ResultBlocks(t.value, render) + "\n", Footer);
    } else {
      assert web == [];
    }
  }

  /** Each chunk contributes exactly one block, in input order. */
  lemma {:induction false} ChunkBlockAt(cs: seq<HoaxChunk>, k: nat)
    requires k < |cs|
    ensures ChunkBlocks(cs) == ChunkBlocks(cs[..k]) + ChunkBlock(cs[k]) + ChunkBlocks(cs[k + 1..])
  {
    Seqs.FlattenAt(cs, k, ChunkBlock);
  }

  /** The k-th web result (0-based) is rendered once, as "Result k+1", after the
      results before it and before those after it, whose numbers continue from k+2. */
  lemma {:induction false} ResultBlockAt(rs: seq<NewsResult>, k: nat, render: real -> string)
    requires k < |rs|
    ensures ResultBlocks(rs, render)
         == ResultBlocks(rs[..k], render) + ResultBlock(rs[k], k + 1, render)
            + Seqs.Numbered(rs[k + 1..], k + 1, ResultRenderer(render))
  {
    Seqs.NumberedAt(rs, k, ResultRenderer(render));
  }
}

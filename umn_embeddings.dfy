/** `insert_embeddings` of umn_hoax_detect: every row's text is split into chunks,
    each chunk becomes one entry (its embedding and the row's cut metadata) in
    seven parallel lists, and the lists go to the collection 1000 entries at a
    time, the remainder in one last insert. */
module UmnEmbeddings {
  import opened Wrappers
  import opened Seqs
  import opened Frames
  import UmnVectorStore

  const BatchSize: nat := 1000

  const TitleCap: nat := 512
  const ContentCap: nat := 2048
  const TextCap: nat := 2048
  const FactCap: nat := 2048
  const ConclusionCap: nat := 512
  const ReferencesCap: nat := 2048

  /** One chunk's place in the seven lists. */
  datatype Entry = Entry(
    embedding: seq<real>,
    title: string,
    content: string,
    text: string,
    fact: string,
    conclusion: string,
    references: string)

  /** `str(row.get("references", ""))`. */
  function ReferencesOf(row: Row): string
  {
    if "references" in row then AsText(row["references"]) else ""
  }

  /** The entry of one chunk of a row: the chunk's embedding, the chunk itself and
      the row's metadata, each cut to its cap. */
  function MakeEntry(row: Row, embed: string -> seq<real>, chunk: string): (e: Entry)
    ensures |e.title| <= TitleCap && e.title <= AsText(Get(row, "title"))
    ensures |e.content| <= ContentCap && e.content <= AsText(Get(row, "content"))
    ensures |e.text| <= TextCap && e.text <= chunk
    ensures |e.fact| <= FactCap && e.fact <= AsText(Get(row, "fact"))
    ensures |e.conclusion| <= ConclusionCap && e.conclusion <= AsText(Get(row, "conclusion"))
    ensures |e.references| <= ReferencesCap && e.references <= ReferencesOf(row)
  {
    Entry(
      embed(chunk),
      Prefix(AsText(Get(row, "title")), TitleCap),
      Prefix(AsText(Get(row, "content")), ContentCap),
      Prefix(chunk, TextCap),
      Prefix(AsText(Get(row, "fact")), FactCap),
      Prefix(AsText(Get(row, "conclusion")), ConclusionCap),
      Prefix(ReferencesOf(row), ReferencesCap))
  }

  /** The entries of the given chunks of a row, in order. */
  function ChunkEntries(row: Row, embed: string -> seq<real>, chunks: seq<string>): seq<Entry>
  {
    if chunks == [] then []
    else ChunkEntries(row, embed, chunks[..|chunks| - 1]) + [MakeEntry(row, embed, chunks[|chunks| - 1])]
  }

  /** Entry k of a row's chunk entries is the entry of chunk k: one entry per
      chunk, in chunk order. */
  lemma {:induction false} ChunkEntriesAt(row: Row, embed: string -> seq<real>, chunks: seq<string>)
    ensures |ChunkEntries(row, embed, chunks)| == |chunks|
    ensures forall k :: 0 <= k < |chunks| ==> ChunkEntries(row, embed, chunks)[k] == MakeEntry(row, embed, chunks[k])
    decreases |chunks|
  {
    if chunks != [] {
      ChunkEntriesAt(row, embed, chunks[..|chunks| - 1]);
    }
  }

  /** `splitter.split_text(row["text"])`. */
  function RowChunks(row: Row, split: string -> seq<string>): seq<string>
  {
    split(AsText(Get(row, "text")))
  }

  function RowEntries(row: Row, split: string -> seq<string>, embed: string -> seq<real>): seq<Entry>
  {
    ChunkEntries(row, embed, RowChunks(row, split))
  }

  /** The entries of all rows: rows in order, each row's chunks in order. */
  function Entries(rows: seq<Row>, split: string -> seq<string>, embed: string -> seq<real>): seq<Entry>
  {
    if rows == [] then []
    else Entries(rows[..|rows| - 1], split, embed) + RowEntries(rows[|rows| - 1], split, embed)
  }

  /** A row the splitter makes no chunk of adds no entry, so it reaches no insert. */
  lemma {:induction false} NoChunksNoEntries(rows: seq<Row>, row: Row, split: string -> seq<string>, embed: string -> seq<real>)
    requires RowChunks(row, split) == []
    ensures Entries(rows + [row], split, embed) == Entries(rows, split, embed)
  {
    assert (rows + [row])[..|rows|] == rows;
    AppendEmpty(Entries(rows, split, embed));
  }

  /** The number of chunks the splitter makes of all rows together. */
  function ChunkCount(rows: seq<Row>, split: string -> seq<string>): nat
  {
    if rows == [] then 0
    else ChunkCount(rows[..|rows| - 1], split) + |RowChunks(rows[|rows| - 1], split)|
  }

  /** There is one entry per chunk of every row. */
  lemma {:induction false} EntriesCount(rows: seq<Row>, split: string -> seq<string>, embed: string -> seq<real>)
    ensures |Entries(rows, split, embed)| == ChunkCount(rows, split)
    decreases |rows|
  {
    if rows != [] {
      EntriesCount(rows[..|rows| - 1], split, embed);
      ChunkEntriesAt(rows[|rows| - 1], embed, RowChunks(rows[|rows| - 1], split));
    }
  }

  /** The seven lists with one more entry appended to each. */
  function Push(c: UmnVectorStore.Columns, e: Entry): UmnVectorStore.Columns
  {
    UmnVectorStore.Columns(
      c.embeddings + [e.embedding], c.titles + [e.title], c.contents + [e.content], c.texts + [e.text],
      c.facts + [e.fact], c.conclusions + [e.conclusion], c.references + [e.references])
  }

  /** The seven lists holding the given entries, appended one at a time. */
  function ToColumns(es: seq<Entry>): (c: UmnVectorStore.Columns)
    ensures |c.embeddings| == |c.titles| == |c.contents| == |c.texts| == |es|
    ensures |c.facts| == |c.conclusions| == |c.references| == |es|
  {
    if es == [] then UmnVectorStore.Columns([], [], [], [], [], [], [])
    else Push(ToColumns(es[..|es| - 1]), es[|es| - 1])
  }

  /** The entries cut into inserts: full batches of 1000 and a last, shorter,
      non-empty one when entries remain. */
  function Batches(es: seq<Entry>): seq<seq<Entry>>
    decreases |es|
  {
    if es == [] then []
    else if |es| <= BatchSize then [es]
    else [es[..BatchSize]] + Batches(es[BatchSize..])
  }

  /** The batches joined back together, in order. */
  function Joined(bs: seq<seq<Entry>>): seq<Entry>
  {
    if bs == [] then [] else bs[0] + Joined(bs[1..])
  }

  /** The inserts together hold the entries, in order: none is lost, repeated or
      moved. */
  lemma {:induction false} BatchesJoin(es: seq<Entry>)
    ensures Joined(Batches(es)) == es
    decreases |es|
  {
    if |es| > BatchSize {
      var rest := es[BatchSize..];
      BatchesJoin(rest);
      assert Batches(es)[1..] == Batches(rest);
      assert es[..BatchSize] + rest == es;
    } else if es != [] {
      assert Batches(es)[1..] == [];
      AppendEmpty(es);
    }
  }

  /** Every insert holds between 1 and 1000 entries, and every insert but the
      last exactly 1000. */
  lemma {:induction false} BatchesSizes(es: seq<Entry>)
    ensures forall k :: 0 <= k < |Batches(es)| ==> 0 < |Batches(es)[k]| <= BatchSize
    ensures forall k :: 0 <= k < |Batches(es)| - 1 ==> |Batches(es)[k]| == BatchSize
    decreases |es|
  {
    if |es| > BatchSize {
      var rest := es[BatchSize..];
      BatchesSizes(rest);
      assert forall k :: 1 <= k < |Batches(es)| ==> Batches(es)[k] == Batches(rest)[k - 1];
    }
  }

  /** The number of inserts is the number of entries divided by 1000, rounded up. */
  lemma {:induction false} BatchCount(es: seq<Entry>)
    ensures |Batches(es)| == (|es| + BatchSize - 1) / BatchSize
    decreases |es|
  {
    if |es| > BatchSize {
      BatchCount(es[BatchSize..]);
    }
  }

  lemma {:induction false} ToColumnsSnoc(es: seq<Entry>, e: Entry)
    ensures ToColumns(es + [e]) == Push(ToColumns(es), e)
  {
    assert (es + [e])[..|es|] == es;
  }

  /** Position i of every list holds the matching field of entry i. */
  lemma {:induction false} ToColumnsAt(es: seq<Entry>, i: nat)
    requires i < |es|
    ensures var c := ToColumns(es);
      && c.embeddings[i] == es[i].embedding && c.titles[i] == es[i].title
      && c.contents[i] == es[i].content && c.texts[i] == es[i].text && c.facts[i] == es[i].fact
      && c.conclusions[i] == es[i].conclusion && c.references[i] == es[i].references
    decreases |es|
  {
    if i < |es| - 1 {
      ToColumnsAt(es[..|es| - 1], i);
    }
  }

  /** A length made of whole batches. */
  predicate Whole(n: nat)
  {
    n == 0 || (n >= BatchSize && Whole(n - BatchSize))
  }

  /** A full batch after whole batches leaves whole batches. */
  lemma {:induction false} WholeStep(done: seq<Entry>, batch: seq<Entry>)
    requires Whole(|done|) && |batch| == BatchSize
    ensures Whole(|done + batch|)
  {
    var n := |done + batch|;
    assert n - BatchSize == |done|;
  }

  /** Cutting after a whole number of batches cuts the batches there too. */
  lemma {:induction false} BatchesAppend(a: seq<Entry>, b: seq<Entry>)
    requires Whole(|a|)
    ensures Batches(a + b) == Batches(a) + Batches(b)
    decreases |a|
  {
    if a == [] {
      assert a + b == b;
    } else {
      var rest := a[BatchSize..];
      assert (a + b)[..BatchSize] == a[..BatchSize];
      assert (a + b)[BatchSize..] == rest + b;
      BatchesAppend(rest, b);
      if |a| == BatchSize {
        assert a[..BatchSize] == a && rest == [];
        assert rest + b == b;
        if b == [] {
          assert a + b == a;
        }
      } else {
        assert Batches(a) == [a[..BatchSize]] + Batches(rest);
      }
    }
  }

  /** One more chunk of the current row adds its entry at the end. */
  lemma {:induction false} ChunkStep(before: seq<Entry>, row: Row, embed: string -> seq<real>, chunks: seq<string>, c: nat)
    requires c < |chunks|
    ensures before + ChunkEntries(row, embed, chunks[..c + 1])
         == before + ChunkEntries(row, embed, chunks[..c]) + [MakeEntry(row, embed, chunks[c])]
  {
    assert chunks[..c + 1][..c] == chunks[..c];
    AppendAssoc(before, ChunkEntries(row, embed, chunks[..c]), [MakeEntry(row, embed, chunks[c])]);
  }

  /** After all chunks of row r the entries are those of the first r + 1 rows. */
  lemma {:induction false} RowStep(rows: seq<Row>, r: nat, split: string -> seq<string>, embed: string -> seq<real>)
    requires r < |rows|
    ensures var chunks := RowChunks(rows[r], split);
      Entries(rows[..r], split, embed) + ChunkEntries(rows[r], embed, chunks)
        == Entries(rows[..r + 1], split, embed)
  {
    assert rows[..r + 1][..r] == rows[..r];
  }

  /** Inserting a batch after whole batches adds its lists as one more insert. */
  lemma {:induction false} Flush(done: seq<Entry>, pending: seq<Entry>)
    requires Whole(|done|) && 0 < |pending| <= BatchSize
    ensures Map(Batches(done + pending), ToColumns) == Map(Batches(done), ToColumns) + [ToColumns(pending)]
  {
    BatchesAppend(done, pending);
    assert Batches(pending) == [pending];
    MapAppend(Batches(done), [pending], ToColumns);
  }

  /** The seven lists when no entry is pending. */
  const NoColumns := UmnVectorStore.Columns([], [], [], [], [], [], [])

  /** The inner loop of `insert_embeddings` for one row: each chunk's entry is
      appended to the seven lists (the fields of `batch`), and a full batch of
      1000 is inserted and the lists cleared. Ghost `done` are the entries
      inserted so far, `pending` those still in the lists, `start` the inserts the
      collection held before. */
  method AddChunks(coll: UmnVectorStore.Collection, row: Row, chunks: seq<string>, embed: string -> seq<real>,
                   batch0: UmnVectorStore.Columns, count0: nat,
                   ghost start: seq<UmnVectorStore.Columns>, ghost done0: seq<Entry>, ghost pending0: seq<Entry>)
    returns (batch: UmnVectorStore.Columns, insertedCount: nat, ghost done: seq<Entry>, ghost pending: seq<Entry>)
    requires coll.Valid() && coll.present
    requires Whole(|done0|) && |pending0| < BatchSize && batch0 == ToColumns(pending0) && count0 == |done0|
    requires coll.batches == start + Map(Batches(done0), ToColumns)
    modifies coll`batches
    ensures coll.Valid() && coll.present
    ensures coll.schema == old(coll.schema) && coll.index == old(coll.index)
    ensures done + pending == done0 + pending0 + ChunkEntries(row, embed, chunks)
    ensures Whole(|done|) && |pending| < BatchSize && batch == ToColumns(pending) && insertedCount == |done|
    ensures coll.batches == start + Map(Batches(done), ToColumns)
  {
    batch, insertedCount, done, pending := batch0, count0, done0, pending0;
    ghost var seen := done0 + pending0;
    ghost var before := seen;
    AppendEmpty(before);
    for c := 0 to |chunks|
      invariant seen == before + ChunkEntries(row, embed, chunks[..c])
      invariant done + pending == seen
      invariant Whole(|done|) && |pending| < BatchSize
      invariant batch == ToColumns(pending)
      invariant coll.batches == start + Map(Batches(done), ToColumns)
      invariant insertedCount == |done|
      invariant coll.Valid() && coll.present
    {
      var entry := MakeEntry(row, embed, chunks[c]);
      batch := Push(batch, entry);
      ToColumnsSnoc(pending, entry);
      ChunkStep(before, row, embed, chunks, c);
      AppendAssoc(done, pending, [entry]);
      pending, seen := pending + [entry], seen + [entry];
      if |batch.embeddings| == BatchSize {
        coll.Insert(batch);
        insertedCount := insertedCount + |batch.embeddings|;
        Flush(done, pending);
        AppendAssoc(start, Map(Batches(done), ToColumns), [ToColumns(pending)]);
        WholeStep(done, pending);
        AppendEmpty(done + pending);
        done, pending := done + pending, [];
        batch := NoColumns;
      }
    }
    assert chunks[..|chunks|] == chunks;
  }

  /** A row `insert_embeddings` can read: `row["title"]` and the other
      subscripts find their column, and the text handed to the splitter is a
      string. */
  predicate Ingestible(row: Row)
  {
    "title" in row && "content" in row && "fact" in row && "conclusion" in row
    && "text" in row && row["text"].Str?
  }

  /** `insert_embeddings(df)`; `split` is the text splitter and `embed` the
      embedding model. The collection must exist already. The seven lists are
      the fields of `batch`; the answer is the final `inserted_count`, the
      number of chunks of all rows. */
  method InsertEmbeddings(df: DataFrame, coll: UmnVectorStore.Collection, split: string -> seq<string>, embed: string -> seq<real>)
    returns (insertedCount: nat)
    requires coll.Valid() && coll.present
    requires forall i :: 0 <= i < |df.rows| ==> Ingestible(df.rows[i])
    modifies coll`batches
    ensures coll.Valid() && coll.present
    ensures coll.schema == old(coll.schema) && coll.index == old(coll.index)
    ensures coll.batches == old(coll.batches) + Map(Batches(Entries(df.rows, split, embed)), ToColumns)
    ensures insertedCount == |Entries(df.rows, split, embed)| == ChunkCount(df.rows, split)
  {
    var rows := df.rows;
    var batch := NoColumns;
    insertedCount := 0;
    ghost var start := coll.batches;
    ghost var done: seq<Entry> := [];
    ghost var pending: seq<Entry> := [];
    AppendEmpty(start);
    for r := 0 to |rows|
      invariant done + pending == Entries(rows[..r], split, embed)
      invariant Whole(|done|) && |pending| < BatchSize
      invariant batch == ToColumns(pending)
      invariant coll.batches == start + Map(Batches(done), ToColumns)
      invariant insertedCount == |done|
      invariant coll.Valid() && coll.present
    {
      var chunks := split(AsText(Get(rows[r], "text")));
      RowStep(rows, r, split, embed);
      batch, insertedCount, done, pending := AddChunks(coll, rows[r], chunks, embed, batch, insertedCount, start, done, pending);
    }
    assert rows[..|rows|] == rows;
    if |batch.embeddings| > 0 {
      coll.Insert(batch);
      insertedCount := insertedCount + |batch.embeddings|;
      Flush(done, pending);
      AppendAssoc(start, Map(Batches(done), ToColumns), [ToColumns(pending)]);
      done, pending := done + pending, [];
    } else {
      AppendEmpty(done);
    }
    EntriesCount(rows, split, embed);
  }
}

/** The hoax_detect data loader: `load_dataset` validates the columns, drops
    incomplete rows, keeps the four columns, adds the content-and-fact embedding
    text and cuts the fields; `initialize_vector_db` runs the ingestion steps in
    order. */
module HoaxLoader {
  import opened Wrappers
  import opened Seqs
  import opened Frames
  import opened Mafindo
  import Milvus
  import HoaxVectorStore

  const TextCap: nat := 8192
  const ContentCap: nat := 4096
  const FactCap: nat := 2048
  const ConclusionCap: nat := 2048

  /** `df["content"] + "\n\n" + df["fact"]`. */
  function Combined(row: Row): Cell
  {
    Str(AsText(Get(row, "content")) + "\n\n" + AsText(Get(row, "fact")))
  }

  /** The column assignments after selection: `text` is the content and fact
      joined by a blank line, cut to its cap, and content, fact and conclusion are
      cut to theirs; the title is not cut. */
  function Clean(row: Row): Row
  {
    row["text" := Str(Prefix(AsText(Get(row, "content")) + "\n\n" + AsText(Get(row, "fact")), TextCap))]
       ["content" := Str(Prefix(AsText(Get(row, "content")), ContentCap))]
       ["fact" := Str(Prefix(AsText(Get(row, "fact")), FactCap))]
       ["conclusion" := Str(Prefix(AsText(Get(row, "conclusion")), ConclusionCap))]
  }

  /** The five column assignments, one after the other, make Clean: the slice of
      `text` reads the joined text, every other one reads only its own column. */
  lemma {:induction false} CleanSteps(rows: seq<Row>)
    ensures Map(Map(Map(Map(Map(rows, AssignTo("text", Combined)),
      AssignTo("text", Slice("text", TextCap))),
      AssignTo("content", Slice("content", ContentCap))),
      AssignTo("fact", Slice("fact", FactCap))),
      AssignTo("conclusion", Slice("conclusion", ConclusionCap))) == Map(rows, Clean)
  {
    NamesDistinct();
    var r1 := Map(rows, AssignTo("text", Combined));
    var r2 := Map(r1, AssignTo("text", Slice("text", TextCap)));
    var r3 := Map(r2, AssignTo("content", Slice("content", ContentCap)));
    var r4 := Map(r3, AssignTo("fact", Slice("fact", FactCap)));
    var r5 := Map(r4, AssignTo("conclusion", Slice("conclusion", ConclusionCap)));
    forall i | 0 <= i < |rows|
      ensures r5[i] == Clean(rows[i])
    {
      var row := rows[i];
      assert Get(r1[i], "text") == Combined(row);
      assert Get(r2[i], "content") == Get(row, "content");
      assert Get(r3[i], "fact") == Get(row, "fact");
      assert Get(r4[i], "conclusion") == Get(row, "conclusion");
    }
  }

  /** A complete row cut down to the four columns. */
  function KeepProjected(raw: Row): Option<Row>
  {
    if Complete(raw, Columns) then Some(Project(raw, Columns)) else None
  }

  /** What a raw CSV row becomes, or None when `dropna` removes it. */
  function LoadRow(raw: Row): Option<Row>
  {
    if Complete(raw, Columns) then Some(Clean(Project(raw, Columns))) else None
  }

  /** `load_dataset`: a missing column is a ValueError naming the missing set,
      re-raised as RuntimeError. */
  method LoadDataset(raw: DataFrame) returns (r: Result<DataFrame, FrameError>)
    ensures r.Failure? <==> Missing(raw.columns, Columns) != {}
    ensures r.Failure? ==> r.error == RuntimeError(ValueError(Missing(raw.columns, Columns)))
    ensures r.Success? ==>
      && fresh(r.value) && r.value.Valid()
      && r.value.columns == Columns + ["text"]
      && r.value.rows == FilterMap(raw.rows, LoadRow)
  {
    var missing := Missing(raw.columns, Columns);
    if missing != {} {
      return Failure(RuntimeError(ValueError(missing)));
    }
    var complete := raw.DroppedNa(Columns);
    var selected := complete.Select(Columns);
    assert selected.Success?;
    var df := selected.value;
    ghost var picked := df.rows;
    df.Assign("text", Combined);
    assert df.columns == Columns + ["text"];
    df.Assign("text", Slice("text", TextCap));
    df.Assign("content", Slice("content", ContentCap));
    df.Assign("fact", Slice("fact", FactCap));
    df.Assign("conclusion", Slice("conclusion", ConclusionCap));
    CleanSteps(picked);
    FilterMapThenMap(raw.rows, KeepComplete(Columns), Projector(Columns), KeepProjected);
    FilterMapThenMap(raw.rows, KeepProjected, Clean, LoadRow);
    r := Success(df);
  }

  /** A row is dropped exactly when one of the four columns is missing. A kept
      row has the four columns and `text`: the title as it was, content, fact and
      conclusion cut to their caps, and `text` the full content and fact joined by
      a blank line, cut to 8192. */
  lemma {:induction false} LoadRowMeaning(raw: Row)
    ensures LoadRow(raw).None? <==>
      Get(raw, "title").NaN? || Get(raw, "content").NaN? || Get(raw, "fact").NaN? || Get(raw, "conclusion").NaN?
    ensures LoadRow(raw).Some? ==>
      var out := LoadRow(raw).value;
      && out.Keys == {"title", "content", "fact", "conclusion", "text"}
      && out["title"] == Get(raw, "title")
      && out["content"] == Str(Prefix(AsText(Get(raw, "content")), ContentCap))
      && out["fact"] == Str(Prefix(AsText(Get(raw, "fact")), FactCap))
      && out["conclusion"] == Str(Prefix(AsText(Get(raw, "conclusion")), ConclusionCap))
      && out["text"] == Str(Prefix(AsText(Get(raw, "content")) + "\n\n" + AsText(Get(raw, "fact")), TextCap))
  {
    NamesDistinct();
    if Complete(raw, Columns) {
      var row := Project(raw, Columns);
      assert row.Keys == {"title", "content", "fact", "conclusion"};
    } else {
      var c :| c in Columns && !Get(raw, c).Str?;
    }
  }

  /** The loaded rows keep the input order: one per complete input row; every
      row left out misses a value in one of the four columns. */
  lemma {:induction false} LoadedRows(raw: seq<Row>) returns (idx: seq<nat>)
    ensures var rows := FilterMap(raw, LoadRow);
      && |idx| == |rows|
      && Ascending(idx, |raw|)
      && (forall k :: 0 <= k < |idx| ==> LoadRow(raw[idx[k]]) == Some(rows[k]))
      && (forall j :: 0 <= j < |raw| && j !in idx ==> exists c :: c in Columns && Get(raw[j], c).NaN?)
  {
    idx := FilterMapOrigins(raw, LoadRow);
    forall j | 0 <= j < |raw| && j !in idx
      ensures exists c :: c in Columns && Get(raw[j], c).NaN?
    {
      assert LoadRow(raw[j]).None?;
    }
  }

  /** One ingestion step, as `initialize_vector_db` performs them. */
  datatype Step =
    | Connect
    | Clear
    | CreateCollection(schema: Milvus.CollectionSchema)
    | Load
    | BatchInsert(rows: nat)

  /** The steps of an initialisation: connect, clear when asked, create the
      collection (which connects again), load, and insert when loading
      succeeded. */
  function InitSteps(clearExisting: bool, loaded: Option<nat>): seq<Step>
  {
    var connected := if clearExisting then [Connect] + [Clear] else [Connect];
    var created := connected + [Connect, CreateCollection(HoaxVectorStore.Schema)] + [Load];
    if loaded.Some? then created + [BatchInsert(loaded.value)] else created
  }

  /** `initialize_vector_db`. `batchInsert` is the insert call, answering the
      number of records it stored; the first exception ends the run and is
      re-raised. */
  method InitializeVectorDb(clearExisting: bool, raw: DataFrame, batchInsert: seq<Row> -> nat)
    returns (steps: seq<Step>, r: Result<nat, FrameError>)
    ensures r.Failure? <==> Missing(raw.columns, Columns) != {}
    ensures r.Success? ==> r.value == batchInsert(FilterMap(raw.rows, LoadRow))
    ensures steps == InitSteps(clearExisting, if r.Success? then Some(|FilterMap(raw.rows, LoadRow)|) else None)
  {
    steps := [Connect];
    if clearExisting {
      steps := steps + [Clear];
    }
    steps := steps + [Connect, CreateCollection(HoaxVectorStore.CreateCollection())];
    steps := steps + [Load];
    var df := LoadDataset(raw);
    if df.Failure? {
      return steps, Failure(df.error);
    }
    steps := steps + [BatchInsert(|df.value.rows|)];
    r := Success(batchInsert(df.value.rows));
  }

  /** The order the steps keep: clearing happens exactly when asked and before the
      collection is created; creating precedes loading, and inserting comes last
      and only after a successful load. */
  lemma {:induction false} InitOrder(clearExisting: bool, loaded: Option<nat>)
    ensures var steps := InitSteps(clearExisting, loaded);
      && (Clear in steps <==> clearExisting)
      && (forall i, j :: 0 <= i < |steps| && 0 <= j < |steps| && steps[i] == Clear && steps[j].CreateCollection? ==> i < j)
      && (forall i, j :: 0 <= i < |steps| && 0 <= j < |steps| && steps[i].CreateCollection? && steps[j] == Load ==> i < j)
      && (forall i :: 0 <= i < |steps| && steps[i].BatchInsert? ==> i == |steps| - 1 && loaded.Some?)
      && (loaded.Some? ==> steps[|steps| - 1] == BatchInsert(loaded.value))
  {
  }
}

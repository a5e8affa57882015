/** `load_dataset` of umn_hoax_detect: select the four columns, drop rows without
    title or content, build the labelled embedding text from the full values, then
    cut the four metadata columns to the collection's lengths — twice. */
module UmnLoader {
  import opened Wrappers
  import opened Seqs
  import opened Frames
  import opened Mafindo

  const TitleCap: nat := 512
  const ContentCap: nat := 2048
  const FactCap: nat := 2048
  const ConclusionCap: nat := 512

  /** The first truncation pass: each of the four columns becomes the first
      characters of its text, up to the column's cap. */
  function FirstPass(row: Row): Row
  {
    row["title" := Str(Prefix(AsText(Get(row, "title")), TitleCap))]
       ["content" := Str(Prefix(AsText(Get(row, "content")), ContentCap))]
       ["fact" := Str(Prefix(AsText(Get(row, "fact")), FactCap))]
       ["conclusion" := Str(Prefix(AsText(Get(row, "conclusion")), ConclusionCap))]
  }

  /** The four column assignments of a pass, one after the other, make FirstPass:
      each reads only the column it writes. */
  lemma {:induction false} FirstPassSteps(rows: seq<Row>)
    ensures Map(Map(Map(Map(rows, AssignTo("title", Slice("title", TitleCap))),
      AssignTo("content", Slice("content", ContentCap))),
      AssignTo("fact", Slice("fact", FactCap))),
      AssignTo("conclusion", Slice("conclusion", ConclusionCap))) == Map(rows, FirstPass)
  {
    var r1 := Map(rows, AssignTo("title", Slice("title", TitleCap)));
    var r2 := Map(r1, AssignTo("content", Slice("content", ContentCap)));
    var r3 := Map(r2, AssignTo("fact", Slice("fact", FactCap)));
    var r4 := Map(r3, AssignTo("conclusion", Slice("conclusion", ConclusionCap)));
    forall i | 0 <= i < |rows|
      ensures r4[i] == FirstPass(rows[i])
    {
      var row := rows[i];
      assert Get(r1[i], "content") == Get(row, "content");
      assert Get(r2[i], "fact") == Get(row, "fact");
      assert Get(r3[i], "conclusion") == Get(row, "conclusion");
    }
  }

  /** The column assignments after `dropna`, in order: the text, then both passes. */
  function Clean(row: Row): Row
  {
    FirstPass(LabelThenCut(row))
  }

  function LabelThenCut(row: Row): Row
  {
    FirstPass(AssignTo("text", LabeledText)(row))
  }

  /** What a raw CSV row becomes, or None when `dropna` removes it. */
  function LoadRow(raw: Row): Option<Row>
  {
    var row := Project(raw, Columns);
    if Complete(row, Required) then Some(Clean(row)) else None
  }

  function KeepSelected(raw: Row): Option<Row>
  {
    KeepComplete(Required)(Project(raw, Columns))
  }

  method LoadDataset(raw: DataFrame) returns (r: Result<DataFrame, FrameError>)
    ensures r.Failure? <==> Missing(raw.columns, Columns) != {}
    ensures r.Failure? ==> r.error == KeyError(Missing(raw.columns, Columns))
    ensures r.Success? ==>
      && fresh(r.value) && r.value.Valid()
      && r.value.columns == Columns + ["text"]
      && r.value.rows == FilterMap(raw.rows, LoadRow)
  {
    var selected := raw.Select(Columns);
    if selected.Failure? {
      return selected;
    }
    var df := selected.value;
    df.DropNa(Required);
    ghost var kept := df.rows;
    df.Assign("text", LabeledText);
    assert df.columns == Columns + ["text"];
    ghost var labelled := df.rows;
    df.Assign("title", Slice("title", TitleCap));
    df.Assign("content", Slice("content", ContentCap));
    df.Assign("fact", Slice("fact", FactCap));
    df.Assign("conclusion", Slice("conclusion", ConclusionCap));
    FirstPassSteps(labelled);
    ghost var once := df.rows;
    df.Assign("title", Slice("title", TitleCap));
    df.Assign("content", Slice("content", ContentCap));
    df.Assign("fact", Slice("fact", FactCap));
    df.Assign("conclusion", Slice("conclusion", ConclusionCap));
    FirstPassSteps(once);
    CleanRows(raw.rows, kept, labelled, once, df.rows);
    r := Success(df);
  }

  /** The proof that the loader's steps compute LoadRow row by row. */
  lemma {:induction false} CleanRows(raw: seq<Row>, kept: seq<Row>, labelled: seq<Row>, once: seq<Row>, twice: seq<Row>)
    requires kept == FilterMap(Map(raw, Projector(Columns)), KeepComplete(Required))
    requires labelled == Map(kept, AssignTo("text", LabeledText))
    requires once == Map(labelled, FirstPass)
    requires twice == Map(once, FirstPass)
    ensures twice == FilterMap(raw, LoadRow)
  {
    MapThenMap(kept, AssignTo("text", LabeledText), FirstPass, LabelThenCut);
    MapThenMap(kept, LabelThenCut, FirstPass, Clean);
    MapThenFilterMap(raw, Projector(Columns), KeepComplete(Required), KeepSelected);
    FilterMapThenMap(raw, KeepSelected, Clean, LoadRow);
  }

  /** What one pass leaves in each column: the four cut to their caps, every
      other column as it was. */
  lemma {:induction false} FirstPassFields(row: Row)
    ensures var out := FirstPass(row);
      && out.Keys == row.Keys + {"title", "content", "fact", "conclusion"}
      && out["title"] == Str(Prefix(AsText(Get(row, "title")), TitleCap))
      && out["content"] == Str(Prefix(AsText(Get(row, "content")), ContentCap))
      && out["fact"] == Str(Prefix(AsText(Get(row, "fact")), FactCap))
      && out["conclusion"] == Str(Prefix(AsText(Get(row, "conclusion")), ConclusionCap))
      && (forall c :: c in row && c !in Columns ==> out[c] == row[c])
  {
  }

  /** The second pass finds every field within its cap and changes nothing. */
  lemma {:induction false} SecondPassIdle(row: Row)
    ensures FirstPass(FirstPass(row)) == FirstPass(row)
  {
    var once := FirstPass(row);
    var twice := FirstPass(once);
    NamesDistinct();
    FirstPassFields(row);
    FirstPassFields(once);
    PrefixIdempotent(AsText(Get(row, "title")), TitleCap);
    PrefixIdempotent(AsText(Get(row, "content")), ContentCap);
    PrefixIdempotent(AsText(Get(row, "fact")), FactCap);
    PrefixIdempotent(AsText(Get(row, "conclusion")), ConclusionCap);
    assert twice.Keys == once.Keys;
    forall c | c in once
      ensures twice[c] == once[c]
    {
    }
  }

  /** A row is dropped exactly when its title or content is missing. A kept row
      has the four columns and `text`: each column is a prefix of its value's text
      within the column's cap, equal to it when it already fitted, and `text` is the
      labelled text of the full, uncut values. */
  lemma {:induction false} LoadRowMeaning(raw: Row)
    ensures LoadRow(raw).None? <==> Get(raw, "title").NaN? || Get(raw, "content").NaN?
    ensures LoadRow(raw).Some? ==>
      var out := LoadRow(raw).value;
      && out.Keys == {"title", "content", "fact", "conclusion", "text"}
      && out["title"] == Str(Prefix(AsText(Get(raw, "title")), TitleCap))
      && out["content"] == Str(Prefix(AsText(Get(raw, "content")), ContentCap))
      && out["fact"] == Str(Prefix(AsText(Get(raw, "fact")), FactCap))
      && out["conclusion"] == Str(Prefix(AsText(Get(raw, "conclusion")), ConclusionCap))
      && out["text"] == LabeledText(raw)
  {
    NamesDistinct();
    var row := Project(raw, Columns);
    assert Get(row, "title") == Get(raw, "title") && Get(row, "content") == Get(raw, "content");
    if Complete(row, Required) {
      var labelled := AssignTo("text", LabeledText)(row);
      LabelledFields(raw);
      SecondPassIdle(labelled);
      FirstPassFields(labelled);
    }
  }

  /** The caps every loaded row keeps, each field a prefix of the source value. */
  lemma {:induction false} LoadedWithinCaps(raw: Row)
    requires LoadRow(raw).Some?
    ensures var out := LoadRow(raw).value;
      && |AsText(out["title"])| <= TitleCap && AsText(out["title"]) <= AsText(Get(raw, "title"))
      && |AsText(out["content"])| <= ContentCap && AsText(out["content"]) <= AsText(Get(raw, "content"))
      && |AsText(out["fact"])| <= FactCap && AsText(out["fact"]) <= AsText(Get(raw, "fact"))
      && |AsText(out["conclusion"])| <= ConclusionCap && AsText(out["conclusion"]) <= AsText(Get(raw, "conclusion"))
  {
    LoadRowMeaning(raw);
  }

  /** The loaded rows keep the input order: one per input row with a title and a
      content; every row left out lacks one of them. */
  lemma {:induction false} LoadedRows(raw: seq<Row>) returns (idx: seq<nat>)
    ensures var rows := FilterMap(raw, LoadRow);
      && |idx| == |rows|
      && Ascending(idx, |raw|)
      && (forall k :: 0 <= k < |idx| ==> LoadRow(raw[idx[k]]) == Some(rows[k]))
      && (forall j :: 0 <= j < |raw| && j !in idx ==> Get(raw[j], "title").NaN? || Get(raw[j], "content").NaN?)
  {
    idx := FilterMapOrigins(raw, LoadRow);
    forall j | 0 <= j < |raw| && j !in idx
      ensures Get(raw[j], "title").NaN? || Get(raw[j], "content").NaN?
    {
      LoadRowMeaning(raw[j]);
    }
  }
}

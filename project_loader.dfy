/** `load_dataset` of the project package: select the four columns, drop rows
    without title or content, add the labelled embedding text. */
module ProjectLoader {
  import opened Wrappers
  import opened Seqs
  import opened Frames
  import opened Mafindo

  /** What a raw CSV row becomes, or None when `dropna` removes it. */
  function LoadRow(raw: Row): Option<Row>
  {
    var row := Project(raw, Columns);
    if Complete(row, Required) then Some(AssignTo("text", LabeledText)(row)) else None
  }

  method LoadDataset(raw: DataFrame) returns (r: Result<DataFrame, FrameError>)
    ensures r.Failure? <==> Missing(raw.columns, Columns) != {}
    ensures r.Failure? ==> r.error == KeyError(Missing(raw.columns, Columns))
    ensures r.Success? ==>
      && fresh(r.value) && r.value.Valid()
      && r.value.columns == Columns + ["text"]
      && r.value.rows == FilterMap(raw.rows, LoadRow)
  {
    var selected := raw.Select(Columns);
    if selected.Failure? {
      return selected;
    }
    var df := selected.value;
    df.DropNa(Required);
    df.Assign("text", LabeledText);
    ghost var keep := (x: Row) => KeepComplete(Required)(Project(x, Columns));
    MapThenFilterMap(raw.rows, Projector(Columns), KeepComplete(Required), keep);
    FilterMapThenMap(raw.rows, keep, AssignTo("text", LabeledText), LoadRow);
    r := Success(df);
  }

  /** A row is dropped exactly when its title or content is missing; a kept row
      has the four columns and `text`, the four with their input values untouched
      and `text` the labelled text. */
  lemma {:induction false} LoadRowMeaning(raw: Row)
    ensures LoadRow(raw).None? <==> Get(raw, "title").NaN? || Get(raw, "content").NaN?
    ensures LoadRow(raw).Some? ==>
      var out := LoadRow(raw).value;
      && out.Keys == {"title", "content", "fact", "conclusion", "text"}
      && (forall c :: c in Columns ==> out[c] == Get(raw, c))
      && out["text"] == LabeledText(raw)
  {
    NamesDistinct();
    var row := Project(raw, Columns);
    assert Get(row, "title") == Get(raw, "title") && Get(row, "content") == Get(raw, "content");
    if Complete(row, Required) {
      LabelledFields(raw);
    }
  }

  /** The loaded rows, completely: one per input row with a title and a content,
      in input order, each carrying that row's values and a text that begins with
      its title; every row left out lacks a title or a content. */
  lemma {:induction false} LoadedRows(raw: seq<Row>) returns (idx: seq<nat>)
    ensures var rows := FilterMap(raw, LoadRow);
      && |idx| == |rows|
      && Ascending(idx, |raw|)
      && (forall k :: 0 <= k < |idx| ==>
            && Get(raw[idx[k]], "title").Str? && Get(raw[idx[k]], "content").Str?
            && rows[k].Keys == {"title", "content", "fact", "conclusion", "text"}
            && (forall c :: c in Columns ==> rows[k][c] == Get(raw[idx[k]], c))
            && rows[k]["text"] == LabeledText(raw[idx[k]]))
      && (forall j :: 0 <= j < |raw| && j !in idx ==> Get(raw[j], "title").NaN? || Get(raw[j], "content").NaN?)
  {
    idx := FilterMapOrigins(raw, LoadRow);
    forall k | 0 <= k < |idx|
      ensures LoadRow(raw[idx[k]]) == Some(FilterMap(raw, LoadRow)[k])
    {
    }
    forall i | 0 <= i < |raw|
      ensures LoadRow(raw[i]).None? <==> Get(raw[i], "title").NaN? || Get(raw[i], "content").NaN?
      ensures LoadRow(raw[i]).Some? ==>
        var out := LoadRow(raw[i]).value;
        && out.Keys == {"title", "content", "fact", "conclusion", "text"}
        && (forall c :: c in Columns ==> out[c] == Get(raw[i], c))
        && out["text"] == LabeledText(raw[i])
    {
      LoadRowMeaning(raw[i]);
    }
  }
}

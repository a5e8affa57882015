/** The shape of the Mafindo hoax dataset as all three loaders configure it. */
module Mafindo {
  import opened Frames

  /** `COLUMNS` of every configuration. */
  const Columns: seq<string> := ["title", "content", "fact", "conclusion"]

  /** The columns whose missing values drop a row in the umn and project loaders. */
  const Required: seq<string> := ["title", "content"]

  /** The embedding text of a row: title, content, fact and conclusion with
      their labels, missing values rendered "nan". */
  function LabeledText(row: Row): (c: Cell)
    ensures c.Str?
    ensures AsText(Get(row, "title")) + "\n\n" <= c.s
  {
    var title := AsText(Get(row, "title"));
    var rest := AsText(Get(row, "content")) + "\n\nFact: " + AsText(Get(row, "fact"))
      + "\n\nConclusion: " + AsText(Get(row, "conclusion"));
    assert title + "\n\n" + rest == (title + "\n\n") + rest;
    Str(title + "\n\n" + rest)
  }

  /** The five column names are different strings. */
  lemma {:induction false} NamesDistinct()
    ensures "title" != "content" && "title" != "fact" && "title" != "conclusion" && "title" != "text"
    ensures "content" != "fact" && "content" != "conclusion" && "content" != "text"
    ensures "fact" != "conclusion" && "fact" != "text" && "conclusion" != "text"
  {
    assert "title"[0] == 't' && "content"[0] == 'c' && "fact"[0] == 'f';
    assert "conclusion"[0] == 'c' && "text"[0] == 't';
    assert "title"[1] == 'i' && "text"[1] == 'e' && "content"[2] == 'n' && "conclusion"[2] == 'n';
    assert "content"[3] == 't' && "conclusion"[3] == 'c';
  }

  /** The selected row with its labelled text: the four columns hold the input's
      values and `text` their labelled text. */
  lemma {:induction false} LabelledFields(raw: Row)
    ensures var labelled := AssignTo("text", LabeledText)(Project(raw, Columns));
      && labelled.Keys == {"title", "content", "fact", "conclusion", "text"}
      && (forall c :: c in Columns ==> Get(labelled, c) == Get(raw, c))
      && labelled["text"] == LabeledText(raw)
  {
    NamesDistinct();
    var row := Project(raw, Columns);
    assert forall c :: c in Columns ==> Get(row, c) == Get(raw, c);
    assert LabeledText(row) == LabeledText(raw);
    assert row.Keys == {"title", "content", "fact", "conclusion"};
  }
}

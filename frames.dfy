/** The part of a pandas DataFrame the loaders use: named columns, rows of cells
    that may be missing (NaN), and the three in-place operations the loaders
    apply — column selection, `dropna` and whole-column assignment. */
module Frames {
  import opened Wrappers
  import opened Seqs

  /** A cell: a string, or the NaN pandas reads for an empty CSV field. */
  datatype Cell = NaN | Str(s: string)

  /** `str(x)`, `astype(str)` and f-string rendering of a cell. */
  function AsText(c: Cell): string
  {
    match c
    case NaN => "nan"
    case Str(s) => s
  }

  /** One row, keyed by column name. */
  type Row = map<string, Cell>

  /** `row[col]`; a key the row lacks reads as NaN. */
  function Get(row: Row, col: string): Cell
  {
    if col in row then row[col] else NaN
  }

  /** The exceptions pandas and the loaders raise. */
  datatype FrameError =
    | KeyError(missing: set<string>)
    | ValueError(missing: set<string>)
    | RuntimeError(cause: FrameError)

  /** The wanted columns a frame lacks: none exactly when the wanted columns
      are a subset of the frame's, and otherwise all of them and nothing else. */
  function Missing(have: seq<string>, want: seq<string>): (m: set<string>)
    ensures m == {} <==> forall c :: c in want ==> c in have
    ensures forall c :: c in m ==> c in want && c !in have
    ensures forall c :: c in want && c !in have ==> c in m
  {
    var m := set c | c in want && c !in have;
    assert forall c :: c in want && c !in have ==> c in m;
    m
  }

  /** The row cut down to the given columns. */
  function Project(row: Row, cols: seq<string>): (r: Row)
    ensures forall c :: c in r <==> c in cols
    ensures forall c :: c in cols ==> r[c] == Get(row, c)
  {
    map c | c in cols :: Get(row, c)
  }

  function Projector(cols: seq<string>): Row -> Row
  {
    (row: Row) => Project(row, cols)
  }

  /** Whether the row has a value in each of the subset's columns. */
  predicate Complete(row: Row, subset: seq<string>)
  {
    forall c :: c in subset ==> Get(row, c).Str?
  }

  /** When the `dropna` subset lies within the selected columns, selection
      neither fills nor empties a subset cell: `dropna` keeps the same rows
      before or after `df[cols]`. */
  lemma ProjectComplete(row: Row, cols: seq<string>, subset: seq<string>)
    requires forall c :: c in subset ==> c in cols
    ensures Complete(Project(row, cols), subset) <==> Complete(row, subset)
  {
    forall c | c in subset
      ensures Get(Project(row, cols), c) == Get(row, c)
    {
    }
  }

  function KeepComplete(subset: seq<string>): Row -> Option<Row>
  {
    (row: Row) => if Complete(row, subset) then Some(row) else None
  }

  /** The row with column `col` set to `f(row)`. */
  function AssignTo(col: string, f: Row -> Cell): Row -> Row
  {
    (row: Row) => row[col := f(row)]
  }

  /** `df[col].astype(str).str.slice(0, n)`: the first n characters of the
      column's text, computed row by row; on a column of strings this is also
      `.str.slice(0, n)` and `.apply(lambda x: x[:n])`. */
  function Slice(col: string, n: nat): Row -> Cell
  {
    (row: Row) => Str(Prefix(AsText(Get(row, col)), n))
  }

  class DataFrame {
    var columns: seq<string>
    var rows: seq<Row>

    ghost predicate Valid()
      reads this
    {
      WellShaped(columns, rows)
    }

    constructor (columns: seq<string>, rows: seq<Row>)
      ensures this.columns == columns && this.rows == rows
    {
      this.columns := columns;
      this.rows := rows;
    }

    /** `df[cols].copy()`: a new frame of just those columns, in that order, or a
        KeyError naming the columns the frame lacks. */
    method Select(cols: seq<string>) returns (r: Result<DataFrame, FrameError>)
      ensures r.Failure? <==> Missing(columns, cols) != {}
      ensures r.Failure? ==> r.error == KeyError(Missing(columns, cols))
      ensures r.Success? ==>
        && fresh(r.value) && r.value.Valid()
        && r.value.columns == cols
        && r.value.rows == Map(rows, Projector(cols))
    {
      var missing := Missing(columns, cols);
      if missing != {} {
        return Failure(KeyError(missing));
      }
      var selected := new DataFrame(cols, Map(rows, Projector(cols)));
      r := Success(selected);
    }

    /** `df.dropna(subset=subset, inplace=True)`: the rows with a value in every
        subset column stay, in their order. */
    method DropNa(subset: seq<string>)
      modifies this
      ensures columns == old(columns)
      ensures rows == FilterMap(old(rows), KeepComplete(subset))
      ensures old(Valid()) ==> Valid()
    {
      ghost var before := rows;
      rows := FilterMap(rows, KeepComplete(subset));
      if WellShaped(columns, before) {
        ghost var idx := FilterMapOrigins(before, KeepComplete(subset));
        forall i | 0 <= i < |rows|
          ensures rows[i].Keys == set c | c in columns
        {
          assert KeepComplete(subset)(before[idx[i]]) == Some(rows[i]);
        }
      }
    }

    /** `df.dropna(subset=subset)`: a new frame of the rows with a value in every
        subset column, in their order; this frame is left as it is. */
    method DroppedNa(subset: seq<string>) returns (df: DataFrame)
      ensures fresh(df)
      ensures df.columns == columns
      ensures df.rows == FilterMap(rows, KeepComplete(subset))
    {
      df := new DataFrame(columns, FilterMap(rows, KeepComplete(subset)));
    }

    /** `df[col] = ...` with a value computed from each row: an existing column is
        overwritten in place, a new one is appended. */
    method Assign(col: string, f: Row -> Cell)
      modifies this
      ensures columns == if col in old(columns) then old(columns) else old(columns) + [col]
      ensures rows == Map(old(rows), AssignTo(col, f))
      ensures old(Valid()) ==> Valid()
    {
      rows := Map(rows, AssignTo(col, f));
      if col !in columns {
        columns := columns + [col];
      }
    }
  }

  /** Every row holds a cell for exactly the given columns. */
  ghost predicate WellShaped(columns: seq<string>, rows: seq<Row>)
  {
    forall i :: 0 <= i < |rows| ==> rows[i].Keys == set c | c in columns
  }
}

/**
 * A data frame as the pipeline sees it: named, typed columns and rows mapping
 * column names to cells. A row without an entry for a column holds a missing
 * value there (`NaN`, `None`, `NaT`).
 */
module Frames {
  import opened Wrappers

  datatype Cell = Null | Num(n: real) | Text(s: string) | Time(t: int)

  /** The column dtypes the feature selection distinguishes. */
  datatype DType = Numeric | Object | DateTime

  datatype Column = Column(name: string, dtype: DType)

  type Row = map<string, Cell>

  datatype Frame = Frame(columns: seq<Column>, rows: seq<Row>)

  function Get(row: Row, col: string): Cell {
    if col in row then row[col] else Null
  }

  function Names(cols: seq<Column>): (names: seq<string>)
    ensures |names| == |cols|
    ensures forall i :: 0 <= i < |cols| ==> names[i] == cols[i].name
  {
    if cols == [] then [] else [cols[0].name] + Names(cols[1..])
  }

  lemma NamesAppend(a: seq<Column>, b: seq<Column>)
    ensures Names(a + b) == Names(a) + Names(b)
  {
    assert forall i :: 0 <= i < |a + b| ==> Names(a + b)[i] == (Names(a) + Names(b))[i];
  }

  /** Some row holds a value in column `col` (`frame[col].notna().any()`). */
  predicate Observed(rows: seq<Row>, col: string) {
    exists i :: 0 <= i < |rows| && Get(rows[i], col) != Null
  }

  /**
   * `pd.to_numeric(..., errors="coerce")` of one cell: a number stays, text is
   * what `parse` reads in it (`None` when it is not a number), and a missing
   * or time cell is missing.
   */
  function ToNumber(c: Cell, parse: string -> Option<real>): (v: Option<real>)
    ensures c.Num? ==> v == Some(c.n)
    ensures c.Text? ==> v == parse(c.s)
    ensures c.Null? || c.Time? ==> v.None?
  {
    match c
    case Num(n) => Some(n)
    case Text(s) => parse(s)
    case _ => None
  }

  function NumCell(x: Option<real>): Cell {
    if x.Some? then Num(x.value) else Null
  }

  function TextOf(c: Cell): Option<string> {
    if c.Text? then Some(c.s) else None
  }

  function TextCell(t: Option<string>): Cell {
    if t.Some? then Text(t.value) else Null
  }

  function Retype(cols: seq<Column>, name: string, dtype: DType): (r: seq<Column>)
    ensures Names(r) == Names(cols)
  {
    var r := seq(|cols|, i requires 0 <= i < |cols| => if cols[i].name == name then Column(name, dtype) else cols[i]);
    assert forall i :: 0 <= i < |cols| ==> Names(r)[i] == Names(cols)[i];
    r
  }

  /** `frame[name] = cells`: the column is replaced where it exists and added at the end otherwise. */
  function WithColumn(f: Frame, name: string, dtype: DType, cells: seq<Cell>): (r: Frame)
    requires |cells| == |f.rows|
    ensures name in Names(r.columns)
    ensures forall n :: n in Names(f.columns) ==> n in Names(r.columns)
    ensures |r.rows| == |f.rows|
    ensures forall i :: 0 <= i < |f.rows| ==> Get(r.rows[i], name) == cells[i]
    ensures forall i, n :: 0 <= i < |f.rows| && n != name ==> Get(r.rows[i], n) == Get(f.rows[i], n)
  {
    Frame(SetColumn(f.columns, name, dtype), SetCells(f.rows, name, cells))
  }

  /** The column list after `frame[name] = ...`: `name` retyped where present, appended otherwise. */
  function SetColumn(columns: seq<Column>, name: string, dtype: DType): (r: seq<Column>)
    ensures name in Names(r)
    ensures forall n :: n in Names(columns) ==> n in Names(r)
    ensures forall n :: n in Names(r) ==> n in Names(columns) || n == name
  {
    var cols := if name in Names(columns) then Retype(columns, name, dtype) else columns + [Column(name, dtype)];
    assert name in Names(cols) && forall n :: n in Names(columns) ==> n in Names(cols) by {
      if name !in Names(columns) {
        assert Names(cols)[|columns|] == name;
        forall n | n in Names(columns) ensures n in Names(cols) {
          var j :| 0 <= j < |columns| && Names(columns)[j] == n;
          assert Names(cols)[j] == n;
        }
      }
    }
    assert forall n :: n in Names(cols) ==> n in Names(columns) || n == name by {
      if name !in Names(columns) {
        NamesAppend(columns, [Column(name, dtype)]);
      }
    }
    cols
  }

  /** The column list after `frame[n] = ...` for each of `names` in turn. */
  function AddColumns(columns: seq<Column>, names: seq<string>, dtype: DType): (r: seq<Column>)
    ensures forall n :: n in names ==> n in Names(r)
    ensures forall n :: n in Names(columns) ==> n in Names(r)
    ensures forall n :: n in Names(r) ==> n in Names(columns) || n in names
    decreases |names|
  {
    if names == [] then columns
    else
      var r := AddColumns(SetColumn(columns, names[0], dtype), names[1..], dtype);
      assert forall n :: n in names ==> n == names[0] || n in names[1..] by {
        assert names == [names[0]] + names[1..];
      }
      r
  }

  /** Every row with its `name` cell set to the matching new cell. */
  function SetCells(rows: seq<Row>, name: string, cells: seq<Cell>): (r: seq<Row>)
    requires |cells| == |rows|
    ensures |r| == |rows|
    ensures forall i :: 0 <= i < |rows| ==> Get(r[i], name) == cells[i]
    ensures forall i, n :: 0 <= i < |rows| && n != name ==> Get(r[i], n) == Get(rows[i], n)
  {
    seq(|rows|, i requires 0 <= i < |rows| => rows[i][name := cells[i]])
  }
}

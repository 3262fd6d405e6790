/**
 * The uploaded rows as the analysis routes and components see them, and the two ways
 * they read a column: the numeric-column test shared by the statistical route, the
 * correlation route and the correlation component, and the list of a column's values
 * that convert to numbers.
 */
module Dataset {
  import opened Options
  import opened JsValues

  /** One row: column name to cell. A name that is not a key of the row reads as `undefined`. */
  type Row = map<string, Cell>

  function CellOf(row: Row, col: string): Cell {
    if col in row then row[col] else Undefined
  }

  /** `data.map(row => row[col]).filter(v => v !== null && v !== "")`. */
  function NonBlankCells(data: seq<Row>, col: string): (cells: seq<Cell>)
    ensures |cells| <= |data|
    ensures forall k :: 0 <= k < |cells| ==> !IsBlank(cells[k])
  {
    if |data| == 0 then []
    else
      var c := CellOf(data[0], col);
      (if IsBlank(c) then [] else [c]) + NonBlankCells(data[1..], col)
  }

  /** The numeric-column test: the column has a cell that is neither `null` nor `""`, and the
      first such cell converts with `Number`. */
  predicate IsNumericColumn(data: seq<Row>, col: string) {
    var cells := NonBlankCells(data, col);
    |cells| > 0 && ToNumber(cells[0]).Some?
  }

  /** The contribution of one row to a column's values: its cell if `Number` converts it. */
  function RowValue(row: Row, col: string): seq<real> {
    match ToNumber(CellOf(row, col))
    case Some(v) => [v]
    case None => []
  }

  /** `data.map(row => Number(row[col])).filter(v => !isNaN(v))`. */
  function NumericValues(data: seq<Row>, col: string): (values: seq<real>)
    ensures |values| <= |data|
  {
    if |data| == 0 then [] else RowValue(data[0], col) + NumericValues(data[1..], col)
  }

  /** `columns.filter(col => IsNumericColumn(data, col))`, in the order of `columns`. */
  function NumericColumns(data: seq<Row>, columns: seq<string>): (numeric: seq<string>)
    ensures |numeric| <= |columns|
    ensures forall c :: c in numeric <==> c in columns && IsNumericColumn(data, c)
  {
    if |columns| == 0 then []
    else
      (if IsNumericColumn(data, columns[0]) then [columns[0]] else [])
        + NumericColumns(data, columns[1..])
  }

  /** The values of a column are read row after row: appending a row appends its value. */
  lemma {:induction false} NumericValuesSnoc(data: seq<Row>, row: Row, col: string)
    ensures NumericValues(data + [row], col) == NumericValues(data, col) + RowValue(row, col)
  {
    if |data| == 0 {
      assert NumericValues([row], col) == RowValue(row, col) + NumericValues([], col);
    } else {
      assert (data + [row])[1..] == data[1..] + [row];
      NumericValuesSnoc(data[1..], row, col);
    }
  }

  /** `null` and `""` are read as 0 and kept; a text that is not a number is dropped. */
  lemma BlankAndWordCells(row: Row, col: string)
    ensures IsBlank(CellOf(row, col)) ==> RowValue(row, col) == [0.0]
    ensures CellOf(row, col).Str? && StringToNumber(CellOf(row, col).s).None?
            ==> RowValue(row, col) == []
  {
  }

  /** A boolean cell passes the blank filter and `Number` reads it as 1 or 0. */
  lemma BooleanCell(row: Row, col: string)
    requires CellOf(row, col).Bool?
    ensures !IsBlank(CellOf(row, col))
    ensures RowValue(row, col) == [if CellOf(row, col).b then 1.0 else 0.0]
  {
  }

  /** A column of booleans is numeric: every row contributes its flag as 1 or 0, so the
      statistics of such a column describe the share of `true`. */
  lemma {:induction false} BooleanColumn(data: seq<Row>, col: string)
    requires forall k :: 0 <= k < |data| ==> CellOf(data[k], col).Bool?
    ensures |data| > 0 ==> IsNumericColumn(data, col)
    ensures |NumericValues(data, col)| == |data|
    ensures forall k :: 0 <= k < |data| ==>
              NumericValues(data, col)[k] == if CellOf(data[k], col).b then 1.0 else 0.0
  {
    if |data| > 0 {
      BooleanColumn(data[1..], col);
      BooleanCell(data[0], col);
      assert NonBlankCells(data, col)[0] == CellOf(data[0], col);
      forall k | 1 <= k < |data|
        ensures NumericValues(data, col)[k] == if CellOf(data[k], col).b then 1.0 else 0.0
      {
        assert data[1..][k - 1] == data[k];
      }
    }
  }

  /** A column missing from the first row is never numeric: `undefined` is not filtered out
      and is NaN for `Number`. */
  lemma MissingInFirstRow(data: seq<Row>, col: string)
    requires |data| > 0 && col !in data[0]
    ensures !IsNumericColumn(data, col)
  {
    assert NonBlankCells(data, col)[0] == Undefined;
  }

  /** A numeric column yields at least one value, so the statistics never divide by zero. */
  lemma NumericColumnHasValues(data: seq<Row>, col: string)
    requires IsNumericColumn(data, col)
    ensures |NumericValues(data, col)| > 0
  {
    var c := CellOf(data[0], col);
    if !IsBlank(c) {
      assert NonBlankCells(data, col)[0] == c;
    }
    assert RowValue(data[0], col) != [];
  }
}

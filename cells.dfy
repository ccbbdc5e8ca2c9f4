/**
 * Cells of the tabular dataset the file readers hand to the converter, and the
 * few Python operations the converter applies to a cell: `str()`, truth value,
 * `is_nan_or_empty` and pandas' missing-value test.
 */
module Cells {
  import opened Wrappers
  import opened Strings
  import opened Calendar

  /** A pandas Timestamp: a valid date inside pandas' nanosecond range. */
  type Timestamp = d: Date | IsValid(d) && 1677 <= d.year <= 2262 witness Date(1, 1, 2000)

  /**
   * One cell: Python `None`, float NaN, pandas `NaT` (a missing date), a string,
   * an integer, or a Timestamp (time of day midnight).
   */
  datatype Cell = Null | NaN | NaT | Text(text: string) | Int(n: int) | Temporal(date: Timestamp)

  /** `str(value)`. */
  function Str(c: Cell): string {
    match c
    case Null => "None"
    case NaN => "nan"
    case NaT => "NaT"
    case Text(s) => s
    case Int(n) => IntToString(n)
    case Temporal(d) => IsoText(d)
  }

  /** `bool(value)`: None, 0 and "" are false; NaN, NaT and Timestamps are true. */
  predicate Truthy(c: Cell) {
    match c
    case Null => false
    case NaN => true
    case NaT => true
    case Text(s) => s != ""
    case Int(n) => n != 0
    case Temporal(_) => true
  }

  /** `is_nan_or_empty(value)`: None, a blank string or a float NaN. */
  predicate IsNanOrEmpty(c: Cell) {
    c.Null? || c.NaN? || (c.Text? && Strip(c.text) == "")
  }

  /** `not value or is_nan_or_empty(value)`, the guard every resolver opens with. */
  predicate Blank(c: Cell) {
    !Truthy(c) || IsNanOrEmpty(c)
  }

  /** A non-empty text without surrounding whitespace is not blank. */
  lemma StrippedTextNotBlank(s: string)
    requires Strip(s) == s && s != ""
    ensures !Blank(Text(s))
  {
    var c := Text(s);
    assert c.text == s;
    assert Truthy(c);
    assert !IsNanOrEmpty(c);
  }

  /** pandas' missing values, the ones `dropna()` removes. */
  predicate IsMissing(c: Cell) {
    c.Null? || c.NaN? || c.NaT?
  }

  /** A dataset: ordered column labels and ordered rows of cells. */
  datatype Dataset = Dataset(columns: seq<string>, rows: seq<seq<Cell>>)

  /** Position of the column labelled `name` (pandas readers give unique labels). */
  function ColumnIndex(columns: seq<string>, name: string): (r: Option<nat>)
    ensures r.Some? ==> r.value < |columns| && columns[r.value] == name
    ensures r.None? ==> name !in columns
  {
    if columns == [] then None
    else if columns[0] == name then Some(0)
    else match ColumnIndex(columns[1..], name)
      case Some(i) => Some(i + 1)
      case None => None
  }

  /** `row.get(name)`: the cell under that label, or None when there is none. */
  function RowGet(columns: seq<string>, row: seq<Cell>, name: string): Cell {
    match ColumnIndex(columns, name)
    case Some(i) => if i < |row| then row[i] else Null
    case None => Null
  }

  /** `df[name]`: the cells of one column, top to bottom. */
  function ColumnCells(ds: Dataset, name: string): (cs: seq<Cell>)
    ensures |cs| == |ds.rows|
  {
    seq(|ds.rows|, i requires 0 <= i < |ds.rows| => RowGet(ds.columns, ds.rows[i], name))
  }
}

/**
 * The loaded table of case records and the derived `valor_numerico` column
 * that `DataProcessor._load_data` adds to it.
 */
module Frames {
  import opened Wrappers
  import opened PyStr
  import opened Currency
  import opened Columns

  /** One spreadsheet row: column name to cell text, `None` for a missing (NaN) cell. */
  type Row = map<string, Option<string>>

  /** The cell of `row` under `column`; a column the row lacks reads as missing. */
  function Cell(row: Row, column: string): Option<string> {
    if column in row then row[column] else None
  }

  /** A table as read from the spreadsheet, before any column is derived. */
  datatype Frame = Frame(columns: seq<string>, rows: seq<Row>)

  /** The name of the derived cause-value column. */
  const ValueColumn: string := "valor_numerico"

  /** The exact headers the fallback branches of the cause-value choice test for. */
  const CurrentHeader: string := "Valor da Causa Atual"
  const PlainHeader: string := "Valor da Causa"

  /** A loaded row: its cells and its `valor_numerico` amount. */
  datatype Record = Record(cells: Row, amount: real)

  /** The table held by a `DataProcessor` once loading is done. */
  datatype Table = Table(columns: seq<string>, records: seq<Record>)

  /** `df.empty`: no rows or no columns. */
  predicate Empty(t: Table) {
    |t.records| == 0 || |t.columns| == 0
  }

  /**
   * A cell of a loaded record. The `valor_numerico` column holds floats,
   * which read back as text through `show` (Python's `str` of a float).
   */
  function Field(r: Record, column: string, show: real -> string): Option<string> {
    if column == ValueColumn then Some(show(r.amount)) else Cell(r.cells, column)
  }

  /** The amount of a record, as a key for sums and rankings. */
  function AmountOf(r: Record): real {
    r.amount
  }

  /** The column list after `df[name] = ...`: a new name is appended, an existing one stays in place. */
  function WithColumn(columns: seq<string>, name: string): (r: seq<string>)
    ensures name in r
    ensures forall c :: c in r <==> c in columns || c == name
    ensures columns <= r
    ensures |r| == |columns| + (if name in columns then 0 else 1)
  {
    if name in columns then columns else columns + [name]
  }

  /**
   * The column `valor_numerico` is cleaned from: the searched cause-value
   * column if it is truthy, else the exact "Valor da Causa Atual" header, else
   * the exact "Valor da Causa" header, else none.
   */
  function CauseSource(columns: seq<string>): Option<string> {
    var found := CauseColumn(columns);
    if found.Some? && found.value != "" then found
    else if CurrentHeader in columns then Some(CurrentHeader)
    else if PlainHeader in columns then Some(PlainHeader)
    else None
  }

  /** The `valor_numerico` of one row: the cleaned cause value, or 0 without a cause column. */
  function CauseAmount(row: Row, source: Option<string>): real {
    match source
    case Some(c) => CleanCurrency(Cell(row, c))
    case None => 0.0
  }

  /** The rows of a frame with their cause amounts. */
  function WithAmounts(rows: seq<Row>, source: Option<string>): (r: seq<Record>)
    ensures |r| == |rows|
    ensures forall i :: 0 <= i < |rows| ==> r[i] == Record(rows[i], CauseAmount(rows[i], source))
  {
    seq(|rows|, i requires 0 <= i < |rows| => Record(rows[i], CauseAmount(rows[i], source)))
  }

  /**
   * The processor's table after `_load_data`: none when the file could not be
   * read; an empty frame as read (no column derived, so its records carry the
   * unused amount 0); otherwise the frame with `valor_numerico` set.
   */
  function Load(source: Option<Frame>): Option<Table> {
    match source
    case None => None
    case Some(f) =>
      if |f.rows| == 0 || |f.columns| == 0 then Some(Table(f.columns, WithAmounts(f.rows, None)))
      else Some(Table(WithColumn(f.columns, ValueColumn), WithAmounts(f.rows, CauseSource(f.columns))))
  }

  /** A column the cause-value search picks has a non-empty name. */
  lemma CauseColumnNonEmpty(columns: seq<string>)
    requires CauseColumn(columns).Some?
    ensures CauseColumn(columns).value != ""
  {
    CauseColumnChoice(columns);
    var c := CauseColumn(columns).value;
    if c == "" {
      if IsCurrentCauseValue(c) {
        ContainsChar(Lower(c), "valor da causa atual", 0);
      } else {
        ContainsChar(Lower(c), "valor da causa", 0);
      }
      assert false;
    }
  }

  /**
   * The fallback branches of the cause-value choice never decide anything:
   * the column `valor_numerico` is cleaned from is exactly the searched one.
   */
  lemma CauseSourceIsSearched(columns: seq<string>)
    ensures CauseSource(columns) == CauseColumn(columns)
  {
    if CauseColumn(columns).Some? {
      CauseColumnNonEmpty(columns);
    } else if CurrentHeader in columns || PlainHeader in columns {
      ExactCauseHeadersFound(columns, CurrentHeader, PlainHeader);
    }
  }

  /**
   * Loading a non-empty frame keeps every column and row, adds
   * `valor_numerico`, and gives each row the cleaned value of the chosen
   * cause-value column, or 0 in every row when there is none.
   */
  lemma LoadSpec(f: Frame)
    requires |f.rows| > 0 && |f.columns| > 0
    ensures Load(Some(f)).Some?
    ensures var t := Load(Some(f)).value;
      && !Empty(t)
      && ValueColumn in t.columns
      && f.columns <= t.columns
      && |t.records| == |f.rows|
      && forall i :: 0 <= i < |f.rows| ==>
           t.records[i].cells == f.rows[i]
           && t.records[i].amount == (match CauseColumn(f.columns)
                                      case Some(c) => CleanCurrency(Cell(f.rows[i], c))
                                      case None => 0.0)
  {
    CauseSourceIsSearched(f.columns);
  }
}

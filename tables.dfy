/** Tables as the dashboard sees a worksheet once it has been read: an ordered
    list of column names and a sequence of rows, each row mapping a column name
    to a cell that may be missing (NaN / NaT / an absent key). */
module Tables {

  datatype Option<T> = None | Some(value: T)

  /** A calendar day, as the date parser leaves it. */
  datatype Date = Date(year: nat, month: nat, day: nat)

  /** A calendar month, the bucket of the trend table. */
  datatype Month = Month(year: nat, month: nat)

  /** A scalar cell value. */
  datatype Value = Text(text: string) | Number(number: int) | Day(date: Date)

  type Row = map<string, Option<Value>>

  datatype Table = Table(columns: seq<string>, rows: seq<Row>)

  // The column names the analysis recognises.
  const LikelihoodColumn := "Likelihood"
  const SeverityColumn := "Severity"
  const RiskRatingColumn := "Risk Rating"
  const DateColumn := "Tanggal"
  const KindColumn := "Jenis"
  const StatusColumn := "Status"

  /** The categorical columns that are filtered, summarised and charted, in this order. */
  const CategoryColumns: seq<string> := [KindColumn, SeverityColumn, StatusColumn]

  /** The cell of a row in a column; an absent key reads as missing. */
  function Get(r: Row, column: string): Option<Value>
  {
    if column in r then r[column] else None
  }

  /** `df.empty`: no rows or no columns. */
  predicate IsEmpty(t: Table)
  {
    |t.rows| == 0 || |t.columns| == 0
  }

  /** The non-missing values of one column, in row order. */
  function ColumnValues(rows: seq<Row>, column: string): (vs: seq<Value>)
    ensures |vs| <= |rows|
    ensures forall v :: v in vs <==> exists i :: 0 <= i < |rows| && Get(rows[i], column) == Some(v)
  {
    if rows == [] then []
    else
      var rest := ColumnValues(rows[1..], column);
      assert forall i :: 1 <= i < |rows| ==> rows[i] == rows[1..][i - 1];
      match Get(rows[0], column)
      case Some(v) => [v] + rest
      case None => rest
  }

  /** Chronological order on days, as `datetime.date` compares them. */
  predicate DateLe(a: Date, b: Date)
  {
    a.year < b.year
    || (a.year == b.year && a.month < b.month)
    || (a.year == b.year && a.month == b.month && a.day <= b.day)
  }

  function MonthOf(d: Date): Month
  {
    Month(d.year, d.month)
  }

  /** Strict chronological order on months. */
  predicate Before(a: Month, b: Month)
  {
    a.year < b.year || (a.year == b.year && a.month < b.month)
  }
}

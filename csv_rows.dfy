/** SimpleCSVParser's row utilities: keeping the rows whose column passes a
    condition, and collecting the distinct non-blank values of a column. */
module CsvRows {
  import opened Wrappers
  import opened Text
  import opened PyFloat
  import opened Sequences

  /** A value stored in a row dict: a string as csv.DictReader gives it, a
      number, or None (DictReader's filler for a short row). */
  datatype Cell = CStr(s: string) | CNum(x: real) | CNone

  type Row = map<string, Cell>

  /** The condition filter_rows compares against: an int or float, a
      string, or None. */
  datatype Condition = Numeric(c: real) | Literal(t: string) | NoneCond

  /** row.get(column, 0), then float(value) when that is a string float()
      accepts. */
  function Value(row: Row, column: string): Cell {
    if column !in row then CNum(0.0)
    else match row[column]
      case CStr(s) => (match ParseFloat(s) case Some(x) => CNum(x) case None => CStr(s))
      case other => other
  }

  /** The comparison filter_rows makes: `value > condition` for a numeric
      condition, which raises TypeError unless the value is a number, and
      `value == condition` otherwise. */
  function Test(row: Row, column: string, cond: Condition): Result<bool> {
    var v := Value(row, column);
    match cond
    case Numeric(c) => if v.CNum? then Ok(v.x > c) else Raises(TypeError)
    case Literal(t) => Ok(v == CStr(t))
    case NoneCond => Ok(v == CNone)
  }

  /** A row is appended exactly when the comparison succeeds and holds; a
      row whose comparison raises is skipped. */
  predicate Keeps(column: string, cond: Condition, row: Row) {
    Test(row, column, cond) == Ok(true)
  }

  /** filter_rows. */
  method FilterRows(data: seq<Row>, column: string, cond: Condition) returns (filtered: seq<Row>)
    ensures filtered == Filter(data, (row: Row) => Keeps(column, cond, row))
  {
    filtered := [];
    for i := 0 to |data|
      invariant filtered == Filter(data[..i], (row: Row) => Keeps(column, cond, row))
    {
      var row := data[i];
      var test := Test(row, column, cond);
      if test.Ok? && test.value {
        filtered := filtered + [row];
      }
      assert data[..i + 1] == data[..i] + [row];
      FilterSnoc(data[..i], row, (r: Row) => Keeps(column, cond, r));
    }
    assert data[..|data|] == data;
  }

  /** The kept rows are rows of the input, in the input's order. */
  lemma FilterRowsOrder(data: seq<Row>, column: string, cond: Condition)
    ensures IsSubsequence(Filter(data, (row: Row) => Keeps(column, cond, row)), data)
  {
    FilterSubsequence(data, (row: Row) => Keeps(column, cond, row));
  }

  /** Which rows are kept: for a numeric condition, those whose value (a
      parsable string read as a float, a missing column as 0) is a number
      greater than it; for any other condition, those whose value equals it. */
  lemma FilterRowsKeeps(data: seq<Row>, column: string, cond: Condition, row: Row)
    ensures var kept := Filter(data, (r: Row) => Keeps(column, cond, r));
      row in kept <==> (row in data &&
        match cond
        case Numeric(c) => Value(row, column).CNum? && Value(row, column).x > c
        case Literal(t) => Value(row, column) == CStr(t)
        case NoneCond => Value(row, column) == CNone)
  {
    FilterMember(data, (r: Row) => Keeps(column, cond, r), row);
  }

  /** A missing column reads as 0. */
  lemma MissingColumnIsZero(row: Row, column: string, c: real)
    requires column !in row
    ensures Keeps(column, Numeric(c), row) <==> 0.0 > c
  {
  }

  /** A column holding text float() rejects makes a numeric comparison
      raise, and the row is skipped rather than the call failing. */
  lemma UnparsableSkipped(row: Row, column: string, c: real)
    requires column in row && row[column].CStr? && ParseFloat(row[column].s).None?
    ensures Test(row, column, Numeric(c)) == Raises(TypeError)
    ensures !Keeps(column, Numeric(c), row)
  {
  }

  /** A string condition never matches a column float() accepts: the column
      has already become a number. */
  lemma NumericTextNeverEqual(row: Row, column: string, t: string)
    requires column in row && row[column].CStr? && ParseFloat(row[column].s).Some?
    ensures !Keeps(column, Literal(t), row)
  {
  }

  // ---------------------------------------------------------------------
  // get_unique_values

  /** row.get(column, '').strip(): anything but a string raises
      AttributeError. */
  function StrippedValue(row: Row, column: string): Result<string> {
    if column !in row then Ok([])
    else match row[column]
      case CStr(s) => Ok(Strip(s))
      case _ => Raises(AttributeError)
  }

  /** get_unique_values, with the returned list read as the set it was built
      from. The first row whose column is not a string ends the call with
      AttributeError. */
  method UniqueValues(data: seq<Row>, column: string) returns (r: Result<set<string>>)
    ensures r.Raises? <==> exists i :: 0 <= i < |data| && StrippedValue(data[i], column).Raises?
    ensures r.Raises? ==> r.error == AttributeError
    ensures r.Ok? ==> forall v :: v in r.value <==>
      exists i :: 0 <= i < |data| && StrippedValue(data[i], column) == Ok(v) && v != []
  {
    var unique: set<string> := {};
    for i := 0 to |data|
      invariant forall j :: 0 <= j < i ==> StrippedValue(data[j], column).Ok?
      invariant forall v :: v in unique <==>
        exists j :: 0 <= j < i && StrippedValue(data[j], column) == Ok(v) && v != []
    {
      var value := StrippedValue(data[i], column);
      if value.Raises? {
        return Raises(AttributeError);
      }
      if value.value != [] {
        unique := unique + {value.value};
      }
    }
    return Ok(unique);
  }

  /** Every collected value is non-empty and already stripped. */
  lemma StrippedValueShape(row: Row, column: string)
    requires StrippedValue(row, column).Ok?
    ensures Strip(StrippedValue(row, column).value) == StrippedValue(row, column).value
  {
    var v := StrippedValue(row, column).value;
    StripTrimmed(v);
  }
}

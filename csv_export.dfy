/** The stock-levels card's CSV export: one header line, then one line per
    row, each cell rendered from the row's value under that header. */
module CsvExport {
  import opened Text

  /** The JavaScript values a row may hold under a header. Numbers are
      integers here. */
  datatype Value = Str(s: string) | Num(n: int) | Bool(b: bool) | Null | Undefined

  /** A row object: a header it lacks reads as undefined. */
  type Row = map<string, Value>

  function Lookup(row: Row, header: string): Value {
    if header in row then row[header] else Undefined
  }

  /** JavaScript falsiness for these values. */
  predicate Falsy(v: Value) {
    match v
    case Str(s) => s == []
    case Num(n) => n == 0
    case Bool(b) => !b
    case Null => true
    case Undefined => true
  }

  /** The decimal digits of a natural number, most significant first. */
  function NatText(n: nat): (r: string)
    ensures r != [] && AllDigits(r)
    decreases n
  {
    if n < 10 then [('0' as int + n) as char]
    else NatText(n / 10) + [('0' as int + n % 10) as char]
  }

  /** String(n) for an integer. */
  function IntText(n: int): (r: string)
    ensures r != []
  {
    if n < 0 then "-" + NatText(-n) else NatText(n)
  }

  /** The digits read back give the number. */
  lemma {:induction false} NatTextValue(n: nat)
    ensures DigitsValue(NatText(n)) == n
    decreases n
  {
    if n >= 10 {
      NatTextValue(n / 10);
      var r := NatText(n);
      assert r[..|r| - 1] == NatText(n / 10);
    }
  }

  /** value.replace(/"/g, '""'). */
  function DoubleQuotes(s: string): (r: string)
    ensures |r| >= |s|
  {
    if s == [] then []
    else (if s[0] == '"' then "\"\"" else [s[0]]) + DoubleQuotes(s[1..])
  }

  /** Reading a quoted field's body back: a doubled quote stands for one. */
  function UndoubleQuotes(s: string): string
    decreases |s|
  {
    if s == [] then []
    else if |s| >= 2 && s[0] == '"' && s[1] == '"' then "\"" + UndoubleQuotes(s[2..])
    else [s[0]] + UndoubleQuotes(s[1..])
  }

  /** Doubling the quotes loses nothing: the body reads back as the value. */
  lemma {:induction false} UndoubleDouble(s: string)
    ensures UndoubleQuotes(DoubleQuotes(s)) == s
  {
    if s != [] {
      UndoubleDouble(s[1..]);
      var head := if s[0] == '"' then "\"\"" else [s[0]];
      assert DoubleQuotes(s) == head + DoubleQuotes(s[1..]);
      if s[0] == '"' {
        assert (head + DoubleQuotes(s[1..]))[2..] == DoubleQuotes(s[1..]);
      } else {
        assert (head + DoubleQuotes(s[1..]))[1..] == DoubleQuotes(s[1..]);
      }
      assert s == [s[0]] + s[1..];
    }
  }

  /** After doubling, every quote of the body is one of a pair. */
  lemma {:induction false} DoubledQuotesPair(s: string, i: nat)
    requires i < |DoubleQuotes(s)| && DoubleQuotes(s)[i] == '"'
    ensures (i + 1 < |DoubleQuotes(s)| && DoubleQuotes(s)[i + 1] == '"') || (i > 0 && DoubleQuotes(s)[i - 1] == '"')
  {
    if s != [] {
      var head := if s[0] == '"' then "\"\"" else [s[0]];
      assert DoubleQuotes(s) == head + DoubleQuotes(s[1..]);
      if i >= |head| {
        DoubledQuotesPair(s[1..], i - |head|);
      }
    }
  }

  /** The text one cell contributes to its line. */
  function Cell(v: Value): string {
    if v.Str? && ',' in v.s then "\"" + DoubleQuotes(v.s) + "\""
    else if Falsy(v) then []
    else match v
      case Str(s) => s
      case Num(n) => IntText(n)
      case Bool(_) => "true"
      case Null => []
      case Undefined => []
  }

  /** A cell is empty exactly for a falsy value, 0 included. */
  lemma CellEmpty(v: Value)
    ensures Cell(v) == [] <==> Falsy(v)
  {
  }

  /** A string holding a comma is quoted, and its quoted body reads back as
      the string. */
  lemma CellQuoted(s: string)
    requires ',' in s
    ensures var c := Cell(Str(s));
      |c| >= 2 && c[0] == '"' && c[|c| - 1] == '"' && UndoubleQuotes(c[1..|c| - 1]) == s
  {
    var c := Cell(Str(s));
    assert c[1..|c| - 1] == DoubleQuotes(s);
    UndoubleDouble(s);
  }

  /** Any other non-empty string is written as it is, quotes included. */
  lemma CellPlain(s: string)
    requires ',' !in s
    ensures Cell(Str(s)) == s
  {
  }

  /** A number is written in decimal. */
  lemma CellNumber(n: int)
    requires n != 0
    ensures n > 0 ==> Cell(Num(n)) == NatText(n) && DigitsValue(Cell(Num(n))) == n
    ensures n < 0 ==> Cell(Num(n)) == "-" + NatText(-n)
  {
    if n > 0 {
      NatTextValue(n);
    }
  }

  function Cells(row: Row, headers: seq<string>): (r: seq<string>)
    ensures |r| == |headers|
  {
    if headers == [] then [] else [Cell(Lookup(row, headers[0]))] + Cells(row, headers[1..])
  }

  /** headers.map(...).join(','). */
  function RowLine(row: Row, headers: seq<string>): string {
    Join(Cells(row, headers), ',')
  }

  function RowLines(data: seq<Row>, headers: seq<string>): (r: seq<string>)
    ensures |r| == |data|
  {
    if data == [] then [] else [RowLine(data[0], headers)] + RowLines(data[1..], headers)
  }

  /** The csvContent exportToCSV builds. */
  function Csv(data: seq<Row>, headers: seq<string>): string {
    Join([Join(headers, ',')] + RowLines(data, headers), '\n')
  }

  /** The value under header i of a row. */
  lemma {:induction false} CellsAt(row: Row, headers: seq<string>, i: nat)
    requires i < |headers|
    ensures Cells(row, headers)[i] == Cell(Lookup(row, headers[i]))
  {
    if i > 0 {
      CellsAt(row, headers[1..], i - 1);
    }
  }

  lemma {:induction false} RowLinesAt(data: seq<Row>, headers: seq<string>, i: nat)
    requires i < |data|
    ensures RowLines(data, headers)[i] == RowLine(data[i], headers)
  {
    if i > 0 {
      RowLinesAt(data[1..], headers, i - 1);
    }
  }

  /** A joined list holds a character other than the separator only if some
      element does. */
  lemma {:induction false} JoinAvoids(xs: seq<string>, sep: char, c: char)
    requires c != sep
    requires forall i :: 0 <= i < |xs| ==> c !in xs[i]
    ensures c !in Join(xs, sep)
  {
    if |xs| > 1 {
      JoinAvoids(xs[1..], sep, c);
    }
  }

  predicate NoNewline(v: Value) {
    v.Str? ==> '\n' !in v.s
  }

  /** A cell breaks no line unless its value holds a newline. */
  lemma CellNoNewline(v: Value)
    requires NoNewline(v)
    ensures '\n' !in Cell(v)
  {
    if v.Num? && !Falsy(v) {
      var t := NatText(if v.n < 0 then -v.n else v.n);
      assert forall i :: 0 <= i < |t| ==> IsDigit(t[i]);
    }
    if v.Str? && ',' in v.s {
      DoubleNoNewline(v.s);
    }
  }

  lemma {:induction false} DoubleNoNewline(s: string)
    requires '\n' !in s
    ensures '\n' !in DoubleQuotes(s)
  {
    if s != [] {
      assert '\n' !in s[1..];
      DoubleNoNewline(s[1..]);
    }
  }

  /** When neither a header nor a string value holds a newline, the CSV text
      splits into exactly the header line and one line per row. */
  lemma CsvLines(data: seq<Row>, headers: seq<string>)
    requires forall i :: 0 <= i < |headers| ==> '\n' !in headers[i]
    requires forall r, h :: r in data && h in r ==> NoNewline(r[h])
    ensures Split(Csv(data, headers), '\n') == [Join(headers, ',')] + RowLines(data, headers)
    ensures |Split(Csv(data, headers), '\n')| == 1 + |data|
  {
    var lines := [Join(headers, ',')] + RowLines(data, headers);
    JoinAvoids(headers, ',', '\n');
    forall i | 0 <= i < |data|
      ensures '\n' !in RowLines(data, headers)[i]
    {
      RowLinesAt(data, headers, i);
      forall j | 0 <= j < |headers|
        ensures '\n' !in Cells(data[i], headers)[j]
      {
        CellsAt(data[i], headers, j);
        assert data[i] in data;
        CellNoNewline(Lookup(data[i], headers[j]));
      }
      JoinAvoids(Cells(data[i], headers), ',', '\n');
    }
    assert forall i :: 0 <= i < |lines| ==> '\n' !in lines[i] by {
      forall i | 0 <= i < |lines|
        ensures '\n' !in lines[i]
      {
        if i > 0 {
          assert lines[i] == RowLines(data, headers)[i - 1];
        }
      }
    }
    SplitJoin(lines, '\n');
  }

  /** A value holding a newline but no comma is written unquoted, so a
      single row can take up two lines. */
  lemma NewlineSplitsRow()
    ensures |Split(Csv([map["h" := Str("a\nb")]], ["h"]), '\n')| == 3
  {
    var row: Row := map["h" := Str("a\nb")];
    assert Lookup(row, "h") == Str("a\nb");
    assert Cell(Str("a\nb")) == "a\nb";
    assert RowLines([row], ["h"]) == ["a\nb"];
    assert Join(["h"], ',') == "h";
    var lines := [Join(["h"], ',')] + RowLines([row], ["h"]);
    assert lines == ["h", "a\nb"];
    assert lines[1..] == ["a\nb"];
    assert Join(lines, '\n') == "h" + ['\n'] + "a\nb";
    assert "a\nb" == "a" + ['\n'] + "b";
    SplitConcat("h", "a" + ['\n'] + "b", '\n');
    SplitConcat("a", "b", '\n');
    SplitNoSep("b", '\n');
  }
}

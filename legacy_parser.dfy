/** The legacy line-offset parser of the daily report. The page text is cut
    into its stripped, non-empty lines; most values are read a fixed number
    of lines after the first line that names both their section and their
    caption; the Sales Summary is read by position below its heading, all of
    it or none of it. Its clean_number removes every hyphen and lets text
    that is no numeral raise, so its contract differs from the HTML
    extractor's in sign and in failure. */
module LegacyParser {
  import opened Wrappers
  import opened Text
  import opened PyFloat
  import opened ReportFields
  import NumberCleaning

  // ---------------------------------------------------------------------
  // clean_number

  /** The text float() is given: every 'R', ',', ' ' and '-' removed, then
      stripped. */
  function Residue(s: string): string {
    Strip(RemoveChar(RemoveChar(RemoveChar(RemoveChar(s, 'R'), ','), ' '), '-'))
  }

  /** clean_number on a str: 0.0 for the empty text and for a text that
      strips to "-" or ".00"; otherwise float() of the residue, which raises
      ValueError when the residue is no numeral. */
  function CleanNumber(s: string): Result<real> {
    if s == [] || Strip(s) == "-" || Strip(s) == ".00" then Ok(0.0)
    else match ParseFloat(Residue(s))
      case None => Raises(ValueError)
      case Some(v) => Ok(v)
  }

  /** A value clean_number returns is never negative: the residue holds no
      hyphen. */
  lemma CleanNumberNonNegative(s: string)
    ensures CleanNumber(s).Ok? ==> CleanNumber(s).value >= 0.0
  {
    var u := RemoveChar(RemoveChar(RemoveChar(RemoveChar(s, 'R'), ','), ' '), '-');
    StripAbsent(u, '-');
    if ParseFloat(Residue(s)).Some? {
      NoMinusNonNegative(Residue(s));
    }
  }

  /** The 0.0 cases: no text, or a text that strips to a no-value marker. */
  lemma CleanNumberNoValue(s: string)
    ensures s == [] || Strip(s) == "-" || Strip(s) == ".00" ==> CleanNumber(s) == Ok(0.0)
    ensures s != [] && Strip(s) != "-" && Strip(s) != ".00" ==>
      (CleanNumber(s).Ok? <==> ParseFloat(Residue(s)).Some?)
  {
  }

  /** A character that is absent from a text is absent from its strip. */
  lemma StripAbsent(s: string, c: char)
    requires c !in s
    ensures c !in Strip(s)
  {
    var lead, trail := StripParts(s);
    assert forall i :: 0 <= i < |Strip(s)| ==> Strip(s)[i] == s[|lead| + i];
  }

  /** A numeral with a trailing hyphen, which the HTML extractor reads
      negated, is read here with its sign lost. */
  lemma TrailingMinusLost(ip: string, fp: string)
    requires AllDigits(ip) && AllDigits(fp) && |ip| + |fp| >= 1
    ensures CleanNumber(DecimalText(ip, fp) + "-") == Ok(DecimalValue(ip, fp))
    ensures NumberCleaning.CleanNumber(DecimalText(ip, fp) + "-") == -DecimalValue(ip, fp)
  {
    var d := DecimalText(ip, fp);
    DecimalTextEnds(ip, fp);
    NoMarksIn(ip, fp);
    ParseDecimalText(ip, fp);
    HyphenAfter(d, DecimalValue(ip, fp));
    NumberCleaning.CleanedDecimal(ip, fp, "-");
    NumberCleaning.CleanNumberTrailingMinus(d + "-", d, DecimalValue(ip, fp));
  }

  /** A leading minus is lost in the same way. */
  lemma LeadingMinusLost(ip: string, fp: string)
    requires AllDigits(ip) && AllDigits(fp) && |ip| + |fp| >= 1
    ensures CleanNumber("-" + DecimalText(ip, fp)) == Ok(DecimalValue(ip, fp))
  {
    var d := DecimalText(ip, fp);
    DecimalTextEnds(ip, fp);
    NoMarksIn(ip, fp);
    ParseDecimalText(ip, fp);
    HyphenBefore(d, DecimalValue(ip, fp));
  }

  /** A numeral with a hyphen after it reads as the numeral. */
  lemma HyphenAfter(d: string, v: real)
    requires d != [] && !IsSpace(d[0]) && !IsSpace(d[|d| - 1])
    requires 'R' !in d && ',' !in d && ' ' !in d && '-' !in d
    requires ParseFloat(d) == Some(v)
    ensures CleanNumber(d + "-") == Ok(v)
  {
    assert [] + d + "-" == d + "-";
    ResidueOf(d, [], "-");
    HyphenAfterEnds(d);
    CleanTrimmed(d + "-", d);
  }

  lemma HyphenAfterEnds(d: string)
    requires d != [] && !IsSpace(d[0])
    ensures var s := d + "-";
      !IsSpace(s[0]) && !IsSpace(s[|s| - 1]) && s != "-" && s != ".00"
  {
    var s := d + "-";
    assert s[0] == d[0];
    assert s[|s| - 1] == '-' && ".00"[2] == '0' && |s| >= 2;
  }

  /** A numeral with a hyphen before it reads as the numeral. */
  lemma HyphenBefore(d: string, v: real)
    requires d != [] && !IsSpace(d[0]) && !IsSpace(d[|d| - 1])
    requires 'R' !in d && ',' !in d && ' ' !in d && '-' !in d
    requires ParseFloat(d) == Some(v)
    ensures CleanNumber("-" + d) == Ok(v)
  {
    assert "-" + d + [] == "-" + d;
    ResidueOf(d, "-", []);
    HyphenBeforeEnds(d);
    CleanTrimmed("-" + d, d);
  }

  lemma HyphenBeforeEnds(d: string)
    requires d != [] && !IsSpace(d[|d| - 1])
    ensures var s := "-" + d;
      !IsSpace(s[0]) && !IsSpace(s[|s| - 1]) && s != "-" && s != ".00"
  {
    var s := "-" + d;
    assert s[|s| - 1] == d[|d| - 1];
    assert s[0] == '-' && ".00"[0] == '.' && |s| >= 2;
  }

  /** clean_number of a text with no surrounding space and no no-value
      marker is float() of its residue. */
  lemma CleanTrimmed(s: string, d: string)
    requires s != [] && !IsSpace(s[0]) && !IsSpace(s[|s| - 1])
    requires s != "-" && s != ".00" && Residue(s) == d
    ensures ParseFloat(d).Some? ==> CleanNumber(s) == Ok(ParseFloat(d).value)
    ensures ParseFloat(d).None? ==> CleanNumber(s) == Raises(ValueError)
  {
    StripTrimmed(s);
  }

  /** A parenthesised numeral, which the HTML extractor reads negated,
      raises here. */
  lemma ParenthesesRaise(ip: string, fp: string)
    requires AllDigits(ip) && AllDigits(fp) && |ip| + |fp| >= 1
    ensures CleanNumber("(" + DecimalText(ip, fp) + ")") == Raises(ValueError)
    ensures NumberCleaning.CleanNumber("(" + DecimalText(ip, fp) + ")") == -DecimalValue(ip, fp)
  {
    var s := "(" + DecimalText(ip, fp) + ")";
    ParenthesesShape(ip, fp);
    ParseLeadingJunk(s);
    NoNumeralRaises(s);
    NumberCleaning.CleanedParenthesized(ip, fp);
    ParseDecimalText(ip, fp);
    NumberCleaning.CleanNumberParenthesized(s, DecimalText(ip, fp), DecimalValue(ip, fp));
  }

  lemma ParenthesesShape(ip: string, fp: string)
    requires AllDigits(ip) && AllDigits(fp)
    ensures var s := "(" + DecimalText(ip, fp) + ")";
      && s[0] == '(' && !IsSpace(s[|s| - 1]) && s != "-" && s != ".00"
      && 'R' !in s && ',' !in s && ' ' !in s && '-' !in s
  {
    var d := DecimalText(ip, fp);
    var s := "(" + d + ")";
    NoMarksIn(ip, fp);
    assert s == "(" + (d + ")");
    assert s[0] == '(' && s[|s| - 1] == ')' && ".00"[0] == '.';
  }

  /** A percent sign, which the HTML extractor drops, makes the reading
      raise here. */
  lemma PercentRaises(ip: string, fp: string)
    requires AllDigits(ip) && AllDigits(fp) && |ip| + |fp| >= 1
    ensures CleanNumber(DecimalText(ip, fp) + "%") == Raises(ValueError)
    ensures NumberCleaning.CleanNumber(DecimalText(ip, fp) + "%") == DecimalValue(ip, fp)
  {
    PercentShape(ip, fp);
    PercentNoNumeral(ip, fp);
    NoNumeralRaises(DecimalText(ip, fp) + "%");
    NumberCleaning.CleanedDecimal(ip, fp, "%");
    ParseDecimalText(ip, fp);
    NumberCleaning.CleanNumberPercent(DecimalText(ip, fp) + "%", DecimalText(ip, fp), DecimalValue(ip, fp));
  }

  lemma PercentShape(ip: string, fp: string)
    requires AllDigits(ip) && AllDigits(fp)
    ensures var s := DecimalText(ip, fp) + "%";
      && !IsSpace(s[0]) && !IsSpace(s[|s| - 1]) && s != "-" && s != ".00"
      && 'R' !in s && ',' !in s && ' ' !in s && '-' !in s
  {
    var d := DecimalText(ip, fp);
    var s := d + "%";
    NoMarksIn(ip, fp);
    DecimalTextEnds(ip, fp);
    assert s[0] == d[0] && s[|s| - 1] == '%' && ".00"[2] == '0' && |s| >= 2;
  }

  /** A text clean_number leaves as it is raises when float() cannot read
      it. */
  lemma NoNumeralRaises(s: string)
    requires s != [] && !IsSpace(s[0]) && !IsSpace(s[|s| - 1]) && s != "-" && s != ".00"
    requires 'R' !in s && ',' !in s && ' ' !in s && '-' !in s
    requires ParseFloat(s) == None
    ensures CleanNumber(s) == Raises(ValueError)
  {
    ResidueFixed(s);
    CleanTrimmed(s, s);
  }

  /** The marks clean_number removes do not occur in a decimal numeral. */
  lemma NoMarksIn(ip: string, fp: string)
    requires AllDigits(ip) && AllDigits(fp)
    ensures var d := DecimalText(ip, fp);
      'R' !in d && ',' !in d && ' ' !in d && '-' !in d
  {
    var d := DecimalText(ip, fp);
    forall i | 0 <= i < |d| ensures d[i] != 'R' && d[i] != ',' && d[i] != ' ' && d[i] != '-' {
      if i < |ip| { assert d[i] == ip[i]; }
      else if i > |ip| { assert d[i] == fp[i - |ip| - 1]; }
    }
  }

  /** A text with none of the removed marks and no whitespace at its ends
      is its own residue. */
  lemma ResidueFixed(s: string)
    requires 'R' !in s && ',' !in s && ' ' !in s && '-' !in s
    requires s != [] && !IsSpace(s[0]) && !IsSpace(s[|s| - 1])
    ensures Residue(s) == s
  {
    RemoveCharAbsent(s, 'R');
    RemoveCharAbsent(s, ',');
    RemoveCharAbsent(s, ' ');
    RemoveCharAbsent(s, '-');
    StripTrimmed(s);
  }

  /** Hyphens around a decimal numeral leave the numeral as the residue. */
  lemma ResidueOf(d: string, a: string, b: string)
    requires d != [] && !IsSpace(d[0]) && !IsSpace(d[|d| - 1])
    requires 'R' !in d && ',' !in d && ' ' !in d && '-' !in d
    requires forall i :: 0 <= i < |a| ==> a[i] == '-'
    requires forall i :: 0 <= i < |b| ==> b[i] == '-'
    ensures Residue(a + d + b) == d
  {
    var s := a + d + b;
    KeepsMark(d, a, b, 'R');
    KeepsMark(d, a, b, ',');
    KeepsMark(d, a, b, ' ');
    DropsHyphens(d, a, b);
    StripTrimmed(d);
    ResidueChain(s, d);
  }

  lemma ResidueChain(s: string, d: string)
    requires RemoveChar(s, 'R') == s && RemoveChar(s, ',') == s && RemoveChar(s, ' ') == s
    requires RemoveChar(s, '-') == d && Strip(d) == d
    ensures Residue(s) == d
  {
  }

  /** Surrounding hyphens and a text without c keep c's removal the
      identity. */
  lemma KeepsMark(d: string, a: string, b: string, c: char)
    requires c in "R, " && c !in d
    requires forall i :: 0 <= i < |a| ==> a[i] == '-'
    requires forall i :: 0 <= i < |b| ==> b[i] == '-'
    ensures RemoveChar(a + d + b, c) == a + d + b
  {
    Hyphens(a);
    Hyphens(b);
    RemoveChar3(a, d, b, c);
    RemoveCharAbsent(d, c);
  }

  /** Removing the hyphens leaves the text between them. */
  lemma DropsHyphens(d: string, a: string, b: string)
    requires '-' !in d
    requires forall i :: 0 <= i < |a| ==> a[i] == '-'
    requires forall i :: 0 <= i < |b| ==> b[i] == '-'
    ensures RemoveChar(a + d + b, '-') == d
  {
    Hyphens(a);
    Hyphens(b);
    RemoveChar3(a, d, b, '-');
    RemoveCharAbsent(d, '-');
    assert [] + d + [] == d;
  }

  /** A text of hyphens loses nothing but its hyphens. */
  lemma {:induction false} Hyphens(a: string)
    requires forall i :: 0 <= i < |a| ==> a[i] == '-'
    ensures RemoveChar(a, 'R') == a && RemoveChar(a, ',') == a && RemoveChar(a, ' ') == a
    ensures RemoveChar(a, '-') == []
  {
    if a != [] {
      Hyphens(a[1..]);
      assert [a[0]] + a[1..] == a;
    }
  }

  /** float() raises on a stripped text whose first character can begin no
      numeral. */
  lemma ParseLeadingJunk(s: string)
    requires s != [] && !IsSpace(s[0]) && !IsSpace(s[|s| - 1])
    requires !IsDigit(s[0]) && s[0] != '.' && s[0] != '+' && s[0] != '-'
    ensures ParseFloat(s) == None
  {
    ParseTrimmed(s);
    var k := IndexOfExponent(s);
    var m := s[..k];
    if k > 0 {
      assert m[0] == s[0];
      var j := IndexOf(m, '.');
      assert j > 0 && m[..j][0] == s[0];
    }
  }

  /** float() raises on a decimal numeral followed by a percent sign. */
  lemma PercentNoNumeral(ip: string, fp: string)
    requires AllDigits(ip) && AllDigits(fp) && |ip| + |fp| >= 1
    ensures ParseFloat(DecimalText(ip, fp) + "%") == None
  {
    var d := DecimalText(ip, fp);
    var s := d + "%";
    DecimalTextEnds(ip, fp);
    assert s[0] == d[0] && s[|s| - 1] == '%';
    ParseTrimmed(s);
    NoExponentInDecimal(ip, fp);
    NoExponentPercent(d);
    PointAt(ip, fp);
    PointBefore(d, "%", |ip|);
    assert s[..|s|] == s;
    var fp' := s[|ip| + 1..];
    assert fp' == fp + "%";
    assert !IsDigit(fp'[|fp'| - 1]);
  }

  lemma NoExponentPercent(d: string)
    requires IndexOfExponent(d) == |d|
    ensures IndexOfExponent(d + "%") == |d + "%"|
  {
    var s := d + "%";
    assert forall i :: 0 <= i < |d| ==> s[i] == d[i];
    NoMarkAll(s);
  }

  lemma {:induction false} PointBefore(d: string, t: string, k: nat)
    requires k < |d| && IndexOf(d, '.') == k
    ensures IndexOf(d + t, '.') == k
    decreases k
  {
    if k > 0 {
      assert (d + t)[1..] == d[1..] + t;
      PointBefore(d[1..], t, k - 1);
    }
  }

  // ---------------------------------------------------------------------
  // The lines

  /** `[line.strip() for line in text.split('\n') if line.strip()]`. */
  function Lines(text: string): seq<string> {
    NonBlank(Split(text, '\n'))
  }

  /** The stripped pieces that are not empty, in order. */
  function NonBlank(pieces: seq<string>): seq<string>
    decreases |pieces|
  {
    if pieces == [] then []
    else (if Strip(pieces[0]) != [] then [Strip(pieces[0])] else []) + NonBlank(pieces[1..])
  }

  /** Every line is non-empty and stripped. */
  lemma {:induction false} NonBlankStripped(pieces: seq<string>)
    ensures forall i :: 0 <= i < |NonBlank(pieces)| ==>
      NonBlank(pieces)[i] != [] && Strip(NonBlank(pieces)[i]) == NonBlank(pieces)[i]
    decreases |pieces|
  {
    if pieces != [] {
      NonBlankStripped(pieces[1..]);
      var t := Strip(pieces[0]);
      StripTrimmed(t);
    }
  }

  /** A line is exactly the strip of some piece that does not strip to
      nothing. */
  lemma {:induction false} NonBlankMembers(pieces: seq<string>, x: string)
    ensures x in NonBlank(pieces) <==> exists p :: p in pieces && Strip(p) != [] && Strip(p) == x
    decreases |pieces|
  {
    if pieces != [] {
      NonBlankMembers(pieces[1..], x);
      if x in NonBlank(pieces[1..]) {
        var p :| p in pieces[1..] && Strip(p) != [] && Strip(p) == x;
        assert p in pieces;
      }
      forall p | p in pieces && Strip(p) != [] && Strip(p) == x
        ensures x in NonBlank(pieces)
      {
        if p != pieces[0] {
          assert p in pieces[1..];
        }
      }
    }
  }

  /** The lines of two runs of pieces are the lines of each, in order. */
  lemma {:induction false} NonBlankAppend(a: seq<string>, b: seq<string>)
    ensures NonBlank(a + b) == NonBlank(a) + NonBlank(b)
    decreases |a|
  {
    if a == [] {
      assert a + b == b;
    } else {
      var h := if Strip(a[0]) != [] then [Strip(a[0])] else [];
      assert (a + b)[0] == a[0];
      assert (a + b)[1..] == a[1..] + b;
      assert NonBlank(a + b) == h + NonBlank(a[1..] + b);
      NonBlankAppend(a[1..], b);
      assert h + (NonBlank(a[1..]) + NonBlank(b)) == (h + NonBlank(a[1..])) + NonBlank(b);
    }
  }

  /** The lines of text are what the list comprehension keeps. */
  lemma LinesShape(text: string)
    ensures forall i :: 0 <= i < |Lines(text)| ==>
      Lines(text)[i] != [] && Strip(Lines(text)[i]) == Lines(text)[i]
    ensures forall x :: x in Lines(text) <==>
      exists p :: p in Split(text, '\n') && Strip(p) != [] && Strip(p) == x
  {
    NonBlankStripped(Split(text, '\n'));
    forall x ensures x in Lines(text) <==> exists p :: p in Split(text, '\n') && Strip(p) != [] && Strip(p) == x {
      NonBlankMembers(Split(text, '\n'), x);
    }
  }

  // ---------------------------------------------------------------------
  // extract_value

  predicate Names(line: string, section: string, caption: string) {
    Contains(line, section) && Contains(line, caption)
  }

  /** The generator inside next(): the first index at k or later whose line
      contains both the section and the caption. */
  function FirstNaming(lines: seq<string>, section: string, caption: string, k: nat): (r: Option<nat>)
    requires k <= |lines|
    ensures r.Some? ==> k <= r.value < |lines|
    decreases |lines| - k
  {
    if k == |lines| then None
    else if Names(lines[k], section, caption) then Some(k)
    else FirstNaming(lines, section, caption, k + 1)
  }

  /** The index found is the first naming line from k on, and none is found
      only when no line from k on names both. */
  lemma {:induction false} FirstNamingFirst(lines: seq<string>, section: string, caption: string, k: nat)
    requires k <= |lines|
    ensures var r := FirstNaming(lines, section, caption, k);
      r.Some? ==> Names(lines[r.value], section, caption)
    ensures var r := FirstNaming(lines, section, caption, k);
      r.Some? ==> forall j :: k <= j < r.value ==> !Names(lines[j], section, caption)
    ensures FirstNaming(lines, section, caption, k).None? <==>
      forall j :: k <= j < |lines| ==> !Names(lines[j], section, caption)
    decreases |lines| - k
  {
    if k < |lines| && !Names(lines[k], section, caption) {
      FirstNamingFirst(lines, section, caption, k + 1);
    }
  }

  /** The try block of extract_value around clean_number: its value, or
      0.0 when it raises. */
  function ValueOf(line: string): (v: real)
    ensures v >= 0.0
  {
    CleanNumberNonNegative(line);
    match CleanNumber(line)
    case Ok(v) => v
    case Raises(_) => 0.0
  }

  /** A line reads as 0.0 exactly when clean_number raises on it or reads
      0.0 from it, and as a positive value exactly when clean_number reads
      that value. */
  lemma ValueOfReading(line: string)
    ensures ValueOf(line) == 0.0 <==> CleanNumber(line).Raises? || CleanNumber(line) == Ok(0.0)
    ensures ValueOf(line) > 0.0 <==> CleanNumber(line).Ok? && CleanNumber(line).value > 0.0
  {
    CleanNumberNonNegative(line);
  }

  /** extract_value: the value of the line offset places after the first
      line naming both; 0.0 when there is none or when that index is past
      the end. */
  function ExtractValue(lines: seq<string>, section: string, caption: string, offset: nat): real {
    match Follower(lines, section, caption, offset)
    case None => 0.0
    case Some(line) => ValueOf(line)
  }

  /** lines[idx + index_offset] after the first naming line; None when
      there is no naming line or the index raises IndexError. */
  function Follower(lines: seq<string>, section: string, caption: string, offset: nat): Option<string> {
    match FirstNaming(lines, section, caption, 0)
    case None => None
    case Some(i) => if i + offset < |lines| then Some(lines[i + offset]) else None
  }

  /** extract_value reads the line offset places after the first naming
      line: its value when clean_number reads it, 0.0 when that raises. */
  lemma ExtractValueReads(lines: seq<string>, section: string, caption: string, offset: nat, i: nat)
    requires i + offset < |lines| && Names(lines[i], section, caption)
    requires forall j :: 0 <= j < i ==> !Names(lines[j], section, caption)
    ensures ExtractValue(lines, section, caption, offset) == ValueOf(lines[i + offset])
  {
    FirstNamingIs(lines, section, caption, i);
    ExtractValueAt(lines, section, caption, offset, i);
  }

  /** With the first naming line at i and its follower in range, the value
      is the follower's. */
  lemma ExtractValueAt(lines: seq<string>, section: string, caption: string, offset: nat, i: nat)
    requires i + offset < |lines|
    requires FirstNaming(lines, section, caption, 0) == Some(i)
    ensures ExtractValue(lines, section, caption, offset) == ValueOf(lines[i + offset])
  {
    FollowerAt(lines, section, caption, offset, i);
  }

  lemma FollowerAt(lines: seq<string>, section: string, caption: string, offset: nat, i: nat)
    requires FirstNaming(lines, section, caption, 0) == Some(i)
    ensures Follower(lines, section, caption, offset) ==
      if i + offset < |lines| then Some(lines[i + offset]) else None
  {
  }

  /** The first naming line is i when i names both and no line before it
      does. */
  lemma FirstNamingIs(lines: seq<string>, section: string, caption: string, i: nat)
    requires i < |lines| && Names(lines[i], section, caption)
    requires forall j :: 0 <= j < i ==> !Names(lines[j], section, caption)
    ensures FirstNaming(lines, section, caption, 0) == Some(i)
  {
    FirstNamingFirst(lines, section, caption, 0);
  }

  /** Without a line naming both the value is 0.0. */
  lemma ExtractValueUnnamed(lines: seq<string>, section: string, caption: string, offset: nat)
    requires forall j :: 0 <= j < |lines| ==> !Names(lines[j], section, caption)
    ensures ExtractValue(lines, section, caption, offset) == 0.0
  {
    FirstNamingFirst(lines, section, caption, 0);
  }

  /** With the follower of the first naming line past the end the value is
      0.0. */
  lemma ExtractValuePastEnd(lines: seq<string>, section: string, caption: string, offset: nat, i: nat)
    requires FirstNaming(lines, section, caption, 0) == Some(i) && i + offset >= |lines|
    ensures ExtractValue(lines, section, caption, offset) == 0.0
  {
    FollowerAt(lines, section, caption, offset, i);
  }

  /** extract_value returns 0.0 exactly when there is no line to read, or
      clean_number raises on that line or reads 0.0 from it. */
  lemma ExtractValueZero(lines: seq<string>, section: string, caption: string, offset: nat)
    ensures ExtractValue(lines, section, caption, offset) == 0.0 <==>
      match Follower(lines, section, caption, offset)
      case None => true
      case Some(line) => CleanNumber(line).Raises? || CleanNumber(line) == Ok(0.0)
  {
    match Follower(lines, section, caption, offset)
    case None =>
    case Some(line) => ValueOfReading(line);
  }

  /** No extracted value is negative. */
  lemma ExtractValueNonNegative(lines: seq<string>, section: string, caption: string, offset: nat)
    ensures ExtractValue(lines, section, caption, offset) >= 0.0
  {
  }

  // ---------------------------------------------------------------------
  // The Sales Summary block

  /** How a positional read converts its line: int(re.sub(r'\D', '', x))
      for a count, clean_number for an amount. */
  datatype ReadKind = Count | Amount

  function KindOf(f: SalesField): ReadKind {
    if IsTransCount(f) then Count else Amount
  }

  /** The fields in the order the try block reads them. */
  const SalesOrder: seq<SalesField> := [
    CashSalesTransToday, CashSalesToday, CodPaymentsTransToday, CodPaymentsToday,
    ReceiptOnAccountTransToday, ReceiptOnAccountToday, SubtotalTransToday, SubtotalToday,
    PaidOutsTransToday, PaidOutsToday, CashRefundsTransToday, CashRefundsToday,
    SalesTotalTransToday, SalesTotalToday, AccountSalesTransToday, AccountSalesToday,
    CodSalesTransToday, CodSalesToday, AccountRefundsTransToday, AccountRefundsToday,
    PosTurnoverTransToday, PosTurnoverToday, AvgItemsPerBasket, AvgValuePerBasket]

  /** How many lines below the heading each field is read: 2 to 23 in
      pairs of count and amount, 24, and then 26. */
  function Offset(f: SalesField): nat {
    match f
    case CashSalesTransToday => 2
    case CashSalesToday => 3
    case CodPaymentsTransToday => 4
    case CodPaymentsToday => 5
    case ReceiptOnAccountTransToday => 6
    case ReceiptOnAccountToday => 7
    case SubtotalTransToday => 8
    case SubtotalToday => 9
    case PaidOutsTransToday => 10
    case PaidOutsToday => 11
    case CashRefundsTransToday => 12
    case CashRefundsToday => 13
    case SalesTotalTransToday => 14
    case SalesTotalToday => 15
    case AccountSalesTransToday => 16
    case AccountSalesToday => 17
    case CodSalesTransToday => 18
    case CodSalesToday => 19
    case AccountRefundsTransToday => 20
    case AccountRefundsToday => 21
    case PosTurnoverTransToday => 22
    case PosTurnoverToday => 23
    case AvgItemsPerBasket => 24
    case AvgValuePerBasket => 26
  }

  /** Every Sales Summary field is read. */
  lemma SalesOrderComplete(f: SalesField)
    ensures f in SalesOrder
  {
    match f {
      case CashSalesTransToday => assert SalesOrder[0] == f;
      case CashSalesToday => assert SalesOrder[1] == f;
      case CodPaymentsTransToday => assert SalesOrder[2] == f;
      case CodPaymentsToday => assert SalesOrder[3] == f;
      case ReceiptOnAccountTransToday => assert SalesOrder[4] == f;
      case ReceiptOnAccountToday => assert SalesOrder[5] == f;
      case SubtotalTransToday => assert SalesOrder[6] == f;
      case SubtotalToday => assert SalesOrder[7] == f;
      case PaidOutsTransToday => assert SalesOrder[8] == f;
      case PaidOutsToday => assert SalesOrder[9] == f;
      case CashRefundsTransToday => assert SalesOrder[10] == f;
      case CashRefundsToday => assert SalesOrder[11] == f;
      case SalesTotalTransToday => assert SalesOrder[12] == f;
      case SalesTotalToday => assert SalesOrder[13] == f;
      case AccountSalesTransToday => assert SalesOrder[14] == f;
      case AccountSalesToday => assert SalesOrder[15] == f;
      case CodSalesTransToday => assert SalesOrder[16] == f;
      case CodSalesToday => assert SalesOrder[17] == f;
      case AccountRefundsTransToday => assert SalesOrder[18] == f;
      case AccountRefundsToday => assert SalesOrder[19] == f;
      case PosTurnoverTransToday => assert SalesOrder[20] == f;
      case PosTurnoverToday => assert SalesOrder[21] == f;
      case AvgItemsPerBasket => assert SalesOrder[22] == f;
      case AvgValuePerBasket => assert SalesOrder[23] == f;
    }
  }

  /** One positional read: IndexError past the end; a count is the number
      the line's digits spell, and int('') raises ValueError when there are
      none; an amount is clean_number of the line. */
  function ReadAt(lines: seq<string>, k: nat, kind: ReadKind): Result<Num> {
    if k >= |lines| then Raises(IndexError)
    else match kind
      case Count =>
        var ds := KeepDigits(lines[k]);
        if ds == [] then Raises(ValueError) else Ok(Int(DigitsValue(ds)))
      case Amount =>
        match CleanNumber(lines[k])
        case Raises(e) => Raises(e)
        case Ok(v) => Ok(Float(v))
  }

  /** The read of one field of the block whose heading sits at base. */
  function Read(lines: seq<string>, base: nat, f: SalesField): Result<Num> {
    ReadAt(lines, base + Offset(f), KindOf(f))
  }

  /** A read raises exactly past the end, for a count line without a
      digit, and for an amount line clean_number cannot read. */
  lemma ReadAtOutcome(lines: seq<string>, k: nat, kind: ReadKind)
    ensures ReadAt(lines, k, kind).Raises? <==>
      (k >= |lines| || (kind == Count && KeepDigits(lines[k]) == [])
       || (kind == Amount && CleanNumber(lines[k]).Raises?))
  {
  }

  /** What a read reads is never negative. */
  lemma ReadAtNonNegative(lines: seq<string>, k: nat, kind: ReadKind)
    ensures ReadAt(lines, k, kind).Ok? ==> NonNegative(ReadAt(lines, k, kind).value)
  {
    if k < |lines| && kind == Amount {
      CleanNumberNonNegative(lines[k]);
    }
  }

  /** The try block from its first read on: the reads in order, stopping at
      the first that raises. */
  function ReadBlock(lines: seq<string>, base: nat, order: seq<SalesField>): Result<map<SalesField, Num>>
    decreases |order|
  {
    if order == [] then Ok(map[])
    else match Read(lines, base, order[0])
      case Raises(e) => Raises(e)
      case Ok(v) =>
        match ReadBlock(lines, base, order[1..])
        case Raises(e) => Raises(e)
        case Ok(m) => Ok(m[order[0] := v])
  }

  /** Every read of the block succeeds. */
  predicate AllRead(lines: seq<string>, base: nat, order: seq<SalesField>) {
    forall k :: 0 <= k < |order| ==> Read(lines, base, order[k]).Ok?
  }

  /** AllRead of a non-empty order is its first read and AllRead of the
      rest. */
  lemma AllReadCons(lines: seq<string>, base: nat, order: seq<SalesField>)
    requires order != []
    ensures AllRead(lines, base, order) <==>
      Read(lines, base, order[0]).Ok? && AllRead(lines, base, order[1..])
  {
    AllCons(order, f => Read(lines, base, f).Ok?);
  }

  /** A property holds of every element iff it holds of the first and of
      every later one. */
  lemma AllCons<T>(s: seq<T>, p: T -> bool)
    requires s != []
    ensures (forall k :: 0 <= k < |s| ==> p(s[k])) <==>
      p(s[0]) && forall k :: 0 <= k < |s[1..]| ==> p(s[1..][k])
  {
    if p(s[0]) && forall k :: 0 <= k < |s[1..]| ==> p(s[1..][k]) {
      forall k | 0 < k < |s| ensures p(s[k]) {
        assert s[k] == s[1..][k - 1];
      }
    }
  }

  /** The block succeeds iff every read does. */
  lemma {:induction false} ReadBlockOk(lines: seq<string>, base: nat, order: seq<SalesField>)
    ensures ReadBlock(lines, base, order).Ok? <==> AllRead(lines, base, order)
    decreases |order|
  {
    if order != [] {
      ReadBlockOk(lines, base, order[1..]);
      AllReadCons(lines, base, order);
    }
  }

  /** A block that succeeds holds exactly the fields of the order, each with
      its own read. */
  lemma ReadBlockValues(lines: seq<string>, base: nat, order: seq<SalesField>)
    requires ReadBlock(lines, base, order).Ok?
    ensures forall f :: f in ReadBlock(lines, base, order).value <==> f in order
    ensures forall f :: f in ReadBlock(lines, base, order).value ==>
      Ok(ReadBlock(lines, base, order).value[f]) == Read(lines, base, f)
  {
    ReadBlockKeys(lines, base, order);
    ReadBlockReads(lines, base, order);
  }

  lemma {:induction false} ReadBlockKeys(lines: seq<string>, base: nat, order: seq<SalesField>)
    requires ReadBlock(lines, base, order).Ok?
    ensures forall f :: f in ReadBlock(lines, base, order).value <==> f in order
    decreases |order|
  {
    if order != [] {
      var rest := order[1..];
      ReadBlockKeys(lines, base, rest);
      assert order == [order[0]] + rest;
      forall f ensures f in order <==> f == order[0] || f in rest {
        ConsMember(order[0], rest, f);
      }
    }
  }

  lemma {:induction false} ReadBlockReads(lines: seq<string>, base: nat, order: seq<SalesField>)
    requires ReadBlock(lines, base, order).Ok?
    ensures forall f :: f in ReadBlock(lines, base, order).value ==>
      Ok(ReadBlock(lines, base, order).value[f]) == Read(lines, base, f)
    decreases |order|
  {
    if order != [] {
      ReadBlockReads(lines, base, order[1..]);
    }
  }

  lemma ConsMember<T>(x: T, s: seq<T>, y: T)
    ensures y in [x] + s <==> y == x || y in s
  {
    if y in [x] + s && y != x {
      var k :| 0 <= k < |[x] + s| && ([x] + s)[k] == y;
      assert s[k - 1] == y;
    }
  }

  /** lines.index("SALES SUMMARY"): the first line equal to the heading. */
  function IndexOfLine(lines: seq<string>, x: string, k: nat): (r: Option<nat>)
    requires k <= |lines|
    ensures r.Some? ==> k <= r.value < |lines|
    decreases |lines| - k
  {
    if k == |lines| then None
    else if lines[k] == x then Some(k)
    else IndexOfLine(lines, x, k + 1)
  }

  /** The index found is that of the first equal line from k on, and none
      is found only when no line from k on equals x. */
  lemma {:induction false} IndexOfLineFirst(lines: seq<string>, x: string, k: nat)
    requires k <= |lines|
    ensures var r := IndexOfLine(lines, x, k);
      r.Some? ==> lines[r.value] == x && forall j :: k <= j < r.value ==> lines[j] != x
    ensures IndexOfLine(lines, x, k).None? <==> forall j :: k <= j < |lines| ==> lines[j] != x
    decreases |lines| - k
  {
    if k < |lines| && lines[k] != x {
      IndexOfLineFirst(lines, x, k + 1);
    }
  }

  /** Every Sales Summary field is in the order. */
  lemma SalesOrderCovers()
    ensures forall f: SalesField :: f in SalesOrder
  {
    forall f: SalesField ensures f in SalesOrder { SalesOrderComplete(f); }
  }

  /** The except branch: every Sales Summary field the int 0. */
  function ZeroSales(): (m: map<SalesField, Num>)
    ensures forall f :: f in m && m[f] == Int(0)
  {
    SalesOrderCovers();
    map f | f in SalesOrder :: Int(0)
  }

  /** The Sales Summary fields after the try block: the reads when the
      heading is present and every read succeeds, otherwise the zeros. */
  function SalesValues(lines: seq<string>): (m: map<SalesField, Num>)
    ensures forall f :: f in m
  {
    match IndexOfLine(lines, "SALES SUMMARY", 0)
    case None => ZeroSales()
    case Some(i) =>
      match ReadBlock(lines, i, SalesOrder)
      case Ok(m) =>
        ReadBlockValues(lines, i, SalesOrder);
        SalesOrderCovers();
        m
      case Raises(_) => ZeroSales()
  }

  /** Without the heading every Sales Summary field is 0. */
  lemma SalesMissing(lines: seq<string>)
    requires IndexOfLine(lines, "SALES SUMMARY", 0).None?
    ensures forall f :: SalesValues(lines)[f] == Int(0)
  {
  }

  /** With the heading at i and every read succeeding, each field holds its
      own read. */
  lemma SalesRead(lines: seq<string>, i: nat)
    requires IndexOfLine(lines, "SALES SUMMARY", 0) == Some(i)
    requires AllRead(lines, i, SalesOrder)
    ensures forall f :: Ok(SalesValues(lines)[f]) == Read(lines, i, f)
  {
    ReadBlockOk(lines, i, SalesOrder);
    ReadBlockValues(lines, i, SalesOrder);
  }

  /** With the heading at i and some read raising, every field is 0. */
  lemma SalesFailed(lines: seq<string>, i: nat)
    requires IndexOfLine(lines, "SALES SUMMARY", 0) == Some(i)
    requires !AllRead(lines, i, SalesOrder)
    ensures forall f :: SalesValues(lines)[f] == Int(0)
  {
    ReadBlockOk(lines, i, SalesOrder);
  }

  /** The last read sits 26 lines below the heading, so a heading with
      fewer lines after it leaves every Sales Summary field at 0. */
  lemma SalesNeedTwentySixLines(lines: seq<string>, i: nat)
    requires IndexOfLine(lines, "SALES SUMMARY", 0) == Some(i)
    requires i + 26 >= |lines|
    ensures forall f :: SalesValues(lines)[f] == Int(0)
  {
    LastReadRaises(lines, i);
    SalesFailed(lines, i);
  }

  /** The read of avg_value_per_basket, 26 lines below the heading, raises
      when the text ends before it. */
  lemma LastReadRaises(lines: seq<string>, i: nat)
    requires i + 26 >= |lines|
    ensures !AllRead(lines, i, SalesOrder)
  {
    OrderLast();
    BasketValuePastEnd(lines, i);
    assert !Read(lines, i, SalesOrder[23]).Ok?;
  }

  lemma OrderLast()
    ensures |SalesOrder| == 24 && SalesOrder[23] == AvgValuePerBasket
  {
  }

  lemma BasketValuePastEnd(lines: seq<string>, i: nat)
    requires i + 26 >= |lines|
    ensures Read(lines, i, AvgValuePerBasket) == Raises(IndexError)
  {
  }

  // ---------------------------------------------------------------------
  // The output dictionary

  /** The 42 keys of the returned dictionary: every field of the report but
      the three cash-up fields. */
  predicate InOutput(f: Field) { !f.CashUpItem? }

  function StockLabel(f: StockField): string {
    match f
    case StockSalesToday => "Total Sales of Stock"
    case StockPurchasesToday => "Purchases"
    case StockAdjustmentsToday => "Adjustments"
    case CostOfSalesToday => "Cost Of Sales"
    case StockGrossProfitToday => "GROSS PROFIT (R)"
    case StockGrossProfitPercentToday => "GROSS PROFIT (%)"
    case OpeningStockToday => "Opening Stock"
    case ClosingStockToday => "Closing Stock"
  }

  function DispensaryLabel(f: DispensaryField): string {
    match f
    case DispensaryTurnoverToday => "Dispensary Turnover"
    case ScriptsDispensedToday => "Number of Scripts"
    case AvgScriptValueToday => "Average Value"
    case AvgItemsPerScriptToday => "Average Number"
    case AvgItemGrossValueToday => "Average Gross"
    case OutstandingLeviesToday => "Outstanding Levies"
  }

  function TurnoverLabel(f: TurnoverField): string {
    match f
    case RetailSalesToday => "Retail Sales"
    case TypeRSalesToday => "Type R Sales"
    case CapitationSalesToday => "Capitation Sales"
    case TotalTurnoverToday => "TOTAL TURNOVER"
  }

  /** The value the dictionary literal gives a key. */
  function OutputValue(lines: seq<string>, sales: map<SalesField, Num>, f: Field): Num
    requires InOutput(f) && forall x :: x in sales
  {
    match f
    case SalesItem(x) => sales[x]
    case StockItem(x) => Float(ExtractValue(lines, "STOCK TRADING ACCOUNT", StockLabel(x), 1))
    case DispensaryItem(x) => Float(ExtractValue(lines, "DISPENSARY SUMMARY", DispensaryLabel(x), 1))
    case TurnoverItem(x) => Float(ExtractValue(lines, "TURNOVER SUMMARY", TurnoverLabel(x), 1))
  }

  lemma AllFieldsCover()
    ensures forall f: Field :: f in AllFields
  {
    forall f: Field ensures f in AllFields { AllFieldsComplete(f); }
  }

  /** parse_html_daily on the text get_text(separator='\n') gives. */
  function ParseText(text: string): Record {
    var lines := Lines(text);
    var sales := SalesValues(lines);
    map f | f in AllFields && InOutput(f) :: OutputValue(lines, sales, f)
  }

  /** The dictionary's keys are the 42 output fields. */
  lemma ParseKeys(text: string)
    ensures forall f :: f in ParseText(text) <==> InOutput(f)
  {
    AllFieldsCover();
  }

  predicate NonNegative(v: Num) {
    match v
    case Int(i) => i >= 0
    case Float(x) => x >= 0.0
  }

  /** No value of the dictionary is negative: counts are digit strings read
      as numbers, and amounts lose every hyphen. */
  lemma ParseNonNegative(text: string)
    ensures forall f :: f in ParseText(text) ==> NonNegative(ParseText(text)[f])
  {
    forall f | f in ParseText(text) ensures NonNegative(ParseText(text)[f]) {
      ParseKeys(text);
      ParseField(text, f);
      OutputNonNegative(Lines(text), f);
    }
  }

  /** An output key holds the value the dictionary literal gives it. */
  lemma ParseField(text: string, f: Field)
    requires InOutput(f)
    ensures f in ParseText(text)
    ensures ParseText(text)[f] == OutputValue(Lines(text), SalesValues(Lines(text)), f)
  {
    AllFieldsComplete(f);
  }

  lemma OutputNonNegative(lines: seq<string>, f: Field)
    requires InOutput(f)
    ensures NonNegative(OutputValue(lines, SalesValues(lines), f))
  {
    match f
    case SalesItem(x) => SalesNonNegative(lines, x);
    case StockItem(x) => ExtractValueNonNegative(lines, "STOCK TRADING ACCOUNT", StockLabel(x), 1);
    case DispensaryItem(x) => ExtractValueNonNegative(lines, "DISPENSARY SUMMARY", DispensaryLabel(x), 1);
    case TurnoverItem(x) => ExtractValueNonNegative(lines, "TURNOVER SUMMARY", TurnoverLabel(x), 1);
  }

  lemma SalesNonNegative(lines: seq<string>, f: SalesField)
    ensures NonNegative(SalesValues(lines)[f])
  {
    match IndexOfLine(lines, "SALES SUMMARY", 0)
    case None => SalesMissing(lines);
    case Some(i) =>
      if AllRead(lines, i, SalesOrder) {
        SalesReadNonNegative(lines, i, f);
      } else {
        SalesFailed(lines, i);
      }
  }

  lemma SalesReadNonNegative(lines: seq<string>, i: nat, f: SalesField)
    requires IndexOfLine(lines, "SALES SUMMARY", 0) == Some(i)
    requires AllRead(lines, i, SalesOrder)
    ensures NonNegative(SalesValues(lines)[f])
  {
    SalesRead(lines, i);
    ReadNonNegative(lines, i, f, SalesValues(lines)[f]);
  }

  lemma ReadNonNegative(lines: seq<string>, base: nat, f: SalesField, v: Num)
    requires Ok(v) == Read(lines, base, f)
    ensures NonNegative(v)
  {
    ReadAtNonNegative(lines, base + Offset(f), KindOf(f));
  }

  /** The Sales Summary keys hold the values of the positional block. */
  lemma ParseSales(text: string)
    ensures forall x ::
      SalesItem(x) in ParseText(text) && (ParseText(text)[SalesItem(x)] == SalesValues(Lines(text))[x])
  {
    forall x ensures SalesItem(x) in ParseText(text) && ParseText(text)[SalesItem(x)] == SalesValues(Lines(text))[x] {
      ParseField(text, SalesItem(x));
    }
  }

  /** The stock keys hold the values read after their caption in the
      STOCK TRADING ACCOUNT section. */
  lemma ParseStock(text: string)
    ensures forall x ::
      StockItem(x) in ParseText(text) && (ParseText(text)[StockItem(x)] == Float(ExtractValue(Lines(text), "STOCK TRADING ACCOUNT", StockLabel(x), 1)))
  {
    forall x ensures StockItem(x) in ParseText(text) && ParseText(text)[StockItem(x)] == Float(ExtractValue(Lines(text), "STOCK TRADING ACCOUNT", StockLabel(x), 1)) {
      ParseField(text, StockItem(x));
    }
  }

  /** The dispensary keys hold the values read after their caption in the
      DISPENSARY SUMMARY section. */
  lemma ParseDispensary(text: string)
    ensures forall x ::
      DispensaryItem(x) in ParseText(text) && (ParseText(text)[DispensaryItem(x)] == Float(ExtractValue(Lines(text), "DISPENSARY SUMMARY", DispensaryLabel(x), 1)))
  {
    forall x ensures DispensaryItem(x) in ParseText(text) && ParseText(text)[DispensaryItem(x)] == Float(ExtractValue(Lines(text), "DISPENSARY SUMMARY", DispensaryLabel(x), 1)) {
      ParseField(text, DispensaryItem(x));
    }
  }

  /** The turnover keys hold the values read after their caption in the
      TURNOVER SUMMARY section. */
  lemma ParseTurnover(text: string)
    ensures forall x ::
      TurnoverItem(x) in ParseText(text) && (ParseText(text)[TurnoverItem(x)] == Float(ExtractValue(Lines(text), "TURNOVER SUMMARY", TurnoverLabel(x), 1)))
  {
    forall x ensures TurnoverItem(x) in ParseText(text) && ParseText(text)[TurnoverItem(x)] == Float(ExtractValue(Lines(text), "TURNOVER SUMMARY", TurnoverLabel(x), 1)) {
      ParseField(text, TurnoverItem(x));
    }
  }
}

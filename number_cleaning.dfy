/** The number normalisers of the HTML daily-report extractor: clean_number,
    which reads amounts written with a currency mark, thousands separators,
    a percent sign or a negative notation, and clean_int, which reads the
    digits of a count. Neither ever raises: every unreadable text is 0. */
module NumberCleaning {
  import opened Text
  import opened PyFloat
  import opened Wrappers

  /** The text clean_number goes on to read: every 'R' and ',' removed, the
      result stripped, then every space removed. */
  function Cleaned(s: string): string {
    RemoveChar(Strip(Unmarked(s)), ' ')
  }

  /** The text with every 'R' and ',' removed, before it is stripped. */
  function Unmarked(s: string): string {
    RemoveChar(RemoveChar(s, 'R'), ',')
  }

  /** A text with no mark, no space and no whitespace at its ends is left
      as it is by the cleaning. */
  lemma CleanedFixed(s: string)
    requires 'R' !in s && ',' !in s && ' ' !in s
    requires s != [] && !IsSpace(s[0]) && !IsSpace(s[|s| - 1])
    ensures Cleaned(s) == s
  {
    RemoveCharAbsent(s, 'R');
    RemoveCharAbsent(s, ',');
    assert Unmarked(s) == s;
    StripTrimmed(s);
    RemoveCharAbsent(s, ' ');
  }

  /** `-float(x)`, with the ValueError caught as 0.0. */
  function NegatedOrZero(r: Option<real>): real {
    match r
    case Some(v) => -v
    case None => 0.0
  }

  /** clean_number applied to a str. */
  function CleanNumber(s: string): (r: real) {
    if s == [] then 0.0 else ReadCleaned(Cleaned(s))
  }

  /** The no-value sentinels "", "-" and ".00". */
  predicate IsNoValue(c: string) {
    c == [] || c == "-" || c == ".00"
  }

  /** Lines 12-27, on the cleaned text. */
  function ReadCleaned(c: string): real {
    if IsNoValue(c) then 0.0 else ReadSigned(DropPercent(c))
  }

  /** A trailing percent sign is dropped once. */
  function DropPercent(c: string): string {
    if LastIs(c, '%') then c[..|c| - 1] else c
  }

  /** Lines 19-27: a trailing hyphen, then parentheses, then a plain float;
      a ValueError gives 0.0. */
  function ReadSigned(c: string): real {
    if LastIs(c, '-') then NegatedOrZero(ParseFloat(c[..|c| - 1]))
    else if FirstIs(c, '(') && LastIs(c, ')') then NegatedOrZero(ParseFloat(c[1..|c| - 1]))
    else ParseFloat(c).GetOr(0.0)
  }

  /** clean_int applied to a str: the number the digits of s spell, 0 when
      there are none. */
  function CleanInt(s: string): (r: nat) {
    if s == [] then 0 else DigitsRead(KeepDigits(Strip(s)))
  }

  /** int() of the digit string ds, and 0 for the empty string. */
  function DigitsRead(ds: string): nat
    requires AllDigits(ds)
  {
    if ds == [] then 0 else DigitsValue(ds)
  }

  /** The "no value" texts: empty, or a residue of "-" or ".00". */
  lemma CleanNumberNoValue(s: string)
    requires s == [] || IsNoValue(Cleaned(s))
    ensures CleanNumber(s) == 0.0
  {
  }

  /** The text float() is called on once the cleaned text is past the
      no-value test: the percent sign dropped, then the hyphen after the
      numeral, or the parentheses around it, removed. */
  function FloatArgument(c: string): string {
    var p := DropPercent(c);
    if LastIs(p, '-') then p[..|p| - 1]
    else if FirstIs(p, '(') && LastIs(p, ')') then p[1..|p| - 1]
    else p
  }

  /** Text float() cannot read gives 0.0 instead of raising, in each of the
      three reads: after a trailing hyphen, inside parentheses, or plain. */
  lemma CleanNumberUnparsable(s: string)
    requires s != [] && !IsNoValue(Cleaned(s))
    requires ParseFloat(FloatArgument(Cleaned(s))).None?
    ensures CleanNumber(s) == 0.0
  {
  }

  /** A text whose cleaning float() reads, "123", "-5", "R1,234.50" or
      " 7.5 " say, reads as that value. */
  lemma CleanNumberPlain(s: string, v: real)
    requires s != [] && ParseFloat(Cleaned(s)) == Some(v)
    ensures CleanNumber(s) == v
  {
    var c := Cleaned(s);
    FloatTextEnd(c);
    if IsNoValue(c) {
      NoValueReadsZero(c, v);
    } else {
      assert DropPercent(c) == c;
    }
  }

  /** The one no-value text float() reads, ".00", reads as 0. */
  lemma NoValueReadsZero(c: string, v: real)
    requires IsNoValue(c) && ParseFloat(c) == Some(v)
    ensures v == 0.0
  {
    var ip: string, fp: string := [], ['0', '0'];
    assert c == DecimalText(ip, fp) by {
      FloatTextEnd(c);
      assert LastIs("-", '-');
    }
    assert ParseFloat(c) == Some(0.0) by {
      ParseDecimalText(ip, fp);
      ZeroSentinel(ip, fp);
    }
  }

  /** A trailing percent sign is dropped and the number is not divided by
      100: "26 %" reads as 26. */
  lemma CleanNumberPercent(s: string, d: string, v: real)
    requires Cleaned(s) == d + "%" && ParseFloat(d) == Some(v)
    ensures CleanNumber(s) == v
  {
    var c := d + "%";
    FloatTextEnd(d);
    assert c[|c| - 1] == '%' && ".00"[2] == '0';
    assert c[..|c| - 1] == d;
    assert !IsNoValue(c);
    assert DropPercent(c) == d;
  }

  /** A trailing hyphen negates, also before a percent sign: "123-" reads
      as -123. */
  lemma CleanNumberTrailingMinus(s: string, d: string, v: real)
    requires Cleaned(s) == d + "-" || Cleaned(s) == d + "-%"
    requires ParseFloat(d) == Some(v)
    ensures CleanNumber(s) == -v
  {
    var c := Cleaned(s);
    var m := d + "-";
    FloatTextEnd(d);
    assert m[|m| - 1] == '-' && m[..|m| - 1] == d && |m| >= 2;
    assert ".00"[2] == '0';
    if c == m {
      assert DropPercent(c) == m;
    } else {
      assert c[|c| - 1] == '%' && c[..|c| - 1] == m;
      assert DropPercent(c) == m;
    }
    assert !IsNoValue(c);
  }

  /** Parentheses negate, also before a percent sign: "(5)" reads as -5. */
  lemma CleanNumberParenthesized(s: string, d: string, v: real)
    requires Cleaned(s) == "(" + d + ")" || Cleaned(s) == "(" + d + ")%"
    requires ParseFloat(d) == Some(v)
    ensures CleanNumber(s) == -v
  {
    var c := Cleaned(s);
    var p := "(" + d + ")";
    ReadCleanedParenthesized(d, v);
    assert p[0] == '(';
    if c != p {
      assert c[0] == '(' && c[|c| - 1] == '%' && c[..|c| - 1] == p;
      assert DropPercent(c) == p;
      assert DropPercent(p) == p by { assert p[|p| - 1] == ')'; }
    }
  }

  lemma ReadCleanedParenthesized(d: string, v: real)
    requires ParseFloat(d) == Some(v)
    ensures ReadCleaned("(" + d + ")") == -v
  {
    var s := "(" + d + ")";
    assert !IsNoValue(s) by { assert s[0] == '('; }
    assert DropPercent(s) == s by { assert s[|s| - 1] == ')'; }
    assert s[1..|s| - 1] == d;
    assert !LastIs(s, '-') && FirstIs(s, '(') && LastIs(s, ')');
  }

  /** A decimal numeral with one of the marks clean_number reads after it
      survives the cleaning unchanged. */
  lemma CleanedDecimal(ip: string, fp: string, tail: string)
    requires AllDigits(ip) && AllDigits(fp) && |ip| + |fp| >= 1
    requires tail == [] || tail == "%" || tail == "-" || tail == "-%"
    ensures Cleaned(DecimalText(ip, fp) + tail) == DecimalText(ip, fp) + tail
  {
    var d := DecimalText(ip, fp);
    var s := d + tail;
    NoMarks(ip, fp, tail);
    DecimalTextEnds(ip, fp);
    assert s[0] == d[0];
    if tail == [] {
      assert s[|s| - 1] == d[|d| - 1];
    } else {
      assert s[|s| - 1] == tail[|tail| - 1];
    }
    CleanedFixed(s);
  }

  lemma NoMarks(ip: string, fp: string, tail: string)
    requires AllDigits(ip) && AllDigits(fp)
    requires tail == [] || tail == "%" || tail == "-" || tail == "-%" || tail == ")"
    ensures var s := DecimalText(ip, fp) + tail; 'R' !in s && ',' !in s && ' ' !in s
  {
    var s := DecimalText(ip, fp) + tail;
    forall i | 0 <= i < |s| ensures s[i] != 'R' && s[i] != ',' && s[i] != ' ' {
      if i < |ip| { assert s[i] == ip[i]; }
      else if i > |ip| && i < |ip| + 1 + |fp| { assert s[i] == fp[i - |ip| - 1]; }
    }
  }

  /** The only decimal numeral among the no-value texts is ".00", whose
      value is 0 anyway. */
  lemma ZeroSentinel(ip: string, fp: string)
    requires AllDigits(ip) && AllDigits(fp) && |ip| + |fp| >= 1
    requires IsNoValue(DecimalText(ip, fp))
    ensures DecimalValue(ip, fp) == 0.0
  {
    var d := DecimalText(ip, fp);
    assert d[|ip|] == '.';
    PointAt(ip, fp);
    assert d == ".00";
    assert IndexOf(".00", '.') == 0;
    assert ip == [];
    assert d[1..] == fp;
    assert fp == "00";
    assert fp[..1] == "0" && fp[..1][..0] == [];
    assert DigitsValue(fp[..1]) == 0;
    assert DigitsValue(fp) == 0;
  }

  lemma CleanedParenthesized(ip: string, fp: string)
    requires AllDigits(ip) && AllDigits(fp)
    ensures Cleaned("(" + DecimalText(ip, fp) + ")") == "(" + DecimalText(ip, fp) + ")"
  {
    var d := DecimalText(ip, fp);
    var s := "(" + d + ")";
    NoMarks(ip, fp, ")");
    assert s == "(" + (d + ")");
    assert 'R' !in s && ',' !in s && ' ' !in s;
    assert s[0] == '(' && s[|s| - 1] == ')';
    CleanedFixed(s);
  }

  lemma UnmarkedAppend(a: string, b: string)
    ensures Unmarked(a + b) == Unmarked(a) + Unmarked(b)
  {
    RemoveCharAppend(a, b, 'R');
    RemoveCharAppend(RemoveChar(a, 'R'), RemoveChar(b, 'R'), ',');
  }

  /** Currency marks and thousands separators anywhere in the text do not
      change the result. */
  lemma CleanNumberIgnoresMark(a: string, b: string, c: char)
    requires c == 'R' || c == ','
    ensures CleanNumber(a + [c] + b) == CleanNumber(a + b)
  {
    UnmarkedAppend(a + [c], b);
    UnmarkedAppend(a, [c]);
    UnmarkedAppend(a, b);
    assert Unmarked([c]) == [];
    assert Unmarked(a) + [] == Unmarked(a);
    assert Unmarked(a + [c] + b) == Unmarked(a + b);
    if a + b == [] {
      assert Unmarked(a + [c] + b) == [];
      StripAllSpace([]);
      assert Cleaned(a + [c] + b) == [];
    }
  }

  /** Spaces anywhere in the text do not change the result. */
  lemma CleanNumberIgnoresSpace(a: string, b: string)
    ensures CleanNumber(a + " " + b) == CleanNumber(a + b)
  {
    var ua, ub := Unmarked(a), Unmarked(b);
    assert Unmarked(" ") == " ";
    UnmarkedAppend(a + " ", b);
    UnmarkedAppend(a, " ");
    UnmarkedAppend(a, b);
    assert Unmarked(a + " " + b) == ua + " " + ub;
    assert Unmarked(a + b) == ua + ub;
    CleanedSpace(ua, ub);
    if a + b == [] {
      assert ua + " " + ub == " ";
      StripAllSpace(" ");
      assert Cleaned(a + " " + b) == [];
    }
  }

  lemma CleanedSpace(ua: string, ub: string)
    ensures RemoveChar(Strip(ua + " " + ub), ' ') == RemoveChar(Strip(ua + ub), ' ')
  {
    RemoveCharInfix(ua, ub, ' ');
    SpacelessSame(ua + " " + ub, ua + ub);
  }

  /** Texts that agree once spaces are removed agree once stripped and
      spaces are removed. */
  lemma SpacelessSame(x1: string, x2: string)
    requires RemoveChar(x1, ' ') == RemoveChar(x2, ' ')
    ensures RemoveChar(Strip(x1), ' ') == RemoveChar(Strip(x2), ' ')
  {
    RemoveSpaceStrip(x1);
    RemoveSpaceStrip(x2);
  }

  /** clean_int reads the digits of the text and nothing else: the stripping
      before the digit filter changes nothing. */
  lemma CleanIntDigits(s: string)
    ensures CleanInt(s) == DigitsRead(KeepDigits(s))
  {
    KeepDigitsStrip(s);
  }

  /** A non-digit character anywhere in the text (a sign, a separator, a
      letter) does not change the count. */
  lemma CleanIntIgnoresNonDigit(a: string, c: char, b: string)
    requires !IsDigit(c)
    ensures CleanInt(a + [c] + b) == CleanInt(a + b)
  {
    CleanIntDigits(a + [c] + b);
    CleanIntDigits(a + b);
    KeepDigitsAppend(a + [c], b);
    KeepDigitsAppend(a, [c]);
    KeepDigitsAppend(a, b);
    assert KeepDigits([c]) == [];
    assert KeepDigits(a) + [] == KeepDigits(a);
  }

  /** A string of digits reads as the number it spells. */
  lemma CleanIntOfDigits(ds: string)
    requires AllDigits(ds)
    ensures CleanInt(ds) == DigitsValue(ds)
  {
    CleanIntDigits(ds);
    KeepDigitsOfDigits(ds);
  }
}

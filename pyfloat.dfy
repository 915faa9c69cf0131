/** Python's float() applied to a str, on exact reals: optional surrounding
    whitespace, an optional sign, a decimal mantissa "ddd", "ddd.", ".ddd" or
    "ddd.ddd", and an optional exponent "e[+-]ddd". Anything else raises
    ValueError, shown here as None. */
module PyFloat {
  import opened Text
  import opened Wrappers

  /** Position of the first c in s, or |s| when there is none. */
  function IndexOf(s: string, c: char): (k: nat)
    ensures k <= |s|
    ensures forall i :: 0 <= i < k ==> s[i] != c
    ensures k < |s| ==> s[k] == c
  {
    if s == [] || s[0] == c then 0 else 1 + IndexOf(s[1..], c)
  }

  predicate IsExponentMark(c: char) { c == 'e' || c == 'E' }

  /** Position of the first exponent mark in s, or |s|. */
  function IndexOfExponent(s: string): (k: nat)
    ensures k <= |s|
    ensures forall i :: 0 <= i < k ==> !IsExponentMark(s[i])
    ensures k < |s| ==> IsExponentMark(s[k])
  {
    if s == [] || IsExponentMark(s[0]) then 0 else 1 + IndexOfExponent(s[1..])
  }

  /** The exact value of the decimal numeral ip.fp. */
  function DecimalValue(ip: string, fp: string): (v: real)
    requires AllDigits(ip) && AllDigits(fp)
    ensures v >= 0.0
  {
    DigitsValue(ip) as real + DigitsValue(fp) as real / Pow10(|fp|) as real
  }

  /** A mantissa: digits with at most one point and at least one digit. */
  function ParseMantissa(m: string): (r: Option<real>)
    ensures r.Some? ==> r.value >= 0.0
  {
    var k := IndexOf(m, '.');
    var ip := m[..k];
    var fp := if k < |m| then m[k + 1..] else [];
    if AllDigits(ip) && AllDigits(fp) && |ip| + |fp| >= 1 then Some(DecimalValue(ip, fp)) else None
  }

  /** An exponent: an optional sign and at least one digit. */
  function ParseExponent(x: string): Option<int> {
    var neg := |x| > 0 && x[0] == '-';
    var ds := if |x| > 0 && (x[0] == '+' || x[0] == '-') then x[1..] else x;
    if ds != [] && AllDigits(ds) then
      var n: int := DigitsValue(ds);
      Some(if neg then -n else n)
    else None
  }

  function Scale(v: real, e: int): (r: real)
    ensures v >= 0.0 ==> r >= 0.0
  {
    if e >= 0 then v * Pow10(e) as real else v / Pow10(-e) as real
  }

  /** An unsigned numeral: a mantissa with an optional exponent. */
  function ParseUnsigned(b: string): (r: Option<real>)
    ensures r.Some? ==> r.value >= 0.0
  {
    var k := IndexOfExponent(b);
    var m := ParseMantissa(b[..k]);
    if m.None? then None
    else if k == |b| then m
    else match ParseExponent(b[k + 1..])
      case None => None
      case Some(e) => Some(Scale(m.value, e))
  }

  /** float(s) for a str s; None stands for the ValueError it raises. */
  function ParseFloat(s: string): Option<real> {
    ParseSigned(Strip(s))
  }

  /** A stripped numeral with an optional sign. */
  function ParseSigned(t: string): Option<real> {
    if |t| > 0 && t[0] == '-' then Negated(ParseUnsigned(t[1..]))
    else if |t| > 0 && t[0] == '+' then ParseUnsigned(t[1..])
    else ParseUnsigned(t)
  }

  function Negated(r: Option<real>): Option<real> {
    match r
    case None => None
    case Some(v) => Some(-v)
  }

  /** The numeral ip.fp as text. */
  function DecimalText(ip: string, fp: string): string {
    ip + "." + fp
  }

  /** float() of a text with no whitespace at its ends and no sign is the
      reading of the unsigned numeral. */
  lemma ParseTrimmed(s: string)
    requires s != [] && !IsSpace(s[0]) && !IsSpace(s[|s| - 1])
    requires s[0] != '-' && s[0] != '+'
    ensures ParseFloat(s) == ParseUnsigned(s)
  {
    StripTrimmed(s);
  }

  /** float() of '-' followed by a text with no whitespace at its end is
      the negated reading of that text. */
  lemma ParseMinus(d: string)
    requires d != [] && !IsSpace(d[|d| - 1])
    ensures ParseFloat("-" + d) == Negated(ParseUnsigned(d))
  {
    var s := "-" + d;
    assert s[0] == '-' && s[|s| - 1] == d[|d| - 1];
    StripTrimmed(s);
    assert s[1..] == d;
  }

  /** float() reads a plain decimal numeral as its exact value. */
  lemma ParseDecimalText(ip: string, fp: string)
    requires AllDigits(ip) && AllDigits(fp) && |ip| + |fp| >= 1
    ensures ParseFloat(DecimalText(ip, fp)) == Some(DecimalValue(ip, fp))
  {
    DecimalTextEnds(ip, fp);
    ParseTrimmed(DecimalText(ip, fp));
    UnsignedDecimal(ip, fp);
  }

  /** float() reads "-" followed by a plain decimal numeral as its negation. */
  lemma ParseNegativeDecimalText(ip: string, fp: string)
    requires AllDigits(ip) && AllDigits(fp) && |ip| + |fp| >= 1
    ensures ParseFloat("-" + DecimalText(ip, fp)) == Some(-DecimalValue(ip, fp))
  {
    DecimalTextEnds(ip, fp);
    ParseMinus(DecimalText(ip, fp));
    UnsignedDecimal(ip, fp);
  }

  /** float() reads an optionally negated plain decimal numeral as its
      signed exact value. */
  lemma SignedDecimal(t: string, neg: bool, ip: string, fp: string)
    requires AllDigits(ip) && AllDigits(fp) && |ip| + |fp| >= 1
    requires t == (if neg then "-" else "") + DecimalText(ip, fp)
    ensures ParseFloat(t) == Some(if neg then -DecimalValue(ip, fp) else DecimalValue(ip, fp))
  {
    if neg {
      ParseNegativeDecimalText(ip, fp);
    } else {
      assert t == DecimalText(ip, fp);
      ParseDecimalText(ip, fp);
    }
  }

  /** The ends of a decimal numeral: a digit or the point, so neither
      whitespace nor a sign, a bracket or a percent sign. */
  lemma DecimalTextEnds(ip: string, fp: string)
    requires AllDigits(ip) && AllDigits(fp)
    ensures var d := DecimalText(ip, fp);
      && |d| > 0 && !IsSpace(d[0]) && !IsSpace(d[|d| - 1])
      && d[0] != '-' && d[0] != '+' && d[0] != '('
      && d[|d| - 1] != '-' && d[|d| - 1] != '%' && d[|d| - 1] != ')'
  {
    var d := DecimalText(ip, fp);
    if ip != [] { assert d[0] == ip[0]; } else { assert d[0] == '.'; }
    if fp != [] { assert d[|d| - 1] == fp[|fp| - 1]; } else { assert d[|d| - 1] == '.'; }
  }

  /** float() reads a digit string as the number it denotes. */
  lemma ParseDigits(ds: string)
    requires AllDigits(ds) && ds != []
    ensures ParseFloat(ds) == Some(DigitsValue(ds) as real)
  {
    assert IsDigit(ds[0]) && IsDigit(ds[|ds| - 1]);
    ParseTrimmed(ds);
    NoExponentInDigits(ds);
    assert ds[..|ds|] == ds;
    NoPointInDigits(ds);
    assert ParseMantissa(ds) == Some(DecimalValue(ds, []));
  }

  lemma UnsignedDecimal(ip: string, fp: string)
    requires AllDigits(ip) && AllDigits(fp) && |ip| + |fp| >= 1
    ensures ParseUnsigned(DecimalText(ip, fp)) == Some(DecimalValue(ip, fp))
  {
    var s := DecimalText(ip, fp);
    PointAt(ip, fp);
    NoExponentInDecimal(ip, fp);
    assert s[..|s|] == s;
    assert s[..|ip|] == ip;
    assert s[|ip| + 1..] == fp;
  }

  lemma {:induction false} PointAt(ip: string, fp: string)
    requires AllDigits(ip)
    ensures IndexOf(DecimalText(ip, fp), '.') == |ip|
  {
    var s := DecimalText(ip, fp);
    if ip != [] {
      assert s[1..] == DecimalText(ip[1..], fp);
      PointAt(ip[1..], fp);
    }
  }

  lemma {:induction false} NoPointInDigits(ds: string)
    requires AllDigits(ds)
    ensures IndexOf(ds, '.') == |ds|
  {
    if ds != [] { NoPointInDigits(ds[1..]); }
  }

  lemma {:induction false} NoExponentInDigits(ds: string)
    requires AllDigits(ds)
    ensures IndexOfExponent(ds) == |ds|
  {
    if ds != [] { NoExponentInDigits(ds[1..]); }
  }

  lemma NoExponentInDecimal(ip: string, fp: string)
    requires AllDigits(ip) && AllDigits(fp)
    ensures IndexOfExponent(DecimalText(ip, fp)) == |DecimalText(ip, fp)|
  {
    var s := DecimalText(ip, fp);
    assert forall i :: 0 <= i < |s| ==> !IsExponentMark(s[i]) by {
      forall i | 0 <= i < |s| ensures !IsExponentMark(s[i]) {
        if i < |ip| { assert s[i] == ip[i]; }
        else if i > |ip| { assert s[i] == fp[i - |ip| - 1]; }
      }
    }
    NoMarkAll(s);
  }

  lemma {:induction false} NoMarkAll(s: string)
    requires forall i :: 0 <= i < |s| ==> !IsExponentMark(s[i])
    ensures IndexOfExponent(s) == |s|
  {
    if s != [] { NoMarkAll(s[1..]); }
  }

  /** A text float() reads ends in a digit or a point, or in whitespace
      after one: never in a hyphen, a percent sign or a closing bracket. */
  lemma FloatTextEnd(c: string)
    requires ParseFloat(c).Some?
    ensures c != [] && !LastIs(c, '-') && !LastIs(c, '%') && !LastIs(c, ')')
  {
    var lead, trail := StripParts(c);
    var t := Strip(c);
    SignedEnd(t);
    if trail == [] {
      assert c == lead + t;
      assert c[|c| - 1] == t[|t| - 1];
    } else {
      assert c[|c| - 1] == trail[|trail| - 1];
    }
  }

  /** A signed numeral float() reads ends in a digit or a point. */
  lemma SignedEnd(t: string)
    requires ParseSigned(t).Some?
    ensures t != [] && (IsDigit(t[|t| - 1]) || t[|t| - 1] == '.')
  {
    if |t| > 0 && (t[0] == '-' || t[0] == '+') {
      UnsignedEnd(t[1..]);
      assert t[|t| - 1] == t[1..][|t[1..]| - 1];
    } else {
      UnsignedEnd(t);
    }
  }

  /** An unsigned numeral float() reads ends in a digit or a point: the
      last digit of its exponent, or of its mantissa, or the mantissa's
      point. */
  lemma UnsignedEnd(b: string)
    requires ParseUnsigned(b).Some?
    ensures b != [] && (IsDigit(b[|b| - 1]) || b[|b| - 1] == '.')
  {
    var k := IndexOfExponent(b);
    if k == |b| {
      assert b[..k] == b;
      var j := IndexOf(b, '.');
      if j == |b| {
        assert b[..j] == b;
      } else if j + 1 < |b| {
        var fp := b[j + 1..];
        assert b[|b| - 1] == fp[|fp| - 1];
      }
    } else {
      var x := b[k + 1..];
      var ds := if |x| > 0 && (x[0] == '+' || x[0] == '-') then x[1..] else x;
      assert ds != [] && AllDigits(ds);
      assert b[|b| - 1] == ds[|ds| - 1];
    }
  }

  /** Without a minus sign anywhere in the text, float() never yields a
      negative number. */
  lemma NoMinusNonNegative(s: string)
    requires '-' !in s
    requires ParseFloat(s).Some?
    ensures ParseFloat(s).value >= 0.0
  {
    var lead, trail := StripParts(s);
    var t := Strip(s);
    if |t| > 0 {
      assert s[|lead|] == t[0];
    }
  }
}

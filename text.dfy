/** Python and JavaScript string primitives the extraction code is built from,
    over strings of characters: whitespace stripping, character removal,
    substring and prefix tests, case mapping, digit handling, split and join. */
module Text {

  /** Python's str.isspace() for one character (also what `\s` matches in a
      str regular expression and what str.strip() removes). */
  predicate IsSpace(c: char) {
    || ('\t' <= c <= '\r')
    || ('\U{1c}' <= c <= '\U{1f}')
    || c == ' ' || c == '\U{85}' || c == '\U{a0}' || c == '\U{1680}'
    || ('\U{2000}' <= c <= '\U{200a}')
    || c == '\U{2028}' || c == '\U{2029}' || c == '\U{202f}' || c == '\U{205f}' || c == '\U{3000}'
  }

  predicate IsDigit(c: char) { '0' <= c <= '9' }

  predicate AllDigits(s: string) { forall i :: 0 <= i < |s| ==> IsDigit(s[i]) }

  predicate NoSpace(s: string) { forall i :: 0 <= i < |s| ==> !IsSpace(s[i]) }

  predicate AllSpace(s: string) { forall i :: 0 <= i < |s| ==> IsSpace(s[i]) }

  /** Number of leading whitespace characters. */
  function LeadCount(s: string): (n: nat)
    ensures n <= |s|
    ensures forall i :: 0 <= i < n ==> IsSpace(s[i])
    ensures n == |s| || !IsSpace(s[n])
  {
    if |s| > 0 && IsSpace(s[0]) then 1 + LeadCount(s[1..]) else 0
  }

  /** Number of trailing whitespace characters. */
  function TrailCount(s: string): (n: nat)
    ensures n <= |s|
    ensures forall i :: |s| - n <= i < |s| ==> IsSpace(s[i])
    ensures n == |s| || !IsSpace(s[|s| - n - 1])
  {
    if |s| > 0 && IsSpace(s[|s| - 1]) then 1 + TrailCount(s[..|s| - 1]) else 0
  }

  /** Python's str.strip() with no argument. */
  function Strip(s: string): (r: string)
    ensures |r| <= |s|
    ensures r == [] || (!IsSpace(r[0]) && !IsSpace(r[|r| - 1]))
  {
    var t := s[LeadCount(s)..];
    t[..|t| - TrailCount(t)]
  }

  /** A string with no whitespace at either end is its own strip. */
  lemma StripTrimmed(s: string)
    requires s == [] || (!IsSpace(s[0]) && !IsSpace(s[|s| - 1]))
    ensures Strip(s) == s
  {
  }

  /** Strip removes exactly the whitespace around a core whose ends are not
      whitespace. */
  lemma {:induction false} StripAround(lead: string, core: string, trail: string)
    requires AllSpace(lead) && AllSpace(trail)
    requires core != [] && !IsSpace(core[0]) && !IsSpace(core[|core| - 1])
    ensures Strip(lead + core + trail) == core
  {
    var s := lead + core + trail;
    LeadCountOf(lead, core + trail);
    assert s == lead + (core + trail);
    assert s[|lead|..] == core + trail;
    TrailCountOf(core, trail);
  }

  lemma {:induction false} LeadCountOf(lead: string, rest: string)
    requires AllSpace(lead)
    requires rest != [] && !IsSpace(rest[0])
    ensures LeadCount(lead + rest) == |lead|
  {
    if lead != [] {
      assert (lead + rest)[1..] == lead[1..] + rest;
      LeadCountOf(lead[1..], rest);
    }
  }

  lemma {:induction false} TrailCountOf(rest: string, trail: string)
    requires AllSpace(trail)
    requires rest != [] && !IsSpace(rest[|rest| - 1])
    ensures TrailCount(rest + trail) == |trail|
  {
    if trail != [] {
      var s := rest + trail;
      assert s[..|s| - 1] == rest + trail[..|trail| - 1];
      TrailCountOf(rest, trail[..|trail| - 1]);
    }
  }

  /** A string is the whitespace Strip removes around what it keeps. */
  lemma StripParts(s: string) returns (lead: string, trail: string)
    ensures s == lead + Strip(s) + trail
    ensures AllSpace(lead) && AllSpace(trail)
  {
    var a := LeadCount(s);
    var t := s[a..];
    var n := TrailCount(t);
    lead, trail := s[..a], t[|t| - n..];
    LeadSpaces(s);
    TrailSpaces(t);
    SplitThree(s, a, |t| - n);
  }

  lemma LeadSpaces(s: string)
    ensures AllSpace(s[..LeadCount(s)])
  {
    var lead := s[..LeadCount(s)];
    forall i | 0 <= i < |lead|
      ensures IsSpace(lead[i])
    {
      assert lead[i] == s[i];
    }
  }

  lemma TrailSpaces(t: string)
    ensures AllSpace(t[|t| - TrailCount(t)..])
  {
    var n := TrailCount(t);
    var trail := t[|t| - n..];
    forall i | 0 <= i < |trail|
      ensures IsSpace(trail[i])
    {
      assert trail[i] == t[|t| - n + i];
    }
  }

  /** Cutting s at a and then its rest at k gives three pieces. */
  lemma SplitThree(s: string, a: nat, k: nat)
    requires a <= |s| && k <= |s| - a
    ensures s == s[..a] + s[a..][..k] + s[a..][k..]
  {
    assert s == s[..a] + s[a..];
    assert s[a..] == s[a..][..k] + s[a..][k..];
  }

  /** A string of whitespace strips to nothing. */
  lemma StripAllSpace(s: string)
    requires AllSpace(s)
    ensures Strip(s) == []
  {
  }

  /** Removing spaces commutes with stripping. */
  lemma RemoveSpaceStrip(x: string)
    ensures RemoveChar(Strip(x), ' ') == Strip(RemoveChar(x, ' '))
  {
    var lead, trail := StripParts(x);
    var core := Strip(x);
    var rl, rc, rt := RemoveChar(lead, ' '), RemoveChar(core, ' '), RemoveChar(trail, ' ');
    RemoveChar3(lead, core, trail, ' ');
    RemoveCharSpaces(lead, ' ');
    RemoveCharSpaces(trail, ' ');
    StripCore(rl, core, rc, rt);
  }

  lemma StripCore(rl: string, core: string, rc: string, rt: string)
    requires AllSpace(rl) && AllSpace(rt)
    requires core == [] || (!IsSpace(core[0]) && !IsSpace(core[|core| - 1]))
    requires rc == RemoveChar(core, ' ')
    ensures Strip(rl + rc + rt) == rc
  {
    if core == [] {
      assert rl + rc + rt == rl + rt;
      assert AllSpace(rl + rt);
      StripAllSpace(rl + rt);
    } else {
      RemoveCharEnds(core, ' ');
      StripAround(rl, rc, rt);
    }
  }

  lemma RemoveChar3(a: string, b: string, c: string, x: char)
    ensures RemoveChar(a + b + c, x) == RemoveChar(a, x) + RemoveChar(b, x) + RemoveChar(c, x)
  {
    RemoveCharAppend(a, b, x);
    RemoveCharAppend(a + b, c, x);
  }

  /** Removing c also removes a c inserted anywhere. */
  lemma RemoveCharInfix(a: string, b: string, c: char)
    ensures RemoveChar(a + [c] + b, c) == RemoveChar(a + b, c)
  {
    RemoveChar3(a, [c], b, c);
    RemoveCharAppend(a, b, c);
    assert RemoveChar([c], c) == [];
    assert RemoveChar(a, c) + [] == RemoveChar(a, c);
  }

  lemma {:induction false} RemoveCharSpaces(s: string, c: char)
    requires AllSpace(s)
    ensures AllSpace(RemoveChar(s, c))
  {
    if s != [] {
      RemoveCharSpaces(s[1..], c);
    }
  }

  /** Removing a character other than the end characters keeps those ends. */
  lemma RemoveCharEnds(s: string, c: char)
    requires s != [] && s[0] != c && s[|s| - 1] != c
    ensures var r := RemoveChar(s, c); r != [] && r[0] == s[0] && r[|r| - 1] == s[|s| - 1]
  {
    var n := |s|;
    assert s == s[..n - 1] + [s[n - 1]];
    RemoveCharAppend(s[..n - 1], [s[n - 1]], c);
    assert RemoveChar([s[n - 1]], c) == [s[n - 1]];
  }

  /** Python's s.replace(c, '') for a one-character c. */
  function RemoveChar(s: string, c: char): (r: string)
    ensures c !in r
    ensures |r| <= |s|
  {
    if s == [] then [] else (if s[0] == c then [] else [s[0]]) + RemoveChar(s[1..], c)
  }

  lemma {:induction false} RemoveCharAppend(a: string, b: string, c: char)
    ensures RemoveChar(a + b, c) == RemoveChar(a, c) + RemoveChar(b, c)
  {
    if a != [] {
      assert (a + b)[1..] == a[1..] + b;
      RemoveCharAppend(a[1..], b, c);
      var h := if a[0] == c then [] else [a[0]];
      assert RemoveChar(a + b, c) == h + RemoveChar(a[1..] + b, c);
      assert RemoveChar(a, c) == h + RemoveChar(a[1..], c);
    } else {
      assert a + b == b;
    }
  }

  lemma {:induction false} RemoveCharAbsent(s: string, c: char)
    requires c !in s
    ensures RemoveChar(s, c) == s
  {
    if s != [] {
      assert c !in s[1..];
      RemoveCharAbsent(s[1..], c);
    }
  }

  /** Python's `pat.startswith`-style prefix test, s.startswith(p). */
  predicate StartsWith(s: string, p: string) {
    |p| <= |s| && s[..|p|] == p
  }

  /** s.endswith(p). */
  predicate EndsWith(s: string, p: string) {
    |p| <= |s| && s[|s| - |p|..] == p
  }

  /** s.endswith(ch) for a one-character string ch. */
  predicate LastIs(s: string, ch: char) {
    |s| > 0 && s[|s| - 1] == ch
  }

  /** s.startswith(ch) for a one-character string ch. */
  predicate FirstIs(s: string, ch: char) {
    |s| > 0 && s[0] == ch
  }

  /** Python's `pat in s` (and JavaScript's s.includes(pat)): pat occurs in s. */
  predicate Contains(s: string, pat: string)
    decreases |s|
  {
    StartsWith(s, pat) || (|s| > 0 && Contains(s[1..], pat))
  }

  /** Contains means an occurrence at some position. */
  lemma {:induction false} ContainsAt(s: string, pat: string, k: nat)
    requires k + |pat| <= |s| && s[k..k + |pat|] == pat
    ensures Contains(s, pat)
    decreases k
  {
    if k > 0 {
      assert s[1..][k - 1..k - 1 + |pat|] == s[k..k + |pat|];
      ContainsAt(s[1..], pat, k - 1);
    }
  }

  lemma {:induction false} ContainsSelf(s: string)
    ensures Contains(s, s)
  {
  }

  /** An occurrence of a pattern in a part is an occurrence in the whole. */
  lemma {:induction false} ContainsInfix(a: string, b: string, c: string, pat: string)
    requires Contains(b, pat)
    ensures Contains(a + b + c, pat)
  {
    var k := ContainsWitness(b, pat);
    var s := a + b + c;
    assert s[|a| + k..|a| + k + |pat|] == b[k..k + |pat|];
    ContainsAt(s, pat, |a| + k);
  }

  /** The position of an occurrence that Contains promises. */
  lemma {:induction false} ContainsWitness(s: string, pat: string) returns (k: nat)
    requires Contains(s, pat)
    ensures k + |pat| <= |s| && s[k..k + |pat|] == pat
    decreases |s|
  {
    if StartsWith(s, pat) {
      k := 0;
    } else {
      var j := ContainsWitness(s[1..], pat);
      assert s[j + 1..j + 1 + |pat|] == s[1..][j..j + |pat|];
      k := j + 1;
    }
  }

  /** A pattern longer than the text cannot occur in it. */
  lemma {:induction false} ContainsTooLong(s: string, pat: string)
    requires |pat| > |s|
    ensures !Contains(s, pat)
    decreases |s|
  {
    if |s| > 0 { ContainsTooLong(s[1..], pat); }
  }

  function LowerChar(c: char): char {
    if 'A' <= c <= 'Z' then (c as int + 32) as char else c
  }

  function UpperChar(c: char): char {
    if 'a' <= c <= 'z' then (c as int - 32) as char else c
  }

  /** Python's str.lower() on ASCII letters. */
  function Lower(s: string): (r: string)
    ensures |r| == |s|
    ensures forall i :: 0 <= i < |s| ==> r[i] == LowerChar(s[i])
  {
    seq(|s|, i requires 0 <= i < |s| => LowerChar(s[i]))
  }

  /** JavaScript's String.prototype.toUpperCase() on ASCII letters. */
  function Upper(s: string): (r: string)
    ensures |r| == |s|
    ensures forall i :: 0 <= i < |s| ==> r[i] == UpperChar(s[i])
  {
    seq(|s|, i requires 0 <= i < |s| => UpperChar(s[i]))
  }

  lemma UpperIdempotent(s: string)
    ensures Upper(Upper(s)) == Upper(s)
  {
  }

  /** Python's re.sub(r'\D', '', s): the digits of s, in order. */
  function KeepDigits(s: string): (r: string)
    ensures AllDigits(r)
    ensures |r| <= |s|
  {
    if s == [] then [] else (if IsDigit(s[0]) then [s[0]] else []) + KeepDigits(s[1..])
  }

  lemma {:induction false} KeepDigitsAppend(a: string, b: string)
    ensures KeepDigits(a + b) == KeepDigits(a) + KeepDigits(b)
  {
    if a != [] {
      assert (a + b)[1..] == a[1..] + b;
      KeepDigitsAppend(a[1..], b);
      var h := if IsDigit(a[0]) then [a[0]] else [];
      assert KeepDigits(a + b) == h + KeepDigits(a[1..] + b);
      assert KeepDigits(a) == h + KeepDigits(a[1..]);
    } else {
      assert a + b == b;
    }
  }

  /** Stripping before the digit filter removes no digit. */
  lemma KeepDigitsStrip(s: string)
    ensures KeepDigits(Strip(s)) == KeepDigits(s)
  {
    var lead, trail := StripParts(s);
    var core := Strip(s);
    KeepDigitsAppend(lead, core);
    KeepDigitsAppend(lead + core, trail);
    KeepDigitsSpace(lead);
    KeepDigitsSpace(trail);
    assert [] + KeepDigits(core) + [] == KeepDigits(core);
  }

  lemma {:induction false} KeepDigitsSpace(s: string)
    requires AllSpace(s)
    ensures KeepDigits(s) == []
  {
    if s != [] {
      assert !IsDigit(s[0]);
      KeepDigitsSpace(s[1..]);
    }
  }

  lemma {:induction false} KeepDigitsOfDigits(s: string)
    requires AllDigits(s)
    ensures KeepDigits(s) == s
  {
    if s != [] { KeepDigitsOfDigits(s[1..]); }
  }

  function DigitValue(c: char): nat
    requires IsDigit(c)
  {
    c as int - '0' as int
  }

  /** The natural number a string of decimal digits denotes (Python's int()
      of a digit string; the empty string denotes 0 here, callers rule it out
      where Python raises). */
  function DigitsValue(s: string): (n: nat)
    requires AllDigits(s)
  {
    if s == [] then 0 else 10 * DigitsValue(s[..|s| - 1]) + DigitValue(s[|s| - 1])
  }

  function Pow10(n: nat): (p: nat)
    ensures p >= 1
  {
    if n == 0 then 1 else 10 * Pow10(n - 1)
  }

  /** Leading zeros do not change the value of a digit string. */
  lemma {:induction false} DigitsValueBound(s: string)
    requires AllDigits(s)
    ensures DigitsValue(s) < Pow10(|s|)
  {
    if s != [] { DigitsValueBound(s[..|s| - 1]); }
  }

  /** Python's s.split(sep) for a one-character separator: the pieces between
      separators, so there is always one more piece than separators. */
  function Split(s: string, sep: char): (r: seq<string>)
    ensures |r| >= 1
    ensures forall i :: 0 <= i < |r| ==> sep !in r[i]
  {
    if s == [] then [[]]
    else
      var rest := Split(s[1..], sep);
      if s[0] == sep then [[]] + rest else [[s[0]] + rest[0]] + rest[1..]
  }

  /** JavaScript's xs.join(sep) / Python's sep.join(xs) for a one-character separator. */
  function Join(xs: seq<string>, sep: char): string {
    if xs == [] then [] else if |xs| == 1 then xs[0] else xs[0] + [sep] + Join(xs[1..], sep)
  }

  /** Splitting a joined list gives the list back when no element holds the
      separator: split is the inverse of join. */
  lemma {:induction false} SplitJoin(xs: seq<string>, sep: char)
    requires |xs| >= 1
    requires forall i :: 0 <= i < |xs| ==> sep !in xs[i]
    ensures Split(Join(xs, sep), sep) == xs
  {
    if |xs| == 1 {
      SplitNoSep(xs[0], sep);
    } else {
      SplitJoin(xs[1..], sep);
      SplitConcat(xs[0], Join(xs[1..], sep), sep);
    }
  }

  lemma {:induction false} SplitNoSep(s: string, sep: char)
    requires sep !in s
    ensures Split(s, sep) == [s]
  {
    if s != [] {
      assert sep !in s[1..];
      SplitNoSep(s[1..], sep);
      assert [s[0]] + s[1..] == s;
    }
  }

  lemma {:induction false} SplitConcat(a: string, b: string, sep: char)
    requires sep !in a
    ensures Split(a + [sep] + b, sep) == [a] + Split(b, sep)
  {
    if a == [] {
      assert ([sep] + b)[1..] == b;
    } else {
      assert (a + [sep] + b)[1..] == a[1..] + [sep] + b;
      assert sep !in a[1..];
      SplitConcat(a[1..], b, sep);
      var rest := Split(a[1..] + [sep] + b, sep);
      assert rest[0] == a[1..];
      assert [a[0]] + a[1..] == a;
    }
  }
}

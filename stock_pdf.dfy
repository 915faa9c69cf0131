/** The PDF stock-sales extractor: the text lines of the pages are cleaned
    of headers, footers, subtotal blocks and rules, and each remaining line
    that fully matches the fixed-column stock-line pattern becomes a record
    of a department code, a stock code, a description and seven numbers. */
module StockPdf {
  import opened Wrappers
  import opened Text
  import opened PyFloat

  // ---------------------------------------------------------------------
  // The line filter

  const HeaderKeywords: seq<string> := ["REITZ APTEEK", "PAGE:", "CODE", "DESCRIPTION", "ON HAND",
    "SALES", "COST", "GROSS", "TURNOVER", "GP%", "QTY", "VALUE"]
  const ExclusionKeywords: seq<string> := ["MAIN-DEPT", "SUB-DEPT", "TOTAL", "-------"]

  /** any(keyword in line for keyword in keywords). */
  predicate ContainsAny(line: string, keywords: seq<string>)
    decreases |keywords|
  {
    keywords != [] && (Contains(line, keywords[0]) || ContainsAny(line, keywords[1..]))
  }

  /** Some keyword of the list occurs in the line. */
  lemma {:induction false} ContainsAnySome(line: string, keywords: seq<string>)
    ensures ContainsAny(line, keywords) <==> exists k :: 0 <= k < |keywords| && Contains(line, keywords[k])
    decreases |keywords|
  {
    if keywords != [] {
      ContainsAnySome(line, keywords[1..]);
      if exists k :: 0 <= k < |keywords| && Contains(line, keywords[k]) {
        var k :| 0 <= k < |keywords| && Contains(line, keywords[k]);
        if k > 0 { assert keywords[1..][k - 1] == keywords[k]; }
      }
    }
  }

  /** A keyword found in a part of a line is found in the line. */
  lemma {:induction false} ContainsAnyInfix(a: string, b: string, c: string, keywords: seq<string>)
    requires ContainsAny(b, keywords)
    ensures ContainsAny(a + b + c, keywords)
    decreases |keywords|
  {
    if Contains(b, keywords[0]) {
      ContainsInfix(a, b, c, keywords[0]);
    } else {
      ContainsAnyInfix(a, b, c, keywords[1..]);
    }
  }

  /** set(s) <= {"-", " "}: every character is a dash or a space. */
  predicate OnlyRule(s: string) {
    forall i :: 0 <= i < |s| ==> s[i] == '-' || s[i] == ' '
  }

  /** The two keyword lists a line is tested against. */
  datatype LineFilter = LineFilter(header: seq<string>, exclusion: seq<string>)

  const Filter: LineFilter := LineFilter(HeaderKeywords, ExclusionKeywords)

  /** A raw line survives the three tests. */
  predicate Kept(f: LineFilter, line: string) {
    !ContainsAny(line, f.header) && !ContainsAny(line, f.exclusion) && !OnlyRule(Strip(line))
  }

  /** The cleaned lines of a page's lines: the stripped survivors, in order. */
  function CleanedOf(f: LineFilter, lines: seq<string>): seq<string>
    decreases |lines|
  {
    if lines == [] then []
    else
      var last := lines[|lines| - 1];
      CleanedOf(f, lines[..|lines| - 1]) + (if Kept(f, last) then [Strip(last)] else [])
  }

  /** The cleaned lines of all pages, page by page. */
  function CleanedPages(f: LineFilter, pages: seq<string>): seq<string>
    decreases |pages|
  {
    if pages == [] then []
    else CleanedPages(f, pages[..|pages| - 1]) + CleanedOf(f, Split(pages[|pages| - 1], '\n'))
  }

  /** Step 2: the nested loop over the pages' text and their lines, with
      the keyword lists as a parameter. */
  method CleanLines(f: LineFilter, pages: seq<string>) returns (cleaned: seq<string>)
    ensures cleaned == CleanedPages(f, pages)
  {
    cleaned := [];
    var p := 0;
    while p < |pages|
      invariant 0 <= p <= |pages|
      invariant cleaned == CleanedPages(f, pages[..p])
    {
      var lines := Split(pages[p], '\n');
      var j := 0;
      while j < |lines|
        invariant 0 <= j <= |lines|
        invariant cleaned == CleanedPages(f, pages[..p]) + CleanedOf(f, lines[..j])
      {
        var line := lines[j];
        CleanedOfSnoc(f, lines, j);
        if ContainsAny(line, f.header) {
        } else if ContainsAny(line, f.exclusion) {
        } else if OnlyRule(Strip(line)) {
        } else {
          cleaned := cleaned + [Strip(line)];
        }
        j := j + 1;
      }
      assert lines[..j] == lines;
      CleanedPagesSnoc(f, pages, p);
      p := p + 1;
    }
    assert pages[..p] == pages;
  }

  lemma CleanedOfSnoc(f: LineFilter, lines: seq<string>, j: nat)
    requires j < |lines|
    ensures CleanedOf(f, lines[..j + 1]) == CleanedOf(f, lines[..j]) + (if Kept(f, lines[j]) then [Strip(lines[j])] else [])
  {
    assert lines[..j + 1][..j] == lines[..j];
  }

  lemma CleanedPagesSnoc(f: LineFilter, pages: seq<string>, p: nat)
    requires p < |pages|
    ensures CleanedPages(f, pages[..p + 1]) == CleanedPages(f, pages[..p]) + CleanedOf(f, Split(pages[p], '\n'))
  {
    assert pages[..p + 1][..p] == pages[..p];
    var lines := Split(pages[p], '\n');
    assert lines[..|lines|] == lines;
  }

  /** The cleaned lines of a + b are those of a followed by those of b. */
  lemma {:induction false} CleanedAppend(f: LineFilter, a: seq<string>, b: seq<string>)
    ensures CleanedOf(f, a + b) == CleanedOf(f, a) + CleanedOf(f, b)
    decreases |b|
  {
    if b == [] {
      assert a + b == a;
    } else {
      assert (a + b)[..|a + b| - 1] == a + b[..|b| - 1];
      CleanedAppend(f, a, b[..|b| - 1]);
    }
  }

  /** A line is cleaned exactly when it is the strip of a raw line that
      survives the tests. */
  lemma {:induction false} CleanedMembers(f: LineFilter, lines: seq<string>, x: string)
    ensures x in CleanedOf(f, lines) <==> exists i :: 0 <= i < |lines| && Kept(f, lines[i]) && x == Strip(lines[i])
    decreases |lines|
  {
    if lines != [] {
      var init, last := lines[..|lines| - 1], lines[|lines| - 1];
      CleanedMembers(f, init, x);
      var tail := if Kept(f, last) then [Strip(last)] else [];
      assert CleanedOf(f, lines) == CleanedOf(f, init) + tail;
      assert x in CleanedOf(f, lines) <==> x in CleanedOf(f, init) || x in tail;
      assert forall i :: 0 <= i < |init| ==> init[i] == lines[i];
      if x in tail {
        assert Kept(f, lines[|lines| - 1]) && x == Strip(lines[|lines| - 1]);
      }
      if exists i :: 0 <= i < |lines| && Kept(f, lines[i]) && x == Strip(lines[i]) {
        var i :| 0 <= i < |lines| && Kept(f, lines[i]) && x == Strip(lines[i]);
        if i == |init| { assert x in tail; }
      }
    }
  }

  /** What every cleaned line is: stripped, not a rule, free of every
      keyword, and free of line breaks. */
  predicate CleanLine(f: LineFilter, x: string) {
    Strip(x) == x && !OnlyRule(x) && x != []
    && !ContainsAny(x, f.header) && !ContainsAny(x, f.exclusion) && '\n' !in x
  }

  /** The strip of a raw line that survives the tests is a clean line. */
  lemma KeptIsClean(f: LineFilter, line: string)
    requires Kept(f, line) && '\n' !in line
    ensures CleanLine(f, Strip(line))
  {
    var x := Strip(line);
    var lead, trail := StripParts(line);
    StripTrimmed(x);
    if ContainsAny(x, f.header) { ContainsAnyInfix(lead, x, trail, f.header); }
    if ContainsAny(x, f.exclusion) { ContainsAnyInfix(lead, x, trail, f.exclusion); }
    assert forall i :: 0 <= i < |x| ==> x[i] == line[|lead| + i];
  }

  /** Every line the cleaning keeps is a clean line. */
  lemma {:induction false} CleanedAreClean(f: LineFilter, pages: seq<string>)
    ensures forall k :: 0 <= k < |CleanedPages(f, pages)| ==> CleanLine(f, CleanedPages(f, pages)[k])
    decreases |pages|
  {
    if pages != [] {
      var init := pages[..|pages| - 1];
      var lines := Split(pages[|pages| - 1], '\n');
      CleanedAreClean(f, init);
      forall k | 0 <= k < |CleanedOf(f, lines)| ensures CleanLine(f, CleanedOf(f, lines)[k]) {
        var x := CleanedOf(f, lines)[k];
        CleanedMembers(f, lines, x);
        var i :| 0 <= i < |lines| && Kept(f, lines[i]) && x == Strip(lines[i]);
        KeptIsClean(f, lines[i]);
      }
      var r := CleanedPages(f, pages);
      assert r == CleanedPages(f, init) + CleanedOf(f, lines);
      assert forall k :: |CleanedPages(f, init)| <= k < |r| ==> r[k] == CleanedOf(f, lines)[k - |CleanedPages(f, init)|];
    }
  }

  // ---------------------------------------------------------------------
  // The stock-line pattern

  /** [A-Z0-9] */
  predicate IsCodeChar(c: char) { 'A' <= c <= 'Z' || '0' <= c <= '9' }

  /** [A-Z0-9\-] */
  predicate IsStockChar(c: char) { IsCodeChar(c) || c == '-' }

  predicate AllCode(s: string) { forall i :: 0 <= i < |s| ==> IsCodeChar(s[i]) }

  predicate AllStock(s: string) { forall i :: 0 <= i < |s| ==> IsStockChar(s[i]) }

  /** What \s+ matches: a non-empty run of whitespace. */
  predicate IsRun(w: string) { w != [] && AllSpace(w) }

  /** The decimal places of the seven numbers: on hand, sales quantity,
      sales value, sales cost, gross profit, turnover percent, gross profit
      percent. */
  const Places: seq<nat> := [3, 3, 2, 2, 2, 3, 3]

  /** The digits of a number token, without its minus sign. */
  function Unsigned(t: string): string {
    if |t| > 0 && t[0] == '-' then t[1..] else t
  }

  /** -?\d+\.\d{places}, matched by the whole token. */
  predicate IsNumber(t: string, places: nat) {
    var u := Unsigned(t);
    var k := IndexOf(u, '.');
    1 <= k < |u| && AllDigits(u[..k]) && AllDigits(u[k + 1..]) && |u| - k - 1 == places
  }

  /** The exact value a number token denotes. */
  function NumberValue(t: string, places: nat): real
    requires IsNumber(t, places)
  {
    var u := Unsigned(t);
    var k := IndexOf(u, '.');
    var v := DecimalValue(u[..k], u[k + 1..]);
    if |t| > 0 && t[0] == '-' then -v else v
  }

  /** float() of a number token is the value it denotes. */
  lemma NumberParses(t: string, places: nat)
    requires IsNumber(t, places)
    ensures ParseFloat(t) == Some(NumberValue(t, places))
  {
    var neg, ip, fp := NumberParts(t, places);
    SignedDecimal(t, neg, ip, fp);
  }

  /** A number token is an optional minus sign and a plain decimal numeral. */
  lemma NumberParts(t: string, places: nat) returns (neg: bool, ip: string, fp: string)
    requires IsNumber(t, places)
    ensures AllDigits(ip) && AllDigits(fp) && |ip| >= 1 && |fp| == places
    ensures t == (if neg then "-" else "") + DecimalText(ip, fp)
    ensures NumberValue(t, places) == if neg then -DecimalValue(ip, fp) else DecimalValue(ip, fp)
  {
    var u := Unsigned(t);
    var k := IndexOf(u, '.');
    ip, fp := u[..k], u[k + 1..];
    assert u == DecimalText(ip, fp);
    neg := |t| > 0 && t[0] == '-';
    if neg {
      assert t == "-" + u;
    }
  }

  /** The seven numbers each match their pattern. */
  predicate NumbersMatch(nums: seq<string>) {
    |nums| == 7 && forall k :: 0 <= k < 7 ==> IsNumber(nums[k], Places[k])
  }

  /** Whitespace runs and the tokens after them, alternating. */
  function Weave(seps: seq<string>, toks: seq<string>): string
    requires |seps| == |toks|
    decreases |toks|
  {
    if toks == [] then [] else seps[0] + toks[0] + Weave(seps[1..], toks[1..])
  }

  lemma {:induction false} WeaveSnoc(seps: seq<string>, toks: seq<string>, sep: string, tok: string)
    requires |seps| == |toks|
    ensures Weave(seps + [sep], toks + [tok]) == Weave(seps, toks) + sep + tok
    decreases |toks|
  {
    if toks == [] {
      assert (seps + [sep])[1..] == [] && (toks + [tok])[1..] == [];
    } else {
      assert (seps + [sep])[1..] == seps[1..] + [sep];
      assert (toks + [tok])[1..] == toks[1..] + [tok];
      WeaveSnoc(seps[1..], toks[1..], sep, tok);
    }
  }

  /** Splitting the first run of a weave. */
  lemma WeaveFirst(seps: seq<string>, toks: seq<string>, a: string, b: string)
    requires |seps| == |toks| && |toks| > 0 && seps[0] == a + b
    ensures Weave(seps, toks) == a + Weave([b] + seps[1..], toks)
  {
    var rest := Weave(seps[1..], toks[1..]);
    var s2 := [b] + seps[1..];
    assert s2[0] == b && s2[1..] == seps[1..];
    assert Weave(s2, toks) == b + toks[0] + rest;
    assert Weave(seps, toks) == (a + b) + toks[0] + rest;
    Regroup(a, b, toks[0], rest);
  }

  predicate Separators(seps: seq<string>) {
    forall k :: 0 <= k < |seps| ==> IsRun(seps[k])
  }

  predicate Tokens(toks: seq<string>) {
    forall k :: 0 <= k < |toks| ==> toks[k] != [] && NoSpace(toks[k])
  }

  /** The regular expression's meaning, for a line without line breaks: the
      line is the department code, whitespace, the stock code, whitespace,
      any description, and the seven numbers each after whitespace. */
  predicate Decomposes(l: string, d: string, w0: string, c: string, w1: string, desc: string,
                       seps: seq<string>, nums: seq<string>)
  {
    |d| == 6 && AllCode(d) && IsRun(w0) && |c| >= 4 && AllStock(c) && IsRun(w1)
    && NumbersMatch(nums) && |seps| == 7 && Separators(seps)
    && l == d + w0 + c + w1 + desc + Weave(seps, nums)
  }

  // ---------------------------------------------------------------------
  // The tokenizer

  /** Length of the longest prefix of stock-code characters. */
  function StockRun(s: string): (n: nat)
    ensures n <= |s|
    ensures forall i :: 0 <= i < n ==> IsStockChar(s[i])
    ensures n == |s| || !IsStockChar(s[n])
  {
    if s != [] && IsStockChar(s[0]) then 1 + StockRun(s[1..]) else 0
  }

  /** s without its longest suffix free of whitespace. */
  function DropToken(s: string): (r: string)
    ensures |r| <= |s| && r == s[..|r|]
    decreases |s|
  {
    if s != [] && !IsSpace(s[|s| - 1]) then DropToken(s[..|s| - 1]) else s
  }

  /** s without its longest suffix of whitespace. */
  function DropRun(s: string): (r: string)
    ensures |r| <= |s| && r == s[..|r|]
    decreases |s|
  {
    if s != [] && IsSpace(s[|s| - 1]) then DropRun(s[..|s| - 1]) else s
  }

  /** DropToken removes a suffix without whitespace and stops after
      whitespace or at the start. */
  lemma {:induction false} DropTokenEnds(s: string)
    ensures var r := DropToken(s); NoSpace(s[|r|..]) && (r == [] || IsSpace(r[|r| - 1]))
    decreases |s|
  {
    if s != [] && !IsSpace(s[|s| - 1]) {
      var init := s[..|s| - 1];
      DropTokenEnds(init);
      var r := DropToken(s);
      assert s[|r|..] == init[|r|..] + [s[|s| - 1]];
    }
  }

  /** DropRun removes a suffix of whitespace and stops after a character
      that is not whitespace, or at the start. */
  lemma {:induction false} DropRunEnds(s: string)
    ensures var r := DropRun(s); AllSpace(s[|r|..]) && (r == [] || !IsSpace(r[|r| - 1]))
    decreases |s|
  {
    if s != [] && IsSpace(s[|s| - 1]) {
      var init := s[..|s| - 1];
      DropRunEnds(init);
      var r := DropRun(s);
      assert s[|r|..] == init[|r|..] + [s[|s| - 1]];
    }
  }

  /** A token after whitespace is exactly what DropToken removes. */
  lemma {:induction false} DropTokenOf(x: string, tok: string)
    requires NoSpace(tok) && (x == [] || IsSpace(x[|x| - 1]))
    ensures DropToken(x + tok) == x
    decreases |tok|
  {
    if tok == [] {
      assert x + tok == x;
    } else {
      var s := x + tok;
      assert s[..|s| - 1] == x + tok[..|tok| - 1];
      assert s[|s| - 1] == tok[|tok| - 1];
      DropTokenOf(x, tok[..|tok| - 1]);
    }
  }

  /** Whitespace appended to x goes with x's own trailing whitespace. */
  lemma {:induction false} DropRunAppend(x: string, w: string)
    requires AllSpace(w)
    ensures DropRun(x + w) == DropRun(x)
    decreases |w|
  {
    if w == [] {
      assert x + w == x;
    } else {
      var s := x + w;
      assert s[..|s| - 1] == x + w[..|w| - 1];
      assert s[|s| - 1] == w[|w| - 1];
      DropRunAppend(x, w[..|w| - 1]);
    }
  }

  /** Behind a character that is not whitespace, DropRun works on what
      follows it. */
  lemma {:induction false} DropRunAfter(x: string, v: string)
    requires x != [] && !IsSpace(x[|x| - 1])
    ensures DropRun(x + v) == x + DropRun(v)
    decreases |v|
  {
    var s := x + v;
    if v == [] {
      assert s == x;
    } else {
      assert s[|s| - 1] == v[|v| - 1];
      if IsSpace(v[|v| - 1]) {
        assert s[..|s| - 1] == x + v[..|v| - 1];
        DropRunAfter(x, v[..|v| - 1]);
      }
    }
  }

  /** The last n whitespace-separated tokens of s, each with the whitespace
      run before it, and what precedes the first of those runs. */
  function TakeTokens(s: string, n: nat): (r: Option<(string, seq<string>, seq<string>)>)
    ensures r.Some? ==> |r.value.1| == n && |r.value.2| == n
    decreases n
  {
    if n == 0 then Some((s, [], []))
    else
      var p := DropToken(s);
      var q := DropRun(p);
      if |p| == |s| || |q| == |p| then None
      else match TakeTokens(q, n - 1)
        case None => None
        case Some(x) => Some((x.0, x.1 + [p[|q|..]], x.2 + [s[|p|..]]))
  }

  /** What TakeTokens finds splits s: the text before, then the runs and
      the tokens alternating; the text before ends in a character that is
      not whitespace. */
  lemma {:induction false} TakeTokensSplits(s: string, n: nat)
    requires TakeTokens(s, n).Some?
    ensures var x := TakeTokens(s, n).value;
      && s == x.0 + Weave(x.1, x.2) && Separators(x.1) && Tokens(x.2)
      && (n > 0 ==> x.0 == [] || !IsSpace(x.0[|x.0| - 1]))
    decreases n
  {
    if n > 0 {
      var p := DropToken(s);
      var q := DropRun(p);
      TakeTokensUnfold(s, n);
      TakeTokensSplits(q, n - 1);
      if n == 1 {
        assert TakeTokens(q, 0).value.0 == q;
      }
      var x := TakeTokens(q, n - 1).value;
      StepSplits(s, p, q, x.0, x.1, x.2);
      StepEdge(p, q, TakeTokens(q, n - 1).value.0, n - 1);
    }
  }

  /** The split of the text left after one token and one run extends to
      the whole text. */
  lemma StepSplits(s: string, p: string, q: string, pre: string, seps: seq<string>, toks: seq<string>)
    requires p == DropToken(s) && q == DropRun(p) && |q| < |p| < |s|
    requires |seps| == |toks|
    requires q == pre + Weave(seps, toks) && Separators(seps) && Tokens(toks)
    ensures s == pre + Weave(seps + [p[|q|..]], toks + [s[|p|..]])
    ensures Separators(seps + [p[|q|..]]) && Tokens(toks + [s[|p|..]])
  {
    var sep, tok := p[|q|..], s[|p|..];
    assert IsRun(sep) by {
      DropRunEnds(p);
    }
    assert tok != [] && NoSpace(tok) by {
      DropTokenEnds(s);
    }
    SliceSplit(p, |q|);
    SliceSplit(s, |p|);
    SplitsSnoc(s, p, q, pre, seps, toks, sep, tok);
  }

  lemma SliceSplit(s: string, k: nat)
    requires k <= |s|
    ensures s == s[..k] + s[k..]
  {
  }

  /** The text before the tokens ends in a character that is not
      whitespace. */
  lemma StepEdge(p: string, q: string, pre: string, m: nat)
    requires q == DropRun(p)
    requires m > 0 ==> pre == [] || !IsSpace(pre[|pre| - 1])
    requires m == 0 ==> pre == q
    ensures pre == [] || !IsSpace(pre[|pre| - 1])
  {
    DropRunEnds(p);
  }

  /** One step of TakeTokens: a token, then a run, then the rest. */
  lemma TakeTokensUnfold(s: string, n: nat)
    requires n > 0 && TakeTokens(s, n).Some?
    ensures var p := DropToken(s); var q := DropRun(p);
      && |q| < |p| < |s| && TakeTokens(q, n - 1).Some?
      && var x := TakeTokens(q, n - 1).value;
        TakeTokens(s, n).value == (x.0, x.1 + [p[|q|..]], x.2 + [s[|p|..]])
  {
  }

  /** One more run and token after a split text. */
  lemma SplitsSnoc(s: string, p: string, q: string, pre: string, seps: seq<string>, toks: seq<string>,
                   sep: string, tok: string)
    requires |seps| == |toks| && Separators(seps) && Tokens(toks) && q == pre + Weave(seps, toks)
    requires s == p + tok && p == q + sep && IsRun(sep) && tok != [] && NoSpace(tok)
    ensures s == pre + Weave(seps + [sep], toks + [tok])
    ensures Separators(seps + [sep]) && Tokens(toks + [tok])
  {
    WeaveSnoc(seps, toks, sep, tok);
    Regroup(pre, Weave(seps, toks), sep, tok);
    SeparatorsSnoc(seps, sep);
    TokensSnoc(toks, tok);
  }

  lemma Regroup(a: string, b: string, c: string, d: string)
    ensures a + b + c + d == a + (b + c + d)
  {
  }

  lemma DropOfAppend(a: string, b: string, k: nat)
    requires k <= |a|
    ensures (a + b)[k..] == a[k..] + b
  {
  }

  lemma SeparatorsSnoc(seps: seq<string>, sep: string)
    requires Separators(seps) && IsRun(sep)
    ensures Separators(seps + [sep])
  {
    assert forall k :: 0 <= k < |seps| ==> (seps + [sep])[k] == seps[k];
  }

  lemma TokensSnoc(toks: seq<string>, tok: string)
    requires Tokens(toks) && tok != [] && NoSpace(tok)
    ensures Tokens(toks + [tok])
  {
    assert forall k :: 0 <= k < |toks| ==> (toks + [tok])[k] == toks[k];
  }

  /** The last character of a weave of tokens is the last token's. */
  lemma WeaveLast(seps: seq<string>, toks: seq<string>)
    requires |seps| == |toks| && |toks| > 0 && Tokens(toks)
    ensures var w := Weave(seps, toks); w != [] && !IsSpace(w[|w| - 1])
  {
    var n := |toks|;
    WeaveSnoc(seps[..n - 1], toks[..n - 1], seps[n - 1], toks[n - 1]);
    assert seps[..n - 1] + [seps[n - 1]] == seps && toks[..n - 1] + [toks[n - 1]] == toks;
    var t := toks[n - 1];
    assert t != [] && !IsSpace(t[|t| - 1]);
  }

  /** One step of TakeTokens on a text that ends in a token after
      whitespace. */
  lemma TakeTokensStep(p: string, tok: string, n: nat)
    requires n > 0 && tok != [] && NoSpace(tok) && p != [] && IsSpace(p[|p| - 1])
    ensures var q := DropRun(p);
      TakeTokens(p + tok, n) == match TakeTokens(q, n - 1)
        case None => None
        case Some(x) => Some((x.0, x.1 + [p[|q|..]], x.2 + [tok]))
  {
    var s := p + tok;
    DropTokenOf(p, tok);
    assert s[|p|..] == tok;
    assert DropRun(p) == DropRun(p[..|p| - 1]);
  }

  /** Taking the last tokens of pre + a weave recovers the weave's tokens;
      the first run also takes in the whitespace pre ends with. */
  lemma {:induction false} TakeTokensOf(pre: string, seps: seq<string>, toks: seq<string>)
    requires |seps| == |toks| && |toks| > 0
    requires Separators(seps) && Tokens(toks)
    ensures TakeTokens(pre + Weave(seps, toks), |toks|)
      == Some((DropRun(pre), [pre[|DropRun(pre)|..] + seps[0]] + seps[1..], toks))
    decreases |toks|
  {
    var n := |toks|;
    if n == 1 {
      TakeTokensOfOne(pre, seps, toks);
    } else {
      TakeTokensOf(pre, seps[..n - 1], toks[..n - 1]);
      TakeTokensOfSnoc(pre, seps, toks);
    }
  }

  /** The step of TakeTokensOf: from the weave without its last token to
      the whole weave. */
  lemma TakeTokensOfSnoc(pre: string, seps: seq<string>, toks: seq<string>)
    requires |seps| == |toks| && |toks| > 1
    requires Separators(seps) && Tokens(toks)
    requires var n := |toks|;
      TakeTokens(pre + Weave(seps[..n - 1], toks[..n - 1]), n - 1)
      == Some((DropRun(pre), [pre[|DropRun(pre)|..] + seps[0]] + seps[1..n - 1], toks[..n - 1]))
    ensures TakeTokens(pre + Weave(seps, toks), |toks|)
      == Some((DropRun(pre), [pre[|DropRun(pre)|..] + seps[0]] + seps[1..], toks))
  {
    var n := |toks|;
    var sep, tok := seps[n - 1], toks[n - 1];
    var q := LastWeave(pre, seps, toks);
    var p := q + sep;
    TakeTokensStep(p, tok, n);
    DropRunAppend(q, sep);
    assert p[|q|..] == sep;
    var r := DropRun(pre);
    ConsSnoc(pre[|r|..] + seps[0], seps);
    InitSnoc(toks);
  }

  lemma ConsSnoc<T>(h: T, s: seq<T>)
    requires |s| > 1
    ensures [h] + s[1..] == ([h] + s[1..|s| - 1]) + [s[|s| - 1]]
  {
  }

  lemma InitSnoc<T>(s: seq<T>)
    requires |s| > 0
    ensures s == s[..|s| - 1] + [s[|s| - 1]]
  {
  }

  lemma ConsOne<T>(h: T, s: seq<T>)
    requires |s| == 1
    ensures [h] + s[1..] == [h] && [] + s == s
  {
  }

  /** pre + a weave of two or more tokens is pre + the weave without its
      last token, which ends in a character that is not whitespace, then
      the last run and the last token. */
  lemma LastWeave(pre: string, seps: seq<string>, toks: seq<string>) returns (q: string)
    requires |seps| == |toks| && |toks| > 1
    requires Separators(seps) && Tokens(toks)
    ensures var n := |toks|;
      && q == pre + Weave(seps[..n - 1], toks[..n - 1])
      && pre + Weave(seps, toks) == q + seps[n - 1] + toks[n - 1]
      && q != [] && !IsSpace(q[|q| - 1]) && DropRun(q) == q
      && IsSpace((q + seps[n - 1])[|q + seps[n - 1]| - 1])
      && Separators(seps[..n - 1]) && Tokens(toks[..n - 1])
      && IsRun(seps[n - 1]) && toks[n - 1] != [] && NoSpace(toks[n - 1])
  {
    var n := |toks|;
    var seps', toks' := seps[..n - 1], toks[..n - 1];
    var sep, tok := seps[n - 1], toks[n - 1];
    assert seps == seps' + [sep] && toks == toks' + [tok];
    WeaveSnoc(seps', toks', sep, tok);
    q := pre + Weave(seps', toks');
    Regroup(pre, Weave(seps', toks'), sep, tok);
    WeaveLast(seps', toks');
    var w := Weave(seps', toks');
    assert q[|q| - 1] == w[|w| - 1];
    var p := q + sep;
    assert p[|p| - 1] == sep[|sep| - 1];
  }

  /** TakeTokensOf for a single token. */
  lemma TakeTokensOfOne(pre: string, seps: seq<string>, toks: seq<string>)
    requires |seps| == |toks| == 1
    requires Separators(seps) && Tokens(toks)
    ensures TakeTokens(pre + Weave(seps, toks), 1)
      == Some((DropRun(pre), [pre[|DropRun(pre)|..] + seps[0]] + seps[1..], toks))
  {
    var sep, tok := seps[0], toks[0];
    var p := pre + sep;
    WeaveOne(pre, seps, toks);
    assert p[|p| - 1] == sep[|sep| - 1];
    DropRunAppend(pre, sep);
    var r := DropRun(pre);
    TakeTokensStepSome(p, tok, 1, (r, [], []));
    DropOfAppend(pre, sep, |r|);
    ConsOne(pre[|r|..] + seps[0], seps);
    ConsOne(tok, toks);
    assert [tok] == toks;
    var sp := [pre[|r|..] + seps[0]] + seps[1..];
    assert [] + [p[|r|..]] == sp;
    assert [] + [tok] == toks;
    assert TakeTokens(p + tok, 1) == Some((r, sp, toks));
  }

  lemma WeaveOne(pre: string, seps: seq<string>, toks: seq<string>)
    requires |seps| == |toks| == 1
    ensures pre + Weave(seps, toks) == (pre + seps[0]) + toks[0]
  {
    assert Weave(seps, toks) == seps[0] + toks[0] + Weave([], []);
  }

  /** TakeTokensStep when the shorter take succeeds. */
  lemma TakeTokensStepSome(p: string, tok: string, n: nat, x: (string, seq<string>, seq<string>))
    requires n > 0 && tok != [] && NoSpace(tok) && p != [] && IsSpace(p[|p| - 1])
    requires TakeTokens(DropRun(p), n - 1) == Some(x)
    ensures TakeTokens(p + tok, n) == Some((x.0, x.1 + [p[|DropRun(p)|..]], x.2 + [tok]))
  {
    TakeTokensStep(p, tok, n);
  }

  /** The head of the pattern: a six-character department code, whitespace,
      and a stock code of at least four characters followed by whitespace;
      the positions where the stock code starts and ends. */
  function Head(l: string): (r: Option<(nat, nat)>)
    ensures r.Some? ==> 7 <= r.value.0 && r.value.0 + 4 <= r.value.1 < |l|
  {
    if |l| < 7 || !AllCode(l[..6]) || !IsSpace(l[6]) then None
    else
      var i := 6 + LeadCount(l[6..]);
      var j := i + StockRun(l[i..]);
      if j - i < 4 || j == |l| || !IsSpace(l[j]) then None
      else Some((i, j))
  }

  /** The groups of a match: department code, stock code, description and
      the seven number tokens. */
  datatype Groups = Groups(dept: string, code: string, desc: string, nums: seq<string>)

  /** pattern.match(line): the department code is the first six characters,
      the stock code the longest run of code characters after the
      whitespace that follows, the numbers the last seven tokens, and the
      description what lies between, without its surrounding whitespace;
      an empty description needs two whitespace characters before the
      first number, one for each \s+ around it. */
  function MatchStockLine(l: string): (r: Option<Groups>)
    ensures r.Some? ==> NumbersMatch(r.value.nums)
  {
    match Head(l)
    case None => None
    case Some((i, j)) =>
      match TakeTokens(l, 7)
      case None => None
      case Some((rest, seps, toks)) =>
        if |rest| < j || (|rest| == j && |seps[0]| < 2) || !NumbersMatch(toks) then None
        else Some(Groups(l[..6], l[i..j], Strip(rest[j..]), toks))
  }

  // ---------------------------------------------------------------------
  // The tokenizer is the pattern

  /** What the head check finds: the code, the run after it and the stock
      code, in place. */
  lemma HeadSound(l: string)
    requires Head(l).Some?
    ensures var (i, j) := Head(l).value;
      && |l[..6]| == 6 && AllCode(l[..6]) && IsRun(l[6..i])
      && |l[i..j]| >= 4 && AllStock(l[i..j]) && IsSpace(l[j])
      && l[..j] == l[..6] + l[6..i] + l[i..j]
  {
    var (i, j) := Head(l).value;
    var s := l[6..];
    assert forall k :: 0 <= k < i - 6 ==> l[6..i][k] == s[k];
    var t := l[i..];
    assert forall k :: 0 <= k < j - i ==> l[i..j][k] == t[k];
  }

  /** The description part of a match: the whitespace the description
      begins with becomes the second \s+, its stripped text the
      description; with no description the first number's run gives up
      one character. */
  lemma TailSound(y: string, ss: seq<string>, toks: seq<string>) returns (w1: string, seps: seq<string>)
    requires |ss| == |toks| && |toks| > 0 && Separators(ss)
    requires y == [] ==> |ss[0]| >= 2
    requires y != [] ==> IsSpace(y[0]) && !IsSpace(y[|y| - 1])
    ensures IsRun(w1) && |seps| == |ss| && Separators(seps)
    ensures y + Weave(ss, toks) == w1 + Strip(y) + Weave(seps, toks)
  {
    if y == [] {
      w1, seps := ss[0][..1], [ss[0][1..]] + ss[1..];
      assert ss[0] == w1 + ss[0][1..];
      WeaveFirst(ss, toks, w1, ss[0][1..]);
      StripAllSpace(y);
      assert forall k :: 1 <= k < |seps| ==> seps[k] == ss[k];
    } else {
      var lead, trail := StripParts(y);
      assert y == lead + Strip(y);
      w1, seps := lead, ss;
    }
  }

  /** Every match is a decomposition of the line with the matched groups. */
  lemma MatchSound(l: string) returns (w0: string, w1: string, seps: seq<string>)
    requires MatchStockLine(l).Some?
    ensures var g := MatchStockLine(l).value;
      Decomposes(l, g.dept, w0, g.code, w1, g.desc, seps, g.nums)
  {
    var i, j, rest, ss, toks := MatchParts(l);
    HeadSound(l);
    TakeTokensSplits(l, 7);
    assert |rest| >= 11;
    w0 := l[6..i];
    w1, seps := AssembleSound(l, l[..j], rest, ss, toks, l[..6], w0, l[i..j]);
  }

  /** What a match is made of: the head positions and the taken tokens,
      with the conditions the matcher checks on them. */
  lemma MatchParts(l: string) returns (i: nat, j: nat, rest: string, ss: seq<string>, toks: seq<string>)
    requires MatchStockLine(l).Some?
    ensures Head(l) == Some((i, j)) && TakeTokens(l, 7) == Some((rest, ss, toks))
    ensures j <= |rest| && (|rest| == j ==> |ss[0]| >= 2) && NumbersMatch(toks)
    ensures MatchStockLine(l).value == Groups(l[..6], l[i..j], Strip(rest[j..]), toks)
  {
    var h := Head(l).value;
    var t := TakeTokens(l, 7).value;
    i, j := h.0, h.1;
    rest, ss, toks := t.0, t.1, t.2;
  }

  /** The pieces the matcher finds put the line back together. */
  lemma AssembleSound(l: string, x: string, rest: string, ss: seq<string>, toks: seq<string>,
                      d: string, w0: string, c: string) returns (w1: string, seps: seq<string>)
    requires |d| == 6 && AllCode(d) && IsRun(w0) && |c| >= 4 && AllStock(c) && x == d + w0 + c
    requires |ss| == |toks| == 7 && Separators(ss) && NumbersMatch(toks) && l == rest + Weave(ss, toks)
    requires |x| <= |rest| && |x| < |l| && l[..|x|] == x && IsSpace(l[|x|])
    requires rest != [] && !IsSpace(rest[|rest| - 1])
    requires |rest| == |x| ==> |ss[0]| >= 2
    ensures Decomposes(l, d, w0, c, w1, Strip(rest[|x|..]), seps, toks)
  {
    var w := Weave(ss, toks);
    var y := Between(l, x, rest, w);
    w1, seps := TailSound(y, ss, toks);
    Glue(l, rest, w, d, w0, c, y, w1, Strip(y), Weave(seps, toks));
  }

  /** The text between the head and the numbers: after the head it begins
      with whitespace, and it ends where rest ends. */
  lemma Between(l: string, x: string, rest: string, w: string) returns (y: string)
    requires l == rest + w && |x| <= |rest| && |x| < |l| && l[..|x|] == x && IsSpace(l[|x|])
    requires rest != [] && !IsSpace(rest[|rest| - 1])
    ensures y == rest[|x|..] && rest == x + y
    ensures y != [] ==> IsSpace(y[0]) && !IsSpace(y[|y| - 1])
  {
    y := rest[|x|..];
    TakeOfAppend(rest, w, |x|);
    if y != [] {
      assert y[0] == l[|x|];
      assert y[|y| - 1] == rest[|rest| - 1];
    }
  }

  lemma Glue(l: string, rest: string, w: string, d: string, w0: string, c: string,
             y: string, w1: string, desc: string, w': string)
    requires l == rest + w && rest == d + w0 + c + y && y + w == w1 + desc + w'
    ensures l == d + w0 + c + w1 + desc + w'
  {
    assert l == (d + w0 + c) + (y + w);
  }

  lemma TakeOfAppend(a: string, b: string, k: nat)
    requires k <= |a|
    ensures (a + b)[..k] == a[..k] && a == a[..k] + a[k..]
  {
  }

  /** The head of a decomposed line passes the head check at the
      decomposition's positions. */
  lemma HeadComplete(l: string, d: string, w0: string, c: string, y: string)
    requires |d| == 6 && AllCode(d) && IsRun(w0) && |c| >= 4 && AllStock(c) && y != [] && IsSpace(y[0])
    requires l == d + w0 + c + y
    ensures Head(l) == Some((6 + |w0|, 6 + |w0| + |c|))
    ensures l[..6] == d && l[6 + |w0|..6 + |w0| + |c|] == c
  {
    var t := l[6 + |w0|..];
    HeadSlices(l, d, w0, c, y);
    assert (c + y)[0] == c[0] && IsStockChar(c[0]);
    LeadOf(w0, c + y);
    StockRunOf(c, y);
    assert t == c + y && l[6 + |w0| + |c|] == y[0];
  }

  /** Where the parts of a decomposed head sit in the line. */
  lemma HeadSlices(l: string, d: string, w0: string, c: string, y: string)
    requires |d| == 6 && w0 != [] && y != []
    requires l == d + w0 + c + y
    ensures l[..6] == d && l[6] == w0[0] && l[6..] == w0 + (c + y)
    ensures l[6 + |w0|..] == c + y && l[6 + |w0|..6 + |w0| + |c|] == c
    ensures l[6 + |w0| + |c|] == y[0]
  {
    assert l == d + (w0 + (c + y));
  }

  /** The leading whitespace of a run followed by a character that is not
      whitespace is the run. */
  lemma LeadOf(w: string, z: string)
    requires IsRun(w) && z != [] && !IsSpace(z[0])
    ensures LeadCount(w + z) == |w|
  {
    var s := w + z;
    assert forall i :: 0 <= i < |w| ==> s[i] == w[i];
    assert s[|w|] == z[0];
    LeadUnique(s, |w|);
  }

  /** The stock-code run of a stock code followed by whitespace is the
      code. */
  lemma StockRunOf(c: string, y: string)
    requires AllStock(c) && y != [] && IsSpace(y[0])
    ensures StockRun(c + y) == |c|
  {
    var t := c + y;
    assert forall i :: 0 <= i < |c| ==> t[i] == c[i];
    assert t[|c|] == y[0];
    StockRunUnique(t, |c|);
  }

  /** A line that decomposes is matched, with the decomposition's groups
      and its description stripped. */
  lemma MatchComplete(l: string, d: string, w0: string, c: string, w1: string, desc: string,
                      seps: seq<string>, nums: seq<string>)
    requires Decomposes(l, d, w0, c, w1, desc, seps, nums)
    ensures MatchStockLine(l) == Some(Groups(d, c, Strip(desc), nums))
  {
    var i, j := HeadPart(l, d, w0, c, w1, desc, seps, nums);
    var rest, ss := TokensPart(l, d, w0, c, w1, desc, seps, nums);
    MatchOf(l, i, j, rest, ss, nums);
  }

  /** The head check on a decomposed line. */
  lemma HeadPart(l: string, d: string, w0: string, c: string, w1: string, desc: string,
                 seps: seq<string>, nums: seq<string>) returns (i: nat, j: nat)
    requires Decomposes(l, d, w0, c, w1, desc, seps, nums)
    ensures Head(l) == Some((i, j)) && l[..6] == d && l[i..j] == c && j == |d + w0 + c|
  {
    Unglue(l, d, w0, c, w1, desc, Weave(seps, nums));
    HeadComplete(l, d, w0, c, (w1 + desc) + Weave(seps, nums));
    i, j := 6 + |w0|, 6 + |w0| + |c|;
  }

  /** The token taking on a decomposed line, behind its head. */
  lemma TokensPart(l: string, d: string, w0: string, c: string, w1: string, desc: string,
                   seps: seq<string>, nums: seq<string>) returns (rest: string, ss: seq<string>)
    requires Decomposes(l, d, w0, c, w1, desc, seps, nums)
    ensures var x := d + w0 + c;
      && TakeTokens(l, 7) == Some((rest, ss, nums)) && NumbersMatch(nums)
      && |x| <= |rest| && (|rest| == |x| ==> |ss[0]| >= 2) && Strip(rest[|x|..]) == Strip(desc)
  {
    var x := d + w0 + c;
    Unglue(l, d, w0, c, w1, desc, Weave(seps, nums));
    assert x[|x| - |c|..] == c;
    var pre := x + (w1 + desc);
    NumbersAreTokens(nums);
    TakeTokensOf(pre, seps, nums);
    rest := RestOf(x, c, w1, desc);
    ss := [pre[|rest|..] + seps[0]] + seps[1..];
    assert |rest| == |x| ==> |ss[0]| >= 2;
  }

  lemma Unglue(l: string, d: string, w0: string, c: string, w1: string, desc: string, w: string)
    requires l == d + w0 + c + w1 + desc + w
    ensures l == (d + w0 + c) + (w1 + desc) + w && l == d + w0 + c + ((w1 + desc) + w)
  {
  }

  /** What DropRun leaves of the head, the description and its surrounding
      whitespace: the head, and the description up to its trailing
      whitespace. */
  lemma RestOf(x: string, c: string, w1: string, desc: string) returns (rest: string)
    requires c != [] && IsStockChar(c[|c| - 1]) && |c| <= |x| && x[|x| - |c|..] == c && IsRun(w1)
    ensures rest == DropRun(x + (w1 + desc)) && |x| <= |rest| && Strip(rest[|x|..]) == Strip(desc)
    ensures |rest| == |x| ==> (x + (w1 + desc))[|rest|..] == w1 + desc
  {
    var v := w1 + desc;
    assert x[|x| - 1] == c[|c| - 1];
    DropRunAfter(x, v);
    rest := DropRun(x + v);
    assert rest[|x|..] == DropRun(v);
    StripDropRun(w1, desc);
    if DropRun(v) == [] {
      DropRunEnds(v);
      assert (x + v)[|rest|..] == v;
    }
  }

  /** The matcher accepts a line whose head and last seven tokens pass its
      checks. */
  lemma MatchOf(l: string, i: nat, j: nat, rest: string, ss: seq<string>, toks: seq<string>)
    requires Head(l) == Some((i, j)) && TakeTokens(l, 7) == Some((rest, ss, toks))
    requires j <= |rest| && (|rest| == j ==> |ss[0]| >= 2) && NumbersMatch(toks)
    ensures MatchStockLine(l) == Some(Groups(l[..6], l[i..j], Strip(rest[j..]), toks))
  {
  }

  /** Leading whitespace and the trailing whitespace DropRun removes do not
      change the strip. */
  lemma StripDropRun(w: string, desc: string)
    requires AllSpace(w)
    ensures Strip(DropRun(w + desc)) == Strip(desc)
  {
    var lead, trail := StripParts(desc);
    if Strip(desc) == [] {
      StripDropRunBlank(w, desc, lead, trail);
    } else {
      StripDropRunCore(w, desc, lead, trail);
    }
  }

  lemma StripDropRunBlank(w: string, desc: string, lead: string, trail: string)
    requires AllSpace(w) && AllSpace(lead) && AllSpace(trail)
    requires desc == lead + Strip(desc) + trail && Strip(desc) == []
    ensures Strip(DropRun(w + desc)) == Strip(desc)
  {
    var v := w + desc;
    assert desc == lead + trail;
    assert AllSpace(v);
    DropRunAppend([], v);
    assert [] + v == v;
  }

  lemma StripDropRunCore(w: string, desc: string, lead: string, trail: string)
    requires AllSpace(w) && AllSpace(lead) && AllSpace(trail)
    requires desc == lead + Strip(desc) + trail && Strip(desc) != []
    ensures Strip(DropRun(w + desc)) == Strip(desc)
  {
    var core := Strip(desc);
    AllSpaceAppend(w, lead);
    Regroup4(w, desc, lead, core, trail);
    StripDropRunPieces(w + lead, core, trail);
  }

  /** Around a core with no whitespace at its ends, DropRun takes the
      trailing whitespace and Strip the leading whitespace. */
  lemma StripDropRunPieces(pre: string, core: string, trail: string)
    requires AllSpace(pre) && AllSpace(trail)
    requires core != [] && !IsSpace(core[0]) && !IsSpace(core[|core| - 1])
    ensures Strip(DropRun(pre + core + trail)) == core
  {
    DropRunAppend(pre + core, trail);
    DropRunKeeps(pre + core, core);
    StripAround(pre, core, []);
    assert pre + core + [] == pre + core;
  }

  lemma AllSpaceAppend(a: string, b: string)
    requires AllSpace(a) && AllSpace(b)
    ensures AllSpace(a + b)
  {
    forall i | 0 <= i < |a + b| ensures IsSpace((a + b)[i]) {
      if i >= |a| { assert (a + b)[i] == b[i - |a|]; }
    }
  }

  lemma Regroup4(w: string, desc: string, lead: string, core: string, trail: string)
    requires desc == lead + core + trail
    ensures w + desc == ((w + lead) + core) + trail
  {
  }

  /** A text ending in a character that is not whitespace keeps its end. */
  lemma DropRunKeeps(x: string, core: string)
    requires core != [] && !IsSpace(core[|core| - 1])
    requires |x| >= |core| && x[|x| - 1] == core[|core| - 1]
    ensures DropRun(x) == x
  {
  }

  lemma LeadUnique(s: string, n: nat)
    requires n <= |s| && (forall i :: 0 <= i < n ==> IsSpace(s[i])) && (n == |s| || !IsSpace(s[n]))
    ensures LeadCount(s) == n
  {
  }

  lemma StockRunUnique(s: string, n: nat)
    requires n <= |s| && (forall i :: 0 <= i < n ==> IsStockChar(s[i])) && (n == |s| || !IsStockChar(s[n]))
    ensures StockRun(s) == n
  {
  }

  /** Number tokens are tokens. */
  lemma NumbersAreTokens(nums: seq<string>)
    requires NumbersMatch(nums)
    ensures Tokens(nums)
  {
    forall k | 0 <= k < |nums| ensures nums[k] != [] && NoSpace(nums[k]) {
      NumberNoSpace(nums[k], Places[k]);
    }
  }

  lemma NumberNoSpace(t: string, places: nat)
    requires IsNumber(t, places)
    ensures t != [] && NoSpace(t)
  {
    var u := Unsigned(t);
    var k := IndexOf(u, '.');
    assert u == u[..k] + [u[k]] + u[k + 1..];
    forall i | 0 <= i < |u| ensures !IsSpace(u[i]) {
      if i < k { assert IsDigit(u[..k][i]); }
      else if i > k { assert IsDigit(u[k + 1..][i - k - 1]); }
    }
    if |t| > 0 && t[0] == '-' {
      assert forall i :: 1 <= i < |t| ==> t[i] == u[i - 1];
    }
  }

  // ---------------------------------------------------------------------
  // The records

  /** One extracted record: ten fields. */
  datatype StockRecord = StockRecord(
    departmentCode: string, stockCode: string, description: string,
    onHand: real, salesQty: real, salesValue: real, salesCost: real,
    grossProfit: real, turnoverPercent: real, grossProfitPercent: real)

  /** float() of a number token. */
  function FloatOf(t: string, places: nat): (r: real)
    requires IsNumber(t, places)
    ensures ParseFloat(t) == Some(r)
    ensures r == NumberValue(t, places)
  {
    NumberParses(t, places);
    ParseFloat(t).value
  }

  /** The record built from the groups of a match. */
  function ToRecord(g: Groups): StockRecord
    requires NumbersMatch(g.nums)
  {
    StockRecord(Strip(g.dept), Strip(g.code), Strip(g.desc),
      FloatOf(g.nums[0], 3), FloatOf(g.nums[1], 3), FloatOf(g.nums[2], 2), FloatOf(g.nums[3], 2),
      FloatOf(g.nums[4], 2), FloatOf(g.nums[5], 3), FloatOf(g.nums[6], 3))
  }

  /** The record a line gives when it matches the pattern. */
  function LineRecord(l: string): Option<StockRecord> {
    match MatchStockLine(l)
    case None => None
    case Some(g) => Some(ToRecord(g))
  }

  /** The outcome of matching each line, in order. */
  function Parsed(lines: seq<string>): (r: seq<Option<StockRecord>>)
    ensures |r| == |lines|
    ensures forall k :: 0 <= k < |lines| ==> r[k] == LineRecord(lines[k])
  {
    seq(|lines|, k requires 0 <= k < |lines| => LineRecord(lines[k]))
  }

  /** The records that are present, in order. */
  function Present(os: seq<Option<StockRecord>>): seq<StockRecord>
    decreases |os|
  {
    if os == [] then []
    else Present(os[..|os| - 1]) + (if os[|os| - 1].Some? then [os[|os| - 1].value] else [])
  }

  /** The records of the cleaned lines: one per matching line, in order. */
  function RecordsOf(lines: seq<string>): seq<StockRecord> {
    Present(Parsed(lines))
  }

  lemma {:induction false} PresentAppend(a: seq<Option<StockRecord>>, b: seq<Option<StockRecord>>)
    ensures Present(a + b) == Present(a) + Present(b)
    decreases |b|
  {
    if b == [] {
      assert a + b == a;
    } else {
      assert (a + b)[..|a + b| - 1] == a + b[..|b| - 1];
      assert (a + b)[|a + b| - 1] == b[|b| - 1];
      PresentAppend(a, b[..|b| - 1]);
    }
  }

  lemma {:induction false} PresentBound(os: seq<Option<StockRecord>>)
    ensures |Present(os)| <= |os|
    decreases |os|
  {
    if os != [] { PresentBound(os[..|os| - 1]); }
  }

  lemma ParsedAppend(a: seq<string>, b: seq<string>)
    ensures Parsed(a + b) == Parsed(a) + Parsed(b)
  {
    var x, y := Parsed(a + b), Parsed(a) + Parsed(b);
    forall k | 0 <= k < |x| ensures x[k] == y[k] {
      if k < |a| { assert (a + b)[k] == a[k]; } else { assert (a + b)[k] == b[k - |a|]; }
    }
  }

  /** Step 4: the loop over the cleaned lines. */
  method ExtractRecords(lines: seq<string>) returns (records: seq<StockRecord>)
    ensures records == RecordsOf(lines)
  {
    records := [];
    var i := 0;
    while i < |lines|
      invariant 0 <= i <= |lines|
      invariant records == RecordsOf(lines[..i])
    {
      assert lines[..i + 1] == lines[..i] + [lines[i]];
      RecordsAppend(lines[..i], [lines[i]]);
      records := ReadLine(records, lines[i]);
      i := i + 1;
    }
    assert lines[..i] == lines;
  }

  /** The body of step 4 for one line: match it, and append its record
      when it matches. */
  method ReadLine(records0: seq<StockRecord>, line: string) returns (records: seq<StockRecord>)
    ensures records == records0 + RecordsOf([line])
  {
    RecordsOfLine(line);
    records := records0;
    var m := MatchStockLine(line);
    if m.Some? {
      records := records + [ToRecord(m.value)];
    }
  }

  /** The whole extraction from the pages' text. */
  method ExtractPages(pages: seq<string>) returns (records: seq<StockRecord>)
    ensures records == RecordsOf(CleanedPages(Filter, pages))
  {
    var cleaned := CleanLines(Filter, pages);
    records := ExtractRecords(cleaned);
  }

  /** Records keep the order of their lines: the records of a + b are a's
      followed by b's. */
  lemma RecordsAppend(a: seq<string>, b: seq<string>)
    ensures RecordsOf(a + b) == RecordsOf(a) + RecordsOf(b)
  {
    ParsedAppend(a, b);
    PresentAppend(Parsed(a), Parsed(b));
  }

  /** A line gives one whole record when it matches and none otherwise. */
  lemma RecordsOfLine(l: string)
    ensures RecordsOf([l]) == match MatchStockLine(l) case None => [] case Some(g) => [ToRecord(g)]
  {
    var os := Parsed([l]);
    assert os == [LineRecord(l)];
    assert os[..0] == [];
    assert Present(os) == if os[0].Some? then [os[0].value] else [];
    match MatchStockLine(l)
    case None =>
    case Some(g) => assert os[0] == Some(ToRecord(g));
  }

  /** One more line adds its record when it matches, and nothing else. */
  lemma RecordsStep(a: seq<string>, l: string)
    ensures RecordsOf(a + [l]) == RecordsOf(a) + match MatchStockLine(l) case None => [] case Some(g) => [ToRecord(g)]
  {
    RecordsAppend(a, [l]);
    RecordsOfLine(l);
  }

  /** A non-matching line is skipped without a trace. */
  lemma NonMatchSkipped(a: seq<string>, l: string, b: seq<string>)
    requires MatchStockLine(l).None?
    ensures RecordsOf(a + [l] + b) == RecordsOf(a + b)
  {
    RecordsAppend(a + [l], b);
    RecordsStep(a, l);
    RecordsAppend(a, b);
  }

  /** There are never more records than lines. */
  lemma RecordsBound(lines: seq<string>)
    ensures |RecordsOf(lines)| <= |lines|
  {
    PresentBound(Parsed(lines));
  }

  /** A record's fields are the groups: the codes and the description as
      matched (stripping changes none of them), the numbers their exact
      values. */
  lemma RecordFields(l: string)
    requires MatchStockLine(l).Some?
    ensures var g := MatchStockLine(l).value; var r := ToRecord(g);
      && r.departmentCode == g.dept && r.stockCode == g.code && r.description == g.desc
      && r.onHand == NumberValue(g.nums[0], 3) && r.salesQty == NumberValue(g.nums[1], 3)
      && r.salesValue == NumberValue(g.nums[2], 2) && r.salesCost == NumberValue(g.nums[3], 2)
      && r.grossProfit == NumberValue(g.nums[4], 2) && r.turnoverPercent == NumberValue(g.nums[5], 3)
      && r.grossProfitPercent == NumberValue(g.nums[6], 3)
  {
    var g := MatchStockLine(l).value;
    HeadSound(l);
    CodeNoSpace(g.dept);
    CodeNoSpace(g.code);
    StripTrimmed(g.desc);
  }

  lemma CodeNoSpace(s: string)
    requires AllStock(s)
    ensures Strip(s) == s
  {
    if s != [] {
      assert IsStockChar(s[0]) && IsStockChar(s[|s| - 1]);
    }
    StripTrimmed(s);
  }
}

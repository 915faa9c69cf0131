/** The stock-levels card of the dashboard: the department-category
    classifier, the list filter by category or department name, the stable
    sort by days of stock or stock value, the sort-header state, the
    days-of-stock colour bands, and the departments grouped by category. */
module StockLevels {
  import opened Wrappers
  import opened Text
  import opened Sequences

  // ---------------------------------------------------------------------
  // Department categories

  /** The keys of departmentCategories, in the order the object lists them. */
  const CategoryKeys: seq<string> := [
    "all", "pharmacy", "medical", "sports", "health_foods", "footwear",
    "beauty", "retail", "surgical", "operations"]

  /** String.prototype.startsWith, character by character. */
  predicate HasPrefix(s: string, p: string) {
    |p| <= |s| && MatchesFrom(s, p, 0)
  }

  /** The characters of p from index i on agree with those of s. */
  predicate MatchesFrom(s: string, p: string, i: nat)
    requires |p| <= |s|
    decreases |p| - i
  {
    i >= |p| || (s[i] == p[i] && MatchesFrom(s, p, i + 1))
  }

  lemma {:induction false} MatchesFromAll(s: string, p: string, i: nat)
    requires |p| <= |s| && i <= |p|
    ensures MatchesFrom(s, p, i) <==> s[i..|p|] == p[i..]
    decreases |p| - i
  {
    if i < |p| {
      MatchesFromAll(s, p, i + 1);
      assert s[i..|p|] == [s[i]] + s[i + 1..|p|];
      assert p[i..] == [p[i]] + p[i + 1..];
    }
  }

  /** The character-wise prefix test is the slice comparison. */
  lemma HasPrefixIsStartsWith(s: string, p: string)
    ensures HasPrefix(s, p) <==> StartsWith(s, p)
  {
    if |p| <= |s| {
      MatchesFromAll(s, p, 0);
      assert s[0..|p|] == s[..|p|];
      assert p[0..] == p;
    }
  }

  /** getDepartmentCategory on the upper-cased code: prefix tests in a fixed
      order, the first that matches decides. */
  function Classify(code: string): string {
    if HasPrefix(code, "PDST") || HasPrefix(code, "PDSV") || HasPrefix(code, "PDWB") || code == "SCRIPT" then "pharmacy"
    else if HasPrefix(code, "MAD") || HasPrefix(code, "MAH") || HasPrefix(code, "PDO") then "medical"
    else if HasPrefix(code, "HST") || HasPrefix(code, "HSN") then "sports"
    else if HasPrefix(code, "HNF") || HasPrefix(code, "HVL") then "health_foods"
    else if HasPrefix(code, "SA") || HasPrefix(code, "SB") then "footwear"
    else if HasPrefix(code, "BAA") || HasPrefix(code, "ZAJ") || HasPrefix(code, "ZAU") then "beauty"
    else if HasPrefix(code, "ZA") && !HasPrefix(code, "ZAJ") && !HasPrefix(code, "ZAU") then "retail"
    else if HasPrefix(code, "OAA") || HasPrefix(code, "NAA") || HasPrefix(code, "FDA") then "surgical"
    else if HasPrefix(code, "YBA") || HasPrefix(code, "ZFB") || HasPrefix(code, "ZFC") || HasPrefix(code, "ZFZ") then "operations"
    else "other"
  }

  /** getDepartmentCategory: 'other' for a missing or empty code, otherwise
      the classification of the code upper-cased. */
  function DepartmentCategory(code: Option<string>): string {
    match code
    case None => "other"
    case Some(c) => if c == [] then "other" else Classify(Upper(c))
  }

  /** The result is one of the nine category keys other than 'all', or
      'other'; it is never 'all'. */
  lemma CategoryRange(code: Option<string>)
    ensures DepartmentCategory(code) in CategoryKeys[1..] || DepartmentCategory(code) == "other"
    ensures DepartmentCategory(code) != "all"
  {
  }

  /** A missing or empty code is 'other'. */
  lemma CategoryFalsy(code: Option<string>)
    requires code.None? || code == Some([])
    ensures DepartmentCategory(code) == "other"
  {
  }

  /** Upper-casing the code first changes nothing: the classifier works on
      the upper-cased code. */
  lemma CategoryUpper(c: string)
    ensures DepartmentCategory(Some(Upper(c))) == DepartmentCategory(Some(c))
  {
    UpperIdempotent(c);
  }

  /** Codes starting ZAJ or ZAU are beauty, every other ZA code is retail,
      and SCRIPT (in any case) is pharmacy. */
  lemma CategoryZaCodes(c: string)
    ensures HasPrefix(Upper(c), "ZAJ") || HasPrefix(Upper(c), "ZAU") ==> DepartmentCategory(Some(c)) == "beauty"
    ensures HasPrefix(Upper(c), "ZA") && !HasPrefix(Upper(c), "ZAJ") && !HasPrefix(Upper(c), "ZAU") ==>
      DepartmentCategory(Some(c)) == "retail"
    ensures Upper(c) == "SCRIPT" ==> DepartmentCategory(Some(c)) == "pharmacy"
  {
  }

  /** One row of the classification table: the category, the prefixes that
      select it and the codes that select it exactly. */
  datatype Rule = Rule(category: string, prefixes: seq<string>, exact: seq<string>)

  /** The classification as a table, read top to bottom. The retail row is
      the bare ZA prefix: the beauty row above it already takes ZAJ and ZAU. */
  const Rules: seq<Rule> := [
    PharmacyRule, MedicalRule, SportsRule, HealthFoodsRule, FootwearRule,
    BeautyRule, RetailRule, SurgicalRule, OperationsRule]

  const PharmacyRule := Rule("pharmacy", ["PDST", "PDSV", "PDWB"], ["SCRIPT"])
  const MedicalRule := Rule("medical", ["MAD", "MAH", "PDO"], [])
  const SportsRule := Rule("sports", ["HST", "HSN"], [])
  const HealthFoodsRule := Rule("health_foods", ["HNF", "HVL"], [])
  const FootwearRule := Rule("footwear", ["SA", "SB"], [])
  const BeautyRule := Rule("beauty", ["BAA", "ZAJ", "ZAU"], [])
  const RetailRule := Rule("retail", ["ZA"], [])
  const SurgicalRule := Rule("surgical", ["OAA", "NAA", "FDA"], [])
  const OperationsRule := Rule("operations", ["YBA", "ZFB", "ZFC", "ZFZ"], [])

  predicate AnyPrefix(code: string, prefixes: seq<string>)
    decreases |prefixes|
  {
    prefixes != [] && (HasPrefix(code, prefixes[0]) || AnyPrefix(code, prefixes[1..]))
  }

  predicate Selects(r: Rule, code: string) {
    AnyPrefix(code, r.prefixes) || code in r.exact
  }

  /** The category of the first row that selects the code, 'other' when none
      does. */
  function FirstMatch(rules: seq<Rule>, code: string): (c: string)
    ensures c == "other" || exists k :: 0 <= k < |rules| && rules[k].category == c
    decreases |rules|
  {
    if rules == [] then "other"
    else if Selects(rules[0], code) then rules[0].category
    else
      var c := FirstMatch(rules[1..], code);
      assert c != "other" ==> exists k :: 0 <= k < |rules[1..]| && rules[1..][k].category == c;
      assert forall k :: 0 <= k < |rules[1..]| ==> rules[1..][k] == rules[k + 1];
      c
  }

  /** A prefix list of one to four entries is the disjunction of its tests. */
  lemma AnyPrefixOne(code: string, a: string)
    ensures AnyPrefix(code, [a]) <==> HasPrefix(code, a)
  {
    assert [a][1..] == [];
  }

  lemma AnyPrefixTwo(code: string, a: string, b: string)
    ensures AnyPrefix(code, [a, b]) <==> HasPrefix(code, a) || HasPrefix(code, b)
  {
    assert [a, b][1..] == [b];
    AnyPrefixOne(code, b);
  }

  lemma AnyPrefixThree(code: string, a: string, b: string, c: string)
    ensures AnyPrefix(code, [a, b, c]) <==> (HasPrefix(code, a) || HasPrefix(code, b) || HasPrefix(code, c))
  {
    assert [a, b, c][1..] == [b, c];
    AnyPrefixTwo(code, b, c);
  }

  lemma AnyPrefixFour(code: string, a: string, b: string, c: string, d: string)
    ensures AnyPrefix(code, [a, b, c, d]) <==>
      (HasPrefix(code, a) || HasPrefix(code, b) || HasPrefix(code, c) || HasPrefix(code, d))
  {
    assert [a, b, c, d][1..] == [b, c, d];
    AnyPrefixThree(code, b, c, d);
  }

  /** Row by row, what selects a code and the category it gives. */
  lemma Row0(code: string)
    ensures Selects(PharmacyRule, code) <==> (HasPrefix(code, "PDST") || HasPrefix(code, "PDSV") || HasPrefix(code, "PDWB") || code == "SCRIPT")
    ensures PharmacyRule.category == "pharmacy"
  {
    AnyPrefixThree(code, "PDST", "PDSV", "PDWB");
  }

  lemma Row1(code: string)
    ensures Selects(MedicalRule, code) <==> (HasPrefix(code, "MAD") || HasPrefix(code, "MAH") || HasPrefix(code, "PDO"))
    ensures MedicalRule.category == "medical"
  {
    AnyPrefixThree(code, "MAD", "MAH", "PDO");
  }

  lemma Row2(code: string)
    ensures Selects(SportsRule, code) <==> (HasPrefix(code, "HST") || HasPrefix(code, "HSN"))
    ensures SportsRule.category == "sports"
  {
    AnyPrefixTwo(code, "HST", "HSN");
  }

  lemma Row3(code: string)
    ensures Selects(HealthFoodsRule, code) <==> (HasPrefix(code, "HNF") || HasPrefix(code, "HVL"))
    ensures HealthFoodsRule.category == "health_foods"
  {
    AnyPrefixTwo(code, "HNF", "HVL");
  }

  lemma Row4(code: string)
    ensures Selects(FootwearRule, code) <==> (HasPrefix(code, "SA") || HasPrefix(code, "SB"))
    ensures FootwearRule.category == "footwear"
  {
    AnyPrefixTwo(code, "SA", "SB");
  }

  lemma Row5(code: string)
    ensures Selects(BeautyRule, code) <==> (HasPrefix(code, "BAA") || HasPrefix(code, "ZAJ") || HasPrefix(code, "ZAU"))
    ensures BeautyRule.category == "beauty"
  {
    AnyPrefixThree(code, "BAA", "ZAJ", "ZAU");
  }

  lemma Row6(code: string)
    ensures Selects(RetailRule, code) <==> (HasPrefix(code, "ZA"))
    ensures RetailRule.category == "retail"
  {
    AnyPrefixOne(code, "ZA");
  }

  lemma Row7(code: string)
    ensures Selects(SurgicalRule, code) <==> (HasPrefix(code, "OAA") || HasPrefix(code, "NAA") || HasPrefix(code, "FDA"))
    ensures SurgicalRule.category == "surgical"
  {
    AnyPrefixThree(code, "OAA", "NAA", "FDA");
  }

  lemma Row8(code: string)
    ensures Selects(OperationsRule, code) <==> (HasPrefix(code, "YBA") || HasPrefix(code, "ZFB") || HasPrefix(code, "ZFC") || HasPrefix(code, "ZFZ"))
    ensures OperationsRule.category == "operations"
  {
    AnyPrefixFour(code, "YBA", "ZFB", "ZFC", "ZFZ");
  }

  /** The table from row k on, read first-match. */
  lemma FirstMatchStep(k: nat, code: string)
    requires k < |Rules|
    ensures FirstMatch(Rules[k..], code) ==
      if Selects(Rules[k], code) then Rules[k].category else FirstMatch(Rules[k + 1..], code)
  {
    assert Rules[k..][0] == Rules[k];
    assert Rules[k..][1..] == Rules[k + 1..];
  }

  /** The table read first-match is an if-chain over its rows. */
  function TableChain(code: string): string {
    if HasPrefix(code, "PDST") || HasPrefix(code, "PDSV") || HasPrefix(code, "PDWB") || code == "SCRIPT" then "pharmacy"
    else if HasPrefix(code, "MAD") || HasPrefix(code, "MAH") || HasPrefix(code, "PDO") then "medical"
    else if HasPrefix(code, "HST") || HasPrefix(code, "HSN") then "sports"
    else if HasPrefix(code, "HNF") || HasPrefix(code, "HVL") then "health_foods"
    else if HasPrefix(code, "SA") || HasPrefix(code, "SB") then "footwear"
    else if HasPrefix(code, "BAA") || HasPrefix(code, "ZAJ") || HasPrefix(code, "ZAU") then "beauty"
    else if HasPrefix(code, "ZA") then "retail"
    else if HasPrefix(code, "OAA") || HasPrefix(code, "NAA") || HasPrefix(code, "FDA") then "surgical"
    else if HasPrefix(code, "YBA") || HasPrefix(code, "ZFB") || HasPrefix(code, "ZFC") || HasPrefix(code, "ZFZ") then "operations"
    else "other"
  }

  lemma Step0(code: string)
    ensures FirstMatch(Rules[0..], code) == (if HasPrefix(code, "PDST") || HasPrefix(code, "PDSV") || HasPrefix(code, "PDWB") || code == "SCRIPT" then "pharmacy" else FirstMatch(Rules[1..], code))
  {
    Row0(code);
    FirstMatchStep(0, code);
  }

  lemma Step1(code: string)
    ensures FirstMatch(Rules[1..], code) == (if HasPrefix(code, "MAD") || HasPrefix(code, "MAH") || HasPrefix(code, "PDO") then "medical" else FirstMatch(Rules[2..], code))
  {
    Row1(code);
    FirstMatchStep(1, code);
  }

  lemma Step2(code: string)
    ensures FirstMatch(Rules[2..], code) == (if HasPrefix(code, "HST") || HasPrefix(code, "HSN") then "sports" else FirstMatch(Rules[3..], code))
  {
    Row2(code);
    FirstMatchStep(2, code);
  }

  lemma Step3(code: string)
    ensures FirstMatch(Rules[3..], code) == (if HasPrefix(code, "HNF") || HasPrefix(code, "HVL") then "health_foods" else FirstMatch(Rules[4..], code))
  {
    Row3(code);
    FirstMatchStep(3, code);
  }

  lemma Step4(code: string)
    ensures FirstMatch(Rules[4..], code) == (if HasPrefix(code, "SA") || HasPrefix(code, "SB") then "footwear" else FirstMatch(Rules[5..], code))
  {
    Row4(code);
    FirstMatchStep(4, code);
  }

  lemma Step5(code: string)
    ensures FirstMatch(Rules[5..], code) == (if HasPrefix(code, "BAA") || HasPrefix(code, "ZAJ") || HasPrefix(code, "ZAU") then "beauty" else FirstMatch(Rules[6..], code))
  {
    Row5(code);
    FirstMatchStep(5, code);
  }

  lemma Step6(code: string)
    ensures FirstMatch(Rules[6..], code) == (if HasPrefix(code, "ZA") then "retail" else FirstMatch(Rules[7..], code))
  {
    Row6(code);
    FirstMatchStep(6, code);
  }

  lemma Step7(code: string)
    ensures FirstMatch(Rules[7..], code) == (if HasPrefix(code, "OAA") || HasPrefix(code, "NAA") || HasPrefix(code, "FDA") then "surgical" else FirstMatch(Rules[8..], code))
  {
    Row7(code);
    FirstMatchStep(7, code);
  }

  lemma Step8(code: string)
    ensures FirstMatch(Rules[8..], code) == (if HasPrefix(code, "YBA") || HasPrefix(code, "ZFB") || HasPrefix(code, "ZFC") || HasPrefix(code, "ZFZ") then "operations" else FirstMatch(Rules[9..], code))
  {
    Row8(code);
    FirstMatchStep(8, code);
  }

  lemma TableIsChain(code: string)
    ensures FirstMatch(Rules, code) == TableChain(code)
  {
    Step0(code);
    Step1(code);
    Step2(code);
    Step3(code);
    Step4(code);
    Step5(code);
    Step6(code);
    Step7(code);
    Step8(code);
    assert Rules[9..] == [];
    assert Rules[0..] == Rules;
  }

  /** The if-chain over the outcomes of its tests: once the beauty tests
      have failed, the retail test reduces to the bare ZA prefix. */
  lemma RetailTestReduces(p: bool, m: bool, sp: bool, h: bool, f: bool, baa: bool, zaj: bool, zau: bool,
                          za: bool, su: bool, op: bool)
    ensures (if p then "pharmacy" else if m then "medical" else if sp then "sports"
             else if h then "health_foods" else if f then "footwear"
             else if baa || zaj || zau then "beauty" else if za && !zaj && !zau then "retail"
             else if su then "surgical" else if op then "operations" else "other")
         == (if p then "pharmacy" else if m then "medical" else if sp then "sports"
             else if h then "health_foods" else if f then "footwear"
             else if baa || zaj || zau then "beauty" else if za then "retail"
             else if su then "surgical" else if op then "operations" else "other")
  {
  }

  /** The if-chain is the table read first-match: the order of the tests
      decides, and the negated ZAJ/ZAU tests of the retail branch are
      redundant. */
  lemma ClassifyIsFirstMatch(code: string)
    ensures Classify(code) == FirstMatch(Rules, code)
  {
    TableIsChain(code);
    RetailTestReduces(
      HasPrefix(code, "PDST") || HasPrefix(code, "PDSV") || HasPrefix(code, "PDWB") || code == "SCRIPT",
      HasPrefix(code, "MAD") || HasPrefix(code, "MAH") || HasPrefix(code, "PDO"),
      HasPrefix(code, "HST") || HasPrefix(code, "HSN"),
      HasPrefix(code, "HNF") || HasPrefix(code, "HVL"),
      HasPrefix(code, "SA") || HasPrefix(code, "SB"),
      HasPrefix(code, "BAA"), HasPrefix(code, "ZAJ"), HasPrefix(code, "ZAU"),
      HasPrefix(code, "ZA"),
      HasPrefix(code, "OAA") || HasPrefix(code, "NAA") || HasPrefix(code, "FDA"),
      HasPrefix(code, "YBA") || HasPrefix(code, "ZFB") || HasPrefix(code, "ZFC") || HasPrefix(code, "ZFZ"));
  }

  // ---------------------------------------------------------------------
  // Products and the list filter

  /** One row of the stock-levels list, with the fields the card reads. A
      missing or empty department code is None or Some(""); a missing cost
      per unit is None. */
  datatype Product = Product(
    productName: string,
    departmentCode: Option<string>,
    departmentName: string,
    daysOfStock: real,
    costPerUnit: Option<real>,
    currentSOH: real)

  function CategoryOf(p: Product): string {
    DepartmentCategory(p.departmentCode)
  }

  /** departmentCategories[filter] is truthy exactly for its keys: every
      label is a non-empty string. */
  predicate IsCategoryKey(filter: string) {
    filter in CategoryKeys
  }

  /** The filtering half of getFilteredAndSortedStockLevels. */
  function FilterProducts(levels: seq<Product>, filter: string): seq<Product> {
    if filter == "all" then levels
    else if IsCategoryKey(filter) then Filter(levels, (p: Product) => CategoryOf(p) == filter)
    else Filter(levels, (p: Product) => p.departmentName == filter)
  }

  /** What a filter keeps: everything for 'all', the products of a category
      for a category key, the products of a department for any other value;
      and the kept products stay in their original order. */
  lemma FilterKeeps(levels: seq<Product>, filter: string, p: Product)
    ensures filter == "all" ==> FilterProducts(levels, filter) == levels
    ensures filter != "all" && IsCategoryKey(filter) ==>
      (p in FilterProducts(levels, filter) <==> p in levels && CategoryOf(p) == filter)
    ensures !IsCategoryKey(filter) ==>
      (p in FilterProducts(levels, filter) <==> p in levels && p.departmentName == filter)
    ensures IsSubsequence(FilterProducts(levels, filter), levels)
  {
    FilterMember(levels, (q: Product) => CategoryOf(q) == filter, p);
    FilterMember(levels, (q: Product) => q.departmentName == filter, p);
    FilterSubsequence(levels, (q: Product) => CategoryOf(q) == filter);
    FilterSubsequence(levels, (q: Product) => q.departmentName == filter);
    if filter == "all" {
      IsSubsequenceRefl(levels);
    }
  }

  lemma {:induction false} IsSubsequenceRefl(s: seq<Product>)
    ensures IsSubsequence(s, s)
  {
    if s != [] {
      IsSubsequenceRefl(s[1..]);
    }
  }

  /** 'other' is not a key of departmentCategories, so choosing it filters
      by a department literally named 'other', never by category. */
  lemma OtherFiltersByName(levels: seq<Product>)
    ensures FilterProducts(levels, "other") == Filter(levels, (p: Product) => p.departmentName == "other")
  {
  }

  // ---------------------------------------------------------------------
  // The sort

  /** (costPerUnit || 0) * currentSOH. */
  function StockValue(p: Product): real {
    p.costPerUnit.GetOr(0.0) * p.currentSOH
  }

  /** The comparator passed to filtered.sort. */
  function Compare(field: string, direction: string, a: Product, b: Product): real {
    if field == "daysOfStock" then
      (if direction == "asc" then a.daysOfStock - b.daysOfStock else b.daysOfStock - a.daysOfStock)
    else if field == "stockValue" then
      (if direction == "asc" then StockValue(a) - StockValue(b) else StockValue(b) - StockValue(a))
    else 0.0
  }

  /** The value a sort field reads; 0 for a field the comparator ignores. */
  function FieldValue(field: string, p: Product): real {
    if field == "daysOfStock" then p.daysOfStock
    else if field == "stockValue" then StockValue(p)
    else 0.0
  }

  /** The sort key: the field's value, negated unless the direction is 'asc'. */
  function Key(field: string, direction: string, p: Product): real {
    if direction == "asc" then FieldValue(field, p) else -FieldValue(field, p)
  }

  /** The comparator is the difference of the keys, so it is a consistent
      total preorder. */
  lemma CompareIsKeyDifference(field: string, direction: string, a: Product, b: Product)
    ensures Compare(field, direction, a, b) == Key(field, direction, a) - Key(field, direction, b)
  {
  }

  /** Array.prototype.sort is stable: an element goes after a later one only
      when the comparator puts it strictly after. */
  function Insert(field: string, direction: string, x: Product, s: seq<Product>): (r: seq<Product>)
    ensures |r| == |s| + 1
  {
    if s == [] || Compare(field, direction, x, s[0]) <= 0.0 then [x] + s
    else [s[0]] + Insert(field, direction, x, s[1..])
  }

  /** The stable sort of s under the comparator. */
  function Sort(field: string, direction: string, s: seq<Product>): (r: seq<Product>)
    ensures |r| == |s|
  {
    if s == [] then [] else Insert(field, direction, s[0], Sort(field, direction, s[1..]))
  }

  predicate SortedBy(field: string, direction: string, s: seq<Product>) {
    forall i, j :: 0 <= i < j < |s| ==> Key(field, direction, s[i]) <= Key(field, direction, s[j])
  }

  predicate KeysAtLeast(field: string, direction: string, k: real, s: seq<Product>) {
    forall i :: 0 <= i < |s| ==> k <= Key(field, direction, s[i])
  }

  lemma {:induction false} InsertBound(field: string, direction: string, x: Product, s: seq<Product>, k: real)
    requires KeysAtLeast(field, direction, k, s) && k <= Key(field, direction, x)
    ensures KeysAtLeast(field, direction, k, Insert(field, direction, x, s))
  {
    if s != [] && Compare(field, direction, x, s[0]) > 0.0 {
      InsertBound(field, direction, x, s[1..], k);
      assert KeysAtLeast(field, direction, k, [s[0]]);
    }
  }

  lemma {:induction false} InsertSorted(field: string, direction: string, x: Product, s: seq<Product>)
    requires SortedBy(field, direction, s)
    ensures SortedBy(field, direction, Insert(field, direction, x, s))
  {
    CompareIsKeyDifference(field, direction, x, if s == [] then x else s[0]);
    if s != [] && Compare(field, direction, x, s[0]) > 0.0 {
      var t := s[1..];
      assert SortedBy(field, direction, t);
      InsertSorted(field, direction, x, t);
      assert KeysAtLeast(field, direction, Key(field, direction, s[0]), t);
      InsertBound(field, direction, x, t, Key(field, direction, s[0]));
    }
  }

  lemma {:induction false} InsertPermutes(field: string, direction: string, x: Product, s: seq<Product>)
    ensures multiset(Insert(field, direction, x, s)) == multiset(s) + multiset{x}
  {
    if s != [] && Compare(field, direction, x, s[0]) > 0.0 {
      InsertPermutes(field, direction, x, s[1..]);
      assert s == [s[0]] + s[1..];
    }
  }

  /** The elements of s whose key is k, in order. */
  function WithKey(field: string, direction: string, k: real, s: seq<Product>): seq<Product> {
    Filter(s, (p: Product) => Key(field, direction, p) == k)
  }

  lemma {:induction false} InsertStable(field: string, direction: string, x: Product, s: seq<Product>, k: real)
    ensures WithKey(field, direction, k, Insert(field, direction, x, s)) == WithKey(field, direction, k, [x] + s)
  {
    var q := (p: Product) => Key(field, direction, p) == k;
    if s != [] && Compare(field, direction, x, s[0]) > 0.0 {
      CompareIsKeyDifference(field, direction, x, s[0]);
      InsertStable(field, direction, x, s[1..], k);
      FilterAppend([s[0]], Insert(field, direction, x, s[1..]), q);
      FilterAppend([x], s[1..], q);
      FilterAppend([x], s, q);
      FilterAppend([s[0]], s[1..], q);
      assert s == [s[0]] + s[1..];
      assert [s[0]][1..] == [] && [x][1..] == [];
    }
  }

  /** The sort orders by key: ascending values for 'asc', descending for
      every other direction. */
  lemma {:induction false} SortSorted(field: string, direction: string, s: seq<Product>)
    ensures SortedBy(field, direction, Sort(field, direction, s))
  {
    if s != [] {
      SortSorted(field, direction, s[1..]);
      InsertSorted(field, direction, s[0], Sort(field, direction, s[1..]));
    }
  }

  /** The sort neither adds nor drops a product. */
  lemma {:induction false} SortPermutes(field: string, direction: string, s: seq<Product>)
    ensures multiset(Sort(field, direction, s)) == multiset(s)
  {
    if s != [] {
      SortPermutes(field, direction, s[1..]);
      InsertPermutes(field, direction, s[0], Sort(field, direction, s[1..]));
      assert s == [s[0]] + s[1..];
    }
  }

  /** Products with equal keys keep their relative order. */
  lemma {:induction false} SortStable(field: string, direction: string, s: seq<Product>, k: real)
    ensures WithKey(field, direction, k, Sort(field, direction, s)) == WithKey(field, direction, k, s)
  {
    if s != [] {
      var q := (p: Product) => Key(field, direction, p) == k;
      var t := Sort(field, direction, s[1..]);
      SortStable(field, direction, s[1..], k);
      InsertStable(field, direction, s[0], t, k);
      FilterAppend([s[0]], t, q);
      FilterAppend([s[0]], s[1..], q);
      assert s == [s[0]] + s[1..];
    }
  }

  /** In value terms: ascending for 'asc', descending otherwise. */
  lemma SortOrder(field: string, direction: string, s: seq<Product>)
    ensures var r := Sort(field, direction, s);
      forall i, j :: 0 <= i < j < |r| ==>
        if direction == "asc" then FieldValue(field, r[i]) <= FieldValue(field, r[j])
        else FieldValue(field, r[i]) >= FieldValue(field, r[j])
  {
    SortSorted(field, direction, s);
  }

  /** A field the comparator does not know leaves the order unchanged. */
  lemma {:induction false} SortUnknownField(field: string, direction: string, s: seq<Product>)
    requires field != "daysOfStock" && field != "stockValue"
    ensures Sort(field, direction, s) == s
  {
    if s != [] {
      SortUnknownField(field, direction, s[1..]);
      assert s == [s[0]] + s[1..];
    }
  }

  /** filtered.sort(...) on an array: rearranges it into the sorted order. */
  method SortInPlace(a: array<Product>, field: string, direction: string)
    modifies a
    ensures a[..] == Sort(field, direction, old(a[..]))
  {
    var r := Sort(field, direction, a[..]);
    forall i | 0 <= i < a.Length {
      a[i] := r[i];
    }
  }

  // ---------------------------------------------------------------------
  // Sort-header state

  datatype SortState = SortState(field: string, direction: string)

  /** handleSort: the current field flips the direction, a new field starts
      descending. */
  function NextSort(st: SortState, clicked: string): SortState {
    if st.field == clicked then SortState(st.field, if st.direction == "asc" then "desc" else "asc")
    else SortState(clicked, "desc")
  }

  /** After a click the clicked field is current and the direction is 'asc'
      or 'desc'; a new field's direction is 'desc'. */
  lemma NextSortShape(st: SortState, clicked: string)
    ensures NextSort(st, clicked).field == clicked
    ensures NextSort(st, clicked).direction in {"asc", "desc"}
    ensures st.field != clicked ==> NextSort(st, clicked).direction == "desc"
    ensures st.field == clicked ==> (NextSort(st, clicked).direction == "asc" <==> st.direction != "asc")
  {
  }

  /** Clicking the current header twice restores the state, once its
      direction is 'asc' or 'desc'. */
  lemma NextSortTwice(st: SortState, clicked: string)
    requires st.field == clicked && st.direction in {"asc", "desc"}
    ensures NextSort(NextSort(st, clicked), clicked) == st
  {
  }

  /** Clicking a new header and then again sorts it ascending. */
  lemma NextSortNewTwice(st: SortState, clicked: string)
    requires st.field != clicked
    ensures NextSort(NextSort(st, clicked), clicked) == SortState(clicked, "asc")
  {
  }

  // ---------------------------------------------------------------------
  // Departments grouped by category

  /** departmentsByCategory after the forEach over s: each category seen
      maps to the set of the department names seen with it. */
  function Groups(s: seq<Product>): map<string, set<string>> {
    GroupBy(s, CategoryOf, (p: Product) => p.departmentName)
  }

  /** A category is present exactly when some product has it, and a
      department name is listed under it exactly when some product has
      both. */
  lemma GroupsMeaning(s: seq<Product>, c: string, name: string)
    ensures c in Groups(s) <==> exists i :: 0 <= i < |s| && CategoryOf(s[i]) == c
    ensures (c in Groups(s) && name in Groups(s)[c]) <==>
      exists i :: 0 <= i < |s| && CategoryOf(s[i]) == c && s[i].departmentName == name
  {
    GroupByKeys(s, CategoryOf, (p: Product) => p.departmentName, c);
    GroupByMembers(s, CategoryOf, (p: Product) => p.departmentName, c, name);
  }

  // ---------------------------------------------------------------------
  // The card's state

  class StockLevelsCard {
    var stockLevels: array<Product>
    var departmentFilter: string
    var sortField: string
    var sortDirection: string

    /** The initial state: no products, every department, days of stock
        descending. */
    constructor()
      ensures stockLevels.Length == 0 && fresh(stockLevels)
      ensures departmentFilter == "all" && sortField == "daysOfStock" && sortDirection == "desc"
    {
      stockLevels := new Product[0];
      departmentFilter := "all";
      sortField := "daysOfStock";
      sortDirection := "desc";
    }

    /** setStockLevels(data.products || []) after a fetch. */
    method Load(products: seq<Product>)
      modifies this
      ensures fresh(stockLevels) && stockLevels[..] == products
      ensures departmentFilter == old(departmentFilter)
      ensures sortField == old(sortField) && sortDirection == old(sortDirection)
    {
      stockLevels := new Product[|products|](i requires 0 <= i < |products| => products[i]);
    }

    method HandleSort(clicked: string)
      modifies this
      ensures SortState(sortField, sortDirection) == NextSort(SortState(old(sortField), old(sortDirection)), clicked)
      ensures stockLevels == old(stockLevels) && departmentFilter == old(departmentFilter)
    {
      if sortField == clicked {
        sortDirection := if sortDirection == "asc" then "desc" else "asc";
      } else {
        sortField := clicked;
        sortDirection := "desc";
      }
    }

    method HandleDepartmentFilterChange(department: string)
      modifies this
      ensures departmentFilter == department
      ensures stockLevels == old(stockLevels)
      ensures sortField == old(sortField) && sortDirection == old(sortDirection)
    {
      departmentFilter := department;
    }

    /** getFilteredAndSortedStockLevels. Under 'all' the list is sorted in
        place and returned itself; otherwise a new filtered array is sorted
        and the list is left as it was. */
    method FilteredAndSorted() returns (r: array<Product>)
      modifies stockLevels
      ensures r[..] == Sort(sortField, sortDirection, FilterProducts(old(stockLevels[..]), departmentFilter))
      ensures departmentFilter == "all" ==> r == stockLevels
      ensures departmentFilter != "all" ==> fresh(r) && stockLevels[..] == old(stockLevels[..])
    {
      if departmentFilter == "all" {
        r := stockLevels;
      } else {
        var f := FilterProducts(stockLevels[..], departmentFilter);
        r := new Product[|f|](i requires 0 <= i < |f| => f[i]);
        assert r[..] == f;
      }
      SortInPlace(r, sortField, sortDirection);
    }

    /** getDepartmentsByCategory. */
    method DepartmentsByCategory() returns (m: map<string, set<string>>)
      ensures m == Groups(stockLevels[..])
    {
      m := map[];
      for i := 0 to stockLevels.Length
        invariant m == Groups(stockLevels[..i])
      {
        var p := stockLevels[i];
        var c := CategoryOf(p);
        if c !in m {
          m := m[c := {}];
        }
        m := m[c := m[c] + {p.departmentName}];
        assert stockLevels[..i + 1][..i] == stockLevels[..i];
      }
      assert stockLevels[..stockLevels.Length] == stockLevels[..];
    }
  }

  // ---------------------------------------------------------------------
  // Days-of-stock colours

  function DaysColor(days: real): string {
    if days >= 30.0 then "text-status-error"
    else if days >= 21.0 then "text-status-warning"
    else if days >= 14.0 then "text-status-success"
    else "text-text-secondary"
  }

  function DaysBackground(days: real): string {
    if days >= 30.0 then "bg-status-error bg-opacity-10"
    else if days >= 21.0 then "bg-status-warning bg-opacity-10"
    else if days >= 14.0 then "bg-status-success bg-opacity-10"
    else "bg-surface-tertiary"
  }

  /** The severity band of a days-of-stock figure, 0 (under two weeks) to
      3 (a month or more). */
  function Band(days: real): (b: nat)
    ensures b <= 3
  {
    if days >= 30.0 then 3 else if days >= 21.0 then 2 else if days >= 14.0 then 1 else 0
  }

  const Colors: seq<string> := ["text-text-secondary", "text-status-success", "text-status-warning", "text-status-error"]
  const Backgrounds: seq<string> := [
    "bg-surface-tertiary", "bg-status-success bg-opacity-10",
    "bg-status-warning bg-opacity-10", "bg-status-error bg-opacity-10"]

  /** Colour and background are both chosen by the band, so they always
      agree. */
  lemma DaysColorByBand(days: real)
    ensures DaysColor(days) == Colors[Band(days)]
    ensures DaysBackground(days) == Backgrounds[Band(days)]
  {
  }

  /** More days never means a milder band. */
  lemma BandMonotone(d1: real, d2: real)
    requires d1 <= d2
    ensures Band(d1) <= Band(d2)
  {
  }

  /** The band thresholds: 30, 21 and 14 days. */
  lemma BandThresholds(days: real)
    ensures DaysColor(days) == "text-status-error" <==> days >= 30.0
    ensures DaysColor(days) == "text-status-warning" <==> 21.0 <= days < 30.0
    ensures DaysColor(days) == "text-status-success" <==> 14.0 <= days < 21.0
    ensures DaysColor(days) == "text-text-secondary" <==> days < 14.0
  {
  }
}

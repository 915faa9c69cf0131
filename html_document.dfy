/** The parsed HTML report as the extractor sees it: tags in document order,
    each with its name, its stripped text and its parent, and for a table the
    td cells of its tr rows. The locator finds the table a section heading
    sits in: the first bold tag whose text contains the heading, then the
    walk up the parents to the nearest table. */
module HtmlDocument {
  import opened Wrappers
  import opened Text

  /** A td cell: its text as get_text(strip=True) gives it, and its colspan
      attribute if it has one. */
  datatype Cell = Cell(text: string, colspan: Option<string>)

  /** The td cells of one tr, in order. */
  type Row = seq<Cell>

  /** A tag: its name, its stripped text, the index of its parent (None for
      the document itself), and the rows find_all('tr') yields when the tag
      is a table. */
  datatype Tag = Tag(name: string, text: string, parent: Option<nat>, rows: seq<Row>)

  /** The tags in document order. */
  type Document = seq<Tag>

  /** Every parent precedes its children in document order. */
  predicate WellFormed(doc: Document) {
    forall i :: 0 <= i < |doc| && doc[i].parent.Some? ==> doc[i].parent.value < i
  }

  /** The predicate soup.find is given: a `b` tag whose stripped text
      contains the heading. */
  predicate IsHeadingTag(t: Tag, heading: string) {
    t.name == "b" && Contains(t.text, heading)
  }

  /** soup.find: the first tag at index k or later that is a heading tag. */
  function FindBold(doc: Document, heading: string, k: nat): (r: Option<nat>)
    requires k <= |doc|
    ensures r.Some? ==> k <= r.value < |doc| && IsHeadingTag(doc[r.value], heading)
    ensures r.Some? ==> forall j :: k <= j < r.value ==> !IsHeadingTag(doc[j], heading)
    ensures r.None? ==> forall j :: k <= j < |doc| ==> !IsHeadingTag(doc[j], heading)
    decreases |doc| - k
  {
    if k == |doc| then None
    else if IsHeadingTag(doc[k], heading) then Some(k)
    else FindBold(doc, heading, k + 1)
  }

  /** j is the tag i itself or one of its ancestors. */
  predicate OnPath(doc: Document, i: nat, j: nat)
    requires WellFormed(doc) && i < |doc|
    ensures OnPath(doc, i, j) ==> j <= i
    decreases i
  {
    j == i || (doc[i].parent.Some? && OnPath(doc, doc[i].parent.value, j))
  }

  /** The tag the parent walk from i stops at: the nearest table on the
      path from i up to the document, or None when the walk falls off the
      document. */
  function NearestTable(doc: Document, i: nat): (r: Option<nat>)
    requires WellFormed(doc) && i < |doc|
    ensures r.Some? ==> r.value <= i && doc[r.value].name == "table" && OnPath(doc, i, r.value)
    ensures r.Some? ==> forall j :: r.value < j <= i && OnPath(doc, i, j) ==> doc[j].name != "table"
    ensures r.None? ==> forall j :: 0 <= j <= i && OnPath(doc, i, j) ==> doc[j].name != "table"
    decreases i
  {
    if doc[i].name == "table" then Some(i)
    else match doc[i].parent
      case None => None
      case Some(p) => NearestTable(doc, p)
  }

  /** find_table_by_header as a value: the nearest table above the first
      heading tag, None when either is missing. */
  function TableOf(doc: Document, heading: string): (r: Option<nat>)
    requires WellFormed(doc)
    ensures r.Some? ==> r.value < |doc| && doc[r.value].name == "table"
  {
    match FindBold(doc, heading, 0)
    case None => None
    case Some(b) => NearestTable(doc, b)
  }

  /** find_table_by_header: soup.find, then the while loop that replaces
      the current tag by its parent until it is a table or there is none. */
  method FindTableByHeader(doc: Document, heading: string) returns (r: Option<nat>)
    requires WellFormed(doc)
    ensures r == TableOf(doc, heading)
    ensures r.Some? ==> r.value < |doc| && doc[r.value].name == "table"
  {
    var bold := FindBold(doc, heading, 0);
    if bold.None? {
      return None;
    }
    var current: Option<nat> := bold;
    while current.Some? && doc[current.value].name != "table"
      invariant current.Some? ==> current.value < |doc|
      invariant current.Some? ==> NearestTable(doc, current.value) == NearestTable(doc, bold.value)
      invariant current.None? ==> NearestTable(doc, bold.value).None?
      decreases if current.Some? then current.value + 1 else 0
    {
      current := doc[current.value].parent;
    }
    r := current;
  }

  /** The located table is an ancestor of a heading tag, and no heading tag
      comes before that one in document order. */
  lemma TableOfFound(doc: Document, heading: string)
    requires WellFormed(doc)
    requires TableOf(doc, heading).Some?
    ensures var t := TableOf(doc, heading).value;
      exists b :: 0 <= b < |doc| && IsHeadingTag(doc[b], heading) && OnPath(doc, b, t)
        && doc[t].name == "table"
        && (forall j :: 0 <= j < b ==> !IsHeadingTag(doc[j], heading))
  {
    var b := FindBold(doc, heading, 0).value;
    assert OnPath(doc, b, TableOf(doc, heading).value);
  }

  /** No table is located when no tag is a heading tag, or when no tag on
      the first heading tag's path is a table. */
  lemma TableOfMissing(doc: Document, heading: string)
    requires WellFormed(doc)
    ensures TableOf(doc, heading).None? <==>
      (forall j :: 0 <= j < |doc| ==> !IsHeadingTag(doc[j], heading))
      || (exists b :: 0 <= b < |doc| && FindBold(doc, heading, 0) == Some(b)
           && forall j :: 0 <= j <= b && OnPath(doc, b, j) ==> doc[j].name != "table")
  {
    match FindBold(doc, heading, 0)
    case None =>
    case Some(b) =>
      if TableOf(doc, heading).Some? {
        var t := TableOf(doc, heading).value;
        assert 0 <= t <= b && OnPath(doc, b, t) && doc[t].name == "table";
      }
  }
}

/** The HTML daily-report extractor: the five section walkers, each a loop
    over the rows of the table its heading sits in, that assign the record's
    fields from the cells of the rows whose label they recognise, and the
    whole extraction, which starts from the all-default record and runs the
    five walkers in order. */
module DailyReport {
  import opened Wrappers
  import opened Text
  import opened NumberCleaning
  import opened ReportFields
  import opened HtmlDocument

  /** The heading text each section's table is located by. */
  function Heading(s: Section): string {
    match s
    case SalesSummary => "SALES SUMMARY"
    case CashUp => "CASH-UP RECONCILIATION"
    case StockTrading => "STOCK TRADING ACCOUNT"
    case Dispensary => "DISPENSARY SUMMARY"
    case TurnoverSummary => "TURNOVER SUMMARY"
  }

  /** The lower-cased stripped text of a row's first cell. */
  function Label(cells: Row): string
    requires |cells| > 0
  {
    Lower(cells[0].text)
  }

  // ---------------------------------------------------------------------
  // Label recognition, one if/elif chain per section

  const ItemsPerBasket: string := "average number of items per basket"
  const ValuePerBasket: string := "average value per docket/basket"

  /** The Sales Summary labels: the transaction-count field and the value
      field a row with this label fills. */
  function SalesLabel(labelText: string): (r: Option<(SalesField, SalesField)>)
    ensures r.Some? ==> IsTransCount(r.value.0) && !IsTransCount(r.value.1)
  {
    if labelText == "cash sales" then Some((CashSalesTransToday, CashSalesToday))
    else if labelText == "c.o.d payments" then Some((CodPaymentsTransToday, CodPaymentsToday))
    else if labelText == "receipt on account" then Some((ReceiptOnAccountTransToday, ReceiptOnAccountToday))
    else if Contains(labelText, "sub-total:") then Some((SubtotalTransToday, SubtotalToday))
    else if labelText == "less: paid-outs" then Some((PaidOutsTransToday, PaidOutsToday))
    else if labelText == "less: cash refunds" then Some((CashRefundsTransToday, CashRefundsToday))
    else if labelText == "total:" && !Contains(labelText, "total pos turnover:") then Some((SalesTotalTransToday, SalesTotalToday))
    else if labelText == "account sales" then Some((AccountSalesTransToday, AccountSalesToday))
    else if labelText == "c.o.d sales" then Some((CodSalesTransToday, CodSalesToday))
    else if labelText == "less: account refunds" then Some((AccountRefundsTransToday, AccountRefundsToday))
    else if Contains(labelText, "total pos turnover:") then Some((PosTurnoverTransToday, PosTurnoverToday))
    else None
  }

  function CashUpLabel(labelText: string): Option<CashUpField>
  {
    if labelText == "cash tenders" then Some(CashTendersToday)
    else if labelText == "credit card tenders" then Some(CreditCardTendersToday)
    else if Contains(labelText, "total banked") then Some(TotalBankedToday)
    else None
  }

  function StockLabel(labelText: string): Option<StockField>
  {
    if labelText == "total sales of stock" then Some(StockSalesToday)
    else if labelText == "purchases" && !Contains(labelText, "total purchases") then Some(StockPurchasesToday)
    else if labelText == "adjustments" then Some(StockAdjustmentsToday)
    else if labelText == "cost of sales" then Some(CostOfSalesToday)
    else if labelText == "gross profit (r) from trading of stock items" then Some(StockGrossProfitToday)
    else if labelText == "gross profit (%) from trading of stock items" then Some(StockGrossProfitPercentToday)
    else if labelText == "opening stock (@ cost at the beginning of the month)" then Some(OpeningStockToday)
    else if labelText == "closing stock valued at cost now" then Some(ClosingStockToday)
    else None
  }

  function DispensaryLabel(labelText: string): Option<DispensaryField>
  {
    if labelText == "dispensary turnover/revenue" then Some(DispensaryTurnoverToday)
    else if labelText == "number of scripts dispensed" then Some(ScriptsDispensedToday)
    else if labelText == "average value of a script" then Some(AvgScriptValueToday)
    else if labelText == "average number of items per script" then Some(AvgItemsPerScriptToday)
    else if labelText == "average gross value of an item" then Some(AvgItemGrossValueToday)
    else if labelText == "outstandinglevies" then Some(OutstandingLeviesToday)
    else None
  }

  function TurnoverLabel(labelText: string): Option<TurnoverField>
  {
    if labelText == "retail sales (excl.)" then Some(RetailSalesToday)
    else if labelText == "type r sales (sales @ cost - excl.)" then Some(TypeRSalesToday)
    else if labelText == "capitation sales (excl.)" then Some(CapitationSalesToday)
    else if labelText == "total turnover (excl.)" then Some(TotalTurnoverToday)
    else None
  }

  // ---------------------------------------------------------------------
  // The basket cells of Sales Summary

  /** The cell the basket rows are read from, as the code is written: the
      short-row branch picks cell 1 under colspan "2" and cell 2 otherwise,
      but is entered only with fewer than three cells; the long-row branch
      reads cell 1 under colspan "2" and nothing otherwise. */
  function BasketCellAsWritten(cells: Row): (r: Option<nat>)
    requires |cells| > 0
    ensures r.Some? ==> r.value < |cells|
  {
    if |cells| < 3 then
      var index := if cells[0].colspan == Some("2") then 1 else 2;
      if |cells| > 1 && |cells| > index then Some(index) else None
    else if cells[0].colspan == Some("2") && |cells| > 1 then Some(1)
    else None
  }

  /** As written, cell 2 is never read: a basket row without colspan "2" is
      ignored whatever its length. */
  lemma BasketCellAsWrittenIgnoresCellTwo(cells: Row)
    requires |cells| > 0
    ensures BasketCellAsWritten(cells) != Some(2)
    ensures BasketCellAsWritten(cells).Some? <==> cells[0].colspan == Some("2") && |cells| > 1
  {
  }

  /** The row that shows it: labelText, transactions, value, no colspan. */
  lemma BasketCellAsWrittenCounterexample()
    ensures var cells := [Cell("Average Number of Items per Basket", None), Cell("120", None), Cell("2.50", None)];
      BasketCellAsWritten(cells).None? && BasketCell(cells) == Some(2)
  {
  }

  /** The cell the basket rows are read from, as intended: cell 1 when the
      labelText cell spans two columns, otherwise cell 2, when the row has it. */
  function BasketCell(cells: Row): (r: Option<nat>)
    requires |cells| > 0
    ensures r.Some? ==> r.value < |cells|
  {
    var index := if cells[0].colspan == Some("2") then 1 else 2;
    if |cells| > index then Some(index) else None
  }

  /** Both layouts are read: cell 1 exactly for a spanning labelText cell, cell
      2 exactly for a plain one with three cells or more; and for a spanning
      labelText cell the intended reading agrees with the written one. */
  lemma BasketCellLayouts(cells: Row)
    requires |cells| > 0
    ensures BasketCell(cells) == Some(1) <==> cells[0].colspan == Some("2") && |cells| > 1
    ensures BasketCell(cells) == Some(2) <==> cells[0].colspan != Some("2") && |cells| > 2
    ensures BasketCell(cells).None? <==> |cells| == 1 || (cells[0].colspan != Some("2") && |cells| == 2)
    ensures cells[0].colspan == Some("2") ==> BasketCell(cells) == BasketCellAsWritten(cells)
  {
  }

  // ---------------------------------------------------------------------
  // What one row assigns

  /** A basket row's assignment, from the cell the code reads. */
  function BasketWrites(cells: Row, f: SalesField): Writes
    requires |cells| > 0
  {
    match BasketCellAsWritten(cells)
    case None => []
    case Some(k) => [(SalesItem(f), Float(CleanNumber(cells[k].text)))]
  }

  /** A basket row's assignment, from the cell intended. */
  function BasketWritesIntended(cells: Row, f: SalesField): Writes
    requires |cells| > 0
  {
    match BasketCell(cells)
    case None => []
    case Some(k) => [(SalesItem(f), Float(CleanNumber(cells[k].text)))]
  }

  /** A Sales Summary row, as the code reads it: a basket row under either
      branch, or a labelled row of at least three cells giving a count and a
      value. */
  function SalesRowWrites(cells: Row): (r: Writes)
    ensures WritesWithin(r, SalesSummary)
  {
    if |cells| == 0 then []
    else if |cells| < 3 then
      var labelText := Label(cells);
      if Contains(labelText, ItemsPerBasket) && |cells| > 1 then BasketWrites(cells, AvgItemsPerBasket)
      else if Contains(labelText, ValuePerBasket) && |cells| > 1 then BasketWrites(cells, AvgValuePerBasket)
      else []
    else
      var labelText := Label(cells);
      if Contains(labelText, ItemsPerBasket) then BasketWrites(cells, AvgItemsPerBasket)
      else if Contains(labelText, ValuePerBasket) then BasketWrites(cells, AvgValuePerBasket)
      else match SalesLabel(labelText)
        case None => []
        case Some(fs) => [(SalesItem(fs.0), Int(CleanInt(cells[1].text))), (SalesItem(fs.1), Float(CleanNumber(cells[2].text)))]
  }

  /** A Sales Summary row with the basket cell as intended; every other
      row reads as the code reads it. */
  function SalesRowWritesIntended(cells: Row): (r: Writes)
    ensures WritesWithin(r, SalesSummary)
  {
    if |cells| == 0 then []
    else
      var labelText := Label(cells);
      if Contains(labelText, ItemsPerBasket) && |cells| > 1 then BasketWritesIntended(cells, AvgItemsPerBasket)
      else if Contains(labelText, ValuePerBasket) && |cells| > 1 then BasketWritesIntended(cells, AvgValuePerBasket)
      else SalesRowWrites(cells)
  }

  /** The field a basket label names: items before value, as the code tests
      them. */
  function BasketField(labelText: string): Option<SalesField> {
    if Contains(labelText, ItemsPerBasket) then Some(AvgItemsPerBasket)
    else if Contains(labelText, ValuePerBasket) then Some(AvgValuePerBasket)
    else None
  }

  /** The code and the intended reading differ on exactly the basket rows of
      three cells or more whose label cell does not span two columns: the
      code assigns nothing, the intended reading assigns the value of cell
      2. */
  lemma SalesRowCorrection(cells: Row)
    ensures SalesRowWritesIntended(cells) != SalesRowWrites(cells) <==>
      |cells| >= 3 && cells[0].colspan != Some("2") && BasketField(Label(cells)).Some?
    ensures |cells| >= 3 && cells[0].colspan != Some("2") && BasketField(Label(cells)).Some? ==>
      SalesRowWrites(cells) == [] &&
      SalesRowWritesIntended(cells) == [(SalesItem(BasketField(Label(cells)).value), Float(CleanNumber(cells[2].text)))]
  {
    if |cells| > 0 {
      BasketCellLayouts(cells);
      BasketCellAsWrittenIgnoresCellTwo(cells);
    }
  }

  /** A Cash-up row: the value in cell 2 of a row of at least three cells. */
  function CashUpRowWrites(cells: Row): (r: Writes)
    ensures WritesWithin(r, CashUp)
  {
    if |cells| < 3 then []
    else match CashUpLabel(Label(cells))
      case None => []
      case Some(f) => [(CashUpItem(f), Float(CleanNumber(cells[2].text)))]
  }

  /** A Stock Trading data row: the value in cell 1. */
  function StockDataWrites(cells: Row): (r: Writes)
    ensures WritesWithin(r, StockTrading)
  {
    if |cells| < 2 then []
    else match StockLabel(Label(cells))
      case None => []
      case Some(f) => [(StockItem(f), Float(CleanNumber(cells[1].text)))]
  }

  /** A Dispensary data row: the value in cell 1, read as a count for the
      number of scripts. */
  function DispensaryDataWrites(cells: Row): (r: Writes)
    ensures WritesWithin(r, Dispensary)
  {
    if |cells| < 2 then []
    else match DispensaryLabel(Label(cells))
      case None => []
      case Some(f) =>
        if f == ScriptsDispensedToday then [(DispensaryItem(f), Int(CleanInt(cells[1].text)))]
        else [(DispensaryItem(f), Float(CleanNumber(cells[1].text)))]
  }

  /** A Turnover Summary data row: the value in cell 1. */
  function TurnoverDataWrites(cells: Row): (r: Writes)
    ensures WritesWithin(r, TurnoverSummary)
  {
    if |cells| < 2 then []
    else match TurnoverLabel(Label(cells))
      case None => []
      case Some(f) => [(TurnoverItem(f), Float(CleanNumber(cells[1].text)))]
  }

  // ---------------------------------------------------------------------
  // The header gate of Stock Trading, Dispensary and Turnover Summary

  /** header_skipped: False while seeking the column header, True after. */
  datatype Phase = Seeking | Unlocked

  const ExpectedHeader: seq<string> := ["description", "today", "this month"]

  /** The lower-cased texts of the first three cells (of all of them when
      there are fewer). */
  function HeaderTexts(cells: Row): (r: seq<string>)
    ensures |r| == if |cells| < 3 then |cells| else 3
    ensures forall i :: 0 <= i < |r| ==> r[i] == Lower(cells[i].text)
  {
    var n := if |cells| < 3 then |cells| else 3;
    seq(n, i requires 0 <= i < n => Lower(cells[i].text))
  }

  predicate IsHeaderRow(cells: Row) {
    HeaderTexts(cells) == ExpectedHeader
  }

  /** The header row is one of at least three cells whose first three read,
      in any letter case, "description", "today" and "this month". */
  lemma HeaderRowCells(cells: Row)
    ensures IsHeaderRow(cells) <==>
      |cells| >= 3 && Lower(cells[0].text) == "description"
      && Lower(cells[1].text) == "today" && Lower(cells[2].text) == "this month"
  {
    if |cells| >= 3 && Lower(cells[0].text) == "description"
      && Lower(cells[1].text) == "today" && Lower(cells[2].text) == "this month"
    {
      assert HeaderTexts(cells) == ExpectedHeader;
    }
  }

  /** A truthy colspan attribute: present and not empty. */
  predicate Truthy(a: Option<string>) {
    a.Some? && a.value != []
  }

  /** What one row assigns when its section's loop reads it as data. */
  function RowData(s: Section, cells: Row): (r: Writes)
    ensures WritesWithin(r, s)
  {
    match s
    case SalesSummary => SalesRowWrites(cells)
    case CashUp => CashUpRowWrites(cells)
    case StockTrading => StockDataWrites(cells)
    case Dispensary => DispensaryDataWrites(cells)
    case TurnoverSummary => TurnoverDataWrites(cells)
  }

  /** What a section's loop tests of a row: whether it has no cells,
      whether it is the column header, whether its first cell has a truthy
      colspan, and what it assigns when read as data. */
  datatype RowView = RowView(empty: bool, header: bool, titled: bool, data: Writes)

  function View(s: Section, cells: Row): RowView {
    RowView(cells == [], IsHeaderRow(cells), |cells| > 0 && Truthy(cells[0].colspan), RowData(s, cells))
  }

  function Views(s: Section, rows: seq<Row>): (r: seq<RowView>)
    ensures |r| == |rows|
    ensures forall k :: 0 <= k < |rows| ==> r[k] == View(s, rows[k])
  {
    seq(|rows|, k requires 0 <= k < |rows| => View(s, rows[k]))
  }

  /** One iteration of a section's loop: the phase after the row and the
      assignments the row performs. idx is the row's position among all the
      table's rows, as enumerate counts it. */
  function Step(s: Section, phase: Phase, idx: nat, v: RowView): (r: (Phase, Writes))
    ensures s == SalesSummary || s == CashUp ==> r.0 == phase
  {
    match s
    case SalesSummary => (phase, v.data)
    case CashUp => (phase, v.data)
    case StockTrading =>
      if v.empty then (phase, [])
      else if phase == Seeking then (if v.header then Unlocked else Seeking, [])
      else (Unlocked, v.data)
    case Dispensary =>
      if v.empty then (phase, [])
      else if phase == Seeking then
        if v.header then (Unlocked, v.data) else (Seeking, [])
      else (Unlocked, v.data)
    case TurnoverSummary =>
      if v.empty then (phase, [])
      else if phase == Seeking then
        if idx == 0 && v.titled then (Seeking, [])
        else if v.header then (Unlocked, v.data)
        else (Seeking, [])
      else (Unlocked, v.data)
  }

  /** The assignments of a section's loop over rows, the first of which is
      the table's row number idx, starting in the given phase. */
  function RowsWrites(s: Section, phase: Phase, views: seq<RowView>, idx: nat): Writes
    decreases |views|
  {
    if views == [] then []
    else
      var st := Step(s, phase, idx, views[0]);
      st.1 + RowsWrites(s, st.0, views[1..], idx + 1)
  }

  /** The phase a section's loop is in after the rows. */
  function PhaseAfter(s: Section, phase: Phase, views: seq<RowView>, idx: nat): Phase
    decreases |views|
  {
    if views == [] then phase
    else PhaseAfter(s, Step(s, phase, idx, views[0]).0, views[1..], idx + 1)
  }

  /** Every assignment of a section's loop is to a field of that section. */
  lemma {:induction false} RowsWithin(s: Section, phase: Phase, views: seq<RowView>, idx: nat)
    requires forall k :: 0 <= k < |views| ==> WritesWithin(views[k].data, s)
    ensures WritesWithin(RowsWrites(s, phase, views, idx), s)
    decreases |views|
  {
    if views != [] {
      var st := Step(s, phase, idx, views[0]);
      assert WritesWithin(views[0].data, s);
      assert WritesWithin(st.1, s);
      RowsWithin(s, st.0, views[1..], idx + 1);
      var rest := RowsWrites(s, st.0, views[1..], idx + 1);
      var w := st.1 + rest;
      assert forall i :: |st.1| <= i < |w| ==> w[i] == rest[i - |st.1|];
    }
  }

  // ---------------------------------------------------------------------
  // The section loops

  /** One step of the walk, as RowsWrites takes it. */
  lemma RowsWritesStep(s: Section, phase: Phase, views: seq<RowView>, i: nat, d: Record)
    requires i < |views|
    ensures Apply(d, RowsWrites(s, phase, views[i..], i)) ==
      Apply(Apply(d, Step(s, phase, i, views[i]).1), RowsWrites(s, Step(s, phase, i, views[i]).0, views[i + 1..], i + 1))
  {
    assert views[i..][0] == views[i];
    assert views[i..][1..] == views[i + 1..];
    var st := Step(s, phase, i, views[i]);
    ApplyAppend(d, st.1, RowsWrites(s, st.0, views[i + 1..], i + 1));
  }

  /** The Sales Summary loop. */
  method WalkSalesSummary(rows: seq<Row>, data0: Record) returns (data: Record)
    ensures data == Apply(data0, RowsWrites(SalesSummary, Seeking, Views(SalesSummary, rows), 0))
  {
    ghost var views := Views(SalesSummary, rows);
    data := data0;
    var i := 0;
    while i < |rows|
      invariant 0 <= i <= |rows|
      invariant Apply(data, RowsWrites(SalesSummary, Seeking, views[i..], i)) == Apply(data0, RowsWrites(SalesSummary, Seeking, views, 0))
    {
      RowsWritesStep(SalesSummary, Seeking, views, i, data);
      data := ReadSalesRow(rows[i], data);
      i := i + 1;
    }
  }

  /** The body of the Sales Summary loop for one row. */
  method ReadSalesRow(cells: Row, data0: Record) returns (data: Record)
    ensures data == Apply(data0, SalesRowWrites(cells))
  {
    data := data0;
    if |cells| < 3 {
      if |cells| > 0 {
        var labelText := Lower(cells[0].text);
        if Contains(labelText, ItemsPerBasket) && |cells| > 1 {
          var index := if cells[0].colspan == Some("2") then 1 else 2;
          if |cells| > index {
            ApplySingle(data, (SalesItem(AvgItemsPerBasket), Float(CleanNumber(cells[index].text))));
            data := data[SalesItem(AvgItemsPerBasket) := Float(CleanNumber(cells[index].text))];
          }
        } else if Contains(labelText, ValuePerBasket) && |cells| > 1 {
          var index := if cells[0].colspan == Some("2") then 1 else 2;
          if |cells| > index {
            ApplySingle(data, (SalesItem(AvgValuePerBasket), Float(CleanNumber(cells[index].text))));
            data := data[SalesItem(AvgValuePerBasket) := Float(CleanNumber(cells[index].text))];
          }
        }
      }
    } else {
      var labelText := Lower(cells[0].text);
      if Contains(labelText, ItemsPerBasket) {
        if cells[0].colspan == Some("2") && |cells| > 1 {
          ApplySingle(data, (SalesItem(AvgItemsPerBasket), Float(CleanNumber(cells[1].text))));
          data := data[SalesItem(AvgItemsPerBasket) := Float(CleanNumber(cells[1].text))];
        }
      } else if Contains(labelText, ValuePerBasket) {
        if cells[0].colspan == Some("2") && |cells| > 1 {
          ApplySingle(data, (SalesItem(AvgValuePerBasket), Float(CleanNumber(cells[1].text))));
          data := data[SalesItem(AvgValuePerBasket) := Float(CleanNumber(cells[1].text))];
        }
      } else {
        var transToday := cells[1].text;
        var valueToday := cells[2].text;
        var fields := SalesLabel(labelText);
        if fields.Some? {
          ApplyPair(data, (SalesItem(fields.value.0), Int(CleanInt(transToday))), (SalesItem(fields.value.1), Float(CleanNumber(valueToday))));
          data := data[SalesItem(fields.value.0) := Int(CleanInt(transToday))];
          data := data[SalesItem(fields.value.1) := Float(CleanNumber(valueToday))];
        }
      }
    }
  }

  /** The Cash-up reconciliation loop. */
  method WalkCashUp(rows: seq<Row>, data0: Record) returns (data: Record)
    ensures data == Apply(data0, RowsWrites(CashUp, Seeking, Views(CashUp, rows), 0))
  {
    ghost var views := Views(CashUp, rows);
    data := data0;
    var i := 0;
    while i < |rows|
      invariant 0 <= i <= |rows|
      invariant Apply(data, RowsWrites(CashUp, Seeking, views[i..], i)) == Apply(data0, RowsWrites(CashUp, Seeking, views, 0))
    {
      RowsWritesStep(CashUp, Seeking, views, i, data);
      data := ReadCashUpRow(rows[i], data);
      i := i + 1;
    }
  }

  /** The body of the Cash-up loop for one row. */
  method ReadCashUpRow(cells: Row, data0: Record) returns (data: Record)
    ensures data == Apply(data0, CashUpRowWrites(cells))
  {
    data := data0;
    if |cells| >= 3 {
      var labelText := Lower(cells[0].text);
      var valueToday := cells[2].text;
      var field := CashUpLabel(labelText);
      if field.Some? {
        ApplySingle(data, (CashUpItem(field.value), Float(CleanNumber(valueToday))));
        data := data[CashUpItem(field.value) := Float(CleanNumber(valueToday))];
      }
    }
  }

  /** The Stock Trading loop: nothing is read until the column header row,
      which is itself skipped. */
  method WalkStockTrading(rows: seq<Row>, data0: Record) returns (data: Record)
    ensures data == Apply(data0, RowsWrites(StockTrading, Seeking, Views(StockTrading, rows), 0))
  {
    ghost var views := Views(StockTrading, rows);
    data := data0;
    var headerSkipped := false;
    var i := 0;
    while i < |rows|
      invariant 0 <= i <= |rows|
      invariant Apply(data, RowsWrites(StockTrading, if headerSkipped then Unlocked else Seeking, views[i..], i))
        == Apply(data0, RowsWrites(StockTrading, Seeking, views, 0))
    {
      var cells := rows[i];
      RowsWritesStep(StockTrading, if headerSkipped then Unlocked else Seeking, views, i, data);
      if cells == [] {
      } else if !headerSkipped {
        if HeaderTexts(cells) == ExpectedHeader {
          headerSkipped := true;
        }
      } else {
        data := ReadStockRow(cells, data);
      }
      i := i + 1;
    }
  }

  /** The body of the Stock Trading loop for a row after the header. */
  method ReadStockRow(cells: Row, data0: Record) returns (data: Record)
    ensures data == Apply(data0, StockDataWrites(cells))
  {
    data := data0;
    if |cells| >= 2 {
      var labelText := Lower(cells[0].text);
      var cleanedVal := CleanNumber(cells[1].text);
      var field := StockLabel(labelText);
      if field.Some? {
        ApplySingle(data, (StockItem(field.value), Float(cleanedVal)));
        data := data[StockItem(field.value) := Float(cleanedVal)];
      }
    }
  }

  /** The Dispensary Summary loop: the column header row unlocks the walk
      and is then read like a data row; before it, a first row whose first
      cell has a colspan is passed over like any other row. */
  method WalkDispensary(rows: seq<Row>, data0: Record) returns (data: Record)
    ensures data == Apply(data0, RowsWrites(Dispensary, Seeking, Views(Dispensary, rows), 0))
  {
    ghost var views := Views(Dispensary, rows);
    data := data0;
    var headerSkipped := false;
    var i := 0;
    while i < |rows|
      invariant 0 <= i <= |rows|
      invariant Apply(data, RowsWrites(Dispensary, if headerSkipped then Unlocked else Seeking, views[i..], i))
        == Apply(data0, RowsWrites(Dispensary, Seeking, views, 0))
    {
      var cells := rows[i];
      RowsWritesStep(Dispensary, if headerSkipped then Unlocked else Seeking, views, i, data);
      var skip := cells == [];
      if !skip && !headerSkipped {
        if HeaderTexts(cells) == ExpectedHeader {
          headerSkipped := true;
        }
        skip := !headerSkipped;
      }
      if !skip {
        data := ReadDispensaryRow(cells, data);
      }
      i := i + 1;
    }
  }

  /** The body of the Dispensary loop for a row it reads. */
  method ReadDispensaryRow(cells: Row, data0: Record) returns (data: Record)
    ensures data == Apply(data0, DispensaryDataWrites(cells))
  {
    data := data0;
    if |cells| >= 2 {
      var labelText := Lower(cells[0].text);
      var valueToday := cells[1].text;
      var cleanedVal := CleanNumber(valueToday);
      var field := DispensaryLabel(labelText);
      if field.Some? {
        var v := if field.value == ScriptsDispensedToday then Int(CleanInt(valueToday)) else Float(cleanedVal);
        ApplySingle(data, (DispensaryItem(field.value), v));
        data := data[DispensaryItem(field.value) := v];
      }
    }
  }

  /** The Turnover Summary loop: a first row whose first cell has a colspan
      is passed over before the header test; the column header row unlocks
      the walk and is then read like a data row. */
  method WalkTurnoverSummary(rows: seq<Row>, data0: Record) returns (data: Record)
    ensures data == Apply(data0, RowsWrites(TurnoverSummary, Seeking, Views(TurnoverSummary, rows), 0))
  {
    ghost var views := Views(TurnoverSummary, rows);
    data := data0;
    var headerSkipped := false;
    var i := 0;
    while i < |rows|
      invariant 0 <= i <= |rows|
      invariant Apply(data, RowsWrites(TurnoverSummary, if headerSkipped then Unlocked else Seeking, views[i..], i))
        == Apply(data0, RowsWrites(TurnoverSummary, Seeking, views, 0))
    {
      var cells := rows[i];
      RowsWritesStep(TurnoverSummary, if headerSkipped then Unlocked else Seeking, views, i, data);
      var skip := cells == [];
      if !skip && !headerSkipped {
        if i == 0 && Truthy(cells[0].colspan) {
          skip := true;
        } else {
          if HeaderTexts(cells) == ExpectedHeader {
            headerSkipped := true;
          }
          skip := !headerSkipped;
        }
      }
      if !skip {
        data := ReadTurnoverRow(cells, data);
      }
      i := i + 1;
    }
  }

  /** The body of the Turnover Summary loop for a row it reads. */
  method ReadTurnoverRow(cells: Row, data0: Record) returns (data: Record)
    ensures data == Apply(data0, TurnoverDataWrites(cells))
  {
    data := data0;
    if |cells| >= 2 {
      var labelText := Lower(cells[0].text);
      var cleanedVal := CleanNumber(cells[1].text);
      var field := TurnoverLabel(labelText);
      if field.Some? {
        ApplySingle(data, (TurnoverItem(field.value), Float(cleanedVal)));
        data := data[TurnoverItem(field.value) := Float(cleanedVal)];
      }
    }
  }

  // ---------------------------------------------------------------------
  // The whole extraction

  /** The assignments of a section: those of its loop over the rows of the
      located table, none when the table is not found. */
  function SectionWrites(doc: Document, s: Section): (r: Writes)
    requires WellFormed(doc)
    ensures WritesWithin(r, s)
  {
    match TableOf(doc, Heading(s))
    case None => []
    case Some(t) =>
      var vs := Views(s, doc[t].rows);
      RowsWithin(s, Seeking, vs, 0);
      RowsWrites(s, Seeking, vs, 0)
  }

  /** parse_html_daily as a value: the defaults, then the five sections in
      order. */
  function ParseSpec(doc: Document): Record
    requires WellFormed(doc)
  {
    var d1 := Apply(Defaults(), SectionWrites(doc, SalesSummary));
    var d2 := Apply(d1, SectionWrites(doc, CashUp));
    var d3 := Apply(d2, SectionWrites(doc, StockTrading));
    var d4 := Apply(d3, SectionWrites(doc, Dispensary));
    Apply(d4, SectionWrites(doc, TurnoverSummary))
  }

  /** parse_html_daily on a parsed document. */
  method ParseHtmlDaily(doc: Document) returns (data: Record)
    requires WellFormed(doc)
    ensures data == ParseSpec(doc)
    ensures data.Keys == AllFields
  {
    data := Defaults();
    data := RunSection(doc, SalesSummary, data);
    data := RunSection(doc, CashUp, data);
    data := RunSection(doc, StockTrading, data);
    data := RunSection(doc, Dispensary, data);
    data := RunSection(doc, TurnoverSummary, data);
    ParseComplete(doc);
  }

  /** One section of parse_html_daily: locate its table by its heading and,
      when there is one, walk its rows. */
  method RunSection(doc: Document, s: Section, data0: Record) returns (data: Record)
    requires WellFormed(doc)
    ensures data == Apply(data0, SectionWrites(doc, s))
  {
    data := data0;
    var table := FindTableByHeader(doc, Heading(s));
    if table.Some? {
      var rows := doc[table.value].rows;
      match s {
        case SalesSummary => data := WalkSalesSummary(rows, data);
        case CashUp => data := WalkCashUp(rows, data);
        case StockTrading => data := WalkStockTrading(rows, data);
        case Dispensary => data := WalkDispensary(rows, data);
        case TurnoverSummary => data := WalkTurnoverSummary(rows, data);
      }
    }
    SectionApplied(doc, s, data0, table, data);
  }

  /** Running a section's walk on the located table, or skipping it when
      there is none, applies that section's assignments. */
  lemma SectionApplied(doc: Document, s: Section, before: Record, t: Option<nat>, after: Record)
    requires WellFormed(doc)
    requires t == TableOf(doc, Heading(s))
    requires t.None? ==> after == before
    requires t.Some? ==> after == Apply(before, RowsWrites(s, Seeking, Views(s, doc[t.value].rows), 0))
    ensures after == Apply(before, SectionWrites(doc, s))
  {
  }

  /** The result always has exactly the default keys. */
  lemma ParseComplete(doc: Document)
    requires WellFormed(doc)
    ensures Complete(ParseSpec(doc))
    ensures ParseSpec(doc).Keys == AllFields
  {
    var d0 := Defaults();
    ApplyConfined(d0, SectionWrites(doc, SalesSummary), SalesSummary);
    var d1 := Apply(d0, SectionWrites(doc, SalesSummary));
    ApplyConfined(d1, SectionWrites(doc, CashUp), CashUp);
    var d2 := Apply(d1, SectionWrites(doc, CashUp));
    ApplyConfined(d2, SectionWrites(doc, StockTrading), StockTrading);
    var d3 := Apply(d2, SectionWrites(doc, StockTrading));
    ApplyConfined(d3, SectionWrites(doc, Dispensary), Dispensary);
    var d4 := Apply(d3, SectionWrites(doc, Dispensary));
    ApplyConfined(d4, SectionWrites(doc, TurnoverSummary), TurnoverSummary);
    CompleteKeys(ParseSpec(doc));
  }

  /** A field's final value is decided by its own section alone: it is what
      that section's assignments alone make of the defaults. */
  lemma SectionIsolation(doc: Document, f: Field)
    requires WellFormed(doc)
    ensures f in ParseSpec(doc) && f in Apply(Defaults(), SectionWrites(doc, SectionOf(f)))
    ensures ParseSpec(doc)[f] == Apply(Defaults(), SectionWrites(doc, SectionOf(f)))[f]
  {
    var s := SectionOf(f);
    var d0 := Defaults();
    var w1, w2, w3, w4, w5 := SectionWrites(doc, SalesSummary), SectionWrites(doc, CashUp),
      SectionWrites(doc, StockTrading), SectionWrites(doc, Dispensary), SectionWrites(doc, TurnoverSummary);
    ApplyConfined(d0, w1, SalesSummary);
    var d1 := Apply(d0, w1);
    ApplyConfined(d1, w2, CashUp);
    var d2 := Apply(d1, w2);
    ApplyConfined(d2, w3, StockTrading);
    var d3 := Apply(d2, w3);
    ApplyConfined(d3, w4, Dispensary);
    var d4 := Apply(d3, w4);
    ApplyConfined(d4, w5, TurnoverSummary);
    var own := SectionWrites(doc, s);
    ApplyConfined(d0, own, s);
    match s
    case SalesSummary => ApplyAgrees(d0, d0, w1, f);
    case CashUp => ApplyAgrees(d1, d0, w2, f);
    case StockTrading => ApplyAgrees(d2, d0, w3, f);
    case Dispensary => ApplyAgrees(d3, d0, w4, f);
    case TurnoverSummary => ApplyAgrees(d4, d0, w5, f);
  }

  /** Last write wins: a field ends with the value of the last assignment
      to it in its section's walk, and keeps its default when there is
      none. */
  lemma LastWriteWins(doc: Document, f: Field)
    requires WellFormed(doc)
    ensures f in ParseSpec(doc)
    ensures ParseSpec(doc)[f] ==
      match LastWrite(SectionWrites(doc, SectionOf(f)), f)
      case Some(v) => v
      case None => Default(f)
  {
    SectionIsolation(doc, f);
    ApplyLastWrite(Defaults(), SectionWrites(doc, SectionOf(f)), f);
  }

  /** A section whose heading is not found leaves exactly its own fields at
      their defaults. */
  lemma MissingSection(doc: Document, f: Field)
    requires WellFormed(doc)
    requires TableOf(doc, Heading(SectionOf(f))).None?
    ensures f in ParseSpec(doc) && ParseSpec(doc)[f] == Default(f)
  {
    LastWriteWins(doc, f);
  }

  // ---------------------------------------------------------------------
  // The header gate

  /** The sections whose walk waits for the column header row. */
  predicate Gated(s: Section) {
    s == StockTrading || s == Dispensary || s == TurnoverSummary
  }

  /** The rows of a + b are seen as those of a followed by those of b. */
  lemma ViewsAppend(s: Section, a: seq<Row>, b: seq<Row>)
    ensures Views(s, a + b) == Views(s, a) + Views(s, b)
  {
    assert forall k :: 0 <= k < |a| ==> (a + b)[k] == a[k];
    assert forall k :: |a| <= k < |a| + |b| ==> (a + b)[k] == b[k - |a|];
  }

  /** A walk over a + b is the walk over a followed by the walk over b,
      continued in the phase a leaves and at the row number after a. */
  lemma RowsWritesAppend(s: Section, phase: Phase, a: seq<RowView>, b: seq<RowView>, idx: nat)
    ensures RowsWrites(s, phase, a + b, idx)
      == RowsWrites(s, phase, a, idx) + RowsWrites(s, PhaseAfter(s, phase, a, idx), b, idx + |a|)
  {
    RowsAsWalk(s, phase, a + b, idx);
    RowsAsWalk(s, phase, a, idx);
    RowsAsWalk(s, PhaseAfter(s, phase, a, idx), b, idx + |a|);
    WalkAppend(StepOf(s), phase, a, b, idx);
  }

  /** A walk driven by any step function: the assignments, and the phase
      it ends in. */
  function WalkWrites(step: (Phase, nat, RowView) -> (Phase, Writes), phase: Phase, views: seq<RowView>, idx: nat): Writes
    decreases |views|
  {
    if views == [] then []
    else step(phase, idx, views[0]).1 + WalkWrites(step, step(phase, idx, views[0]).0, views[1..], idx + 1)
  }

  function WalkPhase(step: (Phase, nat, RowView) -> (Phase, Writes), phase: Phase, views: seq<RowView>, idx: nat): Phase
    decreases |views|
  {
    if views == [] then phase
    else WalkPhase(step, step(phase, idx, views[0]).0, views[1..], idx + 1)
  }

  function StepOf(s: Section): (Phase, nat, RowView) -> (Phase, Writes) {
    (p: Phase, i: nat, v: RowView) => Step(s, p, i, v)
  }

  /** A section's walk is the walk driven by its Step. */
  lemma {:induction false} RowsAsWalk(s: Section, phase: Phase, views: seq<RowView>, idx: nat)
    ensures RowsWrites(s, phase, views, idx) == WalkWrites(StepOf(s), phase, views, idx)
    ensures PhaseAfter(s, phase, views, idx) == WalkPhase(StepOf(s), phase, views, idx)
    decreases |views|
  {
    if views != [] {
      var st := Step(s, phase, idx, views[0]);
      assert StepOf(s)(phase, idx, views[0]) == st;
      RowsAsWalk(s, st.0, views[1..], idx + 1);
    }
  }

  /** A walk over a + b, for any step function, is the walk over a followed
      by the walk over b. */
  lemma {:induction false} WalkAppend(step: (Phase, nat, RowView) -> (Phase, Writes), phase: Phase, a: seq<RowView>, b: seq<RowView>, idx: nat)
    ensures WalkWrites(step, phase, a + b, idx)
      == WalkWrites(step, phase, a, idx) + WalkWrites(step, WalkPhase(step, phase, a, idx), b, idx + |a|)
    decreases |a|
  {
    if a == [] {
      assert a + b == b;
    } else {
      var st := step(phase, idx, a[0]);
      assert (a + b)[0] == a[0];
      assert (a + b)[1..] == a[1..] + b;
      WalkAppend(step, st.0, a[1..], b, idx + 1);
      Regroup(WalkWrites(step, phase, a + b, idx), WalkWrites(step, phase, a, idx), st.1,
        WalkWrites(step, st.0, a[1..], idx + 1), WalkWrites(step, WalkPhase(step, phase, a, idx), b, idx + |a|));
    }
  }

  /** One row of a walk: its step, then the walk over the rest. */
  lemma RowsUnfold(s: Section, phase: Phase, a: seq<RowView>, idx: nat)
    requires a != []
    ensures RowsWrites(s, phase, a, idx)
      == Step(s, phase, idx, a[0]).1 + RowsWrites(s, Step(s, phase, idx, a[0]).0, a[1..], idx + 1)
    ensures PhaseAfter(s, phase, a, idx) == PhaseAfter(s, Step(s, phase, idx, a[0]).0, a[1..], idx + 1)
  {
  }

  lemma Regroup(ab: Writes, a: Writes, h: Writes, x: Writes, y: Writes)
    requires ab == h + (x + y) && a == h + x
    ensures ab == a + y
  {
  }

  /** Until a header row comes, a gated walk assigns nothing and stays
      seeking. */
  lemma {:induction false} NoHeaderNoWrites(s: Section, views: seq<RowView>, idx: nat)
    requires Gated(s)
    requires forall k :: 0 <= k < |views| ==> !views[k].header
    ensures RowsWrites(s, Seeking, views, idx) == []
    ensures PhaseAfter(s, Seeking, views, idx) == Seeking
    decreases |views|
  {
    if views != [] {
      assert !views[0].header;
      NoHeaderNoWrites(s, views[1..], idx + 1);
    }
  }

  /** Read as data, the header row assigns nothing in the two sections
      that read it: "description" is neither a Dispensary nor a Turnover
      Summary label. */
  lemma HeaderRowNotData(s: Section, cells: Row)
    requires s == Dispensary || s == TurnoverSummary
    requires IsHeaderRow(cells)
    ensures RowData(s, cells) == []
  {
    HeaderRowCells(cells);
    DescriptionNoLabel();
  }

  lemma DescriptionNoLabel()
    ensures DispensaryLabel("description") == None && TurnoverLabel("description") == None
  {
  }

  /** A row without cells is passed over, and so, after the header, is a
      row of one cell. */
  lemma ShortRowSkipped(s: Section, phase: Phase, idx: nat, cells: Row)
    requires Gated(s) && (cells == [] || (phase == Unlocked && |cells| < 2))
    ensures Step(s, phase, idx, View(s, cells)) == (phase, [])
  {
  }

  /** The gate: with no header row before the header row h, the rows up to
      and including h assign nothing, and the rows after h are read as
      data from the start; the Turnover Summary title row excepted. */
  lemma GateOpensAtHeader(s: Section, pre: seq<RowView>, h: RowView, post: seq<RowView>)
    requires Gated(s)
    requires forall k :: 0 <= k < |pre| ==> !pre[k].header
    requires h.header && !h.empty && (s != StockTrading ==> h.data == [])
    requires s == TurnoverSummary && pre == [] ==> !h.titled
    ensures RowsWrites(s, Seeking, pre + [h] + post, 0) == RowsWrites(s, Unlocked, post, |pre| + 1)
  {
    var ph := pre + [h];
    HeaderPrefix(s, pre, h);
    RowsWritesAppend(s, Seeking, ph, post, 0);
    DropEmpty(RowsWrites(s, Seeking, ph, 0), RowsWrites(s, Unlocked, post, |pre| + 1));
  }

  /** The rows up to and including the first header row assign nothing and
      leave the walk unlocked. */
  lemma HeaderPrefix(s: Section, pre: seq<RowView>, h: RowView)
    requires Gated(s)
    requires forall k :: 0 <= k < |pre| ==> !pre[k].header
    requires h.header && !h.empty && (s != StockTrading ==> h.data == [])
    requires s == TurnoverSummary && pre == [] ==> !h.titled
    ensures RowsWrites(s, Seeking, pre + [h], 0) == []
    ensures PhaseAfter(s, Seeking, pre + [h], 0) == Unlocked
  {
    NoHeaderNoWrites(s, pre, 0);
    HeaderStep(s, |pre|, [h]);
    HeaderPrefixWrites(s, pre, h);
    PhaseAfterAppend(s, Seeking, pre, [h], 0);
  }

  lemma HeaderPrefixWrites(s: Section, pre: seq<RowView>, h: RowView)
    requires RowsWrites(s, Seeking, pre, 0) == [] && PhaseAfter(s, Seeking, pre, 0) == Seeking
    requires RowsWrites(s, Seeking, [h], |pre|) == []
    ensures RowsWrites(s, Seeking, pre + [h], 0) == []
  {
    RowsWritesAppend(s, Seeking, pre, [h], 0);
    DropEmpty(RowsWrites(s, Seeking, pre, 0), RowsWrites(s, Seeking, [h], |pre|));
  }

  lemma DropEmpty(x: Writes, y: Writes)
    requires x == []
    ensures x + y == y
  {
  }

  /** What the walk sees of the header row: not empty, the header, and
      nothing to assign. */
  lemma HeaderRowView(s: Section, cells: Row)
    requires Gated(s) && IsHeaderRow(cells)
    ensures View(s, cells).header && !View(s, cells).empty
    ensures s != StockTrading ==> View(s, cells).data == []
  {
    HeaderRowCells(cells);
    if s != StockTrading {
      HeaderRowNotData(s, cells);
    }
  }

  lemma HeaderStep(s: Section, idx: nat, vh: seq<RowView>)
    requires Gated(s) && |vh| == 1 && vh[0].header && !vh[0].empty && (s != StockTrading ==> vh[0].data == [])
    requires s == TurnoverSummary && idx == 0 ==> !vh[0].titled
    ensures RowsWrites(s, Seeking, vh, idx) == []
    ensures PhaseAfter(s, Seeking, vh, idx) == Unlocked
  {
    assert vh[1..] == [];
  }

  /** The phase after a + b is the phase b leaves when started in the
      phase a leaves. */
  lemma {:induction false} PhaseAfterAppend(s: Section, phase: Phase, a: seq<RowView>, b: seq<RowView>, idx: nat)
    ensures PhaseAfter(s, phase, a + b, idx) == PhaseAfter(s, PhaseAfter(s, phase, a, idx), b, idx + |a|)
    decreases |a|
  {
    if a == [] {
      assert a + b == b;
    } else {
      assert (a + b)[0] == a[0];
      assert (a + b)[1..] == a[1..] + b;
      PhaseAfterAppend(s, Step(s, phase, idx, a[0]).0, a[1..], b, idx + 1);
    }
  }

  /** The Turnover Summary title row: a first row whose first cell has a
      truthy colspan is passed over even when it reads like the header. */
  lemma TurnoverTitleRowSkipped(rows: seq<Row>)
    requires |rows| > 0 && |rows[0]| > 0 && Truthy(rows[0][0].colspan)
    ensures RowsWrites(TurnoverSummary, Seeking, Views(TurnoverSummary, rows), 0)
      == RowsWrites(TurnoverSummary, Seeking, Views(TurnoverSummary, rows[1..]), 1)
  {
    var vs := Views(TurnoverSummary, rows);
    assert vs[1..] == Views(TurnoverSummary, rows[1..]);
  }

  /** A later row overwrites an earlier one: the last assignment to f in a
      walk over the rows a + b is b's when b assigns f, and a's otherwise. */
  lemma LaterRowOverwrites(s: Section, phase: Phase, a: seq<RowView>, b: seq<RowView>, idx: nat, f: Field)
    ensures var wa := RowsWrites(s, phase, a, idx);
      var wb := RowsWrites(s, PhaseAfter(s, phase, a, idx), b, idx + |a|);
      LastWrite(RowsWrites(s, phase, a + b, idx), f)
        == if LastWrite(wb, f).Some? then LastWrite(wb, f) else LastWrite(wa, f)
  {
    RowsWritesAppend(s, phase, a, b, idx);
    LastWriteAppend(RowsWrites(s, phase, a, idx), RowsWrites(s, PhaseAfter(s, phase, a, idx), b, idx + |a|), f);
  }

  // ---------------------------------------------------------------------
  // The type of each value

  /** The type an assigned value has: an int, never negative, for the
      transaction counts and the number of scripts, a float otherwise. */
  predicate WriteShape(f: Field, v: Num) {
    if IsCount(f) || f == DispensaryItem(ScriptsDispensedToday) then v.Int? && v.i >= 0 else v.Float?
  }

  predicate WritesShaped(ws: Writes) {
    forall i :: 0 <= i < |ws| ==> WriteShape(ws[i].0, ws[i].1)
  }

  /** Every row assigns values of its fields' types. */
  lemma RowDataShaped(s: Section, cells: Row)
    ensures WritesShaped(RowData(s, cells))
  {
    match s
    case SalesSummary => SalesRowShaped(cells);
    case CashUp => CashUpRowShaped(cells);
    case StockTrading => StockDataShaped(cells);
    case Dispensary => DispensaryDataShaped(cells);
    case TurnoverSummary => TurnoverDataShaped(cells);
  }

  lemma SalesRowShaped(cells: Row)
    ensures WritesShaped(SalesRowWrites(cells))
  {
    if |cells| >= 3 && !Contains(Label(cells), ItemsPerBasket) && !Contains(Label(cells), ValuePerBasket) {
      var fs := SalesLabel(Label(cells));
      if fs.Some? {
        assert IsTransCount(fs.value.0) && !IsTransCount(fs.value.1);
      }
    }
  }

  lemma CashUpRowShaped(cells: Row)
    ensures WritesShaped(CashUpRowWrites(cells))
  {
  }

  lemma StockDataShaped(cells: Row)
    ensures WritesShaped(StockDataWrites(cells))
  {
  }

  lemma DispensaryDataShaped(cells: Row)
    ensures WritesShaped(DispensaryDataWrites(cells))
  {
  }

  lemma TurnoverDataShaped(cells: Row)
    ensures WritesShaped(TurnoverDataWrites(cells))
  {
  }

  lemma {:induction false} RowsShaped(s: Section, phase: Phase, views: seq<RowView>, idx: nat)
    requires forall k :: 0 <= k < |views| ==> WritesShaped(views[k].data)
    ensures WritesShaped(RowsWrites(s, phase, views, idx))
    decreases |views|
  {
    if views != [] {
      var st := Step(s, phase, idx, views[0]);
      assert WritesShaped(views[0].data);
      assert WritesShaped(st.1);
      RowsShaped(s, st.0, views[1..], idx + 1);
      var rest := RowsWrites(s, st.0, views[1..], idx + 1);
      var w := st.1 + rest;
      assert forall i :: |st.1| <= i < |w| ==> w[i] == rest[i - |st.1|];
    }
  }

  lemma {:induction false} LastWriteShaped(ws: Writes, f: Field)
    requires WritesShaped(ws)
    ensures LastWrite(ws, f).Some? ==> WriteShape(f, LastWrite(ws, f).value)
    decreases |ws|
  {
    if ws != [] {
      assert WritesShaped(ws[1..]) by {
        forall i | 0 <= i < |ws[1..]| ensures WriteShape(ws[1..][i].0, ws[1..][i].1) {
          assert ws[1..][i] == ws[i + 1];
        }
      }
      LastWriteShaped(ws[1..], f);
      assert WriteShape(ws[0].0, ws[0].1);
    }
  }

  /** The result's types: transaction counts are ints and never negative,
      the number of scripts is the float default or a non-negative int,
      every other field is a float. */
  lemma ParseShaped(doc: Document, f: Field)
    requires WellFormed(doc)
    ensures f in ParseSpec(doc)
    ensures var v := ParseSpec(doc)[f];
      && (IsCount(f) ==> v.Int? && v.i >= 0)
      && (f == DispensaryItem(ScriptsDispensedToday) ==> v == Float(0.0) || (v.Int? && v.i >= 0))
      && (!IsCount(f) && f != DispensaryItem(ScriptsDispensedToday) ==> v.Float?)
  {
    LastWriteWins(doc, f);
    var s := SectionOf(f);
    match TableOf(doc, Heading(s))
    case None =>
    case Some(t) =>
      var vs := Views(s, doc[t].rows);
      forall k | 0 <= k < |vs| ensures WritesShaped(vs[k].data) {
        RowDataShaped(s, doc[t].rows[k]);
      }
      RowsShaped(s, Seeking, vs, 0);
      LastWriteShaped(SectionWrites(doc, s), f);
  }
}

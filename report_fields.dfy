/** The canonical daily report: the fields of the dictionary the HTML
    extractor starts from, grouped by the report section that fills them,
    with their default values, and the ordered field assignments through
    which the section loops change it. */
module ReportFields {
  import opened Wrappers

  /** A Python number stored in the record: an int or a float (a float is an
      exact real here). */
  datatype Num = Int(i: int) | Float(f: real)

  /** The five report sections, each anchored by its heading. */
  datatype Section = SalesSummary | CashUp | StockTrading | Dispensary | TurnoverSummary

  /** The fields each section fills, one type per section. */
  datatype SalesField =
    | CashSalesToday | CashSalesTransToday | CodPaymentsToday | CodPaymentsTransToday
    | ReceiptOnAccountToday | ReceiptOnAccountTransToday | SubtotalToday | SubtotalTransToday
    | PaidOutsToday | PaidOutsTransToday | CashRefundsToday | CashRefundsTransToday
    | SalesTotalToday | SalesTotalTransToday | AccountSalesToday | AccountSalesTransToday
    | CodSalesToday | CodSalesTransToday | AccountRefundsToday | AccountRefundsTransToday
    | PosTurnoverToday | PosTurnoverTransToday | AvgItemsPerBasket | AvgValuePerBasket

  datatype CashUpField =
    | CashTendersToday | CreditCardTendersToday | TotalBankedToday

  datatype StockField =
    | StockSalesToday | StockPurchasesToday | StockAdjustmentsToday | CostOfSalesToday
    | StockGrossProfitToday | StockGrossProfitPercentToday | OpeningStockToday | ClosingStockToday

  datatype DispensaryField =
    | DispensaryTurnoverToday | ScriptsDispensedToday | AvgScriptValueToday | AvgItemsPerScriptToday
    | AvgItemGrossValueToday | OutstandingLeviesToday

  datatype TurnoverField =
    | RetailSalesToday | TypeRSalesToday | CapitationSalesToday | TotalTurnoverToday

  /** A field of the record: a field of one of the sections. */
  datatype Field =
    | SalesItem(sales: SalesField)
    | CashUpItem(cashUp: CashUpField)
    | StockItem(stock: StockField)
    | DispensaryItem(dispensary: DispensaryField)
    | TurnoverItem(turnover: TurnoverField)

  /** The section whose table fills a field. */
  function SectionOf(f: Field): Section {
    match f
    case SalesItem(_) => SalesSummary
    case CashUpItem(_) => CashUp
    case StockItem(_) => StockTrading
    case DispensaryItem(_) => Dispensary
    case TurnoverItem(_) => TurnoverSummary
  }

  /** The transaction counts of Sales Summary. */
  predicate IsTransCount(f: SalesField) {
    || f == CashSalesTransToday || f == CodPaymentsTransToday || f == ReceiptOnAccountTransToday
    || f == SubtotalTransToday || f == PaidOutsTransToday || f == CashRefundsTransToday
    || f == SalesTotalTransToday || f == AccountSalesTransToday || f == CodSalesTransToday
    || f == AccountRefundsTransToday || f == PosTurnoverTransToday
  }

  /** The fields whose default is the int 0: the transaction counts. */
  predicate IsCount(f: Field) {
    f.SalesItem? && IsTransCount(f.sales)
  }

  function Default(f: Field): Num {
    if IsCount(f) then Int(0) else Float(0.0)
  }

  /** The dictionary key of a field. */
  function Key(f: Field): string {
    match f
    case SalesItem(x) => SalesKey(x)
    case CashUpItem(x) => CashUpKey(x)
    case StockItem(x) => StockKey(x)
    case DispensaryItem(x) => DispensaryKey(x)
    case TurnoverItem(x) => TurnoverKey(x)
  }

  function SalesKey(f: SalesField): string {
    match f
    case CashSalesToday => "cash_sales_today"
    case CashSalesTransToday => "cash_sales_trans_today"
    case CodPaymentsToday => "cod_payments_today"
    case CodPaymentsTransToday => "cod_payments_trans_today"
    case ReceiptOnAccountToday => "receipt_on_account_today"
    case ReceiptOnAccountTransToday => "receipt_on_account_trans_today"
    case SubtotalToday => "subtotal_today"
    case SubtotalTransToday => "subtotal_trans_today"
    case PaidOutsToday => "paid_outs_today"
    case PaidOutsTransToday => "paid_outs_trans_today"
    case CashRefundsToday => "cash_refunds_today"
    case CashRefundsTransToday => "cash_refunds_trans_today"
    case SalesTotalToday => "sales_total_today"
    case SalesTotalTransToday => "sales_total_trans_today"
    case AccountSalesToday => "account_sales_today"
    case AccountSalesTransToday => "account_sales_trans_today"
    case CodSalesToday => "cod_sales_today"
    case CodSalesTransToday => "cod_sales_trans_today"
    case AccountRefundsToday => "account_refunds_today"
    case AccountRefundsTransToday => "account_refunds_trans_today"
    case PosTurnoverToday => "pos_turnover_today"
    case PosTurnoverTransToday => "pos_turnover_trans_today"
    case AvgItemsPerBasket => "avg_items_per_basket"
    case AvgValuePerBasket => "avg_value_per_basket"
  }

  function CashUpKey(f: CashUpField): string {
    match f
    case CashTendersToday => "cash_tenders_today"
    case CreditCardTendersToday => "credit_card_tenders_today"
    case TotalBankedToday => "total_banked_today"
  }

  function StockKey(f: StockField): string {
    match f
    case StockSalesToday => "stock_sales_today"
    case StockPurchasesToday => "stock_purchases_today"
    case StockAdjustmentsToday => "stock_adjustments_today"
    case CostOfSalesToday => "cost_of_sales_today"
    case StockGrossProfitToday => "stock_gross_profit_today"
    case StockGrossProfitPercentToday => "stock_gross_profit_percent_today"
    case OpeningStockToday => "opening_stock_today"
    case ClosingStockToday => "closing_stock_today"
  }

  function DispensaryKey(f: DispensaryField): string {
    match f
    case DispensaryTurnoverToday => "dispensary_turnover_today"
    case ScriptsDispensedToday => "scripts_dispensed_today"
    case AvgScriptValueToday => "avg_script_value_today"
    case AvgItemsPerScriptToday => "avg_items_per_script_today"
    case AvgItemGrossValueToday => "avg_item_gross_value_today"
    case OutstandingLeviesToday => "outstanding_levies_today"
  }

  function TurnoverKey(f: TurnoverField): string {
    match f
    case RetailSalesToday => "retail_sales_today"
    case TypeRSalesToday => "type_r_sales_today"
    case CapitationSalesToday => "capitation_sales_today"
    case TotalTurnoverToday => "total_turnover_today"
  }

  /** The 45 fields. */
  const AllFields: set<Field> := {
    SalesItem(CashSalesToday), SalesItem(CashSalesTransToday), SalesItem(CodPaymentsToday), SalesItem(CodPaymentsTransToday),
    SalesItem(ReceiptOnAccountToday), SalesItem(ReceiptOnAccountTransToday), SalesItem(SubtotalToday), SalesItem(SubtotalTransToday),
    SalesItem(PaidOutsToday), SalesItem(PaidOutsTransToday), SalesItem(CashRefundsToday), SalesItem(CashRefundsTransToday),
    SalesItem(SalesTotalToday), SalesItem(SalesTotalTransToday), SalesItem(AccountSalesToday), SalesItem(AccountSalesTransToday),
    SalesItem(CodSalesToday), SalesItem(CodSalesTransToday), SalesItem(AccountRefundsToday), SalesItem(AccountRefundsTransToday),
    SalesItem(PosTurnoverToday), SalesItem(PosTurnoverTransToday), SalesItem(AvgItemsPerBasket), SalesItem(AvgValuePerBasket),
    CashUpItem(CashTendersToday), CashUpItem(CreditCardTendersToday), CashUpItem(TotalBankedToday), StockItem(StockSalesToday),
    StockItem(StockPurchasesToday), StockItem(StockAdjustmentsToday), StockItem(CostOfSalesToday), StockItem(StockGrossProfitToday),
    StockItem(StockGrossProfitPercentToday), StockItem(OpeningStockToday), StockItem(ClosingStockToday), DispensaryItem(DispensaryTurnoverToday),
    DispensaryItem(ScriptsDispensedToday), DispensaryItem(AvgScriptValueToday), DispensaryItem(AvgItemsPerScriptToday), DispensaryItem(AvgItemGrossValueToday),
    DispensaryItem(OutstandingLeviesToday), TurnoverItem(RetailSalesToday), TurnoverItem(TypeRSalesToday), TurnoverItem(CapitationSalesToday),
    TurnoverItem(TotalTurnoverToday)
  }

  /** Every field is one of the 45. */
  lemma AllFieldsComplete(f: Field)
    ensures f in AllFields
  {
    match f {
      case SalesItem(x) =>
        match x {
          case CashSalesToday => assert SalesItem(CashSalesToday) in AllFields;
          case CashSalesTransToday => assert SalesItem(CashSalesTransToday) in AllFields;
          case CodPaymentsToday => assert SalesItem(CodPaymentsToday) in AllFields;
          case CodPaymentsTransToday => assert SalesItem(CodPaymentsTransToday) in AllFields;
          case ReceiptOnAccountToday => assert SalesItem(ReceiptOnAccountToday) in AllFields;
          case ReceiptOnAccountTransToday => assert SalesItem(ReceiptOnAccountTransToday) in AllFields;
          case SubtotalToday => assert SalesItem(SubtotalToday) in AllFields;
          case SubtotalTransToday => assert SalesItem(SubtotalTransToday) in AllFields;
          case PaidOutsToday => assert SalesItem(PaidOutsToday) in AllFields;
          case PaidOutsTransToday => assert SalesItem(PaidOutsTransToday) in AllFields;
          case CashRefundsToday => assert SalesItem(CashRefundsToday) in AllFields;
          case CashRefundsTransToday => assert SalesItem(CashRefundsTransToday) in AllFields;
          case SalesTotalToday => assert SalesItem(SalesTotalToday) in AllFields;
          case SalesTotalTransToday => assert SalesItem(SalesTotalTransToday) in AllFields;
          case AccountSalesToday => assert SalesItem(AccountSalesToday) in AllFields;
          case AccountSalesTransToday => assert SalesItem(AccountSalesTransToday) in AllFields;
          case CodSalesToday => assert SalesItem(CodSalesToday) in AllFields;
          case CodSalesTransToday => assert SalesItem(CodSalesTransToday) in AllFields;
          case AccountRefundsToday => assert SalesItem(AccountRefundsToday) in AllFields;
          case AccountRefundsTransToday => assert SalesItem(AccountRefundsTransToday) in AllFields;
          case PosTurnoverToday => assert SalesItem(PosTurnoverToday) in AllFields;
          case PosTurnoverTransToday => assert SalesItem(PosTurnoverTransToday) in AllFields;
          case AvgItemsPerBasket => assert SalesItem(AvgItemsPerBasket) in AllFields;
          case AvgValuePerBasket => assert SalesItem(AvgValuePerBasket) in AllFields;
        }
      case CashUpItem(x) =>
        match x {
          case CashTendersToday => assert CashUpItem(CashTendersToday) in AllFields;
          case CreditCardTendersToday => assert CashUpItem(CreditCardTendersToday) in AllFields;
          case TotalBankedToday => assert CashUpItem(TotalBankedToday) in AllFields;
        }
      case StockItem(x) =>
        match x {
          case StockSalesToday => assert StockItem(StockSalesToday) in AllFields;
          case StockPurchasesToday => assert StockItem(StockPurchasesToday) in AllFields;
          case StockAdjustmentsToday => assert StockItem(StockAdjustmentsToday) in AllFields;
          case CostOfSalesToday => assert StockItem(CostOfSalesToday) in AllFields;
          case StockGrossProfitToday => assert StockItem(StockGrossProfitToday) in AllFields;
          case StockGrossProfitPercentToday => assert StockItem(StockGrossProfitPercentToday) in AllFields;
          case OpeningStockToday => assert StockItem(OpeningStockToday) in AllFields;
          case ClosingStockToday => assert StockItem(ClosingStockToday) in AllFields;
        }
      case DispensaryItem(x) =>
        match x {
          case DispensaryTurnoverToday => assert DispensaryItem(DispensaryTurnoverToday) in AllFields;
          case ScriptsDispensedToday => assert DispensaryItem(ScriptsDispensedToday) in AllFields;
          case AvgScriptValueToday => assert DispensaryItem(AvgScriptValueToday) in AllFields;
          case AvgItemsPerScriptToday => assert DispensaryItem(AvgItemsPerScriptToday) in AllFields;
          case AvgItemGrossValueToday => assert DispensaryItem(AvgItemGrossValueToday) in AllFields;
          case OutstandingLeviesToday => assert DispensaryItem(OutstandingLeviesToday) in AllFields;
        }
      case TurnoverItem(x) =>
        match x {
          case RetailSalesToday => assert TurnoverItem(RetailSalesToday) in AllFields;
          case TypeRSalesToday => assert TurnoverItem(TypeRSalesToday) in AllFields;
          case CapitationSalesToday => assert TurnoverItem(CapitationSalesToday) in AllFields;
          case TotalTurnoverToday => assert TurnoverItem(TotalTurnoverToday) in AllFields;
        }
    }
  }

  type Record = map<Field, Num>

  /** A record with an entry for every field. */
  ghost predicate Complete(d: Record) {
    forall f: Field :: f in d
  }

  /** A complete record is one whose keys are exactly the 45 fields. */
  lemma CompleteKeys(d: Record)
    ensures Complete(d) <==> d.Keys == AllFields
  {
    if Complete(d) {
      forall f | f in d.Keys ensures f in AllFields { AllFieldsComplete(f); }
    }
    if d.Keys == AllFields {
      forall f: Field ensures f in d { AllFieldsComplete(f); }
    }
  }

  /** The starting dictionary: every field at its default. */
  function Defaults(): (d: Record)
    ensures Complete(d)
    ensures forall f :: f in d ==> d[f] == Default(f)
  {
    var d := map f | f in AllFields :: Default(f);
    CompleteKeys(d);
    d
  }

  /** The assignments `data[key] = value` a loop performs, in order. */
  type Writes = seq<(Field, Num)>

  /** Perform the assignments in order. */
  function Apply(d: Record, ws: Writes): Record
    decreases |ws|
  {
    if ws == [] then d else Apply(d[ws[0].0 := ws[0].1], ws[1..])
  }

  /** The value of the last assignment to f, if any. */
  function LastWrite(ws: Writes, f: Field): Option<Num> {
    if ws == [] then None
    else
      match LastWrite(ws[1..], f)
      case Some(v) => Some(v)
      case None => if ws[0].0 == f then Some(ws[0].1) else None
  }

  /** The last assignment to f in a + b is the last one in b, or, when b
      has none, the last one in a. */
  lemma {:induction false} LastWriteAppend(a: Writes, b: Writes, f: Field)
    ensures LastWrite(a + b, f) == if LastWrite(b, f).Some? then LastWrite(b, f) else LastWrite(a, f)
    decreases |a|
  {
    if a == [] {
      assert a + b == b;
    } else {
      assert (a + b)[1..] == a[1..] + b;
      LastWriteAppend(a[1..], b, f);
    }
  }

  predicate WritesWithin(ws: Writes, s: Section) {
    forall i :: 0 <= i < |ws| ==> SectionOf(ws[i].0) == s
  }

  /** Each field ends with the value of its last assignment, or keeps its
      value when none assigns it; no key is added beyond those assigned. */
  lemma {:induction false} ApplyLastWrite(d: Record, ws: Writes, f: Field)
    ensures Apply(d, ws).Keys == d.Keys + (set i | 0 <= i < |ws| :: ws[i].0)
    ensures f in Apply(d, ws) <==> f in d || LastWrite(ws, f).Some?
    ensures f in Apply(d, ws) ==>
      Apply(d, ws)[f] == (match LastWrite(ws, f) case Some(v) => v case None => d[f])
    decreases |ws|
  {
    if ws != [] {
      var d' := d[ws[0].0 := ws[0].1];
      ApplyLastWrite(d', ws[1..], f);
      var rest := set i | 0 <= i < |ws[1..]| :: ws[1..][i].0;
      var all := set i | 0 <= i < |ws| :: ws[i].0;
      assert all == {ws[0].0} + rest by {
        forall x | x in all ensures x in {ws[0].0} + rest {
          var i :| 0 <= i < |ws| && ws[i].0 == x;
          if i > 0 { assert ws[1..][i - 1].0 == x; }
        }
        forall x | x in rest ensures x in all {
          var i :| 0 <= i < |ws[1..]| && ws[1..][i].0 == x;
          assert ws[i + 1].0 == x;
        }
      }
    }
  }

  /** One assignment. */
  lemma ApplySingle(d: Record, w: (Field, Num))
    ensures Apply(d, [w]) == d[w.0 := w.1]
  {
    assert [w][1..] == [];
  }

  /** Two assignments. */
  lemma ApplyPair(d: Record, w1: (Field, Num), w2: (Field, Num))
    ensures Apply(d, [w1, w2]) == d[w1.0 := w1.1][w2.0 := w2.1]
  {
    assert [w1, w2][1..] == [w2];
    ApplySingle(d[w1.0 := w1.1], w2);
  }

  lemma {:induction false} ApplyAppend(d: Record, a: Writes, b: Writes)
    ensures Apply(d, a + b) == Apply(Apply(d, a), b)
    decreases |a|
  {
    if a == [] {
      assert a + b == b;
    } else {
      assert (a + b)[1..] == a[1..] + b;
      ApplyAppend(d[a[0].0 := a[0].1], a[1..], b);
    }
  }

  /** Assignments keep a record complete, and assignments confined to one
      section leave every other section's fields as they were. */
  lemma {:induction false} ApplyConfined(d: Record, ws: Writes, s: Section)
    requires WritesWithin(ws, s)
    requires Complete(d)
    ensures Complete(Apply(d, ws))
    ensures forall f :: SectionOf(f) != s ==> Apply(d, ws)[f] == d[f]
    decreases |ws|
  {
    if ws != [] {
      var d' := d[ws[0].0 := ws[0].1];
      assert WritesWithin(ws[1..], s);
      ApplyConfined(d', ws[1..], s);
    }
  }

  /** What a section's assignments leave in that section's fields depends on
      nothing but the assignments and the fields' values before them. */
  lemma {:induction false} ApplyAgrees(d1: Record, d2: Record, ws: Writes, f: Field)
    requires f in d1 && f in d2 && d1[f] == d2[f]
    ensures f in Apply(d1, ws) && f in Apply(d2, ws)
    ensures Apply(d1, ws)[f] == Apply(d2, ws)[f]
    decreases |ws|
  {
    if ws != [] {
      ApplyAgrees(d1[ws[0].0 := ws[0].1], d2[ws[0].0 := ws[0].1], ws[1..], f);
    }
  }
}

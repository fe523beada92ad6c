/**
  What every single row does to the profit report: which of its lines it moves and by how
  much.  Starting from no rows, this says what the report of any tables is.
 */
module ProfitabilityAnswers {
  import opened Prelude
  import opened Profitability
  import opened Workshop

  /* ---- no rows ---- */

  lemma {:induction false} NoWarranty(fs: seq<nat>)
    ensures WarrantyCost([], fs) == 0.0
  {
    if fs != [] { NoWarranty(fs[..|fs| - 1]); }
  }

  /** Without rows the report is zero, whatever lots were allocated. */
  lemma NoRows(allocations: seq<Allocation>, fs: seq<nat>, rate: real)
    ensures ReportOf(Tables([], [], [], [], allocations, [], [], [], [], []), fs, rate) == EMPTY
  {
    NoWarranty(fs);
  }

  /* ---- one more row ---- */

  function Added(line: Row, net: real, cost: real): Row { Row(line.net + net, line.cost + cost) }

  /** A sale: its price, and the cost frozen at the sale, or else the vehicle's, or none. */
  lemma SaleLine(t: Tables, s: VehicleSale, fs: seq<nat>, rate: real)
    ensures
      var before, after := ReportOf(t, fs, rate), ReportOf(t.(sales := t.sales + [s]), fs, rate);
      var cost :=
        if s.snapshot.Some? then s.snapshot.value
        else if s.vehicleCost.Some? then s.vehicleCost.value
        else 0.0;
      if s.filial !in fs then after == before
      else match s.condition
           case New => after == before.(newVehicles := Added(before.newVehicles, s.price, cost))
           case Used => after == before.(usedVehicles := Added(before.usedVehicles, s.price, cost))
           case Other => after == before
  {
    SumInAppend(t.sales, s, fs, SaleFilial, SaleNet(New));
    SumInAppend(t.sales, s, fs, SaleFilial, SaleCost(New));
    SumInAppend(t.sales, s, fs, SaleFilial, SaleNet(Used));
    SumInAppend(t.sales, s, fs, SaleFilial, SaleCost(Used));
    hide SumIn, LineFilial, LineShare, WarrantyCost;
  }

  /** A part sold over the counter: its total, and its quantity at its own cost, or else at the average, or none. */
  lemma CounterLine(t: Tables, l: PartLine, fs: seq<nat>, rate: real)
    ensures
      var before, after := ReportOf(t, fs, rate), ReportOf(t.(parts := t.parts + [l]), fs, rate);
      var each := if l.unitCost.Some? then l.unitCost.value else if l.average.Some? then l.average.value else 0.0;
      after == if l.filial in fs then before.(parts := Added(before.parts, l.total, l.quantity * each)) else before
  {
    SumInAppend(t.parts, l, fs, PartFilial, PartNet);
    SumInAppend(t.parts, l, fs, PartFilial, PartCost);
    hide SumIn, LineFilial, LineShare, WarrantyCost;
  }

  /** Money in dollars: as frozen, or as it is, or at the closing rate, or nothing without one. */
  function InDollars(m: Money, rate: real): real {
    match m.usd
    case Some(usd) => usd
    case None => if !m.bolivars then m.amount else if rate == 0.0 then 0.0 else m.amount / rate
  }

  /** What bolivars with both equivalents frozen are worth more at the closing rate. */
  function ExchangeGain(m: Money, rate: real): real {
    if m.bolivars && m.usd.Some? && m.bs.Some? && rate != 0.0 then m.bs.value / rate - m.usd.value else 0.0
  }

  /** An income: its dollars on the line of its concept, its exchange gain on that of the exchange. */
  lemma IncomeLine(t: Tables, e: IncomeRow, fs: seq<nat>, rate: real)
    ensures
      var before, after := ReportOf(t, fs, rate), ReportOf(t.(incomes := t.incomes + [e]), fs, rate);
      var usd, fx := InDollars(e.money, rate), before.fx + ExchangeGain(e.money, rate);
      if e.filial !in fs then after == before
      else match e.concept
           case BrandWarranty => after == before.(brandWarranty := Added(before.brandWarranty, usd, 0.0), fx := fx)
           case Intermediation => after == before.(intermediation := Added(before.intermediation, usd, 0.0), fx := fx)
           case OtherConcept => after == before.(fx := fx)
  {
    SumInAppend(t.incomes, e, fs, IncomeFilial, ConceptNet(BrandWarranty, rate));
    SumInAppend(t.incomes, e, fs, IncomeFilial, ConceptNet(Intermediation, rate));
    SumInAppend(t.incomes, e, fs, IncomeFilial, IncomeFx(rate));
    hide SumIn, LineFilial, LineShare, WarrantyCost;
  }

  /** An expense: its dollars on the line of its category, if it has one, and the exchange gain taken off. */
  lemma ExpenseLine(t: Tables, e: ExpenseRow, fs: seq<nat>, rate: real)
    ensures
      var before, after := ReportOf(t, fs, rate), ReportOf(t.(expenses := t.expenses + [e]), fs, rate);
      var usd, fx := InDollars(e.money, rate), before.fx - ExchangeGain(e.money, rate);
      if e.filial !in fs then after == before
      else match e.category
           case Operating =>
             after == before.(operating := before.operating + (if e.reservation then 0.0 else usd), fx := fx)
           case Commissions => after == before.(commissions := before.commissions + usd, fx := fx)
           case _ => after == before.(fx := fx)
  {
    SumInAppend(t.expenses, e, fs, ExpenseFilial, OperatingCost(rate));
    SumInAppend(t.expenses, e, fs, ExpenseFilial, CommissionCost(rate));
    SumInAppend(t.expenses, e, fs, ExpenseFilial, ExpenseFx(rate));
    hide SumIn, LineFilial, LineShare, WarrantyCost;
  }

  lemma ReturnLine(t: Tables, r: StockReturn, fs: seq<nat>, rate: real)
    ensures
      var before, after := ReportOf(t, fs, rate), ReportOf(t.(stockReturns := t.stockReturns + [r]), fs, rate);
      var cost := if r.unitCost.Some? then r.quantity * r.unitCost.value else 0.0;
      after == if r.filial in fs then before.(shrinkage := before.shrinkage + cost) else before
  {
    SumInAppend(t.stockReturns, r, fs, ReturnFilial, ReturnCost);
    hide SumIn, LineFilial, LineShare, WarrantyCost;
  }

  lemma SettlementLine(t: Tables, s: Settlement, fs: seq<nat>, rate: real)
    ensures
      var before, after := ReportOf(t, fs, rate), ReportOf(t.(settlements := t.settlements + [s]), fs, rate);
      after == if s.filial in fs then before.(retained := before.retained + s.retained) else before
  {
    SumInAppend(t.settlements, s, fs, SettlementFilial, Retained);
    hide SumIn, LineFilial, LineShare, WarrantyCost;
  }

  lemma ClaimLine(t: Tables, c: Claim, fs: seq<nat>, rate: real)
    requires Distinct(fs)
    ensures
      var before, after := ReportOf(t, fs, rate), ReportOf(t.(claims := t.claims + [c]), fs, rate);
      after == if c.filial in fs then before.(warranty := before.warranty + c.cost) else before
  {
    WarrantyEffect(t.claims, c, fs);
    hide SumIn, LineFilial, LineShare, WarrantyCost;
  }

  /* ---- the workshop ---- */

  /** The order has no dispatched line yet. */
  predicate NotDispatched(t: Tables, order: nat) { forall l :: l in t.dispatched ==> l.order != order }

  lemma InvoiceOfMore(invoices: seq<Invoice>, i: Invoice, order: nat)
    ensures InvoiceOf(invoices + [i], order) == if i.order == order then Some(i) else InvoiceOf(invoices, order)
  {
    assert (invoices + [i])[..|invoices|] == invoices;
  }

  lemma {:induction false} SharesStay(t: Tables, i: Invoice, fs: seq<nat>, structured: bool, n: nat)
    requires n <= |t.dispatched| && NotDispatched(t, i.order)
    ensures
      SumIn(t.dispatched[..n], fs, LineFilial(t.invoices + [i]), LineShare(t.invoices + [i], t.allocations, structured))
      == SumIn(t.dispatched[..n], fs, LineFilial(t.invoices), LineShare(t.invoices, t.allocations, structured))
  {
    if n > 0 {
      SharesStay(t, i, fs, structured, n - 1);
      assert t.dispatched[..n][..n - 1] == t.dispatched[..n - 1];
      var l := t.dispatched[n - 1];
      assert l in t.dispatched;
      InvoiceOfMore(t.invoices, i, l.order);
      hide InvoiceOf, LineCost;
    }
  }

  /** An invoice or a dispatched line moves the two rows of the workshop only. */
  lemma OnlyWorkshop(t: Tables, invoices: seq<Invoice>, dispatched: seq<DispatchLine>, fs: seq<nat>, rate: real)
    ensures
      var t' := t.(invoices := invoices, dispatched := dispatched);
      ReportOf(t', fs, rate) == ReportOf(t, fs, rate).(
        workshop := WorkshopRow(t', fs), parts := Plus(CounterRow(t, fs), WorkshopPartsRow(t', fs)))
  {
    hide SumIn, WarrantyCost, WorkshopRow, WorkshopPartsRow;
  }

  lemma InvoiceRows(t: Tables, i: Invoice, fs: seq<nat>)
    requires NotDispatched(t, i.order)
    ensures
      var t', mine := t.(invoices := t.invoices + [i]), i.filial in fs;
      && WorkshopRow(t', fs) == Added(WorkshopRow(t, fs), if mine then LaborNet(i) else 0.0, 0.0)
      && WorkshopPartsRow(t', fs) == Added(WorkshopPartsRow(t, fs), if mine then PartsNet(i) else 0.0, 0.0)
  {
    hide SumIn, LineFilial, LineShare, LaborNet, PartsNet;
    SumInAppend(t.invoices, i, fs, InvoiceFilial, LaborNet);
    SumInAppend(t.invoices, i, fs, InvoiceFilial, PartsNet);
    SharesStay(t, i, fs, true, |t.dispatched|);
    SharesStay(t, i, fs, false, |t.dispatched|);
    assert t.dispatched[..|t.dispatched|] == t.dispatched;
  }

  /** An invoice: its labour and its parts when it tells them apart, else all of it as labour. */
  lemma InvoiceLine(t: Tables, i: Invoice, fs: seq<nat>, rate: real)
    requires NotDispatched(t, i.order)
    ensures
      var before, after := ReportOf(t, fs, rate), ReportOf(t.(invoices := t.invoices + [i]), fs, rate);
      if i.filial !in fs then after == before
      else match i.breakdown
           case Some(b) =>
             after == before.(workshop := Added(before.workshop, b.labor, 0.0),
                              parts := Added(before.parts, b.parts, 0.0))
           case None => after == before.(workshop := Added(before.workshop, i.total, 0.0))
  {
    hide ReportOf, WorkshopRow, WorkshopPartsRow, CounterRow, NotDispatched;
    InvoiceRows(t, i, fs);
    OnlyWorkshop(t, t.invoices, t.dispatched, fs, rate);
    OnlyWorkshop(t, t.invoices + [i], t.dispatched, fs, rate);
  }

  /** What the lots allocated to a line cost, summed from the first. */
  function LotsCost(allocations: seq<Allocation>, line: nat): real {
    if allocations == [] then 0.0
    else
      (if allocations[0].line == line then allocations[0].quantity * allocations[0].unitCost else 0.0)
      + LotsCost(allocations[1..], line)
  }

  lemma {:induction false} LotsCostAppend(a: seq<Allocation>, x: Allocation, line: nat)
    ensures LotsCost(a + [x], line) == LotsCost(a, line) + if x.line == line then x.quantity * x.unitCost else 0.0
  {
    if a == [] {
      assert [x][1..] == [];
    } else {
      assert (a + [x])[1..] == a[1..] + [x];
      LotsCostAppend(a[1..], x, line);
    }
  }

  lemma {:induction false} LotsCostIs(allocations: seq<Allocation>, line: nat)
    ensures LotsCost(allocations, line) == Allocated(allocations, line)
  {
    if allocations != [] {
      var n := |allocations| - 1;
      LotsCostIs(allocations[..n], line);
      LotsCostAppend(allocations[..n], allocations[n], line);
      assert allocations == allocations[..n] + [allocations[n]];
    }
  }

  /** What a dispatched line costs: its lots, or what was recorded when they cost nothing. */
  function Spent(t: Tables, l: DispatchLine): real {
    var lots := LotsCost(t.allocations, l.id);
    if lots > 0.0 then lots else l.recorded
  }

  /** Of the invoices of an order, the one that counts; there is one when orders are told apart. */
  predicate Bills(t: Tables, l: DispatchLine, i: Invoice) { i in t.invoices && i.order == l.order }

  lemma ShareOfLine(t: Tables, l: DispatchLine, i: Invoice)
    requires TablesOk(t) && Bills(t, l, i)
    ensures LineFilial(t.invoices)(l) == i.filial
    ensures forall structured ::
      LineShare(t.invoices, t.allocations, structured)(l) ==
      if l.deducted && i.breakdown.Some? == structured then Spent(t, l) else 0.0
  {
    hide InvoiceOf, LotsCost, Allocated;
    LotsCostIs(t.allocations, l.id);
    SameInvoice(t.invoices, i, InvoiceOf(t.invoices, l.order).value);
  }

  lemma DispatchRows(t: Tables, l: DispatchLine, fs: seq<nat>)
    ensures
      var t' := t.(dispatched := t.dispatched + [l]);
      var labor := LineShare(t.invoices, t.allocations, false)(l);
      var parts := LineShare(t.invoices, t.allocations, true)(l);
      var mine := LineFilial(t.invoices)(l) in fs;
      && WorkshopRow(t', fs) == Added(WorkshopRow(t, fs), 0.0, if mine then labor else 0.0)
      && WorkshopPartsRow(t', fs) == Added(WorkshopPartsRow(t, fs), 0.0, if mine then parts else 0.0)
  {
    hide SumIn, LineFilial, LineShare;
    SumInAppend(t.dispatched, l, fs, LineFilial(t.invoices), LineShare(t.invoices, t.allocations, true));
    SumInAppend(t.dispatched, l, fs, LineFilial(t.invoices), LineShare(t.invoices, t.allocations, false));
  }

  /** A dispatched line of an invoiced order: its cost, with the parts if they were invoiced apart, else as labour. */
  lemma DispatchLineOfInvoice(t: Tables, l: DispatchLine, i: Invoice, fs: seq<nat>, rate: real)
    requires TablesOk(t) && Bills(t, l, i)
    ensures
      var before, after := ReportOf(t, fs, rate), ReportOf(t.(dispatched := t.dispatched + [l]), fs, rate);
      if i.filial !in fs || !l.deducted then after == before
      else if i.breakdown.Some? then after == before.(parts := Added(before.parts, 0.0, Spent(t, l)))
      else after == before.(workshop := Added(before.workshop, 0.0, Spent(t, l)))
  {
    hide ReportOf, WorkshopRow, WorkshopPartsRow, CounterRow, LineFilial, LineShare, Spent, TablesOk, Bills;
    ShareOfLine(t, l, i);
    DispatchRows(t, l, fs);
    OnlyWorkshop(t, t.invoices, t.dispatched, fs, rate);
    OnlyWorkshop(t, t.invoices, t.dispatched + [l], fs, rate);
  }

  /** One of no invoice costs nothing yet. */
  lemma DispatchLineUnbilled(t: Tables, l: DispatchLine, fs: seq<nat>, rate: real)
    requires forall i :: !Bills(t, l, i)
    ensures ReportOf(t.(dispatched := t.dispatched + [l]), fs, rate) == ReportOf(t, fs, rate)
  {
    forall i | i in t.invoices ensures i.order != l.order { assert !Bills(t, l, i); }
    hide ReportOf, WorkshopRow, WorkshopPartsRow, CounterRow, InvoiceOf, LineCost, Bills;
    DispatchRows(t, l, fs);
    OnlyWorkshop(t, t.invoices, t.dispatched, fs, rate);
    OnlyWorkshop(t, t.invoices, t.dispatched + [l], fs, rate);
  }

  /* ---- the orders that lose money ---- */

  /** What the first `n` dispatched lines spent on an order. */
  function SpentOn(t: Tables, order: nat, n: nat): real
    requires n <= |t.dispatched|
  {
    if n == 0 then 0.0
    else
      var l := t.dispatched[n - 1];
      SpentOn(t, order, n - 1) + if l.deducted && l.order == order then Spent(t, l) else 0.0
  }

  lemma {:induction false} SpentIsCost(t: Tables, pairs: seq<Invoice>, order: nat, n: nat)
    requires n <= |t.dispatched| && exists i :: i in pairs && i.order == order
    ensures CostWhere(t, pairs, (o: nat) => o == order, n) == SpentOn(t, order, n)
  {
    if n > 0 {
      SpentIsCost(t, pairs, order, n - 1);
      LotsCostIs(t.allocations, t.dispatched[n - 1].id);
      hide LotsCost, Allocated;
    }
  }

  /** The invoice is worth less than was spent on its order: its parts with a breakdown, all of it without. */
  predicate Loses(t: Tables, i: Invoice) {
    (match i.breakdown case Some(b) => b.parts case None => i.total) < SpentOn(t, i.order, |t.dispatched|)
  }

  lemma {:induction false} LossesTold(t: Tables, pairs: seq<Invoice>, n: nat)
    requires n <= |pairs|
    ensures forall o ::
      o in Losses(t, pairs, n) <==> exists k :: 0 <= k < n && pairs[k].order == o && Loses(t, pairs[k])
  {
    if n > 0 {
      LossesTold(t, pairs, n - 1);
      assert pairs[n - 1] in pairs;
      SpentIsCost(t, pairs, pairs[n - 1].order, |t.dispatched|);
      hide CostWhere, SpentOn;
    }
  }

  /** The orders reported as losing money are exactly those whose invoice, in the filiales asked for, loses. */
  lemma LossesAre(t: Tables, fs: seq<nat>, order: nat)
    ensures
      var pairs := Chosen(t.invoices, fs);
      order in Losses(t, pairs, |pairs|) <==>
      exists i :: i in t.invoices && i.filial in fs && i.order == order && Loses(t, i)
  {
    var pairs := Chosen(t.invoices, fs);
    LossesTold(t, pairs, |pairs|);
    hide Loses, Losses;
    if i :| i in t.invoices && i.filial in fs && i.order == order && Loses(t, i) {
      assert i in pairs;
      var k :| 0 <= k < |pairs| && pairs[k] == i;
    }
    if k :| 0 <= k < |pairs| && pairs[k].order == order && Loses(t, pairs[k]) { assert pairs[k] in pairs; }
  }
}

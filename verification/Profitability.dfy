/**
  The profit report (`app/modules/administracion/service.py`): departments, adjustments and
  net profit of a list of filiales, in exact arithmetic.  The tables hold the rows of the
  period; the closing rate is the same for every filial.
 */
module Profitability {
  import opened Prelude

  /* ---- rows ---- */

  datatype Condition = New | Used | Other

  datatype VehicleSale = VehicleSale(
    filial: nat, condition: Condition, price: real, snapshot: Option<real>, vehicleCost: Option<real>)

  /** A line of a completed counter sale; `average` is the warehouse's average cost of the part. */
  datatype PartLine = PartLine(filial: nat, total: real, quantity: real, unitCost: Option<real>, average: Option<real>)

  datatype Breakdown = Breakdown(labor: real, parts: real)

  datatype Invoice = Invoice(filial: nat, order: nat, total: real, breakdown: Option<Breakdown>)

  datatype DispatchLine = DispatchLine(id: nat, order: nat, deducted: bool, recorded: real)

  datatype Allocation = Allocation(line: nat, quantity: real, unitCost: real)

  datatype Concept = BrandWarranty | Intermediation | OtherConcept

  datatype Category = Suppliers | Commissions | Transfers | Operating

  /** An income or an expense; `bolivars` says its currency, `usd` and `bs` are the frozen equivalents. */
  datatype Money = Money(amount: real, bolivars: bool, usd: Option<real>, bs: Option<real>)

  datatype IncomeRow = IncomeRow(filial: nat, concept: Concept, money: Money)

  datatype ExpenseRow = ExpenseRow(filial: nat, category: Category, reservation: bool, money: Money)

  datatype StockReturn = StockReturn(filial: nat, quantity: real, unitCost: Option<real>)

  /** A warranty claim the shop absorbs, at its cost. */
  datatype Claim = Claim(filial: nat, cost: real)

  datatype Settlement = Settlement(filial: nat, retained: real)

  datatype Tables = Tables(
    sales: seq<VehicleSale>, parts: seq<PartLine>,
    invoices: seq<Invoice>, dispatched: seq<DispatchLine>, allocations: seq<Allocation>,
    incomes: seq<IncomeRow>, expenses: seq<ExpenseRow>,
    stockReturns: seq<StockReturn>, claims: seq<Claim>, settlements: seq<Settlement>)

  /** Invoices are unique by service order. */
  predicate TablesOk(t: Tables) {
    forall i, j :: 0 <= i < j < |t.invoices| ==> t.invoices[i].order != t.invoices[j].order
  }

  /* ---- sums over the filiales of a report ---- */

  /** Total of `value` over the rows whose filial is in the list. */
  function SumIn<T>(rows: seq<T>, fs: seq<nat>, filial: T -> nat, value: T -> real): real {
    if rows == [] then 0.0
    else
      var n := |rows| - 1;
      SumIn(rows[..n], fs, filial, value) + if filial(rows[n]) in fs then value(rows[n]) else 0.0
  }

  lemma {:induction false} SumInSplit<T>(rows: seq<T>, fs: seq<nat>, f: nat, filial: T -> nat, value: T -> real)
    requires f !in fs
    ensures SumIn(rows, fs + [f], filial, value) == SumIn(rows, fs, filial, value) + SumIn(rows, [f], filial, value)
  {
    if rows != [] { SumInSplit(rows[..|rows| - 1], fs, f, filial, value); }
  }

  lemma {:induction false} SumInNone<T>(rows: seq<T>, filial: T -> nat, value: T -> real)
    ensures SumIn(rows, [], filial, value) == 0.0
  {
    if rows != [] { SumInNone(rows[..|rows| - 1], filial, value); }
  }

  /* ---- the value of each row ---- */

  function Or(x: Option<real>, default: real): real { if x.Some? then x.value else default }

  function SaleFilial(s: VehicleSale): nat { s.filial }

  function SaleNet(c: Condition): VehicleSale -> real { (s: VehicleSale) => if s.condition == c then s.price else 0.0 }

  function SaleCost(c: Condition): VehicleSale -> real {
    (s: VehicleSale) =>
      if s.condition == c then (if s.snapshot.Some? then s.snapshot.value else Or(s.vehicleCost, 0.0)) else 0.0
  }

  function PartFilial(l: PartLine): nat { l.filial }

  function PartNet(l: PartLine): real { l.total }

  function PartCost(l: PartLine): real {
    l.quantity * (if l.unitCost.Some? then l.unitCost.value else Or(l.average, 0.0))
  }

  /** `_entry_usd_amount`: the frozen equivalent, else today's conversion. */
  function Usd(m: Money, rate: real): real {
    if m.usd.Some? then m.usd.value
    else if !m.bolivars then m.amount
    else if rate != 0.0 then m.amount / rate
    else 0.0
  }

  /** What re-expressing a bolivar amount at the closing rate gains. */
  function FxGain(m: Money, rate: real): real {
    if rate == 0.0 || !m.bolivars || m.usd.None? || m.bs.None? then 0.0 else m.bs.value / rate - m.usd.value
  }

  function IncomeFilial(e: IncomeRow): nat { e.filial }

  function ConceptNet(c: Concept, rate: real): IncomeRow -> real {
    (e: IncomeRow) => if e.concept == c then Usd(e.money, rate) else 0.0
  }

  function IncomeFx(rate: real): IncomeRow -> real { (e: IncomeRow) => FxGain(e.money, rate) }

  function ExpenseFilial(e: ExpenseRow): nat { e.filial }

  function OperatingCost(rate: real): ExpenseRow -> real {
    (e: ExpenseRow) => if !e.reservation && e.category == Operating then Usd(e.money, rate) else 0.0
  }

  function CommissionCost(rate: real): ExpenseRow -> real {
    (e: ExpenseRow) => if e.category == Commissions then Usd(e.money, rate) else 0.0
  }

  function ExpenseFx(rate: real): ExpenseRow -> real { (e: ExpenseRow) => FxGain(e.money, rate) }

  function ReturnFilial(r: StockReturn): nat { r.filial }

  function ReturnCost(r: StockReturn): real { r.quantity * Or(r.unitCost, 0.0) }

  function ClaimFilial(c: Claim): nat { c.filial }

  function ClaimCost(c: Claim): real { c.cost }

  function SettlementFilial(s: Settlement): nat { s.filial }

  function Retained(s: Settlement): real { s.retained }

  /* ---- the workshop ---- */

  function InvoiceFilial(i: Invoice): nat { i.filial }

  /** Labour of an invoice with a breakdown, the whole of one without. */
  function LaborNet(i: Invoice): real { if i.breakdown.Some? then i.breakdown.value.labor else i.total }

  function PartsNet(i: Invoice): real { if i.breakdown.Some? then i.breakdown.value.parts else 0.0 }

  function InvoiceOf(invoices: seq<Invoice>, order: nat): (r: Option<Invoice>)
    ensures r.Some? ==> r.value in invoices && r.value.order == order
    ensures r.None? <==> forall i :: i in invoices ==> i.order != order
  {
    if invoices == [] then None
    else if invoices[|invoices| - 1].order == order then Some(invoices[|invoices| - 1])
    else
      var r := InvoiceOf(invoices[..|invoices| - 1], order);
      assert invoices == invoices[..|invoices| - 1] + [invoices[|invoices| - 1]];
      r
  }

  function Allocated(allocations: seq<Allocation>, line: nat): real {
    if allocations == [] then 0.0
    else
      var a := allocations[|allocations| - 1];
      Allocated(allocations[..|allocations| - 1], line) + if a.line == line then a.quantity * a.unitCost else 0.0
  }

  /** What a dispatched line cost: its lots, or its own record when no lot was allocated. */
  function LineCost(allocations: seq<Allocation>, l: DispatchLine): real {
    var fromLots := Allocated(allocations, l.id);
    if fromLots > 0.0 then fromLots else l.recorded
  }

  /** A line belongs to the filial that invoiced its order. */
  function LineFilial(invoices: seq<Invoice>): DispatchLine -> nat {
    (l: DispatchLine) => var i := InvoiceOf(invoices, l.order); if i.Some? then i.value.filial else 0
  }

  /** The cost a line brings to the bucket of orders with a breakdown, or without one. */
  function LineShare(invoices: seq<Invoice>, allocations: seq<Allocation>, structured: bool): DispatchLine -> real {
    (l: DispatchLine) =>
      var i := InvoiceOf(invoices, l.order);
      if l.deducted && i.Some? && i.value.breakdown.Some? == structured then LineCost(allocations, l) else 0.0
  }

  /* ---- the report ---- */

  datatype Row = Row(net: real, cost: real)

  function Plus(a: Row, b: Row): Row { Row(a.net + b.net, a.cost + b.cost) }

  datatype Report = Report(
    newVehicles: Row, usedVehicles: Row, parts: Row, workshop: Row, brandWarranty: Row, intermediation: Row,
    retained: real, operating: real, commissions: real, shrinkage: real, fx: real, warranty: real)

  function NetSales(r: Report): real {
    r.newVehicles.net + r.usedVehicles.net + r.parts.net + r.workshop.net + r.brandWarranty.net + r.intermediation.net
  }

  function DirectCost(r: Report): real {
    r.newVehicles.cost + r.usedVehicles.cost + r.parts.cost
    + r.workshop.cost + r.brandWarranty.cost + r.intermediation.cost
  }

  function NetProfit(r: Report): real {
    NetSales(r) - DirectCost(r) + (r.retained - r.operating - r.commissions - r.shrinkage + r.fx - r.warranty)
  }

  function VehicleRow(t: Tables, fs: seq<nat>, c: Condition): Row {
    Row(SumIn(t.sales, fs, SaleFilial, SaleNet(c)), SumIn(t.sales, fs, SaleFilial, SaleCost(c)))
  }

  function CounterRow(t: Tables, fs: seq<nat>): Row {
    Row(SumIn(t.parts, fs, PartFilial, PartNet), SumIn(t.parts, fs, PartFilial, PartCost))
  }

  function WorkshopRow(t: Tables, fs: seq<nat>): Row {
    Row(SumIn(t.invoices, fs, InvoiceFilial, LaborNet),
      SumIn(t.dispatched, fs, LineFilial(t.invoices), LineShare(t.invoices, t.allocations, false)))
  }

  function WorkshopPartsRow(t: Tables, fs: seq<nat>): Row {
    Row(SumIn(t.invoices, fs, InvoiceFilial, PartsNet),
      SumIn(t.dispatched, fs, LineFilial(t.invoices), LineShare(t.invoices, t.allocations, true)))
  }

  function ConceptRow(t: Tables, fs: seq<nat>, c: Concept, rate: real): Row {
    Row(SumIn(t.incomes, fs, IncomeFilial, ConceptNet(c, rate)), 0.0)
  }

  /** The warranty cost is added up filial by filial along the list. */
  function WarrantyCost(claims: seq<Claim>, fs: seq<nat>): real {
    if fs == [] then 0.0
    else WarrantyCost(claims, fs[..|fs| - 1]) + SumIn(claims, [fs[|fs| - 1]], ClaimFilial, ClaimCost)
  }

  function ReportOf(t: Tables, fs: seq<nat>, rate: real): Report {
    Report(
      VehicleRow(t, fs, New), VehicleRow(t, fs, Used), Plus(CounterRow(t, fs), WorkshopPartsRow(t, fs)),
      WorkshopRow(t, fs), ConceptRow(t, fs, BrandWarranty, rate), ConceptRow(t, fs, Intermediation, rate),
      SumIn(t.settlements, fs, SettlementFilial, Retained),
      SumIn(t.expenses, fs, ExpenseFilial, OperatingCost(rate)),
      SumIn(t.expenses, fs, ExpenseFilial, CommissionCost(rate)),
      SumIn(t.stockReturns, fs, ReturnFilial, ReturnCost),
      SumIn(t.incomes, fs, IncomeFilial, IncomeFx(rate)) - SumIn(t.expenses, fs, ExpenseFilial, ExpenseFx(rate)),
      WarrantyCost(t.claims, fs))
  }

  /* ---- consolidation ---- */

  const EMPTY := Report(
    Row(0.0, 0.0), Row(0.0, 0.0), Row(0.0, 0.0), Row(0.0, 0.0), Row(0.0, 0.0), Row(0.0, 0.0),
    0.0, 0.0, 0.0, 0.0, 0.0, 0.0)

  /** Two reports added line by line. */
  function Together(a: Report, b: Report): Report {
    Report(
      Plus(a.newVehicles, b.newVehicles), Plus(a.usedVehicles, b.usedVehicles), Plus(a.parts, b.parts),
      Plus(a.workshop, b.workshop), Plus(a.brandWarranty, b.brandWarranty), Plus(a.intermediation, b.intermediation),
      a.retained + b.retained, a.operating + b.operating, a.commissions + b.commissions,
      a.shrinkage + b.shrinkage, a.fx + b.fx, a.warranty + b.warranty)
  }

  /** The reports of the single filiales, added line by line. */
  function Consolidated(t: Tables, fs: seq<nat>, rate: real): Report {
    if fs == [] then EMPTY
    else Together(Consolidated(t, fs[..|fs| - 1], rate), ReportOf(t, [fs[|fs| - 1]], rate))
  }

  lemma VehicleRowSplit(t: Tables, fs: seq<nat>, f: nat, c: Condition)
    requires f !in fs
    ensures VehicleRow(t, fs + [f], c) == Plus(VehicleRow(t, fs, c), VehicleRow(t, [f], c))
  {
    hide SumIn;
    SumInSplit(t.sales, fs, f, SaleFilial, SaleNet(c));
    SumInSplit(t.sales, fs, f, SaleFilial, SaleCost(c));
  }

  lemma CounterRowSplit(t: Tables, fs: seq<nat>, f: nat)
    requires f !in fs
    ensures CounterRow(t, fs + [f]) == Plus(CounterRow(t, fs), CounterRow(t, [f]))
  {
    hide SumIn;
    SumInSplit(t.parts, fs, f, PartFilial, PartNet);
    SumInSplit(t.parts, fs, f, PartFilial, PartCost);
  }

  lemma WorkshopRowsSplit(t: Tables, fs: seq<nat>, f: nat)
    requires f !in fs
    ensures WorkshopRow(t, fs + [f]) == Plus(WorkshopRow(t, fs), WorkshopRow(t, [f]))
    ensures WorkshopPartsRow(t, fs + [f]) == Plus(WorkshopPartsRow(t, fs), WorkshopPartsRow(t, [f]))
  {
    hide SumIn, LineFilial, LineShare;
    SumInSplit(t.invoices, fs, f, InvoiceFilial, LaborNet);
    SumInSplit(t.invoices, fs, f, InvoiceFilial, PartsNet);
    SumInSplit(t.dispatched, fs, f, LineFilial(t.invoices), LineShare(t.invoices, t.allocations, false));
    SumInSplit(t.dispatched, fs, f, LineFilial(t.invoices), LineShare(t.invoices, t.allocations, true));
  }

  lemma WarrantySplit(claims: seq<Claim>, fs: seq<nat>, f: nat)
    ensures WarrantyCost(claims, fs + [f]) == WarrantyCost(claims, fs) + WarrantyCost(claims, [f])
  {
    assert (fs + [f])[..|fs|] == fs;
    assert [f][..0] == [];
  }

  lemma AdjustmentsSplit(t: Tables, fs: seq<nat>, f: nat, rate: real)
    requires f !in fs
    ensures
      var a, b, c := ReportOf(t, fs, rate), ReportOf(t, [f], rate), ReportOf(t, fs + [f], rate);
      && c.brandWarranty == Plus(a.brandWarranty, b.brandWarranty)
      && c.intermediation == Plus(a.intermediation, b.intermediation)
      && c.retained == a.retained + b.retained && c.operating == a.operating + b.operating
      && c.commissions == a.commissions + b.commissions && c.shrinkage == a.shrinkage + b.shrinkage
      && c.fx == a.fx + b.fx && c.warranty == a.warranty + b.warranty
  {
    hide SumIn;
    SumInSplit(t.incomes, fs, f, IncomeFilial, ConceptNet(BrandWarranty, rate));
    SumInSplit(t.incomes, fs, f, IncomeFilial, ConceptNet(Intermediation, rate));
    SumInSplit(t.settlements, fs, f, SettlementFilial, Retained);
    SumInSplit(t.expenses, fs, f, ExpenseFilial, OperatingCost(rate));
    SumInSplit(t.expenses, fs, f, ExpenseFilial, CommissionCost(rate));
    SumInSplit(t.stockReturns, fs, f, ReturnFilial, ReturnCost);
    SumInSplit(t.incomes, fs, f, IncomeFilial, IncomeFx(rate));
    SumInSplit(t.expenses, fs, f, ExpenseFilial, ExpenseFx(rate));
    WarrantySplit(t.claims, fs, f);
  }

  lemma JoinsUp(t: Tables, fs: seq<nat>, f: nat, rate: real)
    requires f !in fs
    ensures ReportOf(t, fs + [f], rate) == Together(ReportOf(t, fs, rate), ReportOf(t, [f], rate))
  {
    hide SumIn, VehicleRow, CounterRow, WorkshopRow, WorkshopPartsRow, ConceptRow, WarrantyCost;
    VehicleRowSplit(t, fs, f, New);
    VehicleRowSplit(t, fs, f, Used);
    CounterRowSplit(t, fs, f);
    WorkshopRowsSplit(t, fs, f);
    AdjustmentsSplit(t, fs, f, rate);
  }

  lemma EmptyReport(t: Tables, rate: real)
    ensures ReportOf(t, [], rate) == EMPTY
  {
    SumInNone(t.sales, SaleFilial, SaleNet(New));
    SumInNone(t.sales, SaleFilial, SaleCost(New));
    SumInNone(t.sales, SaleFilial, SaleNet(Used));
    SumInNone(t.sales, SaleFilial, SaleCost(Used));
    SumInNone(t.parts, PartFilial, PartNet);
    SumInNone(t.parts, PartFilial, PartCost);
    SumInNone(t.invoices, InvoiceFilial, LaborNet);
    SumInNone(t.invoices, InvoiceFilial, PartsNet);
    SumInNone(t.dispatched, LineFilial(t.invoices), LineShare(t.invoices, t.allocations, false));
    SumInNone(t.dispatched, LineFilial(t.invoices), LineShare(t.invoices, t.allocations, true));
    SumInNone(t.incomes, IncomeFilial, ConceptNet(BrandWarranty, rate));
    SumInNone(t.incomes, IncomeFilial, ConceptNet(Intermediation, rate));
    SumInNone(t.settlements, SettlementFilial, Retained);
    SumInNone(t.expenses, ExpenseFilial, OperatingCost(rate));
    SumInNone(t.expenses, ExpenseFilial, CommissionCost(rate));
    SumInNone(t.stockReturns, ReturnFilial, ReturnCost);
    SumInNone(t.incomes, IncomeFilial, IncomeFx(rate));
    SumInNone(t.expenses, ExpenseFilial, ExpenseFx(rate));
  }

  /** Main result: the report of distinct filiales is the sum of their reports, line by line. */
  lemma {:induction false} ConsolidationIsAdditive(t: Tables, fs: seq<nat>, rate: real)
    requires Distinct(fs)
    ensures ReportOf(t, fs, rate) == Consolidated(t, fs, rate)
  {
    hide ReportOf;
    if fs == [] {
      EmptyReport(t, rate);
    } else {
      var before, f := fs[..|fs| - 1], fs[|fs| - 1];
      assert fs == before + [f];
      ConsolidationIsAdditive(t, before, rate);
      JoinsUp(t, before, f, rate);
    }
  }

  function TotalOf(t: Tables, fs: seq<nat>, rate: real, measure: Report -> real): real {
    if fs == [] then 0.0
    else TotalOf(t, fs[..|fs| - 1], rate, measure) + measure(ReportOf(t, [fs[|fs| - 1]], rate))
  }

  /** So net sales, direct cost and net profit of a holding are the sums over its filiales. */
  lemma {:induction false} TotalsAreAdditive(t: Tables, fs: seq<nat>, rate: real)
    requires Distinct(fs)
    ensures NetSales(ReportOf(t, fs, rate)) == TotalOf(t, fs, rate, NetSales)
    ensures DirectCost(ReportOf(t, fs, rate)) == TotalOf(t, fs, rate, DirectCost)
    ensures NetProfit(ReportOf(t, fs, rate)) == TotalOf(t, fs, rate, NetProfit)
  {
    hide ReportOf;
    if fs == [] {
      EmptyReport(t, rate);
    } else {
      var before, f := fs[..|fs| - 1], fs[|fs| - 1];
      assert fs == before + [f];
      TotalsAreAdditive(t, before, rate);
      JoinsUp(t, before, f, rate);
    }
  }

  /* ---- what one row does to the profit ---- */

  lemma SumInAppend<T>(rows: seq<T>, row: T, fs: seq<nat>, filial: T -> nat, value: T -> real)
    ensures SumIn(rows + [row], fs, filial, value) ==
            SumIn(rows, fs, filial, value) + if filial(row) in fs then value(row) else 0.0
  {
    assert (rows + [row])[..|rows|] == rows;
  }

  /** A vehicle sale is worth its price less its cost, the cost frozen at the sale if there is one. */
  lemma SaleEffect(t: Tables, s: VehicleSale, fs: seq<nat>, rate: real)
    ensures
      NetProfit(ReportOf(t.(sales := t.sales + [s]), fs, rate)) == NetProfit(ReportOf(t, fs, rate)) +
      if s.filial in fs && s.condition != Other then s.price - Or(s.snapshot, Or(s.vehicleCost, 0.0)) else 0.0
  {
    SumInAppend(t.sales, s, fs, SaleFilial, SaleNet(New));
    SumInAppend(t.sales, s, fs, SaleFilial, SaleCost(New));
    SumInAppend(t.sales, s, fs, SaleFilial, SaleNet(Used));
    SumInAppend(t.sales, s, fs, SaleFilial, SaleCost(Used));
    hide SumIn, LineFilial, LineShare, WarrantyCost;
  }

  /** A counter sale is worth its total less its cost: the recorded one, else the warehouse's average. */
  lemma PartEffect(t: Tables, l: PartLine, fs: seq<nat>, rate: real)
    ensures
      NetProfit(ReportOf(t.(parts := t.parts + [l]), fs, rate)) == NetProfit(ReportOf(t, fs, rate)) +
      if l.filial in fs then l.total - l.quantity * Or(l.unitCost, Or(l.average, 0.0)) else 0.0
  {
    SumInAppend(t.parts, l, fs, PartFilial, PartNet);
    SumInAppend(t.parts, l, fs, PartFilial, PartCost);
    hide SumIn, LineFilial, LineShare, WarrantyCost;
  }

  /** A stock return is lost at cost; what a cancelled reservation retained is earned. */
  lemma ReturnAndRetentionEffect(t: Tables, r: StockReturn, s: Settlement, fs: seq<nat>, rate: real)
    ensures
      NetProfit(ReportOf(t.(stockReturns := t.stockReturns + [r], settlements := t.settlements + [s]), fs, rate)) ==
      NetProfit(ReportOf(t, fs, rate))
      - (if r.filial in fs then r.quantity * Or(r.unitCost, 0.0) else 0.0)
      + if s.filial in fs then s.retained else 0.0
  {
    SumInAppend(t.stockReturns, r, fs, ReturnFilial, ReturnCost);
    SumInAppend(t.settlements, s, fs, SettlementFilial, Retained);
    hide SumIn, LineFilial, LineShare, WarrantyCost;
  }

  /** A warranty claim costs its filial once, however many filiales the report has. */
  lemma {:induction false} WarrantyEffect(claims: seq<Claim>, c: Claim, fs: seq<nat>)
    requires Distinct(fs)
    ensures WarrantyCost(claims + [c], fs) == WarrantyCost(claims, fs) + if c.filial in fs then c.cost else 0.0
  {
    if fs != [] {
      var before, f := fs[..|fs| - 1], fs[|fs| - 1];
      assert fs == before + [f];
      WarrantyEffect(claims, c, before);
      SumInAppend(claims, c, [f], ClaimFilial, ClaimCost);
    }
  }

  /** An income is worth its dollars if it is brand warranty or intermediation, and its gain in exchange always. */
  lemma IncomeEffect(t: Tables, e: IncomeRow, fs: seq<nat>, rate: real)
    ensures
      NetProfit(ReportOf(t.(incomes := t.incomes + [e]), fs, rate)) == NetProfit(ReportOf(t, fs, rate)) +
      if e.filial in fs
      then (if e.concept == OtherConcept then 0.0 else Usd(e.money, rate)) + FxGain(e.money, rate)
      else 0.0
  {
    SumInAppend(t.incomes, e, fs, IncomeFilial, ConceptNet(BrandWarranty, rate));
    SumInAppend(t.incomes, e, fs, IncomeFilial, ConceptNet(Intermediation, rate));
    SumInAppend(t.incomes, e, fs, IncomeFilial, IncomeFx(rate));
    hide SumIn, LineFilial, LineShare, WarrantyCost;
  }

  /** Expenses that lower the profit by their dollars. */
  predicate Charged(e: ExpenseRow) { e.category == Commissions || (e.category == Operating && !e.reservation) }

  lemma ExpenseEffect(t: Tables, e: ExpenseRow, fs: seq<nat>, rate: real)
    ensures
      NetProfit(ReportOf(t.(expenses := t.expenses + [e]), fs, rate)) == NetProfit(ReportOf(t, fs, rate)) -
      if e.filial in fs then (if Charged(e) then Usd(e.money, rate) else 0.0) + FxGain(e.money, rate) else 0.0
  {
    SumInAppend(t.expenses, e, fs, ExpenseFilial, OperatingCost(rate));
    SumInAppend(t.expenses, e, fs, ExpenseFilial, CommissionCost(rate));
    SumInAppend(t.expenses, e, fs, ExpenseFilial, ExpenseFx(rate));
    hide SumIn, LineFilial, LineShare, WarrantyCost;
  }

  /**
    Re-expression at work: a charged expense in bolivars with frozen equivalents lowers the
    profit by its bolivars at the closing rate, whatever rate it was frozen at.
   */
  lemma FrozenRateCancels(t: Tables, e: ExpenseRow, fs: seq<nat>, rate: real)
    requires Charged(e) && e.money.bolivars && e.money.usd.Some? && e.money.bs.Some? && rate != 0.0 && e.filial in fs
    ensures NetProfit(ReportOf(t.(expenses := t.expenses + [e]), fs, rate)) ==
            NetProfit(ReportOf(t, fs, rate)) - e.money.bs.value / rate
  {
    ExpenseEffect(t, e, fs, rate);
    hide ReportOf;
  }

  /** The tables after the two legs of a transfer. */
  function Transferred(t: Tables, filial: nat, out: Money, into: Money): Tables {
    t.(expenses := t.expenses + [ExpenseRow(filial, Transfers, false, out)],
       incomes := t.incomes + [IncomeRow(filial, OtherConcept, into)])
  }

  /** A transfer is neither income nor expense: only the exchange moves the profit. */
  lemma TransferEffect(t: Tables, filial: nat, out: Money, into: Money, fs: seq<nat>, rate: real)
    ensures NetProfit(ReportOf(Transferred(t, filial, out, into), fs, rate)) ==
            NetProfit(ReportOf(t, fs, rate)) + if filial in fs then FxGain(into, rate) - FxGain(out, rate) else 0.0
  {
    hide ReportOf, Usd, FxGain;
    var expense := ExpenseRow(filial, Transfers, false, out);
    ExpenseEffect(t, expense, fs, rate);
    IncomeEffect(t.(expenses := t.expenses + [expense]), IncomeRow(filial, OtherConcept, into), fs, rate);
  }

  /** A transfer within a currency, posted as an expense and an income of the same money, changes no profit. */
  lemma TransferIsNeutral(t: Tables, filial: nat, money: Money, fs: seq<nat>, rate: real)
    ensures NetProfit(ReportOf(Transferred(t, filial, money, money), fs, rate)) == NetProfit(ReportOf(t, fs, rate))
  {
    hide ReportOf;
    TransferEffect(t, filial, money, money, fs, rate);
  }

  /** The two legs of a transfer across currencies at the agreed rate, in bolivars per dollar. */
  function BolivarLeg(bs: real, agreed: real): Money
    requires agreed != 0.0
  {
    Money(bs, true, Some(bs / agreed), Some(bs))
  }

  function DollarLeg(bs: real, agreed: real): Money
    requires agreed != 0.0
  {
    Money(bs / agreed, false, Some(bs / agreed), Some(bs))
  }

  /** The tables after the exchange; `selling` says that the bolivars leave. */
  function Exchanged(t: Tables, filial: nat, bs: real, agreed: real, selling: bool): Tables
    requires agreed != 0.0
  {
    var bolivars, dollars := BolivarLeg(bs, agreed), DollarLeg(bs, agreed);
    if selling then Transferred(t, filial, bolivars, dollars) else Transferred(t, filial, dollars, bolivars)
  }

  lemma SameQuotientIff(x: real, a: real, b: real)
    requires x != 0.0 && a != 0.0 && b != 0.0
    ensures x / a == x / b <==> a == b
  {
    assert x / a * a == x && x / b * b == x;
    if x / a == x / b {
      assert x / a * (a - b) == 0.0;
    }
  }

  lemma GainOfLegs(bs: real, agreed: real, rate: real)
    requires agreed != 0.0 && bs != 0.0
    ensures FxGain(DollarLeg(bs, agreed), rate) == 0.0
    ensures FxGain(BolivarLeg(bs, agreed), rate) == if rate == 0.0 then 0.0 else bs / rate - bs / agreed
    ensures FxGain(BolivarLeg(bs, agreed), rate) == 0.0 <==> rate == 0.0 || rate == agreed
  {
    if rate != 0.0 { SameQuotientIff(bs, rate, agreed); }
  }

  /**
    A transfer across currencies moves the profit by what its bolivars gain at the closing
    rate, so it is neutral exactly when there is no closing rate, or it is the agreed one.
   */
  lemma ExchangeIsNeutralIff(t: Tables, filial: nat, bs: real, agreed: real, selling: bool, fs: seq<nat>, rate: real)
    requires agreed != 0.0 && bs != 0.0 && filial in fs
    ensures
      var before := NetProfit(ReportOf(t, fs, rate));
      var after := NetProfit(ReportOf(Exchanged(t, filial, bs, agreed, selling), fs, rate));
      var gain := if rate == 0.0 then 0.0 else bs / rate - bs / agreed;
      && after == before + (if selling then -gain else gain)
      && (after == before <==> rate == 0.0 || rate == agreed)
  {
    hide ReportOf, NetProfit;
    var bolivars, dollars := BolivarLeg(bs, agreed), DollarLeg(bs, agreed);
    TransferEffect(t, filial, if selling then bolivars else dollars, if selling then dollars else bolivars, fs, rate);
    GainOfLegs(bs, agreed, rate);
    hide FxGain, BolivarLeg, DollarLeg, Transferred;
  }
}

/**
  Parts purchases: request, receipt in parts into lots, reconciliation against the
  supplier invoice, payments and their counter-entries
  (`app/modules/administracion/purchase_workflow.py` and `service.py`).

  This module holds the rows and, for every operation, what it must leave behind.
  The operations themselves are in `PurchaseWorkflow`.
 */
module Purchases {
  import opened Prelude
  import opened Money
  import opened Ledger
  import Text

  datatype Status = Enviada | Cotizada | Pagada | Recibida | Conciliada | Cancelada

  datatype Receipt = Receipt(lot: nat, quantity: nat)

  datatype Line = Line(
    part: nat, quantity: nat, received: nat, receipts: seq<Receipt>,
    unitCost: Option<Cents>, invoicedCost: Option<Cents>)

  datatype Activity =
    | Created | Quoted | Cancelled | StatusReceived
    | Received(lot: nat, quantity: nat)
    | Reconciled(total: Cents)
    | Paid(expense: nat, amount: Cents, balance: Cents)
    | PaymentReversed(expense: nat, amount: Cents)

  datatype Invoice = Invoice(number: string, control: string, iva: real, total: Cents)

  /** `settled` stands for a non-null `paid_at`. */
  datatype Purchase = Purchase(
    filial: nat, supplier: nat, status: Status, lines: seq<Line>, invoice: Option<Invoice>,
    paid: Cents, settled: bool, paymentEntry: Option<nat>, activity: seq<Activity>)

  /** A stock lot; `origin` is the lot a transfer took it from. */
  datatype Lot = Lot(purchase: Option<nat>, part: nat, quantity: nat, unitCost: Cents, origin: Option<nat>)

  /** The tables, rows numbered in order of insertion. */
  datatype Books = Books(purchases: seq<Purchase>, lots: seq<Lot>, expenses: seq<Entry>)

  datatype Account = Account(filial: nat, currency: Currency, active: bool)

  datatype Error =
    | NotFound | Forbidden | WrongStatus | BadTransition | UseFinancialWorkflow | HasGoods
    | RepeatedPart | BadLines | NothingReceived | OutOfScope | OverReceived | NotQuoted
    | QuoteRequired | WarehouseRequired
    | PriorPaymentUnclear | AlreadyInvoiced | NotReceived | MissingNumber | BelowPayments
    | NotInvoiced | AlreadyPaid | WrongAccount | ClosedPeriod | RateRequired | TooSmall | Overpayment
    | PayableRequired | SupplierRequired | SupplierMismatch | NotPayable | RepeatedPurchase
    | MustCoverBalance | AttachmentRequired
    | Blocked | AlreadyReversed

  datatype Result = Ok(books: Books) | Fail(error: Error)

  /* ---- create_request ---- */

  datatype LineInput = LineInput(part: nat, quantity: nat, unitCost: Option<Cents>)

  predicate DistinctParts(lines: seq<Line>) {
    forall i, j :: 0 <= i < j < |lines| ==> lines[i].part != lines[j].part
  }

  function NewLines(inputs: seq<LineInput>): seq<Line> {
    seq(|inputs|, i requires 0 <= i < |inputs| =>
      Line(inputs[i].part, inputs[i].quantity, 0, [], inputs[i].unitCost, None))
  }

  /** `supplierFilial` and `inScope` are what the supplier and parts tables answer. */
  function Create(b: Books, filial: nat, supplier: nat, supplierFilial: Option<nat>, inputs: seq<LineInput>,
                  inScope: bool): Result {
    var lines := NewLines(inputs);
    if supplierFilial.None? then Fail(NotFound)
    else if supplierFilial.value != filial then Fail(Forbidden)
    else if !DistinctParts(lines) then Fail(RepeatedPart)
    else if !inScope then Fail(OutOfScope)
    else
      Ok(b.(purchases := b.purchases +
        [Purchase(filial, supplier, Enviada, lines, None, 0, false, None, [Created])]))
  }

  /* ---- goods ---- */

  datatype Arrival = Arrival(line: nat, quantity: nat)

  /** The arrivals that move something. */
  function Nonzero(items: seq<Arrival>): (r: seq<Arrival>)
    ensures forall a :: a in r <==> a in items && a.quantity > 0
  {
    if items == [] then []
    else
      var last := items[|items| - 1];
      var rest := Nonzero(items[..|items| - 1]);
      assert items == items[..|items| - 1] + [last];
      if last.quantity > 0 then rest + [last] else rest
  }

  predicate DistinctLines(items: seq<Arrival>) {
    forall i, j :: 0 <= i < j < |items| ==> items[i].line != items[j].line
  }

  /** The position of the arrival for line `i`, if there is one. */
  function ArrivalOf(items: seq<Arrival>, i: nat): (r: Option<nat>)
    ensures r.Some? ==> r.value < |items| && items[r.value].line == i
    ensures r.None? ==> forall a :: a in items ==> a.line != i
  {
    if items == [] then None
    else if items[|items| - 1].line == i then Some(|items| - 1)
    else
      var r := ArrivalOf(items[..|items| - 1], i);
      assert items == items[..|items| - 1] + [items[|items| - 1]];
      r
  }

  function Stocked(line: Line, lot: nat, quantity: nat): Line {
    line.(received := line.received + quantity, receipts := line.receipts + [Receipt(lot, quantity)])
  }

  /** The lines after arrival `j` went into lot `firstLot + j`. */
  function ReceivedLines(lines: seq<Line>, arrivals: seq<Arrival>, firstLot: nat): (r: seq<Line>)
    ensures |r| == |lines|
  {
    seq(|lines|, i requires 0 <= i < |lines| =>
      var j := ArrivalOf(arrivals, i);
      if j.None? then lines[i] else Stocked(lines[i], firstLot + j.value, arrivals[j.value].quantity))
  }

  predicate Receivable(lines: seq<Line>, a: Arrival) {
    a.line < |lines| && lines[a.line].unitCost.Some?
  }

  function NewLot(p: nat, line: Line, quantity: nat): Lot
    requires line.unitCost.Some?
  {
    Lot(Some(p), line.part, quantity, line.unitCost.value, None)
  }

  function NewLots(p: nat, lines: seq<Line>, arrivals: seq<Arrival>): (r: seq<Lot>)
    requires forall a :: a in arrivals ==> Receivable(lines, a)
    ensures |r| == |arrivals|
  {
    seq(|arrivals|, j requires 0 <= j < |arrivals| && Receivable(lines, arrivals[j]) =>
      NewLot(p, lines[arrivals[j].line], arrivals[j].quantity))
  }

  function ReceivedEvents(arrivals: seq<Arrival>, firstLot: nat): (r: seq<Activity>)
    ensures |r| == |arrivals|
  {
    seq(|arrivals|, j requires 0 <= j < |arrivals| => Received(firstLot + j, arrivals[j].quantity))
  }

  /** What the loop raises for one item, if anything. */
  function Problem(lines: seq<Line>, a: Arrival): Option<Error>
    requires a.line < |lines|
  {
    if a.quantity > lines[a.line].quantity - lines[a.line].received then Some(OverReceived)
    else if a.quantity > 0 && lines[a.line].unitCost.None? then Some(NotQuoted)
    else None
  }

  /** The problem of the first item that has one. */
  function FirstProblem(lines: seq<Line>, items: seq<Arrival>): (r: Option<Error>)
    requires forall a :: a in items ==> a.line < |lines|
    ensures r.None? <==> forall a :: a in items ==> Problem(lines, a).None?
  {
    if items == [] then None
    else
      var here := Problem(lines, items[0]);
      if here.Some? then here else FirstProblem(lines, items[1..])
  }

  predicate AllReceived(lines: seq<Line>) {
    forall i :: 0 <= i < |lines| ==> lines[i].received == lines[i].quantity
  }

  predicate NoneReceived(lines: seq<Line>) {
    forall i :: 0 <= i < |lines| ==> lines[i].received == 0
  }

  /** `receive`: all of it or nothing. */
  function Receive(b: Books, p: nat, items: seq<Arrival>, inScope: bool): Result {
    if p >= |b.purchases| then Fail(NotFound)
    else
      var x := b.purchases[p];
      if x.status !in {Enviada, Cotizada, Pagada} then Fail(WrongStatus)
      else if !DistinctLines(items) || exists a :: a in items && a.line >= |x.lines| then Fail(BadLines)
      else if Nonzero(items) == [] then Fail(NothingReceived)
      else if !inScope then Fail(OutOfScope)
      else
        var problem := FirstProblem(x.lines, items);
        if problem.Some? then Fail(problem.value)
        else
          var arrivals := Nonzero(items);
          var lines := ReceivedLines(x.lines, arrivals, |b.lots|);
          Ok(b.(
            purchases := b.purchases[p := x.(
              lines := lines,
              activity := x.activity + ReceivedEvents(arrivals, |b.lots|),
              status := if AllReceived(lines) then Recibida else x.status)],
            lots := b.lots + NewLots(p, x.lines, arrivals)))
  }

  /* ---- update_request_status ---- */

  predicate Allowed(from: Status, to: Status) {
    match from
    case Enviada => to == Cotizada || to == Cancelada
    case Cotizada => to == Pagada || to == Cancelada
    case Pagada => to == Recibida || to == Cancelada
    case Recibida => to == Conciliada
    case _ => false
  }

  datatype Quote = Quote(line: nat, unitCost: Cents)

  /** The quote for line `i`; a repeated line keeps its last quote. */
  function QuoteOf(quotes: seq<Quote>, i: nat): Option<Cents> {
    if quotes == [] then None
    else if quotes[|quotes| - 1].line == i then Some(quotes[|quotes| - 1].unitCost)
    else QuoteOf(quotes[..|quotes| - 1], i)
  }

  predicate HasQuote(quotes: seq<Quote>, i: nat) { QuoteOf(quotes, i).Some? }

  function QuotedLines(lines: seq<Line>, quotes: seq<Quote>): (r: seq<Line>)
    ensures |r| == |lines|
  {
    seq(|lines|, i requires 0 <= i < |lines| => lines[i].(unitCost := QuoteOf(quotes, i)))
  }

  /** What is still missing of each line. */
  function Missing(lines: seq<Line>): (r: seq<Arrival>)
    ensures |r| == |lines| && DistinctLines(r)
    ensures forall a :: a in r ==> a.line < |lines|
  {
    seq(|lines|, i requires 0 <= i < |lines| =>
      Arrival(i, if lines[i].received < lines[i].quantity then lines[i].quantity - lines[i].received else 0))
  }

  function UpdateStatus(b: Books, p: nat, to: Status, quotes: seq<Quote>, warehouse: bool): Result {
    if p >= |b.purchases| then Fail(NotFound)
    else
      var x := b.purchases[p];
      if to == Cancelada && !NoneReceived(x.lines) then Fail(HasGoods)
      else if to == x.status then Ok(b)
      else if to == Pagada || to == Conciliada then Fail(UseFinancialWorkflow)
      else if !Allowed(x.status, to) then Fail(BadTransition)
      else if to == Cotizada then
        if exists i :: 0 <= i < |x.lines| && !HasQuote(quotes, i) then Fail(QuoteRequired)
        else Ok(b.(purchases := b.purchases[p := x.(
          lines := QuotedLines(x.lines, quotes), status := Cotizada, activity := x.activity + [Quoted])]))
      else if to == Recibida then
        if !warehouse then Fail(WarehouseRequired)
        else if exists i :: 0 <= i < |x.lines| && x.lines[i].unitCost.None? then Fail(QuoteRequired)
        else
          var arrivals := Nonzero(Missing(x.lines));
          Ok(b.(
            purchases := b.purchases[p := x.(
              lines := ReceivedLines(x.lines, arrivals, |b.lots|),
              status := Recibida, activity := x.activity + [StatusReceived])],
            lots := b.lots + NewLots(p, x.lines, arrivals)))
      else
        Ok(b.(purchases := b.purchases[p := x.(status := to, activity := x.activity + [Cancelled])]))
  }

  /** A warehouse transfer: the new lot keeps the purchase reference and the unit cost of its origin. */
  function TransferLot(b: Books, origin: nat, quantity: nat): Result {
    if origin >= |b.lots| then Fail(NotFound)
    else
      var from := b.lots[origin];
      Ok(b.(lots := b.lots + [Lot(from.purchase, from.part, quantity, from.unitCost, Some(origin))]))
  }

  /* ---- reconcile ---- */

  datatype InvoicedLine = InvoicedLine(line: nat, unitCost: real)

  datatype InvoiceInput = InvoiceInput(number: string, control: string, iva: real, lines: seq<InvoicedLine>)

  predicate Invoices(items: seq<InvoicedLine>, i: nat) { exists x :: x in items && x.line == i }

  /** Exactly one entry for every line of the purchase. */
  predicate CoversLines(items: seq<InvoicedLine>, n: nat) {
    && (forall i, j :: 0 <= i < j < |items| ==> items[i].line != items[j].line)
    && (forall x :: x in items ==> x.line < n)
    && forall i :: 0 <= i < n ==> Invoices(items, i)
  }

  function InvoicedCost(items: seq<InvoicedLine>, i: nat): Cents {
    if items == [] then 0
    else if items[|items| - 1].line == i then Round(items[|items| - 1].unitCost)
    else InvoicedCost(items[..|items| - 1], i)
  }

  /** Received quantities at invoiced costs, over the first `n` lines. */
  function Subtotal(lines: seq<Line>, items: seq<InvoicedLine>, n: nat): Cents
    requires n <= |lines|
  {
    if n == 0 then 0 else Subtotal(lines, items, n - 1) + lines[n - 1].received * InvoicedCost(items, n - 1)
  }

  function Iva(subtotal: Cents, percentage: real): Cents { Round(FromCents(subtotal) * percentage / 100.0) }

  function InvoicedLines(lines: seq<Line>, items: seq<InvoicedLine>): (r: seq<Line>)
    ensures |r| == |lines|
  {
    seq(|lines|, i requires 0 <= i < |lines| => lines[i].(invoicedCost := Some(InvoicedCost(items, i))))
  }

  /** The line of the purchase that ordered `part`. */
  function LineOf(lines: seq<Line>, part: nat): (r: Option<nat>)
    ensures r.Some? ==> r.value < |lines| && lines[r.value].part == part
    ensures r.None? ==> forall l :: l in lines ==> l.part != part
  {
    if lines == [] then None
    else if lines[|lines| - 1].part == part then Some(|lines| - 1)
    else
      var r := LineOf(lines[..|lines| - 1], part);
      assert lines == lines[..|lines| - 1] + [lines[|lines| - 1]];
      r
  }

  /** Every lot of the purchase, transferred or not, takes the invoiced cost of its part. */
  function Recosted(lot: Lot, p: nat, lines: seq<Line>, items: seq<InvoicedLine>): Lot {
    var i := LineOf(lines, lot.part);
    if lot.purchase == Some(p) && i.Some? then lot.(unitCost := InvoicedCost(items, i.value)) else lot
  }

  function RecostedLots(lots: seq<Lot>, p: nat, lines: seq<Line>, items: seq<InvoicedLine>): (r: seq<Lot>)
    ensures |r| == |lots|
  {
    seq(|lots|, k requires 0 <= k < |lots| => Recosted(lots[k], p, lines, items))
  }

  function Reconcile(b: Books, p: nat, input: InvoiceInput): Result {
    if p >= |b.purchases| then Fail(NotFound)
    else
      var x := b.purchases[p];
      if x.settled && x.paid == 0 then Fail(PriorPaymentUnclear)
      else if x.invoice.Some? then Fail(AlreadyInvoiced)
      else if x.status != Recibida && x.status != Conciliada then Fail(NotReceived)
      else if !CoversLines(input.lines, |x.lines|) then Fail(BadLines)
      else if Text.Strip(input.number) == "" || Text.Strip(input.control) == "" then Fail(MissingNumber)
      else
        var subtotal := Subtotal(x.lines, input.lines, |x.lines|);
        var total := subtotal + Iva(subtotal, input.iva);
        if x.paid > total then Fail(BelowPayments)
        else
          Ok(b.(
            purchases := b.purchases[p := x.(
              lines := InvoicedLines(x.lines, input.lines),
              invoice := Some(Invoice(Text.Strip(input.number), Text.Strip(input.control), input.iva, total)),
              settled := if x.paid < total then false else if total == 0 then true else x.settled,
              status := Conciliada,
              activity := x.activity + [Reconciled(total)])],
            lots := RecostedLots(b.lots, p, x.lines, input.lines)))
  }

  /* ---- pay ---- */

  /** `row` is the account the payment names, as stored. */
  datatype Payment = Payment(
    account: nat, row: Option<Account>, currency: Currency, amount: real, rate: Option<real>, openPeriod: bool)

  predicate PaymentValid(pay: Payment) { pay.amount > 0.0 && (pay.rate.Some? ==> pay.rate.value > 0.0) }

  function PaymentUsd(pay: Payment): Cents
    requires PaymentValid(pay) && (pay.currency == Bs ==> pay.rate.Some?)
  {
    if pay.currency == Bs then Round(pay.amount / pay.rate.value) else Round(pay.amount)
  }

  function Pay(b: Books, p: nat, pay: Payment): Result
    requires PaymentValid(pay)
  {
    if p >= |b.purchases| then Fail(NotFound)
    else
      var x := b.purchases[p];
      if x.invoice.None? then Fail(NotInvoiced)
      else if x.settled then Fail(AlreadyPaid)
      else if pay.row.None? || pay.row.value.filial != x.filial then Fail(Forbidden)
      else if !pay.row.value.active || pay.row.value.currency != pay.currency then Fail(WrongAccount)
      else if !pay.openPeriod then Fail(ClosedPeriod)
      else if pay.currency == Bs && pay.rate.None? then Fail(RateRequired)
      else
        var usd := PaymentUsd(pay);
        var balance := x.invoice.value.total - x.paid;
        if usd <= 0 then Fail(TooSmall)
        else if usd > balance then Fail(Overpayment)
        else
          var id := |b.expenses|;
          Ok(b.(
            expenses := b.expenses + [Entry(
              x.filial, pay.account, pay.currency, Round(pay.amount), Some(usd), PurchasePayment(Some(p)), None)],
            purchases := b.purchases[p := x.(
              paid := x.paid + usd,
              paymentEntry := Some(id),
              settled := x.paid + usd == x.invoice.value.total,
              activity := x.activity + [Paid(id, usd, balance - usd)])]))
  }

  /* ---- create_expense ---- */

  datatype ExpenseInput = ExpenseInput(
    filial: nat, account: nat, row: Option<Account>, openPeriod: bool, supplierCategory: bool,
    currency: Currency, amount: real, bcvRate: Option<real>, supplier: Option<nat>, purchases: seq<nat>,
    attachmentMissing: bool)

  predicate ExpenseValid(e: ExpenseInput) { e.amount > 0.0 && (e.bcvRate.Some? ==> e.bcvRate.value > 0.0) }

  /** What the loop over the purchases raises for one of them. */
  function PayableProblem(b: Books, e: ExpenseInput, p: nat): (r: Option<Error>)
    ensures r.None? ==> p < |b.purchases| && b.purchases[p].invoice.Some?
  {
    if p >= |b.purchases| then Some(NotFound)
    else
      var x := b.purchases[p];
      if x.filial != e.filial then Some(Forbidden)
      else if Some(x.supplier) != e.supplier then Some(SupplierMismatch)
      else if x.status != Conciliada || x.settled then Some(NotPayable)
      else if x.invoice.None? then Some(NotInvoiced)
      else None
  }

  function FirstPayableProblem(b: Books, e: ExpenseInput, ps: seq<nat>): (r: Option<Error>)
    ensures r.None? <==> forall p :: p in ps ==> PayableProblem(b, e, p).None?
  {
    if ps == [] then None
    else
      var here := PayableProblem(b, e, ps[0]);
      if here.Some? then here else FirstPayableProblem(b, e, ps[1..])
  }

  function Balance(x: Purchase): Cents { (if x.invoice.Some? then x.invoice.value.total else 0) - x.paid }

  /** The balance of the first `n` purchases of the list. */
  function TotalBalance(b: Books, ps: seq<nat>, n: nat): Cents
    requires n <= |ps| && forall k :: 0 <= k < |ps| ==> ps[k] < |b.purchases|
  {
    if n == 0 then 0 else TotalBalance(b, ps, n - 1) + Balance(b.purchases[ps[n - 1]])
  }

  /** The purchase after entry `id` paid its whole balance. */
  function Settled(x: Purchase, id: nat): Purchase
    requires x.invoice.Some?
  {
    x.(paid := x.invoice.value.total, settled := true, paymentEntry := Some(id),
       activity := x.activity + [Paid(id, Balance(x), 0)])
  }

  function SettledPurchases(b: Books, ps: seq<nat>, id: nat): (r: seq<Purchase>)
    requires forall p :: p in ps ==> p < |b.purchases| && b.purchases[p].invoice.Some?
    ensures |r| == |b.purchases|
  {
    seq(|b.purchases|, i requires 0 <= i < |b.purchases| =>
      if i in ps then Settled(b.purchases[i], id) else b.purchases[i])
  }

  function ExpenseUsd(e: ExpenseInput): real
    requires ExpenseValid(e) && (e.currency == Bs ==> e.bcvRate.Some?)
  {
    if e.currency == Usd then e.amount else e.amount / e.bcvRate.value
  }

  function CreateExpense(b: Books, e: ExpenseInput): Result
    requires ExpenseValid(e)
  {
    if !e.openPeriod then Fail(ClosedPeriod)
    else if e.row.None? then Fail(NotFound)
    else if e.row.value.currency != e.currency then Fail(WrongAccount)
    else if e.supplierCategory && e.purchases == [] then Fail(PayableRequired)
    else if e.purchases != [] && e.supplier.None? then Fail(SupplierRequired)
    else
      var problem := FirstPayableProblem(b, e, e.purchases);
      assert problem.None? ==> forall k :: 0 <= k < |e.purchases| ==>
        e.purchases[k] in e.purchases && PayableProblem(b, e, e.purchases[k]).None?;
      if problem.Some? then Fail(problem.value)
      else if e.currency == Bs && e.bcvRate.None? then Fail(RateRequired)
      else if e.purchases != [] && !Distinct(e.purchases) then Fail(RepeatedPurchase)
      else if e.purchases != [] && Round(ExpenseUsd(e)) != TotalBalance(b, e.purchases, |e.purchases|)
      then Fail(MustCoverBalance)
      else if e.attachmentMissing then Fail(AttachmentRequired)
      else
        var source :=
          if e.purchases == [] then Manual
          else PurchasePayment(if |e.purchases| == 1 then Some(e.purchases[0]) else None);
        Ok(b.(
          expenses := b.expenses + [Entry(
            e.filial, e.account, e.currency, Round(e.amount), Some(Round(ExpenseUsd(e))), source, None)],
          purchases := SettledPurchases(b, e.purchases, |b.expenses|)))
  }

  /** An expense some other module records: a reservation refund, one leg of a transfer, a claim. */
  function RecordOther(b: Books, e: Entry): Result
    requires Original(e) && !e.source.PurchasePayment?
  {
    Ok(b.(expenses := b.expenses + [e]))
  }

  /* ---- reverse_expense ---- */

  /** Whether reversing entry `e` finds and corrects purchase `p`. */
  predicate Finds(b: Books, e: nat, p: nat)
    requires e < |b.expenses| && p < |b.purchases|
  {
    match b.expenses[e].source
    case PurchasePayment(Some(q)) => p == q
    case PurchasePayment(None) => b.purchases[p].paymentEntry == Some(e)
    case Manual => b.purchases[p].paymentEntry == Some(e) && b.purchases[p].filial == b.expenses[e].filial
    case _ => false
  }

  /** The amount of the latest payment event for entry `e`. */
  function LastPaid(activity: seq<Activity>, e: nat): Option<Cents> {
    if activity == [] then None
    else
      var last := activity[|activity| - 1];
      if last.Paid? && last.expense == e then Some(last.amount) else LastPaid(activity[..|activity| - 1], e)
  }

  function AmountToUndo(x: Purchase, e: nat, entry: Entry): Cents {
    var event := LastPaid(x.activity, e);
    if event.Some? then event.value else Dollars(entry)
  }

  function Unpaid(x: Purchase, e: nat, entry: Entry): Purchase {
    var amount := AmountToUndo(x, e, entry);
    x.(paid := Max(0, x.paid - amount), settled := false,
       paymentEntry := if x.paymentEntry == Some(e) then None else x.paymentEntry,
       activity := x.activity + [PaymentReversed(e, amount)])
  }

  function UnpaidPurchases(b: Books, e: nat): (r: seq<Purchase>)
    requires e < |b.expenses|
    ensures |r| == |b.purchases|
  {
    seq(|b.purchases|, p requires 0 <= p < |b.purchases| =>
      if Finds(b, e, p) then Unpaid(b.purchases[p], e, b.expenses[e]) else b.purchases[p])
  }

  function ReverseExpense(b: Books, e: nat): Result {
    if e >= |b.expenses| then Fail(NotFound)
    else if b.expenses[e].source == Reservation then Fail(Blocked)
    else if Reversed(b.expenses, e) then Fail(AlreadyReversed)
    else Ok(b.(expenses := b.expenses + [CounterEntry(b.expenses, e)], purchases := UnpaidPurchases(b, e)))
  }
}

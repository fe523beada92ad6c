/**
  What each call on purchases answers, in amounts, rows and reasons: exactly when it is
  accepted, and what an accepted call changes.
 */
module PurchaseAnswers {
  import opened Prelude
  import opened Money
  import opened Ledger
  import opened Purchases
  import opened PurchaseGoods
  import opened PurchasePayments
  import opened PurchaseSteps
  import Text

  /** All purchases but `p` are as they were. */
  predicate OnlyPurchase(before: Books, after: Books, p: nat) {
    && |after.purchases| == |before.purchases|
    && forall q :: 0 <= q < |before.purchases| && q != p ==> after.purchases[q] == before.purchases[q]
  }

  /* ---- pay ---- */

  /** What a payment is worth in dollars. */
  function DollarValue(pay: Payment): real
    requires PaymentValid(pay) && (pay.currency == Bs ==> pay.rate.Some?)
  {
    if pay.currency == Bs then pay.amount / pay.rate.value else pay.amount
  }

  /** Everything but the amount allows the payment. */
  predicate CanPay(b: Books, p: nat, pay: Payment) {
    && p < |b.purchases| && b.purchases[p].invoice.Some? && !b.purchases[p].settled
    && pay.row == Some(Account(b.purchases[p].filial, pay.currency, true)) && pay.openPeriod
    && (pay.currency == Bs ==> pay.rate.Some?)
  }

  /** A payment is accepted exactly when its cents are positive and within what is left to pay. */
  lemma PayAcceptedIff(b: Books, p: nat, pay: Payment, usd: Cents)
    requires PaymentValid(pay)
    requires (pay.currency == Bs ==> pay.rate.Some?) ==> Nearest(DollarValue(pay), usd)
    ensures Pay(b, p, pay).Ok? <==>
      CanPay(b, p, pay) && 0 < usd <= b.purchases[p].invoice.value.total - b.purchases[p].paid
  {
    if pay.currency == Bs ==> pay.rate.Some? {
      if pay.currency == Bs { assert pay.amount / pay.rate.value >= 0.0; }
      NearestIsRound(DollarValue(pay), usd);
    }
    hide Round;
  }

  /** An accepted payment: one new expense for the very amounts, and the purchase that much more paid. */
  lemma PayEffect(b: Books, p: nat, pay: Payment)
    requires PaymentValid(pay) && Pay(b, p, pay).Ok?
    ensures
      var b' := Pay(b, p, pay).books;
      var n := |b.expenses|;
      && |b'.expenses| == n + 1 && b'.expenses[..n] == b.expenses && b'.lots == b.lots
      && OnlyPurchase(b, b', p) && CanPay(b, p, pay)
      && var e := b'.expenses[n];
         var x, x' := b.purchases[p], b'.purchases[p];
         && e.amountUsd.Some? && Nearest(DollarValue(pay), e.amountUsd.value) && Nearest(pay.amount, e.amount)
         && e.account == pay.account && e.currency == pay.currency && e.filial == x.filial
         && e.source == PurchasePayment(Some(p)) && Original(e)
         && x'.paid == x.paid + e.amountUsd.value && x'.paymentEntry == Some(n)
         && (x'.settled <==> x'.paid == x.invoice.value.total)
         && x'.activity == x.activity + [Paid(n, e.amountUsd.value, x.invoice.value.total - x'.paid)]
         && x'.lines == x.lines && x'.status == x.status && x'.invoice == x.invoice
         && x'.filial == x.filial && x'.supplier == x.supplier
  {
    if pay.currency == Bs { assert pay.amount / pay.rate.value >= 0.0; }
    NearestIsRound(DollarValue(pay), Round(DollarValue(pay)));
    NearestIsRound(pay.amount, Round(pay.amount));
    hide Round, Nearest;
  }

  /** The reason a refused payment is given is a true one. */
  lemma PayReason(b: Books, p: nat, pay: Payment)
    requires PaymentValid(pay) && Pay(b, p, pay).Fail?
    ensures
      match Pay(b, p, pay).error
      case NotFound => p >= |b.purchases|
      case NotInvoiced => p < |b.purchases| && b.purchases[p].invoice.None?
      case AlreadyPaid => p < |b.purchases| && b.purchases[p].settled
      case Forbidden => p < |b.purchases| && (pay.row.None? || pay.row.value.filial != b.purchases[p].filial)
      case WrongAccount => pay.row.Some? && (!pay.row.value.active || pay.row.value.currency != pay.currency)
      case ClosedPeriod => !pay.openPeriod
      case RateRequired => pay.currency == Bs && pay.rate.None?
      case TooSmall => (pay.currency == Bs ==> pay.rate.Some?) && DollarValue(pay) < 0.005
      case Overpayment =>
        && p < |b.purchases| && b.purchases[p].invoice.Some? && (pay.currency == Bs ==> pay.rate.Some?)
        && forall usd: Cents :: Nearest(DollarValue(pay), usd) ==>
             b.purchases[p].invoice.value.total < b.purchases[p].paid + usd
      case _ => false
  {
    if pay.currency == Bs ==> pay.rate.Some? {
      if pay.currency == Bs { assert pay.amount / pay.rate.value >= 0.0; }
      var usd := Round(DollarValue(pay));
      forall c: Cents | Nearest(DollarValue(pay), c) ensures c == usd { NearestIsRound(DollarValue(pay), c); }
      NearestIsRound(DollarValue(pay), usd);
    }
    hide Round;
  }

  /* ---- reconcile ---- */

  predicate Priced(items: seq<InvoicedLine>, i: nat) { exists k :: 0 <= k < |items| && items[k].line == i }

  /** One entry of the invoice for every line of the purchase, and no other. */
  predicate OneEntryEach(items: seq<InvoicedLine>, n: nat) {
    && (forall k :: 0 <= k < |items| ==> items[k].line < n)
    && (forall k, m :: 0 <= k < m < |items| ==> items[k].line != items[m].line)
    && (forall i :: 0 <= i < n ==> Priced(items, i))
  }

  lemma PricedIff(items: seq<InvoicedLine>, i: nat)
    ensures Invoices(items, i) <==> Priced(items, i)
  {
    if k :| 0 <= k < |items| && items[k].line == i { assert items[k] in items; }
  }

  lemma CoversIff(items: seq<InvoicedLine>, n: nat)
    ensures CoversLines(items, n) <==> OneEntryEach(items, n)
  {
    forall i: nat ensures Invoices(items, i) <==> Priced(items, i) { PricedIff(items, i); }
    forall k | 0 <= k < |items| ensures items[k] in items {}
  }

  /** An invoice is accepted exactly for a complete purchase without one, numbered, and with every line priced once. */
  lemma ReconcileAcceptedIff(b: Books, p: nat, input: InvoiceInput)
    requires GoodsOk(b) && MoneyOk(b) && InvoiceValid(input)
    ensures Reconcile(b, p, input).Ok? <==>
      && p < |b.purchases| && b.purchases[p].status == Recibida && OneEntryEach(input.lines, |b.purchases[p].lines|)
      && !Text.Blank(input.number) && !Text.Blank(input.control)
  {
    CoversIff(input.lines, if p < |b.purchases| then |b.purchases[p].lines| else 0);
    Text.StripIsBlank(input.number);
    Text.StripIsBlank(input.control);
    if p < |b.purchases| {
      var x := b.purchases[p];
      assert PurchaseOk(p, x, b.lots) && PaymentsOk(p, x, b.expenses);
      SubtotalNonNegative(x.lines, input.lines, |x.lines|);
      IvaNonNegative(Subtotal(x.lines, input.lines, |x.lines|), input.iva);
    }
    hide GoodsOk, MoneyOk, PurchaseOk, EventsOk, Iva, Subtotal, CoversLines, OneEntryEach, Text.Strip, Text.Blank;
  }

  lemma {:induction false} CostIsNearest(items: seq<InvoicedLine>, k: nat)
    requires k < |items| && items[k].unitCost >= 0.0
    requires forall m, n :: 0 <= m < n < |items| ==> items[m].line != items[n].line
    ensures Nearest(items[k].unitCost, InvoicedCost(items, items[k].line))
  {
    NearestIsRound(items[k].unitCost, Round(items[k].unitCost));
    hide Nearest, Round;
    var last := |items| - 1;
    if k < last { CostIsNearest(items[..last], k); }
  }

  /** `tax` cents are the cents nearest to that percentage of `base` cents, ties going up. */
  predicate NearestPercentage(base: Cents, percentage: real, tax: Cents) {
    -0.5 <= base as real * percentage / 100.0 - tax as real < 0.5
  }

  lemma IvaIsNearest(subtotal: Cents, percentage: real)
    requires subtotal >= 0 && percentage >= 0.0
    ensures NearestPercentage(subtotal, percentage, Iva(subtotal, percentage))
  {
    var iva := FromCents(subtotal) * percentage / 100.0;
    assert FromCents(subtotal) * percentage >= 0.0;
    assert iva * 100.0 == subtotal as real * percentage / 100.0;
    RoundIsNearest(iva, Round(iva));
  }

  lemma {:induction false} ReceiptsNonNegative(receipts: seq<Receipt>, lots: seq<Lot>)
    requires forall r :: r in receipts ==> r.lot < |lots| && 0 <= lots[r.lot].unitCost
    ensures 0 <= ReceiptValue(receipts, lots)
  {
    if receipts != [] {
      var r := receipts[|receipts| - 1];
      assert r in receipts && forall s :: s in receipts[..|receipts| - 1] ==> s in receipts;
      ReceiptsNonNegative(receipts[..|receipts| - 1], lots);
      assert 0 <= r.quantity * lots[r.lot].unitCost;
    }
  }

  lemma {:induction false} StockNonNegative(lines: seq<Line>, lots: seq<Lot>, n: nat)
    requires n <= |lines|
    requires forall i, r :: 0 <= i < n && r in lines[i].receipts ==> r.lot < |lots| && 0 <= lots[r.lot].unitCost
    ensures 0 <= StockValue(lines, lots, n)
  {
    if n > 0 {
      StockNonNegative(lines, lots, n - 1);
      ReceiptsNonNegative(lines[n - 1].receipts, lots);
    }
  }

  /** The lots of every receipt of a reconciled purchase. */
  lemma ReceiptsCost(b: Books, p: nat, input: InvoiceInput, i: nat, r: Receipt)
    requires GoodsOk(b) && InvoiceValid(input) && Reconcile(b, p, input).Ok?
    requires
      var b' := Reconcile(b, p, input).books;
      i < |b'.purchases[p].lines| && r in b'.purchases[p].lines[i].receipts
    ensures
      var b' := Reconcile(b, p, input).books;
      r.lot < |b'.lots| && 0 <= b'.lots[r.lot].unitCost
  {
    var b' := Reconcile(b, p, input).books;
    ReconciliationConservesValue(b, p, input);
    assert LineOk(p, b'.purchases[p].lines[i], b'.lots);
    assert ReceiptOk(p, b'.purchases[p].lines[i].part, r, b'.lots);
    InvoicedCostNonNegative(input.lines, LineOf(b'.purchases[p].lines, b'.lots[r.lot].part).value);
  }

  lemma WithInvoice(b: Books, p: nat, input: InvoiceInput)
    requires Reconcile(b, p, input).Ok?
    ensures
      var b' := Reconcile(b, p, input).books;
      p < |b'.purchases| && b'.purchases[p].invoice.Some?
    ensures InvoiceValid(input) ==> input.iva >= 0.0
  {
  }

  /** The receipts of a purchase name lots. */
  predicate ReceiptsHaveLots(b: Books, p: nat)
    requires p < |b.purchases|
  {
    forall i, r :: 0 <= i < |b.purchases[p].lines| && r in b.purchases[p].lines[i].receipts ==> r.lot < |b.lots|
  }

  /** The value of what a purchase received, at the costs of its lots. */
  function ReceivedWorth(b: Books, p: nat): Cents
    requires p < |b.purchases| && ReceiptsHaveLots(b, p)
  {
    StockValue(b.purchases[p].lines, b.lots, |b.purchases[p].lines|)
  }

  lemma ReceivedIsWorthSomething(b: Books, p: nat, input: InvoiceInput)
    requires GoodsOk(b) && InvoiceValid(input) && Reconcile(b, p, input).Ok?
    ensures
      var b' := Reconcile(b, p, input).books;
      p < |b'.purchases| && ReceiptsHaveLots(b', p) && 0 <= ReceivedWorth(b', p)
  {
    WithInvoice(b, p, input);
    var b' := Reconcile(b, p, input).books;
    var lines' := b'.purchases[p].lines;
    hide Reconcile, GoodsOk, InvoiceValid, StockValue;
    forall i, r | 0 <= i < |lines'| && r in lines'[i].receipts
      ensures r.lot < |b'.lots| && 0 <= b'.lots[r.lot].unitCost
    {
      ReceiptsCost(b, p, input, i, r);
    }
    StockNonNegative(lines', b'.lots, |lines'|);
  }

  lemma TotalIs(b: Books, p: nat, input: InvoiceInput)
    requires GoodsOk(b) && Reconcile(b, p, input).Ok?
    requires var b' := Reconcile(b, p, input).books; p < |b'.purchases| && ReceiptsHaveLots(b', p)
    ensures
      var b' := Reconcile(b, p, input).books;
      b'.purchases[p].invoice.Some?
      && b'.purchases[p].invoice.value.total == ReceivedWorth(b', p) + Iva(ReceivedWorth(b', p), input.iva)
  {
    WithInvoice(b, p, input);
    hide Reconcile, GoodsOk, StockValue, Iva, LineOk, LineOf;
    ReconciliationConservesValue(b, p, input);
  }

  /**
    Main result: after reconciling, the total is the value of the stock that was received,
    at its new costs, plus the percentage of it, to the nearest cent.
   */
  lemma ReconcileTotal(b: Books, p: nat, input: InvoiceInput)
    requires GoodsOk(b) && InvoiceValid(input) && Reconcile(b, p, input).Ok?
    ensures
      var b' := Reconcile(b, p, input).books;
      && p < |b'.purchases| && b'.purchases[p].invoice.Some? && ReceiptsHaveLots(b', p)
      && NearestPercentage(ReceivedWorth(b', p), input.iva, b'.purchases[p].invoice.value.total - ReceivedWorth(b', p))
  {
    WithInvoice(b, p, input);
    hide *;
    ReceivedIsWorthSomething(b, p, input);
    TotalIs(b, p, input);
    IvaIsNearest(ReceivedWorth(Reconcile(b, p, input).books, p), input.iva);
  }

  /** Every lot that holds a part of line `k` of the invoice, transferred or not, costs what the invoice says. */
  lemma ReconcileCosts(b: Books, p: nat, input: InvoiceInput, k: nat, lot: nat)
    requires GoodsOk(b) && InvoiceValid(input) && Reconcile(b, p, input).Ok?
    requires k < |input.lines| && lot < |b.lots| && b.lots[lot].purchase == Some(p)
    requires
      var line := input.lines[k].line;
      line < |b.purchases[p].lines| && b.purchases[p].lines[line].part == b.lots[lot].part
    ensures
      var after := Reconcile(b, p, input).books.lots[lot];
      && Nearest(input.lines[k].unitCost, after.unitCost)
      && after == b.lots[lot].(unitCost := after.unitCost)
  {
    var line := input.lines[k].line;
    CostIsNearest(input.lines, k);
    assert PurchaseOk(p, b.purchases[p], b.lots);
    LineOfFinds(b.purchases[p].lines, line);
    hide GoodsOk, Nearest, InvoicedCost, LineOf, Iva, Subtotal;
  }

  /** What else an invoice changes, and what not. */
  lemma ReconcileEffect(b: Books, p: nat, input: InvoiceInput)
    requires GoodsOk(b) && MoneyOk(b) && InvoiceValid(input) && Reconcile(b, p, input).Ok?
    ensures
      var b' := Reconcile(b, p, input).books;
      && b'.expenses == b.expenses && OnlyPurchase(b, b', p) && |b'.lots| == |b.lots|
      && (forall k :: 0 <= k < |b.lots| && b.lots[k].purchase != Some(p) ==> b'.lots[k] == b.lots[k])
      && var x, x' := b.purchases[p], b'.purchases[p];
         && x'.status == Conciliada && x'.invoice.Some? && x'.paid == x.paid == 0
         && (x'.settled <==> x'.invoice.value.total == 0)
         && x'.invoice.value.number == Text.Strip(input.number) && x'.invoice.value.control == Text.Strip(input.control)
         && x'.invoice.value.iva == input.iva && x'.paymentEntry == x.paymentEntry
         && x'.activity == x.activity + [Reconciled(x'.invoice.value.total)]
         && x'.filial == x.filial && x'.supplier == x.supplier && |x'.lines| == |x.lines|
         && forall i :: 0 <= i < |x.lines| ==>
              x'.lines[i].invoicedCost.Some? && x'.lines[i] == x.lines[i].(invoicedCost := x'.lines[i].invoicedCost)
  {
    var x := b.purchases[p];
    ReconcileAcceptedIff(b, p, input);
    assert PaymentsOk(p, x, b.expenses) && PurchaseOk(p, x, b.lots);
    SubtotalNonNegative(x.lines, input.lines, |x.lines|);
    IvaNonNegative(Subtotal(x.lines, input.lines, |x.lines|), input.iva);
    hide GoodsOk, MoneyOk, PurchaseOk, EventsOk, Iva, Subtotal, CoversLines, Text.Strip, InvoicedCost, LineOf;
  }

  /** What the promises say of the purchase an invoice names. */
  lemma InvoiceGuards(b: Books, p: nat, input: InvoiceInput)
    requires GoodsOk(b) && MoneyOk(b) && InvoiceValid(input) && p < |b.purchases|
    ensures
      var x := b.purchases[p];
      var subtotal := Subtotal(x.lines, input.lines, |x.lines|);
      && (x.status == Conciliada <==> x.invoice.Some?)
      && (x.invoice.None? ==> x.paid == 0 && !x.settled)
      && 0 <= subtotal + Iva(subtotal, input.iva)
  {
    var x := b.purchases[p];
    assert PurchaseOk(p, x, b.lots) && PaymentsOk(p, x, b.expenses);
    SubtotalNonNegative(x.lines, input.lines, |x.lines|);
    IvaNonNegative(Subtotal(x.lines, input.lines, |x.lines|), input.iva);
  }

  /** The reason a refused invoice is given is a true one. */
  lemma ReconcileReason(b: Books, p: nat, input: InvoiceInput)
    requires GoodsOk(b) && MoneyOk(b) && InvoiceValid(input) && Reconcile(b, p, input).Fail?
    ensures
      match Reconcile(b, p, input).error
      case NotFound => p >= |b.purchases|
      case PriorPaymentUnclear => p < |b.purchases| && b.purchases[p].invoice.Some? && b.purchases[p].paid == 0
      case AlreadyInvoiced => p < |b.purchases| && b.purchases[p].invoice.Some?
      case NotReceived => p < |b.purchases| && b.purchases[p].status != Recibida
      case BadLines => p < |b.purchases| && !OneEntryEach(input.lines, |b.purchases[p].lines|)
      case MissingNumber => Text.Blank(input.number) || Text.Blank(input.control)
      case _ => false
  {
    if p < |b.purchases| {
      InvoiceGuards(b, p, input);
      CoversIff(input.lines, |b.purchases[p].lines|);
    }
    Text.StripIsBlank(input.number);
    Text.StripIsBlank(input.control);
    hide GoodsOk, MoneyOk, Iva, Subtotal, CoversLines, OneEntryEach, Text.Strip, Text.Blank, InvoicedLines;
    hide RecostedLots;
  }

  /* ---- create_expense ---- */

  /** What an expense is worth in dollars. */
  function ExpenseValue(e: ExpenseInput): real
    requires ExpenseValid(e) && (e.currency == Bs ==> e.bcvRate.Some?)
  {
    if e.currency == Bs then e.amount / e.bcvRate.value else e.amount
  }

  /** The expense may settle purchase `p`. */
  predicate CanSettle(b: Books, e: ExpenseInput, p: nat) {
    && p < |b.purchases| && b.purchases[p].filial == e.filial && e.supplier == Some(b.purchases[p].supplier)
    && b.purchases[p].status == Conciliada && !b.purchases[p].settled && b.purchases[p].invoice.Some?
  }

  /** What the listed purchases still owe, all together. */
  function Owed(b: Books, ps: seq<nat>): Cents
    requires forall k :: 0 <= k < |ps| ==> ps[k] < |b.purchases| && b.purchases[ps[k]].invoice.Some?
  {
    if ps == [] then 0
    else
      var x := b.purchases[ps[|ps| - 1]];
      Owed(b, ps[..|ps| - 1]) + x.invoice.value.total - x.paid
  }

  lemma {:induction false} OwedIs(b: Books, ps: seq<nat>, n: nat)
    requires n <= |ps| && forall k :: 0 <= k < |ps| ==> ps[k] < |b.purchases| && b.purchases[ps[k]].invoice.Some?
    ensures TotalBalance(b, ps, n) == Owed(b, ps[..n])
  {
    if n > 0 {
      OwedIs(b, ps, n - 1);
      assert ps[..n][..n - 1] == ps[..n - 1];
    }
  }

  lemma AllSettleable(b: Books, e: ExpenseInput)
    ensures FirstPayableProblem(b, e, e.purchases).None? <==>
            forall k :: 0 <= k < |e.purchases| ==> CanSettle(b, e, e.purchases[k])
  {
    forall p: nat ensures PayableProblem(b, e, p).None? <==> CanSettle(b, e, p) {}
    forall k | 0 <= k < |e.purchases| ensures e.purchases[k] in e.purchases {}
    hide PayableProblem, CanSettle;
  }

  /** An expense without purchases: from an account of its currency, outside the supplier category. */
  lemma PlainExpenseAcceptedIff(b: Books, e: ExpenseInput)
    requires ExpenseValid(e) && e.purchases == []
    ensures CreateExpense(b, e).Ok? <==>
      && e.openPeriod && e.row.Some? && e.row.value.currency == e.currency && !e.supplierCategory
      && (e.currency == Bs ==> e.bcvRate.Some?) && !e.attachmentMissing
  {
    hide Round;
  }

  lemma ExpenseCents(e: ExpenseInput, c: Cents)
    requires ExpenseValid(e) && (e.currency == Bs ==> e.bcvRate.Some?)
    ensures Nearest(ExpenseValue(e), c) <==> c == Round(ExpenseUsd(e))
    ensures Nearest(e.amount, Round(e.amount))
  {
    if e.currency == Bs { assert e.amount / e.bcvRate.value >= 0.0; }
    NearestIsRound(ExpenseValue(e), c);
    NearestIsRound(e.amount, Round(e.amount));
  }

  /** One that settles purchases, exactly when it may settle each of them and its cents are what they owe together. */
  lemma GroupedExpenseAcceptedIff(b: Books, e: ExpenseInput)
    requires ExpenseValid(e) && e.purchases != []
    ensures CreateExpense(b, e).Ok? <==>
      && e.openPeriod && e.row.Some? && e.row.value.currency == e.currency
      && (forall k :: 0 <= k < |e.purchases| ==> CanSettle(b, e, e.purchases[k]))
      && (forall j, k :: 0 <= j < k < |e.purchases| ==> e.purchases[j] != e.purchases[k])
      && (e.currency == Bs ==> e.bcvRate.Some?) && !e.attachmentMissing
      && Nearest(ExpenseValue(e), Owed(b, e.purchases))
  {
    AllSettleable(b, e);
    if forall k :: 0 <= k < |e.purchases| ==> CanSettle(b, e, e.purchases[k]) {
      assert CanSettle(b, e, e.purchases[0]);
      OwedIs(b, e.purchases, |e.purchases|);
      assert e.purchases[..|e.purchases|] == e.purchases;
      if e.currency == Bs ==> e.bcvRate.Some? { ExpenseCents(e, Owed(b, e.purchases)); }
    }
    hide FirstPayableProblem, PayableProblem, Nearest, Round, ExpenseUsd, ExpenseValue, Owed, TotalBalance;
  }

  /** The entry an accepted expense leaves, and what becomes of every purchase. */
  lemma ExpenseEffect(b: Books, e: ExpenseInput)
    requires ExpenseValid(e) && CreateExpense(b, e).Ok?
    ensures
      var b' := CreateExpense(b, e).books;
      var n := |b.expenses|;
      && |b'.expenses| == n + 1 && b'.expenses[..n] == b.expenses && b'.lots == b.lots
      && (e.currency == Bs ==> e.bcvRate.Some?)
      && var entry := b'.expenses[n];
         && entry.filial == e.filial && entry.account == e.account && entry.currency == e.currency && Original(entry)
         && Nearest(e.amount, entry.amount)
         && entry.amountUsd.Some? && Nearest(ExpenseValue(e), entry.amountUsd.value)
         && entry.source == (if e.purchases == [] then Manual
                             else if |e.purchases| == 1 then PurchasePayment(Some(e.purchases[0]))
                             else PurchasePayment(None))
  {
    ExpenseCents(e, Round(ExpenseUsd(e)));
    hide FirstPayableProblem, PayableProblem, Nearest, Round, ExpenseUsd, ExpenseValue, TotalBalance;
  }

  lemma ExpenseSettles(b: Books, e: ExpenseInput, p: nat)
    requires ExpenseValid(e) && CreateExpense(b, e).Ok? && p < |b.purchases|
    ensures
      var b' := CreateExpense(b, e).books;
      && |b'.purchases| == |b.purchases|
      && var x, x' := b.purchases[p], b'.purchases[p];
         if p !in e.purchases then x' == x
         else
           && x.invoice.Some?
           && x'.paid == x.invoice.value.total && x'.settled && x'.paymentEntry == Some(|b.expenses|)
           && x'.activity == x.activity + [Paid(|b.expenses|, x.invoice.value.total - x.paid, 0)]
           && x'.lines == x.lines && x'.status == x.status && x'.invoice == x.invoice
           && x'.filial == x.filial && x'.supplier == x.supplier
  {
    if p in e.purchases { assert PayableProblem(b, e, p).None?; }
    hide FirstPayableProblem, PayableProblem, Round, ExpenseUsd, TotalBalance;
  }

  /** The reason is true of one of the listed purchases. */
  predicate TrueOfOne(b: Books, e: ExpenseInput, reason: Error) {
    match reason
    case NotFound => exists p :: p in e.purchases && p >= |b.purchases|
    case Forbidden => exists p :: p in e.purchases && p < |b.purchases| && b.purchases[p].filial != e.filial
    case SupplierMismatch =>
      exists p :: p in e.purchases && p < |b.purchases| && Some(b.purchases[p].supplier) != e.supplier
    case NotPayable =>
      exists p :: p in e.purchases && p < |b.purchases|
                  && (b.purchases[p].status != Conciliada || b.purchases[p].settled)
    case NotInvoiced => exists p :: p in e.purchases && p < |b.purchases| && b.purchases[p].invoice.None?
    case _ => false
  }

  lemma {:induction false} FirstPayableIs(b: Books, e: ExpenseInput, ps: seq<nat>)
    ensures FirstPayableProblem(b, e, ps).Some? ==>
      exists p :: p in ps && PayableProblem(b, e, p) == FirstPayableProblem(b, e, ps)
  {
    if ps != [] {
      assert ps == [ps[0]] + ps[1..];
      FirstPayableIs(b, e, ps[1..]);
    }
  }

  lemma PayableReason(b: Books, e: ExpenseInput)
    requires FirstPayableProblem(b, e, e.purchases).Some?
    ensures TrueOfOne(b, e, FirstPayableProblem(b, e, e.purchases).value)
  {
    FirstPayableIs(b, e, e.purchases);
    hide FirstPayableProblem;
  }

  lemma ReasonIsOfPurchase(b: Books, e: ExpenseInput)
    requires FirstPayableProblem(b, e, e.purchases).Some?
    ensures FirstPayableProblem(b, e, e.purchases).value in
            {NotFound, Forbidden, SupplierMismatch, NotPayable, NotInvoiced}
  {
    FirstPayableIs(b, e, e.purchases);
    hide FirstPayableProblem;
  }

  /** The reason a refused expense is given is a true one. */
  lemma ExpenseReason(b: Books, e: ExpenseInput)
    requires ExpenseValid(e) && CreateExpense(b, e).Fail?
    ensures
      match CreateExpense(b, e).error
      case ClosedPeriod => !e.openPeriod
      case WrongAccount => e.row.Some? && e.row.value.currency != e.currency
      case PayableRequired => e.supplierCategory && e.purchases == []
      case SupplierRequired => e.supplier.None?
      case RateRequired => e.currency == Bs && e.bcvRate.None?
      case RepeatedPurchase => !Distinct(e.purchases)
      case MustCoverBalance =>
        && (e.currency == Bs ==> e.bcvRate.Some?)
        && (forall k :: 0 <= k < |e.purchases| ==> CanSettle(b, e, e.purchases[k]))
        && !Nearest(ExpenseValue(e), Owed(b, e.purchases))
      case AttachmentRequired => e.attachmentMissing
      case reason => (reason == NotFound && e.row.None?) || TrueOfOne(b, e, reason)
  {
    AllSettleable(b, e);
    hide FirstPayableProblem, PayableProblem, Nearest, Round, ExpenseUsd, ExpenseValue, Owed, TotalBalance, TrueOfOne;
    if FirstPayableProblem(b, e, e.purchases).Some? {
      PayableReason(b, e);
      ReasonIsOfPurchase(b, e);
    } else {
      OwedIs(b, e.purchases, |e.purchases|);
      assert e.purchases[..|e.purchases|] == e.purchases;
      if e.currency == Bs ==> e.bcvRate.Some? { ExpenseCents(e, Owed(b, e.purchases)); }
    }
  }

  /* ---- reverse_expense ---- */

  lemma ReverseAcceptedIff(b: Books, e: nat)
    ensures ReverseExpense(b, e).Ok? <==>
      && e < |b.expenses| && b.expenses[e].source != Reservation
      && forall k :: 0 <= k < |b.expenses| ==> b.expenses[k].reverses != Some(e)
    ensures ReverseExpense(b, e).Fail? ==>
      match ReverseExpense(b, e).error
      case NotFound => e >= |b.expenses|
      case Blocked => e < |b.expenses| && b.expenses[e].source == Reservation
      case AlreadyReversed => exists k :: 0 <= k < |b.expenses| && b.expenses[k].reverses == Some(e)
      case _ => false
  {
  }

  /** The counter-entry: the same account, the opposite amounts, and no source of its own. */
  lemma CounterEffect(b: Books, e: nat)
    requires ReverseExpense(b, e).Ok?
    ensures
      var b' := ReverseExpense(b, e).books;
      var n := |b.expenses|;
      && |b'.expenses| == n + 1 && b'.expenses[..n] == b.expenses && b'.lots == b.lots && e < n
      && var old_, entry := b.expenses[e], b'.expenses[n];
         && entry.amount == -old_.amount && entry.account == old_.account && entry.currency == old_.currency
         && entry.filial == old_.filial && entry.source == Manual && entry.reverses == Some(e)
         && (entry.amountUsd.Some? <==> old_.amountUsd.Some?)
         && (old_.amountUsd.Some? ==> entry.amountUsd.value == -old_.amountUsd.value)
  {
  }

  lemma {:induction false} LastPaidIsEvent(activity: seq<Activity>, e: nat)
    ensures LastPaid(activity, e).Some? ==>
      exists a :: a in activity && a.Paid? && a.expense == e && a.amount == LastPaid(activity, e).value
  {
    if activity != [] {
      var last := |activity| - 1;
      assert activity == activity[..last] + [activity[last]];
      if !(activity[last].Paid? && activity[last].expense == e) { LastPaidIsEvent(activity[..last], e); }
    }
  }

  /** The entry names the purchase; or the purchase names it, and it is a grouped payment or has no source. */
  predicate Linked(b: Books, e: nat, p: nat)
    requires e < |b.expenses| && p < |b.purchases|
  {
    var x, entry := b.purchases[p], b.expenses[e];
    || entry.source == PurchasePayment(Some(p))
    || (x.paymentEntry == Some(e) && entry.source == PurchasePayment(None))
    || (x.paymentEntry == Some(e) && entry.source == Manual && entry.filial == x.filial)
  }

  lemma {:induction false} NothingPaid(activity: seq<Activity>, e: nat)
    requires forall a :: a in activity && a.Paid? ==> a.expense != e
    ensures LastPaid(activity, e).None?
  {
    if activity != [] {
      var last := |activity| - 1;
      assert activity == activity[..last] + [activity[last]];
      NothingPaid(activity[..last], e);
    }
  }

  /**
    Whatever the books: exactly the linked purchases are opened again, by an event that tells
    the amount, never below nothing paid; one without a payment under the entry loses its dollars.
   */
  lemma ReversalReopens(b: Books, e: nat, p: nat)
    requires ReverseExpense(b, e).Ok? && p < |b.purchases|
    ensures
      var b' := ReverseExpense(b, e).books;
      && |b'.purchases| == |b.purchases| && e < |b.expenses|
      && var x, x' := b.purchases[p], b'.purchases[p];
         if !Linked(b, e, p) then x' == x
         else
           && |x'.activity| == |x.activity| + 1
           && var event := x'.activity[|x.activity|];
              && event.PaymentReversed? && event.expense == e
              && x' == x.(paid := if x.paid < event.amount then 0 else x.paid - event.amount,
                          settled := false, activity := x.activity + [event],
                          paymentEntry := if x.paymentEntry == Some(e) then None else x.paymentEntry)
              && ((forall a :: a in x.activity && a.Paid? ==> a.expense != e) ==>
                   event.amount == (match b.expenses[e].amountUsd case Some(usd) => usd case None => 0))
  {
    var x := b.purchases[p];
    if forall a :: a in x.activity && a.Paid? ==> a.expense != e { NothingPaid(x.activity, e); }
    hide LastPaid;
  }

  /** The purchase the reversed entry paid on its own, or those its group still finds. */
  predicate Corrected(b: Books, e: nat, p: nat)
    requires e < |b.expenses| && p < |b.purchases|
  {
    || b.expenses[e].source == PurchasePayment(Some(p))
    || (b.expenses[e].source == PurchasePayment(None) && b.purchases[p].paymentEntry == Some(e))
  }

  /** A corrected purchase is that recorded payment poorer and open again; every other is as it was. */
  lemma ReversalCorrects(b: Books, e: nat, p: nat)
    requires MoneyOk(b) && ReverseExpense(b, e).Ok? && p < |b.purchases|
    ensures
      var b' := ReverseExpense(b, e).books;
      && |b'.purchases| == |b.purchases| && e < |b.expenses|
      && var x, x' := b.purchases[p], b'.purchases[p];
         if !Corrected(b, e, p) then x' == x
         else
           && |x'.activity| == |x.activity| + 1
           && var event := x'.activity[|x.activity|];
              && event.PaymentReversed? && event.expense == e
              && (exists a :: a in x.activity && a.Paid? && a.expense == e && a.amount == event.amount)
              && x' == x.(paid := x.paid - event.amount, settled := false, activity := x.activity + [event],
                          paymentEntry := if x.paymentEntry == Some(e) then None else x.paymentEntry)
  {
    var x := b.purchases[p];
    if Finds(b, e, p) {
      FoundPayment(b, e, p);
      ClampNeverFires(b, e, p);
      LastPaidIsEvent(x.activity, e);
      hide MoneyOk, LastPaid, PaidIn, Undone;
    } else {
      hide MoneyOk, LastPaid, PaidIn, Undone;
    }
  }
}

/**
  The two reversals the purchases cannot follow, shown on every state where they can
  happen and on one concrete run.
 */
module PurchaseGaps {
  import opened Prelude
  import opened Money
  import opened Ledger
  import P = Purchases
  import opened Purchases
  import opened PurchasePayments
  import opened PurchaseSteps
  import opened PurchaseLedger
  import opened PurchaseRuns

  /**
    Undoing the counter-entry of a payment puts the money back in the ledger but not
    on any purchase: the second reversal has no source to follow.
   */
  lemma UndoingTheCounterEntryIsLost(b: Books, e: nat)
    requires MoneyOk(b) && Agrees(b) && ReverseExpense(b, e).Ok? && b.expenses[e].source.PurchasePayment?
      && Faithful(b, e)
    ensures
      var b1 := ReverseExpense(b, e).books;
      var r := ReverseExpense(b1, |b.expenses|);
      && r.Ok? && r.books.purchases == b1.purchases
      && Valid(r.books.expenses) && Live(r.books.expenses, e) && !Agrees(r.books) && !AmountsMatch(r.books)
  {
    hide AmountsMatch;
    var n := |b.expenses|;
    var b1 := ReverseExpense(b, e).books;
    ReverseKeepsMoney(b, e);
    ReversalKeepsAgreementIff(b, e);
    assert EntryOk(b, e) && b1.expenses[n] == CounterEntry(b.expenses, e);
    assert b1.expenses[e] == b.expenses[e];
    assert !Reversed(b1.expenses, n) by {
      NothingAfter(b1.expenses, n);
    }
    ReversalKeepsAgreementIff(b1, n);
    ReversalKeepsAmountsIff(b1, n);
    forall p | 0 <= p < |b1.purchases| ensures !Finds(b1, n, p) {
      if Finds(b1, n, p) { FoundPayment(b1, n, p); }
    }
    assert UnpaidPurchases(b1, n) == b1.purchases;
    LiveUnreversed(b.expenses, e);
    ReversalFlips(b, e, e);
    ReversalFlips(b1, n, e);
  }

  /**
    Purchase `p` was settled by a grouped payment after an earlier one of its own; the
    earlier one can be reversed and `pay` would then be accepted.
   */
  ghost predicate Regrouped(b: Books, p: nat, first: nat, grouped: nat, pay: Payment) {
    && MoneyOk(b) && p < |b.purchases| && PaymentValid(pay)
    && ReverseExpense(b, first).Ok? && b.expenses[first].source == PurchasePayment(Some(p)) && first != grouped
    && grouped < |b.expenses| && b.expenses[grouped].source == PurchasePayment(None)
    && b.purchases[p].paymentEntry == Some(grouped)
    && Pay(ReverseExpense(b, first).books, p, pay).Ok?
  }

  /** The books after the earlier payment was reversed and the purchase paid again. */
  ghost function PaidAgain(b: Books, p: nat, first: nat, grouped: nat, pay: Payment): Books
    requires Regrouped(b, p, first, grouped, pay)
  {
    Pay(ReverseExpense(b, first).books, p, pay).books
  }

  lemma HiddenGroup(b: Books, p: nat, grouped: nat)
    requires MoneyOk(b) && Agrees(b) && p < |b.purchases| && grouped < |b.expenses| && !Reversed(b.expenses, grouped)
    requires b.expenses[grouped].source == PurchasePayment(None)
    requires LastPaid(b.purchases[p].activity, grouped).Some? && b.purchases[p].paymentEntry != Some(grouped)
    ensures !Faithful(b, grouped)
    ensures
      var r := ReverseExpense(b, grouped);
      && r.Ok? && r.books.purchases[p] == b.purchases[p]
      && Valid(r.books.expenses) && !Agrees(r.books) && !AmountsMatch(r.books)
  {
    hide AmountsMatch;
    assert EntryOk(b, grouped);
    ReversalKeepsAgreementIff(b, grouped);
    ReversalKeepsAmountsIff(b, grouped);
  }

  lemma GroupStaysRecorded(b: Books, p: nat, first: nat, grouped: nat, pay: Payment)
    requires Regrouped(b, p, first, grouped, pay)
    ensures
      var b2 := PaidAgain(b, p, first, grouped, pay);
      && p < |b2.purchases| && b2.purchases[p].paymentEntry == Some(|b.expenses| + 1)
      && LastPaid(b2.purchases[p].activity, grouped).Some?
      && grouped < |b2.expenses| && b2.expenses[grouped] == b.expenses[grouped] && !Reversed(b2.expenses, grouped)
  {
    var b1 := ReverseExpense(b, first).books;
    var b2 := PaidAgain(b, p, first, grouped, pay);
    assert PaymentsOk(p, b.purchases[p], b.expenses);
    NewEventsAreNotPayments(b, first, p, grouped);
    ReversedAppend(b.expenses, CounterEntry(b.expenses, first), grouped);
    ReversedAppend(b1.expenses, b2.expenses[|b1.expenses|], grouped);
    assert b2.expenses == b1.expenses + [b2.expenses[|b1.expenses|]];
    PaymentHistory(b1, DoPay(p, pay), p);
  }

  /**
    A grouped payment is found again only through the purchase's latest payment entry.
    If another payment of the purchase is reversed and the purchase is paid again, the
    grouped payment can no longer be reversed faithfully.
   */
  lemma LaterPaymentHidesTheGroup(b: Books, p: nat, first: nat, grouped: nat, pay: Payment)
    requires Regrouped(b, p, first, grouped, pay) && Agrees(b)
    ensures
      var b2 := PaidAgain(b, p, first, grouped, pay);
      var r := ReverseExpense(b2, grouped);
      && MoneyOk(b2) && Agrees(b2) && !Faithful(b2, grouped)
      && r.Ok? && r.books.purchases[p] == b2.purchases[p]
      && Valid(r.books.expenses) && !Agrees(r.books) && !AmountsMatch(r.books)
  {
    hide AmountsMatch;
    var b1 := ReverseExpense(b, first).books;
    SingleIsFaithful(b, first);
    ReverseKeepsMoney(b, first);
    ReversalKeepsAgreementIff(b, first);
    OtherCallsAgree(b1, DoPay(p, pay));
    GroupStaysRecorded(b, p, first, grouped, pay);
    HiddenGroup(PaidAgain(b, p, first, grouped, pay), p, grouped);
  }

  /* ---- concrete runs ---- */

  const ACCOUNT := Some(Account(1, Usd, true))
  const ORDER := DoCreate(1, 1, Some(1), [LineInput(1, 2, Some(300))], true)

  function Delivery(p: nat): Command { DoReceive(p, [Arrival(0, 2)], true) }

  function InvoiceFor(p: nat): Command { DoReconcile(p, InvoiceInput("A", "B", 0.0, [InvoicedLine(0, 3.0)])) }

  function UsdPayment(amount: real): Payment { Payment(1, ACCOUNT, Usd, amount, None, true) }

  const CALLS := [ORDER, Delivery(0), InvoiceFor(0), DoPay(0, UsdPayment(6.0)), DoReverse(0), DoReverse(1)]

  /** The order of two parts at 3.00, as created and as received into lot `lot`. */
  const ORDERED := Purchase(1, 1, Enviada, [Line(1, 2, 0, [], Some(300), None)], None, 0, false, None, [Created])

  function Delivered(lot: nat): Purchase {
    Purchase(1, 1, Recibida, [Line(1, 2, 2, [Receipt(lot, 2)], Some(300), None)], None, 0, false, None,
             [Created, Received(lot, 2)])
  }

  /** An invoice of 6.00 of which nothing has been paid. */
  predicate Invoiced600(x: Purchase) {
    && x.invoice.Some? && x.invoice.value.total == 600 && x.paid == 0 && !x.settled
    && x.filial == 1 && x.supplier == 1 && x.status == Conciliada
  }

  lemma OrderCreated(b: Books)
    ensures Apply(b, ORDER) == Ok(b.(purchases := b.purchases + [ORDERED]))
  {
    assert NewLines([LineInput(1, 2, Some(300))]) == [Line(1, 2, 0, [], Some(300), None)];
  }

  /** A delivery of one item for the only line of a purchase. */
  lemma OneItem(line: Line, p: nat, lot: nat)
    requires line.unitCost == Some(300) && line.quantity - line.received == 2
    ensures
      var items := [Arrival(0, 2)];
      && DistinctLines(items) && (forall a :: a in items ==> a.line == 0)
      && Nonzero(items) == items && FirstProblem([line], items).None?
      && ReceivedLines([line], items, lot) == [Stocked(line, lot, 2)]
      && ReceivedEvents(items, lot) == [Received(lot, 2)]
      && NewLots(p, [line], items) == [NewLot(p, line, 2)]
  {
    var items := [Arrival(0, 2)];
    assert Nonzero(items[..0]) == [];
    assert forall a :: a in items ==> a == items[0] && Problem([line], a).None?;
    assert ArrivalOf(items, 0) == Some(0);
  }

  lemma DeliveryArrives(b: Books, p: nat)
    requires p < |b.purchases| && b.purchases[p] == ORDERED
    ensures Apply(b, Delivery(p)) ==
            Ok(b.(purchases := b.purchases[p := Delivered(|b.lots|)], lots := b.lots + [Lot(Some(p), 1, 2, 300, None)]))
  {
    hide FirstProblem, Nonzero, ReceivedLines, ReceivedEvents, NewLots;
    var line, lot := ORDERED.lines[0], |b.lots|;
    OneItem(line, p, lot);
    assert Stocked(line, lot, 2) == Delivered(lot).lines[0] by {
      assert [] + [Receipt(lot, 2)] == [Receipt(lot, 2)];
    }
    var r := Apply(b, Delivery(p));
    assert r.Ok?;
    assert r.books.purchases[p].activity == Delivered(lot).activity;
    assert r.books.lots == b.lots + [Lot(Some(p), 1, 2, 300, None)];
    assert AllReceived(r.books.purchases[p].lines);
  }

  lemma InvoicedAt600(b: Books, p: nat, lot: nat)
    requires p < |b.purchases| && b.purchases[p] == Delivered(lot)
    ensures
      var r := Apply(b, InvoiceFor(p));
      && r.Ok? && r.books.expenses == b.expenses && |r.books.purchases| == |b.purchases|
      && Invoiced600(r.books.purchases[p])
      && forall q :: 0 <= q < |b.purchases| && q != p ==> r.books.purchases[q] == b.purchases[q]
  {
    var items := [InvoicedLine(0, 3.0)];
    var lines := b.purchases[p].lines;
    assert Round(3.0) == 300;
    assert InvoicedCost(items, 0) == 300;
    assert Subtotal(lines, items, 0) == 0;
    assert Subtotal(lines, items, 1) == 600;
    assert Iva(600, 0.0) == 0;
    assert items[0] in items && Invoices(items, 0);
    assert CoversLines(items, 1);
  }

  /** Ordering, receiving and invoicing adds one open purchase and leaves the others and the ledger alone. */
  lemma InvoicedOrder(b: Books)
    ensures
      var p := |b.purchases|;
      var b3 := Next(Next(Next(b, ORDER), Delivery(p)), InvoiceFor(p));
      && |b3.purchases| == p + 1 && b3.expenses == b.expenses && Invoiced600(b3.purchases[p])
      && forall q :: 0 <= q < p ==> b3.purchases[q] == b.purchases[q]
  {
    hide Apply, Invoiced600;
    var p := |b.purchases|;
    OrderCreated(b);
    var b1 := Next(b, ORDER);
    DeliveryArrives(b1, p);
    var b2 := Next(b1, Delivery(p));
    InvoicedAt600(b2, p, |b.lots|);
  }

  lemma InvoicedAfterThree()
    ensures AllValid(CALLS)
    ensures
      var b := After(CALLS, 3);
      |b.purchases| == 1 && b.expenses == [] && Invoiced600(b.purchases[0])
  {
    hide Next, Invoiced600;
    InvoicedOrder(NoBooks);
    assert After(CALLS, 0) == NoBooks;
    assert After(CALLS, 1) == Next(NoBooks, ORDER);
    assert After(CALLS, 2) == Next(After(CALLS, 1), Delivery(0));
    assert After(CALLS, 3) == Next(After(CALLS, 2), InvoiceFor(0));
  }

  lemma PaidAfterFour()
    ensures AllValid(CALLS)
    ensures
      var b := After(CALLS, 4);
      && |b.purchases| == 1 && b.purchases[0].paid == 600 && |b.expenses| == 1
      && b.expenses[0].source == PurchasePayment(Some(0)) && Dollars(b.expenses[0]) == 600
      && MoneyOk(b) && Agrees(b)
  {
    InvoicedAfterThree();
    assert Round(6.0) == 600;
    FaithfulRunAgrees(CALLS, 4);
  }

  /** Paying and then reversing twice: the ledger holds the money, the purchase does not. */
  lemma ReversedTwice(b: Books)
    requires MoneyOk(b) && Agrees(b)
    requires |b.purchases| == 1 && b.purchases[0].paid == 600 && |b.expenses| == 1
    requires b.expenses[0].source == PurchasePayment(Some(0)) && Dollars(b.expenses[0]) == 600
    ensures
      var r := ReverseExpense(b, 0);
      r.Ok? && ReverseExpense(r.books, 1).Ok? &&
      var b2 := ReverseExpense(r.books, 1).books;
      && |b2.purchases| == 1 && b2.purchases[0].paid == 0
      && Valid(b2.expenses) && NetWhere(b2.expenses, IsPayment, Dollars, |b2.expenses|) == 600
  {
    assert EntryOk(b, 0);
    assert b.expenses[0].reverses != Some(0);
    SingleIsFaithful(b, 0);
    UndoingTheCounterEntryIsLost(b, 0);
    ClampNeverFires(b, 0, 0);
    assert PaymentsOk(0, b.purchases[0], b.expenses);
    PurchasesMatchLedger(b);
    assert PaidTotal(b.purchases, 0) == 0;
    hide MoneyOk, Agrees, NetWhere, PaymentsOk, EntryOk, Live;
    NetAfterReversal(b, 0);
    NetAfterReversal(ReverseExpense(b, 0).books, 1);
  }

  /**
    The concrete failure: an order for two parts at 3.00 is received, invoiced at 6.00,
    paid, the payment reversed, and the counter-entry reversed.  The ledger has spent
    6.00 on the purchase; the purchase says it was paid nothing.
   */
  lemma ConcreteRunDisagrees()
    ensures AllValid(CALLS)
    ensures
      var b := After(CALLS, |CALLS|);
      && |b.purchases| == 1 && b.purchases[0].paid == 0
      && Valid(b.expenses) && NetWhere(b.expenses, IsPayment, Dollars, |b.expenses|) == 600
  {
    hide P.ReverseExpense, NetWhere, Agrees, MoneyOk;
    PaidAfterFour();
    ReversedTwice(After(CALLS, 4));
    assert After(CALLS, 5) == P.ReverseExpense(After(CALLS, 4), 0).books;
    assert After(CALLS, 6) == P.ReverseExpense(After(CALLS, 5), 1).books;
  }

  /* ---- the group that is lost ---- */

  const GROUP := DoCreateExpense(ExpenseInput(1, 1, ACCOUNT, true, true, Usd, 10.0, None, Some(1), [0, 1], false))

  const GROUP_CALLS := [
    ORDER, Delivery(0), InvoiceFor(0), ORDER, Delivery(1), InvoiceFor(1),
    DoPay(0, UsdPayment(2.0)), GROUP, DoReverse(0), DoPay(0, UsdPayment(2.0)), DoReverse(1)]

  lemma TwoInvoiced()
    ensures AllValid(GROUP_CALLS)
    ensures
      var b := After(GROUP_CALLS, 6);
      |b.purchases| == 2 && b.expenses == [] && Invoiced600(b.purchases[0]) && Invoiced600(b.purchases[1])
  {
    hide Next, Invoiced600;
    InvoicedOrder(NoBooks);
    assert After(GROUP_CALLS, 0) == NoBooks;
    assert After(GROUP_CALLS, 1) == Next(NoBooks, ORDER);
    assert After(GROUP_CALLS, 2) == Next(After(GROUP_CALLS, 1), Delivery(0));
    var b := After(GROUP_CALLS, 3);
    assert b == Next(After(GROUP_CALLS, 2), InvoiceFor(0));
    InvoicedOrder(b);
    assert After(GROUP_CALLS, 4) == Next(b, ORDER);
    assert After(GROUP_CALLS, 5) == Next(After(GROUP_CALLS, 4), Delivery(1));
    assert After(GROUP_CALLS, 6) == Next(After(GROUP_CALLS, 5), InvoiceFor(1));
  }

  /**
    Two purchases settled at 6.00: the first by 2.00 of its own and 4.00 of a group, the second
    by 6.00 of the group.
   */
  predicate PaidAndGrouped(b: Books) {
    && |b.purchases| == 2 && |b.expenses| == 2
    && b.expenses[0].source == PurchasePayment(Some(0)) && Dollars(b.expenses[0]) == 200 && Original(b.expenses[0])
    && b.expenses[1].source == PurchasePayment(None) && Dollars(b.expenses[1]) == 1000 && Original(b.expenses[1])
    && (forall p :: 0 <= p < 2 ==>
          var x := b.purchases[p];
          && x.invoice.Some? && x.invoice.value.total == 600 && x.paid == 600 && x.filial == 1
          && x.paymentEntry == Some(1))
    && LastPaid(b.purchases[0].activity, 0) == Some(200)
    && LastPaid(b.purchases[1].activity, 1) == Some(600)
  }

  lemma PaidFirst(b: Books)
    requires |b.purchases| == 2 && b.expenses == [] && Invoiced600(b.purchases[0])
    ensures
      var r := P.Pay(b, 0, UsdPayment(2.0));
      && r.Ok? && |r.books.purchases| == 2 && r.books.purchases[1] == b.purchases[1]
      && r.books.expenses == [Entry(1, 1, Usd, 200, Some(200), PurchasePayment(Some(0)), None)]
      && r.books.purchases[0] == b.purchases[0].(
           paid := 200, paymentEntry := Some(0), activity := b.purchases[0].activity + [Paid(0, 200, 400)])
  {
    assert Round(2.0) == 200;
    var entry := Entry(1, 1, Usd, 200, Some(200), PurchasePayment(Some(0)), None);
    assert b.expenses + [entry] == [entry];
  }

  lemma GroupedNext(b: Books)
    requires |b.purchases| == 2 && |b.expenses| == 1
    requires forall p :: 0 <= p < 2 ==>
      var x := b.purchases[p];
      && x.invoice.Some? && x.invoice.value.total == 600 && !x.settled
      && x.filial == 1 && x.supplier == 1 && x.status == Conciliada
    requires b.purchases[0].paid == 200 && b.purchases[1].paid == 0
    ensures
      var r := Apply(b, GROUP);
      && r.Ok? && |r.books.purchases| == 2
      && r.books.expenses == b.expenses + [Entry(1, 1, Usd, 1000, Some(1000), PurchasePayment(None), None)]
      && r.books.purchases[0] == Settled(b.purchases[0], 1) && r.books.purchases[1] == Settled(b.purchases[1], 1)
  {
    var ps: seq<nat> := [0, 1];
    var e := GROUP.input;
    assert Round(10.0) == 1000;
    forall p | p in ps ensures PayableProblem(b, e, p).None? {}
    assert TotalBalance(b, ps, 0) == 0;
    assert TotalBalance(b, ps, 1) == 400;
    assert TotalBalance(b, ps, 2) == 1000;
    hide FirstPayableProblem;
    assert 0 in ps && 1 in ps;
  }

  lemma PaidThenGrouped(b: Books)
    requires |b.purchases| == 2 && b.expenses == [] && Invoiced600(b.purchases[0]) && Invoiced600(b.purchases[1])
    ensures PaidAndGrouped(Next(Next(b, DoPay(0, UsdPayment(2.0))), GROUP))
  {
    hide P.Pay, P.CreateExpense, FirstPayableProblem, LastPaid;
    PaidFirst(b);
    var b7 := Next(b, DoPay(0, UsdPayment(2.0)));
    GroupedNext(b7);
    PaidInAppend(b.purchases[0].activity, Paid(0, 200, 400), 0);
    PaidInAppend(b7.purchases[0].activity, Paid(1, 400, 0), 0);
    PaidInAppend(b7.purchases[1].activity, Paid(1, 600, 0), 1);
  }

  lemma GroupedAfterEight()
    ensures AllValid(GROUP_CALLS) && PaidAndGrouped(After(GROUP_CALLS, 8))
  {
    hide Next, PaidAndGrouped, Invoiced600;
    TwoInvoiced();
    PaidThenGrouped(After(GROUP_CALLS, 6));
    assert After(GROUP_CALLS, 7) == Next(After(GROUP_CALLS, 6), GROUP_CALLS[6]);
    assert After(GROUP_CALLS, 8) == Next(After(GROUP_CALLS, 7), GROUP_CALLS[7]);
  }

  /** The hypotheses of `LaterPaymentHidesTheGroup` are met. */
  lemma GroupCanBeLost(b: Books)
    requires PaidAndGrouped(b) && MoneyOk(b)
    ensures Regrouped(b, 0, 0, 1, UsdPayment(2.0))
    ensures
      var b2 := PaidAgain(b, 0, 0, 1, UsdPayment(2.0));
      && |b2.purchases| == 2 && b2.purchases[0].paid == 600 && b2.purchases[1] == b.purchases[1]
      && |b2.expenses| == 4 && b2.expenses[1] == b.expenses[1]
  {
    hide MoneyOk;
    assert !Reversed(b.expenses, 0);
    var b1 := ReverseExpense(b, 0).books;
    assert Finds(b, 0, 0) && !Finds(b, 0, 1);
    assert b1.purchases[0].paid == 400 && b1.purchases[1] == b.purchases[1];
    assert Round(2.0) == 200;
    assert P.Pay(b1, 0, UsdPayment(2.0)).Ok?;
  }

  lemma LastPayer(b: Books)
    requires MoneyOk(b) && |b.purchases| == 2 && 1 < |b.expenses| && ReverseExpense(b, 1).Ok?
    requires b.purchases[1].paid == 600 && b.purchases[1].paymentEntry == Some(1)
    requires LastPaid(b.purchases[1].activity, 1) == Some(600) && b.expenses[1].source == PurchasePayment(None)
    ensures ReverseExpense(b, 1).books.purchases[1].paid == 0 && |ReverseExpense(b, 1).books.purchases| == 2
  {
    ClampNeverFires(b, 1, 1);
    FoundPayment(b, 1, 1);
  }

  lemma LosesTheGroup(b: Books)
    requires PaidAndGrouped(b) && MoneyOk(b) && Agrees(b)
    ensures Regrouped(b, 0, 0, 1, UsdPayment(2.0))
    ensures
      var r := ReverseExpense(PaidAgain(b, 0, 0, 1, UsdPayment(2.0)), 1);
      && r.Ok? && |r.books.purchases| == 2 && r.books.purchases[0].paid == 600 && r.books.purchases[1].paid == 0
      && Valid(r.books.expenses) && NetWhere(r.books.expenses, IsPayment, Dollars, |r.books.expenses|) == 200
  {
    GroupCanBeLost(b);
    LaterPaymentHidesTheGroup(b, 0, 0, 1, UsdPayment(2.0));
    var b2 := PaidAgain(b, 0, 0, 1, UsdPayment(2.0));
    LastPayer(b2);
    PurchasesMatchLedger(b2);
    assert PaidTotal(b2.purchases, 0) == 0;
    assert PaidTotal(b2.purchases, 1) == 600;
    assert PaidTotal(b2.purchases, 2) == 1200;
    hide MoneyOk, Agrees, NetWhere;
    NetAfterReversal(b2, 1);
  }

  /** The last three calls, from any state with the group in place. */
  lemma LastThreeCalls(b: Books)
    requires PaidAndGrouped(b) && MoneyOk(b) && Agrees(b)
    ensures
      var b3 := Next(Next(Next(b, DoReverse(0)), DoPay(0, UsdPayment(2.0))), DoReverse(1));
      && |b3.purchases| == 2 && b3.purchases[0].paid == 600 && b3.purchases[1].paid == 0
      && Valid(b3.expenses) && NetWhere(b3.expenses, IsPayment, Dollars, |b3.expenses|) == 200
  {
    hide P.ReverseExpense, P.Pay, NetWhere, Agrees, MoneyOk, PaidAndGrouped;
    LosesTheGroup(b);
  }

  /**
    The second concrete failure: two purchases of 6.00; the first is paid 2.00, both are
    settled by a group of 10.00, the 2.00 are reversed and paid again, and the group is
    reversed.  The ledger has spent 2.00; the purchases say 6.00 were paid.
   */
  lemma GroupedRunDisagrees()
    ensures AllValid(GROUP_CALLS)
    ensures
      var b := After(GROUP_CALLS, |GROUP_CALLS|);
      && |b.purchases| == 2 && b.purchases[0].paid == 600 && b.purchases[1].paid == 0
      && Valid(b.expenses) && NetWhere(b.expenses, IsPayment, Dollars, |b.expenses|) == 200
  {
    hide Next, Apply, NetWhere, Agrees, MoneyOk, PaidAndGrouped, Faithful;
    GroupedAfterEight();
    assert forall k :: 0 <= k < 8 ==> !GROUP_CALLS[k].DoReverse?;
    FaithfulRunAgrees(GROUP_CALLS, 8);
    LastThreeCalls(After(GROUP_CALLS, 8));
    assert After(GROUP_CALLS, 9) == Next(After(GROUP_CALLS, 8), GROUP_CALLS[8]);
    assert After(GROUP_CALLS, 10) == Next(After(GROUP_CALLS, 9), GROUP_CALLS[9]);
    assert After(GROUP_CALLS, 11) == Next(After(GROUP_CALLS, 10), GROUP_CALLS[10]);
  }
}

/**
  Whole runs: any sequence of calls on purchases, successful or not, interleaved with
  warehouse transfers and with expenses recorded elsewhere.
 */
module PurchaseRuns {
  import opened Prelude
  import opened Ledger
  import P = Purchases
  import opened Purchases
  import opened PurchaseGoods
  import opened PurchasePayments
  import opened PurchaseSteps
  import opened PurchaseLedger

  datatype Command =
    | DoCreate(filial: nat, supplier: nat, supplierFilial: Option<nat>, inputs: seq<LineInput>, inScope: bool)
    | DoReceive(purchase: nat, items: seq<Arrival>, inScope: bool)
    | DoUpdateStatus(purchase: nat, to: Status, quotes: seq<Quote>, warehouse: bool)
    | DoTransfer(origin: nat, quantity: nat)
    | DoReconcile(purchase: nat, invoice: InvoiceInput)
    | DoPay(purchase: nat, payment: Payment)
    | DoCreateExpense(input: ExpenseInput)
    | DoRecordOther(entry: Entry)
    | DoReverse(expense: nat)

  /** What the request schemas guarantee before a service is called. */
  predicate CommandValid(c: Command) {
    match c
    case DoCreate(_, _, _, inputs, _) => |inputs| > 0 && forall i :: 0 <= i < |inputs| ==> 1 <= inputs[i].quantity
    case DoReconcile(_, invoice) => InvoiceValid(invoice)
    case DoPay(_, payment) => PaymentValid(payment)
    case DoCreateExpense(input) => ExpenseValid(input)
    case DoRecordOther(entry) => Original(entry) && !entry.source.PurchasePayment?
    case _ => true
  }

  function Apply(b: Books, c: Command): Result
    requires CommandValid(c)
  {
    match c
    case DoCreate(filial, supplier, supplierFilial, inputs, inScope) =>
      P.Create(b, filial, supplier, supplierFilial, inputs, inScope)
    case DoReceive(p, items, inScope) => P.Receive(b, p, items, inScope)
    case DoUpdateStatus(p, to, quotes, warehouse) => P.UpdateStatus(b, p, to, quotes, warehouse)
    case DoTransfer(origin, quantity) => P.TransferLot(b, origin, quantity)
    case DoReconcile(p, invoice) => P.Reconcile(b, p, invoice)
    case DoPay(p, payment) => P.Pay(b, p, payment)
    case DoCreateExpense(input) => P.CreateExpense(b, input)
    case DoRecordOther(entry) => P.RecordOther(b, entry)
    case DoReverse(e) => P.ReverseExpense(b, e)
  }

  /** A call that fails leaves everything as it was. */
  function Next(b: Books, c: Command): Books
    requires CommandValid(c)
  {
    var r := Apply(b, c);
    if r.Ok? then r.books else b
  }

  predicate AllValid(cs: seq<Command>) { forall i :: 0 <= i < |cs| ==> CommandValid(cs[i]) }

  const NoBooks := Books([], [], [])

  /** The books after the first `n` calls, starting from nothing. */
  function After(cs: seq<Command>, n: nat): Books
    requires AllValid(cs) && n <= |cs|
  {
    if n == 0 then NoBooks else Next(After(cs, n - 1), cs[n - 1])
  }

  /* ---- the promises hold after every call ---- */

  lemma ExpenseKeepsGoods(b: Books, input: ExpenseInput)
    requires GoodsOk(b) && ExpenseValid(input)
    ensures GoodsOk(Next(b, DoCreateExpense(input)))
  {
    hide GoodsOk, FirstPayableProblem, PayableProblem;
    PaymentsKeepGoods(b, Next(b, DoCreateExpense(input)));
  }

  lemma StepKeepsGoods(b: Books, c: Command)
    requires CommandValid(c) && GoodsOk(b)
    ensures GoodsOk(Next(b, c))
  {
    hide GoodsOk;
    match c
    case DoCreate(filial, supplier, supplierFilial, inputs, inScope) =>
      CreateKeepsGoods(b, filial, supplier, supplierFilial, inputs, inScope);
    case DoReceive(p, items, inScope) => ReceiveKeepsGoods(b, p, items, inScope);
    case DoUpdateStatus(p, to, quotes, warehouse) => UpdateStatusKeepsGoods(b, p, to, quotes, warehouse);
    case DoTransfer(origin, quantity) => TransferKeepsGoods(b, origin, quantity);
    case DoReconcile(p, invoice) => ReconcileKeepsGoods(b, p, invoice);
    case DoPay(_, _) => PaymentsKeepGoods(b, Next(b, c));
    case DoCreateExpense(input) => ExpenseKeepsGoods(b, input);
    case DoRecordOther(_) => PaymentsKeepGoods(b, Next(b, c));
    case DoReverse(_) => PaymentsKeepGoods(b, Next(b, c));
  }

  lemma LotsAreNotMoney(b: Books, b': Books)
    requires MoneyOk(b) && b'.expenses == b.expenses && b'.purchases == b.purchases
    ensures MoneyOk(b')
  {
    forall e | 0 <= e < |b.expenses| ensures EntryOk(b', e) { assert EntryOk(b, e); }
  }

  lemma StepKeepsMoney(b: Books, c: Command)
    requires CommandValid(c) && MoneyOk(b)
    ensures MoneyOk(Next(b, c))
  {
    hide MoneyOk, P.Create, P.Receive, P.UpdateStatus, P.Reconcile, P.Pay, P.CreateExpense, P.ReverseExpense;
    match c
    case DoCreate(filial, supplier, supplierFilial, inputs, inScope) =>
      CreateKeepsMoney(b, filial, supplier, supplierFilial, inputs, inScope);
    case DoReceive(p, items, inScope) => ReceiveKeepsMoney(b, p, items, inScope);
    case DoUpdateStatus(p, to, quotes, warehouse) => UpdateStatusKeepsMoney(b, p, to, quotes, warehouse);
    case DoTransfer(origin, quantity) => LotsAreNotMoney(b, Next(b, c));
    case DoReconcile(p, invoice) => ReconcileKeepsMoney(b, p, invoice);
    case DoPay(p, payment) => PayKeepsMoney(b, p, payment);
    case DoCreateExpense(input) => CreateExpenseKeepsMoney(b, input);
    case DoRecordOther(entry) => RecordOtherKeepsMoney(b, entry);
    case DoReverse(e) => ReverseKeepsMoney(b, e);
  }

  /**
    Main result: after any run, goods are conserved and the payment promises hold for
    every purchase, whatever calls were made and whichever of them failed.
   */
  lemma {:induction false} RunKeepsPromises(cs: seq<Command>, n: nat)
    requires AllValid(cs) && n <= |cs|
    ensures GoodsOk(After(cs, n)) && MoneyOk(After(cs, n))
  {
    if n > 0 {
      RunKeepsPromises(cs, n - 1);
      StepKeepsGoods(After(cs, n - 1), cs[n - 1]);
      StepKeepsMoney(After(cs, n - 1), cs[n - 1]);
    }
  }

  /** The same promises in the words of the API: amounts, dates and quantities of one purchase. */
  lemma EveryPurchaseIsConsistent(cs: seq<Command>, n: nat, p: nat)
    requires AllValid(cs) && n <= |cs| && p < |After(cs, n).purchases|
    ensures
      var b := After(cs, n);
      var x := b.purchases[p];
      && (forall i :: 0 <= i < |x.lines| ==>
            x.lines[i].received == ReceiptTotal(x.lines[i].receipts) ==
              DirectStock(b.lots, p, x.lines[i].part) <= x.lines[i].quantity)
      && (x.status == Recibida || x.status == Conciliada <==> AllReceived(x.lines))
      && (x.status == Cancelada ==> NoneReceived(x.lines))
      && x.paid == Outstanding(x.activity, |b.expenses|)
      && (x.invoice.Some? <==> x.status == Conciliada)
      && (if x.invoice.Some?
          then 0 <= x.paid <= x.invoice.value.total && (x.settled <==> x.paid == x.invoice.value.total)
          else x.paid == 0 && !x.settled)
  {
    RunKeepsPromises(cs, n);
    var b := After(cs, n);
    assert PurchaseOk(p, b.purchases[p], b.lots) && PaymentsOk(p, b.purchases[p], b.expenses);
    forall i | 0 <= i < |b.purchases[p].lines| ensures LineOk(p, b.purchases[p].lines[i], b.lots) {}
  }

  /* ---- agreement with the ledger ---- */

  /** A purchase whose recorded payments below `n` and reversals did not change. */
  ghost predicate SameHistory(x: Purchase, x': Purchase, n: nat) {
    && (forall e: nat :: Undone(x'.activity, e) == Undone(x.activity, e))
    && (forall e: nat :: e < n ==> LastPaid(x'.activity, e) == LastPaid(x.activity, e))
  }

  lemma QuietHistory(x: Purchase, x': Purchase, events: seq<Activity>, n: nat)
    requires Quiet(events) && x'.activity == x.activity + events
    ensures SameHistory(x, x', n)
  {
    forall e: nat
      ensures Undone(x'.activity, e) == Undone(x.activity, e) && LastPaid(x'.activity, e) == LastPaid(x.activity, e)
    {
      QuietEvents(x.activity, events, e);
    }
  }

  lemma PaidHistory(x: Purchase, x': Purchase, event: Activity, n: nat)
    requires event.Paid? && n <= event.expense && x'.activity == x.activity + [event]
    ensures SameHistory(x, x', n)
  {
    forall e: nat
      ensures Undone(x'.activity, e) == Undone(x.activity, e)
      ensures e < n ==> LastPaid(x'.activity, e) == LastPaid(x.activity, e)
    {
      PaidInAppend(x.activity, event, e);
    }
  }

  /** The event a call other than a reversal adds to a purchase: nothing, quiet events, or one new payment. */
  lemma HistoryFrom(x: Purchase, x': Purchase, quiet: seq<Activity>, n: nat)
    requires Quiet(quiet)
    requires x'.activity == x.activity || x'.activity == x.activity + quiet ||
      exists amount, balance :: x'.activity == x.activity + [Paid(n, amount, balance)]
    ensures SameHistory(x, x', n)
  {
    if x'.activity == x.activity {
      QuietHistory(x, x', [], n);
    } else if x'.activity == x.activity + quiet {
      QuietHistory(x, x', quiet, n);
    } else {
      var amount, balance :| x'.activity == x.activity + [Paid(n, amount, balance)];
      PaidHistory(x, x', Paid(n, amount, balance), n);
    }
  }

  lemma ReceiveHistory(b: Books, q: nat, items: seq<Arrival>, inScope: bool, p: nat)
    requires p < |b.purchases|
    ensures var r := P.Receive(b, q, items, inScope);
      r.Ok? ==> SameHistory(b.purchases[p], r.books.purchases[p], |b.expenses|)
  {
    hide SameHistory, FirstProblem;
    var r := P.Receive(b, q, items, inScope);
    if r.Ok? {
      HistoryFrom(b.purchases[p], r.books.purchases[p], ReceivedEvents(Nonzero(items), |b.lots|), |b.expenses|);
    }
  }

  lemma StatusHistory(b: Books, q: nat, to: Status, quotes: seq<Quote>, warehouse: bool, p: nat)
    requires p < |b.purchases|
    ensures var r := P.UpdateStatus(b, q, to, quotes, warehouse);
      r.Ok? ==> SameHistory(b.purchases[p], r.books.purchases[p], |b.expenses|)
  {
    hide SameHistory;
    var r := P.UpdateStatus(b, q, to, quotes, warehouse);
    if r.Ok? {
      HistoryFrom(b.purchases[p], r.books.purchases[p],
                  [if to == Cotizada then Quoted else if to == Recibida then StatusReceived else Cancelled],
                  |b.expenses|);
    }
  }

  lemma ReconcileHistory(b: Books, q: nat, invoice: InvoiceInput, p: nat)
    requires p < |b.purchases|
    ensures var r := P.Reconcile(b, q, invoice);
      r.Ok? ==> SameHistory(b.purchases[p], r.books.purchases[p], |b.expenses|)
  {
    hide SameHistory, Iva, Subtotal;
    var r := P.Reconcile(b, q, invoice);
    if r.Ok? {
      HistoryFrom(b.purchases[p], r.books.purchases[p], [Reconciled(r.books.purchases[q].invoice.value.total)],
                  |b.expenses|);
    }
  }

  lemma PaymentHistory(b: Books, c: Command, p: nat)
    requires CommandValid(c) && (c.DoPay? || c.DoCreateExpense?) && p < |b.purchases|
    ensures SameHistory(b.purchases[p], Next(b, c).purchases[p], |b.expenses|)
  {
    hide SameHistory, FirstPayableProblem;
    var x, x' := b.purchases[p], Next(b, c).purchases[p];
    if x'.activity != x.activity {
      var event := x'.activity[|x.activity|];
      assert x'.activity == x.activity + [Paid(|b.expenses|, event.amount, event.balance)];
    }
    HistoryFrom(x, x', [], |b.expenses|);
  }

  lemma PurchasesGrow(b: Books, c: Command)
    requires CommandValid(c)
    ensures |b.purchases| <= |Next(b, c).purchases|
  {
    hide FirstProblem, FirstPayableProblem;
  }

  /** Every call but a reversal leaves the recorded history of the earlier payments alone. */
  lemma HistoryStays(b: Books, c: Command, p: nat)
    requires CommandValid(c) && !c.DoReverse? && p < |b.purchases|
    ensures p < |Next(b, c).purchases| && SameHistory(b.purchases[p], Next(b, c).purchases[p], |b.expenses|)
  {
    PurchasesGrow(b, c);
    hide SameHistory, P.Receive, P.UpdateStatus, P.Reconcile, P.Pay, P.CreateExpense;
    QuietHistory(b.purchases[p], b.purchases[p], [], |b.expenses|);
    match c
    case DoReceive(q, items, inScope) => ReceiveHistory(b, q, items, inScope, p);
    case DoUpdateStatus(q, to, quotes, warehouse) => StatusHistory(b, q, to, quotes, warehouse, p);
    case DoReconcile(q, invoice) => ReconcileHistory(b, q, invoice, p);
    case DoPay(_, _) => PaymentHistory(b, c, p);
    case DoCreateExpense(_) => PaymentHistory(b, c, p);
    case _ =>
  }

  lemma NewPurchaseHistory(b: Books, c: Command, p: nat, e: nat)
    requires CommandValid(c) && !c.DoReverse? && |b.purchases| <= p < |Next(b, c).purchases|
    ensures LastPaid(Next(b, c).purchases[p].activity, e).None? && !Undone(Next(b, c).purchases[p].activity, e)
  {
    assert Next(b, c).purchases[p].activity == [Created];
    PaidInAppend([], Created, e);
    assert [] + [Created] == [Created];
  }

  lemma LedgerGrows(b: Books, c: Command)
    requires CommandValid(c) && !c.DoReverse?
    ensures
      var b' := Next(b, c);
      && |b.expenses| <= |b'.expenses| <= |b.expenses| + 1 && b'.expenses[..|b.expenses|] == b.expenses
      && (|b'.expenses| > |b.expenses| ==> Original(b'.expenses[|b.expenses|]))
  {
    hide FirstProblem, FirstPayableProblem;
  }

  /** Every call but a reversal leaves a purchase in agreement, and makes new purchases in agreement. */
  lemma OtherCallsAgreeFor(b: Books, c: Command, p: nat)
    requires CommandValid(c) && !c.DoReverse? && MoneyOk(b)
    requires p < |Next(b, c).purchases| && (p < |b.purchases| ==> AgreesFor(b, p))
    ensures MoneyOk(Next(b, c)) && AgreesFor(Next(b, c), p)
  {
    StepKeepsMoney(b, c);
    LedgerGrows(b, c);
    var b' := Next(b, c);
    forall e: nat
      ensures Undone(b'.purchases[p].activity, e) ==> p < |b.purchases| && Undone(b.purchases[p].activity, e)
      ensures LastPaid(b'.purchases[p].activity, e).Some? && e < |b.expenses| ==>
        p < |b.purchases| && LastPaid(b.purchases[p].activity, e).Some?
        && (Undone(b.purchases[p].activity, e) ==> Undone(b'.purchases[p].activity, e))
    {
      if p < |b.purchases| { HistoryStays(b, c, p); } else { NewPurchaseHistory(b, c, p, e); }
    }
    hide Next, MoneyOk, LastPaid, Undone;
    AgreementStays(b, b', p);
  }

  lemma OtherCallsAgree(b: Books, c: Command)
    requires CommandValid(c) && !c.DoReverse? && MoneyOk(b) && Agrees(b)
    ensures MoneyOk(Next(b, c)) && Agrees(Next(b, c))
  {
    StepKeepsMoney(b, c);
    hide MoneyOk, AgreesFor, Next;
    forall p | 0 <= p < |Next(b, c).purchases| ensures AgreesFor(Next(b, c), p) { OtherCallsAgreeFor(b, c, p); }
  }

  /** Every reversal among the first `n` calls that went through was faithful when it was made. */
  ghost predicate FaithfulRun(cs: seq<Command>, n: nat)
    requires AllValid(cs) && n <= |cs|
  {
    forall k :: 0 <= k < n && cs[k].DoReverse? && Apply(After(cs, k), cs[k]).Ok? ==>
      Valid(After(cs, k).expenses) && Faithful(After(cs, k), cs[k].expense)
  }

  lemma {:induction false} FaithfulRunAgrees(cs: seq<Command>, n: nat)
    requires AllValid(cs) && n <= |cs| && FaithfulRun(cs, n)
    ensures MoneyOk(After(cs, n)) && Agrees(After(cs, n))
  {
    if n > 0 {
      FaithfulRunAgrees(cs, n - 1);
      var b, c := After(cs, n - 1), cs[n - 1];
      if c.DoReverse? {
        StepKeepsMoney(b, c);
        if Apply(b, c).Ok? { ReversalKeepsAgreementIff(b, c.expense); }
      } else {
        OtherCallsAgree(b, c);
      }
    }
  }

  /**
    Main result: after any run without unfaithful reversals, what the purchases say was
    paid in all is what the ledger says was spent on them.
   */
  lemma FaithfulRunMatchesLedger(cs: seq<Command>, n: nat)
    requires AllValid(cs) && n <= |cs| && FaithfulRun(cs, n)
    ensures Valid(After(cs, n).expenses)
    ensures
      var b := After(cs, n);
      PaidTotal(b.purchases, |b.purchases|) == NetWhere(b.expenses, IsPayment, Dollars, |b.expenses|)
  {
    FaithfulRunAgrees(cs, n);
    PurchasesMatchLedger(After(cs, n));
  }

  lemma MoneyIsValid(b: Books)
    requires MoneyOk(b)
    ensures Valid(b.expenses)
  {
  }

  /** The first unfaithful reversal of a run leaves different amounts. */
  lemma UnfaithfulStep(cs: seq<Command>, n: nat)
    requires AllValid(cs) && 0 < n <= |cs| && FaithfulRun(cs, n - 1) && !FaithfulRun(cs, n)
    ensures Valid(After(cs, n).expenses) && !AmountsMatch(After(cs, n))
  {
    hide AmountsMatch, Agrees, Faithful, MoneyOk, P.ReverseExpense;
    FaithfulRunAgrees(cs, n - 1);
    MoneyIsValid(After(cs, n - 1));
    ReversalKeepsAmountsIff(After(cs, n - 1), cs[n - 1].expense);
  }

  /**
    Main result, both ways: what the purchases say was paid is what the ledger says was
    spent on them after every one of the first `n` calls exactly when every reversal that
    went through was faithful.
   */
  lemma {:induction false} AmountsMatchIff(cs: seq<Command>, n: nat)
    requires AllValid(cs) && n <= |cs|
    ensures FaithfulRun(cs, n) <==>
      forall k: nat :: k <= n ==> Valid(After(cs, k).expenses) && AmountsMatch(After(cs, k))
  {
    if FaithfulRun(cs, n) {
      forall k: nat | k <= n ensures Valid(After(cs, k).expenses) && AmountsMatch(After(cs, k)) {
        FaithfulRunMatchesLedger(cs, k);
      }
    } else if n > 0 {
      AmountsMatchIff(cs, n - 1);
      if FaithfulRun(cs, n - 1) { UnfaithfulStep(cs, n); }
    }
  }

  /* ---- one purchase ---- */

  /** Every reversal among the first `n` calls that went through was faithful to purchase `p`. */
  ghost predicate FaithfulRunFor(cs: seq<Command>, n: nat, p: nat)
    requires AllValid(cs) && n <= |cs|
  {
    forall k :: 0 <= k < n && cs[k].DoReverse? && Apply(After(cs, k), cs[k]).Ok? && p < |After(cs, k).purchases| ==>
      Valid(After(cs, k).expenses) && FaithfulFor(After(cs, k), cs[k].expense, p)
  }

  lemma StepAgreesFor(b: Books, c: Command, p: nat)
    requires CommandValid(c) && MoneyOk(b)
    requires p < |Next(b, c).purchases| && (p < |b.purchases| ==> AgreesFor(b, p))
    requires c.DoReverse? && Apply(b, c).Ok? && p < |b.purchases| ==> FaithfulFor(b, c.expense, p)
    ensures MoneyOk(Next(b, c)) && AgreesFor(Next(b, c), p)
  {
    hide MoneyOk, AgreesFor, FaithfulFor;
    StepKeepsMoney(b, c);
    if !c.DoReverse? {
      OtherCallsAgreeFor(b, c, p);
    } else if Apply(b, c).Ok? {
      ReversalKeepsAgreementForIff(b, c.expense, p);
    }
  }

  lemma NothingYet(cs: seq<Command>)
    requires AllValid(cs)
    ensures After(cs, 0).purchases == []
  {
  }

  lemma LastCall(cs: seq<Command>, n: nat, p: nat)
    requires AllValid(cs) && 0 < n <= |cs| && FaithfulRunFor(cs, n, p)
    ensures FaithfulRunFor(cs, n - 1, p)
    ensures
      var b, c := After(cs, n - 1), cs[n - 1];
      && CommandValid(c) && After(cs, n) == Next(b, c)
      && (c.DoReverse? && Apply(b, c).Ok? && p < |b.purchases| ==>
           Valid(b.expenses) && FaithfulFor(b, c.expense, p))
  {
    hide Apply, Next, FaithfulFor, Valid;
  }

  lemma {:induction false} FaithfulRunForAgrees(cs: seq<Command>, n: nat, p: nat)
    requires AllValid(cs) && n <= |cs| && p < |After(cs, n).purchases| && FaithfulRunFor(cs, n, p)
    ensures MoneyOk(After(cs, n)) && AgreesFor(After(cs, n), p)
  {
    hide *;
    if n == 0 {
      NothingYet(cs);
      assert false;
    } else {
      RunKeepsPromises(cs, n - 1);
      MoneyIsValid(After(cs, n - 1));
      LastCall(cs, n, p);
      if p < |After(cs, n - 1).purchases| { FaithfulRunForAgrees(cs, n - 1, p); }
      StepAgreesFor(After(cs, n - 1), cs[n - 1], p);
    }
  }

  lemma LastCallUnfaithful(cs: seq<Command>, n: nat, p: nat)
    requires AllValid(cs) && 0 < n <= |cs| && FaithfulRunFor(cs, n - 1, p) && !FaithfulRunFor(cs, n, p)
    requires Valid(After(cs, n - 1).expenses)
    ensures
      var b, c := After(cs, n - 1), cs[n - 1];
      && After(cs, n) == Next(b, c) && CommandValid(c)
      && c.DoReverse? && Apply(b, c).Ok? && p < |b.purchases| && !FaithfulFor(b, c.expense, p)
  {
    hide Apply, Next, FaithfulFor, Valid;
  }

  lemma ReversalMovesShare(b: Books, c: Command, p: nat)
    requires CommandValid(c) && MoneyOk(b) && p < |b.purchases| && AgreesFor(b, p)
    requires c.DoReverse? && Apply(b, c).Ok? && !FaithfulFor(b, c.expense, p)
    ensures p < |Next(b, c).purchases| && Valid(Next(b, c).expenses) && !ShareMatches(Next(b, c), p)
  {
    hide ShareMatches, AgreesFor, FaithfulFor, MoneyOk;
    ReversalKeepsShareIff(b, c.expense, p);
  }

  /** The first reversal unfaithful to `p` leaves its paid amount different from its share. */
  lemma UnfaithfulStepFor(cs: seq<Command>, n: nat, p: nat)
    requires AllValid(cs) && 0 < n <= |cs| && FaithfulRunFor(cs, n - 1, p) && !FaithfulRunFor(cs, n, p)
    ensures p < |After(cs, n).purchases| && Valid(After(cs, n).expenses) && !ShareMatches(After(cs, n), p)
  {
    hide *;
    RunKeepsPromises(cs, n - 1);
    MoneyIsValid(After(cs, n - 1));
    LastCallUnfaithful(cs, n, p);
    FaithfulRunForAgrees(cs, n - 1, p);
    ReversalMovesShare(After(cs, n - 1), cs[n - 1], p);
  }

  /** After each of the first `n` calls, the paid amount of `p` is its share of the payments the ledger holds. */
  predicate ShareAlwaysMatches(cs: seq<Command>, n: nat, p: nat)
    requires AllValid(cs) && n <= |cs|
  {
    forall k: nat :: k <= n && p < |After(cs, k).purchases| ==>
      Valid(After(cs, k).expenses) && ShareMatches(After(cs, k), p)
  }

  /**
    Main result, one purchase, both ways: however it was paid and whatever is done to other
    purchases, its paid amount is its share of the ledger after each of the first `n` calls
    exactly when every reversal that went through was faithful to it.
   */
  lemma {:induction false} ShareMatchesIff(cs: seq<Command>, n: nat, p: nat)
    requires AllValid(cs) && n <= |cs|
    ensures FaithfulRunFor(cs, n, p) <==> ShareAlwaysMatches(cs, n, p)
  {
    if FaithfulRunFor(cs, n, p) {
      forall k: nat | k <= n && p < |After(cs, k).purchases|
        ensures Valid(After(cs, k).expenses) && ShareMatches(After(cs, k), p)
      {
        FaithfulRunForAgrees(cs, k, p);
        PaidIsLive(After(cs, k), p);
      }
    } else if n > 0 {
      hide ShareMatches;
      ShareMatchesIff(cs, n - 1, p);
      if FaithfulRunFor(cs, n - 1, p) { UnfaithfulStepFor(cs, n, p); }
    }
  }

  /* ---- one purchase that was paid on its own ---- */

  /** `OnlySingle`, told by the latest payments. */
  lemma OnlySingleIff(b: Books, p: nat)
    requires MoneyOk(b) && p < |b.purchases|
    ensures OnlySingle(b, p) <==> forall e: nat :: LastPaid(b.purchases[p].activity, e).Some? ==>
      e < |b.expenses| && b.expenses[e].source == PurchasePayment(Some(p))
  {
    var activity := b.purchases[p].activity;
    assert PaymentsOk(p, b.purchases[p], b.expenses);
    forall e: nat
      ensures LastPaid(activity, e).Some? <==>
        exists k :: 0 <= k < |activity| && activity[k].Paid? && activity[k].expense == e
    {
      NonNegative(p, activity, b.expenses, e);
    }
  }

  lemma ReversalHistory(b: Books, c: Command, p: nat)
    requires MoneyOk(b) && CommandValid(c) && c.DoReverse? && p < |b.purchases|
    ensures
      var b' := Next(b, c);
      && p < |b'.purchases| && |b.expenses| <= |b'.expenses| && b'.expenses[..|b.expenses|] == b.expenses
      && forall e: nat :: LastPaid(b'.purchases[p].activity, e) == LastPaid(b.purchases[p].activity, e)
  {
    if Apply(b, c).Ok? {
      forall e: nat ensures LastPaid(Next(b, c).purchases[p].activity, e) == LastPaid(b.purchases[p].activity, e) {
        NewEventsAreNotPayments(b, c.expense, p, e);
      }
    }
  }

  lemma SingleBefore(b: Books, c: Command, p: nat)
    requires MoneyOk(b) && CommandValid(c) && p < |b.purchases|
    requires p < |Next(b, c).purchases| && OnlySingle(Next(b, c), p)
    ensures OnlySingle(b, p)
  {
    var b' := Next(b, c);
    StepKeepsMoney(b, c);
    OnlySingleIff(b, p);
    OnlySingleIff(b', p);
    if c.DoReverse? {
      ReversalHistory(b, c, p);
    } else {
      LedgerGrows(b, c);
      HistoryStays(b, c, p);
    }
    hide Next, OnlySingle, LastPaid;
    forall e: nat | LastPaid(b.purchases[p].activity, e).Some?
      ensures e < |b.expenses| && b.expenses[e].source == PurchasePayment(Some(p))
    {
      RootIsPayment(b, p, e);
      assert b'.expenses[..|b.expenses|][e] == b.expenses[e];
    }
  }

  lemma {:induction false} StaysThere(cs: seq<Command>, k: nat, n: nat, p: nat)
    requires AllValid(cs) && k <= n <= |cs| && p < |After(cs, k).purchases|
    ensures p < |After(cs, n).purchases|
  {
    hide Next, Apply;
    if k < n {
      StaysThere(cs, k, n - 1, p);
      PurchasesGrow(After(cs, n - 1), cs[n - 1]);
    }
  }

  /** A purchase only paid on its own so far was only paid on its own before. */
  lemma {:induction false} SingleAllAlong(cs: seq<Command>, k: nat, n: nat, p: nat)
    requires AllValid(cs) && k <= n <= |cs| && p < |After(cs, k).purchases|
    requires p < |After(cs, n).purchases| && OnlySingle(After(cs, n), p)
    ensures OnlySingle(After(cs, k), p)
    decreases n
  {
    hide OnlySingle, MoneyOk, GoodsOk, CommandValid;
    if k < n {
      StaysThere(cs, k, n - 1, p);
      RunKeepsPromises(cs, n - 1);
      SingleBefore(After(cs, n - 1), cs[n - 1], p);
      SingleAllAlong(cs, k, n - 1, p);
    }
  }

  /** No counter-entry in a chain that starts with a payment on `p` alone was itself reversed. */
  predicate NoCounterReversed(cs: seq<Command>, n: nat, p: nat)
    requires AllValid(cs) && n <= |cs|
  {
    forall k :: 0 <= k < n && cs[k].DoReverse? && Apply(After(cs, k), cs[k]).Ok? && p < |After(cs, k).purchases| ==>
      var es, e := After(cs, k).expenses, cs[k].expense;
      && Valid(es)
      && (es[Root(es, e)].source == PurchasePayment(Some(p)) ==> Original(es[e]))
  }

  lemma AppliedReversal(b: Books, c: Command)
    requires CommandValid(c) && c.DoReverse? && Apply(b, c).Ok?
    ensures c.expense < |b.expenses|
  {
  }

  /** What the state after `k` calls says of a purchase only paid on its own until `n`. */
  lemma SingleAt(cs: seq<Command>, k: nat, n: nat, p: nat)
    requires AllValid(cs) && k <= n <= |cs| && p < |After(cs, k).purchases|
    requires p < |After(cs, n).purchases| && OnlySingle(After(cs, n), p)
    ensures
      var b := After(cs, k);
      && Valid(b.expenses) && (ShareMatches(b, p) <==> b.purchases[p].paid == NetPaidOn(b, p))
      && (k < n && cs[k].DoReverse? && Apply(b, cs[k]).Ok? ==>
           var es, e := b.expenses, cs[k].expense;
           FaithfulFor(b, e, p) <==>
           (es[Root(es, e)].source == PurchasePayment(Some(p)) ==> Original(es[e])))
  {
    hide MoneyOk, GoodsOk, OnlySingle, NetPaidOn, FaithfulFor, LivePaid, AllValid, Valid, Root, Original;
    RunKeepsPromises(cs, k);
    SingleAllAlong(cs, k, n, p);
    MoneyIsValid(After(cs, k));
    SingleShareIsNet(After(cs, k), p);
    if k < n && cs[k].DoReverse? && Apply(After(cs, k), cs[k]).Ok? {
      SingleFaithfulIff(After(cs, k), cs[k].expense, p);
    }
  }

  lemma SingleFaithfulRun(cs: seq<Command>, n: nat, p: nat)
    requires AllValid(cs) && n <= |cs| && p < |After(cs, n).purchases| && OnlySingle(After(cs, n), p)
    ensures NoCounterReversed(cs, n, p) <==> FaithfulRunFor(cs, n, p)
  {
    hide FaithfulFor, Valid, Apply, OnlySingle, After, Root;
    forall k | 0 <= k < n && cs[k].DoReverse? && Apply(After(cs, k), cs[k]).Ok? && p < |After(cs, k).purchases|
      ensures
        var es, e := After(cs, k).expenses, cs[k].expense;
        && Valid(es) && e < |es|
        && (FaithfulFor(After(cs, k), e, p) <==>
            (es[Root(es, e)].source == PurchasePayment(Some(p)) ==> Original(es[e])))
    {
      AppliedReversal(After(cs, k), cs[k]);
      SingleAt(cs, k, n, p);
    }
  }

  /** After each of the first `n` calls, `p` was paid the net of the ledger over its own payments. */
  predicate NetAlwaysMatches(cs: seq<Command>, n: nat, p: nat)
    requires AllValid(cs) && n <= |cs|
  {
    forall k: nat :: k <= n && p < |After(cs, k).purchases| ==>
      Valid(After(cs, k).expenses) && After(cs, k).purchases[p].paid == NetPaidOn(After(cs, k), p)
  }

  lemma ShareIsNetAllAlong(cs: seq<Command>, n: nat, p: nat)
    requires AllValid(cs) && n <= |cs| && p < |After(cs, n).purchases| && OnlySingle(After(cs, n), p)
    ensures ShareAlwaysMatches(cs, n, p) <==> NetAlwaysMatches(cs, n, p)
  {
    hide ShareMatches, NetPaidOn, Valid, OnlySingle, After, Apply, FaithfulFor, Root;
    forall k: nat | k <= n && p < |After(cs, k).purchases|
      ensures Valid(After(cs, k).expenses)
      ensures ShareMatches(After(cs, k), p) <==> After(cs, k).purchases[p].paid == NetPaidOn(After(cs, k), p)
    {
      SingleAt(cs, k, n, p);
    }
  }

  /**
    Main result, a purchase paid on its own: its paid amount is the net of the ledger over
    its own payments and their counter-entries, after each of the first `n` calls, exactly
    when none of those counter-entries was reversed.
   */
  lemma SingleMatchesIff(cs: seq<Command>, n: nat, p: nat)
    requires AllValid(cs) && n <= |cs| && p < |After(cs, n).purchases| && OnlySingle(After(cs, n), p)
    ensures NoCounterReversed(cs, n, p) <==> NetAlwaysMatches(cs, n, p)
  {
    hide *;
    SingleFaithfulRun(cs, n, p);
    ShareMatchesIff(cs, n, p);
    ShareIsNetAllAlong(cs, n, p);
  }
}

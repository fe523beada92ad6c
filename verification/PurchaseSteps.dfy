/** Every operation keeps the payment promises of `PurchasePayments`. */
module PurchaseSteps {
  import opened Prelude
  import opened Money
  import opened Ledger
  import opened Purchases
  import opened PurchasePayments

  /* ---- sums over the purchases ---- */

  lemma {:induction false} AllocatedSame(a: seq<Purchase>, b: seq<Purchase>, e: nat, n: nat)
    requires n <= |a| && n <= |b|
    requires forall p :: 0 <= p < n ==> PaidIn(a[p].activity, e) == PaidIn(b[p].activity, e)
    ensures Allocated(a, e, n) == Allocated(b, e, n)
  {
    if n > 0 { AllocatedSame(a, b, e, n - 1); }
  }

  lemma {:induction false} AllocatedOnly(ps: seq<Purchase>, e: nat, q: nat, n: nat)
    requires n <= |ps|
    requires forall p :: 0 <= p < n && p != q ==> PaidIn(ps[p].activity, e) == 0
    ensures Allocated(ps, e, n) == if q < n then PaidIn(ps[q].activity, e) else 0
  {
    if n > 0 { AllocatedOnly(ps, e, q, n - 1); }
  }

  /** Payments of every entry below `n` are the same in both states. */
  ghost predicate SamePayments(a: seq<Activity>, b: seq<Activity>, n: nat) {
    forall e: nat :: e < n ==> PaidIn(a, e) == PaidIn(b, e) && LastPaid(a, e) == LastPaid(b, e)
  }

  lemma {:induction false} AllocatedTail(ps: seq<Purchase>, e: nat, m: nat, n: nat)
    requires m <= n <= |ps|
    requires forall p :: m <= p < n ==> PaidIn(ps[p].activity, e) == 0
    ensures Allocated(ps, e, n) == Allocated(ps, e, m)
  {
    if m < n { AllocatedTail(ps, e, m, n - 1); }
  }

  /** Entries keep their allocation when no purchase changes its payments through them. */
  lemma EntryStays(b: Books, b': Books, e: nat)
    requires MoneyOk(b) && e < |b.expenses| <= |b'.expenses| && b'.expenses[e] == b.expenses[e]
    requires |b.purchases| <= |b'.purchases|
    requires forall p :: 0 <= p < |b.purchases| ==>
      SamePayments(b.purchases[p].activity, b'.purchases[p].activity, |b.expenses|)
    requires forall p :: |b.purchases| <= p < |b'.purchases| ==> PaidIn(b'.purchases[p].activity, e) == 0
    ensures EntryOk(b', e)
  {
    hide PaymentsOk;
    assert EntryOk(b, e);
    AllocatedSame(b.purchases, b'.purchases, e, |b.purchases|);
    AllocatedTail(b'.purchases, e, |b.purchases|, |b'.purchases|);
  }

  lemma EntriesStay(b: Books, b': Books)
    requires MoneyOk(b) && |b.expenses| <= |b'.expenses| && |b.purchases| <= |b'.purchases|
    requires forall e :: 0 <= e < |b.expenses| ==> b'.expenses[e] == b.expenses[e]
    requires forall p :: 0 <= p < |b.purchases| ==>
      SamePayments(b.purchases[p].activity, b'.purchases[p].activity, |b.expenses|)
    requires forall p, e :: |b.purchases| <= p < |b'.purchases| && 0 <= e < |b.expenses| ==>
      PaidIn(b'.purchases[p].activity, e) == 0
    ensures forall e :: 0 <= e < |b.expenses| ==> EntryOk(b', e)
  {
    hide EntryOk, PaymentsOk, PaidIn, LastPaid, SamePayments;
    forall e | 0 <= e < |b.expenses| ensures EntryOk(b', e) { EntryStays(b, b', e); }
  }

  /** The three parts of the promise, put together. */
  lemma Assemble(b: Books)
    requires Valid(b.expenses)
    requires forall p :: 0 <= p < |b.purchases| ==> PaymentsOk(p, b.purchases[p], b.expenses)
    requires forall e :: 0 <= e < |b.expenses| ==> EntryOk(b, e)
    ensures MoneyOk(b)
  {
  }

  /* ---- operations that record no payment ---- */

  predicate Quiet(events: seq<Activity>) {
    forall k :: 0 <= k < |events| ==> !events[k].Paid? && !events[k].PaymentReversed?
  }

  lemma {:induction false} QuietEvents(activity: seq<Activity>, events: seq<Activity>, e: nat)
    requires Quiet(events)
    ensures PaidIn(activity + events, e) == PaidIn(activity, e)
    ensures LastPaid(activity + events, e) == LastPaid(activity, e)
    ensures Undone(activity + events, e) == Undone(activity, e)
  {
    if events == [] {
      assert activity + events == activity;
    } else {
      var n := |events| - 1;
      assert activity + events == (activity + events[..n]) + [events[n]];
      QuietEvents(activity, events[..n], e);
      PaidInAppend(activity + events[..n], events[n], e);
    }
  }

  lemma {:induction false} QuietOutstanding(activity: seq<Activity>, events: seq<Activity>, n: nat)
    requires Quiet(events)
    ensures Outstanding(activity + events, n) == Outstanding(activity, n)
  {
    if n > 0 {
      QuietOutstanding(activity, events, n - 1);
      QuietEvents(activity, events, n - 1);
    }
  }

  lemma QuietOk(p: nat, activity: seq<Activity>, events: seq<Activity>, es: seq<Entry>)
    requires EventsOk(p, activity, es) && Quiet(events)
    ensures EventsOk(p, activity + events, es)
    ensures SamePayments(activity, activity + events, |es|)
  {
    forall e: nat
      ensures PaidIn(activity + events, e) == PaidIn(activity, e)
      ensures LastPaid(activity + events, e) == LastPaid(activity, e)
      ensures Undone(activity + events, e) == Undone(activity, e)
    {
      QuietEvents(activity, events, e);
    }
  }

  /** The payment fields after an operation that records no payment: untouched, or set up by the invoice. */
  predicate QuietChange(x: Purchase, x': Purchase) {
    && x'.paid == x.paid && x'.paymentEntry == x.paymentEntry
    && ((x'.invoice == x.invoice && x'.settled == x.settled) ||
        (x.invoice.None? && x'.invoice.Some? && x'.invoice.value.total >= 0
         && x'.settled == (x'.invoice.value.total == 0)))
  }

  lemma QuietPurchase(p: nat, x: Purchase, x': Purchase, events: seq<Activity>, es: seq<Entry>)
    requires PaymentsOk(p, x, es) && Quiet(events) && QuietChange(x, x')
    requires x'.activity == x.activity + events
    ensures PaymentsOk(p, x', es)
    ensures SamePayments(x.activity, x'.activity, |es|)
  {
    QuietOk(p, x.activity, events, es);
    QuietOutstanding(x.activity, events, |es|);
    if x.paymentEntry.Some? { QuietEvents(x.activity, events, x.paymentEntry.value); }
  }

  lemma QuietStep(b: Books, b': Books, p: nat, events: seq<Activity>)
    requires MoneyOk(b) && p < |b.purchases| && Quiet(events)
    requires b'.expenses == b.expenses && |b'.purchases| == |b.purchases|
    requires b'.purchases == b.purchases[p := b'.purchases[p]]
    requires QuietChange(b.purchases[p], b'.purchases[p])
    requires b'.purchases[p].activity == b.purchases[p].activity + events
    ensures MoneyOk(b')
  {
    QuietPurchase(p, b.purchases[p], b'.purchases[p], events, b.expenses);
    hide EntryOk, PaymentsOk, PaidIn, LastPaid;
    EntriesStay(b, b');
    Assemble(b');
  }

  lemma {:induction false} NothingOutstanding(n: nat)
    ensures Outstanding([], n) == 0
  {
    if n > 0 { NothingOutstanding(n - 1); }
  }

  lemma NewPurchaseOk(b: Books, b': Books, x: Purchase)
    requires MoneyOk(b) && b'.expenses == b.expenses && b'.purchases == b.purchases + [x]
    requires x.activity == [Created] && x.paid == 0 && x.invoice.None? && !x.settled && x.paymentEntry.None?
    ensures MoneyOk(b')
  {
    var start: seq<Activity> := [];
    var p := |b.purchases|;
    assert x.activity == start + [Created];
    assert EventsOk(p, start, b.expenses);
    NothingOutstanding(|b.expenses|);
    QuietPurchase(p, x.(activity := start), x, [Created], b.expenses);
    forall e: nat ensures PaidIn(x.activity, e) == 0 { QuietEvents(start, [Created], e); }
    hide PaymentsOk, EntryOk, PaidIn, LastPaid, Undone, EventsOk;
    EntriesStay(b, b');
    Assemble(b');
  }

  lemma CreateKeepsMoney(b: Books, filial: nat, supplier: nat, supplierFilial: Option<nat>, inputs: seq<LineInput>,
                         inScope: bool)
    requires MoneyOk(b)
    ensures var r := Create(b, filial, supplier, supplierFilial, inputs, inScope); r.Ok? ==> MoneyOk(r.books)
  {
    hide MoneyOk, NewLines;
    var r := Create(b, filial, supplier, supplierFilial, inputs, inScope);
    if r.Ok? { NewPurchaseOk(b, r.books, r.books.purchases[|b.purchases|]); }
  }

  lemma ReceiveKeepsMoney(b: Books, p: nat, items: seq<Arrival>, inScope: bool)
    requires MoneyOk(b)
    ensures var r := Receive(b, p, items, inScope); r.Ok? ==> MoneyOk(r.books)
  {
    hide MoneyOk, FirstProblem;
    var r := Receive(b, p, items, inScope);
    if r.Ok? { QuietStep(b, r.books, p, ReceivedEvents(Nonzero(items), |b.lots|)); }
  }

  lemma UpdateStatusKeepsMoney(b: Books, p: nat, to: Status, quotes: seq<Quote>, warehouse: bool)
    requires MoneyOk(b)
    ensures var r := UpdateStatus(b, p, to, quotes, warehouse); r.Ok? ==> MoneyOk(r.books)
  {
    hide MoneyOk;
    var r := UpdateStatus(b, p, to, quotes, warehouse);
    if r.Ok? && to != b.purchases[p].status {
      QuietStep(b, r.books, p,
        [if to == Cotizada then Quoted else if to == Recibida then StatusReceived else Cancelled]);
    }
  }

  predicate InvoiceValid(input: InvoiceInput) {
    input.iva >= 0.0 && forall x :: x in input.lines ==> x.unitCost >= 0.0
  }

  lemma {:induction false} InvoicedCostNonNegative(items: seq<InvoicedLine>, i: nat)
    requires forall x :: x in items ==> x.unitCost >= 0.0
    ensures 0 <= InvoicedCost(items, i)
  {
    if items != [] {
      assert items[|items| - 1] in items;
      InvoicedCostNonNegative(items[..|items| - 1], i);
    }
  }

  lemma {:induction false} SubtotalNonNegative(lines: seq<Line>, items: seq<InvoicedLine>, n: nat)
    requires n <= |lines| && forall x :: x in items ==> x.unitCost >= 0.0
    ensures 0 <= Subtotal(lines, items, n)
  {
    if n > 0 {
      SubtotalNonNegative(lines, items, n - 1);
      InvoicedCostNonNegative(items, n - 1);
      assert 0 <= lines[n - 1].received * InvoicedCost(items, n - 1);
    }
  }

  lemma IvaNonNegative(subtotal: Cents, percentage: real)
    requires subtotal >= 0 && percentage >= 0.0
    ensures Iva(subtotal, percentage) >= 0
  {
    assert FromCents(subtotal) * percentage >= 0.0;
  }

  /** What reconciling leaves of the payment fields. */
  lemma ReconcileIsQuiet(b: Books, p: nat, input: InvoiceInput)
    requires MoneyOk(b) && InvoiceValid(input) && Reconcile(b, p, input).Ok?
    ensures
      var after := Reconcile(b, p, input).books.purchases[p];
      && after.invoice.Some? && QuietChange(b.purchases[p], after)
      && after.activity == b.purchases[p].activity + [Reconciled(after.invoice.value.total)]
  {
    var x := b.purchases[p];
    assert PaymentsOk(p, x, b.expenses);
    SubtotalNonNegative(x.lines, input.lines, |x.lines|);
    IvaNonNegative(Subtotal(x.lines, input.lines, |x.lines|), input.iva);
    hide MoneyOk, Iva, Subtotal, EventsOk, Outstanding, CoversLines, InvoicedLines, RecostedLots;
  }

  lemma ReconcileKeepsMoney(b: Books, p: nat, input: InvoiceInput)
    requires MoneyOk(b) && InvoiceValid(input)
    ensures var r := Reconcile(b, p, input); r.Ok? ==> MoneyOk(r.books)
  {
    hide MoneyOk, Iva, Subtotal, CoversLines, InvoicedLines, RecostedLots, QuietChange;
    var r := Reconcile(b, p, input);
    if r.Ok? {
      ReconcileIsQuiet(b, p, input);
      QuietStep(b, r.books, p, [Reconciled(r.books.purchases[p].invoice.value.total)]);
    }
  }

  lemma NotAPayment(b: Books, e: nat)
    requires e < |b.expenses| && !b.expenses[e].source.PurchasePayment?
    ensures EntryOk(b, e)
  {
  }

  lemma RecordOtherKeepsMoney(b: Books, entry: Entry)
    requires MoneyOk(b) && Original(entry) && !entry.source.PurchasePayment?
    ensures MoneyOk(RecordOther(b, entry).books)
  {
    var b' := RecordOther(b, entry).books;
    ValidAppend(b.expenses, entry);
    hide PaymentsOk, EntryOk;
    forall p | 0 <= p < |b.purchases| ensures PaymentsOk(p, b.purchases[p], b'.expenses) {
      PaymentsStay(p, b.purchases[p], b.expenses, entry);
    }
    EntriesStay(b, b');
    NotAPayment(b', |b.expenses|);
    Assemble(b');
  }

  /* ---- pay ---- */

  lemma SinglePaymentOk(b: Books, e: nat, p: nat)
    requires e < |b.expenses| && p < |b.purchases| && Original(b.expenses[e])
    requires b.expenses[e].source == PurchasePayment(Some(p)) && 0 < Dollars(b.expenses[e])
    requires Allocated(b.purchases, e, |b.purchases|) == Dollars(b.expenses[e])
    requires LastPaid(b.purchases[p].activity, e) == Some(Dollars(b.expenses[e]))
    ensures EntryOk(b, e)
  {
  }

  /** No purchase has a payment through the entry about to be inserted. */
  lemma OthersFresh(b: Books, p: nat)
    requires MoneyOk(b)
    ensures forall q :: 0 <= q < |b.purchases| ==> PaidIn(b.purchases[q].activity, |b.expenses|) == 0
  {
    forall q | 0 <= q < |b.purchases| ensures PaidIn(b.purchases[q].activity, |b.expenses|) == 0 {
      assert PaymentsOk(q, b.purchases[q], b.expenses);
      FreshEntry(q, b.purchases[q].activity, b.expenses);
    }
  }

  /** One purchase pays `usd` through a new entry of its own. */
  lemma RecordedPayment(b: Books, b': Books, p: nat, entry: Entry, usd: Cents)
    requires MoneyOk(b) && p < |b.purchases| && b'.expenses == b.expenses + [entry]
    requires Original(entry) && entry.source == PurchasePayment(Some(p)) && Dollars(entry) == usd
    requires
      var x := b.purchases[p];
      && 0 < usd && x.invoice.Some? && x.paid + usd <= x.invoice.value.total
      && b'.purchases == b.purchases[p := x.(
           paid := x.paid + usd, paymentEntry := Some(|b.expenses|), settled := x.paid + usd == x.invoice.value.total,
           activity := x.activity + [Paid(|b.expenses|, usd, x.invoice.value.total - x.paid - usd)])]
    ensures MoneyOk(b')
  {
    var id, x := |b.expenses|, b.purchases[p];
    ValidAppend(b.expenses, entry);
    PaymentRecorded(p, x, b.expenses, entry, b'.purchases[p], usd, x.invoice.value.total - x.paid - usd);
    OthersFresh(b, p);
    hide PaymentsOk, EntryOk, PaidIn, LastPaid, Undone;
    AllocatedOnly(b'.purchases, id, p, |b'.purchases|);
    forall q | 0 <= q < |b.purchases| ensures PaymentsOk(q, b'.purchases[q], b'.expenses) {
      if q != p { PaymentsStay(q, b.purchases[q], b.expenses, entry); }
    }
    EntriesStay(b, b');
    SinglePaymentOk(b', id, p);
    Assemble(b');
  }

  lemma PayKeepsMoney(b: Books, p: nat, pay: Payment)
    requires MoneyOk(b) && PaymentValid(pay)
    ensures var r := Pay(b, p, pay); r.Ok? ==> MoneyOk(r.books)
  {
    hide MoneyOk, PaymentUsd, Round;
    var r := Pay(b, p, pay);
    if r.Ok? {
      var entry := r.books.expenses[|b.expenses|];
      RecordedPayment(b, r.books, p, entry, PaymentUsd(pay));
    }
  }

  /* ---- create_expense ---- */

  /** The balances of the listed purchases among the first `n`. */
  function ListedBalance(b: Books, ps: seq<nat>, n: nat): Cents
    requires n <= |b.purchases|
  {
    if n == 0 then 0 else ListedBalance(b, ps, n - 1) + if n - 1 in ps then Balance(b.purchases[n - 1]) else 0
  }

  lemma {:induction false} ListedOneMore(b: Books, ps: seq<nat>, q: nat, n: nat)
    requires n <= |b.purchases| && q !in ps && q < |b.purchases|
    ensures ListedBalance(b, ps + [q], n) == ListedBalance(b, ps, n) + if q < n then Balance(b.purchases[q]) else 0
  {
    if n > 0 { ListedOneMore(b, ps, q, n - 1); }
  }

  lemma {:induction false} ListedNone(b: Books, n: nat)
    requires n <= |b.purchases|
    ensures ListedBalance(b, [], n) == 0
  {
    if n > 0 { ListedNone(b, n - 1); }
  }

  /** Summing over the list or over the purchases is the same, because the list repeats nothing. */
  lemma {:induction false} ListedIsTotal(b: Books, ps: seq<nat>, n: nat)
    requires n <= |ps| && Distinct(ps) && forall k :: 0 <= k < |ps| ==> ps[k] < |b.purchases|
    ensures ListedBalance(b, ps[..n], |b.purchases|) == TotalBalance(b, ps, n)
  {
    if n == 0 {
      ListedNone(b, |b.purchases|);
    } else {
      ListedIsTotal(b, ps, n - 1);
      assert ps[..n] == ps[..n - 1] + [ps[n - 1]];
      ListedOneMore(b, ps[..n - 1], ps[n - 1], |b.purchases|);
    }
  }

  lemma {:induction false} GroupAllocation(b: Books, ps: seq<nat>, id: nat, after: seq<Purchase>, n: nat)
    requires n <= |b.purchases| == |after|
    requires forall p :: 0 <= p < n ==>
      PaidIn(after[p].activity, id) == if p in ps then Balance(b.purchases[p]) else 0
    ensures Allocated(after, id, n) == ListedBalance(b, ps, n)
  {
    if n > 0 { GroupAllocation(b, ps, id, after, n - 1); }
  }

  /** One purchase of a grouped payment. */
  lemma SettledRecorded(b: Books, e: ExpenseInput, entry: Entry, p: nat)
    requires MoneyOk(b) && PayableProblem(b, e, p).None? && Original(entry)
    requires entry.source == PurchasePayment(Some(p)) || entry.source == PurchasePayment(None)
    ensures PaymentsOk(p, Settled(b.purchases[p], |b.expenses|), b.expenses + [entry])
    ensures 0 < Balance(b.purchases[p])
    ensures
      var after := Settled(b.purchases[p], |b.expenses|).activity;
      && LastPaid(after, |b.expenses|) == Some(Balance(b.purchases[p])) == Some(PaidIn(after, |b.expenses|))
      && SamePayments(b.purchases[p].activity, after, |b.expenses|)
  {
    var x := b.purchases[p];
    assert PaymentsOk(p, x, b.expenses);
    PaymentRecorded(p, x, b.expenses, entry, Settled(x, |b.expenses|), Balance(x), 0);
  }

  predicate GroupPayment(b: Books, e: ExpenseInput, entry: Entry) {
    && Distinct(e.purchases) && e.purchases != []
    && (forall p :: p in e.purchases ==> PayableProblem(b, e, p).None?)
    && (forall k :: 0 <= k < |e.purchases| ==>
      e.purchases[k] < |b.purchases| && b.purchases[e.purchases[k]].invoice.Some?)
    && Original(entry) && entry.amountUsd == Some(TotalBalance(b, e.purchases, |e.purchases|))
    && entry.source == PurchasePayment(if |e.purchases| == 1 then Some(e.purchases[0]) else None)
  }

  function AfterGroup(b: Books, e: ExpenseInput, entry: Entry): Books
    requires GroupPayment(b, e, entry)
  {
    b.(expenses := b.expenses + [entry], purchases := SettledPurchases(b, e.purchases, |b.expenses|))
  }

  /** What the grouped payment leaves on each purchase. */
  lemma GroupPurchase(b: Books, e: ExpenseInput, entry: Entry, p: nat)
    requires MoneyOk(b) && p < |b.purchases| && Original(entry)
    requires p in e.purchases ==> PayableProblem(b, e, p).None?
    requires entry.source == PurchasePayment(Some(p)) || entry.source == PurchasePayment(None) || p !in e.purchases
    ensures
      var id := |b.expenses|;
      var after := if p in e.purchases then Settled(b.purchases[p], id) else b.purchases[p];
      && PaymentsOk(p, after, b.expenses + [entry])
      && SamePayments(b.purchases[p].activity, after.activity, id)
      && PaidIn(after.activity, id) == (if p in e.purchases then Balance(b.purchases[p]) else 0)
      && (p in e.purchases ==>
        0 < Balance(b.purchases[p]) && LastPaid(after.activity, id) == Some(Balance(b.purchases[p])))
  {
    if p in e.purchases {
      SettledRecorded(b, e, entry, p);
    } else {
      OthersFresh(b, p);
      PaymentsStay(p, b.purchases[p], b.expenses, entry);
    }
  }

  lemma GroupPurchases(b: Books, e: ExpenseInput, entry: Entry)
    requires MoneyOk(b) && GroupPayment(b, e, entry)
    ensures forall p :: 0 <= p < |b.purchases| ==>
      var after := AfterGroup(b, e, entry).purchases[p];
      && PaymentsOk(p, after, b.expenses + [entry])
      && SamePayments(b.purchases[p].activity, after.activity, |b.expenses|)
      && PaidIn(after.activity, |b.expenses|) == (if p in e.purchases then Balance(b.purchases[p]) else 0)
    ensures forall k :: 0 <= k < |e.purchases| ==>
      var p := e.purchases[k];
      && 0 < Balance(b.purchases[p])
      && LastPaid(AfterGroup(b, e, entry).purchases[p].activity, |b.expenses|) == Some(Balance(b.purchases[p]))
  {
    hide PaymentsOk, EntryOk, PaidIn, LastPaid, Undone, PayableProblem, Balance, Settled, SamePayments;
    var ps := e.purchases;
    forall p: nat | p < |b.purchases|
      ensures
        var after := AfterGroup(b, e, entry).purchases[p];
        && PaymentsOk(p, after, b.expenses + [entry])
        && SamePayments(b.purchases[p].activity, after.activity, |b.expenses|)
        && PaidIn(after.activity, |b.expenses|) == (if p in ps then Balance(b.purchases[p]) else 0)
        && (p in ps ==>
          0 < Balance(b.purchases[p]) && LastPaid(after.activity, |b.expenses|) == Some(Balance(b.purchases[p])))
    {
      assert |ps| == 1 && p in ps ==> p == ps[0];
      GroupPurchase(b, e, entry, p);
    }
    forall k | 0 <= k < |ps| ensures ps[k] in ps {}
  }

  lemma {:induction false} TotalPositive(b: Books, ps: seq<nat>, n: nat)
    requires n <= |ps| && forall k :: 0 <= k < |ps| ==> ps[k] < |b.purchases| && 0 < Balance(b.purchases[ps[k]])
    ensures 0 < n ==> 0 < TotalBalance(b, ps, n)
    ensures n == 1 ==> TotalBalance(b, ps, n) == Balance(b.purchases[ps[0]])
  {
    if n > 0 { TotalPositive(b, ps, n - 1); }
  }

  lemma GroupTotal(b: Books, ps: seq<nat>)
    requires Distinct(ps) && ps != []
    requires forall k :: 0 <= k < |ps| ==> ps[k] < |b.purchases| && 0 < Balance(b.purchases[ps[k]])
    ensures ListedBalance(b, ps, |b.purchases|) == TotalBalance(b, ps, |ps|) > 0
    ensures |ps| == 1 ==> TotalBalance(b, ps, |ps|) == Balance(b.purchases[ps[0]])
  {
    ListedIsTotal(b, ps, |ps|);
    assert ps[..|ps|] == ps;
    TotalPositive(b, ps, |ps|);
  }

  lemma GroupEntryOk(b: Books, id: nat, ps: seq<nat>, entry: Entry, first: Cents)
    requires id < |b.expenses| && b.expenses[id] == entry && Original(entry) && ps != [] && ps[0] < |b.purchases|
    requires entry.source == PurchasePayment(if |ps| == 1 then Some(ps[0]) else None)
    requires 0 < Dollars(entry) == Allocated(b.purchases, id, |b.purchases|)
    requires |ps| == 1 ==> Dollars(entry) == first
    requires LastPaid(b.purchases[ps[0]].activity, id) == Some(first)
    ensures EntryOk(b, id)
  {
  }

  lemma GroupEntry(b: Books, e: ExpenseInput, entry: Entry)
    requires MoneyOk(b) && GroupPayment(b, e, entry)
    ensures EntryOk(AfterGroup(b, e, entry), |b.expenses|)
  {
    hide MoneyOk, PaymentsOk, EntryOk, PaidIn, LastPaid, PayableProblem, Balance, Settled, SamePayments,
      SettledPurchases;
    var b' := AfterGroup(b, e, entry);
    GroupPurchases(b, e, entry);
    GroupAllocation(b, e.purchases, |b.expenses|, b'.purchases, |b.purchases|);
    GroupTotal(b, e.purchases);
    GroupEntryOk(b', |b.expenses|, e.purchases, entry, Balance(b.purchases[e.purchases[0]]));
  }

  lemma GroupKeepsMoney(b: Books, e: ExpenseInput, entry: Entry)
    requires MoneyOk(b) && GroupPayment(b, e, entry)
    ensures MoneyOk(AfterGroup(b, e, entry))
  {
    ValidAppend(b.expenses, entry);
    GroupPurchases(b, e, entry);
    GroupEntry(b, e, entry);
    hide PaymentsOk, EntryOk, PaidIn, LastPaid, Balance, SettledPurchases, SamePayments, Valid;
    var b' := AfterGroup(b, e, entry);
    EntriesStay(b, b');
    Assemble(b');
  }

  lemma CreateExpenseKeepsMoney(b: Books, e: ExpenseInput)
    requires MoneyOk(b) && ExpenseValid(e)
    ensures var r := CreateExpense(b, e); r.Ok? ==> MoneyOk(r.books)
  {
    var r := CreateExpense(b, e);
    if r.Ok? {
      var entry := r.books.expenses[|b.expenses|];
      assert r.books.expenses == b.expenses + [entry];
      if e.purchases == [] {
        assert r.books.purchases == b.purchases;
        RecordOtherKeepsMoney(b, entry);
      } else {
        assert forall k :: 0 <= k < |e.purchases| ==>
          e.purchases[k] in e.purchases && PayableProblem(b, e, e.purchases[k]).None?;
        GroupKeepsMoney(b, e, entry);
      }
    }
  }

  /* ---- reverse_expense ---- */

  lemma ReverseKeepsMoney(b: Books, e: nat)
    requires MoneyOk(b)
    ensures var r := ReverseExpense(b, e); r.Ok? ==> MoneyOk(r.books)
  {
    var r := ReverseExpense(b, e);
    if r.Ok? {
      var entry := CounterEntry(b.expenses, e);
      ValidAppend(b.expenses, entry);
      hide PaymentsOk, EntryOk, PaidIn, LastPaid, Undone, Finds;
      forall p | 0 <= p < |b.purchases|
        ensures PaymentsOk(p, r.books.purchases[p], r.books.expenses)
        ensures SamePayments(b.purchases[p].activity, r.books.purchases[p].activity, |b.expenses|)
      {
        if Finds(b, e, p) {
          ReversalRecorded(b, e, p);
        } else {
          NotFoundNotReferenced(b, e, p);
          PaymentsStay(p, b.purchases[p], b.expenses, entry);
        }
      }
      EntriesStay(b, r.books);
      NotAPayment(r.books, |b.expenses|);
      Assemble(r.books);
    }
  }
}

/**
  The money side of purchases over every run: the paid amount is the sum of the
  payments that no reversal has undone, it stays between zero and the invoice total,
  and the purchase counts as settled exactly when it is fully paid.
 */
module PurchasePayments {
  import opened Prelude
  import opened Money
  import opened Ledger
  import opened Purchases

  /* ---- reading the activity of a purchase ---- */

  /** The total of the payment events for entry `e`. */
  function PaidIn(activity: seq<Activity>, e: nat): Cents {
    if activity == [] then 0
    else
      var last := activity[|activity| - 1];
      PaidIn(activity[..|activity| - 1], e) + if last.Paid? && last.expense == e then last.amount else 0
  }

  /** A reversal event for entry `e` has been recorded. */
  predicate Undone(activity: seq<Activity>, e: nat) {
    exists k :: 0 <= k < |activity| && activity[k].PaymentReversed? && activity[k].expense == e
  }

  /** The payments through entries below `n` that no reversal event matches. */
  function Outstanding(activity: seq<Activity>, n: nat): Cents {
    if n == 0 then 0
    else Outstanding(activity, n - 1) + if Undone(activity, n - 1) then 0 else PaidIn(activity, n - 1)
  }

  /** Entry `e` is a payment that may name purchase `p`. */
  predicate PaymentFor(es: seq<Entry>, e: nat, p: nat) {
    e < |es| && (es[e].source == PurchasePayment(Some(p)) || es[e].source == PurchasePayment(None))
  }

  ghost predicate EventsOk(p: nat, activity: seq<Activity>, es: seq<Entry>) {
    && (forall k :: 0 <= k < |activity| && activity[k].Paid? ==>
          activity[k].amount > 0 && PaymentFor(es, activity[k].expense, p))
    && (forall e: nat :: Undone(activity, e) ==> Reversed(es, e))
    && (forall e: nat :: LastPaid(activity, e) == if PaidIn(activity, e) > 0 then Some(PaidIn(activity, e)) else None)
  }

  /** What every purchase promises about its payments. */
  ghost predicate PaymentsOk(p: nat, x: Purchase, es: seq<Entry>) {
    && EventsOk(p, x.activity, es)
    && x.paid == Outstanding(x.activity, |es|)
    && (x.invoice.None? ==> x.paid == 0 && !x.settled && forall k :: 0 <= k < |x.activity| ==> !x.activity[k].Paid?)
    && (x.invoice.Some? ==> 0 <= x.paid <= x.invoice.value.total && (x.settled <==> x.paid == x.invoice.value.total))
    && (x.paymentEntry.Some? ==>
          var e := x.paymentEntry.value;
          LastPaid(x.activity, e).Some? && !Undone(x.activity, e) && !Reversed(es, e))
  }

  /** The total of the payment events for entry `e` over the first `n` purchases. */
  function Allocated(purchases: seq<Purchase>, e: nat, n: nat): Cents
    requires n <= |purchases|
  {
    if n == 0 then 0 else Allocated(purchases, e, n - 1) + PaidIn(purchases[n - 1].activity, e)
  }

  /** A payment entry is worth what it paid, purchase by purchase. */
  predicate EntryOk(b: Books, e: nat)
    requires e < |b.expenses|
  {
    b.expenses[e].source.PurchasePayment? ==>
      && Original(b.expenses[e])
      && 0 < Dollars(b.expenses[e]) == Allocated(b.purchases, e, |b.purchases|)
      && (b.expenses[e].source.purchase.Some? ==>
            var q := b.expenses[e].source.purchase.value;
            q < |b.purchases| && LastPaid(b.purchases[q].activity, e) == Some(Dollars(b.expenses[e])))
  }

  ghost predicate MoneyOk(b: Books) {
    && Valid(b.expenses)
    && (forall p :: 0 <= p < |b.purchases| ==> PaymentsOk(p, b.purchases[p], b.expenses))
    && (forall e :: 0 <= e < |b.expenses| ==> EntryOk(b, e))
  }

  /* ---- appended events ---- */

  lemma PaidInAppend(activity: seq<Activity>, event: Activity, e: nat)
    ensures PaidIn(activity + [event], e) ==
            PaidIn(activity, e) + if event.Paid? && event.expense == e then event.amount else 0
    ensures LastPaid(activity + [event], e) ==
            if event.Paid? && event.expense == e then Some(event.amount) else LastPaid(activity, e)
    ensures Undone(activity + [event], e) <==> Undone(activity, e) || (event.PaymentReversed? && event.expense == e)
  {
    var next := activity + [event];
    assert next[..|activity|] == activity;
    if Undone(activity, e) {
      var k :| 0 <= k < |activity| && activity[k].PaymentReversed? && activity[k].expense == e;
      assert next[k] == activity[k];
    }
    assert next[|activity|] == event;
  }

  lemma {:induction false} PaidInNone(activity: seq<Activity>, e: nat)
    requires forall k :: 0 <= k < |activity| ==> !activity[k].Paid? || activity[k].expense != e
    ensures PaidIn(activity, e) == 0
  {
    if activity != [] { PaidInNone(activity[..|activity| - 1], e); }
  }

  lemma {:induction false} OutstandingAfterPayment(activity: seq<Activity>, event: Activity, n: nat)
    requires event.Paid? && n <= event.expense
    ensures Outstanding(activity + [event], n) == Outstanding(activity, n)
  {
    if n > 0 {
      OutstandingAfterPayment(activity, event, n - 1);
      PaidInAppend(activity, event, n - 1);
    }
  }

  lemma {:induction false} OutstandingAfterOther(activity: seq<Activity>, event: Activity, n: nat)
    requires !event.Paid? && !event.PaymentReversed?
    ensures Outstanding(activity + [event], n) == Outstanding(activity, n)
  {
    if n > 0 {
      OutstandingAfterOther(activity, event, n - 1);
      PaidInAppend(activity, event, n - 1);
    }
  }

  /** A reversal event takes back exactly what its entry paid. */
  lemma {:induction false} OutstandingAfterReversal(activity: seq<Activity>, event: Activity, n: nat)
    requires event.PaymentReversed? && !Undone(activity, event.expense)
    ensures Outstanding(activity + [event], n) ==
            Outstanding(activity, n) - if event.expense < n then PaidIn(activity, event.expense) else 0
  {
    if n > 0 {
      OutstandingAfterReversal(activity, event, n - 1);
      PaidInAppend(activity, event, n - 1);
    }
  }

  lemma {:induction false} NonNegative(p: nat, activity: seq<Activity>, es: seq<Entry>, e: nat)
    requires forall k :: 0 <= k < |activity| && activity[k].Paid? ==> activity[k].amount > 0
    ensures 0 <= PaidIn(activity, e)
    ensures PaidIn(activity, e) == 0 <==>
      forall k :: 0 <= k < |activity| ==> !activity[k].Paid? || activity[k].expense != e
  {
    if activity != [] {
      var n := |activity| - 1;
      NonNegative(p, activity[..n], es, e);
    }
  }

  /** Every payment still standing is part of the outstanding total. */
  lemma {:induction false} OutstandingCovers(p: nat, activity: seq<Activity>, es: seq<Entry>, e: nat, n: nat)
    requires EventsOk(p, activity, es) && n <= |es|
    ensures 0 <= Outstanding(activity, n)
    ensures e < n && !Undone(activity, e) ==> PaidIn(activity, e) <= Outstanding(activity, n)
  {
    if n > 0 {
      OutstandingCovers(p, activity, es, e, n - 1);
      NonNegative(p, activity, es, n - 1);
    }
  }

  /** An entry nobody could have used yet has no events. */
  lemma FreshEntry(p: nat, activity: seq<Activity>, es: seq<Entry>)
    requires EventsOk(p, activity, es) && Valid(es)
    ensures PaidIn(activity, |es|) == 0 && !Undone(activity, |es|) && LastPaid(activity, |es|).None?
  {
    PaidInNone(activity, |es|);
  }

  /* ---- appended ledger entries ---- */

  lemma ReversedAppend(es: seq<Entry>, entry: Entry, e: nat)
    ensures Reversed(es + [entry], e) <==> Reversed(es, e) || entry.reverses == Some(e)
  {
    var next := es + [entry];
    if Reversed(es, e) {
      var k :| 0 <= k < |es| && es[k].reverses == Some(e);
      assert next[k] == es[k];
    }
    assert next[|es|] == entry;
  }

  lemma EventsStay(p: nat, activity: seq<Activity>, es: seq<Entry>, entry: Entry)
    requires EventsOk(p, activity, es)
    ensures EventsOk(p, activity, es + [entry])
  {
    forall e | Undone(activity, e) ensures Reversed(es + [entry], e) { ReversedAppend(es, entry, e); }
  }

  lemma OutstandingExtends(activity: seq<Activity>, n: nat)
    ensures Outstanding(activity, n + 1) ==
      Outstanding(activity, n) + if Undone(activity, n) then 0 else PaidIn(activity, n)
  {
  }

  /** Purchases an appended entry does not concern keep their promises. */
  lemma PaymentsStay(p: nat, x: Purchase, es: seq<Entry>, entry: Entry)
    requires PaymentsOk(p, x, es) && Valid(es)
    requires entry.reverses.Some? ==> x.paymentEntry != entry.reverses
    ensures PaymentsOk(p, x, es + [entry])
  {
    hide Outstanding, PaidIn, LastPaid, Undone;
    EventsStay(p, x.activity, es, entry);
    FreshEntry(p, x.activity, es);
    OutstandingExtends(x.activity, |es|);
    if x.paymentEntry.Some? { ReversedAppend(es, entry, x.paymentEntry.value); }
  }

  /* ---- one purchase after a payment, and after a reversal ---- */

  lemma PaymentEvents(p: nat, activity: seq<Activity>, es: seq<Entry>, event: Activity)
    requires EventsOk(p, activity, es) && event.Paid? && event.amount > 0
    requires PaymentFor(es, event.expense, p) && PaidIn(activity, event.expense) == 0
    ensures EventsOk(p, activity + [event], es)
    ensures LastPaid(activity + [event], event.expense) == Some(event.amount) ==
      Some(PaidIn(activity + [event], event.expense))
    ensures forall e :: e != event.expense ==>
      PaidIn(activity + [event], e) == PaidIn(activity, e) && LastPaid(activity + [event], e) == LastPaid(activity, e)
    ensures forall e :: Undone(activity + [event], e) == Undone(activity, e)
  {
    var next := activity + [event];
    forall e: nat
      ensures PaidIn(next, e) == PaidIn(activity, e) + if e == event.expense then event.amount else 0
      ensures LastPaid(next, e) == if e == event.expense then Some(event.amount) else LastPaid(activity, e)
      ensures Undone(next, e) == Undone(activity, e)
    {
      PaidInAppend(activity, event, e);
    }
  }

  /** A new payment entry, recorded on the purchase with its event. */
  lemma PaymentRecorded(p: nat, x: Purchase, es: seq<Entry>, entry: Entry, x': Purchase, amount: Cents, balance: Cents)
    requires PaymentsOk(p, x, es) && Valid(es) && Original(entry)
    requires entry.source == PurchasePayment(Some(p)) || entry.source == PurchasePayment(None)
    requires 0 < amount && x.invoice.Some? && x.paid + amount <= x.invoice.value.total
    requires x'.invoice == x.invoice && x'.activity == x.activity + [Paid(|es|, amount, balance)]
    requires x'.paid == x.paid + amount && (x'.settled <==> x'.paid == x.invoice.value.total)
    requires x'.paymentEntry == Some(|es|)
    ensures PaymentsOk(p, x', es + [entry])
    ensures LastPaid(x'.activity, |es|) == Some(amount) == Some(PaidIn(x'.activity, |es|))
    ensures forall e :: e != |es| ==>
      PaidIn(x'.activity, e) == PaidIn(x.activity, e) && LastPaid(x'.activity, e) == LastPaid(x.activity, e)
    ensures forall e :: Undone(x'.activity, e) == Undone(x.activity, e)
  {
    var event := Paid(|es|, amount, balance);
    var es' := es + [entry];
    FreshEntry(p, x.activity, es);
    EventsStay(p, x.activity, es, entry);
    PaymentEvents(p, x.activity, es', event);
    OutstandingAfterPayment(x.activity, event, |es|);
    OutstandingExtends(x'.activity, |es|);
    assert !Reversed(es', |es|) by {
      ReversedAppend(es, entry, |es|);
      if k :| 0 <= k < |es| && es[k].reverses == Some(|es|) { assert false; }
    }
  }

  lemma ReversalEvents(p: nat, activity: seq<Activity>, es: seq<Entry>, event: Activity)
    requires EventsOk(p, activity, es) && event.PaymentReversed? && Reversed(es, event.expense)
    ensures EventsOk(p, activity + [event], es)
    ensures forall e ::
      PaidIn(activity + [event], e) == PaidIn(activity, e) && LastPaid(activity + [event], e) == LastPaid(activity, e)
    ensures forall e :: Undone(activity + [event], e) <==> Undone(activity, e) || e == event.expense
  {
    var next := activity + [event];
    forall e: nat
      ensures PaidIn(next, e) == PaidIn(activity, e) && LastPaid(next, e) == LastPaid(activity, e)
      ensures Undone(next, e) <==> Undone(activity, e) || e == event.expense
    {
      PaidInAppend(activity, event, e);
    }
  }

  lemma PaymentEntryIsPayment(p: nat, x: Purchase, es: seq<Entry>)
    requires PaymentsOk(p, x, es) && x.paymentEntry.Some?
    ensures PaymentFor(es, x.paymentEntry.value, p) && LastPaid(x.activity, x.paymentEntry.value).Some?
  {
    NonNegative(p, x.activity, es, x.paymentEntry.value);
  }

  /** The payment a reversal finds is recorded, stands, and is worth no more than the paid amount. */
  lemma FoundPayment(b: Books, e: nat, p: nat)
    requires MoneyOk(b) && e < |b.expenses| && p < |b.purchases| && !Reversed(b.expenses, e) && Finds(b, e, p)
    ensures
      var x := b.purchases[p];
      && x.invoice.Some? && LastPaid(x.activity, e) == Some(PaidIn(x.activity, e))
      && !Undone(x.activity, e) && 0 < PaidIn(x.activity, e) <= x.paid
      && b.expenses[e].source.PurchasePayment?
  {
    var x := b.purchases[p];
    assert PaymentsOk(p, x, b.expenses) && EntryOk(b, e);
    hide Outstanding;
    if x.paymentEntry == Some(e) { PaymentEntryIsPayment(p, x, b.expenses); }
    assert LastPaid(x.activity, e).Some?;
    OutstandingCovers(p, x.activity, b.expenses, e, |b.expenses|);
    NonNegative(p, x.activity, b.expenses, e);
  }

  /**
    Main result about one reversal: for every purchase it finds, the payment event is
    there (the fallback to the entry's own amount is never taken) and the
    `max(0, ...)` clamp never cuts anything off.
   */
  lemma ClampNeverFires(b: Books, e: nat, p: nat)
    requires MoneyOk(b) && ReverseExpense(b, e).Ok? && p < |b.purchases| && Finds(b, e, p)
    ensures LastPaid(b.purchases[p].activity, e).Some?
    ensures ReverseExpense(b, e).books.purchases[p].paid == b.purchases[p].paid - PaidIn(b.purchases[p].activity, e)
    ensures 0 <= ReverseExpense(b, e).books.purchases[p].paid < b.purchases[p].invoice.value.total
  {
    FoundPayment(b, e, p);
    assert PaymentsOk(p, b.purchases[p], b.expenses);
  }

  lemma ReversalRecorded(b: Books, e: nat, p: nat)
    requires MoneyOk(b) && ReverseExpense(b, e).Ok? && p < |b.purchases| && Finds(b, e, p)
    ensures PaymentsOk(p, UnpaidPurchases(b, e)[p], b.expenses + [CounterEntry(b.expenses, e)])
    ensures
      var before, after := b.purchases[p].activity, UnpaidPurchases(b, e)[p].activity;
      && (forall d :: PaidIn(after, d) == PaidIn(before, d) && LastPaid(after, d) == LastPaid(before, d))
      && (forall d :: Undone(after, d) <==> Undone(before, d) || d == e)
  {
    var x := b.purchases[p];
    var entry := CounterEntry(b.expenses, e);
    var es' := b.expenses + [entry];
    FoundPayment(b, e, p);
    assert PaymentsOk(p, x, b.expenses);
    var event := PaymentReversed(e, PaidIn(x.activity, e));
    EventsStay(p, x.activity, b.expenses, entry);
    ReversedAppend(b.expenses, entry, e);
    ReversalEvents(p, x.activity, es', event);
    FreshEntry(p, x.activity, b.expenses);
    OutstandingExtends(x.activity, |b.expenses|);
    OutstandingAfterReversal(x.activity, event, |es'|);
    var x' := UnpaidPurchases(b, e)[p];
    hide Outstanding, PaidIn, Undone, LastPaid;
    assert x'.activity == x.activity + [event];
    assert x'.paid == Outstanding(x'.activity, |es'|);
    if x'.paymentEntry.Some? {
      assert x'.paymentEntry == x.paymentEntry != Some(e);
      ReversedAppend(b.expenses, entry, x.paymentEntry.value);
    }
  }

  lemma NotFoundNotReferenced(b: Books, e: nat, p: nat)
    requires MoneyOk(b) && e < |b.expenses| && p < |b.purchases| && !Finds(b, e, p)
    ensures b.purchases[p].paymentEntry != Some(e)
  {
    assert PaymentsOk(p, b.purchases[p], b.expenses) && EntryOk(b, e);
    if b.purchases[p].paymentEntry == Some(e) {
      PaymentEntryIsPayment(p, b.purchases[p], b.expenses);
    }
  }
}

/**
  Purchases against the ledger.  A purchase agrees with the ledger when each of its
  payments is undone in its activity exactly if the ledger no longer holds the money.
  This module says what agreement buys, and exactly which reversals break it.
 */
module PurchaseLedger {
  import opened Prelude
  import opened Money
  import opened Ledger
  import opened Purchases
  import opened PurchasePayments
  import opened PurchaseSteps

  /** Every payment recorded on purchase `p` is undone exactly when its entry is no longer live. */
  ghost predicate AgreesFor(b: Books, p: nat)
    requires Valid(b.expenses) && p < |b.purchases|
  {
    forall e :: 0 <= e < |b.expenses| && LastPaid(b.purchases[p].activity, e).Some? ==>
      (Undone(b.purchases[p].activity, e) <==> !Live(b.expenses, e))
  }

  ghost predicate Agrees(b: Books)
    requires Valid(b.expenses)
  {
    forall p :: 0 <= p < |b.purchases| ==> AgreesFor(b, p)
  }

  /* ---- what agreement buys ---- */

  /** The payments of a purchase through live entries below `n`. */
  function LivePaid(activity: seq<Activity>, es: seq<Entry>, n: nat): Cents
    requires Valid(es) && n <= |es|
  {
    if n == 0 then 0
    else LivePaid(activity, es, n - 1) + if Live(es, n - 1) then PaidIn(activity, n - 1) else 0
  }

  lemma {:induction false} OutstandingIsLive(b: Books, p: nat, n: nat)
    requires MoneyOk(b) && p < |b.purchases| && AgreesFor(b, p) && n <= |b.expenses|
    ensures Outstanding(b.purchases[p].activity, n) == LivePaid(b.purchases[p].activity, b.expenses, n)
  {
    if n > 0 {
      OutstandingIsLive(b, p, n - 1);
      assert PaymentsOk(p, b.purchases[p], b.expenses);
      NonNegative(p, b.purchases[p].activity, b.expenses, n - 1);
    }
  }

  /** The paid amount of `p` is its share, single and grouped, of the payments the ledger still holds. */
  predicate ShareMatches(b: Books, p: nat)
    requires Valid(b.expenses) && p < |b.purchases|
  {
    b.purchases[p].paid == LivePaid(b.purchases[p].activity, b.expenses, |b.expenses|)
  }

  /** Main result, one purchase, however it was paid: in agreement its paid amount is its share of the ledger. */
  lemma PaidIsLive(b: Books, p: nat)
    requires MoneyOk(b) && p < |b.purchases| && AgreesFor(b, p)
    ensures ShareMatches(b, p)
  {
    assert PaymentsOk(p, b.purchases[p], b.expenses);
    OutstandingIsLive(b, p, |b.expenses|);
  }

  /** Every payment of this purchase was made on its own. */
  predicate OnlySingle(b: Books, p: nat)
    requires p < |b.purchases|
  {
    forall k :: 0 <= k < |b.purchases[p].activity| && b.purchases[p].activity[k].Paid? ==>
      var e := b.purchases[p].activity[k].expense;
      e < |b.expenses| && b.expenses[e].source == PurchasePayment(Some(p))
  }

  lemma SingleStep(activity: seq<Activity>, es: seq<Entry>, p: nat, n: nat)
    requires Valid(es) && n <= |es|
    requires n > 0 ==>
      PaidIn(activity, n - 1) == if es[n - 1].source == PurchasePayment(Some(p)) then Dollars(es[n - 1]) else 0
    requires n > 0 && es[n - 1].source.PurchasePayment? ==> Original(es[n - 1])
    requires n > 0 ==>
      LivePaid(activity, es, n - 1) == LiveTotal(es, (s: Source) => s == PurchasePayment(Some(p)), Dollars, n - 1)
    ensures LivePaid(activity, es, n) == LiveTotal(es, (s: Source) => s == PurchasePayment(Some(p)), Dollars, n)
  {
    hide Live, PaidIn, Valid;
  }

  lemma SingleShare(b: Books, p: nat, e: nat)
    requires MoneyOk(b) && p < |b.purchases| && OnlySingle(b, p) && e < |b.expenses|
    ensures PaidIn(b.purchases[p].activity, e) ==
            if b.expenses[e].source == PurchasePayment(Some(p)) then Dollars(b.expenses[e]) else 0
    ensures b.expenses[e].source.PurchasePayment? ==> Original(b.expenses[e])
  {
    assert EntryOk(b, e) && PaymentsOk(p, b.purchases[p], b.expenses);
    NonNegative(p, b.purchases[p].activity, b.expenses, e);
  }

  lemma {:induction false} SingleLive(b: Books, p: nat, n: nat)
    requires MoneyOk(b) && p < |b.purchases| && OnlySingle(b, p) && n <= |b.expenses|
    ensures LivePaid(b.purchases[p].activity, b.expenses, n) ==
            LiveTotal(b.expenses, (s: Source) => s == PurchasePayment(Some(p)), Dollars, n)
  {
    if n > 0 {
      SingleLive(b, p, n - 1);
      SingleShare(b, p, n - 1);
    }
    hide *;
    SingleStep(b.purchases[p].activity, b.expenses, p, n);
  }

  /** The net of the ledger over the payments made on `p` alone and their chains of counter-entries. */
  function NetPaidOn(b: Books, p: nat): Cents
    requires Valid(b.expenses)
  {
    NetWhere(b.expenses, (s: Source) => s == PurchasePayment(Some(p)), Dollars, |b.expenses|)
  }

  /** The share of a purchase that was only paid on its own is that net. */
  lemma SingleShareIsNet(b: Books, p: nat)
    requires MoneyOk(b) && p < |b.purchases| && OnlySingle(b, p)
    ensures LivePaid(b.purchases[p].activity, b.expenses, |b.expenses|) == NetPaidOn(b, p)
  {
    SingleLive(b, p, |b.expenses|);
    AmountsAreOdd();
    NetIsLive(b.expenses, (s: Source) => s == PurchasePayment(Some(p)), Dollars);
  }

  /**
    Main result, one purchase: if it was only ever paid on its own and agrees with the
    ledger, its paid amount is the net of the ledger over its payments and their chains
    of counter-entries, whatever became of other purchases.
   */
  lemma SinglePurchaseMatchesLedger(b: Books, p: nat)
    requires MoneyOk(b) && p < |b.purchases| && AgreesFor(b, p) && OnlySingle(b, p)
    ensures b.purchases[p].paid == NetPaidOn(b, p)
  {
    PaidIsLive(b, p);
    SingleShareIsNet(b, p);
  }

  function PaidTotal(purchases: seq<Purchase>, n: nat): Cents
    requires n <= |purchases|
  {
    if n == 0 then 0 else PaidTotal(purchases, n - 1) + purchases[n - 1].paid
  }

  function LivePaidTotal(b: Books, m: nat, n: nat): Cents
    requires Valid(b.expenses) && m <= |b.purchases| && n <= |b.expenses|
  {
    if m == 0 then 0 else LivePaidTotal(b, m - 1, n) + LivePaid(b.purchases[m - 1].activity, b.expenses, n)
  }

  lemma {:induction false} LivePaidTotalStep(b: Books, m: nat, n: nat)
    requires Valid(b.expenses) && m <= |b.purchases| && 0 < n <= |b.expenses|
    ensures LivePaidTotal(b, m, n) ==
            LivePaidTotal(b, m, n - 1) + if Live(b.expenses, n - 1) then Allocated(b.purchases, n - 1, m) else 0
  {
    if m > 0 { LivePaidTotalStep(b, m - 1, n); }
  }

  lemma {:induction false} LivePaidTotalZero(b: Books, m: nat)
    requires Valid(b.expenses) && m <= |b.purchases|
    ensures LivePaidTotal(b, m, 0) == 0
  {
    if m > 0 { LivePaidTotalZero(b, m - 1); }
  }

  /** Entries that are no purchase payment have paid no purchase. */
  lemma NothingAllocated(b: Books, e: nat)
    requires MoneyOk(b) && e < |b.expenses| && !b.expenses[e].source.PurchasePayment?
    ensures Allocated(b.purchases, e, |b.purchases|) == 0
  {
    forall p | 0 <= p < |b.purchases| ensures PaidIn(b.purchases[p].activity, e) == 0 {
      assert PaymentsOk(p, b.purchases[p], b.expenses);
      PaidInNone(b.purchases[p].activity, e);
    }
    AllocatedOnly(b.purchases, e, |b.purchases|, |b.purchases|);
  }

  predicate IsPayment(s: Source) { s.PurchasePayment? }

  /** One entry: what the purchases got through it is what it is worth as a purchase payment. */
  lemma LiveShare(b: Books, e: nat)
    requires MoneyOk(b) && e < |b.expenses|
    ensures Allocated(b.purchases, e, |b.purchases|) ==
            if Original(b.expenses[e]) && IsPayment(b.expenses[e].source) then Dollars(b.expenses[e]) else 0
  {
    assert EntryOk(b, e);
    if !b.expenses[e].source.PurchasePayment? { NothingAllocated(b, e); }
  }

  lemma {:induction false} LivePaidTotalIsLedger(b: Books, n: nat)
    requires MoneyOk(b) && n <= |b.expenses|
    ensures LivePaidTotal(b, |b.purchases|, n) == LiveTotal(b.expenses, IsPayment, Dollars, n)
  {
    hide PaymentsOk, EntryOk, Live, Allocated, LivePaidTotal;
    if n == 0 {
      LivePaidTotalZero(b, |b.purchases|);
    } else {
      LivePaidTotalIsLedger(b, n - 1);
      LivePaidTotalStep(b, |b.purchases|, n);
      LiveShare(b, n - 1);
    }
  }

  lemma {:induction false} PaidTotalIsLive(b: Books, m: nat)
    requires MoneyOk(b) && Agrees(b) && m <= |b.purchases|
    ensures PaidTotal(b.purchases, m) == LivePaidTotal(b, m, |b.expenses|)
  {
    if m > 0 {
      PaidTotalIsLive(b, m - 1);
      PaidIsLive(b, m - 1);
    }
  }

  /**
    Main result, all purchases: grouped payments included, the sum of the paid amounts
    is the net of the ledger over all purchase payments and their counter-entries.
   */
  lemma PurchasesMatchLedger(b: Books)
    requires MoneyOk(b) && Agrees(b)
    ensures PaidTotal(b.purchases, |b.purchases|) == NetWhere(b.expenses, IsPayment, Dollars, |b.expenses|)
  {
    PaidTotalIsLive(b, |b.purchases|);
    LivePaidTotalIsLedger(b, |b.expenses|);
    AmountsAreOdd();
    NetIsLive(b.expenses, IsPayment, Dollars);
  }

  /* ---- which steps keep agreement ---- */

  /**
    A reversal the purchases can follow: the entry is not a counter-entry in the chain
    of a purchase payment, and every purchase it paid still names it.
   */
  predicate Faithful(b: Books, e: nat)
    requires Valid(b.expenses) && e < |b.expenses|
  {
    var r := Root(b.expenses, e);
    b.expenses[r].source.PurchasePayment? ==>
      && Original(b.expenses[e])
      && forall p :: 0 <= p < |b.purchases| && LastPaid(b.purchases[p].activity, e).Some? ==> Finds(b, e, p)
  }

  /** The same for one purchase: if it was paid through the chain of `e`, then by `e` itself, and it still names `e`. */
  predicate FaithfulFor(b: Books, e: nat, p: nat)
    requires Valid(b.expenses) && e < |b.expenses| && p < |b.purchases|
  {
    LastPaid(b.purchases[p].activity, Root(b.expenses, e)).Some? ==> Original(b.expenses[e]) && Finds(b, e, p)
  }

  /** A payment made on its own is always found again. */
  lemma SingleIsFaithful(b: Books, e: nat)
    requires MoneyOk(b) && e < |b.expenses| && b.expenses[e].source.PurchasePayment?
    requires b.expenses[e].source.purchase.Some?
    ensures Faithful(b, e)
  {
    assert EntryOk(b, e);
    forall p | 0 <= p < |b.purchases| && LastPaid(b.purchases[p].activity, e).Some? ensures Finds(b, e, p) {
      assert PaymentsOk(p, b.purchases[p], b.expenses);
      NonNegative(p, b.purchases[p].activity, b.expenses, e);
    }
  }

  /** Some purchase recorded the payment. */
  lemma {:induction false} SomeoneWasPaid(b: Books, e: nat, n: nat) returns (p: nat)
    requires MoneyOk(b) && e < |b.expenses| && n <= |b.purchases| && 0 < Allocated(b.purchases, e, n)
    ensures p < n && LastPaid(b.purchases[p].activity, e).Some?
  {
    if PaidIn(b.purchases[n - 1].activity, e) > 0 {
      p := n - 1;
      assert PaymentsOk(p, b.purchases[p], b.expenses);
    } else {
      p := SomeoneWasPaid(b, e, n - 1);
    }
  }

  lemma RootIsPayment(b: Books, p: nat, e: nat)
    requires MoneyOk(b) && p < |b.purchases| && LastPaid(b.purchases[p].activity, e).Some?
    ensures e < |b.expenses| && b.expenses[e].source.PurchasePayment? && Original(b.expenses[e])
  {
    assert PaymentsOk(p, b.purchases[p], b.expenses);
    NonNegative(p, b.purchases[p].activity, b.expenses, e);
    assert EntryOk(b, e);
  }

  /** The reversal flips the liveness of exactly the chain it extends. */
  lemma ReversalFlips(b: Books, e: nat, d: nat)
    requires MoneyOk(b) && ReverseExpense(b, e).Ok? && d < |b.expenses| && Original(b.expenses[d])
    ensures Valid(ReverseExpense(b, e).books.expenses)
    ensures Live(ReverseExpense(b, e).books.expenses, d) ==
            if Root(b.expenses, e) == d then !Live(b.expenses, d) else Live(b.expenses, d)
  {
    var entry := CounterEntry(b.expenses, e);
    ValidAppend(b.expenses, entry);
    LiveAfter(b.expenses, entry, d);
  }

  lemma LiveUnreversed(es: seq<Entry>, e: nat)
    requires Valid(es) && e < |es| && !Reversed(es, e)
    ensures Live(es, e)
  {
  }

  /** What the reversal does to one recorded payment of one purchase. */
  lemma ReversalOnPayment(b: Books, e: nat, p: nat, d: nat)
    requires MoneyOk(b) && ReverseExpense(b, e).Ok? && p < |b.purchases| && AgreesFor(b, p)
    requires LastPaid(b.purchases[p].activity, d).Some?
    ensures
      var b' := ReverseExpense(b, e).books;
      && Valid(b'.expenses) && d < |b.expenses|
      && LastPaid(b'.purchases[p].activity, d).Some?
      && ((Undone(b'.purchases[p].activity, d) <==> !Live(b'.expenses, d)) <==>
          (Root(b.expenses, e) == d ==> e == d && Finds(b, e, p)))
  {
    RootIsPayment(b, p, d);
    ReversalFlips(b, e, d);
    if Finds(b, e, p) {
      FoundPayment(b, e, p);
      assert EntryOk(b, e);
      ReversalRecorded(b, e, p);
    }
    if Root(b.expenses, e) == d && e == d { LiveUnreversed(b.expenses, e); }
  }

  lemma NewEventsAreNotPayments(b: Books, e: nat, p: nat, d: nat)
    requires MoneyOk(b) && ReverseExpense(b, e).Ok? && p < |b.purchases|
    ensures LastPaid(ReverseExpense(b, e).books.purchases[p].activity, d) == LastPaid(b.purchases[p].activity, d)
  {
    if Finds(b, e, p) { ReversalRecorded(b, e, p); }
  }

  /**
    Main result, one purchase: a reversal leaves it in agreement exactly when it is faithful
    to it, whatever the state of the others.
   */
  lemma ReversalKeepsAgreementForIff(b: Books, e: nat, p: nat)
    requires MoneyOk(b) && ReverseExpense(b, e).Ok? && p < |b.purchases| && AgreesFor(b, p)
    ensures Valid(ReverseExpense(b, e).books.expenses)
    ensures AgreesFor(ReverseExpense(b, e).books, p) <==> FaithfulFor(b, e, p)
  {
    var b' := ReverseExpense(b, e).books;
    ValidAppend(b.expenses, CounterEntry(b.expenses, e));
    if FaithfulFor(b, e, p) {
      forall d | 0 <= d < |b'.expenses| && LastPaid(b'.purchases[p].activity, d).Some?
        ensures Undone(b'.purchases[p].activity, d) <==> !Live(b'.expenses, d)
      {
        NewEventsAreNotPayments(b, e, p, d);
        RootIsPayment(b, p, d);
        ReversalOnPayment(b, e, p, d);
      }
    } else {
      ReversalOnPayment(b, e, p, Root(b.expenses, e));
    }
  }

  /** A reversal is faithful when it is faithful to every purchase. */
  lemma FaithfulIsForAll(b: Books, e: nat)
    requires MoneyOk(b) && e < |b.expenses|
    ensures Faithful(b, e) <==> forall p :: 0 <= p < |b.purchases| ==> FaithfulFor(b, e, p)
  {
    var r := Root(b.expenses, e);
    if Faithful(b, e) {
      forall p | 0 <= p < |b.purchases| ensures FaithfulFor(b, e, p) {
        if LastPaid(b.purchases[p].activity, r).Some? { RootIsPayment(b, p, r); }
      }
    } else {
      assert EntryOk(b, r);
      if Original(b.expenses[e]) {
        var p :| 0 <= p < |b.purchases| && LastPaid(b.purchases[p].activity, e).Some? && !Finds(b, e, p);
        assert !FaithfulFor(b, e, p);
      } else {
        var p := SomeoneWasPaid(b, r, |b.purchases|);
        assert !FaithfulFor(b, e, p);
      }
    }
  }

  /**
    Main result: from a state in agreement, a reversal leaves agreement exactly when it
    is faithful.  Undoing a counter-entry of a purchase payment, or a grouped payment
    that some purchase no longer names, always breaks it.
   */
  lemma ReversalKeepsAgreementIff(b: Books, e: nat)
    requires MoneyOk(b) && Agrees(b) && ReverseExpense(b, e).Ok?
    ensures Valid(ReverseExpense(b, e).books.expenses)
    ensures Agrees(ReverseExpense(b, e).books) <==> Faithful(b, e)
  {
    ValidAppend(b.expenses, CounterEntry(b.expenses, e));
    hide MoneyOk, AgreesFor, Faithful, FaithfulFor, Valid;
    FaithfulIsForAll(b, e);
    forall p | 0 <= p < |b.purchases|
      ensures AgreesFor(ReverseExpense(b, e).books, p) <==> FaithfulFor(b, e, p)
    {
      ReversalKeepsAgreementForIff(b, e, p);
    }
  }

  /** To a purchase paid on its own every reversal is faithful but that of a counter-entry of its payments. */
  lemma SingleFaithfulIff(b: Books, e: nat, p: nat)
    requires MoneyOk(b) && e < |b.expenses| && p < |b.purchases| && OnlySingle(b, p)
    ensures FaithfulFor(b, e, p) <==>
      (b.expenses[Root(b.expenses, e)].source == PurchasePayment(Some(p)) ==> Original(b.expenses[e]))
  {
    var r := Root(b.expenses, e);
    assert EntryOk(b, r) && PaymentsOk(p, b.purchases[p], b.expenses);
    NonNegative(p, b.purchases[p].activity, b.expenses, r);
  }

  /* ---- which reversals keep the amounts equal ---- */

  /** What the purchases were paid in all is what the ledger has spent on purchases. */
  predicate AmountsMatch(b: Books)
    requires Valid(b.expenses)
  {
    PaidTotal(b.purchases, |b.purchases|) == NetWhere(b.expenses, IsPayment, Dollars, |b.expenses|)
  }

  /** What the first `n` purchases were paid through entry `e`, as far as its reversal finds them. */
  function FoundTotal(b: Books, e: nat, n: nat): Cents
    requires e < |b.expenses| && n <= |b.purchases|
  {
    if n == 0 then 0
    else FoundTotal(b, e, n - 1) + if Finds(b, e, n - 1) then PaidIn(b.purchases[n - 1].activity, e) else 0
  }

  /** The purchases lose exactly what the reversal finds. */
  lemma {:induction false} PaidAfterReversal(b: Books, e: nat, n: nat)
    requires MoneyOk(b) && ReverseExpense(b, e).Ok? && n <= |b.purchases|
    ensures PaidTotal(ReverseExpense(b, e).books.purchases, n) == PaidTotal(b.purchases, n) - FoundTotal(b, e, n)
  {
    hide MoneyOk, PaidIn;
    if n > 0 {
      PaidAfterReversal(b, e, n - 1);
      if Finds(b, e, n - 1) { ClampNeverFires(b, e, n - 1); }
    }
  }

  lemma PaidOrNot(b: Books, p: nat, e: nat)
    requires MoneyOk(b) && p < |b.purchases|
    ensures 0 <= PaidIn(b.purchases[p].activity, e)
    ensures 0 < PaidIn(b.purchases[p].activity, e) <==> LastPaid(b.purchases[p].activity, e).Some?
  {
    assert PaymentsOk(p, b.purchases[p], b.expenses);
    NonNegative(p, b.purchases[p].activity, b.expenses, e);
  }

  /** A reversal finds at most what was paid through the entry, and all of it when it finds every payer. */
  lemma {:induction false} FoundOfAllocated(b: Books, e: nat, n: nat)
    requires MoneyOk(b) && e < |b.expenses| && n <= |b.purchases|
    ensures FoundTotal(b, e, n) <= Allocated(b.purchases, e, n)
    ensures FoundTotal(b, e, n) == Allocated(b.purchases, e, n) <==>
            forall p :: 0 <= p < n && LastPaid(b.purchases[p].activity, e).Some? ==> Finds(b, e, p)
  {
    if n > 0 {
      FoundOfAllocated(b, e, n - 1);
      PaidOrNot(b, n - 1, e);
      hide MoneyOk, PaidIn, LastPaid, Finds;
    }
  }

  /** Only a payment finds purchases. */
  lemma {:induction false} NothingFound(b: Books, e: nat, n: nat)
    requires MoneyOk(b) && e < |b.expenses| && n <= |b.purchases|
    requires !Reversed(b.expenses, e) && !b.expenses[e].source.PurchasePayment?
    ensures FoundTotal(b, e, n) == 0
  {
    if n > 0 {
      NothingFound(b, e, n - 1);
      if Finds(b, e, n - 1) { FoundPayment(b, e, n - 1); }
    }
  }

  lemma {:induction false} NetStable(es: seq<Entry>, entry: Entry, which: Source -> bool, amount: Entry -> Cents,
                                     n: nat)
    requires Valid(es) && Valid(es + [entry]) && n <= |es|
    ensures NetWhere(es + [entry], which, amount, n) == NetWhere(es, which, amount, n)
  {
    if n > 0 {
      NetStable(es, entry, which, amount, n - 1);
      RootStable(es, entry, n - 1);
      assert (es + [entry])[n - 1] == es[n - 1];
    }
  }

  /** The net of the ledger moves by the opposite of the reversed entry, if its chain starts with a payment. */
  lemma NetAfterReversal(b: Books, e: nat)
    requires Valid(b.expenses) && ReverseExpense(b, e).Ok?
    ensures
      var es, es' := b.expenses, ReverseExpense(b, e).books.expenses;
      && Valid(es')
      && NetWhere(es', IsPayment, Dollars, |es'|) == NetWhere(es, IsPayment, Dollars, |es|)
           - if IsPayment(es[Root(es, e)].source) then Dollars(es[e]) else 0
  {
    var es, entry := b.expenses, CounterEntry(b.expenses, e);
    ValidAppend(es, entry);
    NetStable(es, entry, IsPayment, Dollars, |es|);
    RootStable(es, entry, e);
    hide Valid, Reversed;
    assert (es + [entry])[|es|] == entry && (es + [entry])[Root(es, e)] == es[Root(es, e)];
  }

  /** Both sides of the comparison after a reversal. */
  lemma AmountsAfterReversal(b: Books, e: nat)
    requires MoneyOk(b) && Agrees(b) && ReverseExpense(b, e).Ok?
    ensures
      var b' := ReverseExpense(b, e).books;
      && Valid(b'.expenses)
      && PaidTotal(b'.purchases, |b'.purchases|) - NetWhere(b'.expenses, IsPayment, Dollars, |b'.expenses|)
         == (if IsPayment(b.expenses[Root(b.expenses, e)].source) then Dollars(b.expenses[e]) else 0)
            - FoundTotal(b, e, |b.purchases|)
  {
    PurchasesMatchLedger(b);
    PaidAfterReversal(b, e, |b.purchases|);
    hide Agrees, PaidTotal, FoundTotal;
    NetAfterReversal(b, e);
  }

  /** A payment in a chain is worth something, with one sign or the other. */
  lemma ChainIsWorthSomething(b: Books, e: nat)
    requires MoneyOk(b) && e < |b.expenses| && b.expenses[Root(b.expenses, e)].source.PurchasePayment?
    ensures Dollars(b.expenses[e]) != 0
  {
    assert EntryOk(b, Root(b.expenses, e));
    AmountsAreOdd();
    AmountByRank(b.expenses, e, Dollars);
  }

  lemma CounterIsManual(es: seq<Entry>, e: nat)
    requires Valid(es) && e < |es|
    ensures if Original(es[e]) then Root(es, e) == e else es[e].source == Manual
  {
    if !Original(es[e]) { assert es[e] == CounterEntry(es, es[e].reverses.value); }
  }

  /**
    Main result: from a state in agreement, a reversal leaves the paid amounts equal to the
    net of the ledger exactly when it is faithful.
   */
  lemma ReversalKeepsAmountsIff(b: Books, e: nat)
    requires MoneyOk(b) && Agrees(b) && ReverseExpense(b, e).Ok?
    ensures Valid(ReverseExpense(b, e).books.expenses)
    ensures AmountsMatch(ReverseExpense(b, e).books) <==> Faithful(b, e)
  {
    AmountsAfterReversal(b, e);
    var r := Root(b.expenses, e);
    if !b.expenses[e].source.PurchasePayment? { NothingFound(b, e, |b.purchases|); }
    if b.expenses[r].source.PurchasePayment? { ChainIsWorthSomething(b, e); }
    assert EntryOk(b, e);
    FoundOfAllocated(b, e, |b.purchases|);
    CounterIsManual(b.expenses, e);
    hide MoneyOk, Agrees, FoundTotal, Allocated, NetWhere, PaidTotal;
  }

  /* ---- which reversals keep the share of one purchase ---- */

  lemma OnlyOriginalsPay(b: Books, p: nat, d: nat)
    requires MoneyOk(b) && p < |b.purchases| && d < |b.expenses| && !Original(b.expenses[d])
    ensures PaidIn(b.purchases[p].activity, d) == 0
  {
    PaidOrNot(b, p, d);
    if LastPaid(b.purchases[p].activity, d).Some? { RootIsPayment(b, p, d); }
  }

  lemma SamePaid(b: Books, e: nat, p: nat, d: nat)
    requires MoneyOk(b) && ReverseExpense(b, e).Ok? && p < |b.purchases|
    ensures PaidIn(ReverseExpense(b, e).books.purchases[p].activity, d) == PaidIn(b.purchases[p].activity, d)
  {
    if Finds(b, e, p) { ReversalRecorded(b, e, p); }
  }

  /** What the reversal takes out of the share of a purchase, or puts back into it, through its chain. */
  function Moved(b: Books, e: nat, p: nat): Cents
    requires Valid(b.expenses) && e < |b.expenses| && p < |b.purchases|
  {
    var r := Root(b.expenses, e);
    if Live(b.expenses, r) then -PaidIn(b.purchases[p].activity, r) else PaidIn(b.purchases[p].activity, r)
  }

  lemma PaymentMoves(b: Books, e: nat, p: nat, d: nat)
    requires MoneyOk(b) && ReverseExpense(b, e).Ok? && p < |b.purchases| && d < |b.expenses|
    ensures
      var b' := ReverseExpense(b, e).books;
      && Valid(b'.expenses)
      && (if Live(b'.expenses, d) then PaidIn(b'.purchases[p].activity, d) else 0)
         == (if Live(b.expenses, d) then PaidIn(b.purchases[p].activity, d) else 0)
            + (if Root(b.expenses, e) == d then Moved(b, e, p) else 0)
  {
    ValidAppend(b.expenses, CounterEntry(b.expenses, e));
    SamePaid(b, e, p, d);
    if Original(b.expenses[d]) { ReversalFlips(b, e, d); } else { OnlyOriginalsPay(b, p, d); }
    hide MoneyOk, Valid, Live, Finds, PaidIn, Root;
  }

  lemma {:induction false} ShareMoves(b: Books, e: nat, p: nat, n: nat)
    requires MoneyOk(b) && ReverseExpense(b, e).Ok? && p < |b.purchases| && n <= |b.expenses|
    ensures
      var b' := ReverseExpense(b, e).books;
      && Valid(b'.expenses)
      && LivePaid(b'.purchases[p].activity, b'.expenses, n) ==
           LivePaid(b.purchases[p].activity, b.expenses, n) + if Root(b.expenses, e) < n then Moved(b, e, p) else 0
  {
    ValidAppend(b.expenses, CounterEntry(b.expenses, e));
    hide MoneyOk, Valid, Live, Finds, PaidIn, Root, Moved;
    if n > 0 {
      ShareMoves(b, e, p, n - 1);
      PaymentMoves(b, e, p, n - 1);
    }
  }

  /** Nobody was paid through the counter-entry itself. */
  lemma ShareAfterReversal(b: Books, e: nat, p: nat)
    requires MoneyOk(b) && ReverseExpense(b, e).Ok? && p < |b.purchases|
    ensures
      var b' := ReverseExpense(b, e).books;
      var n := |b.expenses|;
      && Valid(b'.expenses) && |b'.expenses| == n + 1
      && LivePaid(b'.purchases[p].activity, b'.expenses, n + 1) == LivePaid(b'.purchases[p].activity, b'.expenses, n)
  {
    ValidAppend(b.expenses, CounterEntry(b.expenses, e));
    SamePaid(b, e, p, |b.expenses|);
    assert PaymentsOk(p, b.purchases[p], b.expenses);
    FreshEntry(p, b.purchases[p].activity, b.expenses);
  }

  /** A purchase the reversal finds was paid by it, so the reversal is faithful to it. */
  lemma FoundIsFaithful(b: Books, e: nat, p: nat)
    requires MoneyOk(b) && ReverseExpense(b, e).Ok? && p < |b.purchases| && Finds(b, e, p)
    ensures FaithfulFor(b, e, p)
  {
    FoundPayment(b, e, p);
    assert EntryOk(b, e);
  }

  /** An unfaithful reversal moves the share of the purchase and leaves its paid amount. */
  lemma UnfaithfulMovesShare(b: Books, e: nat, p: nat)
    requires MoneyOk(b) && ReverseExpense(b, e).Ok? && p < |b.purchases| && AgreesFor(b, p)
    requires !FaithfulFor(b, e, p)
    ensures Valid(ReverseExpense(b, e).books.expenses) && !ShareMatches(ReverseExpense(b, e).books, p)
  {
    if Finds(b, e, p) { FoundIsFaithful(b, e, p); }
    PaidIsLive(b, p);
    PaidOrNot(b, p, Root(b.expenses, e));
    hide MoneyOk, AgreesFor, Live, LivePaid, PaidIn, LastPaid, Valid, Finds;
    ShareMoves(b, e, p, |b.expenses|);
    ShareAfterReversal(b, e, p);
  }

  /**
    Main result, one purchase: a reversal leaves its paid amount equal to its share of the
    ledger exactly when it is faithful to it.
   */
  lemma ReversalKeepsShareIff(b: Books, e: nat, p: nat)
    requires MoneyOk(b) && ReverseExpense(b, e).Ok? && p < |b.purchases| && AgreesFor(b, p)
    ensures Valid(ReverseExpense(b, e).books.expenses)
    ensures ShareMatches(ReverseExpense(b, e).books, p) <==> FaithfulFor(b, e, p)
  {
    ReversalKeepsAgreementForIff(b, e, p);
    if FaithfulFor(b, e, p) {
      ReverseKeepsMoney(b, e);
      hide MoneyOk, FaithfulFor, AgreesFor;
      PaidIsLive(ReverseExpense(b, e).books, p);
    } else {
      UnfaithfulMovesShare(b, e, p);
    }
  }

  /* ---- which other steps keep agreement ---- */

  lemma NeverUndone(b: Books, b': Books, p: nat, e: nat)
    requires MoneyOk(b) && |b.expenses| <= e && p < |b'.purchases|
    requires Undone(b'.purchases[p].activity, e) ==> p < |b.purchases| && Undone(b.purchases[p].activity, e)
    ensures !Undone(b'.purchases[p].activity, e)
  {
    if p < |b.purchases| {
      assert PaymentsOk(p, b.purchases[p], b.expenses);
      assert !Reversed(b.expenses, e);
    }
  }

  lemma LastIsLive(es: seq<Entry>, e: nat)
    requires Valid(es) && e == |es| - 1
    ensures Live(es, e)
  {
    NothingAfter(es, e);
  }

  lemma OriginalsMoveNothing(es: seq<Entry>, es': seq<Entry>, e: nat)
    requires Valid(es) && Valid(es') && e < |es| <= |es'| <= |es| + 1 && es'[..|es|] == es
    requires |es'| > |es| ==> Original(es'[|es|])
    ensures Live(es', e) == Live(es, e)
  {
    if |es'| == |es| {
      assert es' == es;
    } else {
      assert es' == es + [es'[|es|]];
      LiveAfter(es, es'[|es|], e);
    }
  }

  /** Operations that only append an original entry, or none, keep agreement. */
  lemma AgreementStays(b: Books, b': Books, p: nat)
    requires MoneyOk(b) && MoneyOk(b') && p < |b'.purchases| && (p < |b.purchases| ==> AgreesFor(b, p))
    requires |b.expenses| <= |b'.expenses| <= |b.expenses| + 1 && b'.expenses[..|b.expenses|] == b.expenses
    requires |b'.expenses| > |b.expenses| ==> Original(b'.expenses[|b.expenses|])
    requires forall e: nat :: Undone(b'.purchases[p].activity, e) ==>
      p < |b.purchases| && Undone(b.purchases[p].activity, e)
    requires forall e: nat :: LastPaid(b'.purchases[p].activity, e).Some? && e < |b.expenses| ==>
      p < |b.purchases| && LastPaid(b.purchases[p].activity, e).Some?
      && (Undone(b.purchases[p].activity, e) ==> Undone(b'.purchases[p].activity, e))
    ensures AgreesFor(b', p)
  {
    hide PaymentsOk, EntryOk, Live, LastPaid, Undone;
    forall e | 0 <= e < |b'.expenses| && LastPaid(b'.purchases[p].activity, e).Some?
      ensures Undone(b'.purchases[p].activity, e) <==> !Live(b'.expenses, e)
    {
      if e < |b.expenses| {
        OriginalsMoveNothing(b.expenses, b'.expenses, e);
      } else {
        LastIsLive(b'.expenses, e);
        NeverUndone(b, b', p, e);
      }
    }
  }
}

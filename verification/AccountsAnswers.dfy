/**
  What the calls on accounts answer: exactly when a transfer or a reversal is accepted, and
  the rows an accepted one leaves.
 */
module AccountsAnswers {
  import opened Prelude
  import opened Money
  import opened Ledger
  import opened Accounts

  /* ---- transfers ---- */

  /** The rate a transfer needs is there: the agreed one across currencies, the official one within bolivars. */
  predicate HasRate(b: Book, t: TransferData)
    requires t.from < |b.accounts| && t.to < |b.accounts|
  {
    var from, to := b.accounts[t.from].currency, b.accounts[t.to].currency;
    if from != to then t.given.Some? else from == Usd || t.official.Some?
  }

  lemma TransferAcceptedIff(b: Book, t: TransferData)
    requires TransferValid(t)
    ensures CreateTransfer(b, t).Ok? <==>
      && t.openPeriod && t.from != t.to && t.from < |b.accounts| && t.to < |b.accounts| && HasRate(b, t)
    ensures CreateTransfer(b, t).Fail? ==>
      match CreateTransfer(b, t).error
      case PeriodNotOpen => !t.openPeriod
      case SameAccount => t.from == t.to
      case AccountNotFound => t.from >= |b.accounts| || t.to >= |b.accounts|
      case RateRequired =>
        && t.from < |b.accounts| && t.to < |b.accounts| && t.official.None?
        && b.accounts[t.from].currency == b.accounts[t.to].currency == Bs
      case TransferRateRequired =>
        && t.from < |b.accounts| && t.to < |b.accounts| && t.given.None?
        && b.accounts[t.from].currency != b.accounts[t.to].currency
      case _ => false
  {
  }

  lemma Positive(amount: real, rate: real)
    requires amount > 0.0 && rate > 0.0
    ensures amount * rate >= 0.0 && amount / rate >= 0.0
  {
  }

  /** What arrives, in the currency of the account it goes to. */
  function Arrives(from: Currency, to: Currency, t: TransferData): real
    requires TransferValid(t) && (from != to ==> t.given.Some?)
  {
    if from == to then t.amount
    else if from == Usd then t.amount * t.given.value
    else t.amount / t.given.value
  }

  /** What leaves, and so what arrives, is worth in dollars. */
  function WorthInDollars(from: Currency, to: Currency, t: TransferData): real
    requires TransferValid(t) && (if from != to then t.given.Some? else from == Usd || t.official.Some?)
  {
    if from == Usd then t.amount
    else if from != to then t.amount / t.given.value
    else t.amount / t.official.value
  }

  lemma ArrivingIs(from: Currency, to: Currency, t: TransferData)
    requires TransferValid(t) && Arriving(from, to, t).Some?
    ensures if from != to then t.given.Some? else from == Usd || t.official.Some?
    ensures Arriving(from, to, t).value.0 == Arrives(from, to, t)
    ensures Arriving(from, to, t).value.1 == WorthInDollars(from, to, t)
    ensures Arrives(from, to, t) >= 0.0 && WorthInDollars(from, to, t) >= 0.0
  {
    if from != to {
      Positive(t.amount, t.given.value);
    } else if from == Bs {
      Positive(t.amount, t.official.value);
    }
  }

  /** What leaves and what arrives, and what both are worth in dollars. */
  lemma TransferEffect(b: Book, t: TransferData)
    requires TransferValid(t) && CreateTransfer(b, t).Ok?
    ensures
      var b' := CreateTransfer(b, t).book;
      var m, n := |b.expenses|, |b.incomes|;
      && b'.accounts == b.accounts && |b'.expenses| == m + 1 && |b'.incomes| == n + 1
      && b'.expenses[..m] == b.expenses && b'.incomes[..n] == b.incomes
      && t.from < |b.accounts| && t.to < |b.accounts| && HasRate(b, t)
      && var from, to := b.accounts[t.from].currency, b.accounts[t.to].currency;
         var out, into := b'.expenses[m], b'.incomes[n];
         && out.account == t.from && out.currency == from && out.filial == t.filial
         && into.account == t.to && into.currency == to && into.filial == t.filial
         && Nearest(t.amount, out.amount) && Nearest(Arrives(from, to, t), into.amount)
         && out.amountUsd.Some? && Nearest(WorthInDollars(from, to, t), out.amountUsd.value)
         && into.amountUsd == out.amountUsd
         && out.source == into.source == Transfer && Original(out) && Original(into)
  {
    hide Nearest, Round, Arriving, Arrives, WorthInDollars;
    var from, to := b.accounts[t.from].currency, b.accounts[t.to].currency;
    ArrivingIs(from, to, t);
    NearestIsRound(t.amount, Round(t.amount));
    NearestIsRound(Arrives(from, to, t), Round(Arrives(from, to, t)));
    NearestIsRound(WorthInDollars(from, to, t), Round(WorthInDollars(from, to, t)));
  }

  /* ---- reversals ---- */

  /** An entry can be reversed exactly once, unless it belongs to a reservation. */
  predicate Reversible(es: seq<Entry>, i: nat) {
    && i < |es| && es[i].source != Reservation
    && forall k :: 0 <= k < |es| ==> es[k].reverses != Some(i)
  }

  /** The opposite of an entry, in the same account. */
  predicate Undoes(counter: Entry, e: Entry, i: nat) {
    && counter.amount == -e.amount && counter.account == e.account && counter.currency == e.currency
    && counter.filial == e.filial && counter.source == Manual && counter.reverses == Some(i)
    && (counter.amountUsd.Some? <==> e.amountUsd.Some?)
    && (e.amountUsd.Some? ==> counter.amountUsd.value == -e.amountUsd.value)
  }

  lemma IncomeReversal(b: Book, i: nat)
    ensures
      var r, n := ReverseIncome(b, i), |b.incomes|;
      && (r.Ok? <==> Reversible(b.incomes, i))
      && (r.Ok? ==>
           && r.book.accounts == b.accounts && r.book.expenses == b.expenses
           && |r.book.incomes| == n + 1 && r.book.incomes[..n] == b.incomes && i < n
           && Undoes(r.book.incomes[n], b.incomes[i], i))
      && (r.Fail? ==>
           match r.error
           case EntryNotFound => i >= n
           case ReservationEntry => i < n && b.incomes[i].source == Reservation
           case AlreadyReversed => exists k :: 0 <= k < n && b.incomes[k].reverses == Some(i)
           case _ => false)
  {
  }

  lemma ExpenseReversal(b: Book, i: nat)
    ensures
      var r, n := ReverseExpense(b, i), |b.expenses|;
      && (r.Ok? <==> Reversible(b.expenses, i))
      && (r.Ok? ==>
           && r.book.accounts == b.accounts && r.book.incomes == b.incomes
           && |r.book.expenses| == n + 1 && r.book.expenses[..n] == b.expenses && i < n
           && Undoes(r.book.expenses[n], b.expenses[i], i))
      && (r.Fail? ==>
           match r.error
           case EntryNotFound => i >= n
           case ReservationEntry => i < n && b.expenses[i].source == Reservation
           case AlreadyReversed => exists k :: 0 <= k < n && b.expenses[k].reverses == Some(i)
           case _ => false)
  {
  }

  /* ---- balances ---- */

  /** What the entries of an account hold in a currency, added from the first. */
  function Held(es: seq<Entry>, a: nat, currency: Currency): Cents {
    if es == [] then 0
    else (if es[0].account == a && es[0].currency == currency then es[0].amount else 0) + Held(es[1..], a, currency)
  }

  lemma {:induction false} HeldAppend(es: seq<Entry>, e: Entry, a: nat, currency: Currency)
    ensures Held(es + [e], a, currency) ==
            Held(es, a, currency) + if e.account == a && e.currency == currency then e.amount else 0
  {
    if es == [] {
      assert [e][1..] == [];
    } else {
      assert (es + [e])[1..] == es[1..] + [e];
      HeldAppend(es[1..], e, a, currency);
    }
  }

  lemma {:induction false} HeldIsPosted(es: seq<Entry>, a: nat, currency: Currency, n: nat)
    requires n <= |es|
    ensures Held(es[..n], a, currency) == Posted(es, a, currency, n)
  {
    if n > 0 {
      HeldIsPosted(es, a, currency, n - 1);
      HeldAppend(es[..n - 1], es[n - 1], a, currency);
      assert es[..n] == es[..n - 1] + [es[n - 1]];
    }
  }

  /** A balance: the opening, plus the account's incomes and minus its expenses, in its currency only. */
  lemma BalanceIs(b: Book, a: nat)
    requires a < |b.accounts|
    ensures
      var c := b.accounts[a].currency;
      Balance(b, a) == b.accounts[a].opening + Held(b.incomes, a, c) - Held(b.expenses, a, c)
  {
    var c := b.accounts[a].currency;
    HeldIsPosted(b.incomes, a, c, |b.incomes|);
    HeldIsPosted(b.expenses, a, c, |b.expenses|);
    assert b.incomes[..|b.incomes|] == b.incomes && b.expenses[..|b.expenses|] == b.expenses;
  }
}

/**
  Accounts of a filial (`app/modules/administracion/service.py`): balances read off the
  ledger, reversals of incomes, and transfers between accounts.
 */
module Accounts {
  import opened Prelude
  import opened Money
  import opened Ledger

  datatype Account = Account(currency: Currency, opening: Cents)

  datatype Book = Book(accounts: seq<Account>, incomes: seq<Entry>, expenses: seq<Entry>)

  datatype Error =
    | EntryNotFound | ReservationEntry | AlreadyReversed
    | AccountNotFound | SameAccount | RateRequired | TransferRateRequired | PeriodNotOpen

  datatype Result = Ok(book: Book) | Fail(error: Error)

  /* ---- balances ---- */

  /** What an entry adds to account `a`: its amount, if it is in the currency of the account. */
  function InAccount(a: nat, currency: Currency): Entry -> Cents {
    (e: Entry) => if e.account == a && e.currency == currency then e.amount else 0
  }

  function Posted(es: seq<Entry>, a: nat, currency: Currency, n: nat): Cents
    requires n <= |es|
  {
    if n == 0 then 0 else Posted(es, a, currency, n - 1) + InAccount(a, currency)(es[n - 1])
  }

  /** `_account_balance`. */
  function Balance(b: Book, a: nat): Cents
    requires a < |b.accounts|
  {
    var c := b.accounts[a].currency;
    b.accounts[a].opening + Posted(b.incomes, a, c, |b.incomes|) - Posted(b.expenses, a, c, |b.expenses|)
  }

  /** The balances of the first `n` accounts in a currency. */
  function Total(b: Book, currency: Currency, n: nat): Cents
    requires n <= |b.accounts|
  {
    if n == 0 then 0
    else Total(b, currency, n - 1) + if b.accounts[n - 1].currency == currency then Balance(b, n - 1) else 0
  }

  /* ---- operations ---- */

  function ReverseIncome(b: Book, i: nat): Result {
    if i >= |b.incomes| then Fail(EntryNotFound)
    else if b.incomes[i].source == Reservation then Fail(ReservationEntry)
    else if Reversed(b.incomes, i) then Fail(AlreadyReversed)
    else Ok(b.(incomes := b.incomes + [CounterEntry(b.incomes, i)]))
  }

  /** The ledger side of `reverse_expense`; what it does to purchases is in `Purchases`. */
  function ReverseExpense(b: Book, i: nat): Result {
    if i >= |b.expenses| then Fail(EntryNotFound)
    else if b.expenses[i].source == Reservation then Fail(ReservationEntry)
    else if Reversed(b.expenses, i) then Fail(AlreadyReversed)
    else Ok(b.(expenses := b.expenses + [CounterEntry(b.expenses, i)]))
  }

  /**
    A transfer: `amount` in the currency of the source account, `given` the agreed rate,
    `official` the rate of the day, in bolivars per dollar.
   */
  datatype TransferData = TransferData(
    filial: nat, from: nat, to: nat, amount: real, given: Option<real>, official: Option<real>, openPeriod: bool)

  predicate TransferValid(t: TransferData) {
    t.amount > 0.0 && (t.given.Some? ==> t.given.value > 0.0) && (t.official.Some? ==> t.official.value > 0.0)
  }

  /** What arrives, and its value in dollars; None when the needed rate is missing. */
  function Arriving(from: Currency, to: Currency, t: TransferData): Option<(real, real)>
    requires TransferValid(t)
  {
    if from == to then
      if from == Usd then Some((t.amount, t.amount))
      else if t.official.None? then None
      else Some((t.amount, t.amount / t.official.value))
    else if t.given.None? then None
    else if from == Usd then Some((t.amount * t.given.value, t.amount))
    else Some((t.amount / t.given.value, t.amount / t.given.value))
  }

  function Leg(t: TransferData, account: nat, currency: Currency, amount: real, dollars: real): Entry {
    Entry(t.filial, account, currency, Round(amount), Some(Round(dollars)), Transfer, None)
  }

  function CreateTransfer(b: Book, t: TransferData): Result
    requires TransferValid(t)
  {
    if !t.openPeriod then Fail(PeriodNotOpen)
    else if t.from == t.to then Fail(SameAccount)
    else if t.from >= |b.accounts| || t.to >= |b.accounts| then Fail(AccountNotFound)
    else
      var from, to := b.accounts[t.from].currency, b.accounts[t.to].currency;
      var arriving := Arriving(from, to, t);
      if arriving.None? then Fail(if from == to then RateRequired else TransferRateRequired)
      else
        Ok(b.(expenses := b.expenses + [Leg(t, t.from, from, t.amount, arriving.value.1)],
              incomes := b.incomes + [Leg(t, t.to, to, arriving.value.0, arriving.value.1)]))
  }

  predicate Matches(expected: Result, before: Book, after: Book, error: Option<Error>) {
    match expected
    case Ok(b) => error.None? && after == b
    case Fail(e) => error == Some(e) && after == before
  }

  class AccountsService {
    var accounts: seq<Account>
    var incomes: seq<Entry>
    var expenses: seq<Entry>

    function Contents(): Book
      reads this
    {
      Book(accounts, incomes, expenses)
    }

    constructor (accounts: seq<Account>)
      ensures Contents() == Book(accounts, [], [])
    {
      this.accounts, incomes, expenses := accounts, [], [];
    }

    /** Two queries summed and subtracted. */
    method AccountBalance(a: nat) returns (balance: Cents)
      requires a < |accounts|
      ensures balance == Balance(Contents(), a)
    {
      var currency := accounts[a].currency;
      var income := Sum(incomes, a, currency);
      var expense := Sum(expenses, a, currency);
      balance := accounts[a].opening + income - expense;
    }

    static method Sum(es: seq<Entry>, a: nat, currency: Currency) returns (sum: Cents)
      ensures sum == Posted(es, a, currency, |es|)
    {
      sum := 0;
      for i := 0 to |es|
        invariant sum == Posted(es, a, currency, i)
      {
        if es[i].account == a && es[i].currency == currency { sum := sum + es[i].amount; }
      }
    }

    method UndoIncome(i: nat) returns (error: Option<Error>)
      modifies this`incomes
      ensures Matches(ReverseIncome(old(Contents()), i), old(Contents()), Contents(), error)
    {
      if i >= |incomes| { return Some(EntryNotFound); }
      var original := incomes[i];
      if original.source == Reservation { return Some(ReservationEntry); }
      if Reversed(incomes, i) { return Some(AlreadyReversed); }
      var reversal := Entry(
        original.filial, original.account, original.currency, -original.amount,
        if original.amountUsd.Some? then Some(-original.amountUsd.value) else None, Manual, Some(i));
      incomes := incomes + [reversal];
      return None;
    }

    method MoveMoney(t: TransferData) returns (error: Option<Error>)
      requires TransferValid(t)
      modifies this
      ensures Matches(CreateTransfer(old(Contents()), t), old(Contents()), Contents(), error)
    {
      if !t.openPeriod { return Some(PeriodNotOpen); }
      if t.from == t.to { return Some(SameAccount); }
      if t.from >= |accounts| || t.to >= |accounts| { return Some(AccountNotFound); }
      var from, to := accounts[t.from], accounts[t.to];
      var toAmount, dollars := t.amount, t.amount;
      if from.currency == to.currency {
        if from.currency == Bs {
          if t.official.None? { return Some(RateRequired); }
          dollars := t.amount / t.official.value;
        }
      } else {
        if t.given.None? { return Some(TransferRateRequired); }
        if from.currency == Usd {
          toAmount := t.amount * t.given.value;
        } else {
          toAmount := t.amount / t.given.value;
          dollars := toAmount;
        }
      }
      expenses := expenses + [Leg(t, t.from, from.currency, t.amount, dollars)];
      incomes := incomes + [Leg(t, t.to, to.currency, toAmount, dollars)];
      return None;
    }
  }

  /* ---- runs ---- */

  /** `Post…` stand for every other operation that records a new entry. */
  datatype Command =
    | PostIncome(entry: Entry)
    | PostExpense(entry: Entry)
    | UndoIncome(entryId: nat)
    | UndoExpense(entryId: nat)
    | MoveMoney(transfer: TransferData)

  predicate CommandValid(c: Command) {
    match c
    case PostIncome(e) => Original(e)
    case PostExpense(e) => Original(e)
    case MoveMoney(t) => TransferValid(t)
    case _ => true
  }

  function Next(b: Book, c: Command): Book
    requires CommandValid(c)
  {
    match c
    case PostIncome(e) => b.(incomes := b.incomes + [e])
    case PostExpense(e) => b.(expenses := b.expenses + [e])
    case UndoIncome(i) => var r := ReverseIncome(b, i); if r.Ok? then r.book else b
    case UndoExpense(i) => var r := ReverseExpense(b, i); if r.Ok? then r.book else b
    case MoveMoney(t) => var r := CreateTransfer(b, t); if r.Ok? then r.book else b
  }

  predicate AllValid(cs: seq<Command>) { forall k :: 0 <= k < |cs| ==> CommandValid(cs[k]) }

  function After(accounts: seq<Account>, cs: seq<Command>, n: nat): Book
    requires n <= |cs| && AllValid(cs)
  {
    if n == 0 then Book(accounts, [], []) else Next(After(accounts, cs, n - 1), cs[n - 1])
  }

  predicate BookOk(b: Book) { Valid(b.incomes) && Valid(b.expenses) }

  lemma StepKeepsBook(b: Book, c: Command)
    requires BookOk(b) && CommandValid(c)
    ensures BookOk(Next(b, c)) && Next(b, c).accounts == b.accounts
  {
    hide Valid;
    match c
    case PostIncome(e) => ValidAppend(b.incomes, e);
    case PostExpense(e) => ValidAppend(b.expenses, e);
    case UndoIncome(i) => if ReverseIncome(b, i).Ok? { ValidAppend(b.incomes, CounterEntry(b.incomes, i)); }
    case UndoExpense(i) => if ReverseExpense(b, i).Ok? { ValidAppend(b.expenses, CounterEntry(b.expenses, i)); }
    case MoveMoney(t) =>
      var r := CreateTransfer(b, t);
      if r.Ok? {
        ValidAppend(b.incomes, r.book.incomes[|b.incomes|]);
        ValidAppend(b.expenses, r.book.expenses[|b.expenses|]);
      }
  }

  lemma {:induction false} RunKeepsBook(accounts: seq<Account>, cs: seq<Command>, n: nat)
    requires n <= |cs| && AllValid(cs)
    ensures BookOk(After(accounts, cs, n)) && After(accounts, cs, n).accounts == accounts
  {
    if n > 0 {
      RunKeepsBook(accounts, cs, n - 1);
      StepKeepsBook(After(accounts, cs, n - 1), cs[n - 1]);
    }
  }

  /* ---- balances are what is live ---- */

  const EVERY: Source -> bool := (s: Source) => true

  lemma {:induction false} PostedIsNet(es: seq<Entry>, a: nat, currency: Currency, n: nat)
    requires Valid(es) && n <= |es|
    ensures Posted(es, a, currency, n) == NetWhere(es, EVERY, InAccount(a, currency), n)
  {
    if n > 0 { PostedIsNet(es, a, currency, n - 1); }
  }

  /** What the live originals of a ledger hold in account `a`. */
  function LiveIn(es: seq<Entry>, a: nat, currency: Currency): Cents
    requires Valid(es)
  {
    LiveTotal(es, EVERY, InAccount(a, currency), |es|)
  }

  lemma InAccountIsOdd(a: nat, currency: Currency)
    ensures Odd(InAccount(a, currency))
  {
  }

  /**
    Main result: after any run, the balance of an account is its opening plus the incomes
    that stand minus the expenses that stand, however often entries were undone and the
    undoing undone.
   */
  lemma BalanceIsLive(accounts: seq<Account>, cs: seq<Command>, n: nat, a: nat)
    requires n <= |cs| && AllValid(cs) && a < |accounts|
    ensures
      var b := After(accounts, cs, n);
      && b.accounts == accounts && BookOk(b)
      && Balance(b, a) == accounts[a].opening
           + LiveIn(b.incomes, a, accounts[a].currency) - LiveIn(b.expenses, a, accounts[a].currency)
  {
    var b, c := After(accounts, cs, n), accounts[a].currency;
    RunKeepsBook(accounts, cs, n);
    PostedIsNet(b.incomes, a, c, |b.incomes|);
    PostedIsNet(b.expenses, a, c, |b.expenses|);
    InAccountIsOdd(a, c);
    NetIsLive(b.incomes, EVERY, InAccount(a, c));
    NetIsLive(b.expenses, EVERY, InAccount(a, c));
  }

  /* ---- what one step does to the balances ---- */

  lemma {:induction false} PostedAppend(es: seq<Entry>, e: Entry, a: nat, currency: Currency, n: nat)
    requires n <= |es|
    ensures Posted(es + [e], a, currency, n) == Posted(es, a, currency, n)
  {
    if n > 0 {
      PostedAppend(es, e, a, currency, n - 1);
      assert (es + [e])[n - 1] == es[n - 1];
    }
  }

  lemma PostedOneMore(es: seq<Entry>, e: Entry, a: nat, currency: Currency)
    ensures Posted(es + [e], a, currency, |es + [e]|) == Posted(es, a, currency, |es|) + InAccount(a, currency)(e)
  {
    PostedAppend(es, e, a, currency, |es|);
    assert (es + [e])[|es|] == e;
  }

  /** Reversing an income takes exactly that income out of every balance. */
  lemma ReversalUndoesIncome(b: Book, i: nat, a: nat)
    requires ReverseIncome(b, i).Ok? && a < |b.accounts|
    ensures Balance(ReverseIncome(b, i).book, a) == Balance(b, a) - InAccount(a, b.accounts[a].currency)(b.incomes[i])
  {
    PostedOneMore(b.incomes, CounterEntry(b.incomes, i), a, b.accounts[a].currency);
  }

  lemma ReversalUndoesExpense(b: Book, i: nat, a: nat)
    requires ReverseExpense(b, i).Ok? && a < |b.accounts|
    ensures Balance(ReverseExpense(b, i).book, a) == Balance(b, a) + InAccount(a, b.accounts[a].currency)(b.expenses[i])
  {
    PostedOneMore(b.expenses, CounterEntry(b.expenses, i), a, b.accounts[a].currency);
  }

  /** Recording an income and reversing it restores every balance, whatever it was. */
  lemma RecordThenReverse(b: Book, e: Entry, a: nat)
    requires a < |b.accounts| && Original(e) && e.source != Reservation && BookOk(b)
    ensures
      var r := ReverseIncome(b.(incomes := b.incomes + [e]), |b.incomes|);
      r.Ok? && Balance(r.book, a) == Balance(b, a)
  {
    var recorded := b.(incomes := b.incomes + [e]);
    var i := |b.incomes|;
    assert recorded.incomes[i] == e;
    forall k | 0 <= k < |recorded.incomes| ensures recorded.incomes[k].reverses != Some(i) {
      assert k < i ==> recorded.incomes[k] == b.incomes[k];
    }
    PostedOneMore(b.incomes, e, a, b.accounts[a].currency);
    ReversalUndoesIncome(recorded, i, a);
  }

  /** A transfer takes the amount out of one account, puts what arrives into the other, and touches no third. */
  lemma TransferMoves(b: Book, t: TransferData, a: nat)
    requires TransferValid(t) && CreateTransfer(b, t).Ok? && a < |b.accounts|
    ensures
      var arriving := Arriving(b.accounts[t.from].currency, b.accounts[t.to].currency, t).value.0;
      Balance(CreateTransfer(b, t).book, a) == Balance(b, a)
        - (if a == t.from then Round(t.amount) else 0) + if a == t.to then Round(arriving) else 0
  {
    var b' := CreateTransfer(b, t).book;
    PostedOneMore(b.incomes, b'.incomes[|b.incomes|], a, b.accounts[a].currency);
    PostedOneMore(b.expenses, b'.expenses[|b.expenses|], a, b.accounts[a].currency);
  }

  /** Converting there and back at the same rate gives the amount back. */
  lemma ConversionRoundTrip(from: Currency, to: Currency, t: TransferData)
    requires TransferValid(t) && from != to && t.given.Some?
    ensures
      var there := Arriving(from, to, t);
      && there.Some? && there.value.0 > 0.0
      && Arriving(to, from, t.(from := t.to, to := t.from, amount := there.value.0)).Some?
      && Arriving(to, from, t.(from := t.to, to := t.from, amount := there.value.0)).value.0 == t.amount
  {
    var rate := t.given.value;
    assert t.amount * rate > 0.0 && t.amount / rate > 0.0;
    assert t.amount * rate / rate == t.amount && t.amount / rate * rate == t.amount;
  }

  /** What a column stores of `c` cents converted at `rate`, and of `m` cents converted back. */
  function StoredAt(c: Cents, rate: real): Cents { Round(FromCents(c) * rate) }

  function StoredBack(m: Cents, rate: real): Cents
    requires rate > 0.0
  {
    Round(FromCents(m) / rate)
  }

  function ThereAndBack(c: Cents, rate: real): Cents
    requires rate > 0.0
  {
    StoredBack(StoredAt(c, rate), rate)
  }

  lemma Inverse(x: Cents, rate: real)
    requires rate > 0.0
    ensures 1.0 / rate > 0.0 && StoredBack(x, rate) == StoredAt(x, 1.0 / rate)
    ensures StoredAt(x, rate) == StoredBack(x, 1.0 / rate)
  {
    var y := FromCents(x);
    assert y / rate == y * (1.0 / rate) && y * rate == y / (1.0 / rate);
    hide Round, FromCents;
  }

  /** What a transfer across currencies has stored at its destination. */
  function StoredThere(from: Currency, c: Cents, rate: real): Cents
    requires rate > 0.0
  {
    if from == Usd then StoredAt(c, rate) else StoredBack(c, rate)
  }

  lemma ArrivesAs(from: Currency, to: Currency, t: TransferData, c: Cents)
    requires TransferValid(t) && from != to && t.given.Some? && t.amount == FromCents(c)
    ensures Arriving(from, to, t).Some?
    ensures Round(Arriving(from, to, t).value.0) == StoredThere(from, c, t.given.value)
  {
    hide Round, FromCents;
  }

  /** A second transfer of what the first one stored, at the same rate, stores what `ThereAndBack` says. */
  lemma SecondTransfer(from: Currency, to: Currency, t: TransferData, back: TransferData, c: Cents)
    requires TransferValid(t) && from != to && t.given.Some? && t.amount == FromCents(c)
    requires 0 < StoredThere(from, c, t.given.value)
    requires back == t.(from := t.to, to := t.from, amount := FromCents(StoredThere(from, c, t.given.value)))
    ensures Arriving(from, to, t).Some? && Round(Arriving(from, to, t).value.0) == StoredThere(from, c, t.given.value)
    ensures TransferValid(back) && Arriving(to, from, back).Some? && 1.0 / t.given.value > 0.0
    ensures Round(Arriving(to, from, back).value.0) ==
      ThereAndBack(c, if from == Usd then t.given.value else 1.0 / t.given.value)
  {
    var stored := StoredThere(from, c, t.given.value);
    assert FromCents(stored) > 0.0;
    hide Round, FromCents, StoredAt, StoredBack, Arriving;
    ArrivesAs(from, to, t, c);
    ArrivesAs(to, from, back, stored);
    Inverse(c, t.given.value);
    Inverse(stored, t.given.value);
  }

  /** What is stored of a converted amount, told without the rounding. */
  lemma StoredAtIs(c: nat, rate: real)
    requires rate > 0.0
    ensures 0 <= StoredAt(c, rate) && -0.5 <= c as real * rate - StoredAt(c, rate) as real < 0.5
  {
    assert 0.0 <= FromCents(c) * rate && FromCents(c) * rate * 100.0 == c as real * rate;
    RoundIsNearest(FromCents(c) * rate, Round(FromCents(c) * rate));
  }

  lemma StoredBackIs(m: nat, rate: real, c: nat)
    requires rate > 0.0
    ensures StoredBack(m, rate) == c <==> -0.5 <= m as real / rate - c as real < 0.5
  {
    assert 0.0 <= FromCents(m) / rate && FromCents(m) / rate * 100.0 == m as real / rate;
    RoundIsNearest(FromCents(m) / rate, c);
  }

  lemma Grows(x: real, rate: real)
    requires rate > 1.0 && x >= 0.5
    ensures x * rate > 0.5
  {
    assert x * (rate - 1.0) > 0.0;
  }

  /** Dividing by more than one brings a distance below a half. */
  lemma Nearer(c: real, m: real, rate: real)
    requires rate > 1.0 && -0.5 <= c * rate - m < 0.5
    ensures -0.5 < m / rate - c < 0.5
  {
    var x := m / rate - c;
    assert m / rate * rate == m;
    assert x * rate == m - c * rate;
    if x >= 0.5 { Grows(x, rate); } else if -x >= 0.5 { Grows(-x, rate); }
  }

  /** At a rate of at least one the cents lost in storing the converted amount are too few to matter. */
  lemma ComesBack(c: nat, rate: real)
    requires rate >= 1.0
    ensures ThereAndBack(c, rate) == c
  {
    hide StoredAt, StoredBack;
    var m := StoredAt(c, rate);
    StoredAtIs(c, rate);
    StoredBackIs(m, rate, c);
    if rate == 1.0 {
      assert c as real * rate == c as real;
      assert m == c && m as real / rate == c as real;
    } else {
      Nearer(c as real, m as real, rate);
    }
  }

  lemma StoredGrows(c: nat, rate: real)
    requires rate > 0.0
    ensures StoredAt(c, rate) <= StoredAt(c + 1, rate)
  {
    hide StoredAt;
    StoredAtIs(c, rate);
    StoredAtIs(c + 1, rate);
    assert (c + 1) as real * rate == c as real * rate + rate;
  }

  /** If nothing is lost up to `n`, the converted amounts stay apart, so they reach `n` too. */
  lemma {:induction false} StoredApart(rate: real, n: nat)
    requires 0.0 < rate && forall c: nat :: c <= n ==> ThereAndBack(c, rate) == c
    ensures n <= StoredAt(n, rate)
  {
    hide StoredAt, StoredBack;
    if n == 0 {
      StoredAtIs(0, rate);
    } else {
      StoredApart(rate, n - 1);
      StoredGrows(n - 1, rate);
      assert ThereAndBack(n - 1, rate) != ThereAndBack(n, rate);
    }
  }

  lemma TooManyBelowPar(n: real, gap: real, rate: real)
    requires 0.0 < rate < 1.0 && gap == 0.5 / (1.0 - rate) && gap < n
    ensures 0.5 < n - n * rate
  {
    var lost := 1.0 - rate;
    assert gap * lost == 0.5;
    assert gap * lost < n * lost;
  }

  /** Below par enough cents shrink by more than the rounding can make up for. */
  lemma TooFewStored(rate: real) returns (n: nat)
    requires 0.0 < rate < 1.0
    ensures StoredAt(n, rate) < n
  {
    hide StoredAt;
    var gap := 0.5 / (1.0 - rate);
    n := gap.Floor + 1;
    TooManyBelowPar(n as real, gap, rate);
    StoredAtIs(n, rate);
  }

  /**
    Main result: every amount in cents survives conversion and back, each time stored in
    cents, exactly when the rate is at least one: dollars through bolivars above par, and
    bolivars through dollars below it.
   */
  lemma ComesBackIff(rate: real)
    requires rate > 0.0
    ensures (forall c: nat :: ThereAndBack(c, rate) == c) <==> rate >= 1.0
  {
    hide ThereAndBack, StoredAt;
    if rate >= 1.0 {
      forall c: nat ensures ThereAndBack(c, rate) == c { ComesBack(c, rate); }
    } else {
      var n := TooFewStored(rate);
      if forall c: nat :: c <= n ==> ThereAndBack(c, rate) == c { StoredApart(rate, n); }
    }
  }

  /** Both legs of a transfer carry the same value in dollars, and it is the value of each at the rate used. */
  lemma LegsAgreeInDollars(b: Book, t: TransferData)
    requires TransferValid(t) && CreateTransfer(b, t).Ok?
    ensures
      var b' := CreateTransfer(b, t).book;
      var out, into := b'.expenses[|b.expenses|], b'.incomes[|b.incomes|];
      && out.amountUsd == into.amountUsd
      && (out.currency == Usd ==> out.amountUsd == Some(out.amount))
      && (into.currency == Usd ==> into.amountUsd == Some(into.amount))
  {
  }

  /** The total moves by what each account does. */
  lemma {:induction false} TotalMoves(b: Book, b': Book, currency: Currency, from: nat, out: Cents, to: nat,
                                      into: Cents, n: nat)
    requires b'.accounts == b.accounts && n <= |b.accounts|
    requires forall a :: 0 <= a < |b.accounts| ==>
      Balance(b', a) == Balance(b, a) - (if a == from then out else 0) + if a == to then into else 0
    ensures Total(b', currency, n) == Total(b, currency, n)
      - (if from < n && b.accounts[from].currency == currency then out else 0)
      + if to < n && b.accounts[to].currency == currency then into else 0
  {
    if n > 0 { TotalMoves(b, b', currency, from, out, to, into, n - 1); }
  }

  /**
    Main result: a transfer between accounts of the same currency keeps the total of every
    currency; across currencies each total moves by its own leg.
   */
  lemma TransferConserves(b: Book, t: TransferData, currency: Currency)
    requires TransferValid(t) && CreateTransfer(b, t).Ok?
    ensures
      var b' := CreateTransfer(b, t).book;
      var from, to := b.accounts[t.from].currency, b.accounts[t.to].currency;
      Total(b', currency, |b.accounts|) == Total(b, currency, |b.accounts|) +
        if from == to then 0
        else if currency == from then -Round(t.amount)
        else Round(Arriving(from, to, t).value.0)
  {
    var b' := CreateTransfer(b, t).book;
    var from, to := b.accounts[t.from].currency, b.accounts[t.to].currency;
    var arriving := Arriving(from, to, t).value.0;
    forall a | 0 <= a < |b.accounts|
      ensures Balance(b', a) == Balance(b, a) - (if a == t.from then Round(t.amount) else 0)
                               + if a == t.to then Round(arriving) else 0
    {
      TransferMoves(b, t, a);
    }
    TotalMoves(b, b', currency, t.from, Round(t.amount), t.to, Round(arriving), |b.accounts|);
  }

  /** Undoing the expense alone, likewise. */
  lemma ExpenseLegReversalConservesIff(b: Book, i: nat, currency: Currency)
    requires ReverseExpense(b, i).Ok?
    requires
      var e := b.expenses[i];
      e.source == Transfer && e.account < |b.accounts| && b.accounts[e.account].currency == e.currency == currency
    ensures
      Total(ReverseExpense(b, i).book, currency, |b.accounts|) == Total(b, currency, |b.accounts|)
      <==> b.expenses[i].amount == 0
  {
    var b', e := ReverseExpense(b, i).book, b.expenses[i];
    forall a | 0 <= a < |b.accounts|
      ensures Balance(b', a) == Balance(b, a) - (if a == e.account then 0 else 0)
                               + if a == e.account then e.amount else 0
    {
      ReversalUndoesExpense(b, i, a);
    }
    TotalMoves(b, b', currency, e.account, 0, e.account, e.amount, |b.accounts|);
  }

  /**
    The legs of a transfer are reversed one at a time: undoing the income alone keeps the
    total of its currency exactly when the leg is worth nothing.
   */
  lemma LegReversalConservesIff(b: Book, i: nat, currency: Currency)
    requires ReverseIncome(b, i).Ok?
    requires
      var e := b.incomes[i];
      e.source == Transfer && e.account < |b.accounts| && b.accounts[e.account].currency == e.currency == currency
    ensures
      Total(ReverseIncome(b, i).book, currency, |b.accounts|) == Total(b, currency, |b.accounts|)
      <==> b.incomes[i].amount == 0
  {
    var b', e := ReverseIncome(b, i).book, b.incomes[i];
    forall a | 0 <= a < |b.accounts|
      ensures Balance(b', a) == Balance(b, a) - (if a == e.account then e.amount else 0)
                               + if a == e.account then 0 else 0
    {
      ReversalUndoesIncome(b, i, a);
    }
    TotalMoves(b, b', currency, e.account, e.amount, e.account, 0, |b.accounts|);
  }

  /* ---- the legs of one transfer, undone ---- */

  lemma JustRecorded(es: seq<Entry>, e: Entry)
    requires Valid(es)
    ensures !Reversed(es + [e], |es|) || e.reverses == Some(|es|)
  {
    forall k | 0 <= k < |es| ensures (es + [e])[k].reverses != Some(|es|) { assert (es + [e])[k] == es[k]; }
    assert (es + [e])[|es|] == e;
  }

  /** Nothing protects the legs: right after any transfer either can be reversed, alone or after the other. */
  lemma LegsAreReversible(b: Book, t: TransferData)
    requires BookOk(b) && TransferValid(t) && CreateTransfer(b, t).Ok?
    ensures
      var b1 := CreateTransfer(b, t).book;
      var incomeUndone, expenseUndone := ReverseIncome(b1, |b.incomes|), ReverseExpense(b1, |b.expenses|);
      && incomeUndone.Ok? && expenseUndone.Ok?
      && ReverseExpense(incomeUndone.book, |b.expenses|).Ok?
      && ReverseIncome(expenseUndone.book, |b.incomes|) == ReverseExpense(incomeUndone.book, |b.expenses|)
  {
    var b1 := CreateTransfer(b, t).book;
    JustRecorded(b.incomes, b1.incomes[|b.incomes|]);
    JustRecorded(b.expenses, b1.expenses[|b.expenses|]);
  }

  lemma LegUndone(b: Book, t: TransferData, a: nat)
    requires BookOk(b) && TransferValid(t) && CreateTransfer(b, t).Ok? && a < |b.accounts|
    ensures
      var b1 := CreateTransfer(b, t).book;
      var incomeUndone, expenseUndone := ReverseIncome(b1, |b.incomes|), ReverseExpense(b1, |b.expenses|);
      var arriving := Arriving(b.accounts[t.from].currency, b.accounts[t.to].currency, t).value.0;
      && incomeUndone.Ok? && expenseUndone.Ok?
      && Balance(incomeUndone.book, a) == Balance(b, a) - (if a == t.from then Round(t.amount) else 0)
      && Balance(expenseUndone.book, a) == Balance(b, a) + (if a == t.to then Round(arriving) else 0)
  {
    LegsAreReversible(b, t);
    TransferMoves(b, t, a);
    var b1 := CreateTransfer(b, t).book;
    ReversalUndoesIncome(b1, |b.incomes|, a);
    ReversalUndoesExpense(b1, |b.expenses|, a);
    hide Arriving, Round, Balance, Reversed, Valid;
  }

  /** The total of a currency is then off by the leg that still stands. */
  lemma LegUndoneMovesTotal(b: Book, t: TransferData, currency: Currency)
    requires BookOk(b) && TransferValid(t) && CreateTransfer(b, t).Ok?
    ensures
      var b1 := CreateTransfer(b, t).book;
      var incomeUndone, expenseUndone := ReverseIncome(b1, |b.incomes|), ReverseExpense(b1, |b.expenses|);
      var from, to := b.accounts[t.from].currency, b.accounts[t.to].currency;
      && incomeUndone.Ok? && expenseUndone.Ok?
      && Total(incomeUndone.book, currency, |b.accounts|) ==
           Total(b, currency, |b.accounts|) - (if currency == from then Round(t.amount) else 0)
      && Total(expenseUndone.book, currency, |b.accounts|) ==
           Total(b, currency, |b.accounts|) + (if currency == to then Round(Arriving(from, to, t).value.0) else 0)
  {
    LegsAreReversible(b, t);
    var b1 := CreateTransfer(b, t).book;
    var arriving := Arriving(b.accounts[t.from].currency, b.accounts[t.to].currency, t).value.0;
    var b2, b3 := ReverseIncome(b1, |b.incomes|).book, ReverseExpense(b1, |b.expenses|).book;
    hide Arriving, Round;
    forall a | 0 <= a < |b.accounts|
      ensures Balance(b2, a) == Balance(b, a) - (if a == t.from then Round(t.amount) else 0)
                                + if a == t.to then 0 else 0
      ensures Balance(b3, a) == Balance(b, a) - (if a == t.from then 0 else 0)
                                + if a == t.to then Round(arriving) else 0
    {
      LegUndone(b, t, a);
    }
    TotalMoves(b, b2, currency, t.from, Round(t.amount), t.to, 0, |b.accounts|);
    TotalMoves(b, b3, currency, t.from, 0, t.to, Round(arriving), |b.accounts|);
  }

  /** Undoing both, in either order, restores every balance. */
  lemma BothLegsUndone(b: Book, t: TransferData, a: nat)
    requires BookOk(b) && TransferValid(t) && CreateTransfer(b, t).Ok? && a < |b.accounts|
    ensures
      var incomeUndone := ReverseIncome(CreateTransfer(b, t).book, |b.incomes|);
      && incomeUndone.Ok? && ReverseExpense(incomeUndone.book, |b.expenses|).Ok?
      && Balance(ReverseExpense(incomeUndone.book, |b.expenses|).book, a) == Balance(b, a)
  {
    LegsAreReversible(b, t);
    var b2 := ReverseIncome(CreateTransfer(b, t).book, |b.incomes|).book;
    LegUndone(b, t, a);
    ReversalUndoesExpense(b2, |b.expenses|, a);
  }

  const TWO_ACCOUNTS := [Account(Usd, 10000), Account(Usd, 0)]

  const TEN_DOLLARS := TransferData(0, 0, 1, 10.0, None, None, true)

  const LEG_CALLS := [MoveMoney(TEN_DOLLARS), UndoIncome(0), UndoExpense(0)]

  lemma FirstCalls()
    requires AllValid(LEG_CALLS) && CreateTransfer(Book(TWO_ACCOUNTS, [], []), TEN_DOLLARS).Ok?
    requires
      var b1 := CreateTransfer(Book(TWO_ACCOUNTS, [], []), TEN_DOLLARS).book;
      ReverseIncome(b1, 0).Ok? && ReverseExpense(ReverseIncome(b1, 0).book, 0).Ok?
    ensures
      var b1 := CreateTransfer(Book(TWO_ACCOUNTS, [], []), TEN_DOLLARS).book;
      && After(TWO_ACCOUNTS, LEG_CALLS, 1) == b1
      && After(TWO_ACCOUNTS, LEG_CALLS, 2) == ReverseIncome(b1, 0).book
      && After(TWO_ACCOUNTS, LEG_CALLS, 3) == ReverseExpense(ReverseIncome(b1, 0).book, 0).book
  {
    hide CreateTransfer, ReverseIncome, ReverseExpense;
    assert After(TWO_ACCOUNTS, LEG_CALLS, 0) == Book(TWO_ACCOUNTS, [], []);
    assert After(TWO_ACCOUNTS, LEG_CALLS, 1) == Next(After(TWO_ACCOUNTS, LEG_CALLS, 0), LEG_CALLS[0]);
    assert After(TWO_ACCOUNTS, LEG_CALLS, 2) == Next(After(TWO_ACCOUNTS, LEG_CALLS, 1), LEG_CALLS[1]);
    assert After(TWO_ACCOUNTS, LEG_CALLS, 3) == Next(After(TWO_ACCOUNTS, LEG_CALLS, 2), LEG_CALLS[2]);
  }

  lemma TotalOfTwo(b: Book)
    requires b.accounts == TWO_ACCOUNTS
    ensures Total(b, Usd, 2) == Balance(b, 0) + Balance(b, 1)
  {
    assert Total(b, Usd, 1) == Balance(b, 0);
  }

  /** From nothing: ten dollars move, the income is reversed and they are gone, the expense is and they are back. */
  lemma ARunLosesTheLeg()
    ensures AllValid(LEG_CALLS)
    ensures forall n :: 0 <= n <= 3 ==> |After(TWO_ACCOUNTS, LEG_CALLS, n).accounts| == 2
    ensures Total(After(TWO_ACCOUNTS, LEG_CALLS, 1), Usd, 2) == 10000
    ensures Total(After(TWO_ACCOUNTS, LEG_CALLS, 2), Usd, 2) == 9000
    ensures Total(After(TWO_ACCOUNTS, LEG_CALLS, 3), Usd, 2) == 10000
  {
    var b := Book(TWO_ACCOUNTS, [], []);
    assert BookOk(b) && Balance(b, 0) == 10000 && Balance(b, 1) == 0;
    RoundExact(1000);
    assert FromCents(1000) == 10.0 && CreateTransfer(b, TEN_DOLLARS).Ok?;
    hide Round, FromCents, Total, Balance, Reversed;
    LegsAreReversible(b, TEN_DOLLARS);
    FirstCalls();
    forall n | 0 <= n <= 3 ensures After(TWO_ACCOUNTS, LEG_CALLS, n).accounts == TWO_ACCOUNTS {
      RunKeepsBook(TWO_ACCOUNTS, LEG_CALLS, n);
    }
    hide After, CreateTransfer, ReverseIncome, ReverseExpense;
    TotalOfTwo(b);
    TotalOfTwo(After(TWO_ACCOUNTS, LEG_CALLS, 3));
    TransferConserves(b, TEN_DOLLARS, Usd);
    LegUndoneMovesTotal(b, TEN_DOLLARS, Usd);
    BothLegsUndone(b, TEN_DOLLARS, 0);
    BothLegsUndone(b, TEN_DOLLARS, 1);
  }
}

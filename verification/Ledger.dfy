/**
  The append-only ledger of incomes and expenses
  (`app/modules/administracion/models.py`, `service.py`).  Nothing is edited or
  deleted: an entry is undone by a counter-entry, and a counter-entry is an entry.
 */
module Ledger {
  import opened Prelude
  import opened Money

  datatype Currency = Usd | Bs

  /** What generated an entry, as far as reversing it is concerned. */
  datatype Source =
    | Manual                                   // no source_type
    | PurchasePayment(purchase: Option<nat>)   // one purchase, or None for a grouped payment
    | Reservation
    | Transfer
    | OtherSource

  datatype Entry = Entry(
    filial: nat, account: nat, currency: Currency, amount: Cents, amountUsd: Option<Cents>,
    source: Source, reverses: Option<nat>)

  /** The USD equivalent an entry contributes. */
  function Dollars(e: Entry): Cents { if e.amountUsd.Some? then e.amountUsd.value else 0 }

  /** The counter-entry of `es[i]`: opposite amounts, no source, a link back. */
  function CounterEntry(es: seq<Entry>, i: nat): Entry
    requires i < |es|
  {
    es[i].(
      amount := -es[i].amount,
      amountUsd := if es[i].amountUsd.Some? then Some(-es[i].amountUsd.value) else None,
      source := Manual,
      reverses := Some(i))
  }

  predicate Reversed(es: seq<Entry>, i: nat) {
    exists k :: 0 <= k < |es| && es[k].reverses == Some(i)
  }

  /** Every counter-entry is the exact opposite of an earlier entry, and no entry has two. */
  predicate Valid(es: seq<Entry>) {
    && (forall k :: 0 <= k < |es| && es[k].reverses.Some? ==>
      es[k].reverses.value < k && es[k] == CounterEntry(es, es[k].reverses.value))
    && (forall k, m :: 0 <= k < m < |es| && es[k].reverses.Some? ==> es[k].reverses != es[m].reverses)
  }

  /** An entry that undoes nothing. */
  predicate Original(e: Entry) { e.reverses.None? }

  lemma ValidPrefix(es: seq<Entry>, n: nat)
    requires Valid(es) && n <= |es|
    ensures Valid(es[..n])
  {
  }

  lemma ValidAppend(es: seq<Entry>, e: Entry)
    requires Valid(es)
    requires Original(e) ||
      (e.reverses.value < |es| && !Reversed(es, e.reverses.value) && e == CounterEntry(es, e.reverses.value))
    ensures Valid(es + [e])
  {
    var next := es + [e];
    forall k | 0 <= k < |next| && next[k].reverses.Some?
      ensures next[k].reverses.value < k && next[k] == CounterEntry(next, next[k].reverses.value)
    {
      if k < |es| { assert next[k] == es[k]; }
    }
  }

  /* ---- chains ---- */

  /** The original entry at the start of the chain of `i`. */
  function Root(es: seq<Entry>, i: nat): (r: nat)
    requires Valid(es) && i < |es|
    ensures r <= i && Original(es[r])
  {
    if Original(es[i]) then i else Root(es, es[i].reverses.value)
  }

  /** How many entries of the chain come before `i`. */
  function Rank(es: seq<Entry>, i: nat): nat
    requires Valid(es) && i < |es|
  {
    if Original(es[i]) then 0 else Rank(es, es[i].reverses.value) + 1
  }

  /** The counter-entry of `i`, if it has one. */
  function CounterOf(es: seq<Entry>, i: nat): (r: Option<nat>)
    ensures r.Some? ==> r.value < |es| && es[r.value].reverses == Some(i)
    ensures r.Some? <==> Reversed(es, i)
  {
    if es == [] then None
    else if es[|es| - 1].reverses == Some(i) then Some(|es| - 1)
    else
      var r := CounterOf(es[..|es| - 1], i);
      assert Reversed(es, i) ==> Reversed(es[..|es| - 1], i);
      r
  }

  /** The money of `i` is out: the entry stands, or its counter-entry was itself undone. */
  predicate Live(es: seq<Entry>, i: nat)
    requires Valid(es) && i < |es|
    decreases |es| - i
  {
    var c := CounterOf(es, i);
    c.None? || !Live(es, c.value)
  }

  /** The total of the amounts of all entries in the chain that starts at `r`. */
  function ChainTotal(es: seq<Entry>, r: nat, n: nat, amount: Entry -> Cents): Cents
    requires Valid(es) && n <= |es|
  {
    if n == 0 then 0
    else ChainTotal(es, r, n - 1, amount) + if Root(es, n - 1) == r then amount(es[n - 1]) else 0
  }

  lemma {:induction false} SamePlaceSameEntry(es: seq<Entry>, a: nat, b: nat)
    requires Valid(es) && a < |es| && b < |es|
    requires Root(es, a) == Root(es, b) && Rank(es, a) == Rank(es, b)
    ensures a == b
  {
    if !Original(es[a]) {
      SamePlaceSameEntry(es, es[a].reverses.value, es[b].reverses.value);
    }
  }

  /** Every smaller rank of a chain is taken, by an entry that has been reversed. */
  lemma {:induction false} EarlierIsReversed(es: seq<Entry>, b: nat, rank: nat) returns (a: nat)
    requires Valid(es) && b < |es| && rank < Rank(es, b)
    ensures a < |es| && Root(es, a) == Root(es, b) && Rank(es, a) == rank && Reversed(es, a)
  {
    a := es[b].reverses.value;
    assert Reversed(es, a);
    if rank < Rank(es, a) { a := EarlierIsReversed(es, a, rank); }
  }

  /** Chains do not branch: only their last entry has no counter-entry. */
  lemma OneTail(es: seq<Entry>, a: nat, b: nat)
    requires Valid(es) && a < |es| && b < |es|
    requires Root(es, a) == Root(es, b) && !Reversed(es, a) && !Reversed(es, b)
    ensures a == b
  {
    if Rank(es, a) < Rank(es, b) {
      var c := EarlierIsReversed(es, b, Rank(es, a));
      SamePlaceSameEntry(es, a, c);
    } else if Rank(es, b) < Rank(es, a) {
      var c := EarlierIsReversed(es, a, Rank(es, b));
      SamePlaceSameEntry(es, b, c);
    } else {
      SamePlaceSameEntry(es, a, b);
    }
  }

  lemma {:induction false} RootStable(es: seq<Entry>, e: Entry, i: nat)
    requires Valid(es) && Valid(es + [e]) && i < |es|
    ensures Root(es + [e], i) == Root(es, i)
  {
    assert (es + [e])[i] == es[i];
    if !Original(es[i]) { RootStable(es, e, es[i].reverses.value); }
  }

  lemma CounterStable(es: seq<Entry>, e: Entry, i: nat)
    ensures CounterOf(es + [e], i) == if e.reverses == Some(i) then Some(|es|) else CounterOf(es, i)
  {
    assert (es + [e])[..|es|] == es;
  }

  /** A new counter-entry flips its whole chain and no other; a new original flips nothing. */
  lemma {:induction false} LiveAfter(es: seq<Entry>, e: Entry, i: nat)
    requires Valid(es) && Valid(es + [e]) && i < |es|
    requires e.reverses.Some? ==> e.reverses.value < |es| && !Reversed(es, e.reverses.value)
    ensures Live(es + [e], i) ==
      if e.reverses.Some? && Root(es, e.reverses.value) == Root(es, i) then !Live(es, i) else Live(es, i)
    decreases |es| - i
  {
    CounterStable(es, e, i);
    var c := CounterOf(es, i);
    if e.reverses == Some(i) {
      CounterStable(es, e, |es|);
      assert CounterOf(es, |es|).None? by {
        if c' :| 0 <= c' < |es| && es[c'].reverses == Some(|es|) { assert false; }
      }
    } else if c.Some? {
      LiveAfter(es, e, c.value);
    } else if e.reverses.Some? && Root(es, e.reverses.value) == Root(es, i) {
      OneTail(es, i, e.reverses.value);
      assert false;
    }
  }

  lemma {:induction false} ChainTotalStable(es: seq<Entry>, e: Entry, r: nat, n: nat, amount: Entry -> Cents)
    requires Valid(es) && Valid(es + [e]) && n <= |es|
    ensures ChainTotal(es + [e], r, n, amount) == ChainTotal(es, r, n, amount)
  {
    if n > 0 {
      ChainTotalStable(es, e, r, n - 1, amount);
      RootStable(es, e, n - 1);
      assert (es + [e])[n - 1] == es[n - 1];
    }
  }

  /** The measures of an entry that a counter-entry negates. */
  ghost predicate Odd(amount: Entry -> Cents) {
    forall es: seq<Entry>, i: nat {:trigger CounterEntry(es, i)} :: i < |es| ==>
      amount(CounterEntry(es, i)) == -amount(es[i])
  }

  /** Amounts in the entry's own currency and USD equivalents are both negated. */
  lemma AmountsAreOdd()
    ensures Odd((e: Entry) => e.amount)
    ensures Odd(Dollars)
  {
  }

  lemma {:induction false} AmountByRank(es: seq<Entry>, i: nat, amount: Entry -> Cents)
    requires Valid(es) && i < |es| && Odd(amount)
    ensures amount(es[i]) == if Rank(es, i) % 2 == 0 then amount(es[Root(es, i)]) else -amount(es[Root(es, i)])
  {
    if !Original(es[i]) {
      var j := es[i].reverses.value;
      AmountByRank(es, j, amount);
      assert es[i] == CounterEntry(es, j);
    }
  }

  lemma StartOfChain(es: seq<Entry>, i: nat)
    requires Valid(es) && i < |es| && Original(es[i])
    ensures Root(es, i) == i && Rank(es, i) == 0
  {
  }

  lemma CounterIs(es: seq<Entry>, i: nat)
    requires Valid(es) && i < |es| && es[i].reverses.Some?
    ensures CounterOf(es, es[i].reverses.value) == Some(i)
  {
    hide CounterOf, CounterEntry;
    var j := es[i].reverses.value;
    assert Reversed(es, j);
    var c := CounterOf(es, j).value;
    assert es[c].reverses == es[i].reverses;
  }

  /** A counter-entry stands exactly when the entry it undoes does not. */
  lemma LiveStep(es: seq<Entry>, i: nat)
    requires Valid(es) && i < |es| && !Original(es[i])
    ensures
      var j := es[i].reverses.value;
      && j < i && Live(es, j) == !Live(es, i) && Root(es, i) == Root(es, j) && Rank(es, i) == Rank(es, j) + 1
  {
    CounterIs(es, i);
    hide Valid, CounterOf;
  }

  lemma {:induction false} LiveByRank(es: seq<Entry>, i: nat)
    requires Valid(es) && i < |es|
    ensures Live(es, Root(es, i)) == (Live(es, i) == (Rank(es, i) % 2 == 0))
  {
    hide Valid, CounterOf, Live, Root, Rank;
    if Original(es[i]) {
      StartOfChain(es, i);
    } else {
      LiveStep(es, i);
      LiveByRank(es, es[i].reverses.value);
    }
  }

  /** Along a chain the amounts alternate in sign with the rank, so a live root means a tail of its own sign. */
  lemma TailAmount(es: seq<Entry>, i: nat, amount: Entry -> Cents)
    requires Valid(es) && i < |es| && !Reversed(es, i) && Odd(amount)
    ensures amount(es[i]) == if Live(es, Root(es, i)) then amount(es[Root(es, i)]) else -amount(es[Root(es, i)])
  {
    AmountByRank(es, i, amount);
    LiveByRank(es, i);
  }

  lemma NothingAfter(es: seq<Entry>, r: nat)
    requires Valid(es) && r == |es| - 1
    ensures CounterOf(es, r).None?
  {
    if k :| 0 <= k < |es| && es[k].reverses == Some(r) { assert false; }
  }

  lemma {:induction false} NoChainYet(es: seq<Entry>, r: nat, n: nat, amount: Entry -> Cents)
    requires Valid(es) && n <= |es| && n <= r
    ensures ChainTotal(es, r, n, amount) == 0
  {
    if n > 0 { NoChainYet(es, r, n - 1, amount); }
  }

  /** A chain that only starts with the last entry is worth that entry. */
  lemma ChainNetLast(es: seq<Entry>, r: nat, amount: Entry -> Cents)
    requires Valid(es) && r == |es| - 1 && Original(es[r])
    ensures ChainTotal(es, r, |es|, amount) == amount(es[r]) && Live(es, r)
  {
    NoChainYet(es, r, r, amount);
    NothingAfter(es, r);
  }

  lemma ChainTotalStep(es: seq<Entry>, r: nat, amount: Entry -> Cents)
    requires Valid(es) && |es| > 0
    ensures
      var n := |es| - 1;
      ChainTotal(es, r, |es|, amount) == ChainTotal(es, r, n, amount) + if Root(es, n) == r then amount(es[n]) else 0
  {
    hide Valid, Root;
  }

  /** The converse of ValidAppend: what an appended counter-entry must look like. */
  lemma AppendedCounter(es: seq<Entry>, e: Entry)
    requires Valid(es + [e]) && e.reverses.Some?
    ensures e.reverses.value < |es| && !Reversed(es, e.reverses.value)
    ensures e == CounterEntry(es, e.reverses.value)
  {
    var next := es + [e];
    assert next[|es|] == e;
    forall k | 0 <= k < |es| ensures es[k].reverses != e.reverses {
      assert next[k] == es[k];
    }
  }

  /** What one appended entry adds to the chain of `r` is what its liveness gains. */
  lemma ChainNetStep(es: seq<Entry>, e: Entry, r: nat, amount: Entry -> Cents)
    requires Valid(es) && Valid(es + [e]) && r < |es| && Original(es[r]) && Odd(amount)
    ensures (if Live(es, r) then amount(es[r]) else 0) + (if Root(es + [e], |es|) == r then amount(e) else 0)
         == if Live(es + [e], r) then amount(es[r]) else 0
  {
    hide Valid, Live, CounterOf, Reversed;
    if e.reverses.Some? {
      AppendedCounter(es, e);
      RootStable(es, e, e.reverses.value);
      TailAmount(es, e.reverses.value, amount);
    }
    assert (es + [e])[|es|] == e;
    LiveAfter(es, e, r);
  }

  /** What holds of a chain still holds after one more entry. */
  lemma ChainNetNext(es: seq<Entry>, e: Entry, r: nat, amount: Entry -> Cents)
    requires Valid(es) && Valid(es + [e]) && r < |es| && Original(es[r]) && Odd(amount)
    requires ChainTotal(es, r, |es|, amount) == if Live(es, r) then amount(es[r]) else 0
    ensures ChainTotal(es + [e], r, |es + [e]|, amount) == if Live(es + [e], r) then amount((es + [e])[r]) else 0
  {
    hide Valid, Root, Live, ChainTotal, Odd;
    ChainTotalStable(es, e, r, |es|, amount);
    ChainTotalStep(es + [e], r, amount);
    ChainNetStep(es, e, r, amount);
    assert (es + [e])[|es|] == e && (es + [e])[r] == es[r];
  }

  /**
    Main result: entries form disjoint chains, and the net amount of a chain is the
    original amount while the original is live and zero otherwise.
   */
  lemma {:induction false} ChainNet(es: seq<Entry>, r: nat, amount: Entry -> Cents)
    requires Valid(es) && r < |es| && Original(es[r]) && Odd(amount)
    ensures ChainTotal(es, r, |es|, amount) == if Live(es, r) then amount(es[r]) else 0
  {
    var n := |es| - 1;
    if r == n {
      ChainNetLast(es, r, amount);
    } else {
      var before := es[..n];
      ValidPrefix(es, n);
      ChainNet(before, r, amount);
      assert es == before + [es[n]];
      hide Valid, Root, Live, ChainTotal, Odd;
      ChainNetNext(before, es[n], r, amount);
    }
  }

  /* ---- ledger totals ---- */

  /** Net amount, over the first `n` entries, of the chains whose original has such a source. */
  function NetWhere(es: seq<Entry>, which: Source -> bool, amount: Entry -> Cents, n: nat): Cents
    requires Valid(es) && n <= |es|
  {
    if n == 0 then 0
    else NetWhere(es, which, amount, n - 1) + if which(es[Root(es, n - 1)].source) then amount(es[n - 1]) else 0
  }

  /** The amounts of the live originals with such a source. */
  function LiveTotal(es: seq<Entry>, which: Source -> bool, amount: Entry -> Cents, n: nat): Cents
    requires Valid(es) && n <= |es|
  {
    if n == 0 then 0
    else
      LiveTotal(es, which, amount, n - 1) +
      if Original(es[n - 1]) && which(es[n - 1].source) && Live(es, n - 1) then amount(es[n - 1]) else 0
  }

  /** The chains that start below `m`, each summed over the first `n` entries. */
  function ChainSum(es: seq<Entry>, which: Source -> bool, amount: Entry -> Cents, m: nat, n: nat): Cents
    requires Valid(es) && m <= |es| && n <= |es|
  {
    if m == 0 then 0
    else
      ChainSum(es, which, amount, m - 1, n) +
      if Original(es[m - 1]) && which(es[m - 1].source) then ChainTotal(es, m - 1, n, amount) else 0
  }

  lemma {:induction false} ChainSumStep(es: seq<Entry>, which: Source -> bool, amount: Entry -> Cents, m: nat, n: nat)
    requires Valid(es) && m <= |es| && 0 < n <= |es|
    ensures ChainSum(es, which, amount, m, n) == ChainSum(es, which, amount, m, n - 1) +
      if Root(es, n - 1) < m && which(es[Root(es, n - 1)].source) then amount(es[n - 1]) else 0
  {
    if m > 0 { ChainSumStep(es, which, amount, m - 1, n); }
  }

  lemma {:induction false} ChainSumZero(es: seq<Entry>, which: Source -> bool, amount: Entry -> Cents, m: nat)
    requires Valid(es) && m <= |es|
    ensures ChainSum(es, which, amount, m, 0) == 0
  {
    if m > 0 { ChainSumZero(es, which, amount, m - 1); }
  }

  lemma {:induction false} NetIsChainSum(es: seq<Entry>, which: Source -> bool, amount: Entry -> Cents, n: nat)
    requires Valid(es) && n <= |es|
    ensures NetWhere(es, which, amount, n) == ChainSum(es, which, amount, |es|, n)
  {
    if n == 0 {
      ChainSumZero(es, which, amount, |es|);
    } else {
      NetIsChainSum(es, which, amount, n - 1);
      ChainSumStep(es, which, amount, |es|, n);
    }
  }

  lemma {:induction false} ChainSumIsLive(es: seq<Entry>, which: Source -> bool, amount: Entry -> Cents, m: nat)
    requires Valid(es) && m <= |es| && Odd(amount)
    ensures ChainSum(es, which, amount, m, |es|) == LiveTotal(es, which, amount, m)
  {
    hide Valid, Root, Live, ChainTotal, Odd;
    if m > 0 {
      ChainSumIsLive(es, which, amount, m - 1);
      if Original(es[m - 1]) { ChainNet(es, m - 1, amount); }
    }
  }

  /** The net of the ledger is the total of what is live. */
  lemma NetIsLive(es: seq<Entry>, which: Source -> bool, amount: Entry -> Cents)
    requires Valid(es) && Odd(amount)
    ensures NetWhere(es, which, amount, |es|) == LiveTotal(es, which, amount, |es|)
  {
    NetIsChainSum(es, which, amount, |es|);
    ChainSumIsLive(es, which, amount, |es|);
  }
}

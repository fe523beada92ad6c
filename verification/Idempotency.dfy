/**
  At-most-once operations (`app/core/idempotency.py`): a receipt per request id,
  written in the same transaction as the operation it records.

  The business state `S`, the payload `P`, the environment `E` (what other tables and
  the clock answer, which no payload contains) and the response `R` are arbitrary, and
  so is the operation itself.  The payload hash is taken as injective and the advisory
  lock as mutual exclusion, so calls run one after another.
 */
module Idempotency {
  import opened Prelude

  datatype Call<P, E> = Call(
    requestId: Option<nat>, operation: string, actor: Option<nat>, resource: Option<nat>, payload: P, env: E)

  /** `payload` and `resource` stand for the stored hash of both. */
  datatype Receipt<P, R> = Receipt(
    filial: nat, operation: string, actor: Option<nat>, resource: Option<nat>, payload: P, response: R)

  datatype Store<S, P, R> = Store(business: S, receipts: map<nat, Receipt<P, R>>)

  datatype Outcome<R> = Done(response: R) | Replayed(response: R) | RequestConflict | Failed

  /** The filial of the resource the call names, or None when there is no such resource. */
  type Scope<!S, !P, !E> = (S, Call<P, E>) -> Option<nat>

  /** The operation: its new state and response, or None when it raises and rolls back. */
  type Operation<!S, !P, !E, R> = (S, Call<P, E>) -> Option<(S, R)>

  function ReceiptFor<P, E, R>(c: Call<P, E>, filial: nat, response: R): Receipt<P, R> {
    Receipt(filial, c.operation, c.actor, c.resource, c.payload, response)
  }

  /** The receipt was written for this very request. */
  predicate SameRequest<P(==), E, R>(r: Receipt<P, R>, c: Call<P, E>, filial: nat) {
    r.filial == filial && r.operation == c.operation && r.actor == c.actor
    && r.resource == c.resource && r.payload == c.payload
  }

  /** `replay_operation`, the operation, and `remember_operation`, in one transaction. */
  function Execute<S, P(==), E, R>(
    scope: Scope<S, P, E>, operation: Operation<S, P, E, R>, st: Store<S, P, R>,
    c: Call<P, E>): (Store<S, P, R>, Outcome<R>)
  {
    var filial := scope(st.business, c);
    if filial.None? then (st, Failed)
    else if c.requestId.Some? && c.requestId.value in st.receipts then
      var r := st.receipts[c.requestId.value];
      (st, if SameRequest(r, c, filial.value) then Replayed(r.response) else RequestConflict)
    else
      var result := operation(st.business, c);
      if result.None? then (st, Failed)
      else
        var (business, response) := result.value;
        (Store(business,
               if c.requestId.Some? then st.receipts[c.requestId.value := ReceiptFor(c, filial.value, response)]
               else st.receipts),
         Done(response))
  }

  function Run<S, P(==), E, R>(
    scope: Scope<S, P, E>, operation: Operation<S, P, E, R>, st: Store<S, P, R>,
    cs: seq<Call<P, E>>, n: nat): Store<S, P, R>
    requires n <= |cs|
  {
    if n == 0 then st
    else Execute(scope, operation, Run(scope, operation, st, cs, n - 1), cs[n - 1]).0
  }

  function OutcomeAt<S, P(==), E, R>(
    scope: Scope<S, P, E>, operation: Operation<S, P, E, R>, st: Store<S, P, R>,
    cs: seq<Call<P, E>>, i: nat): Outcome<R>
    requires i < |cs|
  {
    Execute(scope, operation, Run(scope, operation, st, cs, i), cs[i]).1
  }

  /** The id of this call already has a receipt. */
  predicate Repeated<S, P, E, R>(st: Store<S, P, R>, c: Call<P, E>) {
    c.requestId.Some? && c.requestId.value in st.receipts
  }

  /** The calls among the first `n` that are made under an id without a receipt. */
  function FirstAttempts<S, P(==), E, R>(
    scope: Scope<S, P, E>, operation: Operation<S, P, E, R>, st: Store<S, P, R>,
    cs: seq<Call<P, E>>, n: nat): seq<Call<P, E>>
    requires n <= |cs|
  {
    if n == 0 then []
    else
      var rest := FirstAttempts(scope, operation, st, cs, n - 1);
      if Repeated(Run(scope, operation, st, cs, n - 1), cs[n - 1]) then rest else rest + [cs[n - 1]]
  }

  /** The operation alone, without any receipts: a call that fails changes nothing. */
  function Bare<S, P, E, R>(
    scope: Scope<S, P, E>, operation: Operation<S, P, E, R>, s: S, cs: seq<Call<P, E>>, n: nat): S
    requires n <= |cs|
  {
    if n == 0 then s
    else
      var before := Bare(scope, operation, s, cs, n - 1);
      if scope(before, cs[n - 1]).None? then before
      else
        var result := operation(before, cs[n - 1]);
        if result.None? then before else result.value.0
  }

  lemma {:induction false} RunPrefix<S, P, E, R>(
    scope: Scope<S, P, E>, operation: Operation<S, P, E, R>, st: Store<S, P, R>,
    a: seq<Call<P, E>>, b: seq<Call<P, E>>, n: nat)
    requires n <= |a|
    ensures Run(scope, operation, st, a + b, n) == Run(scope, operation, st, a, n)
  {
    if n > 0 { RunPrefix(scope, operation, st, a, b, n - 1); }
  }

  lemma {:induction false} RunAppend<S, P, E, R>(
    scope: Scope<S, P, E>, operation: Operation<S, P, E, R>, st: Store<S, P, R>,
    a: seq<Call<P, E>>, b: seq<Call<P, E>>, n: nat)
    requires n <= |b|
    ensures Run(scope, operation, st, a + b, |a| + n) == Run(scope, operation, Run(scope, operation, st, a, |a|), b, n)
  {
    if n == 0 {
      RunPrefix(scope, operation, st, a, b, |a|);
    } else {
      RunAppend(scope, operation, st, a, b, n - 1);
      assert (a + b)[|a| + n - 1] == b[n - 1];
    }
  }

  lemma {:induction false} BarePrefix<S, P, E, R>(
    scope: Scope<S, P, E>, operation: Operation<S, P, E, R>, s: S, a: seq<Call<P, E>>, b: seq<Call<P, E>>, n: nat)
    requires n <= |a|
    ensures Bare(scope, operation, s, a + b, n) == Bare(scope, operation, s, a, n)
  {
    if n > 0 { BarePrefix(scope, operation, s, a, b, n - 1); }
  }

  /**
    Main result: retries are invisible.  A run ends in the state of the run that keeps
    only the first attempts, and its business state is what those calls produce with no
    receipts at all.
   */
  lemma {:induction false} RetriesAreInvisible<S, P, E, R>(
    scope: Scope<S, P, E>, operation: Operation<S, P, E, R>, st: Store<S, P, R>, cs: seq<Call<P, E>>, n: nat)
    requires n <= |cs|
    ensures
      var kept := FirstAttempts(scope, operation, st, cs, n);
      && Run(scope, operation, st, kept, |kept|) == Run(scope, operation, st, cs, n)
      && Bare(scope, operation, st.business, kept, |kept|) == Run(scope, operation, st, cs, n).business
  {
    if n > 0 {
      RetriesAreInvisible(scope, operation, st, cs, n - 1);
      var rest := FirstAttempts(scope, operation, st, cs, n - 1);
      var before := Run(scope, operation, st, cs, n - 1);
      if !Repeated(before, cs[n - 1]) {
        RunAppend(scope, operation, st, rest, [cs[n - 1]], 0);
        RunPrefix(scope, operation, st, rest, [cs[n - 1]], |rest|);
        BarePrefix(scope, operation, st.business, rest, [cs[n - 1]], |rest|);
        assert (rest + [cs[n - 1]])[|rest|] == cs[n - 1];
      }
    }
  }

  /**
    A single retry, wherever it is inserted after the id has a receipt, and whatever it
    says, leaves the rest of the run as it was.
   */
  lemma RetryInsertedAnywhere<S, P, E, R>(
    scope: Scope<S, P, E>, operation: Operation<S, P, E, R>, st: Store<S, P, R>,
    before: seq<Call<P, E>>, retry: Call<P, E>, after: seq<Call<P, E>>)
    requires Repeated(Run(scope, operation, st, before, |before|), retry)
    ensures
      var with_, without := before + [retry] + after, before + after;
      Run(scope, operation, st, with_, |with_|) == Run(scope, operation, st, without, |without|)
  {
    RunAppend(scope, operation, st, before + [retry], after, |after|);
    RunAppend(scope, operation, st, before, [retry], 1);
    RunAppend(scope, operation, st, before, after, |after|);
    assert Run(scope, operation, Run(scope, operation, st, before, |before|), [retry], 0)
        == Run(scope, operation, st, before, |before|);
  }

  /** Receipts are never changed or removed. */
  lemma {:induction false} ReceiptsStay<S, P, E, R>(
    scope: Scope<S, P, E>, operation: Operation<S, P, E, R>, st: Store<S, P, R>,
    cs: seq<Call<P, E>>, m: nat, n: nat, id: nat)
    requires m <= n <= |cs| && id in Run(scope, operation, st, cs, m).receipts
    ensures id in Run(scope, operation, st, cs, n).receipts
    ensures Run(scope, operation, st, cs, n).receipts[id] == Run(scope, operation, st, cs, m).receipts[id]
  {
    if m < n { ReceiptsStay(scope, operation, st, cs, m, n - 1, id); }
  }

  /** The two calls agree on everything the receipt compares. */
  predicate SameData<P(==), E>(a: Call<P, E>, b: Call<P, E>) {
    a.operation == b.operation && a.actor == b.actor && a.resource == b.resource && a.payload == b.payload
  }

  /**
    Main result: at most once.  After a call succeeds under an id, every later call
    under that id replays the stored response if its data and filial are the same, and
    is refused otherwise; neither changes anything.
   */
  lemma AtMostOnce<S, P, E, R>(
    scope: Scope<S, P, E>, operation: Operation<S, P, E, R>, st: Store<S, P, R>, cs: seq<Call<P, E>>, i: nat, j: nat)
    requires i < j < |cs| && cs[i].requestId.Some? && cs[j].requestId == cs[i].requestId
    requires OutcomeAt(scope, operation, st, cs, i).Done?
    ensures Run(scope, operation, st, cs, j + 1) == Run(scope, operation, st, cs, j)
    ensures
      var first := scope(Run(scope, operation, st, cs, i).business, cs[i]);
      var now := scope(Run(scope, operation, st, cs, j).business, cs[j]);
      OutcomeAt(scope, operation, st, cs, j) ==
        if now.None? then Failed
        else if SameData(cs[i], cs[j]) && now == first then Replayed(OutcomeAt(scope, operation, st, cs, i).response)
        else RequestConflict
  {
    ReceiptsStay(scope, operation, st, cs, i + 1, j, cs[i].requestId.value);
  }

  /** A call that fails consumes no id: it leaves the store as it was. */
  lemma FailureConsumesNothing<S, P, E, R>(
    scope: Scope<S, P, E>, operation: Operation<S, P, E, R>, st: Store<S, P, R>, c: Call<P, E>)
    ensures Execute(scope, operation, st, c).1.Done? || Execute(scope, operation, st, c).0 == st
    ensures Execute(scope, operation, st, c).1.Done? && c.requestId.Some? ==>
      c.requestId.value !in st.receipts && c.requestId.value in Execute(scope, operation, st, c).0.receipts
  {
  }
}

/**
  `receive` and `pay` under the receipt protocol: the methods as the service runs them,
  and what the protocol promises about them.
 */
module PurchaseRetries {
  import opened Prelude
  import opened Ledger
  import P = Purchases
  import opened Purchases
  import R = PurchaseRuns
  import W = PurchaseWorkflow
  import I = Idempotency
  import opened Idempotency

  /**
    What the client sends; `entryDate` and `reference` only matter to the hash here.
    `OtherPayload` stands for every other call on purchases and the ledger: those carry no
    request id.
   */
  datatype Payload =
    | ReceivePayload(warehouse: nat, items: seq<Arrival>)
    | PayPayload(account: nat, currency: Currency, amount: real, rate: Option<real>, entryDate: int, reference: string)
    | OtherPayload(command: R.Command)

  /** What other tables and the calendar answer at the time of the call. */
  datatype Environment = Environment(inScope: bool, row: Option<Account>, openPeriod: bool)

  datatype Response = GoodsReceived | PaidThrough(expense: nat) | OtherDone

  type PurchaseCall = Call<Payload, Environment>

  type Receipts = map<nat, I.Receipt<Payload, Response>>

  function ReceiveCall(id: Option<nat>, actor: Option<nat>, p: nat, payload: Payload, env: Environment): PurchaseCall {
    Call(id, "purchase_receive", actor, Some(p), payload, env)
  }

  function PayCall(id: Option<nat>, actor: Option<nat>, p: nat, payload: Payload, env: Environment): PurchaseCall {
    Call(id, "purchase_payment", actor, Some(p), payload, env)
  }

  function OtherCall(command: R.Command, env: Environment): PurchaseCall {
    Call(None, "other", None, None, OtherPayload(command), env)
  }

  /** `scope`: the filial of the purchase the call names; calls outside the protocol have none to check. */
  function PurchaseScope(b: Books, c: PurchaseCall): Option<nat> {
    if c.payload.OtherPayload? then (if c.requestId.None? then Some(0) else None)
    else if c.resource.Some? && c.resource.value < |b.purchases| then Some(b.purchases[c.resource.value].filial)
    else None
  }

  function PaymentOf(payload: Payload, env: Environment): Payment
    requires payload.PayPayload?
  {
    Payment(payload.account, env.row, payload.currency, payload.amount, payload.rate, env.openPeriod)
  }

  function PurchaseOperation(b: Books, c: PurchaseCall): Option<(Books, Response)> {
    match c.payload
    case OtherPayload(command) =>
      if !R.CommandValid(command) then None
      else
        var r := R.Apply(b, command);
        if r.Ok? then Some((r.books, OtherDone)) else None
    case ReceivePayload(_, items) =>
      if c.resource.None? then None
      else
        var r := P.Receive(b, c.resource.value, items, c.env.inScope);
        if r.Ok? then Some((r.books, GoodsReceived)) else None
    case PayPayload(_, _, _, _, _, _) =>
      var payment := PaymentOf(c.payload, c.env);
      if c.resource.None? || !PaymentValid(payment) then None
      else
        var r := P.Pay(b, c.resource.value, payment);
        if r.Ok? then Some((r.books, PaidThrough(|b.expenses|))) else None
  }

  class Service {
    const session: W.Session
    var receipts: Receipts

    function View(): Store<Books, Payload, Response>
      reads this, session
    {
      Store(session.State(), receipts)
    }

    constructor (session: W.Session)
      ensures this.session == session && receipts == map[]
    {
      this.session := session;
      receipts := map[];
    }

    /** `replay_operation`: None when the operation has to run. */
    method ReplayOperation(c: PurchaseCall, filial: nat) returns (replay: Option<Outcome<Response>>)
      ensures replay.None? <==> !Repeated(View(), c)
      ensures replay.Some? ==>
        var receipt := receipts[c.requestId.value];
        replay.value == if SameRequest(receipt, c, filial) then Replayed(receipt.response) else RequestConflict
    {
      if c.requestId.None? || c.requestId.value !in receipts { return None; }
      var receipt := receipts[c.requestId.value];
      if receipt.filial != filial || receipt.operation != c.operation || receipt.actor != c.actor
        || receipt.resource != c.resource || receipt.payload != c.payload
      {
        return Some(RequestConflict);
      }
      return Some(Replayed(receipt.response));
    }

    /** `remember_operation`. */
    method RememberOperation(c: PurchaseCall, filial: nat, response: Response)
      modifies this`receipts
      ensures receipts == if c.requestId.Some? then old(receipts)[c.requestId.value := ReceiptFor(c, filial, response)]
                          else old(receipts)
    {
      if c.requestId.Some? {
        receipts := receipts[c.requestId.value := ReceiptFor(c, filial, response)];
      }
    }

    method Receive(id: Option<nat>, actor: Option<nat>, p: nat, payload: Payload, env: Environment)
      returns (outcome: Outcome<Response>)
      requires payload.ReceivePayload?
      modifies this`receipts, session
      ensures (View(), outcome) ==
              Execute(PurchaseScope, PurchaseOperation, old(View()), ReceiveCall(id, actor, p, payload, env))
    {
      if p >= |session.purchases| { return Failed; }
      var c := ReceiveCall(id, actor, p, payload, env);
      var filial := session.purchases[p].filial;
      var replay := ReplayOperation(c, filial);
      if replay.Some? { return replay.value; }
      var error := session.Receive(p, payload.items, env.inScope);
      if error.Some? { return Failed; }
      RememberOperation(c, filial, GoodsReceived);
      return Done(GoodsReceived);
    }

    method Pay(id: Option<nat>, actor: Option<nat>, p: nat, payload: Payload, env: Environment)
      returns (outcome: Outcome<Response>)
      requires payload.PayPayload? && PaymentValid(PaymentOf(payload, env))
      modifies this`receipts, session
      ensures (View(), outcome) ==
              Execute(PurchaseScope, PurchaseOperation, old(View()), PayCall(id, actor, p, payload, env))
    {
      if p >= |session.purchases| { return Failed; }
      var c := PayCall(id, actor, p, payload, env);
      var filial := session.purchases[p].filial;
      var replay := ReplayOperation(c, filial);
      if replay.Some? { return replay.value; }
      var expense := |session.expenses|;
      var error := session.Pay(p, PaymentOf(payload, env));
      if error.Some? { return Failed; }
      RememberOperation(c, filial, PaidThrough(expense));
      return Done(PaidThrough(expense));
    }
  }

  /** A call outside the protocol does what it does, and leaves the receipts alone. */
  lemma OtherCallsHappen(st: Store<Books, Payload, Response>, command: R.Command, env: Environment)
    requires R.CommandValid(command)
    ensures Execute(PurchaseScope, PurchaseOperation, st, OtherCall(command, env)).0
         == Store(R.Next(st.business, command), st.receipts)
  {
    hide R.Apply;
  }

  /** Every purchase is still there, in its filial. */
  predicate KeepsFiliales(b: Books, b': Books) {
    && |b.purchases| <= |b'.purchases|
    && forall p :: 0 <= p < |b.purchases| ==> b'.purchases[p].filial == b.purchases[p].filial
  }

  lemma ReceiveKeepsFiliales(b: Books, p: nat, items: seq<Arrival>, inScope: bool)
    ensures var r := P.Receive(b, p, items, inScope); r.Ok? ==> KeepsFiliales(b, r.books)
  {
    hide FirstProblem;
  }

  lemma PayKeepsFiliales(b: Books, p: nat, pay: Payment)
    requires PaymentValid(pay)
    ensures var r := P.Pay(b, p, pay); r.Ok? ==> KeepsFiliales(b, r.books)
  {
  }

  lemma CommandKeepsFiliales(b: Books, command: R.Command)
    requires R.CommandValid(command)
    ensures var r := R.Apply(b, command); r.Ok? ==> KeepsFiliales(b, r.books)
  {
    hide FirstProblem, FirstPayableProblem, Iva, Subtotal;
  }

  lemma OperationKeepsScope(b: Books, d: PurchaseCall, c: PurchaseCall)
    ensures PurchaseOperation(b, d).Some? && PurchaseScope(b, c).Some? ==>
      PurchaseScope(PurchaseOperation(b, d).value.0, c) == PurchaseScope(b, c)
  {
    hide P.Receive, P.Pay, R.Apply, R.CommandValid;
    match d.payload
    case OtherPayload(command) => if R.CommandValid(command) { CommandKeepsFiliales(b, command); }
    case ReceivePayload(_, items) =>
      if d.resource.Some? { ReceiveKeepsFiliales(b, d.resource.value, items, d.env.inScope); }
    case PayPayload(_, _, _, _, _, _) =>
      if d.resource.Some? && PaymentValid(PaymentOf(d.payload, d.env)) {
        PayKeepsFiliales(b, d.resource.value, PaymentOf(d.payload, d.env));
      }
  }

  /** A purchase never moves to another filial, so the scope of a call never changes. */
  lemma {:induction false} ScopeIsStable(st: Store<Books, Payload, Response>, cs: seq<PurchaseCall>, m: nat, n: nat,
                                         c: PurchaseCall)
    requires m <= n <= |cs|
    requires PurchaseScope(Run(PurchaseScope, PurchaseOperation, st, cs, m).business, c).Some?
    ensures PurchaseScope(Run(PurchaseScope, PurchaseOperation, st, cs, n).business, c)
         == PurchaseScope(Run(PurchaseScope, PurchaseOperation, st, cs, m).business, c)
  {
    hide PurchaseScope, PurchaseOperation;
    if m < n {
      ScopeIsStable(st, cs, m, n - 1, c);
      OperationKeepsScope(Run(PurchaseScope, PurchaseOperation, st, cs, n - 1).business, cs[n - 1], c);
    }
  }

  /** Ids are reused only for the same request. */
  predicate Coherent(cs: seq<PurchaseCall>) {
    forall i, j :: 0 <= i < j < |cs| && cs[i].requestId.Some? && cs[i].requestId == cs[j].requestId ==>
      SameData(cs[i], cs[j])
  }

  /**
    With coherent clients every retry of a successful receipt or payment, at any later
    time and whatever has happened in between, replays the stored response and changes
    nothing: neither goods nor money move twice.  In between stand any receipts and
    payments, and, as `OtherPayload`, any other call: creations, status changes,
    reconciliations, grouped expenses, transfers and reversals.
   */
  lemma CoherentRetriesReplay(st: Store<Books, Payload, Response>, cs: seq<PurchaseCall>, i: nat, j: nat)
    requires i < j < |cs| && Coherent(cs) && cs[i].requestId.Some? && cs[j].requestId == cs[i].requestId
    requires OutcomeAt(PurchaseScope, PurchaseOperation, st, cs, i).Done?
    ensures OutcomeAt(PurchaseScope, PurchaseOperation, st, cs, j) ==
            Replayed(OutcomeAt(PurchaseScope, PurchaseOperation, st, cs, i).response)
    ensures Run(PurchaseScope, PurchaseOperation, st, cs, j + 1) == Run(PurchaseScope, PurchaseOperation, st, cs, j)
  {
    AtMostOnce(PurchaseScope, PurchaseOperation, st, cs, i, j);
    ScopeIsStable(st, cs, i, j, cs[i]);
    assert PurchaseScope(Run(PurchaseScope, PurchaseOperation, st, cs, j).business, cs[j])
        == PurchaseScope(Run(PurchaseScope, PurchaseOperation, st, cs, j).business, cs[i]);
  }

  /* ---- what one call answers ---- */

  /** A receipt written for this very request on purchase `p`. */
  predicate WrittenFor(r: I.Receipt<Payload, Response>, b: Books, operation: string, actor: Option<nat>, p: nat,
                       payload: Payload)
    requires p < |b.purchases|
  {
    && r.filial == b.purchases[p].filial && r.operation == operation && r.actor == actor
    && r.resource == Some(p) && r.payload == payload
  }

  /** Under a used id: the stored response if the request is the same, a conflict if not, and nothing changes. */
  lemma RetryMeaning(st: Store<Books, Payload, Response>, id: nat, actor: Option<nat>, p: nat, payload: Payload,
                     env: Environment, pays: bool)
    requires id in st.receipts && p < |st.business.purchases|
    requires if pays then payload.PayPayload? else payload.ReceivePayload?
    ensures
      var c :=
        if pays then PayCall(Some(id), actor, p, payload, env) else ReceiveCall(Some(id), actor, p, payload, env);
      var r := st.receipts[id];
      Execute(PurchaseScope, PurchaseOperation, st, c) ==
      (st,
       if WrittenFor(r, st.business, if pays then "purchase_payment" else "purchase_receive", actor, p, payload)
       then Replayed(r.response) else RequestConflict)
  {
  }

  /** A first payment: done exactly if the payment itself is accepted, with what the client sent, and remembered. */
  lemma PayAttempt(st: Store<Books, Payload, Response>, id: Option<nat>, actor: Option<nat>, p: nat, payload: Payload,
                   env: Environment)
    requires payload.PayPayload? && payload.amount > 0.0 && (payload.rate.Some? ==> payload.rate.value > 0.0)
    requires p < |st.business.purchases| && (id.Some? ==> id.value !in st.receipts)
    ensures
      var pay := Payment(payload.account, env.row, payload.currency, payload.amount, payload.rate, env.openPeriod);
      var r := P.Pay(st.business, p, pay);
      var response := PaidThrough(|st.business.expenses|);
      var receipt := I.Receipt(st.business.purchases[p].filial, "purchase_payment", actor, Some(p), payload, response);
      Execute(PurchaseScope, PurchaseOperation, st, PayCall(id, actor, p, payload, env)) ==
      if r.Fail? then (st, Failed)
      else (Store(r.books, if id.Some? then st.receipts[id.value := receipt] else st.receipts), Done(response))
  {
    hide P.Pay;
  }

  /** A first receipt of goods, likewise. */
  lemma ReceiveAttempt(st: Store<Books, Payload, Response>, id: Option<nat>, actor: Option<nat>, p: nat,
                       payload: Payload, env: Environment)
    requires payload.ReceivePayload? && p < |st.business.purchases| && (id.Some? ==> id.value !in st.receipts)
    ensures
      var r := P.Receive(st.business, p, payload.items, env.inScope);
      var receipt :=
        I.Receipt(st.business.purchases[p].filial, "purchase_receive", actor, Some(p), payload, GoodsReceived);
      Execute(PurchaseScope, PurchaseOperation, st, ReceiveCall(id, actor, p, payload, env)) ==
      if r.Fail? then (st, Failed)
      else (Store(r.books, if id.Some? then st.receipts[id.value := receipt] else st.receipts), Done(GoodsReceived))
  {
    hide P.Receive;
  }
}

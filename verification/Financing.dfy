/**
  Credit snapshots reported by an external financier (`app/modules/concesionario/financing.py`):
  the last report wins, a contract belongs to one sale, and the balance follows from the snapshot.
 */
module Financing {
  import opened Prelude
  import opened Money
  import Text

  datatype Installment = Installment(id: string, due: int, amount: Cents, paid: Cents)

  datatype Payment = Payment(id: string, at: int, amount: Cents)

  /**
    A validated payload. `form` stands for how its numbers and times were written (zeros,
    time zone) and for its remaining fields: the stored document keeps them, and two
    documents are equal only if they agree there too.
   */
  datatype Snapshot = Snapshot(
    provider: string, contract: string, reported: int, total: Cents, paid: Cents, complete: bool,
    installments: seq<Installment>, payments: seq<Payment>, form: string)

  datatype Sale = Sale(filial: nat, financed: bool, snapshot: Option<Snapshot>)

  datatype Error = NotFound | NotFinanced | Stale | Conflicting | DuplicateContract

  datatype Result = Ok(sales: seq<Sale>) | Fail(error: Error)

  /* ---- what the payload validators accept ---- */

  function Scheduled(s: seq<Installment>): Cents {
    if s == [] then 0 else Scheduled(s[..|s| - 1]) + s[|s| - 1].amount
  }

  function PaidUp(s: seq<Installment>): Cents {
    if s == [] then 0 else PaidUp(s[..|s| - 1]) + s[|s| - 1].paid
  }

  function Detailed(s: seq<Payment>): Cents {
    if s == [] then 0 else Detailed(s[..|s| - 1]) + s[|s| - 1].amount
  }

  predicate InstallmentOk(i: Installment) { i.id != "" && i.amount > 0 && 0 <= i.paid <= i.amount }

  predicate Consistent(s: Snapshot) {
    && Text.Strip(s.provider) != "" && Text.Strip(s.contract) != ""
    && s.total > 0 && 0 <= s.paid <= s.total
    && (forall k :: 0 <= k < |s.installments| ==> InstallmentOk(s.installments[k]))
    && (forall k :: 0 <= k < |s.payments| ==> s.payments[k].amount > 0)
    && (forall i, j :: 0 <= i < j < |s.installments| ==> s.installments[i].id != s.installments[j].id)
    && (forall i, j :: 0 <= i < j < |s.payments| ==> s.payments[i].id != s.payments[j].id)
    && Scheduled(s.installments) <= s.total
    && (s.complete ==> Scheduled(s.installments) == s.total)
    && PaidUp(s.installments) <= s.paid && Detailed(s.payments) <= s.paid
  }

  /* ---- what is read ---- */

  datatype CreditStatus = SinDatos | Liquidado | Vencido | EnCurso

  function Balance(sale: Sale): Option<Cents> {
    if sale.snapshot.Some? then Some(sale.snapshot.value.total - sale.snapshot.value.paid) else None
  }

  predicate Overdue(s: Snapshot, today: int) {
    exists k :: 0 <= k < |s.installments| && s.installments[k].due < today
      && s.installments[k].paid < s.installments[k].amount
  }

  function StatusOn(sale: Sale, today: int): CreditStatus {
    if sale.snapshot.None? then SinDatos
    else if Balance(sale).value == 0 then Liquidado
    else if Overdue(sale.snapshot.value, today) then Vencido
    else EnCurso
  }

  /** Paid amounts stay within the scheduled ones, and match them only when every installment is paid. */
  lemma {:induction false} PaidWithinScheduled(s: seq<Installment>)
    requires forall k :: 0 <= k < |s| ==> InstallmentOk(s[k])
    ensures PaidUp(s) <= Scheduled(s)
    ensures PaidUp(s) == Scheduled(s) <==> forall k :: 0 <= k < |s| ==> s[k].paid == s[k].amount
  {
    if s != [] {
      PaidWithinScheduled(s[..|s| - 1]);
      assert forall k :: 0 <= k < |s| - 1 ==> s[..|s| - 1][k] == s[k];
    }
  }

  /** The balance is never negative, and a complete schedule fully paid settles the credit. */
  lemma BalanceIsSound(sale: Sale, today: int)
    requires sale.snapshot.Some? && Consistent(sale.snapshot.value)
    ensures
      var s := sale.snapshot.value;
      && 0 <= Balance(sale).value <= s.total
      && ((s.complete && forall k :: 0 <= k < |s.installments| ==> s.installments[k].paid == s.installments[k].amount)
          ==> Balance(sale) == Some(0) && StatusOn(sale, today) == Liquidado)
      && (s.complete && StatusOn(sale, today) != Liquidado
          ==> exists k :: 0 <= k < |s.installments| && s.installments[k].paid < s.installments[k].amount)
  {
    PaidWithinScheduled(sale.snapshot.value.installments);
  }

  /* ---- syncing ---- */

  predicate SameContract(a: Snapshot, b: Snapshot) {
    Text.Lower(a.provider) == Text.Lower(b.provider) && a.contract == b.contract
  }

  /** Another sale of the filial already holds the contract. */
  predicate Taken(sales: seq<Sale>, k: nat, p: Snapshot)
    requires k < |sales|
  {
    exists j :: 0 <= j < |sales| && j != k && sales[j].filial == sales[k].filial
                && sales[j].snapshot.Some? && SameContract(sales[j].snapshot.value, p)
  }

  function Synced(sales: seq<Sale>, k: nat, p: Snapshot): Result {
    if k >= |sales| then Fail(NotFound)
    else if !sales[k].financed then Fail(NotFinanced)
    else
      var previous := sales[k].snapshot;
      if previous.Some? && p.reported < previous.value.reported then Fail(Stale)
      else if previous.Some? && p.reported == previous.value.reported then
        if p != previous.value then Fail(Conflicting) else Ok(sales)
      else if Taken(sales, k, p) then Fail(DuplicateContract)
      else Ok(sales[k := sales[k].(snapshot := Some(p))])
  }

  class FinancingService {
    var sales: seq<Sale>

    constructor (initial: seq<Sale>)
      ensures sales == initial
    {
      sales := initial;
    }

    method Sync(k: nat, p: Snapshot) returns (error: Option<Error>)
      modifies this
      ensures
        match Synced(old(sales), k, p)
        case Ok(after) => error.None? && sales == after
        case Fail(e) => error == Some(e) && sales == old(sales)
    {
      if k >= |sales| { return Some(NotFound); }
      var sale := sales[k];
      if !sale.financed { return Some(NotFinanced); }
      if sale.snapshot.Some? {
        var previous := sale.snapshot.value;
        if p.reported < previous.reported { return Some(Stale); }
        if p.reported == previous.reported {
          if p != previous { return Some(Conflicting); }
          return None;
        }
      }
      if Taken(sales, k, p) { return Some(DuplicateContract); }
      sales := sales[k := sale.(snapshot := Some(p))];
      return None;
    }
  }

  /* ---- deliveries ---- */

  datatype Delivery = Delivery(sale: nat, snapshot: Snapshot)

  /** A rejected delivery changes nothing. */
  function Next(sales: seq<Sale>, d: Delivery): (r: seq<Sale>)
    ensures |r| == |sales|
  {
    var r := Synced(sales, d.sale, d.snapshot);
    if r.Ok? then r.sales else sales
  }

  function After(sales: seq<Sale>, ds: seq<Delivery>): (r: seq<Sale>)
    ensures |r| == |sales|
  {
    if ds == [] then sales else Next(After(sales, ds[..|ds| - 1]), ds[|ds| - 1])
  }

  /** No two sales of a filial hold the same contract. */
  predicate ContractsUnique(sales: seq<Sale>) {
    forall i, j :: 0 <= i < j < |sales| && sales[i].filial == sales[j].filial
                   && sales[i].snapshot.Some? && sales[j].snapshot.Some?
                   ==> !SameContract(sales[i].snapshot.value, sales[j].snapshot.value)
  }

  lemma SameContractSymmetric(a: Snapshot, b: Snapshot)
    ensures SameContract(a, b) == SameContract(b, a)
  {
  }

  /** Over every run, whatever is delivered: contracts stay unique. */
  lemma {:induction false} ContractsStayUnique(sales: seq<Sale>, ds: seq<Delivery>)
    requires ContractsUnique(sales)
    ensures ContractsUnique(After(sales, ds))
  {
    if ds != [] {
      var before := After(sales, ds[..|ds| - 1]);
      var d := ds[|ds| - 1];
      ContractsStayUnique(sales, ds[..|ds| - 1]);
      var after := Next(before, d);
      hide SameContract;
      if after != before {
        forall i, j | 0 <= i < j < |after| && after[i].filial == after[j].filial && after[i].snapshot.Some?
          && after[j].snapshot.Some?
          ensures !SameContract(after[i].snapshot.value, after[j].snapshot.value)
        {
          SameContractSymmetric(after[i].snapshot.value, after[j].snapshot.value);
        }
      }
    }
  }

  /** A sale's snapshot is only ever replaced by a later report. */
  lemma {:induction false} NeverOlder(sales: seq<Sale>, ds: seq<Delivery>, k: nat)
    requires k < |sales| && sales[k].snapshot.Some?
    ensures
      var s := After(sales, ds)[k].snapshot;
      s.Some? && s.value.reported >= sales[k].snapshot.value.reported
  {
    if ds != [] { NeverOlder(sales, ds[..|ds| - 1], k); }
  }

  /* ---- convergence ---- */

  /** What sale `k` holds when only time decides: what it held, unless a report is later; of equal times the first. */
  function Latest(held: Option<Snapshot>, ds: seq<Delivery>, k: nat): Option<Snapshot> {
    if ds == [] then held
    else
      var rest, d := Latest(held, ds[..|ds| - 1], k), ds[|ds| - 1];
      if d.sale == k && (rest.None? || d.snapshot.reported > rest.value.reported) then Some(d.snapshot) else rest
  }

  /** It was held or delivered, and nothing held or delivered is later. */
  lemma {:induction false} LatestIsNewest(held: Option<Snapshot>, ds: seq<Delivery>, k: nat)
    ensures
      var latest := Latest(held, ds, k);
      && (latest.Some? ==> latest == held || Delivery(k, latest.value) in ds)
      && (held.Some? ==> latest.Some? && held.value.reported <= latest.value.reported)
      && (latest.Some? && held.Some? && held.value.reported == latest.value.reported ==> latest == held)
      && forall d :: d in ds && d.sale == k ==> latest.Some? && d.snapshot.reported <= latest.value.reported
  {
    if ds != [] {
      LatestIsNewest(held, ds[..|ds| - 1], k);
      assert ds == ds[..|ds| - 1] + [ds[|ds| - 1]];
    }
  }

  /** Two sales of one filial. */
  predicate Rivals(sales: seq<Sale>, j: nat, k: nat) {
    j < |sales| && k < |sales| && j != k && sales[j].filial == sales[k].filial
  }

  /** No other sale of the filial holds, or is reported with, a contract reported for sale `k`. */
  predicate ContractsOwn(sales: seq<Sale>, ds: seq<Delivery>, k: nat) {
    forall d :: d in ds && d.sale == k ==>
      && (forall j :: 0 <= j < |sales| && Rivals(sales, j, k) && sales[j].snapshot.Some? ==>
            !SameContract(sales[j].snapshot.value, d.snapshot))
      && (forall c :: c in ds && Rivals(sales, c.sale, k) ==> !SameContract(c.snapshot, d.snapshot))
  }

  /** Deliveries change snapshots only, and what a sale holds it held before or was given. */
  lemma {:induction false} HeldOrGiven(sales: seq<Sale>, ds: seq<Delivery>, j: nat)
    requires j < |sales|
    ensures
      var now := After(sales, ds)[j];
      && now == sales[j].(snapshot := now.snapshot)
      && (now.snapshot.Some? ==> now.snapshot == sales[j].snapshot || Delivery(j, now.snapshot.value) in ds)
  {
    hide Taken;
    if ds != [] {
      HeldOrGiven(sales, ds[..|ds| - 1], j);
      assert ds == ds[..|ds| - 1] + [ds[|ds| - 1]];
    }
  }

  lemma NotTaken(sales: seq<Sale>, before: seq<Delivery>, d: Delivery)
    requires d.sale < |sales| && ContractsOwn(sales, before + [d], d.sale)
    ensures !Taken(After(sales, before), d.sale, d.snapshot)
  {
    hide SameContract;
    var now, ds := After(sales, before), before + [d];
    assert d in ds;
    forall j: nat | j < |sales| && j != d.sale && now[j].filial == now[d.sale].filial && now[j].snapshot.Some?
      ensures !SameContract(now[j].snapshot.value, d.snapshot)
    {
      HeldOrGiven(sales, before, j);
      HeldOrGiven(sales, before, d.sale);
      assert Rivals(sales, j, d.sale);
      if now[j].snapshot != sales[j].snapshot { assert Delivery(j, now[j].snapshot.value) in ds; }
    }
  }

  lemma OwnPrefix(sales: seq<Sale>, before: seq<Delivery>, d: Delivery, k: nat)
    requires ContractsOwn(sales, before + [d], k)
    ensures ContractsOwn(sales, before, k)
  {
    hide SameContract;
    forall c | c in before ensures c in before + [d] {}
  }

  /** What sale `k` should hold after the deliveries. */
  function Settled(sales: seq<Sale>, ds: seq<Delivery>, k: nat): Sale
    requires k < |sales|
  {
    if sales[k].financed then sales[k].(snapshot := Latest(sales[k].snapshot, ds, k)) else sales[k]
  }

  /** A report that should win meets another sale holding its contract: the branch that raises. */
  predicate Clashes(sales: seq<Sale>, before: seq<Delivery>, d: Delivery)
    requires d.sale < |sales|
  {
    var held := Latest(sales[d.sale].snapshot, before, d.sale);
    && sales[d.sale].financed && (held.None? || held.value.reported < d.snapshot.reported)
    && Taken(After(sales, before), d.sale, d.snapshot)
  }

  /** One delivery, to this sale or another. */
  lemma DeliverySettlesIff(sales: seq<Sale>, before: seq<Delivery>, d: Delivery, k: nat)
    requires k < |sales| && After(sales, before)[k] == Settled(sales, before, k)
    ensures Next(After(sales, before), d)[k] == Settled(sales, before + [d], k) <==>
            !(d.sale == k && Clashes(sales, before, d))
  {
    assert (before + [d])[..|before|] == before;
    hide Taken, After;
  }

  /** The sale was as it should be at the start and after every delivery. */
  predicate AlwaysSettled(sales: seq<Sale>, ds: seq<Delivery>, k: nat)
    requires k < |sales|
  {
    && After(sales, ds)[k] == Settled(sales, ds, k)
    && (ds != [] ==> AlwaysSettled(sales, ds[..|ds| - 1], k))
  }

  predicate NeverClashed(sales: seq<Sale>, ds: seq<Delivery>, k: nat)
    requires k < |sales|
  {
    ds != [] ==>
      var before, d := ds[..|ds| - 1], ds[|ds| - 1];
      && NeverClashed(sales, before, k)
      && (d.sale == k ==> !Clashes(sales, before, d))
  }

  /**
    Main result, one sale, both ways: it holds its latest report after every delivery
    exactly when no report that should win clashed with another sale's contract.
   */
  lemma {:induction false} AlwaysSettledIff(sales: seq<Sale>, ds: seq<Delivery>, k: nat)
    requires k < |sales|
    ensures AlwaysSettled(sales, ds, k) <==> NeverClashed(sales, ds, k)
  {
    if ds != [] {
      var before, d := ds[..|ds| - 1], ds[|ds| - 1];
      assert ds == before + [d];
      AlwaysSettledIff(sales, before, k);
      if AlwaysSettled(sales, before, k) { DeliverySettlesIff(sales, before, d, k); }
    }
    hide Clashes, Settled;
  }

  /**
    Main result, one sale: whatever is delivered for the others, in any order and with any
    repetitions, it ends with its latest report, or what it held if nothing is later, as
    long as its contracts are its own.
   */
  lemma {:induction false} LatestReportWinsFor(sales: seq<Sale>, ds: seq<Delivery>, k: nat)
    requires k < |sales| && ContractsOwn(sales, ds, k)
    ensures After(sales, ds)[k] == Settled(sales, ds, k)
  {
    if ds != [] {
      var before, d := ds[..|ds| - 1], ds[|ds| - 1];
      assert ds == before + [d];
      OwnPrefix(sales, before, d, k);
      LatestReportWinsFor(sales, before, k);
      DeliverySettlesIff(sales, before, d, k);
      if d.sale == k { NotTaken(sales, before, d); }
    }
  }

  /** So with the contracts of all sales told apart, every sale ends so. */
  lemma LatestReportWins(sales: seq<Sale>, ds: seq<Delivery>)
    requires forall k: nat :: k < |sales| ==> ContractsOwn(sales, ds, k)
    ensures forall k: nat :: k < |sales| ==> After(sales, ds)[k] == Settled(sales, ds, k)
  {
    forall k: nat | k < |sales| ensures After(sales, ds)[k] == Settled(sales, ds, k) {
      LatestReportWinsFor(sales, ds, k);
    }
  }

  /** Reports of sale `k` are told apart by their time. */
  predicate TimesApart(ds: seq<Delivery>, k: nat) {
    forall c, d :: c in ds && d in ds && c.sale == d.sale == k && c.snapshot.reported == d.snapshot.reported ==> c == d
  }

  lemma SameLatest(held: Option<Snapshot>, a: seq<Delivery>, b: seq<Delivery>, k: nat)
    requires TimesApart(a, k) && forall d :: d in a <==> d in b
    ensures Latest(held, a, k) == Latest(held, b, k)
  {
    LatestIsNewest(held, a, k);
    LatestIsNewest(held, b, k);
    var x, y := Latest(held, a, k), Latest(held, b, k);
    if x.Some? && x != held { assert Delivery(k, x.value) in b; }
    if y.Some? && y != held { assert Delivery(k, y.value) in a; }
  }

  /** Two deliveries of the same reports, in any order and with any repetitions, end the same for this sale. */
  lemma OrderDoesNotMatterFor(sales: seq<Sale>, a: seq<Delivery>, b: seq<Delivery>, k: nat)
    requires k < |sales| && ContractsOwn(sales, a, k) && TimesApart(a, k) && forall d :: d in a <==> d in b
    ensures After(sales, a)[k] == After(sales, b)[k]
  {
    LatestReportWinsFor(sales, a, k);
    LatestReportWinsFor(sales, b, k);
    SameLatest(sales[k].snapshot, a, b, k);
  }

  lemma OrderDoesNotMatter(sales: seq<Sale>, a: seq<Delivery>, b: seq<Delivery>)
    requires forall k: nat :: k < |sales| ==> ContractsOwn(sales, a, k) && TimesApart(a, k)
    requires forall d :: d in a <==> d in b
    ensures After(sales, a) == After(sales, b)
  {
    forall k: nat | k < |sales| ensures After(sales, a)[k] == After(sales, b)[k] {
      OrderDoesNotMatterFor(sales, a, b, k);
    }
  }
}

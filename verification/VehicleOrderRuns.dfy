/**
  Vehicle purchase orders over every run of receptions, invoices and cancellations.
 */
module VehicleOrderRuns {
  import opened Prelude
  import opened Money
  import V = VehicleOrders
  import opened VehicleOrders

  /* ---- splitting an invoice ---- */

  /** The costs of the first `n` of `count` units. */
  function SharesTotal(total: real, count: nat, n: nat): Cents
    requires n <= count
  {
    if n == 0 then 0 else SharesTotal(total, count, n - 1) + CostAt(total, count, n - 1)
  }

  lemma {:induction false} EqualShares(total: real, count: nat, n: nat)
    requires n < count
    ensures SharesTotal(total, count, n) == Share(total, count) * n
  {
    if n > 0 {
      EqualShares(total, count, n - 1);
      assert Share(total, count) * n == Share(total, count) * (n - 1) + Share(total, count);
    }
  }

  /** What is left for the last unit, in cents, before rounding. */
  function Remainder(total: real, count: nat): real
    requires count > 0
  {
    total * 100.0 - (Share(total, count) * (count - 1)) as real
  }

  /** A negative remainder exactly half way between two cents: it rounds away from zero. */
  predicate LosesACent(total: real, count: nat)
    requires count > 0
  {
    Remainder(total, count) < 0.0 && (Remainder(total, count) + 0.5).Floor as real == Remainder(total, count) + 0.5
  }

  /** The last unit gets the remainder, rounded to the nearest cent. */
  lemma LastIsNearest(total: real, count: nat)
    requires count > 0
    ensures
      var gap := Remainder(total, count) - LastShare(total, count) as real;
      if Remainder(total, count) >= 0.0 then -0.5 <= gap < 0.5 else -0.5 < gap <= 0.5
  {
    var covered := Share(total, count) * (count - 1);
    hide Share;
    RoundIsNearest(total - FromCents(covered), LastShare(total, count));
  }

  /** A remainder half way between cents was rounded down to `last` exactly if it is `last` and a half. */
  lemma TieGoesUp(rest: real, last: int)
    requires if rest >= 0.0 then -0.5 <= rest - last as real < 0.5 else -0.5 < rest - last as real <= 0.5
    ensures rest - last as real == 0.5 <==> rest < 0.0 && (rest + 0.5).Floor as real == rest + 0.5
  {
    var f := (rest + 0.5).Floor;
    assert f as real <= rest + 0.5 < f as real + 1.0;
    assert rest - last as real == 0.5 ==> rest + 0.5 == (last + 1) as real;
    if rest < 0.0 && f as real == rest + 0.5 {
      assert -0.5 < (f - last) as real - 0.5 <= 0.5;
    }
  }

  lemma NearestIsUnique(x: real, a: int, b: int)
    requires -0.5 <= x - a as real < 0.5 && -0.5 <= x - b as real < 0.5
    ensures a == b
  {
    assert -1.0 < (a - b) as real < 1.0;
  }

  lemma LastCent(x: real, covered: int, last: int, whole: int)
    requires var gap := x - covered as real - last as real;
             if x - covered as real >= 0.0 then -0.5 <= gap < 0.5 else -0.5 < gap <= 0.5
    requires -0.5 <= x - whole as real < 0.5
    ensures
      var rest := x - covered as real;
      last + covered == whole - if rest < 0.0 && (rest + 0.5).Floor as real == rest + 0.5 then 1 else 0
  {
    var rest := x - covered as real;
    TieGoesUp(rest, last);
    NearestIsUnique(x, last + covered + if rest - last as real == 0.5 then 1 else 0, whole);
  }

  /**
    The unit costs add up to the stored invoice total exactly when the remainder is not
    a negative half cent; otherwise one cent is lost.
   */
  lemma SplitIsExactIff(total: real, count: nat)
    requires count > 0 && total >= 0.0
    ensures SharesTotal(total, count, count) == Round(total) - if LosesACent(total, count) then 1 else 0
  {
    EqualShares(total, count, count - 1);
    var covered := Share(total, count) * (count - 1);
    var last := LastShare(total, count);
    hide Share, LastShare;
    LastIsNearest(total, count);
    RoundIsNearest(total, Round(total));
    hide Round;
    LastCent(total * 100.0, covered, last, Round(total));
  }

  predicate WholeCents(total: real) { total == FromCents(Round(total)) }

  lemma WholeRemainder(total: real, count: nat)
    requires count > 0 && WholeCents(total)
    ensures Remainder(total, count) == (Round(total) - Share(total, count) * (count - 1)) as real
    ensures !LosesACent(total, count)
  {
    hide Round, Share;
    assert total * 100.0 == Round(total) as real;
    var whole := Round(total) - Share(total, count) * (count - 1);
    assert (whole as real + 0.5).Floor == whole;
  }

  lemma ScaledGap(each: real, share: int, count: nat, cents: int)
    requires each * count as real == FromCents(cents)
    ensures (each * 100.0 - share as real) * count as real == (cents - share * count) as real
  {
    var n := count as real;
    assert (share * count) as real == share as real * n;
    assert (each * 100.0 - share as real) * n == each * n * 100.0 - share as real * n;
  }

  lemma ScaledOrder(a: real, b: real, n: real)
    requires a <= b && n >= 0.0
    ensures a * n <= b * n
  {
    assert (b - a) * n >= 0.0;
  }

  lemma HalfTimes(x: real, n: real, p: real)
    requires -0.5 <= x <= 0.5 && n >= 0.0 && x * n == p
    ensures -n <= p + p <= n
  {
    ScaledOrder(-0.5, x, n);
    ScaledOrder(x, 0.5, n);
  }

  lemma Doubled(off: int, count: nat)
    requires -(count as real) <= off as real + off as real <= count as real
    ensures -(count as int) <= 2 * off <= count
  {
    assert (off + off) as real <= count as real;
  }

  lemma HalfEach(gap: real, off: int, count: nat)
    requires -0.5 <= gap <= 0.5 && gap * count as real == off as real
    ensures -(count as int) <= 2 * off <= count
  {
    HalfTimes(gap, count as real, off as real);
    Doubled(off, count);
  }

  lemma TimesCount(each: real, share: int, count: nat, cents: int)
    requires -0.5 <= each * 100.0 - share as real <= 0.5
    requires each * count as real == FromCents(cents)
    ensures -(count as int) <= 2 * (cents - share * count) <= count
  {
    ScaledGap(each, share, count, cents);
    HalfEach(each * 100.0 - share as real, cents - share * count, count);
  }

  /** The base share times the number of units is at most half a cent per unit off. */
  lemma ShareIsClose(total: real, count: nat)
    requires count > 0 && WholeCents(total) && total >= 0.0
    ensures -(count as int) <= 2 * (Round(total) - Share(total, count) * count) <= count
  {
    var each := total / count as real;
    RoundIsNearest(each, Share(total, count));
    assert each * count as real == total;
    hide Share, Round;
    TimesCount(each, Share(total, count), count, Round(total));
  }

  /**
    For totals in whole cents the split is exact, and the last unit differs from the
    base share by at most half a cent per unit, so it is not negative when the base
    share is at least that.
   */
  lemma WholeCentSplit(total: real, count: nat)
    requires count > 0 && total >= 0.0 && WholeCents(total)
    ensures SharesTotal(total, count, count) == Round(total)
    ensures -(count as int) <= 2 * (LastShare(total, count) - Share(total, count)) <= count
    ensures count <= 2 * Share(total, count) ==> LastShare(total, count) >= 0
  {
    WholeRemainder(total, count);
    SplitIsExactIff(total, count);
    ShareIsClose(total, count);
    hide Round, Share, LastShare, CostAt;
    EqualShares(total, count, count - 1);
    assert Share(total, count) * count == Share(total, count) * (count - 1) + Share(total, count);
  }

  /* ---- counting ---- */

  lemma {:induction false} ReceivedConcat(a: seq<Unit>, b: seq<Unit>, ref: LineRef)
    ensures ReceivedOn(a + b, ref) == ReceivedOn(a, ref) + ReceivedOn(b, ref)
  {
    if b == [] {
      assert a + b == a;
    } else {
      assert (a + b)[..|a + b| - 1] == a + b[..|b| - 1];
      ReceivedConcat(a, b[..|b| - 1], ref);
    }
  }

  lemma {:induction false} ReceivedIsRequested(o: nat, inputs: seq<UnitInput>, ref: LineRef)
    ensures ReceivedOn(NewUnits(o, inputs), ref) == if ref.order == o then RequestedOn(inputs, ref.line) else 0
  {
    if inputs != [] {
      var n := |inputs| - 1;
      assert NewUnits(o, inputs)[..n] == NewUnits(o, inputs[..n]);
      ReceivedIsRequested(o, inputs[..n], ref);
    }
  }

  lemma {:induction false} ReceivedSameSources(a: seq<Unit>, b: seq<Unit>, ref: LineRef)
    requires |a| == |b| && forall k :: 0 <= k < |a| ==> a[k].source == b[k].source
    ensures ReceivedOn(a, ref) == ReceivedOn(b, ref)
  {
    if a != [] { ReceivedSameSources(a[..|a| - 1], b[..|b| - 1], ref); }
  }

  /** Only what arrived for an order counts for it. */
  lemma {:induction false} SomethingReceived(units: seq<Unit>, ref: LineRef) returns (k: nat)
    requires 0 < ReceivedOn(units, ref)
    ensures k < |units| && units[k].source == Some(ref)
  {
    if units[|units| - 1].source == Some(ref) {
      k := |units| - 1;
    } else {
      k := SomethingReceived(units[..|units| - 1], ref);
    }
  }

  /* ---- the invariant ---- */

  predicate DistinctVins(units: seq<Unit>) {
    forall i, j :: 0 <= i < j < |units| ==> units[i].vin != units[j].vin
  }

  predicate UnitOk(y: Yard, u: Unit) {
    match u.source
    case None => u.invoice.None?
    case Some(ref) =>
      && ref.order < |y.orders| && ref.line < |y.orders[ref.order].lines|
      && (u.invoice.Some? ==> u.invoice.value < |y.invoices| && y.invoices[u.invoice.value].order == ref.order
                              && u.cost.Some? && !u.estimated)
      && (u.invoice.None? ==> u.cost.None? && u.estimated)
  }

  /** The stored status is the one recomputed from scratch, and a cancelled order stays incomplete. */
  predicate OrderOk(y: Yard, o: nat)
    requires o < |y.orders|
  {
    var order := y.orders[o];
    && |order.lines| > 0
    && (forall l :: 0 <= l < |order.lines| ==>
      1 <= order.lines[l] && ReceivedOn(y.units, LineRef(o, l)) <= order.lines[l])
    && (order.status != Cancelada ==> order.status == FromScratch(order.lines, y.units, o))
    && (order.status == Cancelada ==> !FullyReceived(order.lines, y.units, o))
  }

  predicate YardOk(y: Yard) {
    && DistinctVins(y.units)
    && (forall k :: 0 <= k < |y.units| ==> UnitOk(y, y.units[k]))
    && (forall o :: 0 <= o < |y.orders| ==> OrderOk(y, o))
  }

  /** The costs of the units under invoice `i`, over the first `n` units. */
  function CostUnder(units: seq<Unit>, i: nat, n: nat): Cents
    requires n <= |units|
  {
    if n == 0 then 0
    else
      var u := units[n - 1];
      CostUnder(units, i, n - 1) + if u.invoice == Some(i) && u.cost.Some? then u.cost.value else 0
  }

  /** Every invoice is fully distributed over the units it covers. */
  predicate CostsOk(y: Yard) {
    forall i :: 0 <= i < |y.invoices| ==> CostUnder(y.units, i, |y.units|) == y.invoices[i].total
  }

  /* ---- receptions ---- */

  lemma FirstProblemNone(y: Yard, o: nat, inputs: seq<UnitInput>)
    requires o < |y.orders| && V.FirstProblem(y, o, inputs, 0).None?
    ensures forall i :: 0 <= i < |inputs| ==> inputs[i].line < |y.orders[o].lines|
    ensures forall i, j :: 0 <= i < j < |inputs| ==> Vin(inputs[i]) != Vin(inputs[j])
    ensures forall i, k :: 0 <= i < |inputs| && 0 <= k < |y.units| ==> y.units[k].vin != Vin(inputs[i])
  {
    hide Vin;
    forall i | 0 <= i < |inputs|
      ensures inputs[i].line < |y.orders[o].lines| && !VinRepeated(inputs, i) && !VinTaken(y.units, Vin(inputs[i]))
    {
      assert InputProblem(y, o, inputs, i).None?;
    }
    forall i, k | 0 <= i < |inputs| && 0 <= k < |y.units| ensures y.units[k].vin != Vin(inputs[i]) {
      assert y.units[k] in y.units;
    }
  }

  lemma ReceptionKeepsVins(y: Yard, o: nat, inputs: seq<UnitInput>)
    requires YardOk(y) && o < |y.orders| && V.FirstProblem(y, o, inputs, 0).None?
    ensures DistinctVins(y.units + NewUnits(o, inputs))
  {
    hide Vin;
    FirstProblemNone(y, o, inputs);
  }

  /** Units of other orders, and the invoices of this one, are as before. */
  lemma NewUnitsInvoiced(y: Yard, o: nat, inputs: seq<UnitInput>, q: nat)
    ensures q != o ==> AllInvoiced(y.units + NewUnits(o, inputs), q) == AllInvoiced(y.units, q)
    ensures AllInvoiced(y.units + NewUnits(o, inputs), o) ==> inputs == []
  {
    hide Vin;
    var more := NewUnits(o, inputs);
    var all := y.units + more;
    assert forall u :: u in all <==> u in y.units || u in more;
    assert forall u :: u in more ==> Of(u, o) && u.invoice.None?;
    if inputs != [] { assert more[0] in all; }
  }

  lemma ReceptionCounts(y: Yard, o: nat, inputs: seq<UnitInput>, ref: LineRef)
    ensures ReceivedOn(y.units + NewUnits(o, inputs), ref) ==
            ReceivedOn(y.units, ref) + if ref.order == o then RequestedOn(inputs, ref.line) else 0
  {
    ReceivedConcat(y.units, NewUnits(o, inputs), ref);
    ReceivedIsRequested(o, inputs, ref);
  }

  /** Recomputing the cached status gives the status from scratch. */
  lemma RecomputedIsFromScratch(order: Order, units: seq<Unit>, o: nat)
    requires |order.lines| > 0 && forall l :: 0 <= l < |order.lines| ==> 1 <= order.lines[l]
    requires order.status != Cancelada && order.status != Conciliada
    requires !AnyReceived(order.lines, units, o) ==> order.status == Enviada
    ensures Recomputed(order, units, o).status == FromScratch(order.lines, units, o)
    ensures Recomputed(order, units, o).lines == order.lines
  {
    if !AnyReceived(order.lines, units, o) {
      assert ReceivedOn(units, LineRef(o, 0)) == 0;
      assert !FullyReceived(order.lines, units, o);
    }
  }

  lemma RequestedMember(inputs: seq<UnitInput>, l: nat)
    requires 0 < RequestedOn(inputs, l)
    ensures exists i :: 0 <= i < |inputs| && inputs[i].line == l
  {
    if inputs[|inputs| - 1].line != l {
      RequestedMember(inputs[..|inputs| - 1], l);
      var i :| 0 <= i < |inputs[..|inputs| - 1]| && inputs[..|inputs| - 1][i].line == l;
      assert inputs[i].line == l;
    }
  }

  lemma ReceptionOrder(y: Yard, o: nat, inputs: seq<UnitInput>, q: nat)
    requires YardOk(y) && o < |y.orders| && Cancelable(y.orders[o].status) && !OverAsks(y, o, inputs)
    requires q < |y.orders|
    ensures
      var units := y.units + NewUnits(o, inputs);
      OrderOk(y.(units := units, orders := y.orders[o := Recomputed(y.orders[o], units, o)]), q)
  {
    hide NewUnits, DistinctVins, UnitOk;
    var order := y.orders[q];
    var units := y.units + NewUnits(o, inputs);
    assert OrderOk(y, q);
    forall l | 0 <= l < |order.lines|
      ensures ReceivedOn(units, LineRef(q, l)) <= order.lines[l]
      ensures q != o ==> ReceivedOn(units, LineRef(q, l)) == ReceivedOn(y.units, LineRef(q, l))
      ensures ReceivedOn(y.units, LineRef(q, l)) <= ReceivedOn(units, LineRef(q, l))
    {
      ReceptionCounts(y, o, inputs, LineRef(q, l));
      if q == o && RequestedOn(inputs, l) > 0 {
        RequestedMember(inputs, l);
        assert Fits(y, o, inputs, l);
      }
    }
    NewUnitsInvoiced(y, o, inputs, q);
    if q == o { RecomputedIsFromScratch(order, units, o); }
  }

  lemma RecomputedLines(order: Order, units: seq<Unit>, o: nat)
    ensures Recomputed(order, units, o).lines == order.lines
  {
  }

  lemma ReceptionUnits(y: Yard, o: nat, inputs: seq<UnitInput>)
    requires YardOk(y) && Reception(y, o, inputs).Ok?
    ensures
      var after := Reception(y, o, inputs).yard;
      forall k :: 0 <= k < |after.units| ==> UnitOk(after, after.units[k])
  {
    hide OrderOk, Vin, DistinctVins, Recomputed, V.FirstProblem, OverAsks;
    var after := Reception(y, o, inputs).yard;
    FirstProblemNone(y, o, inputs);
    RecomputedLines(y.orders[o], after.units, o);
    forall k | 0 <= k < |after.units| ensures UnitOk(after, after.units[k]) {
      if k < |y.units| { assert UnitOk(y, y.units[k]); }
    }
  }

  lemma ReceptionKeepsYard(y: Yard, o: nat, inputs: seq<UnitInput>)
    requires YardOk(y)
    ensures var r := Reception(y, o, inputs); r.Ok? ==> YardOk(r.yard)
  {
    var r := Reception(y, o, inputs);
    if r.Ok? {
      ReceptionUnits(y, o, inputs);
      hide OrderOk, Vin, DistinctVins, Recomputed, V.FirstProblem, UnitOk, OverAsks, NewUnits;
      ReceptionKeepsVins(y, o, inputs);
      forall q | 0 <= q < |y.orders| ensures OrderOk(r.yard, q) { ReceptionOrder(y, o, inputs, q); }
    }
  }

  /* ---- invoices ---- */

  lemma InvoicedUnits(units: seq<Unit>, targets: seq<nat>, invoice: nat, total: real, k: nat)
    requires k < |units| && Distinct(targets)
    ensures
      var u := Invoiced(units, targets, invoice, total)[k];
      && u.source == units[k].source && u.vin == units[k].vin
      && (k !in targets ==> u == units[k])
      && (k in targets ==> u.invoice == Some(invoice) && u.cost.Some? && !u.estimated)
  {
  }

  /** The named or remaining units are of this order and not yet invoiced. */
  lemma TargetsAreFree(y: Yard, o: nat, rows: seq<nat>, wanted: Option<set<nat>>, total: real)
    requires RowsOf(y, o, rows) && Billing(y, o, rows, wanted, total).Ok?
    ensures Distinct(Targets(y, rows, wanted)) && Targets(y, rows, wanted) != []
    ensures forall k: nat :: k in Targets(y, rows, wanted) ==>
      k < |y.units| && Of(y.units[k], o) && y.units[k].invoice.None?
  {
  }

  lemma SameProgress(lines: seq<nat>, units: seq<Unit>, units': seq<Unit>, o: nat)
    requires |lines| > 0 && lines[0] >= 1
    requires forall l :: 0 <= l < |lines| ==> ReceivedOn(units', LineRef(o, l)) == ReceivedOn(units, LineRef(o, l))
    ensures FullyReceived(lines, units', o) == FullyReceived(lines, units, o)
    ensures AnyReceived(lines, units', o) == AnyReceived(lines, units, o)
    ensures FullyReceived(lines, units, o) ==> AnyReceived(lines, units, o)
  {
    if FullyReceived(lines, units, o) { assert ReceivedOn(units, LineRef(o, 0)) > 0; }
  }

  lemma OthersInvoiced(units: seq<Unit>, units': seq<Unit>, targets: seq<nat>, o: nat, q: nat)
    requires q != o && |units'| == |units|
    requires forall k :: 0 <= k < |units| ==>
      units'[k].source == units[k].source && (k !in targets ==> units'[k] == units[k])
    requires forall k: nat :: k in targets ==> k < |units| && Of(units[k], o)
    ensures AllInvoiced(units', q) == AllInvoiced(units, q)
  {
    forall u | u in units && Of(u, q) ensures u in units' {
      var k :| 0 <= k < |units| && units[k] == u;
      assert units'[k] == u;
    }
    forall u | u in units' && Of(u, q) ensures u in units {
      var k :| 0 <= k < |units| && units'[k] == u;
      assert units[k] == u;
    }
  }

  lemma BillingOrder(y: Yard, o: nat, targets: seq<nat>, total: real, q: nat)
    requires YardOk(y) && o < |y.orders| && q < |y.orders|
    requires Distinct(targets) && targets != []
    requires forall k: nat :: k in targets ==> k < |y.units| && Of(y.units[k], o) && y.units[k].invoice.None?
    ensures
      var units := Invoiced(y.units, targets, |y.invoices|, total);
      OrderOk(Yard(y.orders[o := Recomputed(y.orders[o], units, o)], units, y.invoices + [Invoice(o, Round(total))]), q)
  {
    hide Invoiced, DistinctVins, UnitOk;
    var units := Invoiced(y.units, targets, |y.invoices|, total);
    assert OrderOk(y, q) && OrderOk(y, o);
    forall k | 0 <= k < |y.units|
      ensures units[k].source == y.units[k].source && (k !in targets ==> units[k] == y.units[k])
    {
      InvoicedUnits(y.units, targets, |y.invoices|, total, k);
    }
    forall l | 0 <= l < |y.orders[q].lines|
      ensures ReceivedOn(units, LineRef(q, l)) == ReceivedOn(y.units, LineRef(q, l))
    {
      ReceivedSameSources(units, y.units, LineRef(q, l));
    }
    if q == o {
      assert targets[0] in targets && y.units[targets[0]] in y.units;
      assert !AllInvoiced(y.units, o);
      SameProgress(y.orders[o].lines, y.units, units, o);
      if y.orders[o].status != Cancelada {
        assert y.orders[o].status == FromScratch(y.orders[o].lines, y.units, o);
        RecomputedIsFromScratch(y.orders[o], units, o);
      }
    } else {
      OthersInvoiced(y.units, units, targets, o, q);
    }
  }

  lemma BillingKeepsYard(y: Yard, o: nat, rows: seq<nat>, wanted: Option<set<nat>>, total: real)
    requires YardOk(y) && RowsOf(y, o, rows)
    ensures var r := Billing(y, o, rows, wanted, total); r.Ok? ==> YardOk(r.yard)
  {
    var r := Billing(y, o, rows, wanted, total);
    if r.Ok? {
      var targets := Targets(y, rows, wanted);
      TargetsAreFree(y, o, rows, wanted, total);
      hide OrderOk, Invoiced, Recomputed, Targets, RowsOf;
      RecomputedLines(y.orders[o], r.yard.units, o);
      forall k | 0 <= k < |y.units|
        ensures UnitOk(r.yard, r.yard.units[k])
        ensures r.yard.units[k].vin == y.units[k].vin
      {
        assert UnitOk(y, y.units[k]);
        InvoicedUnits(y.units, targets, |y.invoices|, total, k);
      }
      forall q | 0 <= q < |y.orders| ensures OrderOk(r.yard, q) { BillingOrder(y, o, targets, total, q); }
    }
  }

  /** The cost of unit `k` if it is among the first `m` targets. */
  function CostOf(targets: seq<nat>, m: nat, total: real, k: nat): Cents
    requires m <= |targets|
  {
    var i := PositionOf(targets[..m], k);
    if i.Some? then CostAt(total, |targets|, i.value) else 0
  }

  /** The same costs added up in the order of the units. */
  function CostByUnit(targets: seq<nat>, m: nat, total: real, n: nat): Cents
    requires m <= |targets|
  {
    if n == 0 then 0 else CostByUnit(targets, m, total, n - 1) + CostOf(targets, m, total, n - 1)
  }

  lemma {:induction false} OneMoreTarget(targets: seq<nat>, m: nat, total: real, n: nat)
    requires m < |targets| && Distinct(targets)
    ensures CostByUnit(targets, m + 1, total, n) ==
            CostByUnit(targets, m, total, n) + if targets[m] < n then CostAt(total, |targets|, m) else 0
  {
    assert targets[..m + 1][..m] == targets[..m];
    assert targets[m] !in targets[..m];
    if n > 0 { OneMoreTarget(targets, m, total, n - 1); }
  }

  lemma {:induction false} NoTargets(targets: seq<nat>, total: real, n: nat)
    ensures CostByUnit(targets, 0, total, n) == 0
  {
    if n > 0 { NoTargets(targets, total, n - 1); }
  }

  /** Adding up by unit or by target gives the same total. */
  lemma {:induction false} SharesByUnit(targets: seq<nat>, m: nat, total: real, n: nat)
    requires m <= |targets| && Distinct(targets) && forall k: nat :: k in targets ==> k < n
    ensures CostByUnit(targets, m, total, n) == SharesTotal(total, |targets|, m)
  {
    if m == 0 {
      NoTargets(targets, total, n);
    } else {
      SharesByUnit(targets, m - 1, total, n);
      OneMoreTarget(targets, m - 1, total, n);
      assert targets[m - 1] in targets;
    }
  }

  lemma {:induction false} NewInvoiceCost(units: seq<Unit>, targets: seq<nat>, invoice: nat, total: real, n: nat)
    requires n <= |units| && forall k :: 0 <= k < |units| ==> units[k].invoice != Some(invoice)
    ensures CostUnder(Invoiced(units, targets, invoice, total), invoice, n) == CostByUnit(targets, |targets|, total, n)
  {
    assert targets[..|targets|] == targets;
    if n > 0 { NewInvoiceCost(units, targets, invoice, total, n - 1); }
  }

  lemma {:induction false} OldInvoiceCost(units: seq<Unit>, units': seq<Unit>, i: nat, n: nat)
    requires n <= |units| <= |units'|
    requires forall k :: 0 <= k < n ==>
      units'[k] == units[k] || (units[k].invoice != Some(i) && units'[k].invoice != Some(i))
    ensures CostUnder(units', i, n) == CostUnder(units, i, n)
  {
    if n > 0 { OldInvoiceCost(units, units', i, n - 1); }
  }

  lemma {:induction false} NothingUnder(units: seq<Unit>, i: nat, m: nat, n: nat)
    requires m <= n <= |units| && forall k :: m <= k < n ==> units[k].invoice != Some(i)
    ensures CostUnder(units, i, n) == CostUnder(units, i, m)
  {
    if m < n { NothingUnder(units, i, m, n - 1); }
  }

  /** An invoice distributes its total but for the cent it may lose, and leaves the others as they were. */
  lemma BillingCosts(y: Yard, o: nat, rows: seq<nat>, wanted: Option<set<nat>>, total: real)
    requires YardOk(y) && RowsOf(y, o, rows) && total >= 0.0 && Billing(y, o, rows, wanted, total).Ok?
    ensures
      var units, n := Billing(y, o, rows, wanted, total).yard.units, |y.invoices|;
      && (forall i: nat :: i < n ==> CostUnder(units, i, |units|) == CostUnder(y.units, i, |y.units|))
      && Targets(y, rows, wanted) != []
      && CostUnder(units, n, |units|) == Round(total) - if LosesACent(total, |Targets(y, rows, wanted)|) then 1 else 0
  {
    var r := Billing(y, o, rows, wanted, total);
    var targets := Targets(y, rows, wanted);
    var n := |y.invoices|;
    TargetsAreFree(y, o, rows, wanted, total);
    forall k | 0 <= k < |y.units| ensures y.units[k].invoice != Some(n) { assert UnitOk(y, y.units[k]); }
    hide YardOk, OrderOk, UnitOk, Targets, RowsOf, LosesACent;
    NewInvoiceCost(y.units, targets, n, total, |y.units|);
    SharesByUnit(targets, |targets|, total, |y.units|);
    SplitIsExactIff(total, |targets|);
    forall i: nat | i < n ensures CostUnder(r.yard.units, i, |r.yard.units|) == CostUnder(y.units, i, |y.units|) {
      OldInvoiceCost(y.units, r.yard.units, i, |y.units|);
    }
  }

  lemma ReceptionCosts(y: Yard, o: nat, inputs: seq<UnitInput>, i: nat)
    requires Reception(y, o, inputs).Ok?
    ensures
      var units := Reception(y, o, inputs).yard.units;
      CostUnder(units, i, |units|) == CostUnder(y.units, i, |y.units|)
  {
    hide V.FirstProblem, Vin;
    var units := Reception(y, o, inputs).yard.units;
    OldInvoiceCost(y.units, units, i, |y.units|);
    NothingUnder(units, i, |y.units|, |units|);
  }

  /* ---- runs ---- */

  datatype Command =
    | DoCreate(lines: seq<nat>)
    | DoReceive(order: nat, inputs: seq<UnitInput>)
    | DoInvoice(order: nat, rows: seq<nat>, wanted: Option<set<nat>>, total: real)
    | DoCancel(order: nat)

  /** What the request schemas guarantee. */
  predicate CommandValid(c: Command) {
    match c
    case DoCreate(lines) => |lines| > 0 && forall l :: 0 <= l < |lines| ==> 1 <= lines[l]
    case DoInvoice(_, _, _, total) => total > 0.0
    case _ => true
  }

  /** A call that fails changes nothing; `rows` must be the rows the database can yield. */
  ghost function Next(y: Yard, c: Command): Yard {
    match c
    case DoCreate(lines) => Create(y, lines)
    case DoReceive(o, inputs) => var r := Reception(y, o, inputs); if r.Ok? then r.yard else y
    case DoInvoice(o, rows, wanted, total) =>
      if RowsOf(y, o, rows) then var r := Billing(y, o, rows, wanted, total); if r.Ok? then r.yard else y else y
    case DoCancel(o) => var r := Cancel(y, o); if r.Ok? then r.yard else y
  }

  ghost function After(start: seq<Unit>, cs: seq<Command>, n: nat): Yard
    requires n <= |cs|
  {
    if n == 0 then Yard([], start, []) else Next(After(start, cs, n - 1), cs[n - 1])
  }

  lemma CreateKeepsYard(y: Yard, lines: seq<nat>)
    requires YardOk(y) && CommandValid(DoCreate(lines))
    ensures YardOk(Create(y, lines))
  {
    var y' := Create(y, lines);
    var n := |y.orders|;
    forall k | 0 <= k < |y.units| ensures UnitOk(y', y.units[k]) && !Of(y.units[k], n) { assert UnitOk(y, y.units[k]); }
    forall l | 0 <= l < |lines| ensures ReceivedOn(y.units, LineRef(n, l)) == 0 {
      if ReceivedOn(y.units, LineRef(n, l)) > 0 {
        var k := SomethingReceived(y.units, LineRef(n, l));
      }
    }
    assert lines[0] > ReceivedOn(y.units, LineRef(n, 0));
    assert FromScratch(lines, y.units, n) == Enviada;
    hide FromScratch, FullyReceived, UnitOk;
    forall o | 0 <= o < |y'.orders| ensures OrderOk(y', o) {
      if o < n { assert OrderOk(y, o); }
    }
  }

  lemma CancelKeepsYard(y: Yard, o: nat)
    requires YardOk(y)
    ensures var r := Cancel(y, o); r.Ok? ==> YardOk(r.yard)
  {
    var r := Cancel(y, o);
    if r.Ok? {
      forall k | 0 <= k < |y.units| ensures UnitOk(r.yard, y.units[k]) { assert UnitOk(y, y.units[k]); }
      forall q | 0 <= q < |y.orders| ensures OrderOk(r.yard, q) { assert OrderOk(y, q); }
    }
  }

  /** Vehicles added by hand, with VINs of their own. */
  predicate HandMade(start: seq<Unit>) {
    DistinctVins(start) && forall k :: 0 <= k < |start| ==> start[k].source.None? && start[k].invoice.None?
  }

  predicate AllValid(cs: seq<Command>) { forall i :: 0 <= i < |cs| ==> CommandValid(cs[i]) }

  lemma StepKeepsYard(y: Yard, c: Command)
    requires YardOk(y) && CommandValid(c)
    ensures YardOk(Next(y, c))
  {
    hide YardOk, V.Reception, V.Billing;
    match c
    case DoCreate(lines) => CreateKeepsYard(y, lines);
    case DoReceive(o, inputs) => ReceptionKeepsYard(y, o, inputs);
    case DoInvoice(o, rows, wanted, total) =>
      if RowsOf(y, o, rows) { BillingKeepsYard(y, o, rows, wanted, total); }
    case DoCancel(o) => CancelKeepsYard(y, o);
  }

  /**
    Main result: after any run, on top of any hand-made stock, every stored status is
    right, no line is over-received, and VINs are distinct.
   */
  lemma {:induction false} RunKeepsYard(start: seq<Unit>, cs: seq<Command>, n: nat)
    requires HandMade(start) && n <= |cs| && AllValid(cs)
    ensures YardOk(After(start, cs, n))
  {
    if n > 0 {
      RunKeepsYard(start, cs, n - 1);
      StepKeepsYard(After(start, cs, n - 1), cs[n - 1]);
    }
  }

  /** The step is no accepted invoice, or one whose split is exact. */
  ghost predicate Lossless(y: Yard, c: Command)
    requires CommandValid(c)
  {
    match c
    case DoInvoice(o, rows, wanted, total) =>
      RowsOf(y, o, rows) && Billing(y, o, rows, wanted, total).Ok? ==> !LosesACent(total, |Targets(y, rows, wanted)|)
    case _ => true
  }

  /** Invoices in whole cents lose nothing. */
  lemma WholeCentsAreLossless(y: Yard, c: Command)
    requires CommandValid(c) && (c.DoInvoice? ==> WholeCents(c.total))
    ensures Lossless(y, c)
  {
    match c
    case DoInvoice(o, rows, wanted, total) =>
      if RowsOf(y, o, rows) && Billing(y, o, rows, wanted, total).Ok? {
        TargetsAreFree(y, o, rows, wanted, total);
        WholeRemainder(total, |Targets(y, rows, wanted)|);
      }
    case _ =>
  }

  lemma ReceptionKeepsCosts(y: Yard, o: nat, inputs: seq<UnitInput>)
    ensures CostsOk(Next(y, DoReceive(o, inputs))) <==> CostsOk(y)
  {
    if Reception(y, o, inputs).Ok? {
      forall i: nat | i < |y.invoices|
        ensures var units := Reception(y, o, inputs).yard.units;
                CostUnder(units, i, |units|) == CostUnder(y.units, i, |y.units|)
      {
        ReceptionCosts(y, o, inputs, i);
      }
      hide CostUnder, V.FirstProblem;
    }
  }

  lemma BillingKeepsCostsIff(y: Yard, o: nat, rows: seq<nat>, wanted: Option<set<nat>>, total: real)
    requires YardOk(y) && RowsOf(y, o, rows) && total > 0.0 && Billing(y, o, rows, wanted, total).Ok?
    ensures Targets(y, rows, wanted) != []
    ensures CostsOk(Billing(y, o, rows, wanted, total).yard)
            <==> CostsOk(y) && !LosesACent(total, |Targets(y, rows, wanted)|)
  {
    hide YardOk, CostUnder, LosesACent, RowsOf, Targets, Invoiced;
    BillingCosts(y, o, rows, wanted, total);
    var r, n := Billing(y, o, rows, wanted, total).yard, |y.invoices|;
    assert r.invoices == y.invoices + [Invoice(o, Round(total))];
    assert forall i: nat :: i < n ==> r.invoices[i] == y.invoices[i];
  }

  lemma StepCosts(y: Yard, c: Command)
    requires YardOk(y) && CommandValid(c)
    ensures CostsOk(Next(y, c)) <==> CostsOk(y) && Lossless(y, c)
  {
    match c
    case DoReceive(o, inputs) => ReceptionKeepsCosts(y, o, inputs);
    case DoInvoice(o, rows, wanted, total) =>
      if RowsOf(y, o, rows) && Billing(y, o, rows, wanted, total).Ok? {
        BillingKeepsCostsIff(y, o, rows, wanted, total);
      }
    case _ =>
  }

  /**
    Main result: after any run, every invoice is distributed to the cent over the units it
    covers exactly when no accepted invoice lost one; in particular for whole cents.
   */
  lemma {:induction false} RunSplitsExactlyIff(start: seq<Unit>, cs: seq<Command>, n: nat)
    requires HandMade(start) && n <= |cs| && AllValid(cs)
    ensures CostsOk(After(start, cs, n)) <==> forall i :: 0 <= i < n ==> Lossless(After(start, cs, i), cs[i])
  {
    hide Next, Lossless, YardOk, HandMade, CommandValid;
    if n > 0 {
      RunSplitsExactlyIff(start, cs, n - 1);
      RunKeepsYard(start, cs, n - 1);
      StepCosts(After(start, cs, n - 1), cs[n - 1]);
      hide CostsOk;
    }
  }

  /** An order that was not cancelled is Conciliada exactly when every ordered unit exists and is invoiced. */
  lemma ConciliadaMeansComplete(y: Yard, o: nat)
    requires YardOk(y) && o < |y.orders| && y.orders[o].status != Cancelada
    ensures y.orders[o].status == Conciliada <==>
      && (forall l :: 0 <= l < |y.orders[o].lines| ==> ReceivedOn(y.units, LineRef(o, l)) == y.orders[o].lines[l])
      && (forall u :: u in y.units && Of(u, o) ==> u.invoice.Some?)
  {
    assert OrderOk(y, o);
    if forall l :: 0 <= l < |y.orders[o].lines| ==> ReceivedOn(y.units, LineRef(o, l)) == y.orders[o].lines[l] {
      var k := SomethingReceived(y.units, LineRef(o, 0));
      assert y.units[k] in y.units;
    }
  }

  lemma InvoicedStays(y: Yard, c: Command, k: nat)
    requires k < |y.units| && y.units[k].invoice.Some?
    ensures k < |Next(y, c).units| && Next(y, c).units[k] == y.units[k]
  {
    hide V.FirstProblem;
    match c
    case DoInvoice(o, rows, wanted, total) =>
      if RowsOf(y, o, rows) && Billing(y, o, rows, wanted, total).Ok? { TargetsAreFree(y, o, rows, wanted, total); }
    case _ =>
  }

  /** An invoiced unit is never invoiced again and its cost never changes, whatever is called later. */
  lemma {:induction false} InvoicedOnce(start: seq<Unit>, cs: seq<Command>, m: nat, n: nat, k: nat)
    requires m <= n <= |cs| && k < |After(start, cs, m).units| && After(start, cs, m).units[k].invoice.Some?
    ensures k < |After(start, cs, n).units| && After(start, cs, n).units[k] == After(start, cs, m).units[k]
  {
    hide Next;
    if m < n {
      InvoicedOnce(start, cs, m, n - 1, k);
      InvoicedStays(After(start, cs, n - 1), cs[n - 1], k);
    }
  }

  /** The cost of every invoiced unit, and the total of every invoice. */
  function InvoicedCost(units: seq<Unit>, n: nat): Cents
    requires n <= |units|
  {
    if n == 0 then 0
    else
      var u := units[n - 1];
      InvoicedCost(units, n - 1) + if u.invoice.Some? && u.cost.Some? then u.cost.value else 0
  }

  function InvoiceTotal(invoices: seq<Invoice>, n: nat): Cents
    requires n <= |invoices|
  {
    if n == 0 then 0 else InvoiceTotal(invoices, n - 1) + invoices[n - 1].total
  }

  function CostUnderAll(units: seq<Unit>, m: nat, n: nat): Cents
    requires n <= |units|
  {
    if m == 0 then 0 else CostUnderAll(units, m - 1, n) + CostUnder(units, m - 1, n)
  }

  lemma {:induction false} CostUnderAllStep(units: seq<Unit>, m: nat, n: nat)
    requires 0 < n <= |units|
    ensures
      var u := units[n - 1];
      CostUnderAll(units, m, n) == CostUnderAll(units, m, n - 1) +
        if u.invoice.Some? && u.invoice.value < m && u.cost.Some? then u.cost.value else 0
  {
    if m > 0 { CostUnderAllStep(units, m - 1, n); }
  }

  lemma {:induction false} CostUnderAllZero(units: seq<Unit>, m: nat)
    ensures CostUnderAll(units, m, 0) == 0
  {
    if m > 0 { CostUnderAllZero(units, m - 1); }
  }

  lemma {:induction false} EveryCostIsUnderAnInvoice(y: Yard, n: nat)
    requires YardOk(y) && n <= |y.units|
    ensures InvoicedCost(y.units, n) == CostUnderAll(y.units, |y.invoices|, n)
  {
    if n == 0 {
      CostUnderAllZero(y.units, |y.invoices|);
    } else {
      EveryCostIsUnderAnInvoice(y, n - 1);
      CostUnderAllStep(y.units, |y.invoices|, n);
      assert UnitOk(y, y.units[n - 1]);
    }
  }

  /** No invoice is distributed beyond its total. */
  predicate CostsWithin(y: Yard) {
    forall i :: 0 <= i < |y.invoices| ==> CostUnder(y.units, i, |y.units|) <= y.invoices[i].total
  }

  lemma {:induction false} InvoicesAddUpIff(y: Yard, m: nat)
    requires CostsWithin(y) && m <= |y.invoices|
    ensures CostUnderAll(y.units, m, |y.units|) <= InvoiceTotal(y.invoices, m)
    ensures CostUnderAll(y.units, m, |y.units|) == InvoiceTotal(y.invoices, m) <==>
            forall i :: 0 <= i < m ==> CostUnder(y.units, i, |y.units|) == y.invoices[i].total
  {
    if m > 0 {
      InvoicesAddUpIff(y, m - 1);
      hide CostUnder;
    }
  }

  /** The costs of all invoiced units add up to all the invoices exactly when each invoice is fully distributed. */
  lemma CostsMatchInvoices(y: Yard)
    requires YardOk(y) && CostsWithin(y)
    ensures InvoicedCost(y.units, |y.units|) <= InvoiceTotal(y.invoices, |y.invoices|)
    ensures InvoicedCost(y.units, |y.units|) == InvoiceTotal(y.invoices, |y.invoices|) <==> CostsOk(y)
  {
    EveryCostIsUnderAnInvoice(y, |y.units|);
    InvoicesAddUpIff(y, |y.invoices|);
  }

  lemma BillingStaysWithin(y: Yard, o: nat, rows: seq<nat>, wanted: Option<set<nat>>, total: real)
    requires YardOk(y) && RowsOf(y, o, rows) && total > 0.0 && Billing(y, o, rows, wanted, total).Ok? && CostsWithin(y)
    ensures CostsWithin(Billing(y, o, rows, wanted, total).yard)
  {
    hide YardOk, CostUnder, LosesACent, RowsOf, Targets, Invoiced;
    BillingCosts(y, o, rows, wanted, total);
    var r, n := Billing(y, o, rows, wanted, total).yard, |y.invoices|;
    assert r.invoices == y.invoices + [Invoice(o, Round(total))];
    assert forall i: nat :: i < n ==> r.invoices[i] == y.invoices[i];
  }

  lemma StepKeepsWithin(y: Yard, c: Command)
    requires YardOk(y) && CommandValid(c) && CostsWithin(y)
    ensures CostsWithin(Next(y, c))
  {
    match c
    case DoReceive(o, inputs) =>
      if Reception(y, o, inputs).Ok? {
        forall i: nat | i < |y.invoices|
          ensures var units := Reception(y, o, inputs).yard.units; CostUnder(units, i, |units|) <= y.invoices[i].total
        {
          ReceptionCosts(y, o, inputs, i);
        }
        hide CostUnder, V.FirstProblem;
      }
    case DoInvoice(o, rows, wanted, total) =>
      if RowsOf(y, o, rows) && Billing(y, o, rows, wanted, total).Ok? { BillingStaysWithin(y, o, rows, wanted, total); }
    case _ =>
  }

  lemma {:induction false} RunStaysWithin(start: seq<Unit>, cs: seq<Command>, n: nat)
    requires HandMade(start) && n <= |cs| && AllValid(cs)
    ensures CostsWithin(After(start, cs, n))
  {
    if n > 0 {
      RunStaysWithin(start, cs, n - 1);
      RunKeepsYard(start, cs, n - 1);
      hide Next, YardOk, HandMade, CommandValid, CostsWithin;
      StepKeepsWithin(After(start, cs, n - 1), cs[n - 1]);
    }
  }

  /**
    Main result, conservation: after any run the costs of all invoiced units are the sum of
    all invoices exactly when no accepted invoice lost a cent; lost cents never cancel.
   */
  lemma RunConservesIff(start: seq<Unit>, cs: seq<Command>, n: nat)
    requires HandMade(start) && n <= |cs| && AllValid(cs)
    ensures
      var y := After(start, cs, n);
      InvoicedCost(y.units, |y.units|) == InvoiceTotal(y.invoices, |y.invoices|)
      <==> forall i :: 0 <= i < n ==> Lossless(After(start, cs, i), cs[i])
  {
    hide Next, YardOk, HandMade, CommandValid, CostsWithin, CostsOk, Lossless, InvoicedCost, InvoiceTotal;
    RunKeepsYard(start, cs, n);
    RunStaysWithin(start, cs, n);
    RunSplitsExactlyIff(start, cs, n);
    CostsMatchInvoices(After(start, cs, n));
  }

  /* ---- orders that are closed ---- */

  predicate Final(s: Status) { s == Cancelada || s == Conciliada }

  lemma ClosedOrderStays(y: Yard, c: Command, o: nat)
    requires o < |y.orders| && Final(y.orders[o].status)
    ensures
      var after := Next(y, c);
      && o < |after.orders| && after.orders[o] == y.orders[o]
      && forall l: nat :: ReceivedOn(after.units, LineRef(o, l)) == ReceivedOn(y.units, LineRef(o, l))
  {
    var after := Next(y, c);
    forall l: nat ensures ReceivedOn(after.units, LineRef(o, l)) == ReceivedOn(y.units, LineRef(o, l)) {
      match c
      case DoReceive(q, inputs) =>
        if Reception(y, q, inputs).Ok? { ReceptionCounts(y, q, inputs, LineRef(o, l)); }
      case DoInvoice(q, rows, wanted, total) =>
        if RowsOf(y, q, rows) && Billing(y, q, rows, wanted, total).Ok? {
          ReceivedSameSources(after.units, y.units, LineRef(o, l));
        }
      case _ =>
    }
    hide ReceivedOn, V.FirstProblem, FullyReceived, AnyReceived, AllInvoiced;
  }

  /**
    A cancelled or reconciled order is closed: whatever is called later, it keeps its status
    and receives nothing more.
   */
  lemma {:induction false} ClosedOrdersStay(start: seq<Unit>, cs: seq<Command>, m: nat, n: nat, o: nat)
    requires m <= n <= |cs| && o < |After(start, cs, m).orders| && Final(After(start, cs, m).orders[o].status)
    ensures
      var before, after := After(start, cs, m), After(start, cs, n);
      && o < |after.orders| && after.orders[o] == before.orders[o]
      && forall l: nat :: ReceivedOn(after.units, LineRef(o, l)) == ReceivedOn(before.units, LineRef(o, l))
  {
    if m < n {
      ClosedOrdersStay(start, cs, m, n - 1, o);
      hide Next, ReceivedOn;
      ClosedOrderStays(After(start, cs, n - 1), cs[n - 1], o);
    }
  }

  lemma CancelCloses(y: Yard, o: nat)
    requires YardOk(y) && Cancel(y, o).Ok?
    ensures o < |y.orders| && !FullyReceived(y.orders[o].lines, y.units, o)
    ensures Next(y, DoCancel(o)) == y.(orders := y.orders[o := y.orders[o].(status := Cancelada)])
  {
    assert OrderOk(y, o);
  }

  lemma RightAfterCancel(start: seq<Unit>, cs: seq<Command>, m: nat, o: nat)
    requires m < |cs| && HandMade(start) && AllValid(cs)
    requires cs[m] == DoCancel(o) && Cancel(After(start, cs, m), o).Ok?
    ensures
      var before, after := After(start, cs, m), After(start, cs, m + 1);
      && o < |before.orders| && !FullyReceived(before.orders[o].lines, before.units, o)
      && after == before.(orders := before.orders[o := before.orders[o].(status := Cancelada)])
      && Final(after.orders[o].status)
  {
    RunKeepsYard(start, cs, m);
    hide FullyReceived, YardOk, HandMade, AllValid, Next;
    CancelCloses(After(start, cs, m), o);
  }

  /** Cancelling takes an order that was open and incomplete, and closes it for good. */
  lemma CancelledForGood(start: seq<Unit>, cs: seq<Command>, m: nat, n: nat, o: nat)
    requires m < n <= |cs| && HandMade(start) && AllValid(cs)
    requires cs[m] == DoCancel(o) && Cancel(After(start, cs, m), o).Ok?
    ensures
      var before, after := After(start, cs, m), After(start, cs, n);
      && o < |before.orders| && !FullyReceived(before.orders[o].lines, before.units, o)
      && o < |after.orders| && after.orders[o] == before.orders[o].(status := Cancelada)
      && forall l: nat :: ReceivedOn(after.units, LineRef(o, l)) == ReceivedOn(before.units, LineRef(o, l))
  {
    hide *;
    RightAfterCancel(start, cs, m, o);
    ClosedOrdersStay(start, cs, m + 1, n, o);
  }

  /* ---- the cent that is lost ---- */

  /** 0.015 over three units: the base share is one cent, and the last unit gets minus one. */
  lemma ACentCanBeLost()
    ensures LosesACent(0.015, 3) && Share(0.015, 3) == 1 && LastShare(0.015, 3) == -1
    ensures Round(0.015) == 2 && SharesTotal(0.015, 3, 3) == 1
  {
    assert Share(0.015, 3) == 1 && Round(0.015) == 2;
    assert LastShare(0.015, 3) == -1;
    assert SharesTotal(0.015, 3, 0) == 0;
    assert SharesTotal(0.015, 3, 1) == 1 && SharesTotal(0.015, 3, 2) == 2;
  }

  const THREE := [UnitInput(0, "A"), UnitInput(0, "B"), UnitInput(0, "C")]

  const LOSING_CALLS := [DoCreate([3]), DoReceive(0, THREE), DoInvoice(0, [0, 1, 2], None, 0.015)]

  function Arrived(vin: string): Unit { Unit(Some(LineRef(0, 0)), vin, None, true, None) }

  lemma PlainVin(input: UnitInput, c: char)
    requires input.vin == [c] && 'A' <= c <= 'Z'
    ensures Vin(input) == [c]
  {
  }

  lemma ThreeUnits()
    ensures NewUnits(0, THREE) == [Arrived("A"), Arrived("B"), Arrived("C")]
    ensures Vin(THREE[0]) == "A" && Vin(THREE[1]) == "B" && Vin(THREE[2]) == "C"
  {
    PlainVin(THREE[0], 'A');
    PlainVin(THREE[1], 'B');
    PlainVin(THREE[2], 'C');
    hide Vin;
  }

  lemma ThreeAccepted(y: Yard)
    requires y == Yard([Order(Enviada, [3])], [], [])
    ensures V.FirstProblem(y, 0, THREE, 0).None?
  {
    ThreeUnits();
    hide Vin;
    forall i: nat | i < 3 ensures InputProblem(y, 0, THREE, i).None? {
      assert THREE[i].line == 0;
    }
  }

  lemma ThreeFit(y: Yard)
    requires y == Yard([Order(Enviada, [3])], [], [])
    ensures !OverAsks(y, 0, THREE)
  {
    assert THREE[..2] == [THREE[0], THREE[1]] && THREE[..2][..1] == [THREE[0]] && [THREE[0]][..0] == [];
    assert RequestedOn([THREE[0]], 0) == 1;
    assert RequestedOn(THREE[..2], 0) == 2;
    assert RequestedOn(THREE, 0) == 3;
    assert Fits(y, 0, THREE, 0);
    forall i | 0 <= i < |THREE| ensures THREE[i].line == 0 {}
  }

  lemma ThreeArrive(y: Yard)
    requires y == Yard([Order(Enviada, [3])], [], [])
    ensures
      var r := Reception(y, 0, THREE);
      r.Ok? && |r.yard.orders| == 1 && r.yard.units == [Arrived("A"), Arrived("B"), Arrived("C")]
        && r.yard.invoices == []
  {
    ThreeAccepted(y);
    ThreeFit(y);
    ThreeUnits();
    hide V.FirstProblem, OverAsks, NewUnits, Recomputed, Vin;
  }

  lemma {:induction false} SelectAll(rows: seq<nat>, keep: nat -> bool)
    requires forall k :: k in rows ==> keep(k)
    ensures V.Select(rows, keep) == rows
  {
    if rows != [] {
      var n := |rows| - 1;
      assert rows == rows[..n] + [rows[n]];
      SelectAll(rows[..n], keep);
    }
  }

  lemma ThreeInvoiced(y: Yard)
    requires |y.orders| == 1 && y.units == [Arrived("A"), Arrived("B"), Arrived("C")] && y.invoices == []
    ensures RowsOf(y, 0, [0, 1, 2])
    ensures
      var r := Billing(y, 0, [0, 1, 2], None, 0.015);
      && r.Ok? && r.yard.invoices == [Invoice(0, 2)] && |r.yard.units| == 3
      && r.yard.units[0].cost == Some(1) && r.yard.units[1].cost == Some(1) && r.yard.units[2].cost == Some(-1)
      && forall k :: 0 <= k < 3 ==> r.yard.units[k].invoice == Some(0)
  {
    var rows: seq<nat> := [0, 1, 2];
    ACentCanBeLost();
    hide Share, LastShare, Round;
    var wanted: Option<set<nat>> := None;
    SelectAll(rows, (k: nat) => k < |y.units| && if wanted.Some? then k in wanted.value else y.units[k].invoice.None?);
    assert Targets(y, rows, None) == rows;
    assert PositionOf(rows, 0) == Some(0) && PositionOf(rows, 1) == Some(1) && PositionOf(rows, 2) == Some(2);
  }

  lemma CostOfThree(units: seq<Unit>)
    requires |units| == 3 && forall k :: 0 <= k < 3 ==> units[k].invoice == Some(0)
    requires units[0].cost == Some(1) && units[1].cost == Some(1) && units[2].cost == Some(-1)
    ensures CostUnder(units, 0, 3) == 1
  {
    assert CostUnder(units, 0, 0) == 0;
    assert CostUnder(units, 0, 1) == 1 && CostUnder(units, 0, 2) == 2;
  }

  /**
    The cent is lost in a run from nothing: three units are ordered, received and invoiced
    at 0.015; the stored invoice is 2 cents, the units cost 1, 1 and -1.
   */
  lemma ARunLosesACent()
    ensures HandMade([]) && AllValid(LOSING_CALLS)
    ensures
      var y := After([], LOSING_CALLS, 3);
      && y.invoices == [Invoice(0, 2)] && |y.units| == 3
      && y.units[0].cost == Some(1) && y.units[1].cost == Some(1) && y.units[2].cost == Some(-1)
      && !CostsOk(y)
  {
    hide V.Reception, V.Billing, RowsOf, CostUnder;
    assert After([], LOSING_CALLS, 0) == Yard([], [], []);
    var y1 := After([], LOSING_CALLS, 1);
    assert y1 == Yard([Order(Enviada, [3])], [], []);
    ThreeArrive(y1);
    var y2 := After([], LOSING_CALLS, 2);
    assert y2 == Reception(y1, 0, THREE).yard;
    ThreeInvoiced(y2);
    var y := After([], LOSING_CALLS, 3);
    assert y == Billing(y2, 0, [0, 1, 2], None, 0.015).yard;
    CostOfThree(y.units);
  }
}

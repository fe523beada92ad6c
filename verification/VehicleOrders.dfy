/**
  Vehicle purchase orders (`app/modules/compras/service.py`): units arrive by VIN over
  many receptions, invoices are split over the units they cover, and the stored status
  is a cache of what the lines and the units say.
 */
module VehicleOrders {
  import opened Prelude
  import opened Money
  import Text

  datatype Status = Enviada | ParcialmenteRecibida | Recibida | Conciliada | Cancelada

  /** `lines[l]` is the quantity ordered on line `l`. */
  datatype Order = Order(status: Status, lines: seq<nat>)

  datatype LineRef = LineRef(order: nat, line: nat)

  /** A vehicle; one added by hand has no `source`. */
  datatype Unit = Unit(source: Option<LineRef>, vin: string, cost: Option<Cents>, estimated: bool, invoice: Option<nat>)

  datatype Invoice = Invoice(order: nat, total: Cents)

  datatype Yard = Yard(orders: seq<Order>, units: seq<Unit>, invoices: seq<Invoice>)

  datatype Error =
    | NotFound | BadTransition | LineNotFound | DuplicateVin | OverReceived | UnitAlreadyInvoiced | NoUnitsToInvoice

  datatype Result = Ok(yard: Yard) | Fail(error: Error)

  /* ---- the status, from scratch ---- */

  predicate Of(u: Unit, o: nat) { u.source.Some? && u.source.value.order == o }

  function ReceivedOn(units: seq<Unit>, ref: LineRef): nat {
    if units == [] then 0
    else ReceivedOn(units[..|units| - 1], ref) + if units[|units| - 1].source == Some(ref) then 1 else 0
  }

  predicate FullyReceived(lines: seq<nat>, units: seq<Unit>, o: nat) {
    forall l :: 0 <= l < |lines| ==> lines[l] <= ReceivedOn(units, LineRef(o, l))
  }

  predicate AnyReceived(lines: seq<nat>, units: seq<Unit>, o: nat) {
    exists l :: 0 <= l < |lines| && 0 < ReceivedOn(units, LineRef(o, l))
  }

  predicate AllInvoiced(units: seq<Unit>, o: nat) {
    && (exists u :: u in units && Of(u, o))
    && (forall u :: u in units && Of(u, o) ==> u.invoice.Some?)
  }

  /** What the status of an order that was never cancelled should be. */
  function FromScratch(lines: seq<nat>, units: seq<Unit>, o: nat): Status {
    if FullyReceived(lines, units, o) then
      if AllInvoiced(units, o) then Conciliada else Recibida
    else if AnyReceived(lines, units, o) then ParcialmenteRecibida
    else Enviada
  }

  /** `_recompute_status`: final states stay, and nothing received changes nothing. */
  function Recomputed(order: Order, units: seq<Unit>, o: nat): Order {
    if order.status == Cancelada || order.status == Conciliada then order
    else if FullyReceived(order.lines, units, o) then
      order.(status := if AllInvoiced(units, o) then Conciliada else Recibida)
    else if AnyReceived(order.lines, units, o) then order.(status := ParcialmenteRecibida)
    else order
  }

  predicate Cancelable(s: Status) { s == Enviada || s == ParcialmenteRecibida }

  /* ---- operations ---- */

  function Create(y: Yard, lines: seq<nat>): Yard {
    y.(orders := y.orders + [Order(Enviada, lines)])
  }

  datatype UnitInput = UnitInput(line: nat, vin: string)

  function Vin(input: UnitInput): string { Text.Upper(Text.Strip(input.vin)) }

  predicate VinTaken(units: seq<Unit>, vin: string) { exists u :: u in units && u.vin == vin }

  predicate VinRepeated(inputs: seq<UnitInput>, i: nat)
    requires i < |inputs|
  {
    exists j :: 0 <= j < i && Vin(inputs[j]) == Vin(inputs[i])
  }

  /** What the first loop raises at input `i`. */
  function InputProblem(y: Yard, o: nat, inputs: seq<UnitInput>, i: nat): Option<Error>
    requires o < |y.orders| && i < |inputs|
  {
    if inputs[i].line >= |y.orders[o].lines| then Some(LineNotFound)
    else if VinRepeated(inputs, i) || VinTaken(y.units, Vin(inputs[i])) then Some(DuplicateVin)
    else None
  }

  /** The first problem at or after input `i`. */
  function FirstProblem(y: Yard, o: nat, inputs: seq<UnitInput>, i: nat): (r: Option<Error>)
    requires o < |y.orders| && i <= |inputs|
    ensures r.None? <==> forall k :: i <= k < |inputs| ==> InputProblem(y, o, inputs, k).None?
    decreases |inputs| - i
  {
    if i == |inputs| then None
    else
      var here := InputProblem(y, o, inputs, i);
      if here.Some? then here else FirstProblem(y, o, inputs, i + 1)
  }

  function RequestedOn(inputs: seq<UnitInput>, l: nat): nat {
    if inputs == [] then 0
    else RequestedOn(inputs[..|inputs| - 1], l) + if inputs[|inputs| - 1].line == l then 1 else 0
  }

  predicate Fits(y: Yard, o: nat, inputs: seq<UnitInput>, l: nat)
    requires o < |y.orders| && l < |y.orders[o].lines|
  {
    ReceivedOn(y.units, LineRef(o, l)) + RequestedOn(inputs, l) <= y.orders[o].lines[l]
  }

  /** Some requested line would receive more than was ordered. */
  predicate OverAsks(y: Yard, o: nat, inputs: seq<UnitInput>)
    requires o < |y.orders|
  {
    exists i :: 0 <= i < |inputs| && inputs[i].line < |y.orders[o].lines| && !Fits(y, o, inputs, inputs[i].line)
  }

  function NewUnit(o: nat, input: UnitInput): Unit {
    Unit(Some(LineRef(o, input.line)), Vin(input), None, true, None)
  }

  function NewUnits(o: nat, inputs: seq<UnitInput>): (r: seq<Unit>)
    ensures |r| == |inputs|
  {
    seq(|inputs|, i requires 0 <= i < |inputs| => NewUnit(o, inputs[i]))
  }

  function Reception(y: Yard, o: nat, inputs: seq<UnitInput>): Result {
    if o >= |y.orders| then Fail(NotFound)
    else if !Cancelable(y.orders[o].status) then Fail(BadTransition)
    else
      var problem := FirstProblem(y, o, inputs, 0);
      if problem.Some? then Fail(problem.value)
      else if OverAsks(y, o, inputs) then Fail(OverReceived)
      else
        var units := y.units + NewUnits(o, inputs);
        Ok(y.(units := units, orders := y.orders[o := Recomputed(y.orders[o], units, o)]))
  }

  /** The order in which the database and the dictionary yield the units of the order. */
  ghost predicate RowsOf(y: Yard, o: nat, rows: seq<nat>) {
    && Distinct(rows)
    && forall k: nat :: k in rows <==> k < |y.units| && Of(y.units[k], o)
  }

  /** The rows that satisfy a condition, in order. */
  function Select(rows: seq<nat>, keep: nat -> bool): (r: seq<nat>)
    ensures forall k :: k in r <==> k in rows && keep(k)
    ensures Distinct(rows) ==> Distinct(r)
  {
    if rows == [] then []
    else
      var n := |rows| - 1;
      var rest := Select(rows[..n], keep);
      assert rows == rows[..n] + [rows[n]];
      assert Distinct(rows) ==> rows[n] !in rows[..n];
      if keep(rows[n]) then rest + [rows[n]] else rest
  }

  /** The share of every unit but the last: total / count, half-up to the cent. */
  function Share(total: real, count: nat): Cents
    requires count > 0
  {
    Round(total / count as real)
  }

  /** What is left for the last unit. */
  function LastShare(total: real, count: nat): Cents
    requires count > 0
  {
    Round(total - FromCents(Share(total, count) * (count - 1)))
  }

  function CostAt(total: real, count: nat, i: nat): Cents
    requires i < count
  {
    if i == count - 1 then LastShare(total, count) else Share(total, count)
  }

  function PositionOf(rows: seq<nat>, k: nat): (r: Option<nat>)
    ensures r.Some? ==> r.value < |rows| && rows[r.value] == k
    ensures r.None? <==> k !in rows
  {
    if rows == [] then None
    else if rows[|rows| - 1] == k then Some(|rows| - 1)
    else
      var r := PositionOf(rows[..|rows| - 1], k);
      assert rows == rows[..|rows| - 1] + [rows[|rows| - 1]];
      r
  }

  /** The units after the invoice fixed the cost of its targets. */
  function Invoiced(units: seq<Unit>, targets: seq<nat>, invoice: nat, total: real): (r: seq<Unit>)
    ensures |r| == |units|
  {
    seq(|units|, k requires 0 <= k < |units| =>
      var i := PositionOf(targets, k);
      if i.None? then units[k]
      else units[k].(cost := Some(CostAt(total, |targets|, i.value)), estimated := false, invoice := Some(invoice)))
  }

  /** The units an invoice covers: the named ones, or every unit not yet invoiced. */
  function Targets(y: Yard, rows: seq<nat>, wanted: Option<set<nat>>): (r: seq<nat>)
    requires forall k: nat :: k in rows ==> k < |y.units|
    ensures forall k: nat :: k in r <==>
      k in rows && k < |y.units| && if wanted.Some? then k in wanted.value else y.units[k].invoice.None?
    ensures Distinct(rows) ==> Distinct(r)
  {
    Select(rows, (k: nat) => k < |y.units| && if wanted.Some? then k in wanted.value else y.units[k].invoice.None?)
  }

  function Billing(y: Yard, o: nat, rows: seq<nat>, wanted: Option<set<nat>>, total: real): Result
    requires RowsOf(y, o, rows)
  {
    if o >= |y.orders| then Fail(NotFound)
    else
      var targets := Targets(y, rows, wanted);
      if wanted.Some? && |targets| != |wanted.value| then Fail(LineNotFound)
      else if wanted.Some? && exists k: nat :: k in targets && y.units[k].invoice.Some? then Fail(UnitAlreadyInvoiced)
      else if targets == [] then Fail(NoUnitsToInvoice)
      else
        var units := Invoiced(y.units, targets, |y.invoices|, total);
        Ok(Yard(y.orders[o := Recomputed(y.orders[o], units, o)], units, y.invoices + [Invoice(o, Round(total))]))
  }

  function Cancel(y: Yard, o: nat): Result {
    if o >= |y.orders| then Fail(NotFound)
    else if !Cancelable(y.orders[o].status) then Fail(BadTransition)
    else Ok(y.(orders := y.orders[o := y.orders[o].(status := Cancelada)]))
  }

  /* ---- the service ---- */

  predicate Matches(expected: Result, before: Yard, after: Yard, error: Option<Error>) {
    match expected
    case Ok(y) => error.None? && after == y
    case Fail(e) => error == Some(e) && after == before
  }

  class ComprasService {
    var orders: seq<Order>
    var units: seq<Unit>
    var invoices: seq<Invoice>

    function State(): Yard
      reads this
    {
      Yard(orders, units, invoices)
    }

    constructor (vehicles: seq<Unit>)
      ensures State() == Yard([], vehicles, [])
    {
      orders, units, invoices := [], vehicles, [];
    }

    method CreateOrder(lines: seq<nat>)
      modifies this
      ensures State() == Create(old(State()), lines)
    {
      orders := orders + [Order(Enviada, lines)];
    }

    method RecomputeStatus(o: nat)
      requires o < |orders|
      modifies this`orders
      ensures orders == old(orders)[o := Recomputed(old(orders)[o], units, o)]
    {
      var order := orders[o];
      if order.status == Cancelada || order.status == Conciliada { return; }
      if FullyReceived(order.lines, units, o) {
        if AllInvoiced(units, o) {
          order := order.(status := Conciliada);
        } else {
          order := order.(status := Recibida);
        }
      } else if AnyReceived(order.lines, units, o) {
        order := order.(status := ParcialmenteRecibida);
      }
      orders := orders[o := order];
    }

    /** The loop over the batch: line, VIN within the batch, VIN among all vehicles. */
    method CheckBatch(o: nat, inputs: seq<UnitInput>) returns (error: Option<Error>)
      requires o < |orders|
      ensures error == FirstProblem(State(), o, inputs, 0)
    {
      hide Vin;
      var batch: set<string> := {};
      for i := 0 to |inputs|
        invariant FirstProblem(State(), o, inputs, 0) == FirstProblem(State(), o, inputs, i)
        invariant batch == set j | 0 <= j < i :: Vin(inputs[j])
      {
        if inputs[i].line >= |orders[o].lines| { return Some(LineNotFound); }
        var vin := Vin(inputs[i]);
        if vin in batch {
          assert VinRepeated(inputs, i);
          return Some(DuplicateVin);
        }
        assert !VinRepeated(inputs, i);
        batch := batch + {vin};
        if VinTaken(units, vin) { return Some(DuplicateVin); }
      }
      return None;
    }

    /** The dictionary of requested quantities per line. */
    method CountRequests(inputs: seq<UnitInput>) returns (requested: map<nat, nat>)
      ensures forall l: nat :: RequestedOn(inputs, l) == if l in requested then requested[l] else 0
      ensures forall l :: l in requested <==> exists i :: 0 <= i < |inputs| && inputs[i].line == l
    {
      requested := map[];
      for i := 0 to |inputs|
        invariant forall l: nat :: RequestedOn(inputs[..i], l) == if l in requested then requested[l] else 0
        invariant forall l :: l in requested <==> exists k :: 0 <= k < i && inputs[k].line == l
      {
        assert inputs[..i + 1][..i] == inputs[..i];
        var l := inputs[i].line;
        requested := requested[l := (if l in requested then requested[l] else 0) + 1];
      }
      assert inputs[..|inputs|] == inputs;
    }

    method AddReception(o: nat, inputs: seq<UnitInput>) returns (error: Option<Error>)
      modifies this
      ensures Matches(Reception(old(State()), o, inputs), old(State()), State(), error)
    {
      if o >= |orders| { return Some(NotFound); }
      if !Cancelable(orders[o].status) { return Some(BadTransition); }
      error := CheckBatch(o, inputs);
      if error.Some? { return; }
      var tooMany := CheckQuantities(o, inputs);
      if tooMany { return Some(OverReceived); }
      AppendUnits(o, inputs);
      RecomputeStatus(o);
      return None;
    }

    /** The loop over the requested quantities. */
    method CheckQuantities(o: nat, inputs: seq<UnitInput>) returns (tooMany: bool)
      requires o < |orders| && FirstProblem(State(), o, inputs, 0).None?
      ensures tooMany == OverAsks(State(), o, inputs)
    {
      var requested := CountRequests(inputs);
      forall l: nat | l in requested ensures l < |orders[o].lines| {
        var i :| 0 <= i < |inputs| && inputs[i].line == l;
        assert InputProblem(State(), o, inputs, i).None?;
      }
      hide FirstProblem;
      var pending := requested.Keys;
      while pending != {}
        invariant pending <= requested.Keys
        invariant forall l: nat :: l in requested.Keys - pending ==>
          l < |orders[o].lines| && Fits(State(), o, inputs, l)
        decreases |pending|
      {
        var l :| l in pending;
        pending := pending - {l};
        if ReceivedOn(units, LineRef(o, l)) + requested[l] > orders[o].lines[l] {
          var i :| 0 <= i < |inputs| && inputs[i].line == l;
          assert !Fits(State(), o, inputs, inputs[i].line);
          return true;
        }
      }
      return false;
    }

    method AppendUnits(o: nat, inputs: seq<UnitInput>)
      modifies this`units
      ensures units == old(units) + NewUnits(o, inputs)
    {
      for i := 0 to |inputs|
        invariant units == old(units) + NewUnits(o, inputs)[..i]
      {
        units := units + [Unit(Some(LineRef(o, inputs[i].line)), Vin(inputs[i]), None, true, None)];
      }
      assert NewUnits(o, inputs)[..|inputs|] == NewUnits(o, inputs);
    }

    method AddInvoice(o: nat, rows: seq<nat>, wanted: Option<set<nat>>, total: real) returns (error: Option<Error>)
      requires RowsOf(State(), o, rows)
      modifies this
      ensures Matches(Billing(old(State()), o, rows, wanted, total), old(State()), State(), error)
    {
      if o >= |orders| { return Some(NotFound); }
      var targets := Targets(State(), rows, wanted);
      if wanted.Some? {
        if |targets| != |wanted.value| { return Some(LineNotFound); }
        if exists k: nat :: k in targets && units[k].invoice.Some? { return Some(UnitAlreadyInvoiced); }
      }
      if targets == [] { return Some(NoUnitsToInvoice); }
      var invoice := |invoices|;
      invoices := invoices + [Invoice(o, Round(total))];
      SplitCost(targets, invoice, total);
      RecomputeStatus(o);
      return None;
    }

    /** The loop that writes the unit costs, the remainder on the last one. */
    method SplitCost(targets: seq<nat>, invoice: nat, total: real)
      requires targets != [] && Distinct(targets) && forall k :: k in targets ==> k < |units|
      modifies this`units
      ensures units == Invoiced(old(units), targets, invoice, total)
    {
      var count := |targets|;
      var base := Share(total, count);
      var covered := base * (count - 1);
      var remainder := Round(total - FromCents(covered));
      for index := 0 to count
        invariant |units| == |old(units)|
        invariant forall k :: 0 <= k < |units| ==>
          units[k] == Invoiced(old(units), targets, invoice, total)[k] ||
          (k !in targets[..index] && units[k] == old(units)[k])
        invariant forall k :: 0 <= k < |units| && k in targets[..index] ==>
          units[k] == Invoiced(old(units), targets, invoice, total)[k]
      {
        var k := targets[index];
        assert k in targets && k !in targets[..index] && targets[..index + 1] == targets[..index] + [k];
        assert PositionOf(targets, k) == Some(index);
        assert units[k] == old(units)[k] || units[k] == Invoiced(old(units), targets, invoice, total)[k];
        units := units[k := units[k].(
          cost := Some(if index == count - 1 then remainder else base), estimated := false, invoice := Some(invoice))];
      }
      assert targets[..count] == targets;
    }

    method CancelOrder(o: nat) returns (error: Option<Error>)
      modifies this
      ensures Matches(Cancel(old(State()), o), old(State()), State(), error)
    {
      if o >= |orders| { return Some(NotFound); }
      if !Cancelable(orders[o].status) { return Some(BadTransition); }
      orders := orders[o := orders[o].(status := Cancelada)];
      return None;
    }
  }
}

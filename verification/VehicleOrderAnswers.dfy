/**
  What the calls on vehicle orders answer: exactly when each is accepted, in terms of the
  ordered lines and the units in the yard, and what an accepted one changes.
 */
module VehicleOrderAnswers {
  import opened Prelude
  import opened Money
  import V = VehicleOrders
  import opened VehicleOrders
  import opened VehicleOrderRuns
  import Text

  /* ---- counting units ---- */

  /** The units that came for a line. */
  function From(units: seq<Unit>, ref: LineRef): set<nat> {
    set k: nat | k < |units| && units[k].source == Some(ref)
  }

  /** How many units in the yard came for a line. */
  function Came(units: seq<Unit>, ref: LineRef): nat { |From(units, ref)| }

  /** How many units of the batch are for a line. */
  function Asks(inputs: seq<UnitInput>, l: nat): nat { |set k: nat | k < |inputs| && inputs[k].line == l| }

  lemma FromStep(units: seq<Unit>, ref: LineRef)
    requires units != []
    ensures
      var last := |units| - 1;
      && last !in From(units[..last], ref)
      && From(units, ref) == From(units[..last], ref) + if units[last].source == Some(ref) then {last} else {}
  {
  }

  lemma {:induction false} CameIs(units: seq<Unit>, ref: LineRef)
    ensures Came(units, ref) == ReceivedOn(units, ref)
  {
    if units == [] {
      assert From(units, ref) == {};
    } else {
      hide From;
      CameIs(units[..|units| - 1], ref);
      FromStep(units, ref);
    }
  }

  lemma {:induction false} AsksIs(inputs: seq<UnitInput>, l: nat)
    ensures Asks(inputs, l) == RequestedOn(inputs, l)
  {
    var all := set k: nat | k < |inputs| && inputs[k].line == l;
    if inputs == [] {
      assert all == {};
    } else {
      var last := |inputs| - 1;
      AsksIs(inputs[..last], l);
      var rest := set k: nat | k < last && inputs[..last][k].line == l;
      assert all == rest + if inputs[last].line == l then {last} else {};
    }
  }

  /** Every ordered unit of the order has come. */
  predicate Complete(y: Yard, o: nat)
    requires o < |y.orders|
  {
    forall l :: 0 <= l < |y.orders[o].lines| ==> y.orders[o].lines[l] <= Came(y.units, LineRef(o, l))
  }

  predicate NothingCame(y: Yard, o: nat)
    requires o < |y.orders|
  {
    forall l :: 0 <= l < |y.orders[o].lines| ==> Came(y.units, LineRef(o, l)) == 0
  }

  /** Every unit of the order has its invoice. */
  predicate EveryUnitInvoiced(y: Yard, o: nat) {
    forall k :: 0 <= k < |y.units| && y.units[k].source.Some? && y.units[k].source.value.order == o ==>
      y.units[k].invoice.Some?
  }

  lemma CompleteIs(y: Yard, o: nat)
    requires o < |y.orders|
    ensures Complete(y, o) <==> FullyReceived(y.orders[o].lines, y.units, o)
    ensures NothingCame(y, o) <==> !AnyReceived(y.orders[o].lines, y.units, o)
  {
    forall l: nat ensures Came(y.units, LineRef(o, l)) == ReceivedOn(y.units, LineRef(o, l)) {
      CameIs(y.units, LineRef(o, l));
    }
    hide Came, ReceivedOn;
  }

  lemma InvoicedIs(y: Yard, o: nat)
    requires YardOk(y) && o < |y.orders| && Complete(y, o)
    ensures EveryUnitInvoiced(y, o) <==> AllInvoiced(y.units, o)
  {
    assert OrderOk(y, o);
    CompleteIs(y, o);
    var k := SomethingReceived(y.units, LineRef(o, 0));
    assert y.units[k] in y.units;
    forall j | 0 <= j < |y.units| ensures y.units[j] in y.units {}
    hide Complete, YardOk;
  }

  /** Main result: what every stored status says of the lines and the units. */
  lemma StatusMeaning(y: Yard, o: nat)
    requires YardOk(y) && o < |y.orders|
    ensures match y.orders[o].status
      case Enviada => NothingCame(y, o)
      case ParcialmenteRecibida => !NothingCame(y, o) && !Complete(y, o)
      case Recibida => Complete(y, o) && !EveryUnitInvoiced(y, o)
      case Conciliada => Complete(y, o) && EveryUnitInvoiced(y, o)
      case Cancelada => !Complete(y, o)
  {
    assert OrderOk(y, o);
    CompleteIs(y, o);
    if Complete(y, o) { InvoicedIs(y, o); }
    hide Complete, NothingCame, EveryUnitInvoiced, FullyReceived, AnyReceived, AllInvoiced, UnitOk, DistinctVins;
  }

  /** What has come never empties a complete order. */
  lemma CompleteIsSomething(y: Yard, o: nat)
    requires YardOk(y) && o < |y.orders|
    ensures !(Complete(y, o) && NothingCame(y, o))
  {
    assert OrderOk(y, o);
    hide UnitOk, DistinctVins, Came, FromScratch, FullyReceived;
    assert 1 <= y.orders[o].lines[0];
  }

  /** An order is still open to units and to cancellation. */
  predicate OpenOrder(y: Yard, o: nat) { o < |y.orders| && y.orders[o].status != Cancelada && !Complete(y, o) }

  lemma OpenIs(y: Yard, o: nat)
    requires YardOk(y)
    ensures OpenOrder(y, o) <==> o < |y.orders| && Cancelable(y.orders[o].status)
  {
    if o < |y.orders| {
      StatusMeaning(y, o);
      CompleteIsSomething(y, o);
    }
    hide YardOk, Complete, NothingCame, EveryUnitInvoiced;
  }

  /** A new order: the lines asked for, ENVIADA; nothing else changes. */
  lemma CreateEffect(y: Yard, lines: seq<nat>)
    ensures
      var y', n := Create(y, lines), |y.orders|;
      && y'.units == y.units && y'.invoices == y.invoices
      && |y'.orders| == n + 1 && y'.orders[..n] == y.orders && y'.orders[n] == Order(Enviada, lines)
  {
  }

  /* ---- add_reception ---- */

  /** The VIN as it is stored. */
  function StoredVin(input: UnitInput): string { Text.Upper(Text.Strip(input.vin)) }

  /** No VIN of the batch repeats another or is in the yard. */
  predicate VinsAreNew(y: Yard, inputs: seq<UnitInput>) {
    && (forall i, j :: 0 <= i < j < |inputs| ==> StoredVin(inputs[i]) != StoredVin(inputs[j]))
    && (forall i, k :: 0 <= i < |inputs| && 0 <= k < |y.units| ==> y.units[k].vin != StoredVin(inputs[i]))
  }

  lemma BatchIsGood(y: Yard, o: nat, inputs: seq<UnitInput>)
    requires o < |y.orders|
    ensures V.FirstProblem(y, o, inputs, 0).None? <==>
      (forall i :: 0 <= i < |inputs| ==> inputs[i].line < |y.orders[o].lines|) && VinsAreNew(y, inputs)
  {
    forall i: nat | i < |inputs|
      ensures InputProblem(y, o, inputs, i).None? <==>
        && inputs[i].line < |y.orders[o].lines|
        && (forall j :: 0 <= j < i ==> StoredVin(inputs[j]) != StoredVin(inputs[i]))
        && (forall k :: 0 <= k < |y.units| ==> y.units[k].vin != StoredVin(inputs[i]))
    {
      if j :| 0 <= j < i && StoredVin(inputs[j]) == StoredVin(inputs[i]) { assert Vin(inputs[j]) == Vin(inputs[i]); }
      if k :| 0 <= k < |y.units| && y.units[k].vin == StoredVin(inputs[i]) { assert y.units[k] in y.units; }
    }
    hide InputProblem, Text.Upper, Text.Strip;
  }

  /** No line would exceed its order. */
  predicate BatchFits(y: Yard, o: nat, inputs: seq<UnitInput>)
    requires o < |y.orders|
  {
    forall l :: 0 <= l < |y.orders[o].lines| ==>
      Came(y.units, LineRef(o, l)) + Asks(inputs, l) <= y.orders[o].lines[l]
  }

  lemma {:induction false} NotRequested(inputs: seq<UnitInput>, l: nat)
    requires forall i :: 0 <= i < |inputs| ==> inputs[i].line != l
    ensures RequestedOn(inputs, l) == 0
  {
    if inputs != [] { NotRequested(inputs[..|inputs| - 1], l); }
  }

  lemma LineFits(y: Yard, o: nat, inputs: seq<UnitInput>, l: nat)
    requires YardOk(y) && o < |y.orders| && l < |y.orders[o].lines|
    ensures Fits(y, o, inputs, l) <==> Came(y.units, LineRef(o, l)) + Asks(inputs, l) <= y.orders[o].lines[l]
    ensures (forall i :: 0 <= i < |inputs| ==> inputs[i].line != l) ==> Fits(y, o, inputs, l)
  {
    CameIs(y.units, LineRef(o, l));
    AsksIs(inputs, l);
    assert OrderOk(y, o);
    if forall i :: 0 <= i < |inputs| ==> inputs[i].line != l { NotRequested(inputs, l); }
  }

  lemma BatchFitsIs(y: Yard, o: nat, inputs: seq<UnitInput>)
    requires YardOk(y) && o < |y.orders| && forall i :: 0 <= i < |inputs| ==> inputs[i].line < |y.orders[o].lines|
    ensures OverAsks(y, o, inputs) <==> !BatchFits(y, o, inputs)
  {
    forall l: nat | l < |y.orders[o].lines|
      ensures Fits(y, o, inputs, l) <==> Came(y.units, LineRef(o, l)) + Asks(inputs, l) <= y.orders[o].lines[l]
      ensures (forall i :: 0 <= i < |inputs| ==> inputs[i].line != l) ==> Fits(y, o, inputs, l)
    {
      LineFits(y, o, inputs, l);
    }
    hide Fits, Came, Asks, YardOk;
  }

  /**
    Main result: a reception is accepted exactly for an open order, lines of that order,
    new VINs, and no more units than are missing.
   */
  lemma ReceptionAcceptedIff(y: Yard, o: nat, inputs: seq<UnitInput>)
    requires YardOk(y)
    ensures Reception(y, o, inputs).Ok? <==>
      && OpenOrder(y, o) && VinsAreNew(y, inputs)
      && (forall i :: 0 <= i < |inputs| ==> inputs[i].line < |y.orders[o].lines|)
      && BatchFits(y, o, inputs)
  {
    OpenIs(y, o);
    if o < |y.orders| {
      BatchIsGood(y, o, inputs);
      if forall i :: 0 <= i < |inputs| ==> inputs[i].line < |y.orders[o].lines| { BatchFitsIs(y, o, inputs); }
    }
    hide YardOk, Complete, VinsAreNew, BatchFits, V.FirstProblem, OverAsks, Cancelable, Recomputed, NewUnits;
  }

  /** An accepted reception: one unit for each input, on its line, under its VIN, without cost or invoice. */
  lemma ReceptionEffect(y: Yard, o: nat, inputs: seq<UnitInput>)
    requires Reception(y, o, inputs).Ok?
    ensures
      var y' := Reception(y, o, inputs).yard;
      var n := |y.units|;
      && y'.invoices == y.invoices && |y'.units| == n + |inputs| && y'.units[..n] == y.units
      && (forall i :: 0 <= i < |inputs| ==>
            y'.units[n + i] == Unit(Some(LineRef(o, inputs[i].line)), StoredVin(inputs[i]), None, true, None))
      && o < |y.orders| && |y'.orders| == |y.orders| && y'.orders[o].lines == y.orders[o].lines
      && forall q :: 0 <= q < |y.orders| && q != o ==> y'.orders[q] == y.orders[q]
  {
    hide V.FirstProblem, OverAsks, FullyReceived, AnyReceived, AllInvoiced, Text.Upper, Text.Strip;
  }

  /** A reason the batch can be refused for, true of it. */
  predicate TrueOfBatch(y: Yard, o: nat, inputs: seq<UnitInput>, reason: Error)
    requires o < |y.orders|
  {
    || (reason == LineNotFound && exists k :: 0 <= k < |inputs| && inputs[k].line >= |y.orders[o].lines|)
    || (reason == DuplicateVin && !VinsAreNew(y, inputs))
  }

  lemma ProblemIsTrue(y: Yard, o: nat, inputs: seq<UnitInput>, i: nat)
    requires o < |y.orders| && i < |inputs| && InputProblem(y, o, inputs, i).Some?
    ensures TrueOfBatch(y, o, inputs, InputProblem(y, o, inputs, i).value)
  {
    hide Text.Upper, Text.Strip;
    if j :| 0 <= j < i && Vin(inputs[j]) == Vin(inputs[i]) { assert StoredVin(inputs[j]) == StoredVin(inputs[i]); }
    if u :| u in y.units && u.vin == Vin(inputs[i]) {
      var k :| 0 <= k < |y.units| && y.units[k] == u;
      assert y.units[k].vin == StoredVin(inputs[i]);
    }
  }

  lemma {:induction false} FirstProblemIs(y: Yard, o: nat, inputs: seq<UnitInput>, i: nat)
    requires o < |y.orders| && i <= |inputs|
    ensures
      var problem := V.FirstProblem(y, o, inputs, i);
      problem.Some? ==> TrueOfBatch(y, o, inputs, problem.value)
    decreases |inputs| - i
  {
    hide InputProblem, TrueOfBatch;
    if i < |inputs| {
      FirstProblemIs(y, o, inputs, i + 1);
      if InputProblem(y, o, inputs, i).Some? { ProblemIsTrue(y, o, inputs, i); }
    }
  }

  /** The reason a refused reception is given is a true one. */
  lemma ReceptionReason(y: Yard, o: nat, inputs: seq<UnitInput>)
    requires YardOk(y) && Reception(y, o, inputs).Fail?
    ensures
      match Reception(y, o, inputs).error
      case NotFound => o >= |y.orders|
      case BadTransition => !OpenOrder(y, o)
      case LineNotFound => o < |y.orders| && exists i :: 0 <= i < |inputs| && inputs[i].line >= |y.orders[o].lines|
      case DuplicateVin => !VinsAreNew(y, inputs)
      case OverReceived => o < |y.orders| && !BatchFits(y, o, inputs)
      case _ => false
  {
    OpenIs(y, o);
    if o < |y.orders| {
      BatchIsGood(y, o, inputs);
      FirstProblemIs(y, o, inputs, 0);
      if forall i :: 0 <= i < |inputs| ==> inputs[i].line < |y.orders[o].lines| { BatchFitsIs(y, o, inputs); }
    }
    hide YardOk, OpenOrder, VinsAreNew, BatchFits, V.FirstProblem, OverAsks, Cancelable, Recomputed, NewUnits;
  }

  /* ---- cancel ---- */

  /** An order is cancelled exactly while it is open; nothing else changes. */
  lemma CancelAcceptedIff(y: Yard, o: nat)
    requires YardOk(y)
    ensures
      var r := Cancel(y, o);
      && (r.Ok? <==> OpenOrder(y, o))
      && (r.Ok? ==> r.yard == y.(orders := y.orders[o := Order(Cancelada, y.orders[o].lines)]))
      && (r.Fail? ==> match r.error
                      case NotFound => o >= |y.orders|
                      case BadTransition => !OpenOrder(y, o)
                      case _ => false)
  {
    OpenIs(y, o);
    hide YardOk, OpenOrder, Cancelable;
  }

  /* ---- add_invoice ---- */

  /** Unit `k` is one the invoice is for: a named one, or any of the order without an invoice. */
  predicate Covered(y: Yard, o: nat, wanted: Option<set<nat>>, k: nat) {
    && k < |y.units| && y.units[k].source.Some? && y.units[k].source.value.order == o
    && if wanted.Some? then k in wanted.value else y.units[k].invoice.None?
  }

  lemma TargetsAre(y: Yard, o: nat, rows: seq<nat>, wanted: Option<set<nat>>)
    requires RowsOf(y, o, rows)
    ensures Distinct(Targets(y, rows, wanted))
    ensures forall k: nat :: k in Targets(y, rows, wanted) <==> Covered(y, o, wanted, k)
  {
  }

  lemma {:induction false} DistinctSize(s: seq<nat>)
    requires Distinct(s)
    ensures |Elements(s)| == |s|
  {
    if s == [] {
      assert Elements(s) == {};
    } else {
      var last := |s| - 1;
      DistinctSize(s[..last]);
      assert Elements(s) == Elements(s[..last]) + {s[last]};
      assert s[last] !in s[..last];
    }
  }

  /** As many targets as were named exactly when every named one is a unit of the order. */
  lemma NamedAreFound(y: Yard, o: nat, rows: seq<nat>, named: set<nat>)
    requires RowsOf(y, o, rows)
    ensures |Targets(y, rows, Some(named))| == |named| <==>
            forall k: nat :: k in named ==> Covered(y, o, Some(named), k)
  {
    var targets := Targets(y, rows, Some(named));
    TargetsAre(y, o, rows, Some(named));
    DistinctSize(targets);
    assert Elements(targets) <= named;
    if forall k: nat :: k in named ==> Covered(y, o, Some(named), k) {
      assert Elements(targets) == named;
    } else {
      var k :| k in named && !Covered(y, o, Some(named), k);
      assert Elements(targets) <= named - {k};
      SubsetSize(Elements(targets), named - {k});
    }
  }

  /**
    An invoice is accepted exactly for an order with a unit to cover: named ones, all of
    them units of the order without an invoice, or else any without one.
   */
  lemma BillingAcceptedIff(y: Yard, o: nat, rows: seq<nat>, wanted: Option<set<nat>>, total: real)
    requires RowsOf(y, o, rows)
    ensures Billing(y, o, rows, wanted, total).Ok? <==>
      && o < |y.orders| && (exists k: nat :: Covered(y, o, wanted, k))
      && (wanted.Some? ==> forall k: nat :: k in wanted.value ==>
            && k < |y.units| && y.units[k].source.Some? && y.units[k].source.value.order == o
            && y.units[k].invoice.None?)
  {
    var targets := Targets(y, rows, wanted);
    TargetsAre(y, o, rows, wanted);
    if wanted.Some? { NamedAreFound(y, o, rows, wanted.value); }
    if targets != [] { assert targets[0] in targets; }
    hide Targets, RowsOf, Invoiced, Recomputed;
  }

  /** The reason a refused invoice is given is a true one. */
  lemma BillingReason(y: Yard, o: nat, rows: seq<nat>, wanted: Option<set<nat>>, total: real)
    requires RowsOf(y, o, rows) && Billing(y, o, rows, wanted, total).Fail?
    ensures
      match Billing(y, o, rows, wanted, total).error
      case NotFound => o >= |y.orders|
      case LineNotFound =>
        && wanted.Some?
        && exists k: nat :: k in wanted.value && !Covered(y, o, wanted, k)
      case UnitAlreadyInvoiced => exists k: nat :: Covered(y, o, wanted, k) && y.units[k].invoice.Some?
      case NoUnitsToInvoice => forall k: nat :: !Covered(y, o, wanted, k)
      case _ => false
  {
    TargetsAre(y, o, rows, wanted);
    if wanted.Some? { NamedAreFound(y, o, rows, wanted.value); }
    hide Targets, RowsOf, Invoiced, Recomputed;
  }

  lemma CoveredCount(y: Yard, o: nat, rows: seq<nat>, wanted: Option<set<nat>>)
    requires RowsOf(y, o, rows)
    ensures |set k: nat | k < |y.units| && Covered(y, o, wanted, k)| == |Targets(y, rows, wanted)|
  {
    var targets := Targets(y, rows, wanted);
    TargetsAre(y, o, rows, wanted);
    DistinctSize(targets);
    assert Elements(targets) == set k: nat | k < |y.units| && Covered(y, o, wanted, k);
  }

  /**
    An accepted invoice: every covered unit gets it and a cost, the total shared evenly to
    the cent but for one unit that takes what is left; no other unit changes.
   */
  lemma BillingEffect(y: Yard, o: nat, rows: seq<nat>, wanted: Option<set<nat>>, total: real) returns (last: nat)
    requires RowsOf(y, o, rows) && total > 0.0 && Billing(y, o, rows, wanted, total).Ok?
    ensures Covered(y, o, wanted, last)
    ensures
      var y' := Billing(y, o, rows, wanted, total).yard;
      var n := |y.invoices|;
      && |y'.units| == |y.units| && |y'.invoices| == n + 1 && y'.invoices[..n] == y.invoices
      && y'.invoices[n].order == o && Nearest(total, y'.invoices[n].total)
      && o < |y.orders| && |y'.orders| == |y.orders| && y'.orders[o].lines == y.orders[o].lines
      && (forall q :: 0 <= q < |y.orders| && q != o ==> y'.orders[q] == y.orders[q])
      && var count := |set k: nat | k < |y.units| && Covered(y, o, wanted, k)|;
         && count > 0
         && forall k: nat :: k < |y.units| ==>
              if !Covered(y, o, wanted, k) then y'.units[k] == y.units[k]
              else
                && y'.units[k].cost.Some?
                && y'.units[k] == y.units[k].(cost := y'.units[k].cost, estimated := false, invoice := Some(n))
                && (k != last ==> Nearest(total / count as real, y'.units[k].cost.value))
  {
    var targets := Targets(y, rows, wanted);
    TargetsAre(y, o, rows, wanted);
    last := targets[|targets| - 1];
    CoveredCount(y, o, rows, wanted);
    NearestIsRound(total, Round(total));
    assert total / |targets| as real >= 0.0;
    NearestIsRound(total / |targets| as real, Round(total / |targets| as real));
    hide Targets, RowsOf, Recomputed, Round, LastShare, PositionOf, Distinct, Nearest;
    RecomputedLines(y.orders[o], Billing(y, o, rows, wanted, total).yard.units, o);
    forall k: nat | k in targets && k != last
      ensures PositionOf(targets, k).Some? && PositionOf(targets, k).value != |targets| - 1
    {
    }
  }
}

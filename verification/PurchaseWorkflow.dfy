/**
  The operations on purchases as the services carry them out: rows changed in
  place, loops that validate while they already mutate, and an explicit rollback to
  the state at the start of the call whenever one of them raises.
 */
module PurchaseWorkflow {
  import opened Prelude
  import opened Money
  import opened Ledger
  import P = Purchases
  import opened Purchases
  import Text

  /** The call did what `expected` says: its new state, or the error and no change at all. */
  predicate Matches(expected: Result, before: Books, after: Books, error: Option<Error>) {
    match expected
    case Ok(b) => error.None? && after == b
    case Fail(e) => error == Some(e) && after == before
  }

  /** The lines after the first `n` took their invoiced costs. */
  function PartlyInvoiced(lines: seq<Line>, items: seq<InvoicedLine>, n: nat): (r: seq<Line>)
    ensures |r| == |lines|
  {
    seq(|lines|, k requires 0 <= k < |lines| =>
      if k < n then lines[k].(invoicedCost := Some(InvoicedCost(items, k))) else lines[k])
  }

  lemma NoneInvoiced(lines: seq<Line>, items: seq<InvoicedLine>)
    ensures PartlyInvoiced(lines, items, 0) == lines
  {
  }

  lemma OneMoreInvoiced(lines: seq<Line>, items: seq<InvoicedLine>, i: nat)
    requires i < |lines|
    ensures
      var before := PartlyInvoiced(lines, items, i);
      && before[i] == lines[i]
      && PartlyInvoiced(lines, items, i + 1) == before[i := lines[i].(invoicedCost := Some(InvoicedCost(items, i)))]
  {
  }

  lemma AllInvoiced(lines: seq<Line>, items: seq<InvoicedLine>)
    ensures PartlyInvoiced(lines, items, |lines|) == InvoicedLines(lines, items)
  {
  }

  lemma NoneRecosted(lots: seq<Lot>, p: nat, lines: seq<Line>, items: seq<InvoicedLine>)
    ensures RecostedLots(lots, p, lines[..0], items) == lots
  {
  }

  function RecostedPart(lots: seq<Lot>, p: nat, part: nat, cost: Cents): (r: seq<Lot>)
    ensures |r| == |lots|
  {
    seq(|lots|, k requires 0 <= k < |lots| =>
      if lots[k].purchase == Some(p) && lots[k].part == part then lots[k].(unitCost := cost) else lots[k])
  }

  /**
    The distinct-part rule at work: the rewrite for line `i` touches no lot that an
    earlier line has already costed.
   */
  lemma RecostOneMore(lots: seq<Lot>, p: nat, lines: seq<Line>, i: nat, items: seq<InvoicedLine>)
    requires i < |lines| && DistinctParts(lines)
    ensures RecostedLots(lots, p, lines[..i + 1], items) ==
            RecostedPart(RecostedLots(lots, p, lines[..i], items), p, lines[i].part, InvoicedCost(items, i))
  {
    assert lines[..i + 1][..i] == lines[..i];
    assert LineOf(lines[..i], lines[i].part).None? by {
      assert forall j :: 0 <= j < i ==> lines[..i][j].part != lines[i].part;
    }
  }

  /** Before anything arrives nothing has changed. */
  lemma ReceivedNothing(lines: seq<Line>, firstLot: nat, p: nat)
    ensures ReceivedLines(lines, [], firstLot) == lines
    ensures ReceivedEvents([], firstLot) == []
    ensures NewLots(p, lines, []) == []
    ensures Nonzero([]) == []
  {
  }

  lemma MissingAt(lines: seq<Line>, k: nat)
    requires k < |lines|
    ensures Missing(lines)[k] ==
      Arrival(k, if lines[k].received < lines[k].quantity then lines[k].quantity - lines[k].received else 0)
    ensures lines[k].unitCost.Some? ==> Receivable(lines, Missing(lines)[k])
  {
  }

  lemma ReceivableItem(lines: seq<Line>, a: Arrival)
    requires a.line < |lines| && a.quantity > 0 && Problem(lines, a).None?
    ensures Receivable(lines, a)
  {
  }

  lemma NoProblem(lines: seq<Line>)
    ensures FirstProblem(lines, []).None?
  {
  }

  /** The loop looks at the items one by one. */
  lemma NextItem(lines: seq<Line>, items: seq<Arrival>, k: nat)
    requires k < |items| && forall a :: a in items ==> a.line < |lines|
    ensures FirstProblem(lines, items[k..]) ==
            if Problem(lines, items[k]).Some? then Problem(lines, items[k]) else FirstProblem(lines, items[k + 1..])
    ensures Nonzero(items[..k + 1]) == Nonzero(items[..k]) + if items[k].quantity > 0 then [items[k]] else []
  {
    assert items[k..][1..] == items[k + 1..];
    assert items[..k + 1][..k] == items[..k];
  }

  /** Lines appear once per delivery, so the loop still sees the original line. */
  lemma LineUntouched(lines: seq<Line>, items: seq<Arrival>, k: nat, firstLot: nat)
    requires k < |items| && DistinctLines(items) && items[k].line < |lines|
    ensures ReceivedLines(lines, Nonzero(items[..k]), firstLot)[items[k].line] == lines[items[k].line]
    ensures forall a :: a in Nonzero(items[..k]) ==> a.line != items[k].line
  {
    forall a | a in Nonzero(items[..k]) ensures a.line != items[k].line {
      var m :| 0 <= m < k && items[m] == a;
    }
  }

  /** Stocking one more line extends the lines, the lots and the events by exactly that arrival. */
  lemma OneMoreArrival(lines: seq<Line>, arrivals: seq<Arrival>, a: Arrival, firstLot: nat, p: nat)
    requires a.line < |lines| && forall b :: b in arrivals ==> b.line != a.line
    requires (forall b :: b in arrivals ==> Receivable(lines, b)) && Receivable(lines, a)
    ensures ReceivedLines(lines, arrivals + [a], firstLot) ==
            ReceivedLines(lines, arrivals, firstLot)
              [a.line := Stocked(lines[a.line], firstLot + |arrivals|, a.quantity)]
    ensures forall b :: b in arrivals + [a] ==> Receivable(lines, b)
    ensures NewLots(p, lines, arrivals + [a]) == NewLots(p, lines, arrivals) + [NewLot(p, lines[a.line], a.quantity)]
    ensures ReceivedEvents(arrivals + [a], firstLot) ==
            ReceivedEvents(arrivals, firstLot) + [Received(firstLot + |arrivals|, a.quantity)]
  {
    assert (arrivals + [a])[..|arrivals|] == arrivals;
  }

  class Session {
    var purchases: seq<Purchase>
    var lots: seq<Lot>
    var expenses: seq<Entry>

    function State(): Books
      reads this
    {
      Books(purchases, lots, expenses)
    }

    constructor ()
      ensures State() == Books([], [], [])
    {
      purchases, lots, expenses := [], [], [];
    }

    method Rollback(savepoint: Books)
      modifies this
      ensures State() == savepoint
    {
      purchases, lots, expenses := savepoint.purchases, savepoint.lots, savepoint.expenses;
    }

    method CreateRequest(filial: nat, supplier: nat, supplierFilial: Option<nat>, inputs: seq<LineInput>, inScope: bool)
      returns (error: Option<Error>)
      modifies this
      ensures Matches(P.Create(old(State()), filial, supplier, supplierFilial, inputs, inScope), old(State()),
        State(), error)
    {
      if supplierFilial.None? { return Some(NotFound); }
      if supplierFilial.value != filial { return Some(Forbidden); }
      var seen: set<nat> := {};
      var lines: seq<Line> := [];
      for i := 0 to |inputs|
        invariant lines == NewLines(inputs)[..i]
        invariant seen == set j | 0 <= j < i :: inputs[j].part
        invariant forall j, k :: 0 <= j < k < i ==> inputs[j].part != inputs[k].part
      {
        if inputs[i].part in seen {
          var j :| 0 <= j < i && inputs[j].part == inputs[i].part;
          assert NewLines(inputs)[j].part == NewLines(inputs)[i].part;
          return Some(RepeatedPart);
        }
        seen := seen + {inputs[i].part};
        lines := lines + [Line(inputs[i].part, inputs[i].quantity, 0, [], inputs[i].unitCost, None)];
      }
      assert lines == NewLines(inputs);
      assert DistinctParts(lines);
      if !inScope { return Some(OutOfScope); }
      purchases := purchases + [Purchase(filial, supplier, Enviada, lines, None, 0, false, None, [Created])];
      return None;
    }

    /** Receive `quantity` on one line: a new lot, the line's counter and its receipt. */
    method StockLine(p: nat, i: nat, quantity: nat)
      requires p < |purchases| && i < |purchases[p].lines| && purchases[p].lines[i].unitCost.Some?
      modifies this`purchases, this`lots
      ensures lots == old(lots) + [NewLot(p, old(purchases[p].lines[i]), quantity)]
      ensures purchases == old(purchases)[p := old(purchases[p]).(
        lines := old(purchases[p].lines)[i := Stocked(old(purchases[p].lines[i]), |old(lots)|, quantity)])]
    {
      var line := purchases[p].lines[i];
      var lot := |lots|;
      lots := lots + [Lot(Some(p), line.part, quantity, line.unitCost.value, None)];
      line := line.(received := line.received + quantity);
      line := line.(receipts := line.receipts + [Receipt(lot, quantity)]);
      purchases := purchases[p := purchases[p].(lines := purchases[p].lines[i := line])];
    }

    method Receive(p: nat, items: seq<Arrival>, inScope: bool) returns (error: Option<Error>)
      modifies this
      ensures Matches(P.Receive(old(State()), p, items, inScope), old(State()), State(), error)
    {
      if p >= |purchases| { return Some(NotFound); }
      var x := purchases[p];
      if x.status !in {Enviada, Cotizada, Pagada} { return Some(WrongStatus); }
      if !DistinctLines(items) || exists a :: a in items && a.line >= |x.lines| { return Some(BadLines); }
      if Nonzero(items) == [] { return Some(NothingReceived); }
      if !inScope { return Some(OutOfScope); }
      error := ReceiveItems(p, items);
      if error.Some? { return; }
      if AllReceived(purchases[p].lines) {
        purchases := purchases[p := purchases[p].(status := Recibida)];
      }
    }

    /** One item of a delivery: validate it against the line as it is now, then stock it. */
    method ReceiveItem(p: nat, item: Arrival) returns (error: Option<Error>)
      requires p < |purchases| && item.line < |purchases[p].lines|
      modifies this`purchases, this`lots
      ensures error == Problem(old(purchases[p].lines), item)
      ensures error.Some? || item.quantity == 0 ==> State() == old(State())
      ensures error.None? && item.quantity > 0 ==>
        var line := old(purchases[p].lines[item.line]);
        && line.unitCost.Some?
        && lots == old(lots) + [NewLot(p, line, item.quantity)]
        && purchases == old(purchases)[p := old(purchases[p]).(
          lines := old(purchases[p].lines)[item.line := Stocked(line, |old(lots)|, item.quantity)],
          activity := old(purchases[p].activity) + [Received(|old(lots)|, item.quantity)])]
    {
      var line := purchases[p].lines[item.line];
      if item.quantity > line.quantity - line.received { return Some(OverReceived); }
      if item.quantity == 0 { return None; }
      if line.unitCost.None? { return Some(NotQuoted); }
      var lot := |lots|;
      StockLine(p, item.line, item.quantity);
      purchases := purchases[p := purchases[p].(
        activity := purchases[p].activity + [Received(lot, item.quantity)])];
      return None;
    }

    /** The loop of `receive`, which validates each item after the earlier ones have been stocked. */
    method ReceiveItems(p: nat, items: seq<Arrival>) returns (error: Option<Error>)
      requires p < |purchases| && DistinctLines(items)
      requires forall a :: a in items ==> a.line < |purchases[p].lines|
      modifies this
      ensures error == FirstProblem(old(purchases[p].lines), items)
      ensures error.Some? ==> State() == old(State())
      ensures error.None? ==>
        var x := old(purchases[p]);
        var arrivals := Nonzero(items);
        && (forall a :: a in arrivals ==> Receivable(x.lines, a))
        && State() == Books(
          old(purchases)[p := x.(
            lines := ReceivedLines(x.lines, arrivals, |old(lots)|),
            activity := x.activity + ReceivedEvents(arrivals, |old(lots)|))],
          old(lots) + NewLots(p, x.lines, arrivals),
          old(expenses))
    {
      hide FirstProblem, ReceivedLines, ReceivedEvents, NewLots, Receivable, Nonzero, Stocked, NewLot;
      var savepoint := State();
      ghost var x, firstLot := purchases[p], |lots|;
      ReceivedNothing(x.lines, firstLot, p);
      assert items[..0] == [] && x.activity + [] == x.activity && purchases == purchases[p := x] && lots == lots + [];
      for k := 0 to |items|
        invariant expenses == old(expenses)
        invariant forall a :: a in Nonzero(items[..k]) ==> Receivable(x.lines, a)
        invariant purchases == old(purchases)[p := x.(
          lines := ReceivedLines(x.lines, Nonzero(items[..k]), firstLot),
          activity := x.activity + ReceivedEvents(Nonzero(items[..k]), firstLot))]
        invariant lots == old(lots) + NewLots(p, x.lines, Nonzero(items[..k]))
        invariant FirstProblem(x.lines, items) == FirstProblem(x.lines, items[k..])
      {
        var item := items[k];
        ghost var arrivals := Nonzero(items[..k]);
        LineUntouched(x.lines, items, k, firstLot);
        NextItem(x.lines, items, k);
        error := ReceiveItem(p, item);
        if error.Some? {
          Rollback(savepoint);
          return;
        }
        if item.quantity > 0 {
          ReceivableItem(x.lines, item);
          OneMoreArrival(x.lines, arrivals, item, firstLot, p);
          assert purchases[p].activity == x.activity + ReceivedEvents(arrivals + [item], firstLot);
          assert purchases[p].lines == ReceivedLines(x.lines, arrivals + [item], firstLot);
          assert purchases == old(purchases)[p := purchases[p]];
          assert lots == old(lots) + NewLots(p, x.lines, arrivals + [item]);
        } else {
          assert Nonzero(items[..k + 1]) == arrivals;
        }
      }
      assert items[..|items|] == items && items[|items|..] == [];
      NoProblem(x.lines);
      error := None;
    }

    method UpdateStatus(p: nat, to: Status, quotes: seq<Quote>, warehouse: bool) returns (error: Option<Error>)
      modifies this
      ensures Matches(P.UpdateStatus(old(State()), p, to, quotes, warehouse), old(State()), State(), error)
    {
      if p >= |purchases| { return Some(NotFound); }
      var x := purchases[p];
      if to == Cancelada && !NoneReceived(x.lines) { return Some(HasGoods); }
      if to == x.status { return None; }
      if to == Pagada || to == Conciliada { return Some(UseFinancialWorkflow); }
      if !Allowed(x.status, to) { return Some(BadTransition); }
      if to == Cotizada {
        error := QuoteLines(p, quotes);
        if error.Some? { return; }
        purchases := purchases[p := purchases[p].(status := to, activity := purchases[p].activity + [Quoted])];
        assert purchases == old(purchases)[p := purchases[p]];
      } else if to == Recibida {
        if !warehouse { return Some(WarehouseRequired); }
        error := ReceiveMissing(p);
        if error.Some? { return; }
        purchases := purchases[p := purchases[p].(status := to, activity := purchases[p].activity + [StatusReceived])];
        assert purchases == old(purchases)[p := purchases[p]];
      } else {
        purchases := purchases[p := purchases[p].(status := to, activity := purchases[p].activity + [Cancelled])];
      }
      return None;
    }

    /** The loop that writes the quoted costs, undone if a line has no quote. */
    method QuoteLines(p: nat, quotes: seq<Quote>) returns (error: Option<Error>)
      requires p < |purchases|
      modifies this
      ensures error == if exists i :: 0 <= i < |old(purchases[p].lines)| && !HasQuote(quotes, i)
                       then Some(QuoteRequired) else None
      ensures error.Some? ==> State() == old(State())
      ensures error.None? ==> State() == Books(
        old(purchases)[p := old(purchases[p]).(lines := QuotedLines(old(purchases[p].lines), quotes))],
        old(lots), old(expenses))
    {
      var savepoint := State();
      ghost var x := purchases[p];
      for i := 0 to |purchases[p].lines|
        invariant lots == old(lots) && expenses == old(expenses)
        invariant |purchases| == |old(purchases)|
        invariant forall q :: 0 <= q < |purchases| && q != p ==> purchases[q] == old(purchases)[q]
        invariant purchases[p] == x.(lines := purchases[p].lines) && |purchases[p].lines| == |x.lines|
        invariant forall k :: 0 <= k < i ==> HasQuote(quotes, k)
        invariant forall k :: 0 <= k < |x.lines| ==>
          purchases[p].lines[k] == if k < i then x.lines[k].(unitCost := QuoteOf(quotes, k)) else x.lines[k]
      {
        var quote := QuoteOf(quotes, i);
        if !HasQuote(quotes, i) {
          Rollback(savepoint);
          return Some(QuoteRequired);
        }
        var line := purchases[p].lines[i];
        purchases := purchases[p := purchases[p].(lines := purchases[p].lines[i := line.(unitCost := quote)])];
      }
      assert purchases[p].lines == QuotedLines(x.lines, quotes);
      assert purchases == old(purchases)[p := x.(lines := QuotedLines(x.lines, quotes))];
      error := None;
    }

    /** The loop that receives whatever is still missing. */
    method ReceiveMissing(p: nat) returns (error: Option<Error>)
      requires p < |purchases|
      modifies this
      ensures error == if exists i :: 0 <= i < |old(purchases[p].lines)| && old(purchases[p].lines[i]).unitCost.None?
                       then Some(QuoteRequired) else None
      ensures error.Some? ==> State() == old(State())
      ensures error.None? ==>
        var x := old(purchases[p]);
        var arrivals := Nonzero(Missing(x.lines));
        && (forall a :: a in arrivals ==> Receivable(x.lines, a))
        && State() == Books(
          old(purchases)[p := x.(lines := ReceivedLines(x.lines, arrivals, |old(lots)|))],
          old(lots) + NewLots(p, x.lines, arrivals),
          old(expenses))
    {
      hide ReceivedLines, NewLots, Missing, Receivable, Nonzero, Stocked, NewLot, FirstProblem, Problem;
      var savepoint := State();
      ghost var x, firstLot := purchases[p], |lots|;
      ghost var items := Missing(x.lines);
      ReceivedNothing(x.lines, firstLot, p);
      assert items[..0] == [] && purchases == purchases[p := x] && lots == lots + [];
      for k := 0 to |purchases[p].lines|
        invariant expenses == old(expenses)
        invariant forall i :: 0 <= i < k ==> x.lines[i].unitCost.Some?
        invariant forall a :: a in Nonzero(items[..k]) ==> Receivable(x.lines, a)
        invariant purchases == old(purchases)[p := x.(lines := ReceivedLines(x.lines, Nonzero(items[..k]), firstLot))]
        invariant lots == old(lots) + NewLots(p, x.lines, Nonzero(items[..k]))
      {
        var line := purchases[p].lines[k];
        ghost var arrivals := Nonzero(items[..k]);
        MissingAt(x.lines, k);
        LineUntouched(x.lines, items, k, firstLot);
        NextItem(x.lines, items, k);
        if line.unitCost.None? {
          Rollback(savepoint);
          return Some(QuoteRequired);
        }
        if line.received < line.quantity {
          OneMoreArrival(x.lines, arrivals, items[k], firstLot, p);
          StockLine(p, k, line.quantity - line.received);
          assert purchases[p].lines == ReceivedLines(x.lines, arrivals + [items[k]], firstLot);
          assert purchases == old(purchases)[p := purchases[p]];
          assert lots == old(lots) + NewLots(p, x.lines, arrivals + [items[k]]);
        } else {
          assert Nonzero(items[..k + 1]) == arrivals;
        }
      }
      assert items[..|items|] == items;
      error := None;
    }

    method TransferLot(origin: nat, quantity: nat) returns (error: Option<Error>)
      modifies this
      ensures Matches(P.TransferLot(old(State()), origin, quantity), old(State()), State(), error)
    {
      if origin >= |lots| { return Some(NotFound); }
      var from := lots[origin];
      lots := lots + [Lot(from.purchase, from.part, quantity, from.unitCost, Some(origin))];
      return None;
    }

    method Reconcile(p: nat, input: InvoiceInput) returns (error: Option<Error>)
      requires p < |purchases| ==> DistinctParts(purchases[p].lines)
      modifies this
      ensures Matches(P.Reconcile(old(State()), p, input), old(State()), State(), error)
    {
      hide Subtotal, Iva, RecostedLots, InvoicedLines, CoversLines, Text.Strip, DistinctParts;
      if p >= |purchases| { return Some(NotFound); }
      var x := purchases[p];
      if x.settled && x.paid == 0 { return Some(PriorPaymentUnclear); }
      if x.invoice.Some? { return Some(AlreadyInvoiced); }
      if x.status != Recibida && x.status != Conciliada { return Some(NotReceived); }
      if !CoversLines(input.lines, |x.lines|) { return Some(BadLines); }
      if Text.Strip(input.number) == "" || Text.Strip(input.control) == "" { return Some(MissingNumber); }
      var savepoint := State();
      var subtotal := RecostLines(p, input.lines);
      var total := subtotal + Iva(subtotal, input.iva);
      if x.paid > total {
        Rollback(savepoint);
        return Some(BelowPayments);
      }
      RecordInvoice(p, Invoice(Text.Strip(input.number), Text.Strip(input.control), input.iva, total));
      return None;
    }

    /** The fields of the purchase that the invoice decides, and the event. */
    method RecordInvoice(p: nat, invoice: Invoice)
      requires p < |purchases|
      modifies this`purchases
      ensures
        var x := old(purchases[p]);
        purchases == old(purchases)[p := x.(
          invoice := Some(invoice),
          settled := if x.paid < invoice.total then false else if invoice.total == 0 then true else x.settled,
          status := Conciliada,
          activity := x.activity + [Reconciled(invoice.total)])]
    {
      var y := purchases[p].(invoice := Some(invoice));
      if y.paid < invoice.total {
        y := y.(settled := false);
      } else if invoice.total == 0 {
        y := y.(settled := true);
      }
      purchases := purchases[p := y.(status := Conciliada, activity := y.activity + [Reconciled(invoice.total)])];
    }

    /** The loop over the lines: record the invoiced cost, add up, rewrite the lots of the part. */
    method RecostLines(p: nat, items: seq<InvoicedLine>) returns (subtotal: Cents)
      requires p < |purchases| && DistinctParts(purchases[p].lines)
      modifies this`purchases, this`lots
      ensures subtotal == Subtotal(old(purchases[p].lines), items, |old(purchases[p].lines)|)
      ensures purchases ==
        old(purchases)[p := old(purchases[p]).(lines := InvoicedLines(old(purchases[p].lines), items))]
      ensures lots == RecostedLots(old(lots), p, old(purchases[p].lines), items)
    {
      ghost var x := purchases[p];
      hide RecostedLots, InvoicedCost;
      subtotal := 0;
      NoneInvoiced(x.lines, items);
      NoneRecosted(lots, p, x.lines, items);
      assert purchases == purchases[p := x];
      for i := 0 to |purchases[p].lines|
        invariant purchases == old(purchases)[p := x.(lines := PartlyInvoiced(x.lines, items, i))]
        invariant subtotal == Subtotal(x.lines, items, i)
        invariant lots == RecostedLots(old(lots), p, x.lines[..i], items)
      {
        OneMoreInvoiced(x.lines, items, i);
        var value := RecostLine(p, i, InvoicedCost(items, i));
        subtotal := subtotal + value;
        assert purchases == old(purchases)[p := purchases[p]];
        RecostOneMore(old(lots), p, x.lines, i, items);
      }
      assert x.lines[..|x.lines|] == x.lines;
      AllInvoiced(x.lines, items);
    }

    /** One line: its invoiced cost, its value, and its lots. */
    method RecostLine(p: nat, i: nat, cost: Cents) returns (value: Cents)
      requires p < |purchases| && i < |purchases[p].lines|
      modifies this`purchases, this`lots
      ensures value == old(purchases[p].lines[i]).received * cost
      ensures
        var x := old(purchases[p]);
        && purchases == old(purchases)[p := x.(lines := x.lines[i := x.lines[i].(invoicedCost := Some(cost))])]
        && lots == RecostedPart(old(lots), p, x.lines[i].part, cost)
    {
      var line := purchases[p].lines[i];
      purchases := purchases[p := purchases[p].(lines := purchases[p].lines[i := line.(invoicedCost := Some(cost))])];
      value := line.received * cost;
      RecostPart(p, line.part, cost);
    }

    /** The inner loop: every lot of the purchase and the part takes the cost. */
    method RecostPart(p: nat, part: nat, cost: Cents)
      modifies this`lots
      ensures lots == RecostedPart(old(lots), p, part, cost)
    {
      for k := 0 to |lots|
        invariant |lots| == |old(lots)|
        invariant forall m :: 0 <= m < |lots| ==>
          lots[m] == if m < k then RecostedPart(old(lots), p, part, cost)[m] else old(lots)[m]
      {
        if lots[k].purchase == Some(p) && lots[k].part == part {
          lots := lots[k := lots[k].(unitCost := cost)];
        }
      }
    }

    method Pay(p: nat, pay: Payment) returns (error: Option<Error>)
      requires PaymentValid(pay)
      modifies this
      ensures Matches(P.Pay(old(State()), p, pay), old(State()), State(), error)
    {
      if p >= |purchases| { return Some(NotFound); }
      var x := purchases[p];
      if x.invoice.None? { return Some(NotInvoiced); }
      if x.settled { return Some(AlreadyPaid); }
      if pay.row.None? || pay.row.value.filial != x.filial { return Some(Forbidden); }
      if !pay.row.value.active || pay.row.value.currency != pay.currency { return Some(WrongAccount); }
      if !pay.openPeriod { return Some(ClosedPeriod); }
      if pay.currency == Bs && pay.rate.None? { return Some(RateRequired); }
      var usd := PaymentUsd(pay);
      if usd <= 0 { return Some(TooSmall); }
      var balance := x.invoice.value.total - x.paid;
      if usd > balance { return Some(Overpayment); }
      var id := |expenses|;
      expenses := expenses + [Entry(
        x.filial, pay.account, pay.currency, Round(pay.amount), Some(usd), PurchasePayment(Some(p)), None)];
      x := x.(paid := x.paid + usd, paymentEntry := Some(id));
      if x.paid == x.invoice.value.total {
        x := x.(settled := true);
      }
      purchases := purchases[p := x.(activity := x.activity + [Paid(id, usd, balance - usd)])];
      return None;
    }

    method CreateExpense(e: ExpenseInput) returns (error: Option<Error>)
      requires ExpenseValid(e)
      modifies this
      ensures Matches(P.CreateExpense(old(State()), e), old(State()), State(), error)
    {
      if !e.openPeriod { return Some(ClosedPeriod); }
      if e.row.None? { return Some(NotFound); }
      if e.row.value.currency != e.currency { return Some(WrongAccount); }
      if e.supplierCategory && e.purchases == [] { return Some(PayableRequired); }
      if e.purchases != [] && e.supplier.None? { return Some(SupplierRequired); }
      error := CheckPayables(e);
      if error.Some? { return; }
      assert forall k :: 0 <= k < |e.purchases| ==>
        e.purchases[k] in e.purchases && PayableProblem(State(), e, e.purchases[k]).None?;
      if e.currency == Bs && e.bcvRate.None? { return Some(RateRequired); }
      var usd := Round(ExpenseUsd(e));
      if e.purchases != [] {
        if !Distinct(e.purchases) { return Some(RepeatedPurchase); }
        var balance := SumBalances(e.purchases);
        if usd != balance { return Some(MustCoverBalance); }
      }
      if e.attachmentMissing { return Some(AttachmentRequired); }
      var id := |expenses|;
      var source := Manual;
      if e.purchases != [] {
        source := PurchasePayment(if |e.purchases| == 1 then Some(e.purchases[0]) else None);
      }
      expenses := expenses + [Entry(e.filial, e.account, e.currency, Round(e.amount), Some(usd), source, None)];
      SettleEach(e.purchases, id);
      return None;
    }

    /** The loop that looks up and validates every purchase the expense names. */
    method CheckPayables(e: ExpenseInput) returns (error: Option<Error>)
      ensures error == FirstPayableProblem(State(), e, e.purchases)
    {
      for k := 0 to |e.purchases|
        invariant FirstPayableProblem(State(), e, e.purchases) == FirstPayableProblem(State(), e, e.purchases[k..])
      {
        var p := e.purchases[k];
        assert e.purchases[k..][1..] == e.purchases[k + 1..];
        if p >= |purchases| { return Some(NotFound); }
        var x := purchases[p];
        if x.filial != e.filial { return Some(Forbidden); }
        if Some(x.supplier) != e.supplier { return Some(SupplierMismatch); }
        if x.status != Conciliada || x.settled { return Some(NotPayable); }
        if x.invoice.None? { return Some(NotInvoiced); }
      }
      return None;
    }

    method SumBalances(ps: seq<nat>) returns (balance: Cents)
      requires forall k :: 0 <= k < |ps| ==> ps[k] < |purchases| && purchases[ps[k]].invoice.Some?
      ensures balance == TotalBalance(State(), ps, |ps|)
    {
      balance := 0;
      for k := 0 to |ps|
        invariant balance == TotalBalance(State(), ps, k)
      {
        var x := purchases[ps[k]];
        balance := balance + (x.invoice.value.total - x.paid);
      }
    }

    /** The loop that settles every purchase of a grouped payment. */
    method SettleEach(ps: seq<nat>, id: nat)
      requires Distinct(ps)
      requires forall p :: p in ps ==> p < |purchases| && purchases[p].invoice.Some?
      modifies this`purchases
      ensures purchases == SettledPurchases(old(State()), ps, id)
    {
      for k := 0 to |ps|
        invariant |purchases| == |old(purchases)|
        invariant forall i :: 0 <= i < |purchases| ==>
          purchases[i] == if i in ps[..k] then Settled(old(purchases)[i], id) else old(purchases)[i]
      {
        var p := ps[k];
        assert p in ps && p !in ps[..k];
        assert ps[..k + 1] == ps[..k] + [p];
        var x := purchases[p];
        var paid := x.invoice.value.total - x.paid;
        x := x.(paid := x.invoice.value.total);
        x := x.(activity := x.activity + [Paid(id, paid, 0)]);
        purchases := purchases[p := x.(settled := true, paymentEntry := Some(id))];
      }
      assert ps[..|ps|] == ps;
    }

    method RecordOther(e: Entry)
      requires Original(e) && !e.source.PurchasePayment?
      modifies this
      ensures Matches(P.RecordOther(old(State()), e), old(State()), State(), None)
    {
      expenses := expenses + [e];
    }

    method ReverseExpense(e: nat) returns (error: Option<Error>)
      modifies this
      ensures Matches(P.ReverseExpense(old(State()), e), old(State()), State(), error)
    {
      if e >= |expenses| { return Some(NotFound); }
      var entry := expenses[e];
      if entry.source == Reservation { return Some(Blocked); }
      var found := FindPayments(e);
      if Reversed(expenses, e) { return Some(AlreadyReversed); }
      expenses := expenses + [CounterEntry(expenses, e)];
      UndoPayments(e, found);
      assert purchases == UnpaidPurchases(old(State()), e);
      return None;
    }

    /** The purchases that entry `e` paid, as far as their rows still say so. */
    method FindPayments(e: nat) returns (found: seq<nat>)
      requires e < |expenses|
      ensures Distinct(found)
      ensures forall p: nat :: p in found <==> p < |purchases| && Finds(State(), e, p)
    {
      found := [];
      for p := 0 to |purchases|
        invariant Distinct(found)
        invariant forall q: nat :: q in found <==> q < p && Finds(State(), e, q)
      {
        if Finds(State(), e, p) { found := found + [p]; }
      }
    }

    /** The loop that takes the payment back from every purchase found. */
    method UndoPayments(e: nat, found: seq<nat>)
      requires e < |expenses| && Distinct(found) && forall p :: p in found ==> p < |purchases|
      modifies this`purchases
      ensures |purchases| == |old(purchases)|
      ensures forall i :: 0 <= i < |purchases| ==>
        purchases[i] == if i in found then Unpaid(old(purchases)[i], e, expenses[e]) else old(purchases)[i]
    {
      for k := 0 to |found|
        invariant |purchases| == |old(purchases)|
        invariant forall i :: 0 <= i < |purchases| ==>
          purchases[i] == if i in found[..k] then Unpaid(old(purchases)[i], e, expenses[e]) else old(purchases)[i]
      {
        var p := found[k];
        assert p in found && p !in found[..k];
        assert found[..k + 1] == found[..k] + [p];
        var x := purchases[p];
        var event := LastPaid(x.activity, e);
        var amount := if event.Some? then event.value else Dollars(expenses[e]);
        x := x.(paid := Max(0, x.paid - amount), settled := false);
        if x.paymentEntry == Some(e) {
          x := x.(paymentEntry := None);
        }
        purchases := purchases[p := x.(activity := x.activity + [PaymentReversed(e, amount)])];
      }
      assert found[..|found|] == found;
    }
  }
}

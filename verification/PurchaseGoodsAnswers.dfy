/**
  What the calls that order and move goods answer: exactly when each is accepted, and
  what an accepted one changes, line by line and lot by lot.
 */
module PurchaseGoodsAnswers {
  import opened Prelude
  import opened Purchases
  import opened PurchaseGoods
  import opened PurchaseAnswers

  /* ---- create_request ---- */

  /** A request is accepted exactly for a supplier of the filial, visible parts, and no part twice. */
  lemma CreateAcceptedIff(b: Books, filial: nat, supplier: nat, supplierFilial: Option<nat>, inputs: seq<LineInput>,
                          inScope: bool)
    ensures Create(b, filial, supplier, supplierFilial, inputs, inScope).Ok? <==>
      && supplierFilial == Some(filial) && inScope
      && forall i, j :: 0 <= i < j < |inputs| ==> inputs[i].part != inputs[j].part
  {
    var lines := NewLines(inputs);
    if DistinctParts(lines) {
      forall i, j | 0 <= i < j < |inputs| ensures inputs[i].part != inputs[j].part {
        assert lines[i].part != lines[j].part;
      }
    }
  }

  lemma CreateReason(b: Books, filial: nat, supplier: nat, supplierFilial: Option<nat>, inputs: seq<LineInput>,
                     inScope: bool)
    requires Create(b, filial, supplier, supplierFilial, inputs, inScope).Fail?
    ensures
      match Create(b, filial, supplier, supplierFilial, inputs, inScope).error
      case NotFound => supplierFilial.None?
      case Forbidden => supplierFilial.Some? && supplierFilial.value != filial
      case RepeatedPart => exists i, j :: 0 <= i < j < |inputs| && inputs[i].part == inputs[j].part
      case OutOfScope => !inScope
      case _ => false
  {
    var lines := NewLines(inputs);
    if i, j :| 0 <= i < j < |lines| && lines[i].part == lines[j].part { assert inputs[i].part == inputs[j].part; }
  }

  /** The new purchase: what was asked for, nothing received, nothing paid; everything else as it was. */
  lemma CreateEffect(b: Books, filial: nat, supplier: nat, supplierFilial: Option<nat>, inputs: seq<LineInput>,
                     inScope: bool)
    requires Create(b, filial, supplier, supplierFilial, inputs, inScope).Ok?
    ensures
      var b' := Create(b, filial, supplier, supplierFilial, inputs, inScope).books;
      var n := |b.purchases|;
      && b'.lots == b.lots && b'.expenses == b.expenses
      && |b'.purchases| == n + 1 && b'.purchases[..n] == b.purchases
      && var x := b'.purchases[n];
         && x.filial == filial && x.supplier == supplier && x.status == Enviada && x.invoice.None?
         && x.paid == 0 && !x.settled && x.paymentEntry.None? && x.activity == [Created]
         && |x.lines| == |inputs|
         && forall i :: 0 <= i < |inputs| ==>
              && x.lines[i].part == inputs[i].part && x.lines[i].quantity == inputs[i].quantity
              && x.lines[i].unitCost == inputs[i].unitCost && x.lines[i].invoicedCost.None?
              && x.lines[i].received == 0 && x.lines[i].receipts == []
  {
  }

  /* ---- receive ---- */

  /** What the items ask for on line `i`, all together. */
  function Asked(items: seq<Arrival>, i: nat): nat {
    if items == [] then 0
    else Asked(items[..|items| - 1], i) + if items[|items| - 1].line == i then items[|items| - 1].quantity else 0
  }

  /** A line after `quantity` of its part came in: one more receipt, of a new lot of that part at the quoted cost. */
  predicate CameIn(p: nat, line: Line, line': Line, quantity: nat, firstNew: nat, lots': seq<Lot>) {
    if quantity == 0 then line' == line
    else
      && line.unitCost.Some? && |line'.receipts| == |line.receipts| + 1
      && var lot := line'.receipts[|line.receipts|].lot;
         && firstNew <= lot < |lots'| && lots'[lot] == Lot(Some(p), line.part, quantity, line.unitCost.value, None)
         && line' == line.(received := line.received + quantity, receipts := line.receipts + [Receipt(lot, quantity)])
  }

  predicate LatestOfSome(lines': seq<Line>, lot: nat) {
    exists i :: 0 <= i < |lines'| && lines'[i].receipts != [] && lines'[i].receipts[|lines'[i].receipts| - 1].lot == lot
  }

  /** Every new lot is the latest receipt of a line. */
  predicate LotsAccounted(lines': seq<Line>, firstNew: nat, total: nat) {
    forall n :: firstNew <= n < total ==> LatestOfSome(lines', n)
  }

  lemma ArrivalIs(arrivals: seq<Arrival>, j: nat)
    requires DistinctLines(arrivals) && j < |arrivals|
    ensures ArrivalOf(arrivals, arrivals[j].line) == Some(j)
  {
    var k := ArrivalOf(arrivals, arrivals[j].line);
    assert arrivals[j] in arrivals;
  }

  /** One line of a delivery. */
  lemma LineCameIn(p: nat, lines: seq<Line>, arrivals: seq<Arrival>, lots: seq<Lot>, i: nat, quantity: nat)
    requires i < |lines| && DistinctLines(arrivals) && forall a :: a in arrivals ==> Receivable(lines, a)
    requires quantity > 0 ==> Arrival(i, quantity) in arrivals
    requires quantity == 0 ==> forall a :: a in arrivals ==> a.line != i
    ensures CameIn(p, lines[i], ReceivedLines(lines, arrivals, |lots|)[i], quantity, |lots|,
                   lots + NewLots(p, lines, arrivals))
  {
    var j := ArrivalOf(arrivals, i);
    if quantity > 0 {
      var k :| 0 <= k < |arrivals| && arrivals[k] == Arrival(i, quantity);
      ArrivalIs(arrivals, k);
      var lots' := lots + NewLots(p, lines, arrivals);
      assert Receivable(lines, arrivals[k]);
      assert lots'[|lots| + k] == NewLots(p, lines, arrivals)[k];
    } else {
      assert j.None?;
    }
  }

  lemma NewLotsAccounted(p: nat, lines: seq<Line>, arrivals: seq<Arrival>, firstNew: nat)
    requires DistinctLines(arrivals) && forall a :: a in arrivals ==> Receivable(lines, a)
    ensures LotsAccounted(ReceivedLines(lines, arrivals, firstNew), firstNew, firstNew + |arrivals|)
  {
    var lines' := ReceivedLines(lines, arrivals, firstNew);
    forall n | firstNew <= n < firstNew + |arrivals| ensures LatestOfSome(lines', n) {
      var j := n - firstNew;
      ArrivalIs(arrivals, j);
      assert Receivable(lines, arrivals[j]) by { assert arrivals[j] in arrivals; }
      var i := arrivals[j].line;
      assert lines'[i].receipts[|lines[i].receipts|] == Receipt(n, arrivals[j].quantity);
      assert |lines'[i].receipts| == |lines[i].receipts| + 1;
    }
  }

  lemma {:induction false} AskedIs(items: seq<Arrival>, i: nat)
    requires DistinctLines(items)
    ensures Asked(items, i) > 0 <==> exists k :: 0 <= k < |items| && items[k].line == i && items[k].quantity > 0
    ensures Asked(items, i) > 0 ==> Arrival(i, Asked(items, i)) in items
    ensures forall k :: 0 <= k < |items| && items[k].line == i ==> items[k].quantity == Asked(items, i)
  {
    if items != [] {
      var last := |items| - 1;
      AskedIs(items[..last], i);
      assert items == items[..last] + [items[last]];
      if items[last].line == i {
        forall k | 0 <= k < last ensures items[..last][k].line != i { assert items[..last][k] == items[k]; }
      } else {
        forall k | 0 <= k < last ensures items[..last][k] == items[k] {}
      }
    }
  }

  lemma NothingToReceive(items: seq<Arrival>)
    ensures Nonzero(items) != [] <==> exists a :: a in items && a.quantity > 0
  {
    if Nonzero(items) != [] { assert Nonzero(items)[0] in Nonzero(items); }
    if a :| a in items && a.quantity > 0 { assert a in Nonzero(items); }
  }

  /** A receipt is accepted exactly for an open purchase and quoted lines, each once and within what is missing. */
  lemma ReceiveAcceptedIff(b: Books, p: nat, items: seq<Arrival>, inScope: bool)
    ensures Receive(b, p, items, inScope).Ok? <==>
      && p < |b.purchases| && inScope
      && b.purchases[p].status != Recibida && b.purchases[p].status != Conciliada
      && b.purchases[p].status != Cancelada
      && (forall j, k :: 0 <= j < k < |items| ==> items[j].line != items[k].line)
      && (exists a :: a in items && a.quantity > 0)
      && var lines := b.purchases[p].lines;
         forall a :: a in items ==>
           && a.line < |lines| && lines[a.line].received + a.quantity <= lines[a.line].quantity
           && (a.quantity > 0 ==> lines[a.line].unitCost.Some?)
  {
    NothingToReceive(items);
    hide Nonzero;
  }

  lemma ArrivalsReceivable(lines: seq<Line>, items: seq<Arrival>)
    requires DistinctLines(items) && forall a :: a in items && a.quantity > 0 ==> Receivable(lines, a)
    ensures DistinctLines(Nonzero(items)) && forall a :: a in Nonzero(items) ==> Receivable(lines, a)
  {
    NonzeroDistinct(items);
  }

  lemma ArrivalsAsked(items: seq<Arrival>, i: nat)
    requires DistinctLines(items)
    ensures Asked(items, i) > 0 ==> Arrival(i, Asked(items, i)) in Nonzero(items)
    ensures Asked(items, i) == 0 ==> forall a :: a in Nonzero(items) ==> a.line != i
  {
    AskedIs(items, i);
  }

  lemma Deliveries(p: nat, lines: seq<Line>, items: seq<Arrival>, lots: seq<Lot>)
    requires DistinctLines(items) && forall a :: a in items && a.quantity > 0 ==> Receivable(lines, a)
    ensures forall a :: a in Nonzero(items) ==> Receivable(lines, a)
    ensures
      var lines', lots' := ReceivedLines(lines, Nonzero(items), |lots|), lots + NewLots(p, lines, Nonzero(items));
      && (forall i :: 0 <= i < |lines| ==> CameIn(p, lines[i], lines'[i], Asked(items, i), |lots|, lots'))
      && LotsAccounted(lines', |lots|, |lots'|)
  {
    var arrivals := Nonzero(items);
    ArrivalsReceivable(lines, items);
    hide Problem, Nonzero, CameIn, LotsAccounted, ReceivedLines, NewLots, Asked, DistinctLines;
    forall i | 0 <= i < |lines|
      ensures CameIn(p, lines[i], ReceivedLines(lines, arrivals, |lots|)[i], Asked(items, i), |lots|,
                     lots + NewLots(p, lines, arrivals))
    {
      ArrivalsAsked(items, i);
      LineCameIn(p, lines, arrivals, lots, i, Asked(items, i));
    }
    NewLotsAccounted(p, lines, arrivals, |lots|);
  }

  /** An accepted receipt: each line gets what was asked of it, in a lot of its own. */
  lemma ReceiveMoves(b: Books, p: nat, items: seq<Arrival>, inScope: bool)
    requires Receive(b, p, items, inScope).Ok?
    ensures
      var b' := Receive(b, p, items, inScope).books;
      && p < |b.purchases| && OnlyPurchase(b, b', p) && |b.lots| <= |b'.lots| && b'.lots[..|b.lots|] == b.lots
      && var lines, lines' := b.purchases[p].lines, b'.purchases[p].lines;
         && |lines'| == |lines|
         && (forall i :: 0 <= i < |lines| ==> CameIn(p, lines[i], lines'[i], Asked(items, i), |b.lots|, b'.lots))
         && LotsAccounted(lines', |b.lots|, |b'.lots|)
  {
    Deliveries(p, b.purchases[p].lines, items, b.lots);
    hide FirstProblem, Problem, Nonzero, CameIn, LotsAccounted, ReceivedLines, NewLots, ReceivedEvents, Asked;
  }

  /** The events of a delivery tell its lots. */
  predicate EventsTell(before: seq<Activity>, after: seq<Activity>, firstNew: nat, lots': seq<Lot>) {
    && firstNew <= |lots'| && |after| == |before| + |lots'| - firstNew && after[..|before|] == before
    && forall n :: firstNew <= n < |lots'| ==> after[|before| + n - firstNew] == Received(n, lots'[n].quantity)
  }

  lemma EventsAreTold(p: nat, lines: seq<Line>, arrivals: seq<Arrival>, lots: seq<Lot>, before: seq<Activity>)
    requires forall a :: a in arrivals ==> Receivable(lines, a)
    ensures EventsTell(before, before + ReceivedEvents(arrivals, |lots|), |lots|, lots + NewLots(p, lines, arrivals))
  {
    var lots' := lots + NewLots(p, lines, arrivals);
    forall n | |lots| <= n < |lots'| ensures lots'[n].quantity == arrivals[n - |lots|].quantity {
      assert arrivals[n - |lots|] in arrivals;
      assert lots'[n] == NewLots(p, lines, arrivals)[n - |lots|];
    }
  }

  /** Its status is complete exactly when its lines are, one event tells of each lot, and nothing else moves. */
  lemma ReceiveRecords(b: Books, p: nat, items: seq<Arrival>, inScope: bool)
    requires Receive(b, p, items, inScope).Ok?
    ensures
      var b' := Receive(b, p, items, inScope).books;
      && b'.expenses == b.expenses && p < |b.purchases| && |b'.purchases| == |b.purchases|
      && var x, x' := b.purchases[p], b'.purchases[p];
         && x' == x.(lines := x'.lines, status := x'.status, activity := x'.activity)
         && x'.status == (if forall i :: 0 <= i < |x'.lines| ==> x'.lines[i].received == x'.lines[i].quantity
                          then Recibida else x.status)
         && EventsTell(x.activity, x'.activity, |b.lots|, b'.lots)
  {
    var x := b.purchases[p];
    ArrivalsReceivable(x.lines, items);
    EventsAreTold(p, x.lines, Nonzero(items), b.lots, x.activity);
    hide FirstProblem, Problem, Nonzero, ReceivedLines, EventsTell, ReceivedEvents, NewLots, Receivable;
  }

  lemma {:induction false} FirstProblemIs(lines: seq<Line>, items: seq<Arrival>)
    requires forall a :: a in items ==> a.line < |lines|
    ensures FirstProblem(lines, items).Some? ==>
      exists a :: a in items && Problem(lines, a) == FirstProblem(lines, items)
  {
    if items != [] {
      assert items == [items[0]] + items[1..];
      if Problem(lines, items[0]).None? && FirstProblem(lines, items[1..]).Some? {
        FirstProblemIs(lines, items[1..]);
      }
    }
  }

  /** The reason a refused receipt is given is a true one. */
  lemma ReceiveReason(b: Books, p: nat, items: seq<Arrival>, inScope: bool)
    requires Receive(b, p, items, inScope).Fail?
    ensures
      match Receive(b, p, items, inScope).error
      case NotFound => p >= |b.purchases|
      case WrongStatus =>
        && p < |b.purchases|
        && var status := b.purchases[p].status;
           status == Recibida || status == Conciliada || status == Cancelada
      case BadLines =>
        && p < |b.purchases|
        && ((exists j, k :: 0 <= j < k < |items| && items[j].line == items[k].line)
            || exists a :: a in items && a.line >= |b.purchases[p].lines|)
      case NothingReceived => forall a :: a in items ==> a.quantity == 0
      case OutOfScope => !inScope
      case OverReceived =>
        && p < |b.purchases|
        && var lines := b.purchases[p].lines;
           exists a :: a in items && a.line < |lines| && lines[a.line].quantity < lines[a.line].received + a.quantity
      case NotQuoted =>
        && p < |b.purchases|
        && var lines := b.purchases[p].lines;
           exists a :: a in items && a.line < |lines| && a.quantity > 0 && lines[a.line].unitCost.None?
      case _ => false
  {
    NothingToReceive(items);
    if p < |b.purchases| && forall a :: a in items ==> a.line < |b.purchases[p].lines| {
      FirstProblemIs(b.purchases[p].lines, items);
    }
    hide FirstProblem, Nonzero;
  }

  /* ---- update_request_status ---- */

  /** Line `i` has a quote in the list. */
  predicate QuotedIn(quotes: seq<Quote>, i: nat) { exists k :: 0 <= k < |quotes| && quotes[k].line == i }

  predicate LastQuote(quotes: seq<Quote>, i: nat, k: int) {
    0 <= k < |quotes| && quotes[k].line == i && forall m :: k < m < |quotes| ==> quotes[m].line != i
  }

  lemma {:induction false} QuoteIsLast(quotes: seq<Quote>, i: nat)
    ensures HasQuote(quotes, i) <==> QuotedIn(quotes, i)
    ensures forall k :: LastQuote(quotes, i, k) ==> QuoteOf(quotes, i) == Some(quotes[k].unitCost)
  {
    if quotes != [] {
      var last := |quotes| - 1;
      QuoteIsLast(quotes[..last], i);
      assert forall k :: 0 <= k < last ==> quotes[..last][k] == quotes[k];
    }
  }

  /** When a status may be set by hand: a quote of every line, what is missing of a paid purchase, or a cancellation. */
  predicate CanSet(x: Purchase, to: Status, quotes: seq<Quote>, warehouse: bool) {
    || (x.status == Enviada && to == Cotizada && forall i :: 0 <= i < |x.lines| ==> QuotedIn(quotes, i))
    || (x.status == Pagada && to == Recibida && warehouse
        && forall i :: 0 <= i < |x.lines| ==> x.lines[i].unitCost.Some?)
    || (to == Cancelada && x.status in {Enviada, Cotizada, Pagada, Cancelada}
        && forall i :: 0 <= i < |x.lines| ==> x.lines[i].received == 0)
    || (to == x.status && to != Cancelada)
  }

  lemma StatusAcceptedIff(b: Books, p: nat, to: Status, quotes: seq<Quote>, warehouse: bool)
    ensures UpdateStatus(b, p, to, quotes, warehouse).Ok? <==>
      p < |b.purchases| && CanSet(b.purchases[p], to, quotes, warehouse)
  {
    forall i: nat ensures HasQuote(quotes, i) <==> QuotedIn(quotes, i) { QuoteIsLast(quotes, i); }
    hide HasQuote, QuotedIn, Nonzero, Missing;
  }

  /** The reason a refused status is given is a true one. */
  lemma StatusReason(b: Books, p: nat, to: Status, quotes: seq<Quote>, warehouse: bool)
    requires UpdateStatus(b, p, to, quotes, warehouse).Fail?
    ensures
      match UpdateStatus(b, p, to, quotes, warehouse).error
      case NotFound => p >= |b.purchases|
      case HasGoods =>
        && p < |b.purchases| && to == Cancelada
        && exists i :: 0 <= i < |b.purchases[p].lines| && b.purchases[p].lines[i].received != 0
      case UseFinancialWorkflow => to == Pagada || to == Conciliada
      case BadTransition =>
        && p < |b.purchases|
        && var from := b.purchases[p].status;
           !(from == Enviada && to == Cotizada) && !(from == Pagada && to == Recibida)
           && !(to == Cancelada && from in {Enviada, Cotizada, Pagada})
      case QuoteRequired =>
        && p < |b.purchases|
        && var lines := b.purchases[p].lines;
           if to == Cotizada then exists i :: 0 <= i < |lines| && !QuotedIn(quotes, i)
           else to == Recibida && exists i :: 0 <= i < |lines| && lines[i].unitCost.None?
      case WarehouseRequired => to == Recibida && !warehouse
      case _ => false
  {
    forall i: nat ensures HasQuote(quotes, i) <==> QuotedIn(quotes, i) { QuoteIsLast(quotes, i); }
    hide HasQuote, QuotedIn, Nonzero, Missing;
  }

  /** What a status set by hand changes: costs when quoting, all that was missing when receiving, else the status. */
  lemma StatusEffect(b: Books, p: nat, to: Status, quotes: seq<Quote>, warehouse: bool)
    requires UpdateStatus(b, p, to, quotes, warehouse).Ok?
    ensures
      var b' := UpdateStatus(b, p, to, quotes, warehouse).books;
      && p < |b.purchases| && b'.expenses == b.expenses && OnlyPurchase(b, b', p)
      && |b.lots| <= |b'.lots| && b'.lots[..|b.lots|] == b.lots
      && var x, x' := b.purchases[p], b'.purchases[p];
         && x'.status == to && |x'.lines| == |x.lines|
         && x' == x.(lines := x'.lines, status := to, activity := x'.activity)
         && (to == x.status ==> b' == b)
         && (to == Cancelada ==> x'.lines == x.lines)
         && (to != Recibida || x.status == Recibida ==> b'.lots == b.lots)
         && x'.activity == (if to == x.status then x.activity
                            else x.activity + [match to
                                               case Cotizada => Quoted
                                               case Recibida => StatusReceived
                                               case _ => Cancelled])
  {
    hide HasQuote, Nonzero, Missing, ReceivedLines, NewLots;
  }

  lemma QuotingEffect(b: Books, p: nat, quotes: seq<Quote>, warehouse: bool, i: nat, k: nat)
    requires UpdateStatus(b, p, Cotizada, quotes, warehouse).Ok? && b.purchases[p].status != Cotizada
    requires i < |b.purchases[p].lines| && LastQuote(quotes, i, k)
    ensures
      var x' := UpdateStatus(b, p, Cotizada, quotes, warehouse).books.purchases[p];
      |x'.lines| == |b.purchases[p].lines|
      && x'.lines[i] == b.purchases[p].lines[i].(unitCost := Some(quotes[k].unitCost))
  {
    QuoteIsLast(quotes, i);
    hide HasQuote, QuoteOf;
  }

  lemma {:induction false} AskedMissing(lines: seq<Line>, n: nat, i: nat)
    requires n <= |lines|
    ensures Asked(Missing(lines)[..n], i) ==
            if i < n && lines[i].received < lines[i].quantity then lines[i].quantity - lines[i].received else 0
  {
    if n > 0 {
      AskedMissing(lines, n - 1, i);
      assert Missing(lines)[..n][..n - 1] == Missing(lines)[..n - 1];
    }
  }

  lemma MissingIsQuoted(lines: seq<Line>)
    requires forall i :: 0 <= i < |lines| ==> lines[i].unitCost.Some?
    ensures forall a :: a in Missing(lines) && a.quantity > 0 ==> Receivable(lines, a)
  {
    forall a | a in Missing(lines) ensures Receivable(lines, a) {
      var i :| 0 <= i < |lines| && Missing(lines)[i] == a;
    }
  }

  lemma HandReceiptIs(b: Books, p: nat, quotes: seq<Quote>, warehouse: bool)
    requires UpdateStatus(b, p, Recibida, quotes, warehouse).Ok? && b.purchases[p].status != Recibida
    ensures
      var b' := UpdateStatus(b, p, Recibida, quotes, warehouse).books;
      var lines := b.purchases[p].lines;
      && (forall i :: 0 <= i < |lines| ==> lines[i].unitCost.Some?)
      && (forall a :: a in Nonzero(Missing(lines)) ==> Receivable(lines, a))
      && |b'.purchases| == |b.purchases|
      && b'.purchases[p].lines == ReceivedLines(lines, Nonzero(Missing(lines)), |b.lots|)
      && b'.lots == b.lots + NewLots(p, lines, Nonzero(Missing(lines)))
  {
    MissingIsQuoted(b.purchases[p].lines);
    hide HasQuote, Missing, ReceivedLines, Nonzero;
  }

  /** What a line still lacks. */
  function Lacking(line: Line): nat { if line.received < line.quantity then line.quantity - line.received else 0 }

  lemma AskedLacking(lines: seq<Line>, i: nat)
    requires i < |lines|
    ensures Asked(Missing(lines), i) == Lacking(lines[i])
  {
    AskedMissing(lines, |lines|, i);
    assert Missing(lines)[..|lines|] == Missing(lines);
  }

  lemma MissingDeliveries(p: nat, lines: seq<Line>, lots: seq<Lot>, i: nat)
    requires i < |lines| && forall j :: 0 <= j < |lines| ==> lines[j].unitCost.Some?
    ensures forall a :: a in Nonzero(Missing(lines)) ==> Receivable(lines, a)
    ensures
      var arrivals := Nonzero(Missing(lines));
      CameIn(p, lines[i], ReceivedLines(lines, arrivals, |lots|)[i], Lacking(lines[i]), |lots|,
             lots + NewLots(p, lines, arrivals))
  {
    MissingIsQuoted(lines);
    AskedLacking(lines, i);
    hide *;
    Deliveries(p, lines, Missing(lines), lots);
  }

  /** Receiving by hand brings in exactly what each line lacks. */
  lemma HandReceiptEffect(b: Books, p: nat, quotes: seq<Quote>, warehouse: bool)
    requires UpdateStatus(b, p, Recibida, quotes, warehouse).Ok? && b.purchases[p].status != Recibida
    ensures
      var b' := UpdateStatus(b, p, Recibida, quotes, warehouse).books;
      var lines, lines' := b.purchases[p].lines, b'.purchases[p].lines;
      && |lines'| == |lines| && |b.lots| <= |b'.lots| && LotsAccounted(lines', |b.lots|, |b'.lots|)
      && forall i :: 0 <= i < |lines| ==> CameIn(p, lines[i], lines'[i], Lacking(lines[i]), |b.lots|, b'.lots)
  {
    var lines := b.purchases[p].lines;
    HandReceiptIs(b, p, quotes, warehouse);
    MissingIsQuoted(lines);
    hide *;
    Deliveries(p, lines, Missing(lines), b.lots);
    forall i | 0 <= i < |lines|
      ensures CameIn(p, lines[i], UpdateStatus(b, p, Recibida, quotes, warehouse).books.purchases[p].lines[i],
                     Lacking(lines[i]), |b.lots|, UpdateStatus(b, p, Recibida, quotes, warehouse).books.lots)
    {
      MissingDeliveries(p, lines, b.lots, i);
    }
  }

  /** A transferred lot: the same part, cost and purchase, in the quantity moved, after its origin. */
  lemma TransferEffect(b: Books, origin: nat, quantity: nat)
    ensures
      var r := TransferLot(b, origin, quantity);
      && (r.Ok? <==> origin < |b.lots|)
      && (r.Ok? ==>
           && r.books.purchases == b.purchases && r.books.expenses == b.expenses
           && |r.books.lots| == |b.lots| + 1 && r.books.lots[..|b.lots|] == b.lots
           && var from, lot := b.lots[origin], r.books.lots[|b.lots|];
              && lot.part == from.part && lot.unitCost == from.unitCost && lot.purchase == from.purchase
              && lot.quantity == quantity && lot.origin == Some(origin))
  {
  }
}

/**
  The goods side of purchases over every run: what was received is what the receipts
  and the lots say, no line is ever over-received, and the invoice rewrites the lots
  to exactly the invoiced value.
 */
module PurchaseGoods {
  import opened Prelude
  import opened Money
  import opened Purchases

  function ReceiptTotal(receipts: seq<Receipt>): nat {
    if receipts == [] then 0
    else ReceiptTotal(receipts[..|receipts| - 1]) + receipts[|receipts| - 1].quantity
  }

  /** The quantity of `part` that entered stock directly for purchase `p`: transfers are not counted twice. */
  function DirectStock(lots: seq<Lot>, p: nat, part: nat): nat {
    if lots == [] then 0
    else
      var last := lots[|lots| - 1];
      DirectStock(lots[..|lots| - 1], p, part) +
      if last.purchase == Some(p) && last.part == part && last.origin.None? then last.quantity else 0
  }

  /** The lot this receipt names holds exactly what the receipt says. */
  predicate ReceiptOk(p: nat, part: nat, r: Receipt, lots: seq<Lot>) {
    && r.quantity > 0 && r.lot < |lots|
    && lots[r.lot] == Lot(Some(p), part, r.quantity, lots[r.lot].unitCost, None)
  }

  predicate LineOk(p: nat, line: Line, lots: seq<Lot>) {
    && 1 <= line.quantity
    && line.received <= line.quantity
    && line.received == ReceiptTotal(line.receipts)
    && line.received == DirectStock(lots, p, line.part)
    && forall r :: r in line.receipts ==> ReceiptOk(p, line.part, r, lots)
  }

  /**
    A purchase is Recibida or Conciliada exactly when every line is complete, a
    cancelled one received nothing, and Conciliada means invoiced.
   */
  predicate PurchaseOk(p: nat, x: Purchase, lots: seq<Lot>) {
    && |x.lines| > 0 && DistinctParts(x.lines)
    && (forall i :: 0 <= i < |x.lines| ==> LineOk(p, x.lines[i], lots))
    && (x.status == Recibida || x.status == Conciliada <==> AllReceived(x.lines))
    && (x.status == Cancelada ==> NoneReceived(x.lines))
    && (x.status == Conciliada <==> x.invoice.Some?)
    && (x.invoice.Some? ==> forall i :: 0 <= i < |x.lines| ==> x.lines[i].invoicedCost.Some?)
  }

  /** A lot that names a purchase holds one of its parts, at the invoiced cost once there is an invoice. */
  predicate LotOk(lot: Lot, purchases: seq<Purchase>) {
    lot.purchase.Some? ==>
      && lot.purchase.value < |purchases|
      && var x := purchases[lot.purchase.value];
         var i := LineOf(x.lines, lot.part);
         i.Some? && (x.invoice.Some? ==> Some(lot.unitCost) == x.lines[i.value].invoicedCost)
  }

  predicate GoodsOk(b: Books) {
    && (forall p :: 0 <= p < |b.purchases| ==> PurchaseOk(p, b.purchases[p], b.lots))
    && (forall k :: 0 <= k < |b.lots| ==> LotOk(b.lots[k], b.purchases))
  }

  /* ---- sums over appended rows ---- */

  lemma ReceiptTotalAppend(receipts: seq<Receipt>, r: Receipt)
    ensures ReceiptTotal(receipts + [r]) == ReceiptTotal(receipts) + r.quantity
  {
    assert (receipts + [r])[..|receipts|] == receipts;
  }

  lemma {:induction false} DirectStockConcat(lots: seq<Lot>, more: seq<Lot>, p: nat, part: nat)
    ensures DirectStock(lots + more, p, part) == DirectStock(lots, p, part) + DirectStock(more, p, part)
  {
    if more == [] {
      assert lots + more == lots;
    } else {
      var n := |more| - 1;
      assert (lots + more)[..|lots + more| - 1] == lots + more[..n];
      DirectStockConcat(lots, more[..n], p, part);
    }
  }

  lemma {:induction false} DirectStockElsewhere(lots: seq<Lot>, p: nat, part: nat)
    requires forall k :: 0 <= k < |lots| ==> lots[k].purchase != Some(p) || lots[k].part != part || lots[k].origin.Some?
    ensures DirectStock(lots, p, part) == 0
  {
    if lots != [] { DirectStockElsewhere(lots[..|lots| - 1], p, part); }
  }

  /** A delivery adds to the stock of a line what its arrival says, and nothing to other lines. */
  lemma {:induction false} DeliveryStock(p: nat, lines: seq<Line>, arrivals: seq<Arrival>, i: nat)
    requires DistinctParts(lines) && DistinctLines(arrivals) && i < |lines|
    requires forall a :: a in arrivals ==> Receivable(lines, a)
    ensures DirectStock(NewLots(p, lines, arrivals), p, lines[i].part) ==
            if ArrivalOf(arrivals, i).Some? then arrivals[ArrivalOf(arrivals, i).value].quantity else 0
  {
    if arrivals != [] {
      var n := |arrivals| - 1;
      var rest, last := arrivals[..n], arrivals[n];
      assert arrivals == rest + [last];
      assert last in arrivals;
      assert NewLots(p, lines, arrivals)[..n] == NewLots(p, lines, rest);
      DeliveryStock(p, lines, rest, i);
      if last.line == i {
        assert ArrivalOf(rest, i).None? by {
          if r :| 0 <= r < n && rest[r].line == i { assert arrivals[r].line == arrivals[n].line; }
        }
      } else {
        assert lines[last.line].part != lines[i].part;
      }
    }
  }

  /* ---- deliveries ---- */

  predicate Delivery(lines: seq<Line>, arrivals: seq<Arrival>) {
    && DistinctLines(arrivals)
    && forall a :: a in arrivals ==>
      && Receivable(lines, a) && 0 < a.quantity && lines[a.line].received + a.quantity <= lines[a.line].quantity
  }

  lemma ReceiptsStay(p: nat, line: Line, lots: seq<Lot>, more: seq<Lot>)
    requires forall r :: r in line.receipts ==> ReceiptOk(p, line.part, r, lots)
    ensures forall r :: r in line.receipts ==> ReceiptOk(p, line.part, r, lots + more)
  {
  }

  /** A line that takes one more lot, where the new lots hold that much of its part. */
  lemma StockedLine(p: nat, line: Line, lots: seq<Lot>, more: seq<Lot>, j: nat, quantity: nat)
    requires LineOk(p, line, lots) && line.unitCost.Some? && 0 < quantity && line.received + quantity <= line.quantity
    requires j < |more| && more[j] == NewLot(p, line, quantity)
    requires DirectStock(more, p, line.part) == quantity
    ensures LineOk(p, Stocked(line, |lots| + j, quantity), lots + more)
  {
    hide DirectStock, ReceiptTotal;
    DirectStockConcat(lots, more, p, line.part);
    ReceiptsStay(p, line, lots, more);
    ReceiptTotalAppend(line.receipts, Receipt(|lots| + j, quantity));
    assert (lots + more)[|lots| + j] == more[j];
  }

  lemma NothingStocked(p: nat, line: Line, lots: seq<Lot>, more: seq<Lot>)
    requires LineOk(p, line, lots) && DirectStock(more, p, line.part) == 0
    ensures LineOk(p, line, lots + more)
  {
    DirectStockConcat(lots, more, p, line.part);
    ReceiptsStay(p, line, lots, more);
  }

  /** One line of the purchase after a delivery. */
  lemma DeliveredLine(p: nat, lines: seq<Line>, lots: seq<Lot>, arrivals: seq<Arrival>, i: nat)
    requires DistinctParts(lines) && Delivery(lines, arrivals) && i < |lines| && LineOk(p, lines[i], lots)
    ensures LineOk(p, ReceivedLines(lines, arrivals, |lots|)[i], lots + NewLots(p, lines, arrivals))
  {
    hide LineOk, Stocked;
    var more := NewLots(p, lines, arrivals);
    DeliveryStock(p, lines, arrivals, i);
    var j := ArrivalOf(arrivals, i);
    if j.Some? {
      assert arrivals[j.value] in arrivals;
      StockedLine(p, lines[i], lots, more, j.value, arrivals[j.value].quantity);
    } else {
      NothingStocked(p, lines[i], lots, more);
    }
  }

  /** Lots appended for other purchases leave a purchase as it was. */
  lemma UnaffectedLine(q: nat, line: Line, lots: seq<Lot>, more: seq<Lot>)
    requires LineOk(q, line, lots)
    requires forall k :: 0 <= k < |more| ==> more[k].purchase != Some(q) || more[k].origin.Some?
    ensures LineOk(q, line, lots + more)
  {
    DirectStockElsewhere(more, q, line.part);
    NothingStocked(q, line, lots, more);
  }

  lemma UnaffectedPurchase(q: nat, x: Purchase, lots: seq<Lot>, more: seq<Lot>)
    requires PurchaseOk(q, x, lots)
    requires forall k :: 0 <= k < |more| ==> more[k].purchase != Some(q) || more[k].origin.Some?
    ensures PurchaseOk(q, x, lots + more)
  {
    forall i | 0 <= i < |x.lines| ensures LineOk(q, x.lines[i], lots + more) {
      UnaffectedLine(q, x.lines[i], lots, more);
    }
  }

  lemma LineOfFinds(lines: seq<Line>, i: nat)
    requires DistinctParts(lines) && i < |lines|
    ensures LineOf(lines, lines[i].part) == Some(i)
  {
    var j := LineOf(lines, lines[i].part);
    assert lines[i] in lines;
  }

  /** Changing costs, receipts or counters does not move a part to another line. */
  lemma {:induction false} LineOfSameParts(a: seq<Line>, b: seq<Line>, part: nat)
    requires |a| == |b| && forall i :: 0 <= i < |a| ==> a[i].part == b[i].part
    ensures LineOf(a, part) == LineOf(b, part)
  {
    if a != [] { LineOfSameParts(a[..|a| - 1], b[..|b| - 1], part); }
  }

  lemma SameParts(lines: seq<Line>, arrivals: seq<Arrival>, firstLot: nat)
    ensures forall i :: 0 <= i < |lines| ==> ReceivedLines(lines, arrivals, firstLot)[i].part == lines[i].part
  {
  }

  lemma DeliveredPurchase(p: nat, x: Purchase, x': Purchase, lots: seq<Lot>, arrivals: seq<Arrival>)
    requires PurchaseOk(p, x, lots) && Delivery(x.lines, arrivals)
    requires x'.invoice.None? && x'.lines == ReceivedLines(x.lines, arrivals, |lots|)
    requires x'.status != Cancelada && x'.status != Conciliada && (x'.status == Recibida <==> AllReceived(x'.lines))
    ensures PurchaseOk(p, x', lots + NewLots(p, x.lines, arrivals))
  {
    hide LineOk, AllReceived, NewLots;
    forall i | 0 <= i < |x'.lines| ensures LineOk(p, x'.lines[i], lots + NewLots(p, x.lines, arrivals)) {
      DeliveredLine(p, x.lines, lots, arrivals, i);
    }
    SameParts(x.lines, arrivals, |lots|);
  }

  lemma DeliveredLots(b: Books, p: nat, arrivals: seq<Arrival>, x': Purchase, k: nat)
    requires GoodsOk(b) && p < |b.purchases| && DistinctParts(b.purchases[p].lines)
    requires forall a :: a in arrivals ==> Receivable(b.purchases[p].lines, a)
    requires x'.invoice.None? && x'.lines == ReceivedLines(b.purchases[p].lines, arrivals, |b.lots|)
    requires b.purchases[p].invoice.None?
    requires k < |b.lots| + |arrivals|
    ensures LotOk((b.lots + NewLots(p, b.purchases[p].lines, arrivals))[k], b.purchases[p := x'])
  {
    hide PurchaseOk, ReceivedLines, DistinctParts;
    var lines := b.purchases[p].lines;
    var lot := (b.lots + NewLots(p, lines, arrivals))[k];
    SameParts(lines, arrivals, |b.lots|);
    LineOfSameParts(lines, x'.lines, lot.part);
    if k >= |b.lots| {
      var a := arrivals[k - |b.lots|];
      assert a in arrivals && lot == NewLot(p, lines[a.line], a.quantity);
      LineOfFinds(lines, a.line);
    } else {
      assert LotOk(b.lots[k], b.purchases);
    }
  }

  lemma PartsDistinct(p: nat, x: Purchase, lots: seq<Lot>)
    requires PurchaseOk(p, x, lots)
    ensures DistinctParts(x.lines)
  {
  }

  /** A delivery into an open purchase keeps the goods invariant. */
  lemma DeliveryKeepsGoods(b: Books, p: nat, arrivals: seq<Arrival>, x': Purchase)
    requires GoodsOk(b) && p < |b.purchases| && Delivery(b.purchases[p].lines, arrivals)
    requires b.purchases[p].invoice.None? && x'.invoice.None?
    requires x'.lines == ReceivedLines(b.purchases[p].lines, arrivals, |b.lots|)
    requires x'.status != Cancelada && x'.status != Conciliada && (x'.status == Recibida <==> AllReceived(x'.lines))
    ensures GoodsOk(b.(purchases := b.purchases[p := x'], lots := b.lots + NewLots(p, b.purchases[p].lines, arrivals)))
  {
    var x := b.purchases[p];
    assert PurchaseOk(p, x, b.lots);
    hide PurchaseOk, LotOk, AllReceived, ReceivedLines;
    var more := NewLots(p, x.lines, arrivals);
    var b' := b.(purchases := b.purchases[p := x'], lots := b.lots + more);
    forall q | 0 <= q < |b'.purchases| ensures PurchaseOk(q, b'.purchases[q], b'.lots) {
      if q == p {
        DeliveredPurchase(p, x, x', b.lots, arrivals);
      } else {
        UnaffectedPurchase(q, b.purchases[q], b.lots, more);
      }
    }
    PartsDistinct(p, x, b.lots);
    forall k | 0 <= k < |b'.lots| ensures LotOk(b'.lots[k], b'.purchases) {
      DeliveredLots(b, p, arrivals, x', k);
    }
  }

  lemma {:induction false} NonzeroDistinct(items: seq<Arrival>)
    requires DistinctLines(items)
    ensures DistinctLines(Nonzero(items))
  {
    if items != [] {
      var n := |items| - 1;
      NonzeroDistinct(items[..n]);
      forall a | a in Nonzero(items[..n]) ensures a.line != items[n].line {
        var m :| 0 <= m < n && items[m] == a;
      }
    }
  }

  /* ---- every operation ---- */

  lemma CreateKeepsGoods(b: Books, filial: nat, supplier: nat, supplierFilial: Option<nat>, inputs: seq<LineInput>,
                         inScope: bool)
    requires GoodsOk(b)
    requires |inputs| > 0 && forall i :: 0 <= i < |inputs| ==> 1 <= inputs[i].quantity
    ensures var r := Create(b, filial, supplier, supplierFilial, inputs, inScope); r.Ok? ==> GoodsOk(r.books)
  {
    var r := Create(b, filial, supplier, supplierFilial, inputs, inScope);
    if r.Ok? {
      var n := |b.purchases|;
      forall k | 0 <= k < |b.lots| ensures LotOk(b.lots[k], r.books.purchases) && b.lots[k].purchase != Some(n) {
        assert LotOk(b.lots[k], b.purchases);
      }
      var x := r.books.purchases[n];
      forall i | 0 <= i < |x.lines| ensures LineOk(n, x.lines[i], b.lots) {
        DirectStockElsewhere(b.lots, n, x.lines[i].part);
      }
      assert x.lines[0].received == 0 && x.lines[0].quantity >= 1;
    }
  }

  lemma ReceiveKeepsGoods(b: Books, p: nat, items: seq<Arrival>, inScope: bool)
    requires GoodsOk(b)
    ensures var r := Receive(b, p, items, inScope); r.Ok? ==> GoodsOk(r.books)
  {
    var r := Receive(b, p, items, inScope);
    if r.Ok? {
      var x := b.purchases[p];
      NonzeroDistinct(items);
      forall a | a in Nonzero(items)
        ensures Receivable(x.lines, a) && 0 < a.quantity
          && x.lines[a.line].received + a.quantity <= x.lines[a.line].quantity
      {
        assert Problem(x.lines, a).None?;
      }
      DeliveryKeepsGoods(b, p, Nonzero(items), r.books.purchases[p]);
    }
  }

  lemma MissingIsDelivery(p: nat, x: Purchase, lots: seq<Lot>)
    requires PurchaseOk(p, x, lots) && forall i :: 0 <= i < |x.lines| ==> x.lines[i].unitCost.Some?
    ensures Delivery(x.lines, Nonzero(Missing(x.lines)))
    ensures forall a :: a in Nonzero(Missing(x.lines)) ==>
      a.line < |x.lines| && x.lines[a.line].received + a.quantity == x.lines[a.line].quantity
  {
    NonzeroDistinct(Missing(x.lines));
    forall a | a in Nonzero(Missing(x.lines))
      ensures Receivable(x.lines, a) && 0 < a.quantity
        && x.lines[a.line].received + a.quantity == x.lines[a.line].quantity
    {
      var i :| 0 <= i < |x.lines| && Missing(x.lines)[i] == a;
    }
  }

  lemma WithinOrder(p: nat, x: Purchase, lots: seq<Lot>)
    requires PurchaseOk(p, x, lots)
    ensures forall i :: 0 <= i < |x.lines| ==> x.lines[i].received <= x.lines[i].quantity
  {
    forall i | 0 <= i < |x.lines| ensures x.lines[i].received <= x.lines[i].quantity {
      assert LineOk(p, x.lines[i], lots);
    }
  }

  lemma MissingArrival(lines: seq<Line>, i: nat)
    requires i < |lines| && lines[i].received <= lines[i].quantity
    ensures
      var arrivals := Nonzero(Missing(lines));
      var j := ArrivalOf(arrivals, i);
      lines[i].quantity == lines[i].received + if j.Some? then arrivals[j.value].quantity else 0
  {
    hide ArrivalOf, Nonzero;
    var items := Missing(lines);
    var j := ArrivalOf(Nonzero(items), i);
    assert items[i] in items;
    if j.Some? {
      assert Nonzero(items)[j.value] in Nonzero(items);
      assert forall m :: 0 <= m < |lines| && items[m].line == i ==> m == i;
    }
  }

  lemma CompletedLine(lines: seq<Line>, i: nat, firstLot: nat)
    requires i < |lines| && lines[i].received <= lines[i].quantity
    ensures ReceivedLines(lines, Nonzero(Missing(lines)), firstLot)[i].received == lines[i].quantity
    ensures ReceivedLines(lines, Nonzero(Missing(lines)), firstLot)[i].quantity == lines[i].quantity
  {
    hide Nonzero, Missing, ArrivalOf;
    MissingArrival(lines, i);
  }

  /** Receiving what is missing completes every line. */
  lemma MissingCompletes(p: nat, x: Purchase, lots: seq<Lot>)
    requires PurchaseOk(p, x, lots) && forall i :: 0 <= i < |x.lines| ==> x.lines[i].unitCost.Some?
    ensures Delivery(x.lines, Nonzero(Missing(x.lines)))
    ensures AllReceived(ReceivedLines(x.lines, Nonzero(Missing(x.lines)), |lots|))
  {
    MissingIsDelivery(p, x, lots);
    WithinOrder(p, x, lots);
    hide Delivery, PurchaseOk, Nonzero, Missing, Stocked, ReceivedLines;
    forall i | 0 <= i < |x.lines|
      ensures ReceivedLines(x.lines, Nonzero(Missing(x.lines)), |lots|)[i].received == x.lines[i].quantity
      ensures ReceivedLines(x.lines, Nonzero(Missing(x.lines)), |lots|)[i].quantity == x.lines[i].quantity
    {
      CompletedLine(x.lines, i, |lots|);
    }
  }

  lemma StatusChangeKeepsPurchase(p: nat, x: Purchase, x': Purchase, lots: seq<Lot>)
    requires PurchaseOk(p, x, lots) && x'.invoice.None? && x.invoice.None?
    requires x.status != Recibida && x.status != Conciliada
    requires x'.status == Cotizada || (x'.status == Cancelada && NoneReceived(x.lines))
    requires |x'.lines| == |x.lines|
    requires forall i :: 0 <= i < |x.lines| ==> x'.lines[i] == x.lines[i].(unitCost := x'.lines[i].unitCost)
    ensures PurchaseOk(p, x', lots)
  {
    forall i | 0 <= i < |x'.lines| ensures LineOk(p, x'.lines[i], lots) {
      assert LineOk(p, x.lines[i], lots);
    }
    var i :| 0 <= i < |x.lines| && x.lines[i].received != x.lines[i].quantity;
    assert x'.lines[i].received != x'.lines[i].quantity;
  }

  /** A change to one purchase that keeps its parts, quantities, receipts and invoice. */
  lemma SameGoods(b: Books, p: nat, x': Purchase)
    requires GoodsOk(b) && p < |b.purchases| && PurchaseOk(p, x', b.lots)
    requires |x'.lines| == |b.purchases[p].lines|
    requires forall i :: 0 <= i < |x'.lines| ==> x'.lines[i].part == b.purchases[p].lines[i].part
    requires x'.invoice.Some? ==> b.purchases[p].invoice.Some? && x'.lines == b.purchases[p].lines
    ensures GoodsOk(b.(purchases := b.purchases[p := x']))
  {
    forall k | 0 <= k < |b.lots| ensures LotOk(b.lots[k], b.purchases[p := x']) {
      assert LotOk(b.lots[k], b.purchases);
      LineOfSameParts(b.purchases[p].lines, x'.lines, b.lots[k].part);
    }
  }

  lemma UpdateStatusKeepsGoods(b: Books, p: nat, to: Status, quotes: seq<Quote>, warehouse: bool)
    requires GoodsOk(b)
    ensures var r := UpdateStatus(b, p, to, quotes, warehouse); r.Ok? ==> GoodsOk(r.books)
  {
    var r := UpdateStatus(b, p, to, quotes, warehouse);
    if r.Ok? && to != b.purchases[p].status {
      var x := b.purchases[p];
      var x' := r.books.purchases[p];
      assert PurchaseOk(p, x, b.lots);
      if to == Recibida {
        MissingCompletes(p, x, b.lots);
        DeliveryKeepsGoods(b, p, Nonzero(Missing(x.lines)), x');
      } else {
        StatusChangeKeepsPurchase(p, x, x', b.lots);
        SameGoods(b, p, x');
      }
    }
  }

  lemma TransferKeepsGoods(b: Books, origin: nat, quantity: nat)
    requires GoodsOk(b)
    ensures var r := TransferLot(b, origin, quantity); r.Ok? ==> GoodsOk(r.books)
  {
    var r := TransferLot(b, origin, quantity);
    if r.Ok? {
      var more := [r.books.lots[|b.lots|]];
      assert r.books.lots == b.lots + more;
      assert LotOk(b.lots[origin], b.purchases);
      forall q | 0 <= q < |b.purchases| ensures PurchaseOk(q, b.purchases[q], r.books.lots) {
        UnaffectedPurchase(q, b.purchases[q], b.lots, more);
      }
    }
  }

  /* ---- reconciliation ---- */

  lemma {:induction false} DirectStockIgnoresCost(a: seq<Lot>, b: seq<Lot>, p: nat, part: nat)
    requires |a| == |b| && forall k :: 0 <= k < |a| ==> b[k] == a[k].(unitCost := b[k].unitCost)
    ensures DirectStock(a, p, part) == DirectStock(b, p, part)
  {
    if a != [] { DirectStockIgnoresCost(a[..|a| - 1], b[..|b| - 1], p, part); }
  }

  lemma RecostKeepsLine(q: nat, line: Line, line': Line, lots: seq<Lot>, lots': seq<Lot>)
    requires LineOk(q, line, lots) && line' == line.(invoicedCost := line'.invoicedCost)
    requires |lots'| == |lots| && forall k :: 0 <= k < |lots| ==> lots'[k] == lots[k].(unitCost := lots'[k].unitCost)
    ensures LineOk(q, line', lots')
  {
    DirectStockIgnoresCost(lots, lots', q, line.part);
    forall r | r in line'.receipts ensures ReceiptOk(q, line'.part, r, lots') {
      assert ReceiptOk(q, line.part, r, lots);
    }
  }

  lemma ReceivedWhenComplete(p: nat, x: Purchase, lots: seq<Lot>)
    requires PurchaseOk(p, x, lots) && (x.status == Recibida || x.status == Conciliada)
    ensures AllReceived(x.lines)
  {
  }

  lemma RecostKeepsLot(b: Books, p: nat, input: InvoiceInput, k: nat)
    requires GoodsOk(b) && Reconcile(b, p, input).Ok? && k < |b.lots|
    ensures var b' := Reconcile(b, p, input).books; LotOk(b'.lots[k], b'.purchases)
  {
    hide PurchaseOk, Subtotal, Iva, CoversLines;
    assert LotOk(b.lots[k], b.purchases);
    LineOfSameParts(b.purchases[p].lines, InvoicedLines(b.purchases[p].lines, input.lines), b.lots[k].part);
  }

  lemma RecostKeepsPurchase(q: nat, x: Purchase, x': Purchase, lots: seq<Lot>, lots': seq<Lot>)
    requires PurchaseOk(q, x, lots) && |x'.lines| == |x.lines|
    requires forall i :: 0 <= i < |x.lines| ==> x'.lines[i] == x.lines[i].(invoicedCost := x'.lines[i].invoicedCost)
    requires x' == x || (AllReceived(x.lines) && x'.status == Conciliada && x'.invoice.Some?
      && forall i :: 0 <= i < |x.lines| ==> x'.lines[i].invoicedCost.Some?)
    requires |lots'| == |lots| && forall k :: 0 <= k < |lots| ==> lots'[k] == lots[k].(unitCost := lots'[k].unitCost)
    ensures PurchaseOk(q, x', lots')
  {
    hide LineOk;
    forall i | 0 <= i < |x.lines| ensures LineOk(q, x'.lines[i], lots') {
      RecostKeepsLine(q, x.lines[i], x'.lines[i], lots, lots');
    }
  }

  lemma ReconcileKeepsGoods(b: Books, p: nat, input: InvoiceInput)
    requires GoodsOk(b)
    ensures var r := Reconcile(b, p, input); r.Ok? ==> GoodsOk(r.books)
  {
    var r := Reconcile(b, p, input);
    if r.Ok? {
      hide PurchaseOk, LotOk, Subtotal, Iva, CoversLines;
      var lots' := r.books.lots;
      ReceivedWhenComplete(p, b.purchases[p], b.lots);
      forall q | 0 <= q < |b.purchases| ensures PurchaseOk(q, r.books.purchases[q], lots') {
        assert PurchaseOk(q, b.purchases[q], b.lots);
        RecostKeepsPurchase(q, b.purchases[q], r.books.purchases[q], b.lots, lots');
      }
      forall k | 0 <= k < |lots'| ensures LotOk(lots'[k], r.books.purchases) {
        RecostKeepsLot(b, p, input, k);
      }
    }
  }

  /** The value of the receipt lots of one line. */
  function ReceiptValue(receipts: seq<Receipt>, lots: seq<Lot>): Cents
    requires forall r :: r in receipts ==> r.lot < |lots|
  {
    if receipts == [] then 0
    else
      var r := receipts[|receipts| - 1];
      assert r in receipts;
      assert forall s :: s in receipts[..|receipts| - 1] ==> s in receipts;
      ReceiptValue(receipts[..|receipts| - 1], lots) + r.quantity * lots[r.lot].unitCost
  }

  /** The value of the receipt lots of the first `n` lines. */
  function StockValue(lines: seq<Line>, lots: seq<Lot>, n: nat): Cents
    requires n <= |lines|
    requires forall i, r :: 0 <= i < n && r in lines[i].receipts ==> r.lot < |lots|
  {
    if n == 0 then 0 else StockValue(lines, lots, n - 1) + ReceiptValue(lines[n - 1].receipts, lots)
  }

  lemma {:induction false} UniformReceipts(receipts: seq<Receipt>, lots: seq<Lot>, cost: Cents)
    requires forall r :: r in receipts ==> r.lot < |lots| && lots[r.lot].unitCost == cost
    ensures ReceiptValue(receipts, lots) == ReceiptTotal(receipts) * cost
  {
    if receipts != [] {
      var n := |receipts| - 1;
      assert receipts[n] in receipts;
      assert forall s :: s in receipts[..n] ==> s in receipts;
      UniformReceipts(receipts[..n], lots, cost);
      assert ReceiptTotal(receipts) * cost == ReceiptTotal(receipts[..n]) * cost + receipts[n].quantity * cost;
    }
  }

  lemma {:induction false} StockValueIsSubtotal(p: nat, lines: seq<Line>, lots: seq<Lot>, items: seq<InvoicedLine>,
                                                n: nat)
    requires n <= |lines|
    requires forall i :: 0 <= i < |lines| ==> LineOk(p, lines[i], lots)
    requires forall i, r :: 0 <= i < |lines| && r in lines[i].receipts ==>
      r.lot < |lots| && lots[r.lot].unitCost == InvoicedCost(items, i)
    ensures StockValue(lines, lots, n) == Subtotal(lines, items, n)
  {
    if n > 0 {
      StockValueIsSubtotal(p, lines, lots, items, n - 1);
      UniformReceipts(lines[n - 1].receipts, lots, InvoicedCost(items, n - 1));
    }
  }

  lemma {:induction false} SubtotalIgnoresCost(lines: seq<Line>, items: seq<InvoicedLine>, n: nat)
    requires n <= |lines|
    ensures Subtotal(InvoicedLines(lines, items), items, n) == Subtotal(lines, items, n)
  {
    if n > 0 { SubtotalIgnoresCost(lines, items, n - 1); }
  }

  /**
    Main result: reconciliation conserves value.  The lots of the purchase, at their
    rewritten costs, are worth the invoice subtotal; the invoice total is that value
    plus its half-up IVA; every lot of the purchase, transferred or not, carries the
    invoiced cost of its part; and the lots of other purchases keep theirs.
   */
  lemma ReconciliationConservesValue(b: Books, p: nat, input: InvoiceInput)
    requires GoodsOk(b) && Reconcile(b, p, input).Ok?
    ensures
      var b' := Reconcile(b, p, input).books;
      var x' := b'.purchases[p];
      && (forall i :: 0 <= i < |x'.lines| ==> LineOk(p, x'.lines[i], b'.lots))
      && (forall i, r :: 0 <= i < |x'.lines| && r in x'.lines[i].receipts ==> r.lot < |b'.lots|)
      && x'.invoice.value.total ==
        StockValue(x'.lines, b'.lots, |x'.lines|) + Iva(StockValue(x'.lines, b'.lots, |x'.lines|), input.iva)
      && (forall k :: 0 <= k < |b'.lots| && b'.lots[k].purchase == Some(p) ==>
            LineOf(x'.lines, b'.lots[k].part).Some?
            && Some(b'.lots[k].unitCost) == x'.lines[LineOf(x'.lines, b'.lots[k].part).value].invoicedCost)
      && (forall k :: 0 <= k < |b'.lots| && b'.lots[k].purchase != Some(p) ==> b'.lots[k] == b.lots[k])
  {
    ReconcileKeepsGoods(b, p, input);
    var b' := Reconcile(b, p, input).books;
    var x, x' := b.purchases[p], b'.purchases[p];
    assert PurchaseOk(p, x', b'.lots);
    forall i, r | 0 <= i < |x'.lines| && r in x'.lines[i].receipts
      ensures r.lot < |b'.lots| && b'.lots[r.lot].unitCost == InvoicedCost(input.lines, i)
    {
      assert LineOk(p, x'.lines[i], b'.lots) && ReceiptOk(p, x'.lines[i].part, r, b'.lots);
      assert LotOk(b'.lots[r.lot], b'.purchases);
      LineOfFinds(x'.lines, i);
    }
    StockValueIsSubtotal(p, x'.lines, b'.lots, input.lines, |x'.lines|);
    SubtotalIgnoresCost(x.lines, input.lines, |x.lines|);
    forall k | 0 <= k < |b'.lots| && b'.lots[k].purchase == Some(p)
      ensures LineOf(x'.lines, b'.lots[k].part).Some?
      ensures Some(b'.lots[k].unitCost) == x'.lines[LineOf(x'.lines, b'.lots[k].part).value].invoicedCost
    {
      assert LotOk(b'.lots[k], b'.purchases);
    }
  }

  /* ---- payments move no goods ---- */

  lemma PaymentsKeepGoods(b: Books, b': Books)
    requires GoodsOk(b) && b'.lots == b.lots && |b'.purchases| == |b.purchases|
    requires forall p :: 0 <= p < |b.purchases| ==>
      && b'.purchases[p].lines == b.purchases[p].lines && b'.purchases[p].status == b.purchases[p].status
      && b'.purchases[p].invoice == b.purchases[p].invoice
    ensures GoodsOk(b')
  {
    forall k | 0 <= k < |b.lots| ensures LotOk(b.lots[k], b'.purchases) {
      assert LotOk(b.lots[k], b.purchases);
    }
    forall p | 0 <= p < |b.purchases| ensures PurchaseOk(p, b'.purchases[p], b'.lots) {
      assert PurchaseOk(p, b.purchases[p], b.lots);
    }
  }
}

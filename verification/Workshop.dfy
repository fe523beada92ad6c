/**
  How the workshop department of the profit report is computed: dictionaries of costs per
  dispatched line and per order, filled in loops, then summed by bucket.
 */
module Workshop {
  import opened Profitability

  /* ---- dictionaries of running totals, in insertion order ---- */

  type Totals = seq<(nat, real)>

  /** `d.get(k, 0.0)`. */
  function Get(d: Totals, k: nat): real {
    if d == [] then 0.0 else if d[0].0 == k then d[0].1 else Get(d[1..], k)
  }

  /** `d[k] = d.get(k, 0.0) + v`. */
  function AddTo(d: Totals, k: nat, v: real): Totals {
    if d == [] then [(k, v)]
    else if d[0].0 == k then [(k, d[0].1 + v)] + d[1..]
    else [d[0]] + AddTo(d[1..], k, v)
  }

  /** The sum of the values whose key satisfies `p`. */
  function SumWhere(d: Totals, p: nat -> bool): real {
    if d == [] then 0.0 else (if p(d[0].0) then d[0].1 else 0.0) + SumWhere(d[1..], p)
  }

  lemma {:induction false} AddToGet(d: Totals, k: nat, v: real, j: nat)
    ensures Get(AddTo(d, k, v), j) == Get(d, j) + if j == k then v else 0.0
  {
    if d != [] && d[0].0 != k {
      AddToGet(d[1..], k, v, j);
      assert AddTo(d, k, v)[1..] == AddTo(d[1..], k, v);
    } else if d != [] {
      assert AddTo(d, k, v)[1..] == d[1..];
    }
  }

  lemma {:induction false} AddToSum(d: Totals, k: nat, v: real, p: nat -> bool)
    ensures SumWhere(AddTo(d, k, v), p) == SumWhere(d, p) + if p(k) then v else 0.0
  {
    if d != [] && d[0].0 != k {
      AddToSum(d[1..], k, v, p);
      assert AddTo(d, k, v)[1..] == AddTo(d[1..], k, v);
    } else if d != [] {
      assert AddTo(d, k, v)[1..] == d[1..];
    }
  }

  /* ---- the rows of the queries ---- */

  /** The invoices of the filiales. */
  function Chosen(invoices: seq<Invoice>, fs: seq<nat>): (r: seq<Invoice>)
    ensures forall i :: i in r <==> i in invoices && i.filial in fs
  {
    if invoices == [] then []
    else
      var n := |invoices| - 1;
      assert invoices == invoices[..n] + [invoices[n]];
      Chosen(invoices[..n], fs) + if invoices[n].filial in fs then [invoices[n]] else []
  }

  function Sum(rows: seq<Invoice>, value: Invoice -> real): real {
    if rows == [] then 0.0 else Sum(rows[..|rows| - 1], value) + value(rows[|rows| - 1])
  }

  lemma SumAppend(rows: seq<Invoice>, i: Invoice, value: Invoice -> real)
    ensures Sum(rows + [i], value) == Sum(rows, value) + value(i)
  {
    assert (rows + [i])[..|rows|] == rows;
  }

  lemma ChosenStep(invoices: seq<Invoice>, fs: seq<nat>)
    requires invoices != []
    ensures
      var n := |invoices| - 1;
      Chosen(invoices, fs) ==
      if invoices[n].filial in fs then Chosen(invoices[..n], fs) + [invoices[n]] else Chosen(invoices[..n], fs)
  {
    var n := |invoices| - 1;
    assert Chosen(invoices[..n], fs) + [] == Chosen(invoices[..n], fs);
  }

  lemma {:induction false} SumOfChosen(invoices: seq<Invoice>, fs: seq<nat>, value: Invoice -> real)
    ensures Sum(Chosen(invoices, fs), value) == SumIn(invoices, fs, InvoiceFilial, value)
  {
    if invoices == [] {
      assert Chosen(invoices, fs) == [];
    } else {
      hide Chosen, Sum;
      var n := |invoices| - 1;
      SumOfChosen(invoices[..n], fs, value);
      ChosenStep(invoices, fs);
      SumAppend(Chosen(invoices[..n], fs), invoices[n], value);
    }
  }

  predicate OrdersDistinct(invoices: seq<Invoice>) {
    forall i, j :: 0 <= i < j < |invoices| ==> invoices[i].order != invoices[j].order
  }

  lemma {:induction false} ChosenDistinct(invoices: seq<Invoice>, fs: seq<nat>)
    requires OrdersDistinct(invoices)
    ensures OrdersDistinct(Chosen(invoices, fs))
  {
    if invoices != [] {
      var n := |invoices| - 1;
      ChosenDistinct(invoices[..n], fs);
      forall i | i in Chosen(invoices[..n], fs) ensures i.order != invoices[n].order {
        assert i in invoices[..n];
      }
    }
  }

  lemma SameInvoice(invoices: seq<Invoice>, i: Invoice, j: Invoice)
    requires OrdersDistinct(invoices) && i in invoices && j in invoices && i.order == j.order
    ensures i == j
  {
  }

  /** The orders of the invoices, with a breakdown or all. */
  predicate IsStructured(pairs: seq<Invoice>, order: nat) {
    exists i :: i in pairs && i.order == order && i.breakdown.Some?
  }

  predicate IsInvoiced(pairs: seq<Invoice>, order: nat) {
    exists i :: i in pairs && i.order == order
  }

  /** Cost of the dispatched lines of the invoiced orders that satisfy `p`. */
  function CostWhere(t: Tables, pairs: seq<Invoice>, p: nat -> bool, n: nat): real
    requires n <= |t.dispatched|
  {
    if n == 0 then 0.0
    else
      var l := t.dispatched[n - 1];
      CostWhere(t, pairs, p, n - 1)
      + if l.deducted && IsInvoiced(pairs, l.order) && p(l.order) then LineCost(t.allocations, l) else 0.0
  }

  /** An order's own cost: its dispatched lines, whoever pays for them. */
  function OrderCost(t: Tables, pairs: seq<Invoice>, order: nat): real {
    CostWhere(t, pairs, (o: nat) => o == order, |t.dispatched|)
  }

  /** What an order is measured against: its parts when the invoice has a breakdown, else its total. */
  function Revenue(i: Invoice): real { if i.breakdown.Some? then i.breakdown.value.parts else i.total }

  /** The orders that lose money on their own, in the order of the invoices. */
  function Losses(t: Tables, pairs: seq<Invoice>, n: nat): seq<nat>
    requires n <= |pairs|
  {
    if n == 0 then []
    else
      Losses(t, pairs, n - 1)
      + if Revenue(pairs[n - 1]) - OrderCost(t, pairs, pairs[n - 1].order) < 0.0 then [pairs[n - 1].order] else []
  }

  /* ---- the loops ---- */

  /** Cost per line from its lots. */
  method CostByLine(allocations: seq<Allocation>) returns (d: Totals)
    ensures forall l :: Get(d, l) == Allocated(allocations, l)
  {
    d := [];
    for i := 0 to |allocations|
      invariant forall l :: Get(d, l) == Allocated(allocations[..i], l)
    {
      var a := allocations[i];
      assert allocations[..i + 1][..i] == allocations[..i];
      ghost var before := d;
      d := AddTo(d, a.line, a.quantity * a.unitCost);
      forall l ensures Get(d, l) == Allocated(allocations[..i + 1], l) {
        AddToGet(before, a.line, a.quantity * a.unitCost, l);
      }
    }
    assert allocations[..|allocations|] == allocations;
  }

  /** Cost per order, over the dispatched lines of the invoiced orders. */
  method CostByOrder(t: Tables, pairs: seq<Invoice>, p: nat -> bool, q: nat -> bool) returns (d: Totals)
    ensures forall o :: Get(d, o) == OrderCost(t, pairs, o)
    ensures SumWhere(d, p) == CostWhere(t, pairs, p, |t.dispatched|)
    ensures SumWhere(d, q) == CostWhere(t, pairs, q, |t.dispatched|)
  {
    var byLine := CostByLine(t.allocations);
    d := [];
    for i := 0 to |t.dispatched|
      invariant forall o :: Get(d, o) == CostWhere(t, pairs, (x: nat) => x == o, i)
      invariant SumWhere(d, p) == CostWhere(t, pairs, p, i)
      invariant SumWhere(d, q) == CostWhere(t, pairs, q, i)
    {
      var line := t.dispatched[i];
      if line.deducted && IsInvoiced(pairs, line.order) {
        var cost := Get(byLine, line.id);
        cost := if cost > 0.0 then cost else line.recorded;
        assert cost == LineCost(t.allocations, line);
        forall o ensures Get(AddTo(d, line.order, cost), o) == CostWhere(t, pairs, (x: nat) => x == o, i + 1) {
          AddToGet(d, line.order, cost, o);
        }
        AddToSum(d, line.order, cost, p);
        AddToSum(d, line.order, cost, q);
        d := AddTo(d, line.order, cost);
      }
    }
  }

  /** The orders with a breakdown, and the sales of both buckets. */
  method Sales(pairs: seq<Invoice>) returns (structured: set<nat>, labor: real, parts: real)
    requires OrdersDistinct(pairs)
    ensures forall o :: o in structured <==> IsStructured(pairs, o)
    ensures labor == Sum(pairs, LaborNet) && parts == Sum(pairs, PartsNet)
  {
    structured, labor, parts := {}, 0.0, 0.0;
    for i := 0 to |pairs|
      invariant forall o :: o in structured <==> IsStructured(pairs[..i], o)
      invariant labor == Sum(pairs[..i], LaborNet) && parts == Sum(pairs[..i], PartsNet)
    {
      var invoice := pairs[i];
      assert pairs[..i + 1] == pairs[..i] + [invoice] && pairs[..i + 1][..i] == pairs[..i];
      if invoice.breakdown.Some? {
        structured := structured + {invoice.order};
        parts := parts + invoice.breakdown.value.parts;
        labor := labor + invoice.breakdown.value.labor;
      } else {
        labor := labor + invoice.total;
      }
    }
    assert pairs[..|pairs|] == pairs;
  }

  function In(s: set<nat>): nat -> bool { (o: nat) => o in s }

  function NotIn(s: set<nat>): nat -> bool { (o: nat) => o !in s }

  lemma LineInBucket(t: Tables, fs: seq<nat>, l: DispatchLine)
    requires TablesOk(t)
    ensures
      var pairs, i := Chosen(t.invoices, fs), InvoiceOf(t.invoices, l.order);
      && (IsInvoiced(pairs, l.order) <==> i.Some? && i.value.filial in fs)
      && (i.Some? && i.value.filial in fs ==> (IsStructured(pairs, l.order) <==> i.value.breakdown.Some?))
  {
    var pairs, i := Chosen(t.invoices, fs), InvoiceOf(t.invoices, l.order);
    if i.Some? {
      forall j | j in pairs && j.order == l.order ensures j == i.value { SameInvoice(t.invoices, i.value, j); }
      assert i.value.filial in fs ==> i.value in pairs;
    }
  }

  lemma {:induction false} BucketIsShare(t: Tables, fs: seq<nat>, p: nat -> bool, structured: bool, n: nat)
    requires TablesOk(t) && n <= |t.dispatched|
    requires forall o :: p(o) <==> IsStructured(Chosen(t.invoices, fs), o) == structured
    ensures CostWhere(t, Chosen(t.invoices, fs), p, n) ==
      SumIn(t.dispatched[..n], fs, LineFilial(t.invoices), LineShare(t.invoices, t.allocations, structured))
  {
    if n > 0 {
      BucketIsShare(t, fs, p, structured, n - 1);
      assert t.dispatched[..n][..n - 1] == t.dispatched[..n - 1];
      LineInBucket(t, fs, t.dispatched[n - 1]);
      hide Chosen, InvoiceOf, IsStructured, IsInvoiced, LineCost;
    }
  }

  lemma BucketsMatch(t: Tables, fs: seq<nat>, structured: set<nat>)
    requires TablesOk(t) && forall o :: o in structured <==> IsStructured(Chosen(t.invoices, fs), o)
    ensures
      var pairs, n := Chosen(t.invoices, fs), |t.dispatched|;
      && WorkshopRow(t, fs) == Row(Sum(pairs, LaborNet), CostWhere(t, pairs, NotIn(structured), n))
      && WorkshopPartsRow(t, fs) == Row(Sum(pairs, PartsNet), CostWhere(t, pairs, In(structured), n))
  {
    hide Sum, SumIn, CostWhere, Chosen, IsStructured;
    SumOfChosen(t.invoices, fs, LaborNet);
    SumOfChosen(t.invoices, fs, PartsNet);
    BucketIsShare(t, fs, In(structured), true, |t.dispatched|);
    BucketIsShare(t, fs, NotIn(structured), false, |t.dispatched|);
    assert t.dispatched[..|t.dispatched|] == t.dispatched;
  }

  /** `_taller_department`: the labour row, the orders that lose money, and the workshop's parts row. */
  method Department(t: Tables, fs: seq<nat>) returns (labor: Row, losses: seq<nat>, parts: Row)
    requires TablesOk(t)
    ensures labor == WorkshopRow(t, fs) && parts == WorkshopPartsRow(t, fs)
    ensures losses == Losses(t, Chosen(t.invoices, fs), |Chosen(t.invoices, fs)|)
  {
    hide Chosen, Sum, SumIn, IsStructured, CostWhere, SumWhere, Get, LineShare, LineFilial;
    var pairs := Chosen(t.invoices, fs);
    ChosenDistinct(t.invoices, fs);
    var structured, laborSales, partsSales := Sales(pairs);
    var costs := CostByOrder(t, pairs, In(structured), NotIn(structured));
    var partsCost := SumWhere(costs, In(structured));
    var directCost := SumWhere(costs, NotIn(structured));
    losses := [];
    for i := 0 to |pairs|
      invariant losses == Losses(t, pairs, i)
    {
      if Revenue(pairs[i]) - Get(costs, pairs[i].order) < 0.0 {
        losses := losses + [pairs[i].order];
      }
    }
    BucketsMatch(t, fs, structured);
    labor, parts := Row(laborSales, directCost), Row(partsSales, partsCost);
  }

  /* ---- the buckets are the shares of the report ---- */

  /** Labour and parts share out every invoice: the breakdown's two parts, or the whole total. */
  lemma {:induction false} SalesAreSplit(pairs: seq<Invoice>)
    ensures Sum(pairs, LaborNet) + Sum(pairs, PartsNet) ==
            Sum(pairs, (i: Invoice) =>
              if i.breakdown.Some? then i.breakdown.value.labor + i.breakdown.value.parts else i.total)
  {
    if pairs != [] { SalesAreSplit(pairs[..|pairs| - 1]); }
  }

  function OrderCosts(t: Tables, pairs: seq<Invoice>, m: nat): real
    requires m <= |pairs|
  {
    if m == 0 then 0.0 else OrderCosts(t, pairs, m - 1) + OrderCost(t, pairs, pairs[m - 1].order)
  }

  lemma {:induction false} NoCost(t: Tables, pairs: seq<Invoice>, p: nat -> bool, n: nat)
    requires n <= |t.dispatched| && forall o :: !p(o)
    ensures CostWhere(t, pairs, p, n) == 0.0
  {
    if n > 0 { NoCost(t, pairs, p, n - 1); }
  }

  lemma {:induction false} AddOrder(t: Tables, pairs: seq<Invoice>, m: nat, n: nat)
    requires OrdersDistinct(pairs) && 0 < m <= |pairs| && n <= |t.dispatched|
    ensures CostWhere(t, pairs, (o: nat) => IsInvoiced(pairs[..m], o), n) ==
            CostWhere(t, pairs, (o: nat) => IsInvoiced(pairs[..m - 1], o), n)
            + CostWhere(t, pairs, (o: nat) => o == pairs[m - 1].order, n)
  {
    if n > 0 {
      AddOrder(t, pairs, m, n - 1);
      var o := t.dispatched[n - 1].order;
      assert pairs[..m] == pairs[..m - 1] + [pairs[m - 1]];
      hide LineCost;
    }
  }

  /** The cost of a department is the sum of its orders' own costs. */
  lemma {:induction false} OrdersAddUp(t: Tables, pairs: seq<Invoice>, m: nat)
    requires OrdersDistinct(pairs) && m <= |pairs|
    ensures OrderCosts(t, pairs, m) == CostWhere(t, pairs, (o: nat) => IsInvoiced(pairs[..m], o), |t.dispatched|)
  {
    if m == 0 {
      NoCost(t, pairs, (o: nat) => IsInvoiced(pairs[..0], o), |t.dispatched|);
    } else {
      OrdersAddUp(t, pairs, m - 1);
      AddOrder(t, pairs, m, |t.dispatched|);
    }
  }

  lemma {:induction false} CostsJoin(t: Tables, pairs: seq<Invoice>, p: nat -> bool, q: nat -> bool, r: nat -> bool,
                                     n: nat)
    requires n <= |t.dispatched|
    requires forall o :: IsInvoiced(pairs, o) ==> r(o) && (p(o) <==> !q(o))
    ensures CostWhere(t, pairs, p, n) + CostWhere(t, pairs, q, n) == CostWhere(t, pairs, r, n)
  {
    if n > 0 { CostsJoin(t, pairs, p, q, r, n - 1); }
  }

  /**
    Main result: the two buckets of the workshop, labour and parts, share out the cost of
    the invoiced orders exactly: together they are the sum of the orders' own costs.
   */
  lemma BucketsShareOutOrders(t: Tables, fs: seq<nat>)
    requires TablesOk(t)
    ensures
      var pairs := Chosen(t.invoices, fs);
      WorkshopRow(t, fs).cost + WorkshopPartsRow(t, fs).cost == OrderCosts(t, pairs, |pairs|)
  {
    var pairs, n := Chosen(t.invoices, fs), |t.dispatched|;
    var p, q := (o: nat) => IsStructured(pairs, o), (o: nat) => !IsStructured(pairs, o);
    hide Chosen, SumIn, CostWhere, IsStructured;
    BucketIsShare(t, fs, p, true, n);
    BucketIsShare(t, fs, q, false, n);
    assert t.dispatched[..n] == t.dispatched && pairs[..|pairs|] == pairs;
    ChosenDistinct(t.invoices, fs);
    OrdersAddUp(t, pairs, |pairs|);
    CostsJoin(t, pairs, p, q, (o: nat) => IsInvoiced(pairs[..|pairs|], o), n);
  }
}

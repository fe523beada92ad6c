/**
  Maintenance plans (`app/modules/clients/service.py`): adding calendar months to a date,
  and the status of every entry of a vehicle's plan.
 */
module MaintenancePlan {
  import opened Prelude

  /* ---- calendar months ---- */

  datatype Date = Date(year: int, month: int, day: int)

  const MAX_YEAR := 9999

  predicate Leap(year: int) { year % 4 == 0 && (year % 100 != 0 || year % 400 == 0) }

  function DaysIn(year: int, month: int): (d: int)
    ensures 28 <= d <= 31
  {
    if month == 2 then (if Leap(year) then 29 else 28)
    else if month == 4 || month == 6 || month == 9 || month == 11 then 30
    else 31
  }

  predicate ValidDate(d: Date) {
    1 <= d.year <= MAX_YEAR && 1 <= d.month <= 12 && 1 <= d.day <= DaysIn(d.year, d.month)
  }

  /** Strictly earlier in the calendar. */
  predicate Before(a: Date, b: Date) {
    a.year < b.year || (a.year == b.year && (a.month < b.month || (a.month == b.month && a.day < b.day)))
  }

  /** Months since year zero. */
  function MonthIndex(d: Date): int { 12 * d.year + d.month - 1 }

  /** `_add_months`; `date()` raises past the year 9999. */
  function AddMonths(base: Date, months: nat): Option<Date>
    requires ValidDate(base)
  {
    var total := base.month - 1 + months;
    var year := base.year + total / 12;
    var month := total % 12 + 1;
    if year > MAX_YEAR then None else Some(Date(year, month, Min(base.day, DaysIn(year, month))))
  }

  /** The result is a real date, exactly that many months on, on the same day or the last of the month. */
  lemma AddMonthsIsExact(base: Date, months: nat)
    requires ValidDate(base)
    ensures AddMonths(base, months).None? <==> MonthIndex(base) + months >= 12 * (MAX_YEAR + 1)
    ensures
      var r := AddMonths(base, months);
      r.Some? ==>
        && ValidDate(r.value) && MonthIndex(r.value) == MonthIndex(base) + months
        && r.value.day <= base.day
        && (r.value.day < base.day ==> r.value.day == DaysIn(r.value.year, r.value.month))
  {
    var total := base.month - 1 + months;
    assert total == 12 * (total / 12) + total % 12;
  }

  lemma MonthsDecideFirst(a: Date, b: Date)
    requires 1 <= a.month <= 12 && 1 <= b.month <= 12
    ensures MonthIndex(a) < MonthIndex(b) ==> Before(a, b)
    ensures MonthIndex(a) == MonthIndex(b) <==> a.year == b.year && a.month == b.month
  {
  }

  /** More months is always a strictly later date. */
  lemma AddMonthsIsMonotone(base: Date, m: nat, n: nat)
    requires ValidDate(base) && m < n && AddMonths(base, n).Some?
    ensures AddMonths(base, m).Some? && Before(AddMonths(base, m).value, AddMonths(base, n).value)
  {
    AddMonthsIsExact(base, m);
    AddMonthsIsExact(base, n);
    MonthsDecideFirst(AddMonths(base, m).value, AddMonths(base, n).value);
  }

  /** A later start never gives an earlier date. */
  lemma AddMonthsKeepsOrder(a: Date, b: Date, n: nat)
    requires ValidDate(a) && ValidDate(b) && !Before(b, a) && AddMonths(b, n).Some?
    ensures AddMonths(a, n).Some? && !Before(AddMonths(b, n).value, AddMonths(a, n).value)
  {
    AddMonthsIsExact(a, n);
    AddMonthsIsExact(b, n);
    MonthsDecideFirst(a, b);
    MonthsDecideFirst(b, a);
    MonthsDecideFirst(AddMonths(a, n).value, AddMonths(b, n).value);
  }

  lemma LastDay(base: Date, n: nat)
    requires ValidDate(base) && AddMonths(base, n).Some?
    ensures var r := AddMonths(base, n).value; r.day == Min(base.day, DaysIn(r.year, r.month))
  {
  }

  /**
    Two steps never land later than one, and land on the same date exactly when the month
    in between is long enough for the final day.
   */
  lemma TwoSteps(base: Date, m: nat, n: nat)
    requires ValidDate(base) && AddMonths(base, m + n).Some?
    ensures
      var mid := AddMonths(base, m);
      mid.Some? && ValidDate(mid.value) &&
      var once, twice := AddMonths(base, m + n), AddMonths(mid.value, n);
      && twice.Some? && !Before(once.value, twice.value)
      && (once == twice <==> once.value.day <= DaysIn(mid.value.year, mid.value.month))
  {
    AddMonthsIsExact(base, m);
    AddMonthsIsExact(base, m + n);
    var mid := AddMonths(base, m).value;
    AddMonthsIsExact(mid, n);
    MonthsDecideFirst(AddMonths(base, m + n).value, AddMonths(mid, n).value);
    LastDay(base, m);
    LastDay(base, m + n);
    LastDay(mid, n);
  }

  /* ---- plan status ---- */

  datatype Entry = Entry(id: nat, tempario: nat, km: Option<nat>, months: Option<nat>)

  datatype Status = Cumplido | Omitido | Vencido | Pendiente

  /** A completed task of the vehicle's service orders. */
  datatype Completion = Completion(tempario: nat, sequence: nat, closed: Option<Date>)

  /** Where the vehicle stands. */
  datatype Reading = Reading(mileage: Option<int>, reference: Date, today: Date)

  const NO_INTERVAL := 1_000_000_000

  function Interval(x: Option<nat>): nat { if x.Some? then x.value else NO_INTERVAL }

  /** `a` may come before `b` in the plan: by kilometres, then by months. */
  predicate Ordered(a: Entry, b: Entry) {
    Interval(a.km) < Interval(b.km) || (Interval(a.km) == Interval(b.km) && Interval(a.months) <= Interval(b.months))
  }

  predicate InOrder(s: seq<Entry>) { forall i, j :: 0 <= i < j < |s| ==> Ordered(s[i], s[j]) }

  function Placed(e: Entry, s: seq<Entry>): seq<Entry> {
    if s == [] || Ordered(e, s[0]) then [e] + s else [s[0]] + Placed(e, s[1..])
  }

  /** `sorted(plan.entries, key=…)`. */
  function Sorted(s: seq<Entry>): seq<Entry> {
    if s == [] then [] else Placed(s[0], Sorted(s[1..]))
  }

  lemma FirstInOrder(e: Entry, s: seq<Entry>)
    requires InOrder(s) && forall x :: x in s ==> Ordered(e, x)
    ensures InOrder([e] + s)
  {
  }

  lemma {:induction false} PlacedInOrder(e: Entry, s: seq<Entry>)
    requires InOrder(s)
    ensures InOrder(Placed(e, s)) && multiset(Placed(e, s)) == multiset([e] + s)
  {
    if s != [] && !Ordered(e, s[0]) {
      PlacedInOrder(e, s[1..]);
      assert s == [s[0]] + s[1..];
      var r := Placed(e, s[1..]);
      hide Placed;
      forall x | x in r ensures Ordered(s[0], x) {
        assert x in multiset(r);
        assert x in [e] + s[1..];
      }
      FirstInOrder(s[0], r);
    }
  }

  lemma {:induction false} SortedInOrder(s: seq<Entry>)
    ensures InOrder(Sorted(s)) && multiset(Sorted(s)) == multiset(s)
  {
    if s != [] {
      SortedInOrder(s[1..]);
      PlacedInOrder(s[0], Sorted(s[1..]));
      assert s == [s[0]] + s[1..];
    }
  }

  /** The first row of a tempario; rows come newest first. */
  function Newest(rows: seq<Completion>, tempario: nat): Option<Completion> {
    if rows == [] then None
    else if rows[0].tempario == tempario then Some(rows[0])
    else Newest(rows[1..], tempario)
  }

  predicate Done(rows: seq<Completion>, e: Entry) { Newest(rows, e.tempario).Some? }

  predicate DoneAfter(entries: seq<Entry>, rows: seq<Completion>, i: nat) {
    exists j :: i < j < |entries| && Done(rows, entries[j])
  }

  predicate OverdueByKm(e: Entry, now: Reading) {
    e.km.Some? && now.mileage.Some? && now.mileage.value >= e.km.value
  }

  predicate OverdueByDate(e: Entry, now: Reading)
    requires ValidDate(now.reference)
  {
    && e.months.Some? && AddMonths(now.reference, e.months.value).Some?
    && !Before(now.today, AddMonths(now.reference, e.months.value).value)
  }

  /** The date of the entry is beyond the calendar, and computing it raises. */
  predicate OffCalendar(e: Entry, now: Reading)
    requires ValidDate(now.reference)
  {
    e.months.Some? && AddMonths(now.reference, e.months.value).None?
  }

  function StatusOf(entries: seq<Entry>, rows: seq<Completion>, now: Reading, i: nat): Status
    requires i < |entries| && ValidDate(now.reference)
  {
    if Done(rows, entries[i]) then Cumplido
    else if DoneAfter(entries, rows, i) then Omitido
    else if OverdueByKm(entries[i], now) || OverdueByDate(entries[i], now) then Vencido
    else Pendiente
  }

  /** Some entry whose date has to be computed is off the calendar. */
  predicate Raises(entries: seq<Entry>, rows: seq<Completion>, now: Reading)
    requires ValidDate(now.reference)
  {
    exists i: nat :: i < |entries| && !Done(rows, entries[i]) && !DoneAfter(entries, rows, i)
      && OffCalendar(entries[i], now)
  }

  /** One status per entry, in order. */
  predicate AllStatuses(statuses: seq<Status>, entries: seq<Entry>, rows: seq<Completion>, now: Reading)
    requires ValidDate(now.reference)
  {
    && |statuses| == |entries|
    && forall i :: 0 <= i < |entries| ==> statuses[i] == StatusOf(entries, rows, now, i)
  }

  /** The dictionary of the most recent completion of every tempario. */
  method Completions(rows: seq<Completion>) returns (latest: map<nat, Completion>)
    ensures forall t :: t in latest <==> Newest(rows, t).Some?
    ensures forall t :: t in latest ==> latest[t] == Newest(rows, t).value
  {
    latest := map[];
    for i := 0 to |rows|
      invariant forall t :: t in latest ==> Newest(rows, t) == Some(latest[t])
      invariant forall t :: t !in latest ==> Newest(rows, t) == Newest(rows[i..], t)
    {
      assert rows[i..][1..] == rows[i + 1..];
      if rows[i].tempario !in latest { latest := latest[rows[i].tempario := rows[i]]; }
    }
  }

  lemma FlagsAfter(entries: seq<Entry>, rows: seq<Completion>, flags: seq<bool>, i: nat)
    requires |flags| == |entries| && forall j :: 0 <= j < |entries| ==> flags[j] == Done(rows, entries[j])
    ensures DoneAfter(entries, rows, i) <==> exists j :: i < j < |flags| && flags[j]
  {
    if DoneAfter(entries, rows, i) {
      var j :| i < j < |entries| && Done(rows, entries[j]);
      assert flags[j];
    }
  }

  /** `get_vehicle_plan_status`: None when a date is off the calendar. */
  method PlanStatus(plan: seq<Entry>, rows: seq<Completion>, now: Reading) returns (result: Option<seq<Status>>)
    requires ValidDate(now.reference)
    ensures
      var entries := Sorted(plan);
      && (result.None? <==> Raises(entries, rows, now))
      && (result.Some? ==> AllStatuses(result.value, entries, rows, now))
  {
    var entries := Sorted(plan);
    var latest := Completions(rows);
    var flags := seq(|entries|, i requires 0 <= i < |entries| => entries[i].tempario in latest);
    assert forall j :: 0 <= j < |entries| ==> flags[j] == Done(rows, entries[j]);
    var statuses: seq<Status> := [];
    for i := 0 to |entries|
      invariant |statuses| == i
      invariant forall k :: 0 <= k < i ==> statuses[k] == StatusOf(entries, rows, now, k)
      invariant forall k: nat :: k < i && !Done(rows, entries[k]) && !DoneAfter(entries, rows, k) ==>
        !OffCalendar(entries[k], now)
    {
      var e := entries[i];
      var status;
      FlagsAfter(entries, rows, flags, i);
      if flags[i] {
        status := Cumplido;
      } else if exists j :: i < j < |flags| && flags[j] {
        status := Omitido;
      } else {
        if OffCalendar(e, now) { return None; }
        var overdueKm := e.km.Some? && now.mileage.Some? && now.mileage.value >= e.km.value;
        var overdueDate := e.months.Some? && !Before(now.today, AddMonths(now.reference, e.months.value).value);
        status := if overdueKm || overdueDate then Vencido else Pendiente;
      }
      statuses := statuses + [status];
    }
    return Some(statuses);
  }

  /* ---- what the statuses mean ---- */

  /** The last entry done, if any. */
  function LastDone(entries: seq<Entry>, rows: seq<Completion>, n: nat): (r: Option<nat>)
    requires n <= |entries|
    ensures r.None? <==> forall k :: 0 <= k < n ==> !Done(rows, entries[k])
    ensures r.Some? ==> r.value < n && Done(rows, entries[r.value])
    ensures r.Some? ==> forall k :: r.value < k < n ==> !Done(rows, entries[k])
  {
    if n == 0 then None
    else if Done(rows, entries[n - 1]) then Some(n - 1)
    else LastDone(entries, rows, n - 1)
  }

  /** Omitido appears exactly before, and Vencido and Pendiente exactly after, the last Cumplido. */
  lemma StatusesByPosition(entries: seq<Entry>, rows: seq<Completion>, now: Reading, i: nat)
    requires i < |entries| && ValidDate(now.reference)
    ensures
      var last, s := LastDone(entries, rows, |entries|), StatusOf(entries, rows, now, i);
      && (s == Omitido <==> last.Some? && i < last.value && !Done(rows, entries[i]))
      && (s == Vencido || s == Pendiente <==> last.None? || i > last.value)
      && (last.Some? ==> StatusOf(entries, rows, now, last.value) == Cumplido)
  {
    var last := LastDone(entries, rows, |entries|);
    if last.Some? && i < last.value { assert DoneAfter(entries, rows, i); }
  }

  /** Of two intervals in months, the longer is never due first. */
  lemma EarlierIntervalDue(a: Entry, b: Entry, now: Reading)
    requires ValidDate(now.reference) && Interval(a.months) <= Interval(b.months) && OverdueByDate(b, now)
    ensures OverdueByDate(a, now)
  {
    var due := AddMonths(now.reference, b.months.value);
    AddMonthsIsExact(now.reference, b.months.value);
    assert b.months.value < NO_INTERVAL;
    if a.months.value < b.months.value { AddMonthsIsMonotone(now.reference, a.months.value, b.months.value); }
  }

  /**
    In any plan, an entry not overdue comes before an overdue one exactly when: if the
    earlier gives kilometres, the later is overdue by its date only; if it does not, the
    later gives kilometres of a billion or more, past what a missing interval sorts as.
   */
  lemma OutOfOrderIff(entries: seq<Entry>, rows: seq<Completion>, now: Reading, i: nat, j: nat)
    requires InOrder(entries) && i < j < |entries| && ValidDate(now.reference)
    ensures
      && StatusOf(entries, rows, now, i) == Pendiente && StatusOf(entries, rows, now, j) == Vencido
      <==>
      && !Done(rows, entries[i]) && !DoneAfter(entries, rows, i)
      && !OverdueByKm(entries[i], now) && !OverdueByDate(entries[i], now)
      && if entries[i].km.Some? then !OverdueByKm(entries[j], now) && OverdueByDate(entries[j], now)
         else entries[j].km.Some? && NO_INTERVAL <= entries[j].km.value
              && (OverdueByKm(entries[j], now) || OverdueByDate(entries[j], now))
  {
    var a, b := entries[i], entries[j];
    assert Ordered(a, b);
    if !Done(rows, a) && !DoneAfter(entries, rows, i) {
      assert !Done(rows, b);
      assert !DoneAfter(entries, rows, j);
    }
    if a.km.None? && b.km.None? && OverdueByDate(b, now) { EarlierIntervalDue(a, b, now); }
  }

  /** So in plans by kilometres only, every Vencido comes before every Pendiente. */
  lemma KmPlansInOrder(plan: seq<Entry>, rows: seq<Completion>, now: Reading, i: nat, j: nat)
    requires ValidDate(now.reference) && i < |Sorted(plan)| && j < |Sorted(plan)|
    requires forall k :: 0 <= k < |plan| ==> plan[k].km.Some? && plan[k].months.None?
    requires StatusOf(Sorted(plan), rows, now, i) == Pendiente && StatusOf(Sorted(plan), rows, now, j) == Vencido
    ensures j < i
  {
    var entries := Sorted(plan);
    SortedInOrder(plan);
    forall k | 0 <= k < |entries| ensures entries[k].km.Some? && entries[k].months.None? {
      assert entries[k] in multiset(entries);
      assert entries[k] in plan;
    }
    if i < j { OutOfOrderIff(entries, rows, now, i, j); }
  }

  /** A plan that mixes dates can show them out of order. */
  lemma MixedPlanOutOfOrder()
    ensures
      var plan := [Entry(0, 0, Some(5000), None), Entry(1, 1, Some(10000), Some(6))];
      var now := Reading(Some(1000), Date(2024, 1, 1), Date(2024, 8, 1));
      && Sorted(plan) == plan
      && StatusOf(plan, [], now, 0) == Pendiente && StatusOf(plan, [], now, 1) == Vencido
  {
    var plan := [Entry(0, 0, Some(5000), None), Entry(1, 1, Some(10000), Some(6))];
    assert plan[1..] == [plan[1]] && plan[1..][1..] == [];
    assert Sorted(plan[1..]) == [plan[1]];
    var now := Reading(Some(1000), Date(2024, 1, 1), Date(2024, 8, 1));
    assert AddMonths(now.reference, 6) == Some(Date(2024, 7, 1));
  }

  /** The vehicle moved on: more kilometres, a later day. */
  predicate Later(a: Reading, b: Reading) {
    && a.reference == b.reference && !Before(b.today, a.today)
    && (a.mileage.Some? ==> b.mileage.Some? && a.mileage.value <= b.mileage.value)
  }

  /** With no new work done, time and distance only turn Pendiente into Vencido. */
  lemma OverdueStays(entries: seq<Entry>, rows: seq<Completion>, a: Reading, b: Reading, i: nat)
    requires i < |entries| && ValidDate(a.reference) && Later(a, b)
    ensures
      var before, after := StatusOf(entries, rows, a, i), StatusOf(entries, rows, b, i);
      before == after || (before == Pendiente && after == Vencido)
  {
    var e := entries[i];
    if OverdueByDate(e, a) {
      var due := AddMonths(a.reference, e.months.value).value;
      assert !Before(b.today, due);
    }
  }
}

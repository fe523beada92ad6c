/**
  What the status of every entry of a maintenance plan says, in completed tasks, kilometres
  and days.
 */
module MaintenanceAnswers {
  import opened Prelude
  import opened MaintenancePlan

  /** Some completed task is of the service of entry `i`. */
  predicate Performed(entries: seq<Entry>, rows: seq<Completion>, i: nat)
    requires i < |entries|
  {
    exists k :: 0 <= k < |rows| && rows[k].tempario == entries[i].tempario
  }

  predicate PerformedLater(entries: seq<Entry>, rows: seq<Completion>, i: nat) {
    exists j :: i < j < |entries| && Performed(entries, rows, j)
  }

  lemma {:induction false} NewestIsFirst(rows: seq<Completion>, t: nat)
    ensures Newest(rows, t).Some? <==> exists k :: 0 <= k < |rows| && rows[k].tempario == t
    ensures Newest(rows, t).Some? ==>
      exists k :: 0 <= k < |rows| && rows[k].tempario == t && Newest(rows, t) == Some(rows[k])
                  && forall m :: 0 <= m < k ==> rows[m].tempario != t
  {
    if rows != [] && rows[0].tempario != t {
      NewestIsFirst(rows[1..], t);
      if Newest(rows, t).Some? {
        var k :| 0 <= k < |rows[1..]| && rows[1..][k].tempario == t && Newest(rows[1..], t) == Some(rows[1..][k])
                 && forall m :: 0 <= m < k ==> rows[1..][m].tempario != t;
        forall m | 0 <= m < k + 1 ensures rows[m].tempario != t {
          if m > 0 { assert rows[m] == rows[1..][m - 1]; }
        }
        assert rows[k + 1] == rows[1..][k];
      }
      if k :| 0 <= k < |rows| && rows[k].tempario == t { assert rows[1..][k - 1] == rows[k]; }
    }
  }

  /** Months since year zero of a day's month. */
  function MonthOf(d: Date): int { d.year * 12 + d.month - 1 }

  /** No day of its month comes after this one, in the Gregorian calendar. */
  predicate EndsMonth(d: Date) {
    || d.day == 31
    || (d.day == 30 && d.month in {4, 6, 9, 11})
    || (d.month == 2 && (d.day == 29 || (d.day == 28 && (d.year % 4 != 0 || (d.year % 100 == 0 && d.year % 400 != 0)))))
  }

  /** A day of the calendar is followed by another of its month, or ends it. */
  lemma CalendarIsGregorian(d: Date)
    requires ValidDate(d)
    ensures EndsMonth(d) <==> !ValidDate(d.(day := d.day + 1))
    ensures ValidDate(d.(day := 1)) && ValidDate(d.(day := 28)) && !ValidDate(d.(day := 32))
  {
  }

  /**
    `today` has reached the day `months` after `reference`: its month is later, or it is that
    month and the same day of it, or the last.
   */
  predicate Reached(reference: Date, months: nat, today: Date) {
    || MonthOf(reference) + months < MonthOf(today)
    || (MonthOf(reference) + months == MonthOf(today)
        && (reference.day <= today.day || EndsMonth(today)))
  }

  lemma ReachedIs(reference: Date, months: nat, today: Date)
    requires ValidDate(reference) && ValidDate(today)
    ensures AddMonths(reference, months).Some? ==>
      (Reached(reference, months, today) <==> !Before(today, AddMonths(reference, months).value))
    ensures AddMonths(reference, months).None? ==> !Reached(reference, months, today)
  {
    AddMonthsIsExact(reference, months);
    CalendarIsGregorian(today);
    if AddMonths(reference, months).Some? {
      var due := AddMonths(reference, months).value;
      LastDay(reference, months);
      MonthsDecideFirst(today, due);
      MonthsDecideFirst(due, today);
    }
  }

  /** The vehicle has the kilometres of the entry, or the day of it has come. */
  predicate Overdue(e: Entry, now: Reading) {
    || (e.km.Some? && now.mileage.Some? && e.km.value <= now.mileage.value)
    || (e.months.Some? && Reached(now.reference, e.months.value, now.today))
  }

  /** Main result: what each status means. */
  lemma StatusMeaning(entries: seq<Entry>, rows: seq<Completion>, now: Reading, i: nat)
    requires i < |entries| && ValidDate(now.reference) && ValidDate(now.today)
    ensures match StatusOf(entries, rows, now, i)
      case Cumplido => Performed(entries, rows, i)
      case Omitido => !Performed(entries, rows, i) && PerformedLater(entries, rows, i)
      case Vencido =>
        !Performed(entries, rows, i) && !PerformedLater(entries, rows, i) && Overdue(entries[i], now)
      case Pendiente =>
        !Performed(entries, rows, i) && !PerformedLater(entries, rows, i) && !Overdue(entries[i], now)
  {
    forall j: nat | j < |entries| ensures Done(rows, entries[j]) <==> Performed(entries, rows, j) {
      NewestIsFirst(rows, entries[j].tempario);
    }
    if entries[i].months.Some? { ReachedIs(now.reference, entries[i].months.value, now.today); }
    hide Newest, Performed, Reached, AddMonths, Before;
  }

  /** The plan cannot be shown exactly when a date that is asked for lies past the year 9999. */
  lemma RaisesIff(entries: seq<Entry>, rows: seq<Completion>, now: Reading)
    requires ValidDate(now.reference)
    ensures Raises(entries, rows, now) <==>
      exists i: nat :: i < |entries| && !Performed(entries, rows, i) && !PerformedLater(entries, rows, i)
                       && entries[i].months.Some?
                       && MonthOf(now.reference) + entries[i].months.value >= 120000
  {
    forall j: nat | j < |entries|
      ensures Done(rows, entries[j]) <==> Performed(entries, rows, j)
      ensures OffCalendar(entries[j], now) <==>
        entries[j].months.Some? && MonthOf(now.reference) + entries[j].months.value >= 120000
    {
      NewestIsFirst(rows, entries[j].tempario);
      if entries[j].months.Some? { AddMonthsIsExact(now.reference, entries[j].months.value); }
    }
    hide Newest, Performed, AddMonths, Done, OffCalendar;
  }
}

/**
 What the hook promises: which constraints each event restriction adds,
 which it keeps, which window a demanded month or day denotes, and what
 the resulting query selects.
 */
module HookProperties {
  import opened Wrappers
  import opened Query
  import opened OrderedArray
  import opened Calendar
  import opened DateConstraint
  import opened Hooks

  /**
   Without events: exactly one constraint `isEvent == 0` is appended under
   the next integer key, and everything before it, the `datetime`
   constraint included, stays as it was.
   */
  lemma NoEventsAppendsOne(a: PhpArray, d: Demand, env: Environment)
    requires a.Valid()
    requires d.eventRestriction == EVENT_RESTRICTION_NO_EVENTS
    ensures Augment(a, d, env).entries == a.entries + [Entry(Index(a.nextIndex), Eq(IS_EVENT, 0))]
    ensures Augment(a, d, env).Lookup(Named(DATETIME)) == a.Lookup(Named(DATETIME))
  {
    AppendLookup(a, Eq(IS_EVENT, 0));
  }

  /** Any other event restriction leaves the constraints as they were. */
  lemma OtherRestrictionUnchanged(a: PhpArray, d: Demand, env: Environment)
    requires a.Valid()
    requires d.eventRestriction != EVENT_RESTRICTION_NO_EVENTS
    requires d.eventRestriction != EVENT_RESTRICTION_ONLY_EVENTS
    ensures Augment(a, d, env) == a
  {
  }

  /** The state after the reset of `datetime`, the event constraint and the date window. */
  lemma OnlyEventsSteps(a: PhpArray, d: Demand, env: Environment)
    requires a.Valid()
    ensures var reset := a.Unset(DATETIME);
      var marked := reset.Append(Eq(IS_EVENT, 1));
      reset.Lookup(Named(DATETIME)) == None &&
      marked.Lookup(Named(DATETIME)) == None &&
      marked.Lookup(Index(a.nextIndex)) == Some(Eq(IS_EVENT, 1)) &&
      marked.Values() == reset.Values() + [Eq(IS_EVENT, 1)] &&
      forall k | k != Named(DATETIME) && k != Index(a.nextIndex) :: marked.Lookup(k) == a.Lookup(k)
  {
    var reset := a.Unset(DATETIME);
    UnsetLookup(a, DATETIME);
    AppendLookup(reset, Eq(IS_EVENT, 1));
  }

  /**
   Only events: the `datetime` constraint is present afterwards exactly when
   a month and a year are demanded or a time restriction is, and it is then
   the disjunction of the date constraint over the demanded window; any
   earlier one is gone.
   */
  lemma OnlyEventsDatetime(a: PhpArray, d: Demand, env: Environment)
    requires a.Valid()
    requires d.eventRestriction == EVENT_RESTRICTION_ONLY_EVENTS
    ensures Augment(a, d, env).Lookup(Named(DATETIME)) ==
      match DateWindow(d, env)
      case Some((begin, end)) => Some(Or(GetDateConstraint(d.dateField, begin, end)))
      case None => None
    ensures Augment(a, d, env).Lookup(Named(DATETIME)).Some?
      <==> (d.month != 0 && d.year != 0) || Truthy(d.timeRestriction) || Truthy(d.timeRestrictionHigh)
  {
    var marked := a.Unset(DATETIME).Append(Eq(IS_EVENT, 1));
    OnlyEventsSteps(a, d, env);
    var dated := match DatetimeConstraint(d, env)
                 case Some(c) => marked.Put(DATETIME, c)
                 case None => marked;
    if DatetimeConstraint(d, env).Some? {
      PutLookup(marked, DATETIME, DatetimeConstraint(d, env).value);
    }
    AppendAllKeeps(dated, Filters(d, env), Named(DATETIME));
  }

  /**
   Only events: `isEvent == 1` is stored under the next integer key, and
   every other key that was in use keeps its constraint.
   */
  lemma OnlyEventsKeepsOthers(a: PhpArray, d: Demand, env: Environment, k: Key)
    requires a.Valid()
    requires d.eventRestriction == EVENT_RESTRICTION_ONLY_EVENTS
    requires k != Named(DATETIME)
    requires k.Index? ==> k.index < a.nextIndex
    ensures Augment(a, d, env).Lookup(Index(a.nextIndex)) == Some(Eq(IS_EVENT, 1))
    ensures Augment(a, d, env).Lookup(k) == a.Lookup(k)
  {
    var marked := a.Unset(DATETIME).Append(Eq(IS_EVENT, 1));
    OnlyEventsSteps(a, d, env);
    var dated := match DatetimeConstraint(d, env)
                 case Some(c) => marked.Put(DATETIME, c)
                 case None => marked;
    if DatetimeConstraint(d, env).Some? {
      PutLookup(marked, DATETIME, DatetimeConstraint(d, env).value);
    }
    AppendAllKeeps(dated, Filters(d, env), Index(a.nextIndex));
    AppendAllKeeps(dated, Filters(d, env), k);
  }

  /**
   Only events: the constraints are those kept after the reset, then
   `isEvent == 1`, then the `datetime` constraint if any, then the filters.
   */
  lemma OnlyEventsValues(a: PhpArray, d: Demand, env: Environment)
    requires a.Valid()
    requires d.eventRestriction == EVENT_RESTRICTION_ONLY_EVENTS
    ensures Augment(a, d, env).Values() ==
      a.Unset(DATETIME).Values() + [Eq(IS_EVENT, 1)]
      + (match DatetimeConstraint(d, env) case Some(c) => [c] case None => [])
      + Filters(d, env)
  {
    var reset := a.Unset(DATETIME);
    var marked := reset.Append(Eq(IS_EVENT, 1));
    OnlyEventsSteps(a, d, env);
    var extra := match DatetimeConstraint(d, env) case Some(c) => [c] case None => [];
    var dated := match DatetimeConstraint(d, env)
                 case Some(c) => marked.Put(DATETIME, c)
                 case None => marked;
    assert dated.Values() == marked.Values() + extra;
    assert OnlyEvents(a, d, env) == AppendAll(dated, Filters(d, env));
  }

  /**
   The filters: an organizer or location constraint exactly when the list is
   not empty, a lower bound exactly when `strtotime` gives a true timestamp
   for the start of the searched range, and an upper bound exactly when it
   does for its end, moved 86350 seconds further.
   */
  lemma FiltersAppended(d: Demand, env: Environment, t: int)
    ensures In(ORGANIZER, d.organizers) in Filters(d, env) <==> |d.organizers| > 0
    ensures In(LOCATION, d.locations) in Filters(d, env) <==> |d.locations| > 0
    ensures Geq(DATETIME, t) in Filters(d, env)
      <==> t != 0 && env.strToTime(d.searchDateFrom) == Some(t)
    ensures Leq(DATETIME, t) in Filters(d, env)
      <==> env.strToTime(d.searchDateTo) == Some(t - END_OF_DAY_OFFSET) && t != END_OF_DAY_OFFSET
    ensures |Filters(d, env)| <= 4
  {
    var f := Filters(d, env);
    assert f == OrganizerFilter(d) + LocationFilter(d) + SearchFromFilter(d, env) + SearchToFilter(d, env);
    assert forall x | x in f :: (x in OrganizerFilter(d) || x in LocationFilter(d)
      || x in SearchFromFilter(d, env) || x in SearchToFilter(d, env));
  }

  /** Without events, the query selects what it did and only non-events. */
  lemma NoEventsMeaning(a: PhpArray, d: Demand, env: Environment, row: Row)
    requires a.Valid()
    requires d.eventRestriction == EVENT_RESTRICTION_NO_EVENTS
    ensures Matches(Augment(a, d, env), row) <==> Matches(a, row) && row(IS_EVENT) == 0
  {
    AndConcat(a.Values(), [Eq(IS_EVENT, 0)], row);
    Single(Eq(IS_EVENT, 0), row);
  }

  lemma OrganizerFilterHolds(d: Demand, row: Row)
    ensures Holds(And(OrganizerFilter(d)), row) <==> (|d.organizers| > 0 ==> row(ORGANIZER) in d.organizers)
  {
    if |d.organizers| > 0 {
      Single(In(ORGANIZER, d.organizers), row);
    }
  }

  lemma LocationFilterHolds(d: Demand, row: Row)
    ensures Holds(And(LocationFilter(d)), row) <==> (|d.locations| > 0 ==> row(LOCATION) in d.locations)
  {
    if |d.locations| > 0 {
      Single(In(LOCATION, d.locations), row);
    }
  }

  lemma SearchFromFilterHolds(d: Demand, env: Environment, row: Row)
    ensures Holds(And(SearchFromFilter(d, env)), row) <==>
      match Converted(d.searchDateFrom, env) case Some(t) => row(DATETIME) >= t case None => true
  {
    if Converted(d.searchDateFrom, env).Some? {
      Single(Geq(DATETIME, Converted(d.searchDateFrom, env).value), row);
    }
  }

  lemma SearchToFilterHolds(d: Demand, env: Environment, row: Row)
    ensures Holds(And(SearchToFilter(d, env)), row) <==>
      match Converted(d.searchDateTo, env) case Some(t) => row(DATETIME) <= t + END_OF_DAY_OFFSET case None => true
  {
    if Converted(d.searchDateTo, env).Some? {
      Single(Leq(DATETIME, Converted(d.searchDateTo, env).value + END_OF_DAY_OFFSET), row);
    }
  }

  /** A row passes the filters exactly when it passes each one that is present. */
  lemma FiltersMeaning(d: Demand, env: Environment, row: Row)
    ensures Holds(And(Filters(d, env)), row) <==>
      (|d.organizers| > 0 ==> row(ORGANIZER) in d.organizers) &&
      (|d.locations| > 0 ==> row(LOCATION) in d.locations) &&
      (match Converted(d.searchDateFrom, env) case Some(t) => row(DATETIME) >= t case None => true) &&
      (match Converted(d.searchDateTo, env) case Some(t) => row(DATETIME) <= t + END_OF_DAY_OFFSET case None => true)
  {
    var f1, f2, f3, f4 := OrganizerFilter(d), LocationFilter(d), SearchFromFilter(d, env), SearchToFilter(d, env);
    AndConcat(f1, f2, row);
    AndConcat(f1 + f2, f3, row);
    AndConcat(f1 + f2 + f3, f4, row);
    OrganizerFilterHolds(d, row);
    LocationFilterHolds(d, row);
    SearchFromFilterHolds(d, env, row);
    SearchToFilterHolds(d, env, row);
  }

  /**
   With only events, the query selects what the constraints other than
   `datetime` selected, restricted to events, to the demanded window or time
   restriction, and to the filters.
   */
  lemma OnlyEventsMeaning(a: PhpArray, d: Demand, env: Environment, row: Row)
    requires a.Valid()
    requires d.eventRestriction == EVENT_RESTRICTION_ONLY_EVENTS
    ensures Matches(Augment(a, d, env), row) <==>
      Matches(a.Unset(DATETIME), row) &&
      row(IS_EVENT) == 1 &&
      (match DatetimeConstraint(d, env) case Some(c) => Holds(c, row) case None => true) &&
      Holds(And(Filters(d, env)), row)
  {
    OnlyEventsValues(a, d, env);
    var kept := a.Unset(DATETIME).Values();
    var dt := match DatetimeConstraint(d, env) case Some(c) => [c] case None => [];
    AndConcat(kept, [Eq(IS_EVENT, 1)], row);
    AndConcat(kept + [Eq(IS_EVENT, 1)], dt, row);
    AndConcat(kept + [Eq(IS_EVENT, 1)] + dt, Filters(d, env), row);
    Single(Eq(IS_EVENT, 1), row);
    if DatetimeConstraint(d, env).Some? {
      Single(DatetimeConstraint(d, env).value, row);
    }
  }

  /**
   A demanded month without a day: from 00:00:00 on its first day to
   23:59:59 on its last, which is the 31st for December and depends on the
   leap year for February.
   */
  lemma MonthWindow(month: int, year: int)
    ensures var (begin, end) := CalendarWindow(month, 0, year);
      var (y, m) := NormalMonth(year, month);
      begin == DayNumber(y, m, 1) * SECONDS_PER_DAY &&
      end == DayNumber(y, m, DaysInMonth(y, m)) * SECONDS_PER_DAY + 86399 &&
      end - begin + 1 == DaysInMonth(y, m) * SECONDS_PER_DAY
  {
    DayZeroIsLastDay(23, 59, 59, month, year);
  }

  /** A demanded day: from 00:00:00 to 23:59:59 of that same day. */
  lemma DayWindow(month: int, day: int, year: int)
    requires day != 0
    ensures var (begin, end) := CalendarWindow(month, day, year);
      begin % SECONDS_PER_DAY == 0 &&
      end == begin + 86399 &&
      end / SECONDS_PER_DAY == begin / SECONDS_PER_DAY
  {
    TimeOfDay(0, 0, 0, month, day, year);
    TimeOfDay(23, 59, 59, month, day, year);
  }

  /** The window of a demanded month or day is never empty. */
  lemma WindowOrdered(month: int, day: int, year: int)
    ensures CalendarWindow(month, day, year).0 < CalendarWindow(month, day, year).1
  {
    if day == 0 {
      MonthWindow(month, year);
    } else {
      DayWindow(month, day, year);
    }
  }

  /** March 2024 and its 15th day. */
  lemma KnownWindows()
    ensures CalendarWindow(3, 0, 2024) == (1709251200, 1711929599)
    ensures CalendarWindow(3, 15, 2024) == (1710460800, 1710547199)
  {
    MonthWindow(3, 2024);
  }

  /** February has 29 days in 2024 and 28 in 2023. */
  lemma KnownFebruaries()
    ensures CalendarWindow(2, 0, 2024).1 - CalendarWindow(2, 0, 2024).0 + 1 == 29 * SECONDS_PER_DAY
    ensures CalendarWindow(2, 0, 2023).1 - CalendarWindow(2, 0, 2023).0 + 1 == 28 * SECONDS_PER_DAY
  {
    MonthWindow(2, 2024);
    MonthWindow(2, 2023);
  }

  /** December 2024 ends on the 31st, the day before 2025 begins. */
  lemma KnownDecember()
    ensures CalendarWindow(12, 0, 2024) == (1733011200, 1735689599)
    ensures CalendarWindow(12, 0, 2024).1 + 1 == MkTime(0, 0, 0, 1, 1, 2025)
  {
    MonthWindow(12, 2024);
  }

  /**
   A demanded month or day always gives the host a constraint it accepts:
   its window has a bound other than 0.
   */
  lemma CalendarDatetimeWellFormed(d: Demand, env: Environment)
    requires d.month != 0 && d.year != 0
    ensures DatetimeConstraint(d, env).Some?
    ensures WellFormed(DatetimeConstraint(d, env).value)
  {
    var (begin, end) := CalendarWindow(d.month, d.day, d.year);
    WindowOrdered(d.month, d.day, d.year);
    WellFormedIffBounded(d.dateField, begin, end);
  }

  /**
   A time restriction with only a lower bound, and no month, selects every
   row: the `datetime` constraint is set, but holds for any event.
   */
  lemma LowerTimeRestrictionSelectsAll(d: Demand, env: Environment, row: Row)
    requires d.month == 0 || d.year == 0
    requires Truthy(d.timeRestriction) && !Truthy(d.timeRestrictionHigh)
    requires env.timeRestrictionLow(d.timeRestriction) != 0
    ensures DatetimeConstraint(d, env).Some?
    ensures Holds(DatetimeConstraint(d, env).value, row)
  {
    MeaningBeginOnly(d.dateField, env.timeRestrictionLow(d.timeRestriction), row);
  }

  /**
   January 1970, demanded as a month or as its first day, has a window
   beginning at 0, which the date constraint reads as an absent bound: it
   then selects the events that start by the end of the window or end at
   or after it, overlapping or not.
   */
  lemma EpochWindowReadsAsEndOnly(d: Demand, env: Environment, row: Row)
    requires d.month == 1 && (d.year == 70 || d.year == 1970) && (d.day == 0 || d.day == 1)
    ensures CalendarWindow(d.month, d.day, d.year).0 == 0
    ensures DatetimeConstraint(d, env).Some?
    ensures var end := CalendarWindow(d.month, d.day, d.year).1;
      end != 0 &&
      (Holds(DatetimeConstraint(d, env).value, row) <==> row(d.dateField) <= end || row(EVENT_END) >= end)
  {
    var w := CalendarWindow(d.month, d.day, d.year);
    assert FullYear(d.year) == 1970;
    assert LeapYearsBefore(1970) == 477;
    CalendarDatetime(d, env);
    WindowOrdered(d.month, d.day, d.year);
    MeaningEndOnly(d.dateField, w.1, row);
  }

  /** A demanded month or day sets `datetime` to the disjunction over its window. */
  lemma CalendarDatetime(d: Demand, env: Environment)
    requires d.month != 0 && d.year != 0
    ensures var w := CalendarWindow(d.month, d.day, d.year);
      DatetimeConstraint(d, env) == Some(Or(GetDateConstraint(d.dateField, w.0, w.1)))
  {
  }

  /**
   A demanded month or day selects, among the events that do not end
   before they start, exactly those whose time span overlaps its window
   (unless the window begins at the epoch itself, where 0 reads as absent).
   */
  lemma DemandedWindowSelectsOverlap(d: Demand, env: Environment, row: Row)
    requires d.month != 0 && d.year != 0
    requires CalendarWindow(d.month, d.day, d.year).0 != 0
    requires row(EVENT_END) >= row(d.dateField)
    ensures var w := CalendarWindow(d.month, d.day, d.year);
      DatetimeConstraint(d, env).Some? &&
      (Holds(DatetimeConstraint(d, env).value, row) <==> row(d.dateField) <= w.1 && row(EVENT_END) >= w.0)
  {
    var w := CalendarWindow(d.month, d.day, d.year);
    CalendarDatetime(d, env);
    WindowOrdered(d.month, d.day, d.year);
    OverlapsWindow(d.dateField, w.0, w.1, row);
  }
}

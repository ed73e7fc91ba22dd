/**
 The hook the news extension calls while it assembles the constraints of a
 news query (`AbstractDemandedRepository::modify`). For an event demand it
 adds the constraints that restrict the listing to events or to non-events,
 to a date window, to organizers and locations, and to a searched date
 range.

 The query object the source builds constraints with is replaced by the
 constructors of `Query.Expr`. The collaborators it calls and that are not
 part of this model (PHP's `strtotime`, the news extension's
 `ConstraintHelper::getTimeRestrictionLow` and `getTimeRestrictionHigh`)
 are the functions of an `Environment`.
 */
module Hooks {
  import opened Wrappers
  import opened Query
  import opened OrderedArray
  import opened Calendar
  import opened DateConstraint

  /** The class name the hook accepts a demand of, and no subclass. */
  const DEMAND_CLASS := "GeorgRinger\\Eventnews\\Domain\\Model\\Dto\\Demand"

  /** `Demand::EVENT_RESTRICTION_NO_EVENTS` and `Demand::EVENT_RESTRICTION_ONLY_EVENTS`. */
  const EVENT_RESTRICTION_NO_EVENTS := 1
  const EVENT_RESTRICTION_ONLY_EVENTS := 2

  const DATETIME := "datetime"
  const IS_EVENT := "isEvent"
  const ORGANIZER := "organizer"
  const LOCATION := "location"

  /** What the source adds to the end of a searched date range "to include the day". */
  const END_OF_DAY_OFFSET := 86350

  /** The demand's getters, as read by the hook; `className` is what `get_class` gives. */
  datatype Demand = Demand(
    className: string,
    eventRestriction: int,
    month: int,
    day: int,
    year: int,
    dateField: string,
    timeRestriction: string,
    timeRestrictionHigh: string,
    organizers: seq<int>,
    locations: seq<int>,
    searchDateFrom: string,
    searchDateTo: string)

  /**
   `strToTime` is PHP's `strtotime`, `None` for its `false`; the two
   others are the news extension's resolvers of a time restriction to a
   timestamp.
   */
  datatype Environment = Environment(
    strToTime: string -> Option<int>,
    timeRestrictionLow: string -> int,
    timeRestrictionHigh: string -> int)

  /** PHP's truth value of a string: all but "" and "0" are true. */
  predicate Truthy(s: string) {
    s != "" && s != "0"
  }

  /**
   The window of a demanded month or, when a day is demanded too, of that
   day: from 00:00:00 on its first day to 23:59:59 on its last.
   */
  function CalendarWindow(month: int, day: int, year: int): (int, int) {
    if day != 0 then
      (MkTime(0, 0, 0, month, day, year), MkTime(23, 59, 59, month, day, year))
    else
      (MkTime(0, 0, 0, month, 1, year), MkTime(23, 59, 59, month + 1, 0, year))
  }

  /** The window of the `datetime` constraint, if the demand asks for one. */
  function DateWindow(d: Demand, env: Environment): Option<(int, int)> {
    if d.month != 0 && d.year != 0 then
      Some(CalendarWindow(d.month, d.day, d.year))
    else if Truthy(d.timeRestriction) || Truthy(d.timeRestrictionHigh) then
      Some((if Truthy(d.timeRestriction) then env.timeRestrictionLow(d.timeRestriction) else 0,
            if Truthy(d.timeRestrictionHigh) then env.timeRestrictionHigh(d.timeRestrictionHigh) else 0))
    else
      None
  }

  /** The `datetime` constraint the hook sets, if any. */
  function DatetimeConstraint(d: Demand, env: Environment): Option<Expr> {
    match DateWindow(d, env)
    case Some((begin, end)) => Some(Or(GetDateConstraint(d.dateField, begin, end)))
    case None => None
  }

  /** A timestamp `strtotime` gives, when PHP takes it for true. */
  function Converted(s: string, env: Environment): Option<int> {
    match env.strToTime(s)
    case Some(t) => if t != 0 then Some(t) else None
    case None => None
  }

  function OrganizerFilter(d: Demand): seq<Expr> {
    if |d.organizers| > 0 then [In(ORGANIZER, d.organizers)] else []
  }

  function LocationFilter(d: Demand): seq<Expr> {
    if |d.locations| > 0 then [In(LOCATION, d.locations)] else []
  }

  function SearchFromFilter(d: Demand, env: Environment): seq<Expr> {
    match Converted(d.searchDateFrom, env)
    case Some(t) => [Geq(DATETIME, t)]
    case None => []
  }

  function SearchToFilter(d: Demand, env: Environment): seq<Expr> {
    match Converted(d.searchDateTo, env)
    case Some(t) => [Leq(DATETIME, t + END_OF_DAY_OFFSET)]
    case None => []
  }

  /** The filters appended after the event constraint, in the order the source appends them. */
  function Filters(d: Demand, env: Environment): seq<Expr> {
    OrganizerFilter(d) + LocationFilter(d) + SearchFromFilter(d, env) + SearchToFilter(d, env)
  }

  function AppendAll(a: PhpArray, es: seq<Expr>): (r: PhpArray)
    requires a.Valid()
    ensures r.Valid()
    ensures r.Values() == a.Values() + es
    ensures r.nextIndex == a.nextIndex + |es|
    decreases es
  {
    if es == [] then a
    else
      var b := a.Append(es[0]);
      var r := AppendAll(b, es[1..]);
      assert a.Values() + es == b.Values() + es[1..] by {
        assert [es[0]] + es[1..] == es;
      }
      r
  }

  /** Appending leaves the entries of the named keys and of the integer keys in use alone. */
  lemma {:induction false} AppendAllKeeps(a: PhpArray, es: seq<Expr>, k: Key)
    requires a.Valid()
    requires !k.Index? || k.index < a.nextIndex
    ensures AppendAll(a, es).Lookup(k) == a.Lookup(k)
    decreases es
  {
    if es != [] {
      AppendLookup(a, es[0]);
      AppendAllKeeps(a.Append(es[0]), es[1..], k);
    }
  }

  lemma {:induction false} AppendAllConcat(a: PhpArray, xs: seq<Expr>, ys: seq<Expr>)
    requires a.Valid()
    ensures AppendAll(a, xs + ys) == AppendAll(AppendAll(a, xs), ys)
    decreases xs
  {
    if xs != [] {
      assert (xs + ys)[1..] == xs[1..] + ys;
      AppendAllConcat(a.Append(xs[0]), xs[1..], ys);
    } else {
      assert xs + ys == ys;
    }
  }

  /** What the hook makes of the constraints when only events are demanded. */
  function OnlyEvents(a: PhpArray, d: Demand, env: Environment): (r: PhpArray)
    requires a.Valid()
    ensures r.Valid()
  {
    var reset := a.Unset(DATETIME).Append(Eq(IS_EVENT, 1));
    var dated := match DatetimeConstraint(d, env)
                 case Some(c) => reset.Put(DATETIME, c)
                 case None => reset;
    AppendAll(dated, Filters(d, env))
  }

  /** What `updateEventConstraints` makes of the constraints. */
  function Augment(a: PhpArray, d: Demand, env: Environment): (r: PhpArray)
    requires a.Valid()
    ensures r.Valid()
  {
    if d.eventRestriction == EVENT_RESTRICTION_NO_EVENTS then a.Append(Eq(IS_EVENT, 0))
    else if d.eventRestriction == EVENT_RESTRICTION_ONLY_EVENTS then OnlyEvents(a, d, env)
    else a
  }

  /** The query's condition: the host combines all constraints with a conjunction. */
  predicate Matches(a: PhpArray, row: Row) {
    Holds(And(a.Values()), row)
  }

  method UpdateEventConstraints(demand: Demand, constraints: ConstraintSet, env: Environment)
    requires constraints.Valid()
    modifies constraints
    ensures constraints.Valid()
    ensures constraints.Value() == Augment(old(constraints.Value()), demand, env)
  {
    var eventRestriction := demand.eventRestriction;
    if eventRestriction == EVENT_RESTRICTION_NO_EVENTS {
      constraints.Append(Eq(IS_EVENT, 0));
    } else if eventRestriction == EVENT_RESTRICTION_ONLY_EVENTS {
      // reset the datetime constraint
      constraints.Unset(DATETIME);
      constraints.Append(Eq(IS_EVENT, 1));
      SetDatetimeConstraint(demand, constraints, env);
      AppendFilters(demand, constraints, env);
    }
  }

  /** The `datetime` constraint of a demanded month, day or time restriction. */
  method SetDatetimeConstraint(demand: Demand, constraints: ConstraintSet, env: Environment)
    requires constraints.Valid()
    modifies constraints
    ensures constraints.Valid()
    ensures constraints.Value() == match DatetimeConstraint(demand, env)
                                   case Some(c) => old(constraints.Value()).Put(DATETIME, c)
                                   case None => old(constraints.Value())
  {
    ghost var before := constraints.Value();
    ghost var datetime := DatetimeConstraint(demand, env);
    if demand.month != 0 && demand.year != 0 {
      var begin, end;
      if demand.day != 0 {
        begin := MkTime(0, 0, 0, demand.month, demand.day, demand.year);
        end := MkTime(23, 59, 59, demand.month, demand.day, demand.year);
      } else {
        begin := MkTime(0, 0, 0, demand.month, 1, demand.year);
        end := MkTime(23, 59, 59, demand.month + 1, 0, demand.year);
      }
      assert (begin, end) == CalendarWindow(demand.month, demand.day, demand.year);
      assert DateWindow(demand, env) == Some((begin, end));
      var dateConstraints := GetDateConstraint(demand.dateField, begin, end);
      assert datetime == Some(Or(dateConstraints));
      constraints.Put(DATETIME, Or(dateConstraints));
      assert constraints.Value() == before.Put(DATETIME, datetime.value);
    } else if Truthy(demand.timeRestriction) || Truthy(demand.timeRestrictionHigh) {
      var begin := if Truthy(demand.timeRestriction) then env.timeRestrictionLow(demand.timeRestriction) else 0;
      var end := if Truthy(demand.timeRestrictionHigh) then env.timeRestrictionHigh(demand.timeRestrictionHigh) else 0;
      assert DateWindow(demand, env) == Some((begin, end));
      var dateConstraints := GetDateConstraint(demand.dateField, begin, end);
      assert datetime == Some(Or(dateConstraints));
      constraints.Put(DATETIME, Or(dateConstraints));
      assert constraints.Value() == before.Put(DATETIME, datetime.value);
    } else {
      assert datetime == None;
    }
  }

  /** The organizer, location and searched date range filters. */
  method AppendFilters(demand: Demand, constraints: ConstraintSet, env: Environment)
    requires constraints.Valid()
    modifies constraints
    ensures constraints.Valid()
    ensures constraints.Value() == AppendAll(old(constraints.Value()), Filters(demand, env))
  {
    ghost var start := constraints.Value();
    if |demand.organizers| > 0 {
      constraints.Append(In(ORGANIZER, demand.organizers));
    }
    ghost var withOrganizers := constraints.Value();
    assert withOrganizers == AppendAll(start, OrganizerFilter(demand));

    if |demand.locations| > 0 {
      constraints.Append(In(LOCATION, demand.locations));
    }
    ghost var withLocations := constraints.Value();
    assert withLocations == AppendAll(withOrganizers, LocationFilter(demand));

    // time start
    var converted := env.strToTime(demand.searchDateFrom);
    ghost var fromFilter := SearchFromFilter(demand, env);
    assert fromFilter == if converted.Some? && converted.value != 0 then [Geq(DATETIME, converted.value)] else [];
    if converted.Some? && converted.value != 0 {
      constraints.Append(Geq(DATETIME, converted.value));
    }
    ghost var withFrom := constraints.Value();
    assert withFrom == AppendAll(withLocations, fromFilter);

    // time end, moved forward to take in the program of that day
    converted := env.strToTime(demand.searchDateTo);
    ghost var toFilter := SearchToFilter(demand, env);
    assert toFilter == if converted.Some? && converted.value != 0 then [Leq(DATETIME, converted.value + END_OF_DAY_OFFSET)] else [];
    if converted.Some? && converted.value != 0 {
      var bound := converted.value + END_OF_DAY_OFFSET;
      constraints.Append(Leq(DATETIME, bound));
    }
    assert constraints.Value() == AppendAll(withFrom, toFilter);
    AppendAllConcat(start, OrganizerFilter(demand), LocationFilter(demand));
    AppendAllConcat(start, OrganizerFilter(demand) + LocationFilter(demand), fromFilter);
    AppendAllConcat(start, OrganizerFilter(demand) + LocationFilter(demand) + fromFilter, toFilter);
  }

  /** The hook's entry point: only a demand of exactly the eventnews class is handled. */
  method Modify(demand: Demand, constraints: ConstraintSet, env: Environment)
    requires constraints.Valid()
    modifies constraints
    ensures constraints.Valid()
    ensures demand.className != DEMAND_CLASS ==> unchanged(constraints)
    ensures demand.className == DEMAND_CLASS ==>
      constraints.Value() == Augment(old(constraints.Value()), demand, env)
  {
    if demand.className != DEMAND_CLASS {
      return;
    }
    UpdateEventConstraints(demand, constraints, env);
  }
}

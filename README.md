# eventnews: the demanded-repository hook

The eventnews extension turns news records into events. It does this
through a hook, `AbstractDemandedRepository::modify`. The news extension
calls the hook while it assembles the constraints of a news listing query.

- The hook acts only on a demand of the eventnews `Demand` class.
- With the "no events" restriction, it appends `isEvent = 0`.
- With the "only events" restriction, it does the following:
  - It always removes any `datetime` constraint and appends `isEvent = 1`.
  - It sets a new `datetime` constraint when a month and a year are
    demanded, or else when a time restriction is. The constraint is the
    disjunction that `getDateConstraint` builds over a window. That window
    is the demanded month or day, or else the bounds of the time
    restriction.
  - It appends an organizer filter when the demand's organizer list is not
    empty, and a location filter when its location list is not empty.
  - It appends a lower bound when the start of the searched date range
    parses to a nonzero timestamp, and an upper bound when its end does.

This project models the three methods of the hook in Dafny:

- `query.dfy` holds the constraint language (`Query.Expr`) and what a
  constraint means for a database row (`Query.Holds`). It also holds the
  host's refusal of empty conjunctions, disjunctions and `in` lists, as
  `Query.WellFormed`.
- `ordered_array.dfy` models the `$constraints` argument. It is a PHP ordered
  array, given as the value `OrderedArray.PhpArray`. It keeps PHP's next free
  integer key, so `[]=`, `unset` and keyed assignment behave as in PHP.
  `OrderedArray.ConstraintSet` is the class the hook mutates in place, as
  the by-reference argument.
- `calendar.dfy` models PHP's `mktime`. It uses UTC on the proleptic
  Gregorian calendar and carries out-of-range months and days into the next
  field. It also applies PHP's two-digit year rule.
- `date_constraint.dfy` models `getDateConstraint`. Its lemmas give the shape
  of the result and what the result selects.
- `hooks.dfy` holds the demand and the hook itself:
  - `Hooks.Augment` specifies `updateEventConstraints` as a function on the
    array's value.
  - `Hooks.UpdateEventConstraints` and `Hooks.Modify` are the imperative
    methods, proved against `Augment`.
- `hook_properties.dfy` proves what the hook promises:
  - which constraints it adds and which it keeps;
  - which window a month or a day denotes;
  - what the final query selects.

The hook compares the demand's event restriction with two constants:

- `Demand::EVENT_RESTRICTION_NO_EVENTS` is 1.
- `Demand::EVENT_RESTRICTION_ONLY_EVENTS` is 2.

Both are taken from the eventnews `Demand` class. That class is not part of
this model.

The end of a searched date range is moved forward by 86350 seconds, as in
the source. `HookProperties.FiltersAppended` states that offset. The source comment
calls it "23h59min", which is 86340 seconds. A whole day less one second
would be 86399 seconds. The model keeps 86350, and the project does not
claim a finding for it.

Two readings of `getDateConstraint` follow from the code. Take both bounds
present and the beginning at or before the end. Then an event that does not
end before it starts is selected exactly when its span overlaps the window
(`DateConstraint.OverlapsWindow`). A time restriction may give the bounds
in the wrong order. The "month before to month after" case then selects
events that overlap nothing, for example one that starts and ends between
the two bounds (`DateConstraint.InvertedBoundsSelect`). With only a lower bound, every row is
selected; `DateConstraint.MeaningBeginOnly` proves this. With only an upper
bound, a row is selected when it starts at or before that bound or ends at
or after it.

So with a time restriction that has only a lower bound, the hook removes
any earlier `datetime` constraint. The `datetime` constraint it sets then
holds for every row; `HookProperties.LowerTimeRestrictionSelectsAll` proves
this. Constraints stored under other keys still apply, and so do the event
constraint and the filters. The model keeps the behaviour as written.

A bound of 0 is read as absent, and that includes a window that begins at
the epoch itself. January 1970, demanded as a month or as its first day
(year 70 or 1970), has a window beginning at 0. Its `datetime` constraint
therefore takes the "end bound only" reading: it selects every event that
starts by the end of the window or ends after it, including events in later
years. `HookProperties.EpochWindowReadsAsEndOnly` proves this.

## Model

| member | source | states |
|---|---|---|
| Query.AndConcat | Classes/Hooks/AbstractDemandedRepository.php:132-134 | a conjunction over two concatenated constraint lists holds exactly when both parts hold |
| Query.OrConcat | Classes/Hooks/AbstractDemandedRepository.php:147-166 | a disjunction over two concatenated lists holds exactly when either part holds; this is how `$eventsWithEndDate` grows by appends |
| Query.Single | Classes/Hooks/AbstractDemandedRepository.php:132-134 | a conjunction or disjunction of one constraint means that constraint |
| Query.Pair | Classes/Hooks/AbstractDemandedRepository.php:154-157 | the two-operand `logicalAnd` means both operands hold, and the two-operand `logicalOr` means one of them holds |
| OrderedArray.LookupIn | Classes/Hooks/AbstractDemandedRepository.php:79 | a lookup by key is absent exactly when no entry has that key, and otherwise returns a stored entry of that key |
| OrderedArray.PhpArray.Append | Classes/Hooks/AbstractDemandedRepository.php:62 | `$a[] = v` keeps keys distinct, puts `v` last in the value order and advances the next free integer key by one |
| OrderedArray.PhpArray.Unset | Classes/Hooks/AbstractDemandedRepository.php:65 | `unset` keeps the array valid, changes nothing when the key is absent, cuts a present key's entry out where it stands so the other entries keep their order, and leaves the next free integer key alone |
| OrderedArray.PhpArray.Put | Classes/Hooks/AbstractDemandedRepository.php:79 | a keyed assignment appends the value when the key is new; otherwise every entry keeps its key and position, and only the value under that key changes |
| OrderedArray.AppendLookup | Classes/Hooks/AbstractDemandedRepository.php:62 | an append stores the value under a previously unused integer key and changes no other key |
| OrderedArray.UnsetLookup | Classes/Hooks/AbstractDemandedRepository.php:64-65 | after `unset`, the key is absent and every other key keeps its value |
| OrderedArray.PutLookup | Classes/Hooks/AbstractDemandedRepository.php:79 | after a keyed assignment, the key holds the new value and every other key keeps its value |
| OrderedArray.WithoutLookup | Classes/Hooks/AbstractDemandedRepository.php:65 | removing the entries of a key leaves no entry of it and keeps the value of every other key |
| OrderedArray.WithoutAt | Classes/Hooks/AbstractDemandedRepository.php:65 | removing the one entry of a key from keys that are distinct leaves the entries before it followed by the entries after it, in their order |
| OrderedArray.ReplacedLookup | Classes/Hooks/AbstractDemandedRepository.php:79 | replacing the value of a present key keeps keys distinct and changes only that key's value |
| OrderedArray.ConstraintSet.Append | Classes/Hooks/AbstractDemandedRepository.php:62 | the in-place append leaves the collection equal to the value-level append of its old value |
| OrderedArray.ConstraintSet.Unset | Classes/Hooks/AbstractDemandedRepository.php:65 | the in-place `unset` leaves the collection equal to the value-level `unset` of its old value |
| OrderedArray.ConstraintSet.Put | Classes/Hooks/AbstractDemandedRepository.php:79 | the in-place keyed assignment leaves the collection equal to the value-level assignment on its old value |
| Calendar.DaysInMonth | Classes/Hooks/AbstractDemandedRepository.php:75 | a month has 28 to 31 days, and February has 29 exactly in a leap year |
| Calendar.FullYear | Classes/Hooks/AbstractDemandedRepository.php:71-75 | `mktime` reads a year from 0 to 100 as the year from 1970 to 2069 with the same last two digits; the last two digits never change |
| Calendar.FullYearIdempotent | Classes/Hooks/AbstractDemandedRepository.php:71-75 | a year already written in full reads as itself, so a demanded year and its full reading give the same instant |
| Calendar.NormalMonth | Classes/Hooks/AbstractDemandedRepository.php:75 | an out-of-range month such as 13 is carried into the year: the result month is 1 to 12 and denotes the same month count |
| Calendar.YearLength | Classes/Hooks/AbstractDemandedRepository.php:71-75 | a year has 366 days exactly when it is a leap year |
| Calendar.MonthStart | Classes/Hooks/AbstractDemandedRepository.php:74-75 | each month starts where the previous one ends, December included |
| Calendar.DayZeroIsLastDay | Classes/Hooks/AbstractDemandedRepository.php:75 | day 0 of the following month is the last day of the month, also for December |
| Calendar.TimeOfDay | Classes/Hooks/AbstractDemandedRepository.php:71-72 | `mktime` keeps an in-range time of day, and the start and the end of a day fall on the same day |
| Calendar.KnownInstants | Classes/Hooks/AbstractDemandedRepository.php:71-72 | the epoch is 0, and 2038-01-19 03:14:07 is 2^31-1 |
| Calendar.KnownDays | Classes/Hooks/AbstractDemandedRepository.php:71-74 | 2000-02-29 and 2024-03-01 (written as year 24) have their known timestamps, and 1969-01-01 is one year of seconds before the epoch |
| DateConstraint.When | Classes/Hooks/AbstractDemandedRepository.php:129-130 | the source's conditional append adds its constraint exactly when the bound is nonzero, and adds nothing else |
| DateConstraint.Shape | Classes/Hooks/AbstractDemandedRepository.php:128-172 | the result has two elements: a conjunction that wraps one conjunction with one comparison per present bound, and a disjunction of 2 plus one case per present bound |
| DateConstraint.OnlyPresentBounds | Classes/Hooks/AbstractDemandedRepository.php:128-166 | every comparison in the result is against a nonzero bound |
| DateConstraint.WellFormedIffBounded | Classes/Hooks/AbstractDemandedRepository.php:128-134 | the host accepts the result exactly when a bound is nonzero; otherwise `$noEndDate` is an empty conjunction |
| DateConstraint.NoEndDateHolds | Classes/Hooks/AbstractDemandedRepository.php:128-134 | an event without an end date is selected when its start lies within the present bounds |
| DateConstraint.InsideMonthHolds | Classes/Hooks/AbstractDemandedRepository.php:136-140 | the "inside a month" case selects events that start within the window and end by its end |
| DateConstraint.ExpandedHolds | Classes/Hooks/AbstractDemandedRepository.php:142-145 | the "month before to month after" case selects events that start by the beginning and end after the end |
| DateConstraint.RunsOverHolds | Classes/Hooks/AbstractDemandedRepository.php:152-166 | the "month before to mid month" and "mid month to next month" cases select events that run over that bound, and exist only for a nonzero bound |
| DateConstraint.Parts | Classes/Hooks/AbstractDemandedRepository.php:128-172 | the whole disjunction holds exactly when one of the five cases holds, each case cut down to the bounds that are present |
| DateConstraint.MeaningBothBounds | Classes/Hooks/AbstractDemandedRepository.php:128-172 | with both bounds in order, a row matches exactly when it starts by the end and starts or ends at or after the beginning |
| DateConstraint.OverlapsWindow | Classes/Hooks/AbstractDemandedRepository.php:136-166 | for an event that does not end before it starts, the constraint selects exactly the events whose span overlaps the window |
| DateConstraint.MeaningEndOnly | Classes/Hooks/AbstractDemandedRepository.php:128-172 | with only an end bound, a row matches when it starts at or before it or ends at or after it |
| DateConstraint.MeaningBeginOnly | Classes/Hooks/AbstractDemandedRepository.php:128-172 | with only a begin bound, every row matches |
| DateConstraint.InvertedBoundsSelect | Classes/Hooks/AbstractDemandedRepository.php:142-150 | with bounds in the wrong order, an event lying between them is selected by the "month before to month after" case, though the window holds no instant |
| Hooks.AppendAll | Classes/Hooks/AbstractDemandedRepository.php:94-115 | appending a list of constraints one by one puts them after the old values, in order, and advances the next integer key by their number |
| Hooks.AppendAllKeeps | Classes/Hooks/AbstractDemandedRepository.php:94-115 | the appended filters change no named key and no integer key already in use |
| Hooks.AppendAllConcat | Classes/Hooks/AbstractDemandedRepository.php:94-115 | appending two lists in a row is appending their concatenation |
| Hooks.OnlyEvents | Classes/Hooks/AbstractDemandedRepository.php:63-115 | the "only events" update keeps the array valid: keys stay distinct and integer keys stay below the next free one |
| Hooks.Augment | Classes/Hooks/AbstractDemandedRepository.php:58-117 | `updateEventConstraints` keeps the array valid for every restriction |
| Hooks.UpdateEventConstraints | Classes/Hooks/AbstractDemandedRepository.php:51-117 | the in-place update leaves the collection equal to `Augment` of its old value |
| Hooks.SetDatetimeConstraint | Classes/Hooks/AbstractDemandedRepository.php:68-92 | the `datetime` entry is assigned the disjunction over the demanded month, day or time-restriction window; when none is demanded, nothing changes |
| Hooks.AppendFilters | Classes/Hooks/AbstractDemandedRepository.php:94-115 | the organizer, location and search-date filters are appended in the source's order |
| Hooks.Modify | Classes/Hooks/AbstractDemandedRepository.php:31-39 | a demand of any other class leaves the collection unchanged; a demand of the eventnews class gets `updateEventConstraints` |
| Calendar.MkTime | Classes/Hooks/AbstractDemandedRepository.php:71-75 | no contract of its own; PHP's `mktime` in UTC, its meaning given by `Calendar.DayZeroIsLastDay`, `Calendar.TimeOfDay`, `Calendar.MonthStart`, `Calendar.KnownInstants` and `Calendar.KnownDays` |
| DateConstraint.NoEndDate | Classes/Hooks/AbstractDemandedRepository.php:128-130 | no contract of its own; the `$noEndDate` array, its meaning in `DateConstraint.NoEndDateHolds` |
| DateConstraint.InsideMonth | Classes/Hooks/AbstractDemandedRepository.php:136-140 | no contract of its own; the `$insideMonth` array, its meaning in `DateConstraint.InsideMonthHolds` |
| DateConstraint.ExpandedMonthBeforeToMonthAfter | Classes/Hooks/AbstractDemandedRepository.php:142-145 | no contract of its own; the `$expandedMonthBeforeToMonthAfter` array, its meaning in `DateConstraint.ExpandedHolds` |
| DateConstraint.RunsOver | Classes/Hooks/AbstractDemandedRepository.php:152-166 | no contract of its own; the two-operand conjunctions of the run-over cases, their meaning in `DateConstraint.RunsOverHolds` |
| DateConstraint.GetDateConstraint | Classes/Hooks/AbstractDemandedRepository.php:126-173 | no contract of its own; `getDateConstraint`, its shape in `DateConstraint.Shape`, `DateConstraint.OnlyPresentBounds` and `DateConstraint.WellFormedIffBounded`, its meaning in `DateConstraint.Parts` and `DateConstraint.OverlapsWindow` |
| Hooks.CalendarWindow | Classes/Hooks/AbstractDemandedRepository.php:70-76 | no contract of its own; the month or day window, given by `HookProperties.MonthWindow`, `HookProperties.DayWindow` and `HookProperties.WindowOrdered` |
| Hooks.DateWindow | Classes/Hooks/AbstractDemandedRepository.php:68-89 | no contract of its own; which window, if any, the demand asks for, given by `HookProperties.OnlyEventsDatetime` |
| Hooks.DatetimeConstraint | Classes/Hooks/AbstractDemandedRepository.php:68-92 | no contract of its own; the `datetime` constraint, given by `HookProperties.OnlyEventsDatetime`, `HookProperties.CalendarDatetime` and `HookProperties.CalendarDatetimeWellFormed` |
| Hooks.Converted | Classes/Hooks/AbstractDemandedRepository.php:105-111 | no contract of its own; PHP's truth test on the result of `strtotime`, used by `HookProperties.FiltersAppended` |
| Hooks.OrganizerFilter | Classes/Hooks/AbstractDemandedRepository.php:94-97 | no contract of its own; its meaning in `HookProperties.OrganizerFilterHolds` |
| Hooks.LocationFilter | Classes/Hooks/AbstractDemandedRepository.php:99-102 | no contract of its own; its meaning in `HookProperties.LocationFilterHolds` |
| Hooks.SearchFromFilter | Classes/Hooks/AbstractDemandedRepository.php:104-108 | no contract of its own; its meaning in `HookProperties.SearchFromFilterHolds` |
| Hooks.SearchToFilter | Classes/Hooks/AbstractDemandedRepository.php:109-115 | no contract of its own; its meaning in `HookProperties.SearchToFilterHolds` |
| Hooks.Filters | Classes/Hooks/AbstractDemandedRepository.php:94-115 | no contract of its own; the filters in the source's order, given by `HookProperties.FiltersAppended` and `HookProperties.FiltersMeaning` |
| Hooks.Matches | Classes/Hooks/AbstractDemandedRepository.php:61-115 | no contract of its own; the host's conjunction of all stored constraints, used by `HookProperties.NoEventsMeaning` and `HookProperties.OnlyEventsMeaning` |
| HookProperties.NoEventsAppendsOne | Classes/Hooks/AbstractDemandedRepository.php:61-62 | with "no events", exactly one entry `isEvent = 0` is appended under the next integer key, and the entries before it, `datetime` included, are unchanged |
| HookProperties.OtherRestrictionUnchanged | Classes/Hooks/AbstractDemandedRepository.php:61-63 | any other restriction value leaves the constraints as they were |
| HookProperties.OnlyEventsSteps | Classes/Hooks/AbstractDemandedRepository.php:64-66 | the reset removes `datetime`, and `isEvent = 1` lands under the next integer key, after the kept constraints, with every other key unchanged |
| HookProperties.OnlyEventsDatetime | Classes/Hooks/AbstractDemandedRepository.php:65-92 | with "only events", `datetime` is present afterwards exactly when a month and a year, or a time restriction, are demanded; it is then the disjunction of `getDateConstraint` over that window |
| HookProperties.OnlyEventsKeepsOthers | Classes/Hooks/AbstractDemandedRepository.php:63-115 | with "only events", the next integer key holds `isEvent = 1`, and every other key in use keeps its constraint |
| HookProperties.OnlyEventsValues | Classes/Hooks/AbstractDemandedRepository.php:63-115 | with "only events", the constraints are the kept ones, then `isEvent = 1`, then `datetime` if set, then the filters |
| HookProperties.FiltersAppended | Classes/Hooks/AbstractDemandedRepository.php:94-115 | the organizer and location filters appear exactly for non-empty lists; a lower bound appears exactly for a nonzero parse of the start; an upper bound appears exactly for a nonzero parse of the end plus 86350 seconds |
| HookProperties.OrganizerFilterHolds | Classes/Hooks/AbstractDemandedRepository.php:94-97 | a row passes the organizer filter when the list is empty or holds the row's organizer |
| HookProperties.LocationFilterHolds | Classes/Hooks/AbstractDemandedRepository.php:99-102 | a row passes the location filter when the list is empty or holds the row's location |
| HookProperties.SearchFromFilterHolds | Classes/Hooks/AbstractDemandedRepository.php:104-108 | a row passes the start of the searched range when it starts at or after a nonzero parse of it, or when there is none |
| HookProperties.SearchToFilterHolds | Classes/Hooks/AbstractDemandedRepository.php:109-115 | a row passes the end of the searched range when it starts at or before a nonzero parse of it plus 86350 seconds, or when there is none |
| HookProperties.FiltersMeaning | Classes/Hooks/AbstractDemandedRepository.php:94-115 | a row passes the filters exactly when it passes each one that is present |
| HookProperties.NoEventsMeaning | Classes/Hooks/AbstractDemandedRepository.php:61-62 | with "no events", the query selects what it selected before, limited to non-events |
| HookProperties.OnlyEventsMeaning | Classes/Hooks/AbstractDemandedRepository.php:63-115 | with "only events", the query selects exactly the events that pass the kept constraints, the `datetime` constraint and the filters |
| HookProperties.MonthWindow | Classes/Hooks/AbstractDemandedRepository.php:73-76 | a demanded month spans from 00:00:00 on its first day to 23:59:59 on its last, exactly its number of days |
| HookProperties.DayWindow | Classes/Hooks/AbstractDemandedRepository.php:70-72 | a demanded day spans from its midnight to 23:59:59 of that same day |
| HookProperties.WindowOrdered | Classes/Hooks/AbstractDemandedRepository.php:68-76 | the window of a demanded month or day always begins before it ends |
| HookProperties.KnownWindows | Classes/Hooks/AbstractDemandedRepository.php:70-76 | March 2024 and 15 March 2024 have their known UTC bounds |
| HookProperties.KnownFebruaries | Classes/Hooks/AbstractDemandedRepository.php:73-76 | February has 29 days in 2024 and 28 in 2023 |
| HookProperties.KnownDecember | Classes/Hooks/AbstractDemandedRepository.php:73-76 | December 2024 ends at 23:59:59 on the 31st, one second before 2025 begins |
| HookProperties.LowerTimeRestrictionSelectsAll | Classes/Hooks/AbstractDemandedRepository.php:80-91 | a time restriction with only a nonzero lower bound, and no month, sets a `datetime` constraint that every row satisfies |
| HookProperties.CalendarDatetime | Classes/Hooks/AbstractDemandedRepository.php:68-79 | a demanded month or day sets `datetime` to the disjunction of `getDateConstraint` over its calendar window |
| HookProperties.CalendarDatetimeWellFormed | Classes/Hooks/AbstractDemandedRepository.php:68-79 | a demanded month or day always gives a `datetime` constraint that the host accepts |
| HookProperties.DemandedWindowSelectsOverlap | Classes/Hooks/AbstractDemandedRepository.php:68-79 | for an event that does not end before it starts, a demanded month or day whose window does not begin at 0 selects exactly the events that overlap that window |
| HookProperties.EpochWindowReadsAsEndOnly | Classes/Hooks/AbstractDemandedRepository.php:68-79 | January 1970 (or its first day) has a window beginning at 0, which reads as absent: the constraint selects events that start by the window's end or end at or after it |

## Left out

- The host's query object (`equals`, `in`, `logicalAnd`, `logicalOr`) and
  running the query are not modelled. The constraints are values of
  `Query.Expr`, and their meaning is `Query.Holds` over a row of integer
  columns.
- The host throws on a conjunction or disjunction of no operands. The model
  does not throw. It says which constraints the host accepts
  (`Query.WellFormed`), and `DateConstraint.WellFormedIffBounded` says when
  `getDateConstraint` produces one.
- PHP's `strtotime` is a parameter of the model, `Environment.strToTime`.
  The news extension's `ConstraintHelper::getTimeRestrictionLow` and
  `getTimeRestrictionHigh` are parameters too. None of these is part of this
  model.
- `mktime` works in UTC. Time zones and daylight saving time depend on the
  host configuration, so they are left out.
- PHP's 64-bit integer overflow and its fallback to floating point are left
  out. `mktime`'s arithmetic is on unbounded integers.
- `$respectEnableFields` is passed to `updateEventConstraints` and never
  read, so it has no counterpart.
- The `$query` argument has no counterpart, because constraints are built
  as values.
- `get_class` is modelled by the `className` field of `Hooks.Demand`.
- The eventnews `Demand` class and its getters are not part of this model.
  The getters become the fields of `Hooks.Demand`. The restriction
  constants are taken to be 1 and 2.
- The truth value PHP gives a getter's result is written out: a string is
  true unless it is "" or "0", and an integer is true unless it is 0. The
  demand's month, day and year are integers, and its organizer and location
  lists are lists of integer ids.
- `Hooks.UpdateEventConstraints` delegates two parts of the source's single
  method to `Hooks.SetDatetimeConstraint` (lines 68-92) and
  `Hooks.AppendFilters` (lines 94-115). The statements and their order are
  the source's.
- PHP arrays turn numeric string keys into integers. The hook uses only the
  named key `datetime` and appended integer keys, so that conversion is not
  modelled.

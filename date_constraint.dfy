/**
 The date-window constraint of the hook (`getDateConstraint`): the events
 whose start, in the demanded date column, and whose end, in `eventEnd`,
 place them in the window from `begin` to `end`. A bound of 0 is absent and
 every comparison against it is left out.
 */
module DateConstraint {
  import opened Query

  const EVENT_END := "eventEnd"

  /** `[e]` when `c` holds, otherwise nothing: the source's `$c ? ($a[] = e) : null`. */
  function When(c: bool, e: Expr): (r: seq<Expr>)
    ensures |r| == if c then 1 else 0
    ensures forall x | x in r :: x == e
  {
    if c then [e] else []
  }

  /** Events without an end date: the start lies in the window. */
  function NoEndDate(field: string, begin: int, end: int): seq<Expr> {
    When(begin != 0, Geq(field, begin)) + When(end != 0, Leq(field, end))
  }

  /** Events inside the window, e.g. from the 3rd to the 8th of the month. */
  function InsideMonth(field: string, begin: int, end: int): seq<Expr> {
    When(begin != 0, Geq(field, begin)) + When(end != 0, Leq(field, end)) + When(end != 0, Leq(EVENT_END, end))
  }

  /** Events spanning the window, from the month before to the month after. */
  function ExpandedMonthBeforeToMonthAfter(field: string, begin: int, end: int): seq<Expr> {
    When(begin != 0, Leq(field, begin)) + When(end != 0, Geq(EVENT_END, end))
  }

  /** Events that run over the instant `t`: from the month before to mid-month, or from mid-month on. */
  function RunsOver(field: string, t: int): Expr {
    And([Leq(field, t), Geq(EVENT_END, t)])
  }

  /**
   The two constraints the caller combines with a disjunction: events
   without an end date that start inside the window, and the four ways an
   event with an end date can meet it.
   */
  function GetDateConstraint(field: string, begin: int, end: int): seq<Expr> {
    var eventsWithNoEndDate := [And(NoEndDate(field, begin, end))];
    var eventsWithEndDate :=
      [And(InsideMonth(field, begin, end)), And(ExpandedMonthBeforeToMonthAfter(field, begin, end))]
      + When(begin != 0, RunsOver(field, begin))
      + When(end != 0, RunsOver(field, end));
    [And(eventsWithNoEndDate), Or(eventsWithEndDate)]
  }

  /** The number of bounds present. */
  function Present(begin: int, end: int): (n: nat)
    ensures n <= 2
  {
    (if begin != 0 then 1 else 0) + (if end != 0 then 1 else 0)
  }

  /**
   The fixed shape of the result: two constraints, a conjunction holding one
   conjunction with one comparison per present bound, and a disjunction of
   two cases plus one per present bound.
   */
  lemma Shape(field: string, begin: int, end: int)
    ensures var r := GetDateConstraint(field, begin, end);
      |r| == 2 &&
      r[0].And? && |r[0].operands| == 1 &&
      r[0].operands[0].And? && |r[0].operands[0].operands| == Present(begin, end) &&
      r[1].Or? && |r[1].operands| == 2 + Present(begin, end)
  {
  }

  /** No comparison in the result is against an absent bound. */
  lemma OnlyPresentBounds(field: string, begin: int, end: int)
    ensures ComparesWithin(Or(GetDateConstraint(field, begin, end)), {begin, end} - {0})
  {
    var bounds := {begin, end} - {0};
    assert ComparesWithin(And([And(NoEndDate(field, begin, end))]), bounds);
    var inside, expanded := And(InsideMonth(field, begin, end)), And(ExpandedMonthBeforeToMonthAfter(field, begin, end));
    var before, after := When(begin != 0, RunsOver(field, begin)), When(end != 0, RunsOver(field, end));
    assert ComparesWithin(inside, bounds) && ComparesWithin(expanded, bounds);
    assert forall c | c in before + after :: ComparesWithin(c, bounds);
    assert forall c | c in [inside, expanded] + before + after :: c in [inside, expanded] || c in before + after;
  }

  /**
   The host accepts the result exactly when a bound is present: with no
   bound, the conjunctions the source builds are empty.
   */
  lemma WellFormedIffBounded(field: string, begin: int, end: int)
    ensures WellFormed(Or(GetDateConstraint(field, begin, end))) <==> begin != 0 || end != 0
  {
    var r := GetDateConstraint(field, begin, end);
    if begin == 0 && end == 0 {
      assert NoEndDate(field, begin, end) == [];
      assert r[0].operands[0] in r[0].operands && !WellFormed(r[0].operands[0]);
      assert r[0] in r && !WellFormed(r[0]);
    } else {
      assert WellFormed(r[0]);
      assert forall c | c in r[1].operands :: WellFormed(c);
    }
  }

  lemma WhenHolds(c: bool, e: Expr, row: Row)
    ensures Holds(And(When(c, e)), row) <==> (c ==> Holds(e, row))
    ensures Holds(Or(When(c, e)), row) <==> (c && Holds(e, row))
  {
    Single(e, row);
  }

  /** `x` is at or after `begin` when present and at or before `end` when present. */
  predicate Within(x: int, begin: int, end: int) {
    (begin != 0 ==> x >= begin) && (end != 0 ==> x <= end)
  }

  lemma NoEndDateHolds(field: string, begin: int, end: int, row: Row)
    ensures Holds(And(NoEndDate(field, begin, end)), row) <==> Within(row(field), begin, end)
  {
    WhenHolds(begin != 0, Geq(field, begin), row);
    WhenHolds(end != 0, Leq(field, end), row);
    AndConcat(When(begin != 0, Geq(field, begin)), When(end != 0, Leq(field, end)), row);
  }

  lemma InsideMonthHolds(field: string, begin: int, end: int, row: Row)
    ensures Holds(And(InsideMonth(field, begin, end)), row)
        <==> Within(row(field), begin, end) && (end != 0 ==> row(EVENT_END) <= end)
  {
    NoEndDateHolds(field, begin, end, row);
    WhenHolds(end != 0, Leq(EVENT_END, end), row);
    AndConcat(NoEndDate(field, begin, end), When(end != 0, Leq(EVENT_END, end)), row);
  }

  lemma ExpandedHolds(field: string, begin: int, end: int, row: Row)
    ensures Holds(And(ExpandedMonthBeforeToMonthAfter(field, begin, end)), row)
        <==> (begin != 0 ==> row(field) <= begin) && (end != 0 ==> row(EVENT_END) >= end)
  {
    WhenHolds(begin != 0, Leq(field, begin), row);
    WhenHolds(end != 0, Geq(EVENT_END, end), row);
    AndConcat(When(begin != 0, Leq(field, begin)), When(end != 0, Geq(EVENT_END, end)), row);
  }

  lemma RunsOverHolds(field: string, c: bool, t: int, row: Row)
    ensures Holds(Or(When(c, RunsOver(field, t))), row) <==> c && row(field) <= t && row(EVENT_END) >= t
  {
    Pair(Leq(field, t), Geq(EVENT_END, t), row);
    WhenHolds(c, RunsOver(field, t), row);
  }

  /**
   What the result says of a row: its start lies in the window, or the
   event lies inside the window, spans it, or runs over its beginning or
   its end, each case reduced to the bounds that are present.
   */
  lemma {:induction false} Parts(field: string, begin: int, end: int, row: Row)
    ensures var start, stop := row(field), row(EVENT_END);
      Holds(Or(GetDateConstraint(field, begin, end)), row) <==>
        Within(start, begin, end) ||
        (Within(start, begin, end) && (end != 0 ==> stop <= end)) ||
        ((begin != 0 ==> start <= begin) && (end != 0 ==> stop >= end)) ||
        (begin != 0 && start <= begin && stop >= begin) ||
        (end != 0 && start <= end && stop >= end)
  {
    var noEnd := And([And(NoEndDate(field, begin, end))]);
    Single(And(NoEndDate(field, begin, end)), row);
    NoEndDateHolds(field, begin, end, row);
    var inside, expanded := And(InsideMonth(field, begin, end)), And(ExpandedMonthBeforeToMonthAfter(field, begin, end));
    InsideMonthHolds(field, begin, end, row);
    ExpandedHolds(field, begin, end, row);
    Pair(inside, expanded, row);
    var before, after := When(begin != 0, RunsOver(field, begin)), When(end != 0, RunsOver(field, end));
    RunsOverHolds(field, begin != 0, begin, row);
    RunsOverHolds(field, end != 0, end, row);
    OrConcat([inside, expanded], before, row);
    OrConcat([inside, expanded] + before, after, row);
    Pair(noEnd, Or([inside, expanded] + before + after), row);
  }

  /**
   With both bounds present, in order, a row matches exactly when its start
   lies before the end of the window and either its start or its end lies
   at or after the beginning of the window.
   */
  lemma {:induction false} MeaningBothBounds(field: string, begin: int, end: int, row: Row)
    requires begin != 0 && end != 0 && begin <= end
    ensures Holds(Or(GetDateConstraint(field, begin, end)), row)
        <==> row(field) <= end && (begin <= row(field) || begin <= row(EVENT_END))
  {
    Parts(field, begin, end, row);
  }

  /**
   The case comments of the source: for an event that does not end before
   it starts, the constraint selects exactly the events whose time span
   overlaps the window.
   */
  lemma OverlapsWindow(field: string, begin: int, end: int, row: Row)
    requires begin != 0 && end != 0 && begin <= end
    requires row(EVENT_END) >= row(field)
    ensures Holds(Or(GetDateConstraint(field, begin, end)), row)
        <==> row(field) <= end && row(EVENT_END) >= begin
  {
    MeaningBothBounds(field, begin, end, row);
  }

  /**
   With only an end bound, a row matches when it starts at or before it or
   ends at or after it: the spanning case is left with its end comparison
   alone.
   */
  lemma {:induction false} MeaningEndOnly(field: string, end: int, row: Row)
    requires end != 0
    ensures Holds(Or(GetDateConstraint(field, 0, end)), row)
        <==> row(field) <= end || row(EVENT_END) >= end
  {
    Parts(field, 0, end, row);
  }

  /**
   With only a begin bound, every row matches: the events without an end
   date select those starting at or after it and the spanning case, left
   with its begin comparison alone, those starting at or before it.
   */
  lemma {:induction false} MeaningBeginOnly(field: string, begin: int, row: Row)
    requires begin != 0
    ensures Holds(Or(GetDateConstraint(field, begin, 0)), row)
  {
    Parts(field, begin, 0, row);
  }

  /**
   Bounds in the wrong order, as a time restriction may give them: an event
   lying between them overlaps no instant of the window, yet the "month
   before to month after" case selects it.
   */
  lemma {:induction false} InvertedBoundsSelect(field: string, begin: int, end: int, row: Row)
    requires 0 < end < begin
    requires end <= row(field) <= row(EVENT_END) <= begin
    ensures Holds(Or(GetDateConstraint(field, begin, end)), row)
  {
    Parts(field, begin, end, row);
  }
}

/** The optional value used for external parsers and for lookups by key. */
module Wrappers {

  datatype Option<+T> = None | Some(value: T)
}

/**
 The query constraints the hook builds. The host framework's query object
 (equals, in, greaterThanOrEqual, lessThanOrEqual, logicalAnd, logicalOr)
 is replaced by the constructors of `Expr`, and the database row a query is
 run against by a `Row`, which gives every column an integer value.
 */
module Query {

  datatype Expr =
    | Eq(field: string, value: int)
    | In(field: string, values: seq<int>)
    | Geq(field: string, value: int)
    | Leq(field: string, value: int)
    | And(operands: seq<Expr>)
    | Or(operands: seq<Expr>)

  type Row = string -> int

  /** What a constraint means: whether the row satisfies it. */
  predicate Holds(e: Expr, row: Row) {
    match e
    case Eq(f, v) => row(f) == v
    case In(f, vs) => row(f) in vs
    case Geq(f, v) => row(f) >= v
    case Leq(f, v) => row(f) <= v
    case And(cs) => forall c | c in cs :: Holds(c, row)
    case Or(cs) => exists c | c in cs :: Holds(c, row)
  }

  /**
   The host's query object refuses a conjunction or disjunction of no
   operands and an `in` over an empty list; a well-formed constraint has
   none of these anywhere in it.
   */
  predicate WellFormed(e: Expr) {
    match e
    case In(_, vs) => |vs| > 0
    case And(cs) => |cs| > 0 && forall c | c in cs :: WellFormed(c)
    case Or(cs) => |cs| > 0 && forall c | c in cs :: WellFormed(c)
    case _ => true
  }

  /**
   Every `<=` / `>=` comparison inside the constraint is against one of
   `bounds`.
   */
  predicate ComparesWithin(e: Expr, bounds: set<int>) {
    match e
    case Geq(_, v) => v in bounds
    case Leq(_, v) => v in bounds
    case And(cs) => forall c | c in cs :: ComparesWithin(c, bounds)
    case Or(cs) => forall c | c in cs :: ComparesWithin(c, bounds)
    case _ => true
  }

  /** A conjunction over a concatenation is the conjunction of the parts. */
  lemma AndConcat(xs: seq<Expr>, ys: seq<Expr>, row: Row)
    ensures Holds(And(xs + ys), row) <==> Holds(And(xs), row) && Holds(And(ys), row)
  {
    assert forall c | c in xs + ys :: c in xs || c in ys;
  }

  /** A disjunction over a concatenation is the disjunction of the parts. */
  lemma OrConcat(xs: seq<Expr>, ys: seq<Expr>, row: Row)
    ensures Holds(Or(xs + ys), row) <==> Holds(Or(xs), row) || Holds(Or(ys), row)
  {
    if Holds(Or(xs), row) {
      var c :| c in xs && Holds(c, row);
      assert c in xs + ys;
    } else if Holds(Or(ys), row) {
      var c :| c in ys && Holds(c, row);
      assert c in xs + ys;
    }
  }

  lemma Single(x: Expr, row: Row)
    ensures Holds(And([x]), row) <==> Holds(x, row)
    ensures Holds(Or([x]), row) <==> Holds(x, row)
  {
    assert x in [x];
  }

  lemma Pair(x: Expr, y: Expr, row: Row)
    ensures Holds(And([x, y]), row) <==> Holds(x, row) && Holds(y, row)
    ensures Holds(Or([x, y]), row) <==> Holds(x, row) || Holds(y, row)
  {
    assert x in [x, y] && y in [x, y];
  }
}

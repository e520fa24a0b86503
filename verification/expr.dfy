/** The expression nodes a rewrite may put in SQL, and the constructors builders call. */
module Expressions {
  import opened Bags

  /** One lexical token of SQL text. Reserved words and names are told apart by the lexer. */
  datatype Token =
    | Name(name: string)
    | Number(value: int)
    | Keyword(word: string)
    | Operator(symbol: string)
    | LParen
    | RParen
    | Comma
    | Dot

  datatype Comparator = Eq | Ne | Lt | Le | Gt | Ge

  datatype Connective = And | Or

  datatype AggregateFunction = AggMin | AggMax | AnyValue

  datatype WindowFunction = WinMin | WinMax | FirstValue | LastValue | RowNumber

  datatype FrameKind = FrameRows | FrameRange

  datatype Expr =
    | ColumnRef(name: string, relation: Option<string>)
    | IntLiteral(value: int)
    | BooleanLiteral(truth: bool)
    | RawExpr(sql: seq<Token>)
    | TypedNull(nullType: string)
    | GeneratedPredicate(text: seq<Token>)
    | Comparison(comparator: Comparator, left: Expr, right: Expr)
    | BoolOp(connective: Connective, left: Expr, right: Expr)
    | Not(operand: Expr)
    | IsNull(operand: Expr, negated: bool)
    | Mod(operand: Expr, modulus: int)
    | Case(condition: Expr, thenExpr: Expr, elseExpr: Expr)
    | AggregateCall(aggregate: AggregateFunction, arg: Expr)
    | WindowCall(window: WindowFunction, warg: Option<Expr>, partitionBy: seq<Expr>, orderBy: seq<Expr>,
                 frame: Option<FrameKind>)

  // ---- constructors -------------------------------------------------------------------------

  function Col(name: string): Expr { ColumnRef(name, None) }

  function QualifiedCol(relation: string, name: string): Expr { ColumnRef(name, Some(relation)) }

  function Equals(l: Expr, r: Expr): Expr { Comparison(Eq, l, r) }

  function NotEquals(l: Expr, r: Expr): Expr { Comparison(Ne, l, r) }

  /** AND extra onto an existing filter, which may be absent. */
  function Conjoin(existing: Option<Expr>, extra: Expr): Expr {
    if existing.None? then extra else BoolOp(And, existing.value, extra)
  }

  /** p OR NOT p OR p IS NULL. */
  function DeterminedTrue(p: Expr): Expr {
    BoolOp(Or, BoolOp(Or, p, Not(p)), IsNull(p, false))
  }

  /** p AND NOT p AND p IS NOT NULL. */
  function DeterminedFalse(p: Expr): Expr {
    BoolOp(And, BoolOp(And, p, Not(p)), IsNull(p, true))
  }

  /** ROW_NUMBER() OVER (ORDER BY key). */
  function RowNumberOver(key: Expr): Expr {
    WindowCall(RowNumber, None, [], [key], None)
  }

  /** The predicate that no row satisfies. */
  const EMPTY := Equals(IntLiteral(1), IntLiteral(0))

  /** An expression whose value is TRUE, FALSE or NULL. */
  predicate IsPredicate(e: Expr) {
    e.BooleanLiteral? || e.GeneratedPredicate? || e.Comparison? || e.BoolOp? || e.Not? || e.IsNull?
  }

  /** An expression that looks at one row only: no aggregate and no window inside it. */
  predicate RowLevel(e: Expr) {
    match e
    case Comparison(_, l, r) => RowLevel(l) && RowLevel(r)
    case BoolOp(_, l, r) => RowLevel(l) && RowLevel(r)
    case Not(x) => RowLevel(x)
    case IsNull(x, _) => RowLevel(x)
    case Mod(x, _) => RowLevel(x)
    case Case(c, t, f) => RowLevel(c) && RowLevel(t) && RowLevel(f)
    case AggregateCall(_, _) => false
    case WindowCall(_, _, _, _, _) => false
    case _ => true
  }

  /** There is an aggregate somewhere in it. */
  predicate HasAggregate(e: Expr) {
    match e
    case Comparison(_, l, r) => HasAggregate(l) || HasAggregate(r)
    case BoolOp(_, l, r) => HasAggregate(l) || HasAggregate(r)
    case Not(x) => HasAggregate(x)
    case IsNull(x, _) => HasAggregate(x)
    case Mod(x, _) => HasAggregate(x)
    case Case(c, t, f) => HasAggregate(c) || HasAggregate(t) || HasAggregate(f)
    case AggregateCall(_, _) => true
    case WindowCall(_, x, parts, order, _) =>
      || (x.Some? && HasAggregate(x.value))
      || (exists k :: 0 <= k < |parts| && HasAggregate(parts[k]))
      || (exists k :: 0 <= k < |order| && HasAggregate(order[k]))
    case _ => false
  }

  lemma {:induction false} RowLevelNoAggregate(e: Expr)
    requires RowLevel(e)
    ensures !HasAggregate(e)
  {
    match e
    case Comparison(_, l, r) =>
      RowLevelNoAggregate(l);
      RowLevelNoAggregate(r);
    case BoolOp(_, l, r) =>
      RowLevelNoAggregate(l);
      RowLevelNoAggregate(r);
    case Not(x) => RowLevelNoAggregate(x);
    case IsNull(x, _) => RowLevelNoAggregate(x);
    case Mod(x, _) => RowLevelNoAggregate(x);
    case Case(c, t, f) =>
      RowLevelNoAggregate(c);
      RowLevelNoAggregate(t);
      RowLevelNoAggregate(f);
    case _ =>
  }
}

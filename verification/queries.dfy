/** What a query means: a relation computed from the relations it reads.

    An engine is free to list the rows of a bag in any order and to number, group and pick from
    them accordingly. That freedom is the enumerate field of a World: every statement below holds
    for every World, so for every choice an engine could make. */
module Queries {
  import opened Bags
  import opened Expressions
  import opened Values
  import opened Enumerations

  /** Which occasion of reading this is. Two occasions may enumerate the same bag differently. */
  type Path = seq<nat>

  datatype World = World(
    judge: (seq<Token>, seq<string>, Row) -> Truth,   // the value of opaque predicate text on a row
    raw: (seq<Token>, seq<string>, Row) -> Value,     // the value of an opaque expression on a row
    enumerate: (Path, multiset<Row>) -> seq<Unit>)

  // ---- expressions --------------------------------------------------------------------------

  function Aggregate(fn: AggregateFunction, vs: seq<Value>): Value
    requires vs != []
  {
    match fn case AggMin => MinOf(vs) case AggMax => MaxOf(vs) case AnyValue => vs[0]
  }

  function WindowValue(fn: WindowFunction, vs: seq<Value>): Value {
    if vs == [] then Null
    else match fn
      case WinMin => MinOf(vs)
      case WinMax => MaxOf(vs)
      case FirstValue => vs[0]
      case LastValue => vs[|vs| - 1]
      case RowNumber => Null
  }

  /** The value of e at position i. The frame of a window call with ORDER BY and no frame clause
      ends at the last peer of the current row; every other frame is the whole partition. */
  ghost function Eval(w: World, e: Expr, cols: seq<string>, units: seq<Unit>, i: nat): Value
    requires NonEmpty(units) && i < |units|
    decreases e
  {
    match e
    case ColumnRef(_, _) => Lookup(cols, units[i][0], ColumnSql(e))
    case IntLiteral(n) => Int(n)
    case BooleanLiteral(t) => Bool(t)
    case RawExpr(sql) => w.raw(sql, cols, units[i][0])
    case TypedNull(_) => Null
    case GeneratedPredicate(text) => OfTruth(w.judge(text, cols, units[i][0]))
    case Comparison(c, l, r) => OfTruth(Compare(c, Eval(w, l, cols, units, i), Eval(w, r, cols, units, i)))
    case BoolOp(And, l, r) => OfTruth(And3(TruthOf(Eval(w, l, cols, units, i)), TruthOf(Eval(w, r, cols, units, i))))
    case BoolOp(Or, l, r) => OfTruth(Or3(TruthOf(Eval(w, l, cols, units, i)), TruthOf(Eval(w, r, cols, units, i))))
    case Not(x) => OfTruth(Not3(TruthOf(Eval(w, x, cols, units, i))))
    case IsNull(x, negated) => Bool((Eval(w, x, cols, units, i) == Null) != negated)
    case Mod(x, m) => ModValue(Eval(w, x, cols, units, i), m)
    case Case(c, t, f) => if IsTrue(Eval(w, c, cols, units, i)) then Eval(w, t, cols, units, i) else Eval(w, f, cols, units, i)
    case AggregateCall(fn, arg) =>
      Aggregate(fn, seq(|units[i]|, j requires 0 <= j < |units[i]| => Eval(w, arg, cols, [[units[i][j]]], 0)))
    case WindowCall(fn, warg, parts, order, frame) =>
      var member := seq(|units|, j requires 0 <= j < |units| =>
        forall k :: 0 <= k < |parts| ==> Eval(w, parts[k], cols, units, j) == Eval(w, parts[k], cols, units, i));
      if fn == RowNumber then Int(|Collect(units[..i + 1], member[..i + 1])|)
      else if warg.None? then Null
      else
        var inFrame := seq(|units|, j requires 0 <= j < |units| =>
          member[j] && (frame.Some? || order == [] || j <= i ||
            forall k :: 0 <= k < |order| ==> Eval(w, order[k], cols, units, j) == Eval(w, order[k], cols, units, i)));
        var args := seq(|units|, j requires 0 <= j < |units| => Eval(w, warg.value, cols, units, j));
        WindowValue(fn, Collect(args, inFrame))
  }

  /** The value of an expression on a single row. */
  ghost function EvalRow(w: World, e: Expr, cols: seq<string>, row: Row): Value {
    Eval(w, e, cols, [[row]], 0)
  }

  /** Whether a row passes an optional filter. */
  ghost predicate Passes(w: World, filter: Option<Expr>, cols: seq<string>, row: Row) {
    filter.None? || IsTrue(EvalRow(w, filter.value, cols, row))
  }

  lemma {:induction false} RowLevelEval(w: World, e: Expr, cols: seq<string>, units: seq<Unit>, i: nat)
    requires RowLevel(e) && NonEmpty(units) && i < |units|
    ensures Eval(w, e, cols, units, i) == EvalRow(w, e, cols, units[i][0])
  {
    match e
    case Comparison(_, l, r) =>
      RowLevelEval(w, l, cols, units, i);
      RowLevelEval(w, r, cols, units, i);
    case BoolOp(_, l, r) =>
      RowLevelEval(w, l, cols, units, i);
      RowLevelEval(w, r, cols, units, i);
    case Not(x) => RowLevelEval(w, x, cols, units, i);
    case IsNull(x, _) => RowLevelEval(w, x, cols, units, i);
    case Mod(x, _) => RowLevelEval(w, x, cols, units, i);
    case Case(c, t, f) =>
      RowLevelEval(w, c, cols, units, i);
      RowLevelEval(w, t, cols, units, i);
      RowLevelEval(w, f, cols, units, i);
    case _ =>
  }

  // ---- SELECT -------------------------------------------------------------------------------

  datatype Item = Item(alias: string, expr: Expr)

  /** The clauses of one SELECT. A missing projection is SELECT *. */
  datatype Select = Select(
    projection: Option<seq<Item>>,
    filter: Option<Expr>,
    distinct: bool,
    groupBy: Option<seq<Expr>>,
    qualify: Option<Expr>,
    orderBy: Option<seq<Expr>>)

  const STAR := Select(None, None, false, None, None, None)

  function Aliases(items: seq<Item>): seq<string> {
    seq(|items|, k requires 0 <= k < |items| => items[k].alias)
  }

  function OutCols(sel: Select, cols: seq<string>): seq<string> {
    if sel.projection.None? then cols else Aliases(sel.projection.value)
  }

  /** The values a row has for the GROUP BY expressions. */
  ghost function KeyVector(w: World, keys: seq<Expr>, cols: seq<string>, row: Row): seq<Value> {
    seq(|keys|, k requires 0 <= k < |keys| => EvalRow(w, keys[k], cols, row))
  }

  ghost function GroupKey(w: World, keys: Option<seq<Expr>>, cols: seq<string>): Option<KeyFunction> {
    if keys.None? then None else Some((row: Row) => KeyVector(w, keys.value, cols, row))
  }

  /** The rows that pass WHERE. */
  ghost function Where(w: World, filter: Option<Expr>, src: Rel): multiset<Row> {
    FilterBag(src.rows, r => Passes(w, filter, src.cols, r))
  }

  ghost function OutRow(w: World, sel: Select, cols: seq<string>, units: seq<Unit>, i: nat): Row
    requires NonEmpty(units) && i < |units|
  {
    if sel.projection.None? then units[i][0] else
      seq(|sel.projection.value|, k requires 0 <= k < |sel.projection.value| =>
        Eval(w, sel.projection.value[k].expr, cols, units, i))
  }

  ghost predicate Kept(w: World, sel: Select, cols: seq<string>, units: seq<Unit>, i: nat)
    requires NonEmpty(units) && i < |units|
  {
    sel.qualify.None? || IsTrue(Eval(w, sel.qualify.value, cols, units, i))
  }

  ghost function OutRows(w: World, sel: Select, cols: seq<string>, units: seq<Unit>): seq<Row>
    requires NonEmpty(units)
  {
    seq(|units|, i requires 0 <= i < |units| => OutRow(w, sel, cols, units, i))
  }

  ghost function KeptFlags(w: World, sel: Select, cols: seq<string>, units: seq<Unit>): seq<bool>
    requires NonEmpty(units)
  {
    seq(|units|, i requires 0 <= i < |units| => Kept(w, sel, cols, units, i))
  }

  /** The output rows before DISTINCT: projected, and filtered by QUALIFY. */
  ghost function Output(w: World, sel: Select, cols: seq<string>, units: seq<Unit>): seq<Row>
    requires NonEmpty(units)
  {
    Collect(OutRows(w, sel, cols, units), KeptFlags(w, sel, cols, units))
  }

  /** The order in which the engine lists the units of one SELECT. Every window of the SELECT numbers in it, so
      two windows with orders of their own are not told apart here; no list of the tree has two. */
  ghost function SelectUnits(w: World, path: Path, sel: Select, src: Rel): (u: seq<Unit>)
    ensures ValidUnits(GroupKey(w, sel.groupBy, src.cols), Where(w, sel.filter, src), u)
  {
    var bag := Where(w, sel.filter, src);
    UnitsOf(w.enumerate(path, bag), GroupKey(w, sel.groupBy, src.cols), bag)
  }

  /** An aggregate and no GROUP BY: all rows together are the one group, even when there are none. */
  predicate OneGroup(sel: Select) {
    && sel.groupBy.None?
    && ((sel.projection.Some? && exists k :: 0 <= k < |sel.projection.value| && HasAggregate(sel.projection.value[k].expr))
        || (sel.qualify.Some? && HasAggregate(sel.qualify.value)))
  }

  /** The value of e on a group without rows: an aggregate, or a column, is NULL there. */
  ghost function EvalEmpty(w: World, e: Expr, cols: seq<string>): Value {
    match e
    case ColumnRef(_, _) => Null
    case IntLiteral(n) => Int(n)
    case BooleanLiteral(t) => Bool(t)
    case RawExpr(sql) => w.raw(sql, cols, [])
    case TypedNull(_) => Null
    case GeneratedPredicate(text) => OfTruth(w.judge(text, cols, []))
    case Comparison(c, l, r) => OfTruth(Compare(c, EvalEmpty(w, l, cols), EvalEmpty(w, r, cols)))
    case BoolOp(And, l, r) => OfTruth(And3(TruthOf(EvalEmpty(w, l, cols)), TruthOf(EvalEmpty(w, r, cols))))
    case BoolOp(Or, l, r) => OfTruth(Or3(TruthOf(EvalEmpty(w, l, cols)), TruthOf(EvalEmpty(w, r, cols))))
    case Not(x) => OfTruth(Not3(TruthOf(EvalEmpty(w, x, cols))))
    case IsNull(x, negated) => Bool((EvalEmpty(w, x, cols) == Null) != negated)
    case Mod(x, m) => ModValue(EvalEmpty(w, x, cols), m)
    case Case(c, t, f) => if IsTrue(EvalEmpty(w, c, cols)) then EvalEmpty(w, t, cols) else EvalEmpty(w, f, cols)
    case AggregateCall(_, _) => Null
    case WindowCall(fn, warg, _, _, _) =>
      if fn == RowNumber then Int(1) else if warg.None? then Null else EvalEmpty(w, warg.value, cols)
  }

  /** The one group, in the order the engine lists it. */
  ghost function GroupUnit(w: World, path: Path, sel: Select, src: Rel): (u: Unit)
    ensures multiset(u) == Where(w, sel.filter, src)
  {
    var bag := Where(w, sel.filter, src);
    Flatten(UnitsOf(w.enumerate(path, bag), None, bag))
  }

  ghost function EmptyRow(w: World, items: seq<Item>, cols: seq<string>): Row {
    seq(|items|, k requires 0 <= k < |items| => EvalEmpty(w, items[k].expr, cols))
  }

  /** The one output row, unless QUALIFY drops it. */
  ghost function GroupRows(w: World, sel: Select, cols: seq<string>, unit: Unit): multiset<Row> {
    if unit != [] then multiset(Output(w, sel, cols, [unit]))
    else if sel.qualify.Some? && !IsTrue(EvalEmpty(w, sel.qualify.value, cols)) then multiset{}
    else multiset{if sel.projection.None? then [] else EmptyRow(w, sel.projection.value, cols)}
  }

  /** The output rows, with duplicates. */
  ghost function SelectRows(w: World, path: Path, sel: Select, src: Rel): multiset<Row> {
    if OneGroup(sel) then GroupRows(w, sel, src.cols, GroupUnit(w, path, sel, src))
    else multiset(Output(w, sel, src.cols, SelectUnits(w, path, sel, src)))
  }

  /** WHERE, then GROUP BY, then the select list and QUALIFY, then DISTINCT. ORDER BY is not
      observable in a bag. */
  ghost function SelectRel(w: World, path: Path, sel: Select, src: Rel): Rel {
    var rows := SelectRows(w, path, sel, src);
    Rel(OutCols(sel, src.cols), if sel.distinct then Distinct(rows) else rows)
  }

  /** An ORDER BY of its own changes no row of a query. */
  lemma OrderUnseen(w: World, path: Path, sel: Select, src: Rel)
    ensures SelectRel(w, path, sel.(orderBy := None), src) == SelectRel(w, path, sel, src)
  {
    OrderUnseenRows(w, path, sel, src);
  }

  lemma OrderUnseenRows(w: World, path: Path, sel: Select, src: Rel)
    ensures SelectRows(w, path, sel.(orderBy := None), src) == SelectRows(w, path, sel, src)
  {
    var plain := sel.(orderBy := None);
    assert OneGroup(plain) <==> OneGroup(sel);
    if OneGroup(sel) {
      var unit := GroupUnit(w, path, sel, src);
      assert GroupUnit(w, path, plain, src) == unit;
      SameGroupRows(w, sel, src.cols, unit);
    } else {
      var units := SelectUnits(w, path, sel, src);
      assert SelectUnits(w, path, plain, src) == units;
      SameOutput(w, sel, src.cols, units);
    }
  }

  lemma SameGroupRows(w: World, sel: Select, cols: seq<string>, unit: Unit)
    ensures GroupRows(w, sel.(orderBy := None), cols, unit) == GroupRows(w, sel, cols, unit)
  {
    if unit != [] { SameOutput(w, sel, cols, [unit]); }
  }

  lemma SameOutput(w: World, sel: Select, cols: seq<string>, units: seq<Unit>)
    requires NonEmpty(units)
    ensures Output(w, sel.(orderBy := None), cols, units) == Output(w, sel, cols, units)
  {
    var plain := sel.(orderBy := None);
    forall i | 0 <= i < |units|
      ensures OutRow(w, plain, cols, units, i) == OutRow(w, sel, cols, units, i) && (Kept(w, plain, cols, units, i) <==> Kept(w, sel, cols, units, i))
    {
    }
    assert OutRows(w, plain, cols, units) == OutRows(w, sel, cols, units);
    assert KeptFlags(w, plain, cols, units) == KeptFlags(w, sel, cols, units);
  }

  // ---- joins (ISO/IEC 9075:1992, section 7.5) -------------------------------------------------

  datatype JoinType = Inner | LeftOuter | RightOuter | FullOuter | Cross | Semi | Anti

  datatype Join = Join(
    joinType: JoinType,
    condition: Option<Expr>,
    projection: seq<Item>,
    leftAlias: string,
    rightAlias: string,
    filter: Option<Expr>)

  function Qualified(alias: string, cols: seq<string>): seq<string> {
    seq(|cols|, k requires 0 <= k < |cols| => alias + "." + cols[k])
  }

  /** The columns in scope after FROM l JOIN r. */
  function JoinScope(j: Join, l: Rel, r: Rel): seq<string> {
    Qualified(j.leftAlias, l.cols) + Qualified(j.rightAlias, r.cols)
  }

  function Nulls(n: nat): Row { seq(n, _ => Null) }

  ghost predicate Matches(w: World, j: Join, scope: seq<string>, l: Row, r: Row) {
    j.condition.None? || IsTrue(EvalRow(w, j.condition.value, scope, l + r))
  }

  ghost predicate HasRight(match_: (Row, Row) -> bool, l: Row, right: multiset<Row>) {
    exists r :: r in right && match_(l, r)
  }

  ghost predicate HasLeft(match_: (Row, Row) -> bool, left: multiset<Row>, r: Row) {
    exists l :: l in left && match_(l, r)
  }

  ghost function InnerRows(match_: (Row, Row) -> bool, left: multiset<Row>, right: multiset<Row>): multiset<Row> {
    MapBag(FilterBag(Product(left, right), (p: (Row, Row)) => match_(p.0, p.1)), (p: (Row, Row)) => p.0 + p.1)
  }

  ghost function UnmatchedLeft(match_: (Row, Row) -> bool, left: multiset<Row>, right: multiset<Row>, pad: nat): multiset<Row> {
    MapBag(FilterBag(left, l => !HasRight(match_, l, right)), (l: Row) => l + Nulls(pad))
  }

  ghost function UnmatchedRight(match_: (Row, Row) -> bool, left: multiset<Row>, right: multiset<Row>, pad: nat): multiset<Row> {
    MapBag(FilterBag(right, r => !HasLeft(match_, left, r)), (r: Row) => Nulls(pad) + r)
  }

  ghost function JoinRows(t: JoinType, match_: (Row, Row) -> bool, l: Rel, r: Rel): multiset<Row> {
    var inner := InnerRows(match_, l.rows, r.rows);
    var lonelyLeft := UnmatchedLeft(match_, l.rows, r.rows, |r.cols|);
    var lonelyRight := UnmatchedRight(match_, l.rows, r.rows, |l.cols|);
    match t
    case Inner => inner
    case Cross => inner
    case LeftOuter => inner + lonelyLeft
    case RightOuter => inner + lonelyRight
    case FullOuter => inner + lonelyLeft + lonelyRight
    case Semi => MapBag(FilterBag(l.rows, x => HasRight(match_, x, r.rows)), (x: Row) => x + Nulls(|r.cols|))
    case Anti => lonelyLeft
  }

  ghost function ProjectRow(w: World, items: seq<Item>, cols: seq<string>, row: Row): Row {
    seq(|items|, k requires 0 <= k < |items| => EvalRow(w, items[k].expr, cols, row))
  }

  ghost function JoinMatch(w: World, j: Join, l: Rel, r: Rel): (Row, Row) -> bool {
    (x: Row, y: Row) => Matches(w, j, JoinScope(j, l, r), x, y)
  }

  /** FROM l JOIN r ON ..., then WHERE, then the select list. */
  ghost function JoinRel(w: World, j: Join, l: Rel, r: Rel): Rel {
    var scope := JoinScope(j, l, r);
    var joined := JoinRows(j.joinType, JoinMatch(w, j, l, r), l, r);
    Rel(Aliases(j.projection),
        MapBag(FilterBag(joined, x => Passes(w, j.filter, scope, x)), x => ProjectRow(w, j.projection, scope, x)))
  }

  // ---- reading by name ----------------------------------------------------------------------

  /** The values a row has in the named columns. */
  function ByName(cols: seq<string>, names: seq<string>, r: Row): Row {
    seq(|names|, k requires 0 <= k < |names| => Lookup(cols, r, names[k]))
  }

  ghost function ByNameOf(cols: seq<string>, names: seq<string>): Row -> Row {
    (r: Row) => ByName(cols, names, r)
  }

  // ---- queries ------------------------------------------------------------------------------

  /** The query after AS. S says how a source is referred to: a node while the tree is being
      built, a name once it is SQL. Derived is SELECT ... FROM (body), which only emitters write. */
  datatype Query<S> =
    | SelectQ(source: S, select: Select)
    | Derived(select: Select, body: Query<S>)
    | UnionAllQ(branches: seq<S>)
    | ExceptAllQ(left: S, right: S)
    | IntersectAllQ(left: S, right: S)
    | CteQ(source: S, cteName: string, filter: Option<Expr>, materialize: Option<bool>)
    | LateralQ(source: S, names: seq<string>)
    | JoinQ(left: S, right: S, join: Join)

  function Sources<S>(q: Query<S>): seq<S> {
    match q
    case SelectQ(s, _) => [s]
    case Derived(_, body) => Sources(body)
    case UnionAllQ(bs) => bs
    case ExceptAllQ(l, r) => [l, r]
    case IntersectAllQ(l, r) => [l, r]
    case CteQ(s, _, _, _) => [s]
    case LateralQ(s, _) => [s]
    case JoinQ(l, r, _) => [l, r]
  }

  /** Where a source's rows come from, given which occurrence in the query is being read. */
  type Reader<!S> = (nat, S) -> Rel

  ghost function UnionRows<S>(branches: seq<S>, src: Reader<S>): multiset<Row> {
    if branches == [] then multiset{}
    else
      var k := |branches| - 1;
      UnionRows(branches[..k], src) + src(k, branches[k]).rows
  }

  ghost function QueryRel<S>(w: World, path: Path, q: Query<S>, src: Reader<S>): Rel
    decreases q
  {
    match q
    case SelectQ(s, sel) => SelectRel(w, path, sel, src(0, s))
    case Derived(sel, body) => SelectRel(w, path, sel, QueryRel(w, path + [0], body, src))
    case UnionAllQ(bs) => if bs == [] then EMPTY_REL else Rel(src(0, bs[0]).cols, UnionRows(bs, src))
    case ExceptAllQ(l, r) => Rel(src(0, l).cols, src(0, l).rows - src(1, r).rows)
    case IntersectAllQ(l, r) => Rel(src(0, l).cols, src(0, l).rows * src(1, r).rows)
    case CteQ(s, _, p, _) => SelectRel(w, path, STAR.(filter := p), src(0, s))
    case LateralQ(s, names) =>
      Rel(names, MapBag(src(0, s).rows, ByNameOf(src(0, s).cols, names)))
    case JoinQ(l, r, j) => JoinRel(w, j, src(0, l), src(1, r))
  }
}

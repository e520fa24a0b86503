/** The builders, as what each of them makes of the children it was given, and the proof that every tree they
    can draw follows the rules. */
module Builders {
  import opened Bags
  import opened Expressions
  import opened Values
  import opened Queries
  import opened Graphs
  import opened Engine
  import opened Emission
  import opened Compile
  import opened Selects
  import opened Partitions
  import opened Channels
  import opened Joins
  import opened Rules
  import opened Meaning
  import opened Rewrite
  import Dialects

  /** Queries over anything that holds all the base rows, and over its rows with a key. */
  datatype Scan =
    | SelectStar(source: nat, filter: Option<Expr>)
    | ExplicitProjection(source: nat, filter: Option<Expr>)
    | CommonTable(source: nat, name: string, filter: Option<Expr>, hint: Option<bool>)
    | Lateral(source: nat)
    | OrderedScan(source: nat)
    | QualifyScan(source: nat)
    | DeterminedWhere(source: nat, filter: Option<Expr>, p: Expr)
    | CaseColumns(source: nat, types: seq<string>, ps: seq<Expr>)
    | WindowColumns(source: nat, fn: WindowFunction, frame: Option<FrameKind>, eligible: seq<bool>)
    | AddColumn(source: nat, extra: string, ty: string)
    | NumberRows(source: nat, key: string)
    | BaseColumns(source: nat)
    | GroupKeyed(source: nat, key: string)

  /** Partitions and set algebra. */
  datatype Split =
    | ParityUnion(even: nat, odd: nat, filter: Option<Expr>, key: string)
    | TernaryUnion(yes: nat, no: nat, unknown: nat, filter: Option<Expr>, text: seq<Token>)
    | RankBranch(source: nat, key: string, modulus: nat, residue: nat)
    | RankUnion(source: nat, key: string, branches: seq<nat>)
    | UnionEmpty(left: nat, right: nat)
    | ExceptEmpty(left: nat, right: nat)
    | IntersectSelf(left: nat, right: nat)

  /** Joins, and the flags and halves that are joined. */
  datatype Pairing =
    | LeftJoinEmpty(left: nat, right: nat)
    | FlagRows(source: nat, key: string, mark: Option<string>)
    | FlagJoinOf(joinType: JoinType, left: nat, right: nat, key: string, flag: string)
    | SemiJoinOf(left: nat, right: nat, key: string)
    | CrossJoinOf(left: nat, right: nat, key: string)
    | Half(source: nat, key: string, upper: bool)
    | SequenceJoin(source: nat, left: nat, right: nat, key: string)

  /** Expansions, and the queries that undo them. */
  datatype Channel =
    | MarkKept(source: nat, tag: string)
    | Throwaway(source: nat, tag: string)
    | TagUnionOf(keep: nat, throw: nat, tag: string, times: nat)
    | KeepTagged(source: nat, tag: string)
    | KeyUnion(source: nat, key: string, times: nat)
    | DistinctAll(source: nat, key: string)
    | DistinctKeyed(source: nat, key: string)
    | DistinctWindow(source: nat, key: string)
    | QualifyKeyed(source: nat, key: string)
    | GroupAnyValue(source: nat, key: string)

  datatype Drawing = OfScan(scan: Scan) | OfSplit(split: Split) | OfPairing(pairing: Pairing) | OfChannel(channel: Channel)

  /** One node a builder makes: which builder, the children it got, and what it drew at random. */
  datatype Choice =
    | Base
    | AQuery(drawing: Drawing)
    | View(query: nat, name: string)
    | Table(query: nat, name: string)
    | Reinsert(query: nat, name: string, mutation: Option<Expr>)
    | Update(query: nat, name: string, mutation: Option<Expr>)
    | Prune(child: nat, name: string, tag: string)
    | InsertThrowaway(child: nat, tag: string)
    | InsertCopies(child: nat, key: string)

  // ---- what a builder makes ------------------------------------------------------------------------

  /** One item per base column, unchanged, in declaration order. */
  function BaseItems(cols: seq<string>): seq<Item> { seq(|cols|, k requires 0 <= k < |cols| => Item(cols[k], ColumnRef(cols[k], None))) }

  /** The same columns, read from one side of a join. */
  function SideItems(side: string, cols: seq<string>): seq<Item> { seq(|cols|, k requires 0 <= k < |cols| => Item(cols[k], ColumnRef(cols[k], Some(side)))) }

  function Listing(source: nat, items: seq<Item>): Query<nat> { SelectQ(source, Select(Some(items), None, false, None, None, None)) }

  function FilteredScan(source: nat, items: seq<Item>, filter: Expr): Query<nat> { SelectQ(source, Select(Some(items), Some(filter), false, None, None, None)) }

  function DistinctScan(source: nat, items: seq<Item>): Query<nat> { SelectQ(source, Select(Some(items), None, true, None, None, None)) }

  /** The filter asked for, with one more condition. */
  function Both(filter: Option<Expr>, p: Expr): Expr { if filter.None? then p else BoolOp(And, filter.value, p) }

  /** p OR NOT p OR p IS NULL. */
  function AlwaysTrue(p: Expr): Expr { BoolOp(Or, BoolOp(Or, p, Not(p)), IsNull(p, false)) }

  function FirstColumn(cols: seq<string>): Expr { ColumnRef(if cols == [] then "" else cols[0], None) }

  function RowNumberBy(e: Expr): Expr { WindowCall(RowNumber, None, [], [e], None) }

  /** CASE WHEN always true THEN c ELSE NULL END. */
  function CaseItems(cols: seq<string>, types: seq<string>, ps: seq<Expr>): seq<Item>
    requires |types| == |ps| == |cols|
  {
    seq(|cols|, k requires 0 <= k < |cols| => Item(cols[k], Case(AlwaysTrue(ps[k]), ColumnRef(cols[k], None), TypedNull(types[k]))))
  }

  /** fn(c) OVER (PARTITION BY c ...), for the columns whose type allows it. */
  function WindowItems(cols: seq<string>, fn: WindowFunction, frame: Option<FrameKind>, eligible: seq<bool>): seq<Item>
    requires |eligible| == |cols|
  {
    seq(|cols|, k requires 0 <= k < |cols| => Item(cols[k], if eligible[k] then OverItself(cols[k], fn, frame) else ColumnRef(cols[k], None)))
  }

  function OverItself(name: string, fn: WindowFunction, frame: Option<FrameKind>): Expr {
    var c := ColumnRef(name, None);
    WindowCall(fn, Some(c), [c], if fn.FirstValue? || fn.LastValue? || frame.Some? then [c] else [], frame)
  }

  function MaxByKeyItems(cols: seq<string>, key: string): seq<Item> {
    seq(|cols|, k requires 0 <= k < |cols| => Item(cols[k], WindowCall(WinMax, Some(ColumnRef(cols[k], None)), [ColumnRef(key, None)], [], None)))
  }

  function AnyValueItems(cols: seq<string>): seq<Item> {
    seq(|cols|, k requires 0 <= k < |cols| => Item(cols[k], AggregateCall(AnyValue, ColumnRef(cols[k], None))))
  }

  function Columns(cols: seq<string>): seq<Expr> { seq(|cols|, k requires 0 <= k < |cols| => ColumnRef(cols[k], None)) }

  function KeyColumn(key: string): Item { Item(key, ColumnRef(key, None)) }

  function SameKey(key: string): Expr { Comparison(Eq, ColumnRef(key, Some("l")), ColumnRef(key, Some("r"))) }

  function ModIs(key: string, modulus: int, residue: int): Expr { Comparison(Eq, Mod(ColumnRef(key, None), modulus), IntLiteral(residue)) }

  function NotEven(key: string): Expr {
    BoolOp(Or, Comparison(Ne, Mod(ColumnRef(key, None), 2), IntLiteral(0)), IsNull(ColumnRef(key, None), false))
  }

  const NOTHING := Comparison(Eq, IntLiteral(1), IntLiteral(0))

  /** The same child several times. */
  function Times(n: nat, times: nat): seq<nat> { seq(times, _ => n) }

  // What each makes, with what it holds in terms of the base rows.

  function Scanned(cols: seq<string>, c: Scan): (Query<nat>, Spec) {
    match c
    case SelectStar(s, f) => (SelectQ(s, Select(None, f, false, None, None, None)), Rows(f))
    case ExplicitProjection(s, f) => (SelectQ(s, Select(Some(BaseItems(cols)), f, false, None, None, None)), Rows(f))
    case CommonTable(s, name, f, hint) => (CteQ(s, name, f, hint), Rows(f))
    case Lateral(s) => (LateralQ(s, cols), Rows(None))
    case OrderedScan(s) => (SelectQ(s, Select(Some(BaseItems(cols)), None, false, None, None, Some([FirstColumn(cols)]))), Rows(None))
    case QualifyScan(s) =>
      (SelectQ(s, Select(Some(BaseItems(cols)), None, false, None, Some(Comparison(Ge, RowNumberBy(FirstColumn(cols)), IntLiteral(1))), None)), Rows(None))
    case DeterminedWhere(s, f, p) => (SelectQ(s, Select(None, Some(Both(f, AlwaysTrue(p))), false, None, None, None)), Rows(f))
    case CaseColumns(s, types, ps) => (Listing(s, if |types| == |ps| == |cols| then CaseItems(cols, types, ps) else []), Rows(None))
    case WindowColumns(s, fn, frame, eligible) => (Listing(s, if |eligible| == |cols| then WindowItems(cols, fn, frame, eligible) else []), Rows(None))
    case AddColumn(s, extra, ty) => (Listing(s, BaseItems(cols) + [Item(extra, TypedNull(ty))]), Padded(extra))
    case NumberRows(s, key) => (Listing(s, BaseItems(cols) + [Item(key, RowNumberBy(FirstColumn(cols)))]), Keyed(key, false))
    case BaseColumns(s) => (Listing(s, BaseItems(cols)), Rows(None))
    case GroupKeyed(s, key) =>
      (SelectQ(s, Select(Some(BaseItems(cols)), None, false, Some(Columns(cols) + [ColumnRef(key, None)]), None, None)), Rows(None))
  }

  function Splitted(cols: seq<string>, c: Split): (Query<nat>, Spec) {
    match c
    case ParityUnion(even, odd, f, key) => (UnionAllQ([even, odd]), Rows(f))
    case TernaryUnion(yes, no, unknown, f, text) => (UnionAllQ([yes, no, unknown]), Rows(f))
    case RankBranch(s, key, modulus, residue) => (FilteredScan(s, BaseItems(cols), ModIs(key, modulus, residue)), Image)
    case RankUnion(s, key, branches) => (UnionAllQ(branches), Rows(None))
    case UnionEmpty(l, r) => (UnionAllQ([l, r]), Rows(None))
    case ExceptEmpty(l, r) => (ExceptAllQ(l, r), Rows(None))
    case IntersectSelf(l, r) => (IntersectAllQ(l, r), Rows(None))
  }

  function Paired(cols: seq<string>, c: Pairing): (Query<nat>, Spec) {
    match c
    case LeftJoinEmpty(l, r) =>
      (JoinQ(l, r, Join(LeftOuter, Some(Comparison(Eq, IntLiteral(1), IntLiteral(1))), SideItems("l", cols), "l", "r", None)), Rows(None))
    case FlagRows(s, key, flag) => (Listing(s, [KeyColumn(key)] + (if flag.None? then [] else [Item(flag.value, IntLiteral(1))])), Image)
    case FlagJoinOf(joinType, l, r, key, flag) =>
      (JoinQ(l, r, Join(joinType, Some(SameKey(key)), SideItems("l", cols), "l", "r", Some(Comparison(Eq, ColumnRef(flag, Some("r")), IntLiteral(1))))), Rows(None))
    case SemiJoinOf(l, r, key) => (JoinQ(l, r, Join(Semi, Some(SameKey(key)), SideItems("l", cols), "l", "r", None)), Rows(None))
    case CrossJoinOf(l, r, key) => (JoinQ(l, r, Join(Cross, None, SideItems("l", cols), "l", "r", Some(SameKey(key)))), Rows(None))
    case Half(s, key, upper) => (Listing(s, BaseItems(if upper then cols[|cols| / 2..] else cols[..|cols| / 2]) + [KeyColumn(key)]), Image)
    case SequenceJoin(s, l, r, key) =>
      (JoinQ(l, r, Join(FullOuter, Some(SameKey(key)), SideItems("l", cols[..|cols| / 2]) + SideItems("r", cols[|cols| / 2..]), "l", "r", None)), Rows(None))
  }

  function Channelled(cols: seq<string>, c: Channel): (Query<nat>, Spec) {
    match c
    case MarkKept(s, tag) => (Listing(s, BaseItems(cols) + [Item(tag, IntLiteral(1))]), Tagged(tag, 1))
    case Throwaway(s, tag) => (Listing(s, BaseItems(cols) + [Item(tag, IntLiteral(0))]), Filler(tag, 1))
    case TagUnionOf(keep, throw, tag, times) =>
      (if times <= 1 then SelectQ(keep, Select(None, None, false, None, None, None)) else UnionAllQ([keep] + Times(throw, times - 1)), Tagged(tag, 1))
    case KeepTagged(s, tag) => (FilteredScan(s, BaseItems(cols), Comparison(Eq, ColumnRef(tag, None), IntLiteral(1))), Rows(None))
    case KeyUnion(s, key, times) => (UnionAllQ(Times(s, times)), Copies(key))
    case DistinctAll(s, key) => (SelectQ(s, Select(None, None, true, None, None, None)), Keyed(key, false))
    case DistinctKeyed(s, key) => (DistinctScan(s, [KeyColumn(key)] + BaseItems(cols)), Keyed(key, true))
    case DistinctWindow(s, key) => (DistinctScan(s, [KeyColumn(key)] + MaxByKeyItems(cols, key)), Keyed(key, true))
    case QualifyKeyed(s, key) =>
      var first := WindowCall(RowNumber, None, [ColumnRef(key, None)], [ColumnRef(key, None)], None);
      (SelectQ(s, Select(Some([KeyColumn(key)] + BaseItems(cols)), None, false, None, Some(Comparison(Eq, first, IntLiteral(1))), None)), Keyed(key, true))
    case GroupAnyValue(s, key) => (SelectQ(s, Select(Some(AnyValueItems(cols)), None, false, Some([ColumnRef(key, None)]), None, None)), Rows(None))
  }

  function Queried(cols: seq<string>, d: Drawing): (Query<nat>, Spec) {
    match d
    case OfScan(c) => Scanned(cols, c)
    case OfSplit(c) => Splitted(cols, c)
    case OfPairing(c) => Paired(cols, c)
    case OfChannel(c) => Channelled(cols, c)
  }

  function Made(cols: seq<string>, c: Choice): (Node, Spec) {
    match c
    case AQuery(d) => (QueryNode(Queried(cols, d).0), Queried(cols, d).1)
    case Base => (BaseTable, Rows(None))
    case View(q, name) => (CreateView(name, q), Image)
    case Table(q, name) => (CreateTable(name, q), Image)
    case Reinsert(q, name, p) => (DeleteReinsert(name, q, p), Rows(None))
    case Update(q, name, p) => (NoopUpdate(name, q, BaseItems(cols), p), Rows(None))
    case Prune(m, name, tag) => (TagPrune(name, m, BaseItems(cols), tag, 1), Rows(None))
    case InsertThrowaway(m, tag) =>
      (InsertExtras(m, Select(Some(BaseItems(cols) + [Item(tag, IntLiteral(0))]), Some(Comparison(Eq, ColumnRef(tag, None), IntLiteral(1))), false, None, None, None)), Tagged(tag, 1))
    case InsertCopies(m, key) => (InsertExtras(m, Select(None, None, false, None, None, None)), Copies(key))
  }

  // ---- what it asks of its children ------------------------------------------------------------------

  /** A child that is a relation and holds what was asked for. */
  predicate Child(g: Graph, specs: seq<Spec>, n: nat, m: nat, spec: Spec)
    requires n <= |g| == |specs|
  {
    m < n && !g[m].QueryNode? && specs[m] == spec
  }

  /** A child that is a query and holds what was asked for. */
  predicate QueryChild(g: Graph, specs: seq<Spec>, n: nat, m: nat)
    requires n <= |g| == |specs|
  {
    m < n && g[m].QueryNode?
  }

  /** A view or table the builder made itself, over this query. */
  predicate OwnChild(g: Graph, n: nat, m: nat, table: bool, q: Query<nat>)
    requires n <= |g|
  {
    m < n && (if table then g[m].CreateTable? else g[m].CreateView?) && g[m].body < m && g[g[m].body] == QueryNode(q)
  }

  /** A predicate from the generator, or one of the two that stand in for it. */
  predicate FreePredicate(p: Expr) {
    p.GeneratedPredicate? || (p.Comparison? && p.comparator.Ge? && p.left.ColumnRef? && p.right == p.left) || (p.IsNull? && p.operand.ColumnRef? && !p.negated)
  }

  /** Numbering is a request for a table: its query is not used for anything else. */
  predicate Numbers(cols: seq<string>, q: Query<nat>) {
    && q.SelectQ? && q.select.projection.Some? && |q.select.projection.value| == |cols| + 1
    && q.select.projection.value[|cols|].expr == RowNumberBy(FirstColumn(cols))
  }

  // Each asks the factory for its children, or made them itself, and does not decline.

  predicate ScanAsked(base: Rel, g: Graph, specs: seq<Spec>, n: nat, c: Scan)
    requires n <= |g| == |specs|
  {
    var cols := base.cols;
    match c
    case SelectStar(s, _) => Child(g, specs, n, s, Rows(None))
    case ExplicitProjection(s, _) => Child(g, specs, n, s, Rows(None))
    case CommonTable(s, _, _, _) => Child(g, specs, n, s, Rows(None))
    case Lateral(s) => Child(g, specs, n, s, Rows(None))
    case OrderedScan(s) => Child(g, specs, n, s, Rows(None)) && cols != []
    case QualifyScan(s) => Child(g, specs, n, s, Rows(None)) && cols != []
    case DeterminedWhere(s, _, p) => Child(g, specs, n, s, Rows(None)) && FreePredicate(p)
    case CaseColumns(s, types, ps) => Child(g, specs, n, s, Rows(None)) && |types| == |ps| == |cols| && forall k :: 0 <= k < |ps| ==> FreePredicate(ps[k])
    case WindowColumns(s, fn, _, eligible) => Child(g, specs, n, s, Rows(None)) && fn != RowNumber && |eligible| == |cols|
    case AddColumn(s, extra, _) => Child(g, specs, n, s, Rows(None)) && extra !in cols
    case NumberRows(s, key) => Child(g, specs, n, s, Rows(None)) && key !in cols && cols != []
    case BaseColumns(s) => s < n && !g[s].QueryNode? && (specs[s].Padded? || specs[s].Keyed?)
    case GroupKeyed(s, key) => Child(g, specs, n, s, Keyed(key, false))
  }

  ghost predicate SplitAsked(base: Rel, g: Graph, specs: seq<Spec>, n: nat, c: Split)
    requires n <= |g| == |specs|
  {
    var cols := base.cols;
    match c
    case ParityUnion(even, odd, f, key) =>
      && IntegerColumn(base, key)
      && Child(g, specs, n, even, Rows(Some(Both(f, ModIs(key, 2, 0))))) && Child(g, specs, n, odd, Rows(Some(Both(f, NotEven(key)))))
    case TernaryUnion(yes, no, unknown, f, text) =>
      var p := GeneratedPredicate(text);
      && Child(g, specs, n, yes, Rows(Some(Both(f, p)))) && Child(g, specs, n, no, Rows(Some(Both(f, Not(p)))))
      && Child(g, specs, n, unknown, Rows(Some(Both(f, IsNull(p, false)))))
    case RankBranch(s, key, _, _) => Child(g, specs, n, s, Keyed(key, false))
    case RankUnion(s, key, branches) =>
      && Child(g, specs, n, s, Keyed(key, false)) && |branches| >= 2
      && forall r :: 0 <= r < |branches| ==> OwnChild(g, n, branches[r], false, FilteredScan(s, BaseItems(cols), ModIs(key, |branches|, r))) && s < branches[r]
    case UnionEmpty(l, r) => Child(g, specs, n, l, Rows(None)) && Child(g, specs, n, r, Rows(Some(NOTHING)))
    case ExceptEmpty(l, r) => Child(g, specs, n, l, Rows(None)) && Child(g, specs, n, r, Rows(Some(NOTHING)))
    case IntersectSelf(l, r) => Child(g, specs, n, l, Rows(None)) && Child(g, specs, n, r, Rows(None))
  }

  predicate PairingAsked(base: Rel, g: Graph, specs: seq<Spec>, n: nat, c: Pairing)
    requires n <= |g| == |specs|
  {
    var cols := base.cols;
    match c
    case LeftJoinEmpty(l, r) => Child(g, specs, n, l, Rows(None)) && Child(g, specs, n, r, Rows(Some(NOTHING)))
    case FlagRows(s, key, flag) => Child(g, specs, n, s, Keyed(key, false)) && flag != Some(key)
    case FlagJoinOf(joinType, l, r, key, flag) =>
      && Child(g, specs, n, l, Keyed(key, false)) && joinType in {Inner, LeftOuter, RightOuter, FullOuter} && flag != key
      && OwnChild(g, n, r, true, Listing(l, [KeyColumn(key)] + [Item(flag, IntLiteral(1))])) && l < r
    case SemiJoinOf(l, r, key) => Child(g, specs, n, l, Keyed(key, false)) && OwnChild(g, n, r, true, Listing(l, [KeyColumn(key)] + [])) && l < r
    case CrossJoinOf(l, r, key) => Child(g, specs, n, l, Keyed(key, false)) && OwnChild(g, n, r, true, Listing(l, [KeyColumn(key)] + [])) && l < r
    case Half(s, key, _) => Child(g, specs, n, s, Keyed(key, false))
    case SequenceJoin(s, l, r, key) =>
      && Child(g, specs, n, s, Keyed(key, false)) && |cols| >= 2 && s < l && s < r
      && OwnChild(g, n, l, false, Listing(s, BaseItems(cols[..|cols| / 2]) + [KeyColumn(key)]))
      && OwnChild(g, n, r, false, Listing(s, BaseItems(cols[|cols| / 2..]) + [KeyColumn(key)]))
  }

  predicate ChannelAsked(base: Rel, g: Graph, specs: seq<Spec>, n: nat, c: Channel)
    requires n <= |g| == |specs|
  {
    var cols := base.cols;
    match c
    case MarkKept(s, tag) => Child(g, specs, n, s, Rows(None)) && tag !in cols
    case Throwaway(s, tag) => Child(g, specs, n, s, Tagged(tag, 1))
    case TagUnionOf(keep, throw, tag, times) => Child(g, specs, n, keep, Tagged(tag, 1)) && (times >= 2 ==> Child(g, specs, n, throw, Filler(tag, 1)))
    case KeepTagged(s, tag) => Child(g, specs, n, s, Tagged(tag, 1))
    case KeyUnion(s, key, times) => Child(g, specs, n, s, Keyed(key, false)) && times >= 1
    case DistinctAll(s, key) => Child(g, specs, n, s, Copies(key))
    case DistinctKeyed(s, key) => Child(g, specs, n, s, Copies(key))
    case DistinctWindow(s, key) => Child(g, specs, n, s, Copies(key))
    case QualifyKeyed(s, key) => Child(g, specs, n, s, Copies(key)) && key != QUALIFY_COLUMN
    case GroupAnyValue(s, key) => Child(g, specs, n, s, Copies(key))
  }

  ghost predicate QueryAsked(base: Rel, g: Graph, specs: seq<Spec>, n: nat, d: Drawing)
    requires n <= |g| == |specs|
  {
    match d
    case OfScan(c) => ScanAsked(base, g, specs, n, c)
    case OfSplit(c) => SplitAsked(base, g, specs, n, c)
    case OfPairing(c) => PairingAsked(base, g, specs, n, c)
    case OfChannel(c) => ChannelAsked(base, g, specs, n, c)
  }

  ghost predicate Asked(base: Rel, g: Graph, specs: seq<Spec>, n: nat, c: Choice)
    requires n <= |g| == |specs|
  {
    var cols := base.cols;
    match c
    case AQuery(d) => QueryAsked(base, g, specs, n, d)
    case Base => true
    case View(q, _) => QueryChild(g, specs, n, q) && !Numbers(cols, g[q].query)
    case Table(q, _) => QueryChild(g, specs, n, q)
    case Reinsert(q, _, _) => QueryChild(g, specs, n, q) && specs[q] == Rows(None)
    case Update(q, _, _) => QueryChild(g, specs, n, q) && specs[q] == Rows(None)
    case Prune(m, _, tag) => Child(g, specs, n, m, Tagged(tag, 1)) && Writable(g[m])
    case InsertThrowaway(m, tag) => Child(g, specs, n, m, Tagged(tag, 1)) && Writable(g[m])
    case InsertCopies(m, key) => Child(g, specs, n, m, Copies(key)) && Writable(g[m])
  }

  /** Node n is what some builder makes of nodes before it. A view or a table holds what its query does. */
  ghost predicate Drawn(base: Rel, g: Graph, specs: seq<Spec>, n: nat, c: Choice)
    requires n < |g| == |specs|
  {
    && Asked(base, g, specs, n, c) && g[n] == Made(base.cols, c).0
    && specs[n] == if c.View? || c.Table? then specs[c.query] else Made(base.cols, c).1
  }

  /** A tree the builders can make: node by node, each from what is there. */
  ghost predicate Generated(base: Rel, g: Graph, specs: seq<Spec>, choices: seq<Choice>) {
    && |g| == |specs| == |choices|
    && forall n :: 0 <= n < |g| ==> Drawn(base, g, specs, n, choices[n])
  }

  // ---- the words are those of the rules -------------------------------------------------------------

  lemma SameItems(cols: seq<string>)
    ensures BaseItems(cols) == Passthrough(cols) && SideItems("l", cols) == QualifiedItems("l", cols) && SideItems("r", cols) == QualifiedItems("r", cols)
  {
  }

  /** A SELECT list of columns with one more item. */
  lemma MoreItems(cols: seq<string>, extra: Item)
    ensures BaseItems(cols) + [extra] == Extended(cols, extra)
    ensures |BaseItems(cols) + [extra]| == |cols| + 1 && (BaseItems(cols) + [extra])[|cols|] == extra
  {
    SameItems(cols);
  }

  lemma CaseItem(name: string, ty: string, p: Expr)
    requires FreePredicate(p)
    ensures IdentityItem(Item(name, Case(AlwaysTrue(p), ColumnRef(name, None), TypedNull(ty))), name)
  {
    if p.Comparison? { assert !HasAggregate(p.left) && !HasAggregate(p.right); }
    if p.IsNull? { assert !HasAggregate(p.operand); }
    assert !HasAggregate(p);
    assert !HasAggregate(BoolOp(Or, p, Not(p))) by { assert !HasAggregate(Not(p)); }
    assert !HasAggregate(IsNull(p, false));
    assert IsDeterminedTrue(AlwaysTrue(p));
  }

  lemma WindowItem(name: string, fn: WindowFunction, frame: Option<FrameKind>)
    requires fn != RowNumber
    ensures IdentityItem(Item(name, OverItself(name, fn, frame)), name)
  {
    var e := OverItself(name, fn, frame);
    assert forall k :: 0 <= k < |e.partitionBy| ==> !HasAggregate(e.partitionBy[k]);
    assert forall k :: 0 <= k < |e.orderBy| ==> !HasAggregate(e.orderBy[k]);
  }

  // ---- queries ----------------------------------------------------------------------------------------

  lemma IdentityFollows(base: Rel, g: Graph, specs: seq<Spec>, n: nat, c: Scan)
    requires n <= |g| == |specs| && ScanAsked(base, g, specs, n, c) && (c.QualifyScan? || c.CaseColumns? || c.WindowColumns?)
    ensures IdentityRule(base.cols, specs, Scanned(base.cols, c).0, Scanned(base.cols, c).1)
  {
    var cols, sel := base.cols, Scanned(base.cols, c).0.select;
    SameItems(cols);
    forall k | 0 <= k < |cols|
      ensures IdentityItem(sel.projection.value[k], cols[k])
    {
      match c
      case CaseColumns(_, types, ps) => CaseItem(cols[k], types[k], ps[k]);
      case WindowColumns(_, fn, frame, eligible) => if eligible[k] { WindowItem(cols[k], fn, frame); }
      case _ =>
    }
  }

  lemma NumberFollows(base: Rel, g: Graph, specs: seq<Spec>, n: nat, c: Scan)
    requires n <= |g| == |specs| && ScanAsked(base, g, specs, n, c) && c.NumberRows?
    ensures NumberRule(base.cols, specs, Scanned(base.cols, c).0, Scanned(base.cols, c).1) && Numbers(base.cols, Scanned(base.cols, c).0)
  {
    MoreItems(base.cols, Item(c.key, RowNumberBy(FirstColumn(base.cols))));
    assert RowNumberKey(RowNumberBy(FirstColumn(base.cols))) == FirstColumn(base.cols);
  }

  lemma ScanFollows(base: Rel, g: Graph, specs: seq<Spec>, n: nat, c: Scan)
    requires n <= |g| == |specs| && ScanAsked(base, g, specs, n, c) && !c.NumberRows?
    ensures SteadyRule(g, base, specs, Scanned(base.cols, c).0, Scanned(base.cols, c).1)
  {
    var q, spec := Scanned(base.cols, c).0, Scanned(base.cols, c).1;
    SameItems(base.cols);
    match c
    case DeterminedWhere(_, _, p) =>
      assert IsDeterminedTrue(AlwaysTrue(p));
      assert DeterminedRule(specs, q, spec);
    case AddColumn(_, extra, ty) =>
      MoreItems(base.cols, Item(extra, TypedNull(ty)));
      assert ExtendRule(base.cols, specs, q, spec);
    case BaseColumns(_) => assert UnwidenRule(base.cols, specs, q, spec);
    case GroupKeyed(_, key) =>
      assert (Columns(base.cols) + [ColumnRef(key, None)])[|base.cols|] == Col(key);
      assert ReduceRule(base.cols, specs, q, spec);
    case QualifyScan(_) => IdentityFollows(base, g, specs, n, c);
    case CaseColumns(_, _, _) => IdentityFollows(base, g, specs, n, c);
    case WindowColumns(_, _, _, _) => IdentityFollows(base, g, specs, n, c);
    case _ =>
  }

  lemma RankFollows(base: Rel, g: Graph, specs: seq<Spec>, n: nat, c: Split)
    requires n <= |g| == |specs| && SplitAsked(base, g, specs, n, c) && c.RankUnion?
    ensures RankRule(g, base.cols, specs, Splitted(base.cols, c).0, Splitted(base.cols, c).1)
  {
    SameItems(base.cols);
    forall r | 0 <= r < |c.branches|
      ensures ResidueBranch(g, base.cols, specs, c.branches, r)
    {
      assert OwnChild(g, n, c.branches[0], false, FilteredScan(c.source, BaseItems(base.cols), ModIs(c.key, |c.branches|, 0)));
      assert OwnChild(g, n, c.branches[r], false, FilteredScan(c.source, BaseItems(base.cols), ModIs(c.key, |c.branches|, r)));
    }
  }

  lemma SplitFollows(base: Rel, g: Graph, specs: seq<Spec>, n: nat, c: Split)
    requires n <= |g| == |specs| && SplitAsked(base, g, specs, n, c)
    ensures SteadyRule(g, base, specs, Splitted(base.cols, c).0, Splitted(base.cols, c).1)
  {
    var q, spec := Splitted(base.cols, c).0, Splitted(base.cols, c).1;
    match c
    case ParityUnion(even, odd, f, key) =>
      assert ParityOn(base, specs, [even, odd], f, key);
      assert SplitRule(base, specs, q, spec);
    case TernaryUnion(yes, no, unknown, f, text) =>
      assert TernaryOn(specs, [yes, no, unknown], f, GeneratedPredicate(text));
      assert SplitRule(base, specs, q, spec);
    case RankUnion(_, _, _) => RankFollows(base, g, specs, n, c);
    case RankBranch(_, _, _, _) => assert ImageRule(specs, q, spec);
    case _ => assert AlgebraRule(specs, q, spec);
  }

  lemma PairingFollows(base: Rel, g: Graph, specs: seq<Spec>, n: nat, c: Pairing)
    requires n <= |g| == |specs| && PairingAsked(base, g, specs, n, c)
    ensures SteadyRule(g, base, specs, Paired(base.cols, c).0, Paired(base.cols, c).1)
  {
    var q, spec := Paired(base.cols, c).0, Paired(base.cols, c).1;
    SameItems(base.cols);
    match c
    case LeftJoinEmpty(_, _) => assert LeftEmptyRule(base.cols, specs, q, spec);
    case FlagJoinOf(_, l, r, key, flag) =>
      assert FlagTable(g, r, l, key, Some(flag));
      assert FlagRule(g, base.cols, specs, q, spec);
    case SemiJoinOf(l, r, key) =>
      assert FlagTable(g, r, l, key, None);
      assert FlagRule(g, base.cols, specs, q, spec);
    case CrossJoinOf(l, r, key) =>
      assert FlagTable(g, r, l, key, None);
      assert FlagRule(g, base.cols, specs, q, spec);
    case SequenceJoin(_, _, _, _) => HalvesFollow(base, g, specs, n, c);
    case _ => assert ImageRule(specs, q, spec);
  }

  lemma HalvesFollow(base: Rel, g: Graph, specs: seq<Spec>, n: nat, c: Pairing)
    requires n <= |g| == |specs| && PairingAsked(base, g, specs, n, c) && c.SequenceJoin?
    ensures HalvesRule(g, base.cols, specs, Paired(base.cols, c).0, Paired(base.cols, c).1)
  {
    SameItems(base.cols[..|base.cols| / 2]);
    SameItems(base.cols[|base.cols| / 2..]);
  }

  lemma MaxItem(name: string, key: string)
    ensures CollapseItem(Item(name, WindowCall(WinMax, Some(ColumnRef(name, None)), [ColumnRef(key, None)], [], None)), name, key)
  {
    var e := WindowCall(WinMax, Some(ColumnRef(name, None)), [ColumnRef(key, None)], [], None);
    assert forall k :: 0 <= k < |e.partitionBy| ==> !HasAggregate(e.partitionBy[k]);
    assert MaxByKey(Item(name, e), name, key);
  }

  lemma CollapseFollows(base: Rel, g: Graph, specs: seq<Spec>, n: nat, c: Channel)
    requires n <= |g| == |specs| && ChannelAsked(base, g, specs, n, c) && (c.DistinctAll? || c.DistinctKeyed? || c.DistinctWindow? || c.QualifyKeyed?)
    ensures CollapseRule(base.cols, specs, Channelled(base.cols, c).0, Channelled(base.cols, c).1)
  {
    var cols, q := base.cols, Channelled(base.cols, c).0;
    SameItems(cols);
    match c
    case DistinctKeyed(_, key) =>
      assert ([KeyColumn(key)] + BaseItems(cols))[1..] == BaseItems(cols);
      assert CollapseSelect(q.select, cols, key);
    case DistinctWindow(_, key) =>
      assert ([KeyColumn(key)] + MaxByKeyItems(cols, key))[1..] == MaxByKeyItems(cols, key);
      forall k | 0 <= k < |cols| ensures CollapseItem(MaxByKeyItems(cols, key)[k], cols[k], key) { MaxItem(cols[k], key); }
      assert CollapseSelect(q.select, cols, key);
    case QualifyKeyed(_, key) => assert q.select == QualifySelect(cols, key);
    case DistinctAll(_, _) => assert q.select == STAR.(distinct := true);
  }

  lemma ChannelFollows(base: Rel, g: Graph, specs: seq<Spec>, n: nat, c: Channel)
    requires n <= |g| == |specs| && ChannelAsked(base, g, specs, n, c)
    ensures SteadyRule(g, base, specs, Channelled(base.cols, c).0, Channelled(base.cols, c).1)
  {
    var q, spec := Channelled(base.cols, c).0, Channelled(base.cols, c).1;
    SameItems(base.cols);
    match c
    case MarkKept(_, tag) =>
      MoreItems(base.cols, Item(tag, IntLiteral(1)));
      assert ExtendRule(base.cols, specs, q, spec);
    case Throwaway(_, tag) =>
      MoreItems(base.cols, Item(tag, IntLiteral(0)));
      assert TagRule(base.cols, specs, q, spec);
    case TagUnionOf(_, _, _, _) => assert TagRule(base.cols, specs, q, spec) || ExplodeRule(specs, q, spec);
    case KeepTagged(_, _) => assert ReduceRule(base.cols, specs, q, spec);
    case KeyUnion(s, _, times) =>
      assert Times(s, times)[0] == s;
      assert ExplodeRule(specs, q, spec);
    case GroupAnyValue(_, key) =>
      assert [ColumnRef(key, None)][0] == Col(key);
      assert ReduceRule(base.cols, specs, q, spec);
    case _ => CollapseFollows(base, g, specs, n, c);
  }

  predicate IsNumbering(d: Drawing) { d.OfScan? && d.scan.NumberRows? }

  /** Every query a builder makes follows a rule. */
  lemma QueryFollows(base: Rel, g: Graph, specs: seq<Spec>, n: nat, d: Drawing)
    requires n <= |g| == |specs| && QueryAsked(base, g, specs, n, d)
    ensures
      var q, spec := Queried(base.cols, d).0, Queried(base.cols, d).1;
      if IsNumbering(d) then NumberRule(base.cols, specs, q, spec) && Numbers(base.cols, q) else SteadyRule(g, base, specs, q, spec)
  {
    match d
    case OfScan(c) => if c.NumberRows? { NumberFollows(base, g, specs, n, c); } else { ScanFollows(base, g, specs, n, c); }
    case OfSplit(c) => SplitFollows(base, g, specs, n, c);
    case OfPairing(c) => PairingFollows(base, g, specs, n, c);
    case OfChannel(c) => ChannelFollows(base, g, specs, n, c);
  }

  // ---- trees ------------------------------------------------------------------------------------------

  /** A query reads relations that are there. */
  predicate ReadsThere(g: Graph, n: nat, q: Query<nat>)
    requires n <= |g|
  {
    && !q.Derived? && (q.UnionAllQ? ==> q.branches != [])
    && forall k :: 0 <= k < |Sources(q)| ==> Sources(q)[k] < n && !g[Sources(q)[k]].QueryNode?
  }

  lemma QueryReads(base: Rel, g: Graph, specs: seq<Spec>, n: nat, d: Drawing)
    requires n <= |g| == |specs| && QueryAsked(base, g, specs, n, d)
    ensures ReadsThere(g, n, Queried(base.cols, d).0)
  {
    if d.OfSplit? && d.split.RankUnion? {
      var c := d.split;
      forall r | 0 <= r < |c.branches|
        ensures c.branches[r] < n && !g[c.branches[r]].QueryNode?
      {
        assert OwnChild(g, n, c.branches[r], false, FilteredScan(c.source, BaseItems(base.cols), ModIs(c.key, |c.branches|, r)));
      }
    }
  }

  lemma DrawnOrdered(base: Rel, g: Graph, specs: seq<Spec>, n: nat, c: Choice)
    requires n < |g| == |specs| && Drawn(base, g, specs, n, c)
    ensures NodeOrdered(g, n)
  {
    if c.AQuery? {
      QueryReads(base, g, specs, n, c.drawing);
      SourcesThere(g, n, g[n].query);
    }
  }

  lemma SourcesThere(g: Graph, n: nat, q: Query<nat>)
    requires n < |g| && g[n] == QueryNode(q) && ReadsThere(g, n, q)
    ensures NodeOrdered(g, n)
  {
  }

  /** EVERY TREE THE BUILDERS DRAW IS WELL BUILT, whatever they draw and in whatever order. */
  lemma GeneratedWellBuilt(base: Rel, g: Graph, specs: seq<Spec>, choices: seq<Choice>)
    requires Generated(base, g, specs, choices)
    ensures WellBuilt(g, base, specs)
  {
    forall n | 0 <= n < |g| ensures NodeOrdered(g, n) { DrawnOrdered(base, g, specs, n, choices[n]); }
    forall n | 0 <= n < |g| ensures NodeRule(g, base, specs, n) { DrawnFollows(base, g, specs, choices, n); }
  }

  lemma DrawnFollows(base: Rel, g: Graph, specs: seq<Spec>, choices: seq<Choice>, n: nat)
    requires Generated(base, g, specs, choices) && Ordered(g) && n < |g|
    ensures NodeOrdered(g, n) && NodeRule(g, base, specs, n)
  {
    var c := choices[n];
    assert NodeOrdered(g, n) && Drawn(base, g, specs, n, c);
    if c.AQuery? {
      QueryFollows(base, g, specs, n, c.drawing);
    } else if c.View? {
      ViewFollows(base, g, specs, choices, n);
    } else {
      ObjectFollows(base, g, specs, n, c);
    }
  }

  lemma ViewFollows(base: Rel, g: Graph, specs: seq<Spec>, choices: seq<Choice>, n: nat)
    requires Generated(base, g, specs, choices) && Ordered(g) && n < |g| && NodeOrdered(g, n) && choices[n].View?
    ensures NodeRule(g, base, specs, n)
  {
    assert Drawn(base, g, specs, n, choices[n]);
    var q := choices[n].query;
    assert Drawn(base, g, specs, q, choices[q]);
    assert choices[q].AQuery?;
    QueryFollows(base, g, specs, q, choices[q].drawing);
  }

  lemma ObjectFollows(base: Rel, g: Graph, specs: seq<Spec>, n: nat, c: Choice)
    requires n < |g| == |specs| && Drawn(base, g, specs, n, c) && NodeOrdered(g, n) && !c.AQuery? && !c.View?
    ensures NodeRule(g, base, specs, n)
  {
    SameItems(base.cols);
    if c.InsertThrowaway? { MoreItems(base.cols, Item(c.tag, IntLiteral(0))); }
  }

  /** So the rewrite theorem holds of whatever is generated: the statements for it run, are ones the style's
      engines take, and leave the root's name reading as the base rows asked for. */
  lemma GeneratedCorrect(c: Setup, specs: seq<Spec>, choices: seq<Choice>, root: nat) returns (db: Database)
    requires Generated(c.base, c.g, specs, choices) && Shaped(c.base) && QUALIFY_COLUMN !in c.base.cols
    requires root < |c.g| && Creates(c.g[root]) && specs[root].Rows?
    requires Ordered(c.g) ==> Ready(c, Visit(c.g, root, {}))
    ensures Started(c) && Below(Visit(c.g, root, {}), |c.g|)
    ensures Run(c.w, c.prior, Script(Compile.Table(c), Visit(c.g, root, {}))) == Done(db)
    ensures Find(db, c.g[root].name) < |db|
    ensures forall path :: ReadAt(c.w, path, db, Find(db, c.g[root].name)) == Rel(c.base.cols, Where(c.w, specs[root].filter, c.base))
    ensures forall s :: s in Script(Compile.Table(c), Visit(c.g, root, {})) ==> Dialects.Proper(c.style, c.g, c.baseName, Visit(c.g, root, {}), s)
  {
    GeneratedWellBuilt(c.base, c.g, specs, choices);
    db := RewriteCorrect(c, specs, root);
  }
}

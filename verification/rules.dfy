/** The shapes of query that rewrites are made of, and what each promises about its rows.

    A specification says what a node holds in terms of the base table. Each rule is one way a builder
    puts a query together: it reads off the specifications of the sources and states that of the
    query. The rules are local, so a tree is well formed when every node follows one. */
module Rules {
  import opened Bags
  import opened Expressions
  import opened Values
  import opened Queries
  import opened Graphs
  import opened Engine
  import opened Selects
  import opened Partitions
  import opened Channels
  import opened Joins

  datatype Spec =
    | Rows(filter: Option<Expr>)               // the base rows on which the filter is TRUE
    | Padded(extra: string)                    // the base rows with one more column
    | Keyed(key: string, first: bool)          // the base rows, each with a key of its own
    | Copies(key: string)                      // keyed rows, each any positive number of times
    | Tagged(tag: string, keep: int)           // the rows tagged keep are the base rows
    | Filler(tag: string, keep: int)           // no row is tagged keep
    | Image                                    // computed row by row from its source, whatever that holds

  // ---- shapes of SELECT -----------------------------------------------------------------------

  /** SELECT * or SELECT c1, c2, ... with at most a WHERE and an ORDER BY. */
  predicate ColumnSelect(sel: Select, cols: seq<string>) {
    && !sel.distinct && sel.groupBy.None? && sel.qualify.None?
    && (sel.projection.None? || sel.projection == Some(Passthrough(cols)))
  }

  /** The filter asked for, with an always-true condition ANDed on. */
  predicate DeterminedFilter(filter: Option<Expr>, asked: Option<Expr>) {
    && filter.Some?
    && (if asked.None? then IsDeterminedTrue(filter.value)
        else filter.value.BoolOp? && filter.value.connective.And? && filter.value.left == asked.value && IsDeterminedTrue(filter.value.right))
  }

  predicate IdentityItems(items: seq<Item>, cols: seq<string>) {
    |items| == |cols| && forall k :: 0 <= k < |items| ==> IdentityItem(items[k], cols[k])
  }

  /** ROW_NUMBER() OVER (ORDER BY x) >= 1. */
  predicate KeepsAll(e: Expr) {
    e.Comparison? && e.comparator.Ge? && e.right == IntLiteral(1) && e.left.WindowCall? && e.left == RowNumberOver(RowNumberKey(e.left))
    && !HasAggregate(RowNumberKey(e.left))
  }

  function RowNumberKey(e: Expr): Expr {
    if e.WindowCall? && |e.orderBy| == 1 then e.orderBy[0] else IntLiteral(0)
  }

  /** Each column replaced by an expression for the same value, and possibly an always-true QUALIFY. */
  predicate IdentitySelect(sel: Select, cols: seq<string>) {
    && sel.projection.Some? && IdentityItems(sel.projection.value, cols)
    && (sel.qualify.None? || KeepsAll(sel.qualify.value))
    && sel == BaseSelect(sel.projection.value).(qualify := sel.qualify)
  }

  // ---- queries that give back the base rows ---------------------------------------------------

  /** SELECT * / SELECT columns / WITH ... AS (SELECT *), filtered as asked. */
  predicate FilterRule(cols: seq<string>, specs: seq<Spec>, q: Query<nat>, spec: Spec) {
    match q
    case SelectQ(s, sel) => s < |specs| && specs[s] == Rows(None) && ColumnSelect(sel, cols) && spec == Rows(sel.filter)
    case CteQ(s, _, f, _) => s < |specs| && specs[s] == Rows(None) && spec == Rows(f)
    case LateralQ(s, names) => s < |specs| && specs[s] == Rows(None) && names == cols && spec == Rows(None)
    case _ => false
  }

  predicate DeterminedRule(specs: seq<Spec>, q: Query<nat>, spec: Spec) {
    && q.SelectQ? && spec.Rows? && q.source < |specs| && specs[q.source] == Rows(None)
    && DeterminedFilter(q.select.filter, spec.filter) && q.select == STAR.(filter := q.select.filter)
  }

  predicate IdentityRule(cols: seq<string>, specs: seq<Spec>, q: Query<nat>, spec: Spec) {
    && q.SelectQ? && spec == Rows(None) && q.source < |specs| && specs[q.source] == Rows(None)
    && IdentitySelect(q.select, cols)
  }

  /** Branches whose filters split the rows asked for: parity, or p / NOT p / p IS NULL. */
  ghost predicate SplitRule(base: Rel, specs: seq<Spec>, q: Query<nat>, spec: Spec) {
    && q.UnionAllQ? && spec.Rows? && (forall i :: 0 <= i < |q.branches| ==> q.branches[i] < |specs|)
    && (ParityBranches(base, specs, q.branches, spec.filter) || TernaryBranches(specs, q.branches, spec.filter))
  }

  ghost predicate ParityBranches(base: Rel, specs: seq<Spec>, bs: seq<nat>, f: Option<Expr>)
    requires forall i :: 0 <= i < |bs| ==> bs[i] < |specs|
  {
    |bs| == 2 && exists key :: ParityOn(base, specs, bs, f, key)
  }

  ghost predicate ParityOn(base: Rel, specs: seq<Spec>, bs: seq<nat>, f: Option<Expr>, key: string)
    requires |bs| == 2 && bs[0] < |specs| && bs[1] < |specs|
  {
    && IntegerColumn(base, key)
    && specs[bs[0]] == Rows(Some(Conjoin(f, Even(key)))) && specs[bs[1]] == Rows(Some(Conjoin(f, Odd(key))))
  }

  ghost predicate TernaryBranches(specs: seq<Spec>, bs: seq<nat>, f: Option<Expr>)
    requires forall i :: 0 <= i < |bs| ==> bs[i] < |specs|
  {
    |bs| == 3 && exists p :: TernaryOn(specs, bs, f, p)
  }

  ghost predicate TernaryOn(specs: seq<Spec>, bs: seq<nat>, f: Option<Expr>, p: Expr)
    requires |bs| == 3 && bs[0] < |specs| && bs[1] < |specs| && bs[2] < |specs|
  {
    && IsPredicate(p) && specs[bs[0]] == Rows(Some(Conjoin(f, p)))
    && specs[bs[1]] == Rows(Some(Conjoin(f, Not(p)))) && specs[bs[2]] == Rows(Some(Conjoin(f, IsNull(p, false))))
  }

  /** R UNION ALL empty, R EXCEPT ALL empty, R INTERSECT ALL R. */
  predicate AlgebraRule(specs: seq<Spec>, q: Query<nat>, spec: Spec) {
    match q
    case UnionAllQ(bs) => |bs| == 2 && bs[0] < |specs| && bs[1] < |specs| && spec.Rows? && specs[bs[0]] == spec && specs[bs[1]] == Rows(Some(EMPTY))
    case ExceptAllQ(l, r) => l < |specs| && r < |specs| && spec.Rows? && specs[l] == spec && specs[r] == Rows(Some(EMPTY))
    case IntersectAllQ(l, r) => l < |specs| && r < |specs| && spec.Rows? && specs[l] == spec && specs[r] == spec
    case _ => false
  }

  /** The base columns out of a wider relation that holds each base row once. */
  predicate UnwidenRule(cols: seq<string>, specs: seq<Spec>, q: Query<nat>, spec: Spec) {
    && q.SelectQ? && spec == Rows(None) && q.source < |specs| && (specs[q.source].Padded? || specs[q.source].Keyed?)
    && q.select == BaseSelect(Passthrough(cols))
  }

  /** WHERE tag = keep over an expansion, or GROUP BY over copies. */
  predicate ReduceRule(cols: seq<string>, specs: seq<Spec>, q: Query<nat>, spec: Spec) {
    && q.SelectQ? && spec == Rows(None) && q.source < |specs|
    && match specs[q.source]
       case Tagged(tag, keep) => q.select == BaseSelect(Passthrough(cols)).(filter := Some(Equals(Col(tag), IntLiteral(keep))))
       case Copies(key) => GroupSelect(q.select, cols) && q.select.orderBy.None? && Col(key) in q.select.groupBy.value
       case Keyed(key, first) => !first && GroupSelect(q.select, cols) && q.select.orderBy.None? && Col(key) in q.select.groupBy.value
       case _ => false
  }

  /** UNION ALL of the residues of a key: branch r is a view of the rows with MOD(key, N) = r. */
  predicate RankRule(g: Graph, cols: seq<string>, specs: seq<Spec>, q: Query<nat>, spec: Spec) {
    && q.UnionAllQ? && spec == Rows(None) && |q.branches| >= 2
    && forall r :: 0 <= r < |q.branches| ==> ResidueBranch(g, cols, specs, q.branches, r)
  }

  predicate ResidueBranch(g: Graph, cols: seq<string>, specs: seq<Spec>, bs: seq<nat>, r: nat)
    requires r < |bs|
  {
    && SelectView(g, bs[r]) && SelectView(g, bs[0]) && ViewSource(g, bs[r]) == ViewSource(g, bs[0]) < |specs|
    && specs[ViewSource(g, bs[0])].Keyed? && !specs[ViewSource(g, bs[0])].first
    && ViewSelect(g, bs[r]) == BaseSelect(Passthrough(cols)).(filter := Some(Residue(specs[ViewSource(g, bs[0])].key, |bs|, r)))
  }

  /** A view or table defined by one SELECT over one node. */
  predicate SelectView(g: Graph, m: nat) {
    && m < |g| && (g[m].CreateView? || g[m].CreateTable?) && g[m].body < m && g[g[m].body].QueryNode? && g[g[m].body].query.SelectQ?
    && g[g[m].body].query.source < m && !g[g[g[m].body].query.source].QueryNode?
  }

  function ViewSource(g: Graph, m: nat): nat
    requires SelectView(g, m)
  {
    g[g[m].body].query.source
  }

  function ViewSelect(g: Graph, m: nat): Select
    requires SelectView(g, m)
  {
    g[g[m].body].query.select
  }

  // ---- joins that give back the base rows -----------------------------------------------------

  const ALWAYS := Equals(IntLiteral(1), IntLiteral(1))

  /** R LEFT OUTER JOIN empty ON 1 = 1. */
  predicate LeftEmptyRule(cols: seq<string>, specs: seq<Spec>, q: Query<nat>, spec: Spec) {
    && q.JoinQ? && spec == Rows(None) && q.left < |specs| && q.right < |specs|
    && specs[q.left] == Rows(None) && specs[q.right] == Rows(Some(EMPTY))
    && q.join == Join(LeftOuter, Some(ALWAYS), QualifiedItems("l", cols), "l", "r", None)
  }

  /** What a table of flags selects from the keyed rows: the key, and perhaps a 1. */
  predicate FlagTable(g: Graph, m: nat, keyed: nat, key: string, flag: Option<string>) {
    && SelectView(g, m) && g[m].CreateTable? && ViewSource(g, m) == keyed
    && ViewSelect(g, m) == BaseSelect([KeyItem(key)] + (if flag.None? then [] else [Item(flag.value, IntLiteral(1))]))
    && flag != Some(key)
  }

  /** Joins of the keyed rows with one row per key: the four join types with a flag, SEMI, and CROSS
      with the key condition in WHERE. */
  predicate FlagRule(g: Graph, cols: seq<string>, specs: seq<Spec>, q: Query<nat>, spec: Spec) {
    && q.JoinQ? && spec == Rows(None) && q.left < |specs| && specs[q.left].Keyed? && !specs[q.left].first
    && (FlagJoin(g, cols, specs[q.left].key, q) || SemiJoin(g, cols, specs[q.left].key, q) || CrossJoin(g, cols, specs[q.left].key, q))
  }

  predicate FlagJoin(g: Graph, cols: seq<string>, key: string, q: Query<nat>)
    requires q.JoinQ?
  {
    && (q.join.joinType == Inner || q.join.joinType == LeftOuter || q.join.joinType == RightOuter || q.join.joinType == FullOuter)
    && q.join.filter.Some? && FlagOfFilter(q.join.filter.value).Some?
    && FlagTable(g, q.right, q.left, key, FlagOfFilter(q.join.filter.value))
    && q.join == Join(q.join.joinType, Some(KeyEquals(key)), QualifiedItems("l", cols), "l", "r", q.join.filter)
  }

  /** The flag column tested by r.flag = 1. */
  function FlagOfFilter(e: Expr): (flag: Option<string>)
    ensures flag.Some? ==> e == Equals(QualifiedCol("r", flag.value), IntLiteral(1))
  {
    if e.Comparison? && e.left.ColumnRef? && e == Equals(QualifiedCol("r", e.left.name), IntLiteral(1)) then Some(e.left.name) else None
  }

  predicate SemiJoin(g: Graph, cols: seq<string>, key: string, q: Query<nat>)
    requires q.JoinQ?
  {
    FlagTable(g, q.right, q.left, key, None) && q.join == Join(Semi, Some(KeyEquals(key)), QualifiedItems("l", cols), "l", "r", None)
  }

  predicate CrossJoin(g: Graph, cols: seq<string>, key: string, q: Query<nat>)
    requires q.JoinQ?
  {
    FlagTable(g, q.right, q.left, key, None) && q.join == Join(Cross, None, QualifiedItems("l", cols), "l", "r", Some(KeyEquals(key)))
  }

  /** FULL OUTER JOIN of two column halves of one keyed relation. */
  predicate HalvesRule(g: Graph, cols: seq<string>, specs: seq<Spec>, q: Query<nat>, spec: Spec) {
    && q.JoinQ? && spec == Rows(None) && SelectView(g, q.left) && SelectView(g, q.right)
    && ViewSource(g, q.left) == ViewSource(g, q.right) < |specs|
    && specs[ViewSource(g, q.left)].Keyed? && !specs[ViewSource(g, q.left)].first
    && Halves(g, cols, specs[ViewSource(g, q.left)].key, q)
  }

  predicate Halves(g: Graph, cols: seq<string>, key: string, q: Query<nat>)
    requires q.JoinQ? && SelectView(g, q.left) && SelectView(g, q.right)
  {
    var h := |cols| / 2;
    && ViewSelect(g, q.left) == BaseSelect(Passthrough(cols[..h]) + [KeyItem(key)])
    && ViewSelect(g, q.right) == BaseSelect(Passthrough(cols[h..]) + [KeyItem(key)])
    && q.join == Join(FullOuter, Some(KeyEquals(key)), QualifiedItems("l", cols[..h]) + QualifiedItems("r", cols[h..]), "l", "r", None)
  }

  // ---- queries that grow, mark or key the rows --------------------------------------------------

  /** Base columns and one extra item over the base rows: a NULL column, or the keep mark. */
  predicate ExtendRule(cols: seq<string>, specs: seq<Spec>, q: Query<nat>, spec: Spec) {
    && q.SelectQ? && q.source < |specs| && specs[q.source] == Rows(None)
    && match spec
       case Padded(extra) => extra !in cols && NullExtended(q.select, cols, extra)
       case Tagged(tag, keep) => tag !in cols && q.select == BaseSelect(Extended(cols, TagItem(tag, keep)))
       case _ => false
  }

  predicate NullExtended(sel: Select, cols: seq<string>, extra: string) {
    && sel.projection.Some? && |sel.projection.value| == |cols| + 1 && sel.projection.value[|cols|].expr.TypedNull?
    && sel == BaseSelect(Extended(cols, Item(extra, sel.projection.value[|cols|].expr)))
  }

  /** Base columns and ROW_NUMBER() OVER (ORDER BY x). The one shape whose rows depend on the
      occasion, so it may only define a table. */
  predicate NumberRule(cols: seq<string>, specs: seq<Spec>, q: Query<nat>, spec: Spec) {
    && q.SelectQ? && q.source < |specs| && specs[q.source] == Rows(None) && spec.Keyed? && !spec.first && spec.key !in cols
    && q.select.projection.Some? && |q.select.projection.value| == |cols| + 1 && !HasAggregate(RowNumberKey(q.select.projection.value[|cols|].expr))
    && q.select == BaseSelect(Extended(cols, NumberItem(spec.key, RowNumberKey(q.select.projection.value[|cols|].expr))))
  }

  /** Over an expansion: throwaway copies, or the expansion itself. */
  predicate TagRule(cols: seq<string>, specs: seq<Spec>, q: Query<nat>, spec: Spec) {
    && q.SelectQ? && q.source < |specs| && specs[q.source].Tagged?
    && match spec
       case Filler(tag, keep) => specs[q.source] == Tagged(tag, keep) && ThrowawaySelect(q.select, cols, tag, keep)
       case Tagged(tag, keep) => specs[q.source] == spec && q.select == STAR
       case _ => false
  }

  /** SELECT base columns, v AS tag with v other than keep. */
  predicate ThrowawaySelect(sel: Select, cols: seq<string>, tag: string, keep: int) {
    && sel.projection.Some? && |sel.projection.value| == |cols| + 1 && sel.projection.value[|cols|].expr.IntLiteral?
    && sel.projection.value[|cols|].expr.value != keep
    && sel == BaseSelect(Extended(cols, TagItem(tag, sel.projection.value[|cols|].expr.value))).(filter := sel.filter)
  }

  /** keep UNION ALL throwaway UNION ALL throwaway ..., or one keyed table read several times. */
  predicate ExplodeRule(specs: seq<Spec>, q: Query<nat>, spec: Spec) {
    && q.UnionAllQ? && q.branches != [] && (forall i :: 0 <= i < |q.branches| ==> q.branches[i] < |specs|)
    && match spec
       case Tagged(tag, keep) => specs[q.branches[0]] == spec && forall i :: 1 <= i < |q.branches| ==> specs[q.branches[i]] == Filler(tag, keep)
       case Copies(key) => specs[q.branches[0]] == Keyed(key, false) && forall i :: 0 <= i < |q.branches| ==> q.branches[i] == q.branches[0]
       case _ => false
  }

  /** DISTINCT, DISTINCT over windows, or QUALIFY ROW_NUMBER() = 1 over copies: one row per key. */
  predicate CollapseRule(cols: seq<string>, specs: seq<Spec>, q: Query<nat>, spec: Spec) {
    && q.SelectQ? && q.source < |specs| && specs[q.source].Copies? && spec.Keyed? && specs[q.source].key == spec.key
    && (if !spec.first then q.select == STAR.(distinct := true)
        else (q.select == QualifySelect(cols, spec.key) && spec.key != QUALIFY_COLUMN) || CollapseSelect(q.select, cols, spec.key))
  }

  predicate CollapseSelect(sel: Select, cols: seq<string>, key: string) {
    && sel.projection.Some? && |sel.projection.value| == |cols| + 1
    && CollapseItems(sel.projection.value[1..], cols, key)
    && sel == BaseSelect(KeyedItems(key, sel.projection.value[1..])).(distinct := true)
  }

  /** Any SELECT that works row by row. Promises nothing by itself; the rules for joins and residues
      look through it. */
  predicate ImageRule(specs: seq<Spec>, q: Query<nat>, spec: Spec) {
    q.SelectQ? && spec == Image && Plain(q.select) && q.select.orderBy.None?
  }

  // ---- trees ------------------------------------------------------------------------------------

  /** A query whose rows are the same on every occasion. */
  ghost predicate SteadyRule(g: Graph, base: Rel, specs: seq<Spec>, q: Query<nat>, spec: Spec) {
    var cols := base.cols;
    || FilterRule(cols, specs, q, spec) || DeterminedRule(specs, q, spec) || IdentityRule(cols, specs, q, spec)
    || SplitRule(base, specs, q, spec) || AlgebraRule(specs, q, spec) || UnwidenRule(cols, specs, q, spec)
    || ReduceRule(cols, specs, q, spec) || RankRule(g, cols, specs, q, spec) || LeftEmptyRule(cols, specs, q, spec)
    || FlagRule(g, cols, specs, q, spec) || HalvesRule(g, cols, specs, q, spec) || ExtendRule(cols, specs, q, spec)
    || TagRule(cols, specs, q, spec) || ExplodeRule(specs, q, spec) || CollapseRule(cols, specs, q, spec)
    || ImageRule(specs, q, spec)
  }

  /** The rows an INSERT of extras adds: throwaway copies of the kept rows, or every copy again. */
  predicate ExtrasRule(cols: seq<string>, child: Spec, extras: Select) {
    match child
    case Tagged(tag, keep) => ThrowawaySelect(extras, cols, tag, keep) && extras.filter == Some(Equals(Col(tag), IntLiteral(keep)))
    case Copies(key) => extras == STAR
    case _ => false
  }

  /** One node follows a rule. */
  ghost predicate NodeRule(g: Graph, base: Rel, specs: seq<Spec>, n: nat)
    requires |specs| == |g| && n < |g| && NodeOrdered(g, n)
  {
    match g[n]
    case BaseTable => specs[n] == Rows(None)
    case QueryNode(q) => SteadyRule(g, base, specs, q, specs[n]) || NumberRule(base.cols, specs, q, specs[n])
    case CreateView(_, b) => specs[n] == specs[b] && SteadyRule(g, base, specs, BodyOf(g, n), specs[n])
    case CreateTable(_, b) => specs[n] == specs[b]
    case DeleteReinsert(_, b, _) => specs[b] == Rows(None) && specs[n] == Rows(None)
    case NoopUpdate(_, b, assignments, _) => specs[b] == Rows(None) && specs[n] == Rows(None) && assignments == Passthrough(base.cols)
    case TagPrune(_, child, items, tag, keep) => specs[child] == Tagged(tag, keep) && items == Passthrough(base.cols) && specs[n] == Rows(None)
    case InsertExtras(child, extras) => specs[n] == specs[child] && ExtrasRule(base.cols, specs[child], extras)
  }

  /** Every node follows a rule. */
  ghost predicate WellBuilt(g: Graph, base: Rel, specs: seq<Spec>) {
    && Ordered(g) && |specs| == |g|
    && forall n :: 0 <= n < |g| ==> NodeOrdered(g, n) && NodeRule(g, base, specs, n)
  }
}

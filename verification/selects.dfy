/** What a SELECT does to a bag, for the shapes of SELECT that rewrites are made of. */
module Selects {
  import opened Bags
  import opened Expressions
  import opened Values
  import opened Enumerations
  import opened Queries

  // ---- passing columns through ----------------------------------------------------------------

  /** One item per column, unchanged, in order. */
  function Passthrough(cols: seq<string>): (items: seq<Item>)
    ensures |items| == |cols|
  {
    seq(|cols|, k requires 0 <= k < |cols| => Item(cols[k], Col(cols[k])))
  }

  lemma AliasesOf(cols: seq<string>)
    ensures Aliases(Passthrough(cols)) == cols
  {
  }

  lemma ColumnValue(w: World, name: string, cols: seq<string>, units: seq<Unit>, i: nat)
    requires NonEmpty(units) && i < |units|
    ensures Eval(w, Col(name), cols, units, i) == Lookup(cols, units[i][0], name)
  {
    assert ColumnSql(Col(name)) == name;
  }

  /** The columns of a wider relation that start at offset. */
  ghost predicate Embeds(wide: seq<string>, cols: seq<string>, offset: nat) {
    DistinctNames(wide) && offset + |cols| <= |wide| && wide[offset..offset + |cols|] == cols
  }

  /** Reading base columns out of a wider row by name cuts the row. */
  lemma ProjectEmbedded(w: World, wide: seq<string>, cols: seq<string>, offset: nat, row: Row)
    requires Embeds(wide, cols, offset) && |row| == |wide|
    ensures ProjectRow(w, Passthrough(cols), wide, row) == row[offset..offset + |cols|]
  {
    forall k | 0 <= k < |cols|
      ensures EvalRow(w, Col(cols[k]), wide, row) == row[offset + k]
    {
      assert wide[offset..offset + |cols|][k] == cols[k];
      ColumnValue(w, cols[k], wide, [[row]], 0);
      LookupAt(wide, row, offset + k);
    }
  }

  lemma EmbedsSelf(cols: seq<string>)
    requires DistinctNames(cols)
    ensures Embeds(cols, cols, 0)
  {
  }

  lemma EmbedsFront(cols: seq<string>, extra: string)
    requires DistinctNames(cols) && extra !in cols
    ensures Embeds(cols + [extra], cols, 0)
  {
  }

  lemma EmbedsBack(cols: seq<string>, extra: string)
    requires DistinctNames(cols) && extra !in cols
    ensures Embeds([extra] + cols, cols, 1)
  {
    var wide := [extra] + cols;
    forall i, j | 0 <= i < j < |wide|
      ensures wide[i] != wide[j]
    {
      if i > 0 { assert cols[i - 1] != cols[j - 1]; }
    }
  }

  // ---- row by row -----------------------------------------------------------------------------

  predicate RowLevelItems(sel: Select) {
    sel.projection.Some? ==> forall k :: 0 <= k < |sel.projection.value| ==> RowLevel(sel.projection.value[k].expr)
  }

  /** A SELECT with no DISTINCT, GROUP BY or QUALIFY whose items look at one row each. */
  predicate Plain(sel: Select) {
    !sel.distinct && sel.groupBy.None? && sel.qualify.None? && RowLevelItems(sel)
  }

  ghost function PlainRow(w: World, sel: Select, cols: seq<string>, row: Row): Row {
    if sel.projection.None? then row else ProjectRow(w, sel.projection.value, cols, row)
  }

  /** When each output row is a function of its input row, the output is the image of the input. */
  lemma HeadwiseOutput(w: World, sel: Select, cols: seq<string>, bag: multiset<Row>, units: seq<Unit>, f: Row -> Row)
    requires ValidUnits(None, bag, units)
    requires forall i :: 0 <= i < |units| ==> Kept(w, sel, cols, units, i) && OutRow(w, sel, cols, units, i) == f(units[i][0])
    ensures multiset(Output(w, sel, cols, units)) == MapBag(bag, f)
  {
    CollectAll(OutRows(w, sel, cols, units), KeptFlags(w, sel, cols, units));
    UngroupedHeads(bag, units);
    MapSeqBag(Heads(units), f);
    assert OutRows(w, sel, cols, units) == MapSeq(Heads(units), f);
  }

  lemma PlainOutRow(w: World, sel: Select, cols: seq<string>, units: seq<Unit>, i: nat)
    requires RowLevelItems(sel) && NonEmpty(units) && i < |units|
    ensures OutRow(w, sel, cols, units, i) == PlainRow(w, sel, cols, units[i][0])
  {
    if sel.projection.Some? {
      forall k | 0 <= k < |sel.projection.value|
        ensures Eval(w, sel.projection.value[k].expr, cols, units, i) == EvalRow(w, sel.projection.value[k].expr, cols, units[i][0])
      {
        RowLevelEval(w, sel.projection.value[k].expr, cols, units, i);
      }
    }
  }

  /** Every output row has one value for each item. */
  lemma OutWidth(w: World, path: Path, sel: Select, src: Rel)
    requires sel.projection.Some?
    ensures forall r :: r in SelectRows(w, path, sel, src) ==> |r| == |sel.projection.value|
  {
    if OneGroup(sel) {
      var unit := GroupUnit(w, path, sel, src);
      if unit != [] { OutputWidth(w, sel, src.cols, [unit]); }
    } else {
      OutputWidth(w, sel, src.cols, SelectUnits(w, path, sel, src));
    }
  }

  lemma OutputWidth(w: World, sel: Select, cols: seq<string>, units: seq<Unit>)
    requires sel.projection.Some? && NonEmpty(units)
    ensures forall r :: r in multiset(Output(w, sel, cols, units)) ==> |r| == |sel.projection.value|
  {
    var outs, flags := OutRows(w, sel, cols, units), KeptFlags(w, sel, cols, units);
    forall r | r in multiset(Output(w, sel, cols, units))
      ensures |r| == |sel.projection.value|
    {
      CollectMember(outs, flags, r);
      var i :| 0 <= i < |outs| && outs[i] == r;
    }
  }

  lemma PlainNotOneGroup(sel: Select)
    requires RowLevelItems(sel) && (sel.qualify.Some? ==> !HasAggregate(sel.qualify.value))
    ensures !OneGroup(sel)
  {
    if sel.projection.Some? {
      forall k | 0 <= k < |sel.projection.value| ensures !HasAggregate(sel.projection.value[k].expr) { RowLevelNoAggregate(sel.projection.value[k].expr); }
    }
  }

  lemma PlainSelect(w: World, path: Path, sel: Select, src: Rel)
    requires Plain(sel)
    ensures SelectRel(w, path, sel, src)
         == Rel(OutCols(sel, src.cols), MapBag(Where(w, sel.filter, src), r => PlainRow(w, sel, src.cols, r)))
  {
    var bag := Where(w, sel.filter, src);
    var units := SelectUnits(w, path, sel, src);
    PlainNotOneGroup(sel);
    forall i | 0 <= i < |units| { PlainOutRow(w, sel, src.cols, units, i); }
    HeadwiseOutput(w, sel, src.cols, bag, units, r => PlainRow(w, sel, src.cols, r));
  }

  lemma WhereNone(w: World, src: Rel)
    ensures Where(w, None, src) == src.rows
  {
    forall x { FilterCount(src.rows, r => Passes(w, None, src.cols, r), x); }
  }

  lemma WhereMembers(w: World, filter: Option<Expr>, src: Rel)
    ensures forall r :: r in Where(w, filter, src) <==> r in src.rows && Passes(w, filter, src.cols, r)
    ensures forall r :: Where(w, filter, src)[r] == if Passes(w, filter, src.cols, r) then src.rows[r] else 0
  {
    FilterCounts(src.rows, r => Passes(w, filter, src.cols, r));
  }

  /** Selecting the columns of a relation, with a filter. */
  lemma FilterSelect(w: World, path: Path, sel: Select, src: Rel)
    requires Plain(sel) && DistinctNames(src.cols)
    requires sel.projection == None || sel.projection == Some(Passthrough(src.cols))
    requires forall r :: r in src.rows ==> |r| == |src.cols|
    ensures SelectRel(w, path, sel, src) == Rel(src.cols, Where(w, sel.filter, src))
  {
    PlainSelect(w, path, sel, src);
    AliasesOf(src.cols);
    WhereMembers(w, sel.filter, src);
    var f := (r: Row) => PlainRow(w, sel, src.cols, r);
    forall r | r in Where(w, sel.filter, src)
      ensures f(r) == r
    {
      if sel.projection.Some? {
        EmbedsSelf(src.cols);
        ProjectEmbedded(w, src.cols, src.cols, 0, r);
      }
    }
    MapIdentity(Where(w, sel.filter, src), f);
  }

  /** A run of len values of a row, when the row has the expected width. */
  function Cut(width: nat, offset: nat, len: nat, r: Row): Row {
    if |r| == width && offset + len <= width then r[offset..offset + len] else r
  }

  ghost function CutOf(width: nat, offset: nat, len: nat): Row -> Row {
    (r: Row) => Cut(width, offset, len, r)
  }

  /** Selecting a run of columns out of a wider relation, by name. */
  lemma CutSelect(w: World, path: Path, sel: Select, src: Rel, cols: seq<string>, offset: nat)
    requires Plain(sel) && sel.projection == Some(Passthrough(cols)) && Embeds(src.cols, cols, offset)
    requires forall r :: r in src.rows ==> |r| == |src.cols|
    ensures SelectRel(w, path, sel, src)
         == Rel(cols, MapBag(Where(w, sel.filter, src), CutOf(|src.cols|, offset, |cols|)))
  {
    PlainSelect(w, path, sel, src);
    AliasesOf(cols);
    WhereMembers(w, sel.filter, src);
    var f := (r: Row) => PlainRow(w, sel, src.cols, r);
    var h := CutOf(|src.cols|, offset, |cols|);
    forall r | r in Where(w, sel.filter, src)
      ensures f(r) == h(r)
    {
      ProjectEmbedded(w, src.cols, cols, offset, r);
    }
    MapCong(Where(w, sel.filter, src), f, h);
  }

  /** The base columns passed through, and one more item at the end. */
  function Extended(cols: seq<string>, extra: Item): seq<Item> {
    Passthrough(cols) + [extra]
  }

  lemma ExtendedRow(w: World, wide: seq<string>, cols: seq<string>, extra: Item, row: Row)
    requires Embeds(wide, cols, 0) && |row| == |wide|
    ensures ProjectRow(w, Extended(cols, extra), wide, row) == row[..|cols|] + [EvalRow(w, extra.expr, wide, row)]
  {
    ProjectEmbedded(w, wide, cols, 0, row);
    assert ProjectRow(w, Extended(cols, extra), wide, row)[..|cols|] == ProjectRow(w, Passthrough(cols), wide, row);
  }

  // ---- predicates -----------------------------------------------------------------------------

  /** A predicate is never anything but TRUE, FALSE or NULL. */
  lemma PredicateValue(w: World, e: Expr, cols: seq<string>, units: seq<Unit>, i: nat)
    requires IsPredicate(e) && NonEmpty(units) && i < |units|
    ensures Eval(w, e, cols, units, i).Bool? || Eval(w, e, cols, units, i) == Null
  {
  }

  /** p OR NOT p OR p IS NULL is TRUE on every row, whatever p is. */
  lemma DeterminedTrueHolds(w: World, p: Expr, cols: seq<string>, units: seq<Unit>, i: nat)
    requires IsPredicate(p) && NonEmpty(units) && i < |units|
    ensures Eval(w, DeterminedTrue(p), cols, units, i) == Bool(true)
    ensures DeterminedTrue(p) == BoolOp(Or, BoolOp(Or, p, Not(p)), IsNull(p, false))
  {
    PredicateValue(w, p, cols, units, i);
    var v := Eval(w, p, cols, units, i);
    assert Eval(w, Not(p), cols, units, i) == OfTruth(Not3(TruthOf(v)));
    assert Eval(w, IsNull(p, false), cols, units, i) == Bool(v == Null);
    assert Eval(w, BoolOp(Or, p, Not(p)), cols, units, i) == OfTruth(Or3(TruthOf(v), TruthOf(Eval(w, Not(p), cols, units, i))));
  }

  /** p AND NOT p AND p IS NOT NULL is FALSE on every row, whatever p is. */
  lemma DeterminedFalseFails(w: World, p: Expr, cols: seq<string>, units: seq<Unit>, i: nat)
    requires IsPredicate(p) && NonEmpty(units) && i < |units|
    ensures Eval(w, DeterminedFalse(p), cols, units, i) == Bool(false)
    ensures DeterminedFalse(p) == BoolOp(And, BoolOp(And, p, Not(p)), IsNull(p, true))
  {
    PredicateValue(w, p, cols, units, i);
    var v := Eval(w, p, cols, units, i);
    assert Eval(w, Not(p), cols, units, i) == OfTruth(Not3(TruthOf(v)));
    assert Eval(w, IsNull(p, true), cols, units, i) == Bool(v != Null);
    assert Eval(w, BoolOp(And, p, Not(p)), cols, units, i) == OfTruth(And3(TruthOf(v), TruthOf(Eval(w, Not(p), cols, units, i))));
  }

  /** A merged filter passes the rows that both filters pass. */
  lemma ConjoinPasses(w: World, f: Option<Expr>, extra: Expr, cols: seq<string>, row: Row)
    ensures Passes(w, Some(Conjoin(f, extra)), cols, row) <==> Passes(w, f, cols, row) && IsTrue(EvalRow(w, extra, cols, row))
  {
    if f.Some? {
      var a, b := EvalRow(w, f.value, cols, row), EvalRow(w, extra, cols, row);
      assert EvalRow(w, BoolOp(And, f.value, extra), cols, row) == OfTruth(And3(TruthOf(a), TruthOf(b)));
    }
  }

  /** Filters that pass the same rows select the same bag. */
  lemma WhereCong(w: World, f: Option<Expr>, f': Option<Expr>, src: Rel)
    requires forall r :: r in src.rows ==> Passes(w, f, src.cols, r) == Passes(w, f', src.cols, r)
    ensures Where(w, f, src) == Where(w, f', src)
  {
    FilterCong(src.rows, r => Passes(w, f, src.cols, r), r => Passes(w, f', src.cols, r));
  }

  lemma DeterminedRow(w: World, f: Expr, p: Expr, cols: seq<string>, row: Row)
    requires IsPredicate(p)
    ensures Passes(w, Some(Conjoin(Some(f), DeterminedTrue(p))), cols, row) == Passes(w, Some(f), cols, row)
    ensures Passes(w, Some(BoolOp(Or, f, DeterminedFalse(p))), cols, row) == Passes(w, Some(f), cols, row)
    ensures Passes(w, Some(DeterminedTrue(p)), cols, row)
  {
    DeterminedTrueHolds(w, p, cols, [[row]], 0);
    DeterminedFalseFails(w, p, cols, [[row]], 0);
    ConjoinPasses(w, Some(f), DeterminedTrue(p), cols, row);
    var no := DeterminedFalse(p);
    assert EvalRow(w, BoolOp(Or, f, no), cols, row)
        == OfTruth(Or3(TruthOf(EvalRow(w, f, cols, row)), TruthOf(EvalRow(w, no, cols, row))));
  }

  /** ANDing an always-true condition onto a filter, or ORing an always-false one, keeps its rows. */
  lemma DeterminedNeutral(w: World, f: Expr, p: Expr, src: Rel)
    requires IsPredicate(p)
    ensures Where(w, Some(Conjoin(Some(f), DeterminedTrue(p))), src) == Where(w, Some(f), src)
    ensures Where(w, Some(BoolOp(Or, f, DeterminedFalse(p))), src) == Where(w, Some(f), src)
    ensures Where(w, Some(DeterminedTrue(p)), src) == src.rows
  {
    forall r: Row { DeterminedRow(w, f, p, src.cols, r); }
    WhereCong(w, Some(Conjoin(Some(f), DeterminedTrue(p))), Some(f), src);
    WhereCong(w, Some(BoolOp(Or, f, DeterminedFalse(p))), Some(f), src);
    WhereCong(w, Some(DeterminedTrue(p)), None, src);
    WhereNone(w, src);
  }

  // ---- windows --------------------------------------------------------------------------------

  /** Position j is in the partition of position i. */
  ghost predicate SamePartition(w: World, parts: seq<Expr>, cols: seq<string>, units: seq<Unit>, i: nat, j: nat)
    requires NonEmpty(units) && i < |units| && j < |units|
  {
    forall k :: 0 <= k < |parts| ==> Eval(w, parts[k], cols, units, j) == Eval(w, parts[k], cols, units, i)
  }

  /** Over a partition on which the argument is constant, MIN, MAX, FIRST_VALUE and LAST_VALUE with
      any ORDER BY and any frame give that constant. */
  lemma WindowConstant(w: World, e: Expr, cols: seq<string>, units: seq<Unit>, i: nat)
    requires e.WindowCall? && e.window != RowNumber && e.warg.Some? && NonEmpty(units) && i < |units|
    requires forall j :: 0 <= j < |units| && SamePartition(w, e.partitionBy, cols, units, i, j) ==>
      Eval(w, e.warg.value, cols, units, j) == Eval(w, e.warg.value, cols, units, i)
    ensures Eval(w, e, cols, units, i) == Eval(w, e.warg.value, cols, units, i)
  {
    var member := seq(|units|, j requires 0 <= j < |units| =>
      forall k :: 0 <= k < |e.partitionBy| ==> Eval(w, e.partitionBy[k], cols, units, j) == Eval(w, e.partitionBy[k], cols, units, i));
    var inFrame := seq(|units|, j requires 0 <= j < |units| =>
      member[j] && (e.frame.Some? || e.orderBy == [] || j <= i ||
        forall k :: 0 <= k < |e.orderBy| ==> Eval(w, e.orderBy[k], cols, units, j) == Eval(w, e.orderBy[k], cols, units, i)));
    var args := seq(|units|, j requires 0 <= j < |units| => Eval(w, e.warg.value, cols, units, j));
    var vs := Collect(args, inFrame);
    var v := Eval(w, e.warg.value, cols, units, i);
    assert Eval(w, e, cols, units, i) == WindowValue(e.window, vs);
    assert inFrame[i] && args[i] == v;
    CollectMember(args, inFrame, v);
    forall k | 0 <= k < |vs|
      ensures vs[k] == v
    {
      CollectMember(args, inFrame, vs[k]);
      var j :| 0 <= j < |args| && inFrame[j] && args[j] == vs[k];
      assert SamePartition(w, e.partitionBy, cols, units, i, j);
    }
    ConstantExtremum(vs, v);
  }

  ghost function PartitionFlags(w: World, parts: seq<Expr>, cols: seq<string>, units: seq<Unit>, i: nat): (keep: seq<bool>)
    requires NonEmpty(units) && i < |units|
    ensures |keep| == |units|
  {
    seq(|units|, j requires 0 <= j < |units| => SamePartition(w, parts, cols, units, i, j))
  }

  /** ROW_NUMBER counts the positions of the partition up to its own. */
  lemma RowNumberValue(w: World, e: Expr, cols: seq<string>, units: seq<Unit>, i: nat)
    requires e.WindowCall? && e.window == RowNumber && NonEmpty(units) && i < |units|
    ensures Eval(w, e, cols, units, i) == Int(|Collect(units[..i + 1], PartitionFlags(w, e.partitionBy, cols, units, i)[..i + 1])|)
  {
    var member := seq(|units|, j requires 0 <= j < |units| =>
      forall k :: 0 <= k < |e.partitionBy| ==> Eval(w, e.partitionBy[k], cols, units, j) == Eval(w, e.partitionBy[k], cols, units, i));
    assert member == PartitionFlags(w, e.partitionBy, cols, units, i);
  }

  /** ROW_NUMBER() OVER (ORDER BY ...) numbers the positions from one. */
  lemma RowNumberAll(w: World, order: Expr, cols: seq<string>, units: seq<Unit>, i: nat)
    requires NonEmpty(units) && i < |units|
    ensures Eval(w, RowNumberOver(order), cols, units, i) == Int(i + 1)
  {
    RowNumberValue(w, RowNumberOver(order), cols, units, i);
    CollectAll(units[..i + 1], PartitionFlags(w, [], cols, units, i)[..i + 1]);
  }

  lemma {:induction false} CollectNone<T>(s: seq<T>, keep: seq<bool>)
    requires |s| == |keep|
    ensures |Collect(s, keep)| == 0 <==> forall i :: 0 <= i < |s| ==> !keep[i]
  {
    if s != [] {
      var k := |s| - 1;
      CollectNone(s[..k], keep[..k]);
      assert forall i :: 0 <= i < k ==> keep[..k][i] == keep[i];
    }
  }

  /** Position i is numbered one exactly when it is the first of its partition. */
  lemma RowNumberFirst(w: World, e: Expr, cols: seq<string>, units: seq<Unit>, i: nat)
    requires e.WindowCall? && e.window == RowNumber && NonEmpty(units) && i < |units|
    ensures Eval(w, e, cols, units, i) == Int(1) <==> forall j :: 0 <= j < i ==> !SamePartition(w, e.partitionBy, cols, units, i, j)
  {
    RowNumberValue(w, e, cols, units, i);
    var flags := PartitionFlags(w, e.partitionBy, cols, units, i);
    LastOfPrefix(units, flags, i);
    CollectNone(units[..i], flags[..i]);
    assert forall j :: 0 <= j < i ==> flags[..i][j] == SamePartition(w, e.partitionBy, cols, units, i, j);
  }

  lemma LastOfPrefix<T>(s: seq<T>, keep: seq<bool>, i: nat)
    requires |s| == |keep| && i < |s| && keep[i]
    ensures |Collect(s[..i + 1], keep[..i + 1])| == |Collect(s[..i], keep[..i])| + 1
  {
    assert s[..i + 1][..i] == s[..i] && keep[..i + 1][..i] == keep[..i];
  }

  /** A window over PARTITION BY the column itself gives the column. */
  predicate SelfWindow(e: Expr, name: string) {
    && e.WindowCall? && e.window != RowNumber && e.warg == Some(Col(name)) && e.partitionBy == [Col(name)]
  }

  /** CASE WHEN p OR NOT p OR p IS NULL THEN c ELSE NULL END. */
  predicate DeterminedCase(e: Expr, name: string) {
    && e.Case? && e.thenExpr == Col(name) && e.elseExpr.TypedNull?
    && IsDeterminedTrue(e.condition)
  }

  predicate IsDeterminedTrue(e: Expr) {
    e.BoolOp? && e.left.BoolOp? && IsPredicate(e.left.left) && e == DeterminedTrue(e.left.left)
  }

  /** An item that gives back the column it stands for. */
  predicate IdentityItem(item: Item, name: string) {
    && item.alias == name && !HasAggregate(item.expr)
    && (item.expr == Col(name) || SelfWindow(item.expr, name) || DeterminedCase(item.expr, name))
  }

  lemma IdentityValue(w: World, item: Item, name: string, cols: seq<string>, units: seq<Unit>, i: nat)
    requires IdentityItem(item, name) && NonEmpty(units) && i < |units|
    ensures Eval(w, item.expr, cols, units, i) == Lookup(cols, units[i][0], name)
  {
    ColumnValue(w, name, cols, units, i);
    if SelfWindow(item.expr, name) {
      forall j | 0 <= j < |units| && SamePartition(w, [Col(name)], cols, units, i, j)
        ensures Eval(w, Col(name), cols, units, j) == Eval(w, Col(name), cols, units, i)
      {
        assert [Col(name)][0] == Col(name);
      }
      WindowConstant(w, item.expr, cols, units, i);
    } else if DeterminedCase(item.expr, name) {
      DeterminedTrueHolds(w, item.expr.condition.left.left, cols, units, i);
    }
  }
}

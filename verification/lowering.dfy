/** The renderings that change a query's shape, and when they keep its meaning. */
module Lowering {
  import opened Bags
  import opened Expressions
  import opened Values
  import opened Enumerations
  import opened Queries
  import opened Graphs
  import opened Engine
  import opened Selects

  // ---- QUALIFY as a subquery ------------------------------------------------------------------

  /** The output columns can be named from outside: no two alike, and none called eq_q. */
  predicate Nameable(items: seq<Item>) {
    DistinctNames(Aliases(items)) && forall k :: 0 <= k < |items| ==> items[k].alias != QUALIFY_COLUMN
  }

  /** The last value of an inner row is the condition. */
  ghost function FlagOf(n: nat): Row -> bool {
    (r: Row) => |r| == n + 1 && IsTrue(r[n])
  }

  lemma InnerRow(w: World, sel: Select, cols: seq<string>, units: seq<Unit>, i: nat)
    requires sel.projection.Some? && sel.qualify.Some? && NonEmpty(units) && i < |units|
    ensures OutRow(w, QualifyInner(sel), cols, units, i) == OutRow(w, sel, cols, units, i) + [Eval(w, sel.qualify.value, cols, units, i)]
    ensures Kept(w, QualifyInner(sel), cols, units, i)
  {
  }

  lemma InnerRowsOf(w: World, sel: Select, cols: seq<string>, units: seq<Unit>)
    requires sel.projection.Some? && sel.qualify.Some? && NonEmpty(units)
    ensures
      var n := |sel.projection.value|;
      var rows := Output(w, QualifyInner(sel), cols, units);
      && |rows| == |units|
      && (forall i :: 0 <= i < |units| ==> |rows[i]| == n + 1 && rows[i][n] == Eval(w, sel.qualify.value, cols, units, i))
      && (forall i :: 0 <= i < |units| ==> rows[i][..n] == OutRow(w, sel, cols, units, i))
  {
    forall i | 0 <= i < |units| { InnerRow(w, sel, cols, units, i); }
    CollectAll(OutRows(w, QualifyInner(sel), cols, units), KeptFlags(w, QualifyInner(sel), cols, units));
  }

  /** The lowered rows before and after the outer SELECT, on one enumeration. */
  lemma InnerOutput(w: World, sel: Select, cols: seq<string>, units: seq<Unit>)
    requires sel.projection.Some? && sel.qualify.Some? && NonEmpty(units)
    ensures
      var n := |sel.projection.value|;
      MapBag(FilterBag(multiset(Output(w, QualifyInner(sel), cols, units)), FlagOf(n)), CutOf(n + 1, 0, n)) == multiset(Output(w, sel, cols, units))
  {
    var n := |sel.projection.value|;
    var rows := Output(w, QualifyInner(sel), cols, units);
    InnerRowsOf(w, sel, cols, units);
    assert MapSeq(rows, CutOf(n + 1, 0, n)) == OutRows(w, sel, cols, units);
    CollectImage(rows, CutOf(n + 1, 0, n), FlagOf(n), KeptFlags(w, sel, cols, units));
  }

  lemma FlaggedInjective(m: multiset<Row>, n: nat)
    requires forall r :: r in m ==> |r| == n + 1
    ensures forall r, s :: r in FilterBag(m, FlagOf(n)) && s in FilterBag(m, FlagOf(n)) && CutOf(n + 1, 0, n)(r) == CutOf(n + 1, 0, n)(s) ==> r == s
  {
    FilterMembers(m, FlagOf(n));
    forall r, s | r in FilterBag(m, FlagOf(n)) && s in FilterBag(m, FlagOf(n)) && CutOf(n + 1, 0, n)(r) == CutOf(n + 1, 0, n)(s)
      ensures r == s
    {
      SameFlagged(r, s, n);
    }
  }

  lemma SameFlagged(r: Row, s: Row, n: nat)
    requires |r| == |s| == n + 1 && r[n] == s[n] && r[..n] == s[..n]
    ensures r == s
  {
    assert r == r[..n] + [r[n]] && s == s[..n] + [s[n]];
  }

  lemma DistinctFlagged(m: multiset<Row>, n: nat)
    requires forall r :: r in m ==> |r| == n + 1
    ensures MapBag(FilterBag(Distinct(m), FlagOf(n)), CutOf(n + 1, 0, n)) == Distinct(MapBag(FilterBag(m, FlagOf(n)), CutOf(n + 1, 0, n)))
  {
    FlaggedInjective(m, n);
    DistinctImage(FilterBag(m, FlagOf(n)), CutOf(n + 1, 0, n));
    FilterDistinct(m, FlagOf(n));
  }

  /** SELECT aliases FROM (inner) WHERE eq_q. */
  lemma OuterSelect(w: World, path: Path, sel: Select, inner: Rel)
    requires sel.projection.Some? && Nameable(sel.projection.value)
    requires inner.cols == Aliases(sel.projection.value) + [QUALIFY_COLUMN]
    requires forall r :: r in inner.rows ==> |r| == |sel.projection.value| + 1
    ensures SelectRel(w, path, QualifyOuter(sel), inner)
      == Rel(Aliases(sel.projection.value),
             MapBag(FilterBag(inner.rows, FlagOf(|sel.projection.value|)), CutOf(|sel.projection.value| + 1, 0, |sel.projection.value|)))
  {
    var n := |sel.projection.value|;
    var aliases := Aliases(sel.projection.value);
    assert OuterItems(sel.projection.value) == Passthrough(aliases);
    EmbedsFront(aliases, QUALIFY_COLUMN);
    CutSelect(w, path, QualifyOuter(sel), inner, aliases, 0);
    forall r | r in inner.rows
      ensures Passes(w, Some(Col(QUALIFY_COLUMN)), inner.cols, r) == FlagOf(n)(r)
    {
      ColumnValue(w, QUALIFY_COLUMN, inner.cols, [[r]], 0);
      LookupAt(inner.cols, r, n);
    }
    FilterCong(inner.rows, r => Passes(w, Some(Col(QUALIFY_COLUMN)), inner.cols, r), FlagOf(n));
  }

  /** The inner relation has the aliases and eq_q as columns, and rows to match. */
  lemma InnerShape(w: World, path: Path, sel: Select, src: Rel)
    requires sel.projection.Some? && sel.qualify.Some?
    ensures
      var inner := SelectRel(w, path, QualifyInner(sel), src);
      && inner.cols == Aliases(sel.projection.value) + [QUALIFY_COLUMN]
      && forall r :: r in inner.rows ==> |r| == |sel.projection.value| + 1
  {
    assert Aliases(QualifyInner(sel).projection.value) == Aliases(sel.projection.value) + [QUALIFY_COLUMN];
    OutWidth(w, path, QualifyInner(sel), src);
  }

  /** The condition is in the list of the inner query, so both see one group or neither does. */
  lemma OneGroupInner(sel: Select)
    requires sel.projection.Some? && sel.qualify.Some?
    ensures OneGroup(QualifyInner(sel)) <==> OneGroup(sel)
  {
    var items, more := sel.projection.value, QualifyInner(sel).projection.value;
    assert more[|items|].expr == sel.qualify.value && forall k :: 0 <= k < |items| ==> more[k] == items[k];
  }

  /** What the outer SELECT keeps of the one inner row. */
  lemma OneGroupFlagged(w: World, path: Path, sel: Select, src: Rel)
    requires sel.projection.Some? && sel.qualify.Some? && OneGroup(sel)
    ensures
      var n := |sel.projection.value|;
      MapBag(FilterBag(SelectRows(w, path, QualifyInner(sel), src), FlagOf(n)), CutOf(n + 1, 0, n)) == SelectRows(w, path, sel, src)
  {
    var n := |sel.projection.value|;
    var inner := QualifyInner(sel);
    var unit := GroupUnit(w, path, sel, src);
    OneGroupInner(sel);
    assert unit == GroupUnit(w, path, inner, src);
    if unit != [] {
      InnerOutput(w, sel, src.cols, [unit]);
    } else {
      EmptyFlagged(w, sel, src.cols);
    }
  }

  lemma EmptyFlagged(w: World, sel: Select, cols: seq<string>)
    requires sel.projection.Some? && sel.qualify.Some?
    ensures
      var n := |sel.projection.value|;
      MapBag(FilterBag(GroupRows(w, QualifyInner(sel), cols, []), FlagOf(n)), CutOf(n + 1, 0, n)) == GroupRows(w, sel, cols, [])
  {
    var n := |sel.projection.value|;
    var row := EmptyRow(w, QualifyInner(sel).projection.value, cols);
    var kept := EmptyRow(w, sel.projection.value, cols);
    EmptySplit(w, sel, cols);
    FilterSingle(row, FlagOf(n));
    MapSingle(row, CutOf(n + 1, 0, n));
    assert GroupRows(w, QualifyInner(sel), cols, []) == multiset{row};
    assert GroupRows(w, sel, cols, []) == if FlagOf(n)(row) then multiset{kept} else multiset{};
  }

  lemma EmptySplit(w: World, sel: Select, cols: seq<string>)
    requires sel.projection.Some? && sel.qualify.Some?
    ensures
      var n := |sel.projection.value|;
      var row := EmptyRow(w, QualifyInner(sel).projection.value, cols);
      && |row| == n + 1 && row[n] == EvalEmpty(w, sel.qualify.value, cols) && CutOf(n + 1, 0, n)(row) == EmptyRow(w, sel.projection.value, cols)
      && (FlagOf(n)(row) <==> IsTrue(EvalEmpty(w, sel.qualify.value, cols)))
  {
    var n := |sel.projection.value|;
    var row := EmptyRow(w, QualifyInner(sel).projection.value, cols);
    assert row[..n] == EmptyRow(w, sel.projection.value, cols);
  }

  lemma FilterSingle(row: Row, p: Row -> bool)
    ensures FilterBag(multiset{row}, p) == if p(row) then multiset{row} else multiset{}
  {
    FilterCounts(multiset{row}, p);
  }

  /** What the outer SELECT keeps of the inner rows is what the native QUALIFY returns. */
  lemma InnerFlagged(w: World, path: Path, sel: Select, src: Rel)
    requires sel.projection.Some? && sel.qualify.Some?
    ensures
      var n := |sel.projection.value|;
      MapBag(FilterBag(SelectRel(w, path, QualifyInner(sel), src).rows, FlagOf(n)), CutOf(n + 1, 0, n)) == SelectRel(w, path, sel, src).rows
  {
    var n := |sel.projection.value|;
    RowsFlagged(w, path, sel, src);
    if sel.distinct {
      OutWidth(w, path, QualifyInner(sel), src);
      DistinctFlagged(SelectRows(w, path, QualifyInner(sel), src), n);
    }
  }

  lemma RowsFlagged(w: World, path: Path, sel: Select, src: Rel)
    requires sel.projection.Some? && sel.qualify.Some?
    ensures
      var n := |sel.projection.value|;
      MapBag(FilterBag(SelectRows(w, path, QualifyInner(sel), src), FlagOf(n)), CutOf(n + 1, 0, n)) == SelectRows(w, path, sel, src)
  {
    OneGroupInner(sel);
    if OneGroup(sel) {
      OneGroupFlagged(w, path, sel, src);
    } else {
      var units := SelectUnits(w, path, sel, src);
      assert units == SelectUnits(w, path, QualifyInner(sel), src);
      InnerOutput(w, sel, src.cols, units);
    }
  }

  /** A lowered QUALIFY returns what the native one returns on the enumeration the inner query uses,
      with DISTINCT, GROUP BY, WHERE and window predicates included. */
  lemma QualifyLowering(w: World, path: Path, sel: Select, src: Rel)
    requires sel.projection.Some? && sel.qualify.Some? && Nameable(sel.projection.value)
    ensures SelectRel(w, path, QualifyOuter(sel), SelectRel(w, path + [0], QualifyInner(sel), src)) == SelectRel(w, path + [0], sel, src)
  {
    InnerShape(w, path + [0], sel, src);
    InnerFlagged(w, path + [0], sel, src);
    OuterSelect(w, path, sel, SelectRel(w, path + [0], QualifyInner(sel), src));
  }
}

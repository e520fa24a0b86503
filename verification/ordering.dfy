/** The base renderer wraps a query with an ORDER BY and repeats its select list outside. When that is
    harmless, and when it is not. */
module Ordering {
  import opened Bags
  import opened Expressions
  import opened Values
  import opened Enumerations
  import opened Queries
  import opened Graphs
  import opened Engine
  import opened Selects

  /** The list only passes columns through. */
  lemma OrderByWrap(w: World, path: Path, sel: Select, body: Rel)
    requires sel.projection == None || sel.projection == Some(Passthrough(body.cols))
    requires DistinctNames(body.cols) && forall r :: r in body.rows ==> |r| == |body.cols|
    ensures SelectRel(w, path, STAR.(projection := sel.projection), body) == body
  {
    FilterSelect(w, path, STAR.(projection := sel.projection), body);
    WhereNone(w, body);
  }

  /** The query without its ORDER BY, and the list repeated outside. */
  ghost function Body(w: World, path: Path, sel: Select, src: Rel): Rel { SelectRel(w, path + [0], sel.(orderBy := None), src) }

  function Outer(sel: Select): Select { STAR.(projection := sel.projection) }

  /** The wrapped query returns what the query does. */
  ghost predicate WrapAgrees(w: World, path: Path, sel: Select, src: Rel) {
    SelectRel(w, path, Outer(sel), Body(w, path, sel, src)) == Body(w, path, sel, src)
  }

  /** That is what an ordered select renders to, unless its QUALIFY is lowered. */
  lemma OrderByRendering(w: World, path: Path, style: Style, sel: Select, name: string, src: Reader<string>)
    requires sel.orderBy.Some? && (sel.qualify.None? || !style.lowerQualify) && Renderable(style, SelectQ(name, sel))
    ensures QueryRel(w, path, RenderSelect(style, name, sel), src) == SelectRel(w, path, Outer(sel), Body(w, path, sel, src(0, name)))
  {
    var body: Query<string> := SelectQ(name, sel);
    assert RenderSelect(style, name, sel) == Derived(Outer(sel), body);
    assert QueryRel(w, path + [0], body, src) == SelectRel(w, path + [0], sel, src(0, name));
    OrderUnseen(w, path + [0], sel, src(0, name));
  }

  predicate Fitting(src: Rel, cols: seq<string>) { src.cols == cols && forall r :: r in src.rows ==> |r| == |cols| }

  ghost function Listing(w: World, items: seq<Item>, cols: seq<string>): Row -> Row {
    (r: Row) => ProjectRow(w, items, cols, r)
  }

  // ---- lists that look at one row ----------------------------------------------------------------

  /** Applying the select list to its own output changes nothing on a row the query keeps. */
  ghost predicate Stable(w: World, sel: Select, cols: seq<string>, row: Row)
    requires sel.projection.Some?
  {
    var items := sel.projection.value;
    var once := ProjectRow(w, items, cols, row);
    Passes(w, sel.filter, cols, row) ==> ProjectRow(w, items, Aliases(items), once) == once
  }

  lemma OuterListing(w: World, path: Path, sel: Select, body: Rel)
    requires sel.projection.Some? && RowLevelItems(sel)
    ensures SelectRel(w, path, Outer(sel), body) == Rel(Aliases(sel.projection.value), MapBag(body.rows, Listing(w, sel.projection.value, body.cols)))
  {
    PlainSelect(w, path, Outer(sel), body);
    WhereNone(w, body);
    MapCong(body.rows, r => PlainRow(w, Outer(sel), body.cols, r), Listing(w, sel.projection.value, body.cols));
  }

  /** EXACT, TABLE BY TABLE. With DISTINCT, GROUP BY, QUALIFY and WHERE of any kind, a list that looks
      at one row is harmless exactly when it permutes the rows the query returns. */
  lemma WrapPermutes(w: World, path: Path, sel: Select, src: Rel)
    requires sel.projection.Some? && RowLevelItems(sel)
    ensures
      var items := sel.projection.value;
      WrapAgrees(w, path, sel, src) <==> MapBag(Body(w, path, sel, src).rows, Listing(w, items, Aliases(items))) == Body(w, path, sel, src).rows
  {
    OuterListing(w, path, sel, Body(w, path, sel, src));
  }

  /** A row the query returns is the list applied to some row that passes WHERE. */
  lemma ReturnedRow(w: World, path: Path, sel: Select, src: Rel, x: Row)
    requires sel.projection.Some? && RowLevelItems(sel) && !OneGroup(sel) && x in SelectRel(w, path, sel, src).rows
    ensures exists r :: r in Where(w, sel.filter, src) && x == ProjectRow(w, sel.projection.value, src.cols, r)
  {
    var units := SelectUnits(w, path, sel, src);
    var outs, flags := OutRows(w, sel, src.cols, units), KeptFlags(w, sel, src.cols, units);
    assert x in multiset(Collect(outs, flags));
    CollectMember(outs, flags, x);
    var i :| 0 <= i < |units| && outs[i] == x;
    PlainOutRow(w, sel, src.cols, units, i);
    HeadsMembers(GroupKey(w, sel.groupBy, src.cols), Where(w, sel.filter, src), units, i, 0);
  }

  lemma StableAgrees(w: World, path: Path, sel: Select, src: Rel)
    requires sel.projection.Some? && RowLevelItems(sel) && !OneGroup(sel)
    requires forall r :: r in src.rows ==> Stable(w, sel, src.cols, r)
    ensures WrapAgrees(w, path, sel, src)
  {
    var items := sel.projection.value;
    var body := sel.(orderBy := None);
    var g := Listing(w, items, Aliases(items));
    WrapPermutes(w, path, sel, src);
    WhereMembers(w, sel.filter, src);
    forall x | x in Body(w, path, sel, src).rows
      ensures g(x) == x
    {
      ReturnedRow(w, path + [0], body, src, x);
      var r :| r in Where(w, sel.filter, src) && x == ProjectRow(w, items, src.cols, r);
      assert Stable(w, sel, src.cols, r);
    }
    MapIdentity(Body(w, path, sel, src).rows, g);
  }

  lemma {:induction false} UnitsLength(units: seq<Unit>)
    requires NonEmpty(units)
    ensures |units| <= |Flatten(units)|
  {
    if units != [] {
      var front := units[..|units| - 1];
      assert forall i :: 0 <= i < |front| ==> front[i] == units[i];
      UnitsLength(front);
    }
  }

  /** One row has one listing. */
  lemma SingleUnits(key: Option<KeyFunction>, row: Row, units: seq<Unit>)
    requires ValidUnits(key, multiset{row}, units)
    ensures units == [[row]]
  {
    assert |multiset(Flatten(units))| == 1;
    UnitsLength(units);
    var u := units[0];
    assert Flatten(units) == Flatten(units[..0]) + u == u;
    assert |u| == 1 && u[0] in multiset(Flatten(units));
    assert u == [row] && units == [u];
  }

  lemma SingleBody(w: World, path: Path, sel: Select, cols: seq<string>, row: Row)
    requires sel.projection.Some? && RowLevelItems(sel) && sel.qualify.None? && Passes(w, sel.filter, cols, row)
    ensures SelectRel(w, path, sel, Rel(cols, multiset{row})).rows == multiset{ProjectRow(w, sel.projection.value, cols, row)}
  {
    var src := Rel(cols, multiset{row});
    PlainNotOneGroup(sel);
    WhereMembers(w, sel.filter, src);
    assert Where(w, sel.filter, src) == multiset{row};
    var units := SelectUnits(w, path, sel, src);
    SingleUnits(GroupKey(w, sel.groupBy, cols), row, units);
    PlainOutRow(w, sel, cols, units, 0);
    CollectAll(OutRows(w, sel, cols, units), KeptFlags(w, sel, cols, units));
    assert Output(w, sel, cols, units) == [ProjectRow(w, sel.projection.value, cols, row)];
  }

  lemma AgreesStable(w: World, path: Path, sel: Select, cols: seq<string>, row: Row)
    requires sel.projection.Some? && RowLevelItems(sel) && sel.qualify.None? && WrapAgrees(w, path, sel, Rel(cols, multiset{row}))
    ensures Stable(w, sel, cols, row)
  {
    if Passes(w, sel.filter, cols, row) {
      var items := sel.projection.value;
      var once := ProjectRow(w, items, cols, row);
      var g := Listing(w, items, Aliases(items));
      WrapPermutes(w, path, sel, Rel(cols, multiset{row}));
      SingleBody(w, path + [0], sel.(orderBy := None), cols, row);
      MapSingle(once, g);
      SameSingle(g(once), once);
    }
  }

  lemma SameSingle(a: Row, b: Row)
    requires multiset{a} == multiset{b}
    ensures a == b
  {
    assert a in multiset{b};
  }

  // ---- lists with an aggregate -------------------------------------------------------------------

  predicate Aggregates(sel: Select) {
    sel.projection.Some? && exists k :: 0 <= k < |sel.projection.value| && HasAggregate(sel.projection.value[k].expr)
  }

  /** The list outside has no GROUP BY, so it returns one row whatever it reads. */
  lemma OuterAggregates(w: World, path: Path, sel: Select, body: Rel)
    requires Aggregates(sel)
    ensures |SelectRel(w, path, Outer(sel), body).rows| == 1
  {
    var unit := GroupUnit(w, path, Outer(sel), body);
    if unit != [] {
      CollectAll(OutRows(w, Outer(sel), body.cols, [unit]), KeptFlags(w, Outer(sel), body.cols, [unit]));
    }
  }

  /** NEVER. Wrapping a grouped list with an aggregate changes the answer on the empty table, and on
      every table for which there is not exactly one group to return. */
  lemma GroupedWrapFails(w: World, path: Path, sel: Select, cols: seq<string>)
    requires Aggregates(sel) && sel.groupBy.Some?
    ensures !WrapAgrees(w, path, sel, Rel(cols, multiset{}))
    ensures forall src :: WrapAgrees(w, path, sel, src) ==> |Body(w, path, sel, src).rows| == 1
  {
    forall src { OuterAggregates(w, path, sel, Body(w, path, sel, src)); }
    NoGroups(w, path + [0], sel.(orderBy := None), cols);
  }

  lemma NoGroups(w: World, path: Path, sel: Select, cols: seq<string>)
    requires sel.groupBy.Some?
    ensures SelectRel(w, path, sel, Rel(cols, multiset{})).rows == multiset{}
  {
    var src := Rel(cols, multiset{});
    var units := SelectUnits(w, path, sel, src);
    WhereMembers(w, sel.filter, src);
    assert Where(w, sel.filter, src) == multiset{};
    UnitsLength(units);
    assert |multiset(Flatten(units))| == 0;
  }

  /** The query returns one row, and the list gives it back. */
  ghost predicate Repeats(w: World, path: Path, sel: Select, src: Rel)
    requires sel.projection.Some?
  {
    exists row :: Body(w, path, sel, src).rows == multiset{row} && ProjectRow(w, sel.projection.value, Aliases(sel.projection.value), row) == row
  }

  /** EXACT, TABLE BY TABLE. With clauses of any kind, a list with an aggregate is harmless exactly when the
      query returns one row and the list gives it back. */
  lemma AggregateWrap(w: World, path: Path, sel: Select, src: Rel)
    requires Aggregates(sel)
    ensures WrapAgrees(w, path, sel, src) <==> Repeats(w, path, sel, src)
  {
    OuterAggregates(w, path, sel, Body(w, path, sel, src));
    if WrapAgrees(w, path, sel, src) {
      var row := OnlyRow(Body(w, path, sel, src).rows);
      OneRowWrap(w, path, sel, src, row);
    }
    if row :| Body(w, path, sel, src).rows == multiset{row} && ProjectRow(w, sel.projection.value, Aliases(sel.projection.value), row) == row {
      OneRowWrap(w, path, sel, src, row);
    }
  }

  lemma OnlyRow(rows: multiset<Row>) returns (row: Row)
    requires |rows| == 1
    ensures rows == multiset{row}
  {
    row :| row in rows;
    assert |rows - multiset{row}| == 0;
    assert rows == (rows - multiset{row}) + multiset{row};
  }

  lemma OneRowWrap(w: World, path: Path, sel: Select, src: Rel, row: Row)
    requires Aggregates(sel) && Body(w, path, sel, src).rows == multiset{row}
    ensures WrapAgrees(w, path, sel, src) <==> ProjectRow(w, sel.projection.value, Aliases(sel.projection.value), row) == row
  {
    var body := Body(w, path, sel, src);
    var again := GroupRow(w, path, Outer(sel), body);
    SingleGroup(w, path, Outer(sel), body, row);
    OneGroupOut(w, Outer(sel), body.cols, row, again);
    if again == row { assert multiset{again} == multiset{row}; }
    if multiset{again} == multiset{row} { SameSingle(again, row); }
  }

  /** The one row of a list with an aggregate. */
  lemma GroupRow(w: World, path: Path, sel: Select, src: Rel) returns (row: Row)
    requires Aggregates(sel) && sel.groupBy.None? && sel.qualify.None?
    ensures SelectRel(w, path, sel, src).rows == multiset{row}
    ensures var unit := GroupUnit(w, path, sel, src);
      row == if unit == [] then EmptyRow(w, sel.projection.value, src.cols) else OutRow(w, sel, src.cols, [unit], 0)
  {
    var unit := GroupUnit(w, path, sel, src);
    if unit == [] {
      row := EmptyRow(w, sel.projection.value, src.cols);
    } else {
      row := OutRow(w, sel, src.cols, [unit], 0);
      CollectAll(OutRows(w, sel, src.cols, [unit]), KeptFlags(w, sel, src.cols, [unit]));
      assert Output(w, sel, src.cols, [unit]) == [row];
    }
  }

  lemma SingleGroup(w: World, path: Path, sel: Select, body: Rel, row: Row)
    requires body.rows == multiset{row} && sel.filter.None?
    ensures GroupUnit(w, path, sel, body) == [row]
  {
    var unit := GroupUnit(w, path, sel, body);
    WhereNone(w, body);
    assert |multiset(unit)| == 1;
    assert unit[0] in multiset(unit);
  }

  lemma OneGroupOut(w: World, sel: Select, cols: seq<string>, row: Row, again: Row)
    requires sel.projection.Some? && again == OutRow(w, sel, cols, [[row]], 0)
    ensures again == ProjectRow(w, sel.projection.value, cols, row)
  {
  }

  // ---- the exact condition -----------------------------------------------------------------------

  ghost predicate AlwaysAgrees(w: World, path: Path, sel: Select, cols: seq<string>) {
    forall src :: Fitting(src, cols) ==> WrapAgrees(w, path, sel, src)
  }

  /** The list, read over the returned rows in the order the engine lists them this time, gives these rows. */
  ghost predicate Relisted(w: World, path: Path, sel: Select, src: Rel)
    requires sel.projection.Some?
  {
    var body := Body(w, path, sel, src);
    multiset(OutRows(w, Outer(sel), body.cols, SelectUnits(w, path, Outer(sel), body))) == body.rows
  }

  /** EXACT, TABLE BY TABLE, for lists without an aggregate, windows included. */
  lemma RelistedExactly(w: World, path: Path, sel: Select, src: Rel)
    requires sel.projection.Some? && !Aggregates(sel)
    ensures WrapAgrees(w, path, sel, src) <==> Relisted(w, path, sel, src)
  {
    var body := Body(w, path, sel, src);
    var units := SelectUnits(w, path, Outer(sel), body);
    CollectAll(OutRows(w, Outer(sel), body.cols, units), KeptFlags(w, Outer(sel), body.cols, units));
  }

  /** EXACT CONDITION. On all tables with these columns, whatever the clauses: a list with an aggregate is
      harmless if and only if there is no GROUP BY and it gives back the one row returned; a list that looks at
      one row, without QUALIFY, if and only if repeating it changes no row; and any other list, with a window
      or behind QUALIFY, if and only if reading it over the returned rows lists them again. */
  lemma OrderByWrapExact(w: World, path: Path, sel: Select, cols: seq<string>)
    requires sel.projection.Some?
    ensures AlwaysAgrees(w, path, sel, cols) <==>
      if Aggregates(sel) then sel.groupBy.None? && forall src :: Fitting(src, cols) ==> Repeats(w, path, sel, src)
      else if RowLevelItems(sel) && sel.qualify.None? then forall row :: |row| == |cols| ==> Stable(w, sel, cols, row)
      else forall src :: Fitting(src, cols) ==> Relisted(w, path, sel, src)
  {
    if Aggregates(sel) {
      AggregateExact(w, path, sel, cols);
    } else if RowLevelItems(sel) && sel.qualify.None? {
      RowLevelExact(w, path, sel, cols);
    } else {
      forall src ensures WrapAgrees(w, path, sel, src) <==> Relisted(w, path, sel, src) { RelistedExactly(w, path, sel, src); }
    }
  }

  lemma AggregateExact(w: World, path: Path, sel: Select, cols: seq<string>)
    requires Aggregates(sel)
    ensures AlwaysAgrees(w, path, sel, cols) <==> sel.groupBy.None? && forall src :: Fitting(src, cols) ==> Repeats(w, path, sel, src)
  {
    if sel.groupBy.Some? {
      GroupedWrapFails(w, path, sel, cols);
      assert Fitting(Rel(cols, multiset{}), cols);
    } else {
      forall src ensures WrapAgrees(w, path, sel, src) <==> Repeats(w, path, sel, src) { AggregateWrap(w, path, sel, src); }
    }
  }

  lemma RowLevelExact(w: World, path: Path, sel: Select, cols: seq<string>)
    requires sel.projection.Some? && sel.qualify.None? && RowLevelItems(sel)
    ensures AlwaysAgrees(w, path, sel, cols) <==> forall row :: |row| == |cols| ==> Stable(w, sel, cols, row)
  {
    if AlwaysAgrees(w, path, sel, cols) {
      forall row | |row| == |cols|
        ensures Stable(w, sel, cols, row)
      {
        assert Fitting(Rel(cols, multiset{row}), cols);
        AgreesStable(w, path, sel, cols, row);
      }
    }
    if forall row :: |row| == |cols| ==> Stable(w, sel, cols, row) {
      PlainNotOneGroup(sel);
      forall src | Fitting(src, cols)
        ensures WrapAgrees(w, path, sel, src)
      {
        StableAgrees(w, path, sel, src);
      }
    }
  }

  // ---- a check on the items ----------------------------------------------------------------------

  /** Every item gives back the column it is named after: plainly, by a window over its own partition,
      or by a CASE with one reachable branch. */
  predicate IdentityList(items: seq<Item>) {
    DistinctNames(Aliases(items)) && forall k :: 0 <= k < |items| ==> IdentityItem(items[k], items[k].alias)
  }

  lemma IdentityOutRow(w: World, items: seq<Item>, body: Rel, units: seq<Unit>, i: nat)
    requires IdentityList(items) && Fitting(body, Aliases(items)) && ValidUnits(None, body.rows, units) && i < |units|
    ensures OutRow(w, BaseSelect(items), body.cols, units, i) == units[i][0]
  {
    HeadsMembers(None, body.rows, units, i, 0);
    forall k | 0 <= k < |items|
      ensures Eval(w, items[k].expr, body.cols, units, i) == units[i][0][k]
    {
      IdentityValue(w, items[k], items[k].alias, body.cols, units, i);
      LookupAt(body.cols, units[i][0], k);
    }
  }

  lemma IdentityListRel(w: World, path: Path, items: seq<Item>, body: Rel)
    requires IdentityList(items) && Fitting(body, Aliases(items))
    ensures SelectRel(w, path, BaseSelect(items), body) == body
  {
    var sel := BaseSelect(items);
    var units := SelectUnits(w, path, sel, body);
    WhereNone(w, body);
    forall k | 0 <= k < |items| ensures !HasAggregate(items[k].expr) { assert IdentityItem(items[k], items[k].alias); }
    forall i | 0 <= i < |units| { IdentityOutRow(w, items, body, units, i); }
    HeadwiseOutput(w, sel, body.cols, body.rows, units, r => r);
    MapIdentity(body.rows, r => r);
  }

  /** A CHECK ON THE TEXT. When every item gives back the column it is named after, the wrap is harmless on
      every table, whatever DISTINCT, WHERE, GROUP BY and QUALIFY the query has. */
  lemma IdentityListAgrees(w: World, path: Path, sel: Select, src: Rel)
    requires sel.projection.Some? && IdentityList(sel.projection.value)
    ensures WrapAgrees(w, path, sel, src)
  {
    var body := Body(w, path, sel, src);
    OutWidth(w, path + [0], sel.(orderBy := None), src);
    forall r | r in body.rows ensures |r| == |body.cols| { assert r in SelectRows(w, path + [0], sel.(orderBy := None), src); }
    IdentityListRel(w, path, sel.projection.value, body);
  }

  // ---- lists that are not harmless ---------------------------------------------------------------

  /** SELECT ROW_NUMBER() OVER (ORDER BY k) AS n, k, d. */
  const NUMBERED := [Item("n", RowNumberOver(Col("k"))), Item("k", Col("k")), Item("d", Col("d"))]

  ghost function NumberedRow(i: int, cols: seq<string>, r: Row): Row { [Int(i), Lookup(cols, r, "k"), Lookup(cols, r, "d")] }

  /** Two rows, numbered in the order an engine lists them. */
  lemma NumbersTwo(w: World, path: Path, src: Rel, a: Row, b: Row)
    requires src.rows == multiset{a, b} && w.enumerate(path, src.rows) == [[a], [b]]
    ensures SelectRel(w, path, BaseSelect(NUMBERED), src).rows == multiset{NumberedRow(1, src.cols, a), NumberedRow(2, src.cols, b)}
  {
    var sel := BaseSelect(NUMBERED);
    var units := [[a], [b]];
    WhereNone(w, src);
    TwoUnits(a, b);
    NumberedNoAggregate();
    assert SelectUnits(w, path, sel, src) == units;
    forall i | 0 <= i < 2
      ensures OutRow(w, sel, src.cols, units, i) == NumberedRow(i + 1, src.cols, units[i][0])
    {
      RowNumberAll(w, Col("k"), src.cols, units, i);
      ColumnValue(w, "k", src.cols, units, i);
      ColumnValue(w, "d", src.cols, units, i);
    }
    CollectAll(OutRows(w, sel, src.cols, units), KeptFlags(w, sel, src.cols, units));
    assert OutRows(w, sel, src.cols, units) == [NumberedRow(1, src.cols, a), NumberedRow(2, src.cols, b)];
  }

  lemma TwoUnits(a: Row, b: Row)
    ensures ValidUnits(None, multiset{a, b}, [[a], [b]])
  {
    var units := [[a], [b]];
    assert units[..1] == [[a]] && [[a]][..0] == [];
    assert Flatten([[a]]) == [a];
    assert Flatten(units) == [a, b];
  }

  lemma NumberedNoAggregate()
    ensures !OneGroup(BaseSelect(NUMBERED))
  {
    assert [Col("k")][0] == Col("k");
    forall i | 0 <= i < |NUMBERED| ensures !HasAggregate(NUMBERED[i].expr) {}
  }

  /** An engine that lists rows with equal keys one way inside and the other way outside. */
  ghost function Fickle(w: World): World {
    w.(enumerate := (path: Path, m: multiset<Row>) =>
      if path == [0] then [[[Int(0), Int(1)]], [[Int(0), Int(2)]]] else [[[Int(2), Int(0), Int(2)]], [[Int(1), Int(0), Int(1)]]])
  }

  /** SELECT ROW_NUMBER() OVER (ORDER BY k) AS n, k, d ... ORDER BY k. */
  ghost function NumberedByKey(): Select { BaseSelect(NUMBERED).(orderBy := Some([Col("k")])) }

  ghost function Tied(): Rel { Rel(["k", "d"], multiset{[Int(0), Int(1)], [Int(0), Int(2)]}) }

  ghost function TiedOnce(): Rel { Rel(["n", "k", "d"], multiset{[Int(1), Int(0), Int(1)], [Int(2), Int(0), Int(2)]}) }

  lemma TiedBody(w: World)
    ensures Body(Fickle(w), [], NumberedByKey(), Tied()) == TiedOnce()
  {
    var f := Fickle(w);
    var a, b: Row := [Int(0), Int(1)], [Int(0), Int(2)];
    TieNames(a, b, [Int(1), Int(0), Int(1)], [Int(2), Int(0), Int(2)]);
    assert NumberedByKey().(orderBy := None) == BaseSelect(NUMBERED) && [] + [0] == [0];
    assert f.enumerate([0], Tied().rows) == [[a], [b]];
    NumbersTwo(f, [0], Tied(), a, b);
  }

  lemma TiedAgain(w: World)
    ensures [Int(1), Int(0), Int(2)] in SelectRel(Fickle(w), [], BaseSelect(NUMBERED), TiedOnce()).rows
  {
    var f, src := Fickle(w), TiedOnce();
    var c, d: Row := [Int(1), Int(0), Int(1)], [Int(2), Int(0), Int(2)];
    TieNames([Int(0), Int(1)], [Int(0), Int(2)], c, d);
    assert src.rows == multiset{d, c};
    assert f.enumerate([], src.rows) == [[d], [c]];
    NumbersTwo(f, [], src, d, c);
  }

  /** A window over rows that tie is numbered anew outside, so a number may move to another row. */
  lemma WindowWrapFails(w: World)
    ensures !WrapAgrees(Fickle(w), [], NumberedByKey(), Tied())
  {
    var moved: Row := [Int(1), Int(0), Int(2)];
    TiedBody(w);
    TiedAgain(w);
    TieNames([Int(0), Int(1)], [Int(0), Int(2)], [Int(1), Int(0), Int(1)], [Int(2), Int(0), Int(2)]);
    assert Outer(NumberedByKey()) == BaseSelect(NUMBERED);
    assert moved[0] != Int(2) && moved[2] != Int(1);
    assert moved !in TiedOnce().rows;
  }

  lemma TieNames(a: Row, b: Row, c: Row, d: Row)
    requires a == [Int(0), Int(1)] && b == [Int(0), Int(2)] && c == [Int(1), Int(0), Int(1)] && d == [Int(2), Int(0), Int(2)]
    ensures NumberedRow(1, ["k", "d"], a) == c && NumberedRow(2, ["k", "d"], b) == d
    ensures NumberedRow(1, ["n", "k", "d"], d) == [Int(1), Int(0), Int(2)] && Aliases(NUMBERED) == ["n", "k", "d"]
  {
    var two, three := ["k", "d"], ["n", "k", "d"];
    LookupAt(two, a, 0);
    LookupAt(two, a, 1);
    LookupAt(two, b, 0);
    LookupAt(two, b, 1);
    LookupAt(three, d, 1);
    LookupAt(three, d, 2);
  }

  /** CASE WHEN c = 0 THEN 1 ELSE 0 END AS c. */
  function FlipItem(): Item {
    Item("c", Case(Equals(Col("c"), IntLiteral(0)), IntLiteral(1), IntLiteral(0)))
  }

  function OneCell(v: int): Rel { Rel(["c"], multiset{[Int(v)]}) }

  lemma FlipValue(w: World, bit: int)
    requires bit == 0 || bit == 1
    ensures EvalRow(w, FlipItem().expr, ["c"], [Int(bit)]) == Int(1 - bit)
  {
    var row: Row := [Int(bit)];
    assert ColumnSql(Col("c")) == "c";
    LookupAt(["c"], row, 0);
    assert EvalRow(w, Col("c"), ["c"], row) == Int(bit);
    assert EvalRow(w, IntLiteral(0), ["c"], row) == Int(0);
    assert EvalRow(w, Equals(Col("c"), IntLiteral(0)), ["c"], row) == OfTruth(Compare(Eq, Int(bit), Int(0)));
    assert EvalRow(w, IntLiteral(1), ["c"], row) == Int(1);
  }

  lemma FlipOnce(w: World, path: Path, sel: Select, bit: int)
    requires sel.(orderBy := None) == BaseSelect([FlipItem()]) && (bit == 0 || bit == 1)
    ensures SelectRel(w, path, sel, OneCell(bit)) == OneCell(1 - bit)
  {
    var src := OneCell(bit);
    FlipPlain(sel);
    PlainSelect(w, path, sel, src);
    WhereNone(w, src);
    FlipRow(w, sel, bit);
    MapSingle([Int(bit)], (r: Row) => PlainRow(w, sel, src.cols, r));
  }

  lemma FlipPlain(sel: Select)
    requires sel.(orderBy := None) == BaseSelect([FlipItem()])
    ensures Plain(sel) && OutCols(sel, ["c"]) == ["c"]
  {
    assert RowLevel(FlipItem().expr) by { assert RowLevel(Equals(Col("c"), IntLiteral(0))); }
    assert Aliases([FlipItem()]) == ["c"];
  }

  lemma FlipRow(w: World, sel: Select, bit: int)
    requires sel.(orderBy := None) == BaseSelect([FlipItem()]) && (bit == 0 || bit == 1)
    ensures PlainRow(w, sel, ["c"], [Int(bit)]) == [Int(1 - bit)]
  {
    FlipValue(w, bit);
  }

  /** It is not harmless in general: with this select list, ORDER BY comes back negated, because
      the CASE is applied a second time. */
  lemma OrderByWrapDoubles(w: World, path: Path)
    ensures
      var sel := BaseSelect([FlipItem()]).(orderBy := Some([Col("c")]));
      && Body(w, path, sel, OneCell(0)) == OneCell(1)
      && SelectRel(w, path, Outer(sel), Body(w, path, sel, OneCell(0))) == OneCell(0)
      && !WrapAgrees(w, path, sel, OneCell(0))
  {
    var sel := BaseSelect([FlipItem()]).(orderBy := Some([Col("c")]));
    FlipOnce(w, path + [0], sel.(orderBy := None), 0);
    FlipOnce(w, path, Outer(sel), 1);
    SameCell();
  }

  lemma SameCell()
    ensures OneCell(0) != OneCell(1)
  {
    var zero, one: Row := [Int(0)], [Int(1)];
    assert zero[0] != one[0];
    assert zero in OneCell(0).rows && zero !in OneCell(1).rows;
  }
}

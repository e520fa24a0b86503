/** The rules whose query is a join: whatever the join type, each base row comes back once. */
module Matching {
  import opened Bags
  import opened Expressions
  import opened Values
  import opened Enumerations
  import opened Queries
  import opened Graphs
  import opened Engine
  import opened Selects
  import opened Partitions
  import opened Channels
  import opened Joins
  import opened Rules
  import opened Meaning
  import opened Recombine

  // ---- rows read by name ------------------------------------------------------------------------

  /** Reading by name out of what was read by name. */
  lemma ByNameLookup(cols: seq<string>, names: seq<string>, r: Row, name: string)
    requires name in names
    ensures Lookup(names, ByName(cols, names, r), name) == Lookup(cols, r, name)
  {
    var k := IndexOf(names, name);
    assert k < |names|;
  }

  /** A view of named columns. */
  lemma NamedView(w: World, path: Path, names: seq<string>, rel: Rel)
    ensures SelectRel(w, path, BaseSelect(Passthrough(names)), rel) == Rel(names, MapBag(rel.rows, ByNameOf(rel.cols, names)))
  {
    var sel := BaseSelect(Passthrough(names));
    PlainSelect(w, path, sel, rel);
    WhereNone(w, rel);
    AliasesOf(names);
    var f := (r: Row) => PlainRow(w, sel, rel.cols, r);
    forall r: Row
      ensures f(r) == ByNameOf(rel.cols, names)(r)
    {
      forall k | 0 <= k < |names| { ColumnValue(w, names[k], rel.cols, [[r]], 0); }
      assert f(r) == ByName(rel.cols, names, r);
    }
    MapCong(rel.rows, f, ByNameOf(rel.cols, names));
  }

  /** The l columns of a joined row. */
  lemma ProjectLeft(w: World, lcols: seq<string>, rcols: seq<string>, names: seq<string>, x: Row, y: Row)
    requires |x| == |lcols| && forall k :: 0 <= k < |names| ==> names[k] in lcols
    ensures ProjectRow(w, QualifiedItems("l", names), Qualified("l", lcols) + Qualified("r", rcols), x + y) == ByName(lcols, names, x)
  {
    var scope := Qualified("l", lcols) + Qualified("r", rcols);
    forall k | 0 <= k < |names|
      ensures EvalRow(w, QualifiedCol("l", names[k]), scope, x + y) == Lookup(lcols, x, names[k])
    {
      QualifiedValue(w, "l", names[k], scope, x + y);
      LeftLookup(lcols, rcols, x, y, names[k]);
    }
  }

  lemma ProjectRight(w: World, lcols: seq<string>, rcols: seq<string>, names: seq<string>, x: Row, y: Row)
    requires |x| == |lcols| && |y| == |rcols| && forall k :: 0 <= k < |names| ==> names[k] in rcols
    ensures ProjectRow(w, QualifiedItems("r", names), Qualified("l", lcols) + Qualified("r", rcols), x + y) == ByName(rcols, names, y)
  {
    var scope := Qualified("l", lcols) + Qualified("r", rcols);
    forall k | 0 <= k < |names|
      ensures EvalRow(w, QualifiedCol("r", names[k]), scope, x + y) == Lookup(rcols, y, names[k])
    {
      QualifiedValue(w, "r", names[k], scope, x + y);
      RightLookup(lcols, rcols, x, y, names[k]);
    }
  }

  lemma QualifiedAliases(alias: string, names: seq<string>)
    ensures Aliases(QualifiedItems(alias, names)) == names
  {
  }

  // ---- finishing a join -------------------------------------------------------------------------

  lemma JoinSteady(c: Scene, n: nat, l: nat, r: nat, j: Join, d: Rel)
    requires Stored(c) && l < n <= |c.g| && r < n && (j.joinType != Cross ==> j.condition.Some?)
    requires JoinRel(c.w, j, Relation(c, l), Relation(c, r)) == d
    requires JoinRel(c.w, RenderJoin(c.style, j), Relation(c, l), Relation(c, r)) == d
    ensures Steady(c, n, JoinQ(l, r, j), d)
  {
    var q: Query<nat> := JoinQ(l, r, j);
    var src := StoreReader(c, n);
    RenderedJoin(c.style, l, r, j);
    forall path: Path
      ensures SteadyOn(c, n, q, d, path)
    {
      JoinMeaning(c.w, path, l, r, j, src);
      JoinMeaning(c.w, path, l, r, RenderJoin(c.style, j), src);
    }
  }

  lemma RenderedJoin(style: Style, l: nat, r: nat, j: Join)
    requires j.joinType != Cross ==> j.condition.Some?
    ensures Renderable<nat>(style, JoinQ(l, r, j)) && Render<nat>(style, JoinQ(l, r, j)) == JoinQ(l, r, RenderJoin(style, j))
  {
  }

  lemma JoinMeaning(w: World, path: Path, l: nat, r: nat, j: Join, src: Reader<nat>)
    ensures QueryRel(w, path, JoinQ(l, r, j), src) == JoinRel(w, j, src(0, l), src(1, r))
  {
  }

  /** WHERE keeps every joined row, and the select list turns the row of x into h(x). */
  ghost predicate Finishes(w: World, j: Join, scope: seq<string>, k: multiset<Row>, g: Row -> Row, h: Row -> Row) {
    forall x :: x in k ==> FinishesRow(w, j, scope, g(x), h(x))
  }

  ghost predicate FinishesRow(w: World, j: Join, scope: seq<string>, row: Row, out: Row) {
    Passes(w, j.filter, scope, row) && ProjectRow(w, j.projection, scope, row) == out
  }

  lemma JoinFinish(w: World, j: Join, l: Rel, r: Rel, k: multiset<Row>, g: Row -> Row, h: Row -> Row)
    requires JoinRows(j.joinType, JoinMatch(w, j, l, r), l, r) == MapBag(k, g)
    requires Finishes(w, j, JoinScope(j, l, r), k, g, h)
    ensures JoinRel(w, j, l, r) == Rel(Aliases(j.projection), MapBag(k, h))
  {
    var scope := JoinScope(j, l, r);
    var rows := MapBag(k, g);
    var p := (x: Row) => Passes(w, j.filter, scope, x);
    forall y | y in rows
      ensures p(y)
    {
      MapMember(k, g, y);
      var x :| x in k && g(x) == y;
      assert FinishesRow(w, j, scope, g(x), h(x));
    }
    forall x | x in k
      ensures h(x) == ProjectRow(w, j.projection, scope, g(x))
    {
      assert FinishesRow(w, j, scope, g(x), h(x));
    }
    FilterAll(rows, p);
    MapCompose(k, g, (x: Row) => ProjectRow(w, j.projection, scope, x), h);
  }

  // ---- LEFT OUTER JOIN empty ----------------------------------------------------------------------

  lemma LeftEmptyRel(w: World, base: Rel, j: Join, r: Rel)
    requires Shaped(base) && r.rows == multiset{} && j == Join(LeftOuter, Some(ALWAYS), QualifiedItems("l", base.cols), "l", "r", None)
    ensures JoinRel(w, j, base, r) == base
  {
    var g := (x: Row) => x + Nulls(|r.cols|);
    var id := (x: Row) => x;
    LeftEmptyRows(JoinMatch(w, j, base, r), base, r);
    forall x | x in base.rows
      ensures FinishesRow(w, j, JoinScope(j, base, r), g(x), id(x))
    {
      ProjectLeft(w, base.cols, r.cols, base.cols, x, Nulls(|r.cols|));
      LateralRow(base.cols, x);
    }
    JoinFinish(w, j, base, r, base.rows, g, id);
    MapIdentity(base.rows, id);
    QualifiedAliases("l", base.cols);
  }

  lemma LeftEmptySteady(c: Scene, n: nat, l: nat, r: nat, j: Join)
    requires Stored(c) && l < n <= |c.g| && r < n && Shaped(c.base) && Relation(c, l) == c.base && Relation(c, r).rows == multiset{}
    requires j == Join(LeftOuter, Some(ALWAYS), QualifiedItems("l", c.base.cols), "l", "r", None)
    ensures Steady(c, n, JoinQ(l, r, j), c.base)
  {
    LeftEmptyRel(c.w, c.base, j, Relation(c, r));
    assert RenderJoin(c.style, j) == j;
    JoinSteady(c, n, l, r, j, c.base);
  }

  lemma LeftEmptyMeans(c: Scene, specs: seq<Spec>, n: nat, q: Query<nat>, spec: Spec) returns (d: Rel)
    requires Known(c, specs, n) && ReadsBelow(c, q, n) && LeftEmptyRule(c.base.cols, specs, q, spec)
    ensures Steady(c, n, q, d) && Sat(c.w, c.base, d, spec)
  {
    d := c.base;
    RowsShape(c.w, c.base, None);
    Fetch(c, specs, n, q, 0);
    Fetch(c, specs, n, q, 1);
    EmptyFilter(c.w, c.base);
    LeftEmptySteady(c, n, q.left, q.right, q.join);
  }

  // ---- one row per key on both sides ----------------------------------------------------------------

  /** rel has one row for each row of k, and its key column repeats the key. */
  ghost predicate Follows(k: Rel, rel: Rel, f: Row -> Row, key: string) {
    && key in k.cols && key in rel.cols && rel.rows == MapBag(k.rows, f)
    && forall x :: x in k.rows ==> |f(x)| == |rel.cols| && Lookup(rel.cols, f(x), key) == Lookup(k.cols, x, key)
  }

  lemma KeyTells(base: Rel, k: Rel, key: string, x: Row, y: Row)
    requires IsKeyed(base, k, key, false) && x in k.rows && y in k.rows
    ensures Lookup(k.cols, x, key) != Null
    ensures Lookup(k.cols, x, key) == Lookup(k.cols, y, key) <==> x == y
  {
    WideLookup(base, k, key, false, x);
    WideLookup(base, k, key, false, y);
  }

  ghost predicate OnKey(j: Join, key: string) {
    j.condition == Some(KeyEquals(key)) && j.leftAlias == "l" && j.rightAlias == "r"
  }

  lemma KeyedMatch(w: World, base: Rel, k: Rel, key: string, j: Join, l: Rel, r: Rel, lf: Row -> Row, rf: Row -> Row)
    requires IsKeyed(base, k, key, false) && Follows(k, l, lf, key) && Follows(k, r, rf, key) && OnKey(j, key)
    ensures OneToOne(k.rows, lf, rf, JoinMatch(w, j, l, r))
  {
    var match_ := JoinMatch(w, j, l, r);
    forall x, y | x in k.rows && y in k.rows
      ensures match_(lf(x), rf(y)) <==> x == y
    {
      KeyCondition(w, l.cols, r.cols, lf(x), rf(y), key);
      KeyTells(base, k, key, x, y);
    }
  }

  predicate AnyOuter(t: JoinType) { t == Inner || t == LeftOuter || t == RightOuter || t == FullOuter }

  /** Every join type of a one-to-one complete join, finished. */
  lemma KeyedJoin(w: World, base: Rel, k: Rel, key: string, j: Join, l: Rel, r: Rel, lf: Row -> Row, rf: Row -> Row, h: Row -> Row)
    requires IsKeyed(base, k, key, false) && Follows(k, l, lf, key) && Follows(k, r, rf, key) && OnKey(j, key) && AnyOuter(j.joinType)
    requires Finishes(w, j, JoinScope(j, l, r), k.rows, x => lf(x) + rf(x), h)
    ensures JoinRel(w, j, l, r) == Rel(Aliases(j.projection), MapBag(k.rows, h))
  {
    KeyedMatch(w, base, k, key, j, l, r, lf, rf);
    OneToOneJoin(j.joinType, k.rows, lf, rf, JoinMatch(w, j, l, r), l, r);
    JoinFinish(w, j, l, r, k.rows, x => lf(x) + rf(x), h);
  }

  /** The base columns of a keyed row, by name. */
  lemma ByNamePayload(base: Rel, k: Rel, key: string, x: Row)
    requires IsKeyed(base, k, key, false) && x in k.rows
    ensures ByName(k.cols, base.cols, x) == PayloadOf(|base.cols|, false)(x)
    ensures |x| == |k.cols| && key in k.cols && forall i :: 0 <= i < |base.cols| ==> base.cols[i] in k.cols
  {
    WideLookup(base, k, key, false, x);
    forall i | 0 <= i < |base.cols|
      ensures base.cols[i] in k.cols && Lookup(k.cols, x, base.cols[i]) == x[i]
    {
      assert k.cols[i] == base.cols[i];
      LookupAt(k.cols, x, i);
    }
    assert k.cols[|base.cols|] == key;
  }

  lemma KeyedColumns(base: Rel, k: Rel, key: string)
    requires IsKeyed(base, k, key, false)
    ensures key in k.cols && forall x :: x in k.rows ==> |x| == |k.cols|
  {
    assert k.cols[|base.cols|] == key;
  }

  ghost function Same(): Row -> Row { (r: Row) => r }

  /** A keyed relation follows itself. */
  lemma FollowsSelf(base: Rel, k: Rel, key: string)
    requires IsKeyed(base, k, key, false)
    ensures Follows(k, k, Same(), key)
  {
    KeyedColumns(base, k, key);
    MapIdentity(k.rows, Same());
  }

  // ---- a table of flags ---------------------------------------------------------------------------

  function FlagItems(key: string, flag: Option<string>): seq<Item> {
    [KeyItem(key)] + (if flag.None? then [] else [Item(flag.value, IntLiteral(1))])
  }

  function FlagCols(key: string, flag: Option<string>): seq<string> {
    [key] + (if flag.None? then [] else [flag.value])
  }

  function FlagRow(cols: seq<string>, key: string, flag: Option<string>, r: Row): Row {
    [Lookup(cols, r, key)] + (if flag.None? then [] else [Int(1)])
  }

  ghost function FlagRowOf(cols: seq<string>, key: string, flag: Option<string>): Row -> Row {
    (r: Row) => FlagRow(cols, key, flag, r)
  }

  lemma FlagViewRow(w: World, cols: seq<string>, key: string, flag: Option<string>, r: Row)
    ensures PlainRow(w, BaseSelect(FlagItems(key, flag)), cols, r) == FlagRowOf(cols, key, flag)(r)
  {
    ColumnValue(w, key, cols, [[r]], 0);
  }

  lemma FlagShape(key: string, flag: Option<string>)
    ensures Plain(BaseSelect(FlagItems(key, flag))) && Aliases(FlagItems(key, flag)) == FlagCols(key, flag)
  {
  }

  lemma FlagView(w: World, path: Path, k: Rel, key: string, flag: Option<string>)
    ensures SelectRel(w, path, BaseSelect(FlagItems(key, flag)), k) == Rel(FlagCols(key, flag), MapBag(k.rows, FlagRowOf(k.cols, key, flag)))
  {
    var sel := BaseSelect(FlagItems(key, flag));
    FlagShape(key, flag);
    PlainSelect(w, path, sel, k);
    WhereNone(w, k);
    forall r { FlagViewRow(w, k.cols, key, flag, r); }
    MapCong(k.rows, (r: Row) => PlainRow(w, sel, k.cols, r), FlagRowOf(k.cols, key, flag));
  }

  lemma FlagLookup(cols: seq<string>, key: string, flag: Option<string>, r: Row)
    ensures Lookup(FlagCols(key, flag), FlagRow(cols, key, flag, r), key) == Lookup(cols, r, key)
    ensures flag.Some? && flag.value != key ==> Lookup(FlagCols(key, flag), FlagRow(cols, key, flag, r), flag.value) == Int(1)
  {
    var wide, row := FlagCols(key, flag), FlagRow(cols, key, flag, r);
    LookupAt(wide[..1], row[..1], 0);
    assert wide[0] == key && row[0] == Lookup(cols, r, key);
    if flag.Some? && flag.value != key {
      LookupAt(wide, row, 1);
    }
  }

  /** The flag table over a keyed relation. */
  ghost function FlagsOf(k: Rel, key: string, flag: Option<string>): Rel {
    Rel(FlagCols(key, flag), MapBag(k.rows, FlagRowOf(k.cols, key, flag)))
  }

  lemma FlagFollows(base: Rel, k: Rel, key: string, flag: Option<string>)
    requires IsKeyed(base, k, key, false)
    ensures Follows(k, FlagsOf(k, key, flag), FlagRowOf(k.cols, key, flag), key)
  {
    KeyedColumns(base, k, key);
    assert FlagCols(key, flag)[0] == key;
    forall x | x in k.rows
      ensures Lookup(FlagCols(key, flag), FlagRow(k.cols, key, flag, x), key) == Lookup(k.cols, x, key)
    {
      FlagLookup(k.cols, key, flag, x);
    }
  }

  /** WHERE r.flag = 1 holds on every joined row. */
  lemma FlagPasses(w: World, base: Rel, k: Rel, key: string, flag: string, x: Row)
    requires IsKeyed(base, k, key, false) && x in k.rows && flag != key
    ensures Passes(w, Some(Equals(QualifiedCol("r", flag), IntLiteral(1))),
      Qualified("l", k.cols) + Qualified("r", FlagCols(key, Some(flag))), x + FlagRow(k.cols, key, Some(flag), x))
  {
    var scope := Qualified("l", k.cols) + Qualified("r", FlagCols(key, Some(flag)));
    var y := FlagRow(k.cols, key, Some(flag), x);
    KeyedColumns(base, k, key);
    assert FlagCols(key, Some(flag))[1] == flag;
    QualifiedValue(w, "r", flag, scope, x + y);
    RightLookup(k.cols, FlagCols(key, Some(flag)), x, y, flag);
    FlagLookup(k.cols, key, Some(flag), x);
    CompareLiteral(w, Eq, QualifiedCol("r", flag), 1, scope, [[x + y]], 0);
  }

  /** The select list of these joins gives back the base columns of the left row. */
  lemma LeftPayload(w: World, base: Rel, k: Rel, key: string, rcols: seq<string>, x: Row, y: Row)
    requires IsKeyed(base, k, key, false) && x in k.rows
    ensures ProjectRow(w, QualifiedItems("l", base.cols), Qualified("l", k.cols) + Qualified("r", rcols), x + y) == PayloadOf(|base.cols|, false)(x)
  {
    ByNamePayload(base, k, key, x);
    ProjectLeft(w, k.cols, rcols, base.cols, x, y);
  }

  lemma FlagJoinRel(w: World, base: Rel, k: Rel, key: string, flag: string, j: Join)
    requires IsKeyed(base, k, key, false) && flag != key && AnyOuter(j.joinType)
    requires j == Join(j.joinType, Some(KeyEquals(key)), QualifiedItems("l", base.cols), "l", "r", Some(Equals(QualifiedCol("r", flag), IntLiteral(1))))
    ensures JoinRel(w, j, k, FlagsOf(k, key, Some(flag))) == base
  {
    var r := FlagsOf(k, key, Some(flag));
    var rf := FlagRowOf(k.cols, key, Some(flag));
    FollowsSelf(base, k, key);
    FlagFollows(base, k, key, Some(flag));
    FlagFinishes(w, base, k, key, flag, j);
    KeyedJoin(w, base, k, key, j, k, r, Same(), rf, PayloadOf(|base.cols|, false));
    KeyedDistinct(base, k, key, false);
    QualifiedAliases("l", base.cols);
  }

  lemma FlagFinishes(w: World, base: Rel, k: Rel, key: string, flag: string, j: Join)
    requires IsKeyed(base, k, key, false) && flag != key
    requires j == Join(j.joinType, Some(KeyEquals(key)), QualifiedItems("l", base.cols), "l", "r", Some(Equals(QualifiedCol("r", flag), IntLiteral(1))))
    ensures Finishes(w, j, JoinScope(j, k, FlagsOf(k, key, Some(flag))), k.rows, x => Same()(x) + FlagRowOf(k.cols, key, Some(flag))(x), PayloadOf(|base.cols|, false))
  {
    var scope := JoinScope(j, k, FlagsOf(k, key, Some(flag)));
    forall x | x in k.rows
      ensures FinishesRow(w, j, scope, Same()(x) + FlagRowOf(k.cols, key, Some(flag))(x), PayloadOf(|base.cols|, false)(x))
    {
      FlagFinishesRow(w, base, k, key, flag, j, x);
    }
  }

  lemma FlagFinishesRow(w: World, base: Rel, k: Rel, key: string, flag: string, j: Join, x: Row)
    requires IsKeyed(base, k, key, false) && flag != key && x in k.rows
    requires j == Join(j.joinType, Some(KeyEquals(key)), QualifiedItems("l", base.cols), "l", "r", Some(Equals(QualifiedCol("r", flag), IntLiteral(1))))
    ensures FinishesRow(w, j, Qualified("l", k.cols) + Qualified("r", FlagCols(key, Some(flag))), x + FlagRow(k.cols, key, Some(flag), x), PayloadOf(|base.cols|, false)(x))
  {
    FlagPasses(w, base, k, key, flag, x);
    LeftPayload(w, base, k, key, FlagCols(key, Some(flag)), x, FlagRow(k.cols, key, Some(flag), x));
  }

  // ---- SEMI and CROSS -----------------------------------------------------------------------------

  lemma SemiJoinRel(w: World, base: Rel, k: Rel, key: string, j: Join)
    requires IsKeyed(base, k, key, false) && j == Join(Semi, Some(KeyEquals(key)), QualifiedItems("l", base.cols), "l", "r", None)
    ensures JoinRel(w, j, k, FlagsOf(k, key, None)) == base
  {
    var r := FlagsOf(k, key, None);
    var rf := FlagRowOf(k.cols, key, None);
    var pad := (x: Row) => Same()(x) + Nulls(|r.cols|);
    FollowsSelf(base, k, key);
    FlagFollows(base, k, key, None);
    KeyedMatch(w, base, k, key, j, k, r, Same(), rf);
    OneToOneSemi(k.rows, Same(), rf, JoinMatch(w, j, k, r), k, r);
    forall x | x in k.rows
      ensures FinishesRow(w, j, JoinScope(j, k, r), pad(x), PayloadOf(|base.cols|, false)(x))
    {
      LeftPayload(w, base, k, key, r.cols, x, Nulls(|r.cols|));
    }
    MapCong(k.rows, x => Same()(x) + Nulls(|r.cols|), pad);
    JoinFinish(w, j, k, r, k.rows, pad, PayloadOf(|base.cols|, false));
    KeyedDistinct(base, k, key, false);
    QualifiedAliases("l", base.cols);
  }

  /** CROSS JOIN with the key condition in WHERE, and the INNER JOIN it is the same as. */
  lemma CrossAsInner(w: World, base: Rel, k: Rel, key: string, j: Join, r: Rel, rf: Row -> Row)
    requires IsKeyed(base, k, key, false) && Follows(k, r, rf, key)
    requires j == Join(Cross, None, j.projection, "l", "r", Some(KeyEquals(key)))
    ensures FilterBag(JoinRows(Cross, JoinMatch(w, j, k, r), k, r), x => Passes(w, j.filter, JoinScope(j, k, r), x))
      == MapBag(k.rows, x => Same()(x) + rf(x))
  {
    var inner := Join(Inner, Some(KeyEquals(key)), j.projection, "l", "r", None);
    FollowsSelf(base, k, key);
    KeyedMatch(w, base, k, key, inner, k, r, Same(), rf);
    OneToOneInner(k.rows, Same(), rf, JoinMatch(w, inner, k, r));
    CrossCondition(w, j, inner, k, r);
  }

  lemma CrossCondition(w: World, j: Join, inner: Join, l: Rel, r: Rel)
    requires j.joinType == Cross && j.condition == None && j.filter.Some?
    requires inner == Join(Inner, j.filter, j.projection, j.leftAlias, j.rightAlias, None)
    ensures FilterBag(JoinRows(Cross, JoinMatch(w, j, l, r), l, r), x => Passes(w, j.filter, JoinScope(j, l, r), x))
      == InnerRows(JoinMatch(w, inner, l, r), l.rows, r.rows)
  {
    var p := (x: Row) => Passes(w, j.filter, JoinScope(j, l, r), x);
    CrossFilter(JoinMatch(w, j, l, r), JoinMatch(w, inner, l, r), l.rows, r.rows, p);
  }

  lemma CrossJoinRel(w: World, base: Rel, k: Rel, key: string, j: Join)
    requires IsKeyed(base, k, key, false) && j == Join(Cross, None, QualifiedItems("l", base.cols), "l", "r", Some(KeyEquals(key)))
    ensures JoinRel(w, j, k, FlagsOf(k, key, None)) == base
  {
    var r := FlagsOf(k, key, None);
    var rf := FlagRowOf(k.cols, key, None);
    FlagFollows(base, k, key, None);
    CrossAsInner(w, base, k, key, j, r, rf);
    forall x | x in k.rows
      ensures PayloadOf(|base.cols|, false)(x) == ProjectRow(w, j.projection, JoinScope(j, k, r), Same()(x) + rf(x))
    {
      LeftPayload(w, base, k, key, r.cols, x, rf(x));
    }
    MapCompose(k.rows, x => Same()(x) + rf(x), (x: Row) => ProjectRow(w, j.projection, JoinScope(j, k, r), x), PayloadOf(|base.cols|, false));
    KeyedDistinct(base, k, key, false);
    QualifiedAliases("l", base.cols);
  }

  lemma FlagContent(c: Scene, m: nat, keyed: nat, key: string, flag: Option<string>)
    requires Stored(c) && Viewed(c) && FlagTable(c.g, m, keyed, key, flag)
    ensures keyed < |c.g| && Relation(c, m) == FlagsOf(Relation(c, keyed), key, flag)
  {
    ViewContent(c, m);
    FlagView(c.w, [m], Relation(c, keyed), key, flag);
  }

  lemma FlagSteady(c: Scene, n: nat, key: string, l: nat, r: nat, j: Join)
    requires Stored(c) && Viewed(c) && l < n <= |c.g| && r < n && IsKeyed(c.base, Relation(c, l), key, false)
    requires FlagJoin(c.g, c.base.cols, key, JoinQ(l, r, j))
    ensures Steady(c, n, JoinQ(l, r, j), c.base)
  {
    var flag := FlagOfFilter(j.filter.value);
    FlagContent(c, r, l, key, flag);
    FlagRels(c.w, c.style, c.base, Relation(c, l), key, flag.value, j);
    JoinSteady(c, n, l, r, j, c.base);
  }

  /** A join with a flag table, as built and as rendered. */
  lemma FlagRels(w: World, style: Style, base: Rel, k: Rel, key: string, flag: string, j: Join)
    requires IsKeyed(base, k, key, false) && flag != key && AnyOuter(j.joinType)
    requires j == Join(j.joinType, Some(KeyEquals(key)), QualifiedItems("l", base.cols), "l", "r", Some(Equals(QualifiedCol("r", flag), IntLiteral(1))))
    ensures JoinRel(w, j, k, FlagsOf(k, key, Some(flag))) == base
    ensures JoinRel(w, RenderJoin(style, j), k, FlagsOf(k, key, Some(flag))) == base
  {
    FlagJoinRel(w, base, k, key, flag, j);
    FlagJoinRel(w, base, k, key, flag, RenderJoin(style, j));
  }

  lemma SemiSteady(c: Scene, n: nat, key: string, l: nat, r: nat, j: Join)
    requires Stored(c) && Viewed(c) && l < n <= |c.g| && r < n && IsKeyed(c.base, Relation(c, l), key, false)
    requires SemiJoin(c.g, c.base.cols, key, JoinQ(l, r, j))
    ensures Steady(c, n, JoinQ(l, r, j), c.base)
  {
    FlagContent(c, r, l, key, None);
    SemiJoinRel(c.w, c.base, Relation(c, l), key, j);
    assert RenderJoin(c.style, j) == j;
    JoinSteady(c, n, l, r, j, c.base);
  }

  lemma CrossSteady(c: Scene, n: nat, key: string, l: nat, r: nat, j: Join)
    requires Stored(c) && Viewed(c) && l < n <= |c.g| && r < n && IsKeyed(c.base, Relation(c, l), key, false)
    requires CrossJoin(c.g, c.base.cols, key, JoinQ(l, r, j))
    ensures Steady(c, n, JoinQ(l, r, j), c.base)
  {
    FlagContent(c, r, l, key, None);
    CrossJoinRel(c.w, c.base, Relation(c, l), key, j);
    assert RenderJoin(c.style, j) == j;
    JoinSteady(c, n, l, r, j, c.base);
  }

  lemma FlagSource(c: Scene, specs: seq<Spec>, n: nat, q: Query<nat>, spec: Spec)
    requires Known(c, specs, n) && ReadsBelow(c, q, n) && FlagRule(c.g, c.base.cols, specs, q, spec)
    ensures q.left < n && q.right < n && IsKeyed(c.base, Relation(c, q.left), specs[q.left].key, false)
  {
    Fetch(c, specs, n, q, 0);
    Fetch(c, specs, n, q, 1);
  }

  lemma FlagMeans(c: Scene, specs: seq<Spec>, n: nat, q: Query<nat>, spec: Spec) returns (d: Rel)
    requires Known(c, specs, n) && Viewed(c) && ReadsBelow(c, q, n) && FlagRule(c.g, c.base.cols, specs, q, spec)
    ensures Steady(c, n, q, d) && Sat(c.w, c.base, d, spec)
  {
    d := c.base;
    RowsShape(c.w, c.base, None);
    FlagSource(c, specs, n, q, spec);
    var key := specs[q.left].key;
    if FlagJoin(c.g, c.base.cols, key, q) {
      FlagSteady(c, n, key, q.left, q.right, q.join);
    } else if SemiJoin(c.g, c.base.cols, key, q) {
      SemiSteady(c, n, key, q.left, q.right, q.join);
    } else {
      CrossSteady(c, n, key, q.left, q.right, q.join);
    }
  }

  // ---- two halves of the columns --------------------------------------------------------------------

  lemma HalfFollows(base: Rel, k: Rel, key: string, names: seq<string>)
    requires IsKeyed(base, k, key, false)
    ensures Follows(k, Rel(names + [key], MapBag(k.rows, ByNameOf(k.cols, names + [key]))), ByNameOf(k.cols, names + [key]), key)
  {
    KeyedColumns(base, k, key);
    assert (names + [key])[|names|] == key;
    forall x | x in k.rows
      ensures Lookup(names + [key], ByName(k.cols, names + [key], x), key) == Lookup(k.cols, x, key)
    {
      ByNameLookup(k.cols, names + [key], x, key);
    }
  }

  /** Reading one half by name gives the names of that half. */
  lemma HalfNames(cols: seq<string>, names: seq<string>, key: string, x: Row)
    ensures ByName(names + [key], names, ByName(cols, names + [key], x)) == ByName(cols, names, x)
  {
    forall i | 0 <= i < |names|
      ensures Lookup(names + [key], ByName(cols, names + [key], x), names[i]) == Lookup(cols, x, names[i])
    {
      assert (names + [key])[i] == names[i];
      ByNameLookup(cols, names + [key], x, names[i]);
    }
  }

  lemma NamesAmong(names: seq<string>, key: string)
    ensures forall k :: 0 <= k < |names| ==> names[k] in names + [key]
  {
    forall k | 0 <= k < |names| ensures names[k] in names + [key] { assert (names + [key])[k] == names[k]; }
  }

  lemma ProjectConcat(w: World, a: seq<Item>, b: seq<Item>, scope: seq<string>, row: Row)
    ensures ProjectRow(w, a + b, scope, row) == ProjectRow(w, a, scope, row) + ProjectRow(w, b, scope, row)
  {
  }

  function Half(cols: seq<string>, a: seq<string>, key: string, x: Row): Row { ByName(cols, a + [key], x) }

  lemma HalvesRow(w: World, cols: seq<string>, a: seq<string>, b: seq<string>, key: string, x: Row)
    ensures ProjectRow(w, QualifiedItems("l", a) + QualifiedItems("r", b), Qualified("l", a + [key]) + Qualified("r", b + [key]),
      Half(cols, a, key, x) + Half(cols, b, key, x)) == ByName(cols, a + b, x)
  {
    var scope, row := Qualified("l", a + [key]) + Qualified("r", b + [key]), Half(cols, a, key, x) + Half(cols, b, key, x);
    ProjectConcat(w, QualifiedItems("l", a), QualifiedItems("r", b), scope, row);
    LeftHalf(w, cols, a, b, key, x);
    RightHalf(w, cols, a, b, key, x);
    ByNameConcat(cols, a, b, x);
  }

  lemma ByNameConcat(cols: seq<string>, a: seq<string>, b: seq<string>, x: Row)
    ensures ByName(cols, a + b, x) == ByName(cols, a, x) + ByName(cols, b, x)
  {
  }

  lemma LeftHalf(w: World, cols: seq<string>, a: seq<string>, b: seq<string>, key: string, x: Row)
    ensures ProjectRow(w, QualifiedItems("l", a), Qualified("l", a + [key]) + Qualified("r", b + [key]),
      Half(cols, a, key, x) + Half(cols, b, key, x)) == ByName(cols, a, x)
  {
    NamesAmong(a, key);
    ProjectLeft(w, a + [key], b + [key], a, Half(cols, a, key, x), Half(cols, b, key, x));
    HalfNames(cols, a, key, x);
  }

  lemma RightHalf(w: World, cols: seq<string>, a: seq<string>, b: seq<string>, key: string, x: Row)
    ensures ProjectRow(w, QualifiedItems("r", b), Qualified("l", a + [key]) + Qualified("r", b + [key]),
      Half(cols, a, key, x) + Half(cols, b, key, x)) == ByName(cols, b, x)
  {
    NamesAmong(b, key);
    ProjectRight(w, a + [key], b + [key], b, Half(cols, a, key, x), Half(cols, b, key, x));
    HalfNames(cols, b, key, x);
  }

  ghost function HalfOf(k: Rel, names: seq<string>, key: string): Rel {
    Rel(names + [key], MapBag(k.rows, ByNameOf(k.cols, names + [key])))
  }

  lemma HalvesFinish(w: World, base: Rel, k: Rel, key: string, a: seq<string>, b: seq<string>, j: Join)
    requires IsKeyed(base, k, key, false) && a + b == base.cols
    requires j == Join(j.joinType, Some(KeyEquals(key)), QualifiedItems("l", a) + QualifiedItems("r", b), "l", "r", None)
    ensures Finishes(w, j, JoinScope(j, HalfOf(k, a, key), HalfOf(k, b, key)), k.rows,
      x => ByNameOf(k.cols, a + [key])(x) + ByNameOf(k.cols, b + [key])(x), PayloadOf(|base.cols|, false))
  {
    var scope := JoinScope(j, HalfOf(k, a, key), HalfOf(k, b, key));
    forall x | x in k.rows
      ensures FinishesRow(w, j, scope, ByNameOf(k.cols, a + [key])(x) + ByNameOf(k.cols, b + [key])(x), PayloadOf(|base.cols|, false)(x))
    {
      HalvesRow(w, k.cols, a, b, key, x);
      ByNamePayload(base, k, key, x);
    }
  }

  lemma HalvesRel(w: World, base: Rel, k: Rel, key: string, a: seq<string>, b: seq<string>, j: Join)
    requires IsKeyed(base, k, key, false) && a + b == base.cols && AnyOuter(j.joinType)
    requires j == Join(j.joinType, Some(KeyEquals(key)), QualifiedItems("l", a) + QualifiedItems("r", b), "l", "r", None)
    ensures JoinRel(w, j, HalfOf(k, a, key), HalfOf(k, b, key)) == base
  {
    HalfFollows(base, k, key, a);
    HalfFollows(base, k, key, b);
    HalvesFinish(w, base, k, key, a, b, j);
    KeyedJoin(w, base, k, key, j, HalfOf(k, a, key), HalfOf(k, b, key), ByNameOf(k.cols, a + [key]), ByNameOf(k.cols, b + [key]), PayloadOf(|base.cols|, false));
    KeyedDistinct(base, k, key, false);
    HalvesAliases(a, b);
  }

  lemma HalvesRendered(w: World, style: Style, base: Rel, k: Rel, key: string, a: seq<string>, b: seq<string>, j: Join)
    requires IsKeyed(base, k, key, false) && a + b == base.cols && AnyOuter(j.joinType)
    requires j == Join(j.joinType, Some(KeyEquals(key)), QualifiedItems("l", a) + QualifiedItems("r", b), "l", "r", None)
    ensures JoinRel(w, RenderJoin(style, j), HalfOf(k, a, key), HalfOf(k, b, key)) == base
  {
    HalvesRel(w, base, k, key, a, b, RenderJoin(style, j));
  }

  lemma HalvesAliases(a: seq<string>, b: seq<string>)
    ensures Aliases(QualifiedItems("l", a) + QualifiedItems("r", b)) == a + b
  {
  }

  lemma HalfContent(c: Scene, m: nat, key: string, names: seq<string>)
    requires Stored(c) && Viewed(c) && SelectView(c.g, m) && ViewSelect(c.g, m) == BaseSelect(Passthrough(names) + [KeyItem(key)])
    ensures Relation(c, m) == HalfOf(Relation(c, ViewSource(c.g, m)), names, key)
  {
    ViewContent(c, m);
    assert Passthrough(names) + [KeyItem(key)] == Passthrough(names + [key]);
    NamedView(c.w, [m], names + [key], Relation(c, ViewSource(c.g, m)));
  }

  lemma HalvesJoined(c: Scene, n: nat, key: string, l: nat, r: nat, j: Join, k: Rel, a: seq<string>, b: seq<string>)
    requires Stored(c) && l < n <= |c.g| && r < n && IsKeyed(c.base, k, key, false) && a + b == c.base.cols
    requires Relation(c, l) == HalfOf(k, a, key) && Relation(c, r) == HalfOf(k, b, key)
    requires j == Join(FullOuter, Some(KeyEquals(key)), QualifiedItems("l", a) + QualifiedItems("r", b), "l", "r", None)
    ensures Steady(c, n, JoinQ(l, r, j), c.base)
  {
    HalvesRel(c.w, c.base, k, key, a, b, j);
    HalvesRendered(c.w, c.style, c.base, k, key, a, b, j);
    JoinSteady(c, n, l, r, j, c.base);
  }

  lemma HalvesSteady(c: Scene, n: nat, key: string, l: nat, r: nat, j: Join, a: seq<string>, b: seq<string>)
    requires Stored(c) && Viewed(c) && l < n <= |c.g| && r < n && SelectView(c.g, l) && SelectView(c.g, r) && a + b == c.base.cols
    requires ViewSource(c.g, l) == ViewSource(c.g, r) && IsKeyed(c.base, Relation(c, ViewSource(c.g, l)), key, false)
    requires ViewSelect(c.g, l) == BaseSelect(Passthrough(a) + [KeyItem(key)])
    requires ViewSelect(c.g, r) == BaseSelect(Passthrough(b) + [KeyItem(key)])
    requires j == Join(FullOuter, Some(KeyEquals(key)), QualifiedItems("l", a) + QualifiedItems("r", b), "l", "r", None)
    ensures Steady(c, n, JoinQ(l, r, j), c.base)
  {
    HalfContent(c, l, key, a);
    HalfContent(c, r, key, b);
    HalvesJoined(c, n, key, l, r, j, Relation(c, ViewSource(c.g, l)), a, b);
  }

  lemma HalvesSource(c: Scene, specs: seq<Spec>, n: nat, q: Query<nat>, spec: Spec)
    requires Known(c, specs, n) && ReadsBelow(c, q, n) && HalvesRule(c.g, c.base.cols, specs, q, spec)
    ensures q.left < n && q.right < n
    ensures IsKeyed(c.base, Relation(c, ViewSource(c.g, q.left)), specs[ViewSource(c.g, q.left)].key, false)
  {
    Fetch(c, specs, n, q, 0);
    Fetch(c, specs, n, q, 1);
    FetchUnder(c, specs, n, q, 0);
  }

  lemma HalvesMeans(c: Scene, specs: seq<Spec>, n: nat, q: Query<nat>, spec: Spec) returns (d: Rel)
    requires Known(c, specs, n) && Viewed(c) && ReadsBelow(c, q, n) && HalvesRule(c.g, c.base.cols, specs, q, spec)
    ensures Steady(c, n, q, d) && Sat(c.w, c.base, d, spec)
  {
    d := c.base;
    RowsShape(c.w, c.base, None);
    HalvesSource(c, specs, n, q, spec);
    HalvesOf(c, n, specs[ViewSource(c.g, q.left)].key, q.left, q.right, q.join);
  }

  lemma HalvesParts(g: Graph, cols: seq<string>, key: string, l: nat, r: nat, j: Join)
    requires SelectView(g, l) && SelectView(g, r) && Halves(g, cols, key, JoinQ(l, r, j))
    ensures
      var h := |cols| / 2;
      && cols[..h] + cols[h..] == cols
      && ViewSelect(g, l) == BaseSelect(Passthrough(cols[..h]) + [KeyItem(key)])
      && ViewSelect(g, r) == BaseSelect(Passthrough(cols[h..]) + [KeyItem(key)])
      && j == Join(FullOuter, Some(KeyEquals(key)), QualifiedItems("l", cols[..h]) + QualifiedItems("r", cols[h..]), "l", "r", None)
  {
  }

  lemma HalvesOf(c: Scene, n: nat, key: string, l: nat, r: nat, j: Join)
    requires Stored(c) && Viewed(c) && l < n <= |c.g| && r < n && SelectView(c.g, l) && SelectView(c.g, r)
    requires ViewSource(c.g, l) == ViewSource(c.g, r) && IsKeyed(c.base, Relation(c, ViewSource(c.g, l)), key, false)
    requires Halves(c.g, c.base.cols, key, JoinQ(l, r, j))
    ensures Steady(c, n, JoinQ(l, r, j), c.base)
  {
    var h := |c.base.cols| / 2;
    HalvesParts(c.g, c.base.cols, key, l, r, j);
    HalvesSteady(c, n, key, l, r, j, c.base.cols[..h], c.base.cols[h..]);
  }
}

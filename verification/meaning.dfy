/** What each rule promises: the query holds what its specification says, on every occasion, and
    rendering does not change it. */
module Meaning {
  import opened Bags
  import opened Expressions
  import opened Values
  import opened Enumerations
  import opened Queries
  import opened Graphs
  import opened Engine
  import opened Selects
  import opened Partitions
  import opened Channels
  import opened Joins
  import opened Lowering
  import opened Ordering
  import opened Rules

  /** A relation is what a specification says. */
  ghost predicate Sat(w: World, base: Rel, rel: Rel, spec: Spec) {
    match spec
    case Rows(f) => rel == Rel(base.cols, Where(w, f, base))
    case Padded(extra) => Wide(base, rel, extra, false) && MapBag(rel.rows, PayloadOf(|base.cols|, false)) == base.rows
    case Keyed(key, first) => IsKeyed(base, rel, key, first)
    case Copies(key) => IsCopies(base, rel, key, false)
    case Tagged(tag, keep) => IsTagged(base, rel, tag, keep)
    case Filler(tag, keep) => IsFiller(base, rel, tag, keep)
    case Image => true
  }

  /** A tree and what its nodes hold. */
  datatype Scene = Scene(w: World, style: Style, g: Graph, base: Rel, rels: seq<Rel>)

  predicate Stored(c: Scene) { |c.rels| == |c.g| }

  function Relation(c: Scene, m: nat): Rel
    requires Stored(c) && m < |c.g|
  {
    c.rels[m]
  }

  /** How a query of node n reads the nodes before it. */
  ghost function StoreReader(c: Scene, n: nat): Reader<nat> {
    (o: nat, s: nat) => if s < n && s < |c.rels| then c.rels[s] else EMPTY_REL
  }

  /** A view of one SELECT over one node holds that SELECT of what the node holds. */
  ghost predicate Viewed(c: Scene)
    requires Stored(c)
  {
    forall m: nat :: SelectView(c.g, m) ==> c.rels[m] == SelectRel(c.w, [m], ViewSelect(c.g, m), c.rels[ViewSource(c.g, m)])
  }

  /** Every relation numbered below n is what its specification says. */
  ghost predicate Known(c: Scene, specs: seq<Spec>, n: nat) {
    && Stored(c) && |specs| == |c.g| && n <= |c.g| && Shaped(c.base) && QUALIFY_COLUMN !in c.base.cols
    && forall m :: 0 <= m < n && !c.g[m].QueryNode? ==> Sat(c.w, c.base, Relation(c, m), specs[m])
  }

  /** A query of node n reads relations below n. */
  ghost predicate ReadsBelow(c: Scene, q: Query<nat>, n: nat) {
    n <= |c.g| && forall k :: 0 <= k < |Sources(q)| ==> Sources(q)[k] < n && !c.g[Sources(q)[k]].QueryNode?
  }

  /** The query gives d on every occasion, as built and as rendered. */
  ghost predicate Steady(c: Scene, n: nat, q: Query<nat>, d: Rel)
    requires Stored(c) && n <= |c.g|
  {
    && Renderable(c.style, q)
    && forall path :: SteadyOn(c, n, q, d, path)
  }

  ghost predicate SteadyOn(c: Scene, n: nat, q: Query<nat>, d: Rel, path: Path)
    requires Stored(c) && n <= |c.g| && Renderable(c.style, q)
  {
    var src := StoreReader(c, n);
    QueryRel(c.w, path, q, src) == d && QueryRel(c.w, path, Render(c.style, q), src) == d
  }

  /** What a source of a query holds. */
  lemma Fetch(c: Scene, specs: seq<Spec>, n: nat, q: Query<nat>, k: nat)
    requires Known(c, specs, n) && ReadsBelow(c, q, n) && k < |Sources(q)|
    ensures Sources(q)[k] < n && Sat(c.w, c.base, Relation(c, Sources(q)[k]), specs[Sources(q)[k]])
    ensures forall o: nat :: StoreReader(c, n)(o, Sources(q)[k]) == Relation(c, Sources(q)[k])
  {
  }

  lemma RowsShape(w: World, base: Rel, f: Option<Expr>)
    requires Shaped(base)
    ensures Shaped(Rel(base.cols, Where(w, f, base)))
    ensures Sat(w, base, base, Rows(None))
    ensures Rel(base.cols, Where(w, None, base)) == base
  {
    WhereMembers(w, f, base);
    WhereNone(w, base);
  }

  // ---- one SELECT over one relation -----------------------------------------------------------

  /** A SELECT that is written as it is. */
  predicate WrittenAsIs(style: Style, sel: Select) {
    sel.orderBy.None? && (sel.qualify.None? || !style.lowerQualify)
  }

  lemma SelectSteady(c: Scene, n: nat, s: nat, sel: Select, d: Rel)
    requires Stored(c) && s < n <= |c.g| && WrittenAsIs(c.style, sel)
    requires forall path :: SelectRel(c.w, path, sel, Relation(c, s)) == d
    ensures Steady(c, n, SelectQ(s, sel), d)
  {
    var q: Query<nat> := SelectQ(s, sel);
    assert Render(c.style, q) == q;
    forall path: Path
      ensures SteadyOn(c, n, q, d, path)
    {
      assert SelectRel(c.w, path, sel, Relation(c, s)) == d;
    }
  }

  /** A SELECT whose QUALIFY may be lowered. */
  lemma QualifiedSteady(c: Scene, n: nat, s: nat, sel: Select, d: Rel)
    requires Stored(c) && s < n <= |c.g| && sel.orderBy.None? && sel.qualify.Some?
    requires sel.projection.Some? && Nameable(sel.projection.value)
    requires forall path :: SelectRel(c.w, path, sel, Relation(c, s)) == d
    ensures Steady(c, n, SelectQ(s, sel), d)
  {
    if WrittenAsIs(c.style, sel) {
      SelectSteady(c, n, s, sel, d);
    } else {
      LoweredSteady(c, n, s, sel, d);
    }
  }

  lemma LoweredSteady(c: Scene, n: nat, s: nat, sel: Select, d: Rel)
    requires Stored(c) && s < n <= |c.g| && sel.orderBy.None? && sel.qualify.Some? && c.style.lowerQualify
    requires sel.projection.Some? && Nameable(sel.projection.value)
    requires forall path :: SelectRel(c.w, path, sel, Relation(c, s)) == d
    ensures Steady(c, n, SelectQ(s, sel), d)
  {
    var q: Query<nat> := SelectQ(s, sel);
    assert Render(c.style, q) == Derived(QualifyOuter(sel), SelectQ(s, QualifyInner(sel)));
    forall path: Path
      ensures SteadyOn(c, n, q, d, path)
    {
      LoweredOn(c, n, s, sel, path);
      SelectMeaning(c.w, path, s, sel, StoreReader(c, n));
      assert SelectRel(c.w, path, sel, Relation(c, s)) == d && SelectRel(c.w, path + [0], sel, Relation(c, s)) == d;
    }
  }

  lemma LoweredOn(c: Scene, n: nat, s: nat, sel: Select, path: Path)
    requires Stored(c) && s < n <= |c.g| && sel.qualify.Some?
    requires sel.projection.Some? && Nameable(sel.projection.value)
    ensures QueryRel(c.w, path, Derived(QualifyOuter(sel), SelectQ(s, QualifyInner(sel))), StoreReader(c, n))
         == SelectRel(c.w, path + [0], sel, Relation(c, s))
  {
    var src := StoreReader(c, n);
    var inner: Query<nat> := SelectQ(s, QualifyInner(sel));
    assert QueryRel(c.w, path + [0], inner, src) == SelectRel(c.w, path + [0], QualifyInner(sel), Relation(c, s));
    QualifyLowering(c.w, path, sel, Relation(c, s));
  }

  /** A SELECT of columns with ORDER BY, which is wrapped. */
  lemma OrderedSteady(c: Scene, n: nat, s: nat, sel: Select, d: Rel)
    requires Stored(c) && s < n <= |c.g| && sel.orderBy.Some? && sel.qualify.None?
    requires sel.projection == None || sel.projection == Some(Passthrough(d.cols))
    requires Shaped(d)
    requires forall path :: SelectRel(c.w, path, sel, Relation(c, s)) == d
    ensures Steady(c, n, SelectQ(s, sel), d)
  {
    var q: Query<nat> := SelectQ(s, sel);
    RenderOrdered(c.style, s, sel);
    forall path: Path
      ensures SteadyOn(c, n, q, d, path)
    {
      assert SelectRel(c.w, path, sel, Relation(c, s)) == d;
      assert SelectRel(c.w, path + [0], sel, Relation(c, s)) == d;
      OrderedOn(c, n, s, sel, d, path);
    }
  }

  lemma OrderedOn(c: Scene, n: nat, s: nat, sel: Select, d: Rel, path: Path)
    requires Stored(c) && s < n <= |c.g| && sel.orderBy.Some? && sel.qualify.None? && Shaped(d)
    requires sel.projection == None || sel.projection == Some(Passthrough(d.cols))
    requires SelectRel(c.w, path, sel, Relation(c, s)) == d && SelectRel(c.w, path + [0], sel, Relation(c, s)) == d
    ensures SteadyOn(c, n, SelectQ(s, sel), d, path)
  {
    var src := StoreReader(c, n);
    RenderOrdered(c.style, s, sel);
    SelectMeaning(c.w, path, s, sel, src);
    SelectMeaning(c.w, path + [0], s, sel, src);
    DerivedMeaning(c.w, path, STAR.(projection := sel.projection), SelectQ(s, sel), src);
    OrderByWrap(c.w, path, sel, d);
  }

  lemma RenderOrdered(style: Style, s: nat, sel: Select)
    requires sel.orderBy.Some? && sel.qualify.None?
    ensures Renderable<nat>(style, SelectQ(s, sel))
    ensures Render<nat>(style, SelectQ(s, sel)) == Derived(STAR.(projection := sel.projection), SelectQ(s, sel))
  {
  }

  lemma SelectMeaning(w: World, path: Path, s: nat, sel: Select, src: Reader<nat>)
    ensures QueryRel(w, path, SelectQ(s, sel), src) == SelectRel(w, path, sel, src(0, s))
  {
  }

  lemma DerivedMeaning(w: World, path: Path, outer: Select, body: Query<nat>, src: Reader<nat>)
    ensures QueryRel(w, path, Derived(outer, body), src) == SelectRel(w, path, outer, QueryRel(w, path + [0], body, src))
  {
  }

  // ---- rules over one source --------------------------------------------------------------------

  lemma ColumnSelectMeans(c: Scene, n: nat, s: nat, sel: Select)
    requires Stored(c) && s < n <= |c.g| && Shaped(c.base) && Relation(c, s) == c.base && ColumnSelect(sel, c.base.cols)
    ensures Steady(c, n, SelectQ(s, sel), Rel(c.base.cols, Where(c.w, sel.filter, c.base)))
  {
    var d := Rel(c.base.cols, Where(c.w, sel.filter, c.base));
    RowLevelPassthrough(c.base.cols);
    forall path: Path
      ensures SelectRel(c.w, path, sel, Relation(c, s)) == d
    {
      FilterSelect(c.w, path, sel, c.base);
    }
    if sel.orderBy.Some? {
      RowsShape(c.w, c.base, sel.filter);
      OrderedSteady(c, n, s, sel, d);
    } else {
      SelectSteady(c, n, s, sel, d);
    }
  }

  lemma RowLevelPassthrough(cols: seq<string>)
    ensures forall k :: 0 <= k < |cols| ==> RowLevel(Passthrough(cols)[k].expr)
  {
  }

  /** The row built by name from all its own columns is the row. */
  lemma LateralRow(cols: seq<string>, r: Row)
    requires DistinctNames(cols) && |r| == |cols|
    ensures ByName(cols, cols, r) == r
  {
    forall k | 0 <= k < |cols| { LookupAt(cols, r, k); }
  }

  lemma LateralMeans(w: World, path: Path, src: Reader<nat>, s: nat, base: Rel)
    requires Shaped(base) && src(0, s) == base
    ensures QueryRel(w, path, LateralQ(s, base.cols), src) == base
  {
    forall r | r in base.rows { LateralRow(base.cols, r); }
    MapIdentity(base.rows, ByNameOf(base.cols, base.cols));
  }

  lemma LateralSteady(c: Scene, n: nat, s: nat)
    requires Stored(c) && s < n <= |c.g| && Shaped(c.base) && Relation(c, s) == c.base
    ensures Steady(c, n, LateralQ(s, c.base.cols), c.base)
  {
    var q: Query<nat> := LateralQ(s, c.base.cols);
    forall path: Path
      ensures SteadyOn(c, n, q, c.base, path)
    {
      LateralMeans(c.w, path, StoreReader(c, n), s, c.base);
    }
  }

  lemma CteSteady(c: Scene, n: nat, s: nat, name: string, f: Option<Expr>, m: Option<bool>)
    requires Stored(c) && s < n <= |c.g| && Shaped(c.base) && Relation(c, s) == c.base
    ensures Steady(c, n, CteQ(s, name, f, m), Rel(c.base.cols, Where(c.w, f, c.base)))
  {
    var q: Query<nat> := CteQ(s, name, f, m);
    assert Render(c.style, q) == q;
    forall path: Path
      ensures SteadyOn(c, n, q, Rel(c.base.cols, Where(c.w, f, c.base)), path)
    {
      CteFilters(c.w, path, s, name, f, m, StoreReader(c, n), c.base);
    }
  }

  lemma CteFilters(w: World, path: Path, s: nat, name: string, f: Option<Expr>, m: Option<bool>, src: Reader<nat>, base: Rel)
    requires Shaped(base) && src(0, s) == base
    ensures QueryRel(w, path, CteQ(s, name, f, m), src) == Rel(base.cols, Where(w, f, base))
  {
    var sel := STAR.(filter := f);
    assert Plain(sel) && sel.projection == None;
    FilterSelect(w, path, sel, base);
  }

  lemma FilterMeans(c: Scene, specs: seq<Spec>, n: nat, q: Query<nat>, spec: Spec) returns (d: Rel)
    requires Known(c, specs, n) && ReadsBelow(c, q, n) && FilterRule(c.base.cols, specs, q, spec)
    ensures Steady(c, n, q, d) && Sat(c.w, c.base, d, spec)
  {
    Fetch(c, specs, n, q, 0);
    RowsShape(c.w, c.base, None);
    d := Rel(c.base.cols, Where(c.w, spec.filter, c.base));
    match q
    case SelectQ(s, sel) => ColumnSelectMeans(c, n, s, sel);
    case CteQ(s, name, f, m) => CteSteady(c, n, s, name, f, m);
    case LateralQ(s, _) => LateralSteady(c, n, s);
  }

  lemma DeterminedMeans(c: Scene, specs: seq<Spec>, n: nat, q: Query<nat>, spec: Spec) returns (d: Rel)
    requires Known(c, specs, n) && ReadsBelow(c, q, n) && DeterminedRule(specs, q, spec)
    ensures Steady(c, n, q, d) && Sat(c.w, c.base, d, spec)
  {
    Fetch(c, specs, n, q, 0);
    RowsShape(c.w, c.base, None);
    ColumnSelectMeans(c, n, q.source, q.select);
    d := Rel(c.base.cols, Where(c.w, q.select.filter, c.base));
    DeterminedWhere(c.w, c.base, q.select.filter, spec.filter);
  }

  lemma DeterminedWhere(w: World, base: Rel, filter: Option<Expr>, asked: Option<Expr>)
    requires DeterminedFilter(filter, asked)
    ensures Where(w, filter, base) == Where(w, asked, base)
  {
    if asked.None? {
      DeterminedNeutral(w, EMPTY, filter.value.left.left, base);
      WhereNone(w, base);
    } else {
      DeterminedNeutral(w, asked.value, filter.value.right.left.left, base);
    }
  }

  // ---- the base rows, column by column ----------------------------------------------------------

  lemma KeepsAllHolds(w: World, e: Expr, cols: seq<string>, units: seq<Unit>, i: nat)
    requires KeepsAll(e) && NonEmpty(units) && i < |units|
    ensures Eval(w, e, cols, units, i) == Bool(true)
  {
    RowNumberAll(w, RowNumberKey(e.left), cols, units, i);
    CompareLiteral(w, Ge, e.left, 1, cols, units, i);
  }

  lemma IdentityRow(w: World, sel: Select, base: Rel, units: seq<Unit>, i: nat)
    requires Shaped(base) && IdentitySelect(sel, base.cols) && ValidUnits(None, base.rows, units) && i < |units|
    ensures OutRow(w, sel, base.cols, units, i) == units[i][0] && Kept(w, sel, base.cols, units, i)
  {
    HeadsMembers(None, base.rows, units, i, 0);
    forall k | 0 <= k < |base.cols|
      ensures Eval(w, sel.projection.value[k].expr, base.cols, units, i) == units[i][0][k]
    {
      IdentityValue(w, sel.projection.value[k], base.cols[k], base.cols, units, i);
      LookupAt(base.cols, units[i][0], k);
    }
    if sel.qualify.Some? { KeepsAllHolds(w, sel.qualify.value, base.cols, units, i); }
  }

  lemma IdentityAliases(items: seq<Item>, cols: seq<string>)
    requires IdentityItems(items, cols)
    ensures Aliases(items) == cols
  {
  }

  lemma IdentityNotOneGroup(sel: Select, cols: seq<string>)
    requires IdentitySelect(sel, cols)
    ensures !OneGroup(sel)
  {
    forall k | 0 <= k < |cols| ensures !HasAggregate(sel.projection.value[k].expr) { assert IdentityItem(sel.projection.value[k], cols[k]); }
    if sel.qualify.Some? { KeepsAllNoAggregate(sel.qualify.value); }
  }

  lemma KeepsAllNoAggregate(e: Expr)
    requires KeepsAll(e)
    ensures !HasAggregate(e)
  {
    assert e.left.orderBy == [RowNumberKey(e.left)];
  }

  lemma IdentitySelectRel(w: World, path: Path, sel: Select, base: Rel)
    requires Shaped(base) && IdentitySelect(sel, base.cols)
    ensures SelectRel(w, path, sel, base) == base
  {
    var units := SelectUnits(w, path, sel, base);
    IdentityNotOneGroup(sel, base.cols);
    WhereNone(w, base);
    forall i | 0 <= i < |units| { IdentityRow(w, sel, base, units, i); }
    HeadwiseOutput(w, sel, base.cols, base.rows, units, r => r);
    MapIdentity(base.rows, r => r);
    IdentityAliases(sel.projection.value, base.cols);
  }

  lemma IdentityMeans(c: Scene, specs: seq<Spec>, n: nat, q: Query<nat>, spec: Spec) returns (d: Rel)
    requires Known(c, specs, n) && ReadsBelow(c, q, n) && IdentityRule(c.base.cols, specs, q, spec)
    ensures Steady(c, n, q, d) && Sat(c.w, c.base, d, spec)
  {
    Fetch(c, specs, n, q, 0);
    RowsShape(c.w, c.base, None);
    d := c.base;
    forall path { IdentitySelectRel(c.w, path, q.select, c.base); }
    if q.select.qualify.None? {
      SelectSteady(c, n, q.source, q.select, d);
    } else {
      IdentityAliases(q.select.projection.value, c.base.cols);
      QualifiedSteady(c, n, q.source, q.select, d);
    }
  }

  // ---- wide relations ---------------------------------------------------------------------------

  lemma UnwidenSelect(w: World, path: Path, base: Rel, rel: Rel, extra: string, first: bool)
    requires Wide(base, rel, extra, first) && MapBag(rel.rows, PayloadOf(|base.cols|, first)) == base.rows
    ensures SelectRel(w, path, BaseSelect(Passthrough(base.cols)), rel) == base
  {
    Unwiden(w, path, BaseSelect(Passthrough(base.cols)), base, rel, extra, first);
    WhereNone(w, rel);
  }

  lemma UnwidenMeans(c: Scene, specs: seq<Spec>, n: nat, q: Query<nat>, spec: Spec) returns (d: Rel)
    requires Known(c, specs, n) && ReadsBelow(c, q, n) && UnwidenRule(c.base.cols, specs, q, spec)
    ensures Steady(c, n, q, d) && Sat(c.w, c.base, d, spec)
  {
    Fetch(c, specs, n, q, 0);
    RowsShape(c.w, c.base, None);
    d := c.base;
    var rel := Relation(c, q.source);
    match specs[q.source]
    case Padded(extra) =>
      forall path { UnwidenSelect(c.w, path, c.base, rel, extra, false); }
      SelectSteady(c, n, q.source, q.select, d);
    case Keyed(key, first) =>
      KeyedDistinct(c.base, rel, key, first);
      forall path { UnwidenSelect(c.w, path, c.base, rel, key, first); }
      SelectSteady(c, n, q.source, q.select, d);
  }

  lemma ReduceMeans(c: Scene, specs: seq<Spec>, n: nat, q: Query<nat>, spec: Spec) returns (d: Rel)
    requires Known(c, specs, n) && ReadsBelow(c, q, n) && ReduceRule(c.base.cols, specs, q, spec)
    ensures Steady(c, n, q, d) && Sat(c.w, c.base, d, spec)
  {
    Fetch(c, specs, n, q, 0);
    RowsShape(c.w, c.base, None);
    d := c.base;
    var rel := Relation(c, q.source);
    match specs[q.source]
    case Tagged(tag, keep) =>
      forall path { TagFilterRestores(c.w, path, c.base, rel, tag, keep); }
      SelectSteady(c, n, q.source, q.select, d);
    case Copies(key) =>
      forall path { GroupCollapse(c.w, path, c.base, rel, key, q.select); }
      SelectSteady(c, n, q.source, q.select, d);
    case Keyed(key, _) =>
      forall path { GroupCollapse(c.w, path, c.base, rel, key, q.select); }
      SelectSteady(c, n, q.source, q.select, d);
  }

  // ---- growing ----------------------------------------------------------------------------------

  /** The row with a NULL at the end. */
  function PadRow(r: Row): Row { r + [Null] }

  ghost function PadOf(): Row -> Row { (r: Row) => PadRow(r) }

  lemma PadSelect(w: World, path: Path, base: Rel, extra: string, sel: Select)
    requires Shaped(base) && extra !in base.cols && NullExtended(sel, base.cols, extra)
    ensures SelectRel(w, path, sel, base) == Rel(base.cols + [extra], MapBag(base.rows, PadOf()))
  {
    var item := Item(extra, sel.projection.value[|base.cols|].expr);
    PlainSelect(w, path, sel, base);
    WhereNone(w, base);
    ExtendedAliases(base.cols, item);
    EmbedsSelf(base.cols);
    var f := (r: Row) => PlainRow(w, sel, base.cols, r);
    forall r | r in base.rows { PadRowMeans(w, base, extra, sel, r); }
    MapCong(base.rows, f, PadOf());
  }

  lemma PadRowMeans(w: World, base: Rel, extra: string, sel: Select, r: Row)
    requires Shaped(base) && extra !in base.cols && NullExtended(sel, base.cols, extra) && r in base.rows
    ensures PlainRow(w, sel, base.cols, r) == PadOf()(r)
  {
    EmbedsSelf(base.cols);
    ExtendedRow(w, base.cols, base.cols, Item(extra, sel.projection.value[|base.cols|].expr), r);
    assert r[..|base.cols|] == r;
  }

  lemma PadSat(w: World, base: Rel, extra: string)
    requires Shaped(base) && extra !in base.cols
    ensures Sat(w, base, Rel(base.cols + [extra], MapBag(base.rows, PadOf())), Padded(extra))
  {
    PadPayload(base);
    forall y | y in MapBag(base.rows, PadOf())
      ensures |y| == |base.cols| + 1
    {
      PadMember(base, y);
    }
  }

  lemma PadMember(base: Rel, y: Row)
    requires Shaped(base) && y in MapBag(base.rows, PadOf())
    ensures |y| == |base.cols| + 1
  {
    MapMember(base.rows, PadOf(), y);
  }

  /** Cutting the NULL off again gives the rows back. */
  lemma PadPayload(base: Rel)
    requires Shaped(base)
    ensures MapBag(MapBag(base.rows, PadOf()), PayloadOf(|base.cols|, false)) == base.rows
  {
    var n := |base.cols|;
    var id := (r: Row) => r;
    forall r | r in base.rows
      ensures id(r) == PayloadOf(n, false)(PadOf()(r))
    {
      assert (r + [Null])[..n] == r;
    }
    MapCompose(base.rows, PadOf(), PayloadOf(n, false), id);
    MapIdentity(base.rows, id);
  }

  lemma ExtendMeans(c: Scene, specs: seq<Spec>, n: nat, q: Query<nat>, spec: Spec) returns (d: Rel)
    requires Known(c, specs, n) && ReadsBelow(c, q, n) && ExtendRule(c.base.cols, specs, q, spec)
    ensures Steady(c, n, q, d) && Sat(c.w, c.base, d, spec)
  {
    Fetch(c, specs, n, q, 0);
    RowsShape(c.w, c.base, None);
    match spec
    case Padded(extra) =>
      d := Rel(c.base.cols + [extra], MapBag(c.base.rows, PadOf()));
      forall path { PadSelect(c.w, path, c.base, extra, q.select); }
      SelectSteady(c, n, q.source, q.select, d);
      PadSat(c.w, c.base, extra);
    case Tagged(tag, keep) =>
      d := Rel(c.base.cols + [tag], MapBag(c.base.rows, TagOf(|c.base.cols|, keep)));
      forall path { KeepSelect(c.w, path, c.base, tag, keep); }
      SelectSteady(c, n, q.source, q.select, d);
      KeptRows(c.base, tag, keep);
  }

  /** The throwaway rows of a tagged relation, the same on every occasion. */
  lemma ThrowawaySteady(w: World, base: Rel, rel: Rel, tag: string, keep: int, sel: Select) returns (d: Rel)
    requires Tags(base, rel, tag) && ThrowawaySelect(sel, base.cols, tag, keep)
    ensures forall path :: SelectRel(w, path, sel, rel) == d
    ensures IsFiller(base, d, tag, keep)
  {
    var v := sel.projection.value[|base.cols|].expr.value;
    d := Rel(base.cols + [tag], MapBag(Where(w, sel.filter, rel), TagOf(|base.cols|, v)));
    forall path { ThrowawayRows(w, path, base, rel, tag, keep, sel); }
    FillerSelect(w, [], sel, base, rel, tag, keep, v);
  }

  lemma ThrowawayRows(w: World, path: Path, base: Rel, rel: Rel, tag: string, keep: int, sel: Select)
    requires Tags(base, rel, tag) && ThrowawaySelect(sel, base.cols, tag, keep)
    ensures
      var v := sel.projection.value[|base.cols|].expr.value;
      && v != keep && Plain(sel) && sel.projection == Some(Extended(base.cols, TagItem(tag, v)))
      && SelectRel(w, path, sel, rel) == Rel(base.cols + [tag], MapBag(Where(w, sel.filter, rel), TagOf(|base.cols|, v)))
  {
    EmbedsFront(base.cols, tag);
    TagSelectRows(w, path, sel, base, rel, tag, sel.projection.value[|base.cols|].expr.value);
  }

  lemma StarSelect(w: World, path: Path, rel: Rel)
    requires DistinctNames(rel.cols) && forall r :: r in rel.rows ==> |r| == |rel.cols|
    ensures SelectRel(w, path, STAR, rel) == rel
  {
    FilterSelect(w, path, STAR, rel);
    WhereNone(w, rel);
  }

  lemma WideStar(w: World, path: Path, base: Rel, rel: Rel, extra: string)
    requires Wide(base, rel, extra, false)
    ensures SelectRel(w, path, STAR, rel) == rel
  {
    EmbedsFront(base.cols, extra);
    StarSelect(w, path, rel);
  }

  lemma TagMeans(c: Scene, specs: seq<Spec>, n: nat, q: Query<nat>, spec: Spec) returns (d: Rel)
    requires Known(c, specs, n) && ReadsBelow(c, q, n) && TagRule(c.base.cols, specs, q, spec)
    ensures Steady(c, n, q, d) && Sat(c.w, c.base, d, spec)
  {
    Fetch(c, specs, n, q, 0);
    var rel := Relation(c, q.source);
    match spec
    case Filler(tag, keep) =>
      d := ThrowawaySteady(c.w, c.base, rel, tag, keep, q.select);
      SelectSteady(c, n, q.source, q.select, d);
    case Tagged(tag, keep) =>
      d := rel;
      forall path { WideStar(c.w, path, c.base, rel, tag); }
      SelectSteady(c, n, q.source, q.select, d);
  }

  /** SELECT DISTINCT * of copies: each key once. */
  lemma StarDistinct(w: World, path: Path, base: Rel, rel: Rel, key: string)
    requires IsCopies(base, rel, key, false)
    ensures SelectRel(w, path, STAR.(distinct := true), rel) == rel.(rows := Distinct(rel.rows))
  {
    var units := SelectUnits(w, path, STAR, rel);
    assert units == SelectUnits(w, path, STAR.(distinct := true), rel);
    assert OutRows(w, STAR, rel.cols, units) == OutRows(w, STAR.(distinct := true), rel.cols, units);
    assert KeptFlags(w, STAR, rel.cols, units) == KeptFlags(w, STAR.(distinct := true), rel.cols, units);
    WideStar(w, path, base, rel, key);
  }

  /** The select list of a keyed relation can be named from outside. */
  lemma KeyedNameable(cols: seq<string>, key: string)
    requires DistinctNames(cols) && key !in cols && QUALIFY_COLUMN !in cols && key != QUALIFY_COLUMN
    ensures Nameable(KeyedItems(key, Passthrough(cols)))
  {
    var items := KeyedItems(key, Passthrough(cols));
    KeyedAliases(key, Passthrough(cols), cols);
    EmbedsBack(cols, key);
    forall k | 0 <= k < |items|
      ensures items[k].alias != QUALIFY_COLUMN
    {
      assert items[k].alias == Aliases(items)[k];
      if k > 0 { assert items[k].alias == cols[k - 1]; }
    }
  }

  lemma CollapseMeans(c: Scene, specs: seq<Spec>, n: nat, q: Query<nat>, spec: Spec) returns (d: Rel)
    requires Known(c, specs, n) && ReadsBelow(c, q, n) && CollapseRule(c.base.cols, specs, q, spec)
    ensures Steady(c, n, q, d) && Sat(c.w, c.base, d, spec)
  {
    Fetch(c, specs, n, q, 0);
    var rel, key := Relation(c, q.source), spec.key;
    if !spec.first {
      d := rel.(rows := Distinct(rel.rows));
      forall path { StarDistinct(c.w, path, c.base, rel, key); }
      SelectSteady(c, n, q.source, q.select, d);
      CopiesDistinct(c.base, rel, key);
    } else {
      d := Collapsed(c.base, rel, key);
      CollapsedKeyed(c.base, rel, key);
      CollapseSteady(c, n, q.source, q.select, key);
    }
  }

  lemma CollapseSteady(c: Scene, n: nat, s: nat, sel: Select, key: string)
    requires Stored(c) && s < n <= |c.g| && QUALIFY_COLUMN !in c.base.cols && IsCopies(c.base, Relation(c, s), key, false)
    requires (sel == QualifySelect(c.base.cols, key) && key != QUALIFY_COLUMN) || CollapseSelect(sel, c.base.cols, key)
    ensures Steady(c, n, SelectQ(s, sel), Collapsed(c.base, Relation(c, s), key))
  {
    var d := Collapsed(c.base, Relation(c, s), key);
    if sel == QualifySelect(c.base.cols, key) && key != QUALIFY_COLUMN {
      forall path { QualifyCollapse(c.w, path, c.base, Relation(c, s), key); }
      KeyedNameable(c.base.cols, key);
      QualifiedSteady(c, n, s, sel, d);
    } else {
      forall path { DistinctCollapse(c.w, path, c.base, Relation(c, s), key, sel.projection.value[1..]); }
      SelectSteady(c, n, s, sel, d);
    }
  }

  lemma ImageMeans(c: Scene, specs: seq<Spec>, n: nat, q: Query<nat>, spec: Spec) returns (d: Rel)
    requires Known(c, specs, n) && ReadsBelow(c, q, n) && ImageRule(specs, q, spec)
    ensures Steady(c, n, q, d) && Sat(c.w, c.base, d, spec)
  {
    Fetch(c, specs, n, q, 0);
    d := SelectRel(c.w, [], q.select, Relation(c, q.source));
    forall path: Path
      ensures SelectRel(c.w, path, q.select, Relation(c, q.source)) == d
    {
      PlainSelect(c.w, path, q.select, Relation(c, q.source));
      PlainSelect(c.w, [], q.select, Relation(c, q.source));
    }
    SelectSteady(c, n, q.source, q.select, d);
  }

  /** A numbered relation is keyed whatever order the engine numbers in; the occasion decides which
      row gets which number, so only the specification is the same every time. */
  lemma NumberMeans(c: Scene, specs: seq<Spec>, n: nat, q: Query<nat>, spec: Spec, path: Path)
    requires Known(c, specs, n) && ReadsBelow(c, q, n) && NumberRule(c.base.cols, specs, q, spec)
    ensures Renderable(c.style, q) && Render(c.style, q) == q
    ensures Sat(c.w, c.base, QueryRel(c.w, path, q, StoreReader(c, n)), spec)
  {
    Fetch(c, specs, n, q, 0);
    RowsShape(c.w, c.base, None);
    NumberSelect(c.w, path, c.base, spec.key, RowNumberKey(q.select.projection.value[|c.base.cols|].expr));
  }
}

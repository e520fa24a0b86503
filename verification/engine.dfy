/** The target: a database of named objects, and what each setup statement does to it.

    The catalog is kept in creation order. A view stores its query and is run again on every read;
    a table stores rows. The emitter's renderings that change a query's shape are here too. */
module Engine {
  import opened Bags
  import opened Expressions
  import opened Values
  import opened Queries
  import opened Graphs

  datatype Object = TableObject(rel: Rel) | ViewObject(query: Query<string>)

  datatype Entry = Entry(name: string, object_: Object)

  type Database = seq<Entry>

  datatype Error = Missing(name: string) | Duplicate(name: string) | NotATable(name: string) | Unsupported

  datatype Outcome<+T> = Done(value: T) | Failed(error: Error)

  datatype Command =
    | CreateViewAs(name: string, query: Query<string>)
    | CreateTableAs(name: string, query: Query<string>)
    | CreateEmptyTable(name: string, columns: seq<string>)
    | Delete(target: string, filter: Option<Expr>)
    | InsertSelect(target: string, columns: seq<string>, source: string, filter: Option<Expr>)
    | InsertQuery(target: string, query: Query<string>)
    | Update(target: string, assignments: seq<Item>, filter: Option<Expr>)

  /** A statement and the occasion on which it runs. The occasion only labels the engine's free
      choices; it carries no information a statement could use. */
  datatype Statement = Statement(occasion: nat, command: Command)

  // ---- reading ------------------------------------------------------------------------------

  /** The position of the object called name, or |db|. */
  function Find(db: Database, name: string): (k: nat)
    ensures k <= |db|
    ensures k < |db| ==> db[k].name == name
    ensures forall j :: 0 <= j < k ==> db[j].name != name
  {
    if db == [] || db[0].name == name then 0 else 1 + Find(db[1..], name)
  }

  /** Reading object k. A view can only mention objects that were there when it was created. */
  ghost function ReadAt(w: World, path: Path, db: Database, k: nat): Rel
    requires k < |db|
    decreases k
  {
    match db[k].object_
    case TableObject(rel) => rel
    case ViewObject(q) =>
      var src: Reader<string> := (o: nat, s: string) =>
        if Find(db, s) < k then ReadAt(w, path + [o], db, Find(db, s)) else EMPTY_REL;
      QueryRel(w, path, q, src)
  }

  /** How a query inside a statement reads the database. */
  ghost function NamedReader(w: World, path: Path, db: Database): Reader<string> {
    (o: nat, s: string) => if Find(db, s) < |db| then ReadAt(w, path + [o], db, Find(db, s)) else EMPTY_REL
  }

  predicate AllFound(db: Database, names: seq<string>) {
    forall s :: s in names ==> Find(db, s) < |db|
  }

  // ---- running ------------------------------------------------------------------------------

  ghost function Create(db: Database, name: string, sources: seq<string>, object_: Object): Outcome<Database> {
    if Find(db, name) < |db| then Failed(Duplicate(name))
    else if !AllFound(db, sources) then
      var s :| s in sources && Find(db, s) == |db|;
      Failed(Missing(s))
    else Done(db + [Entry(name, object_)])
  }

  /** The rows of a table as it is now. */
  function TableRel(db: Database, name: string): Rel {
    var k := Find(db, name);
    if k < |db| && db[k].object_.TableObject? then db[k].object_.rel else EMPTY_REL
  }

  ghost function Write(db: Database, target: string, sources: seq<string>, rel: Rel): Outcome<Database> {
    var k := Find(db, target);
    if k == |db| then Failed(Missing(target))
    else if !db[k].object_.TableObject? then Failed(NotATable(target))
    else if !AllFound(db, sources) then
      var s :| s in sources && Find(db, s) == |db|;
      Failed(Missing(s))
    else Done(db[k := Entry(target, TableObject(rel))])
  }

  /** Every write reads its sources as they were before the statement. */
  ghost function Execute(w: World, db: Database, stmt: Statement): Outcome<Database> {
    var path := [stmt.occasion];
    var rd := NamedReader(w, path, db);
    match stmt.command
    case CreateViewAs(name, q) => Create(db, name, Sources(q), ViewObject(q))
    case CreateTableAs(name, q) => Create(db, name, Sources(q), TableObject(QueryRel(w, path, q, rd)))
    case CreateEmptyTable(name, cols) => Create(db, name, [], TableObject(Rel(cols, multiset{})))
    case Delete(target, p) => Write(db, target, [], Deleted(w, p, TableRel(db, target)))
    case InsertSelect(target, cols, source, p) => Write(db, target, [source], Inserted(TableRel(db, target), Picked(w, cols, p, rd(0, source))))
    case InsertQuery(target, q) => Write(db, target, Sources(q), Inserted(TableRel(db, target), QueryRel(w, path, q, rd).rows))
    case Update(target, assignments, p) => Write(db, target, [], Updated(w, assignments, p, TableRel(db, target)))
  }

  /** Running a script stops at the first failure. */
  ghost function Run(w: World, db: Database, script: seq<Statement>): Outcome<Database> {
    if script == [] then Done(db)
    else
      var before := Run(w, db, script[..|script| - 1]);
      if before.Failed? then before else Execute(w, before.value, script[|script| - 1])
  }

  lemma {:induction false} RunConcat(w: World, db: Database, a: seq<Statement>, b: seq<Statement>)
    ensures Run(w, db, a + b) ==
      (if Run(w, db, a).Failed? then Run(w, db, a) else Run(w, Run(w, db, a).value, b))
  {
    if b == [] {
      assert a + b == a;
    } else {
      var k := |b| - 1;
      RunConcat(w, db, a, b[..k]);
      assert (a + b)[..|a + b| - 1] == a + b[..k];
    }
  }

  // ---- rendering ----------------------------------------------------------------------------

  /** What an engine's emitter writes differently: MySQL and ClickHouse lower QUALIFY and FULL OUTER
      JOIN, CrateDB does that and also splits CREATE TABLE AS into a typed CREATE and an INSERT. */
  datatype Style = Style(lowerQualify: bool, lowerFullOuter: bool, splitCreate: bool)

  const QUALIFY_COLUMN := "eq_q"

  /** The outer select list of a lowered QUALIFY: every alias, by name. */
  function OuterItems(items: seq<Item>): seq<Item> {
    seq(|items|, k requires 0 <= k < |items| => Item(items[k].alias, Col(items[k].alias)))
  }

  /** The inner SELECT of a lowered QUALIFY: the condition becomes one more output column. */
  function QualifyInner(sel: Select): Select
    requires sel.projection.Some? && sel.qualify.Some?
  {
    sel.(projection := Some(sel.projection.value + [Item(QUALIFY_COLUMN, sel.qualify.value)]), qualify := None, orderBy := None)
  }

  function QualifyOuter(sel: Select): Select
    requires sel.projection.Some?
  {
    BaseSelect(OuterItems(sel.projection.value)).(filter := Some(Col(QUALIFY_COLUMN)))
  }

  /** Whether the emitter accepts a query rather than raising. */
  predicate Renderable<S>(style: Style, q: Query<S>) {
    && (q.SelectQ? && style.lowerQualify && q.select.qualify.Some? ==> q.select.projection.Some?)
    && (q.JoinQ? && q.join.joinType != Cross ==> q.join.condition.Some?)
  }

  /** SELECT as it is written. With ORDER BY the base renderer wraps the sorted query in an outer
      SELECT that repeats the whole select list, expressions included. */
  function RenderSelect<S>(style: Style, source: S, sel: Select): Query<S>
    requires Renderable(style, SelectQ(source, sel))
  {
    if sel.qualify.Some? && style.lowerQualify then
      var body := Derived(QualifyOuter(sel).(orderBy := sel.orderBy), SelectQ(source, QualifyInner(sel)));
      if sel.orderBy.None? then body else Derived(BaseSelect(OuterItems(sel.projection.value)), body)
    else
      var body := SelectQ(source, sel);
      if sel.orderBy.None? then body else Derived(STAR.(projection := sel.projection), body)
  }

  function RenderJoin(style: Style, j: Join): Join {
    if j.joinType == Cross then j.(condition := None)
    else if j.joinType == FullOuter && style.lowerFullOuter then j.(joinType := LeftOuter)
    else j
  }

  function Render<S>(style: Style, q: Query<S>): (r: Query<S>)
    requires Renderable(style, q)
  {
    match q
    case SelectQ(s, sel) => RenderSelect(style, s, sel)
    case JoinQ(l, r, j) => JoinQ(l, r, RenderJoin(style, j))
    case _ => q
  }

  lemma RenderSources<S>(style: Style, q: Query<S>)
    requires Renderable(style, q)
    ensures Sources(Render(style, q)) == Sources(q)
  {
    var r := Render(style, q);
    if r.Derived? && r.body.Derived? {
      assert Sources(r) == Sources(r.body) == Sources(r.body.body);
    }
  }

  // ---- names --------------------------------------------------------------------------------

  /** How another statement refers to a node: the base by its hidden name, a relation by its own. */
  function Ref(g: Graph, baseName: string, n: nat): string
    decreases n
  {
    if n >= |g| then baseName
    else match g[n]
      case BaseTable => baseName
      case QueryNode(_) => baseName
      case InsertExtras(c, _) => if c < n then Ref(g, baseName, c) else baseName
      case CreateView(name, _) => name
      case CreateTable(name, _) => name
      case DeleteReinsert(name, _, _) => name
      case NoopUpdate(name, _, _, _) => name
      case TagPrune(name, _, _, _, _) => name
  }

  /** A query with its sources written as names. */
  function Named(g: Graph, baseName: string, q: Query<nat>): Query<string> {
    match q
    case SelectQ(s, sel) => SelectQ(Ref(g, baseName, s), sel)
    case Derived(sel, body) => Derived(sel, Named(g, baseName, body))
    case UnionAllQ(bs) => UnionAllQ(seq(|bs|, k requires 0 <= k < |bs| => Ref(g, baseName, bs[k])))
    case ExceptAllQ(l, r) => ExceptAllQ(Ref(g, baseName, l), Ref(g, baseName, r))
    case IntersectAllQ(l, r) => IntersectAllQ(Ref(g, baseName, l), Ref(g, baseName, r))
    case CteQ(s, name, p, m) => CteQ(Ref(g, baseName, s), name, p, m)
    case LateralQ(s, names) => LateralQ(Ref(g, baseName, s), names)
    case JoinQ(l, r, j) => JoinQ(Ref(g, baseName, l), Ref(g, baseName, r), j)
  }

  lemma {:induction false} NamedSources(g: Graph, baseName: string, q: Query<nat>)
    ensures |Sources(Named(g, baseName, q))| == |Sources(q)|
    ensures forall k :: 0 <= k < |Sources(q)| ==> Sources(Named(g, baseName, q))[k] == Ref(g, baseName, Sources(q)[k])
    decreases q
  {
    if q.Derived? {
      NamedSources(g, baseName, q.body);
    }
  }

  /** A named query over a reader that follows the names means the same as the query over nodes. */
  lemma {:induction false} NamedRel(w: World, path: Path, g: Graph, baseName: string, q: Query<nat>, a: Reader<nat>, b: Reader<string>)
    requires forall o: nat, s :: s in Sources(q) ==> b(o, Ref(g, baseName, s)) == a(o, s)
    ensures QueryRel(w, path, Named(g, baseName, q), b) == QueryRel(w, path, q, a)
    decreases q
  {
    match q
    case Derived(_, body) => NamedRel(w, path + [0], g, baseName, body, a, b);
    case UnionAllQ(bs) =>
      if bs != [] {
        assert a(0, bs[0]) == b(0, Ref(g, baseName, bs[0]));
        NamedUnion(g, baseName, bs, a, b);
      }
    case SelectQ(s, _) => assert a(0, s) == b(0, Ref(g, baseName, s));
    case CteQ(s, _, _, _) => assert a(0, s) == b(0, Ref(g, baseName, s));
    case LateralQ(s, _) => assert a(0, s) == b(0, Ref(g, baseName, s));
    case ExceptAllQ(l, r) => assert a(0, l) == b(0, Ref(g, baseName, l)) && a(1, r) == b(1, Ref(g, baseName, r));
    case IntersectAllQ(l, r) => assert a(0, l) == b(0, Ref(g, baseName, l)) && a(1, r) == b(1, Ref(g, baseName, r));
    case JoinQ(l, r, _) => assert a(0, l) == b(0, Ref(g, baseName, l)) && a(1, r) == b(1, Ref(g, baseName, r));
  }

  lemma {:induction false} NamedUnion(g: Graph, baseName: string, bs: seq<nat>, a: Reader<nat>, b: Reader<string>)
    requires forall o: nat, s :: s in bs ==> b(o, Ref(g, baseName, s)) == a(o, s)
    ensures UnionRows(seq(|bs|, k requires 0 <= k < |bs| => Ref(g, baseName, bs[k])), b) == UnionRows(bs, a)
  {
    if bs != [] {
      var k := |bs| - 1;
      var names := seq(|bs|, i requires 0 <= i < |bs| => Ref(g, baseName, bs[i]));
      NamedUnion(g, baseName, bs[..k], a, b);
      assert bs[k] in bs;
      assert names[..k] == seq(|bs[..k]|, i requires 0 <= i < |bs[..k]| => Ref(g, baseName, bs[..k][i]));
    }
  }

  // ---- setup steps --------------------------------------------------------------------------

  /** CREATE TABLE AS, in one statement or two. */
  function CreateTableSteps(style: Style, n: nat, name: string, columns: seq<string>, q: Query<string>): seq<Statement> {
    if style.splitCreate then
      [Statement(n, CreateEmptyTable(name, columns)), Statement(n, InsertQuery(name, q))]
    else
      [Statement(n, CreateTableAs(name, q))]
  }

  /** The statements of one node, in order. The base table and query nodes have none. */
  function Steps(style: Style, g: Graph, baseName: string, baseCols: seq<string>, n: nat): seq<Statement>
    requires Ordered(g) && n < |g| && NodeRenderable(style, g, n)
  {
    assert NodeOrdered(g, n);
    match g[n]
    case BaseTable => []
    case QueryNode(_) => []
    case CreateView(name, _) => [Statement(n, CreateViewAs(name, Named(g, baseName, Render(style, BodyOf(g, n)))))]
    case CreateTable(name, b) =>
      CreateTableSteps(style, n, name, Signature(g, baseCols, b), Named(g, baseName, Render(style, BodyOf(g, n))))
    case DeleteReinsert(name, b, p) =>
      CreateTableSteps(style, n, name, Signature(g, baseCols, b), Named(g, baseName, Render(style, BodyOf(g, n))))
        + [Statement(n, Delete(name, p)), Statement(n, InsertSelect(name, Signature(g, baseCols, b), baseName, p))]
    case NoopUpdate(name, b, assignments, p) =>
      CreateTableSteps(style, n, name, Signature(g, baseCols, b), Named(g, baseName, Render(style, BodyOf(g, n))))
        + [Statement(n, Update(name, assignments, p))]
    case TagPrune(name, c, items, tagCol, keepValue) =>
      [Statement(n, Delete(Ref(g, baseName, c), PrunePredicate(tagCol, keepValue))),
       Statement(n, CreateViewAs(name, SelectQ(Ref(g, baseName, c), BaseSelect(items))))]
    case InsertExtras(c, sel) =>
      [Statement(n, InsertQuery(Ref(g, baseName, c), RenderSelect(style, Ref(g, baseName, c), sel)))]
  }

  predicate NodeRenderable(style: Style, g: Graph, n: nat)
    requires n < |g|
  {
    && (FromQuery(g[n]) && g[n].body < |g| && g[g[n].body].QueryNode? ==> Renderable(style, g[g[n].body].query))
    && (g[n].InsertExtras? ==> Renderable(style, SelectQ(g[n].child, g[n].extras)))
  }

  /** The steps of every node of a graph. */
  function StepTable(style: Style, g: Graph, baseName: string, baseCols: seq<string>): (t: seq<seq<Statement>>)
    requires Ordered(g) && forall n :: 0 <= n < |g| ==> NodeRenderable(style, g, n)
    ensures |t| == |g|
  {
    seq(|g|, n requires 0 <= n < |g| => Steps(style, g, baseName, baseCols, n))
  }
}

/** The tree a rewrite is built as, with shared nodes, and the walk that orders its statements.

    Nodes are numbered in the order they are constructed, so a node's inputs have smaller numbers:
    an immutable node takes its finished inputs as arguments. The number stands for the identity
    that the walk compares, and one node may be an input of several others. */
module Graphs {
  import opened Bags
  import opened Expressions
  import opened Values
  import opened Queries

  datatype Node =
    | BaseTable
    | QueryNode(query: Query<nat>)
    | CreateView(name: string, body: nat)
    | CreateTable(name: string, body: nat)
    | DeleteReinsert(name: string, body: nat, mutation: Option<Expr>)
    | NoopUpdate(name: string, body: nat, assignments: seq<Item>, mutation: Option<Expr>)
    | TagPrune(name: string, child: nat, baseItems: seq<Item>, tagCol: string, keepValue: int)
    | InsertExtras(child: nat, extras: Select)

  type Graph = seq<Node>

  /** A node's inputs, walked before the node itself. */
  function Children(node: Node): seq<nat> {
    match node
    case BaseTable => []
    case QueryNode(q) => Sources(q)
    case CreateView(_, b) => [b]
    case CreateTable(_, b) => [b]
    case DeleteReinsert(_, b, _) => [b]
    case NoopUpdate(_, b, _, _) => [b]
    case TagPrune(_, c, _, _, _) => [c]
    case InsertExtras(c, _) => [c]
  }

  /** Creates an object of its own name. InsertExtras writes into its child's table instead. */
  predicate Creates(node: Node) {
    !node.BaseTable? && !node.QueryNode? && !node.InsertExtras?
  }

  /** Is defined by a query: CREATE <keyword> <name> AS <query>, and what follows it. */
  predicate FromQuery(node: Node) {
    Creates(node) && !node.TagPrune?
  }

  /** Holds its rows in a table, so a statement can write to it. */
  predicate Writable(node: Node) {
    node.CreateTable? || node.DeleteReinsert? || node.NoopUpdate? || node.InsertExtras?
  }

  /** Changes its child's table after the child was built. */
  predicate Mutates(node: Node) {
    node.TagPrune? || node.InsertExtras?
  }

  /** Inputs come first, and each is of the kind its parent asked for. */
  ghost predicate Ordered(g: Graph) {
    forall n :: 0 <= n < |g| ==> NodeOrdered(g, n)
  }

  ghost predicate NodeOrdered(g: Graph, n: nat)
    requires n < |g|
  {
    && (forall k :: 0 <= k < |Children(g[n])| ==> Children(g[n])[k] < n)
    && (g[n].QueryNode? ==>
          !g[n].query.Derived? && (forall c :: c in Children(g[n]) ==> !g[c].QueryNode?) && (g[n].query.UnionAllQ? ==> g[n].query.branches != []))
    && (FromQuery(g[n]) ==> g[n].body < n && g[g[n].body].QueryNode?)
    && (Mutates(g[n]) ==> g[n].child < n && Writable(g[g[n].child]))
  }

  /** The defining query of a node that creates its object from one. */
  function BodyOf(g: Graph, n: nat): Query<nat>
    requires n < |g| && FromQuery(g[n]) && g[n].body < |g| && g[g[n].body].QueryNode?
  {
    g[g[n].body].query
  }

  // ---- signatures ---------------------------------------------------------------------------

  /** The output columns of a node, known from the tree alone. */
  function Signature(g: Graph, baseCols: seq<string>, n: nat): seq<string>
    requires Ordered(g) && n < |g|
    decreases n
  {
    assert NodeOrdered(g, n);
    match g[n]
    case BaseTable => baseCols
    case QueryNode(q) =>
      (match q
       case SelectQ(s, sel) => assert s in Children(g[n]); OutCols(sel, Signature(g, baseCols, s))
       case Derived(_, _) => []
       case UnionAllQ(bs) => assert bs[0] in Children(g[n]); Signature(g, baseCols, bs[0])
       case ExceptAllQ(l, _) => assert l in Children(g[n]); Signature(g, baseCols, l)
       case IntersectAllQ(l, _) => assert l in Children(g[n]); Signature(g, baseCols, l)
       case CteQ(s, _, _, _) => assert s in Children(g[n]); Signature(g, baseCols, s)
       case LateralQ(_, names) => names
       case JoinQ(_, _, j) => Aliases(j.projection))
    case CreateView(_, b) => assert b in Children(g[n]); Signature(g, baseCols, b)
    case CreateTable(_, b) => assert b in Children(g[n]); Signature(g, baseCols, b)
    case DeleteReinsert(_, b, _) => assert b in Children(g[n]); Signature(g, baseCols, b)
    case NoopUpdate(_, b, _, _) => assert b in Children(g[n]); Signature(g, baseCols, b)
    case TagPrune(_, _, items, _, _) => Aliases(items)
    case InsertExtras(c, _) => assert c in Children(g[n]); Signature(g, baseCols, c)
  }

  // ---- denotation ---------------------------------------------------------------------------

  /** The value SET gives to column k, or the old value when no assignment names it. */
  ghost function AssignedValue(w: World, assignments: seq<Item>, cols: seq<string>, row: Row, k: nat): Value
    requires k < |row|
  {
    if k < |cols| && exists a :: a in assignments && a.alias == cols[k] then
      var a :| a in assignments && a.alias == cols[k];
      EvalRow(w, a.expr, cols, row)
    else
      row[k]
  }

  /** The rows an UPDATE leaves: each matching row takes the assigned values, column by column. */
  ghost function Assigned(w: World, assignments: seq<Item>, filter: Option<Expr>, rel: Rel, row: Row): Row {
    if !Passes(w, filter, rel.cols, row) then row else
      seq(|row|, k requires 0 <= k < |row| => AssignedValue(w, assignments, rel.cols, row, k))
  }

  ghost function Deleted(w: World, filter: Option<Expr>, rel: Rel): Rel {
    rel.(rows := FilterBag(rel.rows, r => !Passes(w, filter, rel.cols, r)))
  }

  ghost function Updated(w: World, assignments: seq<Item>, filter: Option<Expr>, rel: Rel): Rel {
    rel.(rows := MapBag(rel.rows, r => Assigned(w, assignments, filter, rel, r)))
  }

  ghost function Inserted(rel: Rel, more: multiset<Row>): Rel {
    rel.(rows := rel.rows + more)
  }

  /** The rows of SELECT columns FROM rel WHERE filter, by name. */
  ghost function Picked(w: World, columns: seq<string>, filter: Option<Expr>, rel: Rel): multiset<Row> {
    MapBag(Where(w, filter, rel), ByNameOf(rel.cols, columns))
  }

  /** tag <> keep, the predicate a tag prune deletes by. */
  function PrunePredicate(tagCol: string, keepValue: int): Option<Expr> {
    Some(NotEquals(Col(tagCol), IntLiteral(keepValue)))
  }

  function BaseSelect(items: seq<Item>): Select {
    STAR.(projection := Some(items))
  }

  /** What the tree says a node holds, once it and everything below it is built. Creating node n is
      the occasion [n], the only time its defining query is run when it is a table. */
  ghost function Content(w: World, g: Graph, base: Rel, n: nat): Rel
    requires Ordered(g) && n < |g|
    decreases n
  {
    assert NodeOrdered(g, n);
    var src: Reader<nat> := (o: nat, s: nat) => if s < n then Content(w, g, base, s) else EMPTY_REL;
    match g[n]
    case BaseTable => base
    case QueryNode(q) => QueryRel(w, [n], q, src)
    case CreateView(_, b) => QueryRel(w, [n], BodyOf(g, n), src)
    case CreateTable(_, b) => QueryRel(w, [n], BodyOf(g, n), src)
    case DeleteReinsert(_, b, p) =>
      var made := QueryRel(w, [n], BodyOf(g, n), src);
      Inserted(Deleted(w, p, made), Picked(w, made.cols, p, base))
    case NoopUpdate(_, b, assignments, p) => Updated(w, assignments, p, QueryRel(w, [n], BodyOf(g, n), src))
    case TagPrune(_, c, items, tagCol, keepValue) =>
      SelectRel(w, [n], BaseSelect(items), Deleted(w, PrunePredicate(tagCol, keepValue), src(0, c)))
    case InsertExtras(c, sel) => Inserted(src(0, c), SelectRel(w, [n], sel, src(0, c)).rows)
  }

  /** How a query inside node n reads the nodes before it. */
  ghost function SourceReader(w: World, g: Graph, base: Rel, n: nat): Reader<nat>
    requires Ordered(g) && n <= |g|
  {
    (o: nat, s: nat) => if s < n then Content(w, g, base, s) else EMPTY_REL
  }

  lemma {:induction false} QueryCong<S>(w: World, path: Path, q: Query<S>, a: Reader<S>, b: Reader<S>)
    requires forall o: nat, s :: s in Sources(q) ==> a(o, s) == b(o, s)
    ensures QueryRel(w, path, q, a) == QueryRel(w, path, q, b)
    decreases q
  {
    match q
    case Derived(_, body) => QueryCong(w, path + [0], body, a, b);
    case UnionAllQ(bs) =>
      if bs != [] {
        assert a(0, bs[0]) == b(0, bs[0]);
        UnionCong(bs, a, b);
      }
    case SelectQ(s, _) => assert a(0, s) == b(0, s);
    case CteQ(s, _, _, _) => assert a(0, s) == b(0, s);
    case LateralQ(s, _) => assert a(0, s) == b(0, s);
    case ExceptAllQ(l, r) => assert a(0, l) == b(0, l) && a(1, r) == b(1, r);
    case IntersectAllQ(l, r) => assert a(0, l) == b(0, l) && a(1, r) == b(1, r);
    case JoinQ(l, r, _) => assert a(0, l) == b(0, l) && a(1, r) == b(1, r);
  }

  lemma {:induction false} UnionCong<S>(bs: seq<S>, a: Reader<S>, b: Reader<S>)
    requires forall o: nat, s :: s in bs ==> a(o, s) == b(o, s)
    ensures UnionRows(bs, a) == UnionRows(bs, b)
  {
    if bs != [] {
      var k := |bs| - 1;
      UnionCong(bs[..k], a, b);
      assert bs[k] in bs;
    }
  }

  /** What a prune denotes. */
  lemma PruneContent(w: World, g: Graph, base: Rel, n: nat)
    requires Ordered(g) && n < |g| && g[n].TagPrune?
    ensures g[n].child < n
    ensures Content(w, g, base, n)
      == SelectRel(w, [n], BaseSelect(g[n].baseItems), Deleted(w, PrunePredicate(g[n].tagCol, g[n].keepValue), Content(w, g, base, g[n].child)))
  {
    assert g[n].child in Children(g[n]) && NodeOrdered(g, n);
  }
}

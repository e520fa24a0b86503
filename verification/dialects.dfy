/** What the engines of a style can read, and that nothing else is emitted for them. */
module Dialects {
  import opened Bags
  import opened Expressions
  import opened Queries
  import opened Graphs
  import opened Engine
  import opened Emission

  // ---- what a query uses -------------------------------------------------------------------------

  /** The QUALIFY conditions of a query, at any depth. */
  function Qualifies<S>(q: Query<S>): seq<Expr> {
    match q
    case SelectQ(_, sel) => Conditions(sel)
    case Derived(sel, body) => Conditions(sel) + Qualifies(body)
    case _ => []
  }

  function Conditions(sel: Select): seq<Expr> { if sel.qualify.Some? then [sel.qualify.value] else [] }

  /** Its ORDER BY lists, from the outside in. */
  function Orderings<S>(q: Query<S>): seq<seq<Expr>> {
    match q
    case SelectQ(_, sel) => Ordering(sel)
    case Derived(sel, body) => Ordering(sel) + Orderings(body)
    case _ => []
  }

  function Ordering(sel: Select): seq<seq<Expr>> { if sel.orderBy.Some? then [sel.orderBy.value] else [] }

  /** No ORDER BY outermost: the rows of the query are a bag. */
  predicate Unordered<S>(q: Query<S>) {
    match q case SelectQ(_, sel) => sel.orderBy.None? case Derived(sel, _) => sel.orderBy.None? case _ => true
  }

  // ---- what an engine reads ------------------------------------------------------------------------

  /** An engine that has no QUALIFY or no FULL OUTER JOIN is given none, at any depth; CROSS JOIN is the one
      join without a condition; and a query is not ordered, though a query inside it may be. */
  predicate Reads<S>(style: Style, q: Query<S>) {
    && (style.lowerQualify ==> Qualifies(q) == [])
    && (q.JoinQ? ==> (style.lowerFullOuter ==> !q.join.joinType.FullOuter?) && (q.join.joinType.Cross? <==> q.join.condition.None?))
    && Unordered(q)
  }

  /** A statement such an engine takes. CREATE TABLE AS is one statement or two, never a mixture. */
  predicate Accepts(style: Style, command: Command) {
    match command
    case CreateViewAs(_, q) => Reads(style, q)
    case CreateTableAs(_, q) => !style.splitCreate && Reads(style, q)
    case CreateEmptyTable(_, _) => style.splitCreate
    case InsertQuery(_, q) => Reads(style, q)
    case _ => true
  }

  /** A statement of the kind its node is: a view stays a query, what is written to is a table, and each
      statement is about the node's own name or, when it changes a child's table, that child's. */
  predicate OfKind(g: Graph, baseName: string, n: nat, command: Command)
    requires n < |g|
  {
    match command
    case CreateViewAs(name, _) => (g[n].CreateView? || g[n].TagPrune?) && name == g[n].name
    case CreateTableAs(name, _) => (g[n].CreateTable? || g[n].DeleteReinsert? || g[n].NoopUpdate?) && name == g[n].name
    case CreateEmptyTable(name, _) => (g[n].CreateTable? || g[n].DeleteReinsert? || g[n].NoopUpdate?) && name == g[n].name
    case Delete(target, _) => (g[n].DeleteReinsert? && target == g[n].name) || (g[n].TagPrune? && target == Ref(g, baseName, g[n].child))
    case InsertSelect(target, _, source, _) => g[n].DeleteReinsert? && target == g[n].name && source == baseName
    case InsertQuery(target, _) => if g[n].InsertExtras? then target == Ref(g, baseName, g[n].child) else FromQuery(g[n]) && !g[n].CreateView? && target == g[n].name
    case Update(target, _, _) => g[n].NoopUpdate? && target == g[n].name
  }

  /** A statement of one of the listed nodes, as its kind and the style want it. */
  predicate Proper(style: Style, g: Graph, baseName: string, order: seq<nat>, s: Statement) {
    s.occasion in order && s.occasion < |g| && OfKind(g, baseName, s.occasion, s.command) && Accepts(style, s.command)
  }

  // ---- rendering -----------------------------------------------------------------------------------

  /** A query an engine does not have is written with what it has, and an engine that has it is given it as it
      is; the ORDER BY is kept, inside. */
  lemma RenderReads<S>(style: Style, q: Query<S>)
    requires Renderable(style, q) && !q.Derived?
    ensures Reads(style, Render(style, q))
    ensures !style.lowerQualify ==> Qualifies(Render(style, q)) == Qualifies(q)
    ensures Orderings(Render(style, q)) == Orderings(q)
    ensures q.JoinQ? ==> Render(style, q).JoinQ? && (Render(style, q).join.joinType == q.join.joinType || (style.lowerFullOuter && q.join.joinType.FullOuter?))
  {
    if q.SelectQ? { SelectReads(style, q.source, q.select); }
  }

  lemma SelectReads<S>(style: Style, source: S, sel: Select)
    requires Renderable(style, SelectQ(source, sel))
    ensures Reads(style, RenderSelect(style, source, sel))
    ensures !style.lowerQualify ==> Qualifies(RenderSelect(style, source, sel)) == Conditions(sel)
    ensures Orderings(RenderSelect(style, source, sel)) == Ordering(sel)
  {
    if sel.qualify.Some? && style.lowerQualify {
      var inner := SelectQ(source, QualifyInner(sel));
      var body := Derived(QualifyOuter(sel).(orderBy := sel.orderBy), inner);
      assert Qualifies(inner) == [] && Qualifies(body) == [] && Orderings(inner) == [] && Orderings(body) == Ordering(sel);
    }
  }

  /** Writing sources as names changes none of that. */
  lemma {:induction false} NamedUses(g: Graph, baseName: string, q: Query<nat>)
    ensures Qualifies(Named(g, baseName, q)) == Qualifies(q) && Orderings(Named(g, baseName, q)) == Orderings(q)
    ensures Unordered(Named(g, baseName, q)) <==> Unordered(q)
    ensures q.JoinQ? <==> Named(g, baseName, q).JoinQ?
    ensures q.JoinQ? ==> Named(g, baseName, q).join == q.join
    decreases q
  {
    if q.Derived? { NamedUses(g, baseName, q.body); }
  }

  lemma NamedReads(style: Style, g: Graph, baseName: string, q: Query<nat>)
    requires Reads(style, q)
    ensures Reads(style, Named(g, baseName, q))
  {
    NamedUses(g, baseName, q);
  }

  // ---- statements ----------------------------------------------------------------------------------

  lemma BodyAccepted(style: Style, g: Graph, baseName: string, n: nat)
    requires Ordered(g) && n < |g| && FromQuery(g[n]) && NodeRenderable(style, g, n)
    ensures NodeOrdered(g, n) && Reads(style, Named(g, baseName, Render(style, BodyOf(g, n))))
  {
    assert NodeOrdered(g, n);
    assert NodeOrdered(g, g[n].body);
    RenderReads(style, BodyOf(g, n));
    NamedReads(style, g, baseName, Render(style, BodyOf(g, n)));
  }

  lemma StepsProper(style: Style, g: Graph, baseName: string, baseCols: seq<string>, n: nat)
    requires Ordered(g) && n < |g| && NodeRenderable(style, g, n)
    ensures forall s :: s in Steps(style, g, baseName, baseCols, n) ==> s.occasion == n && OfKind(g, baseName, n, s.command) && Accepts(style, s.command)
  {
    assert NodeOrdered(g, n);
    if g[n].InsertExtras? {
      SelectReads(style, Ref(g, baseName, g[n].child), g[n].extras);
    } else if FromQuery(g[n]) {
      ObjectProper(style, g, baseName, baseCols, n);
    }
  }

  lemma ObjectProper(style: Style, g: Graph, baseName: string, baseCols: seq<string>, n: nat)
    requires Ordered(g) && n < |g| && NodeRenderable(style, g, n) && FromQuery(g[n])
    ensures forall s :: s in Steps(style, g, baseName, baseCols, n) ==> s.occasion == n && OfKind(g, baseName, n, s.command) && Accepts(style, s.command)
  {
    BodyAccepted(style, g, baseName, n);
    if !g[n].CreateView? {
      TableProper(style, g, baseName, n, Signature(g, baseCols, g[n].body), Named(g, baseName, Render(style, BodyOf(g, n))));
    }
  }

  lemma TableProper(style: Style, g: Graph, baseName: string, n: nat, columns: seq<string>, q: Query<string>)
    requires n < |g| && (g[n].CreateTable? || g[n].DeleteReinsert? || g[n].NoopUpdate?) && Reads(style, q)
    ensures forall s :: s in CreateTableSteps(style, n, g[n].name, columns, q) ==> s.occasion == n && OfKind(g, baseName, n, s.command) && Accepts(style, s.command)
  {
  }

  /** Every statement emitted, for whatever nodes, is one of its node's kind that the engine takes. */
  lemma {:induction false} ScriptProper(style: Style, g: Graph, baseName: string, baseCols: seq<string>, order: seq<nat>)
    requires Ordered(g) && (forall n :: 0 <= n < |g| ==> NodeRenderable(style, g, n)) && Below(order, |g|)
    ensures forall s :: s in Script(StepTable(style, g, baseName, baseCols), order) ==> Proper(style, g, baseName, order, s)
  {
    if order != [] {
      var k := |order| - 1;
      ScriptProper(style, g, baseName, baseCols, order[..k]);
      StepsProper(style, g, baseName, baseCols, order[k]);
      assert order[k] in order;
    }
  }
}

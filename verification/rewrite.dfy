/** The whole rewrite: a tree whose nodes follow the rules denotes the base rows asked for, and the
    statements emitted for it build exactly those rows. */
module Rewrite {
  import opened Bags
  import opened Expressions
  import opened Values
  import opened Queries
  import opened Graphs
  import opened Engine
  import opened Emission
  import opened Compile
  import opened Selects
  import opened Channels
  import opened Rules
  import opened Meaning
  import opened Recombine
  import opened Matching
  import Dialects

  /** The tree of a setup with what its nodes hold. */
  ghost function SceneOf(c: Setup): Scene
    requires Ordered(c.g)
  {
    Scene(c.w, c.style, c.g, c.base, seq(|c.g|, m requires 0 <= m < |c.g| => Content(c.w, c.g, c.base, m)))
  }

  lemma SceneViewed(c: Setup)
    requires Ordered(c.g)
    ensures Viewed(SceneOf(c))
  {
    forall m: nat | SelectView(c.g, m)
      ensures Content(c.w, c.g, c.base, m) == SelectRel(c.w, [m], ViewSelect(c.g, m), Content(c.w, c.g, c.base, ViewSource(c.g, m)))
    {
      assert NodeOrdered(c.g, m);
      ContentOf(c, m);
    }
  }

  /** Reading the scene is reading the contents. */
  lemma SceneReads(c: Setup, n: nat, q: Query<nat>, path: Path)
    requires Ordered(c.g) && n <= |c.g| && forall k :: 0 <= k < |Sources(q)| ==> Sources(q)[k] < n
    ensures QueryRel(c.w, path, q, StoreReader(SceneOf(c), n)) == QueryRel(c.w, path, q, SourceReader(c.w, c.g, c.base, n))
  {
    QueryCong(c.w, path, q, StoreReader(SceneOf(c), n), SourceReader(c.w, c.g, c.base, n));
  }

  // ---- queries ----------------------------------------------------------------------------------

  lemma SelectRuleMeans(c: Scene, specs: seq<Spec>, n: nat, q: Query<nat>, spec: Spec) returns (d: Rel)
    requires Known(c, specs, n) && ReadsBelow(c, q, n)
    requires
      var cols := c.base.cols;
      || FilterRule(cols, specs, q, spec) || DeterminedRule(specs, q, spec) || IdentityRule(cols, specs, q, spec)
      || UnwidenRule(cols, specs, q, spec) || ReduceRule(cols, specs, q, spec) || ExtendRule(cols, specs, q, spec)
      || TagRule(cols, specs, q, spec) || CollapseRule(cols, specs, q, spec) || ImageRule(specs, q, spec)
    ensures Steady(c, n, q, d) && Sat(c.w, c.base, d, spec)
  {
    var cols := c.base.cols;
    if FilterRule(cols, specs, q, spec) { d := FilterMeans(c, specs, n, q, spec); }
    else if DeterminedRule(specs, q, spec) { d := DeterminedMeans(c, specs, n, q, spec); }
    else if IdentityRule(cols, specs, q, spec) { d := IdentityMeans(c, specs, n, q, spec); }
    else if UnwidenRule(cols, specs, q, spec) { d := UnwidenMeans(c, specs, n, q, spec); }
    else if ReduceRule(cols, specs, q, spec) { d := ReduceMeans(c, specs, n, q, spec); }
    else if ExtendRule(cols, specs, q, spec) { d := ExtendMeans(c, specs, n, q, spec); }
    else if TagRule(cols, specs, q, spec) { d := TagMeans(c, specs, n, q, spec); }
    else if CollapseRule(cols, specs, q, spec) { d := CollapseMeans(c, specs, n, q, spec); }
    else { d := ImageMeans(c, specs, n, q, spec); }
  }

  /** Meaning preservation for one query: it holds what its specification says, every time. */
  lemma SteadyMeans(c: Scene, specs: seq<Spec>, n: nat, q: Query<nat>, spec: Spec) returns (d: Rel)
    requires Known(c, specs, n) && Viewed(c) && ReadsBelow(c, q, n) && SteadyRule(c.g, c.base, specs, q, spec)
    ensures Steady(c, n, q, d) && Sat(c.w, c.base, d, spec)
  {
    var cols := c.base.cols;
    if SplitRule(c.base, specs, q, spec) { d := SplitMeans(c, specs, n, q, spec); }
    else if AlgebraRule(specs, q, spec) { d := AlgebraMeans(c, specs, n, q, spec); }
    else if RankRule(c.g, cols, specs, q, spec) { d := RankMeans(c, specs, n, q, spec); }
    else if LeftEmptyRule(cols, specs, q, spec) { d := LeftEmptyMeans(c, specs, n, q, spec); }
    else if FlagRule(c.g, cols, specs, q, spec) { d := FlagMeans(c, specs, n, q, spec); }
    else if HalvesRule(c.g, cols, specs, q, spec) { d := HalvesMeans(c, specs, n, q, spec); }
    else if ExplodeRule(specs, q, spec) { d := ExplodeMeans(c, specs, n, q, spec); }
    else { d := SelectRuleMeans(c, specs, n, q, spec); }
  }

  // ---- queries of a setup -------------------------------------------------------------------------

  ghost function Contents(c: Setup, m: nat): Rel
    requires Ordered(c.g) && m < |c.g|
  {
    Content(c.w, c.g, c.base, m)
  }

  /** Every relation numbered below n is what its specification says. */
  ghost predicate Meant(c: Setup, specs: seq<Spec>, n: nat) {
    && Ordered(c.g) && |specs| == |c.g| && n <= |c.g| && Shaped(c.base) && QUALIFY_COLUMN !in c.base.cols
    && forall m :: 0 <= m < n && !c.g[m].QueryNode? ==> Sat(c.w, c.base, Contents(c, m), specs[m])
  }

  lemma MeantKnown(c: Setup, specs: seq<Spec>, n: nat)
    requires Meant(c, specs, n)
    ensures Known(SceneOf(c), specs, n) && Viewed(SceneOf(c))
  {
    SceneViewed(c);
    forall m | 0 <= m < n && !c.g[m].QueryNode?
      ensures Sat(c.w, c.base, Relation(SceneOf(c), m), specs[m])
    {
      assert Contents(c, m) == Relation(SceneOf(c), m);
    }
  }

  /** A query of a setup that follows a rule gives d, as built and as rendered, on every occasion. */
  lemma QueryMeans(c: Setup, specs: seq<Spec>, n: nat, q: Query<nat>, spec: Spec) returns (d: Rel)
    requires Meant(c, specs, n) && ReadsBelow(SceneOf(c), q, n) && SteadyRule(c.g, c.base, specs, q, spec)
    ensures Renderable(c.style, q) && Sat(c.w, c.base, d, spec)
    ensures forall path :: QueryRel(c.w, path, q, SourceReader(c.w, c.g, c.base, n)) == d
    ensures forall path :: QueryRel(c.w, path, Render(c.style, q), SourceReader(c.w, c.g, c.base, n)) == d
  {
    MeantKnown(c, specs, n);
    d := SteadyMeans(SceneOf(c), specs, n, q, spec);
    forall path: Path
      ensures QueryRel(c.w, path, q, SourceReader(c.w, c.g, c.base, n)) == d
      ensures QueryRel(c.w, path, Render(c.style, q), SourceReader(c.w, c.g, c.base, n)) == d
    {
      SteadyRead(c, n, q, d, path);
    }
  }

  lemma SteadyRead(c: Setup, n: nat, q: Query<nat>, d: Rel, path: Path)
    requires Ordered(c.g) && n <= |c.g| && ReadsBelow(SceneOf(c), q, n) && Steady(SceneOf(c), n, q, d)
    ensures Renderable(c.style, q)
    ensures QueryRel(c.w, path, q, SourceReader(c.w, c.g, c.base, n)) == d
    ensures QueryRel(c.w, path, Render(c.style, q), SourceReader(c.w, c.g, c.base, n)) == d
  {
    assert SteadyOn(SceneOf(c), n, q, d, path);
    RenderSources(c.style, q);
    SceneReads(c, n, q, path);
    SceneReads(c, n, Render(c.style, q), path);
  }

  /** A numbering query is written as it is and keys its rows. */
  lemma NumberingMeans(c: Setup, specs: seq<Spec>, n: nat, q: Query<nat>, spec: Spec, path: Path)
    requires Meant(c, specs, n) && ReadsBelow(SceneOf(c), q, n) && NumberRule(c.base.cols, specs, q, spec)
    ensures Renderable(c.style, q) && Render(c.style, q) == q
    ensures Sat(c.w, c.base, QueryRel(c.w, path, q, SourceReader(c.w, c.g, c.base, n)), spec)
  {
    MeantKnown(c, specs, n);
    NumberMeans(SceneOf(c), specs, n, q, spec, path);
    SceneReads(c, n, q, path);
  }

  // ---- tables that are written to -----------------------------------------------------------------

  lemma PickedSame(w: World, base: Rel, p: Option<Expr>)
    requires Shaped(base)
    ensures Picked(w, base.cols, p, base) == Where(w, p, base)
  {
    WhereMembers(w, p, base);
    forall r | r in Where(w, p, base) { LateralRow(base.cols, r); }
    MapIdentity(Where(w, p, base), ByNameOf(base.cols, base.cols));
  }

  /** Deleting rows and inserting the same rows of the base again. */
  lemma ReinsertRestores(w: World, base: Rel, p: Option<Expr>)
    requires Shaped(base)
    ensures Inserted(Deleted(w, p, base), Picked(w, base.cols, p, base)) == base
  {
    PickedSame(w, base, p);
    FilterCounts(base.rows, r => Passes(w, p, base.cols, r));
    FilterCounts(base.rows, r => !Passes(w, p, base.cols, r));
    assert Deleted(w, p, base).rows + Where(w, p, base) == base.rows;
  }

  /** SET c = c for every column changes no row, whichever rows it is run on. */
  lemma AssignedSame(w: World, p: Option<Expr>, base: Rel, row: Row)
    requires Shaped(base) && row in base.rows
    ensures Assigned(w, Passthrough(base.cols), p, base, row) == row
  {
    forall k | 0 <= k < |row|
      ensures AssignedValue(w, Passthrough(base.cols), base.cols, row, k) == row[k]
    {
      AssignedColumn(w, base.cols, row, k);
    }
  }

  lemma AssignedColumn(w: World, cols: seq<string>, row: Row, k: nat)
    requires DistinctNames(cols) && |row| == |cols| && k < |row|
    ensures AssignedValue(w, Passthrough(cols), cols, row, k) == row[k]
  {
    var items := Passthrough(cols);
    forall a | a in items && a.alias == cols[k]
      ensures EvalRow(w, a.expr, cols, row) == row[k]
    {
      var i :| 0 <= i < |items| && items[i] == a;
      ColumnValue(w, cols[k], cols, [[row]], 0);
      LookupAt(cols, row, k);
    }
  }

  lemma NoopRestores(w: World, base: Rel, p: Option<Expr>)
    requires Shaped(base)
    ensures Updated(w, Passthrough(base.cols), p, base) == base
  {
    forall row | row in base.rows { AssignedSame(w, p, base, row); }
    MapIdentity(base.rows, r => Assigned(w, Passthrough(base.cols), p, base, r));
  }

  /** Inserting throwaway rows, or the same copies again, keeps the specification. */
  lemma ExtrasKeep(w: World, path: Path, base: Rel, rel: Rel, spec: Spec, extras: Select)
    requires Sat(w, base, rel, spec) && ExtrasRule(base.cols, spec, extras)
    ensures Sat(w, base, Inserted(rel, SelectRel(w, path, extras, rel).rows), spec)
  {
    match spec
    case Tagged(tag, keep) =>
      var d := ThrowawaySteady(w, base, rel, tag, keep, extras);
      TagUnion(base, rel, SelectRel(w, path, extras, rel), tag, keep);
    case Copies(key) =>
      WideStar(w, path, base, rel, key);
      CopiesAgain(base, rel, Inserted(rel, rel.rows), key, false);
  }

  // ---- nodes --------------------------------------------------------------------------------------

  ghost predicate Sound(c: Setup, specs: seq<Spec>) {
    WellBuilt(c.g, c.base, specs) && Shaped(c.base) && QUALIFY_COLUMN !in c.base.cols
  }

  lemma BodyReads(c: Setup, n: nat)
    requires Ordered(c.g) && n < |c.g| && FromQuery(c.g[n])
    ensures NodeOrdered(c.g, n) && ReadsBelow(SceneOf(c), BodyOf(c.g, n), n)
  {
    assert NodeOrdered(c.g, n);
    assert NodeOrdered(c.g, c.g[n].body);
    var q := BodyOf(c.g, n);
    forall k | 0 <= k < |Sources(q)|
      ensures Sources(q)[k] < n && !c.g[Sources(q)[k]].QueryNode?
    {
      assert Sources(q)[k] in Children(c.g[c.g[n].body]);
    }
  }

  /** The rows a node is created with are what its query node promises, rendered or not. */
  lemma BodyMeans(c: Setup, specs: seq<Spec>, n: nat)
    requires Sound(c, specs) && Meant(c, specs, n) && n < |c.g| && FromQuery(c.g[n])
    ensures NodeOrdered(c.g, n) && Renderable(c.style, BodyOf(c.g, n)) && Sat(c.w, c.base, Made(c, n), specs[c.g[n].body])
    ensures QueryRel(c.w, [n], Render(c.style, BodyOf(c.g, n)), SourceReader(c.w, c.g, c.base, n)) == Made(c, n)
  {
    BodyReads(c, n);
    BodyRule(c, specs, n);
    var q, spec := BodyOf(c.g, n), specs[c.g[n].body];
    if SteadyRule(c.g, c.base, specs, q, spec) {
      var d := QueryMeans(c, specs, n, q, spec);
    } else {
      NumberingMeans(c, specs, n, q, spec, [n]);
    }
  }

  /** The query of a node follows a rule for queries. */
  lemma BodyRule(c: Setup, specs: seq<Spec>, n: nat)
    requires Sound(c, specs) && n < |c.g| && FromQuery(c.g[n]) && NodeOrdered(c.g, n)
    ensures
      var q, spec := BodyOf(c.g, n), specs[c.g[n].body];
      SteadyRule(c.g, c.base, specs, q, spec) || NumberRule(c.base.cols, specs, q, spec)
  {
    assert NodeOrdered(c.g, c.g[n].body) && NodeRule(c.g, c.base, specs, c.g[n].body);
  }

  lemma BuiltMeans(c: Setup, specs: seq<Spec>, n: nat)
    requires Sound(c, specs) && Meant(c, specs, n) && n < |c.g| && FromQuery(c.g[n])
    ensures Sat(c.w, c.base, Contents(c, n), specs[n])
  {
    assert NodeOrdered(c.g, n) && NodeRule(c.g, c.base, specs, n);
    ContentOf(c, n);
    BodyMeans(c, specs, n);
    WhereNone(c.w, c.base);
    match c.g[n]
    case DeleteReinsert(_, _, p) => ReinsertRestores(c.w, c.base, p);
    case NoopUpdate(_, _, _, p) => NoopRestores(c.w, c.base, p);
    case _ =>
  }

  lemma PruneRule(c: Setup, specs: seq<Spec>, n: nat)
    requires Sound(c, specs) && Meant(c, specs, n) && n < |c.g| && c.g[n].TagPrune?
    ensures NodeOrdered(c.g, n) && specs[n] == Rows(None) && c.g[n].baseItems == Passthrough(c.base.cols)
    ensures IsTagged(c.base, Contents(c, c.g[n].child), c.g[n].tagCol, c.g[n].keepValue)
  {
    assert NodeOrdered(c.g, n) && NodeRule(c.g, c.base, specs, n);
    assert !c.g[c.g[n].child].QueryNode?;
  }

  /** What a prune leaves is the base, on every occasion it is read. */
  lemma PruneReads(c: Setup, n: nat)
    requires Ordered(c.g) && n < |c.g| && c.g[n].TagPrune? && c.g[n].child < n && c.g[n].baseItems == Passthrough(c.base.cols)
    requires IsTagged(c.base, Contents(c, c.g[n].child), c.g[n].tagCol, c.g[n].keepValue)
    ensures forall path :: SelectRel(c.w, path, BaseSelect(c.g[n].baseItems), PrunedChild(c, n)) == c.base
    ensures Contents(c, n) == c.base
  {
    forall path { PruneRestores(c.w, path, c.base, Contents(c, c.g[n].child), c.g[n].tagCol, c.g[n].keepValue); }
    PruneTells(c, n);
  }

  lemma PruneMeans(c: Setup, specs: seq<Spec>, n: nat)
    requires Sound(c, specs) && Meant(c, specs, n) && n < |c.g| && c.g[n].TagPrune?
    ensures NodeOrdered(c.g, n) && Contents(c, n) == c.base && specs[n] == Rows(None)
    ensures forall path :: SelectRel(c.w, path, BaseSelect(c.g[n].baseItems), PrunedChild(c, n)) == c.base
  {
    PruneRule(c, specs, n);
    PruneReads(c, n);
  }

  lemma PruneTells(c: Setup, n: nat)
    requires Ordered(c.g) && n < |c.g| && c.g[n].TagPrune?
    ensures Contents(c, n) == SelectRel(c.w, [n], BaseSelect(c.g[n].baseItems), PrunedChild(c, n))
  {
    PruneContent(c.w, c.g, c.base, n);
  }

  lemma ExtrasMeans(c: Setup, specs: seq<Spec>, n: nat)
    requires Sound(c, specs) && Meant(c, specs, n) && n < |c.g| && c.g[n].InsertExtras?
    ensures Sat(c.w, c.base, Contents(c, n), specs[n])
  {
    assert NodeOrdered(c.g, n) && NodeRule(c.g, c.base, specs, n);
    ExtrasContent(c, n);
    ExtrasKeep(c.w, [n], c.base, Contents(c, c.g[n].child), specs[n], c.g[n].extras);
  }

  /** Meaning preservation for one node. */
  lemma NodeMeans(c: Setup, specs: seq<Spec>, n: nat)
    requires Sound(c, specs) && Meant(c, specs, n) && n < |c.g| && !c.g[n].QueryNode?
    ensures Sat(c.w, c.base, Contents(c, n), specs[n])
  {
    if FromQuery(c.g[n]) { BuiltMeans(c, specs, n); }
    else if c.g[n].TagPrune? { PruneMeans(c, specs, n); WhereNone(c.w, c.base); }
    else if c.g[n].InsertExtras? { ExtrasMeans(c, specs, n); }
    else { BaseMeans(c, specs, n); }
  }

  lemma BaseMeans(c: Setup, specs: seq<Spec>, n: nat)
    requires Sound(c, specs) && n < |c.g| && c.g[n].BaseTable?
    ensures Sat(c.w, c.base, Contents(c, n), specs[n])
  {
    assert NodeOrdered(c.g, n) && NodeRule(c.g, c.base, specs, n);
    ContentOf(c, n);
    WhereNone(c.w, c.base);
  }

  /** MEANING PRESERVATION. In a well built tree every relation is what its specification says. */
  lemma {:induction false} MeaningPreserved(c: Setup, specs: seq<Spec>, n: nat)
    requires Sound(c, specs) && n <= |c.g|
    ensures Meant(c, specs, n)
    decreases n
  {
    if n > 0 {
      MeaningPreserved(c, specs, n - 1);
      MeantStep(c, specs, n - 1);
    }
  }

  lemma MeantStep(c: Setup, specs: seq<Spec>, n: nat)
    requires Sound(c, specs) && Meant(c, specs, n) && n < |c.g|
    ensures Meant(c, specs, n + 1)
  {
    if !c.g[n].QueryNode? { NodeMeans(c, specs, n); }
    MeantNext(c, specs, n);
  }

  lemma MeantNext(c: Setup, specs: seq<Spec>, n: nat)
    requires Meant(c, specs, n) && n < |c.g| && (c.g[n].QueryNode? || Sat(c.w, c.base, Contents(c, n), specs[n]))
    ensures Meant(c, specs, n + 1)
  {
  }

  // ---- from meaning to statements -------------------------------------------------------------------

  /** An INSERT of extras is written as it is. */
  lemma ExtrasWritten(c: Setup, specs: seq<Spec>, n: nat)
    requires Sound(c, specs) && n < |c.g| && c.g[n].InsertExtras?
    ensures NodeOrdered(c.g, n) && Renderable<nat>(c.style, SelectQ(c.g[n].child, c.g[n].extras))
    ensures RenderSelect<nat>(c.style, c.g[n].child, c.g[n].extras) == SelectQ(c.g[n].child, c.g[n].extras)
  {
    assert NodeOrdered(c.g, n) && NodeRule(c.g, c.base, specs, n);
  }

  /** No emitter raises on a well built tree. */
  lemma AllRenderable(c: Setup, specs: seq<Spec>, n: nat)
    requires Sound(c, specs) && n < |c.g|
    ensures NodeRenderable(c.style, c.g, n)
  {
    MeaningPreserved(c, specs, n);
    if FromQuery(c.g[n]) { BodyMeans(c, specs, n); }
    if c.g[n].InsertExtras? { ExtrasWritten(c, specs, n); }
  }

  lemma ViewFaithful(c: Setup, specs: seq<Spec>, n: nat)
    requires Started(c) && Sound(c, specs) && Meant(c, specs, n) && n < |c.g| && c.g[n].CreateView?
    ensures Faithful(c, n)
  {
    assert NodeOrdered(c.g, n) && NodeRule(c.g, c.base, specs, n);
    BodyReads(c, n);
    var q := BodyOf(c.g, n);
    var d := QueryMeans(c, specs, n, q, specs[n]);
    ContentOf(c, n);
    assert NodeRenderable(c.style, c.g, n);
  }

  lemma ExtrasFaithful(c: Setup, specs: seq<Spec>, n: nat)
    requires Started(c) && Sound(c, specs) && n < |c.g| && c.g[n].InsertExtras?
    ensures Faithful(c, n)
  {
    ExtrasWritten(c, specs, n);
    assert NodeRenderable(c.style, c.g, n);
  }

  lemma PruneFaithful(c: Setup, specs: seq<Spec>, n: nat)
    requires Started(c) && Sound(c, specs) && Meant(c, specs, n) && n < |c.g| && c.g[n].TagPrune?
    ensures Faithful(c, n)
  {
    PruneMeans(c, specs, n);
    assert NodeRenderable(c.style, c.g, n);
  }

  /** Rendering a node of a well built tree changes nothing, and its views repeat themselves. */
  lemma AllFaithful(c: Setup, specs: seq<Spec>, n: nat)
    requires Started(c) && Sound(c, specs) && n < |c.g|
    ensures Faithful(c, n)
  {
    MeaningPreserved(c, specs, n);
    assert NodeOrdered(c.g, n) && NodeRenderable(c.style, c.g, n);
    if c.g[n].CreateView? { ViewFaithful(c, specs, n); }
    else if c.g[n].TagPrune? { PruneFaithful(c, specs, n); }
    else if c.g[n].InsertExtras? { ExtrasFaithful(c, specs, n); }
    else if FromQuery(c.g[n]) { BodyMeans(c, specs, n); }
  }

  /** What the emission starts from: a catalog that holds the base and none of the new names. */
  ghost predicate Ready(c: Setup, order: seq<nat>) {
    && DistinctEntries(c.prior) && (exists i: nat :: BaseAt(c, c.prior, i))
    && SingleOwner(c.g, order) && FreshNames(c, order)
  }

  lemma ReadyScheduled(c: Setup, specs: seq<Spec>, root: nat)
    requires Sound(c, specs) && root < |c.g| && Ready(c, Visit(c.g, root, {}))
    ensures Started(c) && Scheduled(c, Visit(c.g, root, {}))
  {
    forall n | 0 <= n < |c.g| { AllRenderable(c, specs, n); }
    forall n | 0 <= n < |c.g| { AllFaithful(c, specs, n); }
    WalkOrder(c.g, root);
  }

  /** THE REWRITE IS CORRECT. Whatever the engine's free choices and the emitter's style, the
      statements emitted for a well built tree run without a missing or duplicate name, and then
      the root's name reads, every time, as exactly the base rows on which its filter is TRUE:
      duplicates, NULLs and column order included. Earlier objects are untouched, and no statement uses what
      the style's engines do not have. */
  lemma RewriteCorrect(c: Setup, specs: seq<Spec>, root: nat) returns (db: Database)
    requires Sound(c, specs) && root < |c.g| && Creates(c.g[root]) && specs[root].Rows?
    requires Ready(c, Visit(c.g, root, {}))
    ensures Started(c) && Below(Visit(c.g, root, {}), |c.g|)
    ensures Run(c.w, c.prior, Script(Table(c), Visit(c.g, root, {}))) == Done(db)
    ensures Find(db, c.g[root].name) < |db|
    ensures forall path :: ReadAt(c.w, path, db, Find(db, c.g[root].name)) == Rel(c.base.cols, Where(c.w, specs[root].filter, c.base))
    ensures DistinctEntries(db) && c.prior <= db
    ensures forall j :: |c.prior| <= j < |db| ==> OwnName(c, Visit(c.g, root, {}), db[j].name)
    ensures forall s :: s in Script(Table(c), Visit(c.g, root, {})) ==> Dialects.Proper(c.style, c.g, c.baseName, Visit(c.g, root, {}), s)
  {
    ReadyScheduled(c, specs, root);
    MeaningPreserved(c, specs, |c.g|);
    db := EmissionCorrect(c, root);
    Dialects.ScriptProper(c.style, c.g, c.baseName, c.base.cols, Visit(c.g, root, {}));
    assert Sat(c.w, c.base, Contents(c, root), specs[root]);
  }
}

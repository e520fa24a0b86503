/** A round with several equivalents of one base table, installed one after another in one catalog. */
module Forks {
  import opened Bags
  import opened Expressions
  import opened Values
  import opened Queries
  import opened Graphs
  import opened Engine
  import opened Emission
  import opened Compile
  import opened Rules
  import opened Rewrite
  import opened Names
  import Dialects

  datatype Fork = Fork(g: Graph, specs: seq<Spec>, root: nat)

  /** What all forks of a round share. */
  datatype Round = Round(w: World, style: Style, base: Rel, baseName: string)

  function SetupOf(r: Round, f: Fork, prior: Database): Setup {
    Setup(r.w, r.style, f.g, r.base, r.baseName, prior)
  }

  /** A fork on its own: well built, rooted in an object that holds base rows, each mutated table
      with one owner, no name used twice. */
  ghost predicate ForkOk(r: Round, f: Fork) {
    && Sound(SetupOf(r, f, []), f.specs) && f.root < |f.g| && Creates(f.g[f.root]) && f.specs[f.root].Rows?
    && SingleOwner(f.g, Visit(f.g, f.root, {})) && FreshNames(SetupOf(r, f, []), Visit(f.g, f.root, {}))
  }

  /** The names a fork creates. */
  ghost predicate Owns(f: Fork, name: string)
    requires Ordered(f.g) && f.root < |f.g|
  {
    exists m :: m in Visit(f.g, f.root, {}) && m < |f.g| && Creates(f.g[m]) && f.g[m].name == name
  }

  ghost predicate InCatalog(db: Database, name: string) {
    exists k :: 0 <= k < |db| && db[k].name == name
  }

  /** Every fork is fine by itself, and no name is created twice or was there before. */
  ghost predicate RoundOk(r: Round, prior: Database, forks: seq<Fork>) {
    && DistinctEntries(prior) && (exists i: nat :: i < |prior| && prior[i] == Entry(r.baseName, TableObject(r.base)))
    && (forall i :: 0 <= i < |forks| ==> ForkOk(r, forks[i]))
    && Unused(prior, forks) && Disjoint(forks)
  }

  ghost predicate Rooted(forks: seq<Fork>) {
    forall i :: 0 <= i < |forks| ==> Ordered(forks[i].g) && forks[i].root < |forks[i].g|
  }

  /** No fork creates a name of the catalog. */
  ghost predicate Unused(prior: Database, forks: seq<Fork>)
    requires Rooted(forks)
  {
    forall i, name :: 0 <= i < |forks| && Owns(forks[i], name) ==> !InCatalog(prior, name)
  }

  /** No two forks create one name. */
  ghost predicate Disjoint(forks: seq<Fork>)
    requires Rooted(forks)
  {
    forall i, j, name :: 0 <= i < j < |forks| && Owns(forks[i], name) ==> !Owns(forks[j], name)
  }

  lemma ForkRenderable(r: Round, f: Fork)
    requires ForkOk(r, f)
    ensures Ordered(f.g) && forall n :: 0 <= n < |f.g| ==> NodeRenderable(r.style, f.g, n)
    ensures Below(Visit(f.g, f.root, {}), |f.g|)
  {
    forall n | 0 <= n < |f.g| { AllRenderable(SetupOf(r, f, []), f.specs, n); }
    WalkOrder(f.g, f.root);
  }

  /** The statements of one fork, and of all of them. */
  ghost function ForkScript(r: Round, f: Fork): seq<Statement>
  {
    if !ForkOk(r, f) then [] else
      ForkRenderable(r, f);
      Script(StepTable(r.style, f.g, r.baseName, r.base.cols), Visit(f.g, f.root, {}))
  }

  ghost function RoundScript(r: Round, forks: seq<Fork>): seq<Statement> {
    if forks == [] then [] else RoundScript(r, forks[..|forks| - 1]) + ForkScript(r, forks[|forks| - 1])
  }

  // ---- reading a catalog that has grown -------------------------------------------------------------

  lemma FindGrown(db: Database, db': Database, name: string)
    requires db <= db' && Find(db, name) < |db|
    ensures Find(db', name) == Find(db, name)
  {
    assert forall j :: 0 <= j < |db| ==> db'[j] == db[j];
  }

  /** Adding objects changes what no existing object reads as. */
  lemma {:induction false} ReadGrown(w: World, path: Path, db: Database, db': Database, k: nat)
    requires db <= db' && k < |db|
    ensures ReadAt(w, path, db', k) == ReadAt(w, path, db, k)
    decreases k
  {
    assert db'[k] == db[k];
    if db[k].object_.ViewObject? {
      var q := db[k].object_.query;
      var a: Reader<string> := (o: nat, s: string) => if Find(db, s) < k then ReadAt(w, path + [o], db, Find(db, s)) else EMPTY_REL;
      var b: Reader<string> := (o: nat, s: string) => if Find(db', s) < k then ReadAt(w, path + [o], db', Find(db', s)) else EMPTY_REL;
      forall o: nat, s | s in Sources(q)
        ensures a(o, s) == b(o, s)
      {
        SameBelow(db, db', s, k);
        if Find(db, s) < k { ReadGrown(w, path + [o], db, db', Find(db, s)); }
      }
      QueryCong(w, path, q, a, b);
    }
  }

  lemma SameBelow(db: Database, db': Database, name: string, k: nat)
    requires db <= db' && k < |db|
    ensures Find(db, name) < k <==> Find(db', name) < k
    ensures Find(db, name) < k ==> Find(db', name) == Find(db, name)
  {
    assert forall j :: 0 <= j < |db| ==> db'[j] == db[j];
    if Find(db, name) < |db| { FindGrown(db, db', name); }
  }

  // ---- the round ------------------------------------------------------------------------------------

  /** The fork's visible name reads as the base rows its root promises. */
  ghost predicate Exposed(r: Round, db: Database, f: Fork)
    requires ForkOk(r, f)
  {
    && Find(db, f.g[f.root].name) < |db|
    && forall path :: ReadAt(r.w, path, db, Find(db, f.g[f.root].name)) == Rel(r.base.cols, Where(r.w, f.specs[f.root].filter, r.base))
  }

  lemma ExposedGrown(r: Round, db: Database, db': Database, f: Fork)
    requires ForkOk(r, f) && Exposed(r, db, f) && db <= db'
    ensures Exposed(r, db', f)
  {
    var k := Find(db, f.g[f.root].name);
    FindGrown(db, db', f.g[f.root].name);
    forall path
      ensures ReadAt(r.w, path, db', k) == Rel(r.base.cols, Where(r.w, f.specs[f.root].filter, r.base))
    {
      ReadGrown(r.w, path, db, db', k);
    }
  }

  ghost predicate Accounted(prior: Database, db: Database, forks: seq<Fork>)
    requires Rooted(forks)
  {
    forall j :: |prior| <= j < |db| ==> exists i :: 0 <= i < |forks| && Owns(forks[i], db[j].name)
  }

  /** Nothing a fork creates is in the catalog when its turn comes. */
  lemma NamesNew(prior: Database, forks: seq<Fork>, k: nat, db: Database, name: string, j: nat)
    requires Rooted(forks) && Unused(prior, forks) && Disjoint(forks) && k < |forks| && prior <= db && Accounted(prior, db, forks[..k])
    requires Owns(forks[k], name) && j < |db|
    ensures db[j].name != name
  {
    if j < |prior| {
      assert db[j] == prior[j];
      assert !InCatalog(prior, name);
    } else {
      var h :| 0 <= h < k && Owns(forks[..k][h], db[j].name);
      assert forks[..k][h] == forks[h];
    }
  }

  lemma NextReady(r: Round, prior: Database, forks: seq<Fork>, k: nat, db: Database)
    requires RoundOk(r, prior, forks) && k < |forks| && DistinctEntries(db) && prior <= db && Accounted(prior, db, forks[..k])
    ensures ForkOk(r, forks[k]) && Ready(SetupOf(r, forks[k], db), Visit(forks[k].g, forks[k].root, {}))
  {
    var f := forks[k];
    BaseStays(r, prior, db, f);
    forall n, j | n in Visit(f.g, f.root, {}) && n < |f.g| && Creates(f.g[n]) && 0 <= j < |db|
      ensures db[j].name != f.g[n].name
    {
      assert Owns(f, f.g[n].name);
      NamesNew(prior, forks, k, db, f.g[n].name, j);
    }
    FreshPart(r, f, db);
  }

  lemma BaseStays(r: Round, prior: Database, db: Database, f: Fork)
    requires prior <= db && exists i: nat :: i < |prior| && prior[i] == Entry(r.baseName, TableObject(r.base))
    ensures exists i: nat :: BaseAt(SetupOf(r, f, db), db, i)
  {
    var i: nat :| i < |prior| && prior[i] == Entry(r.baseName, TableObject(r.base));
    assert BaseAt(SetupOf(r, f, db), db, i);
  }

  lemma FreshPart(r: Round, f: Fork, db: Database)
    requires ForkOk(r, f)
    requires forall n, j :: n in Visit(f.g, f.root, {}) && n < |f.g| && Creates(f.g[n]) && 0 <= j < |db| ==> db[j].name != f.g[n].name
    ensures FreshNames(SetupOf(r, f, db), Visit(f.g, f.root, {}))
  {
    assert FreshNames(SetupOf(r, f, []), Visit(f.g, f.root, {}));
  }

  lemma SoundAnywhere(r: Round, f: Fork, prior: Database)
    requires ForkOk(r, f)
    ensures Sound(SetupOf(r, f, prior), f.specs)
  {
  }

  /** One fork on a catalog that is ready for it. */
  lemma ForkRuns(r: Round, f: Fork, db: Database) returns (db': Database)
    requires ForkOk(r, f) && Ready(SetupOf(r, f, db), Visit(f.g, f.root, {}))
    ensures Run(r.w, db, ForkScript(r, f)) == Done(db')
    ensures Exposed(r, db', f) && DistinctEntries(db') && db <= db'
    ensures forall j :: |db| <= j < |db'| ==> Owns(f, db'[j].name)
  {
    var c := SetupOf(r, f, db);
    SoundAnywhere(r, f, db);
    ForkRenderable(r, f);
    db' := RewriteCorrect(c, f.specs, f.root);
    forall j | |db| <= j < |db'|
      ensures Owns(f, db'[j].name)
    {
      assert OwnName(c, Visit(f.g, f.root, {}), db'[j].name);
    }
  }

  lemma AccountedStep(prior: Database, db: Database, db': Database, forks: seq<Fork>, k: nat)
    requires k < |forks| && Rooted(forks)
    requires db <= db' && Accounted(prior, db, forks[..k])
    requires forall j :: |db| <= j < |db'| ==> Owns(forks[k], db'[j].name)
    ensures Accounted(prior, db', forks[..k + 1])
  {
    var sofar := forks[..k + 1];
    assert sofar[k] == forks[k];
    forall j | |prior| <= j < |db'|
      ensures exists i :: 0 <= i < |sofar| && Owns(sofar[i], db'[j].name)
    {
      if j < |db| {
        assert db'[j] == db[j];
        var i :| 0 <= i < k && Owns(forks[..k][i], db[j].name);
        assert sofar[i] == forks[..k][i];
      }
    }
  }

  /** One more fork in the catalog. */
  lemma ForkStep(r: Round, prior: Database, forks: seq<Fork>, k: nat, db: Database) returns (db': Database)
    requires RoundOk(r, prior, forks) && k < |forks| && DistinctEntries(db) && prior <= db && Accounted(prior, db, forks[..k])
    ensures ForkOk(r, forks[k]) && Run(r.w, db, ForkScript(r, forks[k])) == Done(db')
    ensures Exposed(r, db', forks[k]) && DistinctEntries(db') && db <= db' && Accounted(prior, db', forks[..k + 1])
  {
    NextReady(r, prior, forks, k, db);
    db' := ForkRuns(r, forks[k], db);
    AccountedStep(prior, db, db', forks, k);
  }

  lemma RoundPrefix(r: Round, prior: Database, forks: seq<Fork>)
    requires RoundOk(r, prior, forks) && forks != []
    ensures RoundOk(r, prior, forks[..|forks| - 1])
  {
    var front := forks[..|forks| - 1];
    assert forall i :: 0 <= i < |front| ==> front[i] == forks[i];
  }

  ghost predicate AllExposed(r: Round, db: Database, forks: seq<Fork>) {
    forall i :: 0 <= i < |forks| ==> ForkOk(r, forks[i]) && Exposed(r, db, forks[i])
  }

  /** All forks are installed: their statements ran, and every exposed name reads as promised. */
  ghost predicate Installed(r: Round, prior: Database, forks: seq<Fork>, db: Database) {
    && AllExposed(r, db, forks)
    && Run(r.w, prior, RoundScript(r, forks)) == Done(db)
    && prior <= db && DistinctEntries(db) && Accounted(prior, db, forks)
  }

  lemma RunNext(r: Round, prior: Database, forks: seq<Fork>, before: Database, db: Database)
    requires forks != []
    requires Run(r.w, prior, RoundScript(r, forks[..|forks| - 1])) == Done(before)
    requires Run(r.w, before, ForkScript(r, forks[|forks| - 1])) == Done(db)
    ensures Run(r.w, prior, RoundScript(r, forks)) == Done(db)
  {
    RunConcat(r.w, prior, RoundScript(r, forks[..|forks| - 1]), ForkScript(r, forks[|forks| - 1]));
  }

  lemma RoundStep(r: Round, prior: Database, forks: seq<Fork>, before: Database) returns (db: Database)
    requires RoundOk(r, prior, forks) && forks != [] && Installed(r, prior, forks[..|forks| - 1], before)
    ensures Installed(r, prior, forks, db)
  {
    db := LastFork(r, prior, forks, before);
    InstalledNext(r, prior, forks, before, db);
  }

  lemma LastFork(r: Round, prior: Database, forks: seq<Fork>, before: Database) returns (db: Database)
    requires RoundOk(r, prior, forks) && forks != [] && DistinctEntries(before) && prior <= before && Accounted(prior, before, forks[..|forks| - 1])
    ensures ForkOk(r, forks[|forks| - 1]) && Run(r.w, before, ForkScript(r, forks[|forks| - 1])) == Done(db)
    ensures Exposed(r, db, forks[|forks| - 1]) && DistinctEntries(db) && before <= db && Accounted(prior, db, forks)
  {
    db := ForkStep(r, prior, forks, |forks| - 1, before);
    assert forks[..|forks|] == forks;
  }

  lemma InstalledNext(r: Round, prior: Database, forks: seq<Fork>, before: Database, db: Database)
    requires forks != [] && ForkOk(r, forks[|forks| - 1]) && Exposed(r, db, forks[|forks| - 1])
    requires AllExposed(r, before, forks[..|forks| - 1]) && Run(r.w, prior, RoundScript(r, forks[..|forks| - 1])) == Done(before)
    requires Run(r.w, before, ForkScript(r, forks[|forks| - 1])) == Done(db) && prior <= before <= db && DistinctEntries(db)
    requires Rooted(forks) && Accounted(prior, db, forks)
    ensures Installed(r, prior, forks, db)
  {
    RunNext(r, prior, forks, before, db);
    RoundExposed(r, forks, before, db);
  }

  /** EVERY FORK HOLDS THE BASE. Running all the forks' statements in order fails nowhere, and in the
      end every exposed name reads, every time, as the base rows its root promises. */
  lemma {:induction false} RoundCorrect(r: Round, prior: Database, forks: seq<Fork>) returns (db: Database)
    requires RoundOk(r, prior, forks)
    ensures Installed(r, prior, forks, db)
    decreases |forks|
  {
    if forks == [] {
      db := prior;
    } else {
      RoundPrefix(r, prior, forks);
      var before := RoundCorrect(r, prior, forks[..|forks| - 1]);
      db := RoundStep(r, prior, forks, before);
    }
  }

  /** No statement of the round uses what the style's engines do not have. */
  lemma {:induction false} RoundAccepted(r: Round, forks: seq<Fork>)
    ensures forall s :: s in RoundScript(r, forks) ==> Dialects.Accepts(r.style, s.command)
  {
    if forks != [] {
      var f := forks[|forks| - 1];
      RoundAccepted(r, forks[..|forks| - 1]);
      if ForkOk(r, f) {
        ForkRenderable(r, f);
        Dialects.ScriptProper(r.style, f.g, r.baseName, r.base.cols, Visit(f.g, f.root, {}));
      }
    }
  }

  // ---- names ----------------------------------------------------------------------------------------

  /** The fork creates its visible object under the name it was given and every other object under one
      minted for it. */
  ghost predicate NamedBy(f: Fork, visible: string, wanted: seq<Wanted>, minted: seq<string>)
    requires Ordered(f.g) && f.root < |f.g|
  {
    |minted| == |wanted| && forall name :: Owns(f, name) ==> MayUse(visible, wanted, minted, name)
  }

  /** FORKS NEVER COLLIDE. Forks that take their names from the visible ones and one shared generator
      can be installed in one catalog that holds the hidden base only. */
  lemma MintedRoundOk(r: Round, seed: string, forks: seq<Fork>, wanted: seq<seq<Wanted>>, minted: seq<seq<string>>)
    requires |forks| == |wanted| >= 1 && r.baseName == HiddenBaseName(seed)
    requires NamesApart(HiddenBaseName(seed), ExposedForkNames(|forks|, seed), wanted, minted)
    requires forall f :: 0 <= f < |forks| ==> ForkOk(r, forks[f]) && NamedBy(forks[f], ExposedForkNames(|forks|, seed)[f], wanted[f], minted[f])
    ensures RoundOk(r, [Entry(r.baseName, TableObject(r.base))], forks)
  {
    var prior := [Entry(r.baseName, TableObject(r.base))];
    var exposed := ExposedForkNames(|forks|, seed);
    assert prior[0] == Entry(r.baseName, TableObject(r.base));
    forall f, name | 0 <= f < |forks| && Owns(forks[f], name)
      ensures !InCatalog(prior, name)
    {
      UsesApart(r.baseName, exposed, wanted, minted, f, f, name);
    }
    forall f, h, name | 0 <= f < h < |forks| && Owns(forks[f], name)
      ensures !Owns(forks[h], name)
    {
      UsesApart(r.baseName, exposed, wanted, minted, f, h, name);
    }
  }

  lemma RoundExposed(r: Round, forks: seq<Fork>, before: Database, db: Database)
    requires forks != [] && before <= db && ForkOk(r, forks[|forks| - 1]) && Exposed(r, db, forks[|forks| - 1])
    requires AllExposed(r, before, forks[..|forks| - 1])
    ensures AllExposed(r, db, forks)
  {
    var front := forks[..|forks| - 1];
    forall i | 0 <= i < |forks| - 1
      ensures ForkOk(r, forks[i]) && Exposed(r, db, forks[i])
    {
      assert front[i] == forks[i];
      ExposedGrown(r, before, db, front[i]);
    }
  }
}

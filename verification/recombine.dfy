/** The rules that put several relations together: set operations and joins. */
module Recombine {
  import opened Bags
  import opened Expressions
  import opened Values
  import opened Enumerations
  import opened Queries
  import opened Graphs
  import opened Engine
  import opened Selects
  import opened Partitions
  import opened Channels
  import opened Joins
  import opened Rules
  import opened Meaning

  // ---- set operations ---------------------------------------------------------------------------

  /** The rows of the listed relations, in one bag. */
  ghost function HeldRows(c: Scene, bs: seq<nat>): multiset<Row>
    requires Stored(c) && forall i :: 0 <= i < |bs| ==> bs[i] < |c.g|
  {
    if bs == [] then multiset{} else HeldRows(c, bs[..|bs| - 1]) + Relation(c, bs[|bs| - 1]).rows
  }

  lemma {:induction false} UnionHeld(c: Scene, n: nat, bs: seq<nat>)
    requires Stored(c) && n <= |c.g| && forall i :: 0 <= i < |bs| ==> bs[i] < n
    ensures UnionRows(bs, StoreReader(c, n)) == HeldRows(c, bs)
  {
    if bs != [] { UnionHeld(c, n, bs[..|bs| - 1]); }
  }

  lemma UnionSteady(c: Scene, n: nat, bs: seq<nat>)
    requires Stored(c) && n <= |c.g| && bs != [] && forall i :: 0 <= i < |bs| ==> bs[i] < n
    ensures Steady(c, n, UnionAllQ(bs), Rel(Relation(c, bs[0]).cols, HeldRows(c, bs)))
  {
    UnionHeld(c, n, bs);
    var q: Query<nat> := UnionAllQ(bs);
    forall path: Path ensures SteadyOn(c, n, q, Rel(Relation(c, bs[0]).cols, HeldRows(c, bs)), path) {}
  }

  lemma TwoHeld(c: Scene, a: nat, b: nat)
    requires Stored(c) && a < |c.g| && b < |c.g|
    ensures HeldRows(c, [a, b]) == Relation(c, a).rows + Relation(c, b).rows
  {
    assert [a, b][..1] == [a] && [a][..0] == [];
    assert HeldRows(c, [a]) == Relation(c, a).rows;
  }

  lemma ThreeHeld(c: Scene, a: nat, b: nat, d: nat)
    requires Stored(c) && a < |c.g| && b < |c.g| && d < |c.g|
    ensures HeldRows(c, [a, b, d]) == Relation(c, a).rows + Relation(c, b).rows + Relation(c, d).rows
  {
    assert [a, b, d][..2] == [a, b];
    TwoHeld(c, a, b);
  }

  lemma ParityMeans(c: Scene, bs: seq<nat>, f: Option<Expr>, key: string)
    requires Stored(c) && |bs| == 2 && bs[0] < |c.g| && bs[1] < |c.g| && IntegerColumn(c.base, key)
    requires Sat(c.w, c.base, Relation(c, bs[0]), Rows(Some(Conjoin(f, Even(key)))))
    requires Sat(c.w, c.base, Relation(c, bs[1]), Rows(Some(Conjoin(f, Odd(key)))))
    ensures HeldRows(c, bs) == Where(c.w, f, c.base)
  {
    assert bs == [bs[0], bs[1]];
    TwoHeld(c, bs[0], bs[1]);
    TwoPieces(c.w, Conjoin(f, Even(key)), Conjoin(f, Odd(key)), c.base);
    ParitySplits(c.w, f, key, c.base);
    PiecesAreWhole(c.w, f, [Conjoin(f, Even(key)), Conjoin(f, Odd(key))], c.base);
  }

  lemma TernaryMeans(c: Scene, bs: seq<nat>, f: Option<Expr>, p: Expr)
    requires Stored(c) && |bs| == 3 && bs[0] < |c.g| && bs[1] < |c.g| && bs[2] < |c.g| && IsPredicate(p)
    requires Sat(c.w, c.base, Relation(c, bs[0]), Rows(Some(Conjoin(f, p))))
    requires Sat(c.w, c.base, Relation(c, bs[1]), Rows(Some(Conjoin(f, Not(p)))))
    requires Sat(c.w, c.base, Relation(c, bs[2]), Rows(Some(Conjoin(f, IsNull(p, false)))))
    ensures HeldRows(c, bs) == Where(c.w, f, c.base)
  {
    assert bs == [bs[0], bs[1], bs[2]];
    ThreeHeld(c, bs[0], bs[1], bs[2]);
    ThreePieces(c.w, Conjoin(f, p), Conjoin(f, Not(p)), Conjoin(f, IsNull(p, false)), c.base);
    TernarySplits(c.w, f, p, c.base);
    PiecesAreWhole(c.w, f, [Conjoin(f, p), Conjoin(f, Not(p)), Conjoin(f, IsNull(p, false))], c.base);
  }

  lemma SplitMeans(c: Scene, specs: seq<Spec>, n: nat, q: Query<nat>, spec: Spec) returns (d: Rel)
    requires Known(c, specs, n) && ReadsBelow(c, q, n) && SplitRule(c.base, specs, q, spec)
    ensures Steady(c, n, q, d) && Sat(c.w, c.base, d, spec)
  {
    var bs, f := q.branches, spec.filter;
    d := Rel(c.base.cols, Where(c.w, f, c.base));
    Fetch(c, specs, n, q, 0);
    Fetch(c, specs, n, q, 1);
    UnionSteady(c, n, bs);
    if ParityBranches(c.base, specs, bs, f) {
      var key :| ParityOn(c.base, specs, bs, f, key);
      ParityMeans(c, bs, f, key);
    } else {
      Fetch(c, specs, n, q, 2);
      var p :| TernaryOn(specs, bs, f, p);
      TernaryMeans(c, bs, f, p);
    }
  }

  lemma EmptyFilter(w: World, base: Rel)
    ensures Where(w, Some(EMPTY), base) == multiset{}
  {
    forall r: Row
      ensures !Passes(w, Some(EMPTY), base.cols, r)
    {
      CompareLiteral(w, Eq, IntLiteral(1), 0, base.cols, [[r]], 0);
    }
    WhereMembers(w, Some(EMPTY), base);
  }

  lemma UnionEmpty(c: Scene, n: nat, l: nat, r: nat)
    requires Stored(c) && l < n <= |c.g| && r < n && Relation(c, r).rows == multiset{}
    ensures Steady(c, n, UnionAllQ([l, r]), Relation(c, l))
  {
    UnionSteady(c, n, [l, r]);
    TwoHeld(c, l, r);
    assert Rel(Relation(c, l).cols, HeldRows(c, [l, r])) == Relation(c, l);
  }

  lemma ExceptEmpty(c: Scene, n: nat, l: nat, r: nat)
    requires Stored(c) && l < n <= |c.g| && r < n && Relation(c, r).rows == multiset{}
    ensures Steady(c, n, ExceptAllQ(l, r), Relation(c, l))
  {
    var q: Query<nat> := ExceptAllQ(l, r);
    forall path: Path ensures SteadyOn(c, n, q, Relation(c, l), path) {}
  }

  lemma IntersectSame(c: Scene, n: nat, l: nat, r: nat)
    requires Stored(c) && l < n <= |c.g| && r < n && Relation(c, r) == Relation(c, l)
    ensures Steady(c, n, IntersectAllQ(l, r), Relation(c, l))
  {
    var q: Query<nat> := IntersectAllQ(l, r);
    forall path: Path ensures SteadyOn(c, n, q, Relation(c, l), path) {}
  }

  lemma AlgebraMeans(c: Scene, specs: seq<Spec>, n: nat, q: Query<nat>, spec: Spec) returns (d: Rel)
    requires Known(c, specs, n) && ReadsBelow(c, q, n) && AlgebraRule(specs, q, spec)
    ensures Steady(c, n, q, d) && Sat(c.w, c.base, d, spec)
  {
    Fetch(c, specs, n, q, 0);
    Fetch(c, specs, n, q, 1);
    EmptyFilter(c.w, c.base);
    match q
    case UnionAllQ(bs) =>
      assert bs == [bs[0], bs[1]];
      UnionEmpty(c, n, bs[0], bs[1]);
      d := Relation(c, bs[0]);
    case ExceptAllQ(l, r) =>
      ExceptEmpty(c, n, l, r);
      d := Relation(c, l);
    case IntersectAllQ(l, r) =>
      IntersectSame(c, n, l, r);
      d := Relation(c, l);
  }

  // ---- copies -----------------------------------------------------------------------------------

  lemma {:induction false} KeepThenFiller(c: Scene, bs: seq<nat>, tag: string, keep: int)
    requires Stored(c) && bs != [] && forall i :: 0 <= i < |bs| ==> bs[i] < |c.g|
    requires IsTagged(c.base, Relation(c, bs[0]), tag, keep)
    requires forall i :: 1 <= i < |bs| ==> IsFiller(c.base, Relation(c, bs[i]), tag, keep)
    ensures IsTagged(c.base, Rel(Relation(c, bs[0]).cols, HeldRows(c, bs)), tag, keep)
  {
    var k := |bs| - 1;
    if k == 0 {
      OneHeld(c, bs);
    } else {
      assert bs[..k][0] == bs[0];
      KeepThenFiller(c, bs[..k], tag, keep);
      TagUnion(c.base, Rel(Relation(c, bs[0]).cols, HeldRows(c, bs[..k])), Relation(c, bs[k]), tag, keep);
      OneMoreHeld(c, bs);
    }
  }

  lemma OneHeld(c: Scene, bs: seq<nat>)
    requires Stored(c) && |bs| == 1 && bs[0] < |c.g|
    ensures Rel(Relation(c, bs[0]).cols, HeldRows(c, bs)) == Relation(c, bs[0])
  {
    assert bs[..0] == [];
    assert HeldRows(c, bs) == multiset{} + Relation(c, bs[0]).rows;
  }

  lemma OneMoreHeld(c: Scene, bs: seq<nat>)
    requires Stored(c) && bs != [] && forall i :: 0 <= i < |bs| ==> bs[i] < |c.g|
    ensures HeldRows(c, bs) == HeldRows(c, bs[..|bs| - 1]) + Relation(c, bs[|bs| - 1]).rows
  {
  }

  lemma {:induction false} SameHeld(c: Scene, bs: seq<nat>)
    requires Stored(c) && bs != [] && bs[0] < |c.g| && forall i :: 0 <= i < |bs| ==> bs[i] == bs[0]
    ensures forall r :: r in HeldRows(c, bs) <==> r in Relation(c, bs[0]).rows
  {
    var k := |bs| - 1;
    if k == 0 {
      assert bs[..0] == [];
    } else {
      SameHeld(c, bs[..k]);
    }
  }

  lemma ExplodeMeans(c: Scene, specs: seq<Spec>, n: nat, q: Query<nat>, spec: Spec) returns (d: Rel)
    requires Known(c, specs, n) && ReadsBelow(c, q, n) && ExplodeRule(specs, q, spec)
    ensures Steady(c, n, q, d) && Sat(c.w, c.base, d, spec)
  {
    var bs := q.branches;
    d := Rel(Relation(c, bs[0]).cols, HeldRows(c, bs));
    forall i | 0 <= i < |bs|
      ensures bs[i] < n && Sat(c.w, c.base, Relation(c, bs[i]), specs[bs[i]])
    {
      Fetch(c, specs, n, q, i);
    }
    UnionSteady(c, n, bs);
    match spec
    case Tagged(tag, keep) => KeepThenFiller(c, bs, tag, keep);
    case Copies(key) =>
      SameHeld(c, bs);
      CopiesAgain(c.base, Relation(c, bs[0]), d, key, false);
  }

  // ---- looking through a view ---------------------------------------------------------------------

  lemma ViewContent(c: Scene, m: nat)
    requires Stored(c) && Viewed(c) && SelectView(c.g, m)
    ensures Relation(c, m) == SelectRel(c.w, [m], ViewSelect(c.g, m), Relation(c, ViewSource(c.g, m)))
  {
  }

  lemma ResidueView(c: Scene, m: nat, key: string, modulus: nat, r: nat)
    requires Stored(c) && Viewed(c) && SelectView(c.g, m) && IsKeyed(c.base, Relation(c, ViewSource(c.g, m)), key, false)
    requires ViewSelect(c.g, m) == BaseSelect(Passthrough(c.base.cols)).(filter := Some(Residue(key, modulus, r)))
    ensures Relation(c, m) == Rel(c.base.cols, MapBag(Where(c.w, Some(Residue(key, modulus, r)), Relation(c, ViewSource(c.g, m))), PayloadOf(|c.base.cols|, false)))
  {
    ViewContent(c, m);
    Unwiden(c.w, [m], ViewSelect(c.g, m), c.base, Relation(c, ViewSource(c.g, m)), key, false);
  }

  /** Branch r of a list of residue views over one keyed relation. */
  ghost predicate ResidueOf(c: Scene, bs: seq<nat>, k: nat, key: string, modulus: nat, r: nat)
    requires Stored(c) && k < |c.g| && r < |bs|
  {
    && bs[r] < |c.g|
    && Relation(c, bs[r]) == Rel(c.base.cols, MapBag(Where(c.w, Some(Residue(key, modulus, r)), Relation(c, k)), PayloadOf(|c.base.cols|, false)))
  }

  lemma {:induction false} ResidueUnion(c: Scene, bs: seq<nat>, k: nat, key: string, modulus: nat)
    requires Stored(c) && k < |c.g| && forall r :: 0 <= r < |bs| ==> bs[r] < |c.g| && ResidueOf(c, bs, k, key, modulus, r)
    ensures HeldRows(c, bs) == MapBag(Pieces(c.w, Residues(key, modulus, |bs|), Relation(c, k)), PayloadOf(|c.base.cols|, false))
    decreases |bs|
  {
    if bs != [] {
      var r := |bs| - 1;
      ResiduePrefix(c, bs, bs[..r], k, key, modulus);
      ResidueUnion(c, bs[..r], k, key, modulus);
      OneMoreHeld(c, bs);
      assert ResidueOf(c, bs, k, key, modulus, r);
      ResidueStep(c.w, Relation(c, k), key, modulus, r, PayloadOf(|c.base.cols|, false));
    }
  }

  lemma ResiduePrefix(c: Scene, bs: seq<nat>, front: seq<nat>, k: nat, key: string, modulus: nat)
    requires Stored(c) && k < |c.g| && bs != [] && forall r :: 0 <= r < |bs| ==> bs[r] < |c.g| && ResidueOf(c, bs, k, key, modulus, r)
    requires front == bs[..|bs| - 1]
    ensures forall r :: 0 <= r < |front| ==> front[r] < |c.g| && ResidueOf(c, front, k, key, modulus, r)
  {
    forall i | 0 <= i < |front|
      ensures front[i] < |c.g| && ResidueOf(c, front, k, key, modulus, i)
    {
      assert ResidueOf(c, bs, k, key, modulus, i);
    }
  }

  lemma ResidueStep(w: World, keyed: Rel, key: string, modulus: nat, r: nat, f: Row -> Row)
    ensures MapBag(Pieces(w, Residues(key, modulus, r + 1), keyed), f)
      == MapBag(Pieces(w, Residues(key, modulus, r), keyed), f) + MapBag(Where(w, Some(Residue(key, modulus, r)), keyed), f)
  {
    PiecesNext(w, keyed, key, modulus, r);
    MapUnion(Pieces(w, Residues(key, modulus, r), keyed), Where(w, Some(Residue(key, modulus, r)), keyed), f);
  }

  lemma PiecesNext(w: World, keyed: Rel, key: string, modulus: nat, r: nat)
    ensures Pieces(w, Residues(key, modulus, r + 1), keyed) == Pieces(w, Residues(key, modulus, r), keyed) + Where(w, Some(Residue(key, modulus, r)), keyed)
  {
    var parts := Residues(key, modulus, r + 1);
    assert parts[..r] == Residues(key, modulus, r) && parts[r] == Residue(key, modulus, r);
  }

  lemma ResiduesWhole(w: World, base: Rel, keyed: Rel, key: string, modulus: nat)
    requires IsKeyed(base, keyed, key, false) && modulus > 0
    ensures MapBag(Pieces(w, Residues(key, modulus, modulus), keyed), PayloadOf(|base.cols|, false)) == base.rows
  {
    forall r | r in keyed.rows { WideLookup(base, keyed, key, false, r); }
    ResiduesSplit(w, key, modulus, keyed);
    PiecesAreWhole(w, None, Residues(key, modulus, modulus), keyed);
    WhereNone(w, keyed);
    KeyedDistinct(base, keyed, key, false);
  }

  /** What the relation under a view holds. */
  lemma FetchUnder(c: Scene, specs: seq<Spec>, n: nat, q: Query<nat>, j: nat)
    requires Known(c, specs, n) && ReadsBelow(c, q, n) && j < |Sources(q)| && SelectView(c.g, Sources(q)[j])
    ensures ViewSource(c.g, Sources(q)[j]) < n
    ensures Sat(c.w, c.base, Relation(c, ViewSource(c.g, Sources(q)[j])), specs[ViewSource(c.g, Sources(q)[j])])
  {
    assert !c.g[ViewSource(c.g, Sources(q)[j])].QueryNode?;
  }

  lemma RankMeans(c: Scene, specs: seq<Spec>, n: nat, q: Query<nat>, spec: Spec) returns (d: Rel)
    requires Known(c, specs, n) && Viewed(c) && ReadsBelow(c, q, n) && RankRule(c.g, c.base.cols, specs, q, spec)
    ensures Steady(c, n, q, d) && Sat(c.w, c.base, d, spec)
  {
    var bs := q.branches;
    d := c.base;
    RowsShape(c.w, c.base, None);
    assert ResidueBranch(c.g, c.base.cols, specs, bs, 0);
    var k := ViewSource(c.g, bs[0]);
    var key := specs[k].key;
    FetchUnder(c, specs, n, q, 0);
    forall r | 0 <= r < |bs|
      ensures bs[r] < n && ResidueOf(c, bs, k, key, |bs|, r)
    {
      Fetch(c, specs, n, q, r);
      assert ResidueBranch(c.g, c.base.cols, specs, bs, r);
      ResidueView(c, bs[r], key, |bs|, r);
    }
    ResidueUnion(c, bs, k, key, |bs|);
    ResiduesWhole(c.w, c.base, Relation(c, k), key, |bs|);
    assert ResidueOf(c, bs, k, key, |bs|, 0);
    UnionSteady(c, n, bs);
  }
}

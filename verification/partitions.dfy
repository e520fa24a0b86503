/** Splitting the rows of a relation by filters and putting the pieces back together. */
module Partitions {
  import opened Bags
  import opened Expressions
  import opened Values
  import opened Enumerations
  import opened Queries
  import opened Selects

  /** The pieces of src, one per filter, in one bag. */
  ghost function Pieces(w: World, parts: seq<Expr>, src: Rel): multiset<Row> {
    if parts == [] then multiset{}
    else Pieces(w, parts[..|parts| - 1], src) + Where(w, Some(parts[|parts| - 1]), src)
  }

  ghost function CountPassing(w: World, parts: seq<Expr>, cols: seq<string>, row: Row): nat {
    if parts == [] then 0
    else CountPassing(w, parts[..|parts| - 1], cols, row) + (if Passes(w, Some(parts[|parts| - 1]), cols, row) then 1 else 0)
  }

  /** Every row that passes f is in exactly one piece, and every other row in none. */
  ghost predicate Splits(w: World, f: Option<Expr>, parts: seq<Expr>, src: Rel) {
    forall r :: r in src.rows ==> CountPassing(w, parts, src.cols, r) == if Passes(w, f, src.cols, r) then 1 else 0
  }

  lemma {:induction false} PiecesCount(w: World, parts: seq<Expr>, src: Rel, r: Row)
    ensures
      var n, have := CountPassing(w, parts, src.cols, r), src.rows[r];
      var got := Pieces(w, parts, src)[r];
      (n == 0 ==> got == 0) && (n == 1 ==> got == have) && (n > 1 && have > 0 ==> got > have) && (have == 0 ==> got == 0)
  {
    if parts != [] {
      var k := |parts| - 1;
      PiecesCount(w, parts[..k], src, r);
      FilterCount(src.rows, x => Passes(w, Some(parts[k]), src.cols, x), r);
      assert Pieces(w, parts, src)[r] == Pieces(w, parts[..k], src)[r] + Where(w, Some(parts[k]), src)[r];
    }
  }

  /** One row's multiplicities, on both sides. */
  lemma PiecesRow(w: World, f: Option<Expr>, parts: seq<Expr>, src: Rel, r: Row)
    ensures Pieces(w, parts, src)[r] == Where(w, f, src)[r] <==>
      r !in src.rows || CountPassing(w, parts, src.cols, r) == if Passes(w, f, src.cols, r) then 1 else 0
  {
    PiecesCount(w, parts, src, r);
    FilterCount(src.rows, x => Passes(w, f, src.cols, x), r);
  }

  /** The pieces add up to the filtered relation exactly when the filters split it. */
  lemma PiecesAreWhole(w: World, f: Option<Expr>, parts: seq<Expr>, src: Rel)
    ensures Pieces(w, parts, src) == Where(w, f, src) <==> Splits(w, f, parts, src)
  {
    var pieces, whole := Pieces(w, parts, src), Where(w, f, src);
    if Splits(w, f, parts, src) {
      forall r: Row
        ensures pieces[r] == whole[r]
      {
        PiecesRow(w, f, parts, src, r);
      }
    }
    if pieces == whole {
      forall r | r in src.rows
        ensures CountPassing(w, parts, src.cols, r) == if Passes(w, f, src.cols, r) then 1 else 0
      {
        PiecesRow(w, f, parts, src, r);
      }
    }
  }

  /** Comparing with a whole number. */
  lemma CompareLiteral(w: World, c: Comparator, x: Expr, n: int, cols: seq<string>, units: seq<Unit>, i: nat)
    requires NonEmpty(units) && i < |units|
    ensures Eval(w, Comparison(c, x, IntLiteral(n)), cols, units, i) == OfTruth(Compare(c, Eval(w, x, cols, units, i), Int(n)))
  {
    assert Eval(w, IntLiteral(n), cols, units, i) == Int(n);
  }

  lemma CountTwo(w: World, a: Expr, b: Expr, cols: seq<string>, r: Row)
    ensures CountPassing(w, [a, b], cols, r)
         == (if Passes(w, Some(a), cols, r) then 1 else 0) + (if Passes(w, Some(b), cols, r) then 1 else 0)
  {
    assert [a, b][..1] == [a] && [a][..0] == [];
    assert CountPassing(w, [a], cols, r) == if Passes(w, Some(a), cols, r) then 1 else 0;
  }

  lemma CountThree(w: World, a: Expr, b: Expr, c: Expr, cols: seq<string>, r: Row)
    ensures CountPassing(w, [a, b, c], cols, r)
         == (if Passes(w, Some(a), cols, r) then 1 else 0) + (if Passes(w, Some(b), cols, r) then 1 else 0)
          + (if Passes(w, Some(c), cols, r) then 1 else 0)
  {
    assert [a, b, c][..2] == [a, b];
    CountTwo(w, a, b, cols, r);
  }

  // ---- parity ---------------------------------------------------------------------------------

  function Even(key: string): Expr { Equals(Mod(Col(key), 2), IntLiteral(0)) }

  /** <> 0 and not = 1, because MOD(-1, 2) is -1; OR IS NULL, because MOD(NULL, 2) <> 0 is NULL. */
  function Odd(key: string): Expr {
    BoolOp(Or, NotEquals(Mod(Col(key), 2), IntLiteral(0)), IsNull(Col(key), false))
  }

  /** A column that holds whole numbers and NULLs. */
  ghost predicate IntegerColumn(src: Rel, key: string) {
    forall r :: r in src.rows ==> Lookup(src.cols, r, key).Int? || Lookup(src.cols, r, key) == Null
  }

  lemma ParityRow(w: World, key: string, cols: seq<string>, r: Row)
    requires Lookup(cols, r, key).Int? || Lookup(cols, r, key) == Null
    ensures Passes(w, Some(Even(key)), cols, r) != Passes(w, Some(Odd(key)), cols, r)
  {
    var v := Lookup(cols, r, key);
    ColumnValue(w, key, cols, [[r]], 0);
    assert EvalRow(w, Mod(Col(key), 2), cols, r) == ModValue(v, 2);
    CompareLiteral(w, Eq, Mod(Col(key), 2), 0, cols, [[r]], 0);
    CompareLiteral(w, Ne, Mod(Col(key), 2), 0, cols, [[r]], 0);
    var ne := NotEquals(Mod(Col(key), 2), IntLiteral(0));
    assert EvalRow(w, IsNull(Col(key), false), cols, r) == Bool(v == Null);
    assert EvalRow(w, Odd(key), cols, r)
        == OfTruth(Or3(TruthOf(EvalRow(w, ne, cols, r)), TruthOf(EvalRow(w, IsNull(Col(key), false), cols, r))));
  }

  lemma ParitySplits(w: World, f: Option<Expr>, key: string, src: Rel)
    requires IntegerColumn(src, key)
    ensures Splits(w, f, [Conjoin(f, Even(key)), Conjoin(f, Odd(key))], src)
  {
    forall r | r in src.rows
      ensures CountPassing(w, [Conjoin(f, Even(key)), Conjoin(f, Odd(key))], src.cols, r) == if Passes(w, f, src.cols, r) then 1 else 0
    {
      CountTwo(w, Conjoin(f, Even(key)), Conjoin(f, Odd(key)), src.cols, r);
      ConjoinPasses(w, f, Even(key), src.cols, r);
      ConjoinPasses(w, f, Odd(key), src.cols, r);
      ParityRow(w, key, src.cols, r);
    }
  }

  // ---- p, NOT p, p IS NULL --------------------------------------------------------------------

  lemma TernaryRow(w: World, p: Expr, cols: seq<string>, r: Row)
    requires IsPredicate(p)
    ensures
      var v := EvalRow(w, p, cols, r);
      && Passes(w, Some(p), cols, r) == (v == Bool(true))
      && Passes(w, Some(Not(p)), cols, r) == (v == Bool(false))
      && Passes(w, Some(IsNull(p, false)), cols, r) == (v == Null)
      && (v.Bool? || v == Null)
  {
    PredicateValue(w, p, cols, [[r]], 0);
    assert EvalRow(w, Not(p), cols, r) == OfTruth(Not3(TruthOf(EvalRow(w, p, cols, r))));
    assert EvalRow(w, IsNull(p, false), cols, r) == Bool(EvalRow(w, p, cols, r) == Null);
  }

  lemma TernarySplits(w: World, f: Option<Expr>, p: Expr, src: Rel)
    requires IsPredicate(p)
    ensures Splits(w, f, [Conjoin(f, p), Conjoin(f, Not(p)), Conjoin(f, IsNull(p, false))], src)
  {
    forall r | r in src.rows
      ensures CountPassing(w, [Conjoin(f, p), Conjoin(f, Not(p)), Conjoin(f, IsNull(p, false))], src.cols, r)
           == if Passes(w, f, src.cols, r) then 1 else 0
    {
      CountThree(w, Conjoin(f, p), Conjoin(f, Not(p)), Conjoin(f, IsNull(p, false)), src.cols, r);
      ConjoinPasses(w, f, p, src.cols, r);
      ConjoinPasses(w, f, Not(p), src.cols, r);
      ConjoinPasses(w, f, IsNull(p, false), src.cols, r);
      TernaryRow(w, p, src.cols, r);
    }
  }

  // ---- residues of a rank ---------------------------------------------------------------------

  function Residue(key: string, modulus: int, residue: int): Expr {
    Equals(Mod(Col(key), modulus), IntLiteral(residue))
  }

  function Residues(key: string, modulus: nat, upTo: nat): seq<Expr> {
    seq(upTo, r => Residue(key, modulus, r))
  }

  lemma {:induction false} ResidueCount(w: World, key: string, modulus: nat, upTo: nat, cols: seq<string>, r: Row)
    requires modulus > 0 && upTo <= modulus && Lookup(cols, r, key).Int? && Lookup(cols, r, key).n >= 0
    ensures CountPassing(w, Residues(key, modulus, upTo), cols, r) == if Lookup(cols, r, key).n % modulus < upTo then 1 else 0
    decreases upTo
  {
    if upTo > 0 {
      var v := Lookup(cols, r, key);
      var e := Residue(key, modulus, upTo - 1);
      ResidueCount(w, key, modulus, upTo - 1, cols, r);
      assert Residues(key, modulus, upTo)[..upTo - 1] == Residues(key, modulus, upTo - 1);
      ColumnValue(w, key, cols, [[r]], 0);
      assert EvalRow(w, Mod(Col(key), modulus), cols, r) == Int(v.n % modulus);
      CompareLiteral(w, Eq, Mod(Col(key), modulus), upTo - 1, cols, [[r]], 0);
    }
  }

  lemma ResiduesSplit(w: World, key: string, modulus: nat, src: Rel)
    requires modulus > 0
    requires forall r :: r in src.rows ==> Lookup(src.cols, r, key).Int? && Lookup(src.cols, r, key).n >= 0
    ensures Splits(w, None, Residues(key, modulus, modulus), src)
  {
    forall r | r in src.rows { ResidueCount(w, key, modulus, modulus, src.cols, r); }
  }

  // ---- nested partitions ----------------------------------------------------------------------

  lemma TwoPieces(w: World, p: Expr, q: Expr, src: Rel)
    ensures Pieces(w, [p, q], src) == Where(w, Some(p), src) + Where(w, Some(q), src)
  {
    assert [p, q][..1] == [p] && [p][..0] == [];
    assert Pieces(w, [p], src) == Where(w, Some(p), src);
  }

  lemma ThreePieces(w: World, p: Expr, q: Expr, r: Expr, src: Rel)
    ensures Pieces(w, [p, q, r], src) == Where(w, Some(p), src) + Where(w, Some(q), src) + Where(w, Some(r), src)
  {
    assert [p, q, r][..2] == [p, q];
    TwoPieces(w, p, q, src);
  }

  /** How a relation is split: not at all, by parity of a key, or by a predicate, each branch again. */
  datatype Nest =
    | Whole
    | ByParity(key: string, even: Nest, odd: Nest)
    | ByPredicate(p: Expr, yes: Nest, no: Nest, unknown: Nest)

  ghost predicate Splittable(nest: Nest, src: Rel) {
    match nest
    case Whole => true
    case ByParity(key, even, odd) => IntegerColumn(src, key) && Splittable(even, src) && Splittable(odd, src)
    case ByPredicate(p, yes, no, unknown) => IsPredicate(p) && Splittable(yes, src) && Splittable(no, src) && Splittable(unknown, src)
  }

  /** UNION ALL of the innermost branches, each with the filters above it ANDed onto f. */
  ghost function NestedRows(w: World, f: Option<Expr>, nest: Nest, src: Rel): multiset<Row>
    decreases nest
  {
    match nest
    case Whole => Where(w, f, src)
    case ByParity(key, even, odd) =>
      NestedRows(w, Some(Conjoin(f, Even(key))), even, src) + NestedRows(w, Some(Conjoin(f, Odd(key))), odd, src)
    case ByPredicate(p, yes, no, unknown) =>
      NestedRows(w, Some(Conjoin(f, p)), yes, src) + NestedRows(w, Some(Conjoin(f, Not(p))), no, src)
        + NestedRows(w, Some(Conjoin(f, IsNull(p, false))), unknown, src)
  }

  /** However deeply a relation is split, the branches together are the unsplit relation. */
  lemma {:induction false} NestedPartition(w: World, f: Option<Expr>, nest: Nest, src: Rel)
    requires Splittable(nest, src)
    ensures NestedRows(w, f, nest, src) == Where(w, f, src)
    decreases nest
  {
    match nest
    case Whole =>
    case ByParity(key, even, odd) =>
      var a, b := Conjoin(f, Even(key)), Conjoin(f, Odd(key));
      NestedPartition(w, Some(a), even, src);
      NestedPartition(w, Some(b), odd, src);
      TwoPieces(w, a, b, src);
      ParitySplits(w, f, key, src);
      PiecesAreWhole(w, f, [a, b], src);
    case ByPredicate(p, yes, no, unknown) =>
      var a, b, c := Conjoin(f, p), Conjoin(f, Not(p)), Conjoin(f, IsNull(p, false));
      NestedPartition(w, Some(a), yes, src);
      NestedPartition(w, Some(b), no, src);
      NestedPartition(w, Some(c), unknown, src);
      ThreePieces(w, a, b, c, src);
      TernarySplits(w, f, p, src);
      PiecesAreWhole(w, f, [a, b, c], src);
  }
}

/** Joins over a key that occurs exactly once on each side. */
module Joins {
  import opened Bags
  import opened Expressions
  import opened Values
  import opened Enumerations
  import opened Queries
  import opened Selects

  // ---- FULL OUTER written as LEFT OUTER -------------------------------------------------------

  /** No right row is lonely exactly when each has a match. */
  lemma NoneLonely(match_: (Row, Row) -> bool, left: multiset<Row>, right: multiset<Row>, pad: nat)
    ensures UnmatchedRight(match_, left, right, pad) == multiset{} <==> forall y :: y in right ==> HasLeft(match_, left, y)
  {
    var p := y => !HasLeft(match_, left, y);
    var f := (y: Row) => Nulls(pad) + y;
    var lonely := FilterBag(right, p);
    MapSize(lonely, f);
    forall y | y in right
      ensures y in lonely <==> !HasLeft(match_, left, y)
    {
      FilterCount(right, p, y);
    }
    if forall y :: y in right ==> HasLeft(match_, left, y) {
      FilterNothing(right, p);
    }
  }

  lemma PlusNothing(a: multiset<Row>, b: multiset<Row>)
    ensures a + b == a <==> b == multiset{}
  {
    assert |a + b| == |a| + |b|;
    if b == multiset{} { assert a + b == a; }
  }

  /** The lowered join returns the same rows exactly when every right row has a match. */
  lemma FullOuterLowering(match_: (Row, Row) -> bool, l: Rel, r: Rel)
    ensures JoinRows(FullOuter, match_, l, r) == JoinRows(LeftOuter, match_, l, r)
      <==> forall y :: y in r.rows ==> HasLeft(match_, l.rows, y)
  {
    var left, lonely := JoinRows(LeftOuter, match_, l, r), UnmatchedRight(match_, l.rows, r.rows, |l.cols|);
    NoneLonely(match_, l.rows, r.rows, |l.cols|);
    FullAddsLonely(match_, l, r);
    PlusNothing(left, lonely);
  }

  lemma FullAddsLonely(match_: (Row, Row) -> bool, l: Rel, r: Rel)
    ensures JoinRows(FullOuter, match_, l, r) == JoinRows(LeftOuter, match_, l, r) + UnmatchedRight(match_, l.rows, r.rows, |l.cols|)
  {
  }

  // ---- one-to-one complete joins --------------------------------------------------------------

  /** Both sides are images of one bag of distinct rows, and rows match when they come from one row. */
  ghost predicate OneToOne(k: multiset<Row>, lf: Row -> Row, rf: Row -> Row, match_: (Row, Row) -> bool) {
    && (forall x :: x in k ==> k[x] == 1)
    && (forall x, y :: x in k && y in k ==> (match_(lf(x), rf(y)) <==> x == y))
  }

  lemma PairCount(k: multiset<Row>, lf: Row -> Row, rf: Row -> Row, match_: (Row, Row) -> bool, a: Row, b: Row)
    requires OneToOne(k, lf, rf, match_)
    ensures
      (if match_(a, b) then MapBag(k, lf)[a] * MapBag(k, rf)[b] else 0) == MapBag(k, x => (lf(x), rf(x)))[(a, b)]
  {
    var pair := x => (lf(x), rf(x));
    MapMember(k, lf, a);
    MapMember(k, rf, b);
    MapMember(k, pair, (a, b));
    if x :| x in k && pair(x) == (a, b) {
      MapInjective(k, pair, x);
      MapInjective(k, lf, x);
      MapInjective(k, rf, x);
    } else {
      assert MapBag(k, pair)[(a, b)] == 0;
    }
  }

  lemma OneToOneInner(k: multiset<Row>, lf: Row -> Row, rf: Row -> Row, match_: (Row, Row) -> bool)
    requires OneToOne(k, lf, rf, match_)
    ensures InnerRows(match_, MapBag(k, lf), MapBag(k, rf)) == MapBag(k, x => lf(x) + rf(x))
  {
    var l, r := MapBag(k, lf), MapBag(k, rf);
    var p := (q: (Row, Row)) => match_(q.0, q.1);
    var pair := (x: Row) => (lf(x), rf(x));
    forall q: (Row, Row)
      ensures FilterBag(Product(l, r), p)[q] == MapBag(k, pair)[q]
    {
      FilterCount(Product(l, r), p, q);
      ProductCount(l, r, q.0, q.1);
      PairCount(k, lf, rf, match_, q.0, q.1);
      MapCong(k, x => (lf(x), rf(x)), pair);
    }
    assert FilterBag(Product(l, r), p) == MapBag(k, pair);
    MapCompose(k, pair, (q: (Row, Row)) => q.0 + q.1, (x: Row) => lf(x) + rf(x));
  }

  lemma OneToOneComplete(k: multiset<Row>, lf: Row -> Row, rf: Row -> Row, match_: (Row, Row) -> bool)
    requires OneToOne(k, lf, rf, match_)
    ensures forall a :: a in MapBag(k, lf) ==> HasRight(match_, a, MapBag(k, rf))
    ensures forall b :: b in MapBag(k, rf) ==> HasLeft(match_, MapBag(k, lf), b)
  {
    forall a | a in MapBag(k, lf)
      ensures HasRight(match_, a, MapBag(k, rf))
    {
      MapMember(k, lf, a);
      var x :| x in k && lf(x) == a;
      MapMember(k, rf, rf(x));
    }
    forall b | b in MapBag(k, rf)
      ensures HasLeft(match_, MapBag(k, lf), b)
    {
      MapMember(k, rf, b);
      var x :| x in k && rf(x) == b;
      MapMember(k, lf, lf(x));
    }
  }

  /** INNER, LEFT, RIGHT and FULL OUTER all return the same rows on a one-to-one complete join. */
  lemma OneToOneJoin(t: JoinType, k: multiset<Row>, lf: Row -> Row, rf: Row -> Row, match_: (Row, Row) -> bool, l: Rel, r: Rel)
    requires OneToOne(k, lf, rf, match_) && l.rows == MapBag(k, lf) && r.rows == MapBag(k, rf)
    requires t == Inner || t == LeftOuter || t == RightOuter || t == FullOuter || t == Cross
    ensures JoinRows(t, match_, l, r) == MapBag(k, x => lf(x) + rf(x))
  {
    OneToOneInner(k, lf, rf, match_);
    OneToOneComplete(k, lf, rf, match_);
    NoneLonelyLeft(match_, l.rows, r.rows, |r.cols|);
    NoneLonely(match_, l.rows, r.rows, |l.cols|);
    CompleteJoin(t, match_, l, r);
  }

  lemma NoneLonelyLeft(match_: (Row, Row) -> bool, left: multiset<Row>, right: multiset<Row>, pad: nat)
    requires forall x :: x in left ==> HasRight(match_, x, right)
    ensures UnmatchedLeft(match_, left, right, pad) == multiset{}
  {
    FilterNothing(left, l => !HasRight(match_, l, right));
  }

  /** With no lonely row on either side the join types agree. */
  lemma CompleteJoin(t: JoinType, match_: (Row, Row) -> bool, l: Rel, r: Rel)
    requires UnmatchedLeft(match_, l.rows, r.rows, |r.cols|) == multiset{} && UnmatchedRight(match_, l.rows, r.rows, |l.cols|) == multiset{}
    requires t == Inner || t == LeftOuter || t == RightOuter || t == FullOuter || t == Cross
    ensures JoinRows(t, match_, l, r) == InnerRows(match_, l.rows, r.rows)
  {
    var inner := InnerRows(match_, l.rows, r.rows);
    assert inner + multiset{} == inner;
  }

  lemma OneToOneSemi(k: multiset<Row>, lf: Row -> Row, rf: Row -> Row, match_: (Row, Row) -> bool, l: Rel, r: Rel)
    requires OneToOne(k, lf, rf, match_) && l.rows == MapBag(k, lf) && r.rows == MapBag(k, rf)
    ensures JoinRows(Semi, match_, l, r) == MapBag(k, x => lf(x) + Nulls(|r.cols|))
  {
    OneToOneComplete(k, lf, rf, match_);
    SemiAll(match_, l, r);
    MapCompose(k, lf, (x: Row) => x + Nulls(|r.cols|), (x: Row) => lf(x) + Nulls(|r.cols|));
  }

  /** SEMI JOIN keeps a left side whose rows all have a match. */
  lemma SemiAll(match_: (Row, Row) -> bool, l: Rel, r: Rel)
    requires forall a :: a in l.rows ==> HasRight(match_, a, r.rows)
    ensures JoinRows(Semi, match_, l, r) == MapBag(l.rows, (x: Row) => x + Nulls(|r.cols|))
  {
    FilterAll(l.rows, x => HasRight(match_, x, r.rows));
  }

  /** LEFT OUTER JOIN of an empty relation pads every left row once. */
  lemma LeftEmptyRows(match_: (Row, Row) -> bool, l: Rel, r: Rel)
    requires r.rows == multiset{}
    ensures JoinRows(LeftOuter, match_, l, r) == MapBag(l.rows, (x: Row) => x + Nulls(|r.cols|))
  {
    EmptyProduct(match_, l.rows);
    AllLonely(match_, l.rows, |r.cols|);
    var lonely := UnmatchedLeft(match_, l.rows, r.rows, |r.cols|);
    assert multiset{} + lonely == lonely;
  }

  lemma EmptyProduct(match_: (Row, Row) -> bool, left: multiset<Row>)
    ensures InnerRows(match_, left, multiset{}) == multiset{}
  {
    var none: multiset<Row> := multiset{};
    forall q: (Row, Row) ensures Product(left, none)[q] == 0 { ProductCount(left, none, q.0, q.1); }
    assert Product(left, none) == multiset{};
  }

  lemma AllLonely(match_: (Row, Row) -> bool, left: multiset<Row>, pad: nat)
    ensures UnmatchedLeft(match_, left, multiset{}, pad) == MapBag(left, (x: Row) => x + Nulls(pad))
  {
    FilterAll(left, l => !HasRight(match_, l, multiset{}));
  }

  lemma ProductMember(l: multiset<Row>, r: multiset<Row>, q: (Row, Row))
    requires q in Product(l, r)
    ensures q.0 in l && q.1 in r
  {
    ProductCount(l, r, q.0, q.1);
    assert q == (q.0, q.1);
  }

  /** CROSS JOIN with the condition in WHERE is INNER JOIN on the condition. */
  lemma CrossFilter(always: (Row, Row) -> bool, match_: (Row, Row) -> bool, l: multiset<Row>, r: multiset<Row>, p: Row -> bool)
    requires forall a, b :: always(a, b)
    requires forall a, b :: a in l && b in r ==> match_(a, b) == p(a + b)
    ensures FilterBag(InnerRows(always, l, r), p) == InnerRows(match_, l, r)
  {
    var pairs := Product(l, r);
    var all := (q: (Row, Row)) => always(q.0, q.1);
    var yes := (q: (Row, Row)) => match_(q.0, q.1);
    var cat := (q: (Row, Row)) => q.0 + q.1;
    FilterAll(pairs, all);
    forall q: (Row, Row) | q in pairs
      ensures yes(q) == p(cat(q))
    {
      ProductMember(l, r, q);
    }
    FilterMap(pairs, cat, p, yes);
  }

  // ---- names in scope -------------------------------------------------------------------------

  lemma {:induction false} PrefixedIndex(alias: string, cols: seq<string>, name: string, rest: seq<string>)
    requires name in cols
    ensures IndexOf(Qualified(alias, cols) + rest, alias + "." + name) == IndexOf(cols, name)
    decreases |cols|
  {
    var scope := Qualified(alias, cols) + rest;
    assert scope[0] == alias + "." + cols[0];
    assert (alias + "." + cols[0])[|alias| + 1..] == cols[0] && (alias + "." + name)[|alias| + 1..] == name;
    if cols[0] != name {
      assert scope[0] != alias + "." + name;
      assert scope[1..] == Qualified(alias, cols[1..]) + rest;
      PrefixedIndex(alias, cols[1..], name, rest);
    }
  }

  /** l.c reads column c of the left row. */
  lemma LeftLookup(lcols: seq<string>, rcols: seq<string>, l: Row, r: Row, name: string)
    requires name in lcols && |l| == |lcols|
    ensures Lookup(Qualified("l", lcols) + Qualified("r", rcols), l + r, "l" + "." + name) == Lookup(lcols, l, name)
  {
    PrefixedIndex("l", lcols, name, Qualified("r", rcols));
    var k := IndexOf(lcols, name);
    assert k < |lcols|;
  }

  lemma {:induction false} SkipLeft(lcols: seq<string>, rest: seq<string>, name: string)
    ensures IndexOf(Qualified("l", lcols) + rest, "r" + "." + name) == |lcols| + IndexOf(rest, "r" + "." + name)
    decreases |lcols|
  {
    var scope := Qualified("l", lcols) + rest;
    if lcols == [] {
      assert scope == rest;
    } else {
      assert scope[0] == "l" + "." + lcols[0];
      assert scope[0][0] == 'l' && ("r" + "." + name)[0] == 'r';
      assert scope[1..] == Qualified("l", lcols[1..]) + rest;
      SkipLeft(lcols[1..], rest, name);
    }
  }

  /** r.c reads column c of the right row. */
  lemma RightLookup(lcols: seq<string>, rcols: seq<string>, l: Row, r: Row, name: string)
    requires name in rcols && |l| == |lcols| && |r| == |rcols|
    ensures Lookup(Qualified("l", lcols) + Qualified("r", rcols), l + r, "r" + "." + name) == Lookup(rcols, r, name)
  {
    SkipLeft(lcols, Qualified("r", rcols), name);
    PrefixedIndex("r", rcols, name, []);
    assert Qualified("r", rcols) + [] == Qualified("r", rcols);
    var k := IndexOf(rcols, name);
    assert k < |rcols|;
  }

  function QualifiedItems(alias: string, cols: seq<string>): (items: seq<Item>)
    ensures |items| == |cols|
  {
    seq(|cols|, k requires 0 <= k < |cols| => Item(cols[k], QualifiedCol(alias, cols[k])))
  }

  lemma QualifiedValue(w: World, alias: string, name: string, scope: seq<string>, row: Row)
    ensures EvalRow(w, QualifiedCol(alias, name), scope, row) == Lookup(scope, row, alias + "." + name)
  {
    assert ColumnSql(QualifiedCol(alias, name)) == alias + "." + name;
  }

  /** The value of l.key = r.key on a joined row. */
  lemma KeyCondition(w: World, lcols: seq<string>, rcols: seq<string>, l: Row, r: Row, key: string)
    requires key in lcols && key in rcols && |l| == |lcols| && |r| == |rcols|
    ensures IsTrue(EvalRow(w, KeyEquals(key), Qualified("l", lcols) + Qualified("r", rcols), l + r))
      <==> Lookup(lcols, l, key) == Lookup(rcols, r, key) && Lookup(lcols, l, key) != Null
  {
    var scope := Qualified("l", lcols) + Qualified("r", rcols);
    QualifiedValue(w, "l", key, scope, l + r);
    QualifiedValue(w, "r", key, scope, l + r);
    LeftLookup(lcols, rcols, l, r, key);
    RightLookup(lcols, rcols, l, r, key);
  }

  function KeyEquals(key: string): Expr {
    Equals(QualifiedCol("l", key), QualifiedCol("r", key))
  }
}

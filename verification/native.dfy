/** DuckDB's own ways to take rows apart and put them together: POSITIONAL JOIN, PIVOT and a
    recursive CTE. All three give the base rows back when the key of the relation is unique. */
module Native {
  import opened Bags
  import opened Expressions
  import opened Values
  import opened Enumerations
  import opened Queries
  import opened Selects
  import opened Channels
  import opened Meaning
  import opened Matching

  // ---- POSITIONAL JOIN ------------------------------------------------------------------------------

  function KeyOf(cols: seq<string>, key: string, r: Row): int {
    if Lookup(cols, r, key).Int? then Lookup(cols, r, key).n else 0
  }

  /** An order in which ORDER BY key may list rows. */
  ghost predicate SortedBy(cols: seq<string>, key: string, s: seq<Row>) {
    forall i, j :: 0 <= i < j < |s| ==> KeyOf(cols, key, s[i]) <= KeyOf(cols, key, s[j])
  }

  ghost predicate UniqueBy(cols: seq<string>, key: string, m: multiset<Row>) {
    forall r, s :: r in m && s in m && KeyOf(cols, key, r) == KeyOf(cols, key, s) ==> r == s
  }

  /** Rows with unique keys can be sorted in one way only. */
  lemma {:induction false} SortedOnce(cols: seq<string>, key: string, s: seq<Row>, t: seq<Row>)
    requires multiset(s) == multiset(t) && SortedBy(cols, key, s) && SortedBy(cols, key, t) && UniqueBy(cols, key, multiset(s))
    ensures s == t
    decreases |s|
  {
    SameLength(s, t);
    if s != [] {
      FrontsAlike(cols, key, s, t);
      SortedOnce(cols, key, s[..|s| - 1], t[..|t| - 1]);
      SameList(s, t);
    }
  }

  /** Without the row of the largest key, which comes last in both, the same holds of what is left. */
  lemma FrontsAlike(cols: seq<string>, key: string, s: seq<Row>, t: seq<Row>)
    requires multiset(s) == multiset(t) && SortedBy(cols, key, s) && SortedBy(cols, key, t) && UniqueBy(cols, key, multiset(s))
    requires |s| == |t| > 0
    ensures s[|s| - 1] == t[|t| - 1] && multiset(s[..|s| - 1]) == multiset(t[..|t| - 1])
    ensures SortedBy(cols, key, s[..|s| - 1]) && SortedBy(cols, key, t[..|t| - 1]) && UniqueBy(cols, key, multiset(s[..|s| - 1]))
  {
    LastIsLargest(cols, key, s, t);
    SameFront(s, t);
    UniqueFront(cols, key, s);
  }

  lemma SameList(s: seq<Row>, t: seq<Row>)
    requires |s| == |t| > 0 && s[..|s| - 1] == t[..|t| - 1] && s[|s| - 1] == t[|t| - 1]
    ensures s == t
  {
    assert s == s[..|s| - 1] + [s[|s| - 1]] && t == t[..|t| - 1] + [t[|t| - 1]];
  }

  lemma UniqueFront(cols: seq<string>, key: string, s: seq<Row>)
    requires s != [] && UniqueBy(cols, key, multiset(s))
    ensures UniqueBy(cols, key, multiset(s[..|s| - 1]))
  {
    LastBag(s);
  }

  lemma SameLength(s: seq<Row>, t: seq<Row>)
    requires multiset(s) == multiset(t)
    ensures |s| == |t|
  {
    assert |s| == |multiset(s)| && |t| == |multiset(t)|;
  }

  lemma SameFront(s: seq<Row>, t: seq<Row>)
    requires multiset(s) == multiset(t) && |s| == |t| > 0 && s[|s| - 1] == t[|t| - 1]
    ensures multiset(s[..|s| - 1]) == multiset(t[..|t| - 1])
  {
    LastBag(s);
    LastBag(t);
    var x := s[|s| - 1];
    assert multiset(s[..|s| - 1]) == multiset(s) - multiset{x};
    assert multiset(t[..|t| - 1]) == multiset(t) - multiset{x};
  }

  lemma LastIsLargest(cols: seq<string>, key: string, s: seq<Row>, t: seq<Row>)
    requires multiset(s) == multiset(t) && SortedBy(cols, key, s) && SortedBy(cols, key, t) && UniqueBy(cols, key, multiset(s))
    requires |s| == |t| > 0
    ensures s[|s| - 1] == t[|t| - 1]
  {
    var x, y := s[|s| - 1], t[|t| - 1];
    assert x in multiset(t) && y in multiset(s);
    assert x in t && y in s;
    var i :| 0 <= i < |t| && t[i] == x;
    var j :| 0 <= j < |s| && s[j] == y;
  }

  /** Row i of the one side next to row i of the other. */
  function Zipped(cols: seq<string>, left: seq<string>, right: seq<string>, s: seq<Row>, t: seq<Row>): seq<Row>
    requires |s| == |t|
  {
    seq(|s|, i requires 0 <= i < |s| => ByName(cols, left, s[i]) + ByName(cols, right, t[i]))
  }

  lemma KeyedUnique(base: Rel, k: Rel, key: string)
    requires IsKeyed(base, k, key, false)
    ensures UniqueBy(k.cols, key, k.rows)
  {
    forall r, s | r in k.rows && s in k.rows && KeyOf(k.cols, key, r) == KeyOf(k.cols, key, s)
      ensures r == s
    {
      WideLookup(base, k, key, false, r);
      WideLookup(base, k, key, false, s);
    }
  }

  /** The base columns of the listed rows are the base rows. */
  lemma PayloadList(base: Rel, k: Rel, key: string, s: seq<Row>)
    requires IsKeyed(base, k, key, false) && multiset(s) == k.rows
    ensures multiset(MapSeq(s, ByNameOf(k.cols, base.cols))) == base.rows
  {
    MapSeqBag(s, ByNameOf(k.cols, base.cols));
    forall x | x in k.rows
      ensures ByNameOf(k.cols, base.cols)(x) == PayloadOf(|base.cols|, false)(x)
    {
      ByNamePayload(base, k, key, x);
    }
    MapCong(k.rows, ByNameOf(k.cols, base.cols), PayloadOf(|base.cols|, false));
    KeyedDistinct(base, k, key, false);
  }

  /** Zipping a list with itself reads both halves of every row. */
  lemma ZippedSelf(cols: seq<string>, left: seq<string>, right: seq<string>, s: seq<Row>)
    ensures Zipped(cols, left, right, s, s) == MapSeq(s, ByNameOf(cols, left + right))
  {
    forall i | 0 <= i < |s|
      ensures ByName(cols, left, s[i]) + ByName(cols, right, s[i]) == ByName(cols, left + right, s[i])
    {
    }
  }

  /** Two column halves of a keyed relation, each sorted by the key on its own, join by position to
      the base rows, however the engine breaks the sort down. */
  lemma PositionalRebuilds(base: Rel, k: Rel, key: string, left: seq<string>, right: seq<string>, s: seq<Row>, t: seq<Row>)
    requires IsKeyed(base, k, key, false) && left + right == base.cols
    requires multiset(s) == k.rows && multiset(t) == k.rows && SortedBy(k.cols, key, s) && SortedBy(k.cols, key, t)
    ensures |s| == |t| && multiset(Zipped(k.cols, left, right, s, t)) == base.rows
  {
    KeyedUnique(base, k, key);
    SortedOnce(k.cols, key, s, t);
    ZippedSelf(k.cols, left, right, s);
    PayloadList(base, k, key, s);
  }

  /** A key that repeats is not enough: two legal sorts of the same rows swap the halves. */
  lemma PositionalNeedsUnique()
    ensures
      var cols := ["k", "a", "b"];
      var x, y: Row := [Int(1), Int(10), Int(10)], [Int(1), Int(20), Int(20)];
      && multiset([x, y]) == multiset([y, x]) && SortedBy(cols, "k", [x, y]) && SortedBy(cols, "k", [y, x])
      && Zipped(cols, ["a"], ["b"], [x, y], [y, x])[0] == [Int(10), Int(20)]
  {
    var cols := ["k", "a", "b"];
    var x, y: Row := [Int(1), Int(10), Int(10)], [Int(1), Int(20), Int(20)];
    assert cols[0] == "k" && cols[1] == "a" && cols[2] == "b";
    LookupAt(cols, x, 0);
    LookupAt(cols, y, 0);
    LookupAt(cols, x, 1);
    LookupAt(cols, y, 2);
    assert ByName(cols, ["a"], x) == [Int(10)] && ByName(cols, ["b"], y) == [Int(20)];
  }

  // ---- PIVOT ----------------------------------------------------------------------------------------

  /** first(v) of each group: which row an engine takes is its choice. */
  function Firsts(cols: seq<string>, names: seq<string>, units: seq<Unit>, picks: seq<nat>): seq<Row>
    requires |picks| == |units| && forall i :: 0 <= i < |units| ==> picks[i] < |units[i]|
  {
    seq(|units|, i requires 0 <= i < |units| => ByName(cols, names, units[i][picks[i]]))
  }

  /** A key that no two rows share, a duplicate of a row included. */
  ghost predicate PrimaryKey(rel: Rel, key: string) {
    && key in rel.cols && Distinct(rel.rows) == rel.rows
    && forall r, s :: r in rel.rows && s in rel.rows && Lookup(rel.cols, r, key) == Lookup(rel.cols, s, key) ==> r == s
  }

  ghost function PivotKey(cols: seq<string>, key: string): KeyFunction { (r: Row) => [Lookup(cols, r, key)] }

  /** Packing the other columns in a struct, pivoting on a constant per key and unpacking is the identity. */
  lemma PivotIdentity(base: Rel, key: string, units: seq<Unit>, picks: seq<nat>)
    requires Shaped(base) && PrimaryKey(base, key) && ValidUnits(Some(PivotKey(base.cols, key)), base.rows, units)
    requires |picks| == |units| && forall i :: 0 <= i < |units| ==> picks[i] < |units[i]|
    ensures multiset(Firsts(base.cols, base.cols, units, picks)) == base.rows
  {
    var group := PivotKey(base.cols, key);
    forall r, s | r in base.rows && s in base.rows && group(r) == group(s) ensures r == s { assert group(r)[0] == group(s)[0]; }
    GroupedHeads(group, base.rows, units);
    FirstsAreHeads(base.cols, base.cols, units, picks);
    MapSeqBag(Heads(units), ByNameOf(base.cols, base.cols));
    forall r | r in base.rows ensures ByNameOf(base.cols, base.cols)(r) == r { OwnColumns(base.cols, r); }
    MapIdentity(base.rows, ByNameOf(base.cols, base.cols));
  }

  lemma OwnColumns(cols: seq<string>, r: Row)
    requires DistinctNames(cols) && |r| == |cols|
    ensures ByName(cols, cols, r) == r
  {
    forall k | 0 <= k < |cols| ensures Lookup(cols, r, cols[k]) == r[k] { LookupAt(cols, r, k); }
  }

  lemma FirstsAreHeads(cols: seq<string>, names: seq<string>, units: seq<Unit>, picks: seq<nat>)
    requires NonEmpty(units) && |picks| == |units| && forall i :: 0 <= i < |units| ==> picks[i] < |units[i]|
    requires forall i, j :: 0 <= i < |units| && 0 <= j < |units[i]| ==> units[i][j] == units[i][0]
    ensures Firsts(cols, names, units, picks) == MapSeq(Heads(units), ByNameOf(cols, names))
  {
  }

  // ---- recursive CTE --------------------------------------------------------------------------------

  /** The rows WITH RECURSIVE collects in at most n rounds: what the last round added is fed to the
      recursive arm until nothing is added. */
  ghost function Recursion(arm: multiset<Row> -> multiset<Row>, added: multiset<Row>, n: nat): multiset<Row>
    decreases n
  {
    if n == 0 || added == multiset{} then multiset{} else added + Recursion(arm, arm(added), n - 1)
  }

  /** The recursive arm: SELECT ... WHERE FALSE. */
  ghost function FalseArm(w: World, cols: seq<string>): multiset<Row> -> multiset<Row> {
    m => Where(w, Some(BooleanLiteral(false)), Rel(cols, m))
  }

  /** With WHERE FALSE in the recursive arm the fixed point is the anchor: one round, and no further
      round changes it. */
  lemma EmptyArmStops(w: World, cols: seq<string>, anchor: multiset<Row>, n: nat)
    requires n >= 1
    ensures Recursion(FalseArm(w, cols), anchor, n) == anchor
  {
    var arm := FalseArm(w, cols);
    forall r: Row ensures !Passes(w, Some(BooleanLiteral(false)), cols, r) {}
    WhereMembers(w, Some(BooleanLiteral(false)), Rel(cols, anchor));
    assert arm(anchor) == multiset{};
    assert Recursion(arm, anchor, n) == anchor;
  }

  // ---- the three queries ----------------------------------------------------------------------------

  datatype NativeQuery =
    | PositionalJoin(key: string, left: seq<string>, right: seq<string>, out: seq<string>)
    | RecursiveCte(out: seq<string>)
    | PivotStruct(key: string, measures: seq<string>, out: seq<string>)

  /** A listing that ORDER BY key may give. */
  ghost predicate ListedBy(src: Rel, key: string, s: seq<Row>) { multiset(s) == src.rows && SortedBy(src.cols, key, s) }

  /** SELECT out FROM (SELECT key, left ... ORDER BY key) POSITIONAL JOIN (SELECT right ... ORDER BY key). */
  function PositionalRow(cols: seq<string>, q: NativeQuery, l: Row, r: Row): Row
    requires q.PositionalJoin?
  {
    ByName([q.key] + (q.left + q.right), q.out, ByName(cols, [q.key] + q.left, l) + ByName(cols, q.right, r))
  }

  function PositionalRows(cols: seq<string>, q: NativeQuery, s: seq<Row>, t: seq<Row>): seq<Row>
    requires q.PositionalJoin? && |s| == |t|
  {
    seq(|s|, i requires 0 <= i < |s| => PositionalRow(cols, q, s[i], t[i]))
  }

  /** SELECT out with each column but the key taken out of first(v). */
  function PivotRow(cols: seq<string>, q: NativeQuery, key: Value, first: Row): Row
    requires q.PivotStruct?
  {
    ByName([q.key] + q.measures, q.out, [key] + ByName(cols, q.measures, first))
  }

  function PivotRows(cols: seq<string>, q: NativeQuery, units: seq<Unit>, picks: seq<nat>): seq<Row>
    requires q.PivotStruct? && NonEmpty(units) && |picks| == |units| && forall i :: 0 <= i < |units| ==> picks[i] < |units[i]|
  {
    seq(|units|, i requires 0 <= i < |units| => PivotRow(cols, q, Lookup(cols, units[i][0], q.key), units[i][picks[i]]))
  }

  /** What an engine may answer: how it sorts, groups and picks is its choice. */
  ghost predicate MayReturn(w: World, q: NativeQuery, src: Rel, result: Rel) {
    && result.cols == q.out
    && match q
       case PositionalJoin(key, _, _, _) =>
         exists s, t :: ListedBy(src, key, s) && ListedBy(src, key, t) && |s| == |t| && result.rows == multiset(PositionalRows(src.cols, q, s, t))
       case RecursiveCte(out) =>
         exists n: nat :: n >= 1 && result.rows == Recursion(FalseArm(w, out), MapBag(src.rows, ByNameOf(src.cols, out)), n)
       case PivotStruct(key, _, _) =>
         exists units, picks :: ValidUnits(Some(PivotKey(src.cols, key)), src.rows, units) && PicksIn(units, picks)
           && result.rows == multiset(PivotRows(src.cols, q, units, picks))
  }

  ghost predicate PicksIn(units: seq<Unit>, picks: seq<nat>) { |picks| == |units| && forall i :: 0 <= i < |units| ==> picks[i] < |units[i]| }

  /** How the builders put these queries together. */
  ghost predicate NativeRule(base: Rel, q: NativeQuery, src: Rel) {
    && q.out == base.cols && Shaped(base)
    && match q
       case PositionalJoin(key, left, right, _) => IsKeyed(base, src, key, false) && left + right == base.cols
       case RecursiveCte(_) => src == base
       case PivotStruct(key, measures, _) => src == base && PrimaryKey(base, key) && forall c :: c in base.cols ==> c == key || c in measures
  }

  lemma PositionalRowIs(cols: seq<string>, q: NativeQuery, l: Row, r: Row)
    requires q.PositionalJoin? && q.out == q.left + q.right && DistinctNames(q.out) && q.key !in q.out
    ensures PositionalRow(cols, q, l, r) == ByName(cols, q.left, l) + ByName(cols, q.right, r)
  {
    var a, b := ByName(cols, q.left, l), ByName(cols, q.right, r);
    var kv := Lookup(cols, l, q.key);
    KeyInFront(cols, q.key, q.left, l);
    OneInFront(kv, a, b);
    BehindKey(q.key, q.out, kv, a + b);
  }

  lemma KeyInFront(cols: seq<string>, key: string, names: seq<string>, r: Row)
    ensures ByName(cols, [key] + names, r) == [Lookup(cols, r, key)] + ByName(cols, names, r)
  {
  }

  lemma OneInFront(v: Value, a: Row, b: Row)
    ensures ([v] + a) + b == [v] + (a + b)
  {
  }

  /** Reading by name what stands behind a key. */
  lemma BehindKey(key: string, cols: seq<string>, kv: Value, payload: Row)
    requires DistinctNames(cols) && key !in cols && |payload| == |cols|
    ensures ByName([key] + cols, cols, [kv] + payload) == payload
  {
    EmbedsBack(cols, key);
    forall i | 0 <= i < |cols|
      ensures Lookup([key] + cols, [kv] + payload, cols[i]) == payload[i]
    {
      LookupAt([key] + cols, [kv] + payload, i + 1);
    }
  }

  lemma PivotRowIs(base: Rel, q: NativeQuery, head: Row, first: Row)
    requires q.PivotStruct? && NativeRule(base, q, base) && Lookup(base.cols, head, q.key) == Lookup(base.cols, first, q.key)
    ensures PivotRow(base.cols, q, Lookup(base.cols, head, q.key), first) == ByName(base.cols, base.cols, first)
  {
    var names := [q.key] + q.measures;
    assert ByName(base.cols, names, first) == [Lookup(base.cols, first, q.key)] + ByName(base.cols, q.measures, first);
    forall i | 0 <= i < |base.cols|
      ensures Lookup(names, ByName(base.cols, names, first), base.cols[i]) == Lookup(base.cols, first, base.cols[i])
    {
      assert base.cols[i] in base.cols;
      assert names[0] == q.key && forall j :: 0 <= j < |q.measures| ==> names[j + 1] == q.measures[j];
      assert base.cols[i] in names;
      ByNameLookup(base.cols, names, first, base.cols[i]);
    }
  }

  lemma PivotAll(base: Rel, q: NativeQuery, units: seq<Unit>, picks: seq<nat>)
    requires q.PivotStruct? && NativeRule(base, q, base) && ValidUnits(Some(PivotKey(base.cols, q.key)), base.rows, units) && PicksIn(units, picks)
    ensures multiset(PivotRows(base.cols, q, units, picks)) == base.rows
  {
    forall i | 0 <= i < |units|
      ensures PivotRow(base.cols, q, Lookup(base.cols, units[i][0], q.key), units[i][picks[i]]) == ByName(base.cols, base.cols, units[i][picks[i]])
    {
      assert PivotKey(base.cols, q.key)(units[i][picks[i]])[0] == PivotKey(base.cols, q.key)(units[i][0])[0];
      PivotRowIs(base, q, units[i][0], units[i][picks[i]]);
    }
    assert PivotRows(base.cols, q, units, picks) == Firsts(base.cols, base.cols, units, picks);
    PivotIdentity(base, q.key, units, picks);
  }

  lemma PositionalAll(base: Rel, k: Rel, q: NativeQuery, s: seq<Row>, t: seq<Row>)
    requires q.PositionalJoin? && NativeRule(base, q, k) && ListedBy(k, q.key, s) && ListedBy(k, q.key, t) && |s| == |t|
    ensures multiset(PositionalRows(k.cols, q, s, t)) == base.rows
  {
    forall i | 0 <= i < |s|
      ensures PositionalRow(k.cols, q, s[i], t[i]) == ByName(k.cols, q.left, s[i]) + ByName(k.cols, q.right, t[i])
    {
      PositionalRowIs(k.cols, q, s[i], t[i]);
    }
    assert PositionalRows(k.cols, q, s, t) == Zipped(k.cols, q.left, q.right, s, t);
    PositionalRebuilds(base, k, q.key, q.left, q.right, s, t);
  }

  lemma RecursiveAll(w: World, base: Rel, n: nat)
    requires Shaped(base) && n >= 1
    ensures Recursion(FalseArm(w, base.cols), MapBag(base.rows, ByNameOf(base.cols, base.cols)), n) == base.rows
  {
    forall r | r in base.rows ensures ByNameOf(base.cols, base.cols)(r) == r { OwnColumns(base.cols, r); }
    MapIdentity(base.rows, ByNameOf(base.cols, base.cols));
    EmptyArmStops(w, base.cols, base.rows, n);
  }

  /** NATIVE RECOMBINATION. Whatever an engine may answer to one of these queries, as the builders put them
      together, is the base relation, columns and duplicates included. */
  lemma NativeMeans(w: World, base: Rel, q: NativeQuery, src: Rel, result: Rel)
    requires NativeRule(base, q, src) && MayReturn(w, q, src, result)
    ensures result == base
  {
    match q
    case PositionalJoin(key, _, _, _) =>
      var s, t :| ListedBy(src, key, s) && ListedBy(src, key, t) && |s| == |t| && result.rows == multiset(PositionalRows(src.cols, q, s, t));
      PositionalAll(base, src, q, s, t);
    case RecursiveCte(out) =>
      var n: nat :| n >= 1 && result.rows == Recursion(FalseArm(w, out), MapBag(src.rows, ByNameOf(src.cols, out)), n);
      RecursiveAll(w, base, n);
    case PivotStruct(key, _, _) =>
      var units, picks :| ValidUnits(Some(PivotKey(src.cols, key)), src.rows, units) && PicksIn(units, picks)
        && result.rows == multiset(PivotRows(src.cols, q, units, picks));
      PivotAll(base, q, units, picks);
  }

  lemma {:induction false} SortedIn(cols: seq<string>, key: string, s: seq<Row>, x: Row) returns (t: seq<Row>)
    requires SortedBy(cols, key, s)
    ensures SortedBy(cols, key, t) && multiset(t) == multiset(s) + multiset{x}
    decreases |s|
  {
    if s == [] || KeyOf(cols, key, s[|s| - 1]) <= KeyOf(cols, key, x) {
      t := s + [x];
    } else {
      var front, last := s[..|s| - 1], s[|s| - 1];
      var u := SortedIn(cols, key, front, x);
      t := u + [last];
      assert s == front + [last];
      forall i | 0 <= i < |u|
        ensures KeyOf(cols, key, u[i]) <= KeyOf(cols, key, last)
      {
        assert u[i] in multiset(u);
        if u[i] != x {
          assert u[i] in multiset(front);
          var j :| 0 <= j < |front| && front[j] == u[i];
          assert s[j] == u[i];
        }
      }
    }
  }

  lemma {:induction false} SortExists(cols: seq<string>, key: string, m: multiset<Row>) returns (s: seq<Row>)
    ensures multiset(s) == m && SortedBy(cols, key, s)
    decreases |m|
  {
    if m == multiset{} {
      s := [];
    } else {
      var x := Pick(m);
      s := SortExists(cols, key, m - multiset{x});
      s := SortedIn(cols, key, s, x);
    }
  }

  /** Every engine has an answer to give. */
  lemma NativeReturns(w: World, base: Rel, q: NativeQuery, src: Rel)
    requires NativeRule(base, q, src)
    ensures MayReturn(w, q, src, base)
  {
    match q
    case PositionalJoin(key, _, _, _) =>
      var s := SortExists(src.cols, key, src.rows);
      assert ListedBy(src, key, s);
      PositionalAll(base, src, q, s, s);
    case RecursiveCte(out) =>
      RecursiveAll(w, base, 1);
    case PivotStruct(key, _, _) =>
      var units := UnitsExist(Some(PivotKey(src.cols, key)), src.rows);
      var picks: seq<nat> := seq(|units|, _ => 0);
      assert PicksIn(units, picks);
      PivotAll(base, q, units, picks);
  }
}

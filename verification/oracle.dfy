/** The row oracle: two bags of rows compared exactly, then leftovers paired by closeness.

    Closeness stands for agreement up to a numeric tolerance. It is any relation here, because the
    tolerance is not transitive and the greedy pass depends on what it meets first. */
module Oracle {
  import opened Bags

  datatype MultisetDiff<T(==)> = MultisetDiff(
    equal: bool,
    onlyInBase: multiset<T>,
    onlyInOther: multiset<T>,
    reconciled: nat)

  // ---- what a comparison means --------------------------------------------------------------------

  ghost function First<T(!new)>(): ((T, T)) -> T { (p: (T, T)) => p.0 }

  ghost function Second<T(!new)>(): ((T, T)) -> T { (p: (T, T)) => p.1 }

  ghost function Twin<T(!new)>(): T -> (T, T) { (x: T) => (x, x) }

  ghost predicate Agree<T(!new)>(close: (T, T) -> bool, a: T, b: T) { a == b || close(a, b) }

  /** Pairs of one row of each side, each row used at most as often as it occurs, all pairs agreeing. */
  ghost predicate Matching<T(!new)>(base: multiset<T>, other: multiset<T>, close: (T, T) -> bool, pairs: multiset<(T, T)>) {
    && MapBag(pairs, First()) <= base && MapBag(pairs, Second()) <= other
    && forall p :: p in pairs ==> Agree(close, p.0, p.1)
  }

  /** A matching that uses every row of both sides. */
  ghost predicate Bijection<T(!new)>(base: multiset<T>, other: multiset<T>, close: (T, T) -> bool, pairs: multiset<(T, T)>) {
    Matching(base, other, close, pairs) && MapBag(pairs, First()) == base && MapBag(pairs, Second()) == other
  }

  /** A comparison accounts for every row: in common, paired by closeness, or reported. No pair of
      reported rows could still be matched. */
  ghost predicate Explains<T(!new)>(base: multiset<T>, other: multiset<T>, close: (T, T) -> bool, diff: MultisetDiff<T>, loose: multiset<(T, T)>) {
    && base == base * other + MapBag(loose, First()) + diff.onlyInBase
    && other == base * other + MapBag(loose, Second()) + diff.onlyInOther
    && LoosePairs(close, loose)
    && diff.reconciled == |loose|
    && (diff.equal <==> diff.onlyInBase == multiset{} && diff.onlyInOther == multiset{})
    && (forall a, b :: a in diff.onlyInBase && b in diff.onlyInOther ==> !Agree(close, a, b))
  }

  // ---- the comparison -----------------------------------------------------------------------------

  /** The keys of a counter, in the order it iterates them. */
  predicate Keys<T(==, !new)>(keys: seq<T>, m: multiset<T>) {
    && (forall i, j :: 0 <= i < j < |keys| ==> keys[i] != keys[j])
    && forall x :: x in m ==> x in keys
  }

  function Min(a: nat, b: nat): nat { if a <= b then a else b }

  /** The exact pass: rows both sides have are consumed from both. */
  method ConsumeExact<T(==, !new)>(base: multiset<T>, other: multiset<T>, baseKeys: seq<T>) returns (missing: multiset<T>, extra: multiset<T>)
    requires Keys(baseKeys, base)
    ensures missing == base - base * other && extra == other - base * other
  {
    missing, extra := base, other;
    for i := 0 to |baseKeys|
      invariant forall x :: missing[x] == if x in baseKeys[..i] then base[x] - Min(base[x], other[x]) else base[x]
      invariant forall x :: extra[x] == if x in baseKeys[..i] then other[x] - Min(base[x], other[x]) else other[x]
    {
      var row := baseKeys[i];
      assert row !in baseKeys[..i];
      var shared := Min(missing[row], extra[row]);
      if shared != 0 {
        missing := missing[row := missing[row] - shared];
        extra := extra[row := extra[row] - shared];
      }
      assert baseKeys[..i + 1] == baseKeys[..i] + [row];
    }
    assert baseKeys[..|baseKeys|] == baseKeys;
  }

  // ---- what the tolerant pass computes -------------------------------------------------------------

  /** What is left of both sides, and how many pairs needed the tolerance so far. */
  datatype Residue<T(==)> = Residue(missing: multiset<T>, extra: multiset<T>, reconciled: nat)

  /** One leftover of the base against one of the other side. */
  function PairOff<T(==)>(s: Residue<T>, row: T, candidate: T, close: (T, T) -> bool): Residue<T> {
    if candidate != row && close(row, candidate) then
      var shared := Min(s.missing[row], s.extra[candidate]);
      Residue(s.missing[row := s.missing[row] - shared], s.extra[candidate := s.extra[candidate] - shared], s.reconciled + shared)
    else s
  }

  function RowPass<T(==)>(s: Residue<T>, row: T, keys: seq<T>, close: (T, T) -> bool): Residue<T> {
    if keys == [] then s else PairOff(RowPass(s, row, keys[..|keys| - 1], close), row, keys[|keys| - 1], close)
  }

  function TolerantPass<T(==)>(s: Residue<T>, rows: seq<T>, keys: seq<T>, close: (T, T) -> bool): Residue<T> {
    if rows == [] then s else RowPass(TolerantPass(s, rows[..|rows| - 1], keys, close), rows[|rows| - 1], keys, close)
  }

  /** The comparison, for counters that iterate their keys in these orders. */
  function Compared<T(==)>(base: multiset<T>, other: multiset<T>, baseKeys: seq<T>, otherKeys: seq<T>, close: (T, T) -> bool): MultisetDiff<T> {
    var s := TolerantPass(Residue(base - base * other, other - base * other, 0), baseKeys, otherKeys, close);
    MultisetDiff(s.missing == multiset{} && s.extra == multiset{}, s.missing, s.extra, s.reconciled)
  }

  /** A row that is used up is paired no further. */
  lemma {:induction false} UsedUp<T>(s: Residue<T>, row: T, keys: seq<T>, j: nat, close: (T, T) -> bool)
    requires j <= |keys| && RowPass(s, row, keys[..j], close).missing[row] == 0
    ensures RowPass(s, row, keys, close) == RowPass(s, row, keys[..j], close)
    decreases |keys|
  {
    if j < |keys| {
      var front := keys[..|keys| - 1];
      assert front[..j] == keys[..j];
      UsedUp(s, row, front, j, close);
    } else {
      assert keys[..j] == keys;
    }
  }

  lemma NextKey<T>(s: Residue<T>, row: T, keys: seq<T>, j: nat, close: (T, T) -> bool)
    requires j < |keys|
    ensures RowPass(s, row, keys[..j + 1], close) == PairOff(RowPass(s, row, keys[..j], close), row, keys[j], close)
  {
    assert keys[..j + 1][..j] == keys[..j];
  }

  lemma NextRow<T>(s: Residue<T>, rows: seq<T>, i: nat, keys: seq<T>, close: (T, T) -> bool)
    requires i < |rows|
    ensures TolerantPass(s, rows[..i + 1], keys, close) == RowPass(TolerantPass(s, rows[..i], keys, close), rows[i], keys, close)
  {
    assert rows[..i + 1][..i] == rows[..i];
  }

  /** Which leftovers have been paired so far. */
  ghost predicate Paired<T(!new)>(start: multiset<T>, finish: multiset<T>, s: Residue<T>, close: (T, T) -> bool, loose: multiset<(T, T)>) {
    && start == s.missing + MapBag(loose, First()) && finish == s.extra + MapBag(loose, Second())
    && LoosePairs(close, loose) && s.reconciled == |loose|
  }

  /** Pairs of different rows that are close. */
  ghost predicate LoosePairs<T(!new)>(close: (T, T) -> bool, loose: multiset<(T, T)>) {
    forall p :: p in loose ==> p.0 != p.1 && close(p.0, p.1)
  }

  /** n copies of one element. */
  ghost function Copies<T(!new)>(p: T, n: nat): (m: multiset<T>)
    ensures forall x :: m[x] == if x == p then n else 0
    ensures |m| == n
  {
    if n == 0 then multiset{} else Copies(p, n - 1) + multiset{p}
  }

  lemma {:induction false} MapCopies<A(!new), B(!new)>(m: multiset<A>, p: A, n: nat, f: A -> B)
    ensures MapBag(m + Copies(p, n), f) == MapBag(m, f) + Copies(f(p), n)
    decreases n
  {
    if n == 0 {
      assert m + Copies(p, 0) == m;
      assert MapBag(m, f) + Copies(f(p), 0) == MapBag(m, f);
    } else {
      MapCopies(m, p, n - 1, f);
      assert m + Copies(p, n) == (m + Copies(p, n - 1)) + multiset{p};
      MapAdd(m + Copies(p, n - 1), p, f);
      assert Copies(f(p), n) == Copies(f(p), n - 1) + multiset{f(p)};
    }
  }

  /** Pairing n more copies of one row with n copies of another. */
  lemma PairMore<T(!new)>(start: multiset<T>, finish: multiset<T>, s: Residue<T>, close: (T, T) -> bool, loose: multiset<(T, T)>, a: T, b: T, n: nat)
    requires Paired(start, finish, s, close, loose) && a != b && close(a, b) && n <= s.missing[a] && n <= s.extra[b]
    ensures Paired(start, finish, Residue(s.missing[a := s.missing[a] - n], s.extra[b := s.extra[b] - n], s.reconciled + n), close, loose + Copies((a, b), n))
  {
    MorePairs(close, loose, a, b, n);
    MoreUsed(start, s.missing, loose, (a, b), a, n, First());
    MoreUsed(finish, s.extra, loose, (a, b), b, n, Second());
  }

  lemma MoreUsed<T(!new)>(total: multiset<T>, rest: multiset<T>, loose: multiset<(T, T)>, p: (T, T), x: T, n: nat, pick: ((T, T)) -> T)
    requires total == rest + MapBag(loose, pick) && pick(p) == x && n <= rest[x]
    ensures total == rest[x := rest[x] - n] + MapBag(loose + Copies(p, n), pick)
  {
    MapCopies(loose, p, n, pick);
    Taken(total, rest, MapBag(loose, pick), x, n);
  }

  lemma MorePairs<T(!new)>(close: (T, T) -> bool, loose: multiset<(T, T)>, a: T, b: T, n: nat)
    requires a != b && close(a, b) && LoosePairs(close, loose)
    ensures LoosePairs(close, loose + Copies((a, b), n))
    ensures |loose + Copies((a, b), n)| == |loose| + n
  {
    forall p | p in loose + Copies((a, b), n)
      ensures p.0 != p.1 && close(p.0, p.1)
    {
      assert p in loose || p == (a, b);
    }
  }

  /** Moving n copies from what is left to what is used keeps the total. */
  lemma Taken<T(!new)>(total: multiset<T>, rest: multiset<T>, used: multiset<T>, a: T, n: nat)
    requires total == rest + used && n <= rest[a]
    ensures total == rest[a := rest[a] - n] + (used + Copies(a, n))
  {
    forall x ensures total[x] == (rest[a := rest[a] - n] + (used + Copies(a, n)))[x] {}
  }

  /** Pairing one leftover with another. */
  lemma PairOffPaired<T(!new)>(start: multiset<T>, finish: multiset<T>, s: Residue<T>, row: T, candidate: T, close: (T, T) -> bool, loose: multiset<(T, T)>)
    returns (loose': multiset<(T, T)>)
    requires Paired(start, finish, s, close, loose)
    ensures var t := PairOff(s, row, candidate, close);
      && Paired(start, finish, t, close, loose') && t.missing <= s.missing && t.extra <= s.extra
      && (row in t.missing && candidate in t.extra && candidate != row ==> !close(row, candidate))
  {
    loose' := loose;
    PairOffClears(s, row, candidate, close);
    if candidate != row && close(row, candidate) {
      var shared := Min(s.missing[row], s.extra[candidate]);
      PairMore(start, finish, s, close, loose, row, candidate, shared);
      loose' := loose + Copies((row, candidate), shared);
    }
  }

  lemma PairOffClears<T>(s: Residue<T>, row: T, candidate: T, close: (T, T) -> bool)
    ensures var t := PairOff(s, row, candidate, close);
      && t.missing <= s.missing && t.extra <= s.extra
      && (row in t.missing && candidate in t.extra && candidate != row ==> !close(row, candidate))
  {
  }

  /** None of the keys can still be matched with row. */
  ghost predicate ClearOf<T(!new)>(row: T, keys: seq<T>, s: Residue<T>, close: (T, T) -> bool) {
    row in s.missing ==> forall l :: 0 <= l < |keys| && keys[l] in s.extra && keys[l] != row ==> !close(row, keys[l])
  }

  /** Pairing one leftover with every leftover of the other side. */
  lemma {:induction false} RowPassPaired<T(!new)>(start: multiset<T>, finish: multiset<T>, s: Residue<T>, row: T, keys: seq<T>, close: (T, T) -> bool, loose: multiset<(T, T)>)
    returns (loose': multiset<(T, T)>)
    requires Paired(start, finish, s, close, loose)
    ensures var t := RowPass(s, row, keys, close);
      Paired(start, finish, t, close, loose') && t.missing <= s.missing && t.extra <= s.extra && ClearOf(row, keys, t, close)
    decreases |keys|
  {
    if keys == [] {
      loose' := loose;
    } else {
      var k := |keys| - 1;
      var before := RowPass(s, row, keys[..k], close);
      var more := RowPassPaired(start, finish, s, row, keys[..k], close, loose);
      loose' := PairOffPaired(start, finish, before, row, keys[k], close, more);
      ClearNext(row, keys, before, PairOff(before, row, keys[k], close), close);
    }
  }

  lemma ClearNext<T(!new)>(row: T, keys: seq<T>, s: Residue<T>, t: Residue<T>, close: (T, T) -> bool)
    requires keys != [] && ClearOf(row, keys[..|keys| - 1], s, close) && t.missing <= s.missing && t.extra <= s.extra
    requires row in t.missing && keys[|keys| - 1] in t.extra && keys[|keys| - 1] != row ==> !close(row, keys[|keys| - 1])
    ensures ClearOf(row, keys, t, close)
  {
    forall l | row in t.missing && 0 <= l < |keys| && keys[l] in t.extra && keys[l] != row
      ensures !close(row, keys[l])
    {
      if l < |keys| - 1 { assert keys[..|keys| - 1][l] == keys[l]; }
    }
  }

  /** Nothing in extra can still be matched with row. */
  ghost predicate Unmatched<T(!new)>(row: T, s: Residue<T>, close: (T, T) -> bool) {
    row in s.missing ==> forall b :: b in s.extra && b != row ==> !close(row, b)
  }

  lemma ClearAll<T(!new)>(row: T, keys: seq<T>, extra: multiset<T>, s: Residue<T>, close: (T, T) -> bool)
    requires Keys(keys, extra) && s.extra <= extra && ClearOf(row, keys, s, close)
    ensures Unmatched(row, s, close)
  {
    forall b | row in s.missing && b in s.extra && b != row
      ensures !close(row, b)
    {
      assert b in extra;
      var l :| 0 <= l < |keys| && keys[l] == b;
    }
  }

  lemma {:induction false} PassPaired<T(!new)>(s: Residue<T>, rows: seq<T>, keys: seq<T>, extra: multiset<T>, close: (T, T) -> bool)
    returns (loose: multiset<(T, T)>)
    requires Keys(keys, extra) && s.extra <= extra && s.reconciled == 0
    ensures var t := TolerantPass(s, rows, keys, close);
      && Paired(s.missing, s.extra, t, close, loose) && t.missing <= s.missing && t.extra <= s.extra
      && AllUnmatched(rows, t, close)
    decreases |rows|
  {
    if rows == [] {
      loose := multiset{};
      assert s.missing + MapBag(loose, First()) == s.missing && s.extra + MapBag(loose, Second()) == s.extra;
    } else {
      var k := |rows| - 1;
      var before := TolerantPass(s, rows[..k], keys, close);
      var t := RowPass(before, rows[k], keys, close);
      loose := PassPaired(s, rows[..k], keys, extra, close);
      loose := RowPassPaired(s.missing, s.extra, before, rows[k], keys, close, loose);
      ClearAll(rows[k], keys, extra, t, close);
      UnmatchedNext(rows[..k], rows[k], before, t, close);
      assert rows[..k] + [rows[k]] == rows;
    }
  }

  ghost predicate AllUnmatched<T(!new)>(rows: seq<T>, s: Residue<T>, close: (T, T) -> bool) {
    forall l :: 0 <= l < |rows| ==> Unmatched(rows[l], s, close)
  }

  lemma UnmatchedNext<T(!new)>(rows: seq<T>, row: T, s: Residue<T>, t: Residue<T>, close: (T, T) -> bool)
    requires t.missing <= s.missing && t.extra <= s.extra && AllUnmatched(rows, s, close) && Unmatched(row, t, close)
    ensures AllUnmatched(rows + [row], t, close)
  {
    forall l | 0 <= l < |rows|
      ensures Unmatched(rows[l], t, close)
    {
      assert Unmatched(rows[l], s, close);
    }
  }

  // ---- the loops ----------------------------------------------------------------------------------

  /** One leftover of the base against every leftover of the other side, in order. */
  method Reconcile<T(==, !new)>(row: T, missing: multiset<T>, extra: multiset<T>, reconciled: nat, otherKeys: seq<T>, close: (T, T) -> bool)
    returns (missing': multiset<T>, extra': multiset<T>, reconciled': nat)
    ensures Residue(missing', extra', reconciled') == RowPass(Residue(missing, extra, reconciled), row, otherKeys, close)
  {
    missing', extra', reconciled' := missing, extra, reconciled;
    var snapshot := extra;
    ghost var first := Residue(missing, extra, reconciled);
    assert otherKeys[..0] == [];
    for j := 0 to |otherKeys|
      invariant extra' <= snapshot && Residue(missing', extra', reconciled') == RowPass(first, row, otherKeys[..j], close)
    {
      var candidate := otherKeys[j];
      NextKey(first, row, otherKeys, j, close);
      if snapshot[candidate] != 0 && candidate != row && close(row, candidate) {
        var shared := Min(missing'[row], extra'[candidate]);
        if shared != 0 {
          missing' := missing'[row := missing'[row] - shared];
          extra' := extra'[candidate := extra'[candidate] - shared];
          reconciled' := reconciled' + shared;
          if missing'[row] == 0 {
            UsedUp(first, row, otherKeys, j + 1, close);
            return;
          }
        } else {
          NoneThere(Residue(missing', extra', reconciled'), row, candidate, close);
        }
      } else {
        Skipped(Residue(missing', extra', reconciled'), row, candidate, snapshot, close);
      }
    }
    assert otherKeys[..|otherKeys|] == otherKeys;
  }

  lemma NoneThere<T>(s: Residue<T>, row: T, candidate: T, close: (T, T) -> bool)
    requires s.extra[candidate] == 0 || s.missing[row] == 0
    ensures PairOff(s, row, candidate, close) == s
  {
  }

  lemma Skipped<T>(s: Residue<T>, row: T, candidate: T, snapshot: multiset<T>, close: (T, T) -> bool)
    requires s.extra <= snapshot && (snapshot[candidate] == 0 || candidate == row || !close(row, candidate))
    ensures PairOff(s, row, candidate, close) == s
  {
    if snapshot[candidate] == 0 { NoneThere(s, row, candidate, close); }
  }

  method CompareMultisets<T(==, !new)>(base: multiset<T>, other: multiset<T>, baseKeys: seq<T>, otherKeys: seq<T>, close: (T, T) -> bool)
    returns (diff: MultisetDiff<T>)
    requires Keys(baseKeys, base) && Keys(otherKeys, other)
    ensures diff == Compared(base, other, baseKeys, otherKeys, close)
    ensures exists loose :: Explains(base, other, close, diff, loose)
  {
    var missing, extra := ConsumeExact(base, other, baseKeys);
    ghost var start := Residue(missing, extra, 0);
    var reconciled := 0;
    var snapshot := missing;
    for i := 0 to |baseKeys|
      invariant missing <= snapshot && Residue(missing, extra, reconciled) == TolerantPass(start, baseKeys[..i], otherKeys, close)
    {
      var row := baseKeys[i];
      ghost var before := Residue(missing, extra, reconciled);
      NextRow(start, baseKeys, i, otherKeys, close);
      RowPassShrinks(before, row, otherKeys, close);
      if snapshot[row] != 0 {
        missing, extra, reconciled := Reconcile(row, missing, extra, reconciled, otherKeys, close);
      } else {
        assert otherKeys[..0] == [];
        UsedUp(before, row, otherKeys, 0, close);
      }
    }
    assert baseKeys[..|baseKeys|] == baseKeys;
    diff := MultisetDiff(missing == multiset{} && extra == multiset{}, missing, extra, reconciled);
    ComparedExplains(base, other, baseKeys, otherKeys, close);
  }

  lemma {:induction false} RowPassShrinks<T>(s: Residue<T>, row: T, keys: seq<T>, close: (T, T) -> bool)
    ensures RowPass(s, row, keys, close).missing <= s.missing
    decreases |keys|
  {
    if keys != [] { RowPassShrinks(s, row, keys[..|keys| - 1], close); }
  }

  /** Whatever the order of the keys, the comparison accounts for every row and leaves no pair that could
      still be matched. */
  lemma ComparedExplains<T(!new)>(base: multiset<T>, other: multiset<T>, baseKeys: seq<T>, otherKeys: seq<T>, close: (T, T) -> bool)
    requires Keys(baseKeys, base) && Keys(otherKeys, other)
    ensures exists loose :: Explains(base, other, close, Compared(base, other, baseKeys, otherKeys, close), loose)
  {
    var start := Residue(base - base * other, other - base * other, 0);
    var s := TolerantPass(start, baseKeys, otherKeys, close);
    var loose := PassPaired(start, baseKeys, otherKeys, other, close);
    Concluded(base, other, baseKeys, close, s, loose);
    var diff := MultisetDiff(s.missing == multiset{} && s.extra == multiset{}, s.missing, s.extra, s.reconciled);
    assert diff == Compared(base, other, baseKeys, otherKeys, close);
    assert Explains(base, other, close, diff, loose);
  }

  lemma Split<T(!new)>(whole: multiset<T>, common: multiset<T>, used: multiset<T>, rest: multiset<T>)
    requires common <= whole && whole - common == rest + used
    ensures whole == common + used + rest
  {
    forall x ensures whole[x] == (common + used + rest)[x] {}
  }

  /** What the two passes together establish. */
  lemma Concluded<T(!new)>(base: multiset<T>, other: multiset<T>, baseKeys: seq<T>, close: (T, T) -> bool, s: Residue<T>, loose: multiset<(T, T)>)
    requires Keys(baseKeys, base) && Paired(base - base * other, other - base * other, s, close, loose)
    requires AllUnmatched(baseKeys, s, close)
    ensures Explains(base, other, close, MultisetDiff(s.missing == multiset{} && s.extra == multiset{}, s.missing, s.extra, s.reconciled), loose)
  {
    var start, finish := base - base * other, other - base * other;
    Split(base, base * other, MapBag(loose, First()), s.missing);
    Split(other, base * other, MapBag(loose, Second()), s.extra);
    forall a, b | a in s.missing && b in s.extra
      ensures !Agree(close, a, b)
    {
      assert a in start && b in finish;
      assert a in base && a in baseKeys;
      var l :| 0 <= l < |baseKeys| && baseKeys[l] == a;
      assert Unmatched(baseKeys[l], s, close);
    }
  }

  // ---- what the verdict is worth ------------------------------------------------------------------

  /** Every pair of the comparison: a row in common with itself, and the loose pairs. */
  ghost function AllPairs<T(!new)>(base: multiset<T>, other: multiset<T>, loose: multiset<(T, T)>): multiset<(T, T)> {
    MapBag(base * other, Twin()) + loose
  }

  lemma AllPairsSides<T(!new)>(base: multiset<T>, other: multiset<T>, loose: multiset<(T, T)>)
    ensures MapBag(AllPairs(base, other, loose), First()) == base * other + MapBag(loose, First())
    ensures MapBag(AllPairs(base, other, loose), Second()) == base * other + MapBag(loose, Second())
    ensures |AllPairs(base, other, loose)| == |base * other| + |loose|
  {
    var common := base * other;
    var twins := MapBag(common, Twin());
    MapUnion(twins, loose, First());
    MapUnion(twins, loose, Second());
    MapCompose(common, Twin(), First(), (x: T) => x);
    MapCompose(common, Twin(), Second(), (x: T) => x);
    MapIdentity(common, (x: T) => x);
    MapSize(common, Twin());
  }

  /** SOUNDNESS AND CONSERVATION. The pairs are a matching; on each side the matched and the reported
      rows add up; reconciled counts the pairs of different rows; and an equal verdict pairs every
      row of one side with a row of the other that is the same or close. */
  lemma VerdictSound<T(!new)>(base: multiset<T>, other: multiset<T>, close: (T, T) -> bool, diff: MultisetDiff<T>, loose: multiset<(T, T)>)
    requires Explains(base, other, close, diff, loose)
    ensures
      var pairs := AllPairs(base, other, loose);
      && Matching(base, other, close, pairs)
      && |base| == |pairs| + |diff.onlyInBase| && |other| == |pairs| + |diff.onlyInOther|
      && |FilterBag(pairs, (p: (T, T)) => p.0 != p.1)| == diff.reconciled
      && (diff.equal ==> Bijection(base, other, close, pairs))
  {
    var pairs := AllPairs(base, other, loose);
    AllPairsSides(base, other, loose);
    MapSize(pairs, First());
    MapSize(pairs, Second());
    forall p | p in pairs
      ensures Agree(close, p.0, p.1)
    {
      MapMember(base * other, Twin(), p);
    }
    LooseOnly(base, other, close, loose);
  }

  lemma LooseOnly<T(!new)>(base: multiset<T>, other: multiset<T>, close: (T, T) -> bool, loose: multiset<(T, T)>)
    requires LoosePairs(close, loose)
    ensures FilterBag(AllPairs(base, other, loose), (p: (T, T)) => p.0 != p.1) == loose
  {
    var twins := MapBag(base * other, Twin());
    var differ := (p: (T, T)) => p.0 != p.1;
    forall p | p in twins
      ensures !differ(p)
    {
      MapMember(base * other, Twin(), p);
    }
    FilterUnion(twins, loose, differ);
    FilterNothing(twins, differ);
    FilterAll(loose, differ);
  }

  /** One side of a matching covers at most the rows that the comparison covers there, when only
      rows without a residue count. */
  lemma CoveredSide<T(!new)>(side: multiset<T>, used: multiset<T>, residue: multiset<T>, other: multiset<(T, T)>, pick: ((T, T)) -> T)
    requires side == used + residue && MapBag(other, pick) <= side
    ensures |FilterBag(other, (p: (T, T)) => pick(p) !in residue)| <= |used|
  {
    var done := (x: T) => x !in residue;
    var q := (p: (T, T)) => pick(p) !in residue;
    var rows := MapBag(other, pick);
    FilterMap(other, pick, done, q);
    MapSize(FilterBag(other, q), pick);
    FilterCounts(rows, done);
    var kept := FilterBag(rows, done);
    assert kept <= used;
    SubBagSize(kept, used);
  }

  lemma SubBagSize<T(!new)>(a: multiset<T>, b: multiset<T>)
    requires a <= b
    ensures |a| <= |b|
  {
    assert b == a + (b - a);
  }

  /** Of two agreeing rows one is not reported. */
  lemma OneSideDone<T(!new)>(close: (T, T) -> bool, a: multiset<T>, b: multiset<T>, best: multiset<(T, T)>)
    requires forall p :: p in best ==> Agree(close, p.0, p.1)
    requires forall x, y :: x in a && y in b ==> !Agree(close, x, y)
    ensures |best| <= |FilterBag(best, (p: (T, T)) => First()(p) !in a)| + |FilterBag(best, (p: (T, T)) => Second()(p) !in b)|
  {
    var inA, inB := (p: (T, T)) => First()(p) !in a, (p: (T, T)) => Second()(p) !in b;
    FilterCounts(best, inA);
    FilterCounts(best, inB);
    forall p: (T, T) | p in best
      ensures inA(p) || inB(p)
    {
      assert Agree(close, p.0, p.1) && First()(p) == p.0 && Second()(p) == p.1;
      assert p.0 in a && p.1 in b ==> !Agree(close, p.0, p.1);
    }
    assert best <= FilterBag(best, inA) + FilterBag(best, inB);
    SubBagSize(best, FilterBag(best, inA) + FilterBag(best, inB));
  }

  /** HALF OF OPTIMAL. No matching along equal or close pairs covers more than twice as many rows. */
  lemma HalfOfOptimal<T(!new)>(base: multiset<T>, other: multiset<T>, close: (T, T) -> bool, diff: MultisetDiff<T>, loose: multiset<(T, T)>, best: multiset<(T, T)>)
    requires Explains(base, other, close, diff, loose) && Matching(base, other, close, best)
    ensures |best| <= 2 * |AllPairs(base, other, loose)|
  {
    var pairs := AllPairs(base, other, loose);
    AllPairsSides(base, other, loose);
    MapSize(pairs, First());
    MapSize(pairs, Second());
    CoveredSide(base, MapBag(pairs, First()), diff.onlyInBase, best, First());
    CoveredSide(other, MapBag(pairs, Second()), diff.onlyInOther, best, Second());
    OneSideDone(close, diff.onlyInBase, diff.onlyInOther, best);
  }

  // ---- when the verdict is exact --------------------------------------------------------------------

  ghost predicate Symmetric<T(!new)>(close: (T, T) -> bool) { forall x, y :: close(x, y) ==> close(y, x) }

  /** On these rows, what agrees with a row agrees with everything that row agrees with. */
  ghost predicate TransitiveOn<T(!new)>(close: (T, T) -> bool, rows: iset<T>) {
    forall x, y, z :: x in rows && y in rows && z in rows && Agree(close, x, y) && Agree(close, y, z) ==> Agree(close, x, z)
  }

  ghost predicate AllIn<T(!new)>(m: multiset<T>, rows: iset<T>) { forall x :: x in m ==> x in rows }

  /** The rows that agree with x. */
  ghost function ClassOf<T(!new)>(m: multiset<T>, close: (T, T) -> bool, x: T): multiset<T> {
    FilterBag(m, (y: T) => Agree(close, x, y))
  }

  ghost predicate PairsIn<T(!new)>(pairs: multiset<(T, T)>, close: (T, T) -> bool, rows: iset<T>) {
    forall p :: p in pairs ==> p.0 in rows && p.1 in rows && Agree(close, p.0, p.1)
  }

  lemma SameClass<T(!new)>(close: (T, T) -> bool, rows: iset<T>, x: T, p: (T, T))
    requires Symmetric(close) && TransitiveOn(close, rows) && x in rows && p.0 in rows && p.1 in rows && Agree(close, p.0, p.1)
    ensures Agree(close, x, p.0) <==> Agree(close, x, p.1)
  {
    assert Agree(close, p.1, p.0);
  }

  /** Paired rows are of one class. */
  lemma PairedClasses<T(!new)>(pairs: multiset<(T, T)>, close: (T, T) -> bool, rows: iset<T>, x: T)
    requires Symmetric(close) && TransitiveOn(close, rows) && x in rows && PairsIn(pairs, close, rows)
    ensures |ClassOf(MapBag(pairs, First()), close, x)| == |ClassOf(MapBag(pairs, Second()), close, x)|
  {
    var near := (y: T) => Agree(close, x, y);
    var q := (p: (T, T)) => Agree(close, x, p.0);
    forall p | p in pairs ensures q(p) == near(First()(p)) && q(p) == near(Second()(p)) { SameClass(close, rows, x, p); }
    FilterMap(pairs, First(), near, q);
    FilterMap(pairs, Second(), near, q);
    MapSize(FilterBag(pairs, q), First());
    MapSize(FilterBag(pairs, q), Second());
  }

  lemma MatchingIn<T(!new)>(base: multiset<T>, other: multiset<T>, close: (T, T) -> bool, pairs: multiset<(T, T)>, rows: iset<T>)
    requires Matching(base, other, close, pairs) && AllIn(base, rows) && AllIn(other, rows)
    ensures PairsIn(pairs, close, rows)
  {
    forall p | p in pairs
      ensures p.0 in rows && p.1 in rows
    {
      MapMember(pairs, First(), p.0);
      MapMember(pairs, Second(), p.1);
      assert First()(p) in MapBag(pairs, First()) && Second()(p) in MapBag(pairs, Second());
    }
  }

  /** The matched rows of a class balance, so the reported rows decide whether the totals agree. */
  lemma ClassGap<T(!new)>(base: multiset<T>, other: multiset<T>, close: (T, T) -> bool, diff: MultisetDiff<T>, loose: multiset<(T, T)>, rows: iset<T>, x: T)
    requires Explains(base, other, close, diff, loose) && Symmetric(close) && TransitiveOn(close, rows)
    requires AllIn(base, rows) && AllIn(other, rows) && x in rows
    ensures |ClassOf(base, close, x)| == |ClassOf(other, close, x)| <==> |ClassOf(diff.onlyInBase, close, x)| == |ClassOf(diff.onlyInOther, close, x)|
  {
    var pairs := AllPairs(base, other, loose);
    VerdictSound(base, other, close, diff, loose);
    AllPairsSides(base, other, loose);
    MatchingIn(base, other, close, pairs, rows);
    PairedClasses(pairs, close, rows, x);
    FilterUnion(MapBag(pairs, First()), diff.onlyInBase, (y: T) => Agree(close, x, y));
    FilterUnion(MapBag(pairs, Second()), diff.onlyInOther, (y: T) => Agree(close, x, y));
  }

  ghost predicate ClassesBalance<T(!new)>(base: multiset<T>, other: multiset<T>, close: (T, T) -> bool, rows: iset<T>) {
    forall x :: x in rows ==> |ClassOf(base, close, x)| == |ClassOf(other, close, x)|
  }

  /** CLASS BY CLASS. When closeness is transitive on the rows compared, the verdict is equal exactly when
      both sides have the same number of rows of every class. */
  lemma ExactForClasses<T(!new)>(base: multiset<T>, other: multiset<T>, close: (T, T) -> bool, diff: MultisetDiff<T>, loose: multiset<(T, T)>, rows: iset<T>)
    requires Explains(base, other, close, diff, loose) && Symmetric(close) && TransitiveOn(close, rows) && AllIn(base, rows) && AllIn(other, rows)
    ensures diff.equal <==> ClassesBalance(base, other, close, rows)
  {
    forall x | x in rows
      ensures |ClassOf(base, close, x)| == |ClassOf(other, close, x)| <==> |ClassOf(diff.onlyInBase, close, x)| == |ClassOf(diff.onlyInOther, close, x)|
    {
      ClassGap(base, other, close, diff, loose, rows, x);
    }
    if !diff.equal {
      var x := ResidueDecides(diff.onlyInBase, diff.onlyInOther, close);
      assert x in base || x in other;
      assert |ClassOf(base, close, x)| != |ClassOf(other, close, x)|;
    }
  }

  lemma ResidueDecides<T(!new)>(a: multiset<T>, b: multiset<T>, close: (T, T) -> bool) returns (x: T)
    requires a != multiset{} || b != multiset{}
    requires Symmetric(close) && forall y, z :: y in a && z in b ==> !Agree(close, y, z)
    ensures x in a + b && |ClassOf(a, close, x)| != |ClassOf(b, close, x)|
  {
    if a != multiset{} {
      x :| x in a;
      ResidueCounts(a, b, close, x);
    } else {
      x :| x in b;
      ResidueCounts(b, a, close, x);
    }
  }

  lemma ResidueCounts<T(!new)>(a: multiset<T>, b: multiset<T>, close: (T, T) -> bool, x: T)
    requires x in a && forall y, z :: y in a && z in b ==> !Agree(close, y, z)
    ensures |ClassOf(a, close, x)| > 0 && |ClassOf(b, close, x)| == 0
  {
    FilterMembers(a, (z: T) => Agree(close, x, z));
    FilterMembers(b, (z: T) => Agree(close, x, z));
    assert x in ClassOf(a, close, x);
    assert ClassOf(b, close, x) == multiset{};
  }

  ghost predicate CanMatch<T(!new)>(base: multiset<T>, other: multiset<T>, close: (T, T) -> bool) {
    exists pairs :: Bijection(base, other, close, pairs)
  }

  /** On these rows the verdict says equal exactly when every row can be matched. */
  ghost predicate Reliable<T(!new)>(close: (T, T) -> bool, rows: iset<T>) {
    forall base, other, diff, loose :: AllIn(base, rows) && AllIn(other, rows) && Explains(base, other, close, diff, loose)
      ==> (diff.equal <==> CanMatch(base, other, close))
  }

  lemma BalancedByMatching<T(!new)>(base: multiset<T>, other: multiset<T>, close: (T, T) -> bool, rows: iset<T>)
    requires Symmetric(close) && TransitiveOn(close, rows) && AllIn(base, rows) && AllIn(other, rows) && CanMatch(base, other, close)
    ensures ClassesBalance(base, other, close, rows)
  {
    var pairs :| Bijection(base, other, close, pairs);
    MatchingIn(base, other, close, pairs, rows);
    forall x | x in rows
      ensures |ClassOf(base, close, x)| == |ClassOf(other, close, x)|
    {
      PairedClasses(pairs, close, rows, x);
    }
  }

  /** Three rows of which the middle one agrees with both others, and these do not agree. */
  ghost predicate Bridge<T(!new)>(close: (T, T) -> bool, x: T, y: T, z: T) {
    Agree(close, x, y) && Agree(close, y, z) && !Agree(close, x, z)
  }

  /** A FAILURE NO ORDER AVOIDS. On a bridge the exact pass takes the middle row from both sides, and what
      is left cannot be paired: every outcome reports a difference although the rows can be matched. */
  lemma BridgeMisjudged<T(!new)>(close: (T, T) -> bool, x: T, y: T, z: T)
    requires Bridge(close, x, y, z)
    ensures CanMatch(multiset{x, y}, multiset{y, z}, close)
    ensures exists diff, loose :: Explains(multiset{x, y}, multiset{y, z}, close, diff, loose)
    ensures forall diff, loose :: Explains(multiset{x, y}, multiset{y, z}, close, diff, loose) ==> !diff.equal
  {
    BridgeMatched(close, x, y, z);
    BridgeOutcome(close, x, y, z);
    forall diff, loose | Explains(multiset{x, y}, multiset{y, z}, close, diff, loose)
      ensures !diff.equal
    {
      BridgeUnequal(close, x, y, z, diff, loose);
    }
  }

  lemma BridgeOutcome<T(!new)>(close: (T, T) -> bool, x: T, y: T, z: T)
    requires Bridge(close, x, y, z)
    ensures Explains(multiset{x, y}, multiset{y, z}, close, MultisetDiff(false, multiset{x}, multiset{z}, 0), multiset{})
  {
    var none: multiset<(T, T)> := multiset{};
    BridgeCommon(x, y, z);
    assert multiset{x, y} == multiset{y} + MapBag(none, First()) + multiset{x};
    assert multiset{y, z} == multiset{y} + MapBag(none, Second()) + multiset{z};
  }

  lemma BridgeUnequal<T(!new)>(close: (T, T) -> bool, x: T, y: T, z: T, diff: MultisetDiff<T>, loose: multiset<(T, T)>)
    requires Bridge(close, x, y, z) && Explains(multiset{x, y}, multiset{y, z}, close, diff, loose)
    ensures !diff.equal
  {
    var a, b := MapBag(loose, First()), MapBag(loose, Second());
    BridgeCommon(x, y, z);
    if p: (T, T) :| p in loose {
      MapMember(loose, First(), p.0);
      MapMember(loose, Second(), p.1);
      BridgePair(x, y, z, a, b, diff.onlyInBase, diff.onlyInOther, p);
    } else {
      assert a == multiset{} && multiset{x, y} == multiset{y} + a + diff.onlyInBase;
      assert multiset{x, y}[x] == multiset{y}[x] + diff.onlyInBase[x];
    }
  }

  lemma BridgeCommon<T(!new)>(x: T, y: T, z: T)
    requires x != y && y != z && x != z
    ensures multiset{x, y} * multiset{y, z} == multiset{y}
  {
    forall r ensures (multiset{x, y} * multiset{y, z})[r] == multiset{y}[r] {}
  }

  /** The only rows left to pair are the outer two. */
  lemma BridgePair<T(!new)>(x: T, y: T, z: T, a: multiset<T>, b: multiset<T>, restA: multiset<T>, restB: multiset<T>, p: (T, T))
    requires multiset{x, y} == multiset{y} + a + restA && multiset{y, z} == multiset{y} + b + restB && p.0 in a && p.1 in b
    ensures p.0 == x && p.1 == z
  {
    OneLeft(y, x, a, restA, p.0);
    assert multiset{z, y} == multiset{y, z};
    OneLeft(y, z, b, restB, p.1);
  }

  lemma OneLeft<T(!new)>(y: T, x: T, a: multiset<T>, rest: multiset<T>, r: T)
    requires multiset{x, y} == multiset{y} + a + rest && r in a
    ensures r == x
  {
    assert multiset{x, y}[r] == multiset{y}[r] + a[r] + rest[r];
  }

  lemma BridgeMatched<T(!new)>(close: (T, T) -> bool, x: T, y: T, z: T)
    requires Bridge(close, x, y, z)
    ensures CanMatch(multiset{x, y}, multiset{y, z}, close)
  {
    var pairs := multiset{(x, y)} + multiset{(y, z)};
    MapSingle((x, y), First());
    MapSingle((x, y), Second());
    MapAdd(multiset{(x, y)}, (y, z), First());
    MapAdd(multiset{(x, y)}, (y, z), Second());
    TwoRows(x, y);
    TwoRows(y, z);
    assert Bijection(multiset{x, y}, multiset{y, z}, close, pairs);
  }

  /** EXACT CONDITION. For a symmetric tolerance, the verdict on these rows says equal exactly when the rows
      can be matched if and only if the tolerance is transitive on them. */
  lemma ReliableExactly<T(!new)>(close: (T, T) -> bool, rows: iset<T>)
    requires Symmetric(close)
    ensures Reliable(close, rows) <==> TransitiveOn(close, rows)
  {
    if TransitiveOn(close, rows) {
      forall base, other, diff, loose | AllIn(base, rows) && AllIn(other, rows) && Explains(base, other, close, diff, loose)
        ensures diff.equal <==> CanMatch(base, other, close)
      {
        ExactForClasses(base, other, close, diff, loose, rows);
        if CanMatch(base, other, close) { BalancedByMatching(base, other, close, rows); }
        VerdictSound(base, other, close, diff, loose);
      }
    } else {
      var x, y, z :| x in rows && y in rows && z in rows && Bridge(close, x, y, z);
      BridgeMisjudged(close, x, y, z);
      assert AllIn(multiset{x, y}, rows) && AllIn(multiset{y, z}, rows);
    }
  }

  /** A bag compared with itself is equal, and nothing needed the tolerance. */
  lemma SameBags<T(!new)>(base: multiset<T>, close: (T, T) -> bool, diff: MultisetDiff<T>, loose: multiset<(T, T)>)
    requires Explains(base, base, close, diff, loose)
    ensures diff.equal && diff.reconciled == 0
  {
    MapSize(loose, First());
    assert base * base == base;
    NothingLeft(base, MapBag(loose, First()), diff.onlyInBase);
    NothingLeft(base, MapBag(loose, Second()), diff.onlyInOther);
  }

  lemma NothingLeft<T(!new)>(base: multiset<T>, used: multiset<T>, rest: multiset<T>)
    requires base == base + used + rest
    ensures used == multiset{} && rest == multiset{}
  {
    var whole := base + used;
    assert |whole + rest| == |whole| + |rest|;
    assert |whole| == |base| + |used|;
  }

  // ---- the tolerance ------------------------------------------------------------------------------

  const FLOAT_REL_TOL: real := 0.0001
  const FLOAT_ABS_TOL: real := 0.0005

  function Abs(x: real): real { if x < 0.0 then -x else x }

  function Larger(x: real, y: real): real { if x < y then y else x }

  /** Two finite numbers within the relative or the absolute tolerance. */
  predicate NumbersClose(a: real, b: real) {
    Abs(a - b) <= Larger(FLOAT_REL_TOL * Larger(Abs(a), Abs(b)), FLOAT_ABS_TOL)
  }

  /** Within the absolute tolerance, or within the relative one of either number. */
  lemma ClosenessExactly(a: real, b: real)
    ensures NumbersClose(a, b) <==>
      (a - b <= 0.0005 && b - a <= 0.0005) || (exists c :: (c == a || c == b) && 10000.0 * Abs(a - b) <= Abs(c))
  {
    var limit := Larger(Abs(a), Abs(b));
    assert limit == Abs(a) || limit == Abs(b);
    if exists c :: (c == a || c == b) && 10000.0 * Abs(a - b) <= Abs(c) {
      assert 10000.0 * Abs(a - b) <= limit;
    }
  }

  /** A relation under which one row of each side agrees with both rows of the other, and the other
      two do not agree. */
  ghost predicate Chain<T(!new)>(close: (T, T) -> bool, a1: T, a2: T, b1: T, b2: T) {
    && a1 != a2 && b1 != b2 && a1 != b1 && a1 != b2 && a2 != b1 && a2 != b2
    && close(a1, b1) && close(a1, b2) && close(a2, b1) && !close(a2, b2)
  }

  /** The tolerance is symmetric, and on these three numbers it is not transitive. */
  lemma ToleranceBridges()
    ensures Symmetric(NumbersClose) && Bridge(NumbersClose, 0.0, 0.0005, 0.001)
  {
  }

  lemma TwoRows<T(!new)>(a: T, b: T)
    requires a != b
    ensures multiset{a, b} == multiset{a} + multiset{b}
  {
  }

  lemma ChainApart<T(!new)>(close: (T, T) -> bool, a1: T, a2: T, b1: T, b2: T)
    requires Chain(close, a1, a2, b1, b2)
    ensures multiset{a1, a2} * multiset{b1, b2} == multiset{}
  {
    forall x ensures (multiset{a1, a2} * multiset{b1, b2})[x] == 0 {}
  }

  /** What is left after one key. */
  lemma OneKey<T(!new)>(s: Residue<T>, row: T, key: T, close: (T, T) -> bool)
    requires s.missing[row] == 1 && s.extra[key] == 1 && key != row
    ensures PairOff(s, row, key, close) == if close(row, key) then Residue(s.missing - multiset{row}, s.extra - multiset{key}, s.reconciled + 1) else s
  {
    assert s.missing[row := 0] == s.missing - multiset{row};
    assert s.extra[key := 0] == s.extra - multiset{key};
  }

  lemma TwoKeys<T(!new)>(s: Residue<T>, row: T, k: T, l: T, close: (T, T) -> bool)
    ensures RowPass(s, row, [k, l], close) == PairOff(PairOff(s, row, k, close), row, l, close)
  {
    assert [k, l][..1] == [k] && [k][..0] == [];
    assert RowPass(s, row, [k], close) == PairOff(s, row, k, close);
  }

  lemma TwoPasses<T(!new)>(s: Residue<T>, a: T, b: T, keys: seq<T>, close: (T, T) -> bool)
    ensures TolerantPass(s, [a, b], keys, close) == RowPass(RowPass(s, a, keys, close), b, keys, close)
  {
    assert [a, b][..1] == [a] && [a][..0] == [];
    assert TolerantPass(s, [a], keys, close) == RowPass(s, a, keys, close);
  }

  /** The passes over two rows and two keys, when the first row takes the first key. */
  lemma FirstTakesFirst<T(!new)>(close: (T, T) -> bool, a1: T, a2: T, k: T, l: T)
    requires a1 != a2 && k != l && a1 != k && a1 != l && a2 != k && a2 != l && close(a1, k)
    ensures
      var t := Residue(multiset{a2}, multiset{l}, 1);
      TolerantPass(Residue(multiset{a1, a2}, multiset{k, l}, 0), [a1, a2], [k, l], close)
        == if close(a2, l) then Residue(multiset{}, multiset{}, 2) else t
  {
    var s := Residue(multiset{a1, a2}, multiset{k, l}, 0);
    var t := Residue(multiset{a2}, multiset{l}, 1);
    FirstTaken(close, a1, a2, k, l);
    NoneThere(t, a1, l, close);
    TwoKeys(s, a1, k, l, close);
    NoneThere(t, a2, k, close);
    LastTaken(close, a2, l);
    TwoKeys(t, a2, k, l, close);
    TwoPasses(s, a1, a2, [k, l], close);
  }

  lemma OneOfTwo<T(!new)>(a: T, b: T)
    requires a != b
    ensures multiset{a, b} - multiset{a} == multiset{b}
  {
  }

  lemma FirstTaken<T(!new)>(close: (T, T) -> bool, a1: T, a2: T, k: T, l: T)
    requires a1 != a2 && k != l && a1 != k && close(a1, k)
    ensures PairOff(Residue(multiset{a1, a2}, multiset{k, l}, 0), a1, k, close) == Residue(multiset{a2}, multiset{l}, 1)
  {
    OneKey(Residue(multiset{a1, a2}, multiset{k, l}, 0), a1, k, close);
    OneOfTwo(a1, a2);
    OneOfTwo(k, l);
  }

  lemma LastTaken<T(!new)>(close: (T, T) -> bool, a: T, l: T)
    requires a != l
    ensures PairOff(Residue(multiset{a}, multiset{l}, 1), a, l, close) == if close(a, l) then Residue(multiset{}, multiset{}, 2) else Residue(multiset{a}, multiset{l}, 1)
  {
    OneKey(Residue(multiset{a}, multiset{l}, 1), a, l, close);
  }

  /** Meeting the middle row first, the passes report a difference; meeting it last, they match all rows. */
  lemma ChainOrders<T(!new)>(close: (T, T) -> bool, a1: T, a2: T, b1: T, b2: T)
    requires Chain(close, a1, a2, b1, b2)
    ensures Compared(multiset{a1, a2}, multiset{b1, b2}, [a1, a2], [b1, b2], close) == MultisetDiff(false, multiset{a2}, multiset{b2}, 1)
    ensures Compared(multiset{a1, a2}, multiset{b1, b2}, [a1, a2], [b2, b1], close) == MultisetDiff(true, multiset{}, multiset{}, 2)
  {
    var base, other := multiset{a1, a2}, multiset{b1, b2};
    ChainApart(close, a1, a2, b1, b2);
    assert base - base * other == base && other - base * other == other && multiset{b2, b1} == other;
    FirstTakesFirst(close, a1, a2, b1, b2);
    FirstTakesFirst(close, a1, a2, b2, b1);
  }

  /** THE ORDER DECIDES. On a chain the two passes report a difference or none, depending on the order in
      which a counter iterates its keys; the tolerance has such chains. */
  lemma OrderDecides()
    ensures Chain(NumbersClose, 0.0004, 0.0012, 0.0008, 0.0)
    ensures Compared(multiset{0.0004, 0.0012}, multiset{0.0008, 0.0}, [0.0004, 0.0012], [0.0008, 0.0], NumbersClose)
      == MultisetDiff(false, multiset{0.0012}, multiset{0.0}, 1)
    ensures Compared(multiset{0.0004, 0.0012}, multiset{0.0008, 0.0}, [0.0004, 0.0012], [0.0, 0.0008], NumbersClose)
      == MultisetDiff(true, multiset{}, multiset{}, 2)
  {
    assert Chain(NumbersClose, 0.0004, 0.0012, 0.0008, 0.0);
    ChainOrders(NumbersClose, 0.0004, 0.0012, 0.0008, 0.0);
  }
}

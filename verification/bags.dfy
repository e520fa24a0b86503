/** Finite bags: the rows of a relation, where duplicates count and order does not. */
module Bags {
  datatype Option<+T> = None | Some(value: T)

  // ---- images and filters -------------------------------------------------------------------

  ghost function Pick<A>(m: multiset<A>): (x: A)
    requires m != multiset{}
    ensures x in m
  {
    var x :| x in m;
    x
  }

  /** The image of a bag under f, with multiplicities. */
  ghost function MapBag<A, B>(m: multiset<A>, f: A -> B): multiset<B>
    decreases |m|
  {
    if m == multiset{} then multiset{}
    else MapBag(m - multiset{Pick(m)}, f) + multiset{f(Pick(m))}
  }

  /** The elements of a bag that satisfy p, with their multiplicities. */
  ghost function FilterBag<A>(m: multiset<A>, p: A -> bool): multiset<A>
    decreases |m|
  {
    if m == multiset{} then multiset{}
    else
      var x := Pick(m);
      FilterBag(m - multiset{x}, p) + (if p(x) then multiset{x} else multiset{})
  }

  /** The bag with every multiplicity cut down to one: SELECT DISTINCT. */
  ghost function Distinct<A>(m: multiset<A>): multiset<A> {
    multiset(set x | x in m)
  }

  lemma {:induction false} MapAdd<A, B>(m: multiset<A>, x: A, f: A -> B)
    ensures MapBag(m + multiset{x}, f) == MapBag(m, f) + multiset{f(x)}
    decreases |m|
  {
    var mx := m + multiset{x};
    var y := Pick(mx);
    if y == x {
      assert mx - multiset{x} == m;
    } else {
      var rest := m - multiset{y};
      calc {
        MapBag(mx, f);
        MapBag(mx - multiset{y}, f) + multiset{f(y)};
        { assert mx - multiset{y} == rest + multiset{x}; }
        MapBag(rest + multiset{x}, f) + multiset{f(y)};
        { MapAdd(rest, x, f); }
        MapBag(rest, f) + multiset{f(x)} + multiset{f(y)};
        MapBag(rest, f) + multiset{f(y)} + multiset{f(x)};
        { MapAdd(rest, y, f); assert rest + multiset{y} == m; }
        MapBag(m, f) + multiset{f(x)};
      }
    }
  }

  lemma MapSingle<A, B>(x: A, f: A -> B)
    ensures MapBag(multiset{x}, f) == multiset{f(x)}
  {
    var none: multiset<A> := multiset{};
    MapAdd(none, x, f);
    assert none + multiset{x} == multiset{x};
  }

  lemma MapRemove<A, B>(m: multiset<A>, x: A, f: A -> B)
    requires x in m
    ensures MapBag(m, f) == MapBag(m - multiset{x}, f) + multiset{f(x)}
  {
    MapAdd(m - multiset{x}, x, f);
    assert (m - multiset{x}) + multiset{x} == m;
  }

  lemma {:induction false} MapUnion<A, B>(a: multiset<A>, b: multiset<A>, f: A -> B)
    ensures MapBag(a + b, f) == MapBag(a, f) + MapBag(b, f)
    decreases |b|
  {
    if b == multiset{} {
      assert a + b == a;
    } else {
      var x := Pick(b);
      var rest := b - multiset{x};
      calc {
        MapBag(a + b, f);
        { MapRemove(a + b, x, f); assert (a + b) - multiset{x} == a + rest; }
        MapBag(a + rest, f) + multiset{f(x)};
        { MapUnion(a, rest, f); }
        (MapBag(a, f) + MapBag(rest, f)) + multiset{f(x)};
        MapBag(a, f) + MapBag(b, f);
      }
    }
  }

  lemma {:induction false} MapCong<A, B>(m: multiset<A>, f: A -> B, g: A -> B)
    requires forall x :: x in m ==> f(x) == g(x)
    ensures MapBag(m, f) == MapBag(m, g)
    decreases |m|
  {
    if m != multiset{} {
      MapCong(m - multiset{Pick(m)}, f, g);
    }
  }

  lemma {:induction false} MapCompose<A, B, C>(m: multiset<A>, f: A -> B, g: B -> C, h: A -> C)
    requires forall x :: x in m ==> h(x) == g(f(x))
    ensures MapBag(MapBag(m, f), g) == MapBag(m, h)
    decreases |m|
  {
    if m != multiset{} {
      var x := Pick(m);
      var rest := m - multiset{x};
      MapCompose(rest, f, g, h);
      MapAdd(MapBag(rest, f), f(x), g);
    }
  }

  lemma {:induction false} MapIdentity<A>(m: multiset<A>, f: A -> A)
    requires forall x :: x in m ==> f(x) == x
    ensures MapBag(m, f) == m
    decreases |m|
  {
    if m != multiset{} {
      MapIdentity(m - multiset{Pick(m)}, f);
    }
  }

  lemma {:induction false} MapMember<A, B>(m: multiset<A>, f: A -> B, y: B)
    ensures y in MapBag(m, f) <==> exists x :: x in m && f(x) == y
    decreases |m|
  {
    if m != multiset{} {
      MapMember(m - multiset{Pick(m)}, f, y);
    }
  }

  lemma {:induction false} MapSize<A, B>(m: multiset<A>, f: A -> B)
    ensures |MapBag(m, f)| == |m|
    decreases |m|
  {
    if m != multiset{} {
      MapSize(m - multiset{Pick(m)}, f);
    }
  }

  lemma {:induction false} FilterCount<A>(m: multiset<A>, p: A -> bool, x: A)
    ensures FilterBag(m, p)[x] == if p(x) then m[x] else 0
    decreases |m|
  {
    if m != multiset{} {
      FilterCount(m - multiset{Pick(m)}, p, x);
    }
  }

  /** The multiplicities of a filtered bag, for every element at once. */
  lemma FilterCounts<A(!new)>(m: multiset<A>, p: A -> bool)
    ensures forall x :: FilterBag(m, p)[x] == if p(x) then m[x] else 0
  {
    forall x { FilterCount(m, p, x); }
  }

  lemma FilterAdd<A(!new)>(m: multiset<A>, x: A, p: A -> bool)
    ensures FilterBag(m + multiset{x}, p) == FilterBag(m, p) + (if p(x) then multiset{x} else multiset{})
  {
    var l, r := FilterBag(m + multiset{x}, p), FilterBag(m, p) + (if p(x) then multiset{x} else multiset{});
    forall y
      ensures l[y] == r[y]
    {
      FilterCount(m, p, y);
      FilterCount(m + multiset{x}, p, y);
    }
  }

  lemma {:induction false} FilterCong<A>(m: multiset<A>, p: A -> bool, q: A -> bool)
    requires forall x :: x in m ==> p(x) == q(x)
    ensures FilterBag(m, p) == FilterBag(m, q)
    decreases |m|
  {
    if m != multiset{} {
      FilterCong(m - multiset{Pick(m)}, p, q);
    }
  }

  /** Filtering an image is the image of filtering. */
  lemma {:induction false} FilterMap<A, B(!new)>(m: multiset<A>, f: A -> B, p: B -> bool, q: A -> bool)
    requires forall x :: x in m ==> q(x) == p(f(x))
    ensures FilterBag(MapBag(m, f), p) == MapBag(FilterBag(m, q), f)
    decreases |m|
  {
    if m != multiset{} {
      var x := Pick(m);
      var rest := m - multiset{x};
      FilterMap(rest, f, p, q);
      FilterAdd(MapBag(rest, f), f(x), p);
      if q(x) {
        MapAdd(FilterBag(rest, q), x, f);
      } else {
        assert FilterBag(rest, q) + multiset{} == FilterBag(rest, q);
      }
    }
  }

  /** An image under a map that is one-to-one on the bag keeps every multiplicity. */
  lemma {:induction false} MapInjective<A, B>(m: multiset<A>, f: A -> B, x: A)
    requires forall y :: y in m && f(y) == f(x) ==> y == x
    ensures MapBag(m, f)[f(x)] == m[x]
    decreases |m|
  {
    if m != multiset{} {
      var y := Pick(m);
      MapInjective(m - multiset{y}, f, x);
    }
  }

  // ---- enumerations -------------------------------------------------------------------------

  /** The sequence of f over s. */
  ghost function MapSeq<A, B>(s: seq<A>, f: A -> B): seq<B> {
    seq(|s|, i requires 0 <= i < |s| => f(s[i]))
  }

  /** The bag of a list, split before its last element. */
  lemma LastBag<A>(s: seq<A>)
    requires s != []
    ensures multiset(s) == multiset(s[..|s| - 1]) + multiset{s[|s| - 1]}
  {
    assert s == s[..|s| - 1] + [s[|s| - 1]];
  }

  lemma MapSeqPrefix<A, B>(s: seq<A>, f: A -> B)
    requires s != []
    ensures MapSeq(s, f)[..|s| - 1] == MapSeq(s[..|s| - 1], f) && |MapSeq(s, f)| == |s| && MapSeq(s, f)[|s| - 1] == f(s[|s| - 1])
  {
  }

  lemma {:induction false} MapSeqBag<A, B>(s: seq<A>, f: A -> B)
    ensures multiset(MapSeq(s, f)) == MapBag(multiset(s), f)
  {
    if s != [] {
      var k := |s| - 1;
      MapSeqBag(s[..k], f);
      MapAdd(multiset(s[..k]), s[k], f);
      LastBag(s);
      MapSeqPrefix(s, f);
      LastBag(MapSeq(s, f));
    }
  }

  /** The elements of s whose flag is set, in order. */
  ghost function Collect<T>(s: seq<T>, keep: seq<bool>): (r: seq<T>)
    requires |s| == |keep|
  {
    if s == [] then []
    else Collect(s[..|s| - 1], keep[..|s| - 1]) + (if keep[|s| - 1] then [s[|s| - 1]] else [])
  }

  lemma {:induction false} CollectAll<T>(s: seq<T>, keep: seq<bool>)
    requires |s| == |keep| && forall i :: 0 <= i < |s| ==> keep[i]
    ensures Collect(s, keep) == s
  {
    if s != [] {
      CollectAll(s[..|s| - 1], keep[..|s| - 1]);
    }
  }

  lemma {:induction false} CollectMember<T>(s: seq<T>, keep: seq<bool>, x: T)
    requires |s| == |keep|
    ensures x in Collect(s, keep) <==> exists i :: 0 <= i < |s| && keep[i] && s[i] == x
  {
    if s != [] {
      var k := |s| - 1;
      CollectMember(s[..k], keep[..k], x);
      forall i | 0 <= i < |s| && keep[i] && s[i] == x
        ensures x in Collect(s, keep)
      {
        if i < k { assert s[..k][i] == x && keep[..k][i]; }
      }
      if x in Collect(s[..k], keep[..k]) {
        var i :| 0 <= i < k && keep[..k][i] && s[..k][i] == x;
        assert keep[i] && s[i] == x;
      }
    }
  }

  /** Every bag can be listed. */
  lemma {:induction false} Enumeration<A>(m: multiset<A>) returns (s: seq<A>)
    ensures multiset(s) == m
    decreases |m|
  {
    if m == multiset{} {
      s := [];
    } else {
      var x :| x in m;
      var t := Enumeration(m - multiset{x});
      s := t + [x];
      assert (m - multiset{x}) + multiset{x} == m;
    }
  }

  /** A list without repeats holds each of its elements once. */
  lemma {:induction false} DistinctList<A>(s: seq<A>)
    requires forall i, j :: 0 <= i < j < |s| ==> s[i] != s[j]
    ensures multiset(s) == multiset(set x | x in s)
  {
    if s != [] {
      var k := |s| - 1;
      DistinctList(s[..k]);
      assert s == s[..k] + [s[k]];
      assert s[k] !in s[..k];
      assert (set x | x in s) == (set x | x in s[..k]) + {s[k]};
    }
  }

  lemma FilterUnion<A(!new)>(a: multiset<A>, b: multiset<A>, p: A -> bool)
    ensures FilterBag(a + b, p) == FilterBag(a, p) + FilterBag(b, p)
  {
    var l, r := FilterBag(a + b, p), FilterBag(a, p) + FilterBag(b, p);
    forall x
      ensures l[x] == r[x]
    {
      FilterCount(a, p, x);
      FilterCount(b, p, x);
      FilterCount(a + b, p, x);
    }
  }

  lemma FilterMembers<A(!new)>(m: multiset<A>, p: A -> bool)
    ensures forall x :: x in FilterBag(m, p) <==> x in m && p(x)
  {
    FilterCounts(m, p);
  }

  lemma FilterAll<A(!new)>(m: multiset<A>, p: A -> bool)
    requires forall x :: x in m ==> p(x)
    ensures FilterBag(m, p) == m
  {
    forall x ensures FilterBag(m, p)[x] == m[x] { FilterCount(m, p, x); }
  }

  lemma FilterNothing<A(!new)>(m: multiset<A>, p: A -> bool)
    requires forall x :: x in m ==> !p(x)
    ensures FilterBag(m, p) == multiset{}
  {
    forall x ensures FilterBag(m, p)[x] == 0 { FilterCount(m, p, x); }
  }

  /** A map that is one-to-one on a bag commutes with DISTINCT. */
  lemma DistinctImage<A(!new), B(!new)>(m: multiset<A>, f: A -> B)
    requires forall x, y :: x in m && y in m && f(x) == f(y) ==> x == y
    ensures Distinct(MapBag(m, f)) == MapBag(Distinct(m), f)
  {
    var l, r := Distinct(MapBag(m, f)), MapBag(Distinct(m), f);
    forall y
      ensures l[y] == r[y]
    {
      MapMember(m, f, y);
      MapMember(Distinct(m), f, y);
      if y in MapBag(m, f) {
        var x :| x in m && f(x) == y;
        MapInjective(Distinct(m), f, x);
      }
    }
  }

  lemma FilterStep<A(!new)>(m: multiset<A>, x: A, p: A -> bool)
    ensures FilterBag(m + multiset{x}, p) == if p(x) then FilterBag(m, p) + multiset{x} else FilterBag(m, p)
  {
    FilterAdd(m, x, p);
    assert FilterBag(m, p) + multiset{} == FilterBag(m, p);
  }

  lemma FilterDistinct<A(!new)>(m: multiset<A>, p: A -> bool)
    ensures FilterBag(Distinct(m), p) == Distinct(FilterBag(m, p))
  {
    var l, r := FilterBag(Distinct(m), p), Distinct(FilterBag(m, p));
    forall x
      ensures l[x] == r[x]
    {
      FilterCount(m, p, x);
      FilterCount(Distinct(m), p, x);
    }
  }

  /** One more element, filtered and mapped. */
  lemma FilterMapStep<A(!new), B>(m: multiset<A>, x: A, f: A -> B, p: A -> bool)
    ensures MapBag(FilterBag(m + multiset{x}, p), f) == if p(x) then MapBag(FilterBag(m, p), f) + multiset{f(x)} else MapBag(FilterBag(m, p), f)
  {
    FilterStep(m, x, p);
    if p(x) { MapAdd(FilterBag(m, p), x, f); }
  }

  lemma CollectLast<T>(s: seq<T>, keep: seq<bool>)
    requires |s| == |keep| && s != []
    ensures
      var k := |s| - 1;
      multiset(Collect(s, keep)) == if keep[k] then multiset(Collect(s[..k], keep[..k])) + multiset{s[k]} else multiset(Collect(s[..k], keep[..k]))
  {
    var k := |s| - 1;
    var before := Collect(s[..k], keep[..k]);
    if keep[k] {
      assert Collect(s, keep) == before + [s[k]];
    } else {
      assert Collect(s, keep) == before + [] == before;
    }
  }

  /** Filtering and mapping the elements of a list is keeping its flagged images. */
  lemma {:induction false} CollectImage<A(!new), B>(s: seq<A>, f: A -> B, p: A -> bool, keep: seq<bool>)
    requires |keep| == |s| && forall i :: 0 <= i < |s| ==> keep[i] == p(s[i])
    ensures MapBag(FilterBag(multiset(s), p), f) == multiset(Collect(MapSeq(s, f), keep))
  {
    if s != [] {
      var k := |s| - 1;
      CollectImage(s[..k], f, p, keep[..k]);
      LastBag(s);
      FilterMapStep(multiset(s[..k]), s[k], f, p);
      MapSeqPrefix(s, f);
      CollectLast(MapSeq(s, f), keep);
    }
  }

  /** Which positions hold the first occurrence of their element. */
  ghost predicate FirstFlags<T>(s: seq<T>, keep: seq<bool>) {
    |s| == |keep| && forall i :: 0 <= i < |s| ==> (keep[i] <==> s[i] !in s[..i])
  }

  lemma FirstFlagsPrefix<T>(s: seq<T>, keep: seq<bool>)
    requires FirstFlags(s, keep) && s != []
    ensures FirstFlags(s[..|s| - 1], keep[..|s| - 1])
  {
    var k := |s| - 1;
    forall i | 0 <= i < k
      ensures keep[..k][i] <==> s[..k][i] !in s[..k][..i]
    {
      assert s[..k][..i] == s[..i];
    }
  }

  lemma InLast<T>(s: seq<T>, x: T)
    requires s != []
    ensures x in s <==> x in s[..|s| - 1] || x == s[|s| - 1]
  {
    assert s == s[..|s| - 1] + [s[|s| - 1]];
  }

  lemma {:induction false} FirstCount<T>(s: seq<T>, keep: seq<bool>, x: T)
    requires FirstFlags(s, keep)
    ensures multiset(Collect(s, keep))[x] == if x in s then 1 else 0
  {
    if s != [] {
      FirstFlagsPrefix(s, keep);
      FirstCount(s[..|s| - 1], keep[..|s| - 1], x);
      CollectLast(s, keep);
      InLast(s, x);
    }
  }

  /** Keeping the first occurrence of every element is DISTINCT. */
  lemma FirstOccurrences<T(!new)>(s: seq<T>, keep: seq<bool>)
    requires FirstFlags(s, keep)
    ensures multiset(Collect(s, keep)) == Distinct(multiset(s))
  {
    forall x
      ensures multiset(Collect(s, keep))[x] == Distinct(multiset(s))[x]
    {
      FirstCount(s, keep, x);
      assert x in multiset(s) <==> x in s;
    }
  }

  // ---- products -----------------------------------------------------------------------------

  /** All pairs of an element of a and an element of b. */
  ghost function Product<A, B>(a: multiset<A>, b: multiset<B>): multiset<(A, B)>
    decreases |a|
  {
    if a == multiset{} then multiset{}
    else
      var x := Pick(a);
      Product(a - multiset{x}, b) + MapBag(b, y => (x, y))
  }

  lemma PairsWith<A, B>(x: A, b: multiset<B>, u: A, v: B)
    ensures MapBag(b, y => (x, y))[(u, v)] == if u == x then b[v] else 0
  {
    var f := y => (x, y);
    if u == x {
      MapInjective(b, f, v);
      assert f(v) == (u, v);
    } else {
      MapMember(b, f, (u, v));
    }
  }

  lemma ProductStep<A, B>(a: multiset<A>, b: multiset<B>, u: A, v: B)
    requires a != multiset{}
    ensures
      var rest := a - multiset{Pick(a)};
      && a[u] == rest[u] + (if u == Pick(a) then 1 else 0)
      && Product(a, b)[(u, v)] == Product(rest, b)[(u, v)] + (if u == Pick(a) then b[v] else 0)
  {
    PairsWith(Pick(a), b, u, v);
  }

  lemma OneMore(n: nat, k: nat)
    ensures n * k + k == (n + 1) * k
  {
  }

  lemma {:induction false} ProductCount<A, B>(a: multiset<A>, b: multiset<B>, u: A, v: B)
    ensures Product(a, b)[(u, v)] == a[u] * b[v]
    decreases |a|
  {
    if a != multiset{} {
      var rest := a - multiset{Pick(a)};
      ProductCount(rest, b, u, v);
      ProductStep(a, b, u, v);
      OneMore(rest[u], b[v]);
    }
  }
}

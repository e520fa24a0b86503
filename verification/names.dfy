/** Object names: minted from per-prefix counters, and distinct from every other name of a round. */
module Names {
  import opened Bags

  // ---- decimal numbers ------------------------------------------------------------------------------

  const DIGITS := "0123456789"

  predicate IsDigit(c: char) { '0' <= c <= '9' }

  function Decimal(n: nat): (s: string)
    ensures |s| > 0 && forall i :: 0 <= i < |s| ==> IsDigit(s[i])
  {
    if n < 10 then [DIGITS[n]] else Decimal(n / 10) + [DIGITS[n % 10]]
  }

  /** What a number reads as. */
  function ValueOf(s: string): int {
    if s == "" then 0 else 10 * ValueOf(s[..|s| - 1]) + (s[|s| - 1] as int - '0' as int)
  }

  lemma {:induction false} DecimalReads(n: nat)
    ensures ValueOf(Decimal(n)) == n && (n > 0 ==> Decimal(n)[0] != '0')
  {
    DigitIs(n % 10);
    if n < 10 {
      assert [DIGITS[n]][..0] == "";
    } else {
      DecimalReads(n / 10);
      assert Decimal(n)[..|Decimal(n)| - 1] == Decimal(n / 10);
    }
  }

  lemma DigitIs(d: nat)
    requires d < 10
    ensures DIGITS[d] as int - '0' as int == d
  {
  }

  lemma {:induction false} DecimalInjective(n: nat, m: nat)
    requires Decimal(n) == Decimal(m)
    ensures n == m
  {
    var s := Decimal(n);
    assert s[|s| - 1] == DIGITS[n % 10] && s[|s| - 1] == DIGITS[m % 10];
    DigitTells(n % 10, m % 10);
    if n >= 10 && m >= 10 {
      assert Decimal(n / 10) == s[..|s| - 1] == Decimal(m / 10);
      DecimalInjective(n / 10, m / 10);
    }
  }

  lemma DigitTells(a: nat, b: nat)
    requires a < 10 && b < 10 && DIGITS[a] == DIGITS[b]
    ensures a == b
  {
    assert DIGITS[a] == '0' + a as char && DIGITS[b] == '0' + b as char;
  }

  // ---- minted names ---------------------------------------------------------------------------------

  function Numbered(prefix: string, n: nat): string { prefix + "_" + Decimal(n) }

  lemma LastUnderscore(p: string, n: nat)
    ensures Numbered(p, n)[|p|] == '_' && forall k :: |p| < k < |Numbered(p, n)| ==> Numbered(p, n)[k] != '_'
  {
    forall k | |p| < k < |Numbered(p, n)|
      ensures IsDigit(Numbered(p, n)[k])
    {
      assert Numbered(p, n)[k] == Decimal(n)[k - |p| - 1];
    }
  }

  /** A name splits at its last underscore in one way only, whatever underscores the prefix has. */
  lemma NumberedInjective(p: string, n: nat, q: string, m: nat)
    requires Numbered(p, n) == Numbered(q, m)
    ensures p == q && n == m
  {
    var name := Numbered(p, n);
    LastUnderscore(p, n);
    LastUnderscore(q, m);
    assert |p| == |q|;
    assert name[..|p|] == p && name[..|p|] == q;
    assert name[|p| + 1..] == Decimal(n) && name[|p| + 1..] == Decimal(m);
    DecimalInjective(n, m);
  }

  function CountIn(counters: map<string, nat>, prefix: string): nat {
    if prefix in counters then counters[prefix] else 0
  }

  /** Has been handed out by a generator with these counters. */
  ghost predicate MintedIn(counters: map<string, nat>, name: string) {
    exists prefix, n: nat :: 1 <= n <= CountIn(counters, prefix) && name == Numbered(prefix, n)
  }

  /** Counting one prefix up mints one name, and it is new. */
  lemma CountUp(counters: map<string, nat>, prefix: string)
    ensures
      var n := CountIn(counters, prefix) + 1;
      && !MintedIn(counters, Numbered(prefix, n))
      && forall s :: MintedIn(counters[prefix := n], s) <==> MintedIn(counters, s) || s == Numbered(prefix, n)
  {
    var n := CountIn(counters, prefix) + 1;
    var after := counters[prefix := n];
    if p, m: nat :| 1 <= m <= CountIn(counters, p) && Numbered(prefix, n) == Numbered(p, m) {
      NumberedInjective(prefix, n, p, m);
    }
    assert 1 <= n <= CountIn(after, prefix);
    forall s
      ensures MintedIn(after, s) <==> MintedIn(counters, s) || s == Numbered(prefix, n)
    {
      if MintedIn(counters, s) {
        var p, m: nat :| 1 <= m <= CountIn(counters, p) && s == Numbered(p, m);
        assert 1 <= m <= CountIn(after, p);
      }
      if MintedIn(after, s) {
        var p, m: nat :| 1 <= m <= CountIn(after, p) && s == Numbered(p, m);
        assert 1 <= m <= CountIn(counters, p) || (p == prefix && m == n);
      }
    }
  }

  class NameGenerator {
    var counters: map<string, nat>

    constructor ()
      ensures counters == map[]
    {
      counters := map[];
    }

    ghost predicate Minted(name: string)
      reads this
    {
      MintedIn(counters, name)
    }

    /** The next name of a prefix: new, and the only one that becomes used. */
    method GenerateObjectName(prefix: string) returns (name: string)
      modifies this
      ensures !old(Minted(name)) && name == Numbered(prefix, CountIn(old(counters), prefix) + 1)
      ensures forall s :: Minted(s) <==> old(Minted(s)) || s == name
      ensures counters == old(counters)[prefix := CountIn(old(counters), prefix) + 1]
    {
      CountUp(counters, prefix);
      var count := CountIn(counters, prefix) + 1;
      counters := counters[prefix := count];
      name := Numbered(prefix, count);
    }

    /** The name of a synthesized column, from the same counters. */
    method GenerateColumnName(prefix: string) returns (name: string)
      modifies this
      ensures !old(Minted(name)) && name == Numbered(prefix, CountIn(old(counters), prefix) + 1)
      ensures forall s :: Minted(s) <==> old(Minted(s)) || s == name
    {
      name := GenerateObjectName(prefix);
    }
  }

  /** <base>_<kind>_<n>. */
  class ObjectNamer {
    const base: string
    const names: NameGenerator

    constructor (base: string, names: NameGenerator)
      ensures this.base == base && this.names == names
    {
      this.base, this.names := base, names;
    }

    method Mint(kind: string) returns (name: string)
      modifies names
      ensures !old(names.Minted(name)) && (exists n :: name == Numbered(base + "_" + kind, n))
      ensures forall s :: names.Minted(s) <==> old(names.Minted(s)) || s == name
    {
      name := names.GenerateObjectName(base + "_" + kind);
    }
  }

  // ---- the other names of a round -------------------------------------------------------------------

  function HiddenBaseName(table: string): string { table + "__base" }

  /** The visible names of a round: the seed name alone, or the seed name with a number each. */
  function ExposedForkNames(forks: nat, seed: string): (names: seq<string>)
    requires forks >= 1
    ensures |names| == forks && (forks == 1 ==> names[0] == seed)
    ensures forks > 1 ==> forall i :: 0 <= i < forks ==> seed <= names[i] && |names[i]| > |seed|
  {
    if forks == 1 then [seed] else seq(forks, i requires 0 <= i < forks => seed + Decimal(i))
  }

  /** With several forks, what follows the seed name is the number of the fork. */
  lemma ExposedNumber(forks: nat, seed: string, i: nat)
    requires forks > 1 && i < forks
    ensures ValueOf(ExposedForkNames(forks, seed)[i][|seed|..]) == i
  {
    DecimalReads(i);
    assert (seed + Decimal(i))[|seed|..] == Decimal(i);
  }

  lemma ExposedDistinct(forks: nat, seed: string, i: nat, j: nat)
    requires forks >= 1 && i < forks && j < forks && ExposedForkNames(forks, seed)[i] == ExposedForkNames(forks, seed)[j]
    ensures i == j
  {
    if forks > 1 {
      assert (seed + Decimal(i))[|seed|..] == Decimal(i) && (seed + Decimal(j))[|seed|..] == Decimal(j);
      DecimalInjective(i, j);
    }
  }

  /** No exposed name is the hidden base, and none is ever minted for the table, for any number of
      forks and any kind of object, underscores in the table's name included. */
  lemma ExposedApart(forks: nat, seed: string, i: nat, kind: string, n: nat)
    requires forks >= 1 && i < forks
    ensures ExposedForkNames(forks, seed)[i] != HiddenBaseName(seed)
    ensures ExposedForkNames(forks, seed)[i] != Numbered(seed + "_" + kind, n)
  {
    var exposed := ExposedForkNames(forks, seed)[i];
    assert HiddenBaseName(seed)[|seed|] == '_' && Numbered(seed + "_" + kind, n)[|seed|] == '_';
    if forks > 1 { assert exposed[|seed|] == Decimal(i)[0]; }
  }

  /** The hidden base is never minted: what follows its last underscore is not a number. */
  lemma HiddenApart(seed: string, prefix: string, n: nat)
    ensures HiddenBaseName(seed) != Numbered(prefix, n)
  {
    var name := Numbered(prefix, n);
    assert name[|name| - 1] == Decimal(n)[|Decimal(n)| - 1];
    assert HiddenBaseName(seed)[|HiddenBaseName(seed)| - 1] == 'e';
  }

  // ---- forks ----------------------------------------------------------------------------------------

  predicate AllDistinct(names: seq<string>) {
    forall i, j :: 0 <= i < j < |names| ==> names[i] != names[j]
  }

  /** A name asked for while a tree is built. */
  datatype Wanted = AnObject(kind: string) | AColumn(prefix: string)

  /** The generator works on the table under its hidden name, so objects are <hidden>_<kind>_<n>;
      seen from the seed name that is <seed>_<another kind>_<n>. */
  ghost predicate ForSeed(seed: string, name: string) {
    exists kind, n :: name == Numbered(seed + "_" + kind, n)
  }

  lemma HiddenKind(seed: string, kind: string, n: nat)
    ensures ForSeed(seed, Numbered(HiddenBaseName(seed) + "_" + kind, n))
  {
    var inner := "_base_" + kind;
    assert HiddenBaseName(seed) + "_" + kind == seed + "_" + inner;
    assert Numbered(HiddenBaseName(seed) + "_" + kind, n) == Numbered(seed + "_" + inner, n);
  }

  /** The names of one fork, minted one after another. */
  method MintAll(seed: string, namer: ObjectNamer, wanted: seq<Wanted>) returns (mine: seq<string>)
    requires namer.base == HiddenBaseName(seed)
    modifies namer.names
    ensures |mine| == |wanted| && AllDistinct(mine)
    ensures forall i :: 0 <= i < |mine| ==> !old(namer.names.Minted(mine[i])) && (wanted[i].AnObject? ==> ForSeed(seed, mine[i]))
    ensures forall x :: namer.names.Minted(x) <==> old(namer.names.Minted(x)) || x in mine
  {
    mine := [];
    for k := 0 to |wanted|
      invariant |mine| == k && AllDistinct(mine)
      invariant forall i :: 0 <= i < k ==> !old(namer.names.Minted(mine[i])) && (wanted[i].AnObject? ==> ForSeed(seed, mine[i]))
      invariant forall x :: namer.names.Minted(x) <==> old(namer.names.Minted(x)) || x in mine
    {
      var name := MintOne(seed, namer, wanted[k]);
      assert forall i :: 0 <= i < k ==> mine[i] in mine;
      mine := mine + [name];
    }
  }

  method MintOne(seed: string, namer: ObjectNamer, wanted: Wanted) returns (name: string)
    requires namer.base == HiddenBaseName(seed)
    modifies namer.names
    ensures !old(namer.names.Minted(name)) && (wanted.AnObject? ==> ForSeed(seed, name))
    ensures forall x :: namer.names.Minted(x) <==> old(namer.names.Minted(x)) || x == name
  {
    match wanted {
      case AnObject(kind) =>
        name := namer.Mint(kind);
        var n :| name == Numbered(namer.base + "_" + kind, n);
        HiddenKind(seed, kind, n);
      case AColumn(prefix) =>
        name := namer.names.GenerateColumnName(prefix);
    }
  }

  /** No two names minted in a round are alike, whichever forks they belong to; the hidden base, the
      visible names and the minted objects are all different. */
  ghost predicate NamesApart(hidden: string, exposed: seq<string>, wanted: seq<seq<Wanted>>, minted: seq<seq<string>>) {
    && |minted| == |wanted| && (forall f :: 0 <= f < |minted| ==> |minted[f]| == |wanted[f]|)
    && AllDistinct([hidden] + exposed)
    && (forall f :: 0 <= f < |minted| ==> AllDistinct(minted[f]))
    && (forall f, h, x :: 0 <= f < h < |minted| && x in minted[f] ==> x !in minted[h])
    && forall f, i :: 0 <= f < |minted| && 0 <= i < |minted[f]| && wanted[f][i].AnObject? ==> minted[f][i] !in [hidden] + exposed
  }

  /** All names of a round whose forks share one generator. */
  method MintForks(seed: string, wanted: seq<seq<Wanted>>) returns (minted: seq<seq<string>>)
    requires |wanted| >= 1
    ensures NamesApart(HiddenBaseName(seed), ExposedForkNames(|wanted|, seed), wanted, minted)
  {
    var names := new NameGenerator();
    minted := [];
    for f := 0 to |wanted|
      invariant |minted| == f && forall h :: 0 <= h < f ==> |minted[h]| == |wanted[h]| && AllDistinct(minted[h])
      invariant forall x :: names.Minted(x) <==> exists h :: 0 <= h < f && x in minted[h]
      invariant forall g, h, x :: 0 <= g < h < f && x in minted[g] ==> x !in minted[h]
      invariant forall h, i :: 0 <= h < f && 0 <= i < |minted[h]| && wanted[h][i].AnObject? ==> ForSeed(seed, minted[h][i])
    {
      var namer := new ObjectNamer(HiddenBaseName(seed), names);
      var mine := MintAll(seed, namer, wanted[f]);
      minted := minted + [mine];
    }
    var exposed := ExposedForkNames(|wanted|, seed);
    VisibleDistinct(seed, |wanted|);
    forall f, i | 0 <= f < |minted| && 0 <= i < |minted[f]| && wanted[f][i].AnObject?
      ensures minted[f][i] !in [HiddenBaseName(seed)] + exposed
    {
      ObjectApart(seed, |wanted|, minted[f][i]);
    }
  }

  lemma VisibleDistinct(seed: string, forks: nat)
    requires forks >= 1
    ensures AllDistinct([HiddenBaseName(seed)] + ExposedForkNames(forks, seed))
  {
    var exposed := ExposedForkNames(forks, seed);
    var names := [HiddenBaseName(seed)] + exposed;
    forall i, j | 0 <= i < j < |names|
      ensures names[i] != names[j]
    {
      ExposedApart(forks, seed, j - 1, "", 0);
      if i > 0 && exposed[i - 1] == exposed[j - 1] { ExposedDistinct(forks, seed, i - 1, j - 1); }
    }
  }

  lemma ObjectApart(seed: string, forks: nat, name: string)
    requires forks >= 1 && ForSeed(seed, name)
    ensures name !in [HiddenBaseName(seed)] + ExposedForkNames(forks, seed)
  {
    var exposed := ExposedForkNames(forks, seed);
    var kind, n :| name == Numbered(seed + "_" + kind, n);
    HiddenApart(seed, seed + "_" + kind, n);
    forall i | 0 <= i < forks
      ensures exposed[i] != name
    {
      ExposedApart(forks, seed, i, kind, n);
    }
  }

  /** A name a fork may create: its visible one, or an object's that was minted for it. */
  ghost predicate MayUse(visible: string, wanted: seq<Wanted>, minted: seq<string>, name: string)
    requires |minted| == |wanted|
  {
    name == visible || exists i :: 0 <= i < |minted| && wanted[i].AnObject? && minted[i] == name
  }

  /** A name one fork may create is not the hidden base's, and no other fork may create it. */
  lemma UsesApart(hidden: string, exposed: seq<string>, wanted: seq<seq<Wanted>>, minted: seq<seq<string>>, f: nat, h: nat, name: string)
    requires NamesApart(hidden, exposed, wanted, minted) && |exposed| == |minted| && f < |minted| && h < |minted|
    requires MayUse(exposed[f], wanted[f], minted[f], name)
    ensures name != hidden && (MayUse(exposed[h], wanted[h], minted[h], name) ==> f == h)
  {
    var taken := [hidden] + exposed;
    assert taken[0] == hidden && taken[f + 1] == exposed[f] && taken[h + 1] == exposed[h];
    assert name == exposed[f] || (name in minted[f] && name !in taken);
    assert f != h && name == exposed[f] ==> name != exposed[h];
  }
}

/** How an engine may list the rows of a bag: one by one, or group by group. */
module Enumerations {
  import opened Bags
  import opened Values

  /** One output position of a SELECT before projection: a row, or the rows of one group. */
  type Unit = seq<Row>

  /** The grouping key of a row. */
  type KeyFunction = Row -> seq<Value>

  ghost predicate NonEmpty(units: seq<Unit>) {
    forall i :: 0 <= i < |units| ==> |units[i]| > 0
  }

  ghost function Flatten(units: seq<Unit>): seq<Row> {
    if units == [] then [] else Flatten(units[..|units| - 1]) + units[|units| - 1]
  }

  ghost function Heads(units: seq<Unit>): seq<Row>
    requires NonEmpty(units)
  {
    seq(|units|, i requires 0 <= i < |units| => units[i][0])
  }

  ghost predicate Grouped(key: KeyFunction, units: seq<Unit>)
    requires NonEmpty(units)
  {
    && (forall i, j :: 0 <= i < |units| && 0 <= j < |units[i]| ==> key(units[i][j]) == key(units[i][0]))
    && (forall i, j :: 0 <= i < j < |units| ==> key(units[i][0]) != key(units[j][0]))
  }

  /** Without GROUP BY every row is its own unit; with it, a unit is all rows of one key. */
  ghost predicate ValidUnits(key: Option<KeyFunction>, bag: multiset<Row>, units: seq<Unit>) {
    && NonEmpty(units)
    && multiset(Flatten(units)) == bag
    && (key.None? ==> forall i :: 0 <= i < |units| ==> |units[i]| == 1)
    && (key.Some? ==> Grouped(key.value, units))
  }

  lemma {:induction false} FlattenUpdate(units: seq<Unit>, i: nat, x: Row)
    requires i < |units|
    ensures multiset(Flatten(units[i := units[i] + [x]])) == multiset(Flatten(units)) + multiset{x}
  {
    var k := |units| - 1;
    var u := units[i := units[i] + [x]];
    if i == k {
      assert u[..k] == units[..k];
    } else {
      FlattenUpdate(units[..k], i, x);
      assert u[..k] == units[..k][i := units[..k][i] + [x]];
    }
  }

  lemma {:induction false} FlattenMember(units: seq<Unit>, x: Row)
    ensures x in Flatten(units) <==> exists i, j :: 0 <= i < |units| && 0 <= j < |units[i]| && units[i][j] == x
  {
    if units != [] {
      var k := |units| - 1;
      FlattenMember(units[..k], x);
      if x in Flatten(units[..k]) {
        var i, j :| 0 <= i < k && 0 <= j < |units[..k][i]| && units[..k][i][j] == x;
        assert units[i][j] == x;
      }
      forall i, j | 0 <= i < |units| && 0 <= j < |units[i]| && units[i][j] == x
        ensures x in Flatten(units)
      {
        if i < k { assert units[..k][i][j] == x; }
      }
    }
  }

  lemma AddToGroup(key: KeyFunction, bag: multiset<Row>, x: Row, units: seq<Unit>, i: nat)
    requires ValidUnits(Some(key), bag, units) && i < |units| && key(units[i][0]) == key(x)
    ensures ValidUnits(Some(key), bag + multiset{x}, units[i := units[i] + [x]])
  {
    var u := units[i := units[i] + [x]];
    FlattenUpdate(units, i, x);
    forall k | 0 <= k < |u|
      ensures |u[k]| > 0 && u[k][0] == units[k][0]
      ensures forall j :: 0 <= j < |u[k]| ==> key(u[k][j]) == key(u[k][0])
    {
      forall j | 0 <= j < |u[k]|
        ensures key(u[k][j]) == key(units[k][0])
      {
        if k != i || j < |units[k]| { assert u[k][j] == units[k][j]; }
      }
    }
  }

  lemma AddUnit(key: Option<KeyFunction>, bag: multiset<Row>, x: Row, units: seq<Unit>)
    requires ValidUnits(key, bag, units)
    requires key.Some? ==> forall i :: 0 <= i < |units| ==> key.value(units[i][0]) != key.value(x)
    ensures ValidUnits(key, bag + multiset{x}, units + [[x]])
  {
    var u := units + [[x]];
    assert u[..|units|] == units;
    assert u[|units|] == [x];
    assert Flatten(u) == Flatten(units) + [x];
  }

  lemma {:induction false} UnitsExist(key: Option<KeyFunction>, bag: multiset<Row>) returns (units: seq<Unit>)
    ensures ValidUnits(key, bag, units)
    decreases |bag|
  {
    if bag == multiset{} {
      units := [];
    } else {
      var x := Pick(bag);
      var smaller := UnitsExist(key, bag - multiset{x});
      assert (bag - multiset{x}) + multiset{x} == bag;
      if i :| key.Some? && 0 <= i < |smaller| && key.value(smaller[i][0]) == key.value(x) {
        AddToGroup(key.value, bag - multiset{x}, x, smaller, i);
        units := smaller[i := smaller[i] + [x]];
      } else {
        AddUnit(key, bag - multiset{x}, x, smaller);
        units := smaller + [[x]];
      }
    }
  }

  /** The engine's own listing when it is a valid one, and some valid one otherwise. */
  ghost function UnitsOf(choice: seq<Unit>, key: Option<KeyFunction>, bag: multiset<Row>): (u: seq<Unit>)
    ensures ValidUnits(key, bag, u)
  {
    if ValidUnits(key, bag, choice) then choice
    else
      assert exists u :: ValidUnits(key, bag, u) by { var u := UnitsExist(key, bag); }
      var u :| ValidUnits(key, bag, u);
      u
  }

  lemma {:induction false} SingletonHeads(units: seq<Unit>)
    requires forall i :: 0 <= i < |units| ==> |units[i]| == 1
    ensures Flatten(units) == Heads(units)
  {
    if units != [] {
      var k := |units| - 1;
      SingletonHeads(units[..k]);
      assert units[k] == [units[k][0]];
      assert Heads(units) == Heads(units[..k]) + [units[k][0]];
    }
  }

  lemma UngroupedHeads(bag: multiset<Row>, units: seq<Unit>)
    requires ValidUnits(None, bag, units)
    ensures multiset(Heads(units)) == bag
  {
    SingletonHeads(units);
  }

  lemma HeadsMembers(key: Option<KeyFunction>, bag: multiset<Row>, units: seq<Unit>, i: nat, j: nat)
    requires ValidUnits(key, bag, units) && i < |units| && j < |units[i]|
    ensures units[i][j] in bag
  {
    FlattenMember(units, units[i][j]);
  }

  /** When the grouping key tells different rows apart, the groups are the distinct rows. */
  lemma GroupedHeads(key: KeyFunction, bag: multiset<Row>, units: seq<Unit>)
    requires ValidUnits(Some(key), bag, units)
    requires forall r, s :: r in bag && s in bag && key(r) == key(s) ==> r == s
    ensures multiset(Heads(units)) == Distinct(bag)
    ensures forall i, j :: 0 <= i < |units| && 0 <= j < |units[i]| ==> units[i][j] == units[i][0]
  {
    var hs := Heads(units);
    forall i, j | 0 <= i < |units| && 0 <= j < |units[i]|
      ensures units[i][j] in bag && units[i][j] == units[i][0]
    {
      HeadsMembers(Some(key), bag, units, i, j);
      HeadsMembers(Some(key), bag, units, i, 0);
    }
    DistinctList(hs);
    forall x
      ensures x in hs <==> x in bag
    {
      HeadOf(bag, units, x);
    }
    assert (set x | x in hs) == (set x | x in bag);
  }

  /** When every unit repeats one row, the heads are the rows that occur. */
  lemma HeadOf(bag: multiset<Row>, units: seq<Unit>, x: Row)
    requires NonEmpty(units) && multiset(Flatten(units)) == bag
    requires forall i, j :: 0 <= i < |units| && 0 <= j < |units[i]| ==> units[i][j] == units[i][0]
    ensures x in Heads(units) <==> x in bag
  {
    FlattenMember(units, x);
    assert x in bag <==> x in Flatten(units);
    if x in bag {
      var i, j :| 0 <= i < |units| && 0 <= j < |units[i]| && units[i][j] == x;
      assert Heads(units)[i] == x;
    }
    if x in Heads(units) {
      var i :| 0 <= i < |units| && Heads(units)[i] == x;
      assert units[i][0] == x;
    }
  }
}

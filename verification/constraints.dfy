/** What is asked of a child, and how several requests of one kind become one. */
module Constraints {
  import opened Bags
  import opened Expressions
  import opened Values
  import opened Queries
  import opened Selects

  datatype Constraint =
    | RowFilter(predicate_: Expr)
    | AcceptsDml
    | SingleSource
    | ColumnRewrite(projection: seq<Item>)
    | TagChannel(tagCol: string, keepValue: int)
    | KeyChannel(key: string)
    | ExposedName(name: string)

  datatype Kind = FilterKind | DmlKind | SourceKind | RewriteKind | TagKind | KeyKind | NameKind

  function KindOf(c: Constraint): Kind {
    match c
    case RowFilter(_) => FilterKind
    case AcceptsDml => DmlKind
    case SingleSource => SourceKind
    case ColumnRewrite(_) => RewriteKind
    case TagChannel(_, _) => TagKind
    case KeyChannel(_) => KeyKind
    case ExposedName(_) => NameKind
  }

  predicate SharesAlias(a: seq<Item>, b: seq<Item>) {
    exists i :: 0 <= i < |a| && a[i].alias in Aliases(b)
  }

  /** Two requests of one kind: filters AND together, rewrites of different columns are put one after
      the other, and of anything else the first stays. Rewrites of one column have no merge. */
  function MergeConstraint(a: Constraint, b: Constraint): Option<Constraint>
    requires KindOf(a) == KindOf(b)
  {
    match a
    case RowFilter(p) => Some(RowFilter(Conjoin(Some(p), b.predicate_)))
    case ColumnRewrite(items) => if SharesAlias(items, b.projection) then None else Some(ColumnRewrite(items + b.projection))
    case _ => Some(a)
  }

  type ConstraintSet = map<Kind, Constraint>

  ghost predicate Keyed(set_: ConstraintSet) {
    forall k :: k in set_ ==> KindOf(set_[k]) == k
  }

  /** The accumulated filter of a set, if it has one. */
  function RowFilterOf(set_: ConstraintSet): Option<Expr> {
    if FilterKind in set_ && set_[FilterKind].RowFilter? then Some(set_[FilterKind].predicate_) else None
  }

  /** The row passes every filter that is asked for. */
  ghost predicate PassesAll(w: World, asked: seq<Constraint>, cols: seq<string>, row: Row) {
    forall i :: 0 <= i < |asked| && asked[i].RowFilter? ==> Passes(w, Some(asked[i].predicate_), cols, row)
  }

  /** The columns rewritten by all requests together, in order. */
  function Rewritten(asked: seq<Constraint>): seq<Item> {
    if asked == [] then []
    else Rewritten(asked[..|asked| - 1]) + (if asked[|asked| - 1].ColumnRewrite? then asked[|asked| - 1].projection else [])
  }

  /** Two lists give a column of one name. */
  ghost predicate SameColumn(a: seq<Item>, b: seq<Item>) { exists i, j :: 0 <= i < |a| && 0 <= j < |b| && a[i].alias == b[j].alias }

  lemma SharesExactly(a: seq<Item>, b: seq<Item>)
    ensures SharesAlias(a, b) <==> SameColumn(a, b)
  {
    if SharesAlias(a, b) {
      var i :| 0 <= i < |a| && a[i].alias in Aliases(b);
      var j :| 0 <= j < |b| && Aliases(b)[j] == a[i].alias;
      assert a[i].alias == b[j].alias;
    }
    if SameColumn(a, b) {
      var i, j :| 0 <= i < |a| && 0 <= j < |b| && a[i].alias == b[j].alias;
      assert Aliases(b)[j] == a[i].alias;
    }
  }

  /** Two requests are of one kind exactly when they are made by one constructor. */
  lemma KindExactly(a: Constraint, b: Constraint)
    ensures KindOf(a) == KindOf(b) <==>
      && (a.RowFilter? <==> b.RowFilter?) && (a.AcceptsDml? <==> b.AcceptsDml?) && (a.SingleSource? <==> b.SingleSource?)
      && (a.ColumnRewrite? <==> b.ColumnRewrite?) && (a.TagChannel? <==> b.TagChannel?) && (a.KeyChannel? <==> b.KeyChannel?)
      && (a.ExposedName? <==> b.ExposedName?)
  {
  }

  /** Some two requests rewrite one column. */
  ghost predicate Clashes(asked: seq<Constraint>) {
    exists i, j :: 0 <= i < j < |asked| && asked[i].ColumnRewrite? && asked[j].ColumnRewrite? && SharesAlias(asked[i].projection, asked[j].projection)
  }

  /** The first request of a kind. */
  ghost predicate First(asked: seq<Constraint>, c: Constraint) {
    exists i :: 0 <= i < |asked| && asked[i] == c && forall j :: 0 <= j < i ==> KindOf(asked[j]) != KindOf(c)
  }

  /** What a set of merged requests asks for, in terms of the requests. */
  ghost predicate Merges(set_: ConstraintSet, asked: seq<Constraint>) {
    && Keyed(set_)
    && (forall k :: k in set_ <==> exists i :: 0 <= i < |asked| && KindOf(asked[i]) == k)
    && (forall w, cols, row :: Passes(w, RowFilterOf(set_), cols, row) <==> PassesAll(w, asked, cols, row))
    && (RewriteKind in set_ ==> set_[RewriteKind] == ColumnRewrite(Rewritten(asked)))
    && (forall k :: k in set_ && k != FilterKind && k != RewriteKind ==> First(asked, set_[k]))
  }

  // ---- merging ----------------------------------------------------------------------------------

  lemma RewrittenNext(asked: seq<Constraint>, c: Constraint)
    ensures Rewritten(asked + [c]) == Rewritten(asked) + (if c.ColumnRewrite? then c.projection else [])
  {
    assert (asked + [c])[..|asked|] == asked;
  }

  /** A column is rewritten by all together when one of them rewrites it. */
  lemma {:induction false} RewrittenAlias(asked: seq<Constraint>, items: seq<Item>)
    ensures SharesAlias(Rewritten(asked), items) <==> exists i :: 0 <= i < |asked| && asked[i].ColumnRewrite? && SharesAlias(asked[i].projection, items)
  {
    if asked != [] {
      var k := |asked| - 1;
      var front := asked[..k];
      RewrittenAlias(front, items);
      var a, b := Rewritten(front), if asked[k].ColumnRewrite? then asked[k].projection else [];
      SharesEither(a, b, items);
      if SharesAlias(a, items) {
        var i :| 0 <= i < k && front[i].ColumnRewrite? && SharesAlias(front[i].projection, items);
        assert asked[i] == front[i];
      }
      forall i | 0 <= i < |asked| && asked[i].ColumnRewrite? && SharesAlias(asked[i].projection, items)
        ensures SharesAlias(Rewritten(asked), items)
      {
        if i < k { assert front[i] == asked[i]; }
      }
    }
  }

  lemma SharesEither(a: seq<Item>, b: seq<Item>, items: seq<Item>)
    ensures SharesAlias(a + b, items) <==> SharesAlias(a, items) || SharesAlias(b, items)
  {
    forall i | 0 <= i < |a + b| && (a + b)[i].alias in Aliases(items)
      ensures SharesAlias(a, items) || SharesAlias(b, items)
    {
      if i < |a| { assert a[i].alias in Aliases(items); } else { assert b[i - |a|].alias in Aliases(items); }
    }
    forall i | 0 <= i < |a| && a[i].alias in Aliases(items) ensures SharesAlias(a + b, items) { assert (a + b)[i] == a[i]; }
    forall i | 0 <= i < |b| && b[i].alias in Aliases(items) ensures SharesAlias(a + b, items) { assert (a + b)[|a| + i] == b[i]; }
  }

  lemma ClashesNext(asked: seq<Constraint>, c: Constraint)
    ensures Clashes(asked + [c]) <==> Clashes(asked) || (c.ColumnRewrite? && SharesAlias(Rewritten(asked), c.projection))
  {
    var all := asked + [c];
    if c.ColumnRewrite? { RewrittenAlias(asked, c.projection); }
    if Clashes(asked) {
      var i, j :| 0 <= i < j < |asked| && asked[i].ColumnRewrite? && asked[j].ColumnRewrite? && SharesAlias(asked[i].projection, asked[j].projection);
      assert all[i] == asked[i] && all[j] == asked[j];
    }
    if i :| 0 <= i < |asked| && c.ColumnRewrite? && asked[i].ColumnRewrite? && SharesAlias(asked[i].projection, c.projection) {
      assert all[i] == asked[i] && all[|asked|] == c;
    }
    if Clashes(all) {
      var i, j :| 0 <= i < j < |all| && all[i].ColumnRewrite? && all[j].ColumnRewrite? && SharesAlias(all[i].projection, all[j].projection);
      assert asked[i] == all[i];
      if j < |asked| { assert asked[j] == all[j]; }
    }
  }

  lemma PassesNext(w: World, asked: seq<Constraint>, c: Constraint, cols: seq<string>, row: Row)
    ensures PassesAll(w, asked + [c], cols, row) <==> PassesAll(w, asked, cols, row) && (c.RowFilter? ==> Passes(w, Some(c.predicate_), cols, row))
  {
    var all := asked + [c];
    assert all[|asked|] == c && forall i :: 0 <= i < |asked| ==> all[i] == asked[i];
  }

  /** The set after one more request was merged in. */
  function Extended(set_: ConstraintSet, c: Constraint): Option<ConstraintSet>
    requires KindOf(c) in set_ ==> KindOf(set_[KindOf(c)]) == KindOf(c)
  {
    if KindOf(c) !in set_ then Some(set_[KindOf(c) := c])
    else match MergeConstraint(set_[KindOf(c)], c)
      case None => None
      case Some(m) => Some(set_[KindOf(c) := m])
  }

  lemma ExtendedFilter(w: World, set_: ConstraintSet, asked: seq<Constraint>, c: Constraint, cols: seq<string>, row: Row)
    requires Merges(set_, asked) && Extended(set_, c).Some?
    ensures Passes(w, RowFilterOf(Extended(set_, c).value), cols, row) <==> PassesAll(w, asked + [c], cols, row)
  {
    PassesNext(w, asked, c, cols, row);
    assert Passes(w, RowFilterOf(set_), cols, row) <==> PassesAll(w, asked, cols, row);
    if c.RowFilter? && FilterKind in set_ { ConjoinPasses(w, RowFilterOf(set_), c.predicate_, cols, row); }
  }

  lemma ExtendedKinds(set_: ConstraintSet, asked: seq<Constraint>, c: Constraint)
    requires Merges(set_, asked) && Extended(set_, c).Some?
    ensures Keyed(Extended(set_, c).value)
    ensures forall k :: k in Extended(set_, c).value <==> exists i :: 0 <= i < |asked + [c]| && KindOf((asked + [c])[i]) == k
  {
    var all := asked + [c];
    assert all[|asked|] == c && forall i :: 0 <= i < |asked| ==> all[i] == asked[i];
    forall k
      ensures k in Extended(set_, c).value <==> exists i :: 0 <= i < |all| && KindOf(all[i]) == k
    {
      if k in set_ {
        var i :| 0 <= i < |asked| && KindOf(asked[i]) == k;
        assert KindOf(all[i]) == k;
      }
      if i :| 0 <= i < |all| && KindOf(all[i]) == k && k != KindOf(c) { assert KindOf(asked[i]) == k; }
    }
  }

  lemma FirstNext(asked: seq<Constraint>, c: Constraint, x: Constraint)
    ensures First(asked, x) ==> First(asked + [c], x)
    ensures x == c && (forall i :: 0 <= i < |asked| ==> KindOf(asked[i]) != KindOf(c)) ==> First(asked + [c], x)
  {
    var all := asked + [c];
    assert all[|asked|] == c && forall i :: 0 <= i < |asked| ==> all[i] == asked[i];
  }

  lemma ExtendedOthers(set_: ConstraintSet, asked: seq<Constraint>, c: Constraint)
    requires Merges(set_, asked) && Extended(set_, c).Some?
    ensures RewriteKind in Extended(set_, c).value ==> Extended(set_, c).value[RewriteKind] == ColumnRewrite(Rewritten(asked + [c]))
    ensures forall k :: k in Extended(set_, c).value && k != FilterKind && k != RewriteKind ==> First(asked + [c], Extended(set_, c).value[k])
  {
    var next := Extended(set_, c).value;
    RewrittenNext(asked, c);
    if c.ColumnRewrite? && RewriteKind !in set_ { NoRewrite(asked); }
    forall k | k in next && k != FilterKind && k != RewriteKind
      ensures First(asked + [c], next[k])
    {
      FirstNext(asked, c, next[k]);
    }
  }

  lemma {:induction false} NoRewrite(asked: seq<Constraint>)
    requires forall i :: 0 <= i < |asked| ==> KindOf(asked[i]) != RewriteKind
    ensures Rewritten(asked) == []
  {
    if asked != [] { NoRewrite(asked[..|asked| - 1]); }
  }

  lemma MergesNext(set_: ConstraintSet, asked: seq<Constraint>, c: Constraint)
    requires Merges(set_, asked) && Extended(set_, c).Some?
    ensures Merges(Extended(set_, c).value, asked + [c])
  {
    ExtendedKinds(set_, asked, c);
    ExtendedOthers(set_, asked, c);
    forall w, cols, row
      ensures Passes(w, RowFilterOf(Extended(set_, c).value), cols, row) <==> PassesAll(w, asked + [c], cols, row)
    {
      ExtendedFilter(w, set_, asked, c, cols, row);
    }
  }

  /** The requests that are there, in order. */
  function Present(constraints: seq<Option<Constraint>>): seq<Constraint> {
    if constraints == [] then []
    else Present(constraints[..|constraints| - 1]) + (if constraints[|constraints| - 1].Some? then [constraints[|constraints| - 1].value] else [])
  }

  /** Builds a set from requests, of which some may be absent. It fails exactly when two rewrites
      share a column; otherwise the merged filter passes the rows that every filter passes, the
      rewrites follow one another, and of each other kind the first request holds. */
  method BuildSet(constraints: seq<Option<Constraint>>) returns (r: Option<ConstraintSet>)
    ensures r.None? <==> Clashes(Present(constraints))
    ensures r.Some? ==> Merges(r.value, Present(constraints))
  {
    var set_: ConstraintSet := map[];
    for i := 0 to |constraints|
      invariant Merges(set_, Present(constraints[..i])) && !Clashes(Present(constraints[..i]))
    {
      assert constraints[..i + 1][..i] == constraints[..i];
      if constraints[i].None? {
        assert Present(constraints[..i]) + [] == Present(constraints[..i]);
        assert Present(constraints[..i + 1]) == Present(constraints[..i]);
        continue;
      }
      var c := constraints[i].value;
      ClashesNext(Present(constraints[..i]), c);
      if Extended(set_, c).None? {
        StaysClashed(constraints, i + 1);
        return None;
      }
      MergesNext(set_, Present(constraints[..i]), c);
      NoClashMerged(set_, Present(constraints[..i]), c);
      set_ := Extended(set_, c).value;
    }
    assert constraints[..|constraints|] == constraints;
    r := Some(set_);
  }

  /** Merging succeeds only on rewrites of different columns. */
  lemma NoClashMerged(set_: ConstraintSet, asked: seq<Constraint>, c: Constraint)
    requires Merges(set_, asked)
    ensures Extended(set_, c).Some? <==> !(c.ColumnRewrite? && SharesAlias(Rewritten(asked), c.projection))
  {
    if c.ColumnRewrite? && RewriteKind !in set_ { NoRewrite(asked); }
  }

  /** A clash among the first requests is a clash among all. */
  lemma {:induction false} StaysClashed(constraints: seq<Option<Constraint>>, n: nat)
    requires n <= |constraints| && Clashes(Present(constraints[..n]))
    ensures Clashes(Present(constraints))
    decreases |constraints|
  {
    if n < |constraints| {
      var front := constraints[..|constraints| - 1];
      assert front[..n] == constraints[..n];
      StaysClashed(front, n);
      if constraints[|constraints| - 1].Some? {
        ClashesNext(Present(front), constraints[|constraints| - 1].value);
      } else {
        assert Present(front) + [] == Present(front);
        assert Present(constraints) == Present(front);
      }
    } else {
      assert constraints[..n] == constraints;
    }
  }
}

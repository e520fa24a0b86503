/** Growing a relation with copies and collapsing them again: the key channel and the tag channel.

    A key channel adds one column that tells base rows apart, duplicates included, and repeats it on
    every copy. A tag channel adds one column that marks which copy is to survive. */
module Channels {
  import opened Bags
  import opened Expressions
  import opened Values
  import opened Enumerations
  import opened Queries
  import opened Graphs
  import opened Selects
  import opened Partitions

  /** A base relation: distinct column names, and rows as wide as their names. */
  ghost predicate Shaped(base: Rel) {
    && base.cols != [] && DistinctNames(base.cols)
    && forall r :: r in base.rows ==> |r| == |base.cols|
  }

  // ---- rows with one extra column -------------------------------------------------------------

  /** The columns of base with one more, at the end or, once collapsed, at the front. */
  function WideCols(cols: seq<string>, extra: string, first: bool): seq<string> {
    if first then [extra] + cols else cols + [extra]
  }

  function ExtraOf(n: nat, first: bool, r: Row): Value {
    if |r| != n + 1 then Null else if first then r[0] else r[n]
  }

  /** The base part of a wide row. */
  ghost function PayloadOf(n: nat, first: bool): Row -> Row {
    CutOf(n + 1, if first then 1 else 0, n)
  }

  ghost predicate Wide(base: Rel, rel: Rel, extra: string, first: bool) {
    && Shaped(base) && extra !in base.cols && rel.cols == WideCols(base.cols, extra, first)
    && forall r :: r in rel.rows ==> |r| == |base.cols| + 1
  }

  lemma WideLookup(base: Rel, rel: Rel, extra: string, first: bool, r: Row)
    requires Wide(base, rel, extra, first) && |r| == |base.cols| + 1
    ensures Lookup(rel.cols, r, extra) == ExtraOf(|base.cols|, first, r)
    ensures Embeds(rel.cols, base.cols, if first then 1 else 0)
  {
    if first { EmbedsBack(base.cols, extra); } else { EmbedsFront(base.cols, extra); }
    LookupAt(rel.cols, r, if first then 0 else |base.cols|);
  }

  /** Projecting the base columns out of a wide relation, with a filter. */
  lemma Unwiden(w: World, path: Path, sel: Select, base: Rel, rel: Rel, extra: string, first: bool)
    requires Wide(base, rel, extra, first) && Plain(sel) && sel.projection == Some(Passthrough(base.cols))
    ensures SelectRel(w, path, sel, rel) == Rel(base.cols, MapBag(Where(w, sel.filter, rel), PayloadOf(|base.cols|, first)))
  {
    WideEmbeds(base, rel, extra, first);
    CutSelect(w, path, sel, rel, base.cols, if first then 1 else 0);
  }

  lemma WideEmbeds(base: Rel, rel: Rel, extra: string, first: bool)
    requires Wide(base, rel, extra, first)
    ensures |rel.cols| == |base.cols| + 1 && Embeds(rel.cols, base.cols, if first then 1 else 0)
    ensures forall r :: r in rel.rows ==> |r| == |rel.cols|
  {
    if first { EmbedsBack(base.cols, extra); } else { EmbedsFront(base.cols, extra); }
  }

  // ---- the key channel ------------------------------------------------------------------------

  /** Every row carries a key, rows with one key are the same row, and one row per key is the base. */
  ghost predicate IsCopies(base: Rel, rel: Rel, key: string, first: bool) {
    && Wide(base, rel, key, first)
    && (forall r :: r in rel.rows ==> ExtraOf(|base.cols|, first, r).Int? && ExtraOf(|base.cols|, first, r).n >= 1)
    && (forall r, s :: r in rel.rows && s in rel.rows && ExtraOf(|base.cols|, first, r) == ExtraOf(|base.cols|, first, s) ==> r == s)
    && MapBag(Distinct(rel.rows), PayloadOf(|base.cols|, first)) == base.rows
  }

  /** Copies with no copies: each key once. */
  ghost predicate IsKeyed(base: Rel, rel: Rel, key: string, first: bool) {
    IsCopies(base, rel, key, first) && forall r :: r in rel.rows ==> rel.rows[r] == 1
  }

  lemma KeyedDistinct(base: Rel, rel: Rel, key: string, first: bool)
    requires IsKeyed(base, rel, key, first)
    ensures Distinct(rel.rows) == rel.rows && MapBag(rel.rows, PayloadOf(|base.cols|, first)) == base.rows
  {
    forall r ensures Distinct(rel.rows)[r] == rel.rows[r] {}
  }

  /** Writing rows again, any number of times, keeps the channel. */
  lemma CopiesAgain(base: Rel, rel: Rel, rel': Rel, key: string, first: bool)
    requires IsCopies(base, rel, key, first) && rel'.cols == rel.cols
    requires forall r :: r in rel'.rows <==> r in rel.rows
    ensures IsCopies(base, rel', key, first)
  {
    assert (set r | r in rel'.rows) == (set r | r in rel.rows);
  }

  /** DISTINCT of copies has each key once. */
  lemma CopiesDistinct(base: Rel, rel: Rel, key: string)
    requires IsCopies(base, rel, key, false)
    ensures IsKeyed(base, rel.(rows := Distinct(rel.rows)), key, false)
  {
    CopiesAgain(base, rel, rel.(rows := Distinct(rel.rows)), key, false);
  }

  /** The row with its key moved to the front. */
  function KeyFirst(n: nat, r: Row): Row {
    if |r| != n + 1 then r else [r[n]] + r[..n]
  }

  ghost function KeyFirstOf(n: nat): Row -> Row {
    (r: Row) => KeyFirst(n, r)
  }

  /** One row per key, with the key in front. */
  ghost function Collapsed(base: Rel, rel: Rel, key: string): Rel {
    Rel([key] + base.cols, MapBag(Distinct(rel.rows), KeyFirstOf(|base.cols|)))
  }

  /** A collapsed row comes from one row of the copies. */
  lemma CollapsedRow(base: Rel, rel: Rel, key: string, y: Row) returns (x: Row)
    requires IsCopies(base, rel, key, false) && y in Collapsed(base, rel, key).rows
    ensures x in rel.rows && |x| == |base.cols| + 1 && y == [x[|base.cols|]] + x[..|base.cols|]
    ensures Collapsed(base, rel, key).rows[y] == 1
  {
    var d := Distinct(rel.rows);
    var f := KeyFirstOf(|base.cols|);
    MapMember(d, f, y);
    x :| x in d && f(x) == y;
    KeyFirstInjective(base, rel, key);
    MapInjective(d, f, x);
  }

  lemma CollapsedPayload(base: Rel, rel: Rel, key: string)
    requires IsCopies(base, rel, key, false)
    ensures MapBag(Collapsed(base, rel, key).rows, PayloadOf(|base.cols|, true)) == base.rows
  {
    var n := |base.cols|;
    var d := Distinct(rel.rows);
    forall x | x in d
      ensures PayloadOf(n, false)(x) == PayloadOf(n, true)(KeyFirstOf(n)(x))
    {
      assert x in rel.rows;
      assert KeyFirst(n, x)[1..] == x[..n];
    }
    MapCompose(d, KeyFirstOf(n), PayloadOf(n, true), PayloadOf(n, false));
  }

  lemma CollapsedKeyed(base: Rel, rel: Rel, key: string)
    requires IsCopies(base, rel, key, false)
    ensures IsKeyed(base, Collapsed(base, rel, key), key, true)
  {
    var c := Collapsed(base, rel, key);
    forall y: Row | y in c.rows
      ensures |y| == |base.cols| + 1 && y[0].Int? && y[0].n >= 1 && c.rows[y] == 1
    {
      var x := CollapsedRow(base, rel, key, y);
    }
    forall y: Row, z: Row | y in c.rows && z in c.rows && y[0] == z[0]
      ensures y == z
    {
      var a := CollapsedRow(base, rel, key, y);
      var b := CollapsedRow(base, rel, key, z);
      assert a == b;
    }
    forall y: Row ensures Distinct(c.rows)[y] == c.rows[y] {}
    assert Distinct(c.rows) == c.rows;
    CollapsedPayload(base, rel, key);
  }

  /** f is one-to-one on copies when it keeps the key. */
  lemma KeyFirstInjective(base: Rel, rel: Rel, key: string)
    requires IsCopies(base, rel, key, false)
    ensures forall r, s :: r in rel.rows && s in rel.rows && KeyFirst(|base.cols|, r) == KeyFirst(|base.cols|, s) ==> r == s
  {
    forall r, s | r in rel.rows && s in rel.rows && KeyFirst(|base.cols|, r) == KeyFirst(|base.cols|, s)
      ensures r == s
    {
      assert KeyFirst(|base.cols|, r)[0] == r[|base.cols|] && KeyFirst(|base.cols|, s)[0] == s[|base.cols|];
    }
  }

  // ---- making and collapsing a key channel ------------------------------------------------------

  /** The extended select list on one position: the row, then the extra value. */
  lemma ExtendedOutRow(w: World, sel: Select, cols: seq<string>, extra: Item, units: seq<Unit>, i: nat)
    requires sel.projection == Some(Extended(cols, extra)) && DistinctNames(cols)
    requires NonEmpty(units) && i < |units| && |units[i][0]| == |cols|
    ensures OutRow(w, sel, cols, units, i) == units[i][0] + [Eval(w, extra.expr, cols, units, i)]
  {
    forall k | 0 <= k < |cols|
      ensures Eval(w, Col(cols[k]), cols, units, i) == units[i][0][k]
    {
      ColumnValue(w, cols[k], cols, units, i);
      LookupAt(cols, units[i][0], k);
    }
  }

  lemma ExtendedAliases(cols: seq<string>, extra: Item)
    ensures Aliases(Extended(cols, extra)) == cols + [extra.alias]
  {
  }

  function NumberItem(key: string, order: Expr): Item { Item(key, RowNumberOver(order)) }

  lemma NumberedOutput(w: World, base: Rel, key: string, order: Expr, units: seq<Unit>)
    requires Shaped(base) && ValidUnits(None, base.rows, units)
    ensures
      var sel := BaseSelect(Extended(base.cols, NumberItem(key, order)));
      Numbered(Heads(units), Output(w, sel, base.cols, units), |base.cols|)
  {
    var sel := BaseSelect(Extended(base.cols, NumberItem(key, order)));
    CollectAll(OutRows(w, sel, base.cols, units), KeptFlags(w, sel, base.cols, units));
    forall i | 0 <= i < |units|
      ensures |units[i][0]| == |base.cols| && OutRow(w, sel, base.cols, units, i) == units[i][0] + [Int(i + 1)]
    {
      HeadsMembers(None, base.rows, units, i, 0);
      ExtendedOutRow(w, sel, base.cols, NumberItem(key, order), units, i);
      RowNumberAll(w, order, base.cols, units, i);
    }
  }

  /** outs is heads with 1, 2, 3, ... appended. */
  ghost predicate Numbered(heads: seq<Row>, outs: seq<Row>, width: nat) {
    |heads| == |outs| && forall i :: 0 <= i < |outs| ==> |heads[i]| == width && outs[i] == heads[i] + [Int(i + 1)]
  }

  lemma NumberNotOneGroup(cols: seq<string>, key: string, order: Expr)
    requires !HasAggregate(order)
    ensures !OneGroup(BaseSelect(Extended(cols, NumberItem(key, order))))
  {
    var items := Extended(cols, NumberItem(key, order));
    assert [order][0] == order;
    forall k | 0 <= k < |items| ensures !HasAggregate(items[k].expr) {
      if k < |cols| { assert items[k] == Passthrough(cols)[k]; }
    }
  }

  /** SELECT base columns, ROW_NUMBER() OVER (...): however the rows are listed, the result is keyed. */
  lemma NumberSelect(w: World, path: Path, base: Rel, key: string, order: Expr)
    requires Shaped(base) && key !in base.cols && !HasAggregate(order)
    ensures IsKeyed(base, SelectRel(w, path, BaseSelect(Extended(base.cols, NumberItem(key, order))), base), key, false)
  {
    NumberNotOneGroup(base.cols, key, order);
    var sel := BaseSelect(Extended(base.cols, NumberItem(key, order)));
    var units := SelectUnits(w, path, sel, base);
    WhereNone(w, base);
    UngroupedHeads(base.rows, units);
    NumberedOutput(w, base, key, order, units);
    ExtendedAliases(base.cols, NumberItem(key, order));
    NumberedRows(base, SelectRel(w, path, sel, base), key, Heads(units), Output(w, sel, base.cols, units));
  }

  lemma NumberedDistinct(heads: seq<Row>, outs: seq<Row>, n: nat)
    requires Numbered(heads, outs, n)
    ensures Distinct(multiset(outs)) == multiset(outs)
    ensures MapBag(multiset(outs), PayloadOf(n, false)) == multiset(heads)
  {
    forall i, j | 0 <= i < j < |outs|
      ensures outs[i] != outs[j]
    {
      assert outs[i][n] == Int(i + 1) && outs[j][n] == Int(j + 1);
    }
    DistinctList(outs);
    assert (set x | x in outs) == (set x | x in multiset(outs));
    MapSeqBag(outs, PayloadOf(n, false));
    assert MapSeq(outs, PayloadOf(n, false)) == heads;
  }

  lemma NumberedRow(heads: seq<Row>, outs: seq<Row>, n: nat, r: Row) returns (i: nat)
    requires Numbered(heads, outs, n) && r in multiset(outs)
    ensures i < |outs| && outs[i] == r && |r| == n + 1 && r[n] == Int(i + 1)
    ensures multiset(outs)[r] == 1
  {
    assert r in outs;
    i :| 0 <= i < |outs| && outs[i] == r;
    NumberedDistinct(heads, outs, n);
    assert multiset(outs)[r] == Distinct(multiset(outs))[r];
  }

  /** The key channel, said about rows directly. */
  lemma KeyedBy(base: Rel, rel: Rel, key: string)
    requires Shaped(base) && key !in base.cols && rel.cols == base.cols + [key]
    requires forall r: Row :: r in rel.rows ==> |r| == |base.cols| + 1 && r[|base.cols|].Int? && r[|base.cols|].n >= 1 && rel.rows[r] == 1
    requires forall r: Row, s: Row :: r in rel.rows && s in rel.rows && r[|base.cols|] == s[|base.cols|] ==> r == s
    requires MapBag(Distinct(rel.rows), PayloadOf(|base.cols|, false)) == base.rows
    ensures IsKeyed(base, rel, key, false)
  {
  }

  lemma NumberedFacts(heads: seq<Row>, outs: seq<Row>, n: nat)
    requires Numbered(heads, outs, n)
    ensures forall r: Row :: r in multiset(outs) ==> |r| == n + 1 && r[n].Int? && r[n].n >= 1 && multiset(outs)[r] == 1
    ensures forall r: Row, s: Row :: r in multiset(outs) && s in multiset(outs) && r[n] == s[n] ==> r == s
  {
    forall r: Row | r in multiset(outs)
      ensures |r| == n + 1 && r[n].Int? && r[n].n >= 1 && multiset(outs)[r] == 1
    {
      var i := NumberedRow(heads, outs, n, r);
    }
    forall r: Row, s: Row | r in multiset(outs) && s in multiset(outs) && r[n] == s[n]
      ensures r == s
    {
      var i := NumberedRow(heads, outs, n, r);
      var j := NumberedRow(heads, outs, n, s);
    }
  }

  /** Rows that were numbered one after another are keyed by the number. */
  lemma NumberedRows(base: Rel, rel: Rel, key: string, heads: seq<Row>, outs: seq<Row>)
    requires Shaped(base) && key !in base.cols && rel == Rel(base.cols + [key], multiset(outs))
    requires multiset(heads) == base.rows && Numbered(heads, outs, |base.cols|)
    ensures IsKeyed(base, rel, key, false)
  {
    NumberedFacts(heads, outs, |base.cols|);
    NumberedDistinct(heads, outs, |base.cols|);
    KeyedBy(base, rel, key);
  }

  function KeyItem(key: string): Item { Item(key, Col(key)) }

  /** The key, then one item per base column. */
  function KeyedItems(key: string, items: seq<Item>): seq<Item> { [KeyItem(key)] + items }

  lemma KeyedOut(w: World, key: string, items: seq<Item>, sel: Select, cols: seq<string>, units: seq<Unit>, i: nat)
    requires sel.projection == Some(KeyedItems(key, items)) && NonEmpty(units) && i < |units|
    ensures |OutRow(w, sel, cols, units, i)| == |items| + 1
    ensures OutRow(w, sel, cols, units, i)[0] == Eval(w, Col(key), cols, units, i)
    ensures forall k :: 0 <= k < |items| ==> OutRow(w, sel, cols, units, i)[k + 1] == Eval(w, items[k].expr, cols, units, i)
  {
    var all := KeyedItems(key, items);
    KeyedAt(key, items);
    forall k | 0 <= k < |all| ensures OutRow(w, sel, cols, units, i)[k] == Eval(w, all[k].expr, cols, units, i) {}
    forall k | 0 <= k < |items| ensures OutRow(w, sel, cols, units, i)[k + 1] == Eval(w, items[k].expr, cols, units, i) { assert all[k + 1] == items[k]; }
  }

  lemma KeyedAt(key: string, items: seq<Item>)
    ensures |KeyedItems(key, items)| == |items| + 1 && KeyedItems(key, items)[0] == KeyItem(key)
    ensures forall k :: 0 <= k < |items| ==> KeyedItems(key, items)[k + 1] == items[k]
  {
  }

  lemma ShiftedRow(out: Row, r: Row, n: nat)
    requires |r| == |out| == n + 1 && out[0] == r[n]
    requires forall k :: 0 <= k < n ==> out[k + 1] == r[k]
    ensures out == KeyFirst(n, r)
  {
    assert out[1..] == r[..n];
    assert out == [out[0]] + out[1..];
  }

  /** A row of copies read by name, key first. */
  lemma KeyFirstOutRow(w: World, base: Rel, rel: Rel, key: string, items: seq<Item>, sel: Select, units: seq<Unit>, i: nat)
    requires Wide(base, rel, key, false) && NonEmpty(units) && i < |units| && units[i][0] in rel.rows
    requires sel.projection == Some(KeyedItems(key, items)) && |items| == |base.cols|
    requires forall k :: 0 <= k < |items| ==> Eval(w, items[k].expr, rel.cols, units, i) == Lookup(rel.cols, units[i][0], base.cols[k])
    ensures OutRow(w, sel, rel.cols, units, i) == KeyFirst(|base.cols|, units[i][0])
  {
    var r := units[i][0];
    var out := OutRow(w, sel, rel.cols, units, i);
    KeyedOut(w, key, items, sel, rel.cols, units, i);
    WideLookup(base, rel, key, false, r);
    ColumnValue(w, key, rel.cols, units, i);
    forall k | 0 <= k < |items|
      ensures out[k + 1] == r[k]
    {
      assert rel.cols[k] == base.cols[k];
      LookupAt(rel.cols, r, k);
    }
    ShiftedRow(out, r, |base.cols|);
  }

  lemma KeyedAliases(key: string, items: seq<Item>, cols: seq<string>)
    requires |items| == |cols| && forall k :: 0 <= k < |items| ==> items[k].alias == cols[k]
    ensures Aliases(KeyedItems(key, items)) == [key] + cols
  {
    var all := Aliases(KeyedItems(key, items));
    forall k | 0 <= k < |all|
      ensures all[k] == ([key] + cols)[k]
    {
      if k > 0 { assert KeyedItems(key, items)[k] == items[k - 1]; }
    }
  }

  /** What the window reducer selects for one column. */
  predicate MaxByKey(item: Item, name: string, key: string) {
    && item.alias == name && item.expr.WindowCall? && item.expr.window != RowNumber
    && item.expr.warg == Some(Col(name)) && item.expr.partitionBy == [Col(key)] && !HasAggregate(item.expr)
  }

  /** A column of the select list of a collapsing SELECT: passed through, or recovered by a window
      over the key's partition. */
  predicate CollapseItem(item: Item, name: string, key: string) {
    item == Item(name, Col(name)) || MaxByKey(item, name, key)
  }

  predicate CollapseItems(items: seq<Item>, cols: seq<string>, key: string) {
    |items| == |cols| && forall k :: 0 <= k < |items| ==> CollapseItem(items[k], cols[k], key)
  }

  /** Same key, same row: positions in one partition of the key hold one row. */
  lemma SameKeySameRow(w: World, base: Rel, rel: Rel, key: string, units: seq<Unit>, i: nat, j: nat)
    requires IsCopies(base, rel, key, false) && NonEmpty(units) && i < |units| && j < |units|
    requires units[i][0] in rel.rows && units[j][0] in rel.rows
    ensures SamePartition(w, [Col(key)], rel.cols, units, i, j) <==> units[j][0] == units[i][0]
  {
    ColumnValue(w, key, rel.cols, units, i);
    ColumnValue(w, key, rel.cols, units, j);
    WideLookup(base, rel, key, false, units[i][0]);
    WideLookup(base, rel, key, false, units[j][0]);
    assert [Col(key)][0] == Col(key);
  }

  lemma CollapseValue(w: World, base: Rel, rel: Rel, key: string, item: Item, name: string, units: seq<Unit>, i: nat)
    requires IsCopies(base, rel, key, false) && ValidUnits(None, rel.rows, units) && i < |units|
    requires CollapseItem(item, name, key)
    ensures Eval(w, item.expr, rel.cols, units, i) == Lookup(rel.cols, units[i][0], name)
  {
    ColumnValue(w, name, rel.cols, units, i);
    if MaxByKey(item, name, key) {
      forall j | 0 <= j < |units| && SamePartition(w, item.expr.partitionBy, rel.cols, units, i, j)
        ensures Eval(w, Col(name), rel.cols, units, j) == Eval(w, Col(name), rel.cols, units, i)
      {
        HeadsMembers(None, rel.rows, units, i, 0);
        HeadsMembers(None, rel.rows, units, j, 0);
        SameKeySameRow(w, base, rel, key, units, i, j);
        ColumnValue(w, name, rel.cols, units, j);
      }
      WindowConstant(w, item.expr, rel.cols, units, i);
    }
  }

  /** The output rows of a collapsing select list: every copy, key first. */
  lemma CollapseOutRow(w: World, base: Rel, rel: Rel, key: string, items: seq<Item>, sel: Select, units: seq<Unit>, i: nat)
    requires IsCopies(base, rel, key, false) && CollapseItems(items, base.cols, key)
    requires sel.projection == Some(KeyedItems(key, items)) && ValidUnits(None, rel.rows, units) && i < |units|
    ensures OutRow(w, sel, rel.cols, units, i) == KeyFirst(|base.cols|, units[i][0])
  {
    HeadsMembers(None, rel.rows, units, i, 0);
    forall k | 0 <= k < |items| { CollapseValue(w, base, rel, key, items[k], base.cols[k], units, i); }
    KeyFirstOutRow(w, base, rel, key, items, sel, units, i);
  }

  lemma CollapseNotOneGroup(cols: seq<string>, key: string, items: seq<Item>, sel: Select)
    requires CollapseItems(items, cols, key) && sel.projection == Some(KeyedItems(key, items))
    requires sel.qualify.Some? ==> !HasAggregate(sel.qualify.value)
    ensures !OneGroup(sel)
  {
    forall k | 0 <= k < |items| + 1 ensures !HasAggregate(KeyedItems(key, items)[k].expr) {
      if k > 0 { assert KeyedItems(key, items)[k] == items[k - 1] && CollapseItem(items[k - 1], cols[k - 1], key); }
    }
  }

  /** SELECT DISTINCT key, columns FROM copies, columns plain or by window: one row per key. */
  lemma DistinctCollapse(w: World, path: Path, base: Rel, rel: Rel, key: string, items: seq<Item>)
    requires IsCopies(base, rel, key, false) && CollapseItems(items, base.cols, key)
    ensures SelectRel(w, path, BaseSelect(KeyedItems(key, items)).(distinct := true), rel) == Collapsed(base, rel, key)
  {
    var sel := BaseSelect(KeyedItems(key, items)).(distinct := true);
    CollapseNotOneGroup(base.cols, key, items, sel);
    var units := SelectUnits(w, path, sel, rel);
    WhereNone(w, rel);
    forall i | 0 <= i < |units| { CollapseOutRow(w, base, rel, key, items, sel, units, i); }
    HeadwiseOutput(w, sel, rel.cols, rel.rows, units, KeyFirstOf(|base.cols|));
    KeyedAliases(key, items, base.cols);
    KeyFirstInjective(base, rel, key);
    DistinctImage(rel.rows, KeyFirstOf(|base.cols|));
  }

  /** ROW_NUMBER() OVER (PARTITION BY key ORDER BY key) = 1. */
  function KeepOne(key: string): Expr {
    Equals(WindowCall(RowNumber, None, [Col(key)], [Col(key)], None), IntLiteral(1))
  }

  lemma KeepOneNoAggregate(key: string)
    ensures !HasAggregate(KeepOne(key))
  {
    assert forall k :: 0 <= k < |[Col(key)]| ==> !HasAggregate([Col(key)][k]);
    assert !HasAggregate(KeepOne(key).left);
  }

  lemma KeepOneHolds(w: World, base: Rel, rel: Rel, key: string, units: seq<Unit>, i: nat)
    requires IsCopies(base, rel, key, false) && ValidUnits(None, rel.rows, units) && i < |units|
    ensures IsTrue(Eval(w, KeepOne(key), rel.cols, units, i)) <==> forall j :: 0 <= j < i ==> units[j][0] != units[i][0]
  {
    var e := WindowCall(RowNumber, None, [Col(key)], [Col(key)], None);
    CompareLiteral(w, Eq, e, 1, rel.cols, units, i);
    RowNumberFirst(w, e, rel.cols, units, i);
    RowNumberValue(w, e, rel.cols, units, i);
    forall j | 0 <= j < |units|
      ensures SamePartition(w, [Col(key)], rel.cols, units, i, j) <==> units[j][0] == units[i][0]
    {
      HeadsMembers(None, rel.rows, units, i, 0);
      HeadsMembers(None, rel.rows, units, j, 0);
      SameKeySameRow(w, base, rel, key, units, i, j);
    }
  }

  /** SELECT key, columns ... QUALIFY ROW_NUMBER() OVER (PARTITION BY key ORDER BY key) = 1. */
  function QualifySelect(cols: seq<string>, key: string): Select {
    BaseSelect(KeyedItems(key, Passthrough(cols))).(qualify := Some(KeepOne(key)))
  }

  lemma QualifyRows(w: World, base: Rel, rel: Rel, key: string, units: seq<Unit>)
    requires IsCopies(base, rel, key, false) && ValidUnits(None, rel.rows, units)
    ensures OutRows(w, QualifySelect(base.cols, key), rel.cols, units) == MapSeq(Heads(units), KeyFirstOf(|base.cols|))
  {
    var sel, f := QualifySelect(base.cols, key), KeyFirstOf(|base.cols|);
    forall i | 0 <= i < |units|
      ensures OutRow(w, sel, rel.cols, units, i) == f(units[i][0])
    {
      CollapseOutRow(w, base, rel, key, Passthrough(base.cols), sel, units, i);
    }
    assert |OutRows(w, sel, rel.cols, units)| == |MapSeq(Heads(units), f)|;
    forall i | 0 <= i < |units| ensures OutRows(w, sel, rel.cols, units)[i] == MapSeq(Heads(units), f)[i] {}
  }

  /** The rows QUALIFY keeps are the first occurrence of each. */
  lemma QualifyFlags(w: World, base: Rel, rel: Rel, key: string, units: seq<Unit>, i: nat)
    requires IsCopies(base, rel, key, false) && ValidUnits(None, rel.rows, units) && i < |units|
    ensures
      var outs := OutRows(w, QualifySelect(base.cols, key), rel.cols, units);
      Kept(w, QualifySelect(base.cols, key), rel.cols, units, i) <==> outs[i] !in outs[..i]
  {
    var outs := OutRows(w, QualifySelect(base.cols, key), rel.cols, units);
    QualifyRows(w, base, rel, key, units);
    KeyFirstInjective(base, rel, key);
    KeepOneHolds(w, base, rel, key, units, i);
    forall j | 0 <= j < i
      ensures outs[j] == outs[i] <==> units[j][0] == units[i][0]
    {
      HeadsMembers(None, rel.rows, units, i, 0);
      HeadsMembers(None, rel.rows, units, j, 0);
    }
    assert outs[i] in outs[..i] <==> exists j :: 0 <= j < i && outs[j] == outs[i];
  }

  /** SELECT key, columns FROM copies QUALIFY ROW_NUMBER() ... = 1: one row per key, whichever copy
      an engine numbers first. */
  lemma QualifyCollapse(w: World, path: Path, base: Rel, rel: Rel, key: string)
    requires IsCopies(base, rel, key, false)
    ensures SelectRel(w, path, QualifySelect(base.cols, key), rel) == Collapsed(base, rel, key)
  {
    var sel := QualifySelect(base.cols, key);
    var units := SelectUnits(w, path, sel, rel);
    KeepOneNoAggregate(key);
    CollapseNotOneGroup(base.cols, key, Passthrough(base.cols), sel);
    WhereNone(w, rel);
    QualifyOutput(w, base, rel, key, units);
    KeyedAliases(key, Passthrough(base.cols), base.cols);
    KeyFirstInjective(base, rel, key);
    DistinctImage(rel.rows, KeyFirstOf(|base.cols|));
  }

  /** On one listing, the kept rows are the listed rows, key first, each once. */
  lemma QualifyOutput(w: World, base: Rel, rel: Rel, key: string, units: seq<Unit>)
    requires IsCopies(base, rel, key, false) && ValidUnits(None, rel.rows, units)
    ensures multiset(Output(w, QualifySelect(base.cols, key), rel.cols, units)) == Distinct(MapBag(rel.rows, KeyFirstOf(|base.cols|)))
  {
    var sel := QualifySelect(base.cols, key);
    var f := KeyFirstOf(|base.cols|);
    QualifyRows(w, base, rel, key, units);
    forall i | 0 <= i < |units| { QualifyFlags(w, base, rel, key, units, i); }
    FirstOccurrences(OutRows(w, sel, rel.cols, units), KeptFlags(w, sel, rel.cols, units));
    UngroupedHeads(rel.rows, units);
    MapSeqBag(Heads(units), f);
  }

  // ---- grouping -------------------------------------------------------------------------------

  /** A column of a grouped select list: an aggregate of the column, or the column itself. */
  predicate GroupItem(item: Item, name: string) {
    item.alias == name && (item.expr == Col(name) || (item.expr.AggregateCall? && item.expr.arg == Col(name)))
  }

  predicate GroupItems(items: seq<Item>, cols: seq<string>) {
    |items| == |cols| && forall k :: 0 <= k < |items| ==> GroupItem(items[k], cols[k])
  }

  /** On a group whose rows are all the same row, MIN, MAX and ANY_VALUE give that row's value. */
  lemma GroupValue(w: World, item: Item, name: string, cols: seq<string>, units: seq<Unit>, i: nat)
    requires GroupItem(item, name) && NonEmpty(units) && i < |units|
    requires forall j :: 0 <= j < |units[i]| ==> units[i][j] == units[i][0]
    ensures Eval(w, item.expr, cols, units, i) == Lookup(cols, units[i][0], name)
  {
    ColumnValue(w, name, cols, units, i);
    if item.expr.AggregateCall? {
      var v := Lookup(cols, units[i][0], name);
      var vs := seq(|units[i]|, j requires 0 <= j < |units[i]| => Eval(w, item.expr.arg, cols, [[units[i][j]]], 0));
      forall j | 0 <= j < |vs|
        ensures vs[j] == v
      {
        ColumnValue(w, name, cols, [[units[i][j]]], 0);
      }
      ConstantExtremum(vs, v);
    }
  }

  predicate GroupSelect(sel: Select, cols: seq<string>) {
    && sel.projection.Some? && GroupItems(sel.projection.value, cols) && sel.groupBy.Some?
    && sel.filter.None? && sel.qualify.None? && !sel.distinct
  }

  lemma GroupOutRow(w: World, sel: Select, base: Rel, rel: Rel, key: string, units: seq<Unit>, i: nat)
    requires GroupSelect(sel, base.cols) && IsCopies(base, rel, key, false)
    requires NonEmpty(units) && i < |units| && units[i][0] in rel.rows
    requires forall j :: 0 <= j < |units[i]| ==> units[i][j] == units[i][0]
    ensures OutRow(w, sel, rel.cols, units, i) == PayloadOf(|base.cols|, false)(units[i][0])
  {
    var r := units[i][0];
    WideLookup(base, rel, key, false, r);
    forall k | 0 <= k < |base.cols|
      ensures Eval(w, sel.projection.value[k].expr, rel.cols, units, i) == r[k]
    {
      GroupValue(w, sel.projection.value[k], base.cols[k], rel.cols, units, i);
      assert rel.cols[k] == base.cols[k];
      LookupAt(rel.cols, r, k);
    }
  }

  lemma GroupOutput(w: World, sel: Select, base: Rel, rel: Rel, key: string, units: seq<Unit>)
    requires GroupSelect(sel, base.cols) && IsCopies(base, rel, key, false) && NonEmpty(units)
    requires forall i, j :: 0 <= i < |units| && 0 <= j < |units[i]| ==> units[i][j] == units[i][0] && units[i][j] in rel.rows
    ensures Output(w, sel, rel.cols, units) == MapSeq(Heads(units), PayloadOf(|base.cols|, false))
  {
    var outs := OutRows(w, sel, rel.cols, units);
    forall i | 0 <= i < |units|
      ensures outs[i] == PayloadOf(|base.cols|, false)(units[i][0])
    {
      GroupOutRow(w, sel, base, rel, key, units, i);
    }
    assert outs == MapSeq(Heads(units), PayloadOf(|base.cols|, false));
    CollectAll(OutRows(w, sel, rel.cols, units), KeptFlags(w, sel, rel.cols, units));
  }

  /** GROUP BY expressions that include the key put different rows in different groups. */
  lemma KeyVectorTells(w: World, base: Rel, rel: Rel, key: string, sel: Select)
    requires IsCopies(base, rel, key, false) && sel.groupBy.Some? && Col(key) in sel.groupBy.value
    ensures forall r, s :: r in rel.rows && s in rel.rows && GroupKey(w, sel.groupBy, rel.cols).value(r) == GroupKey(w, sel.groupBy, rel.cols).value(s) ==> r == s
  {
    var keys := sel.groupBy.value;
    var x :| 0 <= x < |keys| && keys[x] == Col(key);
    forall r, s | r in rel.rows && s in rel.rows && KeyVector(w, keys, rel.cols, r) == KeyVector(w, keys, rel.cols, s)
      ensures r == s
    {
      assert KeyVector(w, keys, rel.cols, r)[x] == KeyVector(w, keys, rel.cols, s)[x];
      ColumnValue(w, key, rel.cols, [[r]], 0);
      ColumnValue(w, key, rel.cols, [[s]], 0);
      WideLookup(base, rel, key, false, r);
      WideLookup(base, rel, key, false, s);
    }
  }

  lemma GroupItemAliases(items: seq<Item>, cols: seq<string>)
    requires GroupItems(items, cols)
    ensures Aliases(items) == cols
  {
  }

  /** Grouping copies by the key restores the base bag: duplicates in the base have their own keys. */
  lemma GroupCollapse(w: World, path: Path, base: Rel, rel: Rel, key: string, sel: Select)
    requires IsCopies(base, rel, key, false) && GroupSelect(sel, base.cols) && Col(key) in sel.groupBy.value
    ensures SelectRel(w, path, sel, rel) == Rel(base.cols, base.rows)
  {
    var units := SelectUnits(w, path, sel, rel);
    WhereNone(w, rel);
    KeyVectorTells(w, base, rel, key, sel);
    var grouping := GroupKey(w, sel.groupBy, rel.cols);
    GroupedHeads(grouping.value, rel.rows, units);
    forall i, j | 0 <= i < |units| && 0 <= j < |units[i]|
      ensures units[i][j] in rel.rows
    {
      HeadsMembers(grouping, rel.rows, units, i, j);
    }
    GroupOutput(w, sel, base, rel, key, units);
    MapSeqBag(Heads(units), PayloadOf(|base.cols|, false));
    GroupItemAliases(sel.projection.value, base.cols);
  }

  // ---- the tag channel ------------------------------------------------------------------------

  ghost predicate Marked(n: nat, keep: int, r: Row) {
    ExtraOf(n, false, r) == Int(keep)
  }

  ghost function MarkedOf(n: nat, keep: int): Row -> bool {
    (r: Row) => Marked(n, keep, r)
  }

  /** Every row carries a tag that is not NULL. */
  ghost predicate Tags(base: Rel, rel: Rel, tag: string) {
    && Wide(base, rel, tag, false)
    && forall r :: r in rel.rows ==> ExtraOf(|base.cols|, false, r).Int?
  }

  /** The rows tagged keep are the base rows. */
  ghost predicate IsTagged(base: Rel, rel: Rel, tag: string, keep: int) {
    && Tags(base, rel, tag)
    && MapBag(FilterBag(rel.rows, MarkedOf(|base.cols|, keep)), PayloadOf(|base.cols|, false)) == base.rows
  }

  /** No row is tagged keep. */
  ghost predicate IsFiller(base: Rel, rel: Rel, tag: string, keep: int) {
    && Tags(base, rel, tag)
    && forall r :: r in rel.rows ==> !Marked(|base.cols|, keep, r)
  }

  lemma TagUnion(base: Rel, a: Rel, b: Rel, tag: string, keep: int)
    requires IsTagged(base, a, tag, keep) && IsFiller(base, b, tag, keep)
    ensures IsTagged(base, a.(rows := a.rows + b.rows), tag, keep)
  {
    var p := MarkedOf(|base.cols|, keep);
    FilterUnion(a.rows, b.rows, p);
    FilterNothing(b.rows, p);
    assert FilterBag(a.rows + b.rows, p) == FilterBag(a.rows, p);
  }

  function TagItem(tag: string, value: int): Item { Item(tag, IntLiteral(value)) }

  lemma TaggedRow(w: World, base: Rel, wide: seq<string>, tag: string, value: int, r: Row)
    requires Embeds(wide, base.cols, 0) && |r| == |wide|
    ensures ProjectRow(w, Extended(base.cols, TagItem(tag, value)), wide, r) == r[..|base.cols|] + [Int(value)]
  {
    ExtendedRow(w, wide, base.cols, TagItem(tag, value), r);
  }

  /** The rows of a tagging SELECT, over the base or over an already wide relation. */
  lemma TagSelectRows(w: World, path: Path, sel: Select, base: Rel, src: Rel, tag: string, value: int)
    requires Shaped(base) && tag !in base.cols && Plain(sel)
    requires sel.projection == Some(Extended(base.cols, TagItem(tag, value)))
    requires Embeds(src.cols, base.cols, 0) && forall r :: r in src.rows ==> |r| == |src.cols|
    ensures SelectRel(w, path, sel, src) == Rel(base.cols + [tag], MapBag(Where(w, sel.filter, src), TagOf(|base.cols|, value)))
  {
    PlainSelect(w, path, sel, src);
    ExtendedAliases(base.cols, TagItem(tag, value));
    WhereMembers(w, sel.filter, src);
    var f := (r: Row) => PlainRow(w, sel, src.cols, r);
    forall r | r in Where(w, sel.filter, src)
      ensures f(r) == TagOf(|base.cols|, value)(r)
    {
      TaggedRow(w, base, src.cols, tag, value, r);
    }
    MapCong(Where(w, sel.filter, src), f, TagOf(|base.cols|, value));
  }

  /** The base part of a row, tagged. */
  ghost function TagOf(n: nat, value: int): Row -> Row {
    (r: Row) => if |r| < n then r else r[..n] + [Int(value)]
  }

  lemma TagRowsShape(base: Rel, m: multiset<Row>, value: int)
    requires Shaped(base) && forall r :: r in m ==> |r| >= |base.cols|
    ensures forall y :: y in MapBag(m, TagOf(|base.cols|, value)) ==> |y| == |base.cols| + 1 && y[|base.cols|] == Int(value)
  {
    forall y | y in MapBag(m, TagOf(|base.cols|, value))
      ensures |y| == |base.cols| + 1 && y[|base.cols|] == Int(value)
    {
      MapMember(m, TagOf(|base.cols|, value), y);
    }
  }

  lemma KeptRows(base: Rel, tag: string, keep: int)
    requires Shaped(base) && tag !in base.cols
    ensures IsTagged(base, Rel(base.cols + [tag], MapBag(base.rows, TagOf(|base.cols|, keep))), tag, keep)
  {
    var n := |base.cols|;
    var rows := MapBag(base.rows, TagOf(n, keep));
    TagRowsShape(base, base.rows, keep);
    FilterAll(rows, MarkedOf(n, keep));
    var id := (r: Row) => r;
    forall r | r in base.rows
      ensures id(r) == PayloadOf(n, false)(TagOf(n, keep)(r))
    {
      assert (r + [Int(keep)])[..n] == r;
    }
    MapCompose(base.rows, TagOf(n, keep), PayloadOf(n, false), id);
    MapIdentity(base.rows, id);
  }

  /** SELECT base columns, keep: every base row, marked. */
  lemma KeepSelect(w: World, path: Path, base: Rel, tag: string, keep: int)
    requires Shaped(base) && tag !in base.cols
    ensures SelectRel(w, path, BaseSelect(Extended(base.cols, TagItem(tag, keep))), base)
         == Rel(base.cols + [tag], MapBag(base.rows, TagOf(|base.cols|, keep)))
  {
    EmbedsSelf(base.cols);
    TagSelectRows(w, path, BaseSelect(Extended(base.cols, TagItem(tag, keep))), base, base, tag, keep);
    WhereNone(w, base);
  }

  /** SELECT base columns, value FROM tagged rows, with any filter: filler, when value is not keep. */
  lemma FillerSelect(w: World, path: Path, sel: Select, base: Rel, rel: Rel, tag: string, keep: int, value: int)
    requires Tags(base, rel, tag) && value != keep && Plain(sel)
    requires sel.projection == Some(Extended(base.cols, TagItem(tag, value)))
    ensures IsFiller(base, SelectRel(w, path, sel, rel), tag, keep)
  {
    EmbedsFront(base.cols, tag);
    TagSelectRows(w, path, sel, base, rel, tag, value);
    WhereMembers(w, sel.filter, rel);
    TagRowsShape(base, Where(w, sel.filter, rel), value);
  }

  lemma TagCompare(w: World, base: Rel, rel: Rel, tag: string, keep: int, c: Comparator, r: Row)
    requires Tags(base, rel, tag) && r in rel.rows && (c == Eq || c == Ne)
    ensures Passes(w, Some(Comparison(c, Col(tag), IntLiteral(keep))), rel.cols, r) == (Marked(|base.cols|, keep, r) == (c == Eq))
  {
    CompareLiteral(w, c, Col(tag), keep, rel.cols, [[r]], 0);
    ColumnValue(w, tag, rel.cols, [[r]], 0);
    WideLookup(base, rel, tag, false, r);
  }

  /** DELETE WHERE tag <> keep leaves the rows tagged keep. */
  lemma PruneKeeps(w: World, base: Rel, rel: Rel, tag: string, keep: int)
    requires Tags(base, rel, tag)
    ensures Deleted(w, PrunePredicate(tag, keep), rel) == rel.(rows := FilterBag(rel.rows, MarkedOf(|base.cols|, keep)))
  {
    forall r | r in rel.rows { TagCompare(w, base, rel, tag, keep, Ne, r); }
    FilterCong(rel.rows, r => !Passes(w, PrunePredicate(tag, keep), rel.cols, r), MarkedOf(|base.cols|, keep));
  }

  /** DELETE WHERE tag <> keep, then SELECT the base columns: the base bag. */
  lemma PruneRestores(w: World, path: Path, base: Rel, rel: Rel, tag: string, keep: int)
    requires IsTagged(base, rel, tag, keep)
    ensures SelectRel(w, path, BaseSelect(Passthrough(base.cols)), Deleted(w, PrunePredicate(tag, keep), rel)) == base
  {
    var left := Deleted(w, PrunePredicate(tag, keep), rel);
    PruneKeeps(w, base, rel, tag, keep);
    FilterMembers(rel.rows, MarkedOf(|base.cols|, keep));
    Unwiden(w, path, BaseSelect(Passthrough(base.cols)), base, left, tag, false);
    WhereNone(w, left);
  }

  /** SELECT the base columns WHERE tag = keep: the base bag. */
  lemma TagFilterRestores(w: World, path: Path, base: Rel, rel: Rel, tag: string, keep: int)
    requires IsTagged(base, rel, tag, keep)
    ensures SelectRel(w, path, BaseSelect(Passthrough(base.cols)).(filter := Some(Equals(Col(tag), IntLiteral(keep)))), rel) == base
  {
    var f := Some(Equals(Col(tag), IntLiteral(keep)));
    forall r | r in rel.rows { TagCompare(w, base, rel, tag, keep, Eq, r); }
    Unwiden(w, path, BaseSelect(Passthrough(base.cols)).(filter := f), base, rel, tag, false);
    FilterCong(rel.rows, r => Passes(w, f, rel.cols, r), MarkedOf(|base.cols|, keep));
  }
}

/** Compiler correctness: running what emit_equivalence writes builds a database in which every
    name reads as the tree says it should.

    Views are run again on every read, tables were filled once, and some nodes write to a table
    that an earlier node created, so no statement can be judged on its own. */
module Compile {
  import opened Bags
  import opened Expressions
  import opened Values
  import opened Queries
  import opened Graphs
  import opened Engine
  import opened Emission

  /** What an emission starts from. prior is the catalog before the first statement. */
  datatype Setup = Setup(w: World, style: Style, g: Graph, base: Rel, baseName: string, prior: Database)

  // ---- side conditions ----------------------------------------------------------------------

  ghost predicate DistinctEntries(db: Database) {
    forall i, j :: 0 <= i < j < |db| ==> db[i].name != db[j].name
  }

  /** The base table is installed under its hidden name. */
  ghost predicate BaseAt(c: Setup, db: Database, i: nat) {
    i < |db| && db[i] == Entry(c.baseName, TableObject(c.base))
  }

  ghost predicate Started(c: Setup) {
    && Ordered(c.g)
    && (forall n :: 0 <= n < |c.g| ==> NodeRenderable(c.style, c.g, n))
    && DistinctEntries(c.prior)
    && exists i: nat :: BaseAt(c, c.prior, i)
  }

  /** Every created name is new, and no two nodes create the same one. */
  ghost predicate FreshNames(c: Setup, order: seq<nat>) {
    && (forall n, k :: n in order && n < |c.g| && Creates(c.g[n]) && 0 <= k < |c.prior| ==> c.prior[k].name != c.g[n].name)
    && (forall n, m :: n in order && m in order && n < |c.g| && m < |c.g| && Creates(c.g[n]) && Creates(c.g[m]) && c.g[n].name == c.g[m].name ==> n == m)
  }

  /** A table that a node changes after creation is an input of that node and of no other. */
  ghost predicate SingleOwner(g: Graph, order: seq<nat>) {
    forall p, m :: p in order && m in order && p < |g| && m < |g| && Mutates(g[p]) && g[p].child in Children(g[m]) ==> m == p
  }

  /** What is asked of one node: rendering its query changes nothing, and a view gives the same
      rows on every occasion it is read. Nothing is asked of the database. */
  ghost predicate Faithful(c: Setup, n: nat)
    requires Started(c) && n < |c.g|
  {
    assert NodeOrdered(c.g, n) && NodeRenderable(c.style, c.g, n);
    var src := SourceReader(c.w, c.g, c.base, n);
    match c.g[n]
    case BaseTable => true
    case QueryNode(_) => true
    case CreateView(_, _) =>
      forall path :: QueryRel(c.w, path, Render(c.style, BodyOf(c.g, n)), src) == Content(c.w, c.g, c.base, n)
    case TagPrune(_, child, items, tagCol, keepValue) =>
      forall path :: SelectRel(c.w, path, BaseSelect(items), PrunedChild(c, n)) == Content(c.w, c.g, c.base, n)
    case InsertExtras(child, sel) =>
      QueryRel(c.w, [n], RenderSelect(c.style, child, sel), src) == SelectRel(c.w, [n], sel, Content(c.w, c.g, c.base, child))
    case _ =>
      QueryRel(c.w, [n], Render(c.style, BodyOf(c.g, n)), src) == Made(c, n)
  }

  /** The rows a CREATE TABLE of node n is filled with. */
  ghost function Made(c: Setup, n: nat): Rel
    requires Ordered(c.g) && n < |c.g| && FromQuery(c.g[n])
  {
    assert NodeOrdered(c.g, n);
    QueryRel(c.w, [n], BodyOf(c.g, n), SourceReader(c.w, c.g, c.base, n))
  }

  /** What is left of a pruned table. */
  ghost function PrunedChild(c: Setup, n: nat): Rel
    requires Ordered(c.g) && n < |c.g| && c.g[n].TagPrune?
  {
    assert NodeOrdered(c.g, n);
    Deleted(c.w, PrunePredicate(c.g[n].tagCol, c.g[n].keepValue), Content(c.w, c.g, c.base, c.g[n].child))
  }

  // ---- contents, unfolded -------------------------------------------------------------------

  lemma ContentOf(c: Setup, n: nat)
    requires Ordered(c.g) && n < |c.g|
    ensures c.g[n].BaseTable? ==> Content(c.w, c.g, c.base, n) == c.base
    ensures c.g[n].CreateView? || c.g[n].CreateTable? ==> Content(c.w, c.g, c.base, n) == Made(c, n)
    ensures c.g[n].DeleteReinsert? ==>
      Content(c.w, c.g, c.base, n) == Inserted(Deleted(c.w, c.g[n].mutation, Made(c, n)), Picked(c.w, Made(c, n).cols, c.g[n].mutation, c.base))
    ensures c.g[n].NoopUpdate? ==>
      Content(c.w, c.g, c.base, n) == Updated(c.w, c.g[n].assignments, c.g[n].mutation, Made(c, n))
  {
    assert NodeOrdered(c.g, n);
    if FromQuery(c.g[n]) {
      var src: Reader<nat> := (o: nat, s: nat) => if s < n then Content(c.w, c.g, c.base, s) else EMPTY_REL;
      QueryCong(c.w, [n], BodyOf(c.g, n), src, SourceReader(c.w, c.g, c.base, n));
    }
  }

  lemma {:induction false} ContentColumns(c: Setup, n: nat)
    requires Ordered(c.g) && n < |c.g|
    ensures Content(c.w, c.g, c.base, n).cols == Signature(c.g, c.base.cols, n)
    decreases n
  {
    assert NodeOrdered(c.g, n);
    forall k | 0 <= k < |Children(c.g[n])| { ContentColumns(c, Children(c.g[n])[k]); }
    if c.g[n].QueryNode? {
      var q := c.g[n].query;
      match q
      case SelectQ(s, _) => assert Children(c.g[n])[0] == s;
      case UnionAllQ(bs) => assert Children(c.g[n])[0] == bs[0];
      case ExceptAllQ(l, _) => assert Children(c.g[n])[0] == l;
      case IntersectAllQ(l, _) => assert Children(c.g[n])[0] == l;
      case CteQ(s, _, _, _) => assert Children(c.g[n])[0] == s;
      case _ =>
    } else if FromQuery(c.g[n]) {
      assert Children(c.g[n])[0] == c.g[n].body;
      MadeColumns(c, n);
      ContentOf(c, n);
    } else if c.g[n].InsertExtras? {
      assert Children(c.g[n])[0] == c.g[n].child;
    }
  }

  lemma MadeColumns(c: Setup, n: nat)
    requires Ordered(c.g) && n < |c.g| && FromQuery(c.g[n])
    requires var b := c.g[n].body; b < |c.g| && Content(c.w, c.g, c.base, b).cols == Signature(c.g, c.base.cols, b)
    ensures Made(c, n).cols == Signature(c.g, c.base.cols, c.g[n].body)
  {
    assert NodeOrdered(c.g, n);
    var b := c.g[n].body;
    assert NodeOrdered(c.g, b);
    var q := BodyOf(c.g, n);
    var src: Reader<nat> := (o: nat, s: nat) => if s < b then Content(c.w, c.g, c.base, s) else EMPTY_REL;
    assert Content(c.w, c.g, c.base, b) == QueryRel(c.w, [b], q, src);
    match q
    case SelectQ(s, _) => assert Children(c.g[b])[0] == s;
    case UnionAllQ(bs) => assert Children(c.g[b])[0] == bs[0];
    case ExceptAllQ(l, _) => assert Children(c.g[b])[0] == l;
    case IntersectAllQ(l, _) => assert Children(c.g[b])[0] == l;
    case CteQ(s, _, _, _) => assert Children(c.g[b])[0] == s;
    case _ =>
  }

  // ---- the invariant ------------------------------------------------------------------------

  /** What a catalog entry is holding at the moment: an object from before the emission, the rows of
      a node, or the leftovers of a table that a tag prune has deleted from. */
  datatype Slot = Foreign | Holds(node: nat) | Pruned(node: nat)

  /** Entry i is where node s is to be read. */
  ghost predicate SourceAt(c: Setup, db: Database, slots: seq<Slot>, s: nat, i: nat) {
    && s < |c.g| && i < |db| && i < |slots| && db[i].name == Ref(c.g, c.baseName, s)
    && (if c.g[s].BaseTable? then BaseAt(c, db, i) else slots[i] == Holds(s))
  }

  ghost predicate SlotOk(c: Setup, db: Database, slots: seq<Slot>, j: nat)
    requires Started(c) && j < |slots| <= |db|
  {
    match slots[j]
    case Foreign => true
    case Pruned(p) =>
      && p < |c.g| && c.g[p].TagPrune?
      && db[j] == Entry(Ref(c.g, c.baseName, c.g[p].child), TableObject(PrunedChild(c, p)))
    case Holds(m) => m < |c.g| && db[j].name == Ref(c.g, c.baseName, m) && HoldsNode(c, db, slots, j, m)
  }

  ghost predicate HoldsNode(c: Setup, db: Database, slots: seq<Slot>, j: nat, m: nat)
    requires Started(c) && j < |slots| <= |db| && m < |c.g|
  {
    assert NodeOrdered(c.g, m) && NodeRenderable(c.style, c.g, m);
    match c.g[m]
    case BaseTable => false
    case QueryNode(_) => false
    case CreateView(_, _) =>
      && db[j].object_ == ViewObject(Named(c.g, c.baseName, Render(c.style, BodyOf(c.g, m))))
      && forall s :: s in Sources(BodyOf(c.g, m)) ==> exists i: nat :: i < j && SourceAt(c, db, slots, s, i)
    case TagPrune(_, child, items, _, _) =>
      && db[j].object_ == ViewObject(SelectQ(Ref(c.g, c.baseName, child), BaseSelect(items)))
      && exists i :: 0 <= i < j && slots[i] == Pruned(m)
    case _ => db[j].object_ == TableObject(Content(c.w, c.g, c.base, m))
  }

  ghost predicate Readable(c: Setup, db: Database, slots: seq<Slot>)
    requires Started(c)
  {
    && |slots| <= |db| && DistinctEntries(db)
    && forall j :: 0 <= j < |slots| ==> SlotOk(c, db, slots, j)
  }

  lemma FindAt(db: Database, i: nat)
    requires DistinctEntries(db) && i < |db|
    ensures Find(db, db[i].name) == i
  {
    var k := Find(db, db[i].name);
    assert k <= i;
  }

  /** Reading an entry that holds a node gives the node's content, on every occasion. */
  lemma {:induction false} ReadHolds(c: Setup, db: Database, slots: seq<Slot>, j: nat, path: Path)
    requires Started(c) && Readable(c, db, slots) && j < |slots| && slots[j].Holds?
    requires forall n :: 0 <= n < |c.g| ==> Faithful(c, n)
    ensures slots[j].node < |c.g| && ReadAt(c.w, path, db, j) == Content(c.w, c.g, c.base, slots[j].node)
    decreases j
  {
    assert SlotOk(c, db, slots, j);
    var m := slots[j].node;
    assert NodeOrdered(c.g, m) && NodeRenderable(c.style, c.g, m) && Faithful(c, m);
    var rd: Reader<string> := (o: nat, s: string) =>
      if Find(db, s) < j then ReadAt(c.w, path + [o], db, Find(db, s)) else EMPTY_REL;
    if c.g[m].CreateView? {
      var q := Render(c.style, BodyOf(c.g, m));
      var src := SourceReader(c.w, c.g, c.base, m);
      RenderSources(c.style, BodyOf(c.g, m));
      forall o: nat, s | s in Sources(q)
        ensures rd(o, Ref(c.g, c.baseName, s)) == src(o, s)
      {
        var i: nat :| i < j && SourceAt(c, db, slots, s, i);
        FindAt(db, i);
        SourceBelow(c, m, s);
        if c.g[s].BaseTable? {
          ContentOf(c, s);
        } else {
          ReadHolds(c, db, slots, i, path + [o]);
        }
      }
      NamedRel(c.w, path, c.g, c.baseName, q, src, rd);
    } else if c.g[m].TagPrune? {
      var i :| 0 <= i < j && slots[i] == Pruned(m);
      assert SlotOk(c, db, slots, i);
      FindAt(db, i);
    }
  }

  lemma SourceBelow(c: Setup, m: nat, s: nat)
    requires Ordered(c.g) && m < |c.g| && FromQuery(c.g[m])
    requires NodeOrdered(c.g, m) && s in Sources(BodyOf(c.g, m))
    ensures s < c.g[m].body < m && s in Children(c.g[c.g[m].body]) && !c.g[s].QueryNode?
  {
    assert NodeOrdered(c.g, c.g[m].body);
  }

  // ---- one node at a time -------------------------------------------------------------------

  /** An emission order: what the walk produces, over nodes that may be emitted. */
  ghost predicate Scheduled(c: Setup, order: seq<nat>)
    requires Started(c)
  {
    && Below(order, |c.g|)
    && (forall i, j :: 0 <= i < j < |order| ==> order[i] != order[j])
    && InputsFirst(c.g, order, {})
    && SingleOwner(c.g, order)
    && FreshNames(c, order)
    && forall n :: 0 <= n < |c.g| ==> Faithful(c, n)
  }

  /** Some emitted node has changed m's table since, so its name no longer reads as m. */
  ghost predicate Consumed(g: Graph, done: seq<nat>, m: nat) {
    exists p :: p in done && p < |g| && Mutates(g[p]) && g[p].child == m
  }

  ghost predicate Inv(c: Setup, done: seq<nat>, db: Database, slots: seq<Slot>)
    requires Started(c)
  {
    && |c.prior| <= |slots| == |db| && Readable(c, db, slots)
    && (forall j :: 0 <= j < |c.prior| ==> db[j] == c.prior[j] && slots[j] == Foreign)
    && (forall j :: |c.prior| <= j < |db| ==> OwnName(c, done, db[j].name))
    && (forall j :: 0 <= j < |slots| && slots[j].Holds? ==> slots[j].node in done)
    && (forall m :: m in done && m < |c.g| && (Creates(c.g[m]) || c.g[m].InsertExtras?) && !Consumed(c.g, done, m) ==> Held(slots, m))
  }

  ghost predicate Held(slots: seq<Slot>, m: nat) {
    exists j :: 0 <= j < |slots| && slots[j] == Holds(m)
  }

  ghost predicate OwnName(c: Setup, done: seq<nat>, name: string) {
    exists m :: m in done && m < |c.g| && Creates(c.g[m]) && c.g[m].name == name
  }

  /** The next node of an order, and what was emitted before it. */
  ghost predicate Next(c: Setup, order: seq<nat>, k: nat, db: Database, slots: seq<Slot>)
    requires Started(c)
  {
    Scheduled(c, order) && k < |order| && order[k] < |c.g| && Inv(c, order[..k], db, slots)
  }

  /** An input of an emitted query node, or of the next node, can be read: nothing has taken its
      table over. */
  lemma InputReadable(c: Setup, order: seq<nat>, k: nat, db: Database, slots: seq<Slot>, reader: nat, s: nat) returns (i: nat)
    requires Started(c) && Next(c, order, k, db, slots)
    requires reader < |c.g| && s in Children(c.g[reader]) && s in order[..k] && s < |c.g| && !c.g[s].QueryNode?
    requires reader == order[k] || (reader in order[..k] && c.g[reader].QueryNode?)
    ensures SourceAt(c, db, slots, s, i)
  {
    if c.g[s].BaseTable? {
      var b: nat :| BaseAt(c, c.prior, b);
      i := b;
    } else {
      assert reader in order && forall p :: p in order[..k] ==> p in order;
      assert Held(slots, s);
      i :| 0 <= i < |slots| && slots[i] == Holds(s);
      assert SlotOk(c, db, slots, i);
    }
  }

  lemma InputBefore(c: Setup, order: seq<nat>, k: nat, s: nat)
    requires Started(c) && Scheduled(c, order) && k < |order| && s in Children(c.g[order[k]])
    ensures s in order[..k]
  {
    var none: set<nat> := {};
    assert s in none || s in order[..k];
  }

  /** Every source of the query that defines the next node can be read. */
  lemma SourcesReadable(c: Setup, order: seq<nat>, k: nat, db: Database, slots: seq<Slot>)
    requires Started(c) && Next(c, order, k, db, slots) && FromQuery(c.g[order[k]])
    ensures NodeOrdered(c.g, order[k])
    ensures forall s :: s in Sources(BodyOf(c.g, order[k])) ==> exists i: nat :: SourceAt(c, db, slots, s, i)
  {
    var n := order[k];
    assert NodeOrdered(c.g, n);
    var b := c.g[n].body;
    assert Children(c.g[n])[0] == b;
    InputBefore(c, order, k, b);
    forall s | s in Sources(BodyOf(c.g, n))
      ensures exists i: nat :: SourceAt(c, db, slots, s, i)
    {
      SourceBelow(c, n, s);
      var j :| 0 <= j < k && order[j] == b;
      InputBefore(c, order, j, s);
      var i := InputReadable(c, order, k, db, slots, b, s);
    }
  }

  /** A rendered query run against the database means what the query means over the tree. */
  lemma QueryRuns(c: Setup, db: Database, slots: seq<Slot>, path: Path, n: nat, q: Query<nat>)
    requires Started(c) && Readable(c, db, slots) && n <= |c.g|
    requires forall m :: 0 <= m < |c.g| ==> Faithful(c, m)
    requires forall s :: s in Sources(q) ==> s < n && exists i: nat :: SourceAt(c, db, slots, s, i)
    ensures AllFound(db, Sources(Named(c.g, c.baseName, q)))
    ensures QueryRel(c.w, path, Named(c.g, c.baseName, q), NamedReader(c.w, path, db))
         == QueryRel(c.w, path, q, SourceReader(c.w, c.g, c.base, n))
  {
    var rd := NamedReader(c.w, path, db);
    var src := SourceReader(c.w, c.g, c.base, n);
    forall o: nat, s | s in Sources(q)
      ensures Find(db, Ref(c.g, c.baseName, s)) < |db|
      ensures rd(o, Ref(c.g, c.baseName, s)) == src(o, s)
    {
      var i: nat :| SourceAt(c, db, slots, s, i);
      FindAt(db, i);
      if c.g[s].BaseTable? {
        ContentOf(c, s);
      } else {
        ReadHolds(c, db, slots, i, path + [o]);
      }
    }
    NamedRel(c.w, path, c.g, c.baseName, q, src, rd);
    NamedSources(c.g, c.baseName, q);
    var names := Sources(Named(c.g, c.baseName, q));
    forall x | x in names
      ensures Find(db, x) < |db|
    {
      var j :| 0 <= j < |names| && names[j] == x;
      assert Sources(q)[j] in Sources(q);
      assert rd(0, Ref(c.g, c.baseName, Sources(q)[j])) == src(0, Sources(q)[j]);
    }
  }

  // ---- creating -----------------------------------------------------------------------------

  /** The invariant once an object is appended for node n. */
  lemma InvAppend(c: Setup, order: seq<nat>, k: nat, db: Database, slots: seq<Slot>, e: Entry)
    requires Started(c) && Next(c, order, k, db, slots) && Creates(c.g[order[k]]) && !c.g[order[k]].TagPrune?
    requires e.name == c.g[order[k]].name
    requires HoldsNode(c, db + [e], slots + [Holds(order[k])], |db|, order[k])
    ensures Inv(c, order[..k + 1], db + [e], slots + [Holds(order[k])])
  {
    var n := order[k];
    var db', slots' := db + [e], slots + [Holds(n)];
    FreshEntry(c, order, k, db, slots);
    Extend(c, db, slots, e, Holds(n));
    Grown(c, order, k, db, slots, db', slots');
  }

  /** The name of the next node is not taken. */
  lemma FreshEntry(c: Setup, order: seq<nat>, k: nat, db: Database, slots: seq<Slot>)
    requires Started(c) && Next(c, order, k, db, slots) && Creates(c.g[order[k]])
    ensures Find(db, c.g[order[k]].name) == |db|
    ensures forall j :: 0 <= j < |db| ==> db[j].name != c.g[order[k]].name
  {
    var n := order[k];
    forall j | 0 <= j < |db|
      ensures db[j].name != c.g[n].name
    {
      if j < |c.prior| {
        assert db[j] == c.prior[j];
      } else {
        assert OwnName(c, order[..k], db[j].name);
        var m :| m in order[..k] && m < |c.g| && Creates(c.g[m]) && c.g[m].name == db[j].name;
        assert m in order && m != n;
      }
    }
  }

  /** Appending an entry leaves what the others hold as it was. */
  lemma Extend(c: Setup, db: Database, slots: seq<Slot>, e: Entry, slot: Slot)
    requires Started(c) && Readable(c, db, slots) && |slots| == |db|
    requires forall j :: 0 <= j < |db| ==> db[j].name != e.name
    requires SlotOk(c, db + [e], slots + [slot], |db|)
    ensures Readable(c, db + [e], slots + [slot])
  {
    forall j | 0 <= j < |db|
      ensures SlotOk(c, db + [e], slots + [slot], j)
    {
      assert SlotOk(c, db, slots, j);
      SlotMoves(c, db, slots, db + [e], slots + [slot], j);
    }
  }

  /** A slot's condition only looks at entries up to its own, and at those its view reads. */
  lemma SlotMoves(c: Setup, db: Database, slots: seq<Slot>, db': Database, slots': seq<Slot>, j: nat)
    requires Started(c) && j < |slots| <= |db| && j < |slots'| <= |db'|
    requires SlotOk(c, db, slots, j)
    requires db'[j] == db[j] && slots'[j] == slots[j]
    requires forall i :: 0 <= i < j ==> db'[i].name == db[i].name
    requires forall i :: 0 <= i < j && BaseAt(c, db, i) ==> db'[i] == db[i]
    requires forall i :: 0 <= i < j && slots[i].Pruned? ==> slots'[i] == slots[i]
    requires forall i :: 0 <= i < j && slots[i].Holds? && NeededBy(c, slots[j], slots[i].node) ==> slots'[i] == slots[i]
    ensures SlotOk(c, db', slots', j)
  {
    if slots[j].Holds? {
      var m := slots[j].node;
      assert NodeOrdered(c.g, m) && NodeRenderable(c.style, c.g, m);
      if c.g[m].CreateView? {
        forall s | s in Sources(BodyOf(c.g, m))
          ensures exists i: nat :: i < j && SourceAt(c, db', slots', s, i)
        {
          var i: nat :| i < j && SourceAt(c, db, slots, s, i);
          assert c.g[s].BaseTable? || NeededBy(c, slots[j], s);
          assert SourceAt(c, db', slots', s, i);
        }
      } else if c.g[m].TagPrune? {
        var i :| 0 <= i < j && slots[i] == Pruned(m);
        assert slots'[i] == Pruned(m);
      }
    }
  }

  /** s is read by the view in this slot. */
  ghost predicate NeededBy(c: Setup, slot: Slot, s: nat)
    requires Started(c)
  {
    && slot.Holds? && slot.node < |c.g| && c.g[slot.node].CreateView? && NodeOrdered(c.g, slot.node)
    && s in Sources(BodyOf(c.g, slot.node))
  }

  /** What node n may do to the catalog: keep what was there before it all, keep the names, add its own, and
      take over the slot of a table it mutates. */
  ghost predicate Continues(c: Setup, n: nat, db: Database, slots: seq<Slot>, db': Database, slots': seq<Slot>)
    requires n < |c.g|
  {
    && |c.prior| <= |slots| <= |slots'| == |db'| && |slots| == |db|
    && (forall j :: 0 <= j < |c.prior| ==> db'[j] == db[j] && slots'[j] == Foreign)
    && (forall j :: |c.prior| <= j < |db| ==> db'[j].name == db[j].name)
    && (forall j :: |db| <= j < |db'| ==> Creates(c.g[n]) && db'[j].name == c.g[n].name)
    && (forall j :: 0 <= j < |slots'| && slots'[j].Holds? ==> slots'[j] == Holds(n) || (j < |slots| && slots'[j] == slots[j]))
    && (forall j :: 0 <= j < |slots| && slots[j].Holds? ==> slots'[j] == slots[j] || (Mutates(c.g[n]) && slots[j].node == c.g[n].child))
  }

  /** The invariant for one more emitted node, given the new slots are right. */
  lemma Grown(c: Setup, order: seq<nat>, k: nat, db: Database, slots: seq<Slot>, db': Database, slots': seq<Slot>)
    requires Started(c) && Next(c, order, k, db, slots)
    requires Readable(c, db', slots') && Continues(c, order[k], db, slots, db', slots')
    requires Creates(c.g[order[k]]) || c.g[order[k]].InsertExtras? ==> Held(slots', order[k])
    ensures Inv(c, order[..k + 1], db', slots')
  {
    var n := order[k];
    var done, done' := order[..k], order[..k + 1];
    assert done' == done + [n];
    forall j | |c.prior| <= j < |db'|
      ensures OwnName(c, done', db'[j].name)
    {
      if j < |db| {
        assert OwnName(c, done, db[j].name);
        var m :| m in done && m < |c.g| && Creates(c.g[m]) && c.g[m].name == db[j].name;
        assert m in done';
      } else {
        assert n in done';
      }
    }
    forall m | m in done' && m < |c.g| && (Creates(c.g[m]) || c.g[m].InsertExtras?) && !Consumed(c.g, done', m)
      ensures Held(slots', m)
    {
      if m != n {
        assert m in done;
        assert forall p :: p in done ==> p in done';
        assert Held(slots, m);
        var j :| 0 <= j < |slots| && slots[j] == Holds(m);
        assert n in done';
        assert slots'[j] == Holds(m);
      }
    }
  }

  // ---- statements ---------------------------------------------------------------------------

  lemma RunOne(w: World, db: Database, s: Statement)
    ensures Run(w, db, [s]) == Execute(w, db, s)
  {
    assert [s][..0] == [];
    assert Run(w, db, []) == Done(db);
  }

  lemma RunTwo(w: World, db: Database, a: Statement, b: Statement)
    requires Execute(w, db, a).Done?
    ensures Run(w, db, [a, b]) == Execute(w, Execute(w, db, a).value, b)
  {
    RunOne(w, db, a);
    assert [a, b][..1] == [a];
  }

  /** A write to the table that was created last. */
  lemma WriteLast(db: Database, name: string, rel: Rel, sources: seq<string>, rel': Rel)
    requires DistinctEntries(db + [Entry(name, TableObject(rel))])
    requires AllFound(db + [Entry(name, TableObject(rel))], sources)
    ensures TableRel(db + [Entry(name, TableObject(rel))], name) == rel
    ensures Write(db + [Entry(name, TableObject(rel))], name, sources, rel') == Done(db + [Entry(name, TableObject(rel'))])
  {
    var e := Entry(name, TableObject(rel));
    FindAt(db + [e], |db|);
    var e' := Entry(name, TableObject(rel'));
    assert (db + [e])[|db| := e'] == db + [e'];
  }

  lemma RunSplitCreate(w: World, db: Database, n: nat, name: string, cols: seq<string>, q: Query<string>, made: Rel)
    requires Find(db, name) == |db| && DistinctEntries(db + [Entry(name, TableObject(Rel(cols, multiset{})))])
    requires
      var db1 := db + [Entry(name, TableObject(Rel(cols, multiset{})))];
      AllFound(db1, Sources(q)) && QueryRel(w, [n], q, NamedReader(w, [n], db1)) == made
    requires made.cols == cols
    ensures Run(w, db, [Statement(n, CreateEmptyTable(name, cols)), Statement(n, InsertQuery(name, q))])
         == Done(db + [Entry(name, TableObject(made))])
  {
    var empty := Rel(cols, multiset{});
    var a, b := Statement(n, CreateEmptyTable(name, cols)), Statement(n, InsertQuery(name, q));
    assert Execute(w, db, a) == Done(db + [Entry(name, TableObject(empty))]);
    FillEmpty(w, db, n, name, cols, q, made);
    RunTwo(w, db, a, b);
  }

  /** INSERT ... query into the empty table that was just created. */
  lemma FillEmpty(w: World, db: Database, n: nat, name: string, cols: seq<string>, q: Query<string>, made: Rel)
    requires DistinctEntries(db + [Entry(name, TableObject(Rel(cols, multiset{})))]) && made.cols == cols
    requires
      var db1 := db + [Entry(name, TableObject(Rel(cols, multiset{})))];
      AllFound(db1, Sources(q)) && QueryRel(w, [n], q, NamedReader(w, [n], db1)) == made
    ensures Execute(w, db + [Entry(name, TableObject(Rel(cols, multiset{})))], Statement(n, InsertQuery(name, q))) == Done(db + [Entry(name, TableObject(made))])
  {
    WriteLast(db, name, Rel(cols, multiset{}), Sources(q), made);
    assert Inserted(Rel(cols, multiset{}), made.rows) == made;
  }

  /** The statement or statements that create a table fill it with what its query means. */
  lemma TableCreated(c: Setup, order: seq<nat>, k: nat, db: Database, slots: seq<Slot>)
    requires Started(c) && Next(c, order, k, db, slots) && FromQuery(c.g[order[k]]) && !c.g[order[k]].CreateView?
    ensures Run(c.w, db, MakeSteps(c, order[k])) == Done(db + [Entry(c.g[order[k]].name, TableObject(Made(c, order[k])))])
    ensures c.g[order[k]].body < |c.g| && Made(c, order[k]).cols == Signature(c.g, c.base.cols, c.g[order[k]].body)
  {
    var n := order[k];
    assert NodeOrdered(c.g, n) && NodeRenderable(c.style, c.g, n) && Faithful(c, n);
    var q := Render(c.style, BodyOf(c.g, n));
    var named := Named(c.g, c.baseName, q);
    var name := c.g[n].name;
    var cols := Signature(c.g, c.base.cols, c.g[n].body);
    BodyReadable(c, order, k, db, slots);
    FreshEntry(c, order, k, db, slots);
    ContentColumns(c, c.g[n].body);
    MadeColumns(c, n);
    if c.style.splitCreate {
      var e := Entry(name, TableObject(Rel(cols, multiset{})));
      SplitReadable(c, db, slots, e);
      QueryRuns(c, db + [e], slots, [n], n, q);
      RunSplitCreate(c.w, db, n, name, cols, named, Made(c, n));
    } else {
      QueryRuns(c, db, slots, [n], n, q);
      RunOne(c.w, db, Statement(n, CreateTableAs(name, named)));
    }
  }

  /** The create steps of a node that makes a table. */
  function MakeSteps(c: Setup, n: nat): seq<Statement>
    requires Started(c) && n < |c.g| && FromQuery(c.g[n])
  {
    assert NodeOrdered(c.g, n) && NodeRenderable(c.style, c.g, n);
    CreateTableSteps(c.style, n, c.g[n].name, Signature(c.g, c.base.cols, c.g[n].body),
                     Named(c.g, c.baseName, Render(c.style, BodyOf(c.g, n))))
  }

  /** The sources of the rendered query of the next node. */
  lemma BodyReadable(c: Setup, order: seq<nat>, k: nat, db: Database, slots: seq<Slot>)
    requires Started(c) && Next(c, order, k, db, slots) && FromQuery(c.g[order[k]])
    ensures NodeOrdered(c.g, order[k]) && NodeRenderable(c.style, c.g, order[k])
    ensures Sources(Render(c.style, BodyOf(c.g, order[k]))) == Sources(BodyOf(c.g, order[k]))
    ensures forall s :: s in Sources(Render(c.style, BodyOf(c.g, order[k]))) ==>
      s < order[k] && exists i: nat :: SourceAt(c, db, slots, s, i)
  {
    var n := order[k];
    assert NodeOrdered(c.g, n) && NodeRenderable(c.style, c.g, n);
    RenderSources(c.style, BodyOf(c.g, n));
    SourcesReadable(c, order, k, db, slots);
    forall s | s in Sources(BodyOf(c.g, n)) ensures s < n { SourceBelow(c, n, s); }
  }

  /** An entry that no slot speaks about yet is not in anyone's way. */
  lemma SplitReadable(c: Setup, db: Database, slots: seq<Slot>, e: Entry)
    requires Started(c) && Readable(c, db, slots) && |slots| == |db|
    requires forall j :: 0 <= j < |db| ==> db[j].name != e.name
    ensures Readable(c, db + [e], slots)
    ensures forall s, i: nat :: SourceAt(c, db, slots, s, i) ==> SourceAt(c, db + [e], slots, s, i)
  {
    forall j | 0 <= j < |slots|
      ensures SlotOk(c, db + [e], slots, j)
    {
      SlotMoves(c, db, slots, db + [e], slots, j);
    }
  }

  /** Reading the base table by its hidden name. */
  lemma BaseRead(c: Setup, db: Database, path: Path)
    requires Started(c) && DistinctEntries(db) && |c.prior| <= |db|
    requires forall j :: 0 <= j < |c.prior| ==> db[j] == c.prior[j]
    ensures Find(db, c.baseName) < |db| && NamedReader(c.w, path, db)(0, c.baseName) == c.base
  {
    var i: nat :| BaseAt(c, c.prior, i);
    FindAt(db, i);
    assert db[i] == Entry(c.baseName, TableObject(c.base));
  }

  // ---- the step of each kind of node ----------------------------------------------------------

  lemma StepView(c: Setup, order: seq<nat>, k: nat, db: Database, slots: seq<Slot>) returns (db': Database, slots': seq<Slot>)
    requires Started(c) && Next(c, order, k, db, slots) && c.g[order[k]].CreateView?
    ensures Run(c.w, db, StepsAt(c, order[k])) == Done(db')
    ensures Inv(c, order[..k + 1], db', slots')
  {
    var n := order[k];
    BodyReadable(c, order, k, db, slots);
    var q := Render(c.style, BodyOf(c.g, n));
    var named := Named(c.g, c.baseName, q);
    FreshEntry(c, order, k, db, slots);
    QueryRuns(c, db, slots, [n], n, q);
    var e := Entry(c.g[n].name, ViewObject(named));
    db', slots' := db + [e], slots + [Holds(n)];
    RunOne(c.w, db, Statement(n, CreateViewAs(c.g[n].name, named)));
    forall s | s in Sources(BodyOf(c.g, n))
      ensures exists i: nat :: i < |db| && SourceAt(c, db', slots', s, i)
    {
      var i: nat :| SourceAt(c, db, slots, s, i);
      assert SourceAt(c, db', slots', s, i);
    }
    InvAppend(c, order, k, db, slots, e);
  }

  function StepsAt(c: Setup, n: nat): seq<Statement>
    requires Started(c) && n < |c.g|
  {
    assert NodeRenderable(c.style, c.g, n);
    Steps(c.style, c.g, c.baseName, c.base.cols, n)
  }

  /** A table node whose rows are final once the statements after its CREATE have run. */
  lemma FillTable(c: Setup, order: seq<nat>, k: nat, db: Database, slots: seq<Slot>, more: seq<Statement>)
      returns (db': Database, slots': seq<Slot>)
    requires Started(c) && Next(c, order, k, db, slots) && FromQuery(c.g[order[k]]) && !c.g[order[k]].CreateView?
    requires StepsAt(c, order[k]) == MakeSteps(c, order[k]) + more
    requires Run(c.w, db + [Entry(c.g[order[k]].name, TableObject(Made(c, order[k])))], more)
          == Done(db + [Entry(c.g[order[k]].name, TableObject(Content(c.w, c.g, c.base, order[k])))])
    ensures Run(c.w, db, StepsAt(c, order[k])) == Done(db')
    ensures Inv(c, order[..k + 1], db', slots')
  {
    var n := order[k];
    TableCreated(c, order, k, db, slots);
    RunConcat(c.w, db, MakeSteps(c, n), more);
    var e := Entry(c.g[n].name, TableObject(Content(c.w, c.g, c.base, n)));
    db', slots' := db + [e], slots + [Holds(n)];
    InvAppend(c, order, k, db, slots, e);
  }

  /** With the new table in place, names are still distinct. */
  lemma DistinctWith(c: Setup, order: seq<nat>, k: nat, db: Database, slots: seq<Slot>, rel: Rel)
    requires Started(c) && Next(c, order, k, db, slots) && Creates(c.g[order[k]])
    ensures DistinctEntries(db + [Entry(c.g[order[k]].name, TableObject(rel))])
  {
    FreshEntry(c, order, k, db, slots);
  }

  lemma RunUpdate(w: World, db: Database, n: nat, name: string, made: Rel, assignments: seq<Item>, p: Option<Expr>)
    requires DistinctEntries(db + [Entry(name, TableObject(made))])
    ensures Run(w, db + [Entry(name, TableObject(made))], [Statement(n, Update(name, assignments, p))]) == Done(db + [Entry(name, TableObject(Updated(w, assignments, p, made)))])
  {
    RunOne(w, db + [Entry(name, TableObject(made))], Statement(n, Update(name, assignments, p)));
    WriteLast(db, name, made, [], Updated(w, assignments, p, made));
  }

  lemma StepUpdate(c: Setup, order: seq<nat>, k: nat, db: Database, slots: seq<Slot>)
    requires Started(c) && Next(c, order, k, db, slots) && c.g[order[k]].NoopUpdate?
    ensures
      var node := c.g[order[k]];
      Run(c.w, db + [Entry(node.name, TableObject(Made(c, order[k])))], [Statement(order[k], Update(node.name, node.assignments, node.mutation))])
      == Done(db + [Entry(node.name, TableObject(Content(c.w, c.g, c.base, order[k])))])
  {
    var n := order[k];
    var node := c.g[n];
    var made := Made(c, n);
    DistinctWith(c, order, k, db, slots, made);
    ContentOf(c, n);
    RunUpdate(c.w, db, n, node.name, made, node.assignments, node.mutation);
  }

  lemma StepReinsert(c: Setup, order: seq<nat>, k: nat, db: Database, slots: seq<Slot>)
    requires Started(c) && Next(c, order, k, db, slots) && c.g[order[k]].DeleteReinsert?
    ensures
      var node := c.g[order[k]];
      Run(c.w, db + [Entry(node.name, TableObject(Made(c, order[k])))],
          [Statement(order[k], Delete(node.name, node.mutation)),
           Statement(order[k], InsertSelect(node.name, Made(c, order[k]).cols, c.baseName, node.mutation))])
      == Done(db + [Entry(node.name, TableObject(Content(c.w, c.g, c.base, order[k])))])
  {
    var n := order[k];
    var node := c.g[n];
    var made := Made(c, n);
    var left := Deleted(c.w, node.mutation, made);
    ContentOf(c, n);
    DistinctWith(c, order, k, db, slots, made);
    DistinctWith(c, order, k, db, slots, left);
    BaseRead(c, db + [Entry(node.name, TableObject(left))], [n]);
    RunReinsert(c.w, db, n, node.name, made, made.cols, c.baseName, c.base, node.mutation);
  }

  /** DELETE from the table created last, then INSERT into it what a source holds. */
  lemma RunReinsert(w: World, db: Database, n: nat, name: string, made: Rel, cols: seq<string>, source: string, base: Rel, p: Option<Expr>)
    requires DistinctEntries(db + [Entry(name, TableObject(made))])
    requires DistinctEntries(db + [Entry(name, TableObject(Deleted(w, p, made)))])
    requires
      var db1 := db + [Entry(name, TableObject(Deleted(w, p, made)))];
      Find(db1, source) < |db1| && NamedReader(w, [n], db1)(0, source) == base
    ensures Run(w, db + [Entry(name, TableObject(made))], [Statement(n, Delete(name, p)), Statement(n, InsertSelect(name, cols, source, p))])
         == Done(db + [Entry(name, TableObject(Inserted(Deleted(w, p, made), Picked(w, cols, p, base))))])
  {
    DeleteLast(w, db, n, name, made, p);
    ReinsertLast(w, db, n, name, Deleted(w, p, made), cols, source, base, p);
    RunTwo(w, db + [Entry(name, TableObject(made))], Statement(n, Delete(name, p)), Statement(n, InsertSelect(name, cols, source, p)));
  }

  lemma DeleteLast(w: World, db: Database, n: nat, name: string, made: Rel, p: Option<Expr>)
    requires DistinctEntries(db + [Entry(name, TableObject(made))])
    ensures Execute(w, db + [Entry(name, TableObject(made))], Statement(n, Delete(name, p))) == Done(db + [Entry(name, TableObject(Deleted(w, p, made)))])
  {
    WriteLast(db, name, made, [], Deleted(w, p, made));
  }

  lemma ReinsertLast(w: World, db: Database, n: nat, name: string, left: Rel, cols: seq<string>, source: string, base: Rel, p: Option<Expr>)
    requires DistinctEntries(db + [Entry(name, TableObject(left))])
    requires
      var db1 := db + [Entry(name, TableObject(left))];
      Find(db1, source) < |db1| && NamedReader(w, [n], db1)(0, source) == base
    ensures Execute(w, db + [Entry(name, TableObject(left))], Statement(n, InsertSelect(name, cols, source, p)))
      == Done(db + [Entry(name, TableObject(Inserted(left, Picked(w, cols, p, base))))])
  {
    WriteLast(db, name, left, [source], Inserted(left, Picked(w, cols, p, base)));
  }

  // ---- writing to a child's table -------------------------------------------------------------

  /** The table a mutating node writes to: its entry still holds the child, and no view reads it. */
  lemma ChildTable(c: Setup, order: seq<nat>, k: nat, db: Database, slots: seq<Slot>) returns (i: nat)
    requires Started(c) && Next(c, order, k, db, slots) && Mutates(c.g[order[k]])
    ensures i < |slots| && slots[i] == Holds(c.g[order[k]].child) && |c.prior| <= i
    ensures NodeOrdered(c.g, order[k]) && c.g[order[k]].child < order[k]
    ensures SourceAt(c, db, slots, c.g[order[k]].child, i)
    ensures db[i] == Entry(Ref(c.g, c.baseName, c.g[order[k]].child), TableObject(Content(c.w, c.g, c.base, c.g[order[k]].child)))
    ensures Find(db, Ref(c.g, c.baseName, c.g[order[k]].child)) == i
    ensures forall j :: 0 <= j < |slots| ==> !NeededBy(c, slots[j], c.g[order[k]].child)
  {
    var n := order[k];
    assert NodeOrdered(c.g, n);
    var child := c.g[n].child;
    assert Children(c.g[n])[0] == child;
    InputBefore(c, order, k, child);
    i := InputReadable(c, order, k, db, slots, n, child);
    assert SlotOk(c, db, slots, i);
    FindAt(db, i);
    forall j | 0 <= j < |slots| { ChildUnneeded(c, order, k, db, slots, j); }
  }

  /** No view that was emitted reads the table: it would be another owner. */
  lemma ChildUnneeded(c: Setup, order: seq<nat>, k: nat, db: Database, slots: seq<Slot>, j: nat)
    requires Started(c) && Next(c, order, k, db, slots) && Mutates(c.g[order[k]]) && j < |slots|
    ensures !NeededBy(c, slots[j], c.g[order[k]].child)
  {
    if NeededBy(c, slots[j], c.g[order[k]].child) {
      var m := slots[j].node;
      var x :| 0 <= x < k && order[x] == m;
      assert Children(c.g[m])[0] == c.g[m].body && order[k] in order;
      InputBefore(c, order, x, c.g[m].body);
    }
  }

  /** Rewriting the child's table leaves what every other entry holds as it was. */
  lemma Retarget(c: Setup, order: seq<nat>, k: nat, db: Database, slots: seq<Slot>, i: nat, rel: Rel, slot: Slot)
    requires Started(c) && Next(c, order, k, db, slots) && Mutates(c.g[order[k]])
    requires i < |slots| && |c.prior| <= i && slots[i] == Holds(c.g[order[k]].child)
    requires forall j :: 0 <= j < |slots| ==> !NeededBy(c, slots[j], c.g[order[k]].child)
    requires SlotOk(c, db[i := Entry(db[i].name, TableObject(rel))], slots[i := slot], i)
    ensures Readable(c, db[i := Entry(db[i].name, TableObject(rel))], slots[i := slot])
  {
    var db', slots' := db[i := Entry(db[i].name, TableObject(rel))], slots[i := slot];
    var b: nat :| BaseAt(c, c.prior, b);
    assert db[b] == c.prior[b];
    forall j | 0 <= j < |slots'|
      ensures SlotOk(c, db', slots', j)
    {
      if j != i {
        assert SlotOk(c, db, slots, j);
        assert !BaseAt(c, db, i);
        SlotMoves(c, db, slots, db', slots', j);
      }
    }
  }

  lemma ExtrasRun(w: World, db: Database, n: nat, i: nat, target: string, rel: Rel, q: Query<string>, more: multiset<Row>)
    requires i < |db| && db[i] == Entry(target, TableObject(rel)) && Find(db, target) == i
    requires AllFound(db, Sources(q)) && QueryRel(w, [n], q, NamedReader(w, [n], db)).rows == more
    ensures Run(w, db, [Statement(n, InsertQuery(target, q))]) == Done(db[i := Entry(target, TableObject(Inserted(rel, more)))])
  {
    RunOne(w, db, Statement(n, InsertQuery(target, q)));
  }

  /** What the INSERT of the next node does to the catalog. */
  lemma ExtrasStatement(c: Setup, order: seq<nat>, k: nat, db: Database, slots: seq<Slot>, i: nat)
    requires Started(c) && Next(c, order, k, db, slots) && c.g[order[k]].InsertExtras?
    requires i < |db| && c.g[order[k]].child < order[k]
    requires db[i] == Entry(Ref(c.g, c.baseName, c.g[order[k]].child), TableObject(Content(c.w, c.g, c.base, c.g[order[k]].child)))
    requires Find(db, db[i].name) == i && SourceAt(c, db, slots, c.g[order[k]].child, i)
    ensures Run(c.w, db, StepsAt(c, order[k])) == Done(db[i := Entry(db[i].name, TableObject(Content(c.w, c.g, c.base, order[k])))])
  {
    var n := order[k];
    assert NodeOrdered(c.g, n) && NodeRenderable(c.style, c.g, n) && Faithful(c, n);
    var child, sel := c.g[n].child, c.g[n].extras;
    ExtrasSources(c, db, slots, n, i);
    NamedSelect(c.g, c.baseName, c.style, child, sel);
    ExtrasContent(c, n);
    var rel := Content(c.w, c.g, c.base, child);
    ExtrasRun(c.w, db, n, i, db[i].name, rel, Named(c.g, c.baseName, RenderSelect(c.style, child, sel)), SelectRel(c.w, [n], sel, rel).rows);
  }

  /** The query of an INSERT of extras reads the child and gives the extras. */
  lemma ExtrasSources(c: Setup, db: Database, slots: seq<Slot>, n: nat, i: nat)
    requires Started(c) && Readable(c, db, slots) && n < |c.g| && c.g[n].InsertExtras? && c.g[n].child < n
    requires NodeRenderable(c.style, c.g, n) && SourceAt(c, db, slots, c.g[n].child, i)
    requires forall m :: 0 <= m < |c.g| ==> Faithful(c, m)
    ensures
      var q: Query<nat> := RenderSelect(c.style, c.g[n].child, c.g[n].extras);
      && AllFound(db, Sources(Named(c.g, c.baseName, q)))
      && QueryRel(c.w, [n], Named(c.g, c.baseName, q), NamedReader(c.w, [n], db)) == SelectRel(c.w, [n], c.g[n].extras, Content(c.w, c.g, c.base, c.g[n].child))
  {
    var q: Query<nat> := RenderSelect(c.style, c.g[n].child, c.g[n].extras);
    RenderedSource(c.style, c.g[n].child, c.g[n].extras);
    QueryRuns(c, db, slots, [n], n, q);
    ExtrasMeaning(c, n);
  }

  lemma RenderedSource(style: Style, s: nat, sel: Select)
    requires Renderable<nat>(style, SelectQ(s, sel))
    ensures Sources(RenderSelect<nat>(style, s, sel)) == [s]
  {
    RenderSources<nat>(style, SelectQ(s, sel));
    assert Render<nat>(style, SelectQ(s, sel)) == RenderSelect(style, s, sel);
  }

  lemma ExtrasMeaning(c: Setup, n: nat)
    requires Started(c) && n < |c.g| && c.g[n].InsertExtras? && c.g[n].child < n && NodeRenderable(c.style, c.g, n) && Faithful(c, n)
    ensures QueryRel(c.w, [n], RenderSelect(c.style, c.g[n].child, c.g[n].extras), SourceReader(c.w, c.g, c.base, n))
      == SelectRel(c.w, [n], c.g[n].extras, Content(c.w, c.g, c.base, c.g[n].child))
  {
  }

  lemma StepExtras(c: Setup, order: seq<nat>, k: nat, db: Database, slots: seq<Slot>) returns (db': Database, slots': seq<Slot>)
    requires Started(c) && Next(c, order, k, db, slots) && c.g[order[k]].InsertExtras?
    ensures Run(c.w, db, StepsAt(c, order[k])) == Done(db')
    ensures Inv(c, order[..k + 1], db', slots')
  {
    var i := ChildTable(c, order, k, db, slots);
    ExtrasStatement(c, order, k, db, slots, i);
    db' := db[i := Entry(db[i].name, TableObject(Content(c.w, c.g, c.base, order[k])))];
    slots' := slots[i := Holds(order[k])];
    ExtrasInv(c, order, k, db, slots, i);
  }

  lemma ExtrasInv(c: Setup, order: seq<nat>, k: nat, db: Database, slots: seq<Slot>, i: nat)
    requires Started(c) && Next(c, order, k, db, slots) && c.g[order[k]].InsertExtras?
    requires i < |slots| && |c.prior| <= i && slots[i] == Holds(c.g[order[k]].child)
    requires db[i].name == Ref(c.g, c.baseName, order[k])
    requires forall j :: 0 <= j < |slots| ==> !NeededBy(c, slots[j], c.g[order[k]].child)
    ensures Inv(c, order[..k + 1], db[i := Entry(db[i].name, TableObject(Content(c.w, c.g, c.base, order[k])))], slots[i := Holds(order[k])])
  {
    var rel := Content(c.w, c.g, c.base, order[k]);
    ExtrasReadable(c, order, k, db, slots, i, rel);
    Grown(c, order, k, db, slots, db[i := Entry(db[i].name, TableObject(rel))], slots[i := Holds(order[k])]);
  }

  lemma ExtrasReadable(c: Setup, order: seq<nat>, k: nat, db: Database, slots: seq<Slot>, i: nat, rel: Rel)
    requires Started(c) && Next(c, order, k, db, slots) && c.g[order[k]].InsertExtras?
    requires i < |slots| && |c.prior| <= i && slots[i] == Holds(c.g[order[k]].child)
    requires db[i].name == Ref(c.g, c.baseName, order[k]) && rel == Content(c.w, c.g, c.base, order[k])
    requires forall j :: 0 <= j < |slots| ==> !NeededBy(c, slots[j], c.g[order[k]].child)
    ensures Readable(c, db[i := Entry(db[i].name, TableObject(rel))], slots[i := Holds(order[k])])
    ensures Held(slots[i := Holds(order[k])], order[k])
  {
    var db', slots' := db[i := Entry(db[i].name, TableObject(rel))], slots[i := Holds(order[k])];
    assert HoldsNode(c, db', slots', i, order[k]);
    Retarget(c, order, k, db, slots, i, rel, Holds(order[k]));
    assert slots'[i] == Holds(order[k]);
  }

  lemma ExtrasContent(c: Setup, n: nat)
    requires Ordered(c.g) && n < |c.g| && NodeOrdered(c.g, n) && c.g[n].InsertExtras?
    ensures Content(c.w, c.g, c.base, n) ==
      Inserted(Content(c.w, c.g, c.base, c.g[n].child), SelectRel(c.w, [n], c.g[n].extras, Content(c.w, c.g, c.base, c.g[n].child)).rows)
  {
  }

  /** Writing the source as a name commutes with rendering. */
  lemma NamedSelect(g: Graph, baseName: string, style: Style, s: nat, sel: Select)
    requires Renderable<nat>(style, SelectQ(s, sel))
    ensures Named(g, baseName, RenderSelect(style, s, sel)) == RenderSelect(style, Ref(g, baseName, s), sel)
  {
    var r := RenderSelect(style, s, sel);
    if r.Derived? && r.body.Derived? {
      assert Named(g, baseName, r.body) == Derived(r.body.select, Named(g, baseName, r.body.body));
    }
  }

  /** The table as the prune leaves it. */
  ghost function PrunedDb(c: Setup, n: nat, db: Database, i: nat): Database
    requires Started(c) && n < |c.g| && c.g[n].TagPrune? && i < |db|
  {
    db[i := Entry(db[i].name, TableObject(PrunedChild(c, n)))]
  }

  /** The view that exposes what is left, as a catalog entry. */
  function PruneView(c: Setup, n: nat): Entry
    requires n < |c.g| && c.g[n].TagPrune?
  {
    Entry(c.g[n].name, ViewObject(SelectQ(Ref(c.g, c.baseName, c.g[n].child), BaseSelect(c.g[n].baseItems))))
  }

  lemma StepPrune(c: Setup, order: seq<nat>, k: nat, db: Database, slots: seq<Slot>) returns (db': Database, slots': seq<Slot>)
    requires Started(c) && Next(c, order, k, db, slots) && c.g[order[k]].TagPrune?
    ensures Run(c.w, db, StepsAt(c, order[k])) == Done(db')
    ensures Inv(c, order[..k + 1], db', slots')
  {
    var n := order[k];
    var i := ChildTable(c, order, k, db, slots);
    var db1, slots1 := PrunedDb(c, n, db, i), slots[i := Pruned(n)];
    db', slots' := db1 + [PruneView(c, n)], slots1 + [Holds(n)];
    PruneStatements(c, order, k, db, slots, i);
    PruneInv(c, order, k, db, slots, i);
  }

  lemma PruneInv(c: Setup, order: seq<nat>, k: nat, db: Database, slots: seq<Slot>, i: nat)
    requires Started(c) && Next(c, order, k, db, slots) && c.g[order[k]].TagPrune?
    requires i < |slots| && |c.prior| <= i && slots[i] == Holds(c.g[order[k]].child)
    requires db[i].name == Ref(c.g, c.baseName, c.g[order[k]].child)
    requires forall j :: 0 <= j < |slots| ==> !NeededBy(c, slots[j], c.g[order[k]].child)
    ensures Inv(c, order[..k + 1], PrunedDb(c, order[k], db, i) + [PruneView(c, order[k])], slots[i := Pruned(order[k])] + [Holds(order[k])])
  {
    PruneReadable(c, order, k, db, slots, i);
    PruneContinues(c, order[k], db, slots, i, PrunedDb(c, order[k], db, i)[i], PruneView(c, order[k]));
    Grown(c, order, k, db, slots, PrunedDb(c, order[k], db, i) + [PruneView(c, order[k])], slots[i := Pruned(order[k])] + [Holds(order[k])]);
  }

  lemma PruneContinues(c: Setup, n: nat, db: Database, slots: seq<Slot>, i: nat, e: Entry, view: Entry)
    requires n < |c.g| && c.g[n].TagPrune? && |c.prior| <= i < |slots| == |db| && slots[i] == Holds(c.g[n].child)
    requires forall j :: 0 <= j < |c.prior| ==> slots[j] == Foreign
    requires e.name == db[i].name && view.name == c.g[n].name
    ensures Continues(c, n, db, slots, db[i := e] + [view], slots[i := Pruned(n)] + [Holds(n)])
  {
    var db', slots' := db[i := e] + [view], slots[i := Pruned(n)] + [Holds(n)];
    assert Creates(c.g[n]) && Mutates(c.g[n]) && slots'[|slots|] == Holds(n) && db'[|db|] == view;
    forall j | 0 <= j < |slots| ensures slots'[j] == (if j == i then Pruned(n) else slots[j]) && db'[j] == (if j == i then e else db[j]) {}
  }

  lemma PruneStatements(c: Setup, order: seq<nat>, k: nat, db: Database, slots: seq<Slot>, i: nat)
    requires Started(c) && Next(c, order, k, db, slots) && c.g[order[k]].TagPrune?
    requires i < |db| && c.g[order[k]].child < order[k]
    requires db[i] == Entry(Ref(c.g, c.baseName, c.g[order[k]].child), TableObject(Content(c.w, c.g, c.base, c.g[order[k]].child)))
    ensures Run(c.w, db, StepsAt(c, order[k])) == Done(PrunedDb(c, order[k], db, i) + [PruneView(c, order[k])])
  {
    var n := order[k];
    var node := c.g[n];
    var db1 := PrunedDb(c, n, db, i);
    FreshEntry(c, order, k, db, slots);
    assert forall j :: 0 <= j < |db1| ==> db1[j].name == db[j].name;
    FindAt(db, i);
    FindAt(db1, i);
    PruneRuns(c.w, db, n, i, db[i].name, Content(c.w, c.g, c.base, node.child), PrunePredicate(node.tagCol, node.keepValue), node.name, BaseSelect(node.baseItems));
  }

  lemma PruneReadable(c: Setup, order: seq<nat>, k: nat, db: Database, slots: seq<Slot>, i: nat)
    requires Started(c) && Next(c, order, k, db, slots) && c.g[order[k]].TagPrune?
    requires i < |slots| && |c.prior| <= i && slots[i] == Holds(c.g[order[k]].child)
    requires db[i].name == Ref(c.g, c.baseName, c.g[order[k]].child)
    requires forall j :: 0 <= j < |slots| ==> !NeededBy(c, slots[j], c.g[order[k]].child)
    ensures Readable(c, PrunedDb(c, order[k], db, i) + [PruneView(c, order[k])], slots[i := Pruned(order[k])] + [Holds(order[k])])
    ensures Held(slots[i := Pruned(order[k])] + [Holds(order[k])], order[k])
  {
    var n := order[k];
    var db1, slots1 := PrunedDb(c, n, db, i), slots[i := Pruned(n)];
    assert SlotOk(c, db1, slots1, i);
    Retarget(c, order, k, db, slots, i, PrunedChild(c, n), Pruned(n));
    FreshEntry(c, order, k, db, slots);
    assert forall j :: 0 <= j < |db1| ==> db1[j].name == db[j].name;
    PrunedSlot(c, n, db1 + [PruneView(c, n)], slots1 + [Holds(n)], i);
    Extend(c, db1, slots1, PruneView(c, n), Holds(n));
    assert (slots1 + [Holds(n)])[|slots1|] == Holds(n);
  }

  lemma PrunedSlot(c: Setup, n: nat, db: Database, slots: seq<Slot>, i: nat)
    requires Started(c) && n < |c.g| && c.g[n].TagPrune? && i < |slots| - 1 && |slots| == |db|
    requires slots[i] == Pruned(n) && slots[|slots| - 1] == Holds(n)
    requires db[|db| - 1] == Entry(c.g[n].name, ViewObject(SelectQ(Ref(c.g, c.baseName, c.g[n].child), BaseSelect(c.g[n].baseItems))))
    ensures SlotOk(c, db, slots, |slots| - 1)
  {
    assert NodeOrdered(c.g, n) && NodeRenderable(c.style, c.g, n);
  }

  lemma PruneRuns(w: World, db: Database, n: nat, i: nat, target: string, rel: Rel, p: Option<Expr>, name: string, sel: Select)
    requires i < |db| && db[i] == Entry(target, TableObject(rel)) && Find(db, target) == i
    requires
      var db1 := db[i := Entry(target, TableObject(Deleted(w, p, rel)))];
      Find(db1, target) == i && forall j :: 0 <= j < |db1| ==> db1[j].name != name
    ensures Run(w, db, [Statement(n, Delete(target, p)), Statement(n, CreateViewAs(name, SelectQ(target, sel)))])
      == Done(db[i := Entry(target, TableObject(Deleted(w, p, rel)))] + [Entry(name, ViewObject(SelectQ(target, sel)))])
  {
    RunTwo(w, db, Statement(n, Delete(target, p)), Statement(n, CreateViewAs(name, SelectQ(target, sel))));
  }

  // ---- whole scripts --------------------------------------------------------------------------

  lemma StepNode(c: Setup, order: seq<nat>, k: nat, db: Database, slots: seq<Slot>) returns (db': Database, slots': seq<Slot>)
    requires Started(c) && Next(c, order, k, db, slots)
    ensures Run(c.w, db, StepsAt(c, order[k])) == Done(db')
    ensures Inv(c, order[..k + 1], db', slots')
  {
    var n := order[k];
    assert NodeOrdered(c.g, n) && NodeRenderable(c.style, c.g, n);
    match c.g[n]
    case CreateView(_, _) => db', slots' := StepView(c, order, k, db, slots);
    case TagPrune(_, _, _, _, _) => db', slots' := StepPrune(c, order, k, db, slots);
    case InsertExtras(_, _) => db', slots' := StepExtras(c, order, k, db, slots);
    case CreateTable(_, _) =>
      TableCreated(c, order, k, db, slots);
      ContentOf(c, n);
      assert StepsAt(c, n) == MakeSteps(c, n) + [];
      db', slots' := FillTable(c, order, k, db, slots, []);
    case NoopUpdate(name, _, assignments, p) =>
      StepUpdate(c, order, k, db, slots);
      db', slots' := FillTable(c, order, k, db, slots, [Statement(n, Update(name, assignments, p))]);
    case DeleteReinsert(name, _, p) =>
      TableCreated(c, order, k, db, slots);
      StepReinsert(c, order, k, db, slots);
      db', slots' := FillTable(c, order, k, db, slots,
        [Statement(n, Delete(name, p)), Statement(n, InsertSelect(name, Made(c, n).cols, c.baseName, p))]);
    case _ =>
      db', slots' := db, slots;
      assert StepsAt(c, n) == [];
      Grown(c, order, k, db, slots, db, slots);
  }

  ghost function Table(c: Setup): seq<seq<Statement>>
    requires Started(c)
  {
    StepTable(c.style, c.g, c.baseName, c.base.cols)
  }

  lemma {:induction false} RunOrder(c: Setup, order: seq<nat>, k: nat) returns (db: Database, slots: seq<Slot>)
    requires Started(c) && Scheduled(c, order) && k <= |order|
    ensures Below(order[..k], |c.g|) && Run(c.w, c.prior, Script(Table(c), order[..k])) == Done(db)
    ensures Inv(c, order[..k], db, slots)
    decreases k
  {
    if k == 0 {
      db, slots := c.prior, seq(|c.prior|, _ => Foreign);
      assert order[..0] == [];
    } else {
      var db1, slots1 := RunOrder(c, order, k - 1);
      db, slots := StepNode(c, order, k - 1, db1, slots1);
      assert order[..k][..|order[..k]| - 1] == order[..k - 1];
      RunConcat(c.w, c.prior, Script(Table(c), order[..k - 1]), StepsAt(c, order[k - 1]));
    }
  }

  /** COMPILER CORRECTNESS. Running the statements of everything the root reaches fails nowhere, and
      afterwards the root's name reads as the root's content, whenever and however it is read.
      Objects that were in the catalog before are still there, unchanged. */
  lemma EmissionCorrect(c: Setup, root: nat) returns (db: Database)
    requires Started(c) && root < |c.g| && (Creates(c.g[root]) || c.g[root].InsertExtras?)
    requires Scheduled(c, Visit(c.g, root, {}))
    ensures Below(Visit(c.g, root, {}), |c.g|)
    ensures Run(c.w, c.prior, Script(Table(c), Visit(c.g, root, {}))) == Done(db)
    ensures Find(db, Ref(c.g, c.baseName, root)) < |db|
    ensures forall path :: ReadAt(c.w, path, db, Find(db, Ref(c.g, c.baseName, root))) == Content(c.w, c.g, c.base, root)
    ensures DistinctEntries(db) && c.prior <= db
    ensures forall j :: |c.prior| <= j < |db| ==> OwnName(c, Visit(c.g, root, {}), db[j].name)
  {
    var order := Visit(c.g, root, {});
    WalkOrder(c.g, root);
    var slots: seq<Slot>;
    db, slots := RunOrder(c, order, |order|);
    assert order[..|order|] == order;
    RootKept(c, root);
    RootReads(c, order, db, slots, root);
  }

  /** Nothing that the root reaches changes the root's own table. */
  lemma RootKept(c: Setup, root: nat)
    requires Started(c) && root < |c.g|
    ensures !Consumed(c.g, Visit(c.g, root, {}), root)
  {
    var order := Visit(c.g, root, {});
    WalkOrder(c.g, root);
    forall p | p in order && p < |c.g| && Mutates(c.g[p])
      ensures c.g[p].child != root
    {
      assert NodeOrdered(c.g, p);
      ReachBound(c.g, root, p);
    }
  }

  lemma RootReads(c: Setup, order: seq<nat>, db: Database, slots: seq<Slot>, root: nat)
    requires Started(c) && Inv(c, order, db, slots) && root in order && root < |c.g| && (Creates(c.g[root]) || c.g[root].InsertExtras?)
    requires !Consumed(c.g, order, root) && forall n :: 0 <= n < |c.g| ==> Faithful(c, n)
    ensures Find(db, Ref(c.g, c.baseName, root)) < |db|
    ensures forall path :: ReadAt(c.w, path, db, Find(db, Ref(c.g, c.baseName, root))) == Content(c.w, c.g, c.base, root)
  {
    assert Held(slots, root);
    var i :| 0 <= i < |slots| && slots[i] == Holds(root);
    assert SlotOk(c, db, slots, i);
    FindAt(db, i);
    forall path { ReadHolds(c, db, slots, i, path); }
  }

  lemma {:induction false} ReachBound(g: Graph, n: nat, m: nat)
    requires Ordered(g) && n < |g| && Reaches(g, n, m)
    ensures m <= n
    decreases n
  {
    if n != m {
      assert NodeOrdered(g, n);
      var x :| x in Children(g[n]) && Reaches(g, x, m);
      ReachBound(g, x, m);
    }
  }
}

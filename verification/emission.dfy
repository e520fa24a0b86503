/** The walk that decides statement order: inputs before the node that reads them, each node once. */
module Emission {
  import opened Bags
  import opened Queries
  import opened Graphs

  // ---- the order ----------------------------------------------------------------------------

  /** The nodes a visit of n adds, in the order their steps are emitted, when seen is marked. */
  ghost function Visit(g: Graph, n: nat, seen: set<nat>): seq<nat>
    requires Ordered(g) && n < |g|
    decreases n, 1, 0
  {
    if n in seen then []
    else
      assert NodeOrdered(g, n);
      VisitAll(g, n, Children(g[n]), seen + {n}) + [n]
  }

  /** The same for a list of inputs of a node, left to right. */
  ghost function VisitAll(g: Graph, bound: nat, ns: seq<nat>, seen: set<nat>): seq<nat>
    requires Ordered(g) && bound <= |g|
    requires Below(ns, bound)
    decreases bound, 0, |ns|
  {
    if ns == [] then []
    else
      var k := |ns| - 1;
      var before := VisitAll(g, bound, ns[..k], seen);
      assert ns[k] in ns;
      before + Visit(g, ns[k], seen + Elements(before))
  }

  ghost predicate Below(ns: seq<nat>, bound: nat) {
    forall i :: 0 <= i < |ns| ==> ns[i] < bound
  }

  ghost function Elements(s: seq<nat>): set<nat> {
    set x | x in s
  }

  /** m is n or an input of something n reaches. */
  ghost predicate Reaches(g: Graph, n: nat, m: nat)
    requires Ordered(g) && n < |g|
    decreases n
  {
    assert NodeOrdered(g, n);
    n == m || exists c :: c in Children(g[n]) && Reaches(g, c, m)
  }

  /** Every marked node up to bound has its inputs marked. Nodes above it may be half done. */
  ghost predicate Settled(g: Graph, seen: set<nat>, bound: nat) {
    forall s, c :: s in seen && s < bound && s < |g| && c in Children(g[s]) ==> c in seen
  }

  ghost predicate Distinctly(order: seq<nat>, seen: set<nat>) {
    && (forall i, j :: 0 <= i < j < |order| ==> order[i] != order[j])
    && (forall i :: 0 <= i < |order| ==> order[i] !in seen)
  }

  /** Each listed node comes after all its inputs. */
  ghost predicate InputsFirst(g: Graph, order: seq<nat>, seen: set<nat>) {
    forall i, c :: 0 <= i < |order| && order[i] < |g| && c in Children(g[order[i]]) ==> c in seen || c in order[..i]
  }

  ghost predicate Visited(g: Graph, order: seq<nat>, seen: set<nat>, bound: nat) {
    && Distinctly(order, seen)
    && InputsFirst(g, order, seen)
    && Settled(g, seen + Elements(order), bound)
    && Below(order, bound)
  }

  lemma VisitedConcat(g: Graph, a: seq<nat>, b: seq<nat>, seen: set<nat>, bound: nat)
    requires Distinctly(a, seen) && InputsFirst(g, a, seen) && Below(a, bound)
    requires Visited(g, b, seen + Elements(a), bound)
    ensures Visited(g, a + b, seen, bound)
  {
    var ab := a + b;
    assert seen + Elements(ab) == (seen + Elements(a)) + Elements(b);
    forall i, c | 0 <= i < |ab| && ab[i] < |g| && c in Children(g[ab[i]])
      ensures c in seen || c in ab[..i]
    {
      if i < |a| {
        assert ab[..i] == a[..i];
      } else {
        assert ab[..i] == a + b[..i - |a|];
        assert b[i - |a|] == ab[i];
      }
    }
    forall i, j | 0 <= i < j < |ab|
      ensures ab[i] != ab[j]
    {
      if i < |a| <= j {
        assert b[j - |a|] !in seen + Elements(a);
      } else if |a| <= i {
        assert b[i - |a|] != b[j - |a|];
      }
    }
    forall i | 0 <= i < |ab|
      ensures ab[i] !in seen
    {
      if i >= |a| { assert b[i - |a|] !in seen + Elements(a); }
    }
  }

  lemma {:induction false} VisitProperties(g: Graph, n: nat, seen: set<nat>)
    requires Ordered(g) && n < |g| && Settled(g, seen, n + 1)
    ensures Visited(g, Visit(g, n, seen), seen, n + 1)
    ensures n in seen + Elements(Visit(g, n, seen))
    decreases n, 1, 0
  {
    var order := Visit(g, n, seen);
    if n in seen {
      assert seen + Elements(order) == seen;
    } else {
      assert NodeOrdered(g, n);
      var below := VisitAll(g, n, Children(g[n]), seen + {n});
      VisitAllProperties(g, n, Children(g[n]), seen + {n});
      assert order == below + [n];
      assert n in order;
      assert forall i :: 0 <= i < |below| ==> below[i] !in seen + {n};
      forall i, c | 0 <= i < |order| && order[i] < |g| && c in Children(g[order[i]])
        ensures c in seen || c in order[..i]
      {
        if i == |below| {
          assert order[..i] == below;
          assert c in (seen + {n}) + Elements(below);
        } else {
          assert order[..i] == below[..i];
          assert NodeOrdered(g, order[i]);
          assert c < below[i] < n;
        }
      }
      assert seen + Elements(order) == (seen + {n}) + Elements(below);
    }
  }

  lemma {:induction false} VisitAllProperties(g: Graph, bound: nat, ns: seq<nat>, seen: set<nat>)
    requires Ordered(g) && bound <= |g| && Settled(g, seen, bound)
    requires Below(ns, bound)
    ensures Visited(g, VisitAll(g, bound, ns, seen), seen, bound)
    ensures forall n :: n in ns ==> n in seen + Elements(VisitAll(g, bound, ns, seen))
    decreases bound, 0, |ns|
  {
    if ns == [] {
      assert seen + Elements([]) == seen;
    } else {
      var k := |ns| - 1;
      var before := VisitAll(g, bound, ns[..k], seen);
      VisitAllProperties(g, bound, ns[..k], seen);
      assert ns[k] in ns;
      var marked := seen + Elements(before);
      VisitProperties(g, ns[k], marked);
      var last := Visit(g, ns[k], marked);
      forall s, c | s in marked + Elements(last) && s < bound && s < |g| && c in Children(g[s])
        ensures c in marked + Elements(last)
      {
        if s !in marked { assert s < ns[k] + 1; }
      }
      VisitedConcat(g, before, last, seen, bound);
      assert seen + Elements(before + last) == marked + Elements(last);
    }
  }

  lemma VisitBelow(g: Graph, n: nat, seen: set<nat>)
    requires Ordered(g) && n < |g| && Settled(g, seen, n + 1)
    ensures Below(Visit(g, n, seen), n + 1)
  {
    VisitProperties(g, n, seen);
  }

  /** One round of the walk's loop over the inputs of n. */
  lemma VisitNext(g: Graph, n: nat, ns: seq<nat>, i: nat, seen: set<nat>)
    requires Ordered(g) && n <= |g| && Below(ns, n) && i < |ns| && Settled(g, seen, n)
    ensures
      var done := VisitAll(g, n, ns[..i], seen);
      var more := Visit(g, ns[i], seen + Elements(done));
      && Below(done, n) && Below(more, n)
      && Settled(g, seen + Elements(done), ns[i] + 1)
      && VisitAll(g, n, ns[..i + 1], seen) == done + more
      && seen + Elements(done + more) == (seen + Elements(done)) + Elements(more)
  {
    VisitAllProperties(g, n, ns[..i], seen);
    var marked := seen + Elements(VisitAll(g, n, ns[..i], seen));
    VisitProperties(g, ns[i], marked);
    assert ns[..i + 1][..i] == ns[..i];
  }

  /** A node whose inputs are all marked, transitively, has everything it reaches marked. */
  lemma {:induction false} SettledReach(g: Graph, seen: set<nat>, n: nat, m: nat)
    requires Ordered(g) && n < |g| && n in seen && Settled(g, seen, n + 1) && Reaches(g, n, m)
    ensures m in seen
    decreases n
  {
    assert NodeOrdered(g, n);
    if n != m {
      var c :| c in Children(g[n]) && Reaches(g, c, m);
      SettledReach(g, seen, c, m);
    }
  }

  lemma {:induction false} VisitReaches(g: Graph, n: nat, seen: set<nat>, m: nat)
    requires Ordered(g) && n < |g| && m in Visit(g, n, seen)
    ensures Reaches(g, n, m)
    decreases n, 1, 0
  {
    assert NodeOrdered(g, n);
    if m != n {
      var c := VisitAllReaches(g, n, Children(g[n]), seen + {n}, m);
    }
  }

  lemma {:induction false} VisitAllReaches(g: Graph, bound: nat, ns: seq<nat>, seen: set<nat>, m: nat) returns (c: nat)
    requires Ordered(g) && bound <= |g|
    requires Below(ns, bound)
    requires m in VisitAll(g, bound, ns, seen)
    ensures c in ns && Reaches(g, c, m)
    decreases bound, 0, |ns|
  {
    var k := |ns| - 1;
    var before := VisitAll(g, bound, ns[..k], seen);
    assert ns[k] in ns;
    if m in before {
      c := VisitAllReaches(g, bound, ns[..k], seen, m);
    } else {
      VisitReaches(g, ns[k], seen + Elements(before), m);
      c := ns[k];
    }
  }

  /** Walking from the root lists exactly the nodes it reaches, each once, inputs first. */
  lemma WalkOrder(g: Graph, root: nat)
    requires Ordered(g) && root < |g|
    ensures forall m :: m in Visit(g, root, {}) <==> Reaches(g, root, m)
    ensures forall i, j :: 0 <= i < j < |Visit(g, root, {})| ==> Visit(g, root, {})[i] != Visit(g, root, {})[j]
    ensures InputsFirst(g, Visit(g, root, {}), {})
    ensures root in Visit(g, root, {}) && Below(Visit(g, root, {}), |g|)
  {
    var order := Visit(g, root, {});
    VisitProperties(g, root, {});
    assert {} + Elements(order) == Elements(order);
    forall m
      ensures m in order <==> Reaches(g, root, m)
    {
      if m in order { VisitReaches(g, root, {}, m); }
      if Reaches(g, root, m) { SettledReach(g, Elements(order), root, m); }
    }
  }

  // ---- the emitter --------------------------------------------------------------------------

  /** The steps of the listed nodes, one node after another. */
  function Script<T>(steps: seq<seq<T>>, order: seq<nat>): seq<T>
    requires Below(order, |steps|)
  {
    if order == [] then []
    else Script(steps, order[..|order| - 1]) + steps[order[|order| - 1]]
  }

  lemma {:induction false} ScriptConcat<T>(steps: seq<seq<T>>, a: seq<nat>, b: seq<nat>)
    requires Below(a, |steps|) && Below(b, |steps|)
    ensures Script(steps, a + b) == Script(steps, a) + Script(steps, b)
    decreases |b|
  {
    if b == [] {
      assert a + b == a;
    } else {
      var k := |b| - 1;
      assert (a + b)[..|a + b| - 1] == a + b[..k];
      ScriptConcat(steps, a, b[..k]);
    }
  }

  lemma ScriptAfter<T>(steps: seq<seq<T>>, start: seq<T>, a: seq<nat>, b: seq<nat>)
    requires Below(a, |steps|) && Below(b, |steps|)
    ensures (start + Script(steps, a)) + Script(steps, b) == start + Script(steps, a + b)
  {
    ScriptConcat(steps, a, b);
  }

  /** The state emit_equivalence closes over. T is the kind of statement. */
  class Emitter<T> {
    const graph: Graph
    const steps: seq<seq<T>>
    var statements: seq<T>
    var seen: set<nat>

    constructor (graph: Graph, steps: seq<seq<T>>)
      ensures this.graph == graph && this.steps == steps
      ensures statements == [] && seen == {}
    {
      this.graph, this.steps := graph, steps;
      statements, seen := [], {};
    }

    ghost predicate Valid() {
      Ordered(graph) && |steps| == |graph|
    }

    /** Emits the steps of everything n reaches that is not marked yet, then those of n. */
    method Walk(n: nat)
      requires Valid() && n < |graph|
      requires Settled(graph, seen, n + 1)
      modifies this
      ensures Below(Visit(graph, n, old(seen)), |graph|)
      ensures statements == old(statements) + Script(steps, Visit(graph, n, old(seen)))
      ensures seen == old(seen) + Elements(Visit(graph, n, old(seen)))
      decreases n, 1
    {
      VisitBelow(graph, n, seen);
      if n !in seen {
        ghost var start, before := statements, seen;
        seen := seen + {n};
        WalkInputs(n);
        statements := statements + steps[n];
        ghost var done := VisitAll(graph, n, Children(graph[n]), before + {n});
        assert Visit(graph, n, before) == done + [n];
        ScriptAfter(steps, start, done, [n]);
        assert Script(steps, [n]) == steps[n];
      }
    }

    /** The loop of a walk over the inputs of n, once n itself is marked. */
    method WalkInputs(n: nat)
      requires Valid() && n < |graph|
      requires Settled(graph, seen, n)
      modifies this
      ensures Below(Children(graph[n]), n) && Below(VisitAll(graph, n, Children(graph[n]), old(seen)), n)
      ensures statements == old(statements) + Script(steps, VisitAll(graph, n, Children(graph[n]), old(seen)))
      ensures seen == old(seen) + Elements(VisitAll(graph, n, Children(graph[n]), old(seen)))
      decreases n, 0
    {
      ghost var start, marked := statements, seen;
      assert NodeOrdered(graph, n);
      var inputs := Children(graph[n]);
      ghost var done := [];
      for i := 0 to |inputs|
        invariant done == VisitAll(graph, n, inputs[..i], marked)
        invariant Below(done, n)
        invariant statements == start + Script(steps, done)
        invariant seen == marked + Elements(done)
      {
        VisitNext(graph, n, inputs, i, marked);
        ghost var more := Visit(graph, inputs[i], seen);
        Walk(inputs[i]);
        ScriptAfter(steps, start, done, more);
        done := done + more;
      }
      assert inputs[..|inputs|] == inputs;
    }
  }

  /** emit_equivalence: the statements of everything the root reaches, in walk order. */
  method EmitEquivalence<T>(graph: Graph, steps: seq<seq<T>>, root: nat) returns (statements: seq<T>)
    requires Ordered(graph) && |steps| == |graph| && root < |graph|
    ensures Below(Visit(graph, root, {}), |graph|)
    ensures statements == Script(steps, Visit(graph, root, {}))
  {
    var emitter := new Emitter<T>(graph, steps);
    emitter.Walk(root);
    statements := emitter.statements;
  }
}

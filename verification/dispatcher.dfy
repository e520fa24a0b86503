/** The builder dispatcher: recursion with backtracking over a context of counters.

    What a builder does with its turn is arbitrary here: it may ask for any number of children up to
    the factory's fan-out, under any exclusions, drop what it got, decline or raise. Every guarantee
    holds for every such behaviour and every random order. */
module Dispatcher {
  import opened Bags

  /** What the factory knows about one builder. Types are numbered; ancestors are the types that the
      result is an instance of. */
  datatype Builder = Builder(name: string, leaf: bool, ancestors: set<nat>, supported: set<nat>, needed: set<nat>)

  datatype Settings = Settings(maxDepth: nat, maxNodes: int, maxAttempts: int, fanOut: nat)

  /** What survives of a build: the builder, the constraints its node meets, and the children it kept. */
  datatype Tree = Tree(builder: nat, meets: set<nat>, children: seq<Tree>)

  datatype Outcome = Built(tree: Tree) | Declined | Raised

  datatype ChildrenOutcome = Kept(children: seq<Tree>, meets: set<nat>) | Refused | Broke

  function Size(tree: Tree): (n: nat)
    ensures n >= 1
  {
    1 + Sizes(tree.children)
  }

  function Sizes(trees: seq<Tree>): nat {
    if trees == [] then 0 else Sizes(trees[..|trees| - 1]) + Size(trees[|trees| - 1])
  }

  /** No path from the root of the tree has more than n nodes. */
  predicate Within(tree: Tree, n: int)
  {
    n >= 1 && forall k :: 0 <= k < |tree.children| ==> Within(tree.children[k], n - 1)
  }

  /** The builders of a tree, each as often as it made a node of it. */
  function Names(builders: seq<Builder>, tree: Tree): multiset<string> {
    (if tree.builder < |builders| then multiset{builders[tree.builder].name} else multiset{}) + AllNames(builders, tree.children)
  }

  function AllNames(builders: seq<Builder>, trees: seq<Tree>): multiset<string> {
    if trees == [] then multiset{} else AllNames(builders, trees[..|trees| - 1]) + Names(builders, trees[|trees| - 1])
  }

  // ---- who may run ------------------------------------------------------------------------------

  /** What is asked for, and what the context held when it was: the constraints and exclusions in force and
      the two counters. */
  datatype Request = Request(kind: nat, constraints: set<nat>, excluded: set<nat>, nodeCount: nat, attempted: nat)

  /** A builder that was run, the depth it ran at, and the request it was run for. */
  datatype Turn = Turn(builder: nat, depth: nat, asked: Request)

  /** The builder can answer: it makes what is asked for and nothing that is banned, knows every constraint
      and has those it cannot do without; and it may only recurse above the last level with both budgets
      unspent. */
  ghost predicate Suits(b: Builder, s: Settings, depth: nat, asked: Request) {
    && asked.kind in b.ancestors
    && (forall x :: x in b.ancestors ==> x !in asked.excluded)
    && (forall c :: c in asked.constraints ==> c in b.supported)
    && (forall c :: c in b.needed ==> c in asked.constraints)
    && (b.leaf || (depth < s.maxDepth && (s.maxNodes > 0 ==> asked.nodeCount < s.maxNodes) && (s.maxAttempts > 0 ==> asked.attempted < s.maxAttempts)))
  }

  /** A turn was a suitable builder's, and everything banned was banned for it too. */
  ghost predicate Proper(builders: seq<Builder>, s: Settings, t: Turn, banned: set<nat>) {
    t.builder < |builders| && 1 <= t.depth <= s.maxDepth && Suits(builders[t.builder], s, t.depth, t.asked) && banned <= t.asked.excluded
  }

  /** Every node of the tree was made in a turn of its builder, at its level, and meets the constraints it was
      asked for under. */
  ghost predicate Grounded(tree: Tree, depth: nat, log: seq<Turn>) {
    && (exists i :: 0 <= i < |log| && log[i].builder == tree.builder && log[i].depth == depth && log[i].asked.constraints <= tree.meets)
    && forall k :: 0 <= k < |tree.children| ==> Grounded(tree.children[k], depth + 1, log)
  }

  lemma {:induction false} GroundedLater(tree: Tree, depth: nat, log: seq<Turn>, more: seq<Turn>)
    requires Grounded(tree, depth, log)
    ensures Grounded(tree, depth, log + more)
  {
    var i :| 0 <= i < |log| && log[i].builder == tree.builder && log[i].depth == depth && log[i].asked.constraints <= tree.meets;
    assert (log + more)[i] == log[i];
    forall k | 0 <= k < |tree.children| ensures Grounded(tree.children[k], depth + 1, log + more) {
      GroundedLater(tree.children[k], depth + 1, log, more);
    }
  }

  /** The tree fits under its level, and is grounded there. */
  ghost predicate Seated(tree: Tree, levels: int, depth: nat, log: seq<Turn>) { Within(tree, levels) && Grounded(tree, depth, log) }

  ghost predicate AllSeated(trees: seq<Tree>, levels: int, depth: nat, log: seq<Turn>) {
    forall i :: 0 <= i < |trees| ==> Seated(trees[i], levels, depth, log)
  }

  lemma SeatedLater(trees: seq<Tree>, levels: int, depth: nat, log: seq<Turn>, longer: seq<Turn>)
    requires AllSeated(trees, levels, depth, log) && log <= longer
    ensures AllSeated(trees, levels, depth, longer)
  {
    var more := longer[|log|..];
    assert log + more == longer;
    forall i | 0 <= i < |trees| ensures Seated(trees[i], levels, depth, longer) {
      assert Seated(trees[i], levels, depth, log);
      GroundedLater(trees[i], depth, log, more);
    }
  }

  lemma SeatedNext(trees: seq<Tree>, tree: Tree, levels: int, depth: nat, log: seq<Turn>)
    requires AllSeated(trees, levels, depth, log) && Seated(tree, levels, depth, log)
    ensures AllSeated(trees + [tree], levels, depth, log)
  {
  }

  lemma RootGrounded(k: nat, meets: set<nat>, children: seq<Tree>, levels: int, depth: nat, log: seq<Turn>, i: nat)
    requires i < |log| && log[i].builder == k && log[i].depth == depth && log[i].asked.constraints <= meets
    requires AllSeated(children, levels, depth + 1, log) && levels >= 0
    ensures Seated(Tree(k, meets, children), levels + 1, depth, log)
  {
    forall j | 0 <= j < |children| ensures Within(children[j], levels) && Grounded(children[j], depth + 1, log) {
      assert Seated(children[j], levels, depth + 1, log);
    }
  }

  lemma NodeMore(builders: seq<Builder>, trees: seq<Tree>, tree: Tree)
    ensures AllNames(builders, trees + [tree]) == AllNames(builders, trees) + Names(builders, tree)
    ensures Sizes(trees + [tree]) == Sizes(trees) + Size(tree)
  {
    assert (trees + [tree])[..|trees|] == trees;
  }

  lemma SubtotalSum(a: multiset<string>, x: multiset<string>, b: multiset<string>, y: multiset<string>, c: multiset<string>)
    requires a + x <= b && b + y <= c
    ensures a + (x + y) <= c
  {
  }

  // ---- state ------------------------------------------------------------------------------------

  class BuilderContext {
    var depth: nat
    var nodeCount: nat
    var nodesAttempted: nat
    var excluded: set<nat>
    /** Every builder that was run. */
    ghost var log: seq<Turn>

    constructor ()
      ensures depth == 0 && nodeCount == 0 && nodesAttempted == 0 && excluded == {} && log == []
    {
      depth, nodeCount, nodesAttempted, excluded, log := 0, 0, 0, {}, [];
    }
  }

  /** The bound on node_count after a successful dispatch at depth d that started with n nodes. */
  function Cap(s: Settings, n: nat, d: nat): int {
    if n >= s.maxNodes then n + 1 else s.maxNodes + s.fanOut * (s.maxDepth - 1 - d)
  }

  /** One level of depth pays for one more request per fan-out. */
  lemma CapStep(s: Settings, n: nat, m: nat, d: nat)
    requires n < s.maxNodes && m < s.maxNodes
    ensures Cap(s, n, d) == Cap(s, m, d + 1) + s.fanOut
  {
    var k := s.maxDepth - 1 - d;
    assert s.fanOut * k == s.fanOut * (k - 1) + s.fanOut;
  }

  lemma CapAtLeast(s: Settings, n: nat, d: nat)
    requires d < s.maxDepth
    ensures Cap(s, n, d) >= s.maxNodes || n >= s.maxNodes
  {
    NonNegative(s.fanOut, s.maxDepth - 1 - d);
  }

  lemma NonNegative(a: nat, b: nat)
    ensures a * b >= 0
  {
  }

  /** A committed node stays under the bound of its own depth. */
  lemma CommitCap(s: Settings, leaf: bool, before: nat, after: nat, d: nat)
    requires s.maxNodes > 0 && d < s.maxDepth ==> (leaf ==> after == before) && (!leaf ==> before < s.maxNodes && after <= Cap(s, before, d + 1) + s.fanOut - 1)
    ensures s.maxNodes > 0 && d < s.maxDepth ==> after + 1 <= Cap(s, before, d)
  {
    if s.maxNodes > 0 && d < s.maxDepth {
      if leaf { CapAtLeast(s, before, d); } else { CapStep(s, before, before, d); }
    }
  }

  class BuilderFactory {
    const builders: seq<Builder>
    const settings: Settings
    const weights: map<string, int>
    const rootWeights: Option<map<string, int>>
    /** How often each builder produced a node. */
    var chosen: multiset<string>
    var weightCache: Option<map<string, int>>
    var rootCache: Option<map<string, int>>
    var rootCacheBuilt: bool
    /** Every node ever produced, generation after generation. */
    ghost var produced: seq<string>

    constructor (builders: seq<Builder>, settings: Settings, weights: map<string, int>, rootWeights: Option<map<string, int>>)
      requires settings.fanOut >= 1
      ensures this.builders == builders && this.settings == settings && this.weights == weights && this.rootWeights == rootWeights
      ensures Valid() && chosen == multiset{} && produced == []
    {
      this.builders, this.settings, this.weights, this.rootWeights := builders, settings, weights, rootWeights;
      chosen, weightCache, rootCache, rootCacheBuilt, produced := multiset{}, None, None, false, [];
    }

    /** A filled cache holds what the configuration says. */
    ghost predicate Valid()
      reads this
    {
      && settings.fanOut >= 1
      && (weightCache.Some? ==> weightCache.value == weights)
      && (rootCacheBuilt ==> rootCache == rootWeights)
    }

    // ---- which builders may run -------------------------------------------------------------------

    predicate LeafOnly(depth: nat, nodeCount: nat, nodesAttempted: nat) {
      || depth >= settings.maxDepth - 1
      || (settings.maxNodes > 0 && nodeCount >= settings.maxNodes)
      || (settings.maxAttempts > 0 && nodesAttempted >= settings.maxAttempts)
    }

    predicate Eligible(k: nat, kind: nat, constraints: set<nat>, excluded: set<nat>, leafOnly: bool)
      requires k < |builders|
    {
      var b := builders[k];
      && b.ancestors !! excluded && constraints <= b.supported && kind in b.ancestors && b.needed <= constraints
      && (leafOnly ==> b.leaf)
    }

    function WeightOf(name: string, depth: nat): int {
      var active := if depth == 0 && rootWeights.Some? && |rootWeights.value| > 0 then rootWeights.value else weights;
      if name in active then active[name] else 1
    }

    /** May be asked at this point of this build. */
    ghost predicate Askable(k: nat, depth: nat, asked: Request) {
      && k < |builders| && depth < settings.maxDepth && WeightOf(builders[k].name, depth) > 0
      && Suits(builders[k], settings, depth + 1, asked)
    }

    ghost function Asked(kind: nat, constraints: set<nat>, context: BuilderContext): Request
      reads context
    {
      Request(kind, constraints, context.excluded, context.nodeCount, context.nodesAttempted)
    }

    /** The eligible builders in registration order; none at all once depth reaches the limit. */
    method FilterBuilders(kind: nat, constraints: set<nat>, context: BuilderContext) returns (supported: seq<nat>)
      ensures forall i :: 0 <= i < |supported| ==> supported[i] < |builders|
      ensures forall k :: 0 <= k < |builders| ==> (k in supported <==>
        context.depth < settings.maxDepth && Suits(builders[k], settings, context.depth + 1, Asked(kind, constraints, context)))
    {
      supported := [];
      if context.depth >= settings.maxDepth { return; }
      var leafOnly := LeafOnly(context.depth, context.nodeCount, context.nodesAttempted);
      for k := 0 to |builders|
        invariant forall i :: 0 <= i < |supported| ==> supported[i] < k
        invariant forall j :: 0 <= j < k ==> (j in supported <==> Eligible(j, kind, constraints, context.excluded, leafOnly))
      {
        if Eligible(k, kind, constraints, context.excluded, leafOnly) { supported := supported + [k]; }
      }
      forall k | 0 <= k < |builders|
        ensures k in supported <==> Suits(builders[k], settings, context.depth + 1, Asked(kind, constraints, context))
      {
        EligibleSuits(k, context.depth, Asked(kind, constraints, context));
      }
    }

    lemma EligibleSuits(k: nat, depth: nat, asked: Request)
      requires k < |builders| && depth < settings.maxDepth
      ensures Eligible(k, asked.kind, asked.constraints, asked.excluded, LeafOnly(depth, asked.nodeCount, asked.attempted))
        <==> Suits(builders[k], settings, depth + 1, asked)
    {
    }

    /** The weights in effect: the root's own at depth 0 when it has any, else the ordinary ones. Both
        are read from the configuration once. */
    method ActiveWeights(depth: nat) returns (active: map<string, int>)
      requires Valid()
      modifies this`weightCache, this`rootCache, this`rootCacheBuilt
      ensures Valid()
      ensures active == if depth == 0 && rootWeights.Some? && |rootWeights.value| > 0 then rootWeights.value else weights
    {
      if depth == 0 {
        if !rootCacheBuilt { rootCache, rootCacheBuilt := rootWeights, true; }
        if rootCache.Some? && |rootCache.value| > 0 { return rootCache.value; }
      }
      if weightCache.None? { weightCache := Some(weights); }
      active := weightCache.value;
    }

    /** A random order of the builders with positive weight. */
    method WeightedShuffle(eligible: seq<nat>, depth: nat) returns (order: seq<nat>)
      requires Valid() && forall i :: 0 <= i < |eligible| ==> eligible[i] < |builders|
      modifies this`weightCache, this`rootCache, this`rootCacheBuilt
      ensures Valid()
      ensures forall i :: 0 <= i < |order| ==> order[i] in eligible
      ensures forall i :: 0 <= i < |eligible| ==> (eligible[i] in order <==> WeightOf(builders[eligible[i]].name, depth) > 0)
    {
      var active := ActiveWeights(depth);
      var rest := [];
      for i := 0 to |eligible|
        invariant forall j :: 0 <= j < |rest| ==> rest[j] in eligible
        invariant forall j :: 0 <= j < i ==> (eligible[j] in rest <==> WeightOf(builders[eligible[j]].name, depth) > 0)
        invariant forall j :: 0 <= j < |rest| ==> rest[j] < |builders| && WeightOf(builders[rest[j]].name, depth) > 0
      {
        var name := builders[eligible[i]].name;
        if (if name in active then active[name] else 1) > 0 { rest := rest + [eligible[i]]; }
      }
      order := Permuted(rest);
      forall k: nat ensures k in order <==> k in rest { assert k in multiset(order) <==> k in multiset(rest); }
      forall i | 0 <= i < |order| ensures order[i] in eligible { assert order[i] in order; }
    }

    /** Any order of the given items. */
    static method Permuted(items: seq<nat>) returns (order: seq<nat>)
      ensures multiset(order) == multiset(items)
    {
      order := [];
      var rest := items;
      while rest != []
        invariant multiset(order) + multiset(rest) == multiset(items)
        decreases |rest|
      {
        assert 0 <= 0 < |rest|;
        var k :| 0 <= k < |rest|;
        assert rest == rest[..k] + [rest[k]] + rest[k + 1..];
        order, rest := order + [rest[k]], rest[..k] + rest[k + 1..];
      }
      assert rest == [];
    }

    // ---- building -----------------------------------------------------------------------------------

    ghost function Counts(context: BuilderContext): Counters
      reads this, context
    {
      Counters(context.depth, context.excluded, context.nodeCount, context.nodesAttempted, chosen, produced, context.log)
    }

    ghost function Limit(context: BuilderContext): nat
      reads context
    {
      if context.depth < settings.maxDepth then settings.maxDepth - context.depth else 0
    }

    /** What every step keeps: depth and exclusions are back, node_count has not dropped, each node attempted
        was counted once in chosen, and every turn since was proper and at a level above lo. */
    ghost predicate Keeps(before: Counters, after: Counters, lo: int) {
      && after.depth == before.depth && after.excluded == before.excluded && after.nodeCount >= before.nodeCount
      && before.log <= after.log && before.produced <= after.produced
      && after.chosen == before.chosen + multiset(after.produced[|before.produced|..])
      && |after.produced| - |before.produced| == after.attempted - before.attempted >= after.nodeCount - before.nodeCount
      && forall i :: |before.log| <= i < |after.log| ==> lo < after.log[i].depth && Proper(builders, settings, after.log[i], before.excluded)
    }

    /** What a node that was built promises. */
    ghost predicate Fits(tree: Tree, before: Counters, after: Counters) {
      && Size(tree) <= after.nodeCount - before.nodeCount
      && Seated(tree, settings.maxDepth - before.depth, before.depth + 1, after.log)
      && before.chosen + Names(builders, tree) <= after.chosen
    }

    /** The same of several nodes. */
    ghost predicate AllFit(trees: seq<Tree>, before: Counters, after: Counters) {
      && Sizes(trees) <= after.nodeCount - before.nodeCount
      && AllSeated(trees, settings.maxDepth - before.depth, before.depth + 1, after.log)
      && before.chosen + AllNames(builders, trees) <= after.chosen
    }

    lemma KeepsOn(a: Counters, b: Counters, c: Counters, lo: int)
      requires Keeps(a, b, lo) && Keeps(b, c, lo)
      ensures Keeps(a, c, lo)
      ensures forall t :: Ran(a.log, b.log, t) || Ran(b.log, c.log, t) ==> Ran(a.log, c.log, t)
    {
      ExtendsOn(a.log, b.log, c.log);
      ExtendsOn(a.produced, b.produced, c.produced);
    }

    /** Nodes already there still fit after more was done. */
    lemma AllFitLater(trees: seq<Tree>, a: Counters, b: Counters, c: Counters, lo: int)
      requires AllFit(trees, a, b) && Keeps(b, c, lo)
      ensures AllFit(trees, a, c)
    {
      SeatedLater(trees, settings.maxDepth - a.depth, a.depth + 1, b.log, c.log);
    }

    lemma AllFitNext(trees: seq<Tree>, tree: Tree, a: Counters, b: Counters, c: Counters, lo: int)
      requires AllFit(trees, a, b) && Keeps(b, c, lo) && Fits(tree, b, c) && a.depth == b.depth
      ensures AllFit(trees + [tree], a, c)
    {
      AllFitLater(trees, a, b, c, lo);
      SeatedNext(trees, tree, settings.maxDepth - a.depth, a.depth + 1, c.log);
      NodeMore(builders, trees, tree);
      SubtotalSum(a.chosen, AllNames(builders, trees), b.chosen, Names(builders, tree), c.chosen);
    }

    /** A node over children that fit. */
    lemma TreeFits(k: nat, meets: set<nat>, children: seq<Tree>, before: Counters, entered: Counters, done: Counters, after: Counters, asked: Request)
      requires k < |builders| && before.depth < settings.maxDepth && entered.depth == before.depth + 1 && entered.nodeCount == before.nodeCount
      requires asked.constraints <= meets
      requires entered.chosen == before.chosen && entered.log == before.log + [Turn(k, entered.depth, asked)]
      requires Keeps(entered, done, before.depth) && AllFit(children, entered, done)
      requires after.nodeCount == done.nodeCount + 1 && after.chosen == done.chosen + multiset{builders[k].name} && after.log == done.log
      ensures Fits(Tree(k, meets, children), before, after)
    {
      assert Size(Tree(k, meets, children)) == 1 + Sizes(children);
      assert done.log[|before.log|] == entered.log[|before.log|];
      RootGrounded(k, meets, children, settings.maxDepth - entered.depth, entered.depth, done.log, |before.log|);
      assert Names(builders, Tree(k, meets, children)) == multiset{builders[k].name} + AllNames(builders, children);
    }

    /** Asks the eligible builders in a random order until one produces a node or raises. */
    method Dispatch(kind: nat, constraints: set<nat>, context: BuilderContext) returns (r: Outcome)
      requires Valid()
      modifies this`chosen, this`produced, this`weightCache, this`rootCache, this`rootCacheBuilt, context
      ensures Valid() && Keeps(old(Counts(context)), Counts(context), context.depth)
      ensures !r.Built? ==> context.nodeCount == old(context.nodeCount)
      ensures r.Built? ==> Fits(r.tree, old(Counts(context)), Counts(context))
      ensures r.Built? ==> Askable(r.tree.builder, context.depth, old(Asked(kind, constraints, context))) && constraints <= r.tree.meets
      ensures r.Built? && settings.maxNodes > 0 ==> context.nodeCount <= Cap(settings, old(context.nodeCount), context.depth)
      ensures r.Declined? ==> forall k ::
        Askable(k, context.depth, old(Asked(kind, constraints, context))) ==> Ran(old(context.log), context.log, Turn(k, context.depth + 1, old(Asked(kind, constraints, context))))
      decreases Limit(context), 4
    {
      var supported := FilterBuilders(kind, constraints, context);
      ghost var asked := Asked(kind, constraints, context);
      r := Declined;
      if supported == [] { return; }
      assert supported[0] in supported && context.depth < settings.maxDepth;
      var order := WeightedShuffle(supported, context.depth);
      forall i | 0 <= i < |order| ensures Askable(order[i], context.depth, asked) {
        assert order[i] in supported;
        var j :| 0 <= j < |supported| && supported[j] == order[i];
        assert supported[j] in order;
      }
      assert forall k :: Askable(k, context.depth, asked) ==> k in order;
      r := TryEach(order, constraints, asked, context);
    }

    /** Gives each builder of the order its turn until one produces a node or raises. */
    method TryEach(order: seq<nat>, constraints: set<nat>, ghost asked: Request, context: BuilderContext) returns (r: Outcome)
      requires Valid() && context.depth < settings.maxDepth && asked.constraints == constraints
      requires asked.excluded == context.excluded && asked.nodeCount == context.nodeCount
      requires forall i :: 0 <= i < |order| ==> Askable(order[i], context.depth, asked)
      modifies this`chosen, this`produced, this`weightCache, this`rootCache, this`rootCacheBuilt, context
      ensures Valid() && Keeps(old(Counts(context)), Counts(context), context.depth)
      ensures !r.Built? ==> context.nodeCount == old(context.nodeCount)
      ensures r.Built? ==> r.tree.builder in order && constraints <= r.tree.meets && Fits(r.tree, old(Counts(context)), Counts(context))
      ensures r.Built? && settings.maxNodes > 0 ==> context.nodeCount <= Cap(settings, old(context.nodeCount), context.depth)
      ensures r.Declined? ==> forall i :: 0 <= i < |order| ==> Ran(old(context.log), context.log, Turn(order[i], context.depth + 1, asked))
      decreases Limit(context), 3
    {
      r := Declined;
      for i := 0 to |order|
        invariant Valid() && Keeps(old(Counts(context)), Counts(context), context.depth) && context.nodeCount == old(context.nodeCount)
        invariant r == Declined
        invariant forall j :: 0 <= j < i ==> Ran(old(context.log), context.log, Turn(order[j], context.depth + 1, asked))
      {
        ghost var before := Counts(context);
        r := Attempt(order[i], constraints, asked, context);
        TurnsOn(r, old(Counts(context)), before, Counts(context));
        if !r.Declined? { return; }
      }
    }

    /** Builders that declined before changed nothing a node is measured by. */
    lemma TurnsOn(r: Outcome, a: Counters, b: Counters, c: Counters)
      requires Keeps(a, b, a.depth) && Keeps(b, c, a.depth) && a.nodeCount == b.nodeCount
      requires r.Built? ==> Fits(r.tree, b, c)
      ensures Keeps(a, c, a.depth) && (r.Built? ==> Fits(r.tree, a, c))
      ensures forall t :: Ran(a.log, b.log, t) || Ran(b.log, c.log, t) ==> Ran(a.log, c.log, t)
    {
      KeepsOn(a, b, c, a.depth);
      if r.Built? { FitsEarlier(r.tree, a, b, c); }
    }

    lemma FitsEarlier(tree: Tree, a: Counters, b: Counters, c: Counters)
      requires a.depth == b.depth && a.chosen <= b.chosen && Fits(tree, b, c) && a.nodeCount == b.nodeCount
      ensures Fits(tree, a, c)
    {
    }

    /** One builder's turn. Depth is restored however it ends; node_count is kept only on success;
        chosen and nodes_attempted are never rolled back. */
    method Attempt(k: nat, constraints: set<nat>, ghost asked: Request, context: BuilderContext) returns (r: Outcome)
      requires Valid() && k < |builders| && context.depth < settings.maxDepth && Suits(builders[k], settings, context.depth + 1, asked)
      requires asked.constraints == constraints && asked.excluded == context.excluded && asked.nodeCount == context.nodeCount
      modifies this`chosen, this`produced, this`weightCache, this`rootCache, this`rootCacheBuilt, context
      ensures Valid() && Keeps(old(Counts(context)), Counts(context), context.depth)
      ensures Ran(old(context.log), context.log, Turn(k, context.depth + 1, asked))
      ensures !r.Built? ==> context.nodeCount == old(context.nodeCount)
      ensures r.Built? ==> r.tree.builder == k && constraints <= r.tree.meets && Fits(r.tree, old(Counts(context)), Counts(context))
      ensures r.Built? && settings.maxNodes > 0 ==> context.nodeCount <= Cap(settings, old(context.nodeCount), context.depth)
      decreases Limit(context), 2
    {
      ghost var before := Counts(context);
      var saved := context.nodeCount;
      context.depth := context.depth + 1;
      context.log := context.log + [Turn(k, context.depth, asked)];
      ghost var entered := Counts(context);
      var built := Build(k, context);
      if built.Kept? { CommitCap(settings, builders[k].leaf, saved, context.nodeCount, context.depth - 1); }
      r := Conclude(k, constraints, asked, saved, built, before, entered, context);
    }

    /** The end of the turn that began at before. */
    method Conclude(k: nat, constraints: set<nat>, ghost asked: Request, saved: nat, built: ChildrenOutcome, ghost before: Counters, ghost entered: Counters, context: BuilderContext) returns (r: Outcome)
      requires k < |builders| && before.depth < settings.maxDepth && Proper(builders, settings, Turn(k, before.depth + 1, asked), before.excluded)
      requires entered == before.(depth := before.depth + 1, log := before.log + [Turn(k, before.depth + 1, asked)])
      requires Keeps(entered, Counts(context), before.depth) && saved == before.nodeCount && asked.constraints == constraints
      requires built.Kept? ==> AllFit(built.children, entered, Counts(context))
      modifies this`chosen, this`produced, context`depth, context`nodeCount, context`nodesAttempted
      ensures Keeps(before, Counts(context), before.depth) && Ran(before.log, context.log, Turn(k, before.depth + 1, asked))
      ensures !r.Built? ==> context.nodeCount == saved
      ensures r.Built? ==> built.Kept? && r.tree.builder == k && constraints <= r.tree.meets && Fits(r.tree, before, Counts(context)) && context.nodeCount == old(context.nodeCount) + 1
    {
      ghost var done := Counts(context);
      r := Leave(k, constraints, saved, built, context);
      if r.Built? { TreeFits(k, built.meets, built.children, before, entered, done, Counts(context), asked); }
      TurnKeeps(k, asked, before, entered, done, Counts(context), r.Built?);
    }

    /** From before a turn to after it. */
    lemma TurnKeeps(k: nat, asked: Request, before: Counters, entered: Counters, done: Counters, after: Counters, committed: bool)
      requires k < |builders| && Proper(builders, settings, Turn(k, before.depth + 1, asked), before.excluded)
      requires entered == before.(depth := before.depth + 1, log := before.log + [Turn(k, before.depth + 1, asked)])
      requires Keeps(entered, done, before.depth)
      requires after == if committed then
          done.(depth := before.depth, nodeCount := done.nodeCount + 1, attempted := done.attempted + 1,
                chosen := done.chosen + multiset{builders[k].name}, produced := done.produced + [builders[k].name])
        else done.(depth := before.depth, nodeCount := before.nodeCount)
      ensures Keeps(before, after, before.depth) && Ran(before.log, after.log, Turn(k, before.depth + 1, asked))
    {
      ExtendsOn(before.log, entered.log, done.log);
      assert done.log[|before.log|] == entered.log[|before.log|] == Turn(k, before.depth + 1, asked);
      if committed {
        var n := |before.produced|;
        assert after.produced[n..] == done.produced[n..] + [builders[k].name];
      }
    }

    /** The end of a turn: commit, or roll node_count back. A node that violates its constraints
        raises instead of committing. */
    method Leave(k: nat, constraints: set<nat>, saved: nat, built: ChildrenOutcome, context: BuilderContext) returns (r: Outcome)
      requires k < |builders| && context.depth >= 1
      modifies this`chosen, this`produced, context`depth, context`nodeCount, context`nodesAttempted
      ensures context.depth == old(context.depth) - 1
      ensures r.Built? <==> built.Kept? && constraints <= built.meets
      ensures r.Built? ==> r.tree == Tree(k, built.meets, built.children) && context.nodeCount == old(context.nodeCount) + 1
      ensures r.Built? ==> context.nodesAttempted == old(context.nodesAttempted) + 1
      ensures r.Built? ==> chosen == old(chosen) + multiset{builders[k].name} && produced == old(produced) + [builders[k].name]
      ensures !r.Built? ==> context.nodeCount == saved && context.nodesAttempted == old(context.nodesAttempted)
      ensures !r.Built? ==> chosen == old(chosen) && produced == old(produced)
      ensures r.Declined? <==> built.Refused?
    {
      context.depth := context.depth - 1;
      if built.Kept? && constraints <= built.meets {
        context.nodeCount, context.nodesAttempted := context.nodeCount + 1, context.nodesAttempted + 1;
        chosen := chosen + multiset{builders[k].name};
        produced := produced + [builders[k].name];
        r := Built(Tree(k, built.meets, built.children));
      } else {
        context.nodeCount := saved;
        r := if built.Refused? then Declined else Raised;
      }
    }

    /** What builder k does with its turn. A leaf asks for nothing; any other builder asks for at most
        fanOut children, each under exclusions of its own choice, and keeps any of what it gets. */
    method Build(k: nat, context: BuilderContext) returns (r: ChildrenOutcome)
      requires Valid() && k < |builders| && 1 <= context.depth <= settings.maxDepth
      requires !builders[k].leaf ==> context.depth < settings.maxDepth && (settings.maxNodes > 0 ==> context.nodeCount < settings.maxNodes)
      modifies this`chosen, this`produced, this`weightCache, this`rootCache, this`rootCacheBuilt, context
      ensures Valid() && Keeps(old(Counts(context)), Counts(context), context.depth - 1)
      ensures builders[k].leaf ==> context.nodeCount == old(context.nodeCount)
      ensures r.Kept? ==> AllFit(r.children, old(Counts(context)), Counts(context))
      ensures r.Kept? && settings.maxNodes > 0 && !builders[k].leaf ==> context.nodeCount <= Cap(settings, old(context.nodeCount), context.depth) + settings.fanOut - 1
      decreases Limit(context), 7
    {
      var asks: nat :| asks <= settings.fanOut && (builders[k].leaf ==> asks == 0);
      var children: seq<Tree> := [];
      for i := 0 to asks
        invariant Valid() && Keeps(old(Counts(context)), Counts(context), context.depth - 1)
        invariant builders[k].leaf ==> context.nodeCount == old(context.nodeCount)
        invariant AllFit(children, old(Counts(context)), Counts(context))
        invariant settings.maxNodes > 0 && !builders[k].leaf ==>
          context.nodeCount < settings.maxNodes || context.nodeCount <= Cap(settings, old(context.nodeCount), context.depth) + i - 1
      {
        var next := Continue(children, old(Counts(context)), context);
        if !next.Kept? { return next; }
        children := next.children;
      }
      if settings.maxNodes > 0 && !builders[k].leaf { CapAtLeast(settings, old(context.nodeCount), context.depth); }
      var meets: set<nat> := *;
      r := Kept(children, meets);
    }

    /** The builder goes on: it may decline or raise, or ask for one more child and keep it or not. */
    method Continue(children: seq<Tree>, ghost start: Counters, context: BuilderContext) returns (r: ChildrenOutcome)
      requires Valid() && start.depth == context.depth >= 1 && Keeps(start, Counts(context), context.depth - 1) && AllFit(children, start, Counts(context))
      modifies this`chosen, this`produced, this`weightCache, this`rootCache, this`rootCacheBuilt, context
      ensures Valid() && Keeps(start, Counts(context), context.depth - 1) && context.depth == start.depth
      ensures r.Kept? ==> AllFit(r.children, start, Counts(context))
      ensures settings.maxNodes > 0 && r.Kept? ==> context.nodeCount <= Cap(settings, old(context.nodeCount), context.depth) || context.nodeCount == old(context.nodeCount)
      decreases Limit(context), 6
    {
      var declines, raises := *, *;
      if declines { return Refused; }
      if raises { return Broke; }
      ghost var before := Counts(context);
      var kind: nat := *;
      var constraints, types: set<nat> := *, *;
      var child := RequestChild(kind, constraints, types, context);
      KeepsOn(start, before, Counts(context), context.depth - 1);
      if child.Raised? { return Broke; }
      var keeps := *;
      if child.Built? && keeps {
        AllFitNext(children, child.tree, start, before, Counts(context), context.depth - 1);
        r := Kept(children + [child.tree], {});
      } else {
        AllFitLater(children, start, before, Counts(context), context.depth - 1);
        r := Kept(children, {});
      }
    }

    /** One request for a child, with some types banned while it is built. */
    method RequestChild(kind: nat, constraints: set<nat>, types: set<nat>, context: BuilderContext) returns (r: Outcome)
      requires Valid()
      modifies this`chosen, this`produced, this`weightCache, this`rootCache, this`rootCacheBuilt, context
      ensures Valid() && Keeps(old(Counts(context)), Counts(context), context.depth)
      ensures forall i :: old(|context.log|) <= i < |context.log| ==> types <= context.log[i].asked.excluded
      ensures !r.Built? ==> context.nodeCount == old(context.nodeCount)
      ensures r.Built? ==> Fits(r.tree, old(Counts(context)), Counts(context))
      ensures r.Built? ==> Askable(r.tree.builder, context.depth, old(Asked(kind, constraints, context)).(excluded := old(context.excluded) + types))
      ensures r.Built? ==> constraints <= r.tree.meets
      ensures r.Built? && settings.maxNodes > 0 ==> context.nodeCount <= Cap(settings, old(context.nodeCount), context.depth)
      decreases Limit(context), 5
    {
      var saved := context.excluded;
      context.excluded := saved + types;
      r := Dispatch(kind, constraints, context);
      context.excluded := saved;
    }
  }

  /** One generation from a fresh context: what the root dispatch leaves behind. */
  method Generate(factory: BuilderFactory, kind: nat, constraints: set<nat>) returns (r: Outcome, nodeCount: nat, attempted: nat, ghost turns: seq<Turn>)
    requires factory.Valid()
    modifies factory`chosen, factory`produced, factory`weightCache, factory`rootCache, factory`rootCacheBuilt
    ensures factory.Valid() && |factory.chosen| == attempted >= nodeCount
    ensures old(factory.produced) <= factory.produced && factory.chosen == multiset(factory.produced[|old(factory.produced)|..])
    ensures r.Built? ==> Size(r.tree) <= nodeCount && Within(r.tree, factory.settings.maxDepth)
    ensures r.Built? ==> Names(factory.builders, r.tree) <= factory.chosen && Grounded(r.tree, 1, turns)
    ensures r.Built? && factory.settings.maxNodes > 0 ==> nodeCount <= factory.settings.maxNodes + factory.settings.fanOut * factory.settings.maxDepth
    ensures !r.Built? ==> nodeCount == 0
    ensures forall i :: 0 <= i < |turns| ==> Proper(factory.builders, factory.settings, turns[i], {})
    ensures r.Built? ==> factory.Askable(r.tree.builder, 0, Request(kind, constraints, {}, 0, 0)) && constraints <= r.tree.meets
    ensures r.Declined? ==> forall k :: factory.Askable(k, 0, Request(kind, constraints, {}, 0, 0)) ==> Turn(k, 1, Request(kind, constraints, {}, 0, 0)) in turns
  {
    factory.chosen := multiset{};
    var context := new BuilderContext();
    ghost var start := factory.Counts(context);
    ghost var asked := factory.Asked(kind, constraints, context);
    r := factory.Dispatch(kind, constraints, context);
    if r.Declined? {
      forall k | factory.Askable(k, 0, asked) ensures Turn(k, 1, asked) in context.log { assert Ran([], context.log, Turn(k, 1, asked)); }
    }
    nodeCount, attempted, turns := context.nodeCount, context.nodesAttempted, context.log;
    var s := factory.settings;
    assert s.fanOut * (s.maxDepth - 1) + s.fanOut == s.fanOut * s.maxDepth;
  }

  /** One equivalent per exposed name, from one factory. The counters of the forks are summed, and a
      fork that fails ends the whole round. */
  method GenerateForks(factory: BuilderFactory, kind: nat, constraints: seq<set<nat>>) returns (trees: Option<seq<Tree>>, builders: multiset<string>)
    requires factory.Valid()
    modifies factory`chosen, factory`produced, factory`weightCache, factory`rootCache, factory`rootCacheBuilt
    ensures factory.Valid() && old(factory.produced) <= factory.produced
    ensures trees.Some? ==> |trees.value| == |constraints| > 0 && AllNames(factory.builders, trees.value) <= builders
    ensures trees.Some? ==> builders == multiset(factory.produced[|old(factory.produced)|..])
  {
    builders := multiset{};
    if constraints == [] { return None, builders; }
    var done: seq<Tree> := [];
    for i := 0 to |constraints|
      invariant factory.Valid() && |done| == i && old(factory.produced) <= factory.produced
      invariant builders == multiset(factory.produced[|old(factory.produced)|..]) && AllNames(factory.builders, done) <= builders
    {
      ghost var before := factory.produced;
      var r, _, _, _ := Generate(factory, kind, constraints[i]);
      ExtendsOn(old(factory.produced), before, factory.produced);
      if !r.Built? { return None, builders; }
      assert (done + [r.tree])[..i] == done;
      done, builders := done + [r.tree], builders + factory.chosen;
    }
    trees := Some(done);
  }

  datatype Counters = Counters(depth: nat, excluded: set<nat>, nodeCount: nat, attempted: nat, chosen: multiset<string>, produced: seq<string>, log: seq<Turn>)

  /** What came in two steps. */
  lemma ExtendsOn<T>(a: seq<T>, b: seq<T>, c: seq<T>)
    requires a <= b && b <= c
    ensures a <= c && c[|a|..] == b[|a|..] + c[|b|..]
    ensures forall i :: 0 <= i < |b| ==> c[i] == b[i]
  {
    assert forall i :: 0 <= i < |b| ==> c[i] == c[..|b|][i] == b[i];
  }

  /** This turn was taken in between. */
  ghost predicate Ran(before: seq<Turn>, after: seq<Turn>, t: Turn) {
    exists i :: |before| <= i < |after| && after[i] == t
  }
}

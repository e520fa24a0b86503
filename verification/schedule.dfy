/** How long a round may run: the size of a tree, measured by one walk, mapped to a budget. */
module Schedule {
  import opened Bags
  import opened Graphs
  import opened Emission

  const DEPTH_CAP: real := 30.0
  const NODE_CAP: real := 80.0
  const STMT_CAP: real := 40.0

  datatype Complexity = Complexity(depth: nat, nodes: nat, statements: nat, score: real)

  /** There is a path of length many nodes from root to n. */
  ghost predicate PathTo(g: Graph, root: nat, n: nat, length: nat)
    decreases length
  {
    if length <= 1 then length == 1 && n == root
    else exists p: nat :: p < |g| && n in Children(g[p]) && PathTo(g, root, p, length - 1)
  }

  /** What is still to be looked at, with the level it was found at. */
  type Stack = seq<(nat, nat)>

  ghost predicate OnStack(stack: Stack, n: nat) {
    exists i :: 0 <= i < |stack| && stack[i].0 == n
  }

  /** Everything on the stack was reached by a path of its level. */
  ghost predicate Found(g: Graph, root: nat, stack: Stack) {
    forall i :: 0 <= i < |stack| ==> stack[i].0 < |g| && PathTo(g, root, stack[i].0, stack[i].1)
  }

  /** Nothing was lost: the root and every child of a seen node is seen or on the stack. */
  ghost predicate Complete(g: Graph, root: nat, seen: set<nat>, stack: Stack) {
    && (root in seen || OnStack(stack, root))
    && forall p, n :: p in seen && p < |g| && n in Children(g[p]) ==> n in seen || OnStack(stack, n)
  }

  function Pushed(children: seq<nat>, level: nat): Stack {
    seq(|children|, i requires 0 <= i < |children| => (children[i], level))
  }

  lemma PopSeen(g: Graph, root: nat, seen: set<nat>, stack: Stack)
    requires stack != [] && stack[|stack| - 1].0 in seen && Complete(g, root, seen, stack) && Found(g, root, stack)
    ensures Complete(g, root, seen, stack[..|stack| - 1]) && Found(g, root, stack[..|stack| - 1])
  {
    var rest := stack[..|stack| - 1];
    forall n | OnStack(stack, n) && n !in seen
      ensures OnStack(rest, n)
    {
      var i :| 0 <= i < |stack| && stack[i].0 == n;
      assert rest[i] == stack[i];
    }
  }

  /** The stack after n, its top, was replaced by n's children. */
  function Expanded(g: Graph, stack: Stack): Stack
    requires stack != [] && stack[|stack| - 1].0 < |g|
  {
    stack[..|stack| - 1] + Pushed(Children(g[stack[|stack| - 1].0]), stack[|stack| - 1].1 + 1)
  }

  lemma OnExpanded(g: Graph, stack: Stack, m: nat)
    requires stack != [] && stack[|stack| - 1].0 < |g|
    ensures OnStack(stack, m) && m != stack[|stack| - 1].0 ==> OnStack(Expanded(g, stack), m)
    ensures m in Children(g[stack[|stack| - 1].0]) ==> OnStack(Expanded(g, stack), m)
  {
    var n, next := stack[|stack| - 1].0, Expanded(g, stack);
    if i :| 0 <= i < |stack| && stack[i].0 == m && m != n { assert next[i] == stack[i]; }
    if i :| 0 <= i < |Children(g[n])| && Children(g[n])[i] == m { assert next[|stack| - 1 + i].0 == m; }
  }

  lemma PopComplete(g: Graph, root: nat, seen: set<nat>, stack: Stack)
    requires stack != [] && stack[|stack| - 1].0 < |g| && Complete(g, root, seen, stack)
    ensures Complete(g, root, seen + {stack[|stack| - 1].0}, Expanded(g, stack))
  {
    forall m { OnExpanded(g, stack, m); }
  }

  lemma PopFound(g: Graph, root: nat, stack: Stack)
    requires Ordered(g) && stack != [] && stack[|stack| - 1].0 < |g| && Found(g, root, stack)
    ensures Found(g, root, Expanded(g, stack))
  {
    var (n, level) := stack[|stack| - 1];
    assert NodeOrdered(g, n) && PathTo(g, root, n, level);
    PathNonZero(g, root, n, level);
    forall i | 0 <= i < |Children(g[n])|
      ensures PathTo(g, root, Children(g[n])[i], level + 1)
    {
    }
  }

  lemma PathNonZero(g: Graph, root: nat, n: nat, length: nat)
    requires PathTo(g, root, n, length)
    ensures length >= 1
  {
  }

  /** A path reaches. */
  lemma {:induction false} PathReaches(g: Graph, root: nat, n: nat, length: nat)
    requires Ordered(g) && root < |g| && PathTo(g, root, n, length)
    ensures Reaches(g, root, n)
    decreases length
  {
    if length > 1 {
      var p: nat :| p < |g| && n in Children(g[p]) && PathTo(g, root, p, length - 1);
      PathReaches(g, root, p, length - 1);
      assert Reaches(g, root, p);
      ReachesOn(g, root, p, n);
    }
  }

  lemma {:induction false} ReachesOn(g: Graph, root: nat, p: nat, n: nat)
    requires Ordered(g) && root < |g| && p < |g| && Reaches(g, root, p) && n in Children(g[p])
    ensures Reaches(g, root, n)
    decreases root
  {
    assert NodeOrdered(g, root);
    if root == p {
      assert Reaches(g, n, n);
    } else {
      var c :| c in Children(g[root]) && Reaches(g, c, p);
      ReachesOn(g, c, p, n);
    }
  }

  /** A set that has the root and every child of its members has everything the root reaches. */
  lemma ClosedReach(g: Graph, root: nat, seen: set<nat>, n: nat)
    requires Ordered(g) && root < |g| && Complete(g, root, seen, []) && Reaches(g, root, n)
    ensures n in seen
  {
    SettledReach(g, seen, root, n);
  }

  ghost function NodesUpTo(n: nat): (s: set<nat>)
    ensures forall m: nat :: m in s <==> m < n
  {
    if n == 0 then {} else NodesUpTo(n - 1) + {n - 1}
  }

  /** Some path to n is no longer than depth. */
  ghost predicate InDepth(g: Graph, root: nat, n: nat, depth: nat) { exists length: nat :: length <= depth && PathTo(g, root, n, length) }

  /** What the walk knows between two steps. */
  ghost predicate Walking(g: Graph, root: nat, seen: set<nat>, stack: Stack, depth: nat, deepest: nat)
    requires Ordered(g) && root < |g|
  {
    && Complete(g, root, seen, stack) && Found(g, root, stack) && seen <= NodesUpTo(|g|)
    && (forall n :: n in seen ==> Reaches(g, root, n) && InDepth(g, root, n, depth))
    && (if seen == {} then depth == 0 && forall i :: 0 <= i < |stack| ==> stack[i].1 >= 1 else PathTo(g, root, deepest, depth))
  }

  lemma WalkOn(g: Graph, root: nat, seen: set<nat>, stack: Stack, depth: nat, deepest: nat)
    requires Ordered(g) && root < |g| && stack != [] && Walking(g, root, seen, stack, depth, deepest)
    ensures
      var (n, level) := stack[|stack| - 1];
      && n < |g|
      && (n in seen ==> Walking(g, root, seen, stack[..|stack| - 1], depth, deepest))
      && (n !in seen ==> Walking(g, root, seen + {n}, Expanded(g, stack), if level > depth then level else depth, if level > depth then n else deepest))
  {
    var (n, level) := stack[|stack| - 1];
    if n in seen {
      PopSeen(g, root, seen, stack);
    } else {
      PopComplete(g, root, seen, stack);
      PopFound(g, root, stack);
      PathReaches(g, root, n, level);
      PathNonZero(g, root, n, level);
      Deeper(g, root, seen, n, level, depth);
    }
  }

  lemma Deeper(g: Graph, root: nat, seen: set<nat>, n: nat, level: nat, depth: nat)
    requires PathTo(g, root, n, level) && forall m :: m in seen ==> InDepth(g, root, m, depth)
    ensures forall m :: m in seen + {n} ==> InDepth(g, root, m, if level > depth then level else depth)
  {
    var next := if level > depth then level else depth;
    forall m | m in seen ensures InDepth(g, root, m, next) {
      var length: nat :| length <= depth && PathTo(g, root, m, length);
      assert length <= next;
    }
    assert level <= next && PathTo(g, root, n, level);
  }

  /** The walk: a stack of nodes with their levels, and the nodes seen. */
  method Walk(g: Graph, root: nat) returns (depth: nat, seen: set<nat>)
    requires Ordered(g) && root < |g|
    ensures forall n :: n in seen <==> Reaches(g, root, n)
    ensures exists n: nat :: PathTo(g, root, n, depth)
    ensures forall n :: n in seen ==> InDepth(g, root, n, depth)
  {
    depth, seen := 0, {};
    var stack: Stack := [(root, 1)];
    ghost var deepest := root;
    assert stack[0].0 == root;
    while stack != []
      invariant Walking(g, root, seen, stack, depth, deepest)
      decreases NodesUpTo(|g|) - seen, |stack|
    {
      var (n, level) := stack[|stack| - 1];
      WalkOn(g, root, seen, stack, depth, deepest);
      if n in seen {
        stack := stack[..|stack| - 1];
      } else {
        Fewer(NodesUpTo(|g|), seen, n);
        stack := Expanded(g, stack);
        seen := seen + {n};
        if level > depth { depth, deepest := level, n; }
      }
    }
    Walked(g, root, seen, depth, deepest);
  }

  lemma Fewer(all: set<nat>, seen: set<nat>, n: nat)
    requires n in all && n !in seen
    ensures all - (seen + {n}) < all - seen
  {
    assert n in all - seen;
  }

  /** A walk that has nothing left has seen what the root reaches. */
  lemma Walked(g: Graph, root: nat, seen: set<nat>, depth: nat, deepest: nat)
    requires Ordered(g) && root < |g| && Walking(g, root, seen, [], depth, deepest)
    ensures (forall n :: n in seen <==> Reaches(g, root, n) && InDepth(g, root, n, depth)) && PathTo(g, root, deepest, depth)
    ensures forall n :: Reaches(g, root, n) ==> n in seen
  {
    assert Reaches(g, root, root);
    forall n | Reaches(g, root, n) ensures n in seen { ClosedReach(g, root, seen, n); }
    assert root in seen;
  }

  /** Every reachable node is counted once, the reported depth is the length of a real path, and the
      score is the largest of the three shares, cut off at one. */
  method MeasureComplexity(g: Graph, root: nat, statements: nat) returns (c: Complexity)
    requires Ordered(g) && root < |g|
    ensures exists reached: set<nat> :: |reached| == c.nodes && forall n :: n in reached <==> Reaches(g, root, n)
    ensures exists n: nat :: PathTo(g, root, n, c.depth)
    ensures forall n :: Reaches(g, root, n) ==> InDepth(g, root, n, c.depth)
    ensures c.statements == statements && IsScore(c.score, Shares(c))
  {
    var depth, seen := Walk(g, root);
    var score := Max(Max(depth as real / DEPTH_CAP, |seen| as real / NODE_CAP), statements as real / STMT_CAP);
    c := Complexity(depth, |seen|, statements, if score > 1.0 then 1.0 else score);
    assert score == Shares(c)[0] || score == Shares(c)[1] || score == Shares(c)[2];
  }

  /** How much of each cap is used up. */
  function Shares(c: Complexity): seq<real> {
    [c.depth as real / 30.0, c.nodes as real / 80.0, c.statements as real / 40.0]
  }

  /** The largest share, or one when some share is larger than that. */
  ghost predicate IsScore(score: real, shares: seq<real>) {
    && 0.0 <= score <= 1.0
    && (forall i :: 0 <= i < |shares| ==> shares[i] <= score || score == 1.0)
    && exists i :: 0 <= i < |shares| && (shares[i] == score || shares[i] >= score == 1.0)
  }

  function Max(a: real, b: real): real { if a >= b then a else b }

  datatype Scheduler = Scheduler(maxSeconds: real, minSeconds: real, flat: bool)

  predicate ValidScheduler(s: Scheduler) { 0.0 < s.minSeconds <= s.maxSeconds }

  /** A budget between the two bounds, larger for larger scores. */
  function Seconds(s: Scheduler, score: Option<real>): (r: real)
    requires ValidScheduler(s) && (score.Some? ==> 0.0 <= score.value <= 1.0)
    ensures s.minSeconds <= r <= s.maxSeconds
    ensures s.flat || score.None? || score == Some(1.0) ==> r == s.maxSeconds
  {
    if s.flat || score.None? then s.maxSeconds
    else
      ScaledWithin(s.maxSeconds - s.minSeconds, score.value);
      s.minSeconds + (s.maxSeconds - s.minSeconds) * score.value
  }

  /** Equal steps of the score are equal steps of the budget. */
  lemma SecondsEven(s: Scheduler, a: real, b: real, c: real, d: real)
    requires ValidScheduler(s) && !s.flat && 0.0 <= a <= b <= 1.0 && 0.0 <= c <= d <= 1.0 && b - a == d - c
    ensures Seconds(s, Some(b)) - Seconds(s, Some(a)) == Seconds(s, Some(d)) - Seconds(s, Some(c))
  {
    var span := s.maxSeconds - s.minSeconds;
    assert span * b - span * a == span * (b - a) && span * d - span * c == span * (d - c);
  }

  /** A more complex equivalent never gets less time. */
  lemma SecondsGrow(s: Scheduler, low: real, high: real)
    requires ValidScheduler(s) && 0.0 <= low <= high <= 1.0
    ensures Seconds(s, Some(low)) <= Seconds(s, Some(high))
    ensures !s.flat ==> Seconds(s, Some(0.0)) == s.minSeconds
  {
    if !s.flat {
      var span := s.maxSeconds - s.minSeconds;
      assert span * high == span * low + span * (high - low);
      ScaledWithin(span, high - low);
    }
  }

  lemma ScaledWithin(span: real, score: real)
    requires span >= 0.0 && 0.0 <= score <= 1.0
    ensures 0.0 <= span * score <= span
  {
  }
}

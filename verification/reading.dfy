/** Reading printed expressions back: the round trip of the printer, for every precedence table. */
module Reading {
  import opened Bags
  import opened Expressions
  import opened Printer

  // ---- balanced text ------------------------------------------------------------------------------

  /** The bracket depth after reading ts at depth d, or nothing when it drops below zero. */
  function Depth(ts: seq<Token>, d: nat): Option<nat> {
    if ts == [] then Some(d)
    else if ts[0] == LParen then Depth(ts[1..], d + 1)
    else if ts[0] == RParen then (if d == 0 then None else Depth(ts[1..], d - 1))
    else Depth(ts[1..], d)
  }

  ghost predicate Balanced(ts: seq<Token>) {
    forall d: nat :: Depth(ts, d) == Some(d)
  }

  lemma {:induction false} DepthConcat(a: seq<Token>, b: seq<Token>, d: nat)
    ensures Depth(a + b, d) == if Depth(a, d).None? then None else Depth(b, Depth(a, d).value)
    decreases |a|
  {
    if a == [] {
      assert a + b == b;
    } else {
      assert (a + b)[1..] == a[1..] + b;
      var d' := if a[0] == LParen then d + 1 else if a[0] == RParen && d > 0 then d - 1 else d;
      DepthConcat(a[1..], b, d');
    }
  }

  lemma BalancedConcat(a: seq<Token>, b: seq<Token>)
    requires Balanced(a) && Balanced(b)
    ensures Balanced(a + b)
  {
    forall d: nat ensures Depth(a + b, d) == Some(d) { DepthConcat(a, b, d); }
  }

  lemma BalancedGroup(a: seq<Token>)
    requires Balanced(a)
    ensures Balanced(Group(a))
  {
    forall d: nat
      ensures Depth(Group(a), d) == Some(d)
    {
      assert Group(a) == [LParen] + (a + [RParen]);
      assert ([LParen] + (a + [RParen]))[1..] == a + [RParen];
      DepthConcat(a, [RParen], d + 1);
      assert [RParen][1..] == [];
    }
  }

  /** Text without brackets is balanced. */
  lemma {:induction false} BalancedFlat(a: seq<Token>)
    requires forall i :: 0 <= i < |a| ==> a[i] != LParen && a[i] != RParen
    ensures Balanced(a)
  {
    forall d: nat
      ensures Depth(a, d) == Some(d)
    {
      if a != [] {
        BalancedFlat(a[1..]);
        assert Depth(a[1..], d) == Some(d);
      }
    }
  }

  /** A closing bracket after balanced text closes the group. */
  lemma {:induction false} SplitBalanced(a: seq<Token>, tail: seq<Token>, d: nat)
    requires Depth(a, d).Some?
    ensures SplitGroup(a + tail, d) == match SplitGroup(tail, Depth(a, d).value) case None => None case Some(p) => Some((a + p.0, p.1))
    decreases |a|
  {
    if a == [] {
      assert a + tail == tail;
      if p :| SplitGroup(tail, d) == Some(p) { assert a + p.0 == p.0; }
    } else {
      assert (a + tail)[1..] == a[1..] + tail;
      var d' := if a[0] == LParen then d + 1 else if a[0] == RParen then d - 1 else d;
      SplitBalanced(a[1..], tail, d');
      var r := SplitGroup(tail, Depth(a, d).value);
      if r.Some? {
        assert [a[0]] + (a[1..] + r.value.0) == a + r.value.0;
      }
    }
  }

  lemma SplitClosed(a: seq<Token>, rest: seq<Token>)
    requires Balanced(a)
    ensures SplitGroup(a + [RParen] + rest, 0) == Some((a, rest))
  {
    assert Depth(a, 0) == Some(0);
    SplitBalanced(a, [RParen] + rest, 0);
    assert a + ([RParen] + rest) == a + [RParen] + rest;
    assert ([RParen] + rest)[1..] == rest;
    assert a + [] == a;
  }

  // ---- what is read back --------------------------------------------------------------------------

  /** What may stand after an operand. */
  predicate Follows(rest: seq<Token>) {
    rest == [] || (rest[0] != Dot && rest[0] != Keyword("OVER"))
  }

  /** What may stand after an expression: no operator that could take it further. */
  predicate Stops(rest: seq<Token>) {
    Follows(rest) && (rest == [] || (InfixOf(rest[0]).None? && rest[0] != Keyword("IS")))
  }

  /** Opaque text that reads as one operand wherever it stands. */
  ghost predicate IsUnit(t: Table, sql: seq<Token>) {
    Balanced(sql) && exists e :: ReadsAs(t, sql, e)
  }

  ghost predicate ReadsAs(t: Table, sql: seq<Token>, e: Expr) {
    forall rest :: Follows(rest) ==> ParsePrefix(t, sql + rest) == Some((e, rest))
  }

  ghost function UnitMeaning(t: Table, sql: seq<Token>): Expr
    requires IsUnit(t, sql)
  {
    var e :| ReadsAs(t, sql, e);
    e
  }

  /** Generated text is balanced, and text that is printed without brackets is one operand. */
  ghost predicate Spelled(t: Table, e: Expr) {
    match e
    case RawExpr(sql) => IsUnit(t, sql)
    case GeneratedPredicate(text) => Balanced(text)
    case Comparison(_, l, r) => Spelled(t, l) && Spelled(t, r)
    case BoolOp(_, l, r) => Spelled(t, l) && Spelled(t, r)
    case Not(x) => Spelled(t, x)
    case IsNull(x, _) => Spelled(t, x)
    case Mod(x, _) => Spelled(t, x)
    case Case(c, x, y) => Spelled(t, c) && Spelled(t, x) && Spelled(t, y)
    case AggregateCall(_, x) => Spelled(t, x)
    case WindowCall(_, x, parts, order, _) =>
      && (x.Some? ==> Spelled(t, x.value))
      && (forall k :: 0 <= k < |parts| ==> Spelled(t, parts[k]))
      && (forall k :: 0 <= k < |order| ==> Spelled(t, order[k]))
    case _ => true
  }

  /** The tree an engine reads: the node itself, with each piece of generated text read as the one
      bracketed unit it was printed as. */
  ghost function Meaning(t: Table, e: Expr): Expr
    requires Spelled(t, e)
  {
    match e
    case RawExpr(sql) => UnitMeaning(t, sql)
    case GeneratedPredicate(text) => ParseGroup(t, text)
    case Comparison(c, l, r) => Comparison(c, Meaning(t, l), Meaning(t, r))
    case BoolOp(c, l, r) => BoolOp(c, Meaning(t, l), Meaning(t, r))
    case Not(x) => Not(Meaning(t, x))
    case IsNull(x, negated) => IsNull(Meaning(t, x), negated)
    case Mod(x, m) => Mod(Meaning(t, x), m)
    case Case(c, x, y) => Case(Meaning(t, c), Meaning(t, x), Meaning(t, y))
    case AggregateCall(fn, x) => AggregateCall(fn, Meaning(t, x))
    case WindowCall(fn, x, parts, order, frame) =>
      WindowCall(fn, if x.None? then None else Some(Meaning(t, x.value)),
        seq(|parts|, k requires 0 <= k < |parts| => Meaning(t, parts[k])),
        seq(|order|, k requires 0 <= k < |order| => Meaning(t, order[k])), frame)
    case _ => e
  }

  /** Only nodes whose text the printer writes itself. */
  ghost predicate Structured(e: Expr) {
    match e
    case RawExpr(_) => false
    case GeneratedPredicate(_) => false
    case Comparison(_, l, r) => Structured(l) && Structured(r)
    case BoolOp(_, l, r) => Structured(l) && Structured(r)
    case Not(x) => Structured(x)
    case IsNull(x, _) => Structured(x)
    case Mod(x, _) => Structured(x)
    case Case(c, x, y) => Structured(c) && Structured(x) && Structured(y)
    case AggregateCall(_, x) => Structured(x)
    case WindowCall(_, x, parts, order, _) =>
      && (x.Some? ==> Structured(x.value))
      && (forall k :: 0 <= k < |parts| ==> Structured(parts[k]))
      && (forall k :: 0 <= k < |order| ==> Structured(order[k]))
    case _ => true
  }

  lemma {:induction false} StructuredMeaning(t: Table, e: Expr)
    requires Structured(e)
    ensures Spelled(t, e) && Meaning(t, e) == e
  {
    match e
    case Comparison(_, l, r) =>
      StructuredMeaning(t, l);
      StructuredMeaning(t, r);
    case BoolOp(_, l, r) =>
      StructuredMeaning(t, l);
      StructuredMeaning(t, r);
    case Not(x) => StructuredMeaning(t, x);
    case IsNull(x, _) => StructuredMeaning(t, x);
    case Mod(x, _) => StructuredMeaning(t, x);
    case Case(c, x, y) =>
      StructuredMeaning(t, c);
      StructuredMeaning(t, x);
      StructuredMeaning(t, y);
    case AggregateCall(_, x) => StructuredMeaning(t, x);
    case WindowCall(_, x, parts, order, _) =>
      if x.Some? { StructuredMeaning(t, x.value); }
      forall k | 0 <= k < |parts| ensures Spelled(t, parts[k]) && Meaning(t, parts[k]) == parts[k] { StructuredMeaning(t, parts[k]); }
      forall k | 0 <= k < |order| ensures Spelled(t, order[k]) && Meaning(t, order[k]) == order[k] { StructuredMeaning(t, order[k]); }
      assert Meaning(t, e).partitionBy == parts && Meaning(t, e).orderBy == order;
    case _ =>
  }

  // ---- printed text is balanced -------------------------------------------------------------------

  lemma {:induction false} SeparatedBalanced(pieces: seq<seq<Token>>)
    requires forall k :: 0 <= k < |pieces| ==> Balanced(pieces[k])
    ensures Balanced(Separated(pieces))
  {
    if |pieces| == 0 {
      BalancedFlat([]);
    } else if |pieces| > 1 {
      SeparatedBalanced(pieces[1..]);
      BalancedFlat([Comma]);
      BalancedConcat(pieces[0], [Comma]);
      BalancedConcat(pieces[0] + [Comma], Separated(pieces[1..]));
    }
  }

  lemma ClauseBalanced(head: seq<Token>, pieces: seq<seq<Token>>)
    requires forall i :: 0 <= i < |head| ==> head[i] != LParen && head[i] != RParen
    requires forall k :: 0 <= k < |pieces| ==> Balanced(pieces[k])
    ensures Balanced(Clause(head, pieces))
  {
    if pieces == [] {
      BalancedFlat([]);
    } else {
      BalancedFlat(head);
      SeparatedBalanced(pieces);
      BalancedConcat(head, Separated(pieces));
    }
  }

  lemma Wrapped(a: seq<Token>, b: seq<Token>, c: seq<Token>)
    requires Balanced(a) && Balanced(b) && Balanced(c)
    ensures Balanced(a + b + c)
  {
    BalancedConcat(a, b);
    BalancedConcat(a + b, c);
  }

  lemma CallShape(name: string, arg: seq<Token>)
    requires Balanced(arg)
    ensures Balanced([Keyword(name)] + Group(arg))
  {
    BalancedGroup(arg);
    PrefixShape(Keyword(name), Group(arg));
  }

  lemma ModShape(x: seq<Token>, m: int)
    requires Balanced(x)
    ensures Balanced([Keyword("MOD")] + Group(x + [Comma] + IntTokens(m)))
  {
    BalancedFlat(IntTokens(m));
    InfixShape(x, Comma, IntTokens(m));
    CallShape("MOD", x + [Comma] + IntTokens(m));
  }

  lemma InfixShape(l: seq<Token>, tok: Token, r: seq<Token>)
    requires Balanced(l) && Balanced(r) && tok != LParen && tok != RParen
    ensures Balanced(l + [tok] + r)
  {
    BalancedFlat([tok]);
    Wrapped(l, [tok], r);
  }

  lemma PostfixShape(x: seq<Token>, negated: bool)
    requires Balanced(x)
    ensures Balanced(x + [Keyword("IS")] + (if negated then [Keyword("NOT"), Keyword("NULL")] else [Keyword("NULL")]))
  {
    var tail := if negated then [Keyword("NOT"), Keyword("NULL")] else [Keyword("NULL")];
    BalancedFlat(tail);
    InfixShape(x, Keyword("IS"), tail);
  }

  lemma PrefixShape(tok: Token, x: seq<Token>)
    requires Balanced(x) && tok != LParen && tok != RParen
    ensures Balanced([tok] + x)
  {
    BalancedFlat([tok]);
    BalancedConcat([tok], x);
  }

  lemma {:induction false} TokensBalanced(t: Table, e: Expr)
    requires Spelled(t, e)
    ensures Balanced(Tokens(e))
    decreases e, 1
  {
    match e
    case GeneratedPredicate(text) => BalancedGroup(text);
    case TypedNull(ty) =>
      BalancedFlat([Keyword("NULL"), Keyword("AS"), Name(ty)]);
      CallShape("CAST", [Keyword("NULL"), Keyword("AS"), Name(ty)]);
    case RawExpr(_) =>
    case Comparison(c, l, r) =>
      OperandBalanced(t, l);
      OperandBalanced(t, r);
      InfixShape(Operand(l), Operator(Symbol(c)), Operand(r));
    case BoolOp(c, l, r) =>
      OperandBalanced(t, l);
      OperandBalanced(t, r);
      InfixShape(Operand(l), Keyword(Word(c)), Operand(r));
    case Not(x) =>
      OperandBalanced(t, x);
      PrefixShape(Keyword("NOT"), Operand(x));
    case IsNull(x, negated) =>
      OperandBalanced(t, x);
      PostfixShape(Operand(x), negated);
    case Mod(x, m) =>
      TokensBalanced(t, x);
      ModShape(Tokens(x), m);
    case Case(_, _, _) => CaseBalanced(t, e);
    case AggregateCall(fn, x) =>
      TokensBalanced(t, x);
      CallShape(AggregateName(fn), Tokens(x));
    case WindowCall(_, _, _, _, _) => WindowBalanced(t, e);
    case _ => BalancedFlat(Tokens(e));
  }

  /** An operand adds at most one pair of brackets. */
  lemma {:induction false} OperandBalanced(t: Table, e: Expr)
    requires Spelled(t, e)
    ensures Balanced(Operand(e))
    decreases e, 2
  {
    TokensBalanced(t, e);
    if !Atomic(e) { BalancedGroup(Tokens(e)); }
  }

  lemma {:induction false} CaseBalanced(t: Table, e: Expr)
    requires Spelled(t, e) && e.Case?
    ensures Balanced(Tokens(e))
    decreases e, 0
  {
    var c, x, y := e.condition, e.thenExpr, e.elseExpr;
    TokensBalanced(t, c);
    TokensBalanced(t, x);
    TokensBalanced(t, y);
    BalancedFlat([Keyword("CASE"), Keyword("WHEN")]);
    BalancedFlat([Keyword("THEN")]);
    BalancedFlat([Keyword("ELSE")]);
    BalancedFlat([Keyword("END")]);
    Wrapped([Keyword("CASE"), Keyword("WHEN")], Tokens(c), [Keyword("THEN")]);
    var a := [Keyword("CASE"), Keyword("WHEN")] + Tokens(c) + [Keyword("THEN")];
    Wrapped(a, Tokens(x), [Keyword("ELSE")]);
    Wrapped(a + Tokens(x) + [Keyword("ELSE")], Tokens(y), [Keyword("END")]);
  }

  lemma {:induction false} WindowBalanced(t: Table, e: Expr)
    requires Spelled(t, e) && e.WindowCall?
    ensures Balanced(Tokens(e))
    decreases e, 0
  {
    var arg := match e.warg case None => [] case Some(y) => Tokens(y);
    if e.warg.Some? { TokensBalanced(t, e.warg.value); } else { BalancedFlat([]); }
    var ps := seq(|e.partitionBy|, k requires 0 <= k < |e.partitionBy| => Tokens(e.partitionBy[k]));
    var os := seq(|e.orderBy|, k requires 0 <= k < |e.orderBy| => Tokens(e.orderBy[k]));
    forall k | 0 <= k < |ps| ensures Balanced(ps[k]) { TokensBalanced(t, e.partitionBy[k]); }
    forall k | 0 <= k < |os| ensures Balanced(os[k]) { TokensBalanced(t, e.orderBy[k]); }
    WindowTail(ps, os, e.frame);
    CallShape(WindowName(e.window), arg);
    CallShape("OVER", OverTokens(ps, os, e.frame));
    BalancedConcat([Keyword(WindowName(e.window))] + Group(arg), [Keyword("OVER")] + Group(OverTokens(ps, os, e.frame)));
    Regroup(Keyword(WindowName(e.window)), Group(arg), Keyword("OVER"), Group(OverTokens(ps, os, e.frame)));
  }

  lemma Regroup(x: Token, a: seq<Token>, y: Token, b: seq<Token>)
    ensures [x] + a + [y] + b == ([x] + a) + ([y] + b)
  {
  }

  lemma WindowTail(ps: seq<seq<Token>>, os: seq<seq<Token>>, frame: Option<FrameKind>)
    requires forall k :: 0 <= k < |ps| ==> Balanced(ps[k])
    requires forall k :: 0 <= k < |os| ==> Balanced(os[k])
    ensures Balanced(OverTokens(ps, os, frame))
  {
    ClauseBalanced(PARTITION_BY, ps);
    ClauseBalanced(ORDER_BY, os);
    BalancedFlat(FrameTokens(frame));
    Wrapped(Clause(PARTITION_BY, ps), Clause(ORDER_BY, os), FrameTokens(frame));
  }
}

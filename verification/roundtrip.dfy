/** The printer's round trip: for every precedence table, reading what was printed gives the node. */
module RoundTrips {
  import opened Bags
  import opened Expressions
  import opened Printer
  import opened Reading

  // ---- one construct at a time, on tokens ---------------------------------------------------------

  lemma RestStops(t: Table, lhs: Expr, rest: seq<Token>, min: nat)
    requires Stops(rest)
    ensures ParseRest(t, lhs, rest, min) == Some((lhs, rest))
  {
  }

  /** An operand with nothing to take it further is an expression of any strength. */
  lemma PrefixOnly(t: Table, ts: seq<Token>, x: Expr, rest: seq<Token>, min: nat)
    requires ParsePrefix(t, ts) == Some((x, rest)) && Stops(rest)
    ensures ParseExpr(t, ts, min) == Some((x, rest))
  {
    RestStops(t, x, rest, min);
  }

  lemma InfixTrip(t: Table, a: seq<Token>, tok: Token, b: seq<Token>, l: Expr, r: Expr, rest: seq<Token>)
    requires InfixOf(tok).Some? && Stops(rest)
    requires ParsePrefix(t, a + ([tok] + (b + rest))) == Some((l, [tok] + (b + rest)))
    requires ParsePrefix(t, b + rest) == Some((r, rest))
    ensures ParseExpr(t, (a + [tok] + b) + rest, 0) == Some((Joined(InfixOf(tok).value, l, r), rest))
  {
    var op := InfixOf(tok).value;
    assert (a + [tok] + b) + rest == a + ([tok] + (b + rest));
    var after := [tok] + (b + rest);
    assert after[1..] == b + rest;
    PrefixOnly(t, b + rest, r, rest, t.right(op));
    RestStops(t, Joined(op, l, r), rest, 0);
  }

  lemma PostfixTrip(t: Table, a: seq<Token>, negated: bool, x: Expr, rest: seq<Token>)
    requires Stops(rest)
    requires
      var tail := [Keyword("IS")] + (if negated then [Keyword("NOT"), Keyword("NULL")] else [Keyword("NULL")]) + rest;
      ParsePrefix(t, a + tail) == Some((x, tail))
    ensures ParseExpr(t, (a + [Keyword("IS")] + (if negated then [Keyword("NOT"), Keyword("NULL")] else [Keyword("NULL")])) + rest, 0)
      == Some((IsNull(x, negated), rest))
  {
    var words := if negated then [Keyword("NOT"), Keyword("NULL")] else [Keyword("NULL")];
    var tail := [Keyword("IS")] + words + rest;
    assert (a + [Keyword("IS")] + words) + rest == a + tail;
    assert tail[1..] == words + rest;
    if negated {
      assert tail[1..][..2] == [Keyword("NOT"), Keyword("NULL")] && tail[3..] == rest;
    } else {
      assert tail[1..][..1] == [Keyword("NULL")] && tail[2..] == rest;
      assert tail[1..][0] == Keyword("NULL");
    }
    RestStops(t, IsNull(x, negated), rest, 0);
  }

  lemma NotTrip(t: Table, b: seq<Token>, x: Expr, rest: seq<Token>)
    requires Stops(rest) && ParsePrefix(t, b + rest) == Some((x, rest))
    ensures ParseExpr(t, ([Keyword("NOT")] + b) + rest, 0) == Some((Not(x), rest))
  {
    var ts := ([Keyword("NOT")] + b) + rest;
    assert ts[1..] == b + rest;
    PrefixOnly(t, b + rest, x, rest, t.not_);
    PrefixOnly(t, ts, Not(x), rest, 0);
  }

  lemma GroupTrip(t: Table, a: seq<Token>, rest: seq<Token>)
    requires Balanced(a)
    ensures ParsePrefix(t, Group(a) + rest) == Some((ParseGroup(t, a), rest))
  {
    assert (Group(a) + rest)[1..] == a + [RParen] + rest;
    SplitClosed(a, rest);
  }

  lemma IntTrip(m: int, rest: seq<Token>)
    ensures TakeInt(IntTokens(m) + rest) == Some((m, rest))
  {
    var ts := IntTokens(m) + rest;
    if m < 0 { assert ts[2..] == rest; } else { assert ts[1..] == rest; }
  }

  lemma ModTrip(t: Table, a: seq<Token>, m: int, x: Expr, rest: seq<Token>)
    requires
      var tail := [Comma] + (IntTokens(m) + ([RParen] + rest));
      ParseExpr(t, a + tail, 0) == Some((x, tail))
    ensures ParsePrefix(t, ([Keyword("MOD")] + Group(a + [Comma] + IntTokens(m))) + rest) == Some((Mod(x, m), rest))
  {
    var tail := [Comma] + (IntTokens(m) + ([RParen] + rest));
    var ts := ([Keyword("MOD")] + Group(a + [Comma] + IntTokens(m))) + rest;
    assert ts[1..] == [LParen] + (a + tail);
    assert ts[1..][..1] == [LParen] && ts[1..][1..] == a + tail;
    assert tail[..1] == [Comma] && tail[1..] == IntTokens(m) + ([RParen] + rest);
    IntTrip(m, [RParen] + rest);
    assert ([RParen] + rest)[..1] == [RParen] && ([RParen] + rest)[1..] == rest;
    assert ParseMod(t, ts[1..]) == Some((Mod(x, m), rest));
    assert ParseWord(t, "MOD", ts[1..]) == Some((Mod(x, m), rest));
  }

  lemma CaseTrip(t: Table, a: seq<Token>, b: seq<Token>, c: seq<Token>, x: Expr, y: Expr, z: Expr, rest: seq<Token>)
    requires
      var third := [Keyword("END")] + rest;
      var second := [Keyword("ELSE")] + (c + third);
      var first := [Keyword("THEN")] + (b + second);
      && ParseExpr(t, a + first, 0) == Some((x, first)) && ParseExpr(t, b + second, 0) == Some((y, second))
      && ParseExpr(t, c + third, 0) == Some((z, third))
    ensures ParsePrefix(t, ([Keyword("CASE"), Keyword("WHEN")] + a + [Keyword("THEN")] + b + [Keyword("ELSE")] + c + [Keyword("END")]) + rest)
      == Some((Case(x, y, z), rest))
  {
    var third := [Keyword("END")] + rest;
    var second := [Keyword("ELSE")] + (c + third);
    var first := [Keyword("THEN")] + (b + second);
    var ts := ([Keyword("CASE"), Keyword("WHEN")] + a + [Keyword("THEN")] + b + [Keyword("ELSE")] + c + [Keyword("END")]) + rest;
    CaseShape(a, b, c, rest);
    Headed(Keyword("WHEN"), a + first);
    Headed(Keyword("THEN"), b + second);
    Headed(Keyword("ELSE"), c + third);
    Headed(Keyword("END"), rest);
    assert ParseCase(t, ts[1..]) == Some((Case(x, y, z), rest));
    assert ParseWord(t, "CASE", ts[1..]) == Some((Case(x, y, z), rest));
  }

  lemma Headed(tok: Token, rest: seq<Token>)
    ensures StartsWith([tok] + rest, [tok]) && ([tok] + rest)[1..] == rest
  {
  }

  lemma CaseShape(a: seq<Token>, b: seq<Token>, c: seq<Token>, rest: seq<Token>)
    ensures
      var ts := ([Keyword("CASE"), Keyword("WHEN")] + a + [Keyword("THEN")] + b + [Keyword("ELSE")] + c + [Keyword("END")]) + rest;
      ts[0] == Keyword("CASE") && ts[1..] == [Keyword("WHEN")] + (a + ([Keyword("THEN")] + (b + ([Keyword("ELSE")] + (c + ([Keyword("END")] + rest))))))
  {
    var ts := ([Keyword("CASE"), Keyword("WHEN")] + a + [Keyword("THEN")] + b + [Keyword("ELSE")] + c + [Keyword("END")]) + rest;
    assert ts == [Keyword("CASE")] + ([Keyword("WHEN")] + (a + ([Keyword("THEN")] + (b + ([Keyword("ELSE")] + (c + ([Keyword("END")] + rest)))))));
  }

  /** A bracketed argument that is an expression. */
  lemma ArgumentTrip(t: Table, a: seq<Token>, x: Expr, rest: seq<Token>)
    requires ParseExpr(t, a + ([RParen] + rest), 0) == Some((x, [RParen] + rest))
    ensures ParseArgument(t, Group(a) + rest) == Some((Some(x), rest))
  {
    var ts := Group(a) + rest;
    assert ts == [LParen] + (a + ([RParen] + rest));
    assert ts[..1] == [LParen] && ts[1..] == a + ([RParen] + rest);
    assert ParsePrefix(t, ts[1..]).Some?;
    assert ts[1] != RParen;
    assert ([RParen] + rest)[..1] == [RParen] && ([RParen] + rest)[1..] == rest;
  }

  lemma NoArgument(t: Table, rest: seq<Token>)
    ensures ParseArgument(t, Group([]) + rest) == Some((None, rest))
  {
    var ts := Group([]) + rest;
    assert ts == [LParen, RParen] + rest;
    assert ts[..2] == [LParen, RParen] && ts[2..] == rest;
  }

  lemma AggregateTrip(t: Table, fn: AggregateFunction, a: seq<Token>, x: Expr, rest: seq<Token>)
    requires Follows(rest) && ParseExpr(t, a + ([RParen] + rest), 0) == Some((x, [RParen] + rest))
    ensures ParsePrefix(t, ([Keyword(AggregateName(fn))] + Group(a)) + rest) == Some((AggregateCall(fn, x), rest))
  {
    var ts := ([Keyword(AggregateName(fn))] + Group(a)) + rest;
    assert ts[1..] == Group(a) + rest;
    ArgumentTrip(t, a, x, rest);
    FirstOf(rest, [Keyword("OVER"), LParen]);
    AggregateWord(fn);
    assert ParseCall(t, AggregateName(fn), ts[1..]) == Some((AggregateCall(fn, x), rest));
    assert ParseWord(t, AggregateName(fn), ts[1..]) == Some((AggregateCall(fn, x), rest));
  }

  lemma AggregateWord(fn: AggregateFunction)
    ensures AggregateOf(AggregateName(fn)) == Some(fn)
    ensures AggregateName(fn) !in {"TRUE", "FALSE", "NOT", "CAST", "CASE", "MOD"}
  {
    assert AggregateName(fn)[0] != 'T' && AggregateName(fn)[0] != 'F' && AggregateName(fn)[0] != 'N' && AggregateName(fn)[0] != 'C';
    assert AggregateName(fn) == "MIN" || AggregateName(fn) == "MAX" || AggregateName(fn) == "ANY_VALUE";
    assert "MIN"[1] == 'I' && "MAX"[1] == 'A' && "MOD"[1] == 'O' && "ANY_VALUE"[0] == 'A';
  }

  // ---- windows --------------------------------------------------------------------------------------

  lemma WindowWord(fn: WindowFunction)
    ensures WindowOf(WindowName(fn)) == Some(fn)
    ensures WindowName(fn) !in {"TRUE", "FALSE", "NOT", "CAST", "CASE", "MOD"}
  {
    assert |"FIRST_VALUE"| == 11 && |"LAST_VALUE"| == 10 && |"ROW_NUMBER"| == 10;
    assert "LAST_VALUE"[0] == 'L' && "ROW_NUMBER"[0] == 'R';
    assert "MIN"[1] == 'I' && "MAX"[1] == 'A' && "MOD"[1] == 'O' && "NOT"[0] == 'N';
  }

  lemma FrameTrip(frame: Option<FrameKind>, rest: seq<Token>)
    ensures Expect(ParseFrame(FrameTokens(frame) + ([RParen] + rest)), [RParen]) == Some((frame, rest))
  {
    var tail := [RParen] + rest;
    var ts := FrameTokens(frame) + tail;
    var n := |FrameTokens(frame)|;
    assert tail[..1] == [RParen] && tail[1..] == rest;
    assert ts[n..] == tail && ts[..n] == FrameTokens(frame);
    assert FrameTokens(Some(FrameRows))[0] == Keyword("ROWS") && FrameTokens(Some(FrameRange))[0] == Keyword("RANGE");
    assert Keyword("ROWS") != Keyword("RANGE") by { assert "ROWS"[1] == 'O' && "RANGE"[1] == 'A'; }
    if frame == None {
      assert ts[0] == RParen;
      assert !StartsWith(ts, FrameTokens(Some(FrameRows))) && !StartsWith(ts, FrameTokens(Some(FrameRange))) by { NotStarting(ts); }
    } else if frame == Some(FrameRange) {
      assert ts[0] == Keyword("RANGE");
      assert !StartsWith(ts, FrameTokens(Some(FrameRows))) by { FirstOf(ts, FrameTokens(Some(FrameRows))); }
    }
  }

  /** Text that starts with prefix starts with its first token. */
  lemma FirstOf(ts: seq<Token>, prefix: seq<Token>)
    requires prefix != []
    ensures StartsWith(ts, prefix) ==> ts != [] && ts[0] == prefix[0]
  {
    if StartsWith(ts, prefix) { assert ts[..|prefix|][0] == ts[0]; }
  }

  lemma NotStarting(ts: seq<Token>)
    requires ts != [] && ts[0] == RParen
    ensures !StartsWith(ts, FrameTokens(Some(FrameRows))) && !StartsWith(ts, FrameTokens(Some(FrameRange)))
  {
    FirstOf(ts, FrameTokens(Some(FrameRows)));
    FirstOf(ts, FrameTokens(Some(FrameRange)));
  }

  /** What stands after the list of a clause: not a comma, and not the head of that clause. */
  predicate EndsList(head: seq<Token>, rest: seq<Token>) {
    Stops(rest) && rest != [] && rest[0] != Comma && !StartsWith(rest, head)
  }

  /** A clause reads back as its list of expressions. */
  ghost predicate ListReads(t: Table, pieces: seq<seq<Token>>, es: seq<Expr>, rest: seq<Token>) {
    |pieces| == |es| && (pieces != [] ==> ParseList(t, Separated(pieces) + rest) == Some((es, rest)))
  }

  lemma ClauseTrip(t: Table, head: seq<Token>, pieces: seq<seq<Token>>, es: seq<Expr>, rest: seq<Token>)
    requires head != [] && EndsList(head, rest) && ListReads(t, pieces, es, rest)
    ensures ParseClause(t, head, Clause(head, pieces) + rest) == Some((es, rest))
  {
    var ts := Clause(head, pieces) + rest;
    if pieces == [] {
      assert ts == rest;
    } else {
      assert ts[..|head|] == head && ts[|head|..] == Separated(pieces) + rest;
    }
  }

  /** A list of one, and a list of more. */
  lemma ListStep(t: Table, pieces: seq<seq<Token>>, es: seq<Expr>, rest: seq<Token>)
    requires |pieces| == |es| > 0 && rest != [] && rest[0] != Comma
    requires
      var tail := if |pieces| == 1 then rest else [Comma] + (Separated(pieces[1..]) + rest);
      ParseExpr(t, pieces[0] + tail, 0) == Some((es[0], tail))
    requires ListReads(t, pieces[1..], es[1..], rest)
    ensures ListReads(t, pieces, es, rest)
  {
    if |pieces| == 1 {
      assert Separated(pieces) + rest == pieces[0] + rest;
      FirstOf(rest, [Comma]);
      assert [es[0]] == es;
    } else {
      var tail := [Comma] + (Separated(pieces[1..]) + rest);
      assert Separated(pieces) + rest == pieces[0] + tail;
      assert tail[..1] == [Comma] && tail[1..] == Separated(pieces[1..]) + rest;
      assert [es[0]] + es[1..] == es;
    }
  }

  /** What follows each clause of OVER ( ... ). */
  lemma AfterClauses(order: seq<seq<Token>>, frame: Option<FrameKind>, rest: seq<Token>)
    ensures EndsList(ORDER_BY, FrameTokens(frame) + ([RParen] + rest))
    ensures EndsList(PARTITION_BY, Clause(ORDER_BY, order) + (FrameTokens(frame) + ([RParen] + rest)))
  {
    var last := FrameTokens(frame) + ([RParen] + rest);
    var next := Clause(ORDER_BY, order) + last;
    assert last[0] == RParen || last[0] == Keyword("ROWS") || last[0] == Keyword("RANGE");
    assert next[0] == Keyword("ORDER") || next[0] == last[0];
    FirstOf(last, ORDER_BY);
    FirstOf(next, PARTITION_BY);
    Distinguished();
  }

  /** The words that matter here differ. */
  lemma Distinguished()
    ensures "ROWS" !in {"ORDER", "PARTITION", "IS", "OVER", "AND", "OR"}
    ensures "RANGE" !in {"ORDER", "PARTITION", "IS", "OVER", "AND", "OR"}
    ensures "ORDER" !in {"PARTITION", "IS", "OVER", "AND", "OR"}
  {
    assert "ROWS"[0] == 'R' && "RANGE"[0] == 'R' && "ORDER"[0] == 'O' && "PARTITION"[0] == 'P' && "IS"[0] == 'I' && "AND"[0] == 'A';
    assert "ORDER"[1] == 'R' && "OVER"[1] == 'V' && |"OR"| == 2 && |"ORDER"| == 5 && "OVER"[0] == 'O' && "OR"[0] == 'O';
  }

  lemma OverTrip(t: Table, fn: WindowFunction, x: Option<Expr>, ps: seq<seq<Token>>, os: seq<seq<Token>>, frame: Option<FrameKind>, parts: seq<Expr>, order: seq<Expr>, rest: seq<Token>)
    requires
      var last := FrameTokens(frame) + ([RParen] + rest);
      && ListReads(t, os, order, last)
      && ListReads(t, ps, parts, Clause(ORDER_BY, os) + last)
    ensures ParseOver(t, fn, x, OverTokens(ps, os, frame) + ([RParen] + rest)) == Some((WindowCall(fn, x, parts, order, frame), rest))
  {
    var last := FrameTokens(frame) + ([RParen] + rest);
    var next := Clause(ORDER_BY, os) + last;
    AfterClauses(os, frame, rest);
    assert OverTokens(ps, os, frame) + ([RParen] + rest) == Clause(PARTITION_BY, ps) + next;
    ClauseTrip(t, PARTITION_BY, ps, parts, next);
    assert ParseClause(t, [Keyword("PARTITION"), Keyword("BY")], Clause(PARTITION_BY, ps) + next) == Some((parts, next));
    ClauseTrip(t, ORDER_BY, os, order, last);
    assert ParseClause(t, [Keyword("ORDER"), Keyword("BY")], next) == Some((order, last));
    FrameTrip(frame, rest);
  }

  lemma WindowTrip(t: Table, fn: WindowFunction, arg: seq<Token>, x: Option<Expr>, over: seq<Token>, call: Expr, rest: seq<Token>)
    requires
      var after := [Keyword("OVER")] + (Group(over) + rest);
      ParseArgument(t, Group(arg) + after) == Some((x, after))
    requires ParseOver(t, fn, x, over + ([RParen] + rest)) == Some((call, rest))
    ensures ParsePrefix(t, ([Keyword(WindowName(fn))] + Group(arg) + [Keyword("OVER")] + Group(over)) + rest) == Some((call, rest))
  {
    var after := [Keyword("OVER")] + (Group(over) + rest);
    var ts := ([Keyword(WindowName(fn))] + Group(arg) + [Keyword("OVER")] + Group(over)) + rest;
    assert ts[1..] == Group(arg) + after;
    assert after == [Keyword("OVER"), LParen] + (over + ([RParen] + rest));
    assert after[..2] == [Keyword("OVER"), LParen] && after[2..] == over + ([RParen] + rest);
    WindowWord(fn);
    assert ParseCall(t, WindowName(fn), ts[1..]) == Some((call, rest));
    assert ParseWord(t, WindowName(fn), ts[1..]) == Some((call, rest));
  }

  // ---- the round trip -------------------------------------------------------------------------------

  /** Kinds whose printed form is one operand even without brackets around it. */
  predicate SelfContained(e: Expr) {
    !e.Comparison? && !e.BoolOp? && !e.IsNull? && !e.Not?
  }

  lemma SymbolInfix(c: Comparator)
    ensures InfixOf(Operator(Symbol(c))) == Some(Symbol(c)) && ComparatorOf(Symbol(c)) == Some(c)
  {
    assert |"="| == 1 && |"<"| == 1 && |">"| == 1 && |"<>"| == 2 && |"<="| == 2 && |">="| == 2;
    assert "="[0] == '=' && "<"[0] == '<' && ">"[0] == '>' && "<>"[0] == '<' && "<="[0] == '<' && ">="[0] == '>';
    assert "<>"[1] == '>' && "<="[1] == '=';
  }

  lemma WordInfix(c: Connective)
    ensures InfixOf(Keyword(Word(c))) == Some(Word(c)) && ComparatorOf(Word(c)) == None && (Word(c) == "AND" <==> c == And)
  {
    assert "AND"[0] == 'A' && "OR"[0] == 'O' && "="[0] == '=' && "<"[0] == '<' && ">"[0] == '>' && "<>"[0] == '<' && "<="[0] == '<' && ">="[0] == '>';
  }

  lemma {:induction false} OperandTrip(t: Table, e: Expr, rest: seq<Token>)
    requires Spelled(t, e) && Follows(rest)
    ensures ParsePrefix(t, Operand(e) + rest) == Some((Meaning(t, e), rest))
    decreases e, 3
  {
    if Atomic(e) {
      PrefixTrip(t, e, rest);
    } else {
      RoundTrip(t, e, []);
      assert Tokens(e) + [] == Tokens(e);
      TokensBalanced(t, e);
      GroupTrip(t, Tokens(e), rest);
    }
  }

  lemma {:induction false} PrefixTrip(t: Table, e: Expr, rest: seq<Token>)
    requires Spelled(t, e) && SelfContained(e) && Follows(rest)
    ensures ParsePrefix(t, Tokens(e) + rest) == Some((Meaning(t, e), rest))
    decreases e, 1
  {
    match e
    case RawExpr(sql) => assert ReadsAs(t, sql, UnitMeaning(t, sql));
    case GeneratedPredicate(text) => GroupTrip(t, text, rest);
    case Mod(x, m) =>
      RoundTrip(t, x, [Comma] + (IntTokens(m) + ([RParen] + rest)));
      ModTrip(t, Tokens(x), m, Meaning(t, x), rest);
    case AggregateCall(fn, x) =>
      RoundTrip(t, x, [RParen] + rest);
      AggregateTrip(t, fn, Tokens(x), Meaning(t, x), rest);
    case Case(c, x, y) =>
      var third := [Keyword("END")] + rest;
      var second := [Keyword("ELSE")] + (Tokens(y) + third);
      CaseStops(rest);
      RoundTrip(t, c, [Keyword("THEN")] + (Tokens(x) + second));
      RoundTrip(t, x, second);
      RoundTrip(t, y, third);
      CaseTrip(t, Tokens(c), Tokens(x), Tokens(y), Meaning(t, c), Meaning(t, x), Meaning(t, y), rest);
    case WindowCall(_, _, _, _, _) => CallTrip(t, e, rest);
    case IntLiteral(n) => IntTrip(n, rest);
    case TypedNull(ty) => CastTrip(t, ty, rest);
    case _ => LeafTrip(t, e, rest);
  }

  lemma CaseStops(rest: seq<Token>)
    ensures forall ts :: Stops([Keyword("THEN")] + ts) && Stops([Keyword("ELSE")] + ts) && Stops([Keyword("END")] + ts)
  {
    assert "THEN"[0] == 'T' && "ELSE"[0] == 'E' && "END"[0] == 'E' && "OVER"[0] == 'O' && "IS"[0] == 'I' && "AND"[0] == 'A' && "OR"[0] == 'O';
  }

  lemma CastTrip(t: Table, ty: string, rest: seq<Token>)
    ensures ParsePrefix(t, Tokens(TypedNull(ty)) + rest) == Some((TypedNull(ty), rest))
  {
    var ts := Tokens(TypedNull(ty)) + rest;
    assert ts == [Keyword("CAST"), LParen, Keyword("NULL"), Keyword("AS"), Name(ty), RParen] + rest;
    var after := ts[1..];
    assert after[..3] == [LParen, Keyword("NULL"), Keyword("AS")] && after[3] == Name(ty) && after[4] == RParen && after[5..] == rest;
    assert ParseWord(t, "CAST", after) == Some((TypedNull(ty), rest));
  }

  lemma LeafTrip(t: Table, e: Expr, rest: seq<Token>)
    requires (e.ColumnRef? || e.BooleanLiteral?) && Follows(rest)
    ensures ParsePrefix(t, Tokens(e) + rest) == Some((e, rest))
  {
    var ts := Tokens(e) + rest;
    if e.ColumnRef? && e.relation.Some? {
      assert ts[3..] == rest;
    } else {
      assert ts[1..] == rest;
      assert |ts| > 1 ==> ts[1] == rest[0];
    }
  }

  lemma {:induction false} CallTrip(t: Table, e: Expr, rest: seq<Token>)
    requires Spelled(t, e) && e.WindowCall?
    ensures ParsePrefix(t, Tokens(e) + rest) == Some((Meaning(t, e), rest))
    decreases e, 0
  {
    var ps := seq(|e.partitionBy|, k requires 0 <= k < |e.partitionBy| => Tokens(e.partitionBy[k]));
    var os := seq(|e.orderBy|, k requires 0 <= k < |e.orderBy| => Tokens(e.orderBy[k]));
    var m := Meaning(t, e);
    var last := FrameTokens(e.frame) + ([RParen] + rest);
    AfterClauses(os, e.frame, rest);
    ListTrip(t, e, e.orderBy, last, 0);
    ListTrip(t, e, e.partitionBy, Clause(ORDER_BY, os) + last, 0);
    OverTrip(t, e.window, m.warg, ps, os, e.frame, m.partitionBy, m.orderBy, rest);
    var after := [Keyword("OVER")] + (Group(OverTokens(ps, os, e.frame)) + rest);
    var arg := match e.warg case None => [] case Some(y) => Tokens(y);
    if e.warg.Some? {
      RoundTrip(t, e.warg.value, [RParen] + after);
      ArgumentTrip(t, arg, m.warg.value, after);
    } else {
      NoArgument(t, after);
    }
    WindowTrip(t, e.window, arg, m.warg, OverTokens(ps, os, e.frame), m, rest);
  }

  /** The expressions of a clause of e, from position i on, read back. */
  lemma {:induction false} ListTrip(t: Table, e: Expr, es: seq<Expr>, rest: seq<Token>, i: nat)
    requires e.WindowCall? && Spelled(t, e) && (es == e.partitionBy || es == e.orderBy) && i <= |es|
    requires Stops(rest) && rest != [] && rest[0] != Comma
    ensures forall k :: 0 <= k < |es| ==> Spelled(t, es[k])
    ensures ListReads(t, seq(|es|, k requires 0 <= k < |es| => Tokens(es[k]))[i..], seq(|es|, k requires 0 <= k < |es| => Meaning(t, es[k]))[i..], rest)
    decreases e, 0, |es| - i
  {
    var pieces := seq(|es|, k requires 0 <= k < |es| => Tokens(es[k]));
    var ms := seq(|es|, k requires 0 <= k < |es| => Meaning(t, es[k]));
    if i < |es| {
      ListTrip(t, e, es, rest, i + 1);
      var tail := if |pieces[i..]| == 1 then rest else [Comma] + (Separated(pieces[i..][1..]) + rest);
      RoundTrip(t, es[i], tail);
      assert pieces[i..][1..] == pieces[i + 1..] && ms[i..][1..] == ms[i + 1..];
      ListStep(t, pieces[i..], ms[i..], rest);
    }
  }

  /** ROUND TRIP. Under any table of binding powers, reading what was printed, wherever it stands,
      gives exactly the node, with generated text read as the unit it was bracketed as. */
  lemma {:induction false} RoundTrip(t: Table, e: Expr, rest: seq<Token>)
    requires Spelled(t, e) && Stops(rest)
    ensures ParseExpr(t, Tokens(e) + rest, 0) == Some((Meaning(t, e), rest))
    decreases e, 2
  {
    match e
    case Comparison(c, l, r) =>
      SymbolInfix(c);
      OperandTrip(t, l, [Operator(Symbol(c))] + (Operand(r) + rest));
      OperandTrip(t, r, rest);
      InfixTrip(t, Operand(l), Operator(Symbol(c)), Operand(r), Meaning(t, l), Meaning(t, r), rest);
    case BoolOp(c, l, r) =>
      WordInfix(c);
      OperandTrip(t, l, [Keyword(Word(c))] + (Operand(r) + rest));
      OperandTrip(t, r, rest);
      InfixTrip(t, Operand(l), Keyword(Word(c)), Operand(r), Meaning(t, l), Meaning(t, r), rest);
    case Not(x) =>
      OperandTrip(t, x, rest);
      NotTrip(t, Operand(x), Meaning(t, x), rest);
    case IsNull(x, negated) =>
      OperandTrip(t, x, [Keyword("IS")] + (if negated then [Keyword("NOT"), Keyword("NULL")] else [Keyword("NULL")]) + rest);
      PostfixTrip(t, Operand(x), negated, Meaning(t, x), rest);
    case _ =>
      PrefixTrip(t, e, rest);
      PrefixOnly(t, Tokens(e) + rest, Meaning(t, e), rest, 0);
  }

  /** Printing is injective on structured nodes: no two of them share a text. */
  lemma PrintingInjective(a: Expr, b: Expr)
    requires Structured(a) && Structured(b) && Tokens(a) == Tokens(b)
    ensures a == b
  {
    var t := Table(_ => 0, _ => 0, 0, 0);
    StructuredMeaning(t, a);
    StructuredMeaning(t, b);
    RoundTrip(t, a, []);
    RoundTrip(t, b, []);
    assert Tokens(a) + [] == Tokens(a) && Tokens(b) + [] == Tokens(b);
  }

  // ---- opaque text without brackets -----------------------------------------------------------------

  /** AND binds more tightly than OR, as in SQL. */
  const STANDARD := Table(op => if op == "OR" then 1 else if op == "AND" then 3 else 5, op => if op == "OR" then 2 else if op == "AND" then 4 else 6, 4, 5)

  lemma NameTrip(t: Table, name: string, rest: seq<Token>)
    requires Follows(rest)
    ensures ParsePrefix(t, [Name(name)] + rest) == Some((Col(name), rest))
  {
    LeafTrip(t, Col(name), rest);
  }

  /** Raw text is printed as an operand without brackets, so text with an operator in it is torn
      apart: (a OR b) AND c is printed as a OR b AND c. The same text as a generated predicate is
      bracketed and keeps together. */
  lemma RawOperandSplits()
    ensures
      var text := [Name("a"), Keyword("OR"), Name("b")];
      var a, b, c := Col("a"), Col("b"), Col("c");
      && ParseExpr(STANDARD, Tokens(BoolOp(And, RawExpr(text), c)), 0) == Some((BoolOp(Or, a, BoolOp(And, b, c)), []))
      && ParseExpr(STANDARD, Tokens(BoolOp(And, GeneratedPredicate(text), c)), 0) == Some((BoolOp(And, BoolOp(Or, a, b), c), []))
  {
    var text := [Name("a"), Keyword("OR"), Name("b")];
    var tail := [Name("b"), Keyword("AND"), Name("c")];
    WordInfix(And);
    WordInfix(Or);
    NameTrip(STANDARD, "c", []);
    NameTrip(STANDARD, "b", [Keyword("AND"), Name("c")]);
    NameTrip(STANDARD, "b", []);
    assert [Name("b")] + [Keyword("AND"), Name("c")] == tail;
    assert [Name("b")] + [] == [Name("b")] && [Name("c")] + [] == [Name("c")];
    PrefixOnly(STANDARD, [Name("c")], Col("c"), [], 4);
    assert tail[1..] == [Keyword("AND"), Name("c")] && tail[1..][1..] == [Name("c")];
    RestStops(STANDARD, BoolOp(And, Col("b"), Col("c")), [], 2);
    assert ParseExpr(STANDARD, tail, 2) == Some((BoolOp(And, Col("b"), Col("c")), []));
    RawSplit(text, tail);
    Bracketed(text);
  }

  lemma RawSplit(text: seq<Token>, tail: seq<Token>)
    requires text == [Name("a"), Keyword("OR"), Name("b")] && tail == [Name("b"), Keyword("AND"), Name("c")]
    requires ParseExpr(STANDARD, tail, 2) == Some((BoolOp(And, Col("b"), Col("c")), []))
    ensures ParseExpr(STANDARD, Tokens(BoolOp(And, RawExpr(text), Col("c"))), 0) == Some((BoolOp(Or, Col("a"), BoolOp(And, Col("b"), Col("c"))), []))
  {
    var ts := Tokens(BoolOp(And, RawExpr(text), Col("c")));
    WordInfix(Or);
    assert Operand(RawExpr(text)) == text && Operand(Col("c")) == [Name("c")] && Word(And) == "AND";
    assert ts == text + [Keyword("AND")] + [Name("c")] == [Name("a")] + ([Keyword("OR")] + tail);
    NameTrip(STANDARD, "a", [Keyword("OR")] + tail);
    assert ([Keyword("OR")] + tail)[1..] == tail;
    RestStops(STANDARD, BoolOp(Or, Col("a"), BoolOp(And, Col("b"), Col("c"))), [], 0);
  }

  lemma Bracketed(text: seq<Token>)
    requires text == [Name("a"), Keyword("OR"), Name("b")]
    ensures ParseExpr(STANDARD, Tokens(BoolOp(And, GeneratedPredicate(text), Col("c"))), 0) == Some((BoolOp(And, BoolOp(Or, Col("a"), Col("b")), Col("c")), []))
  {
    var e := BoolOp(And, GeneratedPredicate(text), Col("c"));
    BalancedFlat(text);
    RoundTrip(STANDARD, e, []);
    assert Tokens(e) + [] == Tokens(e);
    var inner := BoolOp(Or, Col("a"), Col("b"));
    assert Tokens(inner) == text;
    RoundTrip(STANDARD, inner, []);
    assert text + [] == text;
  }
}

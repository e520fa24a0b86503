/** Text that is printed as an operand without brackets: exactly when an engine reads it as one. */
module Standalone {
  import opened Bags
  import opened Expressions
  import opened Printer
  import opened Reading
  import opened RoundTrips

  // ---- reading on ---------------------------------------------------------------------------------

  /** A token that ends an operand for good, whatever follows it. */
  predicate Firm(tok: Token) { tok != Dot && tok != Keyword("OVER") }

  /** What is left after an expression, with more text behind it, does not take it further. */
  predicate Ends(r: seq<Token>, rest: seq<Token>) { if r == [] then Stops(rest) else Firm(r[0]) }

  lemma ExpectMore<T>(a: Parse<T>, b: Parse<T>, prefix: seq<Token>, rest: seq<Token>)
    requires Expect(a, prefix).Some? && b == Some((a.value.0, a.value.1 + rest))
    ensures Expect(b, prefix) == Some((Expect(a, prefix).value.0, Expect(a, prefix).value.1 + rest))
  {
    StartsMore(a.value.1, prefix, rest);
  }

  lemma StartsMore(ts: seq<Token>, prefix: seq<Token>, rest: seq<Token>)
    requires StartsWith(ts, prefix)
    ensures StartsWith(ts + rest, prefix) && (ts + rest)[|prefix|..] == ts[|prefix|..] + rest
  {
  }

  /** More text makes no prefix appear when the first token already differs. */
  lemma StartsNoMore(ts: seq<Token>, prefix: seq<Token>, rest: seq<Token>)
    requires ts != [] && prefix != [] && ts[0] != prefix[0]
    ensures !StartsWith(ts, prefix) && !StartsWith(ts + rest, prefix)
  {
    FirstOf(ts, prefix);
    FirstOf(ts + rest, prefix);
  }

  lemma IntMore(ts: seq<Token>, rest: seq<Token>)
    requires TakeInt(ts).Some?
    ensures TakeInt(ts + rest) == Some((TakeInt(ts).value.0, TakeInt(ts).value.1 + rest))
  {
    assert (ts + rest)[1..] == ts[1..] + rest;
    if !ts[0].Number? { assert (ts + rest)[2..] == ts[2..] + rest; }
  }

  lemma {:induction false} GroupMore(ts: seq<Token>, d: nat, rest: seq<Token>)
    requires SplitGroup(ts, d).Some?
    ensures SplitGroup(ts + rest, d) == Some((SplitGroup(ts, d).value.0, SplitGroup(ts, d).value.1 + rest))
  {
    assert (ts + rest)[1..] == ts[1..] + rest;
    if !(ts[0] == RParen && d == 0) {
      GroupMore(ts[1..], if ts[0] == LParen then d + 1 else if ts[0] == RParen then d - 1 else d, rest);
    }
  }

  /** A token that is no operator ends the expression. */
  lemma LooseEnd(t: Table, lhs: Expr, ts: seq<Token>, min: nat)
    requires ts != [] && !Firm(ts[0])
    ensures ParseRest(t, lhs, ts, min) == Some((lhs, ts))
  {
    assert "OVER"[0] == 'O' && "OVER"[1] == 'V' && "OR"[1] == 'R' && "AND"[0] == 'A' && "IS"[0] == 'I';
  }

  lemma {:induction false} ExprMore(t: Table, ts: seq<Token>, min: nat, rest: seq<Token>)
    requires ParseExpr(t, ts, min).Some? && Ends(ParseExpr(t, ts, min).value.1, rest)
    ensures ParseExpr(t, ts + rest, min) == Some((ParseExpr(t, ts, min).value.0, ParseExpr(t, ts, min).value.1 + rest))
    decreases |ts|, 2
  {
    var p := ParsePrefix(t, ts).value;
    if p.1 != [] && !Firm(p.1[0]) { LooseEnd(t, p.0, p.1, min); }
    PrefixMore(t, ts, rest);
    RestMore(t, p.0, p.1, min, rest);
  }

  lemma {:induction false} RestMore(t: Table, lhs: Expr, ts: seq<Token>, min: nat, rest: seq<Token>)
    requires ParseRest(t, lhs, ts, min).Some? && Ends(ParseRest(t, lhs, ts, min).value.1, rest)
    ensures ParseRest(t, lhs, ts + rest, min) == Some((ParseRest(t, lhs, ts, min).value.0, ParseRest(t, lhs, ts, min).value.1 + rest))
    decreases |ts|, 3
  {
    if ts == [] {
      assert ts + rest == rest;
      RestStops(t, lhs, rest, min);
    } else if InfixOf(ts[0]).Some? && t.left(InfixOf(ts[0]).value) >= min {
      var op := InfixOf(ts[0]).value;
      var p := ParseExpr(t, ts[1..], t.right(op)).value;
      assert (ts + rest)[1..] == ts[1..] + rest;
      if p.1 != [] && !Firm(p.1[0]) { LooseEnd(t, Printer.Joined(op, lhs, p.0), p.1, min); }
      ExprMore(t, ts[1..], t.right(op), rest);
      RestMore(t, Printer.Joined(op, lhs, p.0), p.1, min, rest);
    } else if ts[0] == Keyword("IS") && t.is_ >= min {
      IsMore(t, lhs, ts, min, rest);
    }
  }

  lemma {:induction false} IsMore(t: Table, lhs: Expr, ts: seq<Token>, min: nat, rest: seq<Token>)
    requires ts != [] && InfixOf(ts[0]).None? && ts[0] == Keyword("IS") && t.is_ >= min
    requires ParseRest(t, lhs, ts, min).Some? && Ends(ParseRest(t, lhs, ts, min).value.1, rest)
    ensures ParseRest(t, lhs, ts + rest, min) == Some((ParseRest(t, lhs, ts, min).value.0, ParseRest(t, lhs, ts, min).value.1 + rest))
    decreases |ts|, 2
  {
    assert (ts + rest)[1..] == ts[1..] + rest;
    if StartsWith(ts[1..], [Keyword("NOT"), Keyword("NULL")]) {
      StartsMore(ts[1..], [Keyword("NOT"), Keyword("NULL")], rest);
      assert (ts + rest)[3..] == ts[3..] + rest;
      RestMore(t, IsNull(lhs, true), ts[3..], min, rest);
    } else {
      FirstOf(ts[1..], [Keyword("NULL")]);
      assert "NULL"[1] == 'U' && "NOT"[1] == 'O';
      StartsNoMore(ts[1..], [Keyword("NOT"), Keyword("NULL")], rest);
      StartsMore(ts[1..], [Keyword("NULL")], rest);
      assert (ts + rest)[2..] == ts[2..] + rest;
      RestMore(t, IsNull(lhs, false), ts[2..], min, rest);
    }
  }

  /** What may follow an operand that starts with this word. */
  predicate EndsOperand(negation: bool, r: seq<Token>, rest: seq<Token>) {
    if r == [] then Follows(rest) && (negation ==> Stops(rest)) else Firm(r[0])
  }

  lemma NameMore(t: Table, ts: seq<Token>, rest: seq<Token>)
    requires ts != [] && ts[0].Name? && EndsOperand(false, ParsePrefix(t, ts).value.1, rest)
    ensures ParsePrefix(t, ts + rest) == Some((ParsePrefix(t, ts).value.0, ParsePrefix(t, ts).value.1 + rest))
  {
    assert (ts + rest)[1..] == ts[1..] + rest;
    if |ts| >= 3 && ts[1] == Dot && ts[2].Name? {
      assert (ts + rest)[3..] == ts[3..] + rest;
    } else if |ts| == 1 {
      assert ts + rest == [ts[0]] + rest;
    }
  }

  lemma {:induction false} PrefixMore(t: Table, ts: seq<Token>, rest: seq<Token>)
    requires ParsePrefix(t, ts).Some? && EndsOperand(ts[0] == Keyword("NOT"), ParsePrefix(t, ts).value.1, rest)
    ensures ParsePrefix(t, ts + rest) == Some((ParsePrefix(t, ts).value.0, ParsePrefix(t, ts).value.1 + rest))
    decreases |ts|, 1
  {
    assert (ts + rest)[1..] == ts[1..] + rest;
    match ts[0]
    case Name(_) => NameMore(t, ts, rest);
    case Number(_) => IntMore(ts, rest);
    case Operator(_) => IntMore(ts, rest);
    case LParen => GroupMore(ts[1..], 0, rest);
    case Keyword(w) => WordMore(t, w, ts[1..], rest);
  }

  lemma {:induction false} WordMore(t: Table, w: string, ts: seq<Token>, rest: seq<Token>)
    requires ParseWord(t, w, ts).Some? && EndsOperand(w == "NOT", ParseWord(t, w, ts).value.1, rest)
    ensures ParseWord(t, w, ts + rest) == Some((ParseWord(t, w, ts).value.0, ParseWord(t, w, ts).value.1 + rest))
    decreases |ts|, 5
  {
    if w == "TRUE" || w == "FALSE" {
    } else if w == "NOT" {
      ExprMore(t, ts, t.not_, rest);
    } else if w == "CAST" {
      StartsMore(ts, [LParen, Keyword("NULL"), Keyword("AS")], rest);
      assert (ts + rest)[5..] == ts[5..] + rest;
    } else if w == "CASE" {
      CaseMore(t, ts, rest);
    } else if w == "MOD" {
      ModMore(t, ts, rest);
    } else {
      CallMore(t, w, ts, rest);
    }
  }

  /** An expression that a construct continues after. */
  lemma {:induction false} PartMore(t: Table, ts: seq<Token>, next: Token, rest: seq<Token>)
    requires Expect(ParseExpr(t, ts, 0), [next]).Some? && Firm(next)
    ensures
      var a := Expect(ParseExpr(t, ts, 0), [next]).value;
      Expect(ParseExpr(t, ts + rest, 0), [next]) == Some((a.0, a.1 + rest))
    decreases |ts|, 3
  {
    FirstOf(ParseExpr(t, ts, 0).value.1, [next]);
    ExprMore(t, ts, 0, rest);
    ExpectMore(ParseExpr(t, ts, 0), ParseExpr(t, ts + rest, 0), [next], rest);
  }

  lemma {:induction false} ModMore(t: Table, ts: seq<Token>, rest: seq<Token>)
    requires ParseMod(t, ts).Some?
    ensures ParseMod(t, ts + rest) == Some((ParseMod(t, ts).value.0, ParseMod(t, ts).value.1 + rest))
    decreases |ts|, 4
  {
    StartsMore(ts, [LParen], rest);
    PartMore(t, ts[1..], Comma, rest);
    var x := Expect(ParseExpr(t, ts[1..], 0), [Comma]).value;
    IntMore(x.1, rest);
    ExpectMore(TakeInt(x.1), TakeInt(x.1 + rest), [RParen], rest);
  }

  lemma FirmWords()
    ensures Firm(Keyword("THEN")) && Firm(Keyword("ELSE")) && Firm(Keyword("END")) && Firm(Keyword("ORDER")) && Firm(Keyword("ROWS")) && Firm(Keyword("RANGE"))
  {
    assert "OVER"[0] == 'O' && "OVER"[1] == 'V' && "ORDER"[1] == 'R';
    assert "THEN"[0] == 'T' && "ELSE"[0] == 'E' && "END"[0] == 'E' && "ROWS"[0] == 'R' && "RANGE"[0] == 'R';
  }

  lemma {:induction false} CaseMore(t: Table, ts: seq<Token>, rest: seq<Token>)
    requires ParseCase(t, ts).Some?
    ensures ParseCase(t, ts + rest) == Some((ParseCase(t, ts).value.0, ParseCase(t, ts).value.1 + rest))
    decreases |ts|, 4
  {
    FirmWords();
    StartsMore(ts, [Keyword("WHEN")], rest);
    PartMore(t, ts[1..], Keyword("THEN"), rest);
    var c := Expect(ParseExpr(t, ts[1..], 0), [Keyword("THEN")]).value;
    PartMore(t, c.1, Keyword("ELSE"), rest);
    var x := Expect(ParseExpr(t, c.1, 0), [Keyword("ELSE")]).value;
    PartMore(t, x.1, Keyword("END"), rest);
  }

  lemma {:induction false} ArgumentMore(t: Table, ts: seq<Token>, rest: seq<Token>)
    requires ParseArgument(t, ts).Some?
    ensures ParseArgument(t, ts + rest) == Some((ParseArgument(t, ts).value.0, ParseArgument(t, ts).value.1 + rest))
    decreases |ts|, 3
  {
    if StartsWith(ts, [LParen, RParen]) {
      StartsMore(ts, [LParen, RParen], rest);
    } else {
      StartsMore(ts, [LParen], rest);
      PartMore(t, ts[1..], RParen, rest);
      NoEmptyArgument(ts, rest);
    }
  }

  lemma NoEmptyArgument(ts: seq<Token>, rest: seq<Token>)
    requires |ts| >= 2 && !StartsWith(ts, [LParen, RParen])
    ensures !StartsWith(ts + rest, [LParen, RParen])
  {
    assert (ts + rest)[..2] == ts[..2];
  }

  lemma {:induction false} CallMore(t: Table, w: string, ts: seq<Token>, rest: seq<Token>)
    requires ParseCall(t, w, ts).Some? && EndsOperand(false, ParseCall(t, w, ts).value.1, rest)
    ensures ParseCall(t, w, ts + rest) == Some((ParseCall(t, w, ts).value.0, ParseCall(t, w, ts).value.1 + rest))
    decreases |ts|, 4
  {
    ArgumentMore(t, ts, rest);
    var x := ParseArgument(t, ts).value;
    if StartsWith(x.1, [Keyword("OVER"), LParen]) {
      StartsMore(x.1, [Keyword("OVER"), LParen], rest);
      OverMore(t, WindowOf(w).value, x.0, x.1[2..], rest);
    } else if x.1 != [] {
      StartsNoMore(x.1, [Keyword("OVER"), LParen], rest);
    } else {
      assert x.1 + rest == rest;
      FirstOf(rest, [Keyword("OVER"), LParen]);
    }
  }

  /** The end of OVER ( ... ) starts with a frame or the bracket. */
  predicate FrameEnd(ts: seq<Token>) { ts != [] && (ts[0] == RParen || ts[0] == Keyword("ROWS") || ts[0] == Keyword("RANGE")) }

  lemma FrameMore(ts: seq<Token>, rest: seq<Token>)
    requires Expect(ParseFrame(ts), [RParen]).Some?
    ensures FrameEnd(ts)
    ensures
      var a := Expect(ParseFrame(ts), [RParen]).value;
      Expect(ParseFrame(ts + rest), [RParen]) == Some((a.0, a.1 + rest))
  {
    var rows, range := FrameTokens(Some(FrameRows)), FrameTokens(Some(FrameRange));
    FirstOf(ts, rows);
    FirstOf(ts, range);
    FirstOf(ParseFrame(ts).value.1, [RParen]);
    assert "ROWS"[1] == 'O' && "RANGE"[1] == 'A';
    if StartsWith(ts, rows) {
      StartsMore(ts, rows, rest);
    } else if StartsWith(ts, range) {
      StartsMore(ts, range, rest);
      StartsNoMore(ts, rows, rest);
    } else {
      StartsNoMore(ts, rows, rest);
      StartsNoMore(ts, range, rest);
    }
    ExpectMore(ParseFrame(ts), ParseFrame(ts + rest), [RParen], rest);
  }

  /** What follows a clause, so that neither its head nor a comma does. */
  predicate ClauseEnd(head: seq<Token>, r: seq<Token>) { r != [] && Firm(r[0]) && r[0] != Comma && head != [] && r[0] != head[0] }

  lemma {:induction false} ClauseMore(t: Table, head: seq<Token>, ts: seq<Token>, rest: seq<Token>)
    requires ParseClause(t, head, ts).Some? && ClauseEnd(head, ParseClause(t, head, ts).value.1)
    ensures ParseClause(t, head, ts + rest) == Some((ParseClause(t, head, ts).value.0, ParseClause(t, head, ts).value.1 + rest))
    decreases |ts|, 3
  {
    if StartsWith(ts, head) {
      StartsMore(ts, head, rest);
      ListMore(t, ts[|head|..], rest);
    } else {
      StartsNoMore(ts, head, rest);
    }
  }

  lemma {:induction false} ListMore(t: Table, ts: seq<Token>, rest: seq<Token>)
    requires ParseList(t, ts).Some?
    requires var r := ParseList(t, ts).value.1; r != [] && Firm(r[0]) && r[0] != Comma
    ensures ParseList(t, ts + rest) == Some((ParseList(t, ts).value.0, ParseList(t, ts).value.1 + rest))
    decreases |ts|, 3
  {
    var p := ParseExpr(t, ts, 0).value;
    FirstOf(p.1, [Comma]);
    ExprMore(t, ts, 0, rest);
    if StartsWith(p.1, [Comma]) {
      StartsMore(p.1, [Comma], rest);
      ListMore(t, p.1[1..], rest);
    } else {
      StartsNoMore(p.1, [Comma], rest);
    }
  }

  /** A clause that leaves the end of OVER, or the next clause, to what follows. */
  lemma ClauseLeaves(t: Table, head: seq<Token>, ts: seq<Token>)
    requires head != [] && ParseClause(t, head, ts).Some? && FrameEnd(ParseClause(t, head, ts).value.1)
    ensures FrameEnd(ts) || (ts != [] && ts[0] == head[0])
  {
    FirstOf(ts, head);
  }

  lemma {:induction false} OverMore(t: Table, fn: WindowFunction, x: Option<Expr>, ts: seq<Token>, rest: seq<Token>)
    requires ParseOver(t, fn, x, ts).Some?
    ensures ParseOver(t, fn, x, ts + rest) == Some((ParseOver(t, fn, x, ts).value.0, ParseOver(t, fn, x, ts).value.1 + rest))
    decreases |ts|, 4
  {
    var parts := ParseClause(t, PARTITION_BY, ts).value;
    var order := ParseClause(t, ORDER_BY, parts.1).value;
    FrameMore(order.1, rest);
    ClauseLeaves(t, ORDER_BY, parts.1);
    FirmWords();
    Distinguished();
    ClauseMore(t, ORDER_BY, parts.1, rest);
    ClauseMore(t, PARTITION_BY, ts, rest);
  }

  // ---- raw text -----------------------------------------------------------------------------------

  /** The text is one operand and nothing else: it does not begin with NOT, its brackets match, and reading
      an operand from it uses it up. */
  predicate StandsAlone(t: Table, sql: seq<Token>) {
    && sql != [] && sql[0] != Keyword("NOT") && Depth(sql, 0) == Some(0)
    && ParsePrefix(t, sql).Some? && ParsePrefix(t, sql).value.1 == []
  }

  lemma {:induction false} DepthUp(ts: seq<Token>, d: nat, e: nat)
    requires Depth(ts, d).Some?
    ensures Depth(ts, d + e) == Some(Depth(ts, d).value + e)
  {
    if ts != [] {
      DepthUp(ts[1..], if ts[0] == LParen then d + 1 else if ts[0] == RParen then d - 1 else d, e);
    }
  }

  lemma BalancedAtZero(ts: seq<Token>)
    ensures Balanced(ts) <==> Depth(ts, 0) == Some(0)
  {
    if Depth(ts, 0) == Some(0) {
      forall d: nat ensures Depth(ts, d) == Some(d) { DepthUp(ts, 0, d); }
    }
  }

  /** EXACT CONDITION, TABLE BY TABLE. Text that does not begin with NOT is read as one operand wherever it
      stands if and only if it stands alone. */
  lemma UnitExactly(t: Table, sql: seq<Token>)
    requires sql == [] || sql[0] != Keyword("NOT")
    ensures IsUnit(t, sql) <==> StandsAlone(t, sql)
  {
    BalancedAtZero(sql);
    if StandsAlone(t, sql) {
      var e := ParsePrefix(t, sql).value.0;
      forall rest | Follows(rest)
        ensures ParsePrefix(t, sql + rest) == Some((e, rest))
      {
        PrefixMore(t, sql, rest);
        assert [] + rest == rest;
      }
      assert ReadsAs(t, sql, e);
    }
    if IsUnit(t, sql) {
      var e :| ReadsAs(t, sql, e);
      assert Follows([]) && sql + [] == sql;
      assert ParsePrefix(t, sql) == Some((e, []));
    }
  }

  /** At the lowest strength an expression leaves no operator behind. */
  lemma {:induction false} NoOperatorLeft(t: Table, lhs: Expr, ts: seq<Token>)
    requires ParseRest(t, lhs, ts, 0).Some?
    ensures var r := ParseRest(t, lhs, ts, 0).value.1; r == [] || InfixOf(r[0]).None?
    decreases |ts|
  {
    if ts == [] {
    } else if InfixOf(ts[0]).Some? {
      var op := InfixOf(ts[0]).value;
      var p := ParseExpr(t, ts[1..], t.right(op)).value;
      NoOperatorLeft(t, Printer.Joined(op, lhs, p.0), p.1);
    } else if ts[0] == Keyword("IS") {
      if StartsWith(ts[1..], [Keyword("NOT"), Keyword("NULL")]) {
        NoOperatorLeft(t, IsNull(lhs, true), ts[3..]);
      } else {
        NoOperatorLeft(t, IsNull(lhs, false), ts[2..]);
      }
    }
  }

  /** A table in which NOT reaches as far as it can. */
  const LOOSE_NOT := Table(_ => 1, _ => 2, 0, 0)

  /** Text that begins with NOT takes what follows it: NOT a, before AND b, becomes NOT (a AND b). */
  lemma NotReaches(sql: seq<Token>)
    requires sql != [] && sql[0] == Keyword("NOT")
    ensures !IsUnit(LOOSE_NOT, sql)
  {
    if e :| ReadsAs(LOOSE_NOT, sql, e) {
      var rest := [Keyword("AND")];
      WordInfix(And);
      assert Follows(rest) by { assert "AND"[0] == 'A' && "OVER"[0] == 'O'; }
      var ts := (sql + rest)[1..];
      assert ParseWord(LOOSE_NOT, "NOT", ts) == Some((e, rest));
      var p := ParsePrefix(LOOSE_NOT, ts).value;
      NoOperatorLeft(LOOSE_NOT, p.0, p.1);
      assert false;
    }
  }

  // ---- every table reads as far -------------------------------------------------------------------

  /** What a reading leaves, if it succeeds. */
  function Left<T>(r: Parse<T>): Option<seq<Token>> {
    match r case None => None case Some(p) => Some(p.1)
  }

  /** How far an expression goes does not depend on what it starts from. */
  lemma {:induction false} StartFree(t: Table, l: Expr, m: Expr, ts: seq<Token>, min: nat)
    ensures Left(ParseRest(t, l, ts, min)) == Left(ParseRest(t, m, ts, min))
    decreases |ts|
  {
    if ts == [] {
    } else if InfixOf(ts[0]).Some? && t.left(InfixOf(ts[0]).value) >= min {
      var op := InfixOf(ts[0]).value;
      var p := ParseExpr(t, ts[1..], t.right(op));
      if p.Some? { StartFree(t, Printer.Joined(op, l, p.value.0), Printer.Joined(op, m, p.value.0), p.value.1, min); }
    } else if ts[0] == Keyword("IS") && t.is_ >= min {
      if StartsWith(ts[1..], [Keyword("NOT"), Keyword("NULL")]) {
        StartFree(t, IsNull(l, true), IsNull(m, true), ts[3..], min);
      } else if StartsWith(ts[1..], [Keyword("NULL")]) {
        StartFree(t, IsNull(l, false), IsNull(m, false), ts[2..], min);
      }
    }
  }

  /** Reading on, at the lowest strength, from what a stronger reading left. */
  function Resumed(t: Table, r: Parse<Expr>): Option<seq<Token>> {
    match r case None => None case Some(p) => Left(ParseRest(t, p.0, p.1, 0))
  }

  /** Stopping early and reading on goes as far as reading through. */
  lemma {:induction false} ResumeRest(t: Table, lhs: Expr, ts: seq<Token>, min: nat)
    ensures Left(ParseRest(t, lhs, ts, 0)) == Resumed(t, ParseRest(t, lhs, ts, min))
    decreases |ts|
  {
    if ts == [] {
    } else if InfixOf(ts[0]).Some? && t.left(InfixOf(ts[0]).value) >= min {
      var op := InfixOf(ts[0]).value;
      var p := ParseExpr(t, ts[1..], t.right(op));
      if p.Some? { ResumeRest(t, Printer.Joined(op, lhs, p.value.0), p.value.1, min); }
    } else if ts[0] == Keyword("IS") && t.is_ >= min {
      if StartsWith(ts[1..], [Keyword("NOT"), Keyword("NULL")]) {
        ResumeRest(t, IsNull(lhs, true), ts[3..], min);
      } else if StartsWith(ts[1..], [Keyword("NULL")]) {
        ResumeRest(t, IsNull(lhs, false), ts[2..], min);
      }
    }
  }

  lemma ResumeExpr(t: Table, ts: seq<Token>, min: nat)
    ensures Left(ParseExpr(t, ts, 0)) == Resumed(t, ParseExpr(t, ts, min))
  {
    var p := ParsePrefix(t, ts);
    if p.Some? { ResumeRest(t, p.value.0, p.value.1, min); }
  }

  /** After an operator the expression goes as far as the one that follows. */
  lemma AfterInfix(t: Table, lhs: Expr, ts: seq<Token>)
    requires ts != [] && InfixOf(ts[0]).Some?
    ensures Left(ParseRest(t, lhs, ts, 0)) == Left(ParseExpr(t, ts[1..], 0))
  {
    var op := InfixOf(ts[0]).value;
    var p := ParseExpr(t, ts[1..], t.right(op));
    ResumeExpr(t, ts[1..], t.right(op));
    if p.Some? { StartFree(t, Printer.Joined(op, lhs, p.value.0), p.value.0, p.value.1, 0); }
  }

  lemma AfterNot(t: Table, ts: seq<Token>)
    requires ts != [] && ts[0] == Keyword("NOT")
    ensures Left(ParseExpr(t, ts, 0)) == Left(ParseExpr(t, ts[1..], 0))
  {
    var p := ParseExpr(t, ts[1..], t.not_);
    ResumeExpr(t, ts[1..], t.not_);
    assert ParsePrefix(t, ts) == ParseWord(t, "NOT", ts[1..]);
    if p.Some? { StartFree(t, Not(p.value.0), p.value.0, p.value.1, 0); }
  }

  lemma {:induction false} SameExpr(t: Table, u: Table, ts: seq<Token>)
    ensures Left(ParseExpr(t, ts, 0)) == Left(ParseExpr(u, ts, 0))
    decreases |ts|, 2
  {
    if ts != [] && ts[0] == Keyword("NOT") {
      AfterNot(t, ts);
      AfterNot(u, ts);
      SameExpr(t, u, ts[1..]);
    } else {
      SamePrefix(t, u, ts);
      var p, q := ParsePrefix(t, ts), ParsePrefix(u, ts);
      if p.Some? { SameRest(t, u, p.value.0, q.value.0, p.value.1); }
    }
  }

  lemma {:induction false} SameRest(t: Table, u: Table, l: Expr, m: Expr, ts: seq<Token>)
    ensures Left(ParseRest(t, l, ts, 0)) == Left(ParseRest(u, m, ts, 0))
    decreases |ts|, 3
  {
    if ts == [] {
    } else if InfixOf(ts[0]).Some? {
      AfterInfix(t, l, ts);
      AfterInfix(u, m, ts);
      SameExpr(t, u, ts[1..]);
    } else if ts[0] == Keyword("IS") {
      if StartsWith(ts[1..], [Keyword("NOT"), Keyword("NULL")]) {
        SameRest(t, u, IsNull(l, true), IsNull(m, true), ts[3..]);
      } else if StartsWith(ts[1..], [Keyword("NULL")]) {
        SameRest(t, u, IsNull(l, false), IsNull(m, false), ts[2..]);
      }
    }
  }

  lemma {:induction false} SamePrefix(t: Table, u: Table, ts: seq<Token>)
    requires ts == [] || ts[0] != Keyword("NOT")
    ensures Left(ParsePrefix(t, ts)) == Left(ParsePrefix(u, ts))
    decreases |ts|, 1
  {
    if ts != [] && ts[0].Keyword? { SameWord(t, u, ts[0].word, ts[1..]); }
  }

  lemma {:induction false} SameWord(t: Table, u: Table, w: string, ts: seq<Token>)
    requires w != "NOT"
    ensures Left(ParseWord(t, w, ts)) == Left(ParseWord(u, w, ts))
    decreases |ts|, 5
  {
    if w == "CASE" { SameCase(t, u, ts); } else if w == "MOD" { SameMod(t, u, ts); } else { SameCall(t, u, w, ts); }
  }

  lemma ExpectSame<T>(a: Parse<T>, b: Parse<T>, prefix: seq<Token>)
    requires Left(a) == Left(b)
    ensures Left(Expect(a, prefix)) == Left(Expect(b, prefix))
  {
  }

  lemma {:induction false} SamePart(t: Table, u: Table, ts: seq<Token>, next: Token)
    ensures Left(Expect(ParseExpr(t, ts, 0), [next])) == Left(Expect(ParseExpr(u, ts, 0), [next]))
    decreases |ts|, 3
  {
    SameExpr(t, u, ts);
    ExpectSame(ParseExpr(t, ts, 0), ParseExpr(u, ts, 0), [next]);
  }

  lemma {:induction false} SameMod(t: Table, u: Table, ts: seq<Token>)
    ensures Left(ParseMod(t, ts)) == Left(ParseMod(u, ts))
    decreases |ts|, 4
  {
    if StartsWith(ts, [LParen]) { SamePart(t, u, ts[1..], Comma); }
  }

  lemma {:induction false} SameCase(t: Table, u: Table, ts: seq<Token>)
    ensures Left(ParseCase(t, ts)) == Left(ParseCase(u, ts))
    decreases |ts|, 4
  {
    if StartsWith(ts, [Keyword("WHEN")]) {
      SamePart(t, u, ts[1..], Keyword("THEN"));
      var c := Expect(ParseExpr(t, ts[1..], 0), [Keyword("THEN")]);
      if c.Some? {
        SamePart(t, u, c.value.1, Keyword("ELSE"));
        var x := Expect(ParseExpr(t, c.value.1, 0), [Keyword("ELSE")]);
        if x.Some? { SamePart(t, u, x.value.1, Keyword("END")); }
      }
    }
  }

  lemma {:induction false} SameArgument(t: Table, u: Table, ts: seq<Token>)
    ensures Left(ParseArgument(t, ts)) == Left(ParseArgument(u, ts))
    ensures ParseArgument(t, ts).Some? ==> (ParseArgument(t, ts).value.0.None? <==> ParseArgument(u, ts).value.0.None?)
    decreases |ts|, 3
  {
    if StartsWith(ts, [LParen]) { SamePart(t, u, ts[1..], RParen); }
  }

  lemma {:induction false} SameCall(t: Table, u: Table, w: string, ts: seq<Token>)
    ensures Left(ParseCall(t, w, ts)) == Left(ParseCall(u, w, ts))
    decreases |ts|, 4
  {
    SameArgument(t, u, ts);
    var x, y := ParseArgument(t, ts), ParseArgument(u, ts);
    if x.Some? && StartsWith(x.value.1, [Keyword("OVER"), LParen]) && WindowOf(w).Some? {
      SameOver(t, u, WindowOf(w).value, x.value.0, y.value.0, x.value.1[2..]);
    }
  }

  lemma {:induction false} SameOver(t: Table, u: Table, fn: WindowFunction, x: Option<Expr>, y: Option<Expr>, ts: seq<Token>)
    ensures Left(ParseOver(t, fn, x, ts)) == Left(ParseOver(u, fn, y, ts))
    decreases |ts|, 4
  {
    SameClause(t, u, PARTITION_BY, ts);
    var parts := ParseClause(t, PARTITION_BY, ts);
    if parts.Some? { SameClause(t, u, ORDER_BY, parts.value.1); }
  }

  lemma {:induction false} SameClause(t: Table, u: Table, head: seq<Token>, ts: seq<Token>)
    ensures Left(ParseClause(t, head, ts)) == Left(ParseClause(u, head, ts))
    decreases |ts|, 3
  {
    if |head| > 0 && StartsWith(ts, head) { SameList(t, u, ts[|head|..]); }
  }

  lemma {:induction false} SameList(t: Table, u: Table, ts: seq<Token>)
    ensures Left(ParseList(t, ts)) == Left(ParseList(u, ts))
    decreases |ts|, 3
  {
    SameExpr(t, u, ts);
    var x := ParseExpr(t, ts, 0);
    if x.Some? && StartsWith(x.value.1, [Comma]) { SameList(t, u, x.value.1[1..]); }
  }

  /** Whether text stands alone does not depend on the table. */
  lemma StandsAnywhere(t: Table, u: Table, sql: seq<Token>)
    ensures StandsAlone(t, sql) <==> StandsAlone(u, sql)
  {
    if sql != [] && sql[0] != Keyword("NOT") { SamePrefix(t, u, sql); }
  }

  /** EXACT CONDITION. Raw text is read as one operand by every engine, wherever it stands, if and only if it
      stands alone, which one table, any one, decides. */
  lemma RawExactly(sql: seq<Token>, u: Table)
    ensures (forall t :: IsUnit(t, sql)) <==> StandsAlone(u, sql)
  {
    if sql != [] && sql[0] == Keyword("NOT") {
      NotReaches(sql);
    } else {
      forall t ensures IsUnit(t, sql) <==> StandsAlone(u, sql) {
        UnitExactly(t, sql);
        StandsAnywhere(t, u, sql);
      }
      assert IsUnit(u, sql) <==> StandsAlone(u, sql);
    }
  }
}

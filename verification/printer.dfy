/** The printer brackets every compound operand, so its output reads back the same under any
    precedence table. */
module Printer {
  import opened Bags
  import opened Expressions

  // ---- printing -----------------------------------------------------------------------------------

  /** Node kinds that are written as operands without brackets. */
  predicate Atomic(e: Expr) {
    e.ColumnRef? || e.IntLiteral? || e.BooleanLiteral? || e.TypedNull? || e.Mod? || e.GeneratedPredicate? || e.RawExpr?
  }

  function Symbol(c: Comparator): string {
    match c case Eq => "=" case Ne => "<>" case Lt => "<" case Le => "<=" case Gt => ">" case Ge => ">="
  }

  function Word(c: Connective): string {
    match c case And => "AND" case Or => "OR"
  }

  function AggregateName(f: AggregateFunction): string {
    match f case AggMin => "MIN" case AggMax => "MAX" case AnyValue => "ANY_VALUE"
  }

  function WindowName(f: WindowFunction): string {
    match f
    case WinMin => "MIN" case WinMax => "MAX" case FirstValue => "FIRST_VALUE" case LastValue => "LAST_VALUE" case RowNumber => "ROW_NUMBER"
  }

  function FrameWord(k: FrameKind): string {
    match k case FrameRows => "ROWS" case FrameRange => "RANGE"
  }

  const PARTITION_BY := [Keyword("PARTITION"), Keyword("BY")]
  const ORDER_BY := [Keyword("ORDER"), Keyword("BY")]
  const WHOLE_FRAME := [Keyword("BETWEEN"), Keyword("UNBOUNDED"), Keyword("PRECEDING"), Keyword("AND"), Keyword("UNBOUNDED"), Keyword("FOLLOWING")]

  function IntTokens(n: int): seq<Token> {
    if n < 0 then [Operator("-"), Number(-n)] else [Number(n)]
  }

  function Group(content: seq<Token>): seq<Token> { [LParen] + content + [RParen] }

  /** The pieces with commas between them. */
  function Separated(pieces: seq<seq<Token>>): seq<Token> {
    if |pieces| == 0 then [] else if |pieces| == 1 then pieces[0] else pieces[0] + [Comma] + Separated(pieces[1..])
  }

  function Tokens(e: Expr): seq<Token>
    decreases e, 0
  {
    match e
    case ColumnRef(name, None) => [Name(name)]
    case ColumnRef(name, Some(r)) => [Name(r), Dot, Name(name)]
    case IntLiteral(n) => IntTokens(n)
    case BooleanLiteral(b) => [Keyword(if b then "TRUE" else "FALSE")]
    case RawExpr(sql) => sql
    case TypedNull(ty) => [Keyword("CAST")] + Group([Keyword("NULL"), Keyword("AS"), Name(ty)])
    case GeneratedPredicate(text) => Group(text)
    case Comparison(c, l, r) => Operand(l) + [Operator(Symbol(c))] + Operand(r)
    case BoolOp(c, l, r) => Operand(l) + [Keyword(Word(c))] + Operand(r)
    case Not(x) => [Keyword("NOT")] + Operand(x)
    case IsNull(x, negated) => Operand(x) + [Keyword("IS")] + (if negated then [Keyword("NOT"), Keyword("NULL")] else [Keyword("NULL")])
    case Mod(x, m) => [Keyword("MOD")] + Group(Tokens(x) + [Comma] + IntTokens(m))
    case Case(c, t, f) => [Keyword("CASE"), Keyword("WHEN")] + Tokens(c) + [Keyword("THEN")] + Tokens(t) + [Keyword("ELSE")] + Tokens(f) + [Keyword("END")]
    case AggregateCall(fn, x) => [Keyword(AggregateName(fn))] + Group(Tokens(x))
    case WindowCall(fn, x, parts, order, frame) =>
      [Keyword(WindowName(fn))] + Group(match x case None => [] case Some(y) => Tokens(y)) + [Keyword("OVER")]
        + Group(OverTokens(seq(|parts|, k requires 0 <= k < |parts| => Tokens(parts[k])),
                           seq(|order|, k requires 0 <= k < |order| => Tokens(order[k])), frame))
  }

  function OverTokens(parts: seq<seq<Token>>, order: seq<seq<Token>>, frame: Option<FrameKind>): seq<Token> {
    Clause(PARTITION_BY, parts) + Clause(ORDER_BY, order) + FrameTokens(frame)
  }

  function Clause(head: seq<Token>, pieces: seq<seq<Token>>): seq<Token> {
    if pieces == [] then [] else head + Separated(pieces)
  }

  function FrameTokens(frame: Option<FrameKind>): seq<Token> {
    match frame case None => [] case Some(k) => [Keyword(FrameWord(k))] + WHOLE_FRAME
  }

  /** An expression as an operand: bracketed unless it is a single value. */
  function Operand(e: Expr): seq<Token>
    decreases e, 1
  {
    if Atomic(e) then Tokens(e) else Group(Tokens(e))
  }

  // ---- reading ------------------------------------------------------------------------------------

  /** How tightly an engine's grammar binds each operator. The left power decides whether an operator
      takes what stands before it, the right power what it takes after it. */
  datatype Table = Table(left: string -> nat, right: string -> nat, not_: nat, is_: nat)

  type Parse<T> = Option<(T, seq<Token>)>

  /** Splits text that follows an opening bracket at the bracket that closes it. */
  function SplitGroup(ts: seq<Token>, depth: nat): (r: Option<(seq<Token>, seq<Token>)>)
    ensures r.Some? ==> |r.value.0| + |r.value.1| < |ts|
  {
    if ts == [] then None
    else if ts[0] == RParen && depth == 0 then Some(([], ts[1..]))
    else
      var d := if ts[0] == LParen then depth + 1 else if ts[0] == RParen then depth - 1 else depth;
      match SplitGroup(ts[1..], d)
      case None => None
      case Some(p) => Some(([ts[0]] + p.0, p.1))
  }

  predicate StartsWith(ts: seq<Token>, prefix: seq<Token>) {
    |prefix| <= |ts| && ts[..|prefix|] == prefix
  }

  function ComparatorOf(symbol: string): Option<Comparator> {
    if symbol == "=" then Some(Eq) else if symbol == "<>" then Some(Ne) else if symbol == "<" then Some(Lt)
    else if symbol == "<=" then Some(Le) else if symbol == ">" then Some(Gt) else if symbol == ">=" then Some(Ge) else None
  }

  /** The infix operator a token spells, and how it joins two operands. */
  function InfixOf(tok: Token): Option<string> {
    match tok
    case Operator(s) => if ComparatorOf(s).Some? then Some(s) else None
    case Keyword(w) => if w == "AND" || w == "OR" then Some(w) else None
    case _ => None
  }

  function Joined(op: string, l: Expr, r: Expr): Expr {
    match ComparatorOf(op)
    case Some(c) => Comparison(c, l, r)
    case None => BoolOp(if op == "AND" then And else Or, l, r)
  }

  function TakeInt(ts: seq<Token>): (r: Parse<int>)
    ensures r.Some? ==> |r.value.1| < |ts|
  {
    if |ts| >= 1 && ts[0].Number? then Some((ts[0].value, ts[1..]))
    else if |ts| >= 2 && ts[0] == Operator("-") && ts[1].Number? then Some((-ts[1].value, ts[2..]))
    else None
  }

  /** Drops the tokens a construct needs next. */
  function Expect<T>(r: Parse<T>, prefix: seq<Token>): (s: Parse<T>)
    ensures s.Some? ==> r.Some? && s.value.0 == r.value.0 && |s.value.1| == |r.value.1| - |prefix|
  {
    if r.Some? && StartsWith(r.value.1, prefix) then Some((r.value.0, r.value.1[|prefix|..])) else None
  }

  /** An expression whose operators bind at least as tightly as min. */
  function ParseExpr(t: Table, ts: seq<Token>, min: nat): (r: Parse<Expr>)
    ensures r.Some? ==> |r.value.1| < |ts|
    decreases |ts|, 2
  {
    match ParsePrefix(t, ts)
    case None => None
    case Some(p) => ParseRest(t, p.0, p.1, min)
  }

  /** What follows an operand: infix operators and IS [NOT] NULL that bind tightly enough. */
  function ParseRest(t: Table, lhs: Expr, ts: seq<Token>, min: nat): (r: Parse<Expr>)
    ensures r.Some? ==> |r.value.1| <= |ts|
    decreases |ts|, 3
  {
    if ts == [] then Some((lhs, ts))
    else if InfixOf(ts[0]).Some? && t.left(InfixOf(ts[0]).value) >= min then
      match ParseExpr(t, ts[1..], t.right(InfixOf(ts[0]).value))
      case None => None
      case Some(p) => ParseRest(t, Joined(InfixOf(ts[0]).value, lhs, p.0), p.1, min)
    else if ts[0] == Keyword("IS") && t.is_ >= min then
      if StartsWith(ts[1..], [Keyword("NOT"), Keyword("NULL")]) then ParseRest(t, IsNull(lhs, true), ts[3..], min)
      else if StartsWith(ts[1..], [Keyword("NULL")]) then ParseRest(t, IsNull(lhs, false), ts[2..], min)
      else None
    else Some((lhs, ts))
  }

  /** What a pair of brackets stands for: the expression inside, or, when it is not one this grammar
      reads, an opaque predicate. */
  function ParseGroup(t: Table, content: seq<Token>): Expr
    decreases |content|, 4
  {
    match ParseExpr(t, content, 0)
    case Some((e, rest)) => if rest == [] then e else GeneratedPredicate(content)
    case None => GeneratedPredicate(content)
  }

  function ParsePrefix(t: Table, ts: seq<Token>): (r: Parse<Expr>)
    ensures r.Some? ==> |r.value.1| < |ts|
    decreases |ts|, 1
  {
    if ts == [] then None
    else match ts[0]
      case Name(n) =>
        if |ts| >= 3 && ts[1] == Dot && ts[2].Name? then Some((ColumnRef(ts[2].name, Some(n)), ts[3..]))
        else Some((ColumnRef(n, None), ts[1..]))
      case Number(_) => MapParse(TakeInt(ts))
      case Operator(_) => MapParse(TakeInt(ts))
      case LParen =>
        (match SplitGroup(ts[1..], 0)
         case None => None
         case Some(p) => Some((ParseGroup(t, p.0), p.1)))
      case Keyword(w) => ParseWord(t, w, ts[1..])
      case _ => None
  }

  function MapParse(r: Parse<int>): (s: Parse<Expr>)
    ensures s.Some? ==> r.Some? && s.value.1 == r.value.1
  {
    match r case None => None case Some(p) => Some((IntLiteral(p.0), p.1))
  }

  /** An operand that starts with a reserved word; ts is what follows the word. */
  function ParseWord(t: Table, w: string, ts: seq<Token>): (r: Parse<Expr>)
    ensures r.Some? ==> |r.value.1| <= |ts|
    decreases |ts|, 5
  {
    if w == "TRUE" then Some((BooleanLiteral(true), ts))
    else if w == "FALSE" then Some((BooleanLiteral(false), ts))
    else if w == "NOT" then
      (match ParseExpr(t, ts, t.not_) case None => None case Some(p) => Some((Not(p.0), p.1)))
    else if w == "CAST" then
      if StartsWith(ts, [LParen, Keyword("NULL"), Keyword("AS")]) && |ts| >= 5 && ts[3].Name? && ts[4] == RParen
      then Some((TypedNull(ts[3].name), ts[5..])) else None
    else if w == "CASE" then ParseCase(t, ts)
    else if w == "MOD" then ParseMod(t, ts)
    else ParseCall(t, w, ts)
  }

  function ParseMod(t: Table, ts: seq<Token>): (r: Parse<Expr>)
    ensures r.Some? ==> |r.value.1| <= |ts|
    decreases |ts|, 4
  {
    if !StartsWith(ts, [LParen]) then None
    else match Expect(ParseExpr(t, ts[1..], 0), [Comma])
      case None => None
      case Some(x) =>
        match Expect(TakeInt(x.1), [RParen])
        case None => None
        case Some(m) => Some((Mod(x.0, m.0), m.1))
  }

  function ParseCase(t: Table, ts: seq<Token>): (r: Parse<Expr>)
    ensures r.Some? ==> |r.value.1| <= |ts|
    decreases |ts|, 4
  {
    if !StartsWith(ts, [Keyword("WHEN")]) then None
    else match Expect(ParseExpr(t, ts[1..], 0), [Keyword("THEN")])
      case None => None
      case Some(c) =>
        match Expect(ParseExpr(t, c.1, 0), [Keyword("ELSE")])
        case None => None
        case Some(x) =>
          match Expect(ParseExpr(t, x.1, 0), [Keyword("END")])
          case None => None
          case Some(y) => Some((Case(c.0, x.0, y.0), y.1))
  }

  function AggregateOf(w: string): Option<AggregateFunction> {
    if w == "MIN" then Some(AggMin) else if w == "MAX" then Some(AggMax) else if w == "ANY_VALUE" then Some(AnyValue) else None
  }

  function WindowOf(w: string): Option<WindowFunction> {
    if w == "MIN" then Some(WinMin) else if w == "MAX" then Some(WinMax) else if w == "FIRST_VALUE" then Some(FirstValue)
    else if w == "LAST_VALUE" then Some(LastValue) else if w == "ROW_NUMBER" then Some(RowNumber) else None
  }

  /** The bracketed argument of a call, which may be missing. */
  function ParseArgument(t: Table, ts: seq<Token>): (r: Parse<Option<Expr>>)
    ensures r.Some? ==> |r.value.1| < |ts|
    decreases |ts|, 3
  {
    if StartsWith(ts, [LParen, RParen]) then Some((None, ts[2..]))
    else if !StartsWith(ts, [LParen]) then None
    else match Expect(ParseExpr(t, ts[1..], 0), [RParen])
      case None => None
      case Some(x) => Some((Some(x.0), x.1))
  }

  /** fn(arg), or fn(arg) OVER (...). */
  function ParseCall(t: Table, w: string, ts: seq<Token>): (r: Parse<Expr>)
    ensures r.Some? ==> |r.value.1| <= |ts|
    decreases |ts|, 4
  {
    match ParseArgument(t, ts)
    case None => None
    case Some(x) =>
      if StartsWith(x.1, [Keyword("OVER"), LParen]) then
        if WindowOf(w).None? then None else ParseOver(t, WindowOf(w).value, x.0, x.1[2..])
      else if AggregateOf(w).None? || x.0.None? then None
      else Some((AggregateCall(AggregateOf(w).value, x.0.value), x.1))
  }

  function ParseOver(t: Table, fn: WindowFunction, x: Option<Expr>, ts: seq<Token>): (r: Parse<Expr>)
    ensures r.Some? ==> |r.value.1| <= |ts|
    decreases |ts|, 4
  {
    match ParseClause(t, [Keyword("PARTITION"), Keyword("BY")], ts)
    case None => None
    case Some(parts) =>
      match ParseClause(t, [Keyword("ORDER"), Keyword("BY")], parts.1)
      case None => None
      case Some(order) =>
        match Expect(ParseFrame(order.1), [RParen])
        case None => None
        case Some(frame) => Some((WindowCall(fn, x, parts.0, order.0, frame.0), frame.1))
  }

  function ParseFrame(ts: seq<Token>): (r: Parse<Option<FrameKind>>)
    ensures r.Some? ==> |r.value.1| <= |ts|
  {
    if StartsWith(ts, [Keyword("ROWS")] + EVERY_ROW) then Some((Some(FrameRows), ts[7..]))
    else if StartsWith(ts, [Keyword("RANGE")] + EVERY_ROW) then Some((Some(FrameRange), ts[7..]))
    else Some((None, ts))
  }

  /** What an engine reads as the frame of all rows of the partition. */
  const EVERY_ROW := [Keyword("BETWEEN"), Keyword("UNBOUNDED"), Keyword("PRECEDING"), Keyword("AND"), Keyword("UNBOUNDED"), Keyword("FOLLOWING")]

  /** An optional clause: its head and a list of expressions. */
  function ParseClause(t: Table, head: seq<Token>, ts: seq<Token>): (r: Parse<seq<Expr>>)
    ensures r.Some? ==> |r.value.1| <= |ts|
    decreases |ts|, 3
  {
    if |head| > 0 && StartsWith(ts, head) then ParseList(t, ts[|head|..]) else Some(([], ts))
  }

  function ParseList(t: Table, ts: seq<Token>): (r: Parse<seq<Expr>>)
    ensures r.Some? ==> |r.value.1| < |ts|
    decreases |ts|, 3
  {
    match ParseExpr(t, ts, 0)
    case None => None
    case Some(x) =>
      if !StartsWith(x.1, [Comma]) then Some(([x.0], x.1))
      else match ParseList(t, x.1[1..])
        case None => None
        case Some(more) => Some(([x.0] + more.0, more.1))
  }
}

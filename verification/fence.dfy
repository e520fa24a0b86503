/** The write fence of the CrateDB connection. A write is not visible to later reads until its table
    is refreshed, so the connection refreshes tables before any statement that may read. */
module Fence {
  import opened Bags
  import opened Expressions
  import opened Text
  import Printer

  // ---- names ----------------------------------------------------------------------------------------

  predicate IsLetter(c: char) { 'a' <= c <= 'z' || 'A' <= c <= 'Z' }

  /** A character that does not end a word. */
  predicate IsWordChar(c: char) { IsLetter(c) || '0' <= c <= '9' || c == '_' }

  /** An identifier without quotes, and one in quotes. */
  predicate Unquoted(s: string) { s != "" && (IsLetter(s[0]) || s[0] == '_') && forall i :: 0 <= i < |s| ==> IsWordChar(s[i]) || s[i] == '$' }

  predicate Quoted(s: string) { |s| >= 3 && s[0] == '"' && s[|s| - 1] == '"' && forall i :: 1 <= i < |s| - 1 ==> s[i] != '"' }

  predicate IsIdentifier(s: string) { Unquoted(s) || Quoted(s) }

  /** One identifier, or two with a dot between them. */
  predicate IsQualified(s: string) {
    IsIdentifier(s) || exists k :: 0 <= k < |s| && s[k] == '.' && IsIdentifier(s[..k]) && IsIdentifier(s[k + 1..])
  }

  /** A table or view as a statement names it, quotes included. */
  datatype Ident = Ident(schema: Option<string>, name: string)
  {
    /** The name the fence keeps: lower case unless quoted. */
    function Key(): string { if schema.None? then Folded(name) else Folded(schema.value) + "." + Folded(name) }

    function Tokens(): seq<Token> { if schema.None? then [Name(name)] else [Name(schema.value), Dot, Name(name)] }

    function Written(): string { if schema.None? then name else schema.value + "." + name }
  }

  function Folded(part: string): string { if part != "" && part[0] == '"' then part else Lower(part) }

  /** Both parts are identifiers, and no dot is quoted. */
  predicate Proper(id: Ident) {
    && IsIdentifier(id.name) && NoDot(id.name)
    && (id.schema.Some? ==> IsIdentifier(id.schema.value) && NoDot(id.schema.value))
  }

  predicate NoDot(s: string) { forall i :: 0 <= i < |s| ==> s[i] != '.' }

  // ---- what the kept name identifies ----------------------------------------------------------------

  /** The same letter in either case, or the same character. */
  predicate SameLetter(c: char, d: char) {
    c == d || (IsLetter(c) && IsLetter(d) && (c as int - d as int == 32 || d as int - c as int == 32))
  }

  /** One identifier written twice: as it is when quoted, and in any case otherwise. */
  predicate SameIdentifier(p: string, q: string) {
    if Quoted(p) || Quoted(q) then p == q else |p| == |q| && forall i :: 0 <= i < |p| ==> SameLetter(p[i], q[i])
  }

  predicate SameName(a: Ident, b: Ident) {
    && SameIdentifier(a.name, b.name) && (a.schema.Some? <==> b.schema.Some?)
    && (a.schema.Some? ==> SameIdentifier(a.schema.value, b.schema.value))
  }

  lemma FoldedExactly(p: string, q: string)
    requires IsIdentifier(p) && IsIdentifier(q)
    ensures Folded(p) == Folded(q) <==> SameIdentifier(p, q)
  {
    if Unquoted(p) && Unquoted(q) {
      if Lower(p) == Lower(q) {
        forall i | 0 <= i < |p| ensures SameLetter(p[i], q[i]) { assert Lower(p)[i] == Lower(q)[i]; }
      }
    }
  }

  lemma FoldedNoDot(p: string)
    requires NoDot(p)
    ensures NoDot(Folded(p))
  {
  }

  /** The fence keeps one name for two written ones exactly when they are the same name. */
  lemma KeyExactly(a: Ident, b: Ident)
    requires Proper(a) && Proper(b)
    ensures a.Key() == b.Key() <==> SameName(a, b)
  {
    FoldedExactly(a.name, b.name);
    FoldedNoDot(a.name);
    FoldedNoDot(b.name);
    if a.schema.Some? {
      FoldedNoDot(a.schema.value);
      DotPlace(Folded(a.schema.value), Folded(a.name));
    }
    if b.schema.Some? {
      FoldedNoDot(b.schema.value);
      DotPlace(Folded(b.schema.value), Folded(b.name));
    }
    if a.schema.Some? && b.schema.Some? { FoldedExactly(a.schema.value, b.schema.value); }
  }

  const VALUES_WORD := "values"

  /** The word VALUES at i, in any case, with no word character after it. */
  predicate ValuesAt(s: string, i: nat) {
    && i + |VALUES_WORD| <= |s| && Lower(s[i..i + |VALUES_WORD|]) == VALUES_WORD
    && (i + |VALUES_WORD| == |s| || !IsWordChar(s[i + |VALUES_WORD|]))
  }

  /** The pattern for INSERT ... VALUES asks for no space before VALUES, so its name may stop early and take
      the rest of the written name for that word. */
  predicate Backtracks(target: string) {
    exists i :: 0 < i < |target| && IsQualified(target[..i]) && ValuesAt(target, i)
  }

  /** A part of a name that ends in values, or has values before a dollar sign, behind something else. */
  predicate HidesValues(part: string) {
    Unquoted(part) && exists i :: 0 < i < |part| && ValuesAt(part, i)
  }

  predicate Hides(id: Ident) { HidesValues(id.name) || (id.schema.Some? && HidesValues(id.schema.value)) }

  lemma QuotedWhole(part: string, i: nat)
    requires Quoted(part) && 0 < i < |part|
    ensures !IsIdentifier(part[..i])
  {
    if i >= 3 { assert part[..i][i - 1] == part[i - 1]; }
  }

  /** The word holds neither a dot nor a quote. */
  lemma WordOnly(s: string, i: nat, j: nat)
    requires ValuesAt(s, i) && i <= j < i + |VALUES_WORD|
    ensures IsLetter(s[j])
  {
    assert Lower(s[i..i + |VALUES_WORD|])[j - i] == VALUES_WORD[j - i] == LowerChar(s[j]);
    assert forall k :: 0 <= k < |VALUES_WORD| ==> 'a' <= VALUES_WORD[k] <= 'z';
  }

  /** An identifier's own beginnings are identifiers unless it is quoted. */
  lemma UnquotedPrefix(part: string, i: nat)
    requires Unquoted(part) && 0 < i <= |part|
    ensures Unquoted(part[..i])
  {
  }

  /** A qualified name has its dot where the parts meet. */
  lemma DotPlace(s: string, m: string)
    requires NoDot(s) && NoDot(m)
    ensures
      var t := s + "." + m;
      && t[|s|] == '.' && t[..|s|] == s && t[|s| + 1..] == m
      && forall k :: 0 <= k < |t| && t[k] == '.' ==> k == |s|
  {
  }

  lemma NotOneIdentifier(s: string, m: string)
    requires IsIdentifier(s)
    ensures !IsIdentifier(s + "." + m)
  {
    var t := s + "." + m;
    assert t[|s|] == '.' && t[0] == s[0] && t[|s| - 1] == s[|s| - 1];
  }

  lemma OneDot(s: string, m: string)
    requires IsIdentifier(s) && NoDot(s) && NoDot(m)
    ensures IsQualified(s + "." + m) <==> IsIdentifier(m)
  {
    DotPlace(s, m);
    NotOneIdentifier(s, m);
  }

  lemma ValuesWithin(before: string, part: string, after: string, i: nat)
    requires i + |VALUES_WORD| <= |part| && (after == "" || !IsWordChar(after[0]))
    ensures ValuesAt(before + part + after, |before| + i) <==> ValuesAt(part, i)
  {
    var s := before + part + after;
    assert s[|before| + i..|before| + i + |VALUES_WORD|] == part[i..i + |VALUES_WORD|];
    if i + |VALUES_WORD| < |part| {
      assert s[|before| + i + |VALUES_WORD|] == part[i + |VALUES_WORD|];
    } else if after != "" {
      assert s[|before| + i + |VALUES_WORD|] == after[0];
    }
  }

  lemma BehindDot(s: string, n: string, i: nat)
    requires IsIdentifier(s) && NoDot(s) && NoDot(n) && i <= |n|
    ensures IsQualified((s + "." + n)[..|s| + 1 + i]) <==> IsIdentifier(n[..i])
  {
    assert (s + "." + n)[..|s| + 1 + i] == s + "." + n[..i];
    OneDot(s, n[..i]);
  }

  lemma SamePart(s: string, n: string, i: nat)
    ensures i <= |s| ==> (s + "." + n)[..i] == s[..i]
    ensures ValuesAt(s + "." + n, i) && i <= |s| ==> i + |VALUES_WORD| <= |s|
    ensures i + |VALUES_WORD| <= |s| ==> (ValuesAt(s + "." + n, i) <==> ValuesAt(s, i))
    ensures i <= |n| ==> (ValuesAt(s + "." + n, |s| + 1 + i) <==> ValuesAt(n, i))
  {
    var t := s + "." + n;
    if ValuesAt(t, i) && i <= |s| < i + |VALUES_WORD| { WordOnly(t, i, |s|); }
    if i + |VALUES_WORD| <= |s| {
      ValuesWithin("", s, "." + n, i);
      assert "" + s + ("." + n) == t;
    }
    if i + |VALUES_WORD| <= |n| {
      ValuesWithin(s + ".", n, "", i);
      assert s + "." + n + "" == t;
    }
  }

  lemma HiddenBacktracks(id: Ident)
    requires Proper(id) && Hides(id)
    ensures Backtracks(id.Written())
  {
    var target := id.Written();
    if id.schema.None? {
      var i :| 0 < i < |id.name| && ValuesAt(id.name, i);
      UnquotedPrefix(id.name, i);
      assert IsQualified(target[..i]) && ValuesAt(target, i);
    } else if HidesValues(id.name) {
      var i :| 0 < i < |id.name| && ValuesAt(id.name, i);
      var s := id.schema.value;
      UnquotedPrefix(id.name, i);
      BehindDot(s, id.name, i);
      SamePart(s, id.name, i);
      assert IsQualified(target[..|s| + 1 + i]) && ValuesAt(target, |s| + 1 + i);
    } else {
      var s := id.schema.value;
      var i :| 0 < i < |s| && ValuesAt(s, i);
      UnquotedPrefix(s, i);
      SamePart(s, id.name, i);
      assert IsQualified(target[..i]) && ValuesAt(target, i);
    }
  }

  /** Stopping early in a single part. */
  lemma BacktracksPlain(part: string, i: nat)
    requires IsIdentifier(part) && NoDot(part) && 0 < i < |part| && IsQualified(part[..i]) && ValuesAt(part, i)
    ensures HidesValues(part)
  {
    var t := part[..i];
    assert forall k :: 0 <= k < |t| ==> t[k] == part[k];
    if Quoted(part) { QuotedWhole(part, i); }
  }

  lemma BacktracksHidden(id: Ident)
    requires Proper(id) && Backtracks(id.Written())
    ensures Hides(id)
  {
    var target := id.Written();
    var i :| 0 < i < |target| && IsQualified(target[..i]) && ValuesAt(target, i);
    if id.schema.None? {
      BacktracksPlain(id.name, i);
    } else {
      var s, n := id.schema.value, id.name;
      if i <= |s| { BacktracksBefore(s, n, i); } else { BacktracksBehind(s, n, i - |s| - 1); }
    }
  }

  lemma BacktracksBefore(s: string, n: string, i: nat)
    requires IsIdentifier(s) && NoDot(s) && 0 < i <= |s| && IsQualified((s + "." + n)[..i]) && ValuesAt(s + "." + n, i)
    ensures HidesValues(s)
  {
    SamePart(s, n, i);
    BacktracksPlain(s, i);
  }

  lemma BacktracksBehind(s: string, n: string, i: nat)
    requires IsIdentifier(s) && NoDot(s) && IsIdentifier(n) && NoDot(n) && i < |n|
    requires IsQualified((s + "." + n)[..|s| + 1 + i]) && ValuesAt(s + "." + n, |s| + 1 + i)
    ensures HidesValues(n)
  {
    BehindDot(s, n, i);
    SamePart(s, n, i);
    BacktracksPlain(n, i);
  }

  /** The pattern stops early in a name exactly when a part of it hides the word. */
  lemma BacktracksExactly(id: Ident)
    requires Proper(id)
    ensures Backtracks(id.Written()) <==> Hides(id)
  {
    if Hides(id) { HiddenBacktracks(id); }
    if Backtracks(id.Written()) { BacktracksHidden(id); }
  }

  // ---- classifying statements -----------------------------------------------------------------------

  datatype Verb = InsertValues | WriteTable | Read | Rename | CreateTableVerb | CreateViewVerb | Drop | Opaque

  datatype Effect = Effect(verb: Verb, targets: set<string>, renamedTo: Option<string>)
  {
    predicate MayRead() { verb != InsertValues }
  }

  function Skip(ts: seq<Token>, prefix: seq<Token>): seq<Token> {
    if Printer.StartsWith(ts, prefix) then ts[|prefix|..] else ts
  }

  /** A name, possibly qualified, at the start of ts, and what follows it. */
  function TakeName(ts: seq<Token>): Option<(Ident, seq<Token>)> {
    if |ts| >= 3 && ts[0].Name? && ts[1] == Dot && ts[2].Name? then Some((Ident(Some(ts[0].name), ts[2].name), ts[3..]))
    else if |ts| >= 1 && ts[0].Name? then Some((Ident(None, ts[0].name), ts[1..]))
    else None
  }

  /** The name that follows the given words, or nothing when the words are not there. */
  function After(ts: seq<Token>, words: seq<Token>): Option<(Ident, seq<Token>)> {
    if Printer.StartsWith(ts, words) then TakeName(ts[|words|..]) else None
  }

  function Word(w: string): seq<Token> { [Keyword(w)] }

  const IF_NOT_EXISTS := [Keyword("IF"), Keyword("NOT"), Keyword("EXISTS")]
  const OR_REPLACE := [Keyword("OR"), Keyword("REPLACE")]
  const INSERT_INTO := [Keyword("INSERT"), Keyword("INTO")]
  const DELETE_FROM := [Keyword("DELETE"), Keyword("FROM")]
  const CREATE_TABLE := [Keyword("CREATE"), Keyword("TABLE")]
  const ALTER_TABLE := [Keyword("ALTER"), Keyword("TABLE")]
  const RENAME_TO := [Keyword("RENAME"), Keyword("TO")]
  const IF_EXISTS := [Keyword("IF"), Keyword("EXISTS")]

  function CreatedTable(ts: seq<Token>): Option<(Ident, seq<Token>)> {
    if Printer.StartsWith(ts, CREATE_TABLE) then TakeName(Skip(ts[2..], IF_NOT_EXISTS)) else None
  }

  function CreatedView(ts: seq<Token>): Option<(Ident, seq<Token>)> {
    if Printer.StartsWith(ts, Word("CREATE")) then After(Skip(ts[1..], OR_REPLACE), Word("VIEW")) else None
  }

  function Dropped(ts: seq<Token>): Option<(Ident, seq<Token>)> {
    if Printer.StartsWith(ts, [Keyword("DROP"), Keyword("TABLE")]) || Printer.StartsWith(ts, [Keyword("DROP"), Keyword("VIEW")])
    then TakeName(Skip(ts[2..], IF_EXISTS)) else None
  }

  function Renamed(ts: seq<Token>): Option<(Ident, Ident)> {
    match After(ts, ALTER_TABLE)
    case None => None
    case Some(t) =>
      match After(t.1, RENAME_TO)
      case None => None
      case Some(to) => Some((t.0, to.0))
  }

  /** The text after a bracketed list that holds no brackets itself. */
  function SkipList(ts: seq<Token>): seq<Token> {
    if ts == [] || ts[0] != LParen then ts
    else
      var k := FirstBracket(ts[1..]);
      if k < |ts| - 1 && ts[1..][k] == RParen then ts[1..][k + 1..] else ts
  }

  function FirstBracket(ts: seq<Token>): (k: nat)
    ensures k <= |ts|
  {
    if ts == [] || ts[0] == LParen || ts[0] == RParen then 0 else 1 + FirstBracket(ts[1..])
  }

  const READ_ONLY := {"SELECT", "WITH", "SHOW", "EXPLAIN", "ANALYZE", "REFRESH", "SET", "RESET", "BEGIN", "COMMIT", "ROLLBACK", "DEALLOCATE"}

  /** The order of the tests is the order in which the patterns are tried. */
  function Classify(ts: seq<Token>): Effect {
    if ts == [] then Effect(Read, {}, None)
    else if Renamed(ts).Some? then Effect(Rename, {Renamed(ts).value.0.Key()}, Some(Renamed(ts).value.1.Key()))
    else if CreatedView(ts).Some? then Effect(CreateViewVerb, {CreatedView(ts).value.0.Key()}, None)
    else if CreatedTable(ts).Some? then
      Effect(if Printer.StartsWith(CreatedTable(ts).value.1, Word("AS")) then WriteTable else CreateTableVerb, {CreatedTable(ts).value.0.Key()}, None)
    else if Dropped(ts).Some? then Effect(Drop, {Dropped(ts).value.0.Key()}, None)
    else if After(ts, INSERT_INTO).Some? then
      var t := After(ts, INSERT_INTO).value;
      Effect(if Printer.StartsWith(SkipList(t.1), Word("VALUES")) || Backtracks(t.0.Written()) then InsertValues else WriteTable, {t.0.Key()}, None)
    else if After(ts, Word("UPDATE")).Some? then Effect(WriteTable, {After(ts, Word("UPDATE")).value.0.Key()}, None)
    else if After(ts, DELETE_FROM).Some? then Effect(WriteTable, {After(ts, DELETE_FROM).value.0.Key()}, None)
    else if After(ts, Word("COPY")).Some? && Printer.StartsWith(After(ts, Word("COPY")).value.1, Word("FROM")) then
      Effect(WriteTable, {After(ts, Word("COPY")).value.0.Key()}, None)
    else if ts[0].Keyword? && ts[0].word in READ_ONLY then Effect(Read, {}, None)
    else Effect(Opaque, {}, None)
  }

  // ---- statements -----------------------------------------------------------------------------------

  /** Where inserted rows come from when they are not spelled out: SELECT or WITH, or such a query in
      brackets. */
  datatype Source = Plain(word: string, text: seq<Token>) | Bracketed(text: seq<Token>, tail: seq<Token>)

  /** The statements a session runs, with the text inside them left opaque. */
  datatype Stmt =
    | InsertRows(table: Ident, columns: Option<seq<string>>, rows: seq<Token>)
    | InsertFrom(table: Ident, columns: Option<seq<string>>, source: Source)
    | UpdateTable(table: Ident, sets: seq<Token>)
    | DeleteFrom(table: Ident, condition: Option<seq<Token>>)
    | CopyFrom(table: Ident, file: seq<Token>)
    | CreateTable(ifNotExists: bool, table: Ident, columnTypes: seq<Token>)
    | CreateTableAs(ifNotExists: bool, table: Ident, query: seq<Token>)
    | CreateView(orReplace: bool, view: Ident, query: seq<Token>)
    | DropTable(ifExists: bool, table: Ident)
    | DropView(ifExists: bool, view: Ident)
    | RenameTable(table: Ident, to: Ident)
    | AlterTable(table: Ident, change: string, text: seq<Token>)
    | CopyTo(table: Ident, file: seq<Token>)
    | ReadOnly(word: string, text: seq<Token>)
    | Other(word: string, text: seq<Token>)

  /** Statements that write no rows, and the words that the statements above begin with. */
  const READERS := {"SELECT", "WITH", "SHOW", "EXPLAIN", "ANALYZE", "REFRESH", "SET", "RESET", "BEGIN", "COMMIT", "ROLLBACK", "DEALLOCATE"}
  const CHANGES := {"ALTER", "CREATE", "DROP", "INSERT", "UPDATE", "DELETE", "COPY"}

  /** A reserved word as it is classified. */
  predicate IsWord(w: string) { w != "" && forall i :: 0 <= i < |w| ==> 'A' <= w[i] <= 'Z' }

  /** The tables and views a statement names before its text. */
  function Named(s: Stmt): seq<Ident> {
    match s
    case InsertRows(t, _, _) => [t]
    case InsertFrom(t, _, _) => [t]
    case UpdateTable(t, _) => [t]
    case DeleteFrom(t, _) => [t]
    case CopyFrom(t, _) => [t]
    case CreateTable(_, t, _) => [t]
    case CreateTableAs(_, t, _) => [t]
    case CreateView(_, v, _) => [v]
    case DropTable(_, t) => [t]
    case DropView(_, v) => [v]
    case RenameTable(t, to) => [t, to]
    case AlterTable(t, _, _) => [t]
    case CopyTo(t, _) => [t]
    case ReadOnly(_, _) => []
    case Other(_, _) => []
  }

  /** No column name has a bracket in it. */
  predicate PlainColumns(columns: Option<seq<string>>) {
    columns.Some? ==> forall i :: 0 <= i < |columns.value| ==> '(' !in columns.value[i] && ')' !in columns.value[i]
  }

  /** Names are names, the first words of a statement are what its kind says, and a bracketed query is
      closed. */
  predicate WellFormed(s: Stmt) {
    && (forall i :: 0 <= i < |Named(s)| ==> Proper(Named(s)[i]))
    && match s
       case InsertRows(_, columns, _) => PlainColumns(columns)
       case InsertFrom(_, columns, Plain(word, _)) => PlainColumns(columns) && (word == "SELECT" || word == "WITH")
       case InsertFrom(_, columns, Bracketed(text, tail)) =>
         && PlainColumns(columns) && (FirstBracket(text) < |text| ==> text[FirstBracket(text)] == LParen)
         && (tail == [] || (tail[0].Keyword? && IsWord(tail[0].word) && tail[0] != Keyword("VALUES")))
       case AlterTable(_, change, text) => IsWord(change) && !(change == "RENAME" && text != [] && text[0] == Keyword("TO"))
       case ReadOnly(word, _) => word in READERS
       case Other(word, _) => IsWord(word) && word !in READERS && word !in CHANGES
       case _ => true
  }

  function Listed(names: seq<string>): seq<Token> {
    if names == [] then [] else if |names| == 1 then [Name(names[0])] else [Name(names[0]), Comma] + Listed(names[1..])
  }

  function ColumnList(columns: Option<seq<string>>): seq<Token> {
    if columns.None? then [] else [LParen] + Listed(columns.value) + [RParen]
  }

  function SourceTokens(s: Source): seq<Token> {
    match s case Plain(word, text) => [Keyword(word)] + text case Bracketed(text, tail) => [LParen] + text + [RParen] + tail
  }

  /** The text of a statement. */
  function Render(s: Stmt): seq<Token> {
    match s
    case InsertRows(t, columns, rows) => WordPair("INSERT", "INTO") + t.Tokens() + (ColumnList(columns) + ([Keyword("VALUES")] + rows))
    case InsertFrom(t, columns, source) => WordPair("INSERT", "INTO") + t.Tokens() + (ColumnList(columns) + SourceTokens(source))
    case UpdateTable(t, sets) => [Keyword("UPDATE")] + t.Tokens() + ([Keyword("SET")] + sets)
    case DeleteFrom(t, condition) => WordPair("DELETE", "FROM") + t.Tokens() + (if condition.None? then [] else [Keyword("WHERE")] + condition.value)
    case CopyFrom(t, file) => [Keyword("COPY")] + t.Tokens() + ([Keyword("FROM")] + file)
    case CreateTable(unless, t, types) => WordPair("CREATE", "TABLE") + (Unless(unless) + (t.Tokens() + ([LParen] + types)))
    case CreateTableAs(unless, t, query) => WordPair("CREATE", "TABLE") + (Unless(unless) + (t.Tokens() + ([Keyword("AS")] + query)))
    case CreateView(replace_, v, query) =>
      [Keyword("CREATE")] + ((if replace_ then WordPair("OR", "REPLACE") else []) + ([Keyword("VIEW")] + v.Tokens() + ([Keyword("AS")] + query)))
    case DropTable(there, t) => WordPair("DROP", "TABLE") + ((if there then WordPair("IF", "EXISTS") else []) + (t.Tokens() + []))
    case DropView(there, v) => WordPair("DROP", "VIEW") + ((if there then WordPair("IF", "EXISTS") else []) + (v.Tokens() + []))
    case RenameTable(t, to) => WordPair("ALTER", "TABLE") + t.Tokens() + (WordPair("RENAME", "TO") + to.Tokens() + [])
    case AlterTable(t, change, text) => WordPair("ALTER", "TABLE") + t.Tokens() + ([Keyword(change)] + text)
    case CopyTo(t, file) => [Keyword("COPY")] + t.Tokens() + ([Keyword("TO")] + file)
    case ReadOnly(word, text) => [Keyword(word)] + text
    case Other(word, text) => [Keyword(word)] + text
  }

  function WordPair(a: string, b: string): seq<Token> { [Keyword(a), Keyword(b)] }

  function Unless(there: bool): seq<Token> { if there then [Keyword("IF"), Keyword("NOT"), Keyword("EXISTS")] else [] }

  /** Rows that are spelled out may still hold a query. */
  predicate HoldsQuery(rows: seq<Token>) { Keyword("SELECT") in rows }

  /** Whether a statement may read tables: all may, except rows spelled out without a query. */
  predicate Reads(s: Stmt) { !s.InsertRows? || HoldsQuery(s.rows) }

  /** The table a statement writes rows to. */
  function Writes(s: Stmt): set<string> {
    match s
    case InsertRows(t, _, _) => {t.Key()}
    case InsertFrom(t, _, _) => {t.Key()}
    case UpdateTable(t, _) => {t.Key()}
    case DeleteFrom(t, _) => {t.Key()}
    case CopyFrom(t, _) => {t.Key()}
    case CreateTableAs(_, t, _) => {t.Key()}
    case _ => {}
  }

  /** What the fence should make of a statement. */
  function EffectOf(s: Stmt): Effect {
    match s
    case InsertRows(t, _, _) => Effect(InsertValues, {t.Key()}, None)
    case CreateTable(_, t, _) => Effect(CreateTableVerb, {t.Key()}, None)
    case CreateView(_, v, _) => Effect(CreateViewVerb, {v.Key()}, None)
    case DropTable(_, t) => Effect(Drop, {t.Key()}, None)
    case DropView(_, v) => Effect(Drop, {v.Key()}, None)
    case RenameTable(t, to) => Effect(Rename, {t.Key()}, Some(to.Key()))
    case AlterTable(_, _, _) => Effect(Opaque, {}, None)
    case CopyTo(_, _) => Effect(Opaque, {}, None)
    case ReadOnly(_, _) => Effect(Read, {}, None)
    case Other(_, _) => Effect(Opaque, {}, None)
    case InsertFrom(t, _, _) => Effect(if Hides(t) then InsertValues else WriteTable, {t.Key()}, None)
    case _ => Effect(WriteTable, Writes(s), None)
  }

  /** The two kinds of statement that read and are taken for ones that do not: rows with a query among them,
      and a query inserted into a table whose name hides the word VALUES. */
  predicate Misread(s: Stmt) { (s.InsertRows? && HoldsQuery(s.rows)) || (s.InsertFrom? && Hides(s.table)) }

  // ---- reading the words back -----------------------------------------------------------------------

  /** Text that starts with another word is none of the earlier patterns. */
  lemma FirstWord(ts: seq<Token>, words: seq<Token>)
    requires ts != [] && words != [] && ts[0] != words[0]
    ensures !Printer.StartsWith(ts, words)
  {
  }

  lemma Starts(words: seq<Token>, rest: seq<Token>)
    ensures Printer.StartsWith(words + rest, words) && (words + rest)[|words|..] == rest
  {
  }

  /** Only the patterns that start with the statement's own word can apply. */
  lemma OtherPatterns(ts: seq<Token>, first: string)
    requires ts != [] && ts[0] == Keyword(first)
    ensures first != "ALTER" ==> Renamed(ts).None?
    ensures first != "CREATE" ==> CreatedView(ts).None? && CreatedTable(ts).None?
    ensures first != "DROP" ==> Dropped(ts).None?
    ensures first != "INSERT" ==> After(ts, INSERT_INTO).None?
    ensures first != "UPDATE" ==> After(ts, Word("UPDATE")).None?
    ensures first != "DELETE" ==> After(ts, DELETE_FROM).None?
    ensures first != "COPY" ==> After(ts, Word("COPY")).None?
  {
    if first != "ALTER" { FirstWord(ts, ALTER_TABLE); }
    if first != "CREATE" { FirstWord(ts, Word("CREATE")); FirstWord(ts, CREATE_TABLE); }
    if first != "DROP" { FirstWord(ts, [Keyword("DROP"), Keyword("TABLE")]); FirstWord(ts, [Keyword("DROP"), Keyword("VIEW")]); }
    if first != "INSERT" { FirstWord(ts, INSERT_INTO); }
    if first != "UPDATE" { FirstWord(ts, Word("UPDATE")); }
    if first != "DELETE" { FirstWord(ts, DELETE_FROM); }
    if first != "COPY" { FirstWord(ts, Word("COPY")); }
  }

  lemma Words()
    ensures "ALTER" !in READ_ONLY && "CREATE" !in READ_ONLY && "DROP" !in READ_ONLY && "INSERT" !in READ_ONLY
    ensures "UPDATE" !in READ_ONLY && "DELETE" !in READ_ONLY && "COPY" !in READ_ONLY
    ensures |CHANGES| == 7 && "VIEW" !in {"TABLE", "OR"} && "TABLE" != "OR" && "AS" != "IF" && "FROM" != "TO"
    ensures "SELECT" != "VALUES" && "WITH" != "VALUES"
  {
    assert "ALTER"[0] == 'A' && "ALTER"[1] == 'L' && "ANALYZE"[1] == 'N' && "CREATE"[1] == 'R' && "COMMIT"[1] == 'O' && "COMMIT"[2] == 'M' && "COPY"[2] == 'P' && "COPY"[1] == 'O';
    assert "DROP"[1] == 'R' && "DELETE"[1] == 'E' && "DELETE"[2] == 'L' && "DEALLOCATE"[2] == 'A' && "DEALLOCATE"[1] == 'E' && "INSERT"[0] == 'I' && "UPDATE"[0] == 'U';
    assert "SELECT"[0] == 'S' && "WITH"[0] == 'W' && "SHOW"[0] == 'S' && "EXPLAIN"[0] == 'E' && "REFRESH"[0] == 'R' && "SET"[0] == 'S' && "RESET"[0] == 'R' && "BEGIN"[0] == 'B' && "ROLLBACK"[0] == 'R';
    assert "VIEW"[0] == 'V' && "TABLE"[0] == 'T' && "OR"[0] == 'O' && "AS"[0] == 'A' && "IF"[0] == 'I' && "VALUES"[0] == 'V' && "FROM"[0] == 'F' && "TO"[0] == 'T';
  }

  /** A name ends before anything but a dot. */
  lemma NameTaken(id: Ident, rest: seq<Token>)
    requires rest == [] || rest[0] != Dot
    ensures TakeName(id.Tokens() + rest) == Some((id, rest))
  {
    var ts := id.Tokens() + rest;
    if id.schema.Some? { assert ts[3..] == rest; } else { assert ts[1..] == rest; }
  }

  lemma NameAfter(words: seq<Token>, id: Ident, rest: seq<Token>)
    requires rest == [] || rest[0] != Dot
    ensures After(words + id.Tokens() + rest, words) == Some((id, rest))
  {
    assert words + id.Tokens() + rest == words + (id.Tokens() + rest);
    Starts(words, id.Tokens() + rest);
    NameTaken(id, rest);
  }

  /** Optional words before a name are skipped. */
  lemma NameSkipped(words: seq<Token>, there: bool, id: Ident, rest: seq<Token>)
    requires words != [] && !words[0].Name? && (rest == [] || rest[0] != Dot)
    ensures TakeName(Skip((if there then words else []) + (id.Tokens() + rest), words)) == Some((id, rest))
  {
    var ts := id.Tokens() + rest;
    NameTaken(id, rest);
    if there {
      Starts(words, ts);
    } else {
      assert [] + ts == ts;
      FirstWord(ts, words);
    }
  }

  lemma {:induction false} FlatList(names: seq<string>)
    ensures FirstBracket(Listed(names)) == |Listed(names)|
  {
    if |names| > 1 {
      FlatList(names[1..]);
      var ts := Listed(names);
      assert ts[1..] == [Comma] + Listed(names[1..]) && ts[1..][1..] == Listed(names[1..]);
    }
  }

  lemma {:induction false} BracketAfter(ts: seq<Token>, rest: seq<Token>)
    ensures FirstBracket(ts + rest) == if FirstBracket(ts) < |ts| then FirstBracket(ts) else |ts| + FirstBracket(rest)
  {
    if ts == [] {
      assert ts + rest == rest;
    } else {
      assert (ts + rest)[1..] == ts[1..] + rest;
      if ts[0] != LParen && ts[0] != RParen { BracketAfter(ts[1..], rest); }
    }
  }

  /** A list is skipped when the first bracket inside it closes it. */
  lemma ListAt(inner: seq<Token>)
    requires FirstBracket(inner) < |inner|
    ensures
      var k := FirstBracket(inner);
      SkipList([LParen] + inner) == if inner[k] == RParen then inner[k + 1..] else [LParen] + inner
  {
    assert ([LParen] + inner)[1..] == inner;
  }

  lemma Enclosed(content: seq<Token>, rest: seq<Token>)
    ensures [LParen] + content + [RParen] + rest == [LParen] + (content + ([RParen] + rest))
  {
  }

  /** A closed list without brackets inside is skipped. */
  lemma ListSkipped(content: seq<Token>, rest: seq<Token>)
    requires FirstBracket(content) == |content|
    ensures SkipList([LParen] + content + [RParen] + rest) == rest
  {
    var after := [RParen] + rest;
    Enclosed(content, rest);
    BracketAfter(content, after);
    assert FirstBracket(after) == 0;
    Reached(content, RParen, rest);
    ListAt(content + after);
  }

  lemma Reached(front: seq<Token>, tok: Token, rest: seq<Token>)
    ensures
      var ts := front + ([tok] + rest);
      |front| < |ts| && ts[|front|] == tok && ts[|front| + 1..] == rest
  {
  }

  lemma ColumnsSkipped(columns: Option<seq<string>>, rest: seq<Token>)
    requires rest != [] && (columns.None? ==> rest[0] != LParen)
    ensures SkipList(ColumnList(columns) + rest) == rest
  {
    if columns.Some? {
      FlatList(columns.value);
      ListSkipped(Listed(columns.value), rest);
    } else {
      assert [] + rest == rest;
    }
  }

  /** A query in brackets is not taken for VALUES, with or without a column list before it. */
  lemma BracketedNoValues(columns: Option<seq<string>>, text: seq<Token>, tail: seq<Token>)
    requires FirstBracket(text) < |text| ==> text[FirstBracket(text)] == LParen
    requires tail == [] || tail[0] != Keyword("VALUES")
    ensures !Printer.StartsWith(SkipList(ColumnList(columns) + SourceTokens(Bracketed(text, tail))), Word("VALUES"))
  {
    var ts := SourceTokens(Bracketed(text, tail));
    if columns.Some? {
      ColumnsSkipped(columns, ts);
      BracketFirst(text, tail);
    } else {
      NoColumns(ts);
      BracketedQuery(text, tail);
    }
  }

  lemma NoColumns(ts: seq<Token>)
    ensures ColumnList(None) + ts == ts
  {
  }

  lemma BracketFirst(text: seq<Token>, tail: seq<Token>)
    ensures SourceTokens(Bracketed(text, tail)) != [] && !Printer.StartsWith(SourceTokens(Bracketed(text, tail)), Word("VALUES"))
  {
    var ts := SourceTokens(Bracketed(text, tail));
    assert ts[0] == LParen;
    FirstWord(ts, Word("VALUES"));
  }

  lemma BracketedQuery(text: seq<Token>, tail: seq<Token>)
    requires FirstBracket(text) < |text| ==> text[FirstBracket(text)] == LParen
    requires tail == [] || tail[0] != Keyword("VALUES")
    ensures !Printer.StartsWith(SkipList([LParen] + text + [RParen] + tail), Word("VALUES"))
  {
    if FirstBracket(text) == |text| {
      ListSkipped(text, tail);
      if tail != [] { FirstWord(tail, Word("VALUES")); }
    } else {
      NestedKept(text, tail);
      FirstWord([LParen] + text + [RParen] + tail, Word("VALUES"));
    }
  }

  /** A list with a bracket inside is not skipped. */
  lemma NestedKept(text: seq<Token>, tail: seq<Token>)
    requires FirstBracket(text) < |text| && text[FirstBracket(text)] == LParen
    ensures SkipList([LParen] + text + [RParen] + tail) == [LParen] + text + [RParen] + tail
  {
    var after := [RParen] + tail;
    Enclosed(text, tail);
    BracketAfter(text, after);
    ListAt(text + after);
  }

  lemma InsertExact(s: Stmt)
    requires WellFormed(s) && (s.InsertRows? || s.InsertFrom?)
    ensures Classify(Render(s)) == EffectOf(s)
  {
    var rest := Render(s)[|INSERT_INTO| + |s.table.Tokens()|..];
    Words();
    OtherPatterns(Render(s), "INSERT");
    if s.InsertRows? {
      assert rest == ColumnList(s.columns) + ([Keyword("VALUES")] + s.rows);
      ColumnsSkipped(s.columns, [Keyword("VALUES")] + s.rows);
      Starts(Word("VALUES"), s.rows);
    } else {
      assert rest == ColumnList(s.columns) + SourceTokens(s.source);
      match s.source
      case Plain(word, text) =>
        ColumnsSkipped(s.columns, [Keyword(word)] + text);
        FirstWord([Keyword(word)] + text, Word("VALUES"));
      case Bracketed(text, tail) => BracketedNoValues(s.columns, text, tail);
    }
    NameAfter(INSERT_INTO, s.table, rest);
    assert Proper(Named(s)[0]);
    BacktracksExactly(s.table);
  }

  lemma ChangeExact(s: Stmt)
    requires WellFormed(s) && (s.UpdateTable? || s.DeleteFrom? || s.CopyFrom? || s.CopyTo?)
    ensures Classify(Render(s)) == EffectOf(s)
  {
    Words();
    match s
    case UpdateTable(t, sets) =>
      OtherPatterns(Render(s), "UPDATE");
      NameAfter(Word("UPDATE"), t, [Keyword("SET")] + sets);
    case DeleteFrom(t, condition) =>
      OtherPatterns(Render(s), "DELETE");
      NameAfter(DELETE_FROM, t, if condition.None? then [] else [Keyword("WHERE")] + condition.value);
    case CopyFrom(t, file) =>
      OtherPatterns(Render(s), "COPY");
      NameAfter(Word("COPY"), t, [Keyword("FROM")] + file);
      Starts(Word("FROM"), file);
    case CopyTo(t, file) =>
      OtherPatterns(Render(s), "COPY");
      NameAfter(Word("COPY"), t, [Keyword("TO")] + file);
      FirstWord([Keyword("TO")] + file, Word("FROM"));
  }

  lemma TableNoView(rest: seq<Token>)
    ensures CreatedView(CREATE_TABLE + rest).None?
  {
    var ts := CREATE_TABLE + rest;
    Words();
    assert ts[1..][0] == Keyword("TABLE");
    FirstWord(ts[1..], OR_REPLACE);
    FirstWord(ts[1..], Word("VIEW"));
  }

  lemma TableTaken(unless: bool, t: Ident, rest: seq<Token>)
    requires rest == [] || rest[0] != Dot
    ensures CreatedTable(CREATE_TABLE + ((if unless then IF_NOT_EXISTS else []) + (t.Tokens() + rest))) == Some((t, rest))
  {
    Starts(CREATE_TABLE, (if unless then IF_NOT_EXISTS else []) + (t.Tokens() + rest));
    NameSkipped(IF_NOT_EXISTS, unless, t, rest);
  }

  lemma CreateTableExact(s: Stmt)
    requires s.CreateTable? || s.CreateTableAs?
    ensures Classify(Render(s)) == EffectOf(s)
  {
    var rest := if s.CreateTable? then [LParen] + s.columnTypes else [Keyword("AS")] + s.query;
    Words();
    OtherPatterns(Render(s), "CREATE");
    TableNoView((if s.ifNotExists then IF_NOT_EXISTS else []) + (s.table.Tokens() + rest));
    TableTaken(s.ifNotExists, s.table, rest);
    if s.CreateTable? { FirstWord(rest, Word("AS")); } else { Starts(Word("AS"), s.query); }
  }

  lemma CreateViewExact(s: Stmt)
    requires s.CreateView?
    ensures Classify(Render(s)) == EffectOf(s)
  {
    var rest := [Keyword("AS")] + s.query;
    var named := Word("VIEW") + s.view.Tokens() + rest;
    Words();
    OtherPatterns(Render(s), "CREATE");
    Starts(Word("CREATE"), (if s.orReplace then OR_REPLACE else []) + named);
    NameAfter(Word("VIEW"), s.view, rest);
    if s.orReplace {
      Starts(OR_REPLACE, named);
    } else {
      assert [] + named == named;
      FirstWord(named, OR_REPLACE);
    }
  }

  lemma DropExact(s: Stmt)
    requires s.DropTable? || s.DropView?
    ensures Classify(Render(s)) == EffectOf(s)
  {
    var id := if s.DropTable? then s.table else s.view;
    Words();
    OtherPatterns(Render(s), "DROP");
    DroppedName(s.DropTable?, s.ifExists, id);
  }

  lemma DroppedName(table: bool, unless: bool, id: Ident)
    ensures
      var words := [Keyword("DROP"), Keyword(if table then "TABLE" else "VIEW")];
      Dropped(words + ((if unless then IF_EXISTS else []) + (id.Tokens() + []))) == Some((id, []))
  {
    var words := [Keyword("DROP"), Keyword(if table then "TABLE" else "VIEW")];
    Words();
    Starts(words, (if unless then IF_EXISTS else []) + (id.Tokens() + []));
    NameSkipped(IF_EXISTS, unless, id, []);
  }

  /** Another change of a table, RENAME COLUMN included. */
  lemma NoRename(change: string, text: seq<Token>)
    requires !(change == "RENAME" && text != [] && text[0] == Keyword("TO"))
    ensures !Printer.StartsWith([Keyword(change)] + text, RENAME_TO)
  {
    var ts := [Keyword(change)] + text;
    if text != [] { assert ts[..2] == [Keyword(change), text[0]]; }
  }

  lemma AlterExact(s: Stmt)
    requires WellFormed(s) && (s.RenameTable? || s.AlterTable?)
    ensures Classify(Render(s)) == EffectOf(s)
  {
    var rest := if s.RenameTable? then RENAME_TO + s.to.Tokens() + [] else [Keyword(s.change)] + s.text;
    Words();
    OtherPatterns(Render(s), "ALTER");
    NameAfter(ALTER_TABLE, s.table, rest);
    if s.RenameTable? { NameAfter(RENAME_TO, s.to, []); } else { NoRename(s.change, s.text); }
  }

  /** THE CLASSIFIER IS RIGHT about every statement: its kind, the table it writes, and the new name. */
  lemma ClassifyExact(s: Stmt)
    requires WellFormed(s)
    ensures Classify(Render(s)) == EffectOf(s)
  {
    match s
    case InsertRows(_, _, _) => InsertExact(s);
    case InsertFrom(_, _, _) => InsertExact(s);
    case CreateTable(_, _, _) => CreateTableExact(s);
    case CreateTableAs(_, _, _) => CreateTableExact(s);
    case CreateView(_, _, _) => CreateViewExact(s);
    case DropTable(_, _) => DropExact(s);
    case DropView(_, _) => DropExact(s);
    case RenameTable(_, _) => AlterExact(s);
    case AlterTable(_, _, _) => AlterExact(s);
    case ReadOnly(word, _) => OtherExact(s, word);
    case Other(word, _) => OtherExact(s, word);
    case _ => ChangeExact(s);
  }

  lemma OtherExact(s: Stmt, word: string)
    requires WellFormed(s) && ((s.ReadOnly? && word == s.word) || (s.Other? && word == s.word))
    ensures Classify(Render(s)) == EffectOf(s)
  {
    Words();
    OtherPatterns(Render(s), word);
  }

  /** EXACT CONDITION. A statement that may read is classified as one if and only if it is neither an INSERT
      of rows with a query among them nor an INSERT of a query into a table whose name hides VALUES. */
  lemma ReadsSeen(s: Stmt)
    requires WellFormed(s)
    ensures (Reads(s) ==> Classify(Render(s)).MayRead()) <==> !Misread(s)
  {
    ClassifyExact(s);
  }

  /** The names myvalues and myvalues$x hide the word; values does not. */
  lemma HidingNames()
    ensures HidesValues("myvalues") && HidesValues("myvalues$x") && !HidesValues("values")
    ensures Lower("myvalues") == "myvalues" && NoDot("myvalues")
  {
    var name, dollar := "myvalues", "myvalues$x";
    assert name[2..8] == VALUES_WORD && dollar[2..8] == VALUES_WORD && dollar[8] == '$';
    assert Lower(VALUES_WORD) == VALUES_WORD && Lower(name) == name;
    assert ValuesAt(name, 2) && ValuesAt(dollar, 2);
  }

  /** INSERT INTO myvalues SELECT ... is taken for my VALUES ..., and so is one into doc.myvalues, myvalues.t or
      myvalues$x; my.values and values are not. */
  lemma MyValues(text: seq<Token>)
    ensures
      var s := InsertFrom(Ident(None, "myvalues"), None, Plain("SELECT", text));
      WellFormed(s) && Reads(s) && Classify(Render(s)) == Effect(InsertValues, {"myvalues"}, None)
    ensures Hides(Ident(Some("doc"), "myvalues")) && Hides(Ident(Some("myvalues"), "t")) && Hides(Ident(None, "myvalues$x"))
    ensures !Hides(Ident(None, "values"))
  {
    var id := Ident(None, "myvalues");
    var s := InsertFrom(id, None, Plain("SELECT", text));
    HidingNames();
    assert Named(s) == [id] && Proper(id);
    ClassifyExact(s);
  }

  lemma NotMyValues()
    ensures !Hides(Ident(Some("my"), "values"))
  {
    HidingNames();
    assert |"my"| == 2;
  }

  // ---- the fence ------------------------------------------------------------------------------------

  predicate Once(names: seq<string>) { forall i, j :: 0 <= i < j < |names| ==> names[i] != names[j] }

  /** Lists a set in some order. */
  method InSomeOrder(s: set<string>) returns (names: seq<string>)
    ensures (forall x :: x in names <==> x in s) && Once(names)
  {
    names := [];
    var rest := s;
    while rest != {}
      invariant rest <= s && (forall x :: x in names <==> x in s - rest) && Once(names)
      decreases |rest|
    {
      var x :| x in rest;
      assert x !in names && forall i :: 0 <= i < |names| ==> names[i] in names;
      names, rest := names + [x], rest - {x};
    }
  }

  ghost function Elements(s: seq<string>): set<string> { set x | x in s }

  lemma ElementsNext(s: seq<string>, i: nat)
    requires i < |s|
    ensures Elements(s[..i + 1]) == Elements(s[..i]) + {s[i]}
  {
    assert s[..i + 1] == s[..i] + [s[i]];
  }

  class FenceState {
    var tables: set<string>
    var views: set<string>
    var dirty: set<string>

    constructor ()
      ensures tables == {} && views == {} && dirty == {}
    {
      tables, views, dirty := {}, {}, {};
    }

    /** The tables to refresh before a statement. */
    method Before(effect: Effect) returns (names: seq<string>)
      ensures (forall x :: x in names <==> effect.MayRead() && x in dirty) && Once(names)
    {
      if !effect.MayRead() || dirty == {} { return []; }
      names := InSomeOrder(dirty);
    }

    method ParanoidBefore() returns (names: seq<string>)
      ensures (forall x :: x in names <==> x in tables) && Once(names)
    {
      names := InSomeOrder(tables);
    }

    method Flushed()
      modifies this`dirty
      ensures dirty == {}
    {
      dirty := {};
    }

    /** What a statement that succeeded changes. */
    method After(effect: Effect)
      modifies this
      ensures tables == TablesAfter(effect, old(tables), old(views))
      ensures views == (match effect.verb case CreateViewVerb => old(views) + effect.targets case Drop => old(views) - effect.targets case _ => old(views))
      ensures old(dirty) <= old(tables) && (effect.MayRead() ==> old(dirty) == {}) ==> dirty <= tables
      ensures Written(effect, old(tables), old(views)) <= dirty <= old(dirty) + Written(effect, old(tables), old(views))
      ensures if effect.verb == Rename || effect.verb == Drop then dirty == old(dirty) - effect.targets else old(dirty) <= dirty
    {
      match effect.verb
      case InsertValues =>
        tables := tables + (effect.targets - views);
        dirty := dirty + (effect.targets - views);
      case WriteTable =>
        tables := tables + (effect.targets - views);
        dirty := dirty + (effect.targets - views);
      case Rename =>
        dirty := dirty - effect.targets;
        tables := tables - effect.targets;
        if effect.renamedTo.Some? { tables := tables + {effect.renamedTo.value}; }
      case CreateTableVerb => tables := tables + effect.targets;
      case CreateViewVerb =>
        views := views + effect.targets;
        tables := tables - effect.targets;
      case Drop =>
        tables := tables - effect.targets;
        views := views - effect.targets;
        dirty := dirty - effect.targets;
      case Opaque => dirty := dirty + tables;
      case Read =>
    }
  }

  /** The tables a statement may have written to: its own, or any when it is not understood. */
  ghost function Written(effect: Effect, tables: set<string>, views: set<string>): set<string> {
    if effect.verb == InsertValues || effect.verb == WriteTable then effect.targets - views
    else if effect.verb == Opaque then tables
    else {}
  }

  function TablesAfter(effect: Effect, tables: set<string>, views: set<string>): set<string> {
    match effect.verb
    case InsertValues => tables + (effect.targets - views)
    case WriteTable => tables + (effect.targets - views)
    case Rename => tables - effect.targets + (if effect.renamedTo.Some? then {effect.renamedTo.value} else {})
    case CreateTableVerb => tables + effect.targets
    case CreateViewVerb => tables - effect.targets
    case Drop => tables - effect.targets
    case Opaque => tables
    case Read => tables
  }

  // ---- the engine -----------------------------------------------------------------------------------

  datatype Reply = Done | UnknownRelation | Error

  /** A statement the server started, and the tables whose writes it would have missed. */
  datatype Started = Started(stmt: Stmt, missed: set<string>)

  /** READ-YOUR-WRITES: no statement that may read was started while some table had writes that it would
      miss, unless it is one of those that are misread. */
  ghost predicate SeesWrites(log: seq<Started>) {
    forall i :: 0 <= i < |log| && Reads(log[i].stmt) && !Misread(log[i].stmt) ==> log[i].missed == {}
  }

  /** The server: which relations there are, and which tables have writes no read would see yet. Its
      answers are arbitrary within what the statements mean. */
  class Server {
    var tables: set<string>
    var views: set<string>
    var pending: set<string>
    /** Every statement started so far. */
    ghost var log: seq<Started>

    ghost predicate Valid()
      reads this
    {
      tables !! views && pending <= tables
    }

    /** REFRESH TABLE: makes a table's writes visible, or fails. A relation that does not exist is
        reported as such. */
    method Refresh(name: string) returns (reply: Reply)
      requires Valid()
      modifies this`pending
      ensures Valid()
      ensures reply == Done ==> pending == old(pending) - {name}
      ensures reply == UnknownRelation ==> name !in tables && pending == old(pending)
      ensures reply == Error ==> pending == old(pending)
    {
      var refused := *;
      if refused { return Error; }
      if name !in tables { return UnknownRelation; }
      pending := pending - {name};
      reply := Done;
    }

    /** Runs one statement. A statement that fails may still have written to its table; one whose effects are
        unknown may have written to any table the client knows, whether it fails or not. */
    method Run(stmt: Stmt, known: set<string>) returns (reply: Reply)
      requires Valid()
      modifies this
      ensures Valid() && log == old(log) + [Started(stmt, old(pending))]
      ensures reply != Done ==> tables == old(tables) && views == old(views) && pending <= old(pending) + known
      ensures reply == Done ==> Ran(stmt, known, old(tables), old(views), old(pending), tables, views, pending)
    {
      var part: set<string> :| part <= known * tables;
      var fails := *;
      log := log + [Started(stmt, pending)];
      match stmt {
      case ReadOnly(_, _) => if fails { return Error; }
      case CreateTable(unless, t, _) =>
        if fails || (t.Key() in tables + views && !unless) { return Error; }
        if t.Key() !in tables + views { tables := tables + {t.Key()}; }
      case CreateTableAs(unless, t, _) =>
        if fails || (t.Key() in tables + views && !unless) { return Error; }
        if t.Key() !in tables + views { tables, pending := tables + {t.Key()}, pending + {t.Key()}; }
      case CreateView(replace_, v, _) =>
        if fails || v.Key() in tables || (v.Key() in views && !replace_) { return Error; }
        views := views + {v.Key()};
      case DropTable(unless, t) =>
        if fails || (t.Key() !in tables && !unless) { return Error; }
        tables, pending := tables - {t.Key()}, pending - {t.Key()};
      case DropView(unless, v) =>
        if fails || (v.Key() !in views && !unless) { return Error; }
        views := views - {v.Key()};
      case RenameTable(t, to) =>
        if fails || t.Key() !in tables || to.Key() in tables + views { return Error; }
        if t.Key() in pending { pending := pending - {t.Key()} + {to.Key()}; }
        tables := tables - {t.Key()} + {to.Key()};
      case AlterTable(_, _, _) =>
        pending := pending + part;
        if fails { return Error; }
      case CopyTo(_, _) => if fails { return Error; }
      case Other(_, _) =>
        pending := pending + part;
        if fails { return Error; }
      case _ =>
        if fails || !(Writes(stmt) <= tables) {
          pending := pending + part * Writes(stmt);
          return Error;
        }
        pending := pending + Writes(stmt);
      }
      reply := Done;
    }
  }

  /** What a statement that succeeded did to the server. */
  ghost predicate Ran(stmt: Stmt, known: set<string>, tables: set<string>, views: set<string>, pending: set<string>,
                      tables': set<string>, views': set<string>, pending': set<string>) {
    match stmt
    case ReadOnly(_, _) => tables' == tables && views' == views && pending' == pending
    case CopyTo(_, _) => tables' == tables && views' == views && pending' == pending
    case AlterTable(_, _, _) => tables' == tables && views' == views && pending' <= pending + known
    case Other(_, _) => tables' == tables && views' == views && pending' <= pending + known
    case CreateTable(_, t, _) => tables' == tables + ({t.Key()} - views) && views' == views && pending' == pending
    case CreateTableAs(_, t, _) =>
      tables' == tables + ({t.Key()} - views) && views' == views && pending' == pending + ({t.Key()} - tables - views)
    case CreateView(_, v, _) => tables' == tables && views' == views + {v.Key()} && pending' == pending
    case DropTable(_, t) => tables' == tables - {t.Key()} && views' == views && pending' == pending - {t.Key()}
    case DropView(_, v) => tables' == tables && views' == views - {v.Key()} && pending' == pending
    case RenameTable(t, to) =>
      && t.Key() in tables && tables' == tables - {t.Key()} + {to.Key()} && views' == views
      && pending' == if t.Key() in pending then pending - {t.Key()} + {to.Key()} else pending
    case _ => Writes(stmt) <= tables && tables' == tables && views' == views && pending' == pending + Writes(stmt)
  }

  // ---- the connection -------------------------------------------------------------------------------

  class Connection {
    const fence: FenceState
    const server: Server

    constructor (server: Server)
      requires server.Valid() && server.pending == {}
      ensures this.server == server && fresh(fence) && Valid()
    {
      this.server := server;
      this.fence := new FenceState();
    }

    /** Every table with unseen writes is one the fence knows, and every view it knows is a view. */
    ghost predicate Valid()
      reads this, fence, server
    {
      && server.Valid() && server.pending <= fence.tables
      && fence.dirty <= fence.tables && fence.views <= server.views
    }

    /** The tables to refresh: every known table, for a statement that may read. */
    method ToRefresh(effect: Effect) returns (names: seq<string>)
      requires fence.dirty <= fence.tables
      ensures (forall x :: x in names <==> effect.MayRead() && x in fence.tables) && Once(names)
    {
      if effect.MayRead() {
        names := fence.ParanoidBefore();
        if names != [] { return; }
        assert forall x :: x in fence.tables ==> x in names;
      }
      names := fence.Before(effect);
    }

    /** Refreshes before a statement. A statement that may read finds exactly the writes to tables the
        fence does not know still pending; a failed refresh stops it. */
    method RunFence(effect: Effect) returns (raised: bool)
      requires server.Valid() && fence.dirty <= fence.tables
      modifies fence`dirty, server`pending
      ensures server.Valid() && fence.dirty <= old(fence.dirty) && server.pending <= old(server.pending)
      ensures !raised && effect.MayRead() ==> server.pending == old(server.pending) - fence.tables && fence.dirty == {}
      ensures !effect.MayRead() ==> !raised && server.pending == old(server.pending) && fence.dirty == old(fence.dirty)
    {
      var refreshes := ToRefresh(effect);
      for i := 0 to |refreshes|
        invariant server.Valid() && fence.dirty == old(fence.dirty)
        invariant server.pending == old(server.pending) - Elements(refreshes[..i])
      {
        var reply := server.Refresh(refreshes[i]);
        if reply == Error {
          assert refreshes[i] in refreshes;
          return true;
        }
        ElementsNext(refreshes, i);
      }
      assert refreshes[..|refreshes|] == refreshes;
      if refreshes != [] {
        assert refreshes[0] in refreshes;
        fence.Flushed();
      } else {
        assert forall x :: effect.MayRead() && x in fence.tables ==> x in refreshes;
      }
      raised := false;
    }

    /** One statement: classify its text, fence, run, record. It is started at most once, with nothing to miss
        when it may read, except that one that is misread misses whatever is pending; whatever fails, the
        connection stays valid, so the same holds of the next one. As long as nothing fails, every table with
        unseen writes is marked dirty, so refreshing the dirty ones alone would do. */
    method Execute(stmt: Stmt) returns (reply: Reply)
      requires Valid() && WellFormed(stmt)
      modifies fence, server
      ensures Valid() && old(server.log) <= server.log
      ensures SeesWrites(old(server.log)) ==> SeesWrites(server.log)
      ensures server.log == old(server.log) || (|server.log| == |old(server.log)| + 1 && server.log[|old(server.log)|].stmt == stmt)
      ensures reply == Done ==> server.log != old(server.log) && fence.tables == TablesAfter(EffectOf(stmt), old(fence.tables), old(fence.views))
      ensures reply != Done ==> fence.tables == old(fence.tables) && fence.views == old(fence.views)
      ensures Misread(stmt) ==> server.log == old(server.log) + [Started(stmt, old(server.pending))]
      ensures reply == Done && old(server.pending) <= old(fence.dirty) ==> server.pending <= fence.dirty
    {
      var effect := Classify(Render(stmt));
      ClassifyExact(stmt);
      var raised := RunFence(effect);
      if raised { return Error; }
      reply := server.Run(stmt, fence.tables);
      if reply != Done { return; }
      fence.After(effect);
    }
  }

  /** Any run of statements, on any server, with any failures along the way: no statement that may read
      is ever started while a write is still invisible to it. */
  method ExecuteAll(connection: Connection, script: seq<Stmt>)
    requires connection.Valid() && SeesWrites(connection.server.log) && forall i :: 0 <= i < |script| ==> WellFormed(script[i])
    modifies connection.fence, connection.server
    ensures connection.Valid() && SeesWrites(connection.server.log)
    ensures old(connection.server.log) <= connection.server.log && |connection.server.log| <= old(|connection.server.log|) + |script|
  {
    for i := 0 to |script|
      invariant connection.Valid() && SeesWrites(connection.server.log)
      invariant old(connection.server.log) <= connection.server.log && |connection.server.log| <= old(|connection.server.log|) + i
    {
      var reply := connection.Execute(script[i]);
    }
  }
}

/** The write-ahead log of a round, and the parser that recovers it after a crash.

    The log is text that only grows. A dying process leaves it cut off after some line, and every
    statement about recovery is about such a cut. */
module Journal {
  import opened Bags

  // ---- text -----------------------------------------------------------------------------------------

  /** What ends a line when text is split: more than the line feed. */
  predicate IsBreak(c: char) {
    c == '\n' || c == '\r' || 11 <= c as int <= 12 || 28 <= c as int <= 30 || c as int == 0x85 || 0x2028 <= c as int <= 0x2029
  }

  predicate IsSpace(c: char) {
    || IsBreak(c) || c == ' ' || c == '\t' || c as int == 31 || c as int == 0xA0 || c as int == 0x1680
    || 0x2000 <= c as int <= 0x200A || c as int == 0x202F || c as int == 0x205F || c as int == 0x3000
  }

  /** Text on one line. */
  predicate OnOneLine(s: string) { s == "" || (OnOneLine(s[..|s| - 1]) && !IsBreak(s[|s| - 1])) }

  /** Text whose lines are ended by line feeds only. */
  predicate Unix(s: string) { s == "" || (Unix(s[..|s| - 1]) && (IsBreak(s[|s| - 1]) ==> s[|s| - 1] == '\n')) }

  /** A list of lines. */
  predicate OneLiners(ls: seq<string>) { ls == [] || (OneLiners(ls[..|ls| - 1]) && OnOneLine(ls[|ls| - 1])) }

  lemma {:induction false} OneLineConcat(a: string, b: string)
    ensures OnOneLine(a + b) <==> OnOneLine(a) && OnOneLine(b)
    decreases |b|
  {
    if b == "" {
      assert a + b == a;
    } else {
      assert (a + b)[..|a + b| - 1] == a + b[..|b| - 1];
      OneLineConcat(a, b[..|b| - 1]);
    }
  }

  lemma {:induction false} UnixConcat(a: string, b: string)
    ensures Unix(a + b) <==> Unix(a) && Unix(b)
    decreases |b|
  {
    if b == "" {
      assert a + b == a;
    } else {
      assert (a + b)[..|a + b| - 1] == a + b[..|b| - 1];
      UnixConcat(a, b[..|b| - 1]);
    }
  }

  lemma {:induction false} OneLinersConcat(a: seq<string>, b: seq<string>)
    ensures OneLiners(a + b) <==> OneLiners(a) && OneLiners(b)
    decreases |b|
  {
    if b == [] {
      assert a + b == a;
    } else {
      assert (a + b)[..|a + b| - 1] == a + b[..|b| - 1];
      OneLinersConcat(a, b[..|b| - 1]);
    }
  }

  /** Without trailing whitespace. */
  function TrimSpace(s: string): string {
    if s != "" && IsSpace(s[|s| - 1]) then TrimSpace(s[..|s| - 1]) else s
  }

  /** Without trailing semicolons. */
  function TrimSemicolons(s: string): string {
    if s != "" && s[|s| - 1] == ';' then TrimSemicolons(s[..|s| - 1]) else s
  }

  function Normalised(sql: string): string { TrimSemicolons(TrimSpace(sql)) }

  predicate AllSpaces(s: string) { forall i :: 0 <= i < |s| ==> IsSpace(s[i]) }

  predicate AllSemicolons(s: string) { forall i :: 0 <= i < |s| ==> s[i] == ';' }

  /** Nothing but whitespace, and semicolons in front of it, is dropped at the end of a query, and all of both. */
  lemma NormalisedExactly(sql: string) returns (semicolons: string, spaces: string)
    ensures sql == Normalised(sql) + semicolons + spaces && AllSemicolons(semicolons) && AllSpaces(spaces)
    ensures Normalised(sql) == "" || Normalised(sql)[|Normalised(sql)| - 1] != ';'
    ensures var kept := Normalised(sql) + semicolons; kept == "" || !IsSpace(kept[|kept| - 1])
  {
    spaces := TrimmedSpace(sql);
    semicolons := TrimmedSemicolons(TrimSpace(sql));
  }

  lemma {:induction false} TrimmedSpace(s: string) returns (spaces: string)
    ensures s == TrimSpace(s) + spaces && AllSpaces(spaces)
    ensures TrimSpace(s) == "" || !IsSpace(TrimSpace(s)[|TrimSpace(s)| - 1])
  {
    spaces := "";
    if s != "" && IsSpace(s[|s| - 1]) {
      var more := TrimmedSpace(s[..|s| - 1]);
      spaces := more + [s[|s| - 1]];
      assert s == s[..|s| - 1] + [s[|s| - 1]];
    }
  }

  lemma {:induction false} TrimmedSemicolons(s: string) returns (semicolons: string)
    ensures s == TrimSemicolons(s) + semicolons && AllSemicolons(semicolons)
    ensures TrimSemicolons(s) == "" || TrimSemicolons(s)[|TrimSemicolons(s)| - 1] != ';'
  {
    semicolons := "";
    if s != "" && s[|s| - 1] == ';' {
      var more := TrimmedSemicolons(s[..|s| - 1]);
      semicolons := more + [s[|s| - 1]];
      assert s == s[..|s| - 1] + [s[|s| - 1]];
    }
  }

  /** The lines of a text, with an empty one after a break at the end. A carriage return and a line
      feed together are one break. */
  function Lines(s: string): (ls: seq<string>)
    ensures |ls| >= 1
  {
    if s == "" then [""] else Grown(Lines(s[..|s| - 1]), AfterReturn(s[..|s| - 1]), s[|s| - 1])
  }

  predicate AfterReturn(s: string) { s != "" && s[|s| - 1] == '\r' }

  /** The lines after one more character. */
  function Grown(front: seq<string>, returned: bool, c: char): (ls: seq<string>)
    requires |front| >= 1
    ensures |ls| >= 1
  {
    if c == '\n' && returned then front
    else if IsBreak(c) then front + [""]
    else front[..|front| - 1] + [front[|front| - 1] + [c]]
  }

  /** The lines of a text; a break at the end does not start another one. */
  function SplitLines(s: string): seq<string> {
    var ls := Lines(s);
    if ls[|ls| - 1] == "" then ls[..|ls| - 1] else ls
  }

  /** The text of a list of lines, each ended by a line feed. */
  function Unlines(ls: seq<string>): string {
    if ls == [] then "" else Unlines(ls[..|ls| - 1]) + ls[|ls| - 1] + "\n"
  }

  function Joined(ls: seq<string>): string {
    if ls == [] then "" else if |ls| == 1 then ls[0] else Joined(ls[..|ls| - 1]) + "\n" + ls[|ls| - 1]
  }

  lemma JoinedPush(front: seq<string>, last: string, c: char)
    ensures Joined(front + [last + [c]]) == Joined(front + [last]) + [c]
  {
    if front != [] {
      JoinedLast(front, last);
      JoinedLast(front, last + [c]);
      PushedLast(Joined(front), last, c);
    }
  }

  lemma PushedLast(before: string, last: string, c: char)
    ensures (before + "\n" + last) + [c] == before + "\n" + (last + [c])
  {
  }

  lemma JoinedLast(front: seq<string>, last: string)
    requires front != []
    ensures Joined(front + [last]) == Joined(front) + "\n" + last
  {
    assert (front + [last])[..|front|] == front;
  }

  lemma JoinedBreak(ls: seq<string>)
    requires ls != []
    ensures Joined(ls + [""]) == Joined(ls) + "\n"
  {
    assert (ls + [""])[..|ls|] == ls;
  }

  lemma NotReturned(s: string)
    requires Unix(s)
    ensures !AfterReturn(s)
  {
  }

  lemma JoinedGrown(front: seq<string>, c: char)
    requires front != [] && (IsBreak(c) ==> c == '\n')
    ensures Joined(Grown(front, false, c)) == Joined(front) + [c]
  {
    var k := |front| - 1;
    if IsBreak(c) {
      JoinedBreak(front);
    } else {
      JoinedPush(front[..k], front[k], c);
      assert front[..k] + [front[k]] == front;
    }
  }

  lemma {:induction false} JoinedLines(s: string)
    requires Unix(s)
    ensures Joined(Lines(s)) == s
  {
    if s == "" {
      assert Lines(s) == [""];
    } else {
      var front, c := s[..|s| - 1], s[|s| - 1];
      JoinedLines(front);
      NotReturned(front);
      var ls := Lines(front);
      JoinedGrown(ls, c);
      assert Lines(s) == Grown(ls, false, c);
      assert s == front + [c];
    }
  }

  predicate HasPrefix(s: string, prefix: string) { |prefix| <= |s| && s[..|prefix|] == prefix }

  /** A line ends a statement when a semicolon is its last character but for whitespace. */
  lemma {:induction false} EndsExactly(line: string)
    ensures EndsStatement(line) <==> exists front, spaces :: line == front + ";" + spaces && AllSpaces(spaces)
  {
    var spaces := TrimmedSpace(line);
    if EndsStatement(line) {
      var kept := TrimSpace(line);
      assert kept == kept[..|kept| - 1] + ";";
      assert line == kept[..|kept| - 1] + ";" + spaces;
    }
    forall front, tail | line == front + ";" + tail && AllSpaces(tail)
      ensures EndsStatement(line)
    {
      TrimTail(front, tail);
    }
  }

  lemma {:induction false} TrimTail(front: string, tail: string)
    requires AllSpaces(tail)
    ensures TrimSpace(front + ";" + tail) == front + ";"
    decreases |tail|
  {
    var s := front + ";" + tail;
    if tail == "" {
      assert s == front + ";";
      assert s[|s| - 1] == ';';
    } else {
      assert s[..|s| - 1] == front + ";" + tail[..|tail| - 1];
      assert s[|s| - 1] == tail[|tail| - 1];
      TrimTail(front, tail[..|tail| - 1]);
    }
  }

  predicate EndsStatement(line: string) {
    var t := TrimSpace(line);
    t != "" && t[|t| - 1] == ';'
  }

  const ANNOTATION := "-- => "

  // ---- writing --------------------------------------------------------------------------------------

  /** What begin writes. */
  function Begun(sql: string): string { Normalised(sql) + ";" }

  /** Lines the parser takes for comments, each on one line. */
  predicate Comments(ls: seq<string>) {
    ls == [] || (Comments(ls[..|ls| - 1]) && HasPrefix(ls[|ls| - 1], "--") && OnOneLine(ls[|ls| - 1]))
  }

  lemma {:induction false} CommentsConcat(a: seq<string>, b: seq<string>)
    ensures Comments(a + b) <==> Comments(a) && Comments(b)
    decreases |b|
  {
    if b == [] {
      assert a + b == a;
    } else {
      assert (a + b)[..|a + b| - 1] == a + b[..|b| - 1];
      CommentsConcat(a, b[..|b| - 1]);
    }
  }

  lemma {:induction false} CommentsOneLiners(ls: seq<string>)
    requires Comments(ls)
    ensures OneLiners(ls)
  {
    if ls != [] { CommentsOneLiners(ls[..|ls| - 1]); }
  }

  lemma CommentLine(line: string)
    requires HasPrefix(line, "--") && OnOneLine(line)
    ensures Comments([line])
  {
    assert [line][..0] == [];
  }

  lemma BlockLine(physical: string)
    requires OnOneLine(physical)
    ensures Comments([BLOCK + physical])
  {
    Short(BLOCK);
    OneLineConcat(BLOCK, physical);
    CommentLine(BLOCK + physical);
  }

  lemma TitleLine(title: string)
    requires OnOneLine(title)
    ensures Comments([Title(title)])
  {
    Short("-- ==== ");
    Short(" ====");
    OneLineConcat("-- ==== ", title);
    OneLineConcat("-- ==== " + title, " ====");
    CommentLine(Title(title));
  }

  /** A remark is a comment. */
  lemma RemarkLine(message: string)
    requires OnOneLine(message)
    ensures Comments([ANNOTATION + message])
  {
    Short(ANNOTATION);
    OneLineConcat(ANNOTATION, message);
    CommentLine(ANNOTATION + message);
  }

  /** A short text is on one line when none of its characters is a break. */
  lemma {:induction false} Short(s: string)
    requires forall c :: c in s ==> !IsBreak(c)
    ensures OnOneLine(s)
  {
    if s != "" { Short(s[..|s| - 1]); }
  }

  class QueryJournal {
    var text: string

    constructor (header: string)
      ensures text == if header == "" then "" else "-- " + header + "\n"
    {
      text := if header == "" then "" else "-- " + header + "\n";
    }

    method Write(line: string)
      modifies this
      ensures text == old(text) + line + "\n"
    {
      text := text + line + "\n";
    }

    /** A query about to run. */
    method Begin(sql: string)
      modifies this
      ensures text == old(text) + Begun(sql) + "\n"
    {
      Write(Normalised(sql) + ";");
    }

    /** The verdict of the query just run, or a remark that is not a query. */
    method Annotate(message: string)
      modifies this
      ensures text == old(text) + (ANNOTATION + message) + "\n"
    {
      Write(ANNOTATION + message);
    }

    /** A titled block that is not a query. */
    method Record(title: string, block: seq<string>)
      modifies this
      ensures text == old(text) + Unlines(RecordLines(title, block))
    {
      Write(Title(title));
      UnlinesNext(old(text), [], Title(title));
      assert [Title(title)] + BlockLines(block[..0]) == [] + [Title(title)];
      for i := 0 to |block|
        invariant text == old(text) + Unlines(RecordLines(title, block[..i]))
      {
        Comment(block[i]);
        UnlinesMore(old(text), RecordLines(title, block[..i]), CommentLines(block[i]));
        RecordNext(title, block, i);
      }
      assert block[..|block|] == block;
    }

    /** One entry of a block, commented out line by line; an empty entry is an empty comment. */
    method Comment(entry: string)
      modifies this
      ensures text == old(text) + Unlines(CommentLines(entry))
    {
      var split := SplitLines(entry);
      var physical := if split == [] then [""] else split;
      ghost var lines := [];
      for k := 0 to |physical|
        invariant text == old(text) + Unlines(lines) && lines == CommentLines(entry)[..k]
      {
        UnlinesNext(old(text), lines, BLOCK + physical[k]);
        Write(BLOCK + physical[k]);
        lines := lines + [BLOCK + physical[k]];
      }
      assert CommentLines(entry)[..|physical|] == CommentLines(entry);
    }
  }

  const BLOCK := "--   "

  /** The comment lines an entry of a block becomes. */
  function CommentLines(entry: string): seq<string> {
    var split := SplitLines(entry);
    var physical := if split == [] then [""] else split;
    seq(|physical|, k requires 0 <= k < |physical| => BLOCK + physical[k])
  }

  function BlockLines(block: seq<string>): seq<string> {
    if block == [] then [] else BlockLines(block[..|block| - 1]) + CommentLines(block[|block| - 1])
  }

  function RecordLines(title: string, block: seq<string>): seq<string> {
    [Title(title)] + BlockLines(block)
  }

  function Title(title: string): string { "-- ==== " + title + " ====" }

  lemma RecordNext(title: string, block: seq<string>, i: nat)
    requires i < |block|
    ensures RecordLines(title, block[..i + 1]) == RecordLines(title, block[..i]) + CommentLines(block[i])
  {
    assert block[..i + 1][..i] == block[..i];
  }

  lemma {:induction false} CommentedLines(physical: seq<string>)
    requires OneLiners(physical)
    ensures Comments(seq(|physical|, k requires 0 <= k < |physical| => BLOCK + physical[k]))
  {
    if physical != [] {
      var n := |physical| - 1;
      var lines := seq(|physical|, k requires 0 <= k < |physical| => BLOCK + physical[k]);
      CommentedLines(physical[..n]);
      assert lines[..n] == seq(n, k requires 0 <= k < n => BLOCK + physical[..n][k]);
      BlockLine(physical[n]);
      CommentsConcat(lines[..n], [BLOCK + physical[n]]);
      assert lines == lines[..n] + [BLOCK + physical[n]];
    }
  }

  lemma CommentLinesComments(entry: string)
    ensures Comments(CommentLines(entry))
  {
    SplitOneLiners(entry);
    var split := SplitLines(entry);
    assert [""][..0] == [];
    CommentedLines(if split == [] then [""] else split);
  }

  lemma {:induction false} BlockComments(block: seq<string>)
    ensures Comments(BlockLines(block))
  {
    if block != [] {
      BlockComments(block[..|block| - 1]);
      CommentLinesComments(block[|block| - 1]);
      CommentsConcat(BlockLines(block[..|block| - 1]), CommentLines(block[|block| - 1]));
    }
  }

  /** Whatever a block holds, it is commented out, every line. */
  lemma RecordComments(title: string, block: seq<string>)
    requires OnOneLine(title)
    ensures Comments(RecordLines(title, block))
  {
    TitleLine(title);
    BlockComments(block);
    CommentsConcat([Title(title)], BlockLines(block));
  }

  lemma {:induction false} LinesHaveNoBreak(s: string)
    ensures OneLiners(Lines(s))
  {
    if s != "" {
      var k := |s| - 1;
      LinesHaveNoBreak(s[..k]);
      GrownOneLiners(Lines(s[..k]), AfterReturn(s[..k]), s[k]);
    }
  }

  lemma GrownOneLiners(front: seq<string>, returned: bool, c: char)
    requires |front| >= 1 && OneLiners(front)
    ensures OneLiners(Grown(front, returned, c))
  {
    OneLinersConcat(front, [""]);
    OneLinersConcat(front[..|front| - 1], [front[|front| - 1] + [c]]);
    OneLineConcat(front[|front| - 1], [c]);
    assert [c][..0] == "" && [""][..0] == [] && [front[|front| - 1] + [c]][..0] == [];
  }

  lemma SplitOneLiners(s: string)
    ensures OneLiners(SplitLines(s))
  {
    LinesHaveNoBreak(s);
  }

  lemma {:induction false} OneLinersAt(ls: seq<string>, k: nat)
    requires OneLiners(ls) && k < |ls|
    ensures OnOneLine(ls[k])
  {
    if k < |ls| - 1 { OneLinersAt(ls[..|ls| - 1], k); }
  }

  // ---- lines and text -------------------------------------------------------------------------------

  lemma UnlinesNext(before: string, ls: seq<string>, line: string)
    ensures before + Unlines(ls + [line]) == (before + Unlines(ls)) + line + "\n"
  {
    assert (ls + [line])[..|ls|] == ls;
  }

  lemma UnlinesMore(before: string, a: seq<string>, b: seq<string>)
    ensures before + Unlines(a + b) == (before + Unlines(a)) + Unlines(b)
  {
    UnlinesConcat(a, b);
  }

  lemma {:induction false} UnlinesConcat(a: seq<string>, b: seq<string>)
    ensures Unlines(a + b) == Unlines(a) + Unlines(b)
    decreases |b|
  {
    if b == [] {
      assert a + b == a;
    } else {
      assert (a + b)[..|a + b| - 1] == a + b[..|b| - 1];
      UnlinesConcat(a, b[..|b| - 1]);
    }
  }

  lemma LinesPush(s: string, c: char)
    ensures Lines(s + [c]) == Grown(Lines(s), AfterReturn(s), c)
  {
    assert (s + [c])[..|s|] == s;
  }

  /** More text without breaks lengthens the last line. */
  lemma {:induction false} LinesMore(s: string, t: string)
    requires OnOneLine(t)
    ensures Lines(s + t) == Longer(Lines(s), t)
    decreases |t|
  {
    if t == "" {
      assert s + t == s;
      LongerNot(Lines(s));
    } else {
      var k := |t| - 1;
      assert t == t[..k] + [t[k]] && s + t == (s + t[..k]) + [t[k]];
      LinesMore(s, t[..k]);
      LinesPush(s + t[..k], t[k]);
      LongerTwice(Lines(s), t[..k], AfterReturn(s + t[..k]), t[k]);
    }
  }

  /** The lines with the last of them continued. */
  function Longer(ls: seq<string>, t: string): seq<string>
    requires ls != []
  {
    ls[..|ls| - 1] + [ls[|ls| - 1] + t]
  }

  lemma LongerNot(ls: seq<string>)
    requires ls != []
    ensures Longer(ls, "") == ls
  {
    assert ls[|ls| - 1] + "" == ls[|ls| - 1];
  }

  lemma LongerTwice(ls: seq<string>, t: string, returned: bool, c: char)
    requires ls != [] && !IsBreak(c)
    ensures Grown(Longer(ls, t), returned, c) == Longer(ls, t + [c])
  {
    assert (ls[|ls| - 1] + t) + [c] == ls[|ls| - 1] + (t + [c]);
  }

  /** A line feed ends the last line, except after a carriage return. */
  lemma LinesEnded(s: string)
    requires s == "" || s[|s| - 1] != '\r'
    ensures Lines(s + "\n") == Lines(s) + [""]
  {
    LinesPush(s, '\n');
    assert s + ['\n'] == s + "\n";
  }

  lemma UnlinesEnd(ls: seq<string>)
    ensures Unlines(ls) == "" || Unlines(ls)[|Unlines(ls)| - 1] == '\n'
  {
  }

  /** Lines written one by one are what a reader splits the text into. */
  lemma {:induction false} LinesOfUnlines(ls: seq<string>)
    requires OneLiners(ls)
    ensures Lines(Unlines(ls)) == ls + [""]
  {
    if ls != [] {
      var k := |ls| - 1;
      LinesOfUnlines(ls[..k]);
      UnlinesEnd(ls[..k]);
      OneMoreWritten(Unlines(ls[..k]), ls[..k], ls[k]);
      assert ls[..k] + [ls[k]] == ls;
    }
  }

  lemma OneMoreWritten(before: string, ls: seq<string>, line: string)
    requires Lines(before) == ls + [""] && OnOneLine(line) && (before == "" || before[|before| - 1] == '\n')
    ensures Lines(before + line + "\n") == ls + [line] + [""]
  {
    LinesMore(before, line);
    LongerBlank(ls, line);
    assert Lines(before + line) == ls + [line];
    NoReturnAtEnd(before, line);
    LinesEnded(before + line);
  }

  lemma LongerBlank(ls: seq<string>, line: string)
    ensures Longer(ls + [""], line) == ls + [line]
  {
    assert "" + line == line;
  }

  lemma NoReturnAtEnd(before: string, line: string)
    requires OnOneLine(line) && (before == "" || before[|before| - 1] == '\n')
    ensures before + line == "" || (before + line)[|before + line| - 1] != '\r'
  {
    if line == "" { assert before + line == before; }
  }

  lemma SplitUnlines(ls: seq<string>)
    requires OneLiners(ls)
    ensures SplitLines(Unlines(ls)) == ls
  {
    LinesOfUnlines(ls);
  }

  lemma {:induction false} UnlinesJoined(ls: seq<string>)
    requires ls != []
    ensures Unlines(ls) == Joined(ls) + "\n"
  {
    var k := |ls| - 1;
    if k > 0 { UnlinesJoined(ls[..k]); }
  }

  /** A text written with its line feed is its lines written one by one. */
  lemma WrittenAsLines(s: string)
    requires Unix(s)
    ensures s + "\n" == Unlines(Lines(s))
  {
    JoinedLines(s);
    UnlinesJoined(Lines(s));
  }

  // ---- parsing --------------------------------------------------------------------------------------

  datatype Entry = Entry(sql: string, annotation: Option<string>)

  datatype State = State(entries: seq<Entry>, pending: seq<string>)

  function Flushed(pending: seq<string>): Entry { Entry(Normalised(Joined(pending)), None) }

  /** What one line does to the parser. */
  function Step(s: State, line: string): State {
    if HasPrefix(line, ANNOTATION) then
      if s.entries != [] && s.pending == [] then
        State(s.entries[..|s.entries| - 1] + [Entry(s.entries[|s.entries| - 1].sql, Some(line[|ANNOTATION|..]))], [])
      else s
    else if HasPrefix(line, "--") || TrimSpace(line) == "" then s
    else if EndsStatement(line) then State(s.entries + [Flushed(s.pending + [line])], [])
    else State(s.entries, s.pending + [line])
  }

  function Steps(s: State, lines: seq<string>): State {
    if lines == [] then s else Step(Steps(s, lines[..|lines| - 1]), lines[|lines| - 1])
  }

  function Finished(s: State): seq<Entry> {
    if s.pending == [] then s.entries else s.entries + [Flushed(s.pending)]
  }

  function Parsed(lines: seq<string>): seq<Entry> { Finished(Steps(State([], []), lines)) }

  method ParseJournal(text: string) returns (entries: seq<Entry>)
    ensures entries == Parsed(SplitLines(text))
  {
    var lines := SplitLines(text);
    entries := [];
    var pending: seq<string> := [];
    for i := 0 to |lines|
      invariant State(entries, pending) == Steps(State([], []), lines[..i])
    {
      var line := lines[i];
      assert lines[..i + 1][..i] == lines[..i];
      if HasPrefix(line, ANNOTATION) {
        if entries != [] && pending == [] {
          var last := |entries| - 1;
          entries := entries[..last] + [Entry(entries[last].sql, Some(line[|ANNOTATION|..]))];
        }
        continue;
      }
      if HasPrefix(line, "--") || TrimSpace(line) == "" { continue; }
      pending := pending + [line];
      if EndsStatement(line) {
        entries := entries + [Entry(Normalised(Joined(pending)), None)];
        pending := [];
      }
    }
    assert lines[..|lines|] == lines;
    if pending != [] { entries := entries + [Entry(Normalised(Joined(pending)), None)]; }
  }

  // ---- round trip -----------------------------------------------------------------------------------

  lemma {:induction false} StepsConcat(s: State, a: seq<string>, b: seq<string>)
    ensures Steps(s, a + b) == Steps(Steps(s, a), b)
    decreases |b|
  {
    if b == [] {
      assert a + b == a;
    } else {
      var k := |b| - 1;
      assert (a + b)[..|a + b| - 1] == a + b[..k];
      StepsConcat(s, a, b[..k]);
    }
  }

  /** A line that belongs to a query and does not finish it. */
  predicate Inner(line: string) {
    !HasPrefix(line, "--") && TrimSpace(line) != "" && !EndsStatement(line)
  }

  /** Text whose lines all reach the parser: they end in line feeds, none is blank, none looks like a
      comment, and no line before the last ends in a semicolon. */
  predicate Loggable(sql: string) {
    var ls := Lines(Begun(sql));
    && Unix(Normalised(sql))
    && (forall i :: 0 <= i < |ls| - 1 ==> Inner(ls[i]))
    && !HasPrefix(ls[|ls| - 1], "--")
  }

  lemma {:induction false} InnerSteps(s: State, lines: seq<string>)
    requires forall i :: 0 <= i < |lines| ==> Inner(lines[i])
    ensures Steps(s, lines) == State(s.entries, s.pending + lines)
  {
    if lines == [] {
      assert s.pending + lines == s.pending;
    } else {
      var k := |lines| - 1;
      InnerSteps(s, lines[..k]);
      CommentIsAnnotation(lines[k]);
      assert s.pending + lines[..k] + [lines[k]] == s.pending + lines;
    }
  }

  lemma CommentIsAnnotation(line: string)
    ensures HasPrefix(line, ANNOTATION) ==> HasPrefix(line, "--")
  {
    if HasPrefix(line, ANNOTATION) { assert line[..2] == line[..|ANNOTATION|][..2] == "--"; }
  }

  lemma {:induction false} TrimmedEnd(s: string)
    ensures TrimSemicolons(s) == "" || TrimSemicolons(s)[|TrimSemicolons(s)| - 1] != ';'
  {
    if s != "" && s[|s| - 1] == ';' { TrimmedEnd(s[..|s| - 1]); }
  }

  /** Normalising what begin writes gives the normalised query. */
  lemma BegunNormal(sql: string)
    ensures Normalised(Begun(sql)) == Normalised(sql)
    ensures Begun(sql) != "" && Begun(sql)[|Begun(sql)| - 1] == ';'
  {
    var n := Normalised(sql);
    TrimmedEnd(TrimSpace(sql));
    assert (n + ";")[..|n + ";"| - 1] == n;
    assert TrimSpace(n + ";") == n + ";";
    assert TrimSemicolons(n) == n;
  }

  lemma BegunUnix(sql: string)
    requires Unix(Normalised(sql))
    ensures Unix(Begun(sql)) && Joined(Lines(Begun(sql))) == Begun(sql)
  {
    JoinedLines(Begun(sql));
  }

  /** The last line of what begin writes ends the statement. */
  lemma LastLineEnds(sql: string)
    ensures EndsStatement(Lines(Begun(sql))[|Lines(Begun(sql))| - 1]) && TrimSpace(Lines(Begun(sql))[|Lines(Begun(sql))| - 1]) != ""
  {
    var s := Begun(sql);
    BegunNormal(sql);
    var last := Lines(s)[|Lines(s)| - 1];
    assert last != "" && last[|last| - 1] == ';';
    assert TrimSpace(last) == last;
  }

  /** A logged query becomes one entry. */
  lemma QuerySteps(entries: seq<Entry>, sql: string)
    requires Loggable(sql)
    ensures Steps(State(entries, []), Lines(Begun(sql))) == State(entries + [Entry(Normalised(sql), None)], [])
  {
    var ls := Lines(Begun(sql));
    var k := |ls| - 1;
    InnerSteps(State(entries, []), ls[..k]);
    LastLineEnds(sql);
    CommentIsAnnotation(ls[k]);
    BegunUnix(sql);
    BegunNormal(sql);
    assert ([] + ls[..k]) + [ls[k]] == ls;
    assert Step(State(entries, ls[..k]), ls[k]) == State(entries + [Flushed(ls)], []);
  }

  /** A query cut short becomes one entry with the lines that were written. */
  lemma CutSteps(entries: seq<Entry>, sql: string, j: nat)
    requires Loggable(sql) && j < |Lines(Begun(sql))|
    ensures Steps(State(entries, []), Lines(Begun(sql))[..j]) == State(entries, Lines(Begun(sql))[..j])
  {
    InnerSteps(State(entries, []), Lines(Begun(sql))[..j]);
    assert [] + Lines(Begun(sql))[..j] == Lines(Begun(sql))[..j];
  }

  /** A query that was begun, with its verdict once it has one. */
  datatype Item = Item(sql: string, verdict: string)

  predicate Recorded(item: Item) {
    Loggable(item.sql) && OnOneLine(item.verdict)
  }

  /** The text a query and its verdict add to the log, and its lines. */
  function ItemText(item: Item): string {
    Begun(item.sql) + "\n" + (ANNOTATION + item.verdict) + "\n"
  }

  function ItemLines(item: Item): seq<string> {
    Lines(Begun(item.sql)) + [ANNOTATION + item.verdict]
  }

  function WrittenText(items: seq<Item>): string {
    if items == [] then "" else WrittenText(items[..|items| - 1]) + ItemText(items[|items| - 1])
  }

  function WrittenLines(items: seq<Item>): seq<string> {
    if items == [] then [] else WrittenLines(items[..|items| - 1]) + ItemLines(items[|items| - 1])
  }

  function EntriesOf(items: seq<Item>): seq<Entry> {
    seq(|items|, i requires 0 <= i < |items| => Entry(Normalised(items[i].sql), Some(items[i].verdict)))
  }

  lemma VerdictStep(entries: seq<Entry>, sql: string, verdict: string)
    ensures Step(State(entries + [Entry(sql, None)], []), ANNOTATION + verdict) == State(entries + [Entry(sql, Some(verdict))], [])
  {
    var line := ANNOTATION + verdict;
    assert line[..|ANNOTATION|] == ANNOTATION && line[|ANNOTATION|..] == verdict;
    assert (entries + [Entry(sql, None)])[..|entries|] == entries;
  }

  lemma ItemSteps(entries: seq<Entry>, item: Item)
    requires Recorded(item)
    ensures Steps(State(entries, []), ItemLines(item)) == State(entries + [Entry(Normalised(item.sql), Some(item.verdict))], [])
  {
    var ls := Lines(Begun(item.sql));
    StepsConcat(State(entries, []), ls, [ANNOTATION + item.verdict]);
    QuerySteps(entries, item.sql);
    VerdictStep(entries, Normalised(item.sql), item.verdict);
    assert [ANNOTATION + item.verdict][..0] == [];
  }

  lemma {:induction false} WrittenSteps(items: seq<Item>)
    requires forall i :: 0 <= i < |items| ==> Recorded(items[i])
    ensures Steps(State([], []), WrittenLines(items)) == State(EntriesOf(items), [])
  {
    if items != [] {
      var k := |items| - 1;
      WrittenSteps(items[..k]);
      StepsConcat(State([], []), WrittenLines(items[..k]), ItemLines(items[k]));
      ItemSteps(EntriesOf(items[..k]), items[k]);
      EntriesLast(items);
    }
  }

  lemma EntriesLast(items: seq<Item>)
    requires items != []
    ensures
      var k := |items| - 1;
      EntriesOf(items) == EntriesOf(items[..k]) + [Entry(Normalised(items[k].sql), Some(items[k].verdict))]
  {
  }

  /** Lines that precede the first query: comments and remarks. They leave no trace. */
  lemma {:induction false} PreambleSteps(lines: seq<string>)
    requires Comments(lines)
    ensures Steps(State([], []), lines) == State([], [])
  {
    if lines != [] { PreambleSteps(lines[..|lines| - 1]); }
  }

  /** What the log of these queries, and perhaps one more that was only begun, parses to when it is
      cut after n lines. */
  function CutEntries(items: seq<Item>, n: nat): seq<Entry> {
    if items == [] || n == 0 then []
    else if n < Height(items[0]) then [CutEntry(items[0], n)]
    else [Entry(Normalised(items[0].sql), Some(items[0].verdict))] + CutEntries(items[1..], n - Height(items[0]))
  }

  /** How many lines an item adds. */
  function Height(item: Item): (h: nat)
    ensures h > 0
  {
    |Lines(Begun(item.sql))| + 1
  }

  /** What the first n lines of an item parse to, when its verdict is not among them. */
  function CutEntry(item: Item, n: nat): Entry
    requires n < Height(item)
  {
    var q := Lines(Begun(item.sql));
    if n < |q| then Flushed(q[..n]) else Entry(Normalised(item.sql), None)
  }

  lemma {:induction false} WrittenSplit(items: seq<Item>)
    requires items != []
    ensures WrittenLines(items) == ItemLines(items[0]) + WrittenLines(items[1..])
  {
    var k := |items| - 1;
    if k == 0 {
      assert items[..0] == [] && items[1..] == [];
      assert [] + ItemLines(items[0]) == ItemLines(items[0]) + [];
    } else {
      WrittenSplit(items[..k]);
      assert items[..k][1..] == items[1..][..k - 1] && items[..k][0] == items[0];
      Assoc(ItemLines(items[0]), WrittenLines(items[1..][..k - 1]), ItemLines(items[k]));
    }
  }

  lemma Assoc(a: seq<string>, b: seq<string>, c: seq<string>)
    ensures (a + b) + c == a + (b + c)
  {
  }

  lemma CutAfter(a: seq<string>, b: seq<string>, n: nat)
    requires |a| <= n <= |a| + |b|
    ensures (a + b)[..n] == a + b[..n - |a|]
  {
  }

  lemma CutBefore(a: seq<string>, b: seq<string>, n: nat)
    requires n <= |a|
    ensures (a + b)[..n] == a[..n]
  {
  }

  /** A cut inside the first query, or right after it. */
  lemma CutEarly(entries: seq<Entry>, item: Item, rest: seq<string>, n: nat)
    requires Recorded(item) && 0 < n < Height(item)
    ensures Finished(Steps(State(entries, []), (ItemLines(item) + rest)[..n])) == entries + [CutEntry(item, n)]
  {
    var q := Lines(Begun(item.sql));
    CutBefore(ItemLines(item), rest, n);
    CutBefore(q, [ANNOTATION + item.verdict], n);
    if n < |q| {
      CutSteps(entries, item.sql, n);
    } else {
      assert q[..n] == q;
      QuerySteps(entries, item.sql);
    }
  }

  lemma {:induction false} CutFrom(entries: seq<Entry>, items: seq<Item>, n: nat)
    requires (forall i :: 0 <= i < |items| ==> Recorded(items[i])) && n <= |WrittenLines(items)|
    ensures Finished(Steps(State(entries, []), WrittenLines(items)[..n])) == entries + CutEntries(items, n)
    decreases |items|
  {
    if items == [] || n == 0 {
      assert WrittenLines(items)[..n] == [];
      assert entries + [] == entries;
    } else {
      var item, rest := items[0], items[1..];
      var m := Height(item);
      WrittenSplit(items);
      if n < m {
        CutEarly(entries, item, WrittenLines(rest), n);
      } else {
        var more := [Entry(Normalised(item.sql), Some(item.verdict))];
        CutFrom(entries + more, rest, n - m);
        CutLater(entries, item, WrittenLines(rest), n);
        AssocEntries(entries, more, CutEntries(rest, n - m));
      }
    }
  }

  lemma AssocEntries(a: seq<Entry>, b: seq<Entry>, c: seq<Entry>)
    ensures (a + b) + c == a + (b + c)
  {
  }

  lemma CutLater(entries: seq<Entry>, item: Item, rest: seq<string>, n: nat)
    requires Recorded(item) && |ItemLines(item)| <= n <= |ItemLines(item) + rest|
    ensures Steps(State(entries, []), (ItemLines(item) + rest)[..n])
      == Steps(State(entries + [Entry(Normalised(item.sql), Some(item.verdict))], []), rest[..n - |ItemLines(item)|])
  {
    CutAfter(ItemLines(item), rest, n);
    StepsConcat(State(entries, []), ItemLines(item), rest[..n - |ItemLines(item)|]);
    ItemSteps(entries, item);
  }

  lemma {:induction false} WrittenOneLiners(items: seq<Item>)
    requires forall i :: 0 <= i < |items| ==> Recorded(items[i])
    ensures OneLiners(WrittenLines(items))
  {
    if items != [] {
      WrittenOneLiners(items[..|items| - 1]);
      ItemOneLiners(items[|items| - 1]);
      OneLinersConcat(WrittenLines(items[..|items| - 1]), ItemLines(items[|items| - 1]));
    }
  }

  lemma BegunIsLines(sql: string)
    requires Loggable(sql)
    ensures Begun(sql) + "\n" == Unlines(Lines(Begun(sql)))
    ensures OneLiners(Lines(Begun(sql)))
  {
    var q := Lines(Begun(sql));
    LinesHaveNoBreak(Begun(sql));
    BegunUnix(sql);
    WrittenAsLines(Begun(sql));
  }

  lemma ItemOneLiners(item: Item)
    requires Recorded(item)
    ensures OneLiners(ItemLines(item))
  {
    BegunIsLines(item.sql);
    RemarkLine(item.verdict);
    CommentsOneLiners([ANNOTATION + item.verdict]);
    OneLinersConcat(Lines(Begun(item.sql)), [ANNOTATION + item.verdict]);
  }

  /** The text that the queries and verdicts add is their lines, each ended by a line feed. */
  lemma {:induction false} WrittenIsLines(items: seq<Item>)
    requires forall i :: 0 <= i < |items| ==> Recorded(items[i])
    ensures WrittenText(items) == Unlines(WrittenLines(items))
  {
    if items != [] {
      var k := |items| - 1;
      var before, last := WrittenLines(items[..k]), ItemLines(items[k]);
      WrittenIsLines(items[..k]);
      ItemIsLines(items[k]);
      UnlinesConcat(before, last);
      assert WrittenText(items) == Unlines(before) + Unlines(last) && WrittenLines(items) == before + last;
    }
  }

  lemma ItemIsLines(item: Item)
    requires Recorded(item)
    ensures ItemText(item) == Unlines(ItemLines(item))
  {
    BegunIsLines(item.sql);
    UnlinesNext("", Lines(Begun(item.sql)), ANNOTATION + item.verdict);
    assert "" + Unlines(ItemLines(item)) == Unlines(ItemLines(item));
  }

  /** RECOVERY. The text of a log cut after any line of the query phase parses to the queries
      attempted so far, in order, normalised, each with its verdict if that was written; only a query
      cut inside its own text comes back as the part that was written. */
  lemma {:induction false} RecoverCut(preamble: seq<string>, items: seq<Item>, n: nat)
    requires Comments(preamble)
    requires (forall i :: 0 <= i < |items| ==> Recorded(items[i])) && n <= |WrittenLines(items)|
    ensures Parsed(SplitLines(Unlines(preamble + WrittenLines(items)[..n]))) == CutEntries(items, n)
  {
    var lines := WrittenLines(items);
    WrittenOneLiners(items);
    assert lines == lines[..n] + lines[n..];
    OneLinersConcat(lines[..n], lines[n..]);
    TwoParts(preamble, lines[..n]);
    StepsConcat(State([], []), preamble, lines[..n]);
    PreambleSteps(preamble);
    CutFrom([], items, n);
    assert [] + CutEntries(items, n) == CutEntries(items, n);
  }

  /** The whole log gives every query with its verdict. */
  lemma {:induction false} RecoverAll(preamble: seq<string>, items: seq<Item>)
    requires Comments(preamble) && forall i :: 0 <= i < |items| ==> Recorded(items[i])
    ensures Parsed(SplitLines(Unlines(preamble) + WrittenText(items))) == EntriesOf(items)
  {
    WrittenOneLiners(items);
    WrittenIsLines(items);
    TwoParts(preamble, WrittenLines(items));
    StepsConcat(State([], []), preamble, WrittenLines(items));
    PreambleSteps(preamble);
    WrittenSteps(items);
  }

  /** A log that stops right after a query was begun names it: the complete entries before it, then
      that query without a verdict. */
  lemma {:induction false} CrashPoint(preamble: seq<string>, before: seq<Item>, sql: string)
    requires Comments(preamble) && (forall i :: 0 <= i < |before| ==> Recorded(before[i])) && Loggable(sql)
    ensures Parsed(SplitLines(Unlines(preamble) + WrittenText(before) + Begun(sql) + "\n")) == EntriesOf(before) + [Entry(Normalised(sql), None)]
  {
    BeginsOneLiners(preamble, before, sql);
    AssocText(Unlines(preamble), WrittenText(before), Begun(sql), "\n");
    SplitUnlines(Begins(preamble, before, sql));
    BegunSteps(preamble, before, sql);
  }

  lemma AssocText(a: string, b: string, c: string, d: string)
    ensures a + b + c + d == a + (b + (c + d))
  {
  }

  /** A log that starts with comments splits into the lines it was written as. */
  lemma {:induction false} TwoParts(preamble: seq<string>, lines: seq<string>)
    requires Comments(preamble) && OneLiners(lines)
    ensures SplitLines(Unlines(preamble + lines)) == preamble + lines
    ensures SplitLines(Unlines(preamble) + Unlines(lines)) == preamble + lines
  {
    CommentsOneLiners(preamble);
    OneLinersConcat(preamble, lines);
    UnlinesConcat(preamble, lines);
    SplitUnlines(preamble + lines);
  }

  /** However a log is cut, every entry but the last is the next query with its verdict, and the last
      is made of the first lines of the query it stands for. */
  ghost predicate CutShape(items: seq<Item>, es: seq<Entry>) {
    && |es| <= |items|
    && (forall i :: 0 <= i < |es| - 1 ==> es[i] == Entry(Normalised(items[i].sql), Some(items[i].verdict)))
    && (es != [] ==> CutOff(items[|es| - 1], es[|es| - 1]))
  }

  ghost predicate CutOff(item: Item, e: Entry) {
    var q := Lines(Begun(item.sql));
    || e == Entry(Normalised(item.sql), Some(item.verdict)) || e == Entry(Normalised(item.sql), None)
    || exists j :: 1 <= j < |q| && e == Flushed(q[..j])
  }

  lemma {:induction false} CutPrefix(items: seq<Item>, n: nat)
    ensures CutShape(items, CutEntries(items, n))
    decreases |items|
  {
    if items != [] && n > 0 {
      var h := Height(items[0]);
      if n < h {
        CutInside(items[0], n);
      } else {
        CutPrefix(items[1..], n - h);
        CutMore(items, CutEntries(items[1..], n - h));
      }
    }
  }

  lemma CutInside(item: Item, n: nat)
    requires 0 < n < Height(item)
    ensures CutOff(item, CutEntry(item, n))
  {
  }

  lemma CutMore(items: seq<Item>, rest: seq<Entry>)
    requires items != [] && CutShape(items[1..], rest)
    ensures CutShape(items, [Entry(Normalised(items[0].sql), Some(items[0].verdict))] + rest)
  {
    var es := [Entry(Normalised(items[0].sql), Some(items[0].verdict))] + rest;
    forall i | 0 <= i < |es| - 1 ensures es[i] == Entry(Normalised(items[i].sql), Some(items[i].verdict)) {
      if i > 0 { assert es[i] == rest[i - 1] && items[1..][i - 1] == items[i]; }
    }
  }

  // ---- remarks that break the log --------------------------------------------------------------------

  /** A line the parser passes over when no query has begun. */
  predicate Ignored(line: string) { HasPrefix(line, "--") || TrimSpace(line) == "" }

  predicate AllIgnored(lines: seq<string>) { lines == [] || (AllIgnored(lines[..|lines| - 1]) && Ignored(lines[|lines| - 1])) }

  lemma {:induction false} IgnoredConcat(a: seq<string>, b: seq<string>)
    ensures AllIgnored(a + b) <==> AllIgnored(a) && AllIgnored(b)
    decreases |b|
  {
    if b == [] {
      assert a + b == a;
    } else {
      assert (a + b)[..|a + b| - 1] == a + b[..|b| - 1];
      IgnoredConcat(a, b[..|b| - 1]);
    }
  }

  lemma {:induction false} CommentsIgnored(lines: seq<string>)
    requires Comments(lines)
    ensures AllIgnored(lines)
  {
    if lines != [] { CommentsIgnored(lines[..|lines| - 1]); }
  }

  predicate Nothing(s: State) { s.entries == [] && s.pending == [] }

  lemma StepNothing(s: State, line: string)
    ensures Nothing(Step(s, line)) <==> Nothing(s) && Ignored(line)
  {
    CommentIsAnnotation(line);
  }

  /** A log gives no entry exactly when all its lines are passed over. */
  lemma {:induction false} StepsNothing(lines: seq<string>)
    ensures Nothing(Steps(State([], []), lines)) <==> AllIgnored(lines)
  {
    if lines != [] {
      StepsNothing(lines[..|lines| - 1]);
      StepNothing(Steps(State([], []), lines[..|lines| - 1]), lines[|lines| - 1]);
    }
  }

  /** Two texts put together: the last line of one goes on with the first of the other. */
  function Stitched(ls: seq<string>, ms: seq<string>): seq<string>
    requires ls != [] && ms != []
  {
    ls[..|ls| - 1] + [ls[|ls| - 1] + ms[0]] + ms[1..]
  }

  lemma StitchedGrown(ls: seq<string>, ms: seq<string>, returned: bool, c: char)
    requires ls != [] && ms != []
    ensures Grown(Stitched(ls, ms), returned, c) == Stitched(ls, Grown(ms, returned, c))
  {
    var k := |ms| - 1;
    if IsBreak(c) {
      assert (ms + [""])[1..] == ms[1..] + [""];
    } else {
      var grown := ms[..k] + [ms[k] + [c]];
      if k == 0 {
        assert ls[|ls| - 1] + (ms[0] + [c]) == (ls[|ls| - 1] + ms[0]) + [c];
      } else {
        assert grown[1..] == ms[1..][..k - 1] + [ms[k] + [c]];
      }
    }
  }

  lemma StitchedNone(ls: seq<string>)
    requires ls != []
    ensures Stitched(ls, [""]) == ls
  {
    assert ls[|ls| - 1] + "" == ls[|ls| - 1];
  }

  lemma {:induction false} LinesStitched(a: string, b: string)
    requires !AfterReturn(a)
    ensures Lines(a + b) == Stitched(Lines(a), Lines(b))
    decreases |b|
  {
    if b == "" {
      assert a + b == a;
      StitchedNone(Lines(a));
    } else {
      var front, c := b[..|b| - 1], b[|b| - 1];
      LinesStitched(a, front);
      assert a + b == (a + front) + [c] && b == front + [c];
      LinesPush(a + front, c);
      LinesPush(front, c);
      ReturnStitched(a, front);
      StitchedGrown(Lines(a), Lines(front), AfterReturn(front), c);
    }
  }

  lemma ReturnStitched(a: string, b: string)
    requires !AfterReturn(a)
    ensures AfterReturn(a + b) <==> AfterReturn(b)
  {
    if b == "" { assert a + b == a; }
  }

  lemma OneLine(s: string)
    requires OnOneLine(s)
    ensures Lines(s) == [s]
  {
    LinesMore("", s);
    assert "" + s == s;
  }

  lemma AnnotationLine()
    ensures Lines(ANNOTATION) == [ANNOTATION] && !AfterReturn(ANNOTATION)
  {
    Short(ANNOTATION);
    OneLine(ANNOTATION);
  }

  lemma RemarkText(text: string)
    ensures Lines(ANNOTATION + text) == [ANNOTATION + Lines(text)[0]] + Lines(text)[1..]
  {
    AnnotationLine();
    LinesStitched(ANNOTATION, text);
    StitchedOne(ANNOTATION, Lines(text));
  }

  lemma StitchedOne(line: string, ms: seq<string>)
    requires ms != []
    ensures Stitched([line], ms) == [line + ms[0]] + ms[1..]
  {
  }

  lemma NoReturnAfter(ls: seq<string>)
    ensures !AfterReturn(Unlines(ls))
  {
    UnlinesEnd(ls);
  }

  /** The lines of a log that ends in a remark. */
  lemma RemarkLines(preamble: seq<string>, text: string)
    requires OneLiners(preamble)
    ensures Lines(Unlines(preamble) + (ANNOTATION + text)) == preamble + Lines(ANNOTATION + text)
  {
    LinesOfUnlines(preamble);
    NoReturnAfter(preamble);
    LinesStitched(Unlines(preamble), ANNOTATION + text);
    StitchedAfter(preamble, Lines(ANNOTATION + text));
  }

  lemma StitchedAfter(ls: seq<string>, ms: seq<string>)
    requires ms != []
    ensures Stitched(ls + [""], ms) == ls + ms
  {
    assert "" + ms[0] == ms[0];
  }

  lemma SplitIgnored(text: string)
    ensures AllIgnored(SplitLines(text)) <==> AllIgnored(Lines(text))
  {
  }

  /** EXACT CONDITION. In a round without queries, a remark leaves the log without entries if and only if each
      of its lines after the first is blank or looks like a comment. */
  lemma RemarkHarmless(preamble: seq<string>, message: string)
    requires Comments(preamble)
    ensures Parsed(SplitLines(Unlines(preamble) + (ANNOTATION + (message + "\n")))) == [] <==> AllIgnored(Lines(message + "\n")[1..])
  {
    var text := message + "\n";
    var first, more := ANNOTATION + Lines(text)[0], Lines(text)[1..];
    var whole := Unlines(preamble) + (ANNOTATION + text);
    StepsNothing(SplitLines(whole));
    SplitIgnored(whole);
    CommentsOneLiners(preamble);
    RemarkLines(preamble, text);
    RemarkText(text);
    CommentsIgnored(preamble);
    IgnoredConcat(preamble, [first] + more);
    IgnoredConcat([first], more);
    RemarkIgnored(Lines(text)[0]);
  }

  lemma RemarkIgnored(rest: string)
    ensures AllIgnored([ANNOTATION + rest])
  {
    var line := ANNOTATION + rest;
    assert line[..2] == ANNOTATION[..2] == "--";
    assert AllIgnored([line][..0]);
  }

  // ---- verdicts that break the log -------------------------------------------------------------------

  function Sqls(es: seq<Entry>): seq<string> { seq(|es|, i requires 0 <= i < |es| => es[i].sql) }

  /** How many entries a state stands for. */
  function Weight(s: State): nat { |s.entries| + (if s.pending == [] then 0 else 1) }

  lemma StepWeight(s: State, line: string)
    ensures Weight(Step(s, line)) >= Weight(s)
    ensures s.pending == [] ==> (Weight(Step(s, line)) == Weight(s) <==> Ignored(line))
    ensures s.pending == [] && Ignored(line) ==> Step(s, line).pending == [] && Sqls(Step(s, line).entries) == Sqls(s.entries)
  {
    CommentIsAnnotation(line);
  }

  /** After a complete entry, lines add no entry exactly when all of them are passed over. */
  lemma {:induction false} StepsWeight(s: State, lines: seq<string>)
    requires s.pending == []
    ensures Weight(Steps(s, lines)) >= Weight(s) && (Weight(Steps(s, lines)) == Weight(s) <==> AllIgnored(lines))
    ensures AllIgnored(lines) ==> Steps(s, lines).pending == [] && Sqls(Steps(s, lines).entries) == Sqls(s.entries)
    decreases |lines|
  {
    if lines != [] {
      var k := |lines| - 1;
      StepsWeight(s, lines[..k]);
      StepWeight(Steps(s, lines[..k]), lines[k]);
    }
  }

  /** A break at the end of the text is no line. */
  lemma SplitSteps(s: State, text: string)
    ensures Steps(s, SplitLines(text)) == Steps(s, Lines(text))
  {
    var ls := Lines(text);
    assert Step(Steps(s, ls[..|ls| - 1]), "") == Steps(s, ls[..|ls| - 1]);
  }

  /** The log up to a begun query, as lines. */
  function Begins(preamble: seq<string>, before: seq<Item>, sql: string): seq<string> {
    preamble + (WrittenLines(before) + Lines(Begun(sql)))
  }

  lemma {:induction false} BegunSteps(preamble: seq<string>, before: seq<Item>, sql: string)
    requires Comments(preamble) && (forall i :: 0 <= i < |before| ==> Recorded(before[i])) && Loggable(sql)
    ensures Steps(State([], []), Begins(preamble, before, sql)) == State(EntriesOf(before) + [Entry(Normalised(sql), None)], [])
  {
    var written, last := WrittenLines(before), Lines(Begun(sql));
    StepsConcat(State([], []), preamble, written + last);
    PreambleSteps(preamble);
    StepsConcat(State([], []), written, last);
    WrittenSteps(before);
    QuerySteps(EntriesOf(before), sql);
  }

  /** The log from there on: the verdict as it is written, over as many lines as it has. */
  function Judged(preamble: seq<string>, before: seq<Item>, sql: string, message: string): string {
    Unlines(Begins(preamble, before, sql)) + (ANNOTATION + (message + "\n"))
  }

  lemma {:induction false} BeginsOneLiners(preamble: seq<string>, before: seq<Item>, sql: string)
    requires Comments(preamble) && (forall i :: 0 <= i < |before| ==> Recorded(before[i])) && Loggable(sql)
    ensures OneLiners(Begins(preamble, before, sql))
    ensures Unlines(Begins(preamble, before, sql)) == Unlines(preamble) + (WrittenText(before) + (Begun(sql) + "\n"))
  {
    var written, last := WrittenLines(before), Lines(Begun(sql));
    CommentsOneLiners(preamble);
    WrittenOneLiners(before);
    WrittenIsLines(before);
    BegunIsLines(sql);
    OneLinersConcat(written, last);
    OneLinersConcat(preamble, written + last);
    UnlinesConcat(written, last);
    UnlinesConcat(preamble, written + last);
  }

  /** The parser's state at the end of such a log. */
  lemma {:induction false} JudgedSteps(preamble: seq<string>, before: seq<Item>, sql: string, message: string)
    requires Comments(preamble) && (forall i :: 0 <= i < |before| ==> Recorded(before[i])) && Loggable(sql)
    ensures
      var ls := Lines(message + "\n");
      Steps(State([], []), SplitLines(Judged(preamble, before, sql, message)))
        == Steps(State(EntriesOf(before) + [Entry(Normalised(sql), Some(ls[0]))], []), ls[1..])
  {
    var start, begins, ls := State([], []), Begins(preamble, before, sql), Lines(message + "\n");
    BeginsOneLiners(preamble, before, sql);
    SplitSteps(start, Judged(preamble, before, sql, message));
    RemarkLines(begins, message + "\n");
    RemarkText(message + "\n");
    StepsConcat(start, begins, [ANNOTATION + ls[0]] + ls[1..]);
    BegunSteps(preamble, before, sql);
    VerdictThen(EntriesOf(before), Normalised(sql), ls[0], ls[1..]);
  }

  lemma {:induction false} VerdictThen(entries: seq<Entry>, sql: string, verdict: string, more: seq<string>)
    ensures Steps(State(entries + [Entry(sql, None)], []), [ANNOTATION + verdict] + more) == Steps(State(entries + [Entry(sql, Some(verdict))], []), more)
  {
    var s := State(entries + [Entry(sql, None)], []);
    StepsConcat(s, [ANNOTATION + verdict], more);
    VerdictStep(entries, sql, verdict);
    assert [ANNOTATION + verdict][..0] == [];
    assert Steps(s, [ANNOTATION + verdict]) == Step(s, ANNOTATION + verdict);
  }

  /** EXACT CONDITION. A verdict of several lines, such as an engine's error, leaves the queries of the log as
      they are if and only if each of its lines after the first is blank or looks like a comment. */
  lemma VerdictHarmless(preamble: seq<string>, before: seq<Item>, sql: string, message: string)
    requires Comments(preamble) && (forall i :: 0 <= i < |before| ==> Recorded(before[i])) && Loggable(sql)
    ensures Sqls(Parsed(SplitLines(Judged(preamble, before, sql, message)))) == Sqls(EntriesOf(before)) + [Normalised(sql)]
      <==> AllIgnored(Lines(message + "\n")[1..])
  {
    var ls := Lines(message + "\n");
    var last := Entry(Normalised(sql), Some(ls[0]));
    JudgedSteps(preamble, before, sql, message);
    SqlsAfter(State(EntriesOf(before) + [last], []), ls[1..]);
    SqlsLast(EntriesOf(before), last);
  }

  lemma SqlsLast(entries: seq<Entry>, e: Entry)
    ensures Sqls(entries + [e]) == Sqls(entries) + [e.sql]
  {
  }

  lemma SqlsAfter(s: State, lines: seq<string>)
    requires s.pending == []
    ensures Sqls(Finished(Steps(s, lines))) == Sqls(s.entries) <==> AllIgnored(lines)
  {
    StepsWeight(s, lines);
    assert |Sqls(Finished(Steps(s, lines)))| == Weight(Steps(s, lines)) && |Sqls(s.entries)| == Weight(s);
  }

  /** Every verdict the parser reads is on one line. */
  ghost predicate PlainVerdicts(es: seq<Entry>) { forall i :: 0 <= i < |es| ==> (es[i].annotation.Some? ==> OnOneLine(es[i].annotation.value)) }

  lemma StepPlain(s: State, line: string)
    requires PlainVerdicts(s.entries) && OnOneLine(line)
    ensures PlainVerdicts(Step(s, line).entries)
  {
    if HasPrefix(line, ANNOTATION) {
      OneLineConcat(line[..|ANNOTATION|], line[|ANNOTATION|..]);
      assert line == line[..|ANNOTATION|] + line[|ANNOTATION|..];
    }
  }

  lemma {:induction false} StepsPlain(lines: seq<string>)
    requires OneLiners(lines)
    ensures PlainVerdicts(Steps(State([], []), lines).entries)
  {
    if lines != [] {
      StepsPlain(lines[..|lines| - 1]);
      StepPlain(Steps(State([], []), lines[..|lines| - 1]), lines[|lines| - 1]);
    }
  }

  lemma ParsedPlain(text: string)
    ensures PlainVerdicts(Parsed(SplitLines(text)))
  {
    SplitOneLiners(text);
    StepsPlain(SplitLines(text));
  }

  lemma OneLineVerdict(message: string)
    requires OnOneLine(message)
    ensures Lines(message + "\n") == [message, ""]
  {
    OneLine(message);
    OneLineEnd(message);
    LinesEnded(message);
  }

  lemma OneLineEnd(line: string)
    requires OnOneLine(line)
    ensures line == "" || line[|line| - 1] != '\r'
  {
  }

  /** EXACT CONDITION. A verdict comes back from the log as itself, with its query and those before it, if and
      only if it is on one line. */
  lemma VerdictRecovered(preamble: seq<string>, before: seq<Item>, sql: string, message: string)
    requires Comments(preamble) && (forall i :: 0 <= i < |before| ==> Recorded(before[i])) && Loggable(sql)
    ensures Parsed(SplitLines(Judged(preamble, before, sql, message))) == EntriesOf(before) + [Entry(Normalised(sql), Some(message))] <==> OnOneLine(message)
  {
    var es := Parsed(SplitLines(Judged(preamble, before, sql, message)));
    ParsedPlain(Judged(preamble, before, sql, message));
    if es == EntriesOf(before) + [Entry(Normalised(sql), Some(message))] { assert es[|before|].annotation == Some(message); }
    if OnOneLine(message) {
      JudgedSteps(preamble, before, sql, message);
      OneLineVerdict(message);
      var s := State(EntriesOf(before) + [Entry(Normalised(sql), Some(message))], []);
      assert [message, ""][1..] == [""] && [""][..0] == [];
      assert Steps(s, [""]) == Step(s, "") == s;
    }
  }

  // ---- exactly which queries come back ----------------------------------------------------------------

  function Breaks(s: string): nat {
    if s == "" then 0 else Breaks(s[..|s| - 1]) + (if s[|s| - 1] == '\n' then 1 else 0)
  }

  lemma {:induction false} BreaksConcat(a: string, b: string)
    ensures Breaks(a + b) == Breaks(a) + Breaks(b)
    decreases |b|
  {
    if b == "" {
      assert a + b == a;
    } else {
      assert (a + b)[..|a + b| - 1] == a + b[..|b| - 1];
      BreaksConcat(a, b[..|b| - 1]);
    }
  }

  lemma {:induction false} NoBreaks(s: string)
    requires OnOneLine(s)
    ensures Breaks(s) == 0
  {
    if s != "" { NoBreaks(s[..|s| - 1]); }
  }

  lemma {:induction false} OneLineUnix(s: string)
    requires OnOneLine(s)
    ensures Unix(s)
  {
    if s != "" { OneLineUnix(s[..|s| - 1]); }
  }

  lemma {:induction false} JoinedBreaks(ls: seq<string>)
    requires ls != [] && OneLiners(ls)
    ensures Breaks(Joined(ls)) == |ls| - 1 && Unix(Joined(ls))
  {
    var k := |ls| - 1;
    NoBreaks(ls[k]);
    OneLineUnix(ls[k]);
    if k > 0 {
      JoinedBreaks(ls[..k]);
      OneMoreLine(Joined(ls[..k]), ls[k]);
    }
  }

  lemma OneMoreLine(before: string, line: string)
    requires Unix(before) && Unix(line)
    ensures Breaks(before + "\n" + line) == Breaks(before) + 1 + Breaks(line) && Unix(before + "\n" + line)
  {
    BreaksConcat(before + "\n", line);
    BreaksConcat(before, "\n");
    UnixConcat(before + "\n", line);
    UnixConcat(before, "\n");
    assert "\n"[..0] == "";
    assert Breaks("\n") == 1;
  }

  lemma {:induction false} TrimSpaceBreaks(s: string)
    ensures Breaks(TrimSpace(s)) <= Breaks(s) && (Unix(s) ==> Unix(TrimSpace(s)))
  {
    if s != "" && IsSpace(s[|s| - 1]) { TrimSpaceBreaks(s[..|s| - 1]); }
  }

  lemma {:induction false} TrimSemicolonsBreaks(s: string)
    ensures Breaks(TrimSemicolons(s)) <= Breaks(s) && (Unix(s) ==> Unix(TrimSemicolons(s)))
  {
    if s != "" && s[|s| - 1] == ';' { TrimSemicolonsBreaks(s[..|s| - 1]); }
  }

  /** An entry has fewer line breaks than lines it was made from, and only line feeds among them. */
  lemma FlushedBreaks(pending: seq<string>)
    requires pending != [] && OneLiners(pending)
    ensures Breaks(Flushed(pending).sql) < |pending| && Unix(Flushed(pending).sql)
  {
    JoinedBreaks(pending);
    TrimSpaceBreaks(Joined(pending));
    TrimSemicolonsBreaks(TrimSpace(Joined(pending)));
  }

  /** A parser state that came from n lines: each entry took no more, and the pending ones are among
      them, all of them only when every line so far was an inner line. */
  ghost predicate Bounded(s: State, n: nat, inner: bool) {
    && (forall i :: 0 <= i < |s.entries| ==> Breaks(s.entries[i].sql) < n && Unix(s.entries[i].sql))
    && OneLiners(s.pending)
    && |s.pending| <= n && (!inner ==> |s.pending| < n) && (inner ==> s.entries == [])
  }

  lemma StepBounded(s: State, line: string, n: nat, inner: bool)
    requires Bounded(s, n, inner) && OnOneLine(line)
    ensures Bounded(Step(s, line), n + 1, inner && Inner(line))
  {
    CommentIsAnnotation(line);
    if !HasPrefix(line, "--") && TrimSpace(line) != "" { FlushedBreaks(s.pending + [line]); }
  }

  predicate AllInner(lines: seq<string>) { forall i :: 0 <= i < |lines| ==> Inner(lines[i]) }

  lemma {:induction false} StepsBounded(lines: seq<string>)
    requires OneLiners(lines)
    ensures Bounded(Steps(State([], []), lines), |lines|, AllInner(lines))
  {
    if lines != [] {
      var k := |lines| - 1;
      StepsBounded(lines[..k]);
      StepBounded(Steps(State([], []), lines[..k]), lines[k], k, AllInner(lines[..k]));
      assert AllInner(lines) <==> AllInner(lines[..k]) && Inner(lines[k]);
    }
  }

  /** A line after others: an entry it completes has as many breaks as there are lines before it only
      when all of those were pending. */
  lemma LastLine(s: State, line: string, k: nat)
    requires Bounded(s, k, false) && OnOneLine(line)
    ensures forall e :: e in Finished(Step(s, line)) ==> Breaks(e.sql) < k
  {
    CommentIsAnnotation(line);
    if HasPrefix(line, "--") || TrimSpace(line) == "" {
      assert Bounded(Step(s, line), k, false);
      FlushedLast(Step(s, line), k);
    } else {
      OneLinersConcat(s.pending, [line]);
      assert [line][..0] == [];
      FlushedBreaks(s.pending + [line]);
      assert Finished(Step(s, line)) == s.entries + [Flushed(s.pending + [line])];
    }
  }

  lemma FlushedLast(s: State, k: nat)
    requires Bounded(s, k, s.entries == [])
    ensures forall e :: e in Finished(s) ==> Breaks(e.sql) < k
  {
    if s.pending != [] { FlushedBreaks(s.pending); }
  }

  /** A comment after inner lines does not complete the query either. */
  lemma CommentLast(s: State, line: string, k: nat)
    requires Bounded(s, k, true) && HasPrefix(line, "--")
    ensures forall e :: e in Finished(Step(s, line)) ==> Breaks(e.sql) < k
  {
    if s.pending != [] { FlushedBreaks(s.pending); }
  }

  /** EXACT CONDITION. What begin writes comes back from the log as the query if and only if its lines
      end in line feeds and none of them is blank, looks like a comment, or, before the last, ends in
      a semicolon. */
  lemma RecoveredExactly(sql: string)
    ensures Parsed(SplitLines(Begun(sql) + "\n")) == [Entry(Normalised(sql), None)] <==> Loggable(sql)
  {
    var ls := Lines(Begun(sql));
    BegunNormal(sql);
    LinesEnded(Begun(sql));
    assert SplitLines(Begun(sql) + "\n") == ls;
    if Loggable(sql) {
      QuerySteps([], sql);
    } else {
      LinesHaveNoBreak(Begun(sql));
      if Unix(Normalised(sql)) {
        NormalBreaks(sql);
        NotRecovered(sql);
      } else {
        StepsBounded(ls);
        var s := Steps(State([], []), ls);
        if s.pending != [] { FlushedBreaks(s.pending); }
        assert forall e :: e in Parsed(ls) ==> Unix(e.sql);
        SingleOut(Parsed(ls), Entry(Normalised(sql), None));
      }
    }
  }

  lemma SingleOut(entries: seq<Entry>, e: Entry)
    requires e !in entries
    ensures entries != [e]
  {
    assert [e][0] == e;
  }

  lemma NormalBreaks(sql: string)
    requires Unix(Normalised(sql))
    ensures Breaks(Normalised(sql)) == |Lines(Begun(sql))| - 1
  {
    var ls := Lines(Begun(sql));
    LinesHaveNoBreak(Begun(sql));
    BegunUnix(sql);
    JoinedBreaks(ls);
    BreaksConcat(Normalised(sql), ";");
    assert ";"[..0] == "";
  }

  /** Lines that are not all inner lines and a proper last one give entries with too few breaks. */
  lemma FewBreaks(ls: seq<string>)
    requires ls != [] && OneLiners(ls) && (AllInner(ls[..|ls| - 1]) ==> HasPrefix(ls[|ls| - 1], "--"))
    ensures forall e :: e in Parsed(ls) ==> Breaks(e.sql) < |ls| - 1
  {
    var k := |ls| - 1;
    var s := Steps(State([], []), ls[..k]);
    StepsBounded(ls[..k]);
    if AllInner(ls[..k]) { CommentLast(s, ls[k], k); } else { LastLine(s, ls[k], k); }
  }

  lemma NotLoggable(sql: string)
    requires !Loggable(sql) && Unix(Normalised(sql))
    ensures
      var ls := Lines(Begun(sql));
      AllInner(ls[..|ls| - 1]) ==> HasPrefix(ls[|ls| - 1], "--")
  {
  }

  lemma NotRecovered(sql: string)
    requires !Loggable(sql) && Unix(Normalised(sql)) && Breaks(Normalised(sql)) == |Lines(Begun(sql))| - 1
    ensures Parsed(Lines(Begun(sql))) != [Entry(Normalised(sql), None)]
  {
    var ls := Lines(Begun(sql));
    LinesHaveNoBreak(Begun(sql));
    NotLoggable(sql);
    FewBreaks(ls);
    var e := Entry(Normalised(sql), None);
    SingleOut(Parsed(ls), e);
  }
}

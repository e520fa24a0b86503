/** The running totals of a session, and the law they keep. */
module Reports {
  import opened Bags
  import opened Oracle
  import opened Comparing
  import Names
  import opened Rounds
  import opened Text

  // ---- crashes that are not bugs --------------------------------------------------------------------

  predicate StartsAt(s: string, part: string, i: nat) {
    i + |part| <= |s| && s[i..i + |part|] == part
  }

  predicate Contains(s: string, part: string) {
    exists i :: 0 <= i <= |s| && StartsAt(s, part, i)
  }

  const NO_RESPONSE := "did not respond within"

  /** A hang, or a kill from outside: harness noise, not an engine's fault. */
  predicate IsTimeoutNoise(note: Option<string>) {
    note.Some? && note.value != "" && (Contains(Lower(note.value), NO_RESPONSE) || Contains(Lower(note.value), "sigkill"))
  }

  lemma LowerMiddle(a: string, b: string, c: string)
    requires Lower(b) == b
    ensures StartsAt(Lower(a + b + c), b, |a|)
  {
    assert Lower(a + b + c)[|a|..|a| + |b|] == Lower(b);
  }

  lemma AlreadyLower()
    ensures Lower(NO_RESPONSE) == NO_RESPONSE
  {
    assert Lower("did ") == "did " && Lower("not ") == "not " && Lower("respond ") == "respond " && Lower("within") == "within";
    assert NO_RESPONSE == "did " + "not " + "respond " + "within";
  }

  /** Every hang that a round words is noise, whatever the exit was: during a query and during the
      setup. */
  lemma HangIsNoise(seconds: string, exit: string)
    ensures IsTimeoutNoise(Some(TimeoutNote(seconds, exit)))
    ensures IsTimeoutNoise(Some(WhileBuilding(TimeoutNote(seconds, exit))))
  {
    var note := TimeoutNote(seconds, exit);
    var tail := " " + seconds + "s; " + exit;
    var building := "while building the equivalence: ";
    assert note == "worker " + NO_RESPONSE + tail;
    assert building + note == (building + "worker ") + NO_RESPONSE + tail;
    AlreadyLower();
    LowerMiddle("worker ", NO_RESPONSE, tail);
    LowerMiddle(building + "worker ", NO_RESPONSE, tail);
  }

  /** No occurrence of part can begin in a fixed word in front of a text. */
  predicate Clear(word: string, part: string) {
    |part| >= 3 && forall i :: 0 <= i < |word| ==> Parts(word, part, i)
  }

  predicate Parts(word: string, part: string, i: nat)
    requires i < |word| && |part| >= 3
  {
    word[i] != part[0] || (i + 1 < |word| && word[i + 1] != part[1]) || (i + 2 < |word| && word[i + 2] != part[2])
  }

  lemma NotBefore(word: string, tail: string, part: string, i: nat)
    requires Clear(word, part) && i < |word|
    ensures !StartsAt(word + tail, part, i)
  {
    var text := word + tail;
    assert Parts(word, part, i) && text[i] == word[i];
    if i + |part| <= |text| {
      var at := text[i..i + |part|];
      assert at[0] == text[i] && at[1] == text[i + 1] && at[2] == text[i + 2];
    }
  }

  lemma ContainsBehind(word: string, tail: string, part: string)
    requires Clear(word, part)
    ensures Contains(word + tail, part) <==> Contains(tail, part)
  {
    var text := word + tail;
    if Contains(text, part) {
      var i :| 0 <= i <= |text| && StartsAt(text, part, i);
      if i < |word| { NotBefore(word, tail, part, i); }
      assert text[i..i + |part|] == tail[i - |word|..i - |word| + |part|];
      assert StartsAt(tail, part, i - |word|);
    }
    if Contains(tail, part) {
      var i :| 0 <= i <= |tail| && StartsAt(tail, part, i);
      assert text[|word| + i..|word| + i + |part|] == tail[i..i + |part|];
      assert StartsAt(text, part, |word| + i);
    }
  }

  const SIGKILL := "sigkill"

  lemma Phrases()
    ensures |NO_RESPONSE| >= 3 && NO_RESPONSE[0] == 'd' && NO_RESPONSE[1] == 'i' && NO_RESPONSE[2] == 'd' && NO_RESPONSE[3] == ' '
    ensures |SIGKILL| >= 4 && SIGKILL[0] == 's' && SIGKILL[1] == 'i' && SIGKILL[2] == 'g' && SIGKILL[3] == 'k'
  {
  }

  /** One of the two phrases, ignoring case. */
  predicate Noisy(text: string) { Contains(Lower(text), NO_RESPONSE) || Contains(Lower(text), SIGKILL) }

  predicate Fixed(word: string) { Lower(word) == word && Clear(word, NO_RESPONSE) && Clear(word, SIGKILL) }

  /** A word in front changes nothing. */
  lemma BehindWord(word: string, tail: string)
    requires Fixed(word)
    ensures Noisy(word + tail) <==> Noisy(tail)
  {
    assert Lower(word + tail) == Lower(word) + Lower(tail);
    ContainsBehind(word, Lower(tail), NO_RESPONSE);
    ContainsBehind(word, Lower(tail), SIGKILL);
  }

  lemma Without(s: string, part: string, k: nat)
    requires k < |part| && part[k] !in s
    ensures !Contains(s, part)
  {
    forall i | 0 <= i <= |s| ensures !StartsAt(s, part, i) {
      if i + |part| <= |s| { assert s[i..i + |part|][k] == s[i + k]; }
    }
  }

  /** A text without spaces is noisy only when it names SIGKILL. */
  lemma OneWord(text: string)
    requires ' ' !in text
    ensures Noisy(text) <==> Contains(Lower(text), SIGKILL)
  {
    Phrases();
    forall i | 0 <= i < |text| ensures Lower(text)[i] != ' ' { assert text[i] in text; }
    Without(Lower(text), NO_RESPONSE, 3);
  }

  lemma Quiet(text: string)
    requires ' ' !in text && Lower(text) == text && 'k' !in text
    ensures !Noisy(text)
  {
    Phrases();
    OneWord(text);
    Without(text, SIGKILL, 3);
  }

  // ---- the words of the notes -------------------------------------------------------------------------

  lemma DeathWords()
    ensures Fixed("killed ") && Fixed("by ")
  {
    Phrases();
  }

  lemma ExitWords()
    ensures Fixed("exited ") && Fixed("with ")
  {
    Phrases();
  }

  lemma StatusWord()
    ensures Fixed("status ")
  {
    Phrases();
  }

  lemma RunningWords()
    ensures Fixed("child ") && Fixed("still ")
  {
    Phrases();
  }

  lemma RunningWord()
    ensures Fixed("running ")
  {
    Phrases();
  }

  lemma PipeWords()
    ensures Fixed("but ") && Fixed("pipe ")
  {
    Phrases();
  }

  lemma BuildingWords()
    ensures Fixed("while ") && Fixed("the ")
  {
    Phrases();
  }

  lemma BuildingWord()
    ensures Fixed("building ")
  {
    Phrases();
  }

  lemma EquivalenceWord()
    ensures Fixed("equivalence: ")
  {
    Phrases();
  }

  lemma SignalNoise(name: string)
    requires ' ' !in name
    ensures Noisy("killed by " + name) <==> Contains(Lower(name), SIGKILL)
  {
    DeathWords();
    assert "killed by " + name == "killed " + ("by " + name);
    BehindWord("killed ", "by " + name);
    BehindWord("by ", name);
    OneWord(name);
  }

  lemma StatusNoise(status: nat)
    ensures !Noisy("exited with status " + Names.Decimal(status))
  {
    var digits := Names.Decimal(status);
    ExitWords();
    StatusWord();
    assert "exited with status " + digits == "exited " + ("with " + ("status " + digits));
    BehindWord("exited ", "with " + ("status " + digits));
    BehindWord("with ", "status " + digits);
    BehindWord("status ", digits);
    assert Lower(digits) == digits;
    Quiet(digits);
  }

  lemma RunningNoise()
    ensures !Noisy("child still running but pipe closed")
  {
    var rest := "but pipe closed";
    RunningWords();
    RunningWord();
    assert "child still running but pipe closed" == "child " + ("still " + ("running " + rest));
    BehindWord("child ", "still " + ("running " + rest));
    BehindWord("still ", "running " + rest);
    BehindWord("running ", rest);
    PipeNoise();
  }

  lemma PipeNoise()
    ensures !Noisy("but pipe closed")
  {
    PipeWords();
    assert "but pipe closed" == "but " + ("pipe " + "closed");
    BehindWord("but ", "pipe " + "closed");
    BehindWord("pipe ", "closed");
    ClosedNoise();
  }

  lemma ClosedNoise()
    ensures !Noisy("closed")
  {
    assert Lower("closed") == "closed";
    Quiet("closed");
  }

  lemma UnseenNoise()
    ensures !Noisy("unknown")
  {
    Phrases();
    assert Lower("unknown") == "unknown";
    OneWord("unknown");
    Without("unknown", SIGKILL, 2);
  }

  lemma BuildingNoise(note: string)
    ensures Noisy(WhileBuilding(note)) <==> Noisy(note)
  {
    var rest := "the equivalence: " + note;
    BuildingWords();
    BuildingWord();
    assert WhileBuilding(note) == "while " + ("building " + rest);
    BehindWord("while ", "building " + rest);
    BehindWord("building ", rest);
    LastNoise(note);
  }

  lemma LastNoise(note: string)
    ensures Noisy("the equivalence: " + note) <==> Noisy(note)
  {
    BuildingWords();
    EquivalenceWord();
    assert "the equivalence: " + note == "the " + ("equivalence: " + note);
    BehindWord("the ", "equivalence: " + note);
    BehindWord("equivalence: ", note);
  }

  /** The name of a signal has no space. */
  predicate Plausible(exit: Exit) { exit.Signalled? ==> ' ' !in exit.name }

  /** The worker was killed from outside. */
  predicate Killed(exit: Exit) { exit.Signalled? && Contains(Lower(exit.name), SIGKILL) }

  /** EXACTLY. The end of a worker is noise when SIGKILL was the end, and on no other account, in either phase. */
  lemma DeathIsNoise(exit: Exit)
    requires Plausible(exit)
    ensures IsTimeoutNoise(Some(CrashNote(exit))) <==> Killed(exit)
    ensures IsTimeoutNoise(Some(WhileBuilding(CrashNote(exit)))) <==> Killed(exit)
  {
    match exit {
      case Signalled(name) => SignalNoise(name);
      case Exited(status) => StatusNoise(status);
      case StillRunning => RunningNoise();
      case Unseen => UnseenNoise();
    }
    BuildingNoise(CrashNote(exit));
    assert CrashNote(exit) != "" && WhileBuilding(CrashNote(exit)) != "";
    assert forall note: string :: note != "" ==> (IsTimeoutNoise(Some(note)) <==> Noisy(note));
  }

  // ---- totals ---------------------------------------------------------------------------------------

  datatype Kind = CrashFinding | MismatchFinding | ErrorFinding

  /** What stands for the query of a crash during the setup. */
  const NO_QUERY := "-- no query ran: the engine died while building the equivalence in this file"

  datatype Finding<T(==)> = Finding(
    kind: Kind,
    query: string,
    onlyInBase: multiset<T>,
    onlyInEquivalent: multiset<T>,
    baseError: Option<string>,
    equivalentError: Option<string>,
    note: Option<string>)

  function CrashFindingOf<T(==)>(query: string, note: Option<string>): Finding<T> {
    Finding(CrashFinding, query, multiset{}, multiset{}, None, None, note)
  }

  function ReportOf<T(==)>(c: QueryComparison<T>): Finding<T> {
    Finding(if c.IsMismatch() then MismatchFinding else ErrorFinding, c.query, c.onlyInBase, c.onlyInEquivalent, c.baseError, c.equivalentError, None)
  }

  function Count<T(==)>(results: seq<QueryComparison<T>>, p: QueryComparison<T> -> bool): nat {
    if results == [] then 0 else Count(results[..|results| - 1], p) + (if p(results[|results| - 1]) then 1 else 0)
  }

  /** The crash events of a round that is not discarded: one for the setup, one for a query. */
  function Crashes<T(==)>(o: RoundOutcome<T>): nat {
    (if o.setupCrash.Some? then 1 else 0) + (if o.crashedQuery.Some? then 1 else 0)
  }

  predicate Discarded<T(==)>(o: RoundOutcome<T>) { o.setupError.Some? || o.objectDiverged }

  function Reported<T(==)>(results: seq<QueryComparison<T>>): seq<Finding<T>> {
    if results == [] then []
    else
      var c := results[|results| - 1];
      Reported(results[..|results| - 1]) + (if c.IsReportable() then [ReportOf(c)] else [])
  }

  function CrashReports<T(==)>(o: RoundOutcome<T>): seq<Finding<T>> {
    (if o.setupCrash.Some? && !IsTimeoutNoise(Note(o)) then [CrashFindingOf(NO_QUERY, o.crashNote)] else [])
      + (if o.crashedQuery.Some? && !IsTimeoutNoise(o.crashNote) then [CrashFindingOf(o.crashedQuery.value, o.crashNote)] else [])
  }

  function Note<T(==)>(o: RoundOutcome<T>): Option<string> {
    if o.crashNote.Some? && o.crashNote.value != "" then o.crashNote else o.setupCrash
  }

  /** Each result falls under one verdict, so the results of a round split into passes, skips and
      reports. */
  lemma {:induction false} ResultsSplit<T>(results: seq<QueryComparison<T>>)
    requires forall i :: 0 <= i < |results| ==> Verdicts(results[i]) == 1
    ensures |results| == Count(results, (c: QueryComparison<T>) => c.IsPass()) + Count(results, (c: QueryComparison<T>) => c.IsUncomparable())
      + Count(results, (c: QueryComparison<T>) => c.IsKnownIssue()) + |Reported(results)|
  {
    if results != [] {
      ResultsSplit(results[..|results| - 1]);
    }
  }

  // ---- what a report says of what happened --------------------------------------------------------------

  /** A finding tells what the two sides did with the query: the equivalent alone failed, without a known cause;
      or both answered, and these rows are left of each when what agrees is taken away. */
  ghost predicate Tells<T(!new)>(f: Finding<T>, query: string, sides: Sides<T>, close: (T, T) -> bool) {
    && f.query == query && f.note.None? && f.baseError.None? && sides.0.Rows?
    && match f.kind
       case CrashFinding => false
       case ErrorFinding =>
         && sides.1.Failure? && sides.1.known.None? && f.equivalentError == Some(sides.1.error)
         && f.onlyInBase == multiset{} && f.onlyInEquivalent == multiset{}
       case MismatchFinding =>
         && sides.1.Rows? && f.equivalentError.None? && (f.onlyInBase != multiset{} || f.onlyInEquivalent != multiset{})
         && exists n, loose :: Explains(sides.0.rows, sides.1.rows, close, MultisetDiff(false, f.onlyInBase, f.onlyInEquivalent, n), loose)
  }

  lemma ReportTells<T(!new)>(c: QueryComparison<T>, query: string, sides: Sides<T>, close: (T, T) -> bool)
    requires Judges(c, query, sides, close) && c.IsReportable()
    ensures Tells(ReportOf(c), query, sides, close)
  {
    if c.IsMismatch() {
      assert Differs(c, sides.0.rows, sides.1.rows, close);
      var loose :| Explains(sides.0.rows, sides.1.rows, close, MultisetDiff(c.equal, c.onlyInBase, c.onlyInEquivalent, c.reconciled), loose);
    }
  }

  /** The base answered the query, and the equivalent either failed without a known cause or answered with rows
      that do not pair off. */
  predicate Suspected<T(==)>(c: QueryComparison<T>, sides: Sides<T>) {
    sides.0.Rows? && ((sides.1.Failure? && sides.1.known.None?) || (sides.1.Rows? && !c.equal))
  }

  /** Such a query is reported, behind the reports of the queries before it, and the report tells what
      happened. */
  lemma SuspectReported<T(!new)>(results: seq<QueryComparison<T>>, i: nat, query: string, sides: Sides<T>, close: (T, T) -> bool)
    requires i < |results| && Judges(results[i], query, sides, close) && Suspected(results[i], sides)
    ensures |Reported(results[..i])| < |Reported(results)| && Tells(Reported(results)[|Reported(results[..i])|], query, sides, close)
  {
    Suspicious(results[i], query, sides, close);
    ReportedAt(results, i);
    ReportTells(results[i], query, sides, close);
  }

  lemma {:induction false} ReportedAt<T>(results: seq<QueryComparison<T>>, i: nat)
    requires i < |results| && results[i].IsReportable()
    ensures |Reported(results[..i])| < |Reported(results)| && Reported(results)[|Reported(results[..i])|] == ReportOf(results[i])
  {
    var n := |results| - 1;
    if i < n {
      assert results[..n][..i] == results[..i];
      ReportedAt(results[..n], i);
    }
  }

  /** Nothing else is reported: every report is of such a query. */
  lemma {:induction false} ReportedSuspect<T(!new)>(results: seq<QueryComparison<T>>, queries: seq<string>, sides: seq<Sides<T>>, close: (T, T) -> bool, k: nat) returns (i: nat)
    requires |results| <= |queries| == |sides| && k < |Reported(results)|
    requires forall j :: 0 <= j < |results| ==> Judges(results[j], queries[j], sides[j], close)
    ensures i < |results| && |Reported(results[..i])| == k && Suspected(results[i], sides[i])
  {
    var n := |results| - 1;
    if k < |Reported(results[..n])| {
      i := ReportedSuspect(results[..n], queries, sides, close, k);
      assert results[..n][..i] == results[..i];
    } else {
      i := n;
      Suspicious(results[n], queries[n], sides[n], close);
    }
  }

  lemma Suspicious<T(!new)>(c: QueryComparison<T>, query: string, sides: Sides<T>, close: (T, T) -> bool)
    requires Judges(c, query, sides, close)
    ensures c.IsReportable() <==> Suspected(c, sides)
  {
  }

  /** A CRASH IS A FINDING AND A HANG IS NOT. When a round ends because its worker is gone, the report blames
      the query the worker had, or the setup, if the worker died other than by SIGKILL; a worker that hangs, or
      is killed from outside, is no finding. */
  lemma CrashTold<T(!new)>(o: RoundOutcome<T>, replies: seq<Reply<T>>, queries: seq<string>, setupSeconds: string, querySeconds: string)
    requires FromReplies(o, replies, queries, setupSeconds, querySeconds)
    requires forall i :: 0 <= i < |replies| && replies[i].PipeClosed? ==> Plausible(replies[i].exit)
    ensures
      var last := replies[|replies| - 1];
      CrashReports(o) ==
        if !last.PipeClosed? || Killed(last.exit) then []
        else if |replies| == 1 then [CrashFindingOf(NO_QUERY, Some(WhileBuilding(CrashNote(last.exit))))]
        else [CrashFindingOf(queries[|replies| - 2], Some(CrashNote(last.exit)))]
  {
    var last := replies[|replies| - 1];
    if last.PipeClosed? { DeathIsNoise(last.exit); }
    if last.TimedOut? { LostNoise(last.exit, setupSeconds, querySeconds); }
    if replies[0].Ready? { BlamedLast(replies, |o.results|); }
  }

  lemma LostNoise(exit: Exit, setupSeconds: string, querySeconds: string)
    ensures IsTimeoutNoise(Some(WhileBuilding("worker did not respond within " + setupSeconds + "s; " + CrashNote(exit))))
    ensures IsTimeoutNoise(Some("worker did not respond within " + querySeconds + "s; " + CrashNote(exit)))
  {
    HangIsNoise(setupSeconds, CrashNote(exit));
    HangIsNoise(querySeconds, CrashNote(exit));
    assert TimeoutNote(setupSeconds, CrashNote(exit)) == "worker did not respond within " + setupSeconds + "s; " + CrashNote(exit);
    assert TimeoutNote(querySeconds, CrashNote(exit)) == "worker did not respond within " + querySeconds + "s; " + CrashNote(exit);
  }

  lemma BlamedLast<T>(replies: seq<Reply<T>>, n: nat)
    requires replies != [] && (|replies| == n + 1 || |replies| == n + 2)
    ensures n > 0 ==> replies[n] == replies[1..][n - 1]
    ensures |replies| == n + 2 ==> replies[1..][n] == replies[|replies| - 1]
  {
  }

  class FuzzReport<T(==, !new)> {
    var rounds: nat
    var queriesRun: nat
    var passed: nat
    var skipped: nat
    var discardedUnbuildable: nat
    var discardedNotEquivalent: nat
    var findings: seq<Finding<T>>
    /** What was folded in: how many outcomes, and how many crash events were among the kept ones. */
    ghost var calls: nat
    ghost var crashEvents: nat

    constructor ()
      ensures Balanced() && calls == 0 && findings == []
    {
      rounds, queriesRun, passed, skipped, discardedUnbuildable, discardedNotEquivalent := 0, 0, 0, 0, 0, 0;
      findings, calls, crashEvents := [], 0, 0;
    }

    /** Nothing is lost and nothing is counted twice. */
    ghost predicate Balanced()
      reads this
    {
      && passed + skipped + |findings| == queriesRun + crashEvents
      && rounds + discardedUnbuildable + discardedNotEquivalent == calls
    }

    /** Folds one round in. */
    method RecordRound(o: RoundOutcome<T>) returns (found: seq<Finding<T>>)
      requires Balanced() && forall i :: 0 <= i < |o.results| ==> Verdicts(o.results[i]) == 1
      modifies this
      ensures Balanced() && calls == old(calls) + 1
      ensures findings == old(findings) + found
      ensures Discarded(o) ==> found == [] && queriesRun == old(queriesRun) && crashEvents == old(crashEvents)
      ensures Discarded(o) ==> rounds == old(rounds) && passed == old(passed) && skipped == old(skipped)
      ensures discardedUnbuildable == old(discardedUnbuildable) + (if o.setupError.Some? then 1 else 0)
      ensures !Discarded(o) ==> passed == old(passed) + Count(o.results, (c: QueryComparison<T>) => c.IsPass())
      ensures !Discarded(o) ==> found == CrashReports(o) + Reported(o.results)
      ensures !Discarded(o) ==> queriesRun == old(queriesRun) + |o.results| && crashEvents == old(crashEvents) + Crashes(o) && rounds == old(rounds) + 1
    {
      calls := calls + 1;
      found := [];
      if o.setupError.Some? {
        discardedUnbuildable := discardedUnbuildable + 1;
        return;
      }
      if o.objectDiverged {
        discardedNotEquivalent := discardedNotEquivalent + 1;
        return;
      }
      var crashes, noise := CrashFindings(o);
      var passes, uncomparable, known := CountResults(o.results);
      var reports := ReportResults(o.results);
      ResultsSplit(o.results);
      crashEvents := crashEvents + Crashes(o);
      rounds, queriesRun := rounds + 1, queriesRun + |o.results|;
      passed, skipped := passed + passes, skipped + noise + uncomparable + known;
      found := crashes + reports;
      findings := findings + found;
    }

    /** Folds in the outcomes of a session, in order. */
    method RecordAll(outcomes: seq<RoundOutcome<T>>)
      requires Balanced() && forall r, i :: 0 <= r < |outcomes| && 0 <= i < |outcomes[r].results| ==> Verdicts(outcomes[r].results[i]) == 1
      modifies this
      ensures Balanced() && calls == old(calls) + |outcomes|
    {
      for r := 0 to |outcomes|
        invariant Balanced() && calls == old(calls) + r
      {
        var found := RecordRound(outcomes[r]);
      }
    }
  }

  /** Each crash event becomes a finding or, when it is noise, a skip. */
  method CrashFindings<T(==)>(o: RoundOutcome<T>) returns (found: seq<Finding<T>>, noise: nat)
    ensures found == CrashReports(o) && |found| + noise == Crashes(o)
  {
    found, noise := [], 0;
    if o.setupCrash.Some? && !IsTimeoutNoise(Note(o)) {
      found := found + [CrashFindingOf(NO_QUERY, o.crashNote)];
    } else if o.setupCrash.Some? {
      noise := noise + 1;
    }
    if o.crashedQuery.Some? && !IsTimeoutNoise(o.crashNote) {
      found := found + [CrashFindingOf(o.crashedQuery.value, o.crashNote)];
    } else if o.crashedQuery.Some? {
      noise := noise + 1;
    }
  }

  method CountResults<T(==)>(results: seq<QueryComparison<T>>) returns (passes: nat, uncomparable: nat, known: nat)
    ensures passes == Count(results, (c: QueryComparison<T>) => c.IsPass())
    ensures uncomparable == Count(results, (c: QueryComparison<T>) => c.IsUncomparable())
    ensures known == Count(results, (c: QueryComparison<T>) => c.IsKnownIssue())
  {
    passes, uncomparable, known := 0, 0, 0;
    for i := 0 to |results|
      invariant passes == Count(results[..i], (c: QueryComparison<T>) => c.IsPass())
      invariant uncomparable == Count(results[..i], (c: QueryComparison<T>) => c.IsUncomparable())
      invariant known == Count(results[..i], (c: QueryComparison<T>) => c.IsKnownIssue())
    {
      assert results[..i + 1][..i] == results[..i];
      if results[i].IsPass() { passes := passes + 1; }
      if results[i].IsUncomparable() { uncomparable := uncomparable + 1; }
      if results[i].IsKnownIssue() { known := known + 1; }
    }
    assert results[..|results|] == results;
  }

  method ReportResults<T(==)>(results: seq<QueryComparison<T>>) returns (found: seq<Finding<T>>)
    ensures found == Reported(results)
  {
    found := [];
    for i := 0 to |results|
      invariant found == Reported(results[..i])
    {
      assert results[..i + 1][..i] == results[..i];
      if results[i].IsReportable() {
        found := found + [ReportOf(results[i])];
      }
    }
    assert results[..|results|] == results;
  }
}

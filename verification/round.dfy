/** One round: a parent that feeds queries to a worker process and outlives it. */
module Rounds {
  import opened Bags
  import opened Oracle
  import opened Comparing
  import opened Journal
  import Names

  /** What the parent finds out about a worker that is gone. */
  datatype Exit = StillRunning | Signalled(name: string) | Exited(status: nat) | Unseen

  /** What the parent gets from the pipe: a message, nothing in time, or the end of the pipe. */
  datatype Reply<T(==)> =
    | SetupError(error: string)
    | Ready(equal: bool)
    | Result(comparison: QueryComparison<T>)
    | TimedOut(exit: Exit)
    | PipeClosed(exit: Exit)

  /** What the engines do with a query on the two sides. */
  type Sides<T(==)> = (QueryOutcome<T>, QueryOutcome<T>)

  datatype RoundOutcome<T(==)> = RoundOutcome(
    results: seq<QueryComparison<T>>,
    objectDiverged: bool,
    crashedQuery: Option<string>,
    crashNote: Option<string>,
    setupCrash: Option<string>,
    setupError: Option<string>,
    stoppedForBudget: bool)

  /** How the parent words the end of a worker, naming the signal when one killed it. */
  function CrashNote(exit: Exit): string {
    match exit
    case StillRunning => "child still running but pipe closed"
    case Signalled(name) => "killed by " + name
    case Exited(status) => "exited with status " + Names.Decimal(status)
    case Unseen => "unknown"
  }

  /** How it words a worker that does not answer. */
  function TimeoutNote(seconds: string, exit: string): string {
    "worker did not respond within " + seconds + "s; " + exit
  }

  predicate EndsIn(text: string, last: string) { |last| <= |text| && text[|text| - |last|..] == last }

  lemma EndsInLast(before: string, last: string)
    ensures EndsIn(before + last, last)
  {
  }

  /** The child side. What the engines make of a query is arbitrary, and so is whether the worker
      lives to tell; when it answers, it answers the question that was asked. */
  class Worker<T(==, !new)> {
    const close: (T, T) -> bool
    /** How long the parent waits for the setup and for a query. */
    const setupSeconds: string
    const querySeconds: string
    /** What the parent got, in order. */
    ghost var replies: seq<Reply<T>>

    constructor (close: (T, T) -> bool, setupSeconds: string, querySeconds: string)
      ensures this.close == close && this.setupSeconds == setupSeconds && this.querySeconds == querySeconds && replies == []
    {
      this.close, this.setupSeconds, this.querySeconds, replies := close, setupSeconds, querySeconds, [];
    }

    /** The first message. The statements that build the equivalent are in the log before any runs. */
    method Setup(equal: bool, error: Option<string>, exit: Exit, ghost statements: seq<string>, ghost journal: QueryJournal) returns (r: Reply<T>)
      requires EndsIn(journal.text, Unlines(RecordLines(DDL, statements)))
      modifies this`replies
      ensures replies == old(replies) + [r] && !r.Result?
      ensures (r.Ready? ==> r.equal == equal) && (r.SetupError? ==> error == Some(r.error))
      ensures r == TimedOut(exit) || r == PipeClosed(exit) || r.Ready? || r.SetupError?
    {
      var hangs, dies := *, *;
      r := if hangs then TimedOut(exit) else if dies then PipeClosed(exit)
           else if error.Some? then SetupError(error.value) else Ready(equal);
      replies := replies + [r];
    }

    /** The answer to one query. WRITE AHEAD is the precondition: when the engine gets the query, the
        query is the last thing in the log. */
    method Answer(query: string, sides: Sides<T>, exit: Exit, ghost journal: QueryJournal) returns (r: Reply<T>)
      requires EndsIn(journal.text, Begun(query) + "\n") && Listed(sides.0) && Listed(sides.1)
      modifies this`replies
      ensures replies == old(replies) + [r] && (r.Result? || r == TimedOut(exit) || r == PipeClosed(exit))
      ensures r.Result? ==> Judges(r.comparison, query, sides, close)
    {
      var hangs, dies := *, *;
      var c := CompareOne(query, sides.0, sides.1, close);
      r := if hangs then TimedOut(exit) else if dies then PipeClosed(exit) else Result(c);
      replies := replies + [r];
    }
  }

  /** The comparison is of this query, and says what the two sides did with it. */
  ghost predicate Judges<T(!new)>(c: QueryComparison<T>, query: string, sides: Sides<T>, close: (T, T) -> bool) {
    c.query == query && Describes(c, sides.0, sides.1, close)
  }

  ghost predicate AllListed<T(!new)>(sides: seq<Sides<T>>) { forall i :: 0 <= i < |sides| ==> Listed(sides[i].0) && Listed(sides[i].1) }

  /** The results answer the first queries of the stream, in order, and the journal has an item for
      every query that was begun. */
  ghost predicate Follows<T>(queries: seq<string>, results: seq<QueryComparison<T>>, items: seq<Item>, verdict: QueryComparison<T> -> string) {
    && |results| <= |items| <= |queries| && |items| <= |results| + 1
    && (forall i :: 0 <= i < |results| ==> results[i].query == queries[i] && Verdicts(results[i]) == 1)
    && (forall i :: 0 <= i < |items| ==> items[i].sql == queries[i])
    && (forall i :: 0 <= i < |results| ==> items[i].verdict == verdict(results[i]))
  }

  lemma WrittenNext(before: string, items: seq<Item>, item: Item)
    ensures before + WrittenText(items + [item]) == (before + WrittenText(items)) + ItemText(item)
  {
    assert (items + [item])[..|items|] == items;
  }

  lemma Answered<T>(queries: seq<string>, results: seq<QueryComparison<T>>, items: seq<Item>, verdict: QueryComparison<T> -> string, c: QueryComparison<T>)
    requires Follows(queries, results, items, verdict) && |items| == |results| < |queries|
    requires c.query == queries[|results|] && Verdicts(c) == 1
    ensures Follows(queries, results + [c], items + [Item(c.query, verdict(c))], verdict)
  {
  }

  lemma Unanswered<T>(queries: seq<string>, results: seq<QueryComparison<T>>, items: seq<Item>, verdict: QueryComparison<T> -> string, message: string)
    requires Follows(queries, results, items, verdict) && |items| == |results| < |queries|
    ensures Follows(queries, results, items + [Item(queries[|results|], message)], verdict)
  {
  }

  /** What the log says of the end of a query that was not answered. */
  ghost function EndMessage<T>(reply: Reply<T>, seconds: string, verdict: QueryComparison<T> -> string): string {
    match reply
    case Result(c) => verdict(c)
    case TimedOut(exit) => "CRASH: engine hung (" + TimeoutNote(seconds, CrashNote(exit)) + ")"
    case PipeClosed(exit) => "CRASH: engine died (" + CrashNote(exit) + ")"
    case _ => ""
  }

  /** How the parent words it, for the outcome and for the log. */
  method EndOf<T(==)>(reply: Reply<T>, seconds: string, verdict: QueryComparison<T> -> string) returns (note: Option<string>, message: string)
    requires reply.Result? || reply.TimedOut? || reply.PipeClosed?
    ensures note == NoteFor(reply, seconds) && message == EndMessage(reply, seconds, verdict)
  {
    match reply {
      case TimedOut(exit) =>
        var words := TimeoutNote(seconds, CrashNote(exit));
        note, message := Some(words), "CRASH: engine hung (" + words + ")";
      case PipeClosed(exit) =>
        var words := CrashNote(exit);
        note, message := Some(words), "CRASH: engine died (" + words + ")";
      case Result(c) => note, message := None, verdict(c);
    }
    assert reply.TimedOut? ==> "worker did not respond within " + seconds + "s; " + CrashNote(reply.exit) == TimeoutNote(seconds, CrashNote(reply.exit));
  }

  /** One query: written down, sent, and its end written down. */
  method OneQuery<T(==, !new)>(worker: Worker<T>, query: string, sides: Sides<T>, exit: Exit, verdict: QueryComparison<T> -> string, journal: QueryJournal)
    returns (reply: Reply<T>, note: Option<string>, ghost message: string)
    requires Listed(sides.0) && Listed(sides.1)
    modifies journal, worker`replies
    ensures worker.replies == old(worker.replies) + [reply]
    ensures journal.text == old(journal.text) + ItemText(Item(query, message)) && message == EndMessage(reply, worker.querySeconds, verdict)
    ensures reply.Result? ==> Judges(reply.comparison, query, sides, worker.close)
    ensures reply.Result? || reply == TimedOut(exit) || reply == PipeClosed(exit)
    ensures note == NoteFor(reply, worker.querySeconds)
  {
    journal.Begin(query);
    ghost var start := old(journal.text);
    assert journal.text == start + (Begun(query) + "\n");
    EndsInLast(old(journal.text), Begun(query) + "\n");
    reply := worker.Answer(query, sides, exit, journal);
    var line;
    note, line := EndOf(reply, worker.querySeconds, verdict);
    message := line;
    journal.Annotate(line);
    ItemJoined(start, query, message);
  }

  lemma ItemJoined(start: string, query: string, message: string)
    ensures start + (Begun(query) + "\n") + (ANNOTATION + message) + "\n" == start + ItemText(Item(query, message))
  {
    var a, b := Begun(query) + "\n", ANNOTATION + message;
    assert start + a + b + "\n" == start + (a + b + "\n");
  }

  /** A hang is worded with how long the parent waited, a death without. */
  ghost function NoteFor<T>(reply: Reply<T>, seconds: string): Option<string> {
    match reply
    case TimedOut(exit) => Some("worker did not respond within " + seconds + "s; " + CrashNote(exit))
    case PipeClosed(exit) => Some(CrashNote(exit))
    case _ => None
  }

  /** What the parent made of the replies to its queries: the results are the answers, in order, and a reply
      that is not an answer is the last one, blamed on the query it was for and noted as what it was. */
  ghost predicate Told<T(!new)>(replies: seq<Reply<T>>, queries: seq<string>, seconds: string, results: seq<QueryComparison<T>>, crashed: Option<string>, note: Option<string>) {
    && |results| <= |replies| <= |queries|
    && (forall i :: 0 <= i < |results| ==> replies[i] == Result(results[i]))
    && (|replies| == |results| ==> crashed.None? && note.None?)
    && (|replies| > |results| ==> |replies| == |results| + 1 && Blamed(replies[|results|], queries[|results|], seconds, crashed, note))
  }

  ghost predicate Blamed<T>(reply: Reply<T>, query: string, seconds: string, crashed: Option<string>, note: Option<string>) {
    (reply.TimedOut? || reply.PipeClosed?) && crashed == Some(query) && note == NoteFor(reply, seconds)
  }

  /** The log has the end of every query that was begun. */
  ghost predicate Logged<T(!new)>(items: seq<Item>, replies: seq<Reply<T>>, seconds: string, verdict: QueryComparison<T> -> string) {
    |items| == |replies| && forall i :: 0 <= i < |items| ==> items[i].verdict == EndMessage(replies[i], seconds, verdict)
  }

  /** Whether the loop went on as long as there were queries and time, and no longer: late[i] says whether the
      time was up when query i was about to be drawn. */
  ghost predicate InTime(begun: nat, results: nat, queries: nat, scheduled: bool, late: seq<bool>, crashed: bool, stopped: bool)
    requires |late| == queries + 1
  {
    && results <= begun <= queries
    && OnTime(begun, scheduled, late)
    && (stopped <==> !crashed && scheduled && late[results]) && (!crashed && !stopped ==> results == queries)
  }

  predicate OnTime(n: nat, scheduled: bool, late: seq<bool>)
    requires n <= |late|
  {
    forall i :: 0 <= i < n ==> !(scheduled && late[i])
  }

  lemma OnTimeNext(n: nat, scheduled: bool, late: seq<bool>)
    requires n < |late| && OnTime(n, scheduled, late) && !(scheduled && late[n])
    ensures OnTime(n + 1, scheduled, late)
  {
  }

  /** What the parent knows between two queries. */
  ghost predicate Running<T(!new)>(queries: seq<string>, sides: seq<Sides<T>>, close: (T, T) -> bool, seconds: string, verdict: QueryComparison<T> -> string,
                                   results: seq<QueryComparison<T>>, items: seq<Item>, told: seq<Reply<T>>)
    requires |queries| == |sides|
  {
    && |items| == |results| && Follows(queries, results, items, verdict)
    && Told(told, queries, seconds, results, None, None) && Logged(items, told, seconds, verdict)
    && forall i :: 0 <= i < |results| ==> Judges(results[i], queries[i], sides[i], close)
  }

  lemma RunningNext<T(!new)>(queries: seq<string>, sides: seq<Sides<T>>, close: (T, T) -> bool, seconds: string, verdict: QueryComparison<T> -> string,
                       results: seq<QueryComparison<T>>, items: seq<Item>, told: seq<Reply<T>>, c: QueryComparison<T>, message: string)
    requires |queries| == |sides| && Running(queries, sides, close, seconds, verdict, results, items, told) && |results| < |queries|
    requires Judges(c, queries[|results|], sides[|results|], close) && message == EndMessage(Result(c), seconds, verdict)
    ensures Running(queries, sides, close, seconds, verdict, results + [c], items + [Item(queries[|results|], message)], told + [Result(c)])
  {
    Answered(queries, results, items, verdict, c);
    assert forall i :: 0 <= i < |results| ==> (results + [c])[i] == results[i];
  }

  lemma RunningEnd<T(!new)>(queries: seq<string>, sides: seq<Sides<T>>, close: (T, T) -> bool, seconds: string, verdict: QueryComparison<T> -> string,
                      results: seq<QueryComparison<T>>, items: seq<Item>, told: seq<Reply<T>>, reply: Reply<T>, note: Option<string>, message: string)
    requires |queries| == |sides| && Running(queries, sides, close, seconds, verdict, results, items, told) && |results| < |queries|
    requires reply.TimedOut? || reply.PipeClosed?
    requires note == NoteFor(reply, seconds) && message == EndMessage(reply, seconds, verdict)
    ensures Follows(queries, results, items + [Item(queries[|results|], message)], verdict)
    ensures Told(told + [reply], queries, seconds, results, Some(queries[|results|]), note)
    ensures Logged(items + [Item(queries[|results|], message)], told + [reply], seconds, verdict)
  {
    Unanswered(queries, results, items, verdict, message);
  }

  /** The next query of the stream. */
  method NextQuery<T(==, !new)>(worker: Worker<T>, queries: seq<string>, sides: seq<Sides<T>>, exit: Exit, verdict: QueryComparison<T> -> string, journal: QueryJournal,
                                results: seq<QueryComparison<T>>, ghost items: seq<Item>, ghost told: seq<Reply<T>>, ghost before: seq<Reply<T>>, ghost start: string)
    returns (results': seq<QueryComparison<T>>, crashed: Option<string>, note: Option<string>, ghost items': seq<Item>, ghost told': seq<Reply<T>>)
    requires |queries| == |sides| && AllListed(sides) && |results| < |queries|
    requires Running(queries, sides, worker.close, worker.querySeconds, verdict, results, items, told)
    requires journal.text == start + WrittenText(items) && worker.replies == before + told
    modifies journal, worker`replies
    ensures journal.text == start + WrittenText(items') && worker.replies == before + told'
    ensures |items'| == |items| + 1 && |results'| == |results| + (if crashed.None? then 1 else 0)
    ensures crashed.None? ==> note.None? && Running(queries, sides, worker.close, worker.querySeconds, verdict, results', items', told')
    ensures crashed.Some? ==> results' == results && Follows(queries, results, items', verdict) && Logged(items', told', worker.querySeconds, verdict)
    ensures crashed.Some? ==> Told(told', queries, worker.querySeconds, results, crashed, note)
  {
    var query := queries[|results|];
    var reply;
    ghost var message;
    reply, note, message := OneQuery(worker, query, sides[|results|], exit, verdict, journal);
    WrittenNext(start, items, Item(query, message));
    items', told' := items + [Item(query, message)], told + [reply];
    assert worker.replies == before + told';
    if reply.Result? {
      RunningNext(queries, sides, worker.close, worker.querySeconds, verdict, results, items, told, reply.comparison, message);
      results', crashed := results + [reply.comparison], None;
    } else {
      RunningEnd(queries, sides, worker.close, worker.querySeconds, verdict, results, items, told, reply, note, message);
      results', crashed := results, Some(query);
    }
  }

  /** The query phase. The journal is ahead of the engine: each query is written before it is sent.
      When the worker goes, the query blamed is the one after the last answer. */
  method QueryLoop<T(==, !new)>(worker: Worker<T>, queries: seq<string>, sides: seq<Sides<T>>, exits: seq<Exit>, scheduled: bool, late: seq<bool>,
                                verdict: QueryComparison<T> -> string, journal: QueryJournal)
    returns (results: seq<QueryComparison<T>>, crashed: Option<string>, note: Option<string>, stopped: bool, ghost items: seq<Item>)
    requires |exits| == |queries| == |sides| && |late| == |queries| + 1 && AllListed(sides)
    modifies journal, worker`replies
    ensures old(worker.replies) <= worker.replies
    ensures journal.text == old(journal.text) + WrittenText(items) && Follows(queries, results, items, verdict)
    ensures Told(worker.replies[|old(worker.replies)|..], queries, worker.querySeconds, results, crashed, note)
    ensures Logged(items, worker.replies[|old(worker.replies)|..], worker.querySeconds, verdict)
    ensures forall i :: 0 <= i < |results| ==> Judges(results[i], queries[i], sides[i], worker.close)
    ensures InTime(|items|, |results|, |queries|, scheduled, late, crashed.Some?, stopped)
  {
    results, crashed, note, stopped, items := [], None, None, false, [];
    ghost var told: seq<Reply<T>> := [];
    ghost var before, start := worker.replies, journal.text;
    assert journal.text == old(journal.text) + WrittenText([]);
    while true
      invariant |results| <= |queries| && !stopped && crashed.None? && note.None?
      invariant Running(queries, sides, worker.close, worker.querySeconds, verdict, results, items, told)
      invariant journal.text == start + WrittenText(items) && worker.replies == before + told
      invariant OnTime(|results|, scheduled, late)
      decreases |queries| - |results|
    {
      if scheduled && late[|results|] {
        stopped := true;
        break;
      }
      if |results| == |queries| { break; }
      OnTimeNext(|results|, scheduled, late);
      results, crashed, note, items, told := NextQuery(worker, queries, sides, exits[|results|], verdict, journal, results, items, told, before, start);
      if crashed.Some? { break; }
    }
    assert worker.replies[|before|..] == told;
  }

  // ---- the round ------------------------------------------------------------------------------------

  /** A round that ended before any query. */
  function NoQueries<T(==)>(setupError: Option<string>, setupCrash: Option<string>, note: Option<string>): RoundOutcome<T> {
    RoundOutcome([], false, None, note, setupCrash, setupError, false)
  }

  /** What holds of every outcome: at most one of the two setup failures, and no query after one;
      otherwise the answers are to the first queries of the stream and the crashed query is the next. */
  ghost predicate WellFormed<T>(o: RoundOutcome<T>, queries: seq<string>) {
    && !(o.setupError.Some? && o.setupCrash.Some?)
    && (o.setupError.Some? || o.setupCrash.Some? ==> o.results == [] && o.crashedQuery.None? && !o.objectDiverged)
    && (o.setupCrash.Some? || o.crashedQuery.Some? ==> o.crashNote.Some?)
    && |o.results| <= |queries| && (o.crashedQuery.Some? ==> |o.results| < |queries| && o.crashedQuery.value == queries[|o.results|])
    && forall i :: 0 <= i < |o.results| ==> o.results[i].query == queries[i] && Verdicts(o.results[i]) == 1
  }

  /** How a crash during the setup is reported. */
  function WhileBuilding(note: string): string { "while building the equivalence: " + note }

  /** What the parent made of everything it got: the first reply is to the setup. */
  ghost predicate FromReplies<T(!new)>(o: RoundOutcome<T>, replies: seq<Reply<T>>, queries: seq<string>, setupSeconds: string, querySeconds: string) {
    && replies != []
    && match replies[0]
       case SetupError(error) => |replies| == 1 && o == RoundOutcome([], false, None, None, None, Some(error), false)
       case Ready(equal) =>
         && o.setupError.None? && o.setupCrash.None? && (o.objectDiverged <==> !equal)
         && Told(replies[1..], queries, querySeconds, o.results, o.crashedQuery, o.crashNote)
       case Result(_) => false
       case lost =>
         && |replies| == 1 && NoteFor(lost, setupSeconds).Some?
         && o == RoundOutcome([], false, None, Some("while building the equivalence: " + NoteFor(lost, setupSeconds).value), NoteFor(lost, setupSeconds), None, false)
  }

  /** A titled block of the log: one fork's tree. */
  datatype Block = Block(title: string, tree: seq<string>)

  /** What the parent writes down before the worker starts: the forks, what built them, where the
      predicates came from, and the statements. */
  datatype Announcement = Announcement(exposed: Option<string>, forks: seq<Block>, builders: string, origin: Option<string>, statements: seq<string>)

  /** Its remarks and titles fit on one line; trees and statements need not. */
  predicate Tidy(a: Announcement) {
    && (a.exposed.Some? ==> OnOneLine(a.exposed.value)) && (forall i :: 0 <= i < |a.forks| ==> OnOneLine(a.forks[i].title))
    && OnOneLine(a.builders) && (a.origin.Some? ==> OnOneLine(a.origin.value))
  }

  const DDL := "equivalence DDL"

  /** The lines of an announcement. */
  function Announced(a: Announcement): seq<string> {
    (if a.exposed.Some? then [ANNOTATION + a.exposed.value] else []) + ForkLines(a.forks) + [ANNOTATION + a.builders]
      + (if a.origin.Some? then [ANNOTATION + a.origin.value] else []) + RecordLines(DDL, a.statements)
  }

  lemma AnnouncedLast(start: string, a: Announcement)
    ensures EndsIn(start + Unlines(Announced(a)), Unlines(RecordLines(DDL, a.statements)))
  {
    var front := (if a.exposed.Some? then [ANNOTATION + a.exposed.value] else []) + ForkLines(a.forks) + [ANNOTATION + a.builders]
      + (if a.origin.Some? then [ANNOTATION + a.origin.value] else []);
    UnlinesMore(start, front, RecordLines(DDL, a.statements));
    EndsInLast(start + Unlines(front), Unlines(RecordLines(DDL, a.statements)));
  }

  function ForkLines(forks: seq<Block>): seq<string> {
    if forks == [] then [] else ForkLines(forks[..|forks| - 1]) + RecordLines(forks[|forks| - 1].title, forks[|forks| - 1].tree)
  }

  /** What stands before the queries of a round that was set up. */
  function Preamble(a: Announcement, checked: string, schedule: Option<string>): seq<string> {
    Announced(a) + [ANNOTATION + CheckRemark(checked)] + (if schedule.Some? then [ANNOTATION + schedule.value] else [])
  }

  function CheckRemark(checked: string): string { "equivalence check: " + checked }

  lemma {:induction false} ForkComments(forks: seq<Block>)
    requires forall i :: 0 <= i < |forks| ==> OnOneLine(forks[i].title)
    ensures Comments(ForkLines(forks))
  {
    if forks != [] {
      var last := forks[|forks| - 1];
      ForkComments(forks[..|forks| - 1]);
      RecordComments(last.title, last.tree);
      CommentsConcat(ForkLines(forks[..|forks| - 1]), RecordLines(last.title, last.tree));
    }
  }

  lemma PossiblyRemark(message: Option<string>)
    requires message.Some? ==> OnOneLine(message.value)
    ensures Comments(if message.Some? then [ANNOTATION + message.value] else [])
  {
    if message.Some? { RemarkLine(message.value); }
  }

  lemma AnnouncedComments(a: Announcement)
    requires Tidy(a)
    ensures Comments(Announced(a))
  {
    PossiblyRemark(a.exposed);
    ForkComments(a.forks);
    RemarkLine(a.builders);
    PossiblyRemark(a.origin);
    Short(DDL);
    RecordComments(DDL, a.statements);
    var one := if a.exposed.Some? then [ANNOTATION + a.exposed.value] else [];
    var two := if a.origin.Some? then [ANNOTATION + a.origin.value] else [];
    CommentsConcat(one, ForkLines(a.forks));
    CommentsConcat(one + ForkLines(a.forks), [ANNOTATION + a.builders]);
    CommentsConcat(one + ForkLines(a.forks) + [ANNOTATION + a.builders], two);
    CommentsConcat(one + ForkLines(a.forks) + [ANNOTATION + a.builders] + two, RecordLines(DDL, a.statements));
  }

  /** Nothing that is written before the first query can be taken for one. */
  lemma PreambleComments(a: Announcement, checked: string, schedule: Option<string>)
    requires Tidy(a) && OnOneLine(checked) && (schedule.Some? ==> OnOneLine(schedule.value))
    ensures Comments(Preamble(a, checked, schedule))
  {
    AnnouncedComments(a);
    Short("equivalence check: ");
    OneLineConcat("equivalence check: ", checked);
    RemarkLine(CheckRemark(checked));
    PossiblyRemark(schedule);
    CommentsConcat(Announced(a), [ANNOTATION + CheckRemark(checked)]);
    CommentsConcat(Announced(a) + [ANNOTATION + CheckRemark(checked)], if schedule.Some? then [ANNOTATION + schedule.value] else []);
  }

  /** A remark among the lines written so far. */
  method Remark(journal: QueryJournal, message: string, ghost start: string, ghost before: seq<string>)
    requires journal.text == start + Unlines(before)
    modifies journal
    ensures journal.text == start + Unlines(before + [ANNOTATION + message])
  {
    journal.Annotate(message);
    UnlinesNext(start, before, ANNOTATION + message);
  }

  /** A block among the lines written so far. */
  method WriteBlock(journal: QueryJournal, title: string, block: seq<string>, ghost start: string, ghost before: seq<string>)
    requires journal.text == start + Unlines(before)
    modifies journal
    ensures journal.text == start + Unlines(before + RecordLines(title, block))
  {
    journal.Record(title, block);
    UnlinesMore(start, before, RecordLines(title, block));
  }

  method Announce(a: Announcement, journal: QueryJournal)
    modifies journal
    ensures journal.text == old(journal.text) + Unlines(Announced(a))
  {
    ghost var start := journal.text;
    ghost var lines := [];
    if a.exposed.Some? {
      Remark(journal, a.exposed.value, start, lines);
      lines := [] + [ANNOTATION + a.exposed.value];
    }
    AnnounceForks(a.forks, journal, start, lines);
    lines := lines + ForkLines(a.forks);
    Remark(journal, a.builders, start, lines);
    lines := lines + [ANNOTATION + a.builders];
    if a.origin.Some? {
      Remark(journal, a.origin.value, start, lines);
      lines := lines + [ANNOTATION + a.origin.value];
    }
    WriteBlock(journal, DDL, a.statements, start, lines);
    assert a.origin.None? ==> lines + [] == lines;
  }

  method AnnounceForks(forks: seq<Block>, journal: QueryJournal, ghost start: string, ghost before: seq<string>)
    requires journal.text == start + Unlines(before)
    modifies journal
    ensures journal.text == start + Unlines(before + ForkLines(forks))
  {
    assert before + ForkLines(forks[..0]) == before;
    for i := 0 to |forks|
      invariant journal.text == start + Unlines(before + ForkLines(forks[..i]))
    {
      WriteBlock(journal, forks[i].title, forks[i].tree, start, before + ForkLines(forks[..i]));
      ForkLinesNext(before, forks, i);
    }
    assert forks[..|forks|] == forks;
  }

  lemma ForkLinesNext(before: seq<string>, forks: seq<Block>, i: nat)
    requires i < |forks|
    ensures before + ForkLines(forks[..i + 1]) == (before + ForkLines(forks[..i])) + RecordLines(forks[i].title, forks[i].tree)
  {
    assert forks[..i + 1][..i] == forks[..i];
  }

  /** What the parent writes once both databases are up, before the first query. */
  method AnnounceCheck(a: Announcement, checked: string, schedule: Option<string>, journal: QueryJournal, ghost start: string)
    requires journal.text == start + Unlines(Announced(a))
    modifies journal
    ensures journal.text == start + Unlines(Preamble(a, checked, schedule))
  {
    Remark(journal, CheckRemark(checked), start, Announced(a));
    if schedule.Some? {
      Remark(journal, schedule.value, start, Announced(a) + [ANNOTATION + CheckRemark(checked)]);
    } else {
      assert Preamble(a, checked, schedule) == Announced(a) + [ANNOTATION + CheckRemark(checked)];
    }
  }

  /** Generation may fail; the worker may refuse the setup, hang or die in it; then the query phase.
      Whatever happens the parent returns an outcome. */
  method RunRound<T(==, !new)>(generationError: Option<string>, announcement: Announcement, worker: Worker<T>, equal: bool, checked: string,
                               setupError: Option<string>, exit: Exit, schedule: Option<string>, late: seq<bool>,
                               queries: seq<string>, sides: seq<Sides<T>>, exits: seq<Exit>, verdict: QueryComparison<T> -> string, journal: QueryJournal)
    returns (outcome: RoundOutcome<T>, ghost preamble: seq<string>, ghost items: seq<Item>)
    requires |exits| == |queries| == |sides| && |late| == |queries| + 1 && AllListed(sides)
    modifies journal, worker`replies
    ensures old(worker.replies) <= worker.replies && WellFormed(outcome, queries)
    ensures generationError.Some? ==> worker.replies == old(worker.replies) && outcome == RoundOutcome([], false, None, None, None, generationError, false)
    ensures generationError.None? ==> FromReplies(outcome, worker.replies[|old(worker.replies)|..], queries, worker.setupSeconds, worker.querySeconds)
    ensures generationError.None? && outcome.setupError.Some? ==> outcome.setupError == setupError
    ensures outcome.setupError.None? && outcome.setupCrash.None? ==> outcome.objectDiverged == !equal
    ensures Played(outcome, items, queries, sides, worker.close, schedule.Some?, late, verdict)
    ensures journal.text == old(journal.text) + Unlines(preamble) + WrittenText(items)
    ensures preamble ==
      if generationError.Some? then [ANNOTATION + ("NOT GENERATED: " + generationError.value)]
      else if outcome.setupError.Some? || outcome.setupCrash.Some?
      then Announced(announcement) + [ANNOTATION + SetupRemark(worker.replies[|old(worker.replies)|], worker.setupSeconds)]
      else Preamble(announcement, checked, schedule)
  {
    ghost var start := journal.text;
    if generationError.Some? {
      Remark(journal, NotGenerated(generationError.value), start, []);
      preamble := [ANNOTATION + NotGenerated(generationError.value)];
      items := [];
      return NoQueries(generationError, None, None), preamble, items;
    }
    outcome, preamble, items := BuiltRound(announcement, worker, equal, checked, setupError, exit, schedule, late, queries, sides, exits, verdict, journal);
  }

  /** The round once the equivalent was generated. */
  method BuiltRound<T(==, !new)>(announcement: Announcement, worker: Worker<T>, equal: bool, checked: string,
                                 setupError: Option<string>, exit: Exit, schedule: Option<string>, late: seq<bool>,
                                 queries: seq<string>, sides: seq<Sides<T>>, exits: seq<Exit>, verdict: QueryComparison<T> -> string, journal: QueryJournal)
    returns (outcome: RoundOutcome<T>, ghost preamble: seq<string>, ghost items: seq<Item>)
    requires |exits| == |queries| == |sides| && |late| == |queries| + 1 && AllListed(sides)
    modifies journal, worker`replies
    ensures old(worker.replies) <= worker.replies && WellFormed(outcome, queries)
    ensures FromReplies(outcome, worker.replies[|old(worker.replies)|..], queries, worker.setupSeconds, worker.querySeconds)
    ensures outcome.setupError.Some? ==> outcome.setupError == setupError
    ensures outcome.setupError.None? && outcome.setupCrash.None? ==> outcome.objectDiverged == !equal
    ensures Played(outcome, items, queries, sides, worker.close, schedule.Some?, late, verdict)
    ensures journal.text == old(journal.text) + Unlines(preamble) + WrittenText(items)
    ensures preamble == if outcome.setupError.Some? || outcome.setupCrash.Some?
      then Announced(announcement) + [ANNOTATION + SetupRemark(worker.replies[|old(worker.replies)|], worker.setupSeconds)]
      else Preamble(announcement, checked, schedule)
  {
    ghost var start, before := journal.text, worker.replies;
    Announce(announcement, journal);
    AnnouncedLast(start, announcement);
    var first := worker.Setup(equal, setupError, exit, announcement.statements, journal);
    if !first.Ready? {
      outcome, preamble := FailedSetup(first, worker, journal, start, Announced(announcement));
      items := [];
      FirstReply(before, first, worker.replies);
      assert worker.replies[|before|..] == [first];
    } else {
      outcome, items := ReadyRound(first, announcement, worker, checked, schedule, late, queries, sides, exits, verdict, journal, start, before);
      preamble := Preamble(announcement, checked, schedule);
    }
  }

  /** The round once both databases are up. */
  method ReadyRound<T(==, !new)>(first: Reply<T>, announcement: Announcement, worker: Worker<T>, checked: string, schedule: Option<string>, late: seq<bool>,
                                 queries: seq<string>, sides: seq<Sides<T>>, exits: seq<Exit>, verdict: QueryComparison<T> -> string, journal: QueryJournal,
                                 ghost start: string, ghost before: seq<Reply<T>>)
    returns (outcome: RoundOutcome<T>, ghost items: seq<Item>)
    requires |exits| == |queries| == |sides| && |late| == |queries| + 1 && AllListed(sides) && first.Ready?
    requires journal.text == start + Unlines(Announced(announcement)) && worker.replies == before + [first]
    modifies journal, worker`replies
    ensures before <= worker.replies && WellFormed(outcome, queries) && outcome.setupError.None? && outcome.setupCrash.None?
    ensures outcome.objectDiverged == !first.equal
    ensures worker.replies[|before|..] != [] && worker.replies[|before|] == first
    ensures FromReplies(outcome, worker.replies[|before|..], queries, worker.setupSeconds, worker.querySeconds)
    ensures Played(outcome, items, queries, sides, worker.close, schedule.Some?, late, verdict)
    ensures journal.text == start + Unlines(Preamble(announcement, checked, schedule)) + WrittenText(items)
  {
    AnnounceCheck(announcement, checked, schedule, journal, start);
    outcome, items := QueryPhase(first.equal, worker, queries, sides, exits, schedule.Some?, late, verdict, journal);
    FirstReply(before, first, worker.replies);
  }

  /** The results are judgements of the first queries in order, each logged, for as long as there was time. */
  ghost predicate Played<T(!new)>(o: RoundOutcome<T>, items: seq<Item>, queries: seq<string>, sides: seq<Sides<T>>, close: (T, T) -> bool,
                                  scheduled: bool, late: seq<bool>, verdict: QueryComparison<T> -> string)
    requires |queries| == |sides| && |late| == |queries| + 1
  {
    && Follows(queries, o.results, items, verdict)
    && |items| == |o.results| + (if o.crashedQuery.Some? then 1 else 0)
    && (forall i :: 0 <= i < |o.results| ==> Judges(o.results[i], queries[i], sides[i], close))
    && (o.setupError.None? && o.setupCrash.None? ==> InTime(|items|, |o.results|, |queries|, scheduled, late, o.crashedQuery.Some?, o.stoppedForBudget))
  }

  lemma FirstReply<T>(before: seq<Reply<T>>, first: Reply<T>, after: seq<Reply<T>>)
    requires before + [first] <= after
    ensures before <= after && after[|before|] == first && after[|before|..][1..] == after[|before| + 1..]
  {
    assert after[|before|] == (before + [first])[|before|];
  }

  function NotGenerated(error: string): string { "NOT GENERATED: " + error }

  method FailedSetup<T(==, !new)>(first: Reply<T>, worker: Worker<T>, journal: QueryJournal, ghost start: string, ghost before: seq<string>)
    returns (outcome: RoundOutcome<T>, ghost after: seq<string>)
    requires first.TimedOut? || first.PipeClosed? || first.SetupError?
    requires journal.text == start + Unlines(before)
    modifies journal
    ensures journal.text == start + Unlines(after) && after == before + [ANNOTATION + SetupRemark(first, worker.setupSeconds)]
    ensures FromReplies(outcome, [first], [], worker.setupSeconds, worker.querySeconds)
  {
    var message;
    outcome, message := SetupOutcome(first, worker.setupSeconds);
    Remark(journal, message, start, before);
    after := before + [ANNOTATION + message];
  }

  method QueryPhase<T(==, !new)>(equal: bool, worker: Worker<T>, queries: seq<string>, sides: seq<Sides<T>>, exits: seq<Exit>, scheduled: bool, late: seq<bool>,
                                 verdict: QueryComparison<T> -> string, journal: QueryJournal)
    returns (outcome: RoundOutcome<T>, ghost items: seq<Item>)
    requires |exits| == |queries| == |sides| && |late| == |queries| + 1 && AllListed(sides)
    modifies journal, worker`replies
    ensures old(worker.replies) <= worker.replies
    ensures WellFormed(outcome, queries) && outcome.setupError.None? && outcome.setupCrash.None? && outcome.objectDiverged == !equal
    ensures Told(worker.replies[|old(worker.replies)|..], queries, worker.querySeconds, outcome.results, outcome.crashedQuery, outcome.crashNote)
    ensures journal.text == old(journal.text) + WrittenText(items) && Played(outcome, items, queries, sides, worker.close, scheduled, late, verdict)
  {
    var results, crashed, note, stopped;
    results, crashed, note, stopped, items := QueryLoop(worker, queries, sides, exits, scheduled, late, verdict, journal);
    outcome := RoundOutcome(results, !equal, crashed, note, None, None, stopped);
  }

  /** What the log says of a setup that failed. */
  ghost function SetupRemark<T>(first: Reply<T>, seconds: string): string {
    match first
    case SetupError(error) => "WOULD NOT BUILD: " + error
    case TimedOut(_) => "CRASH: engine hung while building the equivalence (" + NoteFor(first, seconds).value + ")"
    case PipeClosed(_) => "CRASH: engine died while building the equivalence (" + NoteFor(first, seconds).value + ")"
    case _ => ""
  }

  /** A worker that refused the setup, hung or died in it. */
  method SetupOutcome<T(==, !new)>(first: Reply<T>, seconds: string) returns (outcome: RoundOutcome<T>, message: string)
    requires first.TimedOut? || first.PipeClosed? || first.SetupError?
    ensures FromReplies(outcome, [first], [], seconds, "")
    ensures message == SetupRemark(first, seconds)
  {
    match first {
      case TimedOut(exit) =>
        var note := TimeoutNote(seconds, CrashNote(exit));
        outcome, message := NoQueries(None, Some(note), Some(WhileBuilding(note))), "CRASH: engine hung while building the equivalence (" + note + ")";
      case PipeClosed(exit) =>
        var note := CrashNote(exit);
        outcome, message := NoQueries(None, Some(note), Some(WhileBuilding(note))), "CRASH: engine died while building the equivalence (" + note + ")";
      case SetupError(error) => outcome, message := NoQueries(Some(error), None, None), "WOULD NOT BUILD: " + error;
    }
  }

  // ---- what a log says about a round ------------------------------------------------------------------

  /** What a parsed log says about the stream: entries for the first queries in order, each but the
      last normalised and with the verdict of the answer it got, and the last as far as written. */
  ghost predicate Replays<T>(queries: seq<string>, results: seq<QueryComparison<T>>, items: seq<Item>, verdict: QueryComparison<T> -> string, es: seq<Entry>) {
    && |es| <= |items| <= |queries| && |es| <= |results| + 1
    && (forall i :: 0 <= i < |es| - 1 ==> es[i] == Entry(Normalised(queries[i]), Some(verdict(results[i]))))
    && (es != [] ==> CutOff(items[|es| - 1], es[|es| - 1]) && items[|es| - 1].sql == queries[|es| - 1])
  }

  lemma ShapeReplays<T>(queries: seq<string>, results: seq<QueryComparison<T>>, items: seq<Item>, verdict: QueryComparison<T> -> string, es: seq<Entry>)
    requires Follows(queries, results, items, verdict) && CutShape(items, es)
    ensures Replays(queries, results, items, verdict, es)
  {
  }

  /** A round that failed in its setup replays no query if and only if its one remark does not run on over
      lines that look like a query. */
  lemma FailedSetupReplays(a: Announcement, message: string)
    requires Tidy(a)
    ensures Parsed(SplitLines(Unlines(Announced(a)) + (ANNOTATION + (message + "\n")))) == [] <==> AllIgnored(Lines(message + "\n")[1..])
  {
    AnnouncedComments(a);
    RemarkHarmless(Announced(a), message);
  }

  /** REPLAY. Parsing the log of a round, cut after any line of its query phase, gives back the
      queries attempted up to there. */
  lemma RoundReplays<T>(preamble: seq<string>, queries: seq<string>, results: seq<QueryComparison<T>>, items: seq<Item>, verdict: QueryComparison<T> -> string, n: nat)
    requires Comments(preamble) && Follows(queries, results, items, verdict)
    requires (forall i :: 0 <= i < |items| ==> Recorded(items[i])) && n <= |WrittenLines(items)|
    ensures Replays(queries, results, items, verdict, Parsed(SplitLines(Unlines(preamble + WrittenLines(items)[..n]))))
  {
    RecoverCut(preamble, items, n);
    CutPrefix(items, n);
    ShapeReplays(queries, results, items, verdict, CutEntries(items, n));
  }

  /** The log of a finished round gives every query with its verdict, a crash being the verdict of the
      query after the last answer. */
  lemma RoundRecovered<T>(preamble: seq<string>, queries: seq<string>, results: seq<QueryComparison<T>>, items: seq<Item>, verdict: QueryComparison<T> -> string)
    requires Comments(preamble) && Follows(queries, results, items, verdict)
    requires forall i :: 0 <= i < |items| ==> Recorded(items[i])
    ensures
      var es := Parsed(SplitLines(Unlines(preamble) + WrittenText(items)));
      && |es| == |items|
      && (forall i :: 0 <= i < |es| ==> es[i].sql == Normalised(queries[i]))
      && forall i :: 0 <= i < |results| ==> es[i].annotation == Some(verdict(results[i]))
  {
    RecoverAll(preamble, items);
  }
}

/** One query on both sides, and what the outcome is called. */
module Comparing {
  import opened Bags
  import opened Oracle

  /** What one side did with a query: rows, or a failure, which may be one the engine was right to
      raise. T is the kind of row. */
  datatype QueryOutcome<T(==)> = Rows(rows: multiset<T>, keys: seq<T>) | Failure(error: string, known: Option<string>)

  datatype QueryComparison<T(==)> = QueryComparison(
    query: string,
    equal: bool,
    onlyInBase: multiset<T>,
    onlyInEquivalent: multiset<T>,
    baseError: Option<string>,
    equivalentError: Option<string>,
    equivalentKnownIssue: Option<string>,
    reconciled: nat)
  {
    predicate IsUncomparable() { baseError.Some? }

    predicate IsPass() { baseError.None? && equivalentError.None? && equal }

    predicate IsKnownIssue() { baseError.None? && equivalentKnownIssue.Some? }

    predicate IsError() { baseError.None? && equivalentError.Some? && equivalentKnownIssue.None? }

    predicate IsMismatch() { baseError.None? && equivalentError.None? && !equal }

    predicate IsReportable() { IsError() || IsMismatch() }
  }

  predicate Listed<T(==, !new)>(o: QueryOutcome<T>) {
    o.Rows? ==> Keys(o.keys, o.rows)
  }

  /** Of the five verdicts, how many apply. */
  function Verdicts<T>(c: QueryComparison<T>): nat {
    (if c.IsUncomparable() then 1 else 0) + (if c.IsPass() then 1 else 0) + (if c.IsKnownIssue() then 1 else 0)
      + (if c.IsError() then 1 else 0) + (if c.IsMismatch() then 1 else 0)
  }

  /** The verdict says exactly what happened: pass when both ran and their rows pair off, mismatch
      when both ran and a difference is left, and otherwise by who failed. */
  ghost predicate Describes<T(!new)>(c: QueryComparison<T>, base: QueryOutcome<T>, equivalent: QueryOutcome<T>, close: (T, T) -> bool) {
    && Verdicts(c) == 1
    && (c.IsUncomparable() <==> base.Failure?)
    && (c.IsKnownIssue() <==> base.Rows? && equivalent.Failure? && equivalent.known.Some?)
    && (c.IsError() <==> base.Rows? && equivalent.Failure? && equivalent.known.None?)
    && (c.IsPass() ==> base.Rows? && equivalent.Rows? && exists pairs :: Bijection(base.rows, equivalent.rows, close, pairs))
    && (c.IsMismatch() ==> base.Rows? && equivalent.Rows? && (c.onlyInBase != multiset{} || c.onlyInEquivalent != multiset{}))
    && (base.Rows? && equivalent.Rows? && base.rows == equivalent.rows ==> c.IsPass() && c.reconciled == 0)
    && (if base.Rows? && equivalent.Rows? then Differs(c, base.rows, equivalent.rows, close) else Refuses(c, base, equivalent))
  }

  /** Both sides answered: no error, and the rows reported of each side are what no pairing took away. */
  ghost predicate Differs<T(!new)>(c: QueryComparison<T>, base: multiset<T>, equivalent: multiset<T>, close: (T, T) -> bool) {
    && c.baseError.None? && c.equivalentError.None? && c.equivalentKnownIssue.None?
    && exists loose :: Explains(base, equivalent, close, MultisetDiff(c.equal, c.onlyInBase, c.onlyInEquivalent, c.reconciled), loose)
  }

  /** A side failed: each error is its own side's text, the known issue is the equivalent's, and no rows are
      reported. */
  ghost predicate Refuses<T>(c: QueryComparison<T>, base: QueryOutcome<T>, equivalent: QueryOutcome<T>) {
    && !c.equal && c.onlyInBase == multiset{} && c.onlyInEquivalent == multiset{} && c.reconciled == 0
    && (match base case Failure(e, _) => c.baseError == Some(e) case Rows(_, _) => c.baseError.None?)
    && (match equivalent
        case Failure(e, known) => c.equivalentError == Some(e) && c.equivalentKnownIssue == known
        case Rows(_, _) => c.equivalentError.None? && c.equivalentKnownIssue.None?)
  }

  function FromDiff<T(==)>(query: string, diff: MultisetDiff<T>): QueryComparison<T> {
    QueryComparison(query, diff.equal, diff.onlyInBase, diff.onlyInOther, None, None, None, diff.reconciled)
  }

  function FromFailure<T(==)>(query: string, base: QueryOutcome<T>, equivalent: QueryOutcome<T>): QueryComparison<T> {
    QueryComparison(query, false, multiset{}, multiset{},
      if base.Failure? then Some(base.error) else None,
      if equivalent.Failure? then Some(equivalent.error) else None,
      if equivalent.Failure? then equivalent.known else None, 0)
  }

  /** Each side gets its own attempt, so neither failure hides the other's. */
  method CompareOne<T(==, !new)>(query: string, base: QueryOutcome<T>, equivalent: QueryOutcome<T>, close: (T, T) -> bool)
    returns (c: QueryComparison<T>)
    requires Listed(base) && Listed(equivalent)
    ensures c.query == query && Describes(c, base, equivalent, close)
  {
    if base.Rows? && equivalent.Rows? {
      var diff := CompareMultisets(base.rows, equivalent.rows, base.keys, equivalent.keys, close);
      c := FromDiff(query, diff);
      RowsDescribed(query, base, equivalent, close, diff);
    } else {
      c := FromFailure(query, base, equivalent);
      FailureDescribed(query, base, equivalent, close);
    }
  }

  lemma RowsDescribed<T(!new)>(query: string, base: QueryOutcome<T>, equivalent: QueryOutcome<T>, close: (T, T) -> bool, diff: MultisetDiff<T>)
    requires base.Rows? && equivalent.Rows? && exists loose :: Explains(base.rows, equivalent.rows, close, diff, loose)
    ensures Describes(FromDiff(query, diff), base, equivalent, close)
  {
    Verdict(base.rows, equivalent.rows, close, diff);
    assert diff == MultisetDiff(diff.equal, diff.onlyInBase, diff.onlyInOther, diff.reconciled);
  }

  lemma FailureDescribed<T(!new)>(query: string, base: QueryOutcome<T>, equivalent: QueryOutcome<T>, close: (T, T) -> bool)
    requires base.Failure? || equivalent.Failure?
    ensures Describes(FromFailure(query, base, equivalent), base, equivalent, close)
  {
  }

  /** What the oracle's result means for the verdict. */
  lemma Verdict<T(!new)>(base: multiset<T>, other: multiset<T>, close: (T, T) -> bool, diff: MultisetDiff<T>)
    requires exists loose :: Explains(base, other, close, diff, loose)
    ensures diff.equal ==> exists pairs :: Bijection(base, other, close, pairs)
    ensures !diff.equal ==> diff.onlyInBase != multiset{} || diff.onlyInOther != multiset{}
    ensures base == other ==> diff.equal && diff.reconciled == 0
  {
    var loose :| Explains(base, other, close, diff, loose);
    VerdictSound(base, other, close, diff, loose);
    if base == other { SameBags(base, close, diff, loose); }
  }

  /** Under the driver's contract a known issue comes with an error; then the verdicts exclude each
      other and one always applies. Without it a result could be a pass and a known issue at once. */
  lemma OneVerdict<T>(c: QueryComparison<T>)
    ensures Verdicts(c) == 1 <==> !(c.baseError.None? && c.equivalentKnownIssue.Some? && c.equivalentError.None?)
  {
  }
}

/** SQL values and three-valued logic (ISO/IEC 9075:1992, section 8.12). */
module Values {
  import opened Bags
  import opened Expressions

  datatype Value = Null | Int(n: int) | Bool(b: bool) | Text(s: string)

  datatype Truth = True | False | Unknown

  type Row = seq<Value>

  /** A relation as a reader sees it: column names in order, and a bag of rows. */
  datatype Rel = Rel(cols: seq<string>, rows: multiset<Row>)

  const EMPTY_REL := Rel([], multiset{})

  // ---- truth --------------------------------------------------------------------------------

  function TruthOf(v: Value): Truth {
    if v == Bool(true) then True else if v == Bool(false) then False else Unknown
  }

  function OfTruth(t: Truth): Value {
    match t case True => Bool(true) case False => Bool(false) case Unknown => Null
  }

  function Not3(a: Truth): Truth {
    match a case True => False case False => True case Unknown => Unknown
  }

  function And3(a: Truth, b: Truth): Truth {
    if a == False || b == False then False
    else if a == True && b == True then True
    else Unknown
  }

  function Or3(a: Truth, b: Truth): Truth {
    Not3(And3(Not3(a), Not3(b)))
  }

  predicate IsTrue(v: Value) { v == Bool(true) }

  // ---- order and arithmetic -----------------------------------------------------------------

  function Rank(v: Value): nat {
    match v case Null => 0 case Bool(_) => 1 case Int(_) => 2 case Text(_) => 3
  }

  predicate TextLe(a: string, b: string) {
    a == [] || (b != [] && (a[0] < b[0] || (a[0] == b[0] && TextLe(a[1..], b[1..]))))
  }

  predicate ValueLe(a: Value, b: Value) {
    match (a, b)
    case (Bool(x), Bool(y)) => x ==> y
    case (Int(x), Int(y)) => x <= y
    case (Text(x), Text(y)) => TextLe(x, y)
    case _ => Rank(a) <= Rank(b)
  }

  function Compare(c: Comparator, a: Value, b: Value): Truth {
    if a == Null || b == Null then Unknown
    else
      var holds := match c
        case Eq => a == b
        case Ne => a != b
        case Lt => a != b && ValueLe(a, b)
        case Le => ValueLe(a, b)
        case Gt => a != b && ValueLe(b, a)
        case Ge => ValueLe(b, a);
      if holds then True else False
  }

  /** MOD with the sign of the dividend, as the engines that truncate compute it. */
  function TruncMod(a: int, m: int): int
    requires m > 0
  {
    if a >= 0 then a % m else -((-a) % m)
  }

  function ModValue(v: Value, m: int): Value {
    if v.Int? && m > 0 then Int(TruncMod(v.n, m)) else Null
  }

  // ---- aggregates over a list of values -----------------------------------------------------

  /** The largest value that is not NULL, or NULL when there is none. */
  function MaxOf(vs: seq<Value>): Value {
    if vs == [] then Null
    else
      var rest := MaxOf(vs[1..]);
      if vs[0] == Null || (rest != Null && ValueLe(vs[0], rest)) then rest else vs[0]
  }

  function MinOf(vs: seq<Value>): Value {
    if vs == [] then Null
    else
      var rest := MinOf(vs[1..]);
      if vs[0] == Null || (rest != Null && ValueLe(rest, vs[0])) then rest else vs[0]
  }

  /** When every value is the same, the extremum is that value, NULL included. */
  lemma {:induction false} ConstantExtremum(vs: seq<Value>, v: Value)
    requires vs != [] && forall i :: 0 <= i < |vs| ==> vs[i] == v
    ensures MaxOf(vs) == v && MinOf(vs) == v
  {
    assert vs[0] == v;
    if |vs| > 1 {
      ConstantExtremum(vs[1..], v);
    } else {
      assert vs[1..] == [];
    }
  }

  // ---- name lookup --------------------------------------------------------------------------

  /** The position of the first column called name, or |cols| when there is none. */
  function IndexOf(cols: seq<string>, name: string): (k: nat)
    ensures k <= |cols|
    ensures k < |cols| ==> cols[k] == name
    ensures forall j :: 0 <= j < k ==> cols[j] != name
  {
    if cols == [] || cols[0] == name then 0 else 1 + IndexOf(cols[1..], name)
  }

  function Lookup(cols: seq<string>, row: Row, name: string): Value {
    var k := IndexOf(cols, name);
    if k < |cols| && k < |row| then row[k] else Null
  }

  /** How a column reference is written, and so which scope column it names. */
  function ColumnSql(e: Expr): string
    requires e.ColumnRef?
  {
    if e.relation.Some? then e.relation.value + "." + e.name else e.name
  }

  predicate DistinctNames(cols: seq<string>) {
    forall i, j :: 0 <= i < j < |cols| ==> cols[i] != cols[j]
  }

  lemma LookupAt(cols: seq<string>, row: Row, k: nat)
    requires DistinctNames(cols) && k < |cols| == |row|
    ensures Lookup(cols, row, cols[k]) == row[k]
  {
    var j := IndexOf(cols, cols[k]);
    assert j <= k;
  }
}

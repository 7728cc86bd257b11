/**
 A reader for SQL conditions with PostgreSQL's operator precedence (section 4.1.6 of its manual), loosest
 first: OR, AND, NOT, IS, comparison, BETWEEN/IN/LIKE, other operators. It knows nothing of filters.
 */
module SqlReader {
  import opened Outcomes
  import opened SqlLexer

  datatype Tree =
    | Column(name: string)
    | Bound(index: nat)
    | Numeral(value: nat)
    | Truth
    | Call(fn: string, args: seq<Tree>)
    | Apply(op: string, left: Tree, right: Tree)
    | Matches(x: Tree, pattern: Tree, caseInsensitive: bool, negate: bool)
    | Among(x: Tree, items: seq<Tree>, negate: bool)
    | Ranges(x: Tree, lo: Tree, hi: Tree, negate: bool)
    | Null(x: Tree, negate: bool)
    | Negation(x: Tree)
    | Conjunction(left: Tree, right: Tree)
    | Disjunction(left: Tree, right: Tree)

  predicate Starts(t: Tok, ts: Toks) {
    ts != [] && ts[0] == t
  }

  predicate IsComparison(t: Tok) {
    t.Sym? && (t.text == "=" || t.text == "<>" || t.text == "<" || t.text == "<=" || t.text == ">" || t.text == ">=")
  }

  predicate IsOther(t: Tok) {
    t.Sym? && !IsComparison(t)
  }

  predicate IsReserved(up: string) {
    up == "AND" || up == "OR" || up == "NOT" || up == "IS" || up == "NULL" || up == "IN" || up == "LIKE" || up == "ILIKE" || up == "BETWEEN" || up == "TRUE"
  }

  const AND := Word("AND")
  const OR := Word("OR")
  const NOT := Word("NOT")
  const OPEN := Mark('(')
  const CLOSE := Mark(')')
  const COMMA := Mark(',')

  function Expect(t: Tok, ts: Toks): (r: Outcome<Toks>)
    ensures r.Done? ==> |r.value| < |ts|
  {
    if Starts(t, ts) then Done(ts[1..]) else Fail
  }

  // ---- OR and AND, both left-associative ----

  function ReadOr(ts: Toks): (r: Outcome<(Tree, Toks)>)
    ensures r.Done? ==> |r.value.1| < |ts|
    decreases |ts|, 8
  {
    var (left, rest) :- ReadAnd(ts);
    ReadOrTail(left, rest)
  }

  function ReadOrTail(left: Tree, ts: Toks): (r: Outcome<(Tree, Toks)>)
    ensures r.Done? ==> |r.value.1| <= |ts|
    decreases |ts|, 7
  {
    if Starts(OR, ts) then
      var (right, rest) :- ReadAnd(ts[1..]);
      ReadOrTail(Disjunction(left, right), rest)
    else Done((left, ts))
  }

  function ReadAnd(ts: Toks): (r: Outcome<(Tree, Toks)>)
    ensures r.Done? ==> |r.value.1| < |ts|
    decreases |ts|, 7
  {
    var (left, rest) :- ReadNot(ts);
    ReadAndTail(left, rest)
  }

  function ReadAndTail(left: Tree, ts: Toks): (r: Outcome<(Tree, Toks)>)
    ensures r.Done? ==> |r.value.1| <= |ts|
    decreases |ts|, 6
  {
    if Starts(AND, ts) then
      var (right, rest) :- ReadNot(ts[1..]);
      ReadAndTail(Conjunction(left, right), rest)
    else Done((left, ts))
  }

  // ---- NOT, IS, comparisons ----

  function ReadNot(ts: Toks): (r: Outcome<(Tree, Toks)>)
    ensures r.Done? ==> |r.value.1| < |ts|
    decreases |ts|, 6
  {
    if Starts(NOT, ts) then
      var (x, rest) :- ReadNot(ts[1..]);
      Done((Negation(x), rest))
    else ReadIs(ts)
  }

  function ReadIs(ts: Toks): (r: Outcome<(Tree, Toks)>)
    ensures r.Done? ==> |r.value.1| < |ts|
    decreases |ts|, 5
  {
    var (x, rest) :- ReadComparison(ts);
    IsEnd(x, rest)
  }

  function IsEnd(x: Tree, ts: Toks): (r: Outcome<(Tree, Toks)>)
    ensures r.Done? ==> |r.value.1| <= |ts|
  {
    if !Starts(Word("IS"), ts) then Done((x, ts))
    else
      var negate := Starts(NOT, ts[1..]);
      var rest :- Expect(Word("NULL"), if negate then ts[2..] else ts[1..]);
      Done((Null(x, negate), rest))
  }

  function ReadComparison(ts: Toks): (r: Outcome<(Tree, Toks)>)
    ensures r.Done? ==> |r.value.1| < |ts|
    decreases |ts|, 4
  {
    var (left, rest) :- ReadRange(ts);
    if rest != [] && IsComparison(rest[0]) then
      var (right, end) :- ReadRange(rest[1..]);
      Done((Apply(rest[0].text, left, right), end))
    else Done((left, rest))
  }

  // ---- LIKE, IN and BETWEEN ----

  function ReadRange(ts: Toks): (r: Outcome<(Tree, Toks)>)
    ensures r.Done? ==> |r.value.1| < |ts|
    decreases |ts|, 3
  {
    var (x, rest) :- ReadOther(ts);
    if Starts(NOT, rest) then ReadRangeTest(x, true, rest[1..])
    else if rest != [] && IsRangeWord(rest[0]) then ReadRangeTest(x, false, rest)
    else Done((x, rest))
  }

  predicate IsRangeWord(t: Tok) {
    t == Word("LIKE") || t == Word("ILIKE") || t == Word("IN") || t == Word("BETWEEN")
  }

  function ReadRangeTest(x: Tree, negate: bool, ts: Toks): (r: Outcome<(Tree, Toks)>)
    ensures r.Done? ==> |r.value.1| < |ts|
    decreases |ts|, 3
  {
    if Starts(Word("LIKE"), ts) || Starts(Word("ILIKE"), ts) then
      var (pattern, rest) :- ReadOther(ts[1..]);
      Done((Matches(x, pattern, ts[0] == Word("ILIKE"), negate), rest))
    else if Starts(Word("IN"), ts) then
      var list :- Expect(OPEN, ts[1..]);
      var (items, rest) :- ReadItems([], list);
      Done((Among(x, items, negate), rest))
    else if Starts(Word("BETWEEN"), ts) then
      var (lo, mid) :- ReadOther(ts[1..]);
      var tail :- Expect(AND, mid);
      var (hi, rest) :- ReadOther(tail);
      Done((Ranges(x, lo, hi, negate), rest))
    else Fail
  }

  /** Expressions separated by commas, up to the closing bracket. */
  function ReadItems(read: seq<Tree>, ts: Toks): (r: Outcome<(seq<Tree>, Toks)>)
    ensures r.Done? ==> |r.value.1| < |ts|
    decreases |ts|, 9
  {
    var (x, rest) :- ReadOr(ts);
    if Starts(COMMA, rest) then ReadItems(read + [x], rest[1..])
    else
      var end :- Expect(CLOSE, rest);
      Done((read + [x], end))
  }

  // ---- Other operators and operands ----

  function ReadOther(ts: Toks): (r: Outcome<(Tree, Toks)>)
    ensures r.Done? ==> |r.value.1| < |ts|
    decreases |ts|, 2
  {
    var (left, rest) :- ReadPrimary(ts);
    ReadOtherTail(left, rest)
  }

  function ReadOtherTail(left: Tree, ts: Toks): (r: Outcome<(Tree, Toks)>)
    ensures r.Done? ==> |r.value.1| <= |ts|
    decreases |ts|, 1
  {
    if ts != [] && IsOther(ts[0]) then
      var (right, rest) :- ReadPrimary(ts[1..]);
      ReadOtherTail(Apply(ts[0].text, left, right), rest)
    else Done((left, ts))
  }

  function ReadPrimary(ts: Toks): (r: Outcome<(Tree, Toks)>)
    ensures r.Done? ==> |r.value.1| < |ts|
    decreases |ts|, 1
  {
    if ts == [] then Fail
    else
      match ts[0]
      case Quoted(name) => Done((Column(name), ts[1..]))
      case Param(index) => Done((Bound(index), ts[1..]))
      case Number(value) => Done((Numeral(value), ts[1..]))
      case Word(up) =>
        if up == "TRUE" then Done((Truth, ts[1..]))
        else if IsReserved(up) then Fail
        else ReadCall(up, ts[1..])
      case Mark(_) => if ts[0] == OPEN then ReadBracketed(ts[1..]) else Fail
      case _ => Fail
  }

  function ReadCall(fn: string, ts: Toks): (r: Outcome<(Tree, Toks)>)
    ensures r.Done? ==> |r.value.1| < |ts|
    decreases |ts|, 10
  {
    var list :- Expect(OPEN, ts);
    var (args, rest) :- ReadItems([], list);
    Done((Call(fn, args), rest))
  }

  function ReadBracketed(ts: Toks): (r: Outcome<(Tree, Toks)>)
    ensures r.Done? ==> |r.value.1| < |ts|
    decreases |ts|, 9
  {
    var (x, rest) :- ReadOr(ts);
    var end :- Expect(CLOSE, rest);
    Done((x, end))
  }

  /** A whole condition. */
  function ReadCondition(text: string): Outcome<Tree> {
    var (x, rest) :- ReadOr(Lex(text));
    if rest == [] then Done(x) else Fail
  }

  // ---- From one level to the next ----

  // What may follow an operand, an operator expression and so on without becoming part of it.

  predicate EndsOther(z: Toks) {
    z == [] || !IsOther(z[0])
  }

  predicate EndsRange(z: Toks) {
    EndsOther(z) && (z == [] || (z[0] != NOT && !IsRangeWord(z[0])))
  }

  predicate EndsComparison(z: Toks) {
    EndsRange(z) && (z == [] || !IsComparison(z[0]))
  }

  predicate EndsIs(z: Toks) {
    EndsComparison(z) && (z == [] || z[0] != Word("IS"))
  }

  lemma OtherIs(ts: Toks, x: Tree, z: Toks)
    requires ReadPrimary(ts) == Done((x, z)) && EndsOther(z)
    ensures ReadOther(ts) == Done((x, z))
  {
    assert ReadOtherTail(x, z) == Done((x, z));
  }

  lemma RangeIs(ts: Toks, x: Tree, z: Toks)
    requires ReadOther(ts) == Done((x, z)) && EndsRange(z)
    ensures ReadRange(ts) == Done((x, z))
  {
  }

  lemma ComparisonIs(ts: Toks, x: Tree, z: Toks)
    requires ReadRange(ts) == Done((x, z)) && EndsComparison(z)
    ensures ReadComparison(ts) == Done((x, z))
  {
  }

  lemma IsIs(ts: Toks, x: Tree, z: Toks)
    requires ReadComparison(ts) == Done((x, z)) && EndsIs(z)
    ensures ReadIs(ts) == Done((x, z))
  {
  }

  lemma NotIs(ts: Toks, x: Tree, z: Toks)
    requires ReadIs(ts) == Done((x, z)) && !Starts(NOT, ts)
    ensures ReadNot(ts) == Done((x, z))
  {
  }

  /** An operand that nothing continues is a whole negation-level expression. */
  lemma PrimaryIsNot(ts: Toks, x: Tree, z: Toks)
    requires ReadPrimary(ts) == Done((x, z)) && EndsIs(z) && !Starts(NOT, ts)
    ensures ReadNot(ts) == Done((x, z))
  {
    OtherIs(ts, x, z);
    RangeIs(ts, x, z);
    ComparisonIs(ts, x, z);
    IsIs(ts, x, z);
    NotIs(ts, x, z);
  }

  lemma AndIs(ts: Toks, x: Tree, z: Toks)
    requires ReadNot(ts) == Done((x, z)) && !Starts(AND, z)
    ensures ReadAnd(ts) == Done((x, z))
  {
    assert ReadAndTail(x, z) == Done((x, z));
  }

  lemma OrIs(ts: Toks, x: Tree, z: Toks)
    requires ReadAnd(ts) == Done((x, z)) && !Starts(OR, z)
    ensures ReadOr(ts) == Done((x, z))
  {
    assert ReadOrTail(x, z) == Done((x, z));
  }
}

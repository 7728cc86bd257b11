/**
 The ECQL grammar as a function from token sequences to syntax trees. The head of a sequence is the
 parser's current token and the empty sequence is the end of input. Numerals are read by `num`, which
 is where the two engines differ.
 */
module CqlGrammar {
  import opened Outcomes
  import opened FilterAst
  import L = CqlLexer

  type Token = L.Token
  type Tokens = seq<L.Token>
  type NumeralReader = string -> Outcome<Float>

  function Peek(ts: Tokens): Token {
    if ts == [] then L.EOF else ts[0]
  }

  /** Moves to the next token; fails when the lexer reports an error there. */
  function Advance(ts: Tokens): (r: Outcome<Tokens>)
    requires ts != []
    ensures r.Done? ==> |r.value| == |ts| - 1
  {
    if Open(ts[1..]) then Done(ts[1..]) else Fail
  }

  // The lexer reports no error at the head of these tokens.
  predicate Open(ts: Tokens) {
    Peek(ts).kind != L.Bad
  }

  predicate IsPunct(t: Token, c: char) {
    t.kind == L.Punct && t.text == [c]
  }

  predicate IsWord(t: Token, up: string) {
    t.kind == L.Ident && t.up == up
  }

  predicate NotColon(c: char) {
    c != ':'
  }

  /** What stands behind the first colon of a name, or the name itself. */
  function StripPrefix(name: string): string {
    var i := L.Run(name, NotColon);
    if i < |name| then name[i + 1..] else name
  }

  /** Moves past a token with this text, whatever its kind. */
  function Expect(text: string, ts: Tokens): (r: Outcome<Tokens>)
    requires text != ""
    ensures r.Done? ==> |r.value| < |ts|
  {
    if ts == [] || ts[0].text != text then Fail else Advance(ts)
  }

  // ---- Values ----

  function ParseValue(num: NumeralReader, ts: Tokens): (r: Outcome<(Expr, Tokens)>)
    ensures r.Done? ==> |r.value.1| < |ts|
  {
    if ts == [] then Fail
    else
      match ts[0].kind
      case Str =>
        var rest :- Advance(ts);
        Done((Literal(Lit.Str(ts[0].text)), rest))
      case Number =>
        var f :- num(ts[0].text);
        var rest :- Advance(ts);
        Done((Literal(Num(f)), rest))
      case Ident =>
        var rest :- Advance(ts);
        if ts[0].up == "TRUE" || ts[0].up == "FALSE" then Done((Literal(Bool(ts[0].up == "TRUE")), rest))
        else Done((Property(StripPrefix(ts[0].text)), rest))
      case _ => Fail
  }

  function ParseNum(num: NumeralReader, ts: Tokens): (r: Outcome<(Float, Tokens)>)
    ensures r.Done? ==> |r.value.1| < |ts|
  {
    if ts == [] || ts[0].kind != L.Number then Fail
    else
      var f :- num(ts[0].text);
      var rest :- Advance(ts);
      Done((f, rest))
  }

  /** The values of an IN list of which `read` has been read, the current token being the bracket or comma before the next. */
  function ParseValues(num: NumeralReader, read: seq<Expr>, ts: Tokens): (r: Outcome<(seq<Expr>, Tokens)>)
    requires ts != []
    ensures r.Done? ==> |r.value.1| < |ts| && r.value.0 != []
    decreases |ts|
  {
    var ts1 :- Advance(ts);
    var (v, ts2) :- ParseValue(num, ts1);
    if IsPunct(Peek(ts2), ',') then ParseValues(num, read + [v], ts2) else Done((read + [v], ts2))
  }

  // ---- Predicates on a property ----

  function CompareOpOf(text: string): CompareOp {
    match text
    case "=" => Eq
    case "<>" => Ne
    case "<" => Lt
    case "<=" => Le
    case ">" => Gt
    case _ => Ge
  }

  function ParseLike(prop: Expr, negate: bool, ts: Tokens): (r: Outcome<(Expr, Tokens)>)
    requires ts != []
    ensures r.Done? ==> |r.value.1| < |ts|
  {
    var ts1 :- Advance(ts);
    if ts1 == [] || ts1[0].kind != L.Str then Fail
    else
      var rest :- Advance(ts1);
      Done((Like(prop, ts1[0].text, ts[0].up == "ILIKE", negate), rest))
  }

  function ParseIn(num: NumeralReader, prop: Expr, negate: bool, ts: Tokens): (r: Outcome<(Expr, Tokens)>)
    requires ts != []
    ensures r.Done? ==> |r.value.1| < |ts|
  {
    var ts1 :- Advance(ts);
    if !IsPunct(Peek(ts1), '(') then Fail
    else
      var (vs, ts2) :- ParseValues(num, [], ts1);
      InEnd(prop, vs, negate, ts2)
  }

  function InEnd(prop: Expr, vs: seq<Expr>, negate: bool, ts: Tokens): (r: Outcome<(Expr, Tokens)>)
    ensures r.Done? ==> |r.value.1| < |ts|
  {
    if !IsPunct(Peek(ts), ')') then Fail
    else
      var rest :- Advance(ts);
      Done((In(prop, vs, negate), rest))
  }

  function ParseBetween(num: NumeralReader, prop: Expr, negate: bool, ts: Tokens): (r: Outcome<(Expr, Tokens)>)
    requires ts != []
    ensures r.Done? ==> |r.value.1| < |ts|
  {
    var ts1 :- Advance(ts);
    var (lo, ts2) :- ParseValue(num, ts1);
    if !IsWord(Peek(ts2), "AND") then Fail
    else BetweenEnd(num, prop, lo, negate, ts2)
  }

  /** The upper bound, with the current token on the AND before it. */
  function BetweenEnd(num: NumeralReader, prop: Expr, lo: Expr, negate: bool, ts: Tokens): (r: Outcome<(Expr, Tokens)>)
    requires ts != []
    ensures r.Done? ==> |r.value.1| < |ts|
  {
    var ts1 :- Advance(ts);
    var (hi, rest) :- ParseValue(num, ts1);
    Done((Between(prop, lo, hi, negate), rest))
  }

  function ParseIs(prop: Expr, ts: Tokens): (r: Outcome<(Expr, Tokens)>)
    requires ts != []
    ensures r.Done? ==> |r.value.1| < |ts|
  {
    var ts1 :- Advance(ts);
    var negate := IsWord(Peek(ts1), "NOT");
    var ts2 :- if negate then Advance(ts1) else Done(ts1);
    if !IsWord(Peek(ts2), "NULL") then Fail
    else
      var rest :- Advance(ts2);
      Done((IsNull(prop, negate), rest))
  }

  /** What follows `property` and an optional NOT: the current token is the keyword. */
  function ParseKeyword(num: NumeralReader, prop: Expr, negate: bool, ts: Tokens): (r: Outcome<(Expr, Tokens)>)
    requires ts != []
    ensures r.Done? ==> |r.value.1| < |ts|
  {
    match ts[0].up
    case "LIKE" => ParseLike(prop, negate, ts)
    case "ILIKE" => ParseLike(prop, negate, ts)
    case "IN" => ParseIn(num, prop, negate, ts)
    case "BETWEEN" => ParseBetween(num, prop, negate, ts)
    case "IS" => if negate then Fail else ParseIs(prop, ts)
    case _ => Fail
  }

  function ParseComparison(num: NumeralReader, prop: Expr, ts: Tokens): (r: Outcome<(Expr, Tokens)>)
    requires ts != []
    ensures r.Done? ==> |r.value.1| < |ts|
  {
    var ts1 :- Advance(ts);
    var (v, rest) :- ParseValue(num, ts1);
    Done((Compare(CompareOpOf(ts[0].text), prop, v), rest))
  }

  function ParseNegated(num: NumeralReader, prop: Expr, ts: Tokens): (r: Outcome<(Expr, Tokens)>)
    requires ts != []
    ensures r.Done? ==> |r.value.1| < |ts|
  {
    var ts1 :- Advance(ts);
    if Peek(ts1).kind != L.Ident then Fail else ParseKeyword(num, prop, true, ts1)
  }

  function ParsePredicate(num: NumeralReader, ts: Tokens): (r: Outcome<(Expr, Tokens)>)
    requires ts != []
    ensures r.Done? ==> |r.value.1| < |ts|
  {
    var prop := Property(StripPrefix(ts[0].text));
    var ts1 :- Advance(ts);
    if Peek(ts1).kind == L.Op then ParseComparison(num, prop, ts1)
    else if Peek(ts1).kind != L.Ident then Fail
    else if ts1[0].up == "NOT" then ParseNegated(num, prop, ts1)
    else ParseKeyword(num, prop, false, ts1)
  }

  // ---- Spatial predicates ----

  function SpatialOpOf(up: string): Outcome<SpatialOp> {
    match up
    case "INTERSECTS" => Done(Intersects)
    case "WITHIN" => Done(Within)
    case "CONTAINS" => Done(Contains)
    case "DISJOINT" => Done(Disjoint)
    case "TOUCHES" => Done(Touches)
    case "CROSSES" => Done(Crosses)
    case "OVERLAPS" => Done(Overlaps)
    case "EQUALS" => Done(Equals)
    case _ => Fail
  }

  predicate IsGeometryWord(up: string) {
    || up == "POINT" || up == "LINESTRING" || up == "POLYGON" || up == "MULTIPOINT"
    || up == "MULTILINESTRING" || up == "MULTIPOLYGON" || up == "GEOMETRYCOLLECTION"
  }

  // What one token adds to geometry text, and the bracket depth and spacing behind it.
  datatype WktStep = WktStep(piece: string, depth: nat, first: bool)

  /** `first` says that no space is due before the next token. */
  function WktAdd(t: Token, depth: nat, first: bool): WktStep
    requires depth > 0
  {
    if IsPunct(t, '(') then WktStep("(", depth + 1, true)
    else if IsPunct(t, ')') then WktStep(")", depth - 1, first)
    else if IsPunct(t, ',') then WktStep(", ", depth, true)
    else WktStep((if first then "" else " ") + t.text, depth, false)
  }

  /** Collects the text of a geometry behind `read`, up to the bracket that brings the depth to zero. */
  function WktBody(ts: Tokens, depth: nat, first: bool, read: string): (r: Outcome<(string, Tokens)>)
    requires depth > 0
    ensures r.Done? ==> |r.value.1| < |ts|
    decreases |ts|
  {
    if ts == [] then Fail
    else
      var step := WktAdd(ts[0], depth, first);
      var ts1 :- Advance(ts);
      if step.depth == 0 then Done((read + step.piece, ts1))
      else WktBody(ts1, step.depth, step.first, read + step.piece)
  }

  function ParseWkt(ts: Tokens): (r: Outcome<(string, Tokens)>)
    ensures r.Done? ==> |r.value.1| < |ts|
  {
    if ts == [] || ts[0].kind != L.Ident || !IsGeometryWord(ts[0].up) then Fail
    else
      var ts1 :- Advance(ts);
      if !IsPunct(Peek(ts1), '(') then Fail
      else
        var ts2 :- Advance(ts1);
        WktBody(ts2, 1, true, ts[0].up + "(")
  }

  /** The keyword, an opening bracket and a property name: how every spatial predicate begins. */
  function ParseSubject(ts: Tokens): (r: Outcome<(string, Tokens)>)
    requires ts != []
    ensures r.Done? ==> |r.value.1| < |ts|
  {
    var ts1 :- Advance(ts);
    var ts2 :- Expect("(", ts1);
    if Peek(ts2).kind != L.Ident then Fail
    else
      var rest :- Advance(ts2);
      Done((StripPrefix(ts2[0].text), rest))
  }

  function ParseCommaNum(num: NumeralReader, ts: Tokens): (r: Outcome<(Float, Tokens)>)
    ensures r.Done? ==> |r.value.1| < |ts|
  {
    var ts1 :- Expect(",", ts);
    ParseNum(num, ts1)
  }

  /** `n` numbers more behind `read`, each behind a comma. */
  function ParseNums(num: NumeralReader, n: nat, read: seq<Float>, ts: Tokens): (r: Outcome<(seq<Float>, Tokens)>)
    ensures r.Done? ==> |r.value.0| == |read| + n && |r.value.1| <= |ts|
    decreases n, 1
  {
    if n == 0 then Done((read, ts)) else ParseMoreNums(num, n, read, ts)
  }

  function ParseMoreNums(num: NumeralReader, n: nat, read: seq<Float>, ts: Tokens): (r: Outcome<(seq<Float>, Tokens)>)
    requires n > 0
    ensures r.Done? ==> |r.value.0| == |read| + n && |r.value.1| <= |ts|
    decreases n, 0
  {
    var (f, ts1) :- ParseCommaNum(num, ts);
    ParseNums(num, n - 1, read + [f], ts1)
  }

  lemma NumsStep(num: NumeralReader, n: nat, read: seq<Float>, ts: Tokens)
    requires n > 0
    ensures ParseNums(num, n, read, ts) ==
            match ParseCommaNum(num, ts)
            case Fail => Fail
            case Done((f, rest)) => ParseNums(num, n - 1, read + [f], rest)
  {
  }

  lemma NumsEnd(num: NumeralReader, read: seq<Float>, ts: Tokens)
    ensures ParseNums(num, 0, read, ts) == Done((read, ts))
  {
  }

  function ParseSrs(ts: Tokens): (r: Outcome<(string, Tokens)>)
    ensures r.Done? ==> |r.value.1| <= |ts|
  {
    if IsPunct(Peek(ts), ',') then
      var ts1 :- Advance(ts);
      if Peek(ts1).kind != L.Str then Fail
      else
        var rest :- Advance(ts1);
        Done((ts1[0].text, rest))
    else Done(("", ts))
  }

  /** What follows the bounds: an optional SRS and the closing bracket. */
  function BBoxEnd(geom: string, b: seq<Float>, ts: Tokens): (r: Outcome<(Expr, Tokens)>)
    requires |b| == 4
    ensures r.Done? ==> |r.value.1| < |ts|
  {
    var (srs, ts1) :- ParseSrs(ts);
    var rest :- Expect(")", ts1);
    Done((BBox(geom, b[0], b[1], b[2], b[3], srs), rest))
  }

  function BBoxBounds(num: NumeralReader, geom: string, ts: Tokens): (r: Outcome<(Expr, Tokens)>)
    ensures r.Done? ==> |r.value.1| < |ts|
  {
    var (b, ts1) :- ParseNums(num, 4, [], ts);
    BBoxEnd(geom, b, ts1)
  }

  function ParseBBox(num: NumeralReader, ts: Tokens): (r: Outcome<(Expr, Tokens)>)
    requires ts != []
    ensures r.Done? ==> |r.value.1| < |ts|
  {
    var (geom, ts1) :- ParseSubject(ts);
    BBoxBounds(num, geom, ts1)
  }

  function ParseCommaWkt(ts: Tokens): (r: Outcome<(string, Tokens)>)
    ensures r.Done? ==> |r.value.1| < |ts|
  {
    var ts1 :- Expect(",", ts);
    ParseWkt(ts1)
  }

  function SpatialEnd(rel: SpatialOp, geom: string, ts: Tokens): (r: Outcome<(Expr, Tokens)>)
    ensures r.Done? ==> |r.value.1| < |ts|
  {
    var (wkt, ts1) :- ParseCommaWkt(ts);
    var rest :- Expect(")", ts1);
    Done((Spatial(rel, geom, wkt), rest))
  }

  function ParseSpatial(rel: SpatialOp, ts: Tokens): (r: Outcome<(Expr, Tokens)>)
    requires ts != []
    ensures r.Done? ==> |r.value.1| < |ts|
  {
    var (geom, ts1) :- ParseSubject(ts);
    SpatialEnd(rel, geom, ts1)
  }

  /** What follows the distance: its units and the closing bracket. */
  function DWithinEnd(geom: string, wkt: string, distance: Float, beyond: bool, ts: Tokens): (r: Outcome<(Expr, Tokens)>)
    ensures r.Done? ==> |r.value.1| < |ts|
  {
    var ts1 :- Expect(",", ts);
    if Peek(ts1).kind != L.Ident then Fail
    else
      var ts2 :- Advance(ts1);
      var rest :- Expect(")", ts2);
      Done((DWithin(geom, wkt, distance, ts1[0].text, beyond), rest))
  }

  function DWithinDistance(num: NumeralReader, geom: string, wkt: string, beyond: bool, ts: Tokens): (r: Outcome<(Expr, Tokens)>)
    ensures r.Done? ==> |r.value.1| < |ts|
  {
    var (distance, ts1) :- ParseCommaNum(num, ts);
    DWithinEnd(geom, wkt, distance, beyond, ts1)
  }

  function DWithinGeometry(num: NumeralReader, geom: string, beyond: bool, ts: Tokens): (r: Outcome<(Expr, Tokens)>)
    ensures r.Done? ==> |r.value.1| < |ts|
  {
    var (wkt, ts1) :- ParseCommaWkt(ts);
    DWithinDistance(num, geom, wkt, beyond, ts1)
  }

  function ParseDWithin(num: NumeralReader, beyond: bool, ts: Tokens): (r: Outcome<(Expr, Tokens)>)
    requires ts != []
    ensures r.Done? ==> |r.value.1| < |ts|
  {
    var (geom, ts1) :- ParseSubject(ts);
    DWithinGeometry(num, geom, beyond, ts1)
  }

  // ---- Logical structure ----

  // What the first identifier of an atom announces.
  datatype AtomKind = Everything | Nothing | Box | Relation(rel: SpatialOp) | Distance(beyond: bool) | OnProperty

  function AtomKindOf(up: string): AtomKind {
    if up == "INCLUDE" then Everything
    else if up == "EXCLUDE" then Nothing
    else if up == "BBOX" then Box
    else if SpatialOpOf(up).Done? then Relation(SpatialOpOf(up).value)
    else if up == "DWITHIN" || up == "BEYOND" then Distance(up == "BEYOND")
    else OnProperty
  }

  /** Everything an operand can be except a negation or a bracketed filter. */
  function ParseAtom(num: NumeralReader, ts: Tokens): (r: Outcome<(Expr, Tokens)>)
    requires ts != []
    ensures r.Done? ==> |r.value.1| < |ts|
  {
    if ts[0].kind != L.Ident then Fail
    else
      match AtomKindOf(ts[0].up)
      case Everything =>
        var rest :- Advance(ts);
        Done((IncludeAll, rest))
      case Nothing =>
        var rest :- Advance(ts);
        Done((Not(IncludeAll), rest))
      case Box => ParseBBox(num, ts)
      case Relation(rel) => ParseSpatial(rel, ts)
      case Distance(beyond) => ParseDWithin(num, beyond, ts)
      case OnProperty => ParsePredicate(num, ts)
  }

  /** A chain of operands joined by `op`: disjunctions of conjunctions of unary operands. */
  function ParseChain(num: NumeralReader, op: LogicOp, ts: Tokens): (r: Outcome<(Expr, Tokens)>)
    ensures r.Done? ==> |r.value.1| < |ts|
    decreases |ts|, if op.Or? then 5 else 3
  {
    var (first, rest) :- ParseOperand(num, op, ts);
    ParseTail(num, op, first, rest)
  }

  function ParseOperand(num: NumeralReader, op: LogicOp, ts: Tokens): (r: Outcome<(Expr, Tokens)>)
    ensures r.Done? ==> |r.value.1| < |ts|
    decreases |ts|, if op.Or? then 4 else 2
  {
    match op
    case Or => ParseChain(num, And, ts)
    case And => ParseUnary(num, ts)
  }

  /** The rest of a chain whose operands so far make up `left`. */
  function ParseTail(num: NumeralReader, op: LogicOp, left: Expr, ts: Tokens): (r: Outcome<(Expr, Tokens)>)
    ensures r.Done? ==> |r.value.1| <= |ts|
    decreases |ts|, 0
  {
    if IsWord(Peek(ts), Connective(op)) then
      var ts1 :- Advance(ts);
      var (right, ts2) :- ParseOperand(num, op, ts1);
      ParseTail(num, op, Logic(op, [left, right]), ts2)
    else Done((left, ts))
  }

  function ParseUnary(num: NumeralReader, ts: Tokens): (r: Outcome<(Expr, Tokens)>)
    ensures r.Done? ==> |r.value.1| < |ts|
    decreases |ts|, 1
  {
    if IsWord(Peek(ts), "NOT") then
      var ts1 :- Advance(ts);
      var (e, rest) :- ParseUnary(num, ts1);
      Done((Not(e), rest))
    else ParsePrimary(num, ts)
  }

  function ParsePrimary(num: NumeralReader, ts: Tokens): (r: Outcome<(Expr, Tokens)>)
    ensures r.Done? ==> |r.value.1| < |ts|
    decreases |ts|, 0
  {
    if ts == [] then Fail
    else if IsPunct(ts[0], '(') then
      var ts1 :- Advance(ts);
      var (e, ts2) :- ParseChain(num, Or, ts1);
      if !IsPunct(Peek(ts2), ')') then Fail
      else
        var rest :- Advance(ts2);
        Done((e, rest))
    else ParseAtom(num, ts)
  }

  /** A whole filter: every token lexes, and the chain uses up all of them. */
  function ParseTokens(num: NumeralReader, ts: Tokens): Outcome<Expr> {
    if !L.Clean(ts) then Fail
    else
      var (e, rest) :- ParseChain(num, Or, ts);
      if rest == [] then Done(e) else Fail
  }

  function ParseCql(num: NumeralReader, s: string): Outcome<Expr> {
    ParseTokens(num, L.Stream(s))
  }

  lemma NothingFails(num: NumeralReader)
    ensures ParseChain(num, Or, []).Fail?
  {
    assert ParseUnary(num, []).Fail?;
    assert ParseChain(num, And, []).Fail?;
  }
}

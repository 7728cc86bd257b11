/**
 A canonical printer for parsed filters, with brackets only where the grammar needs them, and the proof
 that parsing undoes printing.
 */
module CqlPrinter {
  import opened Outcomes
  import opened FilterAst
  import opened CqlGrammar
  import opened CqlShape
  import Compose = CqlCompose
  import L = CqlLexer

  type NumeralPrinter = Float -> string

  const OPEN := L.PunctToken('(')
  const CLOSE := L.PunctToken(')')
  const COMMA := L.PunctToken(',')

  // ---- Tokens of each construct, in front of `z` ----

  // The prefix keeps a property that is spelled like a keyword apart from the keyword.
  function PropertyToken(name: string): Token {
    L.IdentToken("p:" + name)
  }

  function ValueToken(show: NumeralPrinter, v: Expr): Token
    requires v.Literal? || v.Property?
  {
    match v
    case Property(name) => PropertyToken(name)
    case Literal(Str(text)) => L.Token(L.Str, text, "")
    case Literal(Num(f)) => L.Token(L.Number, show(f), "")
    case Literal(Bool(b)) => L.IdentToken(if b then "TRUE" else "FALSE")
  }

  function NumberToken(show: NumeralPrinter, f: Float): Token {
    L.Token(L.Number, show(f), "")
  }

  function WordOnto(word: string, z: Tokens): Tokens {
    [L.IdentToken(word)] + z
  }

  function ValuesOnto(show: NumeralPrinter, vs: seq<Expr>, z: Tokens): Tokens
    requires vs != [] && AllShaped(vs)
  {
    [ValueToken(show, vs[0])] + if |vs| == 1 then z else [COMMA] + ValuesOnto(show, vs[1..], z)
  }

  function NumsOnto(show: NumeralPrinter, fs: seq<Float>, z: Tokens): Tokens {
    if fs == [] then z else [COMMA] + ([NumberToken(show, fs[0])] + NumsOnto(show, fs[1..], z))
  }

  function SubjectOnto(keyword: string, geom: string, z: Tokens): Tokens {
    WordOnto(keyword, [OPEN] + ([PropertyToken(geom)] + z))
  }

  function NotOnto(negate: bool, z: Tokens): Tokens {
    if negate then WordOnto("NOT", z) else z
  }

  /** The tokens of a filter that is neither a negation nor a connective. */
  function AtomOnto(show: NumeralPrinter, e: Expr, z: Tokens): Tokens
    requires Shaped(e) && !e.Logic? && !e.Not?
  {
    match e
    case Compare(op, left, right) =>
      [PropertyToken(left.name)] + ([L.Token(L.Op, CompareText(op), "")] + ([ValueToken(show, right)] + z))
    case Like(prop, pattern, ci, negate) =>
      [PropertyToken(prop.name)] +
      NotOnto(negate, WordOnto(if ci then "ILIKE" else "LIKE", [L.Token(L.Str, pattern, "")] + z))
    case In(prop, values, negate) =>
      [PropertyToken(prop.name)] +
      NotOnto(negate, WordOnto("IN", [OPEN] + ValuesOnto(show, values, [CLOSE] + z)))
    case Between(prop, lo, hi, negate) =>
      [PropertyToken(prop.name)] +
      NotOnto(negate, WordOnto("BETWEEN", [ValueToken(show, lo)] + WordOnto("AND", [ValueToken(show, hi)] + z)))
    case IsNull(prop, negate) =>
      [PropertyToken(prop.name)] + WordOnto("IS", NotOnto(negate, WordOnto("NULL", z)))
    case BBox(geom, minX, minY, maxX, maxY, srs) =>
      SubjectOnto("BBOX", geom, NumsOnto(show, [minX, minY, maxX, maxY], SrsOnto(srs, [CLOSE] + z)))
    case Spatial(rel, geom, wkt) =>
      SubjectOnto(SpatialWord(rel), geom, [COMMA] + (L.Stream(wkt) + ([CLOSE] + z)))
    case DWithin(geom, wkt, distance, units, beyond) =>
      SubjectOnto(if beyond then "BEYOND" else "DWITHIN", geom,
        [COMMA] + (L.Stream(wkt) + NumsOnto(show, [distance], [COMMA] + WordOnto(units, [CLOSE] + z))))
    case IncludeAll => WordOnto("INCLUDE", z)
  }

  function SrsOnto(srs: string, z: Tokens): Tokens {
    if srs == "" then z else [COMMA] + ([L.Token(L.Str, srs, "")] + z)
  }

  // ---- Logical structure ----

  // What may stand somewhere without brackets: anything, anything but OR, or an operand of NOT and AND.
  datatype Level = Disjunction | Conjunction | Operand

  function ChainLevel(op: LogicOp): Level {
    if op.Or? then Disjunction else Conjunction
  }

  function OperandLevel(op: LogicOp): Level {
    if op.Or? then Conjunction else Operand
  }

  predicate Fits(op: LogicOp, level: Level) {
    level.Disjunction? || (level.Conjunction? && op.And?)
  }

  /** The tokens of `e` followed by `z`, bracketed when `level` does not admit its connective. */
  function PrintOnto(show: NumeralPrinter, e: Expr, level: Level, z: Tokens): Tokens
    requires Shaped(e)
    decreases e
  {
    if e.Logic? then
      var z1 := if Fits(e.op, level) then z else [CLOSE] + z;
      var right := PrintOnto(show, e.exprs[1], OperandLevel(e.op), z1);
      var both := PrintOnto(show, e.exprs[0], ChainLevel(e.op), WordOnto(Connective(e.op), right));
      if Fits(e.op, level) then both else [OPEN] + both
    else if e.Not? then WordOnto("NOT", PrintOnto(show, e.expr, Operand, z))
    else AtomOnto(show, e, z)
  }

  function Print(show: NumeralPrinter, e: Expr): string
    requires Shaped(e)
  {
    L.Render(PrintOnto(show, e, Disjunction, []))
  }

  // ---- What can be printed ----

  // `num` reads what `show` prints for this number.
  predicate Shown(num: NumeralReader, show: NumeralPrinter, f: Float) {
    L.IsNumberText(show(f)) && num(show(f)) == Done(f)
  }

  /** Geometry text that the parser, given its tokens, collects unchanged. */
  predicate StableWkt(wkt: string) {
    L.Clean(L.Stream(wkt)) && ParseWkt(L.Stream(wkt)) == Done((wkt, []))
  }

  predicate PrintableValue(num: NumeralReader, show: NumeralPrinter, v: Expr) {
    v.Literal? && v.lit.Num? ==> Shown(num, show, v.lit.number)
  }

  predicate PrintableValues(num: NumeralReader, show: NumeralPrinter, vs: seq<Expr>) {
    forall i | 0 <= i < |vs| :: PrintableValue(num, show, vs[i])
  }

  predicate PrintableNums(num: NumeralReader, show: NumeralPrinter, fs: seq<Float>) {
    forall i | 0 <= i < |fs| :: Shown(num, show, fs[i])
  }

  predicate Printable(num: NumeralReader, show: NumeralPrinter, e: Expr) {
    match e
    case Compare(_, _, right) => PrintableValue(num, show, right)
    case Logic(_, es) => forall i | 0 <= i < |es| :: Printable(num, show, es[i])
    case Not(x) => Printable(num, show, x)
    case In(_, values, _) => PrintableValues(num, show, values)
    case Between(_, lo, hi, _) => PrintableValue(num, show, lo) && PrintableValue(num, show, hi)
    case BBox(_, minX, minY, maxX, maxY, _) => PrintableNums(num, show, [minX, minY, maxX, maxY])
    case Spatial(_, _, wkt) => StableWkt(wkt)
    case DWithin(_, wkt, distance, _, _) => StableWkt(wkt) && Shown(num, show, distance)
    case _ => true
  }

  // ---- Reading each construct back ----

  lemma AdvanceOnto(t: Token, z: Tokens)
    requires Open(z)
    ensures Advance([t] + z) == Done(z) && Peek([t] + z) == t
  {
    assert ([t] + z)[1..] == z;
  }

  lemma UpperOfKeyword(word: string)
    requires forall i | 0 <= i < |word| :: !('a' <= word[i] <= 'z')
    ensures L.Upper(word) == word
  {
  }

  lemma PropertyIsNoKeyword(name: string)
    ensures var t := PropertyToken(name);
            t.up[1] == ':' && StripPrefix(t.text) == name
  {
    var text := "p:" + name;
    L.RunIs(text, c => c != ':', 1);
    assert text[2..] == name;
  }

  lemma PropertyReads(num: NumeralReader, name: string, z: Tokens)
    requires Open(z)
    ensures ParseValue(num, [PropertyToken(name)] + z) == Done((Property(name), z))
  {
    AdvanceOnto(PropertyToken(name), z);
    PropertyIsNoKeyword(name);
    assert "TRUE"[1] == 'R' && "FALSE"[1] == 'A';
  }

  lemma FlagReads(num: NumeralReader, flag: bool, z: Tokens)
    requires Open(z)
    ensures ParseValue(num, [L.IdentToken(if flag then "TRUE" else "FALSE")] + z) == Done((Literal(Bool(flag)), z))
  {
    AdvanceOnto(L.IdentToken(if flag then "TRUE" else "FALSE"), z);
    UpperOfKeyword(if flag then "TRUE" else "FALSE");
  }

  lemma ValueReads(num: NumeralReader, show: NumeralPrinter, v: Expr, z: Tokens)
    requires ShapedValue(v) && PrintableValue(num, show, v) && Open(z)
    ensures ParseValue(num, [ValueToken(show, v)] + z) == Done((v, z))
    ensures ValueToken(show, v).kind != L.Bad
  {
    if v.Property? {
      PropertyReads(num, v.name, z);
    } else if v.lit.Bool? {
      FlagReads(num, v.lit.flag, z);
    } else {
      AdvanceOnto(ValueToken(show, v), z);
    }
  }

  lemma ValuesReadOne(num: NumeralReader, show: NumeralPrinter, t: Token, read: seq<Expr>, v: Expr, more: Tokens)
    requires ShapedValue(v) && PrintableValue(num, show, v) && Open(more)
    ensures var all := [ValueToken(show, v)] + more;
            && Open(all)
            && ParseValues(num, read, [t] + all) ==
               if IsPunct(Peek(more), ',') then ParseValues(num, read + [v], more) else Done((read + [v], more))
  {
    ValueReads(num, show, v, more);
    AdvanceOnto(t, [ValueToken(show, v)] + more);
  }

  lemma Regroup<T>(read: seq<T>, xs: seq<T>)
    requires xs != []
    ensures read + xs == read + [xs[0]] + xs[1..]
  {
  }

  lemma {:induction false} ValuesRead(num: NumeralReader, show: NumeralPrinter, t: Token, read: seq<Expr>, vs: seq<Expr>, z: Tokens)
    requires vs != [] && AllShaped(vs) && PrintableValues(num, show, vs) && IsPunct(Peek(z), ')')
    ensures ParseValues(num, read, [t] + ValuesOnto(show, vs, z)) == Done((read + vs, z))
    ensures Open(ValuesOnto(show, vs, z))
    decreases |vs|
  {
    var v := vs[0];
    if |vs| == 1 {
      ValuesReadOne(num, show, t, read, v, z);
      assert vs == [v];
      assert ValuesOnto(show, vs, z) == [ValueToken(show, v)] + z;
    } else {
      var more := [COMMA] + ValuesOnto(show, vs[1..], z);
      ValuesReadOne(num, show, t, read, v, more);
      ValuesRead(num, show, COMMA, read + [v], vs[1..], z);
      Regroup(read, vs);
      assert ValuesOnto(show, vs, z) == [ValueToken(show, v)] + more;
    }
  }

  lemma NumsReadOne(num: NumeralReader, show: NumeralPrinter, n: nat, read: seq<Float>, f: Float, more: Tokens)
    requires n > 0 && Shown(num, show, f) && Open(more)
    ensures var all := [COMMA] + ([NumberToken(show, f)] + more);
            Open(all) && ParseNums(num, n, read, all) == ParseNums(num, n - 1, read + [f], more)
  {
    AdvanceOnto(NumberToken(show, f), more);
    AdvanceOnto(COMMA, [NumberToken(show, f)] + more);
  }

  lemma {:induction false} NumsRead(num: NumeralReader, show: NumeralPrinter, read: seq<Float>, fs: seq<Float>, z: Tokens)
    requires PrintableNums(num, show, fs) && Open(z)
    ensures ParseNums(num, |fs|, read, NumsOnto(show, fs, z)) == Done((read + fs, z))
    ensures Open(NumsOnto(show, fs, z))
    decreases |fs|
  {
    if fs == [] {
      assert read + fs == read;
    } else {
      NumsRead(num, show, read + [fs[0]], fs[1..], z);
      NumsReadOne(num, show, |fs|, read, fs[0], NumsOnto(show, fs[1..], z));
      Regroup(read, fs);
    }
  }

  lemma SubjectReads(keyword: string, geom: string, z: Tokens)
    requires Open(z)
    ensures ParseSubject(SubjectOnto(keyword, geom, z)) == Done((geom, z))
  {
    var z1 := [PropertyToken(geom)] + z;
    AdvanceOnto(PropertyToken(geom), z);
    AdvanceOnto(OPEN, z1);
    AdvanceOnto(L.IdentToken(keyword), [OPEN] + z1);
    PropertyIsNoKeyword(geom);
  }

  lemma WktReads(wkt: string, z: Tokens)
    requires StableWkt(wkt) && Open(z)
    ensures ParseWkt(L.Stream(wkt) + z) == Done((wkt, z))
    ensures L.Stream(wkt) != [] && L.Stream(wkt)[0].kind == L.Ident
  {
    Compose.WktCarries(L.Stream(wkt), z);
    assert [] + z == z;
  }

  // ---- Atoms ----

  /** A filter that starts with a printed property is read as a predicate on it. */
  lemma PropertyStartsPredicate(num: NumeralReader, name: string, z: Tokens)
    ensures ParseAtom(num, [PropertyToken(name)] + z) == ParsePredicate(num, [PropertyToken(name)] + z)
    ensures !IsWord(PropertyToken(name), "NOT")
  {
    PropertyIsNoKeyword(name);
    ColonIsNoKeyword(PropertyToken(name).up);
  }

  lemma ColonIsNoKeyword(up: string)
    requires |up| > 1 && up[1] == ':'
    ensures AtomKindOf(up) == OnProperty && up != "NOT"
  {
  }

  lemma WordReads(word: string, z: Tokens)
    requires Open(z) && forall i | 0 <= i < |word| :: !('a' <= word[i] <= 'z')
    ensures var ts := WordOnto(word, z);
            Advance(ts) == Done(z) && Open(ts) && Peek(ts).kind == L.Ident && Peek(ts).up == word && ts != []
  {
    UpperOfKeyword(word);
    AdvanceOnto(L.IdentToken(word), z);
  }

  lemma CompareReads(num: NumeralReader, show: NumeralPrinter, e: Expr, z: Tokens)
    requires e.Compare? && Shaped(e) && Printable(num, show, e) && Open(z)
    ensures ParsePredicate(num, AtomOnto(show, e, z)) == Done((e, z))
  {
    var name := e.left.name;
    PropertyIsNoKeyword(name);
    ValueReads(num, show, e.right, z);
    var z1 := [ValueToken(show, e.right)] + z;
    var op := L.Token(L.Op, CompareText(e.cmp), "");
    AdvanceOnto(op, z1);
    assert ParseComparison(num, e.left, [op] + z1) == Done((e, z));
    AdvanceOnto(PropertyToken(name), [op] + z1);
  }

  /** A property, perhaps NOT, and a keyword with what belongs to it. */
  lemma KeywordReads(num: NumeralReader, name: string, negate: bool, word: string, z: Tokens)
    requires Open(z) && word != "NOT" && forall i | 0 <= i < |word| :: !('a' <= word[i] <= 'z')
    ensures ParsePredicate(num, [PropertyToken(name)] + NotOnto(negate, WordOnto(word, z))) ==
            ParseKeyword(num, Property(name), negate, WordOnto(word, z))
  {
    PropertyIsNoKeyword(name);
    WordReads(word, z);
    WordReads("NOT", WordOnto(word, z));
    AdvanceOnto(PropertyToken(name), NotOnto(negate, WordOnto(word, z)));
  }

  lemma LikeReads(num: NumeralReader, show: NumeralPrinter, e: Expr, z: Tokens)
    requires e.Like? && Shaped(e) && Open(z)
    ensures ParsePredicate(num, AtomOnto(show, e, z)) == Done((e, z))
  {
    var pattern := L.Token(L.Str, e.pattern, "");
    AdvanceOnto(pattern, z);
    var word := if e.caseInsensitive then "ILIKE" else "LIKE";
    WordReads(word, [pattern] + z);
    KeywordReads(num, e.prop.name, e.negate, word, [pattern] + z);
    assert ParseLike(e.prop, e.negate, WordOnto(word, [pattern] + z)) == Done((e, z));
  }

  lemma InReads(num: NumeralReader, show: NumeralPrinter, e: Expr, z: Tokens)
    requires e.In? && Shaped(e) && Printable(num, show, e) && Open(z)
    ensures ParsePredicate(num, AtomOnto(show, e, z)) == Done((e, z))
  {
    AdvanceOnto(CLOSE, z);
    var end := [CLOSE] + z;
    assert InEnd(e.prop, e.values, e.negate, end) == Done((e, z));
    var list := [OPEN] + ValuesOnto(show, e.values, end);
    ValuesRead(num, show, OPEN, [], e.values, end);
    assert [] + e.values == e.values;
    AdvanceOnto(OPEN, ValuesOnto(show, e.values, end));
    WordReads("IN", list);
    KeywordReads(num, e.prop.name, e.negate, "IN", list);
    assert ParseIn(num, e.prop, e.negate, WordOnto("IN", list)) == Done((e, z));
  }

  lemma UpperBoundReads(num: NumeralReader, show: NumeralPrinter, prop: Expr, lo: Expr, hi: Expr, negate: bool, z: Tokens)
    requires ShapedValue(hi) && PrintableValue(num, show, hi) && Open(z)
    ensures var ts := WordOnto("AND", [ValueToken(show, hi)] + z);
            Open(ts) && IsWord(Peek(ts), "AND") && BetweenEnd(num, prop, lo, negate, ts) == Done((Between(prop, lo, hi, negate), z))
  {
    var upper := [ValueToken(show, hi)] + z;
    ValueReads(num, show, hi, z);
    AdvanceOnto(ValueToken(show, hi), z);
    WordReads("AND", upper);
  }

  lemma BetweenReads(num: NumeralReader, show: NumeralPrinter, e: Expr, z: Tokens)
    requires e.Between? && Shaped(e) && Printable(num, show, e) && Open(z)
    ensures ParsePredicate(num, AtomOnto(show, e, z)) == Done((e, z))
  {
    var tail := WordOnto("AND", [ValueToken(show, e.hi)] + z);
    var both := [ValueToken(show, e.lo)] + tail;
    UpperBoundReads(num, show, e.prop, e.lo, e.hi, e.negate, z);
    ValueReads(num, show, e.lo, tail);
    AdvanceOnto(ValueToken(show, e.lo), tail);
    WordReads("BETWEEN", both);
    KeywordReads(num, e.prop.name, e.negate, "BETWEEN", both);
    assert ParseBetween(num, e.prop, e.negate, WordOnto("BETWEEN", both)) == Done((e, z));
  }

  lemma IsNullReads(num: NumeralReader, show: NumeralPrinter, e: Expr, z: Tokens)
    requires e.IsNull? && Shaped(e) && Open(z)
    ensures ParsePredicate(num, AtomOnto(show, e, z)) == Done((e, z))
  {
    WordReads("NULL", z);
    WordReads("NOT", WordOnto("NULL", z));
    var rest := NotOnto(e.negate, WordOnto("NULL", z));
    WordReads("IS", rest);
    KeywordReads(num, e.prop.name, false, "IS", rest);
    assert ParseIs(e.prop, WordOnto("IS", rest)) == Done((e, z));
  }

  /** A keyword other than NOT starts an atom. */
  lemma WordStartsAtom(num: NumeralReader, ts: Tokens)
    requires ts != [] && ts[0].kind == L.Ident && ts[0].up != "NOT"
    ensures ParseUnary(num, ts) == ParseAtom(num, ts)
  {
    assert ParsePrimary(num, ts) == ParseAtom(num, ts);
  }

  // A keyword that starts an atom of this kind and is its own upper case.
  predicate Announces(word: string, kind: AtomKind) {
    L.Upper(word) == word && word != "NOT" && AtomKindOf(word) == kind
  }

  lemma SubjectStartsAtom(num: NumeralReader, word: string, kind: AtomKind, geom: string, z: Tokens)
    requires Announces(word, kind)
    ensures var ts := SubjectOnto(word, geom, z);
            ts != [] && ts[0].kind == L.Ident && ts[0].up == word && Open(ts) && ParseUnary(num, ts) == ParseAtom(num, ts)
  {
    WordStartsAtom(num, SubjectOnto(word, geom, z));
  }

  lemma BBoxReads(num: NumeralReader, show: NumeralPrinter, e: Expr, word: string, z: Tokens)
    requires e.BBox? && Shaped(e) && Printable(num, show, e) && Open(z) && Announces(word, Box)
    ensures var ts := SubjectOnto(word, e.geom, NumsOnto(show, [e.minX, e.minY, e.maxX, e.maxY], SrsOnto(e.srs, [CLOSE] + z)));
            ParseUnary(num, ts) == Done((e, z)) && Open(ts)
  {
    AdvanceOnto(CLOSE, z);
    var end := [CLOSE] + z;
    var srs := L.Token(L.Str, e.srs, "");
    AdvanceOnto(srs, end);
    AdvanceOnto(COMMA, [srs] + end);
    var tail := SrsOnto(e.srs, end);
    assert ParseSrs(tail) == Done((e.srs, end));
    var b := [e.minX, e.minY, e.maxX, e.maxY];
    assert BBoxEnd(e.geom, b, tail) == Done((e, z));
    NumsRead(num, show, [], b, tail);
    assert [] + b == b;
    assert BBoxBounds(num, e.geom, NumsOnto(show, b, tail)) == Done((e, z));
    SubjectReads(word, e.geom, NumsOnto(show, b, tail));
    SubjectStartsAtom(num, word, Box, e.geom, NumsOnto(show, b, tail));
  }

  lemma CommaWktReads(wkt: string, z: Tokens)
    requires StableWkt(wkt) && Open(z)
    ensures ParseCommaWkt([COMMA] + (L.Stream(wkt) + z)) == Done((wkt, z))
  {
    WktReads(wkt, z);
    AdvanceOnto(COMMA, L.Stream(wkt) + z);
  }

  lemma SpatialReads(num: NumeralReader, e: Expr, word: string, z: Tokens)
    requires e.Spatial? && StableWkt(e.wkt) && Open(z) && Announces(word, Relation(e.rel))
    ensures var ts := SubjectOnto(word, e.geom, [COMMA] + (L.Stream(e.wkt) + ([CLOSE] + z)));
            ParseUnary(num, ts) == Done((e, z)) && Open(ts)
  {
    AdvanceOnto(CLOSE, z);
    var tail := [COMMA] + (L.Stream(e.wkt) + ([CLOSE] + z));
    CommaWktReads(e.wkt, [CLOSE] + z);
    assert SpatialEnd(e.rel, e.geom, tail) == Done((e, z));
    SubjectReads(word, e.geom, tail);
    SubjectStartsAtom(num, word, Relation(e.rel), e.geom, tail);
  }

  lemma DistanceReads(num: NumeralReader, show: NumeralPrinter, e: Expr, z: Tokens)
    requires e.DWithin? && Shaped(e) && Printable(num, show, e) && Open(z)
    ensures var ts := NumsOnto(show, [e.distance], [COMMA] + WordOnto(e.units, [CLOSE] + z));
            DWithinDistance(num, e.geom, e.wkt, e.beyond, ts) == Done((e, z)) && Open(ts)
  {
    AdvanceOnto(CLOSE, z);
    var end := WordOnto(e.units, [CLOSE] + z);
    AdvanceOnto(L.IdentToken(e.units), [CLOSE] + z);
    AdvanceOnto(COMMA, end);
    var tail := [COMMA] + end;
    assert DWithinEnd(e.geom, e.wkt, e.distance, e.beyond, tail) == Done((e, z));
    var t := NumberToken(show, e.distance);
    assert NumsOnto(show, [e.distance], tail) == [COMMA] + ([t] + tail);
    AdvanceOnto(t, tail);
    AdvanceOnto(COMMA, [t] + tail);
  }

  lemma DWithinReads(num: NumeralReader, show: NumeralPrinter, e: Expr, word: string, z: Tokens)
    requires e.DWithin? && Shaped(e) && Printable(num, show, e) && Open(z) && Announces(word, Distance(e.beyond))
    ensures var distance := NumsOnto(show, [e.distance], [COMMA] + WordOnto(e.units, [CLOSE] + z));
            var ts := SubjectOnto(word, e.geom, [COMMA] + (L.Stream(e.wkt) + distance));
            ParseUnary(num, ts) == Done((e, z)) && Open(ts)
  {
    DistanceReads(num, show, e, z);
    var distance := NumsOnto(show, [e.distance], [COMMA] + WordOnto(e.units, [CLOSE] + z));
    CommaWktReads(e.wkt, distance);
    var tail := [COMMA] + (L.Stream(e.wkt) + distance);
    assert DWithinGeometry(num, e.geom, e.beyond, tail) == Done((e, z));
    SubjectReads(word, e.geom, tail);
    SubjectStartsAtom(num, word, Distance(e.beyond), e.geom, tail);
  }

  lemma BoxAnnounced()
    ensures Announces("BBOX", Box)
  {
    UpperOfKeyword("BBOX");
  }

  lemma RelationAnnounced(rel: SpatialOp)
    ensures Announces(SpatialWord(rel), Relation(rel))
  {
    UpperOfKeyword(SpatialWord(rel));
  }

  lemma DistanceAnnounced()
    ensures Announces("DWITHIN", Distance(false)) && Announces("BEYOND", Distance(true))
  {
    UpperOfKeyword("DWITHIN");
    UpperOfKeyword("BEYOND");
  }

  predicate IsOnProperty(e: Expr) {
    e.Compare? || e.Like? || e.In? || e.Between? || e.IsNull?
  }

  lemma PredicateReads(num: NumeralReader, show: NumeralPrinter, e: Expr, z: Tokens)
    requires Shaped(e) && IsOnProperty(e) && Printable(num, show, e) && Open(z)
    ensures ParsePredicate(num, AtomOnto(show, e, z)) == Done((e, z))
  {
    match e {
      case Compare(_, _, _) => CompareReads(num, show, e, z);
      case Like(_, _, _, _) => LikeReads(num, show, e, z);
      case In(_, _, _) => InReads(num, show, e, z);
      case Between(_, _, _, _) => BetweenReads(num, show, e, z);
      case IsNull(_, _) => IsNullReads(num, show, e, z);
    }
  }

  function SubjectName(e: Expr): string
    requires Shaped(e) && IsOnProperty(e)
  {
    if e.Compare? then e.left.name else e.prop.name
  }

  lemma PropertyAtomReads(num: NumeralReader, show: NumeralPrinter, e: Expr, z: Tokens)
    requires Shaped(e) && IsOnProperty(e) && Printable(num, show, e) && Open(z)
    ensures ParseUnary(num, AtomOnto(show, e, z)) == Done((e, z))
    ensures Open(AtomOnto(show, e, z))
  {
    var ts := AtomOnto(show, e, z);
    PredicateReads(num, show, e, z);
    assert ts == [PropertyToken(SubjectName(e))] + ts[1..];
    PropertyStartsPredicate(num, SubjectName(e), ts[1..]);
    assert ParsePrimary(num, ts) == ParseAtom(num, ts);
  }

  /** Every printed atom is read back, and what follows it is left. */
  lemma AtomReads(num: NumeralReader, show: NumeralPrinter, e: Expr, z: Tokens)
    requires Shaped(e) && !e.Logic? && !e.Not? && Printable(num, show, e) && Open(z)
    ensures ParseUnary(num, AtomOnto(show, e, z)) == Done((e, z))
    ensures Open(AtomOnto(show, e, z))
  {
    if IsOnProperty(e) {
      PropertyAtomReads(num, show, e, z);
    } else if e.IncludeAll? {
      WordReads("INCLUDE", z);
      assert ParsePrimary(num, AtomOnto(show, e, z)) == Done((e, z));
    } else if e.BBox? {
      BoxAnnounced();
      BBoxReads(num, show, e, "BBOX", z);
    } else if e.Spatial? {
      RelationAnnounced(e.rel);
      SpatialReads(num, e, SpatialWord(e.rel), z);
    } else {
      DistanceAnnounced();
      DWithinReads(num, show, e, if e.beyond then "BEYOND" else "DWITHIN", z);
    }
  }

  // ---- Logical structure ----

  // Where `e` stands in the chain of calls that lead to its own connective.
  ghost function Rank(e: Expr, level: Level): nat {
    match level
    case Disjunction => if e.Logic? && e.op.Or? then 0 else 2
    case Conjunction => if e.Logic? && e.op.And? then 0 else if e.Logic? then 5 else 1
    case Operand => if !e.Logic? then 0 else if e.op.Or? then 4 else 3
  }

  /** A printed chain is read up to where the text behind it goes on. */
  lemma {:induction false} ChainReads(num: NumeralReader, show: NumeralPrinter, op: LogicOp, e: Expr, z: Tokens)
    requires Shaped(e) && Printable(num, show, e) && Open(z)
    requires op.Or? ==> !IsWord(Peek(z), "AND")
    ensures ParseChain(num, op, PrintOnto(show, e, ChainLevel(op), z)) == ParseTail(num, op, e, z)
    ensures Open(PrintOnto(show, e, ChainLevel(op), z))
    decreases e, Rank(e, ChainLevel(op)), 0
  {
    if e.Logic? && e.op == op {
      var right := PrintOnto(show, e.exprs[1], OperandLevel(op), z);
      OperandReads(num, show, op, e.exprs[1], z);
      WordReads(Connective(op), right);
      ChainReads(num, show, op, e.exprs[0], WordOnto(Connective(op), right));
      assert e.exprs == [e.exprs[0], e.exprs[1]];
    } else {
      assert PrintOnto(show, e, ChainLevel(op), z) == PrintOnto(show, e, OperandLevel(op), z);
      OperandReads(num, show, op, e, z);
    }
  }

  lemma {:induction false} OperandReads(num: NumeralReader, show: NumeralPrinter, op: LogicOp, e: Expr, z: Tokens)
    requires Shaped(e) && Printable(num, show, e) && Open(z)
    requires op.Or? ==> !IsWord(Peek(z), "AND")
    ensures ParseOperand(num, op, PrintOnto(show, e, OperandLevel(op), z)) == Done((e, z))
    ensures Open(PrintOnto(show, e, OperandLevel(op), z))
    decreases e, Rank(e, OperandLevel(op)), 1
  {
    if op.Or? {
      ChainReads(num, show, And, e, z);
    } else {
      UnaryReads(num, show, e, z);
    }
  }

  lemma {:induction false} UnaryReads(num: NumeralReader, show: NumeralPrinter, e: Expr, z: Tokens)
    requires Shaped(e) && Printable(num, show, e) && Open(z)
    ensures ParseUnary(num, PrintOnto(show, e, Operand, z)) == Done((e, z))
    ensures Open(PrintOnto(show, e, Operand, z))
    decreases e, Rank(e, Operand), 0
  {
    if e.Logic? {
      var inner := PrintOnto(show, e, Disjunction, [CLOSE] + z);
      AdvanceOnto(CLOSE, z);
      ChainReads(num, show, Or, e, [CLOSE] + z);
      AdvanceOnto(OPEN, inner);
    } else if e.Not? {
      UnaryReads(num, show, e.expr, z);
      WordReads("NOT", PrintOnto(show, e.expr, Operand, z));
    } else {
      AtomReads(num, show, e, z);
    }
  }

  // ---- The printed tokens are tokens ----

  // Tokens that rendering and lexing keep.
  ghost predicate Sound(ts: Tokens) {
    L.AllLexical(ts) && L.Clean(ts)
  }

  predicate SoundToken(t: Token) {
    L.Lexical(t) && t.kind != L.Bad
  }

  lemma SoundOnto(t: Token, z: Tokens)
    requires SoundToken(t) && Sound(z)
    ensures Sound([t] + z)
  {
  }

  lemma SoundConcat(ts: Tokens, z: Tokens)
    requires Sound(ts) && Sound(z)
    ensures Sound(ts + z)
  {
  }

  predicate IsKeywordText(word: string) {
    word != "" && forall i | 0 <= i < |word| :: 'A' <= word[i] <= 'Z'
  }

  lemma SoundWord(word: string, z: Tokens)
    requires IsKeywordText(word) && Sound(z)
    ensures Sound(WordOnto(word, z))
  {
    SoundOnto(L.IdentToken(word), z);
  }

  lemma SoundProperty(name: string)
    requires IsNameText(name)
    ensures SoundToken(PropertyToken(name))
  {
    var text := "p:" + name;
    assert forall i | 0 <= i < |name| :: text[i + 2] == name[i];
  }

  lemma SoundValue(num: NumeralReader, show: NumeralPrinter, v: Expr)
    requires ShapedValue(v) && PrintableValue(num, show, v)
    ensures SoundToken(ValueToken(show, v))
  {
    if v.Property? {
      SoundProperty(v.name);
    }
  }

  lemma {:induction false} SoundValues(num: NumeralReader, show: NumeralPrinter, vs: seq<Expr>, z: Tokens)
    requires vs != [] && AllShaped(vs) && PrintableValues(num, show, vs) && Sound(z)
    ensures Sound(ValuesOnto(show, vs, z))
    decreases |vs|
  {
    SoundValue(num, show, vs[0]);
    if |vs| == 1 {
      SoundOnto(ValueToken(show, vs[0]), z);
    } else {
      SoundValues(num, show, vs[1..], z);
      SoundOnto(COMMA, ValuesOnto(show, vs[1..], z));
      SoundOnto(ValueToken(show, vs[0]), [COMMA] + ValuesOnto(show, vs[1..], z));
    }
  }

  lemma {:induction false} SoundNums(num: NumeralReader, show: NumeralPrinter, fs: seq<Float>, z: Tokens)
    requires PrintableNums(num, show, fs) && Sound(z)
    ensures Sound(NumsOnto(show, fs, z))
    decreases |fs|
  {
    if fs != [] {
      var more := NumsOnto(show, fs[1..], z);
      SoundNums(num, show, fs[1..], z);
      SoundOnto(NumberToken(show, fs[0]), more);
      SoundOnto(COMMA, [NumberToken(show, fs[0])] + more);
    }
  }

  lemma SoundNot(negate: bool, z: Tokens)
    requires Sound(z)
    ensures Sound(NotOnto(negate, z))
  {
    SoundWord("NOT", z);
  }

  lemma SoundSubject(keyword: string, geom: string, z: Tokens)
    requires IsKeywordText(keyword) && IsNameText(geom) && Sound(z)
    ensures Sound(SubjectOnto(keyword, geom, z))
  {
    SoundProperty(geom);
    SoundOnto(PropertyToken(geom), z);
    SoundOnto(OPEN, [PropertyToken(geom)] + z);
    SoundWord(keyword, [OPEN] + ([PropertyToken(geom)] + z));
  }

  lemma SoundWkt(wkt: string, z: Tokens)
    requires StableWkt(wkt) && Sound(z)
    ensures Sound([COMMA] + (L.Stream(wkt) + z))
  {
    L.StreamLexical(wkt);
    SoundConcat(L.Stream(wkt), z);
    SoundOnto(COMMA, L.Stream(wkt) + z);
  }

  lemma SoundPropertyAtom(num: NumeralReader, show: NumeralPrinter, e: Expr, z: Tokens)
    requires Shaped(e) && IsOnProperty(e) && Printable(num, show, e) && Sound(z)
    ensures Sound(AtomOnto(show, e, z))
  {
    SoundProperty(SubjectName(e));
    match e {
      case Compare(op, _, right) =>
        SoundValue(num, show, right);
        var z1 := [ValueToken(show, right)] + z;
        SoundOnto(ValueToken(show, right), z);
        SoundOnto(L.Token(L.Op, CompareText(op), ""), z1);
        SoundOnto(PropertyToken(SubjectName(e)), [L.Token(L.Op, CompareText(op), "")] + z1);
      case Like(_, pattern, ci, negate) =>
        SoundOnto(L.Token(L.Str, pattern, ""), z);
        var word := if ci then "ILIKE" else "LIKE";
        SoundWord(word, [L.Token(L.Str, pattern, "")] + z);
        SoundNot(negate, WordOnto(word, [L.Token(L.Str, pattern, "")] + z));
        SoundOnto(PropertyToken(SubjectName(e)), NotOnto(negate, WordOnto(word, [L.Token(L.Str, pattern, "")] + z)));
      case In(_, values, negate) =>
        SoundOnto(CLOSE, z);
        SoundValues(num, show, values, [CLOSE] + z);
        var list := [OPEN] + ValuesOnto(show, values, [CLOSE] + z);
        SoundOnto(OPEN, ValuesOnto(show, values, [CLOSE] + z));
        SoundWord("IN", list);
        SoundNot(negate, WordOnto("IN", list));
        SoundOnto(PropertyToken(SubjectName(e)), NotOnto(negate, WordOnto("IN", list)));
      case Between(_, lo, hi, negate) =>
        SoundValue(num, show, lo);
        SoundValue(num, show, hi);
        SoundOnto(ValueToken(show, hi), z);
        var upper := WordOnto("AND", [ValueToken(show, hi)] + z);
        SoundWord("AND", [ValueToken(show, hi)] + z);
        SoundOnto(ValueToken(show, lo), upper);
        SoundWord("BETWEEN", [ValueToken(show, lo)] + upper);
        SoundNot(negate, WordOnto("BETWEEN", [ValueToken(show, lo)] + upper));
        SoundOnto(PropertyToken(SubjectName(e)), NotOnto(negate, WordOnto("BETWEEN", [ValueToken(show, lo)] + upper)));
      case IsNull(_, negate) =>
        SoundWord("NULL", z);
        SoundNot(negate, WordOnto("NULL", z));
        SoundWord("IS", NotOnto(negate, WordOnto("NULL", z)));
        SoundOnto(PropertyToken(SubjectName(e)), WordOnto("IS", NotOnto(negate, WordOnto("NULL", z))));
    }
  }

  lemma SoundBBox(num: NumeralReader, show: NumeralPrinter, e: Expr, z: Tokens)
    requires e.BBox? && Shaped(e) && Printable(num, show, e) && Sound(z)
    ensures Sound(AtomOnto(show, e, z))
  {
    SoundOnto(CLOSE, z);
    var srs := L.Token(L.Str, e.srs, "");
    SoundOnto(srs, [CLOSE] + z);
    SoundOnto(COMMA, [srs] + ([CLOSE] + z));
    var b := [e.minX, e.minY, e.maxX, e.maxY];
    SoundNums(num, show, b, SrsOnto(e.srs, [CLOSE] + z));
    SoundSubject("BBOX", e.geom, NumsOnto(show, b, SrsOnto(e.srs, [CLOSE] + z)));
  }

  lemma SoundDWithin(num: NumeralReader, show: NumeralPrinter, e: Expr, z: Tokens)
    requires e.DWithin? && Shaped(e) && Printable(num, show, e) && Sound(z)
    ensures Sound(AtomOnto(show, e, z))
  {
    SoundOnto(CLOSE, z);
    var end := WordOnto(e.units, [CLOSE] + z);
    SoundOnto(L.IdentToken(e.units), [CLOSE] + z);
    SoundOnto(COMMA, end);
    var distance := NumsOnto(show, [e.distance], [COMMA] + end);
    SoundNums(num, show, [e.distance], [COMMA] + end);
    SoundWkt(e.wkt, distance);
    SoundSubject(if e.beyond then "BEYOND" else "DWITHIN", e.geom, [COMMA] + (L.Stream(e.wkt) + distance));
  }

  lemma SpatialWordIsKeyword(rel: SpatialOp)
    ensures IsKeywordText(SpatialWord(rel))
  {
  }

  lemma SoundSpatial(num: NumeralReader, show: NumeralPrinter, e: Expr, z: Tokens)
    requires e.Spatial? && Shaped(e) && Printable(num, show, e) && Sound(z)
    ensures Sound(AtomOnto(show, e, z))
  {
    SoundOnto(CLOSE, z);
    SoundWkt(e.wkt, [CLOSE] + z);
    var word := SpatialWord(e.rel);
    SpatialWordIsKeyword(e.rel);
    SoundSubject(word, e.geom, [COMMA] + (L.Stream(e.wkt) + ([CLOSE] + z)));
  }

  lemma SoundAtom(num: NumeralReader, show: NumeralPrinter, e: Expr, z: Tokens)
    requires Shaped(e) && !e.Logic? && !e.Not? && Printable(num, show, e) && Sound(z)
    ensures Sound(AtomOnto(show, e, z))
  {
    if IsOnProperty(e) {
      SoundPropertyAtom(num, show, e, z);
    } else if e.BBox? {
      SoundBBox(num, show, e, z);
    } else if e.Spatial? {
      SoundSpatial(num, show, e, z);
    } else if e.DWithin? {
      SoundDWithin(num, show, e, z);
    } else {
      SoundWord("INCLUDE", z);
    }
  }

  lemma {:induction false} SoundPrint(num: NumeralReader, show: NumeralPrinter, e: Expr, level: Level, z: Tokens)
    requires Shaped(e) && Printable(num, show, e) && Sound(z)
    ensures Sound(PrintOnto(show, e, level, z))
    decreases e
  {
    if e.Logic? {
      SoundOnto(CLOSE, z);
      var z1 := if Fits(e.op, level) then z else [CLOSE] + z;
      SoundPrint(num, show, e.exprs[1], OperandLevel(e.op), z1);
      var right := PrintOnto(show, e.exprs[1], OperandLevel(e.op), z1);
      SoundWord(Connective(e.op), right);
      SoundPrint(num, show, e.exprs[0], ChainLevel(e.op), WordOnto(Connective(e.op), right));
      SoundOnto(OPEN, PrintOnto(show, e.exprs[0], ChainLevel(e.op), WordOnto(Connective(e.op), right)));
    } else if e.Not? {
      SoundPrint(num, show, e.expr, Operand, z);
      SoundWord("NOT", PrintOnto(show, e.expr, Operand, z));
    } else {
      SoundAtom(num, show, e, z);
    }
  }

  /** Parsing undoes printing. */
  lemma ParseOfPrint(num: NumeralReader, show: NumeralPrinter, e: Expr)
    requires Shaped(e) && Printable(num, show, e)
    ensures ParseCql(num, Print(show, e)) == Done(e)
  {
    SoundPrint(num, show, e, Disjunction, []);
    L.StreamOfRender(PrintOnto(show, e, Disjunction, []));
    ChainReads(num, show, Or, e, []);
  }

  // ---- Geometry text ----

  predicate StringFree(ts: Tokens) {
    forall i | 0 <= i < |ts| :: ts[i].kind != L.Str
  }

  lemma TextLexes(t: Token, z: string)
    requires SoundToken(t) && (t.kind == L.Ident || t.kind == L.Number || t.kind == L.Op) && L.Delimited(z)
    ensures L.Stream(t.text + z) == [t] + L.Stream(z)
  {
    match t.kind {
      case Ident => L.StreamIdent(t.text, z);
      case Number => L.StreamNumber(t.text, z);
      case Op => L.StreamOperator(t.text, z);
    }
  }

  lemma CommaLexes(z: string)
    ensures L.Stream(", " + z) == [COMMA] + L.Stream(z)
  {
    L.StreamSpace(z);
    L.StreamPunct(',', " " + z);
    assert ", " + z == "," + (" " + z);
  }

  /** What one token adds to geometry text lexes back to the token. */
  lemma PieceLexes(t: Token, depth: nat, first: bool, z: string)
    requires SoundToken(t) && t.kind != L.Str && depth > 0
    requires t.kind == L.Punct || L.Delimited(z)
    ensures L.Stream(WktAdd(t, depth, first).piece + z) == [t] + L.Stream(z)
  {
    if IsPunct(t, ',') {
      CommaLexes(z);
    } else if t.kind == L.Punct {
      L.StreamPunct(t.text[0], z);
    } else {
      TextLexes(t, z);
      var text := t.text + z;
      L.StreamSpace(text);
      if !first {
        assert " " + t.text + z == " " + text;
      } else {
        assert "" + t.text == t.text;
      }
    }
  }

  // The text collected from `ts` behind `read`, as a function of what is collected next.
  lemma {:induction false} WktBodyBehind(ts: Tokens, depth: nat, first: bool, read: string)
    requires depth > 0 && WktBody(ts, depth, first, "").Done?
    ensures WktBody(ts, depth, first, read) ==
            Done((read + WktBody(ts, depth, first, "").value.0, WktBody(ts, depth, first, "").value.1))
    decreases |ts|
  {
    var step := WktAdd(ts[0], depth, first);
    assert "" + step.piece == step.piece;
    if step.depth > 0 {
      var ts1 := Advance(ts).value;
      WktBodyDone(ts1, step.depth, step.first, step.piece, "");
      WktBodyBehind(ts1, step.depth, step.first, read + step.piece);
      WktBodyBehind(ts1, step.depth, step.first, step.piece);
      var w := WktBody(ts1, step.depth, step.first, "").value.0;
      assert read + step.piece + w == read + (step.piece + w);
    }
  }

  lemma {:induction false} WktBodyDone(ts: Tokens, depth: nat, first: bool, read: string, read': string)
    requires depth > 0
    ensures WktBody(ts, depth, first, read).Done? <==> WktBody(ts, depth, first, read').Done?
    decreases |ts|
  {
    if ts != [] && Advance(ts).Done? {
      var step := WktAdd(ts[0], depth, first);
      if step.depth > 0 {
        WktBodyDone(Advance(ts).value, step.depth, step.first, read + step.piece, read' + step.piece);
      }
    }
  }

  /** The collected text lexes back to the tokens it was collected from, and starts with a delimiter when a space was due. */
  lemma {:induction false} WktBodyLexes(ts: Tokens, depth: nat, first: bool)
    requires depth > 0 && Sound(ts) && StringFree(ts) && WktBody(ts, depth, first, "").Done? && WktBody(ts, depth, first, "").value.1 == []
    ensures var w := WktBody(ts, depth, first, "").value.0;
            L.Stream(w) == ts && (!first ==> L.Delimited(w))
    decreases |ts|
  {
    var t := ts[0];
    var step := WktAdd(t, depth, first);
    var ts1 := Advance(ts).value;
    assert SoundToken(t);
    assert "" + step.piece == step.piece;
    if step.depth == 0 {
      PieceLexes(t, depth, first, "");
      assert step.piece + "" == step.piece;
    } else {
      WktBodyDone(ts1, step.depth, step.first, step.piece, "");
      WktBodyBehind(ts1, step.depth, step.first, step.piece);
      WktBodyLexes(ts1, step.depth, step.first);
      PieceLexes(t, depth, first, WktBody(ts1, step.depth, step.first, "").value.0);
    }
  }

  /** The text of a whole geometry lexes to its keyword in upper case and the tokens behind it. */
  lemma CollectedWktLexes(up: string, body: Tokens)
    requires L.IsIdentText(up) && Sound(body) && StringFree(body)
    requires WktBody(body, 1, true, up + "(").Done? && WktBody(body, 1, true, up + "(").value.1 == []
    ensures L.Stream(WktBody(body, 1, true, up + "(").value.0) == [L.IdentToken(up)] + ([OPEN] + body)
  {
    WktBodyDone(body, 1, true, up + "(", "");
    WktBodyBehind(body, 1, true, up + "(");
    WktBodyLexes(body, 1, true);
    var w := WktBody(body, 1, true, "").value.0;
    L.StreamPunct('(', w);
    L.StreamIdent(up, "(" + w);
    assert up + "(" + w == up + ("(" + w);
  }

  /** Geometry text collected from tokens without string literals is a fixed point of collecting. */
  lemma CollectedWktIsStable(ts: Tokens)
    requires Sound(ts) && StringFree(ts) && ParseWkt(ts).Done? && ParseWkt(ts).value.1 == []
    ensures StableWkt(ParseWkt(ts).value.0)
  {
    var body := Advance(Advance(ts).value).value;
    var up := ts[0].up;
    assert L.Lexical(ts[0]);
    UpperOfUpper(ts[0].text);
    CollectedWktLexes(up, body);
    AdvanceOnto(OPEN, body);
    AdvanceOnto(L.IdentToken(up), [OPEN] + body);
    SoundOnto(OPEN, body);
    SoundOnto(L.IdentToken(up), [OPEN] + body);
  }

  lemma UpperOfUpper(text: string)
    requires L.IsIdentText(text)
    ensures L.IsIdentText(L.Upper(text)) && L.Upper(L.Upper(text)) == L.Upper(text)
  {
  }

  /** Collecting depends only on the tokens it uses up. */
  lemma {:induction false} WktBodyUses(ts: Tokens, depth: nat, first: bool, read: string)
    requires depth > 0 && WktBody(ts, depth, first, read).Done?
    ensures var (w, rest) := WktBody(ts, depth, first, read).value;
            |rest| < |ts| && WktBody(ts[..|ts| - |rest|], depth, first, read) == Done((w, []))
    decreases |ts|
  {
    var (w, rest) := WktBody(ts, depth, first, read).value;
    var used := ts[..|ts| - |rest|];
    var step := WktAdd(ts[0], depth, first);
    var ts1 := Advance(ts).value;
    assert used[1..] == ts1[..|ts1| - |rest|];
    if step.depth > 0 {
      WktBodyUses(ts1, step.depth, step.first, read + step.piece);
    }
  }

  /** A geometry parsed from tokens without string literals has stable text. */
  lemma ParsedWktIsStable(ts: Tokens)
    requires ParseWkt(ts).Done?
    requires var used := ts[..|ts| - |ParseWkt(ts).value.1|];
             Sound(used) && StringFree(used)
    ensures StableWkt(ParseWkt(ts).value.0)
  {
    var (w, rest) := ParseWkt(ts).value;
    var used := ts[..|ts| - |rest|];
    var ts1 := Advance(ts).value;
    var ts2 := Advance(ts1).value;
    WktBodyUses(ts2, 1, true, ts[0].up + "(");
    assert used[1..] == ts1[..|ts1| - |rest|];
    assert used[1..][1..] == ts2[..|ts2| - |rest|];
    assert ParseWkt(used) == Done((w, []));
    CollectedWktIsStable(used);
  }
}

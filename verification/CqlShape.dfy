/**
 What every parsed filter looks like, and how the two engines' readings of numerals show in it.
 */
module CqlShape {
  import opened Outcomes
  import opened FilterAst
  import opened CqlGrammar
  import L = CqlLexer

  // What a numeral denotes: nothing, a double, or a value beyond the largest double.
  datatype Numeral = Malformed | Value(r: real) | TooLarge(negative: bool)

  type Conversion = string -> Numeral

  /** Go's conversion reports a value out of range as an error. */
  function GoReader(conv: Conversion): NumeralReader {
    (text: string) =>
      match conv(text)
      case Value(r) => Done(Real(r))
      case _ => Fail
  }

  /** Rust's conversion returns an infinity for a value out of range. */
  function RustReader(conv: Conversion): NumeralReader {
    (text: string) =>
      match conv(text)
      case Value(r) => Done(Real(r))
      case TooLarge(negative) => Done(Infinity(negative))
      case Malformed => Fail
  }

  // ---- Shape ----

  predicate IsNameText(s: string) {
    forall i | 0 <= i < |s| :: L.IsIdentPart(s[i])
  }

  predicate ShapedValue(e: Expr) {
    e.Literal? || (e.Property? && IsNameText(e.name))
  }

  predicate ShapedProperty(e: Expr) {
    e.Property? && IsNameText(e.name)
  }

  predicate AllShaped(values: seq<Expr>) {
    forall i | 0 <= i < |values| :: ShapedValue(values[i])
  }

  /** Property on the left, values on the right, binary connectives, a value in every IN list. */
  predicate Shaped(e: Expr) {
    match e
    case Property(_) => false
    case Literal(_) => false
    case Compare(_, left, right) => ShapedProperty(left) && ShapedValue(right)
    case Logic(_, es) => |es| == 2 && Shaped(es[0]) && Shaped(es[1])
    case Not(x) => Shaped(x)
    case Like(prop, _, _, _) => ShapedProperty(prop)
    case In(prop, values, _) =>
      ShapedProperty(prop) && values != [] && AllShaped(values)
    case Between(prop, lo, hi, _) => ShapedProperty(prop) && ShapedValue(lo) && ShapedValue(hi)
    case IsNull(prop, _) => ShapedProperty(prop)
    case BBox(geom, _, _, _, _, _) => IsNameText(geom)
    case Spatial(_, geom, _) => IsNameText(geom)
    case DWithin(geom, _, _, units, _) => IsNameText(geom) && L.IsIdentText(units)
    case IncludeAll => true
  }

  predicate FiniteValue(e: Expr) {
    e.Literal? && e.lit.Num? ==> !e.lit.number.Infinity?
  }

  predicate AllFinite(values: seq<Expr>) {
    forall i | 0 <= i < |values| :: FiniteValue(values[i])
  }

  predicate NoneInfinite(numbers: seq<Float>) {
    forall i | 0 <= i < |numbers| :: !numbers[i].Infinity?
  }

  /** No number in the tree is an infinity. */
  predicate Finite(e: Expr) {
    match e
    case Compare(_, left, right) => FiniteValue(left) && FiniteValue(right)
    case Logic(_, es) => forall i | 0 <= i < |es| :: Finite(es[i])
    case Not(x) => Finite(x)
    case In(_, values, _) => AllFinite(values)
    case Between(_, lo, hi, _) => FiniteValue(lo) && FiniteValue(hi)
    case BBox(_, minX, minY, maxX, maxY, _) => !minX.Infinity? && !minY.Infinity? && !maxX.Infinity? && !maxY.Infinity?
    case DWithin(_, _, distance, _, _) => !distance.Infinity?
    case _ => true
  }

  // ---- The two readings of one token sequence ----

  lemma StripPrefixName(name: string)
    requires IsNameText(name)
    ensures IsNameText(StripPrefix(name))
  {
  }

  // Tokens from a lexer, the first of them read without an error.
  ghost predicate Legal(ts: Tokens) {
    L.AllLexical(ts) && Open(ts)
  }

  // `rest` is what a parser may leave of `ts`: no lexing error has been passed over.
  ghost predicate After(ts: Tokens, rest: Tokens) {
    Legal(rest) && (L.Clean(ts) <==> L.Clean(rest))
  }

  lemma AdvanceLegal(ts: Tokens)
    requires Legal(ts) && ts != []
    ensures Advance(ts).Done? ==> After(ts, Advance(ts).value)
  {
    L.CleanCons(ts[0], ts[1..]);
    assert ts == [ts[0]] + ts[1..];
  }

  lemma ExpectLegal(text: string, ts: Tokens)
    requires Legal(ts) && text != ""
    ensures Expect(text, ts).Done? ==> After(ts, Expect(text, ts).value)
  {
    if ts != [] {
      AdvanceLegal(ts);
    }
  }

  // What the two readings of `ts` make of it, where `shaped` and `finite` speak of Rust's result: Go's
  // result is the same unless there is an infinity in it, in which case Go fails.
  ghost predicate Agree<T>(ts: Tokens, rust: Outcome<(T, Tokens)>, go: Outcome<(T, Tokens)>, shaped: bool, finite: bool) {
    if rust.Fail? then go.Fail?
    else After(ts, rust.value.1) && shaped && go == if finite then rust else Fail
  }

  ghost predicate AgreeExpr(ts: Tokens, rust: Outcome<(Expr, Tokens)>, go: Outcome<(Expr, Tokens)>) {
    Agree(ts, rust, go, rust.Done? ==> Shaped(rust.value.0), rust.Done? ==> Finite(rust.value.0))
  }

  ghost predicate AgreeValues(ts: Tokens, rust: Outcome<(seq<Expr>, Tokens)>, go: Outcome<(seq<Expr>, Tokens)>) {
    Agree(ts, rust, go, rust.Done? ==> AllShaped(rust.value.0), rust.Done? ==> AllFinite(rust.value.0))
  }

  lemma ValueAgree(conv: Conversion, ts: Tokens)
    requires Legal(ts)
    ensures var r := ParseValue(RustReader(conv), ts);
            Agree(ts, r, ParseValue(GoReader(conv), ts), r.Done? ==> ShapedValue(r.value.0), r.Done? ==> FiniteValue(r.value.0))
  {
    if ts != [] {
      AdvanceLegal(ts);
      assert L.Lexical(ts[0]);
      if ts[0].kind == L.Ident {
        StripPrefixName(ts[0].text);
      }
    }
  }

  lemma CommaNumAgree(conv: Conversion, ts: Tokens)
    requires Legal(ts)
    ensures var r := ParseCommaNum(RustReader(conv), ts);
            Agree(ts, r, ParseCommaNum(GoReader(conv), ts), true, r.Done? ==> !r.value.0.Infinity?)
  {
    ExpectLegal(",", ts);
    if Expect(",", ts).Done? && Expect(",", ts).value != [] {
      AdvanceLegal(Expect(",", ts).value);
    }
  }

  /** The numbers read so far decide with the rest: an infinity among them stays in the result. */
  lemma {:induction false} NumsAgree(conv: Conversion, n: nat, read: seq<Float>, ts: Tokens)
    requires Legal(ts)
    ensures var r, g := ParseNums(RustReader(conv), n, read, ts), ParseNums(GoReader(conv), n, read, ts);
            if NoneInfinite(read) then Agree(ts, r, g, true, r.Done? ==> NoneInfinite(r.value.0))
            else r.Done? ==> After(ts, r.value.1) && !NoneInfinite(r.value.0)
    decreases n
  {
    if n > 0 {
      CommaNumAgree(conv, ts);
      var r := ParseCommaNum(RustReader(conv), ts);
      if r.Done? {
        var (f, rest) := r.value;
        SnocReal(read, f);
        NumsAgree(conv, n - 1, read + [f], rest);
      }
    }
  }

  lemma SnocReal(fs: seq<Float>, f: Float)
    ensures NoneInfinite(fs + [f]) <==> NoneInfinite(fs) && !f.Infinity?
  {
    assert (fs + [f])[|fs|] == f && (fs + [f])[..|fs|] == fs;
  }

  lemma SnocValues(vs: seq<Expr>, v: Expr)
    ensures AllShaped(vs + [v]) <==> AllShaped(vs) && ShapedValue(v)
    ensures AllFinite(vs + [v]) <==> AllFinite(vs) && FiniteValue(v)
  {
    assert (vs + [v])[|vs|] == v && (vs + [v])[..|vs|] == vs;
  }

  lemma {:induction false} ValuesAgree(conv: Conversion, read: seq<Expr>, ts: Tokens)
    requires Legal(ts) && ts != [] && AllShaped(read)
    ensures var r, g := ParseValues(RustReader(conv), read, ts), ParseValues(GoReader(conv), read, ts);
            if AllFinite(read) then AgreeValues(ts, r, g)
            else r.Done? ==> After(ts, r.value.1) && AllShaped(r.value.0) && !AllFinite(r.value.0)
    decreases |ts|
  {
    AdvanceLegal(ts);
    if Advance(ts).Done? {
      var ts1 := Advance(ts).value;
      ValueAgree(conv, ts1);
      var r := ParseValue(RustReader(conv), ts1);
      if r.Done? {
        var (v, ts2) := r.value;
        SnocValues(read, v);
        if IsPunct(Peek(ts2), ',') {
          ValuesAgree(conv, read + [v], ts2);
        }
      }
    }
  }

  lemma InEndShaped(prop: Expr, vs: seq<Expr>, negate: bool, ts: Tokens)
    requires Legal(ts) && ShapedProperty(prop) && vs != [] && AllShaped(vs)
    ensures var r := InEnd(prop, vs, negate, ts);
            r.Done? ==> After(ts, r.value.1) && Shaped(r.value.0) && (Finite(r.value.0) <==> AllFinite(vs))
  {
    if ts != [] {
      AdvanceLegal(ts);
    }
  }

  lemma InAgree(conv: Conversion, prop: Expr, negate: bool, ts: Tokens)
    requires Legal(ts) && ts != [] && ShapedProperty(prop)
    ensures AgreeExpr(ts, ParseIn(RustReader(conv), prop, negate, ts), ParseIn(GoReader(conv), prop, negate, ts))
  {
    AdvanceLegal(ts);
    if Advance(ts).Done? && IsPunct(Peek(Advance(ts).value), '(') {
      var ts1 := Advance(ts).value;
      ValuesAgree(conv, [], ts1);
      var r := ParseValues(RustReader(conv), [], ts1);
      if r.Done? {
        InEndShaped(prop, r.value.0, negate, r.value.1);
      }
    }
  }

  /** As AgreeExpr, when the lower bound is already read and may be an infinity. */
  lemma BetweenEndAgree(conv: Conversion, prop: Expr, lo: Expr, negate: bool, ts: Tokens)
    requires Legal(ts) && ts != [] && ShapedProperty(prop) && ShapedValue(lo)
    ensures var r := BetweenEnd(RustReader(conv), prop, lo, negate, ts);
            var g := BetweenEnd(GoReader(conv), prop, lo, negate, ts);
            if FiniteValue(lo) then AgreeExpr(ts, r, g)
            else r.Done? ==> After(ts, r.value.1) && Shaped(r.value.0) && !Finite(r.value.0)
  {
    AdvanceLegal(ts);
    if Advance(ts).Done? {
      ValueAgree(conv, Advance(ts).value);
    }
  }

  lemma BetweenAgree(conv: Conversion, prop: Expr, negate: bool, ts: Tokens)
    requires Legal(ts) && ts != [] && ShapedProperty(prop)
    ensures AgreeExpr(ts, ParseBetween(RustReader(conv), prop, negate, ts), ParseBetween(GoReader(conv), prop, negate, ts))
  {
    AdvanceLegal(ts);
    if Advance(ts).Done? {
      var ts1 := Advance(ts).value;
      ValueAgree(conv, ts1);
      var r := ParseValue(RustReader(conv), ts1);
      if r.Done? && IsWord(Peek(r.value.1), "AND") {
        BetweenEndAgree(conv, prop, r.value.0, negate, r.value.1);
      }
    }
  }

  lemma LikeShaped(prop: Expr, negate: bool, ts: Tokens)
    requires Legal(ts) && ts != [] && ShapedProperty(prop)
    ensures var r := ParseLike(prop, negate, ts);
            r.Done? ==> After(ts, r.value.1) && Shaped(r.value.0) && Finite(r.value.0)
  {
    AdvanceLegal(ts);
    if Advance(ts).Done? && Advance(ts).value != [] {
      AdvanceLegal(Advance(ts).value);
    }
  }

  lemma IsShaped(prop: Expr, ts: Tokens)
    requires Legal(ts) && ts != [] && ShapedProperty(prop)
    ensures var r := ParseIs(prop, ts);
            r.Done? ==> After(ts, r.value.1) && Shaped(r.value.0) && Finite(r.value.0)
  {
    AdvanceLegal(ts);
    if Advance(ts).Done? && Advance(ts).value != [] {
      var ts1 := Advance(ts).value;
      AdvanceLegal(ts1);
      if Advance(ts1).Done? && Advance(ts1).value != [] {
        AdvanceLegal(Advance(ts1).value);
      }
    }
  }

  lemma KeywordAgree(conv: Conversion, prop: Expr, negate: bool, ts: Tokens)
    requires Legal(ts) && ts != [] && ShapedProperty(prop)
    ensures AgreeExpr(ts, ParseKeyword(RustReader(conv), prop, negate, ts), ParseKeyword(GoReader(conv), prop, negate, ts))
  {
    var up := ts[0].up;
    if up == "IN" {
      InAgree(conv, prop, negate, ts);
    } else if up == "BETWEEN" {
      BetweenAgree(conv, prop, negate, ts);
    } else {
      LikeShaped(prop, negate, ts);
      IsShaped(prop, ts);
    }
  }

  lemma ComparisonAgree(conv: Conversion, prop: Expr, ts: Tokens)
    requires Legal(ts) && ts != [] && ShapedProperty(prop)
    ensures AgreeExpr(ts, ParseComparison(RustReader(conv), prop, ts), ParseComparison(GoReader(conv), prop, ts))
  {
    AdvanceLegal(ts);
    if Advance(ts).Done? {
      ValueAgree(conv, Advance(ts).value);
    }
  }

  lemma NegatedAgree(conv: Conversion, prop: Expr, ts: Tokens)
    requires Legal(ts) && ts != [] && ShapedProperty(prop)
    ensures AgreeExpr(ts, ParseNegated(RustReader(conv), prop, ts), ParseNegated(GoReader(conv), prop, ts))
  {
    AdvanceLegal(ts);
    if Advance(ts).Done? && Advance(ts).value != [] {
      KeywordAgree(conv, prop, true, Advance(ts).value);
    }
  }

  lemma PredicateAgree(conv: Conversion, ts: Tokens)
    requires Legal(ts) && ts != [] && ts[0].kind == L.Ident
    ensures AgreeExpr(ts, ParsePredicate(RustReader(conv), ts), ParsePredicate(GoReader(conv), ts))
  {
    assert L.Lexical(ts[0]);
    StripPrefixName(ts[0].text);
    var prop := Property(StripPrefix(ts[0].text));
    AdvanceLegal(ts);
    if Advance(ts).Done? && Advance(ts).value != [] {
      var ts1 := Advance(ts).value;
      if ts1[0].kind == L.Op {
        ComparisonAgree(conv, prop, ts1);
      } else if ts1[0].up == "NOT" {
        NegatedAgree(conv, prop, ts1);
      } else {
        KeywordAgree(conv, prop, false, ts1);
      }
    }
  }

  lemma {:induction false} WktBodyLexical(ts: Tokens, depth: nat, first: bool, read: string)
    requires Legal(ts) && depth > 0
    ensures WktBody(ts, depth, first, read).Done? ==> After(ts, WktBody(ts, depth, first, read).value.1)
    decreases |ts|
  {
    if ts != [] && Advance(ts).Done? {
      AdvanceLegal(ts);
      var step := WktAdd(ts[0], depth, first);
      if step.depth > 0 {
        WktBodyLexical(Advance(ts).value, step.depth, step.first, read + step.piece);
      }
    }
  }

  lemma WktLexical(ts: Tokens)
    requires Legal(ts)
    ensures ParseWkt(ts).Done? ==> After(ts, ParseWkt(ts).value.1)
  {
    if ParseWkt(ts).Done? {
      AdvanceLegal(ts);
      var ts1 := Advance(ts).value;
      AdvanceLegal(ts1);
      WktBodyLexical(Advance(ts1).value, 1, true, ts[0].up + "(");
    }
  }

  lemma SubjectShaped(ts: Tokens)
    requires Legal(ts) && ts != []
    ensures ParseSubject(ts).Done? ==> IsNameText(ParseSubject(ts).value.0) && After(ts, ParseSubject(ts).value.1)
  {
    AdvanceLegal(ts);
    if ParseSubject(ts).Done? {
      var ts1 := Advance(ts).value;
      ExpectLegal("(", ts1);
      var ts2 := Expect("(", ts1).value;
      AdvanceLegal(ts2);
      assert L.Lexical(ts2[0]);
      StripPrefixName(ts2[0].text);
    }
  }

  lemma SrsLegal(ts: Tokens)
    requires Legal(ts)
    ensures ParseSrs(ts).Done? ==> After(ts, ParseSrs(ts).value.1)
  {
    if IsPunct(Peek(ts), ',') && Advance(ts).Done? {
      AdvanceLegal(ts);
      if Advance(ts).value != [] {
        AdvanceLegal(Advance(ts).value);
      }
    }
  }

  lemma BBoxEndShaped(geom: string, b: seq<Float>, ts: Tokens)
    requires Legal(ts) && |b| == 4 && IsNameText(geom)
    ensures var r := BBoxEnd(geom, b, ts);
            r.Done? ==> After(ts, r.value.1) && Shaped(r.value.0) && (Finite(r.value.0) <==> NoneInfinite(b))
  {
    SrsLegal(ts);
    if ParseSrs(ts).Done? {
      ExpectLegal(")", ParseSrs(ts).value.1);
    }
  }

  lemma BBoxBoundsAgree(conv: Conversion, geom: string, ts: Tokens)
    requires Legal(ts) && IsNameText(geom)
    ensures AgreeExpr(ts, BBoxBounds(RustReader(conv), geom, ts), BBoxBounds(GoReader(conv), geom, ts))
  {
    NumsAgree(conv, 4, [], ts);
    var r := ParseNums(RustReader(conv), 4, [], ts);
    if r.Done? {
      BBoxEndShaped(geom, r.value.0, r.value.1);
    }
  }

  lemma BBoxAgree(conv: Conversion, ts: Tokens)
    requires Legal(ts) && ts != []
    ensures AgreeExpr(ts, ParseBBox(RustReader(conv), ts), ParseBBox(GoReader(conv), ts))
  {
    SubjectShaped(ts);
    if ParseSubject(ts).Done? {
      var (geom, ts1) := ParseSubject(ts).value;
      BBoxBoundsAgree(conv, geom, ts1);
    }
  }

  lemma CommaWktLexical(ts: Tokens)
    requires Legal(ts)
    ensures ParseCommaWkt(ts).Done? ==> After(ts, ParseCommaWkt(ts).value.1)
  {
    ExpectLegal(",", ts);
    if Expect(",", ts).Done? {
      WktLexical(Expect(",", ts).value);
    }
  }

  lemma SpatialEndShaped(rel: SpatialOp, geom: string, ts: Tokens)
    requires Legal(ts) && IsNameText(geom)
    ensures var r := SpatialEnd(rel, geom, ts);
            r.Done? ==> After(ts, r.value.1) && Shaped(r.value.0) && Finite(r.value.0)
  {
    CommaWktLexical(ts);
    if ParseCommaWkt(ts).Done? {
      ExpectLegal(")", ParseCommaWkt(ts).value.1);
    }
  }

  lemma SpatialShaped(rel: SpatialOp, ts: Tokens)
    requires Legal(ts) && ts != []
    ensures var r := ParseSpatial(rel, ts);
            r.Done? ==> After(ts, r.value.1) && Shaped(r.value.0) && Finite(r.value.0)
  {
    SubjectShaped(ts);
    if ParseSubject(ts).Done? {
      var (geom, ts1) := ParseSubject(ts).value;
      SpatialEndShaped(rel, geom, ts1);
    }
  }

  lemma DWithinEndShaped(geom: string, wkt: string, distance: Float, beyond: bool, ts: Tokens)
    requires Legal(ts) && IsNameText(geom)
    ensures var r := DWithinEnd(geom, wkt, distance, beyond, ts);
            r.Done? ==> After(ts, r.value.1) && Shaped(r.value.0) && (Finite(r.value.0) <==> !distance.Infinity?)
  {
    ExpectLegal(",", ts);
    if Expect(",", ts).Done? && Expect(",", ts).value != [] {
      var ts1 := Expect(",", ts).value;
      assert L.Lexical(ts1[0]);
      AdvanceLegal(ts1);
      if Advance(ts1).Done? {
        ExpectLegal(")", Advance(ts1).value);
      }
    }
  }

  lemma DWithinDistanceAgree(conv: Conversion, geom: string, wkt: string, beyond: bool, ts: Tokens)
    requires Legal(ts) && IsNameText(geom)
    ensures AgreeExpr(ts, DWithinDistance(RustReader(conv), geom, wkt, beyond, ts),
                      DWithinDistance(GoReader(conv), geom, wkt, beyond, ts))
  {
    CommaNumAgree(conv, ts);
    var r := ParseCommaNum(RustReader(conv), ts);
    if r.Done? {
      DWithinEndShaped(geom, wkt, r.value.0, beyond, r.value.1);
    }
  }

  lemma DWithinAgree(conv: Conversion, beyond: bool, ts: Tokens)
    requires Legal(ts) && ts != []
    ensures AgreeExpr(ts, ParseDWithin(RustReader(conv), beyond, ts), ParseDWithin(GoReader(conv), beyond, ts))
  {
    SubjectShaped(ts);
    if ParseSubject(ts).Done? {
      var (geom, ts1) := ParseSubject(ts).value;
      CommaWktLexical(ts1);
      if ParseCommaWkt(ts1).Done? {
        var (wkt, ts2) := ParseCommaWkt(ts1).value;
        DWithinDistanceAgree(conv, geom, wkt, beyond, ts2);
      }
    }
  }

  lemma AtomAgree(conv: Conversion, ts: Tokens)
    requires Legal(ts) && ts != []
    ensures AgreeExpr(ts, ParseAtom(RustReader(conv), ts), ParseAtom(GoReader(conv), ts))
  {
    AdvanceLegal(ts);
    if ts[0].kind == L.Ident {
      match AtomKindOf(ts[0].up) {
        case Box => BBoxAgree(conv, ts);
        case Relation(rel) => SpatialShaped(rel, ts);
        case Distance(beyond) => DWithinAgree(conv, beyond, ts);
        case OnProperty => PredicateAgree(conv, ts);
        case _ =>
      }
    }
  }

  lemma {:induction false} ChainAgree(conv: Conversion, op: LogicOp, ts: Tokens)
    requires Legal(ts)
    ensures AgreeExpr(ts, ParseChain(RustReader(conv), op, ts), ParseChain(GoReader(conv), op, ts))
    decreases |ts|, if op.Or? then 5 else 3
  {
    OperandAgree(conv, op, ts);
    var r := ParseOperand(RustReader(conv), op, ts);
    if r.Done? {
      var (first, rest) := r.value;
      TailAgree(conv, op, first, rest);
    }
  }

  lemma {:induction false} OperandAgree(conv: Conversion, op: LogicOp, ts: Tokens)
    requires Legal(ts)
    ensures AgreeExpr(ts, ParseOperand(RustReader(conv), op, ts), ParseOperand(GoReader(conv), op, ts))
    decreases |ts|, if op.Or? then 4 else 2
  {
    match op
    case Or => ChainAgree(conv, And, ts);
    case And => UnaryAgree(conv, ts);
  }

  lemma BothFinite(op: LogicOp, left: Expr, right: Expr)
    ensures Finite(Logic(op, [left, right])) <==> Finite(left) && Finite(right)
    ensures Shaped(left) && Shaped(right) ==> Shaped(Logic(op, [left, right]))
  {
    var both := Logic(op, [left, right]);
    assert both.exprs[0] == left && both.exprs[1] == right;
  }

  /** As AgreeExpr, for the tail behind `left`: an infinity in `left` stays in the result. */
  lemma {:induction false} TailAgree(conv: Conversion, op: LogicOp, left: Expr, ts: Tokens)
    requires Legal(ts) && Shaped(left)
    ensures var r := ParseTail(RustReader(conv), op, left, ts);
            var g := ParseTail(GoReader(conv), op, left, ts);
            if Finite(left) then AgreeExpr(ts, r, g)
            else r.Done? ==> After(ts, r.value.1) && Shaped(r.value.0) && !Finite(r.value.0)
    decreases |ts|, 0
  {
    if IsWord(Peek(ts), Connective(op)) && Advance(ts).Done? {
      AdvanceLegal(ts);
      var ts1 := Advance(ts).value;
      OperandAgree(conv, op, ts1);
      var r := ParseOperand(RustReader(conv), op, ts1);
      if r.Done? {
        var (right, ts2) := r.value;
        var both := Logic(op, [left, right]);
        BothFinite(op, left, right);
        TailAgree(conv, op, both, ts2);
      }
    }
  }

  lemma {:induction false} UnaryAgree(conv: Conversion, ts: Tokens)
    requires Legal(ts)
    ensures AgreeExpr(ts, ParseUnary(RustReader(conv), ts), ParseUnary(GoReader(conv), ts))
    decreases |ts|, 1
  {
    if !IsWord(Peek(ts), "NOT") {
      PrimaryAgree(conv, ts);
    } else if Advance(ts).Done? {
      AdvanceLegal(ts);
      UnaryAgree(conv, Advance(ts).value);
    }
  }

  lemma {:induction false} PrimaryAgree(conv: Conversion, ts: Tokens)
    requires Legal(ts)
    ensures AgreeExpr(ts, ParsePrimary(RustReader(conv), ts), ParsePrimary(GoReader(conv), ts))
    decreases |ts|, 0
  {
    if ts != [] {
      if !IsPunct(ts[0], '(') {
        AtomAgree(conv, ts);
      } else if Advance(ts).Done? {
        AdvanceLegal(ts);
        var ts1 := Advance(ts).value;
        ChainAgree(conv, Or, ts1);
        var r := ParseChain(RustReader(conv), Or, ts1);
        if r.Done? && r.value.1 != [] {
          AdvanceLegal(r.value.1);
        }
      }
    }
  }

  // ---- Results ----

  /** A parser that never met a lexing error and used up the tokens has read clean ones. */
  lemma FinishedIsClean(conv: Conversion, ts: Tokens)
    requires Legal(ts)
    ensures var r := ParseChain(RustReader(conv), Or, ts);
            r.Done? && r.value.1 == [] ==> L.Clean(ts)
    ensures var g := ParseChain(GoReader(conv), Or, ts);
            g.Done? && g.value.1 == [] ==> L.Clean(ts)
  {
    ChainAgree(conv, Or, ts);
  }

  /** Go accepts exactly the filters Rust reads without an infinity, and to the same tree. */
  lemma GoParsesFiniteRust(conv: Conversion, s: string)
    ensures var rust := ParseCql(RustReader(conv), s);
            ParseCql(GoReader(conv), s) == if rust.Done? && Finite(rust.value) then rust else Fail
  {
    L.StreamLexical(s);
    if L.Clean(L.Stream(s)) {
      ChainAgree(conv, Or, L.Stream(s));
    }
  }

  /** Whatever either engine parses is well shaped, and what Go parses holds no infinity. */
  lemma ParsedIsShaped(conv: Conversion, s: string)
    ensures ParseCql(RustReader(conv), s).Done? ==> Shaped(ParseCql(RustReader(conv), s).value)
    ensures ParseCql(GoReader(conv), s).Done? ==> Shaped(ParseCql(GoReader(conv), s).value)
    ensures ParseCql(GoReader(conv), s).Done? ==> Finite(ParseCql(GoReader(conv), s).value)
  {
    L.StreamLexical(s);
    if L.Clean(L.Stream(s)) {
      ChainAgree(conv, Or, L.Stream(s));
    }
  }
}

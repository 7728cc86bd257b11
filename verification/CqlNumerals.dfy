/**
 What becomes of the numerals of a filter text: outside geometries each is a number of the filter, so that the two
 engines read a text alike exactly when no numeral in it is too large.
 */
module CqlNumerals {
  import opened Outcomes
  import opened FilterAst
  import opened CqlGrammar
  import opened CqlShape
  import L = CqlLexer

  // ---- Counting ----

  function TooLargeAt(conv: Conversion, t: Token): nat {
    if t.kind == L.Number && conv(t.text).TooLarge? then 1 else 0
  }

  /** The number of numerals beyond the largest double. */
  function TooLarges(conv: Conversion, ts: Tokens): nat {
    if ts == [] then 0 else TooLargeAt(conv, ts[0]) + TooLarges(conv, ts[1..])
  }

  function InfinityIn(f: Float): nat {
    if f.Infinity? then 1 else 0
  }

  function InfinitiesAmong(fs: seq<Float>): nat {
    if fs == [] then 0 else InfinitiesAmong(fs[..|fs| - 1]) + InfinityIn(fs[|fs| - 1])
  }

  function InfinitiesOf(v: Expr): nat {
    if v.Literal? && v.lit.Num? then InfinityIn(v.lit.number) else 0
  }

  function InfinitiesOfAll(vs: seq<Expr>): nat {
    if vs == [] then 0 else InfinitiesOfAll(vs[..|vs| - 1]) + InfinitiesOf(vs[|vs| - 1])
  }

  /** The number of infinities in a filter with binary connectives. */
  function Infinities(e: Expr): nat {
    match e
    case Compare(_, _, right) => InfinitiesOf(right)
    case Logic(_, es) => if |es| == 2 then Infinities(es[0]) + Infinities(es[1]) else 0
    case Not(x) => Infinities(x)
    case In(_, values, _) => InfinitiesOfAll(values)
    case Between(_, lo, hi, _) => InfinitiesOf(lo) + InfinitiesOf(hi)
    case BBox(_, minX, minY, maxX, maxY, _) => InfinitiesAmong([minX, minY, maxX, maxY])
    case DWithin(_, _, distance, _, _) => InfinityIn(distance)
    case _ => 0
  }

  // ---- Geometries ----

  // A geometry that starts here holds no numeral that is too large.
  predicate SmallGeometry(conv: Conversion, ts: Tokens) {
    ParseWkt(ts).Done? ==> TooLarges(conv, ts) == TooLarges(conv, ParseWkt(ts).value.1)
  }

  /** No geometry does, wherever it starts. */
  predicate SmallGeometries(conv: Conversion, ts: Tokens) {
    forall i {:trigger SmallGeometry(conv, ts[i..])} | 0 <= i <= |ts| :: SmallGeometry(conv, ts[i..])
  }

  lemma GeometriesBehind(conv: Conversion, ts: Tokens)
    requires SmallGeometries(conv, ts) && ts != []
    ensures SmallGeometries(conv, ts[1..])
  {
    forall i | 0 <= i <= |ts[1..]|
      ensures SmallGeometry(conv, ts[1..][i..])
    {
      assert ts[1..][i..] == ts[i + 1..];
      assert SmallGeometry(conv, ts[i + 1..]);
    }
  }

  // ---- What is read accounts for the numerals passed ----

  // All that counting needs to know about tokens: that they are tokens, their numerals too large, and that geometries hold none of these.
  datatype Tally = Tally(lexical: bool, large: nat, small: bool)

  function TallyOf(conv: Conversion, ts: Tokens): Tally {
    Tally(L.AllLexical(ts), TooLarges(conv, ts), SmallGeometries(conv, ts))
  }

  type Measure = Tokens -> Tally

  // `tally` is that tally, but what it says is looked up only where it is asked for.
  ghost predicate Measures(conv: Conversion, tally: Measure) {
    forall ts: Tokens {:trigger TallyOf(conv, ts)} :: tally(ts) == TallyOf(conv, ts)
  }

  // `n` infinities have been read between `ts` and `rest`: as many as numerals too large were passed, not counting those in geometries.
  ghost predicate Counts(tally: Measure, ts: Tokens, n: nat, rest: Tokens) {
    && tally(rest).lexical
    && n + tally(rest).large <= tally(ts).large
    && (tally(ts).small ==> tally(rest).small && n + tally(rest).large == tally(ts).large)
  }

  lemma CountsThen(tally: Measure, ts: Tokens, m: nat, mid: Tokens, n: nat, rest: Tokens)
    requires Counts(tally, ts, m, mid) && Counts(tally, mid, n, rest)
    ensures Counts(tally, ts, m + n, rest)
  {
  }

  /** Passing one token. */
  lemma Passed(conv: Conversion, tally: Measure, ts: Tokens)
    requires Measures(conv, tally) && tally(ts).lexical && ts != []
    ensures L.Lexical(ts[0]) && Counts(tally, ts, TooLargeAt(conv, ts[0]), ts[1..])
  {
    assert tally(ts) == TallyOf(conv, ts) && tally(ts[1..]) == TallyOf(conv, ts[1..]);
    if SmallGeometries(conv, ts) {
      GeometriesBehind(conv, ts);
    }
  }

  lemma PassedWord(conv: Conversion, tally: Measure, ts: Tokens)
    requires Measures(conv, tally) && tally(ts).lexical && ts != [] && ts[0].kind != L.Number
    ensures Counts(tally, ts, 0, ts[1..])
  {
    Passed(conv, tally, ts);
  }

  lemma PassedText(conv: Conversion, tally: Measure, text: string, ts: Tokens)
    requires Measures(conv, tally) && tally(ts).lexical && (text == "," || text == "(" || text == ")")
    ensures Expect(text, ts).Done? ==> Counts(tally, ts, 0, Expect(text, ts).value)
  {
    if ts != [] && ts[0].text == text {
      Passed(conv, tally, ts);
      NoNumberText(text);
    }
  }

  lemma NoNumberText(text: string)
    requires text == "," || text == "(" || text == ")"
    ensures !L.IsNumberText(text)
  {
    assert text[0] == ',' || text[0] == '(' || text[0] == ')';
  }

  ghost predicate CountsExpr(tally: Measure, ts: Tokens, r: Outcome<(Expr, Tokens)>) {
    r.Done? ==> Counts(tally, ts, Infinities(r.value.0), r.value.1)
  }

  ghost predicate CountsNothing<T>(tally: Measure, ts: Tokens, r: Outcome<(T, Tokens)>) {
    r.Done? ==> Counts(tally, ts, 0, r.value.1)
  }

  lemma ValueCounts(conv: Conversion, tally: Measure, ts: Tokens)
    requires Measures(conv, tally) && tally(ts).lexical
    ensures var r := ParseValue(RustReader(conv), ts);
            r.Done? ==> Counts(tally, ts, InfinitiesOf(r.value.0), r.value.1)
  {
    if ts != [] {
      Passed(conv, tally, ts);
    }
  }

  lemma NumCounts(conv: Conversion, tally: Measure, ts: Tokens)
    requires Measures(conv, tally) && tally(ts).lexical
    ensures var r := ParseCommaNum(RustReader(conv), ts);
            r.Done? ==> Counts(tally, ts, InfinityIn(r.value.0), r.value.1)
  {
    PassedText(conv, tally, ",", ts);
    var ts1 := Expect(",", ts);
    if ts1.Done? && ts1.value != [] {
      Passed(conv, tally, ts1.value);
      CountsThen(tally, ts, 0, ts1.value, TooLargeAt(conv, ts1.value[0]), ts1.value[1..]);
    }
  }

  lemma AmongSnoc(fs: seq<Float>, f: Float)
    ensures InfinitiesAmong(fs + [f]) == InfinitiesAmong(fs) + InfinityIn(f)
  {
    assert (fs + [f])[..|fs|] == fs;
  }

  lemma OfAllSnoc(vs: seq<Expr>, v: Expr)
    ensures InfinitiesOfAll(vs + [v]) == InfinitiesOfAll(vs) + InfinitiesOf(v)
  {
    assert (vs + [v])[..|vs|] == vs;
  }

  lemma {:induction false} NumsCount(conv: Conversion, tally: Measure, n: nat, read: seq<Float>, ts: Tokens)
    requires Measures(conv, tally) && tally(ts).lexical
    ensures var r := ParseNums(RustReader(conv), n, read, ts);
            r.Done? ==> InfinitiesAmong(read) <= InfinitiesAmong(r.value.0)
                        && Counts(tally, ts, InfinitiesAmong(r.value.0) - InfinitiesAmong(read), r.value.1)
    decreases n
  {
    var num := RustReader(conv);
    if n == 0 {
      NumsEnd(num, read, ts);
    } else {
      NumsStep(num, n, read, ts);
      NumCounts(conv, tally, ts);
      var one := ParseCommaNum(num, ts);
      if one.Done? {
        var (f, ts1) := one.value;
        AmongSnoc(read, f);
        NumsCount(conv, tally, n - 1, read + [f], ts1);
        var r := ParseNums(num, n - 1, read + [f], ts1);
        if r.Done? {
          CountsThen(tally, ts, InfinityIn(f), ts1, InfinitiesAmong(r.value.0) - InfinitiesAmong(read + [f]), r.value.1);
        }
      }
    }
  }

  lemma {:induction false} ValuesCount(conv: Conversion, tally: Measure, read: seq<Expr>, ts: Tokens)
    requires Measures(conv, tally) && tally(ts).lexical && ts != [] && ts[0].kind == L.Punct
    ensures var r := ParseValues(RustReader(conv), read, ts);
            r.Done? ==> InfinitiesOfAll(read) <= InfinitiesOfAll(r.value.0)
                        && Counts(tally, ts, InfinitiesOfAll(r.value.0) - InfinitiesOfAll(read), r.value.1)
    decreases |ts|
  {
    var num := RustReader(conv);
    PassedWord(conv, tally, ts);
    ValueCounts(conv, tally, ts[1..]);
    var one := ParseValue(num, ts[1..]);
    if Advance(ts).Done? && one.Done? {
      var (v, ts2) := one.value;
      OfAllSnoc(read, v);
      CountsThen(tally, ts, 0, ts[1..], InfinitiesOf(v), ts2);
      if IsPunct(Peek(ts2), ',') {
        ValuesCount(conv, tally, read + [v], ts2);
        var r := ParseValues(num, read + [v], ts2);
        if r.Done? {
          CountsThen(tally, ts, InfinitiesOf(v), ts2, InfinitiesOfAll(r.value.0) - InfinitiesOfAll(read + [v]), r.value.1);
        }
      }
    }
  }

  // ---- Predicates on a property ----

  lemma LikeCounts(conv: Conversion, tally: Measure, prop: Expr, negate: bool, ts: Tokens)
    requires Measures(conv, tally) && tally(ts).lexical && ts != [] && ts[0].kind == L.Ident
    ensures CountsExpr(tally, ts, ParseLike(prop, negate, ts))
  {
    PassedWord(conv, tally, ts);
    if ts[1..] != [] && ts[1..][0].kind == L.Str {
      PassedWord(conv, tally, ts[1..]);
      CountsThen(tally, ts, 0, ts[1..], 0, ts[1..][1..]);
    }
  }

  lemma InEndCounts(conv: Conversion, tally: Measure, prop: Expr, vs: seq<Expr>, negate: bool, ts: Tokens)
    requires Measures(conv, tally) && tally(ts).lexical
    ensures var r := InEnd(prop, vs, negate, ts);
            r.Done? ==> r.value.0 == In(prop, vs, negate) && Counts(tally, ts, 0, r.value.1)
  {
    if IsPunct(Peek(ts), ')') {
      PassedWord(conv, tally, ts);
    }
  }

  lemma InRestCounts(conv: Conversion, tally: Measure, prop: Expr, negate: bool, ts: Tokens)
    requires Measures(conv, tally) && tally(ts).lexical && ts != [] && ts[0].kind == L.Punct
    ensures var vs := ParseValues(RustReader(conv), [], ts);
            vs.Done? ==> CountsExpr(tally, ts, InEnd(prop, vs.value.0, negate, vs.value.1))
  {
    ValuesCount(conv, tally, [], ts);
    var vs := ParseValues(RustReader(conv), [], ts);
    if vs.Done? {
      InEndCounts(conv, tally, prop, vs.value.0, negate, vs.value.1);
      var r := InEnd(prop, vs.value.0, negate, vs.value.1);
      if r.Done? {
        CountsThen(tally, ts, InfinitiesOfAll(vs.value.0), vs.value.1, 0, r.value.1);
      }
    }
  }

  lemma InCounts(conv: Conversion, tally: Measure, prop: Expr, negate: bool, ts: Tokens)
    requires Measures(conv, tally) && tally(ts).lexical && ts != [] && ts[0].kind == L.Ident
    ensures CountsExpr(tally, ts, ParseIn(RustReader(conv), prop, negate, ts))
  {
    PassedWord(conv, tally, ts);
    if IsPunct(Peek(ts[1..]), '(') {
      InRestCounts(conv, tally, prop, negate, ts[1..]);
      CountsBehind(tally, ts, ts[1..], ParseIn(RustReader(conv), prop, negate, ts));
    }
  }

  lemma BetweenEndCounts(conv: Conversion, tally: Measure, prop: Expr, lo: Expr, negate: bool, ts: Tokens)
    requires Measures(conv, tally) && tally(ts).lexical && ts != [] && ts[0].kind == L.Ident
    ensures var r := BetweenEnd(RustReader(conv), prop, lo, negate, ts);
            r.Done? ==> r.value.0.Between? && r.value.0.lo == lo && Counts(tally, ts, InfinitiesOf(r.value.0.hi), r.value.1)
  {
    PassedWord(conv, tally, ts);
    ValueCounts(conv, tally, ts[1..]);
    var hi := ParseValue(RustReader(conv), ts[1..]);
    if hi.Done? {
      CountsThen(tally, ts, 0, ts[1..], InfinitiesOf(hi.value.0), hi.value.1);
    }
  }

  lemma BetweenCounts(conv: Conversion, tally: Measure, prop: Expr, negate: bool, ts: Tokens)
    requires Measures(conv, tally) && tally(ts).lexical && ts != [] && ts[0].kind == L.Ident
    ensures CountsExpr(tally, ts, ParseBetween(RustReader(conv), prop, negate, ts))
  {
    PassedWord(conv, tally, ts);
    ValueCounts(conv, tally, ts[1..]);
    var lo := ParseValue(RustReader(conv), ts[1..]);
    if lo.Done? && IsWord(Peek(lo.value.1), "AND") {
      var (low, ts2) := lo.value;
      CountsThen(tally, ts, 0, ts[1..], InfinitiesOf(low), ts2);
      BetweenEndCounts(conv, tally, prop, low, negate, ts2);
      var r := BetweenEnd(RustReader(conv), prop, low, negate, ts2);
      if r.Done? {
        CountsThen(tally, ts, InfinitiesOf(low), ts2, InfinitiesOf(r.value.0.hi), r.value.1);
      }
    }
  }

  lemma IsEndCounts(conv: Conversion, tally: Measure, ts: Tokens, mid: Tokens)
    requires Measures(conv, tally) && Counts(tally, ts, 0, mid) && IsWord(Peek(mid), "NULL")
    ensures Counts(tally, ts, 0, mid[1..])
  {
    PassedWord(conv, tally, mid);
    CountsThen(tally, ts, 0, mid, 0, mid[1..]);
  }

  lemma IsCounts(conv: Conversion, tally: Measure, prop: Expr, ts: Tokens)
    requires Measures(conv, tally) && tally(ts).lexical && ts != [] && ts[0].kind == L.Ident
    ensures CountsExpr(tally, ts, ParseIs(prop, ts))
  {
    PassedWord(conv, tally, ts);
    var ts1 := ts[1..];
    if IsWord(Peek(ts1), "NOT") {
      PassedWord(conv, tally, ts1);
      CountsThen(tally, ts, 0, ts1, 0, ts1[1..]);
      if IsWord(Peek(ts1[1..]), "NULL") {
        IsEndCounts(conv, tally, ts, ts1[1..]);
      }
    } else if IsWord(Peek(ts1), "NULL") {
      IsEndCounts(conv, tally, ts, ts1);
    }
  }

  lemma KeywordCounts(conv: Conversion, tally: Measure, prop: Expr, negate: bool, ts: Tokens)
    requires Measures(conv, tally) && tally(ts).lexical && ts != [] && ts[0].kind == L.Ident
    ensures CountsExpr(tally, ts, ParseKeyword(RustReader(conv), prop, negate, ts))
  {
    LikeCounts(conv, tally, prop, negate, ts);
    InCounts(conv, tally, prop, negate, ts);
    BetweenCounts(conv, tally, prop, negate, ts);
    IsCounts(conv, tally, prop, ts);
  }

  lemma ComparisonCounts(conv: Conversion, tally: Measure, prop: Expr, ts: Tokens)
    requires Measures(conv, tally) && tally(ts).lexical && ts != [] && ts[0].kind == L.Op
    ensures CountsExpr(tally, ts, ParseComparison(RustReader(conv), prop, ts))
  {
    PassedWord(conv, tally, ts);
    ValueCounts(conv, tally, ts[1..]);
    var v := ParseValue(RustReader(conv), ts[1..]);
    if v.Done? {
      CountsThen(tally, ts, 0, ts[1..], InfinitiesOf(v.value.0), v.value.1);
    }
  }

  lemma NegatedCounts(conv: Conversion, tally: Measure, prop: Expr, ts: Tokens)
    requires Measures(conv, tally) && tally(ts).lexical && ts != [] && ts[0].kind == L.Ident
    ensures CountsExpr(tally, ts, ParseNegated(RustReader(conv), prop, ts))
  {
    PassedWord(conv, tally, ts);
    if Peek(ts[1..]).kind == L.Ident {
      KeywordCounts(conv, tally, prop, true, ts[1..]);
      CountsBehind(tally, ts, ts[1..], ParseKeyword(RustReader(conv), prop, true, ts[1..]));
    }
  }

  lemma CountsBehind(tally: Measure, ts: Tokens, mid: Tokens, r: Outcome<(Expr, Tokens)>)
    requires Counts(tally, ts, 0, mid) && CountsExpr(tally, mid, r)
    ensures CountsExpr(tally, ts, r)
  {
    if r.Done? {
      CountsThen(tally, ts, 0, mid, Infinities(r.value.0), r.value.1);
    }
  }

  lemma PredicateCounts(conv: Conversion, tally: Measure, ts: Tokens)
    requires Measures(conv, tally) && tally(ts).lexical && ts != [] && ts[0].kind == L.Ident
    ensures CountsExpr(tally, ts, ParsePredicate(RustReader(conv), ts))
  {
    var num, prop, ts1 := RustReader(conv), Property(StripPrefix(ts[0].text)), ts[1..];
    PassedWord(conv, tally, ts);
    if Peek(ts1).kind == L.Op {
      ComparisonCounts(conv, tally, prop, ts1);
      CountsBehind(tally, ts, ts1, ParseComparison(num, prop, ts1));
    } else if Peek(ts1).kind == L.Ident {
      if ts1[0].up == "NOT" {
        NegatedCounts(conv, tally, prop, ts1);
        CountsBehind(tally, ts, ts1, ParseNegated(num, prop, ts1));
      } else {
        KeywordCounts(conv, tally, prop, false, ts1);
        CountsBehind(tally, ts, ts1, ParseKeyword(num, prop, false, ts1));
      }
    }
  }

  // ---- Spatial predicates ----

  // What `rest` keeps of the numerals of `ts`, geometries or not.
  ghost predicate Leaves(conv: Conversion, ts: Tokens, rest: Tokens) {
    && L.AllLexical(rest) && TooLarges(conv, rest) <= TooLarges(conv, ts)
    && (SmallGeometries(conv, ts) ==> SmallGeometries(conv, rest))
  }

  lemma LeavesOne(conv: Conversion, ts: Tokens)
    requires L.AllLexical(ts) && ts != []
    ensures Leaves(conv, ts, ts[1..])
  {
    if SmallGeometries(conv, ts) {
      GeometriesBehind(conv, ts);
    }
  }

  lemma {:induction false} WktBodyLeaves(conv: Conversion, ts: Tokens, depth: nat, first: bool, read: string)
    requires L.AllLexical(ts) && depth > 0
    ensures var r := WktBody(ts, depth, first, read);
            r.Done? ==> Leaves(conv, ts, r.value.1)
    decreases |ts|
  {
    if ts != [] && Advance(ts).Done? {
      LeavesOne(conv, ts);
      var step := WktAdd(ts[0], depth, first);
      if step.depth > 0 {
        WktBodyLeaves(conv, ts[1..], step.depth, step.first, read + step.piece);
      }
    }
  }

  lemma WktLeaves(conv: Conversion, ts: Tokens)
    requires L.AllLexical(ts)
    ensures ParseWkt(ts).Done? ==> Leaves(conv, ts, ParseWkt(ts).value.1)
  {
    if ParseWkt(ts).Done? {
      LeavesOne(conv, ts);
      LeavesOne(conv, ts[1..]);
      WktBodyLeaves(conv, ts[1..][1..], 1, true, ts[0].up + "(");
    }
  }

  lemma WktCounts(conv: Conversion, tally: Measure, ts: Tokens)
    requires Measures(conv, tally) && tally(ts).lexical
    ensures CountsNothing(tally, ts, ParseWkt(ts))
  {
    assert tally(ts) == TallyOf(conv, ts);
    WktLeaves(conv, ts);
    if ParseWkt(ts).Done? {
      var rest := ParseWkt(ts).value.1;
      assert tally(rest) == TallyOf(conv, rest);
      if SmallGeometries(conv, ts) {
        assert ts[0..] == ts;
        assert SmallGeometry(conv, ts[0..]);
      }
    }
  }

  lemma CommaWktCounts(conv: Conversion, tally: Measure, ts: Tokens)
    requires Measures(conv, tally) && tally(ts).lexical
    ensures CountsNothing(tally, ts, ParseCommaWkt(ts))
  {
    PassedText(conv, tally, ",", ts);
    var ts1 := Expect(",", ts);
    if ts1.Done? {
      WktCounts(conv, tally, ts1.value);
      if ParseWkt(ts1.value).Done? {
        CountsThen(tally, ts, 0, ts1.value, 0, ParseWkt(ts1.value).value.1);
      }
    }
  }

  lemma SubjectCounts(conv: Conversion, tally: Measure, ts: Tokens)
    requires Measures(conv, tally) && tally(ts).lexical && ts != [] && ts[0].kind == L.Ident
    ensures CountsNothing(tally, ts, ParseSubject(ts))
  {
    PassedWord(conv, tally, ts);
    PassedText(conv, tally, "(", ts[1..]);
    var ts2 := Expect("(", ts[1..]);
    if ts2.Done? && Peek(ts2.value).kind == L.Ident {
      CountsThen(tally, ts, 0, ts[1..], 0, ts2.value);
      PassedWord(conv, tally, ts2.value);
      CountsThen(tally, ts, 0, ts2.value, 0, ts2.value[1..]);
    }
  }

  lemma SrsCounts(conv: Conversion, tally: Measure, ts: Tokens)
    requires Measures(conv, tally) && tally(ts).lexical
    ensures CountsNothing(tally, ts, ParseSrs(ts))
  {
    if IsPunct(Peek(ts), ',') {
      PassedWord(conv, tally, ts);
      if Peek(ts[1..]).kind == L.Str {
        PassedWord(conv, tally, ts[1..]);
        CountsThen(tally, ts, 0, ts[1..], 0, ts[1..][1..]);
      }
    }
  }

  lemma BBoxEndCounts(conv: Conversion, tally: Measure, geom: string, b: seq<Float>, ts: Tokens)
    requires Measures(conv, tally) && tally(ts).lexical && |b| == 4
    ensures var r := BBoxEnd(geom, b, ts);
            r.Done? ==> Infinities(r.value.0) == InfinitiesAmong(b) && Counts(tally, ts, 0, r.value.1)
  {
    SrsCounts(conv, tally, ts);
    var srs := ParseSrs(ts);
    if srs.Done? {
      PassedText(conv, tally, ")", srs.value.1);
      var rest := Expect(")", srs.value.1);
      if rest.Done? {
        CountsThen(tally, ts, 0, srs.value.1, 0, rest.value);
        assert b == [b[0], b[1], b[2], b[3]];
      }
    }
  }

  lemma BoundsCount(conv: Conversion, tally: Measure, geom: string, ts: Tokens)
    requires Measures(conv, tally) && tally(ts).lexical
    ensures CountsExpr(tally, ts, BBoxBounds(RustReader(conv), geom, ts))
  {
    NumsCount(conv, tally, 4, [], ts);
    var nums := ParseNums(RustReader(conv), 4, [], ts);
    if nums.Done? {
      BBoxEndCounts(conv, tally, geom, nums.value.0, nums.value.1);
      var r := BBoxEnd(geom, nums.value.0, nums.value.1);
      if r.Done? {
        CountsThen(tally, ts, InfinitiesAmong(nums.value.0), nums.value.1, 0, r.value.1);
      }
    }
  }

  lemma BBoxCounts(conv: Conversion, tally: Measure, ts: Tokens)
    requires Measures(conv, tally) && tally(ts).lexical && ts != [] && ts[0].kind == L.Ident
    ensures CountsExpr(tally, ts, ParseBBox(RustReader(conv), ts))
  {
    SubjectCounts(conv, tally, ts);
    if ParseSubject(ts).Done? {
      var (geom, ts1) := ParseSubject(ts).value;
      BoundsCount(conv, tally, geom, ts1);
      CountsBehind(tally, ts, ts1, BBoxBounds(RustReader(conv), geom, ts1));
    }
  }

  lemma ClosingCounts(conv: Conversion, tally: Measure, ts: Tokens, mid: Tokens)
    requires Measures(conv, tally) && Counts(tally, ts, 0, mid)
    ensures var rest := Expect(")", mid);
            rest.Done? ==> Counts(tally, ts, 0, rest.value)
  {
    PassedText(conv, tally, ")", mid);
    var rest := Expect(")", mid);
    if rest.Done? {
      CountsThen(tally, ts, 0, mid, 0, rest.value);
    }
  }

  lemma SpatialEndCounts(conv: Conversion, tally: Measure, rel: SpatialOp, geom: string, ts: Tokens)
    requires Measures(conv, tally) && tally(ts).lexical
    ensures CountsExpr(tally, ts, SpatialEnd(rel, geom, ts))
  {
    CommaWktCounts(conv, tally, ts);
    var wkt := ParseCommaWkt(ts);
    if wkt.Done? {
      ClosingCounts(conv, tally, ts, wkt.value.1);
    }
  }

  lemma SpatialCounts(conv: Conversion, tally: Measure, rel: SpatialOp, ts: Tokens)
    requires Measures(conv, tally) && tally(ts).lexical && ts != [] && ts[0].kind == L.Ident
    ensures CountsExpr(tally, ts, ParseSpatial(rel, ts))
  {
    SubjectCounts(conv, tally, ts);
    if ParseSubject(ts).Done? {
      var (geom, ts1) := ParseSubject(ts).value;
      SpatialEndCounts(conv, tally, rel, geom, ts1);
      CountsBehind(tally, ts, ts1, SpatialEnd(rel, geom, ts1));
    }
  }

  lemma DWithinEndCounts(conv: Conversion, tally: Measure, geom: string, wkt: string, distance: Float, beyond: bool, ts: Tokens)
    requires Measures(conv, tally) && tally(ts).lexical
    ensures var r := DWithinEnd(geom, wkt, distance, beyond, ts);
            r.Done? ==> Infinities(r.value.0) == InfinityIn(distance) && Counts(tally, ts, 0, r.value.1)
  {
    PassedText(conv, tally, ",", ts);
    var ts1 := Expect(",", ts);
    if ts1.Done? && Peek(ts1.value).kind == L.Ident {
      PassedWord(conv, tally, ts1.value);
      CountsThen(tally, ts, 0, ts1.value, 0, ts1.value[1..]);
      PassedText(conv, tally, ")", ts1.value[1..]);
      var rest := Expect(")", ts1.value[1..]);
      if rest.Done? {
        CountsThen(tally, ts, 0, ts1.value[1..], 0, rest.value);
      }
    }
  }

  lemma DistanceCounts(conv: Conversion, tally: Measure, geom: string, wkt: string, beyond: bool, ts: Tokens)
    requires Measures(conv, tally) && tally(ts).lexical
    ensures CountsExpr(tally, ts, DWithinDistance(RustReader(conv), geom, wkt, beyond, ts))
  {
    NumCounts(conv, tally, ts);
    var d := ParseCommaNum(RustReader(conv), ts);
    if d.Done? {
      DWithinEndCounts(conv, tally, geom, wkt, d.value.0, beyond, d.value.1);
      var r := DWithinEnd(geom, wkt, d.value.0, beyond, d.value.1);
      if r.Done? {
        CountsThen(tally, ts, InfinityIn(d.value.0), d.value.1, 0, r.value.1);
      }
    }
  }

  lemma GeometryCounts(conv: Conversion, tally: Measure, geom: string, beyond: bool, ts: Tokens)
    requires Measures(conv, tally) && tally(ts).lexical
    ensures CountsExpr(tally, ts, DWithinGeometry(RustReader(conv), geom, beyond, ts))
  {
    CommaWktCounts(conv, tally, ts);
    if ParseCommaWkt(ts).Done? {
      var (wkt, ts1) := ParseCommaWkt(ts).value;
      DistanceCounts(conv, tally, geom, wkt, beyond, ts1);
      CountsBehind(tally, ts, ts1, DWithinDistance(RustReader(conv), geom, wkt, beyond, ts1));
    }
  }

  lemma DWithinCounts(conv: Conversion, tally: Measure, beyond: bool, ts: Tokens)
    requires Measures(conv, tally) && tally(ts).lexical && ts != [] && ts[0].kind == L.Ident
    ensures CountsExpr(tally, ts, ParseDWithin(RustReader(conv), beyond, ts))
  {
    SubjectCounts(conv, tally, ts);
    if ParseSubject(ts).Done? {
      var (geom, ts1) := ParseSubject(ts).value;
      GeometryCounts(conv, tally, geom, beyond, ts1);
      CountsBehind(tally, ts, ts1, DWithinGeometry(RustReader(conv), geom, beyond, ts1));
    }
  }

  // ---- Logical structure ----

  lemma AtomCounts(conv: Conversion, tally: Measure, ts: Tokens)
    requires Measures(conv, tally) && tally(ts).lexical && ts != []
    ensures CountsExpr(tally, ts, ParseAtom(RustReader(conv), ts))
  {
    if ts[0].kind == L.Ident {
      PassedWord(conv, tally, ts);
      match AtomKindOf(ts[0].up) {
        case Box => BBoxCounts(conv, tally, ts);
        case Relation(rel) => SpatialCounts(conv, tally, rel, ts);
        case Distance(beyond) => DWithinCounts(conv, tally, beyond, ts);
        case OnProperty => PredicateCounts(conv, tally, ts);
        case _ =>
      }
    }
  }

  lemma {:induction false} ChainCounts(conv: Conversion, tally: Measure, op: LogicOp, ts: Tokens)
    requires Measures(conv, tally) && tally(ts).lexical
    ensures CountsExpr(tally, ts, ParseChain(RustReader(conv), op, ts))
    decreases |ts|, if op.Or? then 5 else 3
  {
    OperandCounts(conv, tally, op, ts);
    var r := ParseOperand(RustReader(conv), op, ts);
    if r.Done? {
      TailCounts(conv, tally, op, ts, r.value.0, r.value.1);
    }
  }

  lemma {:induction false} OperandCounts(conv: Conversion, tally: Measure, op: LogicOp, ts: Tokens)
    requires Measures(conv, tally) && tally(ts).lexical
    ensures CountsExpr(tally, ts, ParseOperand(RustReader(conv), op, ts))
    decreases |ts|, if op.Or? then 4 else 2
  {
    match op
    case Or => ChainCounts(conv, tally, And, ts);
    case And => UnaryCounts(conv, tally, ts);
  }

  lemma InfinitiesOfPair(op: LogicOp, x: Expr, y: Expr)
    ensures Infinities(Logic(op, [x, y])) == Infinities(x) + Infinities(y)
  {
    var e := Logic(op, [x, y]);
    assert e.exprs[0] == x && e.exprs[1] == y;
  }

  /** The rest of a chain that began at `start` and whose operands so far make up `left`. */
  lemma {:induction false} TailCounts(conv: Conversion, tally: Measure, op: LogicOp, start: Tokens, left: Expr, ts: Tokens)
    requires Measures(conv, tally) && Counts(tally, start, Infinities(left), ts)
    ensures CountsExpr(tally, start, ParseTail(RustReader(conv), op, left, ts))
    decreases |ts|, 0
  {
    if IsWord(Peek(ts), Connective(op)) && Advance(ts).Done? {
      var ts1 := ts[1..];
      PassedWord(conv, tally, ts);
      OperandCounts(conv, tally, op, ts1);
      var r := ParseOperand(RustReader(conv), op, ts1);
      if r.Done? {
        var (right, ts2) := r.value;
        CountsThen(tally, start, Infinities(left), ts, 0, ts1);
        CountsThen(tally, start, Infinities(left), ts1, Infinities(right), ts2);
        InfinitiesOfPair(op, left, right);
        TailCounts(conv, tally, op, start, Logic(op, [left, right]), ts2);
      }
    }
  }

  lemma {:induction false} UnaryCounts(conv: Conversion, tally: Measure, ts: Tokens)
    requires Measures(conv, tally) && tally(ts).lexical
    ensures CountsExpr(tally, ts, ParseUnary(RustReader(conv), ts))
    decreases |ts|, 1
  {
    if !IsWord(Peek(ts), "NOT") {
      PrimaryCounts(conv, tally, ts);
    } else if Advance(ts).Done? {
      PassedWord(conv, tally, ts);
      UnaryCounts(conv, tally, ts[1..]);
      CountsBehind(tally, ts, ts[1..], ParseUnary(RustReader(conv), ts[1..]));
    }
  }

  lemma {:induction false} PrimaryCounts(conv: Conversion, tally: Measure, ts: Tokens)
    requires Measures(conv, tally) && tally(ts).lexical
    ensures CountsExpr(tally, ts, ParsePrimary(RustReader(conv), ts))
    decreases |ts|, 0
  {
    if ts != [] {
      if !IsPunct(ts[0], '(') {
        AtomCounts(conv, tally, ts);
      } else if Advance(ts).Done? {
        PassedWord(conv, tally, ts);
        ChainCounts(conv, tally, Or, ts[1..]);
        var r := ParseChain(RustReader(conv), Or, ts[1..]);
        CountsBehind(tally, ts, ts[1..], r);
        if r.Done? && IsPunct(Peek(r.value.1), ')') {
          PassedWord(conv, tally, r.value.1);
          CountsThen(tally, ts, Infinities(r.value.0), r.value.1, 0, r.value.1[1..]);
        }
      }
    }
  }

  // ---- Whole texts ----

  /** A filter has no more infinities than its text has numerals that are too large, and as many when geometries have none. */
  lemma InfinitiesCounted(conv: Conversion, s: string)
    requires ParseCql(RustReader(conv), s).Done?
    ensures var e, ts := ParseCql(RustReader(conv), s).value, L.Stream(s);
            && Infinities(e) <= TooLarges(conv, ts)
            && (SmallGeometries(conv, ts) ==> Infinities(e) == TooLarges(conv, ts))
  {
    L.StreamLexical(s);
    var tally: Measure := (ts: Tokens) => TallyOf(conv, ts);
    ChainCounts(conv, tally, Or, L.Stream(s));
    assert tally(L.Stream(s)) == TallyOf(conv, L.Stream(s)) && tally([]) == TallyOf(conv, []);
  }

  lemma {:induction false} NoneAmong(fs: seq<Float>)
    ensures InfinitiesAmong(fs) == 0 <==> NoneInfinite(fs)
  {
    if fs != [] {
      NoneAmong(fs[..|fs| - 1]);
      assert NoneInfinite(fs) <==> NoneInfinite(fs[..|fs| - 1]) && !fs[|fs| - 1].Infinity?;
    }
  }

  lemma {:induction false} NoneOfAll(vs: seq<Expr>)
    ensures InfinitiesOfAll(vs) == 0 <==> AllFinite(vs)
  {
    if vs != [] {
      NoneOfAll(vs[..|vs| - 1]);
      assert AllFinite(vs) <==> AllFinite(vs[..|vs| - 1]) && FiniteValue(vs[|vs| - 1]);
    }
  }

  lemma {:induction false} FiniteCounted(e: Expr)
    requires Shaped(e)
    ensures Infinities(e) == 0 <==> Finite(e)
  {
    match e {
      case Logic(_, es) =>
        FiniteCounted(es[0]);
        FiniteCounted(es[1]);
      case Not(x) => FiniteCounted(x);
      case In(_, values, _) => NoneOfAll(values);
      case BBox(_, minX, minY, maxX, maxY, _) =>
        var fs := [minX, minY, maxX, maxY];
        NoneAmong(fs);
        assert fs[0] == minX && fs[1] == minY && fs[2] == maxX && fs[3] == maxY;
      case _ =>
    }
  }

  /**
   The engines read a text alike when no numeral in it is too large. When Rust reads it and its geometries hold no such
   numeral, they do so only then.
   */
  lemma ReadAlike(conv: Conversion, s: string)
    ensures var go, rust, n := ParseCql(GoReader(conv), s), ParseCql(RustReader(conv), s), TooLarges(conv, L.Stream(s));
            && (n == 0 ==> go == rust)
            && (rust.Done? && SmallGeometries(conv, L.Stream(s)) ==> (go == rust <==> n == 0))
  {
    var rust := ParseCql(RustReader(conv), s);
    GoParsesFiniteRust(conv, s);
    if rust.Done? {
      ParsedIsShaped(conv, s);
      InfinitiesCounted(conv, s);
      FiniteCounted(rust.value);
    }
  }
}

/** Every filter text whose geometries hold no string literal: what it parses to can be printed, and parses back from its print. */
module CqlRoundTrip {
  import opened Outcomes
  import opened FilterAst
  import opened CqlGrammar
  import opened CqlPrinter
  import L = CqlLexer
  import S = CqlShape

  // A geometry that starts here holds no string literal.
  predicate PlainGeometry(ts: Tokens) {
    ParseWkt(ts).Done? ==> StringFree(ts[..|ts| - |ParseWkt(ts).value.1|])
  }

  /** No geometry holds a string literal, wherever it starts. */
  predicate PlainGeometries(ts: Tokens) {
    forall i {:trigger PlainGeometry(ts[i..])} | 0 <= i <= |ts| :: PlainGeometry(ts[i..])
  }

  ghost predicate Ready(ts: Tokens) {
    Sound(ts) && PlainGeometries(ts)
  }

  // Every number that `num` reads is printed so that it reads the same.
  ghost predicate Inverts(show: NumeralPrinter, num: NumeralReader) {
    forall text: string | num(text).Done? :: Shown(num, show, num(text).value)
  }

  lemma Next(ts: Tokens)
    requires Ready(ts) && ts != []
    ensures Ready(ts[1..]) && Advance(ts) == Done(ts[1..]) && L.Lexical(ts[0])
  {
    forall i | 0 <= i <= |ts[1..]|
      ensures PlainGeometry(ts[1..][i..])
    {
      assert ts[1..][i..] == ts[i + 1..];
      assert PlainGeometry(ts[i + 1..]);
    }
  }

  lemma NextIfDone(text: string, ts: Tokens)
    requires Ready(ts) && text != ""
    ensures Expect(text, ts).Done? ==> Ready(Expect(text, ts).value)
  {
    if ts != [] {
      Next(ts);
    }
  }

  // ---- Values and numbers ----

  ghost predicate GoodValue(num: NumeralReader, show: NumeralPrinter, r: Outcome<(Expr, Tokens)>) {
    r.Done? ==> PrintableValue(num, show, r.value.0) && Ready(r.value.1)
  }

  ghost predicate Good(num: NumeralReader, show: NumeralPrinter, r: Outcome<(Expr, Tokens)>) {
    r.Done? ==> Printable(num, show, r.value.0) && Ready(r.value.1)
  }

  ghost predicate Rests<T>(r: Outcome<(T, Tokens)>) {
    r.Done? ==> Ready(r.value.1)
  }

  lemma GoodOfValue(num: NumeralReader, show: NumeralPrinter, ts: Tokens)
    requires Ready(ts) && Inverts(show, num)
    ensures GoodValue(num, show, ParseValue(num, ts))
  {
    if ts != [] {
      Next(ts);
    }
  }

  lemma GoodNum(num: NumeralReader, show: NumeralPrinter, ts: Tokens)
    requires Ready(ts) && Inverts(show, num)
    ensures var r := ParseCommaNum(num, ts);
            Rests(r) && (r.Done? ==> Shown(num, show, r.value.0))
  {
    NextIfDone(",", ts);
    var ts1 := Expect(",", ts);
    if ts1.Done? && ts1.value != [] {
      Next(ts1.value);
    }
  }

  lemma {:induction false} GoodNums(num: NumeralReader, show: NumeralPrinter, n: nat, read: seq<Float>, ts: Tokens)
    requires Ready(ts) && Inverts(show, num) && PrintableNums(num, show, read)
    ensures var r := ParseNums(num, n, read, ts);
            Rests(r) && (r.Done? ==> PrintableNums(num, show, r.value.0))
    decreases n
  {
    if n > 0 {
      GoodNum(num, show, ts);
      var r := ParseCommaNum(num, ts);
      if r.Done? {
        GoodNums(num, show, n - 1, read + [r.value.0], r.value.1);
      }
    }
  }

  lemma {:induction false} GoodValues(num: NumeralReader, show: NumeralPrinter, read: seq<Expr>, ts: Tokens)
    requires Ready(ts) && ts != [] && Inverts(show, num) && PrintableValues(num, show, read)
    ensures var r := ParseValues(num, read, ts);
            Rests(r) && (r.Done? ==> PrintableValues(num, show, r.value.0))
    decreases |ts|
  {
    Next(ts);
    GoodOfValue(num, show, ts[1..]);
    var r := ParseValue(num, ts[1..]);
    if r.Done? && IsPunct(Peek(r.value.1), ',') {
      GoodValues(num, show, read + [r.value.0], r.value.1);
    }
  }

  // ---- Predicates on a property ----

  lemma GoodLike(num: NumeralReader, show: NumeralPrinter, prop: Expr, negate: bool, ts: Tokens)
    requires Ready(ts) && ts != []
    ensures Good(num, show, ParseLike(prop, negate, ts))
  {
    Next(ts);
    if ts[1..] != [] {
      Next(ts[1..]);
    }
  }

  lemma GoodInEnd(num: NumeralReader, show: NumeralPrinter, prop: Expr, vs: seq<Expr>, negate: bool, ts: Tokens)
    requires Ready(ts) && PrintableValues(num, show, vs)
    ensures Good(num, show, InEnd(prop, vs, negate, ts))
  {
    if ts != [] {
      Next(ts);
    }
  }

  lemma GoodIn(num: NumeralReader, show: NumeralPrinter, prop: Expr, negate: bool, ts: Tokens)
    requires Ready(ts) && ts != [] && Inverts(show, num)
    ensures Good(num, show, ParseIn(num, prop, negate, ts))
  {
    Next(ts);
    if IsPunct(Peek(ts[1..]), '(') {
      GoodValues(num, show, [], ts[1..]);
      var r := ParseValues(num, [], ts[1..]);
      if r.Done? {
        GoodInEnd(num, show, prop, r.value.0, negate, r.value.1);
      }
    }
  }

  lemma GoodBetween(num: NumeralReader, show: NumeralPrinter, prop: Expr, negate: bool, ts: Tokens)
    requires Ready(ts) && ts != [] && Inverts(show, num)
    ensures Good(num, show, ParseBetween(num, prop, negate, ts))
  {
    Next(ts);
    GoodOfValue(num, show, ts[1..]);
    var r := ParseValue(num, ts[1..]);
    if r.Done? && IsWord(Peek(r.value.1), "AND") {
      Next(r.value.1);
      GoodOfValue(num, show, r.value.1[1..]);
    }
  }

  lemma GoodIs(num: NumeralReader, show: NumeralPrinter, prop: Expr, ts: Tokens)
    requires Ready(ts) && ts != []
    ensures Good(num, show, ParseIs(prop, ts))
  {
    Next(ts);
    var ts1 := ts[1..];
    if ts1 != [] {
      Next(ts1);
      if ts1[1..] != [] {
        Next(ts1[1..]);
      }
    }
  }

  lemma GoodKeyword(num: NumeralReader, show: NumeralPrinter, prop: Expr, negate: bool, ts: Tokens)
    requires Ready(ts) && ts != [] && Inverts(show, num)
    ensures Good(num, show, ParseKeyword(num, prop, negate, ts))
  {
    GoodLike(num, show, prop, negate, ts);
    GoodIn(num, show, prop, negate, ts);
    GoodBetween(num, show, prop, negate, ts);
    GoodIs(num, show, prop, ts);
  }

  lemma GoodComparison(num: NumeralReader, show: NumeralPrinter, prop: Expr, ts: Tokens)
    requires Ready(ts) && ts != [] && Inverts(show, num)
    ensures Good(num, show, ParseComparison(num, prop, ts))
  {
    Next(ts);
    GoodOfValue(num, show, ts[1..]);
  }

  lemma GoodPredicate(num: NumeralReader, show: NumeralPrinter, ts: Tokens)
    requires Ready(ts) && ts != [] && Inverts(show, num)
    ensures Good(num, show, ParsePredicate(num, ts))
  {
    var prop, ts1 := Property(StripPrefix(ts[0].text)), ts[1..];
    Next(ts);
    if ts1 != [] {
      Next(ts1);
      GoodComparison(num, show, prop, ts1);
      GoodKeyword(num, show, prop, false, ts1);
      if ts1[1..] != [] {
        GoodKeyword(num, show, prop, true, ts1[1..]);
      }
    }
  }

  // ---- Spatial predicates ----

  lemma {:induction false} WktBodyRests(ts: Tokens, depth: nat, first: bool, read: string)
    requires Ready(ts) && depth > 0
    ensures Rests(WktBody(ts, depth, first, read))
    decreases |ts|
  {
    if ts != [] {
      Next(ts);
      var step := WktAdd(ts[0], depth, first);
      if step.depth > 0 {
        WktBodyRests(ts[1..], step.depth, step.first, read + step.piece);
      }
    }
  }

  lemma SoundFront(ts: Tokens, n: nat)
    requires Sound(ts) && n <= |ts|
    ensures Sound(ts[..n])
  {
  }

  lemma GoodWkt(ts: Tokens)
    requires Ready(ts)
    ensures var r := ParseCommaWkt(ts);
            Rests(r) && (r.Done? ==> StableWkt(r.value.0))
  {
    NextIfDone(",", ts);
    if ParseCommaWkt(ts).Done? {
      var ts1 := Expect(",", ts).value;
      Next(ts1);
      Next(ts1[1..]);
      WktBodyRests(ts1[1..][1..], 1, true, ts1[0].up + "(");
      assert ts1[0..] == ts1;
      assert PlainGeometry(ts1[0..]);
      SoundFront(ts1, |ts1| - |ParseWkt(ts1).value.1|);
      ParsedWktIsStable(ts1);
    }
  }

  lemma SubjectRests(ts: Tokens)
    requires Ready(ts) && ts != []
    ensures Rests(ParseSubject(ts))
  {
    Next(ts);
    NextIfDone("(", ts[1..]);
    var ts2 := Expect("(", ts[1..]);
    if ts2.Done? && ts2.value != [] {
      Next(ts2.value);
    }
  }

  lemma BBoxEndRests(geom: string, b: seq<Float>, ts: Tokens)
    requires Ready(ts) && |b| == 4
    ensures Rests(BBoxEnd(geom, b, ts))
    ensures var r := BBoxEnd(geom, b, ts);
            r.Done? ==> r.value.0.BBox? && [r.value.0.minX, r.value.0.minY, r.value.0.maxX, r.value.0.maxY] == b
  {
    if IsPunct(Peek(ts), ',') {
      Next(ts);
      if ts[1..] != [] {
        Next(ts[1..]);
      }
    }
    if ParseSrs(ts).Done? {
      NextIfDone(")", ParseSrs(ts).value.1);
    }
  }

  lemma PrintableBBox(num: NumeralReader, show: NumeralPrinter, e: Expr)
    requires e.BBox? && PrintableNums(num, show, [e.minX, e.minY, e.maxX, e.maxY])
    ensures Printable(num, show, e)
  {
  }

  lemma GoodBounds(num: NumeralReader, show: NumeralPrinter, geom: string, ts: Tokens)
    requires Ready(ts) && Inverts(show, num)
    ensures Good(num, show, BBoxBounds(num, geom, ts))
  {
    GoodNums(num, show, 4, [], ts);
    var r := ParseNums(num, 4, [], ts);
    if r.Done? {
      BBoxEndRests(geom, r.value.0, r.value.1);
      if BBoxEnd(geom, r.value.0, r.value.1).Done? {
        PrintableBBox(num, show, BBoxEnd(geom, r.value.0, r.value.1).value.0);
      }
    }
  }

  lemma GoodBBox(num: NumeralReader, show: NumeralPrinter, ts: Tokens)
    requires Ready(ts) && ts != [] && Inverts(show, num)
    ensures Good(num, show, ParseBBox(num, ts))
  {
    SubjectRests(ts);
    if ParseSubject(ts).Done? {
      var (geom, ts1) := ParseSubject(ts).value;
      GoodBounds(num, show, geom, ts1);
    }
  }

  lemma SpatialEndRests(rel: SpatialOp, geom: string, ts: Tokens)
    requires Ready(ts) && Rests(ParseCommaWkt(ts))
    ensures var r := SpatialEnd(rel, geom, ts);
            Rests(r) && (r.Done? ==> ParseCommaWkt(ts).Done? && r.value.0 == Spatial(rel, geom, ParseCommaWkt(ts).value.0))
  {
    if ParseCommaWkt(ts).Done? {
      NextIfDone(")", ParseCommaWkt(ts).value.1);
    }
  }

  lemma PrintableSpatial(num: NumeralReader, show: NumeralPrinter, rel: SpatialOp, geom: string, wkt: string)
    requires StableWkt(wkt)
    ensures Printable(num, show, Spatial(rel, geom, wkt))
  {
  }

  lemma GoodSpatialEnd(num: NumeralReader, show: NumeralPrinter, rel: SpatialOp, geom: string, ts: Tokens)
    requires Ready(ts)
    ensures Good(num, show, SpatialEnd(rel, geom, ts))
  {
    GoodWkt(ts);
    SpatialEndRests(rel, geom, ts);
    if SpatialEnd(rel, geom, ts).Done? {
      PrintableSpatial(num, show, rel, geom, ParseCommaWkt(ts).value.0);
    }
  }

  lemma GoodSpatial(num: NumeralReader, show: NumeralPrinter, rel: SpatialOp, ts: Tokens)
    requires Ready(ts) && ts != []
    ensures Good(num, show, ParseSpatial(rel, ts))
  {
    SubjectRests(ts);
    if ParseSubject(ts).Done? {
      var (geom, ts1) := ParseSubject(ts).value;
      GoodSpatialEnd(num, show, rel, geom, ts1);
    }
  }

  lemma GoodDWithinEnd(num: NumeralReader, show: NumeralPrinter, geom: string, wkt: string, distance: Float, beyond: bool, ts: Tokens)
    requires Ready(ts) && StableWkt(wkt) && Shown(num, show, distance)
    ensures Good(num, show, DWithinEnd(geom, wkt, distance, beyond, ts))
  {
    NextIfDone(",", ts);
    var ts1 := Expect(",", ts);
    if ts1.Done? && ts1.value != [] {
      Next(ts1.value);
      NextIfDone(")", ts1.value[1..]);
    }
  }

  lemma GoodDWithin(num: NumeralReader, show: NumeralPrinter, beyond: bool, ts: Tokens)
    requires Ready(ts) && ts != [] && Inverts(show, num)
    ensures Good(num, show, ParseDWithin(num, beyond, ts))
  {
    SubjectRests(ts);
    if ParseSubject(ts).Done? {
      var (geom, ts1) := ParseSubject(ts).value;
      GoodWkt(ts1);
      if ParseCommaWkt(ts1).Done? {
        var (wkt, ts2) := ParseCommaWkt(ts1).value;
        GoodNum(num, show, ts2);
        var r := ParseCommaNum(num, ts2);
        if r.Done? {
          GoodDWithinEnd(num, show, geom, wkt, r.value.0, beyond, r.value.1);
        }
      }
    }
  }

  // ---- Logical structure ----

  lemma GoodAtom(num: NumeralReader, show: NumeralPrinter, ts: Tokens)
    requires Ready(ts) && ts != [] && Inverts(show, num)
    ensures Good(num, show, ParseAtom(num, ts))
  {
    Next(ts);
    match AtomKindOf(ts[0].up) {
      case Box => GoodBBox(num, show, ts);
      case Relation(rel) => GoodSpatial(num, show, rel, ts);
      case Distance(beyond) => GoodDWithin(num, show, beyond, ts);
      case OnProperty => GoodPredicate(num, show, ts);
      case _ =>
    }
  }

  lemma {:induction false} GoodChain(num: NumeralReader, show: NumeralPrinter, op: LogicOp, ts: Tokens)
    requires Ready(ts) && Inverts(show, num)
    ensures Good(num, show, ParseChain(num, op, ts))
    decreases |ts|, if op.Or? then 5 else 3
  {
    GoodOperand(num, show, op, ts);
    var r := ParseOperand(num, op, ts);
    if r.Done? {
      GoodTail(num, show, op, r.value.0, r.value.1);
    }
  }

  lemma {:induction false} GoodOperand(num: NumeralReader, show: NumeralPrinter, op: LogicOp, ts: Tokens)
    requires Ready(ts) && Inverts(show, num)
    ensures Good(num, show, ParseOperand(num, op, ts))
    decreases |ts|, if op.Or? then 4 else 2
  {
    match op
    case Or => GoodChain(num, show, And, ts);
    case And => GoodUnary(num, show, ts);
  }

  lemma {:induction false} GoodTail(num: NumeralReader, show: NumeralPrinter, op: LogicOp, left: Expr, ts: Tokens)
    requires Ready(ts) && Inverts(show, num) && Printable(num, show, left)
    ensures Good(num, show, ParseTail(num, op, left, ts))
    decreases |ts|, 0
  {
    if IsWord(Peek(ts), Connective(op)) {
      Next(ts);
      GoodOperand(num, show, op, ts[1..]);
      var r := ParseOperand(num, op, ts[1..]);
      if r.Done? {
        GoodTail(num, show, op, Logic(op, [left, r.value.0]), r.value.1);
      }
    }
  }

  lemma {:induction false} GoodUnary(num: NumeralReader, show: NumeralPrinter, ts: Tokens)
    requires Ready(ts) && Inverts(show, num)
    ensures Good(num, show, ParseUnary(num, ts))
    decreases |ts|, 1
  {
    if IsWord(Peek(ts), "NOT") {
      Next(ts);
      GoodUnary(num, show, ts[1..]);
    } else {
      GoodPrimary(num, show, ts);
    }
  }

  lemma {:induction false} GoodPrimary(num: NumeralReader, show: NumeralPrinter, ts: Tokens)
    requires Ready(ts) && Inverts(show, num)
    ensures Good(num, show, ParsePrimary(num, ts))
    decreases |ts|, 0
  {
    if ts != [] {
      Next(ts);
      if IsPunct(ts[0], '(') {
        GoodChain(num, show, Or, ts[1..]);
        var r := ParseChain(num, Or, ts[1..]);
        if r.Done? && r.value.1 != [] {
          Next(r.value.1);
        }
      } else {
        GoodAtom(num, show, ts);
      }
    }
  }

  // ---- Round trip ----

  /** What such a text parses to can be printed, if the numbers that are read can. */
  lemma ParsedIsPrintable(num: NumeralReader, show: NumeralPrinter, s: string)
    requires PlainGeometries(L.Stream(s)) && Inverts(show, num)
    ensures ParseCql(num, s).Done? ==> Printable(num, show, ParseCql(num, s).value)
  {
    L.StreamLexical(s);
    if L.Clean(L.Stream(s)) {
      GoodChain(num, show, Or, L.Stream(s));
    }
  }

  /** Parsing, printing and parsing again gives the same filter, in both engines. */
  lemma PrintedAgain(conv: S.Conversion, show: NumeralPrinter, s: string)
    requires PlainGeometries(L.Stream(s))
    ensures var num := S.GoReader(conv);
            Inverts(show, num) && ParseCql(num, s).Done? ==>
              S.Shaped(ParseCql(num, s).value) && ParseCql(num, Print(show, ParseCql(num, s).value)) == ParseCql(num, s)
    ensures var num := S.RustReader(conv);
            Inverts(show, num) && ParseCql(num, s).Done? ==>
              S.Shaped(ParseCql(num, s).value) && ParseCql(num, Print(show, ParseCql(num, s).value)) == ParseCql(num, s)
  {
    S.ParsedIsShaped(conv, s);
    PrintedBack(S.GoReader(conv), show, s);
    PrintedBack(S.RustReader(conv), show, s);
  }

  lemma PrintedBack(num: NumeralReader, show: NumeralPrinter, s: string)
    requires PlainGeometries(L.Stream(s))
    ensures Inverts(show, num) && ParseCql(num, s).Done? && S.Shaped(ParseCql(num, s).value) ==>
              ParseCql(num, Print(show, ParseCql(num, s).value)) == ParseCql(num, s)
  {
    if Inverts(show, num) && ParseCql(num, s).Done? && S.Shaped(ParseCql(num, s).value) {
      ParsedIsPrintable(num, show, s);
      ParseOfPrint(num, show, ParseCql(num, s).value);
    }
  }
}

/**
 Parsing a filter does not depend on what follows its closing bracket, so bracketed filters can be
 joined as text.
 */
module CqlCompose {
  import opened Outcomes
  import opened FilterAst
  import opened CqlGrammar
  import L = CqlLexer

  // The tokens after a filter that stands in brackets.
  ghost predicate Closed(z: Tokens) {
    IsPunct(Peek(z), ')')
  }

  // `rz` is the result `r` with `z` left unread behind it.
  ghost predicate Carries<T>(r: Outcome<(T, Tokens)>, rz: Outcome<(T, Tokens)>, z: Tokens) {
    r.Done? ==> rz == Done((r.value.0, r.value.1 + z))
  }

  lemma AdvanceCarries(ts: Tokens, z: Tokens)
    requires Open(z) && ts != []
    ensures (ts + z)[0] == ts[0]
    ensures Advance(ts).Done? ==> Advance(ts + z) == Done(Advance(ts).value + z)
    ensures Advance(ts).Done? ==> Peek(Advance(ts).value + z) == if |ts| > 1 then ts[1] else Peek(z)
  {
    assert (ts + z)[1..] == ts[1..] + z;
  }

  lemma ExpectCarries(text: string, ts: Tokens, z: Tokens)
    requires Closed(z) && text != ""
    ensures Expect(text, ts).Done? ==> Expect(text, ts + z) == Done(Expect(text, ts).value + z)
  {
    if ts != [] {
      AdvanceCarries(ts, z);
    }
  }

  lemma ValueCarries(num: NumeralReader, ts: Tokens, z: Tokens)
    requires Closed(z)
    ensures Carries(ParseValue(num, ts), ParseValue(num, ts + z), z)
  {
    if ts != [] {
      AdvanceCarries(ts, z);
    }
  }

  lemma {:induction false} ValuesCarries(num: NumeralReader, read: seq<Expr>, ts: Tokens, z: Tokens)
    requires Closed(z) && ts != []
    ensures Carries(ParseValues(num, read, ts), ParseValues(num, read, ts + z), z)
    decreases |ts|
  {
    AdvanceCarries(ts, z);
    if Advance(ts).Done? {
      var ts1 := Advance(ts).value;
      ValueCarries(num, ts1, z);
      if ParseValue(num, ts1).Done? {
        var (v, ts2) := ParseValue(num, ts1).value;
        if IsPunct(Peek(ts2), ',') {
          ValuesCarries(num, read + [v], ts2, z);
        } else {
          assert Peek(ts2 + z) == if ts2 == [] then z[0] else ts2[0];
        }
      }
    }
  }

  lemma LikeCarries(prop: Expr, negate: bool, ts: Tokens, z: Tokens)
    requires Closed(z) && ts != []
    ensures Carries(ParseLike(prop, negate, ts), ParseLike(prop, negate, ts + z), z)
  {
    AdvanceCarries(ts, z);
    if Advance(ts).Done? && Advance(ts).value != [] {
      AdvanceCarries(Advance(ts).value, z);
    }
  }

  lemma InCarries(num: NumeralReader, prop: Expr, negate: bool, ts: Tokens, z: Tokens)
    requires Closed(z) && ts != []
    ensures Carries(ParseIn(num, prop, negate, ts), ParseIn(num, prop, negate, ts + z), z)
  {
    AdvanceCarries(ts, z);
    if Advance(ts).Done? && Advance(ts).value != [] {
      var ts1 := Advance(ts).value;
      ValuesCarries(num, [], ts1, z);
      if ParseValues(num, [], ts1).Done? && ParseValues(num, [], ts1).value.1 != [] {
        AdvanceCarries(ParseValues(num, [], ts1).value.1, z);
      }
    }
  }

  lemma BetweenEndCarries(num: NumeralReader, prop: Expr, lo: Expr, negate: bool, ts: Tokens, z: Tokens)
    requires Closed(z) && ts != []
    ensures Carries(BetweenEnd(num, prop, lo, negate, ts), BetweenEnd(num, prop, lo, negate, ts + z), z)
  {
    AdvanceCarries(ts, z);
    if Advance(ts).Done? {
      ValueCarries(num, Advance(ts).value, z);
    }
  }

  lemma BetweenCarries(num: NumeralReader, prop: Expr, negate: bool, ts: Tokens, z: Tokens)
    requires Closed(z) && ts != []
    ensures Carries(ParseBetween(num, prop, negate, ts), ParseBetween(num, prop, negate, ts + z), z)
  {
    AdvanceCarries(ts, z);
    if Advance(ts).Done? {
      var ts1 := Advance(ts).value;
      ValueCarries(num, ts1, z);
      if ParseValue(num, ts1).Done? && ParseValue(num, ts1).value.1 != [] {
        var (lo, ts2) := ParseValue(num, ts1).value;
        AdvanceCarries(ts2, z);
        BetweenEndCarries(num, prop, lo, negate, ts2, z);
      }
    }
  }

  lemma IsCarries(prop: Expr, ts: Tokens, z: Tokens)
    requires Closed(z) && ts != []
    ensures Carries(ParseIs(prop, ts), ParseIs(prop, ts + z), z)
  {
    AdvanceCarries(ts, z);
    if Advance(ts).Done? && Advance(ts).value != [] {
      var ts1 := Advance(ts).value;
      AdvanceCarries(ts1, z);
      if Advance(ts1).Done? && Advance(ts1).value != [] {
        AdvanceCarries(Advance(ts1).value, z);
      }
    }
  }

  lemma KeywordCarries(num: NumeralReader, prop: Expr, negate: bool, ts: Tokens, z: Tokens)
    requires Closed(z) && ts != []
    ensures Carries(ParseKeyword(num, prop, negate, ts), ParseKeyword(num, prop, negate, ts + z), z)
  {
    LikeCarries(prop, negate, ts, z);
    InCarries(num, prop, negate, ts, z);
    BetweenCarries(num, prop, negate, ts, z);
    IsCarries(prop, ts, z);
  }

  lemma ComparisonCarries(num: NumeralReader, prop: Expr, ts: Tokens, z: Tokens)
    requires Closed(z) && ts != []
    ensures Carries(ParseComparison(num, prop, ts), ParseComparison(num, prop, ts + z), z)
  {
    AdvanceCarries(ts, z);
    if Advance(ts).Done? {
      ValueCarries(num, Advance(ts).value, z);
    }
  }

  lemma NegatedCarries(num: NumeralReader, prop: Expr, ts: Tokens, z: Tokens)
    requires Closed(z) && ts != []
    ensures Carries(ParseNegated(num, prop, ts), ParseNegated(num, prop, ts + z), z)
  {
    AdvanceCarries(ts, z);
    if Advance(ts).Done? && Advance(ts).value != [] {
      KeywordCarries(num, prop, true, Advance(ts).value, z);
    }
  }

  lemma PredicateCarries(num: NumeralReader, ts: Tokens, z: Tokens)
    requires Closed(z) && ts != []
    ensures Carries(ParsePredicate(num, ts), ParsePredicate(num, ts + z), z)
  {
    var prop := Property(StripPrefix(ts[0].text));
    AdvanceCarries(ts, z);
    if Advance(ts).Done? && Advance(ts).value != [] {
      var ts1 := Advance(ts).value;
      ComparisonCarries(num, prop, ts1, z);
      NegatedCarries(num, prop, ts1, z);
      KeywordCarries(num, prop, false, ts1, z);
    }
  }

  lemma {:induction false} WktBodyCarries(ts: Tokens, depth: nat, first: bool, read: string, z: Tokens)
    requires Open(z) && depth > 0
    ensures Carries(WktBody(ts, depth, first, read), WktBody(ts + z, depth, first, read), z)
    decreases |ts|
  {
    if ts != [] {
      AdvanceCarries(ts, z);
      var step := WktAdd(ts[0], depth, first);
      if step.depth > 0 && Advance(ts).Done? {
        WktBodyCarries(Advance(ts).value, step.depth, step.first, read + step.piece, z);
      }
    }
  }

  lemma WktCarries(ts: Tokens, z: Tokens)
    requires Open(z)
    ensures Carries(ParseWkt(ts), ParseWkt(ts + z), z)
  {
    if ts != [] {
      AdvanceCarries(ts, z);
      if Advance(ts).Done? && Advance(ts).value != [] {
        var ts1 := Advance(ts).value;
        AdvanceCarries(ts1, z);
        if Advance(ts1).Done? {
          WktBodyCarries(Advance(ts1).value, 1, true, ts[0].up + "(", z);
        }
      }
    }
  }

  lemma SubjectCarries(ts: Tokens, z: Tokens)
    requires Closed(z) && ts != []
    ensures Carries(ParseSubject(ts), ParseSubject(ts + z), z)
  {
    AdvanceCarries(ts, z);
    if Advance(ts).Done? {
      var ts1 := Advance(ts).value;
      ExpectCarries("(", ts1, z);
      if Expect("(", ts1).Done? && Expect("(", ts1).value != [] {
        AdvanceCarries(Expect("(", ts1).value, z);
      }
    }
  }

  lemma CommaNumCarries(num: NumeralReader, ts: Tokens, z: Tokens)
    requires Closed(z)
    ensures Carries(ParseCommaNum(num, ts), ParseCommaNum(num, ts + z), z)
  {
    ExpectCarries(",", ts, z);
    if Expect(",", ts).Done? && Expect(",", ts).value != [] {
      AdvanceCarries(Expect(",", ts).value, z);
    }
  }

  lemma {:induction false} NumsCarries(num: NumeralReader, n: nat, read: seq<Float>, ts: Tokens, z: Tokens)
    requires Closed(z)
    ensures Carries(ParseNums(num, n, read, ts), ParseNums(num, n, read, ts + z), z)
    decreases n
  {
    if n > 0 {
      CommaNumCarries(num, ts, z);
      if ParseCommaNum(num, ts).Done? {
        var (f, rest) := ParseCommaNum(num, ts).value;
        NumsCarries(num, n - 1, read + [f], rest, z);
      }
    }
  }

  lemma SrsCarries(ts: Tokens, z: Tokens)
    requires Closed(z) && ts != []
    ensures Carries(ParseSrs(ts), ParseSrs(ts + z), z)
  {
    AdvanceCarries(ts, z);
    if Advance(ts).Done? && Advance(ts).value != [] {
      AdvanceCarries(Advance(ts).value, z);
    }
  }

  lemma BBoxCarries(num: NumeralReader, ts: Tokens, z: Tokens)
    requires Closed(z) && ts != []
    ensures Carries(ParseBBox(num, ts), ParseBBox(num, ts + z), z)
  {
    SubjectCarries(ts, z);
    if ParseBBox(num, ts).Done? {
      var ts1 := ParseSubject(ts).value.1;
      NumsCarries(num, 4, [], ts1, z);
      var ts2 := ParseNums(num, 4, [], ts1).value.1;
      SrsCarries(ts2, z);
      ExpectCarries(")", ParseSrs(ts2).value.1, z);
    }
  }

  lemma CommaWktCarries(ts: Tokens, z: Tokens)
    requires Closed(z)
    ensures Carries(ParseCommaWkt(ts), ParseCommaWkt(ts + z), z)
  {
    ExpectCarries(",", ts, z);
    if Expect(",", ts).Done? {
      WktCarries(Expect(",", ts).value, z);
    }
  }

  lemma SpatialCarries(rel: SpatialOp, ts: Tokens, z: Tokens)
    requires Closed(z) && ts != []
    ensures Carries(ParseSpatial(rel, ts), ParseSpatial(rel, ts + z), z)
  {
    SubjectCarries(ts, z);
    if ParseSpatial(rel, ts).Done? {
      var ts1 := ParseSubject(ts).value.1;
      CommaWktCarries(ts1, z);
      ExpectCarries(")", ParseCommaWkt(ts1).value.1, z);
    }
  }

  lemma DWithinEndCarries(geom: string, wkt: string, distance: Float, beyond: bool, ts: Tokens, z: Tokens)
    requires Closed(z)
    ensures Carries(DWithinEnd(geom, wkt, distance, beyond, ts), DWithinEnd(geom, wkt, distance, beyond, ts + z), z)
  {
    ExpectCarries(",", ts, z);
    if DWithinEnd(geom, wkt, distance, beyond, ts).Done? {
      var ts1 := Expect(",", ts).value;
      AdvanceCarries(ts1, z);
      ExpectCarries(")", Advance(ts1).value, z);
    }
  }

  lemma DWithinCarries(num: NumeralReader, beyond: bool, ts: Tokens, z: Tokens)
    requires Closed(z) && ts != []
    ensures Carries(ParseDWithin(num, beyond, ts), ParseDWithin(num, beyond, ts + z), z)
  {
    SubjectCarries(ts, z);
    if ParseDWithin(num, beyond, ts).Done? {
      var (geom, ts1) := ParseSubject(ts).value;
      CommaWktCarries(ts1, z);
      var (wkt, ts2) := ParseCommaWkt(ts1).value;
      CommaNumCarries(num, ts2, z);
      var (distance, ts3) := ParseCommaNum(num, ts2).value;
      DWithinEndCarries(geom, wkt, distance, beyond, ts3, z);
    }
  }

  lemma AtomCarries(num: NumeralReader, ts: Tokens, z: Tokens)
    requires Closed(z) && ts != []
    ensures Carries(ParseAtom(num, ts), ParseAtom(num, ts + z), z)
  {
    AdvanceCarries(ts, z);
    match AtomKindOf(ts[0].up) {
      case Box => BBoxCarries(num, ts, z);
      case Relation(rel) => SpatialCarries(rel, ts, z);
      case Distance(beyond) => DWithinCarries(num, beyond, ts, z);
      case OnProperty => PredicateCarries(num, ts, z);
      case _ =>
    }
  }

  // ---- The mutual induction over the logical structure ----

  lemma {:induction false} ChainCarries(num: NumeralReader, op: LogicOp, ts: Tokens, z: Tokens)
    requires Closed(z)
    ensures Carries(ParseChain(num, op, ts), ParseChain(num, op, ts + z), z)
    decreases |ts|, if op.Or? then 5 else 3
  {
    OperandCarries(num, op, ts, z);
    if ParseOperand(num, op, ts).Done? {
      var (first, rest) := ParseOperand(num, op, ts).value;
      TailCarries(num, op, first, rest, z);
    }
  }

  lemma {:induction false} OperandCarries(num: NumeralReader, op: LogicOp, ts: Tokens, z: Tokens)
    requires Closed(z)
    ensures Carries(ParseOperand(num, op, ts), ParseOperand(num, op, ts + z), z)
    decreases |ts|, if op.Or? then 4 else 2
  {
    match op
    case Or => ChainCarries(num, And, ts, z);
    case And => UnaryCarries(num, ts, z);
  }

  lemma {:induction false} TailCarries(num: NumeralReader, op: LogicOp, left: Expr, ts: Tokens, z: Tokens)
    requires Closed(z)
    ensures Carries(ParseTail(num, op, left, ts), ParseTail(num, op, left, ts + z), z)
    decreases |ts|, 0
  {
    if ts == [] {
      assert ts + z == z;
    } else {
      AdvanceCarries(ts, z);
      if IsWord(ts[0], Connective(op)) && Advance(ts).Done? {
        var ts1 := Advance(ts).value;
        OperandCarries(num, op, ts1, z);
        if ParseOperand(num, op, ts1).Done? {
          var (right, ts2) := ParseOperand(num, op, ts1).value;
          TailCarries(num, op, Logic(op, [left, right]), ts2, z);
        }
      }
    }
  }

  lemma {:induction false} UnaryCarries(num: NumeralReader, ts: Tokens, z: Tokens)
    requires Closed(z)
    ensures Carries(ParseUnary(num, ts), ParseUnary(num, ts + z), z)
    decreases |ts|, 1
  {
    if ts != [] {
      AdvanceCarries(ts, z);
      if IsWord(ts[0], "NOT") {
        if Advance(ts).Done? {
          UnaryCarries(num, Advance(ts).value, z);
        }
      } else {
        PrimaryCarries(num, ts, z);
      }
    }
  }

  lemma {:induction false} PrimaryCarries(num: NumeralReader, ts: Tokens, z: Tokens)
    requires Closed(z)
    ensures Carries(ParsePrimary(num, ts), ParsePrimary(num, ts + z), z)
    decreases |ts|, 0
  {
    if ts != [] {
      AdvanceCarries(ts, z);
      if !IsPunct(ts[0], '(') {
        AtomCarries(num, ts, z);
      } else if Advance(ts).Done? {
        var ts1 := Advance(ts).value;
        ChainCarries(num, Or, ts1, z);
        if ParseChain(num, Or, ts1).Done? && ParseChain(num, Or, ts1).value.1 != [] {
          AdvanceCarries(ParseChain(num, Or, ts1).value.1, z);
        }
      }
    }
  }

  // ---- Joining texts ----

  /** The text `andCQL` builds from two constraints that are not empty. */
  function Joined(a: string, b: string): string {
    "(" + a + ") AND (" + b + ")"
  }

  const OPEN := L.PunctToken('(')
  const CLOSE := L.PunctToken(')')

  lemma Regroup<T>(open: seq<T>, a: seq<T>, close: seq<T>, z: seq<T>)
    ensures open + (a + (close + z)) == open + a + close + z
  {
  }

  lemma StreamOfBracketed(a: string, z: string)
    requires L.Clean(L.Stream(a)) && L.Delimited(z)
    ensures L.Stream("(" + a + ")" + z) == [OPEN] + L.Stream(a) + [CLOSE] + L.Stream(z)
  {
    var tail := ")" + z;
    L.StreamPunct(')', z);
    L.StreamAppend(a, tail);
    L.StreamPunct('(', a + tail);
    Regroup("(", a, ")", z);
    Regroup([OPEN], L.Stream(a), [CLOSE], L.Stream(z));
  }

  lemma JoinedText(a: string, b: string, second: string)
    requires second == "(" + b + ")" + ""
    ensures Joined(a, b) == "(" + a + ")" + (" " + ("AND" + (" " + second)))
  {
    var mid := ") AND (";
    assert mid == ")" + (" " + ("AND" + (" " + "(")));
    assert "(" + a + mid + b + ")" == "(" + a + ")" + (" " + ("AND" + (" " + second)));
  }

  lemma StreamOfJoined(a: string, b: string)
    requires L.Clean(L.Stream(a)) && L.Clean(L.Stream(b))
    ensures L.Stream(Joined(a, b)) ==
            [OPEN] + L.Stream(a) + [CLOSE] + ([L.IdentToken("AND")] + ([OPEN] + L.Stream(b) + [CLOSE] + []))
  {
    var second := "(" + b + ")" + "";
    StreamOfBracketed(b, "");
    var spaced := " " + second;
    L.StreamSpace(second);
    var conj := "AND" + spaced;
    L.StreamIdent("AND", spaced);
    var z := " " + conj;
    L.StreamSpace(conj);
    StreamOfBracketed(a, z);
    JoinedText(a, b, second);
  }

  /** A bracketed filter is an operand that parses to the filter and leaves what follows. */
  lemma BracketedOperand(num: NumeralReader, ts: Tokens, z: Tokens)
    requires ParseTokens(num, ts).Done? && Open(z)
    ensures ParseOperand(num, And, [OPEN] + ts + [CLOSE] + z) == Done((ParseTokens(num, ts).value, z))
  {
    var tail := [CLOSE] + z;
    assert tail[1..] == z;
    ChainCarries(num, Or, ts, tail);
    assert [] + tail == tail;
    assert ts[0].kind != L.Bad;
    var all := [OPEN] + (ts + tail);
    assert all[1..] == ts + tail;
    assert ParsePrimary(num, all) == Done((ParseTokens(num, ts).value, z));
    assert ParseUnary(num, all) == ParsePrimary(num, all);
    assert all == [OPEN] + ts + [CLOSE] + z;
  }

  lemma CleanConcat(ta: Tokens, tb: Tokens)
    requires L.Clean(ta) && L.Clean(tb)
    ensures L.Clean(ta + tb)
  {
  }

  /** A chain of two bracketed filters joined by AND. */
  lemma JoinedTokensParse(num: NumeralReader, ta: Tokens, tb: Tokens)
    requires ParseTokens(num, ta).Done? && ParseTokens(num, tb).Done?
    ensures var all := [OPEN] + ta + [CLOSE] + ([L.IdentToken("AND")] + ([OPEN] + tb + [CLOSE] + []));
            ParseTokens(num, all) == Done(Logic(And, [ParseTokens(num, ta).value, ParseTokens(num, tb).value]))
  {
    var second := [OPEN] + tb + [CLOSE] + [];
    var tail := [L.IdentToken("AND")] + second;
    var all := [OPEN] + ta + [CLOSE] + tail;
    var left := ParseTokens(num, ta).value;
    var both := Logic(And, [left, ParseTokens(num, tb).value]);
    assert tail[1..] == second;
    BracketedOperand(num, ta, tail);
    BracketedOperand(num, tb, []);
    assert ParseTail(num, And, both, []) == Done((both, []));
    assert ParseTail(num, And, left, tail) == Done((both, []));
    assert ParseChain(num, And, all) == Done((both, []));
    assert ParseTail(num, Or, both, []) == Done((both, []));
    assert ParseOperand(num, Or, all) == ParseChain(num, And, all);
    assert ParseChain(num, Or, all) == Done((both, []));
    CleanConcat([OPEN], ta);
    CleanConcat([OPEN], tb);
    assert L.Clean(all);
  }

  /** Two filters that parse, bracketed and joined by AND, parse to the conjunction of their trees. */
  lemma JoinedParses(num: NumeralReader, a: string, b: string)
    requires ParseCql(num, a).Done? && ParseCql(num, b).Done?
    ensures ParseCql(num, Joined(a, b)) == Done(Logic(And, [ParseCql(num, a).value, ParseCql(num, b).value]))
  {
    StreamOfJoined(a, b);
    JoinedTokensParse(num, L.Stream(a), L.Stream(b));
  }

  // ---- Texts that are no filters ----

  /** Two filters with a closing and an opening bracket and OR between them. */
  function Unbalanced(x: string, y: string): string {
    x + ") OR (" + y
  }

  lemma UnbalancedText(a: string, x: string, y: string, third: string)
    requires third == "(" + y + ")" + ""
    ensures Joined(a, Unbalanced(x, y)) ==
            "(" + a + ")" + (" " + ("AND" + (" " + ("(" + x + ")" + (" " + ("OR" + (" " + third)))))))
  {
    var mid, more := ") AND (", ") OR (";
    assert mid == ")" + (" " + ("AND" + (" " + "(")));
    assert more == ")" + (" " + ("OR" + (" " + "(")));
    assert "(" + a + mid + (x + more + y) + ")" == "(" + a + ")" + (" " + ("AND" + (" " + ("(" + x + ")" + (" " + ("OR" + (" " + third)))))));
  }

  lemma StreamOfUnbalanced(a: string, x: string, y: string)
    requires L.Clean(L.Stream(a)) && L.Clean(L.Stream(x)) && L.Clean(L.Stream(y))
    ensures L.Stream(Joined(a, Unbalanced(x, y))) ==
            [OPEN] + L.Stream(a) + [CLOSE] + ([L.IdentToken("AND")] + ([OPEN] + L.Stream(x) + [CLOSE] +
            ([L.IdentToken("OR")] + ([OPEN] + L.Stream(y) + [CLOSE] + []))))
  {
    var third := "(" + y + ")" + "";
    StreamOfBracketed(y, "");
    StreamBehindWord("OR", third);
    var second := "(" + x + ")" + (" " + ("OR" + (" " + third)));
    StreamOfBracketed(x, " " + ("OR" + (" " + third)));
    StreamBehindWord("AND", second);
    StreamOfBracketed(a, " " + ("AND" + (" " + second)));
    UnbalancedText(a, x, y, third);
  }

  lemma StreamBehindWord(word: string, z: string)
    requires word == "AND" || word == "OR"
    ensures L.Stream(" " + (word + (" " + z))) == [L.IdentToken(word)] + L.Stream(z)
  {
    L.StreamSpace(z);
    L.StreamIdent(word, " " + z);
    L.StreamSpace(word + (" " + z));
  }

  lemma UnbalancedTokensParse(num: NumeralReader, ta: Tokens, tx: Tokens, ty: Tokens)
    requires ParseTokens(num, ta).Done? && ParseTokens(num, tx).Done? && ParseTokens(num, ty).Done?
    ensures var third := [L.IdentToken("OR")] + ([OPEN] + ty + [CLOSE] + []);
            var all := [OPEN] + ta + [CLOSE] + ([L.IdentToken("AND")] + ([OPEN] + tx + [CLOSE] + third));
            ParseChain(num, Or, all) ==
            Done((Logic(Or, [Logic(And, [ParseTokens(num, ta).value, ParseTokens(num, tx).value]), ParseTokens(num, ty).value]), []))
  {
    var last := [OPEN] + ty + [CLOSE] + [];
    var third := [L.IdentToken("OR")] + last;
    var second := [OPEN] + tx + [CLOSE] + third;
    var tail := [L.IdentToken("AND")] + second;
    var all := [OPEN] + ta + [CLOSE] + tail;
    var left, right := ParseTokens(num, ta).value, ParseTokens(num, ty).value;
    var both := Logic(And, [left, ParseTokens(num, tx).value]);
    assert tail[1..] == second && third[1..] == last;
    BracketedOperand(num, ta, tail);
    BracketedOperand(num, tx, third);
    BracketedOperand(num, ty, []);
    assert ParseTail(num, And, both, third) == Done((both, third));
    assert ParseTail(num, And, left, tail) == Done((both, third));
    assert ParseChain(num, And, all) == Done((both, third));
    assert ParseTail(num, And, right, []) == Done((right, []));
    assert ParseOperand(num, Or, last) == Done((right, []));
    var whole := Logic(Or, [both, right]);
    assert ParseTail(num, Or, whole, []) == Done((whole, []));
    assert ParseTail(num, Or, both, third) == Done((whole, []));
  }

  lemma CleanUnbalanced(ta: Tokens, tx: Tokens, ty: Tokens)
    requires L.Clean(ta) && L.Clean(tx) && L.Clean(ty)
    ensures L.Clean([OPEN] + ta + [CLOSE] + ([L.IdentToken("AND")] + ([OPEN] + tx + [CLOSE] + ([L.IdentToken("OR")] + ([OPEN] + ty + [CLOSE] + [])))))
  {
  }

  /** Such a text is no filter, and yet a filter comes of it when it is composed with another: one that is no conjunction. */
  lemma UnbalancedComposes(num: NumeralReader, a: string, x: string, y: string)
    requires ParseCql(num, a).Done? && ParseCql(num, x).Done? && ParseCql(num, y).Done?
    ensures ParseCql(num, Unbalanced(x, y)).Fail?
    ensures ParseCql(num, Joined(a, Unbalanced(x, y))) ==
            Done(Logic(Or, [Logic(And, [ParseCql(num, a).value, ParseCql(num, x).value]), ParseCql(num, y).value]))
  {
    StreamOfUnbalanced(a, x, y);
    UnbalancedTokensParse(num, L.Stream(a), L.Stream(x), L.Stream(y));
    CleanUnbalanced(L.Stream(a), L.Stream(x), L.Stream(y));
    UnbalancedFails(num, x, y);
  }

  lemma UnbalancedFails(num: NumeralReader, x: string, y: string)
    requires ParseCql(num, x).Done?
    ensures ParseCql(num, Unbalanced(x, y)).Fail?
  {
    var z := " OR (" + y;
    L.StreamPunct(')', z);
    L.StreamAppend(x, ")" + z);
    assert x + (")" + z) == Unbalanced(x, y);
    var tail := [CLOSE] + L.Stream(z);
    if L.Clean(L.Stream(Unbalanced(x, y))) {
      assert tail == L.Stream(Unbalanced(x, y))[|L.Stream(x)|..];
      ChainCarries(num, Or, L.Stream(x), tail);
      assert [] + tail == tail;
    }
  }
}

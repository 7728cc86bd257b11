/** The text of a compiled fragment reads as its tokens, whatever is written behind it. */
module SqlText {
  import opened Outcomes
  import opened FilterAst
  import opened SqlCompiler
  import opened SqlLexer
  import opened SqlFragments
  import L = CqlLexer

  /** `a` reads as `ta` in front of every text, or of every text that cannot prolong it unless `closed`. */
  ghost predicate Reads(a: string, ta: Toks, closed: bool) {
    forall t: string {:trigger a + t} :: closed || Ends(t) ==> Lex(a + t) == ta + Lex(t)
  }

  predicate Begins(b: string) {
    b != "" && (b[0] == ' ' || IsMark(b[0]))
  }

  lemma Append(a: string, ta: Toks, aClosed: bool, b: string, tb: Toks, bClosed: bool)
    requires Reads(a, ta, aClosed) && Reads(b, tb, bClosed) && (aClosed || Begins(b))
    ensures Reads(a + b, ta + tb, bClosed)
  {
    forall t: string | bClosed || Ends(t)
      ensures Lex(a + b + t) == ta + tb + Lex(t)
    {
      Assoc(a, b, t);
      assert aClosed || Ends(b + t);
      Assoc(ta, tb, Lex(t));
    }
  }

  lemma SpaceReads()
    ensures Reads(" ", [], true)
  {
    forall t: string
      ensures Lex(" " + t) == [] + Lex(t)
    {
      LexSpace(t);
    }
  }

  lemma MarkReads(c: char)
    requires IsMark(c)
    ensures Reads([c], [Mark(c)], true)
  {
    forall t: string
      ensures Lex([c] + t) == [Mark(c)] + Lex(t)
    {
      LexMark(c, t);
    }
  }

  lemma WordReads(word: string, up: string)
    requires IsWord(word) && L.Upper(word) == up
    ensures Reads(word, [Word(up)], false)
  {
    forall t: string | Ends(t)
      ensures Lex(word + t) == [Word(up)] + Lex(t)
    {
      LexWord(word, t);
    }
  }

  lemma OperatorReads(op: string)
    requires op != "" && forall i | 0 <= i < |op| :: IsOperatorChar(op[i])
    ensures Reads(op, [Sym(op)], false)
  {
    forall t: string | Ends(t)
      ensures Lex(op + t) == [Sym(op)] + Lex(t)
    {
      LexOperator(op, t);
    }
  }

  lemma PlaceholderReads(n: nat)
    ensures Reads(Placeholder(n), [Param(n)], false)
  {
    forall t: string | Ends(t)
      ensures Lex(Placeholder(n) + t) == [Param(n)] + Lex(t)
    {
      LexParam(n, t);
    }
  }

  lemma IdentifierReads(name: string)
    requires IsIdentifier(name)
    ensures Reads("\"" + name + "\"", [Quoted(name)], false)
  {
    var quoted := "\"" + name + "\"";
    forall t: string | Ends(t)
      ensures Lex(quoted + t) == [Quoted(name)] + Lex(t)
    {
      assert forall i | 0 <= i < |name| :: name[i] != '"';
      LexQuoted(name, t);
    }
  }

  lemma AppendSpaced(a: string, ta: Toks, aClosed: bool, b: string, tb: Toks, bClosed: bool)
    requires Reads(a, ta, aClosed) && Reads(b, tb, bClosed)
    ensures Reads(a + " " + b, ta + tb, bClosed)
  {
    SpaceReads();
    Append(a, ta, aClosed, " ", [], true);
    assert ta + [] == ta;
    Append(a + " ", ta, true, b, tb, bClosed);
  }

  lemma AppendMark(a: string, ta: Toks, aClosed: bool, c: char)
    requires Reads(a, ta, aClosed) && IsMark(c)
    ensures Reads(a + [c], ta + [Mark(c)], true)
  {
    MarkReads(c);
    Append(a, ta, aClosed, [c], [Mark(c)], true);
  }

  // ---- Pieces that several fragments share ----

  lemma KeywordsUpper()
    ensures L.Upper("NOT") == "NOT" && L.Upper("LIKE") == "LIKE" && L.Upper("ILIKE") == "ILIKE"
    ensures L.Upper("IN") == "IN" && L.Upper("BETWEEN") == "BETWEEN"
    ensures L.Upper("IS") == "IS" && L.Upper("NULL") == "NULL" && L.Upper("TRUE") == "TRUE"
  {
  }

  lemma ConnectiveReads(op: LogicOp)
    ensures Reads(" " + Connective(op) + " ", [Word(Connective(op))], true)
  {
    var word := Connective(op);
    assert L.Upper("AND") == "AND" && L.Upper("OR") == "OR";
    WordReads(word, word);
    SpaceReads();
    Append(" ", [], true, word, [Word(word)], false);
    assert [] + [Word(word)] == [Word(word)];
    Append(" " + word, [Word(word)], false, " ", [], true);
    assert [Word(word)] + [] == [Word(word)];
  }

  lemma CommaReads()
    ensures Reads(", ", [Mark(',')], true)
  {
    MarkReads(',');
    SpaceReads();
    Append(",", [Mark(',')], true, " ", [], true);
    assert [Mark(',')] + [] == [Mark(',')];
    assert "," + " " == ", ";
  }

  lemma NotWordReads(negate: bool, word: string)
    requires IsWord(word) && L.Upper(word) == word
    ensures Reads(NotWord(negate, word), NotOnto(negate, [Word(word)]), false)
  {
    WordReads(word, word);
    if negate {
      KeywordsUpper();
      WordReads("NOT", "NOT");
      AppendSpaced("NOT", [Word("NOT")], false, word, [Word(word)], false);
      assert "NOT" + " " == "NOT ";
    }
  }

  lemma NothingReads()
    ensures Reads("", [], true)
  {
    forall t: string
      ensures Lex("" + t) == [] + Lex(t)
    {
      assert "" + t == t;
    }
  }

  lemma {:induction false} PlaceholdersRead(k: nat, n: nat)
    ensures Reads(Join(Placeholders(k, n), ", "), ParamsOnto(k, n, []), false)
    decreases n
  {
    var phs := Placeholders(k, n);
    var p := Placeholder(k);
    PlaceholderReads(k);
    assert n > 0 ==> phs[0] == p && phs[1..] == Placeholders(k + 1, n - 1);
    if n == 0 {
      NothingReads();
    } else if n == 1 {
      assert |phs| == 1;
    } else {
      assert |phs| == 1 + |phs[1..]| && |phs[1..]| > 0;
      CommaReads();
      Append(p, [Param(k)], false, ", ", [Mark(',')], true);
      PlaceholdersRead(k + 1, n - 1);
      assert [Param(k)] + [Mark(',')] == [Param(k), Mark(',')];
      Append(p + ", ", [Param(k), Mark(',')], true, Join(phs[1..], ", "), ParamsOnto(k + 1, n - 1, []), false);
    }
  }

  // ---- Fragments ----

  lemma CompareReads(l: string, tl: Toks, op: CompareOp, r: string, tr: Toks)
    requires Reads(l, tl, false) && Reads(r, tr, false)
    ensures Reads(l + " " + CompareText(op) + " " + r, tl + [Sym(CompareText(op))] + tr, false)
  {
    var o := CompareText(op);
    OperatorReads(o);
    AppendSpaced(l, tl, false, o, [Sym(o)], false);
    AppendSpaced(l + " " + o, tl + [Sym(o)], false, r, tr, false);
  }

  lemma LikeReads(col: string, tc: Toks, negate: bool, ci: bool, n: nat)
    requires Reads(col, tc, false)
    ensures Reads(col + " " + NotWord(negate, LikeWord(ci)) + " " + Placeholder(n),
                  tc + NotOnto(negate, [Word(LikeWord(ci))]) + [Param(n)], false)
  {
    KeywordsUpper();
    var op, to := NotWord(negate, LikeWord(ci)), NotOnto(negate, [Word(LikeWord(ci))]);
    NotWordReads(negate, LikeWord(ci));
    AppendSpaced(col, tc, false, op, to, false);
    PlaceholderReads(n);
    AppendSpaced(col + " " + op, tc + to, false, Placeholder(n), [Param(n)], false);
  }

  lemma InReads(col: string, tc: Toks, negate: bool, list: string, tl: Toks)
    requires Reads(col, tc, false) && Reads(list, tl, false)
    ensures Reads(col + " " + NotWord(negate, "IN") + " (" + list + ")",
                  tc + NotOnto(negate, [Word("IN")]) + [Mark('(')] + tl + [Mark(')')], true)
  {
    KeywordsUpper();
    var op, to := NotWord(negate, "IN"), NotOnto(negate, [Word("IN")]);
    NotWordReads(negate, "IN");
    AppendSpaced(col, tc, false, op, to, false);
    MarkReads('(');
    AppendSpaced(col + " " + op, tc + to, false, "(", [Mark('(')], true);
    SpaceOpen(col + " " + op);
    Append(col + " " + op + " (", tc + to + [Mark('(')], true, list, tl, false);
    AppendMark(col + " " + op + " (" + list, tc + to + [Mark('(')] + tl, false, ')');
  }

  lemma SpaceOpen(a: string)
    ensures a + " " + "(" == a + " ("
  {
    Assoc(a, " ", "(");
    assert " " + "(" == " (";
  }

  lemma BetweenReads(col: string, tc: Toks, negate: bool, n: nat)
    requires Reads(col, tc, false)
    ensures Reads(col + " " + NotWord(negate, "BETWEEN") + " " + Placeholder(n) + " AND " + Placeholder(n + 1),
                  tc + NotOnto(negate, [Word("BETWEEN")]) + [Param(n)] + [Word("AND")] + [Param(n + 1)], false)
  {
    KeywordsUpper();
    var op, to := NotWord(negate, "BETWEEN"), NotOnto(negate, [Word("BETWEEN")]);
    var p, q := Placeholder(n), Placeholder(n + 1);
    NotWordReads(negate, "BETWEEN");
    AppendSpaced(col, tc, false, op, to, false);
    PlaceholderReads(n);
    AppendSpaced(col + " " + op, tc + to, false, p, [Param(n)], false);
    ConnectiveReads(And);
    assert " " + "AND" + " " == " AND ";
    Append(col + " " + op + " " + p, tc + to + [Param(n)], false, " AND ", [Word("AND")], true);
    PlaceholderReads(n + 1);
    Append(col + " " + op + " " + p + " AND ", tc + to + [Param(n)] + [Word("AND")], true, q, [Param(n + 1)], false);
  }

  lemma IsNullReads(col: string, tc: Toks, negate: bool)
    requires Reads(col, tc, false)
    ensures Reads(col + (if negate then " IS NOT NULL" else " IS NULL"), tc + [Word("IS")] + NotOnto(negate, [Word("NULL")]), false)
  {
    KeywordsUpper();
    var op, to := NotWord(negate, "NULL"), NotOnto(negate, [Word("NULL")]);
    WordReads("IS", "IS");
    AppendSpaced(col, tc, false, "IS", [Word("IS")], false);
    NotWordReads(negate, "NULL");
    AppendSpaced(col + " " + "IS", tc + [Word("IS")], false, op, to, false);
    var tail := if negate then " IS NOT NULL" else " IS NULL";
    assert tail == " " + "IS" + " " + op;
    Assoc(col, " ", "IS");
    Assoc(col, " " + "IS", " ");
    Assoc(col, " " + "IS" + " ", op);
  }

  lemma NotReads(text: string, ts: Toks)
    requires Reads(text, ts, false)
    ensures Reads("NOT (" + text + ")", [Word("NOT"), Mark('(')] + ts + [Mark(')')], true)
  {
    KeywordsUpper();
    WordReads("NOT", "NOT");
    MarkReads('(');
    AppendSpaced("NOT", [Word("NOT")], false, "(", [Mark('(')], true);
    assert "NOT" + " " + "(" == "NOT (";
    assert [Word("NOT")] + [Mark('(')] == [Word("NOT"), Mark('(')];
    Append("NOT (", [Word("NOT"), Mark('(')], true, text, ts, false);
    AppendMark("NOT (" + text, [Word("NOT"), Mark('(')] + ts, false, ')');
  }

  lemma BracketsRead(text: string, ts: Toks)
    requires Reads(text, ts, false)
    ensures Reads("(" + text + ")", [Mark('(')] + ts + [Mark(')')], true)
  {
    MarkReads('(');
    Append("(", [Mark('(')], true, text, ts, false);
    AppendMark("(" + text, [Mark('(')] + ts, false, ')');
  }

  /** A function name with its opening bracket. */
  lemma CallReads(name: string, up: string)
    requires IsWord(name) && L.Upper(name) == up
    ensures Reads(name + "(", [Word(up)] + [Mark('(')], true)
  {
    WordReads(name, up);
    AppendMark(name, [Word(up)], false, '(');
  }

  lemma GeometryWord()
    ensures IsWord("ST_GeomFromText") && L.Upper("ST_GeomFromText") == "ST_GEOMFROMTEXT"
    ensures ", " + "ST_GeomFromText" + "(" == ", ST_GeomFromText("
  {
  }

  lemma EnvelopeWord()
    ensures IsWord("ST_MakeEnvelope") && L.Upper("ST_MakeEnvelope") == "ST_MAKEENVELOPE"
  {
  }

  lemma EnvelopeText()
    ensures " " + "&&" + " " + "ST_MakeEnvelope" + "(" == " && ST_MakeEnvelope("
  {
  }

  lemma CommaCallReads(name: string, up: string)
    requires IsWord(name) && L.Upper(name) == up
    ensures Reads(", " + name + "(", [Mark(',')] + [Word(up)] + [Mark('(')], true)
  {
    CommaReads();
    WordReads(name, up);
    Append(", ", [Mark(',')], true, name, [Word(up)], false);
    AppendMark(", " + name, [Mark(',')] + [Word(up)], false, '(');
  }

  lemma OverlapCallReads(op: string, name: string, up: string)
    requires IsWord(name) && L.Upper(name) == up
    requires op != "" && forall i | 0 <= i < |op| :: IsOperatorChar(op[i])
    ensures Reads(" " + op + " " + name + "(", [Sym(op)] + [Word(up)] + [Mark('(')], true)
  {
    OperatorReads(op);
    SpaceReads();
    Append(" ", [], true, op, [Sym(op)], false);
    assert [] + [Sym(op)] == [Sym(op)];
    WordReads(name, up);
    AppendSpaced(" " + op, [Sym(op)], false, name, [Word(up)], false);
    AppendMark(" " + op + " " + name, [Sym(op)] + [Word(up)], false, '(');
  }

  lemma GeometryCallReads()
    ensures Reads(", ST_GeomFromText(", [Mark(',')] + [Word("ST_GEOMFROMTEXT")] + [Mark('(')], true)
  {
    GeometryWord();
    CommaCallReads("ST_GeomFromText", "ST_GEOMFROMTEXT");
  }

  lemma EnvelopeCallReads()
    ensures Reads(" && ST_MakeEnvelope(", [Sym("&&")] + [Word("ST_MAKEENVELOPE")] + [Mark('(')], true)
  {
    EnvelopeWord();
    EnvelopeText();
    OverlapCallReads("&&", "ST_MakeEnvelope", "ST_MAKEENVELOPE");
  }

  /** One more placeholder behind a comma. */
  lemma NextReads(a: string, ta: Toks, n: nat)
    requires Reads(a, ta, false)
    ensures Reads(a + ", " + Placeholder(n), ta + [Mark(',')] + [Param(n)], false)
  {
    CommaReads();
    Append(a, ta, false, ", ", [Mark(',')], true);
    PlaceholderReads(n);
    Append(a + ", ", ta + [Mark(',')], true, Placeholder(n), [Param(n)], false);
  }

  lemma EnvelopeReads(col: string, tc: Toks, k: nat)
    requires Reads(col, tc, false)
    ensures Reads(col + " && ST_MakeEnvelope(" + Placeholder(k) + ", " + Placeholder(k + 1) + ", " + Placeholder(k + 2) + ", " + Placeholder(k + 3) + ")",
                  tc + ([Sym("&&")] + [Word("ST_MAKEENVELOPE")] + [Mark('(')]) + [Param(k)] + [Mark(',')] + [Param(k + 1)]
                  + [Mark(',')] + [Param(k + 2)] + [Mark(',')] + [Param(k + 3)] + [Mark(')')], true)
  {
    EnvelopeCallReads();
    var call := [Sym("&&")] + [Word("ST_MAKEENVELOPE")] + [Mark('(')];
    Append(col, tc, false, " && ST_MakeEnvelope(", call, true);
    PlaceholderReads(k);
    var a, ta := col + " && ST_MakeEnvelope(" + Placeholder(k), tc + call + [Param(k)];
    Append(col + " && ST_MakeEnvelope(", tc + call, true, Placeholder(k), [Param(k)], false);
    NextReads(a, ta, k + 1);
    var b, tb := a + ", " + Placeholder(k + 1), ta + [Mark(',')] + [Param(k + 1)];
    NextReads(b, tb, k + 2);
    var c, tc := b + ", " + Placeholder(k + 2), tb + [Mark(',')] + [Param(k + 2)];
    NextReads(c, tc, k + 3);
    AppendMark(c + ", " + Placeholder(k + 3), tc + [Mark(',')] + [Param(k + 3)], false, ')');
  }

  /** `f("geom", ST_GeomFromText($k)`, to be followed by more arguments or the closing bracket. */
  lemma RelationReads(name: string, up: string, col: string, tc: Toks, k: nat)
    requires IsWord(name) && L.Upper(name) == up && Reads(col, tc, false)
    ensures Reads(name + "(" + col + ", ST_GeomFromText(" + Placeholder(k) + ")",
                  [Word(up)] + [Mark('(')] + tc + ([Mark(',')] + [Word("ST_GEOMFROMTEXT")] + [Mark('(')]) + [Param(k)] + [Mark(')')], true)
  {
    CallReads(name, up);
    var head, th := name + "(", [Word(up)] + [Mark('(')];
    Append(head, th, true, col, tc, false);
    GeometryCallReads();
    var call, tcall := ", ST_GeomFromText(", [Mark(',')] + [Word("ST_GEOMFROMTEXT")] + [Mark('(')];
    Append(head + col, th + tc, false, call, tcall, true);
    PlaceholderReads(k);
    Append(head + col + call, th + tc + tcall, true, Placeholder(k), [Param(k)], false);
    AppendMark(head + col + call + Placeholder(k), th + tc + tcall + [Param(k)], false, ')');
  }

  // ---- Every fragment ----

  lemma OntoFront(e: Expr, k: nat, z: Toks)
    ensures TokensOnto(e, k, []) + z == TokensOnto(e, k, z)
  {
    OntoAppend(e, k, [], z);
    assert [] + z == z;
  }

  lemma NotFront(negate: bool, word: Tok, z: Toks)
    ensures NotOnto(negate, [word]) + z == NotOnto(negate, [word] + z)
  {
    NotAppend(negate, [word], z);
  }

  lemma LikeTokens(e: Expr, k: nat)
    requires e.Like?
    ensures TokensOnto(e.prop, k, []) + NotOnto(e.negate, [Word(LikeWord(e.caseInsensitive))]) + [Param(k + |ArgsOf(e.prop)|)] ==
      TokensOnto(e, k, [])
  {
    var word, p := Word(LikeWord(e.caseInsensitive)), [Param(k + |ArgsOf(e.prop)|)];
    NotFront(e.negate, word, p);
    Assoc(TokensOnto(e.prop, k, []), NotOnto(e.negate, [word]), p);
    OntoFront(e.prop, k, NotOnto(e.negate, [word] + p));
    assert p + [] == p;
  }

  lemma InTokens(e: Expr, k: nat)
    requires e.In?
    ensures TokensOnto(e.prop, k, []) + NotOnto(e.negate, [Word("IN")]) + [Mark('(')]
      + ParamsOnto(k + |ArgsOf(e.prop)|, |e.values|, []) + [Mark(')')] == TokensOnto(e, k, [])
  {
    var n, word, open, close := k + |ArgsOf(e.prop)|, Word("IN"), [Mark('(')], [Mark(')')];
    var list := ParamsOnto(n, |e.values|, []);
    var col, op := TokensOnto(e.prop, k, []), NotOnto(e.negate, [word]);
    Tail5(col, op, open, list, close);
    ParamsAppend(n, |e.values|, [], close);
    assert [] + close == close && close + [] == close;
    NotFront(e.negate, word, open + (list + close));
    OntoFront(e.prop, k, NotOnto(e.negate, [word] + (open + (list + close))));
  }

  lemma Tail5(a: Toks, b: Toks, c: Toks, d: Toks, e: Toks)
    ensures a + b + c + d + e == a + (b + (c + (d + e)))
  {
  }

  lemma BetweenTokens(e: Expr, k: nat)
    requires e.Between?
    ensures var n := k + |ArgsOf(e.prop)|;
            TokensOnto(e.prop, k, []) + NotOnto(e.negate, [Word("BETWEEN")]) + [Param(n)] + [Word("AND")] + [Param(n + 1)] ==
            TokensOnto(e, k, [])
  {
    var n, word := k + |ArgsOf(e.prop)|, Word("BETWEEN");
    var p, conj, q := [Param(n)], [Word("AND")], [Param(n + 1)];
    Tail5(TokensOnto(e.prop, k, []), NotOnto(e.negate, [word]), p, conj, q);
    NotFront(e.negate, word, p + (conj + q));
    assert q + [] == q;
    OntoFront(e.prop, k, NotOnto(e.negate, [word] + (p + (conj + q))));
  }

  lemma IsNullTokens(e: Expr, k: nat)
    requires e.IsNull?
    ensures TokensOnto(e.prop, k, []) + [Word("IS")] + NotOnto(e.negate, [Word("NULL")]) == TokensOnto(e, k, [])
  {
    var op := NotOnto(e.negate, [Word("NULL")]);
    Assoc(TokensOnto(e.prop, k, []), [Word("IS")], op);
    OntoFront(e.prop, k, [Word("IS")] + op);
    assert [Word("NULL")] + [] == [Word("NULL")];
  }

  lemma EnvelopeTokens(geom: string, k: nat)
    ensures [Quoted(geom)] + ([Sym("&&")] + [Word("ST_MAKEENVELOPE")] + [Mark('(')]) + [Param(k)] + [Mark(',')] + [Param(k + 1)]
      + [Mark(',')] + [Param(k + 2)] + [Mark(',')] + [Param(k + 3)] + [Mark(')')] == EnvelopeOnto(geom, k, [])
  {
  }

  lemma RelationTokens(word: Tok, geom: string, k: nat, z: Toks)
    ensures [word] + [Mark('(')] + [Quoted(geom)] + ([Mark(',')] + [Word("ST_GEOMFROMTEXT")] + [Mark('(')]) + [Param(k)] + [Mark(')')] + z ==
      [word] + ([Mark('(')] + ([Quoted(geom)] + ([Mark(',')] + GeometryOnto(k, z))))
  {
  }

  predicate IsCapital(word: string) {
    word != "" && forall i | 0 <= i < |word| :: 'A' <= word[i] <= 'Z'
  }

  lemma SpatialWordCapital(rel: SpatialOp)
    ensures IsCapital(SpatialWord(rel))
  {
  }

  lemma TitleOfCapital(word: string)
    requires IsCapital(word)
    ensures var t := Title(Lower(word));
            L.Upper(t) == word && forall i | 0 <= i < |t| :: IsWordPart(t[i])
  {
    var t := Title(Lower(word));
    assert |t| == |word|;
    forall i | 0 <= i < |word|
      ensures L.UpperChar(t[i]) == word[i] && IsWordPart(t[i])
    {
    }
  }

  lemma PrefixedWord(prefix: string, t: string)
    requires IsWord(prefix) && forall i | 0 <= i < |t| :: IsWordPart(t[i])
    ensures IsWord(prefix + t) && L.Upper(prefix + t) == L.Upper(prefix) + L.Upper(t)
  {
  }

  /** The name is written `ST_Intersects` and so on; folded to one case it is the relation's own word. */
  lemma SpatialName(rel: SpatialOp)
    ensures IsWord(SpatialFunction(rel)) && L.Upper(SpatialFunction(rel)) == "ST_" + SpatialWord(rel)
  {
    SpatialWordCapital(rel);
    TitleOfCapital(SpatialWord(rel));
    assert L.Upper("ST_") == "ST_";
    PrefixedWord("ST_", Title(Lower(SpatialWord(rel))));
  }

  lemma CloseText(a: string)
    ensures a + "))" == a + ")" + ")"
  {
  }

  lemma SpatialCallReads(name: string, up: string, geom: string, k: nat)
    requires IsIdentifier(geom) && IsWord(name) && L.Upper(name) == up
    ensures Reads(name + "(" + ("\"" + geom + "\"") + ", ST_GeomFromText(" + Placeholder(k) + "))",
                  [Word(up)] + ([Mark('(')] + ([Quoted(geom)] + ([Mark(',')] + GeometryOnto(k, [Mark(')')])))), true)
  {
    var col := "\"" + geom + "\"";
    IdentifierReads(geom);
    RelationReads(name, up, col, [Quoted(geom)], k);
    RelationTokens(Word(up), geom, k, [Mark(')')]);
    CloseText(name + "(" + col + ", ST_GeomFromText(" + Placeholder(k));
    AppendMark(name + "(" + col + ", ST_GeomFromText(" + Placeholder(k) + ")",
               [Word(up)] + [Mark('(')] + [Quoted(geom)] + ([Mark(',')] + [Word("ST_GEOMFROMTEXT")] + [Mark('(')]) + [Param(k)] + [Mark(')')], true, ')');
  }

  lemma SpatialReads(e: Expr, k: nat)
    requires e.Spatial? && IsIdentifier(e.geom)
    ensures Reads(TextOf(e, k), TokensOnto(e, k, []), true)
  {
    SpatialName(e.rel);
    SpatialCallReads(SpatialFunction(e.rel), "ST_" + SpatialWord(e.rel), e.geom, k);
    assert [Mark(')')] + [] == [Mark(')')];
  }

  lemma BBoxReads(e: Expr, k: nat)
    requires e.BBox? && IsIdentifier(e.geom)
    ensures Reads(TextOf(e, k), TokensOnto(e, k, []), true)
  {
    var col := "\"" + e.geom + "\"";
    IdentifierReads(e.geom);
    EnvelopeReads(col, [Quoted(e.geom)], k);
    EnvelopeTokens(e.geom, k);
  }

  lemma DistanceCallReads(name: string, geom: string, k: nat)
    requires IsIdentifier(geom) && IsWord(name) && L.Upper(name) == "ST_DWITHIN"
    ensures Reads(name + "(" + ("\"" + geom + "\"") + ", ST_GeomFromText(" + Placeholder(k) + ")" + ", " + Placeholder(k + 1) + ")",
                  DistanceOnto(geom, k, []), true)
  {
    var col, up := "\"" + geom + "\"", "ST_DWITHIN";
    IdentifierReads(geom);
    RelationReads(name, up, col, [Quoted(geom)], k);
    RelationTokens(Word(up), geom, k, []);
    var a := name + "(" + col + ", ST_GeomFromText(" + Placeholder(k) + ")";
    var ta := [Word(up)] + ([Mark('(')] + ([Quoted(geom)] + ([Mark(',')] + GeometryOnto(k, []))));
    assert Reads(a, ta, true) by { Right0(ta); }
    CommaReads();
    Append(a, ta, true, ", ", [Mark(',')], true);
    PlaceholderReads(k + 1);
    Append(a + ", ", ta + [Mark(',')], true, Placeholder(k + 1), [Param(k + 1)], false);
    AppendMark(a + ", " + Placeholder(k + 1), ta + [Mark(',')] + [Param(k + 1)], false, ')');
    DistanceTokens(geom, k);
  }

  lemma Right0(ts: Toks)
    ensures ts + [] == ts
  {
  }

  lemma DistanceTokens(geom: string, k: nat)
    ensures [Word("ST_DWITHIN")] + ([Mark('(')] + ([Quoted(geom)] + ([Mark(',')] + GeometryOnto(k, []))))
      + [Mark(',')] + [Param(k + 1)] + [Mark(')')] == DistanceOnto(geom, k, [])
  {
    var w, o, g, c := [Word("ST_DWITHIN")], [Mark('(')], [Quoted(geom)], [Mark(',')];
    var tail := [Mark(',')] + ([Param(k + 1)] + [Mark(')')]);
    GeometryAppend(k, [], tail);
    assert [] + tail == tail;
    HeadAppend(Word("ST_DWITHIN"), geom, GeometryOnto(k, []), tail);
    Right0([Mark(')')]);
    Tail4(w + (o + (g + (c + GeometryOnto(k, [])))), [Mark(',')], [Param(k + 1)], [Mark(')')]);
  }

  lemma Tail4(a: Toks, b: Toks, c: Toks, d: Toks)
    ensures a + b + c + d == a + (b + (c + d))
  {
  }

  lemma DistanceName()
    ensures IsWord("ST_DWithin") && L.Upper("ST_DWithin") == "ST_DWITHIN" && "ST_DWithin" + "(" == "ST_DWithin("
    ensures ")" + ", " == "), "
  {
  }

  lemma DistanceText(name: string, col: string, p: string, q: string)
    ensures name + "(" + col + ", ST_GeomFromText(" + p + "), " + q + ")" ==
      name + "(" + col + ", ST_GeomFromText(" + p + ")" + ", " + q + ")"
  {
    var a := name + "(" + col + ", ST_GeomFromText(" + p;
    assert a + "), " == a + ")" + ", ";
  }

  lemma DWithinReads(e: Expr, k: nat)
    requires e.DWithin? && IsIdentifier(e.geom)
    ensures Reads(TextOf(e, k), TokensOnto(e, k, []), true)
  {
    var col := "\"" + e.geom + "\"";
    DistanceName();
    DistanceText("ST_DWithin", col, Placeholder(k), Placeholder(k + 1));
    DistanceCallReads("ST_DWithin", e.geom, k);
    var call := "ST_DWithin(" + col + ", ST_GeomFromText(" + Placeholder(k) + "), " + Placeholder(k + 1) + ")";
    assert Reads(call, DistanceOnto(e.geom, k, []), true);
    if e.beyond {
      NegatedReads(call, DistanceOnto(e.geom, k, []));
    }
  }

  lemma NegatedReads(call: string, ts: Toks)
    requires Reads(call, ts, true)
    ensures Reads("NOT " + call, [Word("NOT")] + ts, true)
  {
    KeywordsUpper();
    WordReads("NOT", "NOT");
    AppendSpaced("NOT", [Word("NOT")], false, call, ts, true);
    assert "NOT" + " " == "NOT ";
  }

  lemma {:induction false} ListReads(op: LogicOp, es: seq<Expr>, k: nat)
    requires AllCompile(es)
    ensures Reads(Join(Texts(es, k), " " + Connective(op) + " "), ListOnto(op, es, k, []), false)
    decreases es, 0
  {
    var texts, sep, word := Texts(es, k), " " + Connective(op) + " ", [Word(Connective(op))];
    if es == [] {
      NothingReads();
    } else {
      AllCompileSplit(es);
      var n := k + |ArgsOf(es[0])|;
      assert texts[0] == TextOf(es[0], k) && texts[1..] == Texts(es[1..], n);
      FragmentReads(es[0], k);
      if |es| > 1 {
        assert |texts[1..]| > 0;
        var first, rest := TokensOnto(es[0], k, []), ListOnto(op, es[1..], n, []);
        ListReads(op, es[1..], n);
        ConnectiveReads(op);
        Append(texts[0], first, false, sep, word, true);
        Append(texts[0] + sep, first + word, true, Join(texts[1..], sep), rest, false);
        Assoc(first, word, rest);
        OntoFront(es[0], k, word + rest);
      }
    }
  }

  lemma ListFront(op: LogicOp, es: seq<Expr>, k: nat, z: Toks)
    ensures ListOnto(op, es, k, []) + z == ListOnto(op, es, k, z)
  {
    ListAppend(op, es, k, [], z);
    assert [] + z == z;
  }

  /** The text of a compiled fragment reads as its tokens in front of any text that ends it. */
  lemma {:induction false} FragmentReads(e: Expr, k: nat)
    requires Compiles(e)
    ensures Reads(TextOf(e, k), TokensOnto(e, k, []), false)
    decreases e, 1
  {
    match e {
      case IncludeAll =>
        KeywordsUpper();
        WordReads("TRUE", "TRUE");
        Right0([Word("TRUE")]);
      case Property(name) =>
        IdentifierReads(name);
        Right0([Quoted(name)]);
      case Compare(_, _, _) => FragmentReadsCompare(e, k);
      case Logic(_, _) => FragmentReadsLogic(e, k);
      case Not(_) => FragmentReadsNot(e, k);
      case Like(_, _, _, _) => FragmentReadsOnColumn(e, k);
      case In(_, _, _) => FragmentReadsIn(e, k);
      case Between(_, _, _, _) => FragmentReadsOnColumn(e, k);
      case IsNull(_, _) => FragmentReadsOnColumn(e, k);
      case BBox(_, _, _, _, _, _) => BBoxReads(e, k);
      case Spatial(_, _, _) => SpatialReads(e, k);
      case DWithin(_, _, _, _, _) => DWithinReads(e, k);
    }
  }

  lemma {:induction false} FragmentReadsCompare(e: Expr, k: nat)
    requires e.Compare? && Compiles(e)
    ensures Reads(TextOf(e, k), TokensOnto(e, k, []), false)
    decreases e, 0
  {
    var n, op := k + |ArgsOf(e.left)|, [Sym(CompareText(e.cmp))];
    EmitIs(e.left, k);
    FragmentReads(e.left, k);
    var right, tr := Placeholder(n), TokensOnto(e.right, n, []);
    if e.right.Literal? {
      PlaceholderReads(n);
      Right0([Param(n)]);
    } else {
      EmitIs(e.right, n);
      FragmentReads(e.right, n);
      right := TextOf(e.right, n);
    }
    CompareReads(TextOf(e.left, k), TokensOnto(e.left, k, []), e.cmp, right, tr);
    Assoc(TokensOnto(e.left, k, []), op, tr);
    OntoFront(e.left, k, op + tr);
  }

  lemma {:induction false} FragmentReadsLogic(e: Expr, k: nat)
    requires e.Logic? && Compiles(e)
    ensures Reads(TextOf(e, k), TokensOnto(e, k, []), false)
    decreases e, 0
  {
    EmitAllIs(e.exprs, k, Parts([], []));
    var texts, list := Texts(e.exprs, k), ListOnto(e.op, e.exprs, k, []);
    assert [] + texts == texts;
    ListReads(e.op, e.exprs, k);
    BracketsRead(Join(texts, " " + Connective(e.op) + " "), list);
    Assoc([Mark('(')], list, [Mark(')')]);
    ListFront(e.op, e.exprs, k, [Mark(')')]);
    Right0([Mark(')')]);
  }

  lemma {:induction false} FragmentReadsNot(e: Expr, k: nat)
    requires e.Not? && Compiles(e)
    ensures Reads(TextOf(e, k), TokensOnto(e, k, []), false)
    decreases e, 0
  {
    EmitIs(e.expr, k);
    var ts := TokensOnto(e.expr, k, []);
    FragmentReads(e.expr, k);
    NotReads(TextOf(e.expr, k), ts);
    Pair(Word("NOT"), Mark('('), ts, [Mark(')')]);
    OntoFront(e.expr, k, [Mark(')')]);
    Right0([Mark(')')]);
  }

  lemma Pair(a: Tok, b: Tok, ts: Toks, z: Toks)
    ensures [a, b] + ts + z == [a] + ([b] + (ts + z))
  {
  }

  lemma InText(e: Expr, k: nat)
    requires e.In? && Compiles(e)
    ensures TextOf(e, k) == TextOf(e.prop, k) + " " + NotWord(e.negate, "IN")
      + " (" + Join(Placeholders(k + |ArgsOf(e.prop)|, |e.values|), ", ") + ")"
  {
    EmitIs(e.prop, k);
    EmitValuesIs(e.values, k, Parts([], ArgsOf(e.prop)));
    var phs := Placeholders(k + |ArgsOf(e.prop)|, |e.values|);
    assert [] + phs == phs;
  }

  lemma InListReads(col: string, tc: Toks, negate: bool, n: nat, count: nat, text: string, ts: Toks)
    requires Reads(col, tc, false)
    requires text == col + " " + NotWord(negate, "IN") + " (" + Join(Placeholders(n, count), ", ") + ")"
    requires ts == tc + NotOnto(negate, [Word("IN")]) + [Mark('(')] + ParamsOnto(n, count, []) + [Mark(')')]
    ensures Reads(text, ts, false)
  {
    PlaceholdersRead(n, count);
    InReads(col, tc, negate, Join(Placeholders(n, count), ", "), ParamsOnto(n, count, []));
  }

  lemma {:induction false} FragmentReadsIn(e: Expr, k: nat)
    requires e.In? && Compiles(e)
    ensures Reads(TextOf(e, k), TokensOnto(e, k, []), false)
    decreases e, 0
  {
    FragmentReads(e.prop, k);
    InText(e, k);
    InTokens(e, k);
    InListReads(TextOf(e.prop, k), TokensOnto(e.prop, k, []), e.negate, k + |ArgsOf(e.prop)|, |e.values|,
                TextOf(e, k), TokensOnto(e, k, []));
  }

  /** LIKE, BETWEEN and IS NULL, behind the text of their property. */
  lemma {:induction false} FragmentReadsOnColumn(e: Expr, k: nat)
    requires (e.Like? || e.Between? || e.IsNull?) && Compiles(e)
    ensures Reads(TextOf(e, k), TokensOnto(e, k, []), false)
    decreases e, 0
  {
    EmitIs(e.prop, k);
    FragmentReads(e.prop, k);
    var col, tc, n := TextOf(e.prop, k), TokensOnto(e.prop, k, []), k + |ArgsOf(e.prop)|;
    if e.Like? {
      LikeReads(col, tc, e.negate, e.caseInsensitive, n);
      LikeTokens(e, k);
    } else if e.Between? {
      BetweenReads(col, tc, e.negate, n);
      BetweenTokens(e, k);
    } else {
      IsNullReads(col, tc, e.negate);
      IsNullTokens(e, k);
    }
  }

  /** The tokens of a compiled fragment. */
  lemma LexFragment(e: Expr, k: nat)
    requires Compiles(e)
    ensures Emit(e, k).Done? && Lex(Emit(e, k).value.text) == TokensOnto(e, k, [])
  {
    EmitIs(e, k);
    FragmentReads(e, k);
    var text := Emit(e, k).value.text;
    assert Ends("");
    assert text + "" == text;
    Right0(TokensOnto(e, k, []));
    assert Lex(text + "") == TokensOnto(e, k, []) + Lex("");
  }
}

/**
 The Go lexer and recursive-descent parser: objects that step through the text one token at a time,
 each method proved against the grammar.
 */
module GoCql {
  import opened Outcomes
  import opened FilterAst
  import G = CqlGrammar
  import L = CqlLexer
  import S = CqlShape

  type Token = L.Token
  type Tokens = G.Tokens

  class Lexer {
    const src: string
    var pos: nat

    ghost predicate Valid()
      reads this
    {
      pos <= |src|
    }

    ghost function Remaining(): string
      requires Valid()
      reads this
    {
      src[pos..]
    }

    constructor (s: string)
      ensures Valid() && src == s && pos == 0
    {
      src, pos := s, 0;
    }

    /** Reads one token; at the end of the text that is EOF, again and again. */
    method Next() returns (r: Outcome<Token>)
      requires Valid()
      modifies this
      ensures Valid()
      ensures match L.Scan(old(Remaining()))
              case End => r == Done(L.EOF) && Remaining() == ""
              case Error => r.Fail?
              case Lexeme(t, rest) => r == Done(t) && Remaining() == rest
    {
      while pos < |src| && (src[pos] == ' ' || src[pos] == '\t' || src[pos] == '\n' || src[pos] == '\r')
        invariant Valid() && L.Scan(Remaining()) == L.Scan(old(Remaining()))
        decreases |src| - pos
      {
        assert src[pos..][1..] == src[pos + 1..];
        pos := pos + 1;
      }
      if pos >= |src| {
        return Done(L.EOF);
      }
      var c := src[pos];
      ghost var s := src[pos..];
      if c == '(' || c == ')' || c == ',' {
        pos := pos + 1;
        assert s[1..] == src[pos..];
        return Done(L.Token(L.Punct, [c], ""));
      } else if c == '=' || c == '<' || c == '>' {
        r := LexOperator();
      } else if c == '\'' {
        r := LexString();
      } else if '0' <= c <= '9' || c == '-' || c == '+' || c == '.' {
        r := LexNumber();
      } else if L.IsIdentStart(c) {
        r := LexIdent();
      } else {
        return Fail;
      }
    }

    /** The operator cases of next. */
    method LexOperator() returns (r: Outcome<Token>)
      requires Valid() && pos < |src| && L.IsOperatorStart(src[pos])
      modifies this
      ensures Valid()
      ensures r == Done(L.ScanOperator(old(Remaining())).tok)
      ensures Remaining() == L.ScanOperator(old(Remaining())).rest
    {
      ghost var s := src[pos..];
      var c := src[pos];
      pos := pos + 1;
      assert s[1..] == src[pos..] && s[..1] == [c];
      if c == '=' {
        return Done(L.Token(L.Op, "=", ""));
      }
      if c == '<' && pos < |src| && src[pos] == '>' {
        pos := pos + 1;
        assert s[2..] == src[pos..] && s[..2] == "<>";
        return Done(L.Token(L.Op, "<>", ""));
      }
      if pos < |src| && src[pos] == '=' {
        pos := pos + 1;
        assert s[2..] == src[pos..] && s[..2] == [c, '='];
        return Done(L.Token(L.Op, [c, '='], ""));
      }
      return Done(L.Token(L.Op, [c], ""));
    }

    method LexString() returns (r: Outcome<Token>)
      requires Valid() && pos < |src|
      modifies this
      ensures Valid()
      ensures match L.ScanString(old(src[pos + 1..]), "")
              case Fail => r.Fail?
              case Done((text, rest)) => r == Done(L.Token(L.Str, text, "")) && Remaining() == rest
    {
      pos := pos + 1;
      ghost var body := L.ScanString(src[pos..], "");
      var b := "";
      while pos < |src|
        invariant Valid()
        invariant L.ScanString(src[pos..], b) == body
        decreases |src| - pos
      {
        ghost var s := src[pos..];
        var c := src[pos];
        if c == '\'' {
          if pos + 1 < |src| && src[pos + 1] == '\'' {
            assert s[2..] == src[pos + 2..];
            b := b + "'";
            pos := pos + 2;
            continue;
          }
          pos := pos + 1;
          assert s[1..] == src[pos..];
          return Done(L.Token(L.Str, b, ""));
        }
        assert s[1..] == src[pos + 1..];
        b := b + [c];
        pos := pos + 1;
      }
      return Fail;
    }

    method LexNumber() returns (r: Outcome<Token>)
      requires Valid() && pos < |src| && L.IsNumberStart(src[pos])
      modifies this
      ensures Valid()
      ensures match L.ScanNumber(old(Remaining()))
              case End => false
              case Error => r.Fail?
              case Lexeme(t, rest) => r == Done(t) && Remaining() == rest
    {
      var start := pos;
      if src[pos] == '-' || src[pos] == '+' {
        pos := pos + 1;
      }
      var digits := false;
      while pos < |src|
        invariant start <= pos <= |src|
        invariant forall i | start <= i < pos :: L.IsNumberPart(src[i])
        invariant digits <==> L.DigitBetween(src, start, pos)
        decreases |src| - pos
      {
        var c := src[pos];
        if '0' <= c <= '9' {
          digits := true;
          pos := pos + 1;
        } else if c == '.' || c == 'e' || c == 'E' || c == '-' || c == '+' {
          pos := pos + 1;
        } else {
          break;
        }
      }
      L.NumberScanned(src, start, pos);
      if !digits {
        return Fail;
      }
      return Done(L.Token(L.Number, src[start..pos], ""));
    }

    method LexIdent() returns (r: Outcome<Token>)
      requires Valid() && pos < |src| && L.IsIdentStart(src[pos])
      modifies this
      ensures Valid()
      ensures r == Done(L.ScanIdent(old(Remaining())).tok)
      ensures Remaining() == L.ScanIdent(old(Remaining())).rest
    {
      var start := pos;
      while pos < |src| && L.IsIdentPart(src[pos])
        invariant start <= pos <= |src|
        invariant forall i | start <= i < pos :: L.IsIdentPart(src[i])
        decreases |src| - pos
      {
        pos := pos + 1;
      }
      L.IdentScanned(src, start, pos);
      var t := src[start..pos];
      return Done(L.Token(L.Ident, t, L.Upper(t)));
    }
  }

  const SPATIAL_OPS := {"INTERSECTS", "WITHIN", "CONTAINS", "DISJOINT", "TOUCHES", "CROSSES", "OVERLAPS", "EQUALS"}

  const GEOM_KEYWORDS := {"POINT", "LINESTRING", "POLYGON", "MULTIPOINT", "MULTILINESTRING", "MULTIPOLYGON", "GEOMETRYCOLLECTION"}

  method IsGeomKeyword(up: string) returns (b: bool)
    ensures b == G.IsGeometryWord(up)
  {
    return up in GEOM_KEYWORDS;
  }

  lemma SpatialOpsKnown(up: string)
    ensures up in SPATIAL_OPS <==> G.SpatialOpOf(up).Done?
  {
  }

  /** The tests of parsePrimary on the first word of an atom, in their order. */
  method AtomKindOf(up: string) returns (kind: G.AtomKind)
    ensures kind == G.AtomKindOf(up)
  {
    SpatialOpsKnown(up);
    if up == "INCLUDE" {
      return G.Everything;
    }
    if up == "EXCLUDE" {
      return G.Nothing;
    }
    if up == "BBOX" {
      return G.Box;
    }
    if up in SPATIAL_OPS {
      return G.Relation(G.SpatialOpOf(up).value);
    }
    if up == "DWITHIN" || up == "BEYOND" {
      return G.Distance(up == "BEYOND");
    }
    return G.OnProperty;
  }

  /** Everything behind the first colon. */
  method StripPrefix(name: string) returns (r: string)
    ensures r == G.StripPrefix(name)
  {
    var i := 0;
    while i < |name| && name[i] != ':'
      invariant i <= |name| && forall j | 0 <= j < i :: G.NotColon(name[j])
    {
      i := i + 1;
    }
    L.RunIs(name, G.NotColon, i);
    if i < |name| {
      return name[i + 1..];
    }
    return name;
  }

  class CqlParser {
    const lex: Lexer
    const conv: S.Conversion
    var tok: Token

    ghost function Reader(): G.NumeralReader {
      S.GoReader(conv)
    }

    // The tokens the lexer has yet to read.
    ghost function Unread(): Tokens
      requires lex.Valid()
      reads this, lex
    {
      L.Stream(lex.Remaining())
    }

    // The tokens from the current one on.
    ghost function Ahead(): Tokens
      requires lex.Valid()
      reads this, lex
    {
      if tok.kind == L.Eof then [] else [tok] + Unread()
    }

    ghost predicate Valid()
      reads this, lex
    {
      && lex.Valid()
      && tok == G.Peek(Ahead()) && tok.kind != L.Bad
    }

    // The method result `r` and the parser's new position are what the grammar says.
    ghost predicate Yields<T>(r: Outcome<T>, spec: Outcome<(T, Tokens)>)
      reads this, lex
    {
      match spec
      case Fail => r.Fail?
      case Done((v, rest)) => r == Done(v) && Valid() && Ahead() == rest
    }

    ghost predicate Moves(r: Outcome<()>, spec: Outcome<Tokens>)
      reads this, lex
    {
      match spec
      case Fail => r.Fail?
      case Done(rest) => r.Done? && Valid() && Ahead() == rest
    }

    constructor (s: string, conv: S.Conversion)
      ensures fresh(lex) && lex.Valid() && lex.src == s && lex.pos == 0 && this.conv == conv
    {
      lex := new Lexer(s);
      this.conv := conv;
      tok := L.EOF;
    }

    /** Reads the next token into `tok`. */
    method Fetch() returns (r: Outcome<()>)
      requires lex.Valid()
      modifies this, lex
      ensures if G.Peek(old(Unread())).kind == L.Bad then r.Fail?
              else r.Done? && Valid() && Ahead() == old(Unread())
    {
      ghost var s := lex.Remaining();
      var t :- lex.Next();
      tok := t;
      if L.Scan(s).End? {
        assert L.Stream(s) == [];
      } else {
        assert L.Stream(s) == [t] + Unread();
      }
      return Done(());
    }

    method Advance() returns (r: Outcome<()>)
      requires Valid() && tok.kind != L.Eof
      modifies this, lex
      ensures Moves(r, G.Advance(old(Ahead())))
    {
      assert Ahead()[1..] == Unread();
      r := Fetch();
    }

    method Expect(text: string) returns (r: Outcome<()>)
      requires Valid() && text != ""
      modifies this, lex
      ensures Moves(r, G.Expect(text, old(Ahead())))
    {
      if tok.text != text {
        return Fail;
      }
      r := Advance();
    }

    // ---- Logical structure ----

    method ParseOr() returns (r: Outcome<Expr>)
      requires Valid()
      modifies this, lex
      ensures Yields(r, G.ParseChain(Reader(), Or, old(Ahead())))
      decreases |Ahead()|, 5
    {
      var left :- ParseAnd();
      while tok.kind == L.Ident && tok.up == "OR"
        invariant Valid() && |Ahead()| < |old(Ahead())|
        invariant G.ParseTail(Reader(), Or, left, Ahead()) == G.ParseChain(Reader(), Or, old(Ahead()))
        decreases |Ahead()|
      {
        var _ :- Advance();
        var right :- ParseAnd();
        left := Logic(Or, [left, right]);
      }
      return Done(left);
    }

    method ParseAnd() returns (r: Outcome<Expr>)
      requires Valid()
      modifies this, lex
      ensures Yields(r, G.ParseChain(Reader(), And, old(Ahead())))
      decreases |Ahead()|, 3
    {
      var left :- ParseUnary();
      while tok.kind == L.Ident && tok.up == "AND"
        invariant Valid() && |Ahead()| < |old(Ahead())|
        invariant G.ParseTail(Reader(), And, left, Ahead()) == G.ParseChain(Reader(), And, old(Ahead()))
        decreases |Ahead()|
      {
        var _ :- Advance();
        var right :- ParseUnary();
        left := Logic(And, [left, right]);
      }
      return Done(left);
    }

    method ParseUnary() returns (r: Outcome<Expr>)
      requires Valid()
      modifies this, lex
      ensures Yields(r, G.ParseUnary(Reader(), old(Ahead())))
      decreases |Ahead()|, 1
    {
      if tok.kind == L.Ident && tok.up == "NOT" {
        var _ :- Advance();
        var e :- ParseUnary();
        return Done(Not(e));
      }
      r := ParsePrimary();
    }

    method ParsePrimary() returns (r: Outcome<Expr>)
      requires Valid()
      modifies this, lex
      ensures Yields(r, G.ParsePrimary(Reader(), old(Ahead())))
      decreases |Ahead()|, 0
    {
      if tok.kind == L.Punct && tok.text == "(" {
        var _ :- Advance();
        var e :- ParseOr();
        if tok.kind != L.Punct || tok.text != ")" {
          return Fail;
        }
        var _ :- Advance();
        return Done(e);
      }
      if tok.kind != L.Ident {
        return Fail;
      }
      r := ParseAtom();
    }

    /** The part of parsePrimary behind its test for an identifier. */
    method ParseAtom() returns (r: Outcome<Expr>)
      requires Valid() && tok.kind == L.Ident
      modifies this, lex
      ensures Yields(r, G.ParseAtom(Reader(), old(Ahead())))
    {
      var kind := AtomKindOf(tok.up);
      match kind {
        case Everything =>
          var _ :- Advance();
          return Done(IncludeAll);
        case Nothing =>
          var _ :- Advance();
          return Done(Not(IncludeAll));
        case Box =>
          r := ParseBBox();
        case Relation(rel) =>
          r := ParseSpatial(rel);
        case Distance(beyond) =>
          r := ParseDWithin(beyond);
        case OnProperty =>
          r := ParsePredicate();
      }
    }

    // ---- Predicates on a property ----

    method ParsePredicate() returns (r: Outcome<Expr>)
      requires Valid() && tok.kind == L.Ident
      modifies this, lex
      ensures Yields(r, G.ParsePredicate(Reader(), old(Ahead())))
    {
      var name := StripPrefix(tok.text);
      var prop := Property(name);
      var _ :- Advance();
      if tok.kind == L.Op {
        var op := tok.text;
        var _ :- Advance();
        var val :- ParseValue();
        return Done(Compare(G.CompareOpOf(op), prop, val));
      }
      if tok.kind != L.Ident {
        return Fail;
      }
      var negate := false;
      if tok.up == "NOT" {
        negate := true;
        var _ :- Advance();
        if tok.kind != L.Ident {
          return Fail;
        }
      }
      r := ParseKeyword(prop, negate);
    }

    /** The switch of parsePredicate. */
    method ParseKeyword(prop: Expr, negate: bool) returns (r: Outcome<Expr>)
      requires Valid() && tok.kind == L.Ident
      modifies this, lex
      ensures Yields(r, G.ParseKeyword(Reader(), prop, negate, old(Ahead())))
    {
      match tok.up {
        case "LIKE" =>
          r := ParseLike(prop, negate);
        case "ILIKE" =>
          r := ParseLike(prop, negate);
        case "IN" =>
          r := ParseIn(prop, negate);
        case "BETWEEN" =>
          r := ParseBetween(prop, negate);
        case "IS" =>
          if negate {
            return Fail;
          }
          r := ParseIs(prop);
        case _ =>
          return Fail;
      }
    }

    method ParseLike(prop: Expr, negate: bool) returns (r: Outcome<Expr>)
      requires Valid() && tok.kind == L.Ident
      modifies this, lex
      ensures Yields(r, G.ParseLike(prop, negate, old(Ahead())))
    {
      var ci := tok.up == "ILIKE";
      var _ :- Advance();
      if tok.kind != L.Str {
        return Fail;
      }
      var pat := tok.text;
      var _ :- Advance();
      return Done(Like(prop, pat, ci, negate));
    }

    method ParseIn(prop: Expr, negate: bool) returns (r: Outcome<Expr>)
      requires Valid() && tok.kind == L.Ident
      modifies this, lex
      ensures Yields(r, G.ParseIn(Reader(), prop, negate, old(Ahead())))
    {
      var _ :- Advance();
      if tok.kind != L.Punct || tok.text != "(" {
        return Fail;
      }
      var vals :- ParseValues();
      if tok.kind != L.Punct || tok.text != ")" {
        return Fail;
      }
      var _ :- Advance();
      return Done(In(prop, vals, negate));
    }

    /** The loop of the IN case. */
    method ParseValues() returns (r: Outcome<seq<Expr>>)
      requires Valid() && tok.kind == L.Punct
      modifies this, lex
      ensures Yields(r, G.ParseValues(Reader(), [], old(Ahead())))
    {
      var vals: seq<Expr> := [];
      ghost var spec := G.ParseValues(Reader(), [], Ahead());
      while true
        invariant Valid() && tok.kind == L.Punct && G.ParseValues(Reader(), vals, Ahead()) == spec
        decreases |Ahead()|
      {
        var _ :- Advance();
        var v :- ParseValue();
        vals := vals + [v];
        if tok.kind == L.Punct && tok.text == "," {
          continue;
        }
        break;
      }
      return Done(vals);
    }

    method ParseBetween(prop: Expr, negate: bool) returns (r: Outcome<Expr>)
      requires Valid() && tok.kind == L.Ident
      modifies this, lex
      ensures Yields(r, G.ParseBetween(Reader(), prop, negate, old(Ahead())))
    {
      var _ :- Advance();
      var lo :- ParseValue();
      if tok.kind != L.Ident || tok.up != "AND" {
        return Fail;
      }
      var _ :- Advance();
      var hi :- ParseValue();
      return Done(Between(prop, lo, hi, negate));
    }

    method ParseIs(prop: Expr) returns (r: Outcome<Expr>)
      requires Valid() && tok.kind == L.Ident
      modifies this, lex
      ensures Yields(r, G.ParseIs(prop, old(Ahead())))
    {
      var _ :- Advance();
      var isNeg := false;
      if tok.kind == L.Ident && tok.up == "NOT" {
        isNeg := true;
        var _ :- Advance();
      }
      if tok.kind != L.Ident || tok.up != "NULL" {
        return Fail;
      }
      var _ :- Advance();
      return Done(IsNull(prop, isNeg));
    }

    method ParseValue() returns (r: Outcome<Expr>)
      requires Valid()
      modifies this, lex
      ensures Yields(r, G.ParseValue(Reader(), old(Ahead())))
    {
      match tok.kind {
        case Str =>
          var v := tok.text;
          var _ :- Advance();
          return Done(Literal(Lit.Str(v)));
        case Number =>
          var f :- ParseFloat(tok.text);
          var _ :- Advance();
          return Done(Literal(Num(f)));
        case Ident =>
          var up := tok.up;
          if up == "TRUE" || up == "FALSE" {
            var _ :- Advance();
            return Done(Literal(Bool(up == "TRUE")));
          }
          var name := StripPrefix(tok.text);
          var _ :- Advance();
          return Done(Property(name));
        case _ =>
          return Fail;
      }
    }

    /** strconv.ParseFloat: a value out of range is an error. */
    method ParseFloat(text: string) returns (r: Outcome<Float>)
      ensures r == Reader()(text)
    {
      match conv(text) {
        case Value(v) =>
          return Done(Real(v));
        case TooLarge(_) =>
          return Fail;
        case Malformed =>
          return Fail;
      }
    }

    method ParseNum() returns (r: Outcome<Float>)
      requires Valid()
      modifies this, lex
      ensures Yields(r, G.ParseNum(Reader(), old(Ahead())))
    {
      if tok.kind != L.Number {
        return Fail;
      }
      var f :- ParseFloat(tok.text);
      var _ :- Advance();
      return Done(f);
    }

    // ---- Spatial predicates ----

    method ParseBBox() returns (r: Outcome<Expr>)
      requires Valid() && tok.kind == L.Ident
      modifies this, lex
      ensures Yields(r, G.ParseBBox(Reader(), old(Ahead())))
    {
      var _ :- Advance();
      var _ :- Expect("(");
      if tok.kind != L.Ident {
        return Fail;
      }
      var geom := StripPrefix(tok.text);
      var _ :- Advance();
      var nums :- ParseNums(4);
      assert |nums| == 4;
      r := ParseBBoxEnd(geom, nums);
    }

    /** The loop of parseBBox. */
    method ParseNums(n: nat) returns (r: Outcome<seq<Float>>)
      requires Valid()
      modifies this, lex
      ensures Yields(r, G.ParseNums(Reader(), n, [], old(Ahead())))
    {
      var nums: seq<Float> := [];
      var left := n;
      ghost var rest := Ahead();
      ghost var spec := G.ParseNums(Reader(), n, [], rest);
      while left > 0
        invariant Valid() && Ahead() == rest && G.ParseNums(Reader(), left, nums, rest) == spec
      {
        nums, rest :- ParseBound(nums, left, rest, spec);
        left := left - 1;
      }
      G.NumsEnd(Reader(), nums, rest);
      return Done(nums);
    }

    /** The body of that loop, `left` numbers being due at `ts`. */
    method ParseBound(nums: seq<Float>, ghost left: nat, ghost ts: Tokens, ghost spec: Outcome<(seq<Float>, Tokens)>)
      returns (r: Outcome<seq<Float>>, ghost rest: Tokens)
      requires Valid() && left > 0 && Ahead() == ts && G.ParseNums(Reader(), left, nums, ts) == spec
      modifies this, lex
      ensures r.Fail? ==> spec.Fail?
      ensures r.Done? ==> Valid() && Ahead() == rest && G.ParseNums(Reader(), left - 1, r.value, rest) == spec
    {
      rest := [];
      G.NumsStep(Reader(), left, nums, ts);
      var _ :- Expect(",");
      var v :- ParseNum();
      return Done(nums + [v]), Ahead();
    }

    /** What parseBBox does behind the bounds. */
    method ParseBBoxEnd(geom: string, nums: seq<Float>) returns (r: Outcome<Expr>)
      requires Valid() && |nums| == 4
      modifies this, lex
      ensures Yields(r, G.BBoxEnd(geom, nums, old(Ahead())))
    {
      var srs := "";
      if tok.kind == L.Punct && tok.text == "," {
        var _ :- Advance();
        if tok.kind != L.Str {
          return Fail;
        }
        srs := tok.text;
        var _ :- Advance();
      }
      var _ :- Expect(")");
      return Done(BBox(geom, nums[0], nums[1], nums[2], nums[3], srs));
    }

    /** Raw geometry text, from its keyword to the bracket that balances the first one. */
    method ParseWkt() returns (r: Outcome<string>)
      requires Valid()
      modifies this, lex
      ensures Yields(r, G.ParseWkt(old(Ahead())))
    {
      var known := IsGeomKeyword(tok.up);
      if tok.kind != L.Ident || !known {
        return Fail;
      }
      var b := tok.up;
      var _ :- Advance();
      if tok.kind != L.Punct || tok.text != "(" {
        return Fail;
      }
      b := b + "(";
      var _ :- Advance();
      r := ParseWktBody(b);
    }

    /** What the current token adds to geometry text. */
    method AddToWkt(read: string, before: nat, start: bool) returns (b: string, depth: nat, first: bool)
      requires Valid() && before > 0
      ensures var step := G.WktAdd(tok, before, start);
              b == read + step.piece && depth == step.depth && first == step.first
    {
      b, depth, first := read, before, start;
      if tok.kind == L.Punct && tok.text == "(" {
        b := b + "(";
        depth := depth + 1;
        first := true;
      } else if tok.kind == L.Punct && tok.text == ")" {
        b := b + ")";
        depth := depth - 1;
      } else if tok.kind == L.Punct && tok.text == "," {
        b := b + ", ";
        first := true;
      } else {
        if !first {
          b := b + " ";
        }
        b := b + tok.text;
        first := false;
      }
    }

    /** The loop of parseWKT and the step past the last bracket. */
    method ParseWktBody(head: string) returns (r: Outcome<string>)
      requires Valid()
      modifies this, lex
      ensures Yields(r, G.WktBody(old(Ahead()), 1, true, head))
    {
      var b := head;
      var depth: nat := 1;
      var first := true;
      ghost var spec := G.WktBody(Ahead(), 1, true, head);
      while depth > 0
        invariant depth > 0 && Valid() && G.WktBody(Ahead(), depth, first, b) == spec
        decreases |Ahead()|
      {
        if tok.kind == L.Eof {
          return Fail;
        }
        ghost var step := G.WktAdd(tok, depth, first);
        b, depth, first := AddToWkt(b, depth, first);
        if depth == 0 {
          break;
        }
        var _ :- Advance();
      }
      var _ :- Advance();
      return Done(b);
    }

    method ParseSpatial(rel: SpatialOp) returns (r: Outcome<Expr>)
      requires Valid() && tok.kind == L.Ident
      modifies this, lex
      ensures Yields(r, G.ParseSpatial(rel, old(Ahead())))
    {
      var _ :- Advance();
      var _ :- Expect("(");
      if tok.kind != L.Ident {
        return Fail;
      }
      var geom := StripPrefix(tok.text);
      var _ :- Advance();
      var _ :- Expect(",");
      var wkt :- ParseWkt();
      var _ :- Expect(")");
      return Done(Spatial(rel, geom, wkt));
    }

    method ParseDWithin(beyond: bool) returns (r: Outcome<Expr>)
      requires Valid() && tok.kind == L.Ident
      modifies this, lex
      ensures Yields(r, G.ParseDWithin(Reader(), beyond, old(Ahead())))
    {
      var _ :- Advance();
      var _ :- Expect("(");
      if tok.kind != L.Ident {
        return Fail;
      }
      var geom := StripPrefix(tok.text);
      var _ :- Advance();
      var _ :- Expect(",");
      var wkt :- ParseWkt();
      var _ :- Expect(",");
      var dist :- ParseNum();
      var _ :- Expect(",");
      if tok.kind != L.Ident {
        return Fail;
      }
      var units := tok.text;
      var _ :- Advance();
      var _ :- Expect(")");
      return Done(DWithin(geom, wkt, dist, units, beyond));
    }
  }

  /** ParseCQL. */
  method ParseCql(s: string, conv: S.Conversion) returns (r: Outcome<Expr>)
    ensures r == G.ParseCql(S.GoReader(conv), s)
  {
    var p := new CqlParser(s, conv);
    assert s[0..] == s;
    var _ :- p.Fetch();
    if p.tok.kind == L.Eof {
      G.NothingFails(S.GoReader(conv));
      return Fail;
    }
    var e :- p.ParseOr();
    if p.tok.kind != L.Eof {
      return Fail;
    }
    L.StreamLexical(s);
    S.FinishedIsClean(conv, L.Stream(s));
    return Done(e);
  }
}

/**
 The tokens of ECQL text, as a function of the text: the specification that the Go lexer and the
 Rust lexer are proved against, and how it behaves when texts are put side by side.
 */
module CqlLexer {
  import opened Outcomes
  import Decimals

  datatype Kind = Eof | Ident | Str | Number | Punct | Op | Bad

  // `up` is the upper-cased text of an identifier and empty for every other kind.
  datatype Token = Token(kind: Kind, text: string, up: string)

  const EOF := Token(Eof, "", "")
  // Stands in a token stream for the place where the lexer reports an error.
  const BAD := Token(Bad, "", "")

  predicate IsSpace(c: char) {
    c == ' ' || c == '\t' || c == '\n' || c == '\r'
  }

  predicate IsNumberStart(c: char) {
    Decimals.IsDigit(c) || c == '-' || c == '+' || c == '.'
  }

  predicate IsNumberPart(c: char) {
    IsNumberStart(c) || c == 'e' || c == 'E'
  }

  predicate IsIdentStart(c: char) {
    c == '_' || 'a' <= c <= 'z' || 'A' <= c <= 'Z'
  }

  predicate IsIdentPart(c: char) {
    IsIdentStart(c) || Decimals.IsDigit(c) || c == ':' || c == '.'
  }

  function UpperChar(c: char): char {
    if 'a' <= c <= 'z' then c - 'a' + 'A' else c
  }

  function Upper(s: string): (u: string)
    ensures |u| == |s|
  {
    seq(|s|, i requires 0 <= i < |s| => UpperChar(s[i]))
  }

  function IdentToken(text: string): Token {
    Token(Ident, text, Upper(text))
  }

  function PunctToken(c: char): Token {
    Token(Punct, [c], "")
  }

  /** The length of the longest prefix of `s` whose characters all satisfy `p`. */
  function Run(s: string, p: char -> bool): (n: nat)
    ensures n <= |s|
    ensures forall i | 0 <= i < n :: p(s[i])
    ensures n < |s| ==> !p(s[n])
  {
    if s == "" || !p(s[0]) then 0 else 1 + Run(s[1..], p)
  }

  /** Run is determined by where the first character outside `p` is. */
  lemma {:induction false} RunIs(s: string, p: char -> bool, n: nat)
    requires n <= |s| && (forall i | 0 <= i < n :: p(s[i])) && (n < |s| ==> !p(s[n]))
    ensures Run(s, p) == n
  {
    if n > 0 {
      RunIs(s[1..], p, n - 1);
    }
  }

  /** The body of a string literal of which `read` has been read, and the text after its closing quote. */
  function ScanString(s: string, read: string): (r: Outcome<(string, string)>)
    ensures r.Done? ==> |r.value.1| < |s|
    decreases |s|
  {
    if s == "" then Fail
    else if s[0] != '\'' then ScanString(s[1..], read + [s[0]])
    else if |s| > 1 && s[1] == '\'' then ScanString(s[2..], read + "'")
    else Done((read, s[1..]))
  }

  datatype Scanned = End | Error | Lexeme(tok: Token, rest: string)

  predicate IsOperatorStart(c: char) {
    c == '=' || c == '<' || c == '>'
  }

  function ScanOperator(s: string): (r: Scanned)
    requires s != "" && IsOperatorStart(s[0])
    ensures r.Lexeme? && |r.rest| < |s|
  {
    if s[0] == '=' then Lexeme(Token(Op, "=", ""), s[1..])
    else if |s| > 1 && (s[1] == '=' || (s[0] == '<' && s[1] == '>')) then Lexeme(Token(Op, s[..2], ""), s[2..])
    else Lexeme(Token(Op, s[..1], ""), s[1..])
  }

  predicate HasDigit(s: string) {
    exists i | 0 <= i < |s| :: Decimals.IsDigit(s[i])
  }

  predicate DigitBetween(s: string, lo: nat, hi: nat)
    requires lo <= hi <= |s|
  {
    exists i | lo <= i < hi :: Decimals.IsDigit(s[i])
  }

  lemma DigitInSlice(s: string, lo: nat, hi: nat)
    requires lo <= hi <= |s|
    ensures HasDigit(s[lo..hi]) <==> DigitBetween(s, lo, hi)
  {
    var part := s[lo..hi];
    assert forall i | lo <= i < hi :: s[i] == part[i - lo];
    assert forall i | 0 <= i < |part| :: part[i] == s[i + lo];
  }

  function ScanNumber(s: string): (r: Scanned)
    requires s != "" && IsNumberStart(s[0])
    ensures r.Lexeme? ==> |r.rest| < |s|
  {
    var n := Run(s, IsNumberPart);
    if HasDigit(s[..n]) then Lexeme(Token(Number, s[..n], ""), s[n..]) else Error
  }

  /** What a lexer knows when it has stepped over the number that starts at `start`. */
  lemma NumberScanned(src: string, start: nat, pos: nat)
    requires start < pos <= |src| && IsNumberStart(src[start])
    requires forall i | start <= i < pos :: IsNumberPart(src[i])
    requires pos < |src| ==> !IsNumberPart(src[pos])
    ensures ScanNumber(src[start..]) ==
            if DigitBetween(src, start, pos) then Lexeme(Token(Number, src[start..pos], ""), src[pos..]) else Error
  {
    var s := src[start..];
    RunIs(s, IsNumberPart, pos - start);
    DigitInSlice(src, start, pos);
    assert s[..pos - start] == src[start..pos] && s[pos - start..] == src[pos..];
  }

  lemma IdentScanned(src: string, start: nat, pos: nat)
    requires start < pos <= |src| && IsIdentStart(src[start])
    requires forall i | start <= i < pos :: IsIdentPart(src[i])
    requires pos < |src| ==> !IsIdentPart(src[pos])
    ensures ScanIdent(src[start..]) == Lexeme(IdentToken(src[start..pos]), src[pos..])
  {
    var s := src[start..];
    RunIs(s, IsIdentPart, pos - start);
    assert s[..pos - start] == src[start..pos] && s[pos - start..] == src[pos..];
  }

  function ScanIdent(s: string): (r: Scanned)
    requires s != "" && IsIdentStart(s[0])
    ensures r.Lexeme? && |r.rest| < |s|
  {
    var n := Run(s, IsIdentPart);
    Lexeme(IdentToken(s[..n]), s[n..])
  }

  /** The first token of `s` and the text after it. */
  function Scan(s: string): (r: Scanned)
    ensures r.Lexeme? ==> |r.rest| < |s|
    ensures r.Lexeme? ==> r.tok.kind != Bad && r.tok.kind != Eof
  {
    if s == "" then End
    else
      var c := s[0];
      if IsSpace(c) then Scan(s[1..])
      else if c == '(' || c == ')' || c == ',' then Lexeme(PunctToken(c), s[1..])
      else if IsOperatorStart(c) then ScanOperator(s)
      else if c == '\'' then
        match ScanString(s[1..], "")
        case Done((text, rest)) => Lexeme(Token(Str, text, ""), rest)
        case Fail => Error
      else if IsNumberStart(c) then ScanNumber(s)
      else if IsIdentStart(c) then ScanIdent(s)
      else Error
  }

  /** All tokens of `s`, cut short by BAD at the first lexing error. */
  function Stream(s: string): (ts: seq<Token>)
    decreases |s|
  {
    match Scan(s)
    case End => []
    case Error => [BAD]
    case Lexeme(t, rest) => [t] + Stream(rest)
  }

  predicate Clean(ts: seq<Token>) {
    forall i | 0 <= i < |ts| :: ts[i].kind != Bad
  }

  lemma CleanCons(t: Token, ts: seq<Token>)
    ensures Clean([t] + ts) <==> t.kind != Bad && Clean(ts)
  {
    assert ([t] + ts)[0] == t && ([t] + ts)[1..] == ts;
  }

  lemma ErrorIsNotClean(s: string)
    ensures Scan(s).Error? ==> !Clean(Stream(s))
  {
    if Scan(s).Error? {
      assert Stream(s)[0].kind == Bad;
    }
  }

  // ---- Putting texts side by side ----

  // A character no token that starts before it can run into.
  predicate IsDelimiter(c: char) {
    c == ' ' || c == '(' || c == ')' || c == ','
  }

  predicate Delimited(z: string) {
    z == "" || IsDelimiter(z[0])
  }

  lemma {:induction false} RunAppend(s: string, z: string, p: char -> bool)
    requires z == "" || !p(z[0])
    ensures Run(s + z, p) == Run(s, p)
  {
    if s == "" {
      assert s + z == z;
    } else {
      assert (s + z)[1..] == s[1..] + z;
      if p(s[0]) {
        RunAppend(s[1..], z, p);
      }
    }
  }

  lemma {:induction false} ScanStringAppend(s: string, read: string, z: string)
    requires ScanString(s, read).Done? && Delimited(z)
    ensures ScanString(s + z, read) == Done((ScanString(s, read).value.0, ScanString(s, read).value.1 + z))
    decreases |s|
  {
    assert (s + z)[1..] == s[1..] + z;
    if s[0] != '\'' {
      ScanStringAppend(s[1..], read + [s[0]], z);
    } else if |s| > 1 && s[1] == '\'' {
      assert (s + z)[2..] == s[2..] + z;
      ScanStringAppend(s[2..], read + "'", z);
    }
  }

  // Scanning `s` with `z` behind it yields the token of `s` and leaves `z` behind the rest.
  ghost predicate Carries(r: Scanned, rz: Scanned, z: string) {
    r.Lexeme? ==> rz == Lexeme(r.tok, r.rest + z)
  }

  lemma ScanOperatorAppend(s: string, z: string)
    requires Delimited(z) && s != "" && IsOperatorStart(s[0])
    ensures Carries(ScanOperator(s), ScanOperator(s + z), z)
  {
    assert (s + z)[1..] == s[1..] + z && (s + z)[..1] == s[..1];
    if |s| > 1 {
      assert (s + z)[2..] == s[2..] + z && (s + z)[..2] == s[..2];
    }
  }

  lemma ScanNumberAppend(s: string, z: string)
    requires Delimited(z) && s != "" && IsNumberStart(s[0])
    ensures Carries(ScanNumber(s), ScanNumber(s + z), z)
  {
    var n := Run(s, IsNumberPart);
    RunAppend(s, z, IsNumberPart);
    assert (s + z)[..n] == s[..n] && (s + z)[n..] == s[n..] + z;
  }

  lemma ScanIdentAppend(s: string, z: string)
    requires Delimited(z) && s != "" && IsIdentStart(s[0])
    ensures Carries(ScanIdent(s), ScanIdent(s + z), z)
  {
    var n := Run(s, IsIdentPart);
    RunAppend(s, z, IsIdentPart);
    assert (s + z)[..n] == s[..n] && (s + z)[n..] == s[n..] + z;
  }

  /** A token is not changed by what follows the text, as long as that starts with a delimiter. */
  lemma {:induction false} ScanAppend(s: string, z: string)
    requires Delimited(z)
    ensures Carries(Scan(s), Scan(s + z), z)
    ensures Scan(s).End? ==> Scan(s + z) == Scan(z)
  {
    if s == "" {
      assert s + z == z;
    } else {
      var c := s[0];
      assert (s + z)[1..] == s[1..] + z;
      if IsSpace(c) {
        ScanAppend(s[1..], z);
      } else if IsOperatorStart(c) {
        ScanOperatorAppend(s, z);
      } else if c == '\'' {
        if ScanString(s[1..], "").Done? {
          ScanStringAppend(s[1..], "", z);
        }
      } else if IsNumberStart(c) {
        ScanNumberAppend(s, z);
      } else if IsIdentStart(c) {
        ScanIdentAppend(s, z);
      }
    }
  }

  /** Lexing distributes over concatenation at a delimiter. */
  lemma {:induction false} StreamAppend(s: string, z: string)
    requires Delimited(z) && Clean(Stream(s))
    ensures Stream(s + z) == Stream(s) + Stream(z)
    decreases |s|
  {
    ScanAppend(s, z);
    ErrorIsNotClean(s);
    if Scan(s).Lexeme? {
      var rest := Scan(s).rest;
      assert forall i | 0 <= i < |Stream(rest)| :: Stream(rest)[i] == Stream(s)[i + 1];
      StreamAppend(rest, z);
    }
  }

  // ---- The text of each kind of token lexes back to it ----

  predicate IsIdentText(s: string) {
    s != "" && IsIdentStart(s[0]) && forall i | 0 <= i < |s| :: IsIdentPart(s[i])
  }

  predicate IsNumberText(s: string) {
    s != "" && IsNumberStart(s[0]) && HasDigit(s) && forall i | 0 <= i < |s| :: IsNumberPart(s[i])
  }

  /** A string with its quotes doubled and a quote at each end. */
  function Quote(text: string): string {
    "'" + QuoteBody(text)
  }

  function QuoteBody(text: string): string {
    if text == "" then "'"
    else (if text[0] == '\'' then "''" else [text[0]]) + QuoteBody(text[1..])
  }

  lemma {:induction false} RunAll(s: string, p: char -> bool)
    requires forall i | 0 <= i < |s| :: p(s[i])
    ensures Run(s, p) == |s|
  {
    if s != "" {
      RunAll(s[1..], p);
    }
  }

  lemma {:induction false} ScanQuoteBody(text: string, read: string, z: string)
    requires Delimited(z)
    ensures ScanString(QuoteBody(text) + z, read) == Done((read + text, z))
    decreases |text|
  {
    var s := QuoteBody(text) + z;
    if text == "" {
      assert s == "'" + z && s[1..] == z;
      assert read + text == read;
    } else {
      var n := if text[0] == '\'' then 2 else 1;
      assert s[n..] == QuoteBody(text[1..]) + z;
      ScanQuoteBody(text[1..], read + [text[0]], z);
      assert read + [text[0]] + text[1..] == read + text;
    }
  }

  lemma StreamSpace(z: string)
    ensures Stream(" " + z) == Stream(z)
  {
    assert (" " + z)[1..] == z;
  }

  lemma StreamPunct(c: char, z: string)
    requires c == '(' || c == ')' || c == ','
    ensures Stream([c] + z) == [PunctToken(c)] + Stream(z)
  {
    assert ([c] + z)[1..] == z;
  }

  lemma StreamIdent(w: string, z: string)
    requires IsIdentText(w) && Delimited(z)
    ensures Stream(w + z) == [IdentToken(w)] + Stream(z)
  {
    RunAll(w, IsIdentPart);
    RunAppend(w, z, IsIdentPart);
    assert (w + z)[..|w|] == w && (w + z)[|w|..] == z;
  }

  lemma StreamNumber(w: string, z: string)
    requires IsNumberText(w) && Delimited(z)
    ensures Stream(w + z) == [Token(Number, w, "")] + Stream(z)
  {
    RunAll(w, IsNumberPart);
    RunAppend(w, z, IsNumberPart);
    assert (w + z)[..|w|] == w && (w + z)[|w|..] == z;
  }

  lemma StreamQuoted(text: string, z: string)
    requires Delimited(z)
    ensures Stream(Quote(text) + z) == [Token(Str, text, "")] + Stream(z)
  {
    assert (Quote(text) + z)[1..] == QuoteBody(text) + z;
    ScanQuoteBody(text, "", z);
    assert "" + text == text;
  }

  predicate IsOperatorText(w: string) {
    w == "=" || w == "<>" || w == "<" || w == "<=" || w == ">" || w == ">="
  }

  lemma StreamOperator(w: string, z: string)
    requires IsOperatorText(w) && Delimited(z)
    ensures Stream(w + z) == [Token(Op, w, "")] + Stream(z)
  {
    assert (w + z)[..|w|] == w && (w + z)[|w|..] == z;
  }

  /** A token of the form the lexer gives it. */
  predicate Lexical(t: Token) {
    match t.kind
    case Ident => IsIdentText(t.text) && t == IdentToken(t.text)
    case Str => t.up == ""
    case Number => IsNumberText(t.text) && t.up == ""
    case Punct => t == PunctToken('(') || t == PunctToken(')') || t == PunctToken(',')
    case Op => IsOperatorText(t.text) && t.up == ""
    case Eof => false
    case Bad => t == BAD
  }

  lemma {:induction false} ScanLexical(s: string)
    ensures Scan(s).Lexeme? ==> Lexical(Scan(s).tok)
  {
    if s != "" {
      var c := s[0];
      if IsSpace(c) {
        ScanLexical(s[1..]);
      } else if IsOperatorStart(c) {
        assert s[..1] == [c];
        if |s| > 1 {
          assert s[..2] == [c, s[1]];
        }
      } else if IsNumberStart(c) {
        assert Scan(s) == ScanNumber(s);
      } else if IsIdentStart(c) {
        assert Scan(s) == ScanIdent(s);
      }
    }
  }

  predicate AllLexical(ts: seq<Token>) {
    forall i | 0 <= i < |ts| :: Lexical(ts[i])
  }

  lemma {:induction false} StreamLexical(s: string)
    ensures AllLexical(Stream(s))
    decreases |s|
  {
    ScanLexical(s);
    if Scan(s).Lexeme? {
      StreamLexical(Scan(s).rest);
    }
  }

  // ---- Rendering a token sequence ----

  function Text(t: Token): string {
    if t.kind == Str then Quote(t.text) else t.text
  }

  /** Every token behind a space. */
  function Render(ts: seq<Token>): (s: string)
    ensures Delimited(s)
  {
    if ts == [] then "" else " " + (Text(ts[0]) + Render(ts[1..]))
  }

  /** Lexing undoes rendering. */
  lemma {:induction false} StreamOfRender(ts: seq<Token>)
    requires AllLexical(ts) && Clean(ts)
    ensures Stream(Render(ts)) == ts
  {
    if ts != [] {
      var t, z := ts[0], Render(ts[1..]);
      StreamOfRender(ts[1..]);
      StreamSpace(Text(t) + z);
      match t.kind {
        case Ident => StreamIdent(t.text, z);
        case Str => StreamQuoted(t.text, z);
        case Number => StreamNumber(t.text, z);
        case Punct => StreamPunct(t.text[0], z);
        case Op => StreamOperator(t.text, z);
        case _ =>
      }
    }
  }
}

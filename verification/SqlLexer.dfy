/**
 The tokens PostgreSQL reads in the SQL that the services assemble (section 4.1 of its manual): key words
 and unquoted names folded to one case, quoted identifiers, positional parameters, numbers, operators and marks.
 */
module SqlLexer {
  import opened Outcomes
  import opened Decimals
  import L = CqlLexer

  // `Unreadable` ends the tokens of a text this lexer does not cover.
  datatype Tok = Word(up: string) | Quoted(name: string) | Param(index: nat) | Number(value: nat) | Sym(text: string) | Mark(c: char) | Unreadable

  type Toks = seq<Tok>

  predicate IsWordStart(c: char) {
    L.IsIdentStart(c)
  }

  predicate IsWordPart(c: char) {
    L.IsIdentStart(c) || IsDigit(c) || c == '$'
  }

  predicate IsOperatorChar(c: char) {
    || c == '<' || c == '>' || c == '=' || c == '+' || c == '-' || c == '*' || c == '/' || c == '%' || c == '^'
    || c == '&' || c == '|' || c == '~' || c == '!' || c == '@' || c == '#' || c == '`' || c == '?'
  }

  predicate IsMark(c: char) {
    c == '(' || c == ')' || c == ','
  }

  /** The body of a quoted identifier of which `read` has been read, and the text after its closing quote. */
  function ScanQuoted(s: string, read: string): (r: Outcome<(string, string)>)
    ensures r.Done? ==> |r.value.1| < |s|
    decreases |s|
  {
    if s == "" then Fail
    else if s[0] != '"' then ScanQuoted(s[1..], read + [s[0]])
    else if |s| > 1 && s[1] == '"' then ScanQuoted(s[2..], read + "\"")
    else Done((read, s[1..]))
  }

  function Lex(s: string): Toks
    decreases |s|, 1
  {
    if s == "" then []
    else if L.IsSpace(s[0]) then Lex(s[1..])
    else LexToken(s)
  }

  function LexToken(s: string): Toks
    requires s != ""
    decreases |s|, 0
  {
    if IsWordStart(s[0]) then
      var n := L.Run(s, IsWordPart);
      [Word(L.Upper(s[..n]))] + Lex(s[n..])
    else if s[0] == '"' then
      match ScanQuoted(s[1..], "")
      case Done((name, rest)) => [Quoted(name)] + Lex(rest)
      case Fail => [Unreadable]
    else if s[0] == '$' then
      var n := L.Run(s[1..], IsDigit);
      if n == 0 then [Unreadable] else [Param(Value(s[1..][..n]))] + Lex(s[1..][n..])
    else if IsDigit(s[0]) then
      var n := L.Run(s, IsDigit);
      [Number(Value(s[..n]))] + Lex(s[n..])
    else if IsMark(s[0]) then [Mark(s[0])] + Lex(s[1..])
    else if IsOperatorChar(s[0]) then
      var n := L.Run(s, IsOperatorChar);
      [Sym(s[..n])] + Lex(s[n..])
    else [Unreadable]
  }

  // ---- Reading one token off the front ----

  // `z` cannot prolong a word, a parameter, a number or an operator written before it.
  predicate Ends(z: string) {
    z == "" || z[0] == ' ' || IsMark(z[0])
  }

  predicate IsWord(word: string) {
    word != "" && IsWordStart(word[0]) && forall i | 0 <= i < |word| :: IsWordPart(word[i])
  }

  lemma Split(a: string, z: string)
    ensures (a + z)[..|a|] == a && (a + z)[|a|..] == z
  {
  }

  lemma LexWord(word: string, z: string)
    requires IsWord(word) && Ends(z)
    ensures Lex(word + z) == [Word(L.Upper(word))] + Lex(z)
  {
    var s := word + z;
    L.RunIs(s, IsWordPart, |word|);
    Split(word, z);
    assert s[0] == word[0];
  }

  lemma LexParam(n: nat, z: string)
    requires Ends(z)
    ensures Lex("$" + Decimal(n) + z) == [Param(n)] + Lex(z)
  {
    var digits := Decimal(n);
    var s := "$" + digits + z;
    var tail := digits + z;
    assert s[1..] == tail;
    assert !L.IsSpace('$') && !IsWordStart('$');
    L.RunIs(tail, IsDigit, |digits|);
    Split(digits, z);
    ValueOfDecimal(n);
  }

  lemma LexNumber(n: nat, z: string)
    requires Ends(z)
    ensures Lex(Decimal(n) + z) == [Number(n)] + Lex(z)
  {
    var digits := Decimal(n);
    var s := digits + z;
    assert IsDigit(s[0]);
    L.RunIs(s, IsDigit, |digits|);
    Split(digits, z);
    ValueOfDecimal(n);
  }

  lemma LexOperator(op: string, z: string)
    requires op != "" && (forall i | 0 <= i < |op| :: IsOperatorChar(op[i])) && Ends(z)
    ensures Lex(op + z) == [Sym(op)] + Lex(z)
  {
    var s := op + z;
    assert s[0] == op[0];
    OnlyOperator(s[0]);
    L.RunIs(s, IsOperatorChar, |op|);
    Split(op, z);
    assert LexToken(s) == [Sym(op)] + Lex(z);
  }

  lemma OnlyOperator(c: char)
    requires IsOperatorChar(c)
    ensures !L.IsSpace(c) && !IsWordStart(c) && c != '"' && c != '$' && !IsDigit(c) && !IsMark(c)
  {
  }

  lemma LexMark(c: char, z: string)
    requires IsMark(c)
    ensures Lex([c] + z) == [Mark(c)] + Lex(z)
  {
    assert ([c] + z)[1..] == z;
  }

  lemma LexSpace(z: string)
    ensures Lex(" " + z) == Lex(z)
  {
    assert (" " + z)[1..] == z;
  }

  lemma {:induction false} ScanPlain(name: string, read: string, z: string)
    requires forall i | 0 <= i < |name| :: name[i] != '"'
    requires z != "" ==> z[0] != '"'
    ensures ScanQuoted(name + "\"" + z, read) == Done((read + name, z))
    decreases |name|
  {
    var s := name + "\"" + z;
    if name == "" {
      assert s[1..] == z && read + name == read;
    } else {
      assert s[1..] == name[1..] + "\"" + z;
      ScanPlain(name[1..], read + [name[0]], z);
      assert read + [name[0]] + name[1..] == read + name;
    }
  }

  lemma LexQuoted(name: string, z: string)
    requires forall i | 0 <= i < |name| :: name[i] != '"'
    requires Ends(z)
    ensures Lex("\"" + name + "\"" + z) == [Quoted(name)] + Lex(z)
  {
    var s := "\"" + name + "\"" + z;
    assert s[1..] == name + "\"" + z;
    ScanPlain(name, "", z);
    assert "" + name == name;
    assert s[0] == '"' && !IsWordStart('"');
  }
}

/** The Go compiler: a running placeholder counter that the fragments draw from, in order. */
module GoSql {
  import opened Outcomes
  import opened FilterAst
  import opened SqlCompiler
  import Decimals
  import L = CqlLexer

  class ArgCounter {
    var n: nat
    var args: Args

    constructor (start: nat)
      ensures n == start && args == []
    {
      n, args := start, [];
    }

    method Placeholder(v: Lit) returns (p: string)
      modifies this
      ensures p == SqlCompiler.Placeholder(old(n)) && n == old(n) + 1 && args == old(args) + [v]
    {
      args := args + [v];
      p := "$" + Decimals.Decimal(n);
      n := n + 1;
    }
  }

  // `spec` is the fragment that was appended to what the counter held before, `n` and `args`.
  ghost predicate Appended(r: Outcome<string>, spec: Outcome<Sql>, n: nat, args: Args, n': nat, args': Args) {
    match spec
    case Fail => r.Fail?
    case Done(s) => r == Done(s.text) && n' == n + |s.args| && args' == args + s.args
  }

  method LitValue(e: Expr) returns (r: Outcome<Lit>)
    ensures r == if e.Literal? then Done(e.lit) else Fail
  {
    if e.Literal? {
      return Done(e.lit);
    }
    return Fail;
  }

  // ---- Identifiers and function names ----

  predicate IsIdentHead(c: char) {
    'A' <= c <= 'Z' || 'a' <= c <= 'z' || c == '_'
  }

  predicate IsIdentRest(s: string) {
    s == "" || ((IsIdentHead(s[0]) || '0' <= s[0] <= '9') && IsIdentRest(s[1..]))
  }

  /** The pattern `^[A-Za-z_][A-Za-z0-9_]*$`. */
  predicate MatchesIdent(name: string) {
    name != "" && IsIdentHead(name[0]) && IsIdentRest(name[1..])
  }

  function QuoteIdent(name: string): Outcome<string> {
    if !MatchesIdent(name) then Fail else Done("\"" + name + "\"")
  }

  lemma {:induction false} RestPattern(s: string)
    ensures IsIdentRest(s) <==> forall i | 0 <= i < |s| :: L.IsIdentStart(s[i]) || Decimals.IsDigit(s[i])
  {
    if s != "" {
      RestPattern(s[1..]);
      assert forall i | 1 <= i < |s| :: s[i] == s[1..][i - 1];
    }
  }

  lemma IdentPattern(name: string)
    ensures QuoteIdent(name) == SqlCompiler.QuoteIdent(name)
  {
    if name != "" {
      RestPattern(name[1..]);
      assert forall i | 1 <= i < |name| :: name[i] == name[1..][i - 1];
    }
  }

  // What strings.Title takes for the end of a word, as far as ASCII goes.
  predicate IsSeparator(c: char) {
    !('A' <= c <= 'Z' || 'a' <= c <= 'z' || '0' <= c <= '9' || c == '_')
  }

  /** strings.Title: the first letter of every word in upper case. */
  function Title(s: string): string {
    TitleFrom(' ', s)
  }

  function TitleFrom(before: char, s: string): string
    decreases |s|
  {
    if s == "" then "" else [if IsSeparator(before) then L.UpperChar(s[0]) else s[0]] + TitleFrom(s[0], s[1..])
  }

  lemma {:induction false} OneWord(before: char, s: string)
    requires !IsSeparator(before) && forall i | 0 <= i < |s| :: !IsSeparator(s[i])
    ensures TitleFrom(before, s) == s
    decreases |s|
  {
    if s != "" {
      OneWord(s[0], s[1..]);
    }
  }

  lemma TitledWord(s: string)
    requires forall i | 0 <= i < |s| :: !IsSeparator(s[i])
    ensures Title(s) == SqlCompiler.Title(s)
  {
    if s != "" {
      OneWord(s[0], s[1..]);
    }
  }

  lemma TitledName(rel: SpatialOp)
    ensures "ST_" + Title(Lower(SpatialWord(rel))) == SpatialFunction(rel)
  {
    TitledWord(Lower(SpatialWord(rel)));
  }

  /** The fragment of `e`, its placeholders numbered from the counter. */
  method EmitExpr(e: Expr, ac: ArgCounter) returns (r: Outcome<string>)
    modifies ac
    ensures Appended(r, Emit(e, old(ac.n)), old(ac.n), old(ac.args), ac.n, ac.args)
    decreases e, 1
  {
    match e {
      case IncludeAll => return Done("TRUE");
      case Property(name) =>
        IdentPattern(name);
        return QuoteIdent(name);
      case Literal(_) => return Fail;
      case Compare(_, _, _) => r := EmitCompare(e, ac);
      case Logic(op, exprs) => r := EmitLogic(op, exprs, ac);
      case Not(x) =>
        var s :- EmitExpr(x, ac);
        return Done("NOT (" + s + ")");
      case Like(_, _, _, _) => r := EmitLike(e, ac);
      case In(_, _, _) => r := EmitIn(e, ac);
      case Between(_, _, _, _) => r := EmitBetween(e, ac);
      case IsNull(prop, negate) =>
        var col :- EmitExpr(prop, ac);
        if negate {
          return Done(col + " IS NOT NULL");
        }
        return Done(col + " IS NULL");
      case BBox(_, _, _, _, _, _) => r := EmitBBox(e, ac);
      case Spatial(rel, geom, wkt) =>
        IdentPattern(geom);
        var col :- QuoteIdent(geom);
        TitledName(rel);
        var fn := "ST_" + Title(Lower(SpatialWord(rel)));
        var p := ac.Placeholder(Lit.Str(wkt));
        return Done(fn + "(" + col + ", ST_GeomFromText(" + p + "))");
      case DWithin(_, _, _, _, _) => r := EmitDWithin(e, ac);
    }
  }

  method EmitCompare(e: Expr, ac: ArgCounter) returns (r: Outcome<string>)
    requires e.Compare?
    modifies ac
    ensures Appended(r, Emit(e, old(ac.n)), old(ac.n), old(ac.args), ac.n, ac.args)
    decreases e, 0
  {
    var left :- EmitExpr(e.left, ac);
    var v := LitValue(e.right);
    if v.Fail? {
      // a comparison of two properties
      var right :- EmitExpr(e.right, ac);
      return Done(left + " " + CompareText(e.cmp) + " " + right);
    }
    var p := ac.Placeholder(v.value);
    return Done(left + " " + CompareText(e.cmp) + " " + p);
  }

  method EmitLogic(op: LogicOp, exprs: seq<Expr>, ac: ArgCounter) returns (r: Outcome<string>)
    modifies ac
    ensures Appended(r, Emit(Logic(op, exprs), old(ac.n)), old(ac.n), old(ac.args), ac.n, ac.args)
    decreases exprs, 1
  {
    var parts :- EmitOperands(exprs, ac);
    return Done("(" + Join(parts, " " + Connective(op) + " ") + ")");
  }

  // As Appended, for the operands of a connective.
  ghost predicate AppendedAll(r: Outcome<seq<string>>, spec: Outcome<Parts>, n: nat, args: Args, n': nat, args': Args) {
    match spec
    case Fail => r.Fail?
    case Done(p) => r == Done(p.texts) && n' == n + |p.args| && args' == args + p.args
  }

  /** The loop of the connectives. */
  method EmitOperands(exprs: seq<Expr>, ac: ArgCounter) returns (r: Outcome<seq<string>>)
    modifies ac
    ensures AppendedAll(r, EmitAll(exprs, old(ac.n), Parts([], [])), old(ac.n), old(ac.args), ac.n, ac.args)
    decreases exprs, 0
  {
    ghost var k, before := ac.n, ac.args;
    ghost var spec := EmitAll(exprs, k, Parts([], []));
    ghost var added: Args := [];
    var parts: seq<string> := [];
    var i := 0;
    while i < |exprs|
      invariant i <= |exprs|
      invariant ac.n == k + |added| && ac.args == before + added
      invariant EmitAll(exprs[i..], k, Parts(parts, added)) == spec
      decreases |exprs| - i
    {
      ghost var rest := exprs[i..];
      assert rest[0] == exprs[i] && rest[1..] == exprs[i + 1..];
      ghost var one := Emit(exprs[i], ac.n);
      var s :- EmitExpr(exprs[i], ac);
      parts := parts + [s];
      added := added + one.value.args;
      i := i + 1;
    }
    return Done(parts);
  }

  method EmitLike(e: Expr, ac: ArgCounter) returns (r: Outcome<string>)
    requires e.Like?
    modifies ac
    ensures Appended(r, Emit(e, old(ac.n)), old(ac.n), old(ac.args), ac.n, ac.args)
    decreases e, 0
  {
    var col :- EmitExpr(e.prop, ac);
    var op := "LIKE";
    if e.caseInsensitive {
      op := "ILIKE";
    }
    if e.negate {
      op := "NOT " + op;
    }
    var p := ac.Placeholder(Lit.Str(e.pattern));
    return Done(col + " " + op + " " + p);
  }

  method EmitIn(e: Expr, ac: ArgCounter) returns (r: Outcome<string>)
    requires e.In?
    modifies ac
    ensures Appended(r, Emit(e, old(ac.n)), old(ac.n), old(ac.args), ac.n, ac.args)
    decreases e, 0
  {
    ghost var k, before := ac.n, ac.args;
    ghost var head := Emit(e.prop, k);
    var col :- EmitExpr(e.prop, ac);
    ghost var added := head.value.args;
    ghost var spec := EmitValues(e.values, k, Parts([], added));
    var phs: seq<string> := [];
    var i := 0;
    while i < |e.values|
      invariant i <= |e.values|
      invariant ac.n == k + |added| && ac.args == before + added
      invariant EmitValues(e.values[i..], k, Parts(phs, added)) == spec
      decreases |e.values| - i
    {
      ghost var rest := e.values[i..];
      assert rest[0] == e.values[i] && rest[1..] == e.values[i + 1..];
      var lv :- LitValue(e.values[i]);
      var p := ac.Placeholder(lv);
      phs := phs + [p];
      added := added + [lv];
      i := i + 1;
    }
    var op := "IN";
    if e.negate {
      op := "NOT IN";
    }
    assert op == NotWord(e.negate, "IN");
    return Done(col + " " + op + " (" + Join(phs, ", ") + ")");
  }

  method EmitBetween(e: Expr, ac: ArgCounter) returns (r: Outcome<string>)
    requires e.Between?
    modifies ac
    ensures Appended(r, Emit(e, old(ac.n)), old(ac.n), old(ac.args), ac.n, ac.args)
    decreases e, 0
  {
    var col :- EmitExpr(e.prop, ac);
    var lo :- LitValue(e.lo);
    var hi :- LitValue(e.hi);
    var op := "BETWEEN";
    if e.negate {
      op := "NOT BETWEEN";
    }
    assert op == NotWord(e.negate, "BETWEEN");
    ghost var before := ac.args;
    var p := ac.Placeholder(lo);
    var q := ac.Placeholder(hi);
    assert ac.args == before + [lo, hi];
    return Done(col + " " + op + " " + p + " AND " + q);
  }

  method EmitBBox(e: Expr, ac: ArgCounter) returns (r: Outcome<string>)
    requires e.BBox?
    modifies ac
    ensures Appended(r, Emit(e, old(ac.n)), old(ac.n), old(ac.args), ac.n, ac.args)
  {
    IdentPattern(e.geom);
    var col :- QuoteIdent(e.geom);
    var a := ac.Placeholder(Num(e.minX));
    var b := ac.Placeholder(Num(e.minY));
    var c := ac.Placeholder(Num(e.maxX));
    var d := ac.Placeholder(Num(e.maxY));
    return Done(col + " && ST_MakeEnvelope(" + a + ", " + b + ", " + c + ", " + d + ")");
  }

  method EmitDWithin(e: Expr, ac: ArgCounter) returns (r: Outcome<string>)
    requires e.DWithin?
    modifies ac
    ensures Appended(r, Emit(e, old(ac.n)), old(ac.n), old(ac.args), ac.n, ac.args)
  {
    IdentPattern(e.geom);
    var col :- QuoteIdent(e.geom);
    var p := ac.Placeholder(Lit.Str(e.wkt));
    var q := ac.Placeholder(Num(e.distance));
    var call := "ST_DWithin(" + col + ", ST_GeomFromText(" + p + "), " + q + ")";
    if e.beyond {
      return Done("NOT " + call);
    }
    return Done(call);
  }

  /** ToSQL. */
  method ToSql(e: Expr, startArg: nat) returns (r: Outcome<Sql>)
    ensures r == Emit(e, startArg)
  {
    var ac := new ArgCounter(startArg);
    var sql :- EmitExpr(e, ac);
    assert ac.args == Emit(e, startArg).value.args;
    return Done(Sql(sql, ac.args));
  }
}

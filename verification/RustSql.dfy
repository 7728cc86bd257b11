/** The Rust compiler: the same fragments, threaded through `Ctr`, with `?` leaving at the first failure. */
module RustSql {
  import opened Outcomes
  import opened FilterAst
  import opened SqlCompiler
  import Decimals
  import L = CqlLexer

  class Ctr {
    var n: nat
    var args: Args

    constructor (start: nat)
      ensures n == start && args == []
    {
      n, args := start, [];
    }

    method Placeholder(v: Lit) returns (p: string)
      modifies this
      ensures p == SqlCompiler.Placeholder(old(n)) && n == old(n) + 1 && args == old(args) + [v]
    {
      args := args + [v];
      p := "$" + Decimals.Decimal(n);
      n := n + 1;
    }
  }

  // `spec` is the fragment that was appended to what the counter held before, `n` and `args`.
  ghost predicate Appended(r: Outcome<string>, spec: Outcome<Sql>, n: nat, args: Args, n': nat, args': Args) {
    match spec
    case Fail => r.Fail?
    case Done(s) => r == Done(s.text) && n' == n + |s.args| && args' == args + s.args
  }

  /** The bound argument a literal stands for; the three kinds of argument are the three kinds of literal. */
  function LitArg(e: Expr): Outcome<Lit> {
    match e
    case Literal(Str(s)) => Done(Lit.Str(s))
    case Literal(Num(n)) => Done(Num(n))
    case Literal(Bool(b)) => Done(Bool(b))
    case _ => Fail
  }

  // ---- Identifiers and function names ----

  predicate IsAsciiAlphabetic(c: char) {
    'A' <= c <= 'Z' || 'a' <= c <= 'z'
  }

  method ValidIdent(name: string) returns (b: bool)
    ensures b == IsIdentifier(name)
  {
    if name == "" || (name[0] != '_' && !IsAsciiAlphabetic(name[0])) {
      return false;
    }
    for i := 1 to |name|
      invariant forall j | 1 <= j < i :: L.IsIdentStart(name[j]) || Decimals.IsDigit(name[j])
    {
      var c := name[i];
      if c != '_' && !IsAsciiAlphabetic(c) && !('0' <= c <= '9') {
        return false;
      }
    }
    return true;
  }

  method QuoteIdent(name: string) returns (r: Outcome<string>)
    ensures r == SqlCompiler.QuoteIdent(name)
  {
    var valid := ValidIdent(name);
    if !valid {
      return Fail;
    }
    return Done("\"" + name + "\"");
  }

  /** The first character in upper case, and the rest of the word as it is in lower case. */
  method StSpatial(rel: SpatialOp) returns (fn: string)
    ensures fn == SpatialFunction(rel)
  {
    var lower := Lower(SpatialWord(rel));
    var title := lower;
    if lower != "" {
      title := [L.UpperChar(lower[0])] + lower[1..];
    }
    return "ST_" + title;
  }

  /** The fragment of `e`, its placeholders numbered from the counter. */
  method EmitExpr(e: Expr, ctr: Ctr) returns (r: Outcome<string>)
    modifies ctr
    ensures Appended(r, Emit(e, old(ctr.n)), old(ctr.n), old(ctr.args), ctr.n, ctr.args)
    decreases e, 1
  {
    match e {
      case IncludeAll => return Done("TRUE");
      case Property(name) => r := QuoteIdent(name);
      case Literal(_) => return Fail;
      case Compare(_, _, _) => r := EmitCompare(e, ctr);
      case Logic(op, exprs) => r := EmitLogic(op, exprs, ctr);
      case Not(x) =>
        var s :- EmitExpr(x, ctr);
        return Done("NOT (" + s + ")");
      case Like(_, _, _, _) => r := EmitLike(e, ctr);
      case In(_, _, _) => r := EmitIn(e, ctr);
      case Between(_, _, _, _) => r := EmitBetween(e, ctr);
      case IsNull(prop, negate) =>
        var col :- EmitExpr(prop, ctr);
        if negate {
          return Done(col + " IS NOT NULL");
        }
        return Done(col + " IS NULL");
      case BBox(_, _, _, _, _, _) => r := EmitBBox(e, ctr);
      case Spatial(rel, geom, wkt) =>
        var col :- QuoteIdent(geom);
        var fn := StSpatial(rel);
        var p := ctr.Placeholder(Lit.Str(wkt));
        return Done(fn + "(" + col + ", ST_GeomFromText(" + p + "))");
      case DWithin(_, _, _, _, _) => r := EmitDWithin(e, ctr);
    }
  }

  method EmitCompare(e: Expr, ctr: Ctr) returns (r: Outcome<string>)
    requires e.Compare?
    modifies ctr
    ensures Appended(r, Emit(e, old(ctr.n)), old(ctr.n), old(ctr.args), ctr.n, ctr.args)
    decreases e, 0
  {
    var left :- EmitExpr(e.left, ctr);
    match LitArg(e.right) {
      case Done(v) =>
        var p := ctr.Placeholder(v);
        return Done(left + " " + CompareText(e.cmp) + " " + p);
      case Fail =>
        var right :- EmitExpr(e.right, ctr);
        return Done(left + " " + CompareText(e.cmp) + " " + right);
    }
  }

  method EmitLogic(op: LogicOp, exprs: seq<Expr>, ctr: Ctr) returns (r: Outcome<string>)
    modifies ctr
    ensures Appended(r, Emit(Logic(op, exprs), old(ctr.n)), old(ctr.n), old(ctr.args), ctr.n, ctr.args)
    decreases exprs, 1
  {
    var parts :- EmitOperands(exprs, ctr);
    return Done("(" + Join(parts, " " + Connective(op) + " ") + ")");
  }

  // As Appended, for the operands of a connective.
  ghost predicate AppendedAll(r: Outcome<seq<string>>, spec: Outcome<Parts>, n: nat, args: Args, n': nat, args': Args) {
    match spec
    case Fail => r.Fail?
    case Done(p) => r == Done(p.texts) && n' == n + |p.args| && args' == args + p.args
  }

  /** The loop of the connectives. */
  method EmitOperands(exprs: seq<Expr>, ctr: Ctr) returns (r: Outcome<seq<string>>)
    modifies ctr
    ensures AppendedAll(r, EmitAll(exprs, old(ctr.n), Parts([], [])), old(ctr.n), old(ctr.args), ctr.n, ctr.args)
    decreases exprs, 0
  {
    ghost var k, before := ctr.n, ctr.args;
    ghost var spec := EmitAll(exprs, k, Parts([], []));
    ghost var added: Args := [];
    var parts: seq<string> := [];
    var i := 0;
    while i < |exprs|
      invariant i <= |exprs|
      invariant ctr.n == k + |added| && ctr.args == before + added
      invariant EmitAll(exprs[i..], k, Parts(parts, added)) == spec
      decreases |exprs| - i
    {
      ghost var rest := exprs[i..];
      assert rest[0] == exprs[i] && rest[1..] == exprs[i + 1..];
      ghost var one := Emit(exprs[i], ctr.n);
      var s :- EmitExpr(exprs[i], ctr);
      parts := parts + [s];
      added := added + one.value.args;
      i := i + 1;
    }
    return Done(parts);
  }

  method EmitLike(e: Expr, ctr: Ctr) returns (r: Outcome<string>)
    requires e.Like?
    modifies ctr
    ensures Appended(r, Emit(e, old(ctr.n)), old(ctr.n), old(ctr.args), ctr.n, ctr.args)
    decreases e, 0
  {
    var col :- EmitExpr(e.prop, ctr);
    var op := if e.caseInsensitive then "ILIKE" else "LIKE";
    if e.negate {
      op := "NOT " + op;
    }
    var p := ctr.Placeholder(Lit.Str(e.pattern));
    return Done(col + " " + op + " " + p);
  }

  method EmitIn(e: Expr, ctr: Ctr) returns (r: Outcome<string>)
    requires e.In?
    modifies ctr
    ensures Appended(r, Emit(e, old(ctr.n)), old(ctr.n), old(ctr.args), ctr.n, ctr.args)
    decreases e, 0
  {
    ghost var k, before := ctr.n, ctr.args;
    ghost var head := Emit(e.prop, k);
    var col :- EmitExpr(e.prop, ctr);
    ghost var added := head.value.args;
    ghost var spec := EmitValues(e.values, k, Parts([], added));
    var phs: seq<string> := [];
    var i := 0;
    while i < |e.values|
      invariant i <= |e.values|
      invariant ctr.n == k + |added| && ctr.args == before + added
      invariant EmitValues(e.values[i..], k, Parts(phs, added)) == spec
      decreases |e.values| - i
    {
      ghost var rest := e.values[i..];
      assert rest[0] == e.values[i] && rest[1..] == e.values[i + 1..];
      var lv :- LitArg(e.values[i]);
      var p := ctr.Placeholder(lv);
      phs := phs + [p];
      added := added + [lv];
      i := i + 1;
    }
    var op := "IN";
    if e.negate {
      op := "NOT IN";
    }
    assert op == NotWord(e.negate, "IN");
    return Done(col + " " + op + " (" + Join(phs, ", ") + ")");
  }

  method EmitBetween(e: Expr, ctr: Ctr) returns (r: Outcome<string>)
    requires e.Between?
    modifies ctr
    ensures Appended(r, Emit(e, old(ctr.n)), old(ctr.n), old(ctr.args), ctr.n, ctr.args)
    decreases e, 0
  {
    var col :- EmitExpr(e.prop, ctr);
    var lo :- LitArg(e.lo);
    var hi :- LitArg(e.hi);
    var op := "BETWEEN";
    if e.negate {
      op := "NOT BETWEEN";
    }
    assert op == NotWord(e.negate, "BETWEEN");
    ghost var before := ctr.args;
    var p := ctr.Placeholder(lo);
    var q := ctr.Placeholder(hi);
    assert ctr.args == before + [lo, hi];
    return Done(col + " " + op + " " + p + " AND " + q);
  }

  method EmitBBox(e: Expr, ctr: Ctr) returns (r: Outcome<string>)
    requires e.BBox?
    modifies ctr
    ensures Appended(r, Emit(e, old(ctr.n)), old(ctr.n), old(ctr.args), ctr.n, ctr.args)
  {
    var col :- QuoteIdent(e.geom);
    var a := ctr.Placeholder(Num(e.minX));
    var b := ctr.Placeholder(Num(e.minY));
    var c := ctr.Placeholder(Num(e.maxX));
    var d := ctr.Placeholder(Num(e.maxY));
    return Done(col + " && ST_MakeEnvelope(" + a + ", " + b + ", " + c + ", " + d + ")");
  }

  method EmitDWithin(e: Expr, ctr: Ctr) returns (r: Outcome<string>)
    requires e.DWithin?
    modifies ctr
    ensures Appended(r, Emit(e, old(ctr.n)), old(ctr.n), old(ctr.args), ctr.n, ctr.args)
  {
    var col :- QuoteIdent(e.geom);
    var p := ctr.Placeholder(Lit.Str(e.wkt));
    var q := ctr.Placeholder(Num(e.distance));
    var call := "ST_DWithin(" + col + ", ST_GeomFromText(" + p + "), " + q + ")";
    if e.beyond {
      return Done("NOT " + call);
    }
    return Done(call);
  }

  /** ToSQL. */
  method ToSql(e: Expr, startArg: nat) returns (r: Outcome<Sql>)
    ensures r == Emit(e, startArg)
  {
    var ctr := new Ctr(startArg);
    var sql :- EmitExpr(e, ctr);
    assert ctr.args == Emit(e, startArg).value.args;
    return Done(Sql(sql, ctr.args));
  }
}

/** The Go and the Rust engine, each from filter text to SQL, side by side. */
module Engines {
  import opened Outcomes
  import opened FilterAst
  import opened SqlCompiler
  import opened SqlFragments
  import opened SqlTrees
  import C = Compilation
  import G = CqlGrammar
  import S = CqlShape
  import P = CqlPrinter
  import L = CqlLexer
  import N = CqlNumerals
  import GoCql
  import RustCql
  import GoSql
  import RustSql

  predicate IsInfinity(lit: Lit) {
    lit.Num? && lit.number.Infinity?
  }

  predicate BindsInfinity(args: Args) {
    exists i | 0 <= i < |args| :: IsInfinity(args[i])
  }

  method GoEngine(s: string, conv: S.Conversion, k: nat) returns (r: Outcome<Sql>)
    ensures var p := G.ParseCql(S.GoReader(conv), s);
            r == if p.Done? then Emit(p.value, k) else Fail
  {
    var e :- GoCql.ParseCql(s, conv);
    r := GoSql.ToSql(e, k);
  }

  method RustEngine(s: string, conv: S.Conversion, k: nat) returns (r: Outcome<Sql>)
    ensures var p := G.ParseCql(S.RustReader(conv), s);
            r == if p.Done? then Emit(p.value, k) else Fail
  {
    var e :- RustCql.ParseCql(s, conv);
    r := RustSql.ToSql(e, k);
  }

  /**
   On every input the two engines give the same SQL text and arguments or both fail, with one exception: they
   part exactly when Rust binds an infinity, which only a numeral beyond the largest double becomes. Then Go fails.
   On the text: they agree when it has no such numeral, and only then if Rust accepts it and its geometries have none.
   */
  method BothEngines(s: string, conv: S.Conversion, k: nat) returns (go: Outcome<Sql>, rust: Outcome<Sql>)
    ensures go == rust <==> rust.Fail? || !BindsInfinity(rust.value.args)
    ensures go != rust ==> go.Fail?
    ensures N.TooLarges(conv, L.Stream(s)) == 0 ==> go == rust
    ensures rust.Done? && N.SmallGeometries(conv, L.Stream(s)) ==> (go == rust <==> N.TooLarges(conv, L.Stream(s)) == 0)
  {
    go := GoEngine(s, conv, k);
    rust := RustEngine(s, conv, k);
    S.GoParsesFiniteRust(conv, s);
    S.ParsedIsShaped(conv, s);
    N.ReadAlike(conv, s);
    ghost var p := G.ParseCql(S.RustReader(conv), s);
    if p.Done? {
      C.ShapedIsFormula(p.value);
      EmitIs(p.value, k);
      if rust.Done? {
        FiniteArgs(p.value);
      }
    }
  }

  // ---- Infinities of a filter are infinities among its arguments ----

  lemma InfinityIn(a: Args, b: Args)
    ensures BindsInfinity(a + b) <==> BindsInfinity(a) || BindsInfinity(b)
  {
    var c := a + b;
    if BindsInfinity(a) {
      var i :| 0 <= i < |a| && IsInfinity(a[i]);
      assert IsInfinity(c[i]);
    }
    if BindsInfinity(b) {
      var i :| 0 <= i < |b| && IsInfinity(b[i]);
      assert IsInfinity(c[|a| + i]);
    }
    if BindsInfinity(c) {
      var i :| 0 <= i < |c| && IsInfinity(c[i]);
      assert c[i] == if i < |a| then a[i] else b[i - |a|];
    }
  }

  lemma InfinityAmong(lit: Lit)
    ensures BindsInfinity([lit]) <==> IsInfinity(lit)
  {
    assert [lit][0] == lit;
  }

  lemma {:induction false} FiniteValues(values: seq<Expr>)
    requires AllLiterals(values)
    ensures S.AllFinite(values) <==> !BindsInfinity(ValueArgs(values))
  {
    if values != [] {
      FiniteValues(values[1..]);
      InfinityAmong(values[0].lit);
      InfinityIn([values[0].lit], ValueArgs(values[1..]));
      assert S.AllFinite(values) <==> S.FiniteValue(values[0]) && S.AllFinite(values[1..]) by {
        assert forall i | 1 <= i < |values| :: values[i] == values[1..][i - 1];
      }
    }
  }

  lemma {:induction false} FiniteArgs(e: Expr)
    requires Formula(e) && Compiles(e)
    ensures S.Finite(e) <==> !BindsInfinity(ArgsOf(e))
    decreases e, 0
  {
    match e {
      case Compare(_, left, right) =>
        assert [] + ArgsOf(right) == ArgsOf(right);
        if right.Literal? {
          InfinityAmong(right.lit);
        }
      case Logic(_, es) => FiniteAll(es);
      case Not(x) => FiniteArgs(x);
      case Like(_, pattern, _, _) =>
        assert ArgsOf(e) == [Lit.Str(pattern)];
      case In(_, values, _) =>
        assert ArgsOf(e) == ValueArgs(values);
        FiniteValues(values);
      case Between(_, lo, hi, _) =>
        assert ArgsOf(e) == [lo.lit] + [hi.lit];
        InfinityAmong(lo.lit);
        InfinityAmong(hi.lit);
        InfinityIn([lo.lit], [hi.lit]);
      case BBox(_, minX, minY, maxX, maxY, _) =>
        var a := ArgsOf(e);
        assert a[0] == Num(minX) && a[1] == Num(minY) && a[2] == Num(maxX) && a[3] == Num(maxY);
      case DWithin(_, _, distance, _, _) =>
        assert ArgsOf(e)[1] == Num(distance);
      case _ =>
    }
  }

  lemma {:induction false} FiniteAll(es: seq<Expr>)
    requires AllFormulas(es) && AllCompile(es)
    ensures (forall i | 0 <= i < |es| :: S.Finite(es[i])) <==> !BindsInfinity(AllArgs(es))
    decreases es, 1
  {
    if es != [] {
      var rest := es[1..];
      FiniteArgs(es[0]);
      FiniteAll(rest);
      InfinityIn(ArgsOf(es[0]), AllArgs(rest));
      assert forall i | 1 <= i < |es| :: es[i] == rest[i - 1];
    }
  }

  // ---- An input on which they part ----

  function Below(name: string): Expr {
    Compare(Lt, Property(name), Literal(Num(Infinity(false))))
  }

  lemma BelowIsPrintable(num: G.NumeralReader, show: P.NumeralPrinter, name: string)
    requires IsIdentifier(name) && P.Shown(num, show, Infinity(false))
    ensures S.Shaped(Below(name)) && P.Printable(num, show, Below(name))
  {
  }

  lemma BelowBindsInfinity(name: string)
    requires IsIdentifier(name)
    ensures Formula(Below(name)) && Compiles(Below(name)) && BindsInfinity(ArgsOf(Below(name))) && !S.Finite(Below(name))
  {
    assert ArgsOf(Below(name)) == [Num(Infinity(false))];
    InfinityAmong(Num(Infinity(false)));
  }

  /** `name < numeral` is one, for any numeral the shared conversion finds too large. */
  lemma EnginesPart(conv: S.Conversion, show: P.NumeralPrinter, name: string)
    requires IsIdentifier(name)
    requires L.IsNumberText(show(Infinity(false))) && conv(show(Infinity(false))) == S.TooLarge(false)
    ensures S.Shaped(Below(name))
    ensures var s := P.Print(show, Below(name));
            && G.ParseCql(S.GoReader(conv), s).Fail?
            && G.ParseCql(S.RustReader(conv), s) == Done(Below(name))
    ensures Emit(Below(name), 1).Done? && BindsInfinity(Emit(Below(name), 1).value.args)
  {
    BelowIsPrintable(S.RustReader(conv), show, name);
    P.ParseOfPrint(S.RustReader(conv), show, Below(name));
    S.GoParsesFiniteRust(conv, P.Print(show, Below(name)));
    BelowBindsInfinity(name);
    EmitIs(Below(name), 1);
  }
}

/** What compiling a parsed filter guarantees: exactly when it succeeds, and that it keeps the meaning. */
module Compilation {
  import opened Outcomes
  import opened FilterAst
  import opened SqlCompiler
  import opened SqlFragments
  import opened SqlReader
  import opened SqlTrees
  import opened SqlMeaning
  import Text = SqlText
  import S = CqlShape
  import G = CqlGrammar

  // ---- Exactly when compiling succeeds ----

  /** Every property name in a filter. */
  function PropertyNames(e: Expr): set<string> {
    match e
    case Property(name) => {name}
    case Literal(_) => {}
    case Compare(_, left, right) => PropertyNames(left) + PropertyNames(right)
    case Logic(_, es) => NamesAmong(es)
    case Not(x) => PropertyNames(x)
    case Like(prop, _, _, _) => PropertyNames(prop)
    case In(prop, values, _) => PropertyNames(prop) + NamesAmong(values)
    case Between(prop, lo, hi, _) => PropertyNames(prop) + PropertyNames(lo) + PropertyNames(hi)
    case IsNull(prop, _) => PropertyNames(prop)
    case BBox(geom, _, _, _, _, _) => {geom}
    case Spatial(_, geom, _) => {geom}
    case DWithin(geom, _, _, _, _) => {geom}
    case IncludeAll => {}
  }

  function NamesAmong(es: seq<Expr>): set<string> {
    set i, name | 0 <= i < |es| && name in PropertyNames(es[i]) :: name
  }

  /** Every operand of every IN and BETWEEN is a literal. */
  predicate LiteralOperands(e: Expr) {
    match e
    case Logic(_, es) => forall i | 0 <= i < |es| :: LiteralOperands(es[i])
    case Not(x) => LiteralOperands(x)
    case In(_, values, _) => AllLiterals(values)
    case Between(_, lo, hi, _) => lo.Literal? && hi.Literal?
    case _ => true
  }

  predicate AllIdentifiers(names: set<string>) {
    forall name | name in names :: IsIdentifier(name)
  }

  lemma {:induction false} CompilesExactly(e: Expr)
    requires Formula(e)
    ensures Compiles(e) <==> AllIdentifiers(PropertyNames(e)) && LiteralOperands(e)
    decreases e
  {
    match e {
      case Logic(_, es) =>
        forall i | 0 <= i < |es|
          ensures Compiles(es[i]) <==> AllIdentifiers(PropertyNames(es[i])) && LiteralOperands(es[i])
        {
          CompilesExactly(es[i]);
        }
        NamesAmongAll(es);
      case In(prop, values, _) =>
        assert PropertyNames(prop) == {prop.name};
        if AllLiterals(values) {
          assert NamesAmong(values) == {};
        }
      case Between(prop, _, _, _) => assert PropertyNames(prop) == {prop.name};
      case Not(x) => CompilesExactly(x);
      case Compare(_, left, right) =>
        assert PropertyNames(left) == {left.name};
        assert right.Property? ==> PropertyNames(right) == {right.name};
      case _ =>
    }
  }

  lemma NamesAmongAll(es: seq<Expr>)
    ensures AllIdentifiers(NamesAmong(es)) <==> forall i | 0 <= i < |es| :: AllIdentifiers(PropertyNames(es[i]))
  {
    forall i, name | 0 <= i < |es| && name in PropertyNames(es[i])
      ensures name in NamesAmong(es)
    {
    }
  }

  lemma {:induction false} ShapedIsFormula(e: Expr)
    requires S.Shaped(e)
    ensures Formula(e)
    decreases e
  {
    match e {
      case Logic(_, es) =>
        ShapedIsFormula(es[0]);
        ShapedIsFormula(es[1]);
      case Not(x) => ShapedIsFormula(x);
      case _ =>
    }
  }

  /**
   On every filter the parser can return, compiling succeeds exactly when every property name is a plain
   identifier and every operand of IN and BETWEEN is a literal.
   */
  lemma SucceedsExactly(conv: S.Conversion, s: string, k: nat)
    ensures match G.ParseCql(S.RustReader(conv), s)
            case Done(e) => Emit(e, k).Done? <==> AllIdentifiers(PropertyNames(e)) && LiteralOperands(e)
            case Fail => true
  {
    var r := G.ParseCql(S.RustReader(conv), s);
    S.ParsedIsShaped(conv, s);
    if r.Done? {
      ShapedIsFormula(r.value);
      EmitIs(r.value, k);
      CompilesExactly(r.value);
    }
  }

  // ---- The meaning of a fragment ----

  /**
   Read with SQL's precedence, with each `$i` bound to its argument, a fragment is true, false or unknown
   exactly as the filter is.
   */
  lemma FragmentMeans<V>(w: World<V>, binding: Binding, e: Expr, k: nat)
    requires Formula(e) && Emit(e, k).Done? && Binds(binding, k, Emit(e, k).value.args)
    ensures var r := ReadCondition(Emit(e, k).value.text);
            r.Done? && TruthOf(w, binding, r.value) == Holds(w, e)
  {
    EmitIs(e, k);
    Text.LexFragment(e, k);
    FragmentTree(e, k, []);
    var ts := TokensOnto(e, k, []);
    AndIs(ts, TreeOf(e, k), []);
    OrIs(ts, TreeOf(e, k), []);
    TreeMeans(w, binding, e, k);
  }

  /** The same for whatever text the parser accepts and the compiler compiles. */
  lemma ParsedFilterMeans<V>(w: World<V>, binding: Binding, conv: S.Conversion, s: string, k: nat)
    ensures var p := G.ParseCql(S.RustReader(conv), s);
            p.Done? ==> Formula(p.value)
    ensures var p := G.ParseCql(S.RustReader(conv), s);
            p.Done? && Emit(p.value, k).Done? && Binds(binding, k, Emit(p.value, k).value.args) ==>
            var r := ReadCondition(Emit(p.value, k).value.text);
            r.Done? && TruthOf(w, binding, r.value) == Holds(w, p.value)
  {
    var r := G.ParseCql(S.RustReader(conv), s);
    S.ParsedIsShaped(conv, s);
    if r.Done? {
      ShapedIsFormula(r.value);
      if Emit(r.value, k).Done? && Binds(binding, k, Emit(r.value, k).value.args) {
        FragmentMeans(w, binding, r.value, k);
      }
    }
  }
}

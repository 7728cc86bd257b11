/**
 What every compiled fragment is, whatever the filter: when compiling succeeds, which arguments it binds,
 which tokens the fragment consists of, and how its placeholders are numbered.
 */
module SqlFragments {
  import opened Outcomes
  import opened FilterAst
  import opened SqlCompiler
  import opened SqlLexer

  // ---- Success and arguments ----

  predicate AllLiterals(values: seq<Expr>) {
    forall i | 0 <= i < |values| :: values[i].Literal?
  }

  /** The filters the compiler accepts, whatever the first placeholder. */
  predicate Compiles(e: Expr) {
    match e
    case IncludeAll => true
    case Property(name) => IsIdentifier(name)
    case Literal(_) => false
    case Compare(_, left, right) => Compiles(left) && (right.Literal? || Compiles(right))
    case Logic(_, es) => AllCompile(es)
    case Not(x) => Compiles(x)
    case Like(prop, _, _, _) => Compiles(prop)
    case In(prop, values, _) => Compiles(prop) && AllLiterals(values)
    case Between(prop, lo, hi, _) => Compiles(prop) && lo.Literal? && hi.Literal?
    case IsNull(prop, _) => Compiles(prop)
    case BBox(geom, _, _, _, _, _) => IsIdentifier(geom)
    case Spatial(_, geom, _) => IsIdentifier(geom)
    case DWithin(geom, _, _, _, _) => IsIdentifier(geom)
  }

  predicate AllCompile(es: seq<Expr>) {
    forall i | 0 <= i < |es| :: Compiles(es[i])
  }

  function ValueArgs(values: seq<Expr>): Args {
    if values == [] then []
    else (if values[0].Literal? then [values[0].lit] else []) + ValueArgs(values[1..])
  }

  /** The literals of `e` that are bound as arguments, left to right; BBOX and DWITHIN bind their numbers. */
  function ArgsOf(e: Expr): Args {
    match e
    case IncludeAll => []
    case Property(_) => []
    case Literal(lit) => [lit]
    case Compare(_, left, right) => ArgsOf(left) + ArgsOf(right)
    case Logic(_, es) => AllArgs(es)
    case Not(x) => ArgsOf(x)
    case Like(prop, pattern, _, _) => ArgsOf(prop) + [Lit.Str(pattern)]
    case In(prop, values, _) => ArgsOf(prop) + ValueArgs(values)
    case Between(prop, lo, hi, _) => ArgsOf(prop) + ArgsOf(lo) + ArgsOf(hi)
    case IsNull(prop, _) => ArgsOf(prop)
    case BBox(_, minX, minY, maxX, maxY, _) => [Num(minX), Num(minY), Num(maxX), Num(maxY)]
    case Spatial(_, _, wkt) => [Lit.Str(wkt)]
    case DWithin(_, wkt, distance, _, _) => [Lit.Str(wkt), Num(distance)]
  }

  function AllArgs(es: seq<Expr>): Args {
    if es == [] then [] else ArgsOf(es[0]) + AllArgs(es[1..])
  }

  function TextOf(e: Expr, k: nat): string {
    match Emit(e, k)
    case Done(s) => s.text
    case Fail => ""
  }

  function Texts(es: seq<Expr>, k: nat): seq<string> {
    if es == [] then [] else [TextOf(es[0], k)] + Texts(es[1..], k + |ArgsOf(es[0])|)
  }

  function Placeholders(k: nat, n: nat): seq<string>
    decreases n
  {
    if n == 0 then [] else [Placeholder(k)] + Placeholders(k + 1, n - 1)
  }

  lemma Grow<T>(xs: seq<T>, x: T, ys: seq<T>)
    ensures xs + [x] + ys == xs + ([x] + ys)
  {
  }

  lemma Assoc<T>(xs: seq<T>, ys: seq<T>, zs: seq<T>)
    ensures xs + ys + zs == xs + (ys + zs)
  {
  }

  lemma {:induction false} EmitValuesIs(values: seq<Expr>, k: nat, acc: Parts)
    ensures EmitValues(values, k, acc) ==
      if AllLiterals(values)
      then Done(Parts(acc.texts + Placeholders(k + |acc.args|, |values|), acc.args + ValueArgs(values)))
      else Fail
    ensures AllLiterals(values) ==> |ValueArgs(values)| == |values|
    decreases |values|
  {
    if values == [] {
      assert acc.texts + [] == acc.texts && acc.args + [] == acc.args;
    } else if values[0].Literal? {
      var p, v := Placeholder(k + |acc.args|), values[0].lit;
      EmitValuesIs(values[1..], k, Parts(acc.texts + [p], acc.args + [v]));
      Grow(acc.texts, p, Placeholders(k + |acc.args| + 1, |values| - 1));
      Grow(acc.args, v, ValueArgs(values[1..]));
      assert AllLiterals(values) <==> AllLiterals(values[1..]);
    }
  }

  lemma AllCompileSplit(es: seq<Expr>)
    requires es != []
    ensures AllCompile(es) <==> Compiles(es[0]) && AllCompile(es[1..])
  {
    assert forall i | 1 <= i < |es| :: es[i] == es[1..][i - 1];
  }

  lemma ValueArgsCount(values: seq<Expr>)
    requires AllLiterals(values)
    ensures |ValueArgs(values)| == |values|
  {
    EmitValuesIs(values, 0, Parts([], []));
  }

  /** Compiling succeeds independently of the first placeholder, and so do the arguments it binds. */
  lemma {:induction false} EmitIs(e: Expr, k: nat)
    ensures Emit(e, k).Done? <==> Compiles(e)
    ensures Compiles(e) ==> Emit(e, k).value.args == ArgsOf(e)
    decreases e, 1
  {
    match e {
      case IncludeAll =>
      case Property(_) =>
      case Literal(_) =>
      case Compare(_, left, right) =>
        EmitIs(left, k);
        EmitIs(right, k + |ArgsOf(left)|);
      case Logic(op, es) =>
        EmitAllIs(es, k, Parts([], []));
        assert [] + AllArgs(es) == AllArgs(es);
      case Not(x) => EmitIs(x, k);
      case Like(prop, _, _, _) => EmitIs(prop, k);
      case In(_, _, _) => EmitInIs(e, k);
      case Between(_, _, _, _) => EmitBetweenIs(e, k);
      case IsNull(prop, _) => EmitIs(prop, k);
      case BBox(_, _, _, _, _, _) =>
      case Spatial(_, _, _) =>
      case DWithin(_, _, _, _, _) =>
    }
  }

  lemma {:induction false} EmitInIs(e: Expr, k: nat)
    requires e.In?
    ensures Emit(e, k).Done? <==> Compiles(e)
    ensures Compiles(e) ==> Emit(e, k).value.args == ArgsOf(e)
    decreases e, 0
  {
    EmitIs(e.prop, k);
    EmitValuesIs(e.values, k, Parts([], ArgsOf(e.prop)));
  }

  lemma {:induction false} EmitBetweenIs(e: Expr, k: nat)
    requires e.Between?
    ensures Emit(e, k).Done? <==> Compiles(e)
    ensures Compiles(e) ==> Emit(e, k).value.args == ArgsOf(e)
    decreases e, 0
  {
    EmitIs(e.prop, k);
    if e.lo.Literal? && e.hi.Literal? {
      Grow(ArgsOf(e.prop), e.lo.lit, [e.hi.lit]);
      assert [e.lo.lit] + [e.hi.lit] == [e.lo.lit, e.hi.lit];
    }
  }

  lemma {:induction false} EmitAllIs(es: seq<Expr>, k: nat, acc: Parts)
    ensures EmitAll(es, k, acc) ==
      if AllCompile(es)
      then Done(Parts(acc.texts + Texts(es, k + |acc.args|), acc.args + AllArgs(es)))
      else Fail
    decreases es
  {
    if es == [] {
      assert acc.texts + [] == acc.texts && acc.args + [] == acc.args;
    } else {
      AllCompileSplit(es);
      EmitIs(es[0], k + |acc.args|);
      if Compiles(es[0]) {
        var t, args := TextOf(es[0], k + |acc.args|), ArgsOf(es[0]);
        EmitAllIs(es[1..], k, Parts(acc.texts + [t], acc.args + args));
        Grow(acc.texts, t, Texts(es[1..], k + |acc.args| + |args|));
        Assoc(acc.args, args, AllArgs(es[1..]));
      }
    }
  }

  // ---- Tokens ----

  function NotOnto(negate: bool, z: Toks): Toks {
    if negate then [Word("NOT")] + z else z
  }

  function ParamsOnto(k: nat, n: nat, z: Toks): Toks
    decreases n
  {
    if n == 0 then z
    else if n == 1 then [Param(k)] + z
    else [Param(k), Mark(',')] + ParamsOnto(k + 1, n - 1, z)
  }

  function GeometryOnto(k: nat, z: Toks): Toks {
    [Word("ST_GEOMFROMTEXT"), Mark('('), Param(k), Mark(')')] + z
  }

  predicate OnColumn(e: Expr) {
    e.Like? || e.In? || e.Between? || e.IsNull?
  }

  /** What LIKE, IN, BETWEEN and IS NULL put behind their property. */
  function TestOnto(e: Expr, n: nat, z: Toks): Toks
    requires OnColumn(e)
  {
    match e
    case Like(_, _, ci, negate) => NotOnto(negate, [Word(LikeWord(ci))] + ([Param(n)] + z))
    case In(_, values, negate) => NotOnto(negate, InOnto(n, |values|, z))
    case Between(_, _, _, negate) => NotOnto(negate, BetweenOnto(n, z))
    case IsNull(_, negate) => [Word("IS")] + NotOnto(negate, [Word("NULL")] + z)
  }

  /** The tokens of the fragment for `e`, in front of `z`. */
  function TokensOnto(e: Expr, k: nat, z: Toks): Toks
    decreases e, 1
  {
    match e
    case IncludeAll => [Word("TRUE")] + z
    case Property(name) => [Quoted(name)] + z
    case Literal(_) => [Param(k)] + z
    case Compare(_, _, _) => CompareOnto(e, k, z)
    case Logic(op, es) => [Mark('(')] + ListOnto(op, es, k, [Mark(')')] + z)
    case Not(x) => [Word("NOT")] + ([Mark('(')] + TokensOnto(x, k, [Mark(')')] + z))
    case Like(_, _, _, _) => ColumnOnto(e, k, z)
    case In(_, _, _) => ColumnOnto(e, k, z)
    case Between(_, _, _, _) => ColumnOnto(e, k, z)
    case IsNull(_, _) => ColumnOnto(e, k, z)
    case BBox(geom, _, _, _, _, _) => EnvelopeOnto(geom, k, z)
    case Spatial(rel, geom, _) =>
      [Word("ST_" + SpatialWord(rel))] + ([Mark('(')] + ([Quoted(geom)] + ([Mark(',')] + GeometryOnto(k, [Mark(')')] + z))))
    case DWithin(geom, _, _, _, beyond) => NotOnto(beyond, DistanceOnto(geom, k, z))
  }

  function CompareOnto(e: Expr, k: nat, z: Toks): Toks
    requires e.Compare?
    decreases e, 0
  {
    TokensOnto(e.left, k, [Sym(CompareText(e.cmp))] + TokensOnto(e.right, k + |ArgsOf(e.left)|, z))
  }

  function ColumnOnto(e: Expr, k: nat, z: Toks): Toks
    requires OnColumn(e)
    decreases e, 0
  {
    TokensOnto(e.prop, k, TestOnto(e, k + |ArgsOf(e.prop)|, z))
  }

  function InOnto(k: nat, n: nat, z: Toks): Toks {
    [Word("IN")] + ([Mark('(')] + ParamsOnto(k, n, [Mark(')')] + z))
  }

  function BetweenOnto(n: nat, z: Toks): Toks {
    [Word("BETWEEN")] + ([Param(n)] + ([Word("AND")] + ([Param(n + 1)] + z)))
  }

  function EnvelopeOnto(geom: string, k: nat, z: Toks): Toks {
    [Quoted(geom)] + ([Sym("&&")] + ([Word("ST_MAKEENVELOPE")] + ([Mark('(')] + ParamsOnto(k, 4, [Mark(')')] + z))))
  }

  function DistanceOnto(geom: string, k: nat, z: Toks): Toks {
    [Word("ST_DWITHIN")] + ([Mark('(')] + ([Quoted(geom)] + ([Mark(',')]
      + GeometryOnto(k, [Mark(',')] + ([Param(k + 1)] + ([Mark(')')] + z))))))
  }

  function ListOnto(op: LogicOp, es: seq<Expr>, k: nat, z: Toks): Toks
    decreases es, 1
  {
    if es == [] then z else TokensOnto(es[0], k, TailOnto(op, es[1..], k + |ArgsOf(es[0])|, z))
  }

  /** Further operands, behind their connective. */
  function TailOnto(op: LogicOp, es: seq<Expr>, k: nat, z: Toks): Toks
    decreases es, 2
  {
    if es == [] then z else [Word(Connective(op))] + ListOnto(op, es, k, z)
  }

  lemma Cons(t: Tok, x: Toks, z: Toks)
    ensures [t] + x + z == [t] + (x + z)
  {
  }

  lemma NotAppend(negate: bool, x: Toks, z: Toks)
    ensures NotOnto(negate, x) + z == NotOnto(negate, x + z)
  {
    Cons(Word("NOT"), x, z);
  }

  lemma {:induction false} ParamsAppend(k: nat, n: nat, x: Toks, z: Toks)
    ensures ParamsOnto(k, n, x) + z == ParamsOnto(k, n, x + z)
    decreases n
  {
    if n == 1 {
      Cons(Param(k), x, z);
    } else if n > 1 {
      ParamsAppend(k + 1, n - 1, x, z);
      Assoc([Param(k), Mark(',')], ParamsOnto(k + 1, n - 1, x), z);
    }
  }

  lemma GeometryAppend(k: nat, x: Toks, z: Toks)
    ensures GeometryOnto(k, x) + z == GeometryOnto(k, x + z)
  {
    Assoc([Word("ST_GEOMFROMTEXT"), Mark('('), Param(k), Mark(')')], x, z);
  }

  lemma DistanceAppend(geom: string, k: nat, x: Toks, z: Toks)
    ensures DistanceOnto(geom, k, x) + z == DistanceOnto(geom, k, x + z)
  {
    var x1 := [Mark(')')] + x;
    var x2 := [Param(k + 1)] + x1;
    var x3 := [Mark(',')] + x2;
    var x4 := GeometryOnto(k, x3);
    Cons(Mark(')'), x, z);
    Cons(Param(k + 1), x1, z);
    Cons(Mark(','), x2, z);
    GeometryAppend(k, x3, z);
    HeadAppend(Word("ST_DWITHIN"), geom, x4, z);
  }

  lemma HeadAppend(word: Tok, geom: string, x: Toks, z: Toks)
    ensures [word] + ([Mark('(')] + ([Quoted(geom)] + ([Mark(',')] + x))) + z ==
            [word] + ([Mark('(')] + ([Quoted(geom)] + ([Mark(',')] + (x + z))))
  {
  }

  /** What is put in front does not depend on what it is put in front of. */
  lemma {:induction false} OntoAppend(e: Expr, k: nat, x: Toks, z: Toks)
    ensures TokensOnto(e, k, x) + z == TokensOnto(e, k, x + z)
    decreases e, 1
  {
    match e {
      case IncludeAll => Cons(Word("TRUE"), x, z);
      case Property(name) => Cons(Quoted(name), x, z);
      case Literal(_) => Cons(Param(k), x, z);
      case Compare(_, _, _) => CompareAppend(e, k, x, z);
      case Logic(op, es) =>
        Cons(Mark(')'), x, z);
        ListAppend(op, es, k, [Mark(')')] + x, z);
        Cons(Mark('('), ListOnto(op, es, k, [Mark(')')] + x), z);
      case Not(inner) =>
        var x1 := [Mark(')')] + x;
        Cons(Mark(')'), x, z);
        OntoAppend(inner, k, x1, z);
        Cons(Mark('('), TokensOnto(inner, k, x1), z);
        Cons(Word("NOT"), [Mark('(')] + TokensOnto(inner, k, x1), z);
      case Like(_, _, _, _) => TestAppend(e, k, x, z);
      case In(_, _, _) => TestAppend(e, k, x, z);
      case Between(_, _, _, _) => TestAppend(e, k, x, z);
      case IsNull(_, _) => TestAppend(e, k, x, z);
      case BBox(geom, _, _, _, _, _) => EnvelopeAppend(geom, k, x, z);
      case Spatial(rel, geom, _) =>
        Cons(Mark(')'), x, z);
        GeometryAppend(k, [Mark(')')] + x, z);
        HeadAppend(Word("ST_" + SpatialWord(rel)), geom, GeometryOnto(k, [Mark(')')] + x), z);
      case DWithin(geom, _, _, _, beyond) =>
        DistanceAppend(geom, k, x, z);
        NotAppend(beyond, DistanceOnto(geom, k, x), z);
    }
  }

  lemma {:induction false} CompareAppend(e: Expr, k: nat, x: Toks, z: Toks)
    requires e.Compare?
    ensures TokensOnto(e, k, x) + z == TokensOnto(e, k, x + z)
    decreases e, 0
  {
    var n, sym := k + |ArgsOf(e.left)|, Sym(CompareText(e.cmp));
    var right := TokensOnto(e.right, n, x);
    OntoAppend(e.right, n, x, z);
    Cons(sym, right, z);
    OntoAppend(e.left, k, [sym] + right, z);
  }

  lemma TestOntoAppend(e: Expr, n: nat, x: Toks, z: Toks)
    requires OnColumn(e)
    ensures TestOnto(e, n, x) + z == TestOnto(e, n, x + z)
  {
    match e {
      case Like(_, _, ci, negate) =>
        var p, word := Param(n), Word(LikeWord(ci));
        Cons(p, x, z);
        Cons(word, [p] + x, z);
        NotAppend(negate, [word] + ([p] + x), z);
      case In(_, values, negate) =>
        InAppend(n, |values|, x, z);
        NotAppend(negate, InOnto(n, |values|, x), z);
      case Between(_, _, _, negate) =>
        BetweenAppend(n, x, z);
        NotAppend(negate, BetweenOnto(n, x), z);
      case IsNull(_, negate) =>
        Cons(Word("NULL"), x, z);
        NotAppend(negate, [Word("NULL")] + x, z);
        Cons(Word("IS"), NotOnto(negate, [Word("NULL")] + x), z);
    }
  }

  lemma {:induction false} TestAppend(e: Expr, k: nat, x: Toks, z: Toks)
    requires OnColumn(e)
    ensures TokensOnto(e, k, x) + z == TokensOnto(e, k, x + z)
    decreases e, 0
  {
    var n := k + |ArgsOf(e.prop)|;
    TestOntoAppend(e, n, x, z);
    OntoAppend(e.prop, k, TestOnto(e, n, x), z);
  }

  lemma InAppend(k: nat, n: nat, x: Toks, z: Toks)
    ensures InOnto(k, n, x) + z == InOnto(k, n, x + z)
  {
    var x1 := [Mark(')')] + x;
    Cons(Mark(')'), x, z);
    ParamsAppend(k, n, x1, z);
    Cons(Mark('('), ParamsOnto(k, n, x1), z);
    Cons(Word("IN"), [Mark('(')] + ParamsOnto(k, n, x1), z);
  }

  lemma BetweenAppend(n: nat, x: Toks, z: Toks)
    ensures BetweenOnto(n, x) + z == BetweenOnto(n, x + z)
  {
    var x1 := [Param(n + 1)] + x;
    var x2 := [Word("AND")] + x1;
    Cons(Param(n + 1), x, z);
    Cons(Word("AND"), x1, z);
    Cons(Param(n), x2, z);
    Cons(Word("BETWEEN"), [Param(n)] + x2, z);
  }

  lemma EnvelopeAppend(geom: string, k: nat, x: Toks, z: Toks)
    ensures EnvelopeOnto(geom, k, x) + z == EnvelopeOnto(geom, k, x + z)
  {
    var x1 := [Mark(')')] + x;
    var x2 := ParamsOnto(k, 4, x1);
    Cons(Mark(')'), x, z);
    ParamsAppend(k, 4, x1, z);
    Cons(Mark('('), x2, z);
    Cons(Word("ST_MAKEENVELOPE"), [Mark('(')] + x2, z);
    Cons(Sym("&&"), [Word("ST_MAKEENVELOPE")] + ([Mark('(')] + x2), z);
    Cons(Quoted(geom), [Sym("&&")] + ([Word("ST_MAKEENVELOPE")] + ([Mark('(')] + x2)), z);
  }

  lemma {:induction false} ListAppend(op: LogicOp, es: seq<Expr>, k: nat, x: Toks, z: Toks)
    ensures ListOnto(op, es, k, x) + z == ListOnto(op, es, k, x + z)
    decreases es, 1
  {
    if es != [] {
      var rest, n := es[1..], k + |ArgsOf(es[0])|;
      TailAppend(op, rest, n, x, z);
      OntoAppend(es[0], k, TailOnto(op, rest, n, x), z);
    }
  }

  lemma {:induction false} TailAppend(op: LogicOp, es: seq<Expr>, k: nat, x: Toks, z: Toks)
    ensures TailOnto(op, es, k, x) + z == TailOnto(op, es, k, x + z)
    decreases es, 2
  {
    if es != [] {
      ListAppend(op, es, k, x, z);
      Cons(Word(Connective(op)), ListOnto(op, es, k, x), z);
    }
  }
}

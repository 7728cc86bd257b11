/** How a compiled fragment numbers its placeholders. */
module SqlPlaceholders {
  import opened Outcomes
  import opened FilterAst
  import opened SqlCompiler
  import opened SqlLexer
  import opened SqlFragments
  import T = SqlText

  /** The parameter numbers among `ts`, left to right. */
  function Params(ts: Toks): seq<nat>
    decreases |ts|, 1
  {
    if ts == [] then [] else ParamsBehind(ts[0], ts[1..])
  }

  function ParamsBehind(t: Tok, rest: Toks): seq<nat>
    decreases |rest| + 1, 0
  {
    if t.Param? then [t.index] + Params(rest) else Params(rest)
  }

  /** k, k + 1, and so on: `n` numbers. */
  function Count(k: nat, n: nat): seq<nat>
    decreases n
  {
    if n == 0 then [] else [k] + Count(k + 1, n - 1)
  }

  function ShiftTok(t: Tok, d: nat): Tok {
    if t.Param? then Param(t.index + d) else t
  }

  /** The same tokens with every parameter number raised by `d`. */
  function Shift(ts: Toks, d: nat): Toks {
    seq(|ts|, i requires 0 <= i < |ts| => ShiftTok(ts[i], d))
  }

  // ---- Each placeholder once, in order ----

  lemma ParamsOfCons(t: Tok, z: Toks)
    ensures Params([t] + z) == if t.Param? then [t.index] + Params(z) else Params(z)
  {
    assert ([t] + z)[1..] == z;
    assert ParamsBehind(t, z) == if t.Param? then [t.index] + Params(z) else Params(z);
  }

  lemma ParamsSkip(t: Tok, z: Toks)
    requires !t.Param?
    ensures Params([t] + z) == Params(z)
  {
    ParamsOfCons(t, z);
  }

  lemma ParamsSkipNot(negate: bool, z: Toks)
    ensures Params(NotOnto(negate, z)) == Params(z)
  {
    ParamsSkip(Word("NOT"), z);
  }

  lemma {:induction false} CountSplit(k: nat, m: nat, n: nat)
    ensures Count(k, m + n) == Count(k, m) + Count(k + m, n)
    decreases m
  {
    if m > 0 {
      CountSplit(k + 1, m - 1, n);
    }
  }

  lemma {:induction false} ParamsOfList(k: nat, n: nat, z: Toks)
    ensures Params(ParamsOnto(k, n, z)) == Count(k, n) + Params(z)
    decreases n
  {
    if n == 1 {
      ParamsOfCons(Param(k), z);
      assert Count(k, 1) == [k];
    } else if n > 1 {
      var rest := ParamsOnto(k + 1, n - 1, z);
      ParamsOfList(k + 1, n - 1, z);
      ParamsSkip(Mark(','), rest);
      ParamsOfCons(Param(k), [Mark(',')] + rest);
      assert [Param(k), Mark(',')] + rest == [Param(k)] + ([Mark(',')] + rest);
    }
  }

  lemma ParamsOfGeometry(k: nat, z: Toks)
    ensures Params(GeometryOnto(k, z)) == [k] + Params(z)
  {
    var a, b, p, c := Word("ST_GEOMFROMTEXT"), Mark('('), Param(k), Mark(')');
    assert [a, b, p, c] + z == [a] + ([b] + ([p] + ([c] + z)));
    ParamsSkip(c, z);
    ParamsOfCons(p, [c] + z);
    ParamsSkip(b, [p] + ([c] + z));
    ParamsSkip(a, [b] + ([p] + ([c] + z)));
  }

  lemma ParamsOfHead(word: string, geom: string, z: Toks)
    ensures Params([Word(word)] + ([Mark('(')] + ([Quoted(geom)] + ([Mark(',')] + z)))) == Params(z)
  {
    ParamsSkip(Mark(','), z);
    ParamsSkip(Quoted(geom), [Mark(',')] + z);
    ParamsSkip(Mark('('), [Quoted(geom)] + ([Mark(',')] + z));
    ParamsSkip(Word(word), [Mark('(')] + ([Quoted(geom)] + ([Mark(',')] + z)));
  }

  lemma ParamsOfDistance(geom: string, k: nat, z: Toks)
    ensures Params(DistanceOnto(geom, k, z)) == [k, k + 1] + Params(z)
  {
    var x1 := [Mark(')')] + z;
    var x2 := [Param(k + 1)] + x1;
    ParamsSkip(Mark(')'), z);
    ParamsOfCons(Param(k + 1), x1);
    ParamsSkip(Mark(','), x2);
    ParamsOfGeometry(k, [Mark(',')] + x2);
    ParamsOfHead("ST_DWITHIN", geom, GeometryOnto(k, [Mark(',')] + x2));
    assert [k] + ([k + 1] + Params(z)) == [k, k + 1] + Params(z);
  }

  lemma ParamsOfEnvelope(geom: string, k: nat, z: Toks)
    ensures Params(EnvelopeOnto(geom, k, z)) == Count(k, 4) + Params(z)
  {
    var x1 := ParamsOnto(k, 4, [Mark(')')] + z);
    ParamsSkip(Mark(')'), z);
    ParamsOfList(k, 4, [Mark(')')] + z);
    ParamsSkip(Mark('('), x1);
    ParamsSkip(Word("ST_MAKEENVELOPE"), [Mark('(')] + x1);
    ParamsSkip(Sym("&&"), [Word("ST_MAKEENVELOPE")] + ([Mark('(')] + x1));
    ParamsSkip(Quoted(geom), [Sym("&&")] + ([Word("ST_MAKEENVELOPE")] + ([Mark('(')] + x1)));
  }

  lemma ParamsOfBetween(n: nat, z: Toks)
    ensures Params(BetweenOnto(n, z)) == Count(n, 2) + Params(z)
  {
    var x1 := [Param(n + 1)] + z;
    var x2 := [Word("AND")] + x1;
    ParamsOfCons(Param(n + 1), z);
    ParamsSkip(Word("AND"), x1);
    ParamsOfCons(Param(n), x2);
    ParamsSkip(Word("BETWEEN"), [Param(n)] + x2);
    CountTwo(n);
    assert [n] + ([n + 1] + Params(z)) == [n, n + 1] + Params(z);
  }

  lemma CountTwo(n: nat)
    ensures Count(n, 1) == [n] && Count(n, 2) == [n, n + 1]
  {
    assert Count(n + 1, 1) == [n + 1] + Count(n + 2, 0);
    assert Count(n, 1) == [n] + Count(n + 1, 0);
  }

  lemma {:induction false} ParamsOfTokens(e: Expr, k: nat, z: Toks)
    requires Compiles(e) || e.Literal?
    ensures Params(TokensOnto(e, k, z)) == Count(k, |ArgsOf(e)|) + Params(z)
    decreases e, 1
  {
    match e {
      case IncludeAll => ParamsSkip(Word("TRUE"), z);
      case Property(name) => ParamsSkip(Quoted(name), z);
      case Literal(_) =>
        ParamsOfCons(Param(k), z);
        CountTwo(k);
      case Compare(_, _, _) => ParamsOfCompare(e, k, z);
      case Logic(op, es) =>
        ParamsSkip(Mark(')'), z);
        ParamsOfAll(op, es, k, [Mark(')')] + z);
        ParamsSkip(Mark('('), ListOnto(op, es, k, [Mark(')')] + z));
      case Not(x) =>
        ParamsSkip(Mark(')'), z);
        ParamsOfTokens(x, k, [Mark(')')] + z);
        ParamsSkip(Mark('('), TokensOnto(x, k, [Mark(')')] + z));
        ParamsSkip(Word("NOT"), [Mark('(')] + TokensOnto(x, k, [Mark(')')] + z));
      case Like(_, _, _, _) => ParamsOfColumn(e, k, z);
      case In(_, _, _) => ParamsOfColumn(e, k, z);
      case Between(_, _, _, _) => ParamsOfColumn(e, k, z);
      case IsNull(_, _) => ParamsOfColumn(e, k, z);
      case BBox(geom, _, _, _, _, _) => ParamsOfEnvelope(geom, k, z);
      case Spatial(rel, geom, _) =>
        ParamsSkip(Mark(')'), z);
        ParamsOfGeometry(k, [Mark(')')] + z);
        ParamsOfHead("ST_" + SpatialWord(rel), geom, GeometryOnto(k, [Mark(')')] + z));
        CountTwo(k);
      case DWithin(geom, _, _, _, beyond) =>
        ParamsOfDistance(geom, k, z);
        ParamsSkipNot(beyond, DistanceOnto(geom, k, z));
        CountTwo(k);
    }
  }

  lemma Extend(whole: seq<nat>, tail: seq<nat>, rest: seq<nat>, k: nat, m: nat, n: nat)
    requires whole == Count(k, m) + tail && tail == Count(k + m, n) + rest
    ensures whole == Count(k, m + n) + rest
  {
    CountSplit(k, m, n);
    Assoc(Count(k, m), Count(k + m, n), rest);
  }

  lemma {:induction false} ParamsOfCompare(e: Expr, k: nat, z: Toks)
    requires e.Compare? && Compiles(e)
    ensures Params(TokensOnto(e, k, z)) == Count(k, |ArgsOf(e)|) + Params(z)
    decreases e, 0
  {
    var n, sym := k + |ArgsOf(e.left)|, Sym(CompareText(e.cmp));
    var right := TokensOnto(e.right, n, z);
    ParamsOfTokens(e.right, n, z);
    ParamsSkip(sym, right);
    ParamsBefore(e.left, k, [sym] + right, |ArgsOf(e.right)|, z);
  }

  lemma ParamsOfInList(k: nat, n: nat, z: Toks)
    ensures Params(InOnto(k, n, z)) == Count(k, n) + Params(z)
  {
    var x1 := ParamsOnto(k, n, [Mark(')')] + z);
    ParamsSkip(Mark(')'), z);
    ParamsOfList(k, n, [Mark(')')] + z);
    ParamsSkip(Mark('('), x1);
    ParamsSkip(Word("IN"), [Mark('(')] + x1);
  }

  function TestCount(e: Expr): nat
    requires OnColumn(e)
  {
    match e
    case Like(_, _, _, _) => 1
    case In(_, values, _) => |values|
    case Between(_, _, _, _) => 2
    case IsNull(_, _) => 0
  }

  lemma TestArgs(e: Expr)
    requires OnColumn(e) && Compiles(e)
    ensures |ArgsOf(e)| == |ArgsOf(e.prop)| + TestCount(e)
  {
    if e.In? {
      ValueArgsCount(e.values);
    }
  }

  lemma ParamsOfTest(e: Expr, n: nat, z: Toks)
    requires OnColumn(e)
    ensures Params(TestOnto(e, n, z)) == Count(n, TestCount(e)) + Params(z)
  {
    match e {
      case Like(_, _, ci, negate) =>
        var word := Word(LikeWord(ci));
        ParamsOfCons(Param(n), z);
        ParamsSkip(word, [Param(n)] + z);
        ParamsSkipNot(negate, [word] + ([Param(n)] + z));
        CountTwo(n);
      case In(_, values, negate) =>
        ParamsOfInList(n, |values|, z);
        ParamsSkipNot(negate, InOnto(n, |values|, z));
      case Between(_, _, _, negate) =>
        ParamsOfBetween(n, z);
        ParamsSkipNot(negate, BetweenOnto(n, z));
      case IsNull(_, negate) =>
        ParamsSkip(Word("NULL"), z);
        ParamsSkipNot(negate, [Word("NULL")] + z);
        ParamsSkip(Word("IS"), NotOnto(negate, [Word("NULL")] + z));
    }
  }

  lemma {:induction false} ParamsBefore(prop: Expr, k: nat, tail: Toks, count: nat, z: Toks)
    requires Compiles(prop) && Params(tail) == Count(k + |ArgsOf(prop)|, count) + Params(z)
    ensures Params(TokensOnto(prop, k, tail)) == Count(k, |ArgsOf(prop)| + count) + Params(z)
    decreases prop, 2
  {
    ParamsOfTokens(prop, k, tail);
    Extend(Params(TokensOnto(prop, k, tail)), Params(tail), Params(z), k, |ArgsOf(prop)|, count);
  }

  lemma {:induction false} ParamsOfColumn(e: Expr, k: nat, z: Toks)
    requires OnColumn(e) && Compiles(e)
    ensures Params(TokensOnto(e, k, z)) == Count(k, |ArgsOf(e)|) + Params(z)
    decreases e, 0
  {
    var n := k + |ArgsOf(e.prop)|;
    ParamsOfTest(e, n, z);
    ParamsBefore(e.prop, k, TestOnto(e, n, z), TestCount(e), z);
    TestArgs(e);
  }

  lemma {:induction false} ParamsOfAll(op: LogicOp, es: seq<Expr>, k: nat, z: Toks)
    requires AllCompile(es)
    ensures Params(ListOnto(op, es, k, z)) == Count(k, |AllArgs(es)|) + Params(z)
    decreases es, 3
  {
    if es != [] {
      AllCompileSplit(es);
      var rest, n := es[1..], k + |ArgsOf(es[0])|;
      ParamsOfTail(op, rest, n, z);
      ParamsBefore(es[0], k, TailOnto(op, rest, n, z), |AllArgs(rest)|, z);
    }
  }

  lemma {:induction false} ParamsOfTail(op: LogicOp, es: seq<Expr>, k: nat, z: Toks)
    requires AllCompile(es)
    ensures Params(TailOnto(op, es, k, z)) == Count(k, |AllArgs(es)|) + Params(z)
    decreases es, 4
  {
    if es != [] {
      ParamsOfAll(op, es, k, z);
      ParamsSkip(Word(Connective(op)), ListOnto(op, es, k, z));
    }
  }

  /** A fragment mentions `$k` up to `$(k+n-1)` for its n arguments, each exactly once and left to right. */
  lemma PlaceholdersInOrder(e: Expr, k: nat)
    ensures match Emit(e, k)
            case Done(s) => Params(Lex(s.text)) == Count(k, |s.args|)
            case Fail => true
  {
    EmitIs(e, k);
    if Compiles(e) {
      T.LexFragment(e, k);
      ParamsOfTokens(e, k, []);
      assert Count(k, |ArgsOf(e)|) + [] == Count(k, |ArgsOf(e)|);
    }
  }

  // ---- Another first placeholder only renumbers ----

  lemma ShiftCons(t: Tok, z: Toks, d: nat)
    ensures Shift([t] + z, d) == [ShiftTok(t, d)] + Shift(z, d)
  {
  }

  lemma ShiftConcat(a: Toks, z: Toks, d: nat)
    ensures Shift(a + z, d) == Shift(a, d) + Shift(z, d)
  {
  }

  lemma ShiftNot(negate: bool, z: Toks, d: nat)
    ensures Shift(NotOnto(negate, z), d) == NotOnto(negate, Shift(z, d))
  {
    ShiftCons(Word("NOT"), z, d);
  }

  lemma {:induction false} ShiftParams(k: nat, n: nat, z: Toks, d: nat)
    ensures Shift(ParamsOnto(k, n, z), d) == ParamsOnto(k + d, n, Shift(z, d))
    decreases n
  {
    if n == 1 {
      ShiftCons(Param(k), z, d);
    } else if n > 1 {
      ShiftParams(k + 1, n - 1, z, d);
      ShiftConcat([Param(k), Mark(',')], ParamsOnto(k + 1, n - 1, z), d);
      assert Shift([Param(k), Mark(',')], d) == [Param(k + d), Mark(',')];
    }
  }

  lemma ShiftGeometry(k: nat, z: Toks, d: nat)
    ensures Shift(GeometryOnto(k, z), d) == GeometryOnto(k + d, Shift(z, d))
  {
  }

  lemma ShiftHead(word: string, geom: string, z: Toks, d: nat)
    ensures Shift([Word(word)] + ([Mark('(')] + ([Quoted(geom)] + ([Mark(',')] + z))), d) ==
      [Word(word)] + ([Mark('(')] + ([Quoted(geom)] + ([Mark(',')] + Shift(z, d))))
  {
  }

  lemma ShiftDistance(geom: string, k: nat, z: Toks, d: nat)
    ensures Shift(DistanceOnto(geom, k, z), d) == DistanceOnto(geom, k + d, Shift(z, d))
  {
    var x1 := [Mark(')')] + z;
    var x2 := [Param(k + 1)] + x1;
    ShiftCons(Mark(')'), z, d);
    ShiftCons(Param(k + 1), x1, d);
    ShiftCons(Mark(','), x2, d);
    ShiftGeometry(k, [Mark(',')] + x2, d);
    ShiftHead("ST_DWITHIN", geom, GeometryOnto(k, [Mark(',')] + x2), d);
  }

  lemma ShiftEnvelope(geom: string, k: nat, z: Toks, d: nat)
    ensures Shift(EnvelopeOnto(geom, k, z), d) == EnvelopeOnto(geom, k + d, Shift(z, d))
  {
    var x1 := ParamsOnto(k, 4, [Mark(')')] + z);
    ShiftCons(Mark(')'), z, d);
    ShiftParams(k, 4, [Mark(')')] + z, d);
    ShiftCons(Mark('('), x1, d);
    ShiftCons(Word("ST_MAKEENVELOPE"), [Mark('(')] + x1, d);
    ShiftCons(Sym("&&"), [Word("ST_MAKEENVELOPE")] + ([Mark('(')] + x1), d);
    ShiftCons(Quoted(geom), [Sym("&&")] + ([Word("ST_MAKEENVELOPE")] + ([Mark('(')] + x1)), d);
  }

  lemma ShiftBetween(n: nat, z: Toks, d: nat)
    ensures Shift(BetweenOnto(n, z), d) == BetweenOnto(n + d, Shift(z, d))
  {
    var x1 := [Param(n + 1)] + z;
    var x2 := [Word("AND")] + x1;
    ShiftCons(Param(n + 1), z, d);
    ShiftCons(Word("AND"), x1, d);
    ShiftCons(Param(n), x2, d);
    ShiftCons(Word("BETWEEN"), [Param(n)] + x2, d);
  }

  lemma {:induction false} ShiftTokens(e: Expr, k: nat, z: Toks, d: nat)
    ensures Shift(TokensOnto(e, k, z), d) == TokensOnto(e, k + d, Shift(z, d))
    decreases e, 1
  {
    match e {
      case IncludeAll => ShiftCons(Word("TRUE"), z, d);
      case Property(name) => ShiftCons(Quoted(name), z, d);
      case Literal(_) => ShiftCons(Param(k), z, d);
      case Compare(_, _, _) => ShiftCompare(e, k, z, d);
      case Logic(op, es) =>
        var x := ListOnto(op, es, k, [Mark(')')] + z);
        ShiftCons(Mark(')'), z, d);
        ShiftAll(op, es, k, [Mark(')')] + z, d);
        ShiftCons(Mark('('), x, d);
      case Not(x) =>
        var x1 := TokensOnto(x, k, [Mark(')')] + z);
        ShiftCons(Mark(')'), z, d);
        ShiftTokens(x, k, [Mark(')')] + z, d);
        ShiftCons(Mark('('), x1, d);
        ShiftCons(Word("NOT"), [Mark('(')] + x1, d);
      case Like(_, _, _, _) => ShiftColumn(e, k, z, d);
      case In(_, _, _) => ShiftColumn(e, k, z, d);
      case Between(_, _, _, _) => ShiftColumn(e, k, z, d);
      case IsNull(_, _) => ShiftColumn(e, k, z, d);
      case BBox(geom, _, _, _, _, _) => ShiftEnvelope(geom, k, z, d);
      case Spatial(rel, geom, _) =>
        ShiftCons(Mark(')'), z, d);
        ShiftGeometry(k, [Mark(')')] + z, d);
        ShiftHead("ST_" + SpatialWord(rel), geom, GeometryOnto(k, [Mark(')')] + z), d);
      case DWithin(geom, _, _, _, beyond) =>
        ShiftDistance(geom, k, z, d);
        ShiftNot(beyond, DistanceOnto(geom, k, z), d);
    }
  }

  lemma {:induction false} ShiftCompare(e: Expr, k: nat, z: Toks, d: nat)
    requires e.Compare?
    ensures Shift(TokensOnto(e, k, z), d) == TokensOnto(e, k + d, Shift(z, d))
    decreases e, 0
  {
    var op, left, right := e.cmp, e.left, e.right;
    var n, sym := k + |ArgsOf(left)|, Sym(CompareText(op));
    ShiftTokens(right, n, z, d);
    ShiftCons(sym, TokensOnto(right, n, z), d);
    ShiftTokens(left, k, [sym] + TokensOnto(right, n, z), d);
  }

  lemma ShiftInList(k: nat, n: nat, z: Toks, d: nat)
    ensures Shift(InOnto(k, n, z), d) == InOnto(k + d, n, Shift(z, d))
  {
    var x := ParamsOnto(k, n, [Mark(')')] + z);
    ShiftCons(Mark(')'), z, d);
    ShiftParams(k, n, [Mark(')')] + z, d);
    ShiftCons(Mark('('), x, d);
    ShiftCons(Word("IN"), [Mark('(')] + x, d);
  }

  lemma ShiftTest(e: Expr, n: nat, z: Toks, d: nat)
    requires OnColumn(e)
    ensures Shift(TestOnto(e, n, z), d) == TestOnto(e, n + d, Shift(z, d))
  {
    match e {
      case Like(_, _, ci, negate) =>
        var word := Word(LikeWord(ci));
        ShiftCons(Param(n), z, d);
        ShiftCons(word, [Param(n)] + z, d);
        ShiftNot(negate, [word] + ([Param(n)] + z), d);
      case In(_, values, negate) =>
        ShiftInList(n, |values|, z, d);
        ShiftNot(negate, InOnto(n, |values|, z), d);
      case Between(_, _, _, negate) =>
        ShiftBetween(n, z, d);
        ShiftNot(negate, BetweenOnto(n, z), d);
      case IsNull(_, negate) =>
        ShiftCons(Word("NULL"), z, d);
        ShiftNot(negate, [Word("NULL")] + z, d);
        ShiftCons(Word("IS"), NotOnto(negate, [Word("NULL")] + z), d);
    }
  }

  lemma {:induction false} ShiftColumn(e: Expr, k: nat, z: Toks, d: nat)
    requires OnColumn(e)
    ensures Shift(TokensOnto(e, k, z), d) == TokensOnto(e, k + d, Shift(z, d))
    decreases e, 0
  {
    var n := k + |ArgsOf(e.prop)|;
    ShiftTest(e, n, z, d);
    ShiftTokens(e.prop, k, TestOnto(e, n, z), d);
  }

  lemma {:induction false} ShiftAll(op: LogicOp, es: seq<Expr>, k: nat, z: Toks, d: nat)
    ensures Shift(ListOnto(op, es, k, z), d) == ListOnto(op, es, k + d, Shift(z, d))
    decreases es, 0
  {
    if es != [] {
      var rest, n := es[1..], k + |ArgsOf(es[0])|;
      ShiftTail(op, rest, n, z, d);
      ShiftTokens(es[0], k, TailOnto(op, rest, n, z), d);
    }
  }

  lemma {:induction false} ShiftTail(op: LogicOp, es: seq<Expr>, k: nat, z: Toks, d: nat)
    ensures Shift(TailOnto(op, es, k, z), d) == TailOnto(op, es, k + d, Shift(z, d))
    decreases es, 1
  {
    if es != [] {
      ShiftAll(op, es, k, z, d);
      ShiftCons(Word(Connective(op)), ListOnto(op, es, k, z), d);
    }
  }

  /** Compiling from another first placeholder succeeds alike, binds the same arguments and only renumbers. */
  lemma Renumbered(e: Expr, k: nat, d: nat)
    ensures match Emit(e, k)
            case Done(s) =>
              && Emit(e, k + d).Done?
              && Emit(e, k + d).value.args == s.args
              && Lex(Emit(e, k + d).value.text) == Shift(Lex(s.text), d)
            case Fail => Emit(e, k + d).Fail?
  {
    EmitIs(e, k);
    EmitIs(e, k + d);
    if Compiles(e) {
      T.LexFragment(e, k);
      T.LexFragment(e, k + d);
      ShiftTokens(e, k, [], d);
      assert Shift([], d) == [];
    }
  }
}

/**
 And and Or with any number of operands: folded from the left, as the Go converter and the CQL parser build them, or
 side by side, as the Rust converter does.
 */
module XmlLogic {
  import opened Outcomes
  import opened FilterAst
  import opened CqlGrammar
  import opened SqlTrees
  import opened SqlMeaning
  import Compose = CqlCompose
  import L = CqlLexer

  // ---- Folding ----

  function FoldFrom(op: LogicOp, acc: Expr, rest: seq<Expr>): Expr
    decreases |rest|
  {
    if rest == [] then acc else FoldFrom(op, Logic(op, [acc, rest[0]]), rest[1..])
  }

  // ---- The same truth ----

  lemma PairHolds<V>(w: World<V>, op: LogicOp, x: Expr, y: Expr)
    requires Formula(x) && Formula(y)
    ensures Formula(Logic(op, [x, y])) && Holds(w, Logic(op, [x, y])) == Combine3(op, Holds(w, x), Holds(w, y))
  {
    var es := [x, y];
    assert es[0] == x && es[1] == y && es[1..] == [y] && [y][1..] == [];
    TogetherOfCons(w, op, es);
    TogetherOfCons(w, op, [y]);
    assert HoldsEach(w, []) == [];
    assert Holds(w, Logic(op, es)) == Together(op, HoldsEach(w, es));
  }

  /** The left fold of formulas has the truth value of the formulas side by side. */
  lemma {:induction false} FoldHolds<V>(w: World<V>, op: LogicOp, acc: Expr, rest: seq<Expr>)
    requires Formula(acc) && AllFormulas(rest)
    ensures Formula(FoldFrom(op, acc, rest))
    ensures Holds(w, FoldFrom(op, acc, rest)) == Combine3(op, Holds(w, acc), Together(op, HoldsEach(w, rest)))
    decreases |rest|
  {
    if rest == [] {
      assert HoldsEach(w, rest) == [];
    } else {
      PairHolds(w, op, acc, rest[0]);
      FoldHolds(w, op, Logic(op, [acc, rest[0]]), rest[1..]);
      TogetherOfCons(w, op, rest);
      OrAssociates(Holds(w, acc), Holds(w, rest[0]), Together(op, HoldsEach(w, rest[1..])));
    }
  }

  lemma {:induction false} FoldIsFormula(op: LogicOp, acc: Expr, rest: seq<Expr>)
    requires Formula(acc) && AllFormulas(rest)
    ensures Formula(FoldFrom(op, acc, rest))
    decreases |rest|
  {
    if rest != [] {
      var pair := Logic(op, [acc, rest[0]]);
      assert pair.exprs[0] == acc && pair.exprs[1] == rest[0];
      FoldIsFormula(op, pair, rest[1..]);
    }
  }

  // On this row, the formulas have the same truth one by one.
  predicate SameTruths<V>(w: World<V>, xs: seq<Expr>, ys: seq<Expr>) {
    |xs| == |ys| && AllFormulas(xs) && AllFormulas(ys) && forall i | 0 <= i < |xs| :: Holds(w, xs[i]) == Holds(w, ys[i])
  }

  /** Operands of the same truth have it folded from the left on one side and side by side on the other. */
  lemma FoldMatchesFlat<V>(w: World<V>, op: LogicOp, xs: seq<Expr>, ys: seq<Expr>)
    requires xs != [] && SameTruths(w, xs, ys)
    ensures Formula(FoldFrom(op, xs[0], xs[1..])) && Formula(Logic(op, ys))
    ensures Holds(w, FoldFrom(op, xs[0], xs[1..])) == Holds(w, Logic(op, ys))
  {
    FoldHolds(w, op, xs[0], xs[1..]);
    TogetherOfCons(w, op, xs);
    assert HoldsEach(w, xs) == HoldsEach(w, ys);
    assert Holds(w, Logic(op, ys)) == Together(op, HoldsEach(w, ys));
  }

  // ---- The CQL text of the same filter ----

  /** The operands in brackets, with the connective between them. */
  function Chained(op: LogicOp, texts: seq<string>): string
    requires texts != []
    decreases |texts|, 0
  {
    "(" + texts[0] + ")" + ChainedTail(op, texts[1..])
  }

  function ChainedTail(op: LogicOp, texts: seq<string>): string
    decreases |texts|, 1
  {
    if texts == [] then "" else " " + (Connective(op) + (" " + Chained(op, texts)))
  }

  function ChainTokens(op: LogicOp, texts: seq<string>): Tokens
    requires texts != []
    decreases |texts|, 0
  {
    [Compose.OPEN] + L.Stream(texts[0]) + [Compose.CLOSE] + ChainTokensTail(op, texts[1..])
  }

  function ChainTokensTail(op: LogicOp, texts: seq<string>): Tokens
    decreases |texts|, 1
  {
    if texts == [] then [] else [L.IdentToken(Connective(op))] + ChainTokens(op, texts)
  }

  // Every text is a filter of its own.
  predicate AllParse(num: NumeralReader, texts: seq<string>) {
    forall i | 0 <= i < |texts| :: ParseCql(num, texts[i]).Done?
  }

  function TreesOf(num: NumeralReader, texts: seq<string>): seq<Expr>
    requires AllParse(num, texts)
  {
    seq(|texts|, i requires 0 <= i < |texts| => ParseCql(num, texts[i]).value)
  }

  lemma ConnectiveIdent(op: LogicOp)
    ensures L.IsIdentText(Connective(op)) && L.IdentToken(Connective(op)).up == Connective(op)
  {
    assert L.Upper("AND") == "AND" && L.Upper("OR") == "OR";
  }

  lemma {:induction false} ChainStream(num: NumeralReader, op: LogicOp, texts: seq<string>)
    requires texts != [] && AllParse(num, texts)
    ensures L.Stream(Chained(op, texts)) == ChainTokens(op, texts)
    ensures L.Clean(ChainTokens(op, texts))
    decreases |texts|
  {
    var rest := texts[1..];
    var tail := ChainedTail(op, rest);
    assert L.Delimited(tail);
    Compose.StreamOfBracketed(texts[0], tail);
    if rest != [] {
      var more := Chained(op, rest);
      ChainStream(num, op, rest);
      ConnectiveIdent(op);
      L.StreamSpace(more);
      L.StreamIdent(Connective(op), " " + more);
      L.StreamSpace(Connective(op) + (" " + more));
    }
    Compose.CleanConcat([Compose.OPEN], L.Stream(texts[0]));
    Compose.CleanConcat([Compose.OPEN] + L.Stream(texts[0]), [Compose.CLOSE]);
    Compose.CleanConcat([Compose.OPEN] + L.Stream(texts[0]) + [Compose.CLOSE], ChainTokensTail(op, rest));
  }

  /** One bracketed operand of a chain of either kind. */
  lemma OperandOfChain(num: NumeralReader, op: LogicOp, texts: seq<string>)
    requires texts != [] && AllParse(num, texts)
    ensures ParseOperand(num, op, ChainTokens(op, texts)) == Done((ParseCql(num, texts[0]).value, ChainTokensTail(op, texts[1..])))
  {
    var z, e := ChainTokensTail(op, texts[1..]), ParseCql(num, texts[0]).value;
    ConnectiveIdent(op);
    assert z != [] ==> z[0] == L.IdentToken(Connective(op));
    Compose.BracketedOperand(num, L.Stream(texts[0]), z);
    if op.Or? {
      assert !IsWord(Peek(z), "AND");
      assert ParseTail(num, And, e, z) == Done((e, z));
    }
  }

  lemma {:induction false} TailOfChain(num: NumeralReader, op: LogicOp, left: Expr, texts: seq<string>)
    requires AllParse(num, texts)
    ensures ParseTail(num, op, left, ChainTokensTail(op, texts)) == Done((FoldFrom(op, left, TreesOf(num, texts)), []))
    decreases |texts|
  {
    if texts != [] {
      var ts, trees := ChainTokensTail(op, texts), TreesOf(num, texts);
      ConnectiveIdent(op);
      assert ts[1..] == ChainTokens(op, texts);
      OperandOfChain(num, op, texts);
      assert trees[1..] == TreesOf(num, texts[1..]);
      TailOfChain(num, op, Logic(op, [left, trees[0]]), texts[1..]);
    }
  }

  /** The parser folds bracketed operands exactly as the Go converter folds the operands of And and Or. */
  lemma ChainedParses(num: NumeralReader, op: LogicOp, texts: seq<string>)
    requires |texts| >= 2 && AllParse(num, texts)
    ensures ParseCql(num, Chained(op, texts)) == Done(FoldFrom(op, TreesOf(num, texts)[0], TreesOf(num, texts)[1..]))
  {
    var ts, trees := ChainTokens(op, texts), TreesOf(num, texts);
    ChainStream(num, op, texts);
    OperandOfChain(num, op, texts);
    assert trees[1..] == TreesOf(num, texts[1..]);
    TailOfChain(num, op, trees[0], texts[1..]);
    var fold := FoldFrom(op, trees[0], trees[1..]);
    assert ParseChain(num, op, ts) == Done((fold, []));
    if op.And? {
      assert ParseOperand(num, Or, ts) == Done((fold, []));
      assert ParseTail(num, Or, fold, []) == Done((fold, []));
      assert ParseChain(num, Or, ts) == Done((fold, []));
    }
  }
}

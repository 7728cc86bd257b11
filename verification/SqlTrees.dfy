/**
 The reader gives every compiled filter back as one expression at the level of NOT, so that a fragment stays
 one operand of whatever conjunction it is written into.
 */
module SqlTrees {
  import opened Outcomes
  import opened FilterAst
  import opened SqlCompiler
  import opened SqlLexer
  import opened SqlFragments
  import opened SqlReader

  predicate IsOperand(e: Expr) {
    e.Property? || e.Literal?
  }

  predicate AllOperands(es: seq<Expr>) {
    forall i | 0 <= i < |es| :: IsOperand(es[i])
  }

  /** A filter as the parser builds them, except that AND and OR may have any number of operands but none. */
  predicate Formula(e: Expr) {
    match e
    case Property(_) => false
    case Literal(_) => false
    case Compare(_, left, right) => left.Property? && IsOperand(right)
    case Logic(_, es) => es != [] && forall i | 0 <= i < |es| :: Formula(es[i])
    case Not(x) => Formula(x)
    case Like(prop, _, _, _) => prop.Property?
    case In(prop, values, _) => prop.Property? && values != [] && AllOperands(values)
    case Between(prop, lo, hi, _) => prop.Property? && IsOperand(lo) && IsOperand(hi)
    case IsNull(prop, _) => prop.Property?
    case _ => true
  }

  predicate AllFormulas(es: seq<Expr>) {
    forall i | 0 <= i < |es| :: Formula(es[i])
  }

  // ---- The expression a fragment stands for ----

  function OperandTree(e: Expr, k: nat): Tree
    requires IsOperand(e)
  {
    if e.Property? then Column(e.name) else Bound(k)
  }

  function BoundTrees(k: nat, n: nat): seq<Tree> {
    seq(n, i requires 0 <= i < n => Bound(k + i))
  }

  function GeometryTree(k: nat): Tree {
    Call("ST_GEOMFROMTEXT", [Bound(k)])
  }

  function Negated(negate: bool, x: Tree): Tree {
    if negate then Negation(x) else x
  }

  function Combine(op: LogicOp, left: Tree, right: Tree): Tree {
    match op
    case And => Conjunction(left, right)
    case Or => Disjunction(left, right)
  }

  function TreeOf(e: Expr, k: nat): Tree
    requires Formula(e)
    decreases e
  {
    match e
    case IncludeAll => Truth
    case Compare(op, left, right) => Apply(CompareText(op), Column(left.name), OperandTree(right, k))
    case Logic(op, es) => FoldTree(op, TreeOf(es[0], k), es[1..], k + |ArgsOf(es[0])|)
    case Not(x) => Negation(TreeOf(x, k))
    case Like(prop, _, ci, negate) => Matches(Column(prop.name), Bound(k), ci, negate)
    case In(prop, values, negate) => Among(Column(prop.name), BoundTrees(k, |values|), negate)
    case Between(prop, _, _, negate) => Ranges(Column(prop.name), Bound(k), Bound(k + 1), negate)
    case IsNull(prop, negate) => Null(Column(prop.name), negate)
    case BBox(geom, _, _, _, _, _) => Apply("&&", Column(geom), Call("ST_MAKEENVELOPE", BoundTrees(k, 4)))
    case Spatial(rel, geom, _) => Call("ST_" + SpatialWord(rel), [Column(geom), GeometryTree(k)])
    case DWithin(geom, _, _, _, beyond) =>
      Negated(beyond, Call("ST_DWITHIN", [Column(geom), GeometryTree(k), Bound(k + 1)]))
  }

  function FoldTree(op: LogicOp, left: Tree, es: seq<Expr>, k: nat): Tree
    requires AllFormulas(es)
    decreases es
  {
    if es == [] then left
    else FoldTree(op, Combine(op, left, TreeOf(es[0], k)), es[1..], k + |ArgsOf(es[0])|)
  }

  // ---- Reading the tokens ----

  // What may stand behind a fragment: nothing, or the next part of the condition it is written into.
  predicate Stops(z: Toks) {
    z == [] || z[0] == AND || z[0] == OR || z[0] == CLOSE || z[0] == COMMA
  }

  lemma Behind(t: Tok, z: Toks)
    ensures ([t] + z)[0] == t && ([t] + z)[1..] == z
  {
  }

  lemma OperandPrimary(e: Expr, k: nat, z: Toks)
    requires IsOperand(e)
    ensures ReadPrimary(TokensOnto(e, k, z)) == Done((OperandTree(e, k), z))
    ensures !Starts(NOT, TokensOnto(e, k, z))
  {
    if e.Property? {
      Behind(Quoted(e.name), z);
    } else {
      Behind(Param(k), z);
    }
  }

  lemma OperandOther(e: Expr, k: nat, z: Toks)
    requires IsOperand(e) && EndsOther(z)
    ensures ReadOther(TokensOnto(e, k, z)) == Done((OperandTree(e, k), z))
  {
    OperandPrimary(e, k, z);
    OtherIs(TokensOnto(e, k, z), OperandTree(e, k), z);
  }

  lemma ParamOther(k: nat, z: Toks)
    requires EndsOther(z)
    ensures ReadOther([Param(k)] + z) == Done((Bound(k), z))
  {
    Behind(Param(k), z);
    OtherIs([Param(k)] + z, Bound(k), z);
  }

  lemma CompareSymbol(op: CompareOp)
    ensures IsComparison(Sym(CompareText(op)))
  {
  }

  lemma CompareTree(left: Expr, op: CompareOp, right: Expr, k: nat, z: Toks)
    requires left.Property? && IsOperand(right) && Stops(z)
    ensures ReadNot(TokensOnto(left, k, [Sym(CompareText(op))] + TokensOnto(right, k, z)))
      == Done((Apply(CompareText(op), Column(left.name), OperandTree(right, k)), z))
  {
    var sym, r := Sym(CompareText(op)), TokensOnto(right, k, z);
    var ts := TokensOnto(left, k, [sym] + r);
    CompareSymbol(op);
    Behind(sym, r);
    OperandOther(left, k, [sym] + r);
    RangeIs(ts, Column(left.name), [sym] + r);
    OperandOther(right, k, z);
    RangeIs(r, OperandTree(right, k), z);
    var tree := Apply(sym.text, Column(left.name), OperandTree(right, k));
    assert ReadComparison(ts) == Done((tree, z));
    IsIs(ts, tree, z);
    NotIs(ts, tree, z);
  }

  // ---- LIKE, IN, BETWEEN, IS NULL ----

  lemma NegatableTest(x: Tree, negate: bool, word: Tok, tail: Toks)
    requires IsRangeWord(word)
    ensures Starts(NOT, NotOnto(negate, [word] + tail)) <==> negate
    ensures negate ==> NotOnto(negate, [word] + tail)[1..] == [word] + tail
  {
    Behind(NOT, [word] + tail);
    Behind(word, tail);
  }

  /** An operand followed by a possibly negated LIKE, IN or BETWEEN. */
  lemma RangeTest(ts: Toks, x: Tree, negate: bool, word: Tok, tail: Toks, tree: Tree, z: Toks)
    requires IsRangeWord(word) && Stops(z)
    requires ReadPrimary(ts) == Done((x, NotOnto(negate, [word] + tail))) && !Starts(NOT, ts)
    requires ReadRangeTest(x, negate, [word] + tail) == Done((tree, z))
    ensures ReadNot(ts) == Done((tree, z))
  {
    NegatableTest(x, negate, word, tail);
    Behind(word, tail);
    OtherIs(ts, x, NotOnto(negate, [word] + tail));
    assert ReadRange(ts) == Done((tree, z));
    ComparisonIs(ts, tree, z);
    IsIs(ts, tree, z);
    NotIs(ts, tree, z);
  }

  lemma LikeTree(e: Expr, k: nat, z: Toks)
    requires e.Like? && Formula(e) && Stops(z)
    ensures ReadNot(TokensOnto(e, k, z)) == Done((TreeOf(e, k), z))
  {
    var word, tail, x := Word(LikeWord(e.caseInsensitive)), [Param(k)] + z, Column(e.prop.name);
    OperandPrimary(e.prop, k, TestOnto(e, k, z));
    ParamOther(k, z);
    Behind(word, tail);
    assert TokensOnto(e, k, z) == ColumnOnto(e, k, z) == TokensOnto(e.prop, k, TestOnto(e, k, z));
    RangeTest(TokensOnto(e, k, z), x, e.negate, word, tail, Matches(x, Bound(k), e.caseInsensitive, e.negate), z);
  }

  lemma {:induction false} ParamItems(read: seq<Tree>, k: nat, n: nat, z: Toks)
    requires n > 0
    ensures ReadItems(read, ParamsOnto(k, n, [CLOSE] + z)) == Done((read + BoundTrees(k, n), z))
    decreases n
  {
    var ts := ParamsOnto(k, n, [CLOSE] + z);
    if n == 1 {
      Behind(CLOSE, z);
      ParamItem(k, [CLOSE] + z);
      assert BoundTrees(k, 1) == [Bound(k)];
    } else {
      var more := ParamsOnto(k + 1, n - 1, [CLOSE] + z);
      assert ts == [Param(k)] + ([COMMA] + more);
      Behind(COMMA, more);
      ParamItem(k, [COMMA] + more);
      ParamItems(read + [Bound(k)], k + 1, n - 1, z);
      assert read + [Bound(k)] + BoundTrees(k + 1, n - 1) == read + BoundTrees(k, n);
    }
  }

  lemma ParamItem(k: nat, z: Toks)
    requires z != [] && (z[0] == CLOSE || z[0] == COMMA)
    ensures ReadOr([Param(k)] + z) == Done((Bound(k), z))
  {
    Behind(Param(k), z);
    PrimaryIsNot([Param(k)] + z, Bound(k), z);
    AndIs([Param(k)] + z, Bound(k), z);
    OrIs([Param(k)] + z, Bound(k), z);
  }

  lemma InTree(e: Expr, k: nat, z: Toks)
    requires e.In? && Formula(e) && Stops(z)
    ensures ReadNot(TokensOnto(e, k, z)) == Done((TreeOf(e, k), z))
  {
    var n := |e.values|;
    var list := ParamsOnto(k, n, [CLOSE] + z);
    var word, tail, x := Word("IN"), [OPEN] + list, Column(e.prop.name);
    OperandPrimary(e.prop, k, TestOnto(e, k, z));
    Behind(OPEN, list);
    Behind(word, tail);
    ParamItems([], k, n, z);
    assert [] + BoundTrees(k, n) == BoundTrees(k, n);
    assert TokensOnto(e, k, z) == ColumnOnto(e, k, z) == TokensOnto(e.prop, k, TestOnto(e, k, z));
    RangeTest(TokensOnto(e, k, z), x, e.negate, word, tail, Among(x, BoundTrees(k, n), e.negate), z);
  }

  lemma BetweenTree(e: Expr, k: nat, z: Toks)
    requires e.Between? && Formula(e) && Stops(z)
    ensures ReadNot(TokensOnto(e, k, z)) == Done((TreeOf(e, k), z))
  {
    var last := [Param(k + 1)] + z;
    var mid := [AND] + last;
    var word, tail, x := Word("BETWEEN"), [Param(k)] + mid, Column(e.prop.name);
    OperandPrimary(e.prop, k, TestOnto(e, k, z));
    Behind(word, tail);
    Behind(AND, last);
    ParamOther(k, mid);
    ParamOther(k + 1, z);
    var tree := Ranges(x, Bound(k), Bound(k + 1), e.negate);
    assert ReadRangeTest(x, e.negate, [word] + tail) == Done((tree, z));
    assert TokensOnto(e, k, z) == ColumnOnto(e, k, z) == TokensOnto(e.prop, k, TestOnto(e, k, z));
    RangeTest(TokensOnto(e, k, z), x, e.negate, word, tail, tree, z);
  }

  lemma IsNullTree(e: Expr, k: nat, z: Toks)
    requires e.IsNull? && Formula(e) && Stops(z)
    ensures ReadNot(TokensOnto(e, k, z)) == Done((TreeOf(e, k), z))
  {
    var ts, x := TokensOnto(e, k, z), Column(e.prop.name);
    assert ts == ColumnOnto(e, k, z) == TokensOnto(e.prop, k, TestOnto(e, k, z));
    var end := [Word("NULL")] + z;
    var test := [Word("IS")] + NotOnto(e.negate, end);
    OperandPrimary(e.prop, k, test);
    Behind(Word("IS"), NotOnto(e.negate, end));
    Behind(Word("NULL"), z);
    Behind(NOT, end);
    OtherIs(ts, x, test);
    RangeIs(ts, x, test);
    ComparisonIs(ts, x, test);
    assert e.negate ==> test[2..] == test[1..][1..];
    assert IsEnd(x, test) == Done((Null(x, e.negate), z));
    NotIs(ts, Null(x, e.negate), z);
  }

  // ---- Geometry ----

  lemma EnvelopeTree(geom: string, k: nat, z: Toks)
    requires Stops(z)
    ensures ReadNot(EnvelopeOnto(geom, k, z)) == Done((Apply("&&", Column(geom), Call("ST_MAKEENVELOPE", BoundTrees(k, 4))), z))
  {
    var name, op := Word("ST_MAKEENVELOPE"), Sym("&&");
    var list := ParamsOnto(k, 4, [CLOSE] + z);
    var call := [name] + ([OPEN] + list);
    var ts := EnvelopeOnto(geom, k, z);
    Behind(OPEN, list);
    Behind(name, [OPEN] + list);
    Behind(op, call);
    Behind(Quoted(geom), [op] + call);
    ParamItems([], k, 4, z);
    assert [] + BoundTrees(k, 4) == BoundTrees(k, 4);
    var box := Call("ST_MAKEENVELOPE", BoundTrees(k, 4));
    assert ReadPrimary(call) == Done((box, z)) by {
      assert ReadCall("ST_MAKEENVELOPE", [OPEN] + list) == Done((box, z));
    }
    OverlapTree(ts, Column(geom), op, call, box, z);
  }

  lemma OverlapTree(ts: Toks, x: Tree, op: Tok, right: Toks, y: Tree, z: Toks)
    requires IsOther(op) && Stops(z) && !Starts(NOT, ts)
    requires ReadPrimary(ts) == Done((x, [op] + right)) && ReadPrimary(right) == Done((y, z))
    ensures ReadNot(ts) == Done((Apply(op.text, x, y), z))
  {
    var tree := Apply(op.text, x, y);
    Behind(op, right);
    assert ReadOtherTail(tree, z) == Done((tree, z));
    assert ReadOtherTail(x, [op] + right) == Done((tree, z));
    assert ReadOther(ts) == Done((tree, z));
    RangeIs(ts, tree, z);
    ComparisonIs(ts, tree, z);
    IsIs(ts, tree, z);
    NotIs(ts, tree, z);
  }

  /** One more argument of a call, of which `read` have been read. */
  lemma NextItem(read: seq<Tree>, ts: Toks, x: Tree, z: Toks)
    requires ReadPrimary(ts) == Done((x, z)) && z != [] && (z[0] == COMMA || z[0] == CLOSE) && !Starts(NOT, ts)
    ensures ReadItems(read, ts) == if z[0] == COMMA then ReadItems(read + [x], z[1..]) else Done((read + [x], z[1..]))
  {
    PrimaryIsNot(ts, x, z);
    AndIs(ts, x, z);
    OrIs(ts, x, z);
  }

  lemma GeometryPrimary(k: nat, z: Toks)
    ensures ReadPrimary(GeometryOnto(k, z)) == Done((GeometryTree(k), z))
    ensures !Starts(NOT, GeometryOnto(k, z))
  {
    var name := Word("ST_GEOMFROMTEXT");
    assert GeometryOnto(k, z) == [name] + ([OPEN] + ([Param(k)] + ([CLOSE] + z)));
    Behind(CLOSE, z);
    Behind(Param(k), [CLOSE] + z);
    Behind(OPEN, [Param(k)] + ([CLOSE] + z));
    Behind(name, [OPEN] + ([Param(k)] + ([CLOSE] + z)));
    NextItem([], [Param(k)] + ([CLOSE] + z), Bound(k), [CLOSE] + z);
    assert [] + [Bound(k)] == [Bound(k)];
    assert ReadCall("ST_GEOMFROMTEXT", [OPEN] + ([Param(k)] + ([CLOSE] + z))) == Done((GeometryTree(k), z));
  }

  /** The arguments of a call on a column and a geometry, up to what follows the geometry. */
  lemma HeadItems(geom: string, k: nat, z: Toks)
    requires z != [] && (z[0] == COMMA || z[0] == CLOSE)
    ensures var read := [Column(geom), GeometryTree(k)];
            ReadItems([], [Quoted(geom)] + ([COMMA] + GeometryOnto(k, z))) ==
            if z[0] == COMMA then ReadItems(read, z[1..]) else Done((read, z[1..]))
  {
    var g := GeometryOnto(k, z);
    Behind(Quoted(geom), [COMMA] + g);
    Behind(COMMA, g);
    NextItem([], [Quoted(geom)] + ([COMMA] + g), Column(geom), [COMMA] + g);
    GeometryPrimary(k, z);
    NextItem([Column(geom)], g, GeometryTree(k), z);
    assert [] + [Column(geom)] == [Column(geom)];
    assert [Column(geom)] + [GeometryTree(k)] == [Column(geom), GeometryTree(k)];
  }

  lemma CallPrimary(name: string, list: Toks, args: seq<Tree>, z: Toks)
    requires name != "TRUE" && !IsReserved(name) && ReadItems([], list) == Done((args, z))
    ensures var ts := [Word(name)] + ([OPEN] + list);
            ReadPrimary(ts) == Done((Call(name, args), z)) && !Starts(NOT, ts)
  {
    Behind(OPEN, list);
    Behind(Word(name), [OPEN] + list);
    assert ReadCall(name, [OPEN] + list) == Done((Call(name, args), z));
  }

  lemma CallNot(name: string, list: Toks, args: seq<Tree>, z: Toks)
    requires name != "TRUE" && !IsReserved(name) && Stops(z)
    requires ReadItems([], list) == Done((args, z))
    ensures ReadNot([Word(name)] + ([OPEN] + list)) == Done((Call(name, args), z))
  {
    CallPrimary(name, list, args, z);
    PrimaryIsNot([Word(name)] + ([OPEN] + list), Call(name, args), z);
  }

  lemma RelationNames(rel: SpatialOp)
    ensures var name := "ST_" + SpatialWord(rel);
            name != "TRUE" && !IsReserved(name)
  {
    var name := "ST_" + SpatialWord(rel);
    assert name[2] == '_';
  }

  lemma SpatialTree(rel: SpatialOp, geom: string, k: nat, z: Toks)
    requires Stops(z)
    ensures ReadNot([Word("ST_" + SpatialWord(rel))] + ([OPEN] + ([Quoted(geom)] + ([COMMA] + GeometryOnto(k, [CLOSE] + z)))))
      == Done((Call("ST_" + SpatialWord(rel), [Column(geom), GeometryTree(k)]), z))
  {
    Behind(CLOSE, z);
    HeadItems(geom, k, [CLOSE] + z);
    RelationNames(rel);
    CallNot("ST_" + SpatialWord(rel), [Quoted(geom)] + ([COMMA] + GeometryOnto(k, [CLOSE] + z)), [Column(geom), GeometryTree(k)], z);
  }

  lemma DistanceTree(geom: string, k: nat, beyond: bool, z: Toks)
    requires Stops(z)
    ensures ReadNot(NotOnto(beyond, DistanceOnto(geom, k, z)))
      == Done((Negated(beyond, Call("ST_DWITHIN", [Column(geom), GeometryTree(k), Bound(k + 1)])), z))
  {
    var last := [Param(k + 1)] + ([CLOSE] + z);
    var name, list := "ST_DWITHIN", [Quoted(geom)] + ([COMMA] + GeometryOnto(k, [COMMA] + last));
    Behind(COMMA, last);
    Behind(CLOSE, z);
    Behind(Param(k + 1), [CLOSE] + z);
    HeadItems(geom, k, [COMMA] + last);
    NextItem([Column(geom), GeometryTree(k)], last, Bound(k + 1), [CLOSE] + z);
    var args := [Column(geom), GeometryTree(k), Bound(k + 1)];
    assert [Column(geom), GeometryTree(k)] + [Bound(k + 1)] == args;
    assert name[2] == '_';
    CallNot(name, list, args, z);
    Behind(NOT, DistanceOnto(geom, k, z));
  }

  // ---- Every formula ----

  /** The tokens of a fragment read as its expression, at the level of NOT, leaving what stands behind it. */
  lemma {:induction false} FragmentTree(e: Expr, k: nat, z: Toks)
    requires Formula(e) && Stops(z)
    ensures ReadNot(TokensOnto(e, k, z)) == Done((TreeOf(e, k), z))
    decreases e, 1
  {
    match e {
      case IncludeAll =>
        Behind(Word("TRUE"), z);
        PrimaryIsNot([Word("TRUE")] + z, Truth, z);
      case Compare(op, left, right) => CompareTree(left, op, right, k, z);
      case Logic(op, es) => BracketedTree(op, es, k, z);
      case Not(x) => NegationTree(x, k, z);
      case Like(_, _, _, _) => LikeTree(e, k, z);
      case In(_, _, _) => InTree(e, k, z);
      case Between(_, _, _, _) => BetweenTree(e, k, z);
      case IsNull(_, _) => IsNullTree(e, k, z);
      case BBox(geom, _, _, _, _, _) => EnvelopeTree(geom, k, z);
      case Spatial(rel, geom, _) => SpatialTree(rel, geom, k, z);
      case DWithin(geom, _, _, _, beyond) => DistanceTree(geom, k, beyond, z);
    }
  }

  lemma {:induction false} BracketedTree(op: LogicOp, es: seq<Expr>, k: nat, z: Toks)
    requires es != [] && AllFormulas(es) && Stops(z)
    ensures ReadNot([OPEN] + ListOnto(op, es, k, [CLOSE] + z)) ==
      Done((FoldTree(op, TreeOf(es[0], k), es[1..], k + |ArgsOf(es[0])|), z))
    decreases es, 2
  {
    var list, tree := ListOnto(op, es, k, [CLOSE] + z), FoldTree(op, TreeOf(es[0], k), es[1..], k + |ArgsOf(es[0])|);
    Behind(CLOSE, z);
    ListTree(op, es, k, [CLOSE] + z);
    BracketsParse(list, tree, z);
  }

  // What is read up to a closing bracket is an operand of NOT in brackets.
  lemma BracketsParse(ts: Toks, tree: Tree, z: Toks)
    requires ReadOr(ts) == Done((tree, [CLOSE] + z)) && Stops(z)
    ensures ReadNot([OPEN] + ts) == Done((tree, z))
  {
    Behind(OPEN, ts);
    Behind(CLOSE, z);
    assert ReadBracketed(ts) == Done((tree, z));
    PrimaryIsNot([OPEN] + ts, tree, z);
  }

  lemma {:induction false} NegationTree(x: Expr, k: nat, z: Toks)
    requires Formula(x) && Stops(z)
    ensures ReadNot([NOT] + ([OPEN] + TokensOnto(x, k, [CLOSE] + z))) == Done((Negation(TreeOf(x, k)), z))
    decreases x, 2
  {
    var inner, tree := TokensOnto(x, k, [CLOSE] + z), TreeOf(x, k);
    Behind(CLOSE, z);
    FragmentTree(x, k, [CLOSE] + z);
    AndIs(inner, tree, [CLOSE] + z);
    OrIs(inner, tree, [CLOSE] + z);
    Behind(NOT, [OPEN] + inner);
    BracketsParse(inner, tree, z);
  }

  // What the first operand of AND and the tail behind it read as, all of them do.
  lemma AndChain(ts: Toks, first: Tree, tail: Toks, tree: Tree, z: Toks)
    requires ReadNot(ts) == Done((first, tail)) && ReadAndTail(first, tail) == Done((tree, z)) && !Starts(OR, z)
    ensures ReadOr(ts) == Done((tree, z))
  {
    assert ReadAnd(ts) == Done((tree, z));
    OrIs(ts, tree, z);
  }

  lemma OrChain(ts: Toks, first: Tree, tail: Toks, tree: Tree, z: Toks)
    requires ReadNot(ts) == Done((first, tail)) && !Starts(AND, tail) && ReadOrTail(first, tail) == Done((tree, z))
    ensures ReadOr(ts) == Done((tree, z))
  {
    AndIs(ts, first, tail);
  }

  /** The operands of a connective read as their left fold. */
  lemma {:induction false} ListTree(op: LogicOp, es: seq<Expr>, k: nat, z: Toks)
    requires es != [] && AllFormulas(es) && z != [] && z[0] == CLOSE
    ensures ReadOr(ListOnto(op, es, k, z)) == Done((FoldTree(op, TreeOf(es[0], k), es[1..], k + |ArgsOf(es[0])|), z))
    decreases es, 0
  {
    var first, rest, n := TreeOf(es[0], k), es[1..], k + |ArgsOf(es[0])|;
    var ts, tail, tree := ListOnto(op, es, k, z), TailOnto(op, rest, n, z), FoldTree(op, first, rest, n);
    FragmentTree(es[0], k, tail);
    TailTree(op, first, rest, n, z);
    if op == And {
      AndChain(ts, first, tail, tree, z);
    } else {
      OrChain(ts, first, tail, tree, z);
    }
  }

  lemma {:induction false} TailTree(op: LogicOp, left: Tree, es: seq<Expr>, k: nat, z: Toks)
    requires AllFormulas(es) && z != [] && z[0] == CLOSE
    ensures (if op == And then ReadAndTail else ReadOrTail)(left, TailOnto(op, es, k, z)) == Done((FoldTree(op, left, es, k), z))
    decreases es, 1
  {
    if es != [] {
      var n, rest := k + |ArgsOf(es[0])|, es[1..];
      var list, tail, right := ListOnto(op, es, k, z), TailOnto(op, rest, n, z), TreeOf(es[0], k);
      Behind(Word(Connective(op)), list);
      FragmentTree(es[0], k, tail);
      if op == Or {
        AndIs(list, right, tail);
      }
      TailTree(op, Combine(op, left, right), rest, n, z);
    }
  }
}

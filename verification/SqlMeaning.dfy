/**
 Three-valued truth of filters and of SQL conditions on one row, both over the same uninterpreted data, and
 the proof that compiling keeps it.
 */
module SqlMeaning {
  import opened Outcomes
  import opened FilterAst
  import opened SqlCompiler
  import opened SqlFragments
  import opened SqlReader
  import opened SqlTrees

  datatype Tri = True | False | Unknown

  function Not3(x: Tri): Tri {
    match x
    case True => False
    case False => True
    case Unknown => Unknown
  }

  function And3(x: Tri, y: Tri): Tri {
    if x == False || y == False then False
    else if x == True && y == True then True
    else Unknown
  }

  function Or3(x: Tri, y: Tri): Tri {
    if x == True || y == True then True
    else if x == False && y == False then False
    else Unknown
  }

  function Signed(negate: bool, x: Tri): Tri {
    if negate then Not3(x) else x
  }

  /** Any number of truth values at once, without an order. */
  function All3(xs: seq<Tri>): Tri {
    if False in xs then False else if Unknown in xs then Unknown else True
  }

  function Any3(xs: seq<Tri>): Tri {
    if True in xs then True else if Unknown in xs then Unknown else False
  }

  /**
   A row and a database over values `V`: what columns hold, what arguments become, and how the database
   compares, matches and relates values. Nothing is known about any of it.
   */
  datatype World<!V> = World(
    column: string -> V,
    argument: Lit -> V,
    number: nat -> V,
    flag: Tri -> V,
    isNull: V -> bool,
    compare: (CompareOp, V, V) -> Tri,
    like: (bool, V, V) -> Tri,
    overlaps: (V, V) -> Tri,
    box: (V, V, V, V) -> V,
    geometry: V -> V,
    related: (SpatialOp, V, V) -> Tri,
    near: (V, V, V) -> Tri,
    call: (string, seq<V>) -> V,
    truth: V -> Tri)

  // ---- Filters ----

  function OperandValue<V>(w: World<V>, e: Expr): V
    requires IsOperand(e)
  {
    if e.Property? then w.column(e.name) else w.argument(e.lit)
  }

  function EqualEach<V>(w: World<V>, x: V, values: seq<Expr>): seq<Tri>
    requires AllOperands(values)
  {
    if values == [] then [] else [w.compare(Eq, x, OperandValue(w, values[0]))] + EqualEach(w, x, values[1..])
  }

  /** Whether the row satisfies a filter; the reference system of BBOX and the units of DWITHIN play no part. */
  function Holds<V>(w: World<V>, e: Expr): Tri
    requires Formula(e)
    decreases e
  {
    match e
    case IncludeAll => True
    case Compare(op, left, right) => w.compare(op, OperandValue(w, left), OperandValue(w, right))
    case Logic(op, es) =>
      var xs := seq(|es|, i requires 0 <= i < |es| => Holds(w, es[i]));
      if op == And then All3(xs) else Any3(xs)
    case Not(x) => Not3(Holds(w, x))
    case Like(prop, pattern, ci, negate) => Signed(negate, w.like(ci, OperandValue(w, prop), w.argument(Str(pattern))))
    case In(prop, values, negate) =>
      Signed(negate, Any3(EqualEach(w, OperandValue(w, prop), values)))
    case Between(prop, lo, hi, negate) =>
      var x := OperandValue(w, prop);
      Signed(negate, And3(w.compare(Ge, x, OperandValue(w, lo)), w.compare(Le, x, OperandValue(w, hi))))
    case IsNull(prop, negate) => Signed(negate, if w.isNull(OperandValue(w, prop)) then True else False)
    case BBox(geom, minX, minY, maxX, maxY, _) =>
      w.overlaps(w.column(geom), w.box(w.argument(Num(minX)), w.argument(Num(minY)), w.argument(Num(maxX)), w.argument(Num(maxY))))
    case Spatial(rel, geom, wkt) => w.related(rel, w.column(geom), w.geometry(w.argument(Str(wkt))))
    case DWithin(geom, wkt, distance, _, beyond) =>
      Signed(beyond, w.near(w.column(geom), w.geometry(w.argument(Str(wkt))), w.argument(Num(distance))))
  }

  // ---- SQL conditions ----

  // What the parameter `$i` is bound to.
  type Binding = nat -> Lit

  function ComparisonOf(op: string): Outcome<CompareOp> {
    match op
    case "=" => Done(Eq)
    case "<>" => Done(Ne)
    case "<" => Done(Lt)
    case "<=" => Done(Le)
    case ">" => Done(Gt)
    case ">=" => Done(Ge)
    case _ => Fail
  }

  function RelationOf(fn: string): Outcome<SpatialOp> {
    match fn
    case "ST_INTERSECTS" => Done(Intersects)
    case "ST_WITHIN" => Done(Within)
    case "ST_CONTAINS" => Done(Contains)
    case "ST_DISJOINT" => Done(Disjoint)
    case "ST_TOUCHES" => Done(Touches)
    case "ST_CROSSES" => Done(Crosses)
    case "ST_OVERLAPS" => Done(Overlaps)
    case "ST_EQUALS" => Done(Equals)
    case _ => Fail
  }

  function Values<V>(w: World<V>, binding: Binding, ts: seq<Tree>): seq<V>
    decreases ts
  {
    if ts == [] then [] else [ValueOf(w, binding, ts[0])] + Values(w, binding, ts[1..])
  }

  predicate IsValue(t: Tree) {
    t.Column? || t.Bound? || t.Numeral? || t.Call?
  }

  function ValueOf<V>(w: World<V>, binding: Binding, t: Tree): V
    decreases t, if IsValue(t) then 2 else 4
  {
    match t
    case Column(name) => w.column(name)
    case Bound(index) => w.argument(binding(index))
    case Numeral(value) => w.number(value)
    case Call(_, _) => ValueOfCall(w, binding, t)
    case _ => w.flag(TruthOf(w, binding, t))
  }

  function ValueOfCall<V>(w: World<V>, binding: Binding, t: Tree): V
    requires t.Call?
    decreases t, 1
  {
    var vs := Values(w, binding, t.args);
    if t.fn == "ST_MAKEENVELOPE" && |vs| == 4 then w.box(vs[0], vs[1], vs[2], vs[3])
    else if t.fn == "ST_GEOMFROMTEXT" && |vs| == 1 then w.geometry(vs[0])
    else w.call(t.fn, vs)
  }

  function TruthOf<V>(w: World<V>, binding: Binding, t: Tree): Tri
    decreases t, 3
  {
    match t
    case Truth => True
    case Apply(_, _, _) => TruthOfOperator(w, binding, t)
    case Matches(x, pattern, ci, negate) => Signed(negate, w.like(ci, ValueOf(w, binding, x), ValueOf(w, binding, pattern)))
    case Among(x, items, negate) => Signed(negate, AmongOf(w, ValueOf(w, binding, x), Values(w, binding, items)))
    case Ranges(x, lo, hi, negate) =>
      var v := ValueOf(w, binding, x);
      Signed(negate, And3(w.compare(Ge, v, ValueOf(w, binding, lo)), w.compare(Le, v, ValueOf(w, binding, hi))))
    case Null(x, negate) => Signed(negate, if w.isNull(ValueOf(w, binding, x)) then True else False)
    case Negation(x) => Not3(TruthOf(w, binding, x))
    case Conjunction(l, r) => And3(TruthOf(w, binding, l), TruthOf(w, binding, r))
    case Disjunction(l, r) => Or3(TruthOf(w, binding, l), TruthOf(w, binding, r))
    case Call(_, _) => TruthOfCall(w, binding, t)
    case _ => w.truth(ValueOf(w, binding, t))
  }

  function TruthOfCall<V>(w: World<V>, binding: Binding, t: Tree): Tri
    requires t.Call?
    decreases t, 2
  {
    var vs := Values(w, binding, t.args);
    if RelationOf(t.fn).Done? && |vs| == 2 then w.related(RelationOf(t.fn).value, vs[0], vs[1])
    else if t.fn == "ST_DWITHIN" && |vs| == 3 then w.near(vs[0], vs[1], vs[2])
    else w.truth(ValueOfCall(w, binding, t))
  }

  function TruthOfOperator<V>(w: World<V>, binding: Binding, t: Tree): Tri
    requires t.Apply?
    decreases t, 2
  {
    var x, y := ValueOf(w, binding, t.left), ValueOf(w, binding, t.right);
    if ComparisonOf(t.op).Done? then w.compare(ComparisonOf(t.op).value, x, y)
    else if t.op == "&&" then w.overlaps(x, y)
    else w.truth(w.call(t.op, [x, y]))
  }

  /** `x IN (a, b, …)` is `x = a OR x = b OR …`. */
  function AmongOf<V>(w: World<V>, x: V, vs: seq<V>): Tri {
    if vs == [] then False else Or3(w.compare(Eq, x, vs[0]), AmongOf(w, x, vs[1..]))
  }

  // ---- Folding ----

  lemma {:induction false} AnyOfCons(x: Tri, xs: seq<Tri>)
    ensures Any3([x] + xs) == Or3(x, Any3(xs))
    ensures All3([x] + xs) == And3(x, All3(xs))
  {
    assert forall y :: y in [x] + xs <==> y == x || y in xs;
  }

  lemma OrAssociates(x: Tri, y: Tri, z: Tri)
    ensures Or3(Or3(x, y), z) == Or3(x, Or3(y, z))
    ensures And3(And3(x, y), z) == And3(x, And3(y, z))
  {
  }

  function Combine3(op: LogicOp, x: Tri, y: Tri): Tri {
    if op == And then And3(x, y) else Or3(x, y)
  }

  function Together(op: LogicOp, xs: seq<Tri>): Tri {
    if op == And then All3(xs) else Any3(xs)
  }

  function HoldsEach<V>(w: World<V>, es: seq<Expr>): seq<Tri>
    requires AllFormulas(es)
  {
    seq(|es|, i requires 0 <= i < |es| => Holds(w, es[i]))
  }

  lemma TogetherOfCons<V>(w: World<V>, op: LogicOp, es: seq<Expr>)
    requires es != [] && AllFormulas(es)
    ensures AllFormulas(es[1..]) && Together(op, HoldsEach(w, es)) == Combine3(op, Holds(w, es[0]), Together(op, HoldsEach(w, es[1..])))
  {
    assert HoldsEach(w, es) == [Holds(w, es[0])] + HoldsEach(w, es[1..]);
    AnyOfCons(Holds(w, es[0]), HoldsEach(w, es[1..]));
  }

  // ---- Atoms ----

  // The parameters from `$k` on are bound to `args`.
  ghost predicate Binds(binding: Binding, k: nat, args: Args) {
    forall i | 0 <= i < |args| :: binding(k + i) == args[i]
  }

  lemma BindsSplit(binding: Binding, k: nat, a: Args, b: Args)
    requires Binds(binding, k, a + b)
    ensures Binds(binding, k, a) && Binds(binding, k + |a|, b)
  {
    assert forall i | 0 <= i < |a| :: (a + b)[i] == a[i];
    forall i | 0 <= i < |b|
      ensures binding(k + |a| + i) == b[i]
    {
      assert (a + b)[|a| + i] == b[i];
    }
  }

  lemma BindsAt(binding: Binding, k: nat, args: Args, i: nat)
    requires Binds(binding, k, args) && i < |args|
    ensures binding(k + i) == args[i]
  {
  }

  lemma ComparisonRead(op: CompareOp)
    ensures ComparisonOf(CompareText(op)) == Done(op)
  {
  }

  lemma RelationRead(rel: SpatialOp)
    ensures RelationOf("ST_" + SpatialWord(rel)) == Done(rel)
  {
    match rel
    case Intersects => assert "ST_" + "INTERSECTS" == "ST_INTERSECTS";
    case Within => assert "ST_" + "WITHIN" == "ST_WITHIN";
    case Contains => assert "ST_" + "CONTAINS" == "ST_CONTAINS";
    case Disjoint => assert "ST_" + "DISJOINT" == "ST_DISJOINT";
    case Touches => assert "ST_" + "TOUCHES" == "ST_TOUCHES";
    case Crosses => assert "ST_" + "CROSSES" == "ST_CROSSES";
    case Overlaps => assert "ST_" + "OVERLAPS" == "ST_OVERLAPS";
    case Equals => assert "ST_" + "EQUALS" == "ST_EQUALS";
  }

  lemma OperandMeans<V>(w: World<V>, binding: Binding, e: Expr, k: nat)
    requires IsOperand(e) && Binds(binding, k, ArgsOf(e))
    ensures ValueOf(w, binding, OperandTree(e, k)) == OperandValue(w, e)
  {
    if e.Literal? {
      BindsAt(binding, k, ArgsOf(e), 0);
    }
  }

  lemma {:induction false} BoundMean<V>(w: World<V>, binding: Binding, k: nat, args: Args)
    requires Binds(binding, k, args)
    ensures Values(w, binding, BoundTrees(k, |args|)) == seq(|args|, i requires 0 <= i < |args| => w.argument(args[i]))
    decreases |args|
  {
    var ts := BoundTrees(k, |args|);
    if args != [] {
      BindsAt(binding, k, args, 0);
      assert ts[1..] == BoundTrees(k + 1, |args[1..]|);
      assert Binds(binding, k + 1, args[1..]) by {
        BindsSplit(binding, k, [args[0]], args[1..]);
      }
      BoundMean(w, binding, k + 1, args[1..]);
    }
  }

  lemma CompareMeans<V>(w: World<V>, binding: Binding, e: Expr, k: nat)
    requires e.Compare? && Formula(e) && Binds(binding, k, ArgsOf(e))
    ensures TruthOf(w, binding, TreeOf(e, k)) == Holds(w, e)
  {
    assert ArgsOf(e.left) == [] && [] + ArgsOf(e.right) == ArgsOf(e.right);
    OperandMeans(w, binding, e.right, k);
    ComparisonRead(e.cmp);
    OperatorMeans(w, binding, CompareText(e.cmp), Column(e.left.name), OperandTree(e.right, k));
  }

  lemma OperatorMeans<V>(w: World<V>, binding: Binding, op: string, left: Tree, right: Tree)
    ensures TruthOf(w, binding, Apply(op, left, right)) ==
      var x, y := ValueOf(w, binding, left), ValueOf(w, binding, right);
      if ComparisonOf(op).Done? then w.compare(ComparisonOf(op).value, x, y)
      else if op == "&&" then w.overlaps(x, y)
      else w.truth(w.call(op, [x, y]))
  {
    assert TruthOf(w, binding, Apply(op, left, right)) == TruthOfOperator(w, binding, Apply(op, left, right));
  }

  lemma {:induction false} AmongMeans<V>(w: World<V>, binding: Binding, x: V, values: seq<Expr>, k: nat)
    requires AllLiterals(values) && AllOperands(values) && Binds(binding, k, ValueArgs(values))
    ensures AmongOf(w, x, Values(w, binding, BoundTrees(k, |values|))) == Any3(EqualEach(w, x, values))
    decreases |values|
  {
    if values != [] {
      var rest, ts := values[1..], BoundTrees(k, |values|);
      BindsSplit(binding, k, [values[0].lit], ValueArgs(rest));
      BindsAt(binding, k, ValueArgs(values), 0);
      AmongMeans(w, binding, x, rest, k + 1);
      assert ts[1..] == BoundTrees(k + 1, |rest|);
      var first, more := w.compare(Eq, x, w.argument(values[0].lit)), Values(w, binding, ts[1..]);
      assert Values(w, binding, ts) == [w.argument(values[0].lit)] + more;
      AmongOfCons(w, x, w.argument(values[0].lit), more);
      AnyOfCons(first, EqualEach(w, x, rest));
    }
  }

  lemma AmongOfCons<V>(w: World<V>, x: V, v: V, vs: seq<V>)
    ensures AmongOf(w, x, [v] + vs) == Or3(w.compare(Eq, x, v), AmongOf(w, x, vs))
  {
    assert ([v] + vs)[1..] == vs;
  }

  lemma AmongTruth<V>(w: World<V>, binding: Binding, x: Tree, items: seq<Tree>, negate: bool)
    ensures TruthOf(w, binding, Among(x, items, negate)) == Signed(negate, AmongOf(w, ValueOf(w, binding, x), Values(w, binding, items)))
  {
  }

  lemma InArgs(e: Expr)
    requires e.In? && Formula(e)
    ensures ArgsOf(e) == ValueArgs(e.values)
  {
    assert [] + ValueArgs(e.values) == ValueArgs(e.values);
  }

  lemma HoldsIn<V>(w: World<V>, e: Expr)
    requires e.In? && Formula(e)
    ensures Holds(w, e) == Signed(e.negate, Any3(EqualEach(w, w.column(e.prop.name), e.values)))
  {
  }

  lemma InMeans<V>(w: World<V>, binding: Binding, e: Expr, k: nat)
    requires e.In? && Formula(e) && Compiles(e) && Binds(binding, k, ArgsOf(e))
    ensures TruthOf(w, binding, TreeOf(e, k)) == Holds(w, e)
  {
    InArgs(e);
    var x, items := Column(e.prop.name), BoundTrees(k, |e.values|);
    AmongTruth(w, binding, x, items, e.negate);
    AmongMeans(w, binding, w.column(e.prop.name), e.values, k);
    HoldsIn(w, e);
  }

  lemma BetweenMeans<V>(w: World<V>, binding: Binding, e: Expr, k: nat)
    requires e.Between? && Formula(e) && Compiles(e) && Binds(binding, k, ArgsOf(e))
    ensures TruthOf(w, binding, TreeOf(e, k)) == Holds(w, e)
  {
    assert ArgsOf(e) == [e.lo.lit, e.hi.lit];
    BindsAt(binding, k, ArgsOf(e), 0);
    BindsAt(binding, k, ArgsOf(e), 1);
  }

  lemma LikeMeans<V>(w: World<V>, binding: Binding, e: Expr, k: nat)
    requires e.Like? && Formula(e) && Binds(binding, k, ArgsOf(e))
    ensures TruthOf(w, binding, TreeOf(e, k)) == Holds(w, e)
  {
    assert ArgsOf(e) == [Lit.Str(e.pattern)];
    BindsAt(binding, k, ArgsOf(e), 0);
  }

  lemma BBoxMeans<V>(w: World<V>, binding: Binding, e: Expr, k: nat)
    requires e.BBox? && Binds(binding, k, ArgsOf(e))
    ensures TruthOf(w, binding, TreeOf(e, k)) == Holds(w, e)
  {
    var box := Call("ST_MAKEENVELOPE", BoundTrees(k, 4));
    BoundMean(w, binding, k, ArgsOf(e));
    assert ComparisonOf("&&").Fail?;
    OperatorMeans(w, binding, "&&", Column(e.geom), box);
    assert ValueOf(w, binding, box) == ValueOfCall(w, binding, box);
  }

  lemma GeometryMeans<V>(w: World<V>, binding: Binding, k: nat, wkt: string)
    requires binding(k) == Str(wkt)
    ensures ValueOf(w, binding, GeometryTree(k)) == w.geometry(w.argument(Str(wkt)))
  {
    assert Values(w, binding, [Bound(k)]) == [w.argument(Str(wkt))];
    assert ValueOf(w, binding, GeometryTree(k)) == ValueOfCall(w, binding, GeometryTree(k));
  }

  lemma SpatialMeans<V>(w: World<V>, binding: Binding, e: Expr, k: nat)
    requires e.Spatial? && Binds(binding, k, ArgsOf(e))
    ensures TruthOf(w, binding, TreeOf(e, k)) == Holds(w, e)
  {
    BindsAt(binding, k, ArgsOf(e), 0);
    GeometryMeans(w, binding, k, e.wkt);
    var args := [Column(e.geom), GeometryTree(k)];
    assert args[1..] == [GeometryTree(k)];
    assert Values(w, binding, args[1..]) == [ValueOf(w, binding, GeometryTree(k))];
    assert Values(w, binding, args) == [w.column(e.geom), ValueOf(w, binding, GeometryTree(k))];
    RelationRead(e.rel);
    var call := Call("ST_" + SpatialWord(e.rel), args);
    assert TruthOf(w, binding, call) == TruthOfCall(w, binding, call);
  }

  lemma DWithinMeans<V>(w: World<V>, binding: Binding, e: Expr, k: nat)
    requires e.DWithin? && Binds(binding, k, ArgsOf(e))
    ensures TruthOf(w, binding, TreeOf(e, k)) == Holds(w, e)
  {
    BindsAt(binding, k, ArgsOf(e), 0);
    BindsAt(binding, k, ArgsOf(e), 1);
    GeometryMeans(w, binding, k, e.wkt);
    var args := [Column(e.geom), GeometryTree(k), Bound(k + 1)];
    assert args[1..] == [GeometryTree(k), Bound(k + 1)] && args[1..][1..] == [Bound(k + 1)];
    assert Values(w, binding, args[1..][1..]) == [w.argument(Num(e.distance))];
    assert Values(w, binding, args[1..]) == [ValueOf(w, binding, GeometryTree(k)), w.argument(Num(e.distance))];
    assert Values(w, binding, args) == [w.column(e.geom), ValueOf(w, binding, GeometryTree(k)), w.argument(Num(e.distance))];
    assert RelationOf("ST_DWITHIN").Fail?;
    var call := Call("ST_DWITHIN", args);
    assert TruthOf(w, binding, call) == TruthOfCall(w, binding, call);
  }

  // ---- Every formula ----

  lemma {:induction false} TreeMeans<V>(w: World<V>, binding: Binding, e: Expr, k: nat)
    requires Formula(e) && Compiles(e) && Binds(binding, k, ArgsOf(e))
    ensures TruthOf(w, binding, TreeOf(e, k)) == Holds(w, e)
    decreases e, 1
  {
    match e {
      case IncludeAll =>
      case Compare(_, _, _) => CompareMeans(w, binding, e, k);
      case Logic(op, es) => LogicMeans(w, binding, op, es, k);
      case Not(x) => TreeMeans(w, binding, x, k);
      case Like(_, _, _, _) => LikeMeans(w, binding, e, k);
      case In(_, _, _) => InMeans(w, binding, e, k);
      case Between(_, _, _, _) => BetweenMeans(w, binding, e, k);
      case IsNull(_, _) =>
      case BBox(_, _, _, _, _, _) => BBoxMeans(w, binding, e, k);
      case Spatial(_, _, _) => SpatialMeans(w, binding, e, k);
      case DWithin(_, _, _, _, _) => DWithinMeans(w, binding, e, k);
    }
  }

  lemma {:induction false} LogicMeans<V>(w: World<V>, binding: Binding, op: LogicOp, es: seq<Expr>, k: nat)
    requires Formula(Logic(op, es)) && AllCompile(es) && Binds(binding, k, AllArgs(es))
    ensures TruthOf(w, binding, TreeOf(Logic(op, es), k)) == Holds(w, Logic(op, es))
    decreases es, 2
  {
    var n, rest := k + |ArgsOf(es[0])|, es[1..];
    AllCompileSplit(es);
    BindsSplit(binding, k, ArgsOf(es[0]), AllArgs(rest));
    TreeMeans(w, binding, es[0], k);
    TogetherOfCons(w, op, es);
    FoldMeans(w, binding, op, TreeOf(es[0], k), rest, n);
    assert Holds(w, Logic(op, es)) == Together(op, HoldsEach(w, es));
  }

  lemma {:induction false} FoldMeans<V>(w: World<V>, binding: Binding, op: LogicOp, left: Tree, es: seq<Expr>, k: nat)
    requires AllFormulas(es) && AllCompile(es) && Binds(binding, k, AllArgs(es))
    ensures TruthOf(w, binding, FoldTree(op, left, es, k)) == Combine3(op, TruthOf(w, binding, left), Together(op, HoldsEach(w, es)))
    decreases es, 0
  {
    if es == [] {
      assert HoldsEach(w, es) == [];
    } else {
      var n, rest, tree := k + |ArgsOf(es[0])|, es[1..], TreeOf(es[0], k);
      AllCompileSplit(es);
      BindsSplit(binding, k, ArgsOf(es[0]), AllArgs(rest));
      TreeMeans(w, binding, es[0], k);
      FoldMeans(w, binding, op, Combine(op, left, tree), rest, n);
      CombineMeans(w, binding, op, left, tree);
      FoldStep(w, op, TruthOf(w, binding, left), es);
    }
  }

  lemma BothSides<V>(w: World<V>, binding: Binding, t: Tree)
    ensures t.Conjunction? ==> TruthOf(w, binding, t) == And3(TruthOf(w, binding, t.left), TruthOf(w, binding, t.right))
    ensures t.Disjunction? ==> TruthOf(w, binding, t) == Or3(TruthOf(w, binding, t.left), TruthOf(w, binding, t.right))
  {
  }

  lemma ConjunctionMeans<V>(w: World<V>, binding: Binding, left: Tree, right: Tree)
    ensures TruthOf(w, binding, Conjunction(left, right)) == And3(TruthOf(w, binding, left), TruthOf(w, binding, right))
  {
    BothSides(w, binding, Conjunction(left, right));
  }

  lemma DisjunctionMeans<V>(w: World<V>, binding: Binding, left: Tree, right: Tree)
    ensures TruthOf(w, binding, Disjunction(left, right)) == Or3(TruthOf(w, binding, left), TruthOf(w, binding, right))
  {
    BothSides(w, binding, Disjunction(left, right));
  }

  lemma CombineMeans<V>(w: World<V>, binding: Binding, op: LogicOp, left: Tree, right: Tree)
    ensures TruthOf(w, binding, Combine(op, left, right)) == Combine3(op, TruthOf(w, binding, left), TruthOf(w, binding, right))
  {
    ConjunctionMeans(w, binding, left, right);
    DisjunctionMeans(w, binding, left, right);
  }

  lemma FoldStep<V>(w: World<V>, op: LogicOp, left: Tri, es: seq<Expr>)
    requires es != [] && AllFormulas(es)
    ensures AllFormulas(es[1..])
    ensures Combine3(op, left, Together(op, HoldsEach(w, es))) ==
      Combine3(op, Combine3(op, left, Holds(w, es[0])), Together(op, HoldsEach(w, es[1..])))
  {
    TogetherOfCons(w, op, es);
    OrAssociates(left, Holds(w, es[0]), Together(op, HoldsEach(w, es[1..])));
  }
}

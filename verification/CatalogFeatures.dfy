/** The WHERE of the catalogue's feature collections: an optional box and an optional filter. */
module CatalogFeatures {
  import opened Outcomes
  import opened FilterAst
  import opened Decimals
  import opened SqlCompiler
  import opened SqlLexer
  import opened SqlFragments
  import opened SqlReader
  import opened SqlTrees
  import opened SqlMeaning
  import opened SqlText
  import opened Whitespace
  import opened WhereClauses
  import L = CqlLexer
  import G = CqlGrammar
  import S = CqlShape
  import C = Compilation
  import GoCql
  import GoSql

  const WGS84 := 4326

  // ---- The box ----

  /** `ST_Intersects(ST_Transform("geom",4326), ST_MakeEnvelope($1,$2,$3,$4,4326))` */
  function BoxText(geom: string): string {
    "ST_Intersects" + "(" + ("ST_Transform" + "(") + ("\"" + geom + "\"") + "," + Decimal(WGS84) + ")" + ", " + ("ST_MakeEnvelope" + "(")
    + Placeholder(1) + "," + Placeholder(2) + "," + Placeholder(3) + "," + Placeholder(4) + "," + Decimal(WGS84) + ")" + ")"
  }

  function BoxTokens(geom: string, z: Toks): Toks {
    [Word("ST_INTERSECTS")] + ([OPEN] + ([Word("ST_TRANSFORM")] + ([OPEN] + ([Quoted(geom)] + ([COMMA] + ([Number(WGS84)] + ([CLOSE]
    + ([COMMA] + EnvelopeCallOnto(WGS84, [CLOSE] + z)))))))))
  }

  function BoxTree(geom: string): Tree {
    Call("ST_INTERSECTS", [Call("ST_TRANSFORM", [Column(geom), Numeral(WGS84)]), EnvelopeCallTree(WGS84)])
  }

  lemma IntersectsWord()
    ensures IsWord("ST_Intersects") && L.Upper("ST_Intersects") == "ST_INTERSECTS"
  {
  }

  lemma NextParam(a: string, ta: Toks, n: nat)
    requires Reads(a, ta, false)
    ensures Reads(a + "," + Placeholder(n), ta + [COMMA] + [Param(n)], false)
  {
    AppendMark(a, ta, false, ',');
    PlaceholderReads(n);
    Append(a + ",", ta + [COMMA], true, Placeholder(n), [Param(n)], false);
  }

  lemma NextNumber(a: string, ta: Toks, n: nat)
    requires Reads(a, ta, false)
    ensures Reads(a + "," + Decimal(n), ta + [COMMA] + [Number(n)], false)
  {
    AppendMark(a, ta, false, ',');
    NumberReads(n);
    Append(a + ",", ta + [COMMA], true, Decimal(n), [Number(n)], false);
  }

  lemma BoxHeadReads(geom: string)
    requires IsIdentifier(geom)
    ensures Reads("ST_Intersects" + "(" + ("ST_Transform" + "(") + ("\"" + geom + "\"") + "," + Decimal(WGS84) + ")" + ", " + ("ST_MakeEnvelope" + "("),
      [Word("ST_INTERSECTS")] + [OPEN] + ([Word("ST_TRANSFORM")] + [OPEN]) + [Quoted(geom)] + [COMMA] + [Number(WGS84)] + [CLOSE] + [COMMA]
      + ([Word("ST_MAKEENVELOPE")] + [OPEN]), true)
  {
    IntersectsWord();
    TransformWord();
    EnvelopeWord();
    CallReads("ST_Intersects", "ST_INTERSECTS");
    CallReads("ST_Transform", "ST_TRANSFORM");
    CallReads("ST_MakeEnvelope", "ST_MAKEENVELOPE");
    var a, ta := "ST_Intersects" + "(", [Word("ST_INTERSECTS")] + [OPEN];
    var t, tt := "ST_Transform" + "(", [Word("ST_TRANSFORM")] + [OPEN];
    Append(a, ta, true, t, tt, true);
    IdentifierReads(geom);
    var col := "\"" + geom + "\"";
    Append(a + t, ta + tt, true, col, [Quoted(geom)], false);
    NextNumber(a + t + col, ta + tt + [Quoted(geom)], WGS84);
    var b, tb := a + t + col + "," + Decimal(WGS84), ta + tt + [Quoted(geom)] + [COMMA] + [Number(WGS84)];
    AppendMark(b, tb, false, ')');
    CommaReads();
    Append(b + ")", tb + [CLOSE], true, ", ", [COMMA], true);
    Append(b + ")" + ", ", tb + [CLOSE] + [COMMA], true, "ST_MakeEnvelope" + "(", [Word("ST_MAKEENVELOPE")] + [OPEN], true);
  }

  lemma BoxTailReads(a: string, ta: Toks)
    requires Reads(a, ta, true)
    ensures Reads(a + Placeholder(1) + "," + Placeholder(2) + "," + Placeholder(3) + "," + Placeholder(4) + "," + Decimal(WGS84) + ")" + ")",
      ta + [Param(1)] + [COMMA] + [Param(2)] + [COMMA] + [Param(3)] + [COMMA] + [Param(4)] + [COMMA] + [Number(WGS84)] + [CLOSE] + [CLOSE], true)
  {
    PlaceholderReads(1);
    Append(a, ta, true, Placeholder(1), [Param(1)], false);
    var b, tb := a + Placeholder(1), ta + [Param(1)];
    NextParam(b, tb, 2);
    var c, tc := b + "," + Placeholder(2), tb + [COMMA] + [Param(2)];
    NextParam(c, tc, 3);
    var d, td := c + "," + Placeholder(3), tc + [COMMA] + [Param(3)];
    NextParam(d, td, 4);
    var f, tf := d + "," + Placeholder(4), td + [COMMA] + [Param(4)];
    NextNumber(f, tf, WGS84);
    AppendMark(f + "," + Decimal(WGS84), tf + [COMMA] + [Number(WGS84)], false, ')');
    AppendMark(f + "," + Decimal(WGS84) + ")", tf + [COMMA] + [Number(WGS84)] + [CLOSE], true, ')');
  }

  lemma BoxTokensAre(geom: string)
    ensures [Word("ST_INTERSECTS")] + [OPEN] + ([Word("ST_TRANSFORM")] + [OPEN]) + [Quoted(geom)] + [COMMA] + [Number(WGS84)] + [CLOSE] + [COMMA]
      + ([Word("ST_MAKEENVELOPE")] + [OPEN]) + [Param(1)] + [COMMA] + [Param(2)] + [COMMA] + [Param(3)] + [COMMA] + [Param(4)] + [COMMA]
      + [Number(WGS84)] + [CLOSE] + [CLOSE] == BoxTokens(geom, [])
  {
  }

  lemma BoxReads(geom: string)
    requires IsIdentifier(geom)
    ensures Reads(BoxText(geom), BoxTokens(geom, []), true)
  {
    BoxHeadReads(geom);
    BoxTailReads("ST_Intersects" + "(" + ("ST_Transform" + "(") + ("\"" + geom + "\"") + "," + Decimal(WGS84) + ")" + ", " + ("ST_MakeEnvelope" + "("),
      [Word("ST_INTERSECTS")] + [OPEN] + ([Word("ST_TRANSFORM")] + [OPEN]) + [Quoted(geom)] + [COMMA] + [Number(WGS84)] + [CLOSE] + [COMMA]
      + ([Word("ST_MAKEENVELOPE")] + [OPEN]));
    BoxTokensAre(geom);
  }

  lemma TransformPrimary(geom: string, z: Toks)
    ensures var ts := [Word("ST_TRANSFORM")] + ([OPEN] + ([Quoted(geom)] + ([COMMA] + ([Number(WGS84)] + ([CLOSE] + z)))));
            ReadPrimary(ts) == Done((Call("ST_TRANSFORM", [Column(geom), Numeral(WGS84)]), z)) && !Starts(NOT, ts)
  {
    var end := [Number(WGS84)] + ([CLOSE] + z);
    Behind(CLOSE, z);
    Behind(COMMA, end);
    Behind(Quoted(geom), [COMMA] + end);
    NextItem([], [Quoted(geom)] + ([COMMA] + end), Column(geom), [COMMA] + end);
    TokenItem([Column(geom)], Number(WGS84), Numeral(WGS84), [CLOSE] + z);
    assert [] + [Column(geom)] == [Column(geom)] && [Column(geom)] + [Numeral(WGS84)] == [Column(geom), Numeral(WGS84)];
    CallPrimary("ST_TRANSFORM", [Quoted(geom)] + ([COMMA] + end), [Column(geom), Numeral(WGS84)], z);
  }

  lemma BoxRead(geom: string, z: Toks)
    requires Stops(z)
    ensures ReadNot(BoxTokens(geom, z)) == Done((BoxTree(geom), z))
  {
    var env := EnvelopeCallOnto(WGS84, [CLOSE] + z);
    var inner := [Word("ST_TRANSFORM")] + ([OPEN] + ([Quoted(geom)] + ([COMMA] + ([Number(WGS84)] + ([CLOSE] + ([COMMA] + env))))));
    var moved := Call("ST_TRANSFORM", [Column(geom), Numeral(WGS84)]);
    TransformPrimary(geom, [COMMA] + env);
    Behind(COMMA, env);
    Behind(CLOSE, z);
    NextItem([], inner, moved, [COMMA] + env);
    EnvelopePrimary(WGS84, [CLOSE] + z);
    NextItem([moved], env, EnvelopeCallTree(WGS84), [CLOSE] + z);
    assert [] + [moved] == [moved] && [moved] + [EnvelopeCallTree(WGS84)] == [moved, EnvelopeCallTree(WGS84)];
    CallNot("ST_INTERSECTS", inner, [moved, EnvelopeCallTree(WGS84)], z);
  }

  lemma BoxFront(geom: string, z: Toks)
    ensures BoxTokens(geom, []) + z == BoxTokens(geom, z)
  {
  }

  // ---- A bracketed fragment ----

  lemma BracketedReads(e: Expr, k: nat)
    requires Compiles(e) && Emit(e, k).Done?
    ensures Reads("(" + Emit(e, k).value.text + ")", [OPEN] + (TokensOnto(e, k, [CLOSE] + [])), true)
  {
    FragmentReads(e, k);
    BracketsRead(TextOf(e, k), TokensOnto(e, k, []));
    Assoc([OPEN], TokensOnto(e, k, []), [CLOSE]);
    OntoFront(e, k, [CLOSE]);
    assert [CLOSE] + [] == [CLOSE];
  }

  lemma BracketedRead(e: Expr, k: nat)
    requires Formula(e)
    ensures ReadNot([OPEN] + TokensOnto(e, k, [CLOSE] + [])) == Done((TreeOf(e, k), []))
  {
    var inner, tree, end := TokensOnto(e, k, [CLOSE] + []), TreeOf(e, k), [CLOSE] + [];
    Behind(CLOSE, []);
    FragmentTree(e, k, end);
    AndIs(inner, tree, end);
    OrIs(inner, tree, end);
    Behind(OPEN, inner);
    assert ReadBracketed(inner) == Done((tree, []));
    PrimaryIsNot([OPEN] + inner, tree, []);
  }

  lemma BracketedAlone(e: Expr, k: nat)
    requires Formula(e) && Compiles(e) && Emit(e, k).Done?
    ensures ReadCondition("(" + Emit(e, k).value.text + ")") == Done(TreeOf(e, k))
  {
    var ts := [OPEN] + TokensOnto(e, k, [CLOSE] + []);
    BracketedReads(e, k);
    ReadsWhole("(" + Emit(e, k).value.text + ")", ts);
    BracketedRead(e, k);
    AndIs(ts, TreeOf(e, k), []);
    OrIs(ts, TreeOf(e, k), []);
  }

  lemma BoxAlone(geom: string)
    requires IsIdentifier(geom)
    ensures ReadCondition(BoxText(geom)) == Done(BoxTree(geom))
  {
    var ts := BoxTokens(geom, []);
    BoxReads(geom);
    ReadsWhole(BoxText(geom), ts);
    BoxRead(geom, []);
    AndIs(ts, BoxTree(geom), []);
    OrIs(ts, BoxTree(geom), []);
  }

  lemma BoxAndBracketed(geom: string, e: Expr, k: nat)
    requires IsIdentifier(geom) && Formula(e) && Compiles(e) && Emit(e, k).Done?
    ensures ReadCondition(BoxText(geom) + " AND " + ("(" + Emit(e, k).value.text + ")")) == Done(Conjunction(BoxTree(geom), TreeOf(e, k)))
  {
    var box, frag := BoxTokens(geom, []), [OPEN] + TokensOnto(e, k, [CLOSE] + []);
    BoxReads(geom);
    BracketedReads(e, k);
    ConnectiveReads(And);
    assert " " + "AND" + " " == " AND ";
    Append(BoxText(geom), box, true, " AND ", [AND], true);
    Append(BoxText(geom) + " AND ", box + [AND], true, "(" + Emit(e, k).value.text + ")", frag, true);
    ReadsWhole(BoxText(geom) + " AND " + ("(" + Emit(e, k).value.text + ")"), box + [AND] + frag);
    Assoc(box, [AND], frag);
    BoxFront(geom, [AND] + frag);
    Behind(AND, frag);
    BoxRead(geom, [AND] + frag);
    BracketedRead(e, k);
    var whole, tree := BoxTokens(geom, [AND] + frag), Conjunction(BoxTree(geom), TreeOf(e, k));
    assert ReadAndTail(tree, []) == Done((tree, []));
    assert ReadAndTail(BoxTree(geom), [AND] + frag) == Done((tree, []));
    OrIs(whole, tree, []);
  }

  // ---- The assembled WHERE ----

  /** The filter of a request, if it has one. */
  function RequestFilter(cql: string, conv: S.Conversion): Option<Outcome<Expr>> {
    if IsBlank(cql) then None else Some(G.ParseCql(S.GoReader(conv), cql))
  }

  function BoxArgs(bbox: seq<Float>): Args {
    if |bbox| == 4 then [Num(bbox[0]), Num(bbox[1]), Num(bbox[2]), Num(bbox[3])] else []
  }

  function BoxPreds(geom: string, bbox: seq<Float>): seq<string> {
    if |bbox| == 4 then [BoxText(geom)] else []
  }

  // The condition that the box and the filter amount to.
  function Condition(geom: string, boxed: bool, e: Option<Expr>): Option<Tree>
    requires e.Some? ==> Formula(e.value)
  {
    match e
    case None => if boxed then Some(BoxTree(geom)) else None
    case Some(x) => if boxed then Some(Conjunction(BoxTree(geom), TreeOf(x, 5))) else Some(TreeOf(x, 1))
  }

  // A WHERE clause, or nothing, that reads as `condition`.
  predicate IsWhere(text: string, condition: Option<Tree>) {
    match condition
    case None => text == ""
    case Some(tree) => "WHERE " <= text && ReadCondition(text[|"WHERE "|..]) == Done(tree)
  }

  function ParsedOnly(filter: Option<Outcome<Expr>>): Option<Expr> {
    if filter.Some? && filter.value.Done? then Some(filter.value.value) else None
  }

  // What the request's box and filter should become.
  ghost predicate Assembles(r: Outcome<Sql>, table: string, geom: string, bbox: seq<Float>, f: Option<Outcome<Expr>>) {
    && (f.Some? && f.value.Done? ==> Formula(f.value.value))
    && (r.Done? <==> IsIdentifier(table) && IsIdentifier(geom) && (f.Some? ==> f.value.Done? && Compiles(f.value.value)))
    && (r.Done? ==> r.value.args == BoxArgs(bbox) + if f.Some? then ArgsOf(f.value.value) else [])
    && (r.Done? ==> IsWhere(r.value.text, Condition(geom, |bbox| == 4, ParsedOnly(f))))
  }

  function WhereText(preds: seq<string>): string {
    if |preds| > 0 then "WHERE " + Join(preds, " AND ") else ""
  }

  // The predicate and arguments of a request's filter from `$k`, or none.
  function FilterPart(f: Option<Outcome<Expr>>, k: nat): Outcome<Option<Sql>> {
    match f
    case None => Done(None)
    case Some(Fail) => Fail
    case Some(Done(e)) => if Compiles(e) then Done(Some(Sql(Bracketed(e, k), ArgsOf(e)))) else Fail
  }

  function Joined(preds: seq<string>, args: Args, filter: Option<Sql>): Sql {
    match filter
    case None => Sql(WhereText(preds), args)
    case Some(s) => Sql(WhereText(preds + [s.text]), args + s.args)
  }

  /** The text and arguments, the filter numbered behind the box. */
  function Assembled(table: string, geom: string, bbox: seq<Float>, f: Option<Outcome<Expr>>): Outcome<Sql> {
    if !IsIdentifier(table) || !IsIdentifier(geom) then Fail
    else
      var filter :- FilterPart(f, |BoxArgs(bbox)| + 1);
      Done(Joined(BoxPreds(geom, bbox), BoxArgs(bbox), filter))
  }

  /** validTable. */
  method ValidTable(name: string) returns (b: bool)
    ensures b == IsIdentifier(name)
  {
    if name == "" {
      return false;
    }
    for i := 0 to |name|
      invariant i > 0 ==> L.IsIdentStart(name[0])
      invariant forall j | 1 <= j < i :: L.IsIdentStart(name[j]) || IsDigit(name[j])
    {
      var c := name[i];
      if c == '_' || 'a' <= c <= 'z' || 'A' <= c <= 'Z' {
        continue;
      }
      if i > 0 && '0' <= c <= '9' {
        continue;
      }
      return false;
    }
    return true;
  }

  /** The part of the assembly that deals with the filter text. */
  method FilterPredicate(cql: string, conv: S.Conversion, k: nat) returns (r: Outcome<Option<Sql>>)
    ensures r == FilterPart(RequestFilter(cql, conv), k)
  {
    if IsBlank(cql) {
      return Done(None);
    }
    var e :- GoCql.ParseCql(cql, conv);
    EmitIs(e, k);
    var frag :- GoSql.ToSql(e, k);
    return Done(Some(Sql("(" + frag.text + ")", frag.args)));
  }

  method BoxPredicate(geom: string, bbox: seq<Float>) returns (preds: seq<string>, args: Args)
    ensures preds == BoxPreds(geom, bbox) && args == BoxArgs(bbox)
  {
    preds, args := [], [];
    if |bbox| == 4 {
      preds := preds + [BoxText(geom)];
      args := args + [Num(bbox[0]), Num(bbox[1]), Num(bbox[2]), Num(bbox[3])];
    }
  }

  method JoinWhere(box: seq<string>, boxArgs: Args, filter: Option<Sql>) returns (r: Sql)
    ensures r == Joined(box, boxArgs, filter)
  {
    var preds, args := box, boxArgs;
    if filter.Some? {
      preds := preds + [filter.value.text];
      args := args + filter.value.args;
    }
    var where := "";
    if |preds| > 0 {
      where := "WHERE " + Join(preds, " AND ");
    }
    return Sql(where, args);
  }

  /** The WHERE clause and its arguments, from the request's box and filter text. */
  method FeaturesWhere(table: string, geom: string, bbox: seq<Float>, cql: string, conv: S.Conversion) returns (r: Outcome<Sql>)
    ensures r == Assembled(table, geom, bbox, RequestFilter(cql, conv))
  {
    var goodTable := ValidTable(table);
    var goodGeom := ValidTable(geom);
    if !goodTable || !goodGeom {
      return Fail;
    }
    var preds, args := BoxPredicate(geom, bbox);
    var filter :- FilterPredicate(cql, conv, |args| + 1);
    var s := JoinWhere(preds, args, filter);
    return Done(s);
  }

  /** What is assembled reads as it should: nothing, the box, the filter, or both joined by AND. */
  lemma AssembledReads(table: string, geom: string, bbox: seq<Float>, f: Option<Outcome<Expr>>)
    requires f.Some? && f.value.Done? ==> Formula(f.value.value)
    ensures Assembles(Assembled(table, geom, bbox, f), table, geom, bbox, f)
  {
    if IsIdentifier(table) && IsIdentifier(geom) {
      match f {
        case None => PlainWhere(geom, bbox);
        case Some(Fail) =>
        case Some(Done(e)) =>
          if Compiles(e) {
            FilteredWhere(geom, bbox, e);
          }
      }
    }
  }

  /** So does what is assembled from a request. */
  lemma RequestReads(table: string, geom: string, bbox: seq<Float>, cql: string, conv: S.Conversion)
    ensures var f := RequestFilter(cql, conv);
            Assembles(Assembled(table, geom, bbox, f), table, geom, bbox, f)
  {
    ParsedIsFormula(conv, cql);
    AssembledReads(table, geom, bbox, RequestFilter(cql, conv));
  }

  lemma ParsedIsFormula(conv: S.Conversion, cql: string)
    ensures var p := G.ParseCql(S.GoReader(conv), cql);
            p.Done? ==> Formula(p.value)
  {
    S.ParsedIsShaped(conv, cql);
    var p := G.ParseCql(S.GoReader(conv), cql);
    if p.Done? {
      C.ShapedIsFormula(p.value);
    }
  }

  lemma WhereOf(cond: string, tree: Tree)
    requires ReadCondition(cond) == Done(tree)
    ensures IsWhere("WHERE " + cond, Some(tree))
  {
    assert ("WHERE " + cond)[|"WHERE "|..] == cond;
  }

  function Bracketed(e: Expr, k: nat): string {
    "(" + TextOf(e, k) + ")"
  }

  lemma FilteredReads(geom: string, boxed: bool, e: Expr, preds: seq<string>)
    requires IsIdentifier(geom) && Formula(e) && Compiles(e)
    requires preds == if boxed then [BoxText(geom), Bracketed(e, 5)] else [Bracketed(e, 1)]
    ensures ReadCondition(Join(preds, " AND ")) == Done(Condition(geom, boxed, Some(e)).value)
  {
    EmitIs(e, if boxed then 5 else 1);
    if boxed {
      assert preds[1..] == [Bracketed(e, 5)];
      BoxAndBracketed(geom, e, 5);
    } else {
      BracketedAlone(e, 1);
    }
  }

  lemma FilteredWhere(geom: string, bbox: seq<Float>, e: Expr)
    requires IsIdentifier(geom) && Formula(e) && Compiles(e)
    ensures IsWhere(WhereText(BoxPreds(geom, bbox) + [Bracketed(e, |BoxArgs(bbox)| + 1)]), Condition(geom, |bbox| == 4, Some(e)))
  {
    var preds := BoxPreds(geom, bbox) + [Bracketed(e, |BoxArgs(bbox)| + 1)];
    FilteredReads(geom, |bbox| == 4, e, preds);
    WhereOf(Join(preds, " AND "), Condition(geom, |bbox| == 4, Some(e)).value);
  }

  lemma PlainWhere(geom: string, bbox: seq<Float>)
    requires IsIdentifier(geom)
    ensures IsWhere(WhereText(BoxPreds(geom, bbox)), Condition(geom, |bbox| == 4, None))
  {
    BoxAlone(geom);
    WhereOf(BoxText(geom), BoxTree(geom));
  }

  lemma BoxMeans<V>(w: World<V>, binding: Binding, geom: string)
    ensures TruthOf(w, binding, BoxTree(geom)) ==
      w.related(Intersects, w.call("ST_TRANSFORM", [w.column(geom), w.number(WGS84)]), EnvelopeValue(w, binding, WGS84))
  {
    var moved := Call("ST_TRANSFORM", [Column(geom), Numeral(WGS84)]);
    PairValues(w, binding, Column(geom), Numeral(WGS84));
    assert ValueOf(w, binding, moved) == ValueOfCall(w, binding, moved);
    EnvelopeMeans(w, binding, WGS84);
    PairValues(w, binding, moved, EnvelopeCallTree(WGS84));
    assert RelationOf("ST_INTERSECTS") == Done(Intersects);
    assert TruthOf(w, binding, BoxTree(geom)) == TruthOfCall(w, binding, BoxTree(geom));
  }

  /** A feature is selected exactly when its geometry meets the box, if there is one, and the filter holds, if there is one. */
  lemma FeaturesMean<V>(w: World<V>, geom: string, bbox: seq<Float>, e: Expr)
    requires Formula(e) && Compiles(e)
    ensures var binding := BindAll(BoxArgs(bbox) + ArgsOf(e));
            var box := w.related(Intersects, w.call("ST_TRANSFORM", [w.column(geom), w.number(WGS84)]),
                                 EnvelopeValue(w, BindAll(BoxArgs(bbox)), WGS84));
            TruthOf(w, binding, Condition(geom, |bbox| == 4, Some(e)).value) ==
            if |bbox| == 4 then And3(box, Holds(w, e)) else Holds(w, e)
  {
    var box := BoxArgs(bbox);
    var args := box + ArgsOf(e);
    BindAllBinds(box, ArgsOf(e));
    TreeMeans(w, BindAll(args), e, |box| + 1);
    if |bbox| == 4 {
      BoxMeans(w, BindAll(args), geom);
      assert args[0] == box[0] && args[1] == box[1] && args[2] == box[2] && args[3] == box[3];
      ConjunctionMeans(w, BindAll(args), BoxTree(geom), TreeOf(e, 5));
    }
  }
}

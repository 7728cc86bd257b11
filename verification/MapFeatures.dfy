/** The WHERE of a map's feature query: the request box in the layer's reference system, and the filter. */
module MapFeatures {
  import opened Outcomes
  import opened FilterAst
  import opened Decimals
  import opened SqlCompiler
  import opened SqlLexer
  import opened SqlFragments
  import opened SqlReader
  import opened SqlTrees
  import opened SqlMeaning
  import opened SqlText
  import opened WhereClauses
  import RustSql

  /** `"geom" && ST_Transform(ST_MakeEnvelope($1, $2, $3, $4, srid), native)` */
  function BoxText(geom: string, srid: nat, native: nat): string {
    "\"" + geom + "\"" + (" " + "&&" + " " + "ST_Transform" + "(") + ("ST_MakeEnvelope" + "(") + Placeholder(1)
    + ", " + Placeholder(2) + ", " + Placeholder(3) + ", " + Placeholder(4) + ", " + Decimal(srid) + ")" + ", " + Decimal(native) + ")"
  }

  function BoxTokens(geom: string, srid: nat, native: nat, z: Toks): Toks {
    [Quoted(geom)] + ([Sym("&&")] + ([Word("ST_TRANSFORM")] + ([OPEN] + EnvelopeCallOnto(srid, [COMMA] + ([Number(native)] + ([CLOSE] + z))))))
  }

  function BoxTree(geom: string, srid: nat, native: nat): Tree {
    Apply("&&", Column(geom), Call("ST_TRANSFORM", [EnvelopeCallTree(srid), Numeral(native)]))
  }

  lemma BoxTailReads(a: string, ta: Toks, srid: nat, native: nat)
    requires Reads(a, ta, false)
    ensures Reads(a + ", " + Placeholder(2) + ", " + Placeholder(3) + ", " + Placeholder(4) + ", " + Decimal(srid) + ")" + ", " + Decimal(native) + ")",
      ta + [COMMA] + [Param(2)] + [COMMA] + [Param(3)] + [COMMA] + [Param(4)] + [COMMA] + [Number(srid)] + [CLOSE] + [COMMA] + [Number(native)] + [CLOSE], true)
  {
    NextReads(a, ta, 2);
    var b, tb := a + ", " + Placeholder(2), ta + [COMMA] + [Param(2)];
    NextReads(b, tb, 3);
    var c, tc := b + ", " + Placeholder(3), tb + [COMMA] + [Param(3)];
    NextReads(c, tc, 4);
    var d, td := c + ", " + Placeholder(4), tc + [COMMA] + [Param(4)];
    NextNumberReads(d, td, false, srid);
    var f, tf := d + ", " + Decimal(srid), td + [COMMA] + [Number(srid)];
    AppendMark(f, tf, false, ')');
    NextNumberReads(f + ")", tf + [CLOSE], true, native);
    AppendMark(f + ")" + ", " + Decimal(native), tf + [CLOSE] + [COMMA] + [Number(native)], false, ')');
  }

  lemma BoxTokensAre(geom: string, srid: nat, native: nat)
    ensures [Quoted(geom)] + ([Sym("&&")] + [Word("ST_TRANSFORM")] + [OPEN]) + ([Word("ST_MAKEENVELOPE")] + [OPEN]) + [Param(1)]
      + [COMMA] + [Param(2)] + [COMMA] + [Param(3)] + [COMMA] + [Param(4)] + [COMMA] + [Number(srid)] + [CLOSE] + [COMMA] + [Number(native)] + [CLOSE]
      == BoxTokens(geom, srid, native, [])
  {
  }

  lemma BoxReads(geom: string, srid: nat, native: nat)
    requires IsIdentifier(geom)
    ensures Reads(BoxText(geom, srid, native), BoxTokens(geom, srid, native, []), true)
  {
    TransformWord();
    EnvelopeWord();
    var col := "\"" + geom + "\"";
    IdentifierReads(geom);
    OverlapCallReads("&&", "ST_Transform", "ST_TRANSFORM");
    var call, tcall := " " + "&&" + " " + "ST_Transform" + "(", [Sym("&&")] + [Word("ST_TRANSFORM")] + [OPEN];
    Append(col, [Quoted(geom)], false, call, tcall, true);
    CallReads("ST_MakeEnvelope", "ST_MAKEENVELOPE");
    var env, tenv := "ST_MakeEnvelope" + "(", [Word("ST_MAKEENVELOPE")] + [OPEN];
    Append(col + call, [Quoted(geom)] + tcall, true, env, tenv, true);
    PlaceholderReads(1);
    var a, ta := col + call + env + Placeholder(1), [Quoted(geom)] + tcall + tenv + [Param(1)];
    Append(col + call + env, [Quoted(geom)] + tcall + tenv, true, Placeholder(1), [Param(1)], false);
    BoxTailReads(a, ta, srid, native);
    BoxTokensAre(geom, srid, native);
  }

  lemma BoxRead(geom: string, srid: nat, native: nat, z: Toks)
    requires Stops(z)
    ensures ReadNot(BoxTokens(geom, srid, native, z)) == Done((BoxTree(geom, srid, native), z))
  {
    var end, env := [Number(native)] + ([CLOSE] + z), EnvelopeCallTree(srid);
    var inner := EnvelopeCallOnto(srid, [COMMA] + end);
    EnvelopePrimary(srid, [COMMA] + end);
    Behind(COMMA, end);
    Behind(CLOSE, z);
    NextItem([], inner, env, [COMMA] + end);
    TokenItem([env], Number(native), Numeral(native), [CLOSE] + z);
    assert [] + [env] == [env] && [env] + [Numeral(native)] == [env, Numeral(native)];
    var outer := [Word("ST_TRANSFORM")] + ([OPEN] + inner);
    CallPrimary("ST_TRANSFORM", inner, [env, Numeral(native)], z);
    Behind(Quoted(geom), [Sym("&&")] + outer);
    OverlapTree([Quoted(geom)] + ([Sym("&&")] + outer), Column(geom), Sym("&&"), outer, Call("ST_TRANSFORM", [env, Numeral(native)]), z);
  }

  lemma BoxFront(geom: string, srid: nat, native: nat, z: Toks)
    ensures BoxTokens(geom, srid, native, []) + z == BoxTokens(geom, srid, native, z)
  {
  }

  function ReferenceSystem(srid: int): nat {
    if srid > 0 then srid else 4326
  }

  lemma BoxAlone(geom: string, srid: nat, native: nat)
    requires IsIdentifier(geom)
    ensures ReadCondition(BoxText(geom, srid, native)) == Done(BoxTree(geom, srid, native))
  {
    var ts, tree := BoxTokens(geom, srid, native, []), BoxTree(geom, srid, native);
    BoxReads(geom, srid, native);
    ReadsWhole(BoxText(geom, srid, native), ts);
    BoxRead(geom, srid, native, []);
    AndIs(ts, tree, []);
    OrIs(ts, tree, []);
  }

  lemma BoxAndFragment(geom: string, srid: nat, native: nat, e: Expr)
    requires IsIdentifier(geom) && Formula(e) && Compiles(e)
    ensures Emit(e, 5).Done?
    ensures ReadCondition(BoxText(geom, srid, native) + " AND " + Emit(e, 5).value.text) == Done(Conjunction(BoxTree(geom, srid, native), TreeOf(e, 5)))
  {
    var box, tbox, frag := BoxText(geom, srid, native), BoxTokens(geom, srid, native, []), TokensOnto(e, 5, []);
    EmitIs(e, 5);
    BoxReads(geom, srid, native);
    AndFragmentReads(box, tbox, true, e, 5);
    BoxFront(geom, srid, native, [AND] + frag);
    Behind(AND, frag);
    BoxRead(geom, srid, native, [AND] + frag);
    OperandBehindAnd(tbox, BoxTree(geom, srid, native), e, 5);
  }

  /**
   The WHERE of a map's feature query: the request box, bound to `$1` to `$4`, and the filter appended without
   brackets from `$5`. It reads as exactly their conjunction.
   */
  method FetchFeaturesWhere(table: string, geom: string, requestSrid: int, layerSrid: int, bbox: seq<Float>, cql: Option<Expr>)
    returns (r: Outcome<Sql>)
    requires |bbox| == 4
    ensures r.Done? <==> IsIdentifier(table) && IsIdentifier(geom) && (cql.Some? ==> Compiles(cql.value))
    ensures r.Done? && cql.None? ==>
      ReadCondition(r.value.text) == Done(BoxTree(geom, ReferenceSystem(requestSrid), ReferenceSystem(layerSrid)))
    ensures r.Done? && cql.Some? && Formula(cql.value) ==>
      ReadCondition(r.value.text) ==
        Done(Conjunction(BoxTree(geom, ReferenceSystem(requestSrid), ReferenceSystem(layerSrid)), TreeOf(cql.value, 5)))
    ensures r.Done? ==> r.value.args == [Num(bbox[0]), Num(bbox[1]), Num(bbox[2]), Num(bbox[3])] + if cql.Some? then ArgsOf(cql.value) else []
  {
    var validTable := RustSql.ValidIdent(table);
    var validGeom := RustSql.ValidIdent(geom);
    if !validTable || !validGeom {
      return Fail;
    }
    var reqSrid := if requestSrid > 0 then requestSrid else 4326;
    var native := if layerSrid > 0 then layerSrid else 4326;
    var whereSql := BoxText(geom, reqSrid, native);
    var args := [Num(bbox[0]), Num(bbox[1]), Num(bbox[2]), Num(bbox[3])];
    ghost var box := whereSql;
    BoxReads(geom, reqSrid, native);
    if cql.Some? {
      EmitIs(cql.value, 5);
      var frag :- RustSql.ToSql(cql.value, 5);
      whereSql := whereSql + " AND " + frag.text;
      args := args + frag.args;
      if Formula(cql.value) {
        BoxAndFragment(geom, reqSrid, native, cql.value);
      }
    } else {
      BoxAlone(geom, reqSrid, native);
      assert args + [] == args;
    }
    return Done(Sql(whereSql, args));
  }

  lemma BoxMeans<V>(w: World<V>, binding: Binding, geom: string, srid: nat, native: nat)
    ensures TruthOf(w, binding, BoxTree(geom, srid, native)) ==
      w.overlaps(w.column(geom), w.call("ST_TRANSFORM", [EnvelopeValue(w, binding, srid), w.number(native)]))
  {
    var env := Call("ST_MAKEENVELOPE", [Bound(1), Bound(2), Bound(3), Bound(4), Numeral(srid)]);
    var outer := Call("ST_TRANSFORM", [env, Numeral(native)]);
    EnvelopeMeans(w, binding, srid);
    PairValues(w, binding, env, Numeral(native));
    assert ValueOf(w, binding, outer) == ValueOfCall(w, binding, outer);
    assert ComparisonOf("&&").Fail?;
    OperatorMeans(w, binding, "&&", Column(geom), outer);
  }

  /** A row is drawn exactly when the box overlaps its geometry and its filter holds, whatever the row. */
  lemma FetchFeaturesMeans<V>(w: World<V>, geom: string, srid: nat, native: nat, box: Args, e: Expr)
    requires |box| == 4 && Formula(e) && Compiles(e)
    ensures var binding := BindAll(box + ArgsOf(e));
            TruthOf(w, binding, Conjunction(BoxTree(geom, srid, native), TreeOf(e, 5))) ==
            And3(w.overlaps(w.column(geom), w.call("ST_TRANSFORM", [EnvelopeValue(w, BindAll(box), srid), w.number(native)])),
                 Holds(w, e))
  {
    var args := box + ArgsOf(e);
    BindAllBinds(box, ArgsOf(e));
    TreeMeans(w, BindAll(args), e, 5);
    BoxMeans(w, BindAll(args), geom, srid, native);
    assert args[0] == box[0] && args[1] == box[1] && args[2] == box[2] && args[3] == box[3];
    ConjunctionMeans(w, BindAll(args), BoxTree(geom, srid, native), TreeOf(e, 5));
  }
}

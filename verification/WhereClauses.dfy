/** The conditions that services assemble around compiled filters. */
module WhereClauses {
  import opened Outcomes
  import opened FilterAst
  import opened Decimals
  import opened SqlCompiler
  import opened SqlLexer
  import opened SqlFragments
  import opened SqlReader
  import opened SqlTrees
  import opened SqlMeaning
  import opened SqlText
  import L = CqlLexer

  /** A statement's arguments, `$1` first. */
  function BindAll(args: Args): Binding {
    i => if 1 <= i <= |args| then args[i - 1] else Bool(false)
  }

  lemma BindAllBinds(before: Args, args: Args)
    ensures Binds(BindAll(before + args), |before| + 1, args)
  {
    forall i | 0 <= i < |args|
      ensures BindAll(before + args)(|before| + 1 + i) == args[i]
    {
      assert (before + args)[|before| + i] == args[i];
    }
  }

  // ---- One more operand of a conjunction ----

  /** A fragment behind `… AND ` is one operand of it, without brackets. */
  lemma OperandBehindAnd(ts: Toks, x: Tree, e: Expr, k: nat)
    requires Formula(e)
    requires ReadNot(ts + ([AND] + TokensOnto(e, k, []))) == Done((x, [AND] + TokensOnto(e, k, [])))
    ensures ReadOr(ts + ([AND] + TokensOnto(e, k, []))) == Done((Conjunction(x, TreeOf(e, k)), []))
  {
    var frag, whole := TokensOnto(e, k, []), ts + ([AND] + TokensOnto(e, k, []));
    var tree := Conjunction(x, TreeOf(e, k));
    FragmentTree(e, k, []);
    Behind(AND, frag);
    assert ReadAndTail(tree, []) == Done((tree, []));
    assert ReadAndTail(x, [AND] + frag) == Done((tree, []));
    OrIs(whole, tree, []);
  }

  // ---- The envelope of a request ----

  /** `ST_MakeEnvelope($1, $2, $3, $4, srid)` */
  function EnvelopeCallOnto(srid: nat, z: Toks): Toks {
    [Word("ST_MAKEENVELOPE")] + ([OPEN] + ([Param(1)] + ([COMMA] + ([Param(2)] + ([COMMA] + ([Param(3)] + ([COMMA] + ([Param(4)]
    + ([COMMA] + ([Number(srid)] + ([CLOSE] + z)))))))))))
  }

  function EnvelopeCallTree(srid: nat): Tree {
    Call("ST_MAKEENVELOPE", [Bound(1), Bound(2), Bound(3), Bound(4), Numeral(srid)])
  }

  lemma NumberReads(n: nat)
    ensures Reads(Decimal(n), [Number(n)], false)
  {
    forall t: string | Ends(t)
      ensures Lex(Decimal(n) + t) == [Number(n)] + Lex(t)
    {
      LexNumber(n, t);
    }
  }

  lemma NextNumberReads(a: string, ta: Toks, aClosed: bool, n: nat)
    requires Reads(a, ta, aClosed)
    ensures Reads(a + ", " + Decimal(n), ta + [COMMA] + [Number(n)], false)
  {
    CommaReads();
    Append(a, ta, aClosed, ", ", [COMMA], true);
    NumberReads(n);
    Append(a + ", ", ta + [COMMA], true, Decimal(n), [Number(n)], false);
  }

  lemma TokenItem(read: seq<Tree>, t: Tok, x: Tree, z: Toks)
    requires (t.Param? && x == Bound(t.index)) || (t.Number? && x == Numeral(t.value))
    requires z != [] && (z[0] == COMMA || z[0] == CLOSE)
    ensures ReadItems(read, [t] + z) == if z[0] == COMMA then ReadItems(read + [x], z[1..]) else Done((read + [x], z[1..]))
  {
    Behind(t, z);
    NextItem(read, [t] + z, x, z);
  }

  /** `$1, $2, $3, $4, srid)` */
  lemma EnvelopeItems(srid: nat, z: Toks)
    ensures ReadItems([], [Param(1)] + ([COMMA] + ([Param(2)] + ([COMMA] + ([Param(3)] + ([COMMA] + ([Param(4)] + ([COMMA] + ([Number(srid)] + ([CLOSE] + z))))))))))
      == Done(([Bound(1), Bound(2), Bound(3), Bound(4), Numeral(srid)], z))
  {
    var t5 := [Number(srid)] + ([CLOSE] + z);
    var t4 := [Param(4)] + ([COMMA] + t5);
    var t3 := [Param(3)] + ([COMMA] + t4);
    var t2 := [Param(2)] + ([COMMA] + t3);
    Behind(CLOSE, z);
    Behind(COMMA, t5);
    Behind(COMMA, t4);
    Behind(COMMA, t3);
    Behind(COMMA, t2);
    TokenItem([], Param(1), Bound(1), [COMMA] + t2);
    TokenItem([Bound(1)], Param(2), Bound(2), [COMMA] + t3);
    TokenItem([Bound(1), Bound(2)], Param(3), Bound(3), [COMMA] + t4);
    TokenItem([Bound(1), Bound(2), Bound(3)], Param(4), Bound(4), [COMMA] + t5);
    TokenItem([Bound(1), Bound(2), Bound(3), Bound(4)], Number(srid), Numeral(srid), [CLOSE] + z);
    Snoc5(Bound(1), Bound(2), Bound(3), Bound(4), Numeral(srid));
  }

  lemma Snoc5<T>(a: T, b: T, c: T, d: T, e: T)
    ensures [] + [a] == [a] && [a] + [b] == [a, b] && [a, b] + [c] == [a, b, c]
    ensures [a, b, c] + [d] == [a, b, c, d] && [a, b, c, d] + [e] == [a, b, c, d, e]
  {
  }

  lemma EnvelopePrimary(srid: nat, z: Toks)
    ensures ReadPrimary(EnvelopeCallOnto(srid, z)) == Done((EnvelopeCallTree(srid), z)) && !Starts(NOT, EnvelopeCallOnto(srid, z))
  {
    EnvelopeItems(srid, z);
    CallPrimary("ST_MAKEENVELOPE", [Param(1)] + ([COMMA] + ([Param(2)] + ([COMMA] + ([Param(3)] + ([COMMA] + ([Param(4)] + ([COMMA] + ([Number(srid)] + ([CLOSE] + z))))))))),
      EnvelopeCallTree(srid).args, z);
  }

  lemma ReadsWhole(text: string, ts: Toks)
    requires Reads(text, ts, true) || Reads(text, ts, false)
    ensures Lex(text) == ts
  {
    assert text + "" == text && Ends("");
    assert ts + [] == ts;
    assert Lex(text + "") == ts + Lex("");
  }

  /** The tokens of a condition with ` AND ` and a fragment behind it. */
  lemma AndFragmentReads(a: string, ta: Toks, closed: bool, e: Expr, k: nat)
    requires Reads(a, ta, closed) && Compiles(e) && Emit(e, k).Done?
    ensures Lex(a + " AND " + Emit(e, k).value.text) == ta + ([AND] + TokensOnto(e, k, []))
  {
    var frag := TokensOnto(e, k, []);
    ConnectiveReads(And);
    assert " " + "AND" + " " == " AND ";
    Append(a, ta, closed, " AND ", [AND], true);
    FragmentReads(e, k);
    Append(a + " AND ", ta + [AND], true, TextOf(e, k), frag, false);
    ReadsWhole(a + " AND " + TextOf(e, k), ta + [AND] + frag);
    Assoc(ta, [AND], frag);
  }

  function EnvelopeValue<V>(w: World<V>, binding: Binding, srid: nat): V {
    w.call("ST_MAKEENVELOPE", [w.argument(binding(1)), w.argument(binding(2)), w.argument(binding(3)), w.argument(binding(4)), w.number(srid)])
  }

  lemma Display5<T>(a: T, b: T, c: T, d: T, e: T)
    ensures [a] + ([b] + ([c] + ([d] + ([e] + [])))) == [a, b, c, d, e]
  {
  }

  lemma OneValue<V>(w: World<V>, binding: Binding, t: Tree)
    ensures Values(w, binding, [t] + []) == [ValueOf(w, binding, t)] + []
  {
    ValuesOfCons(w, binding, t, []);
  }

  lemma EnvelopeValues<V>(w: World<V>, binding: Binding, srid: nat)
    ensures Values(w, binding, [Bound(1), Bound(2), Bound(3), Bound(4), Numeral(srid)]) ==
      [w.argument(binding(1)), w.argument(binding(2)), w.argument(binding(3)), w.argument(binding(4)), w.number(srid)]
  {
    var e := [Numeral(srid)] + [];
    var d := [Bound(4)] + e;
    var c := [Bound(3)] + d;
    var b := [Bound(2)] + c;
    OneValue(w, binding, Numeral(srid));
    ValuesOfCons(w, binding, Bound(4), e);
    ValuesOfCons(w, binding, Bound(3), d);
    ValuesOfCons(w, binding, Bound(2), c);
    ValuesOfCons(w, binding, Bound(1), b);
    Display5(Bound(1), Bound(2), Bound(3), Bound(4), Numeral(srid));
    Display5(w.argument(binding(1)), w.argument(binding(2)), w.argument(binding(3)), w.argument(binding(4)), w.number(srid));
  }

  lemma EnvelopeMeans<V>(w: World<V>, binding: Binding, srid: nat)
    ensures ValueOf(w, binding, Call("ST_MAKEENVELOPE", [Bound(1), Bound(2), Bound(3), Bound(4), Numeral(srid)])) == EnvelopeValue(w, binding, srid)
  {
    var env := Call("ST_MAKEENVELOPE", [Bound(1), Bound(2), Bound(3), Bound(4), Numeral(srid)]);
    EnvelopeValues(w, binding, srid);
    assert ValueOf(w, binding, env) == ValueOfCall(w, binding, env);
  }

  lemma PairValues<V>(w: World<V>, binding: Binding, x: Tree, y: Tree)
    ensures Values(w, binding, [x, y]) == [ValueOf(w, binding, x), ValueOf(w, binding, y)]
  {
    OneValue(w, binding, y);
    ValuesOfCons(w, binding, x, [y] + []);
    assert [x] + ([y] + []) == [x, y];
  }

  lemma ValuesOfCons<V>(w: World<V>, binding: Binding, t: Tree, ts: seq<Tree>)
    ensures Values(w, binding, [t] + ts) == [ValueOf(w, binding, t)] + Values(w, binding, ts)
  {
    assert ([t] + ts)[1..] == ts;
  }

  lemma TransformWord()
    ensures IsWord("ST_Transform") && L.Upper("ST_Transform") == "ST_TRANSFORM"
  {
  }
}

/** The Go and the Rust converter on the same filter documents: alike down to the tests, and exactly when alike there. */
module XmlFilters {
  import opened Outcomes
  import opened FilterAst
  import opened SqlTrees
  import opened SqlMeaning
  import opened XmlTree
  import opened XmlLogic
  import opened FilterElements
  import opened Whitespace
  import Grammar = CqlGrammar
  import L = CqlLexer
  import Go = GoFilterXml
  import Rust = RustFilterXml

  // How both engines read numbers, and Go writes coordinates.
  datatype Readers = Readers(go: Go.Numbers, rust: Rust.Numeral)

  // ---- From the tests up ----

  // On this row, the second engine accepts what the first does, and with the same truth.
  predicate Agree<V>(w: World<V>, a: Outcome<Expr>, b: Outcome<Expr>) {
    a.Done? ==> b.Done? && Formula(a.value) && Formula(b.value) && Holds(w, a.value) == Holds(w, b.value)
  }

  /** The engines agree on every test in a filter, below And, Or and Not. */
  predicate TestsAgree<V>(w: World<V>, num: Readers, e: Item)
    requires e.Element?
    decreases e
  {
    if KindOf(e.name).Connects? || KindOf(e.name).Negates? then AllTestsAgree(w, num, e.items)
    else Agree(w, Go.Convert(num.go, NodeOf(e)), Rust.Convert(num.rust, e))
  }

  predicate AllTestsAgree<V>(w: World<V>, num: Readers, items: seq<Item>)
    decreases items
  {
    forall i | 0 <= i < |items| && items[i].Element? :: TestsAgree(w, num, items[i])
  }

  /** Then they agree on the whole filter, however deep its connectives are nested. */
  lemma {:induction false} FiltersAgree<V>(w: World<V>, num: Readers, e: Item)
    requires e.Element? && TestsAgree(w, num, e)
    ensures Agree(w, Go.Convert(num.go, NodeOf(e)), Rust.Convert(num.rust, e))
    decreases e
  {
    match KindOf(e.name) {
      case Connects(op) =>
        OperandsAgree(w, num, e.items);
        var xs, ys := Go.ConvertAll(num.go, NodeOf(e).children), Rust.ConvertAll(num.rust, e.items);
        if xs.Done? && |xs.value| >= 2 {
          FoldMatchesFlat(w, op, xs.value, ys);
        }
      case Negates => OperandAgrees(w, num, e.items);
      case _ =>
    }
  }

  lemma {:induction false} OperandsAgree<V>(w: World<V>, num: Readers, items: seq<Item>)
    requires AllTestsAgree(w, num, items)
    ensures var xs := Go.ConvertAll(num.go, ChildrenOf(items));
            xs.Done? ==> SameTruths(w, xs.value, Rust.ConvertAll(num.rust, items))
    decreases items
  {
    if items != [] {
      OperandsAgree(w, num, items[1..]);
      if items[0].Element? {
        FiltersAgree(w, num, items[0]);
        assert ChildrenOf(items)[1..] == ChildrenOf(items[1..]);
      } else {
        assert ChildrenOf(items) == ChildrenOf(items[1..]);
      }
    }
  }

  lemma {:induction false} OperandAgrees<V>(w: World<V>, num: Readers, items: seq<Item>)
    requires AllTestsAgree(w, num, items)
    ensures ChildrenOf(items) != [] ==> Agree(w, Go.Convert(num.go, ChildrenOf(items)[0]), Rust.ConvertFirst(num.rust, items))
    decreases items
  {
    if items != [] {
      if items[0].Element? {
        FiltersAgree(w, num, items[0]);
      } else {
        assert ChildrenOf(items) == ChildrenOf(items[1..]);
        OperandAgrees(w, num, items[1..]);
      }
    }
  }

  /** The same for a whole document: what Go reads, Rust reads with the same truth. */
  lemma DocumentsAgree<V>(w: World<V>, num: Readers, root: Item)
    requires root.Element? && AllTestsAgree(w, num, root.items)
    ensures Agree(w, Go.ParseFilter(num.go, Done(NodeOf(root))), Rust.ParseFilter(num.rust, root))
  {
    OperandAgrees(w, num, root.items);
  }

  // ---- Plain tests ----

  // An element that holds nothing but a text, or nothing at all.
  predicate Holding(e: Item, text: string) {
    e.Element? && (e.items == [Chars(text)] || (e.items == [] && text == ""))
  }

  predicate Names(e: Item, text: string) {
    Holding(e, text) && (e.name == "PropertyName" || e.name == "ValueReference")
  }

  lemma TextOfHolding(e: Item, text: string)
    requires Holding(e, text)
    ensures NodeOf(e) == Node(e.name, e.attrs, [], text) && Rust.TextOfElement(e) == Trim(text)
  {
    assert ChildrenOf([]) == [] && TextOf([]) == "" && Trim("") == "";
    if e.items != [] {
      assert e.items[1..] == [];
      assert TextOf(e.items) == text + "";
    }
  }

  lemma {:induction false} OnlyElements(items: seq<Item>, name: string)
    ensures ChildrenOf(Rust.Elements(items)) == ChildrenOf(items)
    ensures Rust.Local(Rust.Elements(items), name) == Rust.Local(items, name)
  {
    if items != [] {
      OnlyElements(items[1..], name);
      if items[0].Element? {
        assert Rust.Elements(items)[1..] == Rust.Elements(items[1..]);
      } else {
        assert Rust.Elements(items) == Rust.Elements(items[1..]);
        assert ChildrenOf(items) == ChildrenOf(items[1..]);
      }
    }
  }

  lemma ChildrenOfPair(a: Item, b: Item)
    requires a.Element? && b.Element?
    ensures ChildrenOf([a, b]) == [NodeOf(a), NodeOf(b)]
  {
    assert [a, b][1..] == [b] && [b][1..] == [] && ChildrenOf([]) == [];
    assert ChildrenOf([b]) == [NodeOf(b)];
  }

  lemma LocalOfPair(a: Item, b: Item, name: string)
    requires a.Element? && b.Element?
    ensures Rust.Local([a, b], name) == if a.name == name then Some(a) else if b.name == name then Some(b) else None
  {
    assert [a, b][1..] == [b] && [b][1..] == [];
    assert Rust.Local([], name) == None;
  }

  // ---- Exactly when the engines agree on a test ----

  // A database whose values are where they come from.
  datatype Value = Held(name: string) | Given(lit: Lit) | Boxed(a: Value, b: Value, c: Value, d: Value) | Other

  function Judge(compare: (CompareOp, Value, Value) -> Tri, like: (bool, Value, Value) -> Tri, isNull: Value -> bool): World<Value> {
    World(name => Held(name), lit => Given(lit), n => Other, t => Other, isNull, compare, like, (x, y) => Unknown,
          (a, b, c, d) => Other, v => Other, (rel, x, y) => Unknown, (x, y, z) => Unknown, (fn, vs) => Other, v => Unknown)
  }

  /** The engines agree on an element in every database and on every row. */
  ghost predicate AlwaysAgree(num: Readers, e: Item)
    requires e.Element?
  {
    forall w: World<Value> :: Agree(w, Go.Convert(num.go, NodeOf(e)), Rust.Convert(num.rust, e))
  }

  /** They agree always when they build the same filter, and not when a database tells two filters apart. */
  lemma Told(num: Readers, e: Item, go: Expr, rust: Expr, w: World<Value>)
    requires e.Element? && Go.Convert(num.go, NodeOf(e)) == Done(go) && Rust.Convert(num.rust, e) == Done(rust)
    requires Formula(go) && Formula(rust)
    ensures go == rust ==> AlwaysAgree(num, e)
    ensures Holds(w, go) != Holds(w, rust) ==> !AlwaysAgree(num, e)
  {
    if AlwaysAgree(num, e) {
      assert Agree(w, Go.Convert(num.go, NodeOf(e)), Rust.Convert(num.rust, e));
    }
  }

  /** Only names without a prefix are what they are stripped to. */
  lemma StrippedName(name: string)
    ensures Grammar.StripPrefix(name) == name <==> ':' !in name
  {
    var i := L.Run(name, c => c != ':');
    if ':' in name {
      var j :| 0 <= j < |name| && name[j] == ':';
      assert i <= j;
    }
  }

  // A test of one property with one literal, in either order, with text or none around them.
  predicate PlainTest(e: Item, p: Item, pt: string, l: Item, lt: string) {
    && e.Element? && (Rust.Elements(e.items) == [p, l] || Rust.Elements(e.items) == [l, p])
    && Names(p, pt) && Holding(l, lt) && l.name == "Literal"
  }

  lemma GoPair(a: Node, b: Node, name: string)
    ensures Go.TextNamed([a, b], name) == if a.name == name then Some(Trim(a.text)) else if b.name == name then Some(Trim(b.text)) else None
    ensures Go.PropOf([a, b]) == if Go.PropName(a).Some? then Go.PropName(a) else Go.PropName(b)
  {
    assert [a, b][1..] == [b] && [b][1..] == [];
    assert Go.TextNamed([], name) == None && Go.PropOf([]) == None;
    assert Go.PropOf([b]) == Go.PropName(b);
  }

  lemma PlainInGo(e: Item, p: Item, pt: string, l: Item, lt: string)
    requires PlainTest(e, p, pt, l, lt)
    ensures Go.PropOf(NodeOf(e).children) == Some(Grammar.StripPrefix(Trim(pt))) && Go.LiteralText(NodeOf(e)) == Trim(lt)
  {
    TextOfHolding(p, pt);
    TextOfHolding(l, lt);
    OnlyElements(e.items, "");
    ChildrenOfPair(p, l);
    ChildrenOfPair(l, p);
    GoPair(NodeOf(p), NodeOf(l), "Literal");
    GoPair(NodeOf(l), NodeOf(p), "Literal");
  }

  lemma LocalIn(e: Item, a: Item, b: Item, name: string)
    requires e.Element? && a.Element? && b.Element? && (Rust.Elements(e.items) == [a, b] || Rust.Elements(e.items) == [b, a])
    ensures a.name == name && b.name != name ==> Rust.Local(e.items, name) == Some(a)
    ensures a.name != name && b.name != name ==> Rust.Local(e.items, name) == None
  {
    OnlyElements(e.items, name);
    LocalOfPair(a, b, name);
    LocalOfPair(b, a, name);
  }

  lemma PlainInRust(e: Item, p: Item, pt: string, l: Item, lt: string)
    requires PlainTest(e, p, pt, l, lt)
    ensures Rust.PropElement(e.items) == Some(p) && Rust.TextOfElement(p) == Trim(pt)
    ensures Rust.Local(e.items, "Literal") == Some(l) && Rust.TextOfElement(l) == Trim(lt)
  {
    TextOfHolding(p, pt);
    TextOfHolding(l, lt);
    LocalIn(e, p, l, "PropertyName");
    LocalIn(e, p, l, "ValueReference");
    LocalIn(e, l, p, "Literal");
  }

  /** Comparisons: exactly when the property has no prefix and the literal is not a number. */
  lemma ComparisonsAgreeExactly(num: Readers, e: Item, op: CompareOp, p: Item, pt: string, l: Item, lt: string)
    requires PlainTest(e, p, pt, l, lt) && KindOf(e.name) == Comparison(op)
    ensures AlwaysAgree(num, e) <==> ':' !in Trim(pt) && num.rust(Trim(lt)).None?
  {
    PlainInGo(e, p, pt, l, lt);
    PlainInRust(e, p, pt, l, lt);
    StrippedName(Trim(pt));
    var name, lit := Grammar.StripPrefix(Trim(pt)), Str(Trim(lt));
    var w := Judge((o, x, y) => if x == Held(name) && y == Given(lit) then True else False, (ci, x, y) => Unknown, x => false);
    var go, rust := Compare(op, Property(name), Literal(lit)), Compare(op, Property(Trim(pt)), Literal(Rust.ToLit(num.rust, Trim(lt))));
    assert Go.Convert(num.go, NodeOf(e)) == Done(go) && Rust.Convert(num.rust, e) == Done(rust);
    Told(num, e, go, rust, w);
    assert Holds(w, go) == True;
    assert Holds(w, rust) == True <==> Trim(pt) == name && Rust.ToLit(num.rust, Trim(lt)) == lit;
  }

  // No character of the pattern is one that Rust translates to another.
  predicate WithoutWildcards(pattern: string, wild: char, single: char) {
    forall i | 0 <= i < |pattern| :: (pattern[i] == wild ==> wild == '%') && (pattern[i] == single && pattern[i] != wild ==> single == '_')
  }

  lemma PatternKept(pattern: string, wild: char, single: char)
    ensures Rust.LikePattern(pattern, wild, single) == pattern <==> WithoutWildcards(pattern, wild, single)
  {
    var kept := Rust.LikePattern(pattern, wild, single);
    if kept == pattern {
      assert forall i | 0 <= i < |pattern| :: kept[i] == pattern[i];
    }
  }

  /** Patterns: exactly when the property has no prefix and the pattern no wildcards, which only Rust translates. */
  lemma PatternsAgreeExactly(num: Readers, e: Item, p: Item, pt: string, l: Item, lt: string)
    requires PlainTest(e, p, pt, l, lt) && KindOf(e.name) == Likes
    ensures AlwaysAgree(num, e) <==>
            ':' !in Trim(pt) && WithoutWildcards(Trim(lt), Rust.FirstChar(e.attrs, "wildCard", '*'), Rust.FirstChar(e.attrs, "singleChar", '.'))
  {
    PlainInGo(e, p, pt, l, lt);
    PlainInRust(e, p, pt, l, lt);
    StrippedName(Trim(pt));
    var wild, single := Rust.FirstChar(e.attrs, "wildCard", '*'), Rust.FirstChar(e.attrs, "singleChar", '.');
    PatternKept(Trim(lt), wild, single);
    var name, pattern := Grammar.StripPrefix(Trim(pt)), Rust.LikePattern(Trim(lt), wild, single);
    var w := Judge((o, x, y) => Unknown, (ci, x, y) => if x == Held(name) && y == Given(Str(Trim(lt))) then True else False, x => false);
    var go, rust := Like(Property(name), Trim(lt), false, false), Like(Property(Trim(pt)), pattern, false, false);
    Told(num, e, go, rust, w);
    assert Holds(w, go) == True;
    assert Holds(w, rust) == True <==> Trim(pt) == name && pattern == Trim(lt);
  }

  /** Null tests: exactly when the property has no prefix. */
  lemma NullsAgreeExactly(num: Readers, e: Item, p: Item, pt: string)
    requires e.Element? && Rust.Elements(e.items) == [p] && Names(p, pt) && KindOf(e.name) == Nulls
    ensures AlwaysAgree(num, e) <==> ':' !in Trim(pt)
  {
    NullParts(e, p, pt);
    StrippedName(Trim(pt));
    var name := Grammar.StripPrefix(Trim(pt));
    var w := Judge((o, x, y) => Unknown, (ci, x, y) => Unknown, x => x == Held(name));
    var go, rust := IsNull(Property(name), false), IsNull(Property(Trim(pt)), false);
    Told(num, e, go, rust, w);
    assert Holds(w, go) == True;
    assert Holds(w, rust) == True <==> Trim(pt) == name;
  }

  lemma NullParts(e: Item, p: Item, pt: string)
    requires e.Element? && Rust.Elements(e.items) == [p] && Names(p, pt)
    ensures Go.PropOf(NodeOf(e).children) == Some(Grammar.StripPrefix(Trim(pt)))
    ensures Rust.PropElement(e.items) == Some(p) && Rust.TextOfElement(p) == Trim(pt)
  {
    TextOfHolding(p, pt);
    OnlyElements(e.items, "PropertyName");
    OnlyElements(e.items, "ValueReference");
    assert [p][1..] == [] && ChildrenOf([]) == [];
    assert ChildrenOf([p]) == [NodeOf(p)];
    assert Rust.Local([], "PropertyName") == None;
  }

  // A boundary that holds one literal.
  predicate Bounds(b: Item, name: string, l: Item, text: string) {
    b.Element? && b.name == name && Rust.Elements(b.items) == [l] && Holding(l, text) && l.name == "Literal"
  }

  lemma BoundaryParts(b: Item, name: string, l: Item, text: string)
    requires Bounds(b, name, l, text)
    ensures Go.FirstLiteral(NodeOf(b)) == Trim(text) && NodeOf(b).name == name
    ensures Rust.Elements(b.items) != [] && Rust.TextOfElement(Rust.Elements(b.items)[0]) == Trim(text)
  {
    TextOfHolding(l, text);
    OnlyElements(b.items, name);
    assert [l][1..] == [] && ChildrenOf([]) == [];
    assert ChildrenOf([l]) == [NodeOf(l)];
  }

  // A test of one property between two literals.
  predicate PlainRange(e: Item, p: Item, pt: string, lo: Item, x: Item, xt: string, hi: Item, y: Item, yt: string) {
    && e.Element? && Rust.Elements(e.items) == [p, lo, hi] && Names(p, pt)
    && Bounds(lo, "LowerBoundary", x, xt) && Bounds(hi, "UpperBoundary", y, yt)
  }

  lemma ChildrenOfThree(a: Item, b: Item, c: Item)
    requires a.Element? && b.Element? && c.Element?
    ensures ChildrenOf([a, b, c]) == [NodeOf(a), NodeOf(b), NodeOf(c)]
  {
    assert [a, b, c][1..] == [b, c];
    ChildrenOfPair(b, c);
  }

  lemma LocalOfThree(a: Item, b: Item, c: Item, name: string)
    requires a.Element? && b.Element? && c.Element?
    ensures Rust.Local([a, b, c], name) ==
            if a.name == name then Some(a) else if b.name == name then Some(b) else if c.name == name then Some(c) else None
  {
    assert [a, b, c][1..] == [b, c];
    LocalOfPair(b, c, name);
  }

  lemma EndsOfThree(a: Node, b: Node, c: Node)
    requires a.name == "PropertyName" || a.name == "ValueReference"
    requires b.name == "LowerBoundary" && c.name == "UpperBoundary"
    ensures Go.Ends([a, b, c], Go.Boundary) == Go.Corners(Go.FirstLiteral(b), Go.FirstLiteral(c))
  {
    assert [a, b, c][..2] == [a, b] && [a, b][..1] == [a] && [a][..0] == [];
    assert Go.Ends([a], Go.Boundary) == Go.Boundary(Go.Ends([], Go.Boundary), a) == Go.Corners("", "");
    assert Go.Ends([a, b], Go.Boundary) == Go.Boundary(Go.Ends([a], Go.Boundary), b);
  }

  lemma RangeInGo(num: Readers, e: Item, p: Item, pt: string, lo: Item, x: Item, xt: string, hi: Item, y: Item, yt: string)
    requires PlainRange(e, p, pt, lo, x, xt, hi, y, yt) && KindOf(e.name) == Ranges
    ensures Go.Convert(num.go, NodeOf(e)) ==
            Done(Between(Property(Grammar.StripPrefix(Trim(pt))), Literal(Str(Trim(xt))), Literal(Str(Trim(yt))), false))
  {
    TextOfHolding(p, pt);
    OnlyElements(e.items, "");
    ChildrenOfThree(p, lo, hi);
    BoundaryParts(lo, "LowerBoundary", x, xt);
    BoundaryParts(hi, "UpperBoundary", y, yt);
    EndsOfThree(NodeOf(p), NodeOf(lo), NodeOf(hi));
    assert Go.PropOf([NodeOf(p), NodeOf(lo), NodeOf(hi)]) == Go.PropName(NodeOf(p));
  }

  lemma LocalInRange(e: Item, p: Item, lo: Item, hi: Item, name: string)
    requires e.Element? && p.Element? && lo.Element? && hi.Element? && Rust.Elements(e.items) == [p, lo, hi]
    ensures Rust.Local(e.items, name) ==
            if p.name == name then Some(p) else if lo.name == name then Some(lo) else if hi.name == name then Some(hi) else None
  {
    OnlyElements(e.items, name);
    LocalOfThree(p, lo, hi, name);
  }

  lemma RangeInRust(num: Readers, e: Item, p: Item, pt: string, lo: Item, x: Item, xt: string, hi: Item, y: Item, yt: string)
    requires PlainRange(e, p, pt, lo, x, xt, hi, y, yt) && KindOf(e.name) == Ranges
    ensures Rust.Convert(num.rust, e) ==
            Done(Between(Property(Trim(pt)), Literal(Rust.ToLit(num.rust, Trim(xt))), Literal(Rust.ToLit(num.rust, Trim(yt))), false))
  {
    TextOfHolding(p, pt);
    BoundaryParts(lo, "LowerBoundary", x, xt);
    BoundaryParts(hi, "UpperBoundary", y, yt);
    assert Rust.PropElement(e.items) == Some(p) by {
      LocalInRange(e, p, lo, hi, "PropertyName");
      LocalInRange(e, p, lo, hi, "ValueReference");
    }
    assert Rust.BoundaryText(e.items, "LowerBoundary") == Some(Trim(xt)) by {
      LocalInRange(e, p, lo, hi, "LowerBoundary");
    }
    assert Rust.BoundaryText(e.items, "UpperBoundary") == Some(Trim(yt)) by {
      LocalInRange(e, p, lo, hi, "UpperBoundary");
    }
  }

  /** Ranges: exactly when the property has no prefix and neither bound is a number. */
  lemma RangesAgreeExactly(num: Readers, e: Item, p: Item, pt: string, lo: Item, x: Item, xt: string, hi: Item, y: Item, yt: string)
    requires PlainRange(e, p, pt, lo, x, xt, hi, y, yt) && KindOf(e.name) == Ranges
    ensures AlwaysAgree(num, e) <==> ':' !in Trim(pt) && num.rust(Trim(xt)).None? && num.rust(Trim(yt)).None?
  {
    RangeInGo(num, e, p, pt, lo, x, xt, hi, y, yt);
    RangeInRust(num, e, p, pt, lo, x, xt, hi, y, yt);
    StrippedName(Trim(pt));
    var name, a, b := Grammar.StripPrefix(Trim(pt)), Str(Trim(xt)), Str(Trim(yt));
    var a', b' := Rust.ToLit(num.rust, Trim(xt)), Rust.ToLit(num.rust, Trim(yt));
    var w := Judge((o, u, v) => if u == Held(name) && v == Given(if o == Ge then a else b) then True else False, (ci, u, v) => Unknown, u => false);
    var go := Between(Property(name), Literal(a), Literal(b), false);
    var rust := Between(Property(Trim(pt)), Literal(a'), Literal(b'), false);
    Told(num, e, go, rust, w);
    assert Holds(w, go) == True;
    assert Holds(w, rust) == True <==> Trim(pt) == name && a' == a && b' == b;
  }

  // A box of two corners on one property.
  predicate PlainBox(e: Item, p: Item, pt: string, b: Item, lo: Item, lt: string, hi: Item, ht: string) {
    && e.Element? && Rust.Elements(e.items) == [p, b] && Names(p, pt)
    && b.Element? && (b.name == "Envelope" || b.name == "Box") && Rust.Elements(b.items) == [lo, hi]
    && Holding(lo, lt) && lo.name == "lowerCorner" && Holding(hi, ht) && hi.name == "upperCorner"
  }

  // A corner of two words, each of which Go reads as a number.
  predicate TwoWords(num: Readers, text: string) {
    Go.TwoFloats(num.go, Trim(text)).Some?
  }

  predicate ReadAlike(num: Readers, text: string) {
    forall i | 0 <= i < |Fields(Trim(text))| :: num.rust(Fields(Trim(text))[i]) == num.go.scan(Fields(Trim(text))[i])
  }

  lemma CornersInGo(lo: Node, hi: Node)
    requires lo.name == "lowerCorner" && hi.name == "upperCorner"
    ensures Go.Ends([lo, hi], Go.BoxCorner) == Go.Corners(Trim(lo.text), Trim(hi.text))
  {
    assert [lo, hi][..1] == [lo] && [lo][..0] == [];
    assert Go.Ends([lo], Go.BoxCorner) == Go.BoxCorner(Go.Ends([], Go.BoxCorner), lo) == Go.Corners(Trim(lo.text), "");
  }

  lemma BoxInGo(num: Readers, e: Item, p: Item, pt: string, b: Item, lo: Item, lt: string, hi: Item, ht: string)
    requires PlainBox(e, p, pt, b, lo, lt, hi, ht)
    ensures Go.PropOf(NodeOf(e).children) == Some(Grammar.StripPrefix(Trim(pt)))
    ensures NodeOf(e).children == [NodeOf(p), NodeOf(b)]
    ensures Go.Ends(NodeOf(b).children, Go.BoxCorner) == Go.Corners(Trim(lt), Trim(ht))
  {
    TextOfHolding(p, pt);
    TextOfHolding(lo, lt);
    TextOfHolding(hi, ht);
    OnlyElements(e.items, "");
    OnlyElements(b.items, "");
    ChildrenOfPair(p, b);
    ChildrenOfPair(lo, hi);
    CornersInGo(NodeOf(lo), NodeOf(hi));
    GoPair(NodeOf(p), NodeOf(b), "");
  }

  lemma BoxOfPair(num: Go.Numbers, geom: string, p: Node, b: Node)
    requires (p.name == "PropertyName" || p.name == "ValueReference") && (b.name == "Envelope" || b.name == "Box")
    ensures Go.BoxOf(num, geom, [p, b]) == Go.BoxOf(num, geom, [b])
  {
    assert [p, b][1..] == [b];
  }

  /** What Go makes of a box. */
  lemma BoxConvertsInGo(num: Readers, e: Item, p: Item, pt: string, b: Item, lo: Item, lt: string, hi: Item, ht: string)
    requires PlainBox(e, p, pt, b, lo, lt, hi, ht) && KindOf(e.name) == Boxes
    ensures var r, x, y := Go.Convert(num.go, NodeOf(e)), Go.TwoFloats(num.go, Trim(lt)), Go.TwoFloats(num.go, Trim(ht));
            && (r.Done? <==> TwoWords(num, lt) && TwoWords(num, ht))
            && (r.Done? ==> r.value.BBox? && r.value == BBox(Grammar.StripPrefix(Trim(pt)), x.value.0, x.value.1, y.value.0, y.value.1, r.value.srs))
  {
    BoxInGo(num, e, p, pt, b, lo, lt, hi, ht);
    TextOfHolding(p, pt);
    BoxOfPair(num.go, Grammar.StripPrefix(Trim(pt)), NodeOf(p), NodeOf(b));
  }

  // The numbers of a corner in Rust, when both words are read as numbers.
  lemma WordsInRust(num: Readers, text: string)
    requires TwoWords(num, text)
    ensures var f, x, xs := Fields(Trim(text)), Go.TwoFloats(num.go, Trim(text)).value, Rust.ParsedAll(num.rust, Fields(Trim(text)));
            && |f| == 2 && (|xs| == 2 <==> num.rust(f[0]).Some? && num.rust(f[1]).Some?)
            && (|xs| == 2 ==> xs == [num.rust(f[0]).value, num.rust(f[1]).value])
            && (ReadAlike(num, text) <==> xs == [x.0, x.1])
  {
    var f := Fields(Trim(text));
    assert f[1..] == [f[1]] && f[1..][1..] == [];
    assert Rust.ParsedAll(num.rust, []) == [];
    assert Rust.ParsedAll(num.rust, f[1..]) == (match num.rust(f[1]) case Some(v) => [v] case None => []);
  }

  lemma BoxInRust(num: Readers, e: Item, p: Item, pt: string, b: Item, lo: Item, lt: string, hi: Item, ht: string)
    requires PlainBox(e, p, pt, b, lo, lt, hi, ht) && KindOf(e.name) == Boxes
    ensures var xs, ys := Rust.ParsedAll(num.rust, Fields(Trim(lt))), Rust.ParsedAll(num.rust, Fields(Trim(ht)));
            Rust.Convert(num.rust, e) == if |xs| == 2 && |ys| == 2 then Done(BBox(Trim(pt), xs[0], xs[1], ys[0], ys[1], "")) else Fail
  {
    TextOfHolding(p, pt);
    LocalIn(e, p, b, "PropertyName");
    LocalIn(e, p, b, "ValueReference");
    BoundsInRust(num.rust, b, lo, lt, hi, ht);
    FirstEnvelopeOfPair(e.items, p, b);
  }

  lemma BoundsInRust(num: Rust.Numeral, b: Item, lo: Item, lt: string, hi: Item, ht: string)
    requires b.Element? && Rust.Elements(b.items) == [lo, hi]
    requires Holding(lo, lt) && lo.name == "lowerCorner" && Holding(hi, ht) && hi.name == "upperCorner"
    ensures var xs, ys := Rust.ParsedAll(num, Fields(Trim(lt))), Rust.ParsedAll(num, Fields(Trim(ht)));
            Rust.EnvelopeBounds(num, b.items) == if |xs| == 2 && |ys| == 2 then Some(xs + ys) else None
  {
    TextOfHolding(lo, lt);
    TextOfHolding(hi, ht);
    LocalIn(b, lo, hi, "lowerCorner");
    LocalIn(b, hi, lo, "upperCorner");
    LocalIn(b, lo, hi, "coordinates");
  }

  lemma {:induction false} FirstEnvelopeOfElements(items: seq<Item>)
    ensures Rust.FirstEnvelope(Rust.Elements(items)) == Rust.FirstEnvelope(items)
  {
    if items != [] {
      FirstEnvelopeOfElements(items[1..]);
      if items[0].Element? {
        assert Rust.Elements(items)[1..] == Rust.Elements(items[1..]);
      } else {
        assert Rust.Elements(items) == Rust.Elements(items[1..]);
      }
    }
  }

  lemma FirstEnvelopeOfPair(items: seq<Item>, p: Item, b: Item)
    requires Rust.Elements(items) == [p, b] && p.Element? && b.Element?
    requires (p.name == "PropertyName" || p.name == "ValueReference") && (b.name == "Envelope" || b.name == "Box")
    ensures Rust.FirstEnvelope(items) == Some(b)
  {
    FirstEnvelopeOfElements(items);
    assert [p, b][1..] == [b];
  }

  // A database in which only this box holds.
  function JudgeBox(name: string, box: Value): World<Value> {
    Judge((o, x, y) => Unknown, (ci, x, y) => Unknown, x => false).(
      box := (a, b, c, d) => Boxed(a, b, c, d),
      overlaps := (x, y) => if x == Held(name) && y == box then True else False)
  }

  function BoxValue(b: Expr): Value
    requires b.BBox?
  {
    Boxed(Given(Num(b.minX)), Given(Num(b.minY)), Given(Num(b.maxX)), Given(Num(b.maxY)))
  }

  predicate SameBox(go: Expr, rust: Expr) {
    go.BBox? && rust.BBox? && go.geom == rust.geom && BoxValue(go) == BoxValue(rust)
  }

  lemma BoxesTold(go: Outcome<Expr>, rust: Outcome<Expr>)
    requires go.Done? && go.value.BBox? && (rust.Done? ==> rust.value.BBox?)
    ensures (forall w: World<Value> :: Agree(w, go, rust)) <==> rust.Done? && SameBox(go.value, rust.value)
  {
    var w := JudgeBox(go.value.geom, BoxValue(go.value));
    assert Holds(w, go.value) == True;
    if forall w: World<Value> :: Agree(w, go, rust) {
      assert Agree(w, go, rust);
      assert Holds(w, rust.value) == True;
    }
    if rust.Done? && SameBox(go.value, rust.value) {
      forall w: World<Value>
        ensures Agree(w, go, rust)
      {
        SameBoxHolds(w, go.value, rust.value);
      }
    }
  }

  lemma SameBoxHolds<V>(w: World<V>, go: Expr, rust: Expr)
    requires SameBox(go, rust)
    ensures Formula(go) && Formula(rust) && Holds(w, go) == Holds(w, rust)
  {
  }

  /** Boxes: exactly when Go cannot read a corner, or the property has no prefix and Rust reads all four numbers as Go does. */
  lemma BoxesAgreeExactly(num: Readers, e: Item, p: Item, pt: string, b: Item, lo: Item, lt: string, hi: Item, ht: string)
    requires PlainBox(e, p, pt, b, lo, lt, hi, ht) && KindOf(e.name) == Boxes
    ensures AlwaysAgree(num, e) <==>
            TwoWords(num, lt) && TwoWords(num, ht) ==> ':' !in Trim(pt) && ReadAlike(num, lt) && ReadAlike(num, ht)
  {
    BoxConvertsInGo(num, e, p, pt, b, lo, lt, hi, ht);
    BoxInRust(num, e, p, pt, b, lo, lt, hi, ht);
    StrippedName(Trim(pt));
    var go, rust := Go.Convert(num.go, NodeOf(e)), Rust.Convert(num.rust, e);
    if go.Done? {
      WordsInRust(num, lt);
      WordsInRust(num, ht);
      BoxesTold(go, rust);
    }
  }

  // ---- Exactly what Rust converts ----

  predicate Has(items: seq<Item>, name: string) {
    exists i | 0 <= i < |items| :: items[i].Element? && items[i].name == name
  }

  predicate HasProperty(items: seq<Item>) {
    Has(items, "PropertyName") || Has(items, "ValueReference")
  }

  // The first of these boundaries has an element inside.
  predicate HasBoundary(items: seq<Item>, name: string) {
    var b := Rust.Local(items, name);
    b.Some? && Rust.Elements(b.value.items) != []
  }

  /**
   What a filter must have for Rust to convert it: one operand of And or Or that has it, an element that has it first inside
   Not and inside a nested Filter, and the parts of each test; nothing else, and so no spatial test, converts.
   */
  predicate Readable(num: Rust.Numeral, e: Item)
    requires e.Element?
    decreases e
  {
    match KindOf(e.name)
    case Connects(_) => exists i | 0 <= i < |e.items| :: e.items[i].Element? && Readable(num, e.items[i])
    case Negates => ReadableFirst(num, e.items)
    case Filters => ReadableFirst(num, e.items)
    case Comparison(_) => HasProperty(e.items) && Has(e.items, "Literal")
    case Likes => HasProperty(e.items) && Has(e.items, "Literal")
    case Nulls => HasProperty(e.items)
    case Ranges => HasProperty(e.items) && HasBoundary(e.items, "LowerBoundary") && HasBoundary(e.items, "UpperBoundary")
    case Boxes =>
      var box := Rust.FirstEnvelope(e.items);
      box.Some? && Rust.EnvelopeBounds(num, box.value.items).Some?
    case _ => false
  }

  predicate ReadableFirst(num: Rust.Numeral, items: seq<Item>)
    decreases items
  {
    exists i | 0 <= i < |items| :: items[i].Element? && (forall j | 0 <= j < i :: !items[j].Element?) && Readable(num, items[i])
  }

  lemma {:induction false} LocalExactly(items: seq<Item>, name: string)
    ensures Rust.Local(items, name).Some? <==> Has(items, name)
  {
    if items != [] {
      LocalExactly(items[1..], name);
      if Has(items, name) && !(items[0].Element? && items[0].name == name) {
        var i :| 0 <= i < |items| && items[i].Element? && items[i].name == name;
        assert items[1..][i - 1] == items[i];
      }
      if Has(items[1..], name) {
        var i :| 0 <= i < |items[1..]| && items[1..][i].Element? && items[1..][i].name == name;
        assert items[i + 1] == items[1..][i];
      }
    }
  }

  /** Rust converts exactly these. */
  lemma {:induction false} ConvertsExactly(num: Rust.Numeral, e: Item)
    requires e.Element?
    ensures Rust.Convert(num, e).Done? <==> Readable(num, e)
    decreases e
  {
    match KindOf(e.name) {
      case Connects(_) => SomeConverts(num, e.items);
      case Negates => FirstConvertsExactly(num, e.items);
      case Filters => FirstConvertsExactly(num, e.items);
      case _ => TestConvertsExactly(num, e);
    }
  }

  lemma TestConvertsExactly(num: Rust.Numeral, e: Item)
    requires e.Element? && !KindOf(e.name).Connects? && !KindOf(e.name).Negates? && !KindOf(e.name).Filters?
    ensures Rust.Convert(num, e).Done? <==> Readable(num, e)
  {
    LocalExactly(e.items, "PropertyName");
    LocalExactly(e.items, "ValueReference");
    LocalExactly(e.items, "Literal");
  }

  lemma {:induction false} FirstConvertsExactly(num: Rust.Numeral, items: seq<Item>)
    ensures Rust.ConvertFirst(num, items).Done? <==> ReadableFirst(num, items)
    decreases items
  {
    if items != [] {
      if items[0].Element? {
        ConvertsExactly(num, items[0]);
      } else {
        FirstConvertsExactly(num, items[1..]);
        LaterFirst(num, items);
      }
    }
  }

  lemma LaterFirst(num: Rust.Numeral, items: seq<Item>)
    requires items != [] && !items[0].Element?
    ensures ReadableFirst(num, items) <==> ReadableFirst(num, items[1..])
  {
    var rest := items[1..];
    if ReadableFirst(num, items) {
      var i :| 0 <= i < |items| && items[i].Element? && (forall j | 0 <= j < i :: !items[j].Element?) && Readable(num, items[i]);
      assert rest[i - 1] == items[i];
      assert forall j | 0 <= j < i - 1 :: rest[j] == items[j + 1];
    }
    if ReadableFirst(num, rest) {
      var i :| 0 <= i < |rest| && rest[i].Element? && (forall j | 0 <= j < i :: !rest[j].Element?) && Readable(num, rest[i]);
      assert items[i + 1] == rest[i];
      assert forall j | 0 < j < i + 1 :: items[j] == rest[j - 1];
    }
  }

  lemma {:induction false} SomeConverts(num: Rust.Numeral, items: seq<Item>)
    ensures Rust.ConvertAll(num, items) != [] <==> exists i | 0 <= i < |items| :: items[i].Element? && Readable(num, items[i])
    decreases items
  {
    if items != [] {
      SomeConverts(num, items[1..]);
      if items[0].Element? {
        ConvertsExactly(num, items[0]);
      }
      assert forall i | 0 < i < |items| :: items[i] == items[1..][i - 1];
      assert forall i | 0 <= i < |items[1..]| :: items[1..][i] == items[i + 1];
    }
  }

  /** Rust drops an operand exactly when there is one it cannot read. */
  lemma {:induction false} DropsExactly(num: Rust.Numeral, items: seq<Item>)
    ensures |Rust.ConvertAll(num, items)| <= |Rust.Elements(items)|
    ensures |Rust.ConvertAll(num, items)| == |Rust.Elements(items)| <==>
            forall i | 0 <= i < |items| && items[i].Element? :: Readable(num, items[i])
  {
    if items != [] {
      DropsExactly(num, items[1..]);
      if items[0].Element? {
        ConvertsExactly(num, items[0]);
      }
      assert forall i | 1 <= i < |items| :: items[i] == items[1..][i - 1];
      assert forall i | 0 <= i < |items[1..]| :: items[1..][i] == items[i + 1];
    }
  }

  // ---- Filters that only Rust converts ----

  // On this row, either both engines accept, with the same truth, or neither does.
  predicate Match<V>(w: World<V>, a: Outcome<Expr>, b: Outcome<Expr>) {
    (b.Done? ==> a.Done?) && Agree(w, a, b)
  }

  predicate TestsMatch<V>(w: World<V>, num: Readers, e: Item)
    requires e.Element?
    decreases e
  {
    if KindOf(e.name).Connects? || KindOf(e.name).Negates? then AllTestsMatch(w, num, e.items)
    else Match(w, Go.Convert(num.go, NodeOf(e)), Rust.Convert(num.rust, e))
  }

  predicate AllTestsMatch<V>(w: World<V>, num: Readers, items: seq<Item>)
    decreases items
  {
    forall i | 0 <= i < |items| && items[i].Element? :: TestsMatch(w, num, items[i])
  }

  /** Every test can be read, And and Or have two operands or more, and Not has one. */
  predicate Complete(num: Rust.Numeral, e: Item)
    requires e.Element?
    decreases e
  {
    match KindOf(e.name)
    case Connects(_) => |Rust.Elements(e.items)| >= 2 && AllComplete(num, e.items)
    case Negates => |Rust.Elements(e.items)| == 1 && AllComplete(num, e.items)
    case _ => Readable(num, e)
  }

  predicate AllComplete(num: Rust.Numeral, items: seq<Item>)
    decreases items
  {
    forall i | 0 <= i < |items| && items[i].Element? :: Complete(num, items[i])
  }

  lemma MatchIsAgree<V>(w: World<V>, num: Readers, e: Item)
    requires e.Element? && TestsMatch(w, num, e)
    ensures TestsAgree(w, num, e)
    decreases e
  {
    if KindOf(e.name).Connects? || KindOf(e.name).Negates? {
      forall i | 0 <= i < |e.items| && e.items[i].Element?
        ensures TestsAgree(w, num, e.items[i])
      {
        MatchIsAgree(w, num, e.items[i]);
      }
    }
  }

  lemma {:induction false} AsManyChildren(items: seq<Item>)
    ensures |ChildrenOf(items)| == |Rust.Elements(items)|
  {
    if items != [] {
      AsManyChildren(items[1..]);
    }
  }

  /**
   Where the tests match, Go converts exactly the complete filters, and Rust converts all of those, with the same truth.
   So what only Rust converts are incomplete filters.
   */
  lemma {:induction false} GoConvertsComplete<V>(w: World<V>, num: Readers, e: Item)
    requires e.Element? && TestsMatch(w, num, e)
    ensures Go.Convert(num.go, NodeOf(e)).Done? <==> Complete(num.rust, e)
    ensures Complete(num.rust, e) ==> Match(w, Go.Convert(num.go, NodeOf(e)), Rust.Convert(num.rust, e))
    decreases e
  {
    MatchIsAgree(w, num, e);
    FiltersAgree(w, num, e);
    AsManyChildren(e.items);
    match KindOf(e.name) {
      case Connects(_) => GoConvertsAll(w, num, e.items);
      case Negates =>
        GoConvertsAll(w, num, e.items);
        SingleChild(num.go, e.items);
      case _ => ConvertsExactly(num.rust, e);
    }
  }

  lemma SingleChild(num: Go.Numbers, items: seq<Item>)
    requires |ChildrenOf(items)| == 1 ==> |ChildrenOf(items)| == |Rust.Elements(items)|
    ensures |ChildrenOf(items)| == 1 ==> (Go.ConvertAll(num, ChildrenOf(items)).Done? <==> Go.Convert(num, ChildrenOf(items)[0]).Done?)
  {
    if |ChildrenOf(items)| == 1 {
      assert ChildrenOf(items)[1..] == [];
    }
  }

  lemma {:induction false} GoConvertsAll<V>(w: World<V>, num: Readers, items: seq<Item>)
    requires AllTestsMatch(w, num, items)
    ensures Go.ConvertAll(num.go, ChildrenOf(items)).Done? <==> AllComplete(num.rust, items)
    decreases items
  {
    if items != [] {
      GoConvertsAll(w, num, items[1..]);
      assert AllComplete(num.rust, items) <==> (items[0].Element? ==> Complete(num.rust, items[0])) && AllComplete(num.rust, items[1..]) by {
        assert forall i | 1 <= i < |items| :: items[i] == items[1..][i - 1];
      }
      if items[0].Element? {
        GoConvertsComplete(w, num, items[0]);
        assert ChildrenOf(items)[1..] == ChildrenOf(items[1..]);
      } else {
        assert ChildrenOf(items) == ChildrenOf(items[1..]);
      }
    }
  }

  // ---- What And and Or are left with ----

  // What one operand adds to the operands of And and Or.
  function Kept(num: Rust.Numeral, e: Item): seq<Expr> {
    if e.Element? && Rust.Convert(num, e).Done? then [Rust.Convert(num, e).value] else []
  }

  lemma KeptFirst(num: Rust.Numeral, e: Item, items: seq<Item>)
    ensures Rust.ConvertAll(num, [e] + items) == Kept(num, e) + Rust.ConvertAll(num, items)
  {
    assert ([e] + items)[1..] == items;
  }

  lemma {:induction false} OnlyElementsConvert(num: Rust.Numeral, items: seq<Item>)
    ensures Rust.ConvertAll(num, Rust.Elements(items)) == Rust.ConvertAll(num, items)
  {
    if items != [] {
      OnlyElementsConvert(num, items[1..]);
      assert items == [items[0]] + items[1..];
      KeptFirst(num, items[0], items[1..]);
      if items[0].Element? {
        KeptFirst(num, items[0], Rust.Elements(items[1..]));
      } else {
        assert Kept(num, items[0]) == [];
        assert Rust.Elements(items) == Rust.Elements(items[1..]);
      }
    }
  }

  lemma KeptOfPair(num: Rust.Numeral, a: Item, b: Item)
    ensures Rust.ConvertAll(num, [a, b]) == Kept(num, a) + Kept(num, b)
  {
    assert [a, b] == [a] + [b] && [b] == [b] + [];
    KeptFirst(num, a, [b]);
    KeptFirst(num, b, []);
    assert Rust.ConvertAll(num, []) == [];
    assert Kept(num, b) + [] == Kept(num, b);
  }

  /** A spatial test is always dropped: And of it and another test is that test alone in Rust, and both in Go. */
  lemma SpatialOperandDropped<V>(w: World<V>, num: Readers, e: Item, a: Item, b: Item)
    requires e.Element? && KindOf(e.name) == Connects(And) && Rust.Elements(e.items) == [a, b] && a.Element? && b.Element?
    requires KindOf(b.name).Relation? && Go.Convert(num.go, NodeOf(b)).Done?
    requires Go.Convert(num.go, NodeOf(a)).Done? && Agree(w, Go.Convert(num.go, NodeOf(a)), Rust.Convert(num.rust, a))
    ensures var go, rust := Go.Convert(num.go, NodeOf(e)), Rust.Convert(num.rust, e);
            var x, y := Go.Convert(num.go, NodeOf(a)).value, Go.Convert(num.go, NodeOf(b)).value;
            && go.Done? && rust.Done? && Formula(go.value) && Formula(rust.value) && Formula(x) && Formula(y)
            && Holds(w, go.value) == And3(Holds(w, x), Holds(w, y)) && Holds(w, rust.value) == Holds(w, x)
  {
    GoKeepsBoth(w, num.go, e, a, b);
    RustKeepsFirst(num.rust, e, a, b);
    OneHolds(w, And, Rust.Convert(num.rust, a).value);
  }

  lemma GoKeepsBoth<V>(w: World<V>, num: Go.Numbers, e: Item, a: Item, b: Item)
    requires e.Element? && KindOf(e.name) == Connects(And) && Rust.Elements(e.items) == [a, b] && a.Element? && b.Element?
    requires Go.Convert(num, NodeOf(a)).Done? && Go.Convert(num, NodeOf(b)).Done?
    ensures var go := Go.Convert(num, NodeOf(e));
            var x, y := Go.Convert(num, NodeOf(a)).value, Go.Convert(num, NodeOf(b)).value;
            go.Done? && Formula(go.value) && Formula(x) && Formula(y) && Holds(w, go.value) == And3(Holds(w, x), Holds(w, y))
  {
    Go.ConvertIsFormula(num, NodeOf(a));
    Go.ConvertIsFormula(num, NodeOf(b));
    GoJoinsBoth(num, e, a, b);
    PairHolds(w, And, Go.Convert(num, NodeOf(a)).value, Go.Convert(num, NodeOf(b)).value);
  }

  lemma GoJoinsBoth(num: Go.Numbers, e: Item, a: Item, b: Item)
    requires e.Element? && KindOf(e.name) == Connects(And) && Rust.Elements(e.items) == [a, b] && a.Element? && b.Element?
    requires Go.Convert(num, NodeOf(a)).Done? && Go.Convert(num, NodeOf(b)).Done?
    ensures Go.Convert(num, NodeOf(e)) == Done(Logic(And, [Go.Convert(num, NodeOf(a)).value, Go.Convert(num, NodeOf(b)).value]))
  {
    var x, y := Go.Convert(num, NodeOf(a)).value, Go.Convert(num, NodeOf(b)).value;
    OnlyElements(e.items, "");
    ChildrenOfPair(a, b);
    GoConvertsPair(num, NodeOf(a), NodeOf(b));
    assert [x, y][1..] == [y];
    FoldOne(And, x, y);
  }

  lemma FoldOne(op: LogicOp, x: Expr, y: Expr)
    ensures FoldFrom(op, x, [y]) == Logic(op, [x, y])
  {
    assert [y][1..] == [];
  }

  lemma RustKeepsFirst(num: Rust.Numeral, e: Item, a: Item, b: Item)
    requires e.Element? && KindOf(e.name) == Connects(And) && Rust.Elements(e.items) == [a, b] && a.Element? && b.Element?
    requires Rust.Convert(num, a).Done? && KindOf(b.name).Relation?
    ensures Rust.Convert(num, e) == Done(Logic(And, [Rust.Convert(num, a).value]))
  {
    OnlyElementsConvert(num, e.items);
    KeptOfPair(num, a, b);
    assert Kept(num, b) == [];
    assert Rust.ConvertAll(num, e.items) == [Rust.Convert(num, a).value];
  }

  lemma GoConvertsPair(num: Go.Numbers, a: Node, b: Node)
    requires Go.Convert(num, a).Done? && Go.Convert(num, b).Done?
    ensures Go.ConvertAll(num, [a, b]) == Done([Go.Convert(num, a).value, Go.Convert(num, b).value])
  {
    var x, y := Go.Convert(num, a).value, Go.Convert(num, b).value;
    assert [a, b][1..] == [b] && [b][1..] == [];
    assert Go.ConvertAll(num, []) == Done([]);
    assert [y] + [] == [y];
    assert Go.ConvertAll(num, [b]) == Done([y]);
    assert [x] + [y] == [x, y];
  }

  lemma OneHolds<V>(w: World<V>, op: LogicOp, x: Expr)
    requires Formula(x)
    ensures Formula(Logic(op, [x])) && Holds(w, Logic(op, [x])) == Holds(w, x)
  {
    var e := Logic(op, [x]);
    assert e.exprs[0] == x;
    var xs := seq(|e.exprs|, i requires 0 <= i < |e.exprs| => Holds(w, e.exprs[i]));
    assert xs == [Holds(w, x)];
    assert xs[0] in xs;
  }

  // ---- Documents that both engines read alike ----

  predicate HoldsText(e: Item) {
    e.Element? && (e.items == [] || (|e.items| == 1 && e.items[0].Chars?))
  }

  function TextIn(e: Item): string
    requires HoldsText(e)
  {
    if e.items == [] then "" else e.items[0].text
  }

  // A property without a prefix, and a literal that is no number.

  predicate BareName(e: Item) {
    HoldsText(e) && (e.name == "PropertyName" || e.name == "ValueReference") && ':' !in Trim(TextIn(e))
  }

  predicate IsLiteral(e: Item) {
    HoldsText(e) && e.name == "Literal"
  }

  predicate WordLiteral(num: Rust.Numeral, e: Item) {
    IsLiteral(e) && num(Trim(TextIn(e))).None?
  }

  predicate WordBoundary(num: Rust.Numeral, e: Item, name: string) {
    e.Element? && e.name == name && |Rust.Elements(e.items)| == 1 && WordLiteral(num, Rust.Elements(e.items)[0])
  }

  /** A test that both engines convert to the same. */
  predicate PlainElement(num: Rust.Numeral, e: Item)
    requires e.Element?
  {
    var es := Rust.Elements(e.items);
    match KindOf(e.name)
    case Comparison(_) => PlainComparison(num, es)
    case Likes => PlainLike(e, es)
    case Nulls => |es| == 1 && BareName(es[0])
    case Ranges => PlainBounds(num, es)
    case _ => false
  }

  predicate PlainComparison(num: Rust.Numeral, es: seq<Item>) {
    |es| == 2 && ((BareName(es[0]) && WordLiteral(num, es[1])) || (WordLiteral(num, es[0]) && BareName(es[1])))
  }

  predicate PlainLike(e: Item, es: seq<Item>)
    requires e.Element?
  {
    |es| == 2 && ((BareName(es[0]) && IsLiteral(es[1]) && PlainPattern(e, es[1])) || (IsLiteral(es[0]) && PlainPattern(e, es[0]) && BareName(es[1])))
  }

  predicate PlainBounds(num: Rust.Numeral, es: seq<Item>) {
    |es| == 3 && BareName(es[0]) && WordBoundary(num, es[1], "LowerBoundary") && WordBoundary(num, es[2], "UpperBoundary")
  }

  predicate PlainPattern(e: Item, l: Item)
    requires e.Element? && IsLiteral(l)
  {
    WithoutWildcards(Trim(TextIn(l)), Rust.FirstChar(e.attrs, "wildCard", '*'), Rust.FirstChar(e.attrs, "singleChar", '.'))
  }

  /** A filter of such tests, with two operands or more to And and Or and one to Not. */
  predicate PlainFilter(num: Rust.Numeral, e: Item)
    requires e.Element?
    decreases e
  {
    match KindOf(e.name)
    case Connects(_) => |Rust.Elements(e.items)| >= 2 && AllPlain(num, e.items)
    case Negates => |Rust.Elements(e.items)| == 1 && AllPlain(num, e.items)
    case _ => PlainElement(num, e)
  }

  predicate AllPlain(num: Rust.Numeral, items: seq<Item>)
    decreases items
  {
    forall i | 0 <= i < |items| && items[i].Element? :: PlainFilter(num, items[i])
  }

  // Both engines make the same of an element, and it is a filter.
  predicate SameFilter(num: Readers, e: Item)
    requires e.Element?
  {
    var go := Go.Convert(num.go, NodeOf(e));
    go.Done? && Formula(go.value) && Rust.Convert(num.rust, e) == go
  }

  lemma HoldingText(e: Item)
    requires HoldsText(e)
    ensures Holding(e, TextIn(e))
  {
  }

  lemma PlainPairIsSame(num: Readers, e: Item, p: Item, l: Item)
    requires e.Element? && (Rust.Elements(e.items) == [p, l] || Rust.Elements(e.items) == [l, p]) && BareName(p) && IsLiteral(l)
    requires KindOf(e.name).Comparison? ==> WordLiteral(num.rust, l)
    requires KindOf(e.name).Likes? ==> PlainPattern(e, l)
    requires KindOf(e.name).Comparison? || KindOf(e.name).Likes?
    ensures SameFilter(num, e)
  {
    HoldingText(p);
    HoldingText(l);
    PlainInGo(e, p, TextIn(p), l, TextIn(l));
    PlainInRust(e, p, TextIn(p), l, TextIn(l));
    StrippedName(Trim(TextIn(p)));
    PatternKept(Trim(TextIn(l)), Rust.FirstChar(e.attrs, "wildCard", '*'), Rust.FirstChar(e.attrs, "singleChar", '.'));
  }

  lemma PlainNullIsSame(num: Readers, e: Item)
    requires e.Element? && KindOf(e.name) == Nulls && |Rust.Elements(e.items)| == 1 && BareName(Rust.Elements(e.items)[0])
    ensures SameFilter(num, e)
  {
    var p := Rust.Elements(e.items)[0];
    HoldingText(p);
    NullParts(e, p, TextIn(p));
    StrippedName(Trim(TextIn(p)));
  }

  lemma RangeIsSame(num: Readers, e: Item, p: Item, pt: string, lo: Item, x: Item, xt: string, hi: Item, y: Item, yt: string)
    requires PlainRange(e, p, pt, lo, x, xt, hi, y, yt) && KindOf(e.name) == Ranges
    requires ':' !in Trim(pt) && num.rust(Trim(xt)).None? && num.rust(Trim(yt)).None?
    ensures SameFilter(num, e)
  {
    RangeInGo(num, e, p, pt, lo, x, xt, hi, y, yt);
    RangeInRust(num, e, p, pt, lo, x, xt, hi, y, yt);
    StrippedName(Trim(pt));
  }

  lemma PlainRangeIsSame(num: Readers, e: Item)
    requires e.Element? && KindOf(e.name) == Ranges && PlainBounds(num.rust, Rust.Elements(e.items))
    ensures SameFilter(num, e)
  {
    var es := Rust.Elements(e.items);
    var p, lo, hi := es[0], es[1], es[2];
    var x, y := Rust.Elements(lo.items)[0], Rust.Elements(hi.items)[0];
    HoldingText(p);
    HoldingText(x);
    HoldingText(y);
    RangeIsSame(num, e, p, TextIn(p), lo, x, TextIn(x), hi, y, TextIn(y));
  }

  lemma PlainComparisonIsSame(num: Readers, e: Item)
    requires e.Element? && KindOf(e.name).Comparison? && PlainComparison(num.rust, Rust.Elements(e.items))
    ensures SameFilter(num, e)
  {
    var es := Rust.Elements(e.items);
    if BareName(es[0]) {
      PlainPairIsSame(num, e, es[0], es[1]);
    } else {
      PlainPairIsSame(num, e, es[1], es[0]);
    }
  }

  lemma PlainLikeIsSame(num: Readers, e: Item)
    requires e.Element? && KindOf(e.name) == Likes && PlainLike(e, Rust.Elements(e.items))
    ensures SameFilter(num, e)
  {
    var es := Rust.Elements(e.items);
    if BareName(es[0]) {
      PlainPairIsSame(num, e, es[0], es[1]);
    } else {
      PlainPairIsSame(num, e, es[1], es[0]);
    }
  }

  lemma PlainIsSame(num: Readers, e: Item)
    requires e.Element? && PlainElement(num.rust, e)
    ensures SameFilter(num, e)
  {
    match KindOf(e.name) {
      case Nulls => PlainNullIsSame(num, e);
      case Ranges => PlainRangeIsSame(num, e);
      case Comparison(_) => PlainComparisonIsSame(num, e);
      case Likes => PlainLikeIsSame(num, e);
      case _ =>
    }
  }

  lemma {:induction false} PlainTestsMatch<V>(w: World<V>, num: Readers, e: Item)
    requires e.Element? && PlainFilter(num.rust, e)
    ensures TestsMatch(w, num, e) && Complete(num.rust, e)
    decreases e
  {
    if KindOf(e.name).Connects? || KindOf(e.name).Negates? {
      forall i | 0 <= i < |e.items| && e.items[i].Element?
        ensures TestsMatch(w, num, e.items[i]) && Complete(num.rust, e.items[i])
      {
        PlainTestsMatch(w, num, e.items[i]);
      }
    } else {
      PlainIsSame(num, e);
      ConvertsExactly(num.rust, e);
    }
  }

  /** A document whose filter is plain is read by both engines, and with the same truth in every database and on every row. */
  lemma PlainDocumentsAgree<V>(w: World<V>, num: Readers, root: Item)
    requires root.Element? && root.name == "Filter" && Rust.Elements(root.items) != [] && PlainFilter(num.rust, Rust.Elements(root.items)[0])
    ensures var go, rust := Go.ParseFilter(num.go, Done(NodeOf(root))), Rust.ParseFilter(num.rust, root);
            go.Done? && rust.Done? && Formula(go.value) && Formula(rust.value) && Holds(w, go.value) == Holds(w, rust.value)
  {
    var e := Rust.Elements(root.items)[0];
    PlainTestsMatch(w, num, e);
    GoConvertsComplete(w, num, e);
    FirstConverts(num.rust, root.items);
    OnlyElements(root.items, "");
    FirstChild(Rust.Elements(root.items));
  }

  lemma FirstChild(es: seq<Item>)
    requires es != [] && es[0].Element?
    ensures ChildrenOf(es) != [] && ChildrenOf(es)[0] == NodeOf(es[0])
  {
  }

  lemma {:induction false} FirstConverts(num: Rust.Numeral, items: seq<Item>)
    ensures Rust.Elements(items) != [] ==> Rust.ConvertFirst(num, items) == Rust.Convert(num, Rust.Elements(items)[0])
  {
    if items != [] && !items[0].Element? {
      FirstConverts(num, items[1..]);
    }
  }
}

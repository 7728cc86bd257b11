/** The Go converter from decoded filter XML to the filter tree. */
module GoFilterXml {
  import opened Outcomes
  import opened FilterAst
  import opened SqlTrees
  import opened XmlTree
  import opened XmlLogic
  import opened FilterElements
  import opened Whitespace
  import G = CqlGrammar
  import C = SqlCompiler

  // How numbers in element text are read, and how coordinates are written.
  datatype Numbers = Numbers(scan: string -> Option<Float>, show: Float -> string)

  // ---- Properties and literals ----

  function PropName(n: Node): Option<string> {
    if n.name == "PropertyName" || n.name == "ValueReference" then Some(G.StripPrefix(Trim(n.text))) else None
  }

  /** The property named first among some elements. */
  function PropOf(ns: seq<Node>): Option<string> {
    if ns == [] then None else if PropName(ns[0]).Some? then PropName(ns[0]) else PropOf(ns[1..])
  }

  /** The text of the first of some elements with this name. */
  function TextNamed(ns: seq<Node>, name: string): Option<string> {
    if ns == [] then None else if ns[0].name == name then Some(Trim(ns[0].text)) else TextNamed(ns[1..], name)
  }

  function LiteralText(n: Node): string {
    match TextNamed(n.children, "Literal")
    case Some(text) => text
    case None => ""
  }

  // The text of a literal inside the element, or else its own.
  function FirstLiteral(n: Node): string {
    match TextNamed(n.children, "Literal")
    case Some(text) => text
    case None => Trim(n.text)
  }

  // ---- Coordinates ----

  datatype Corners = Corners(lower: string, upper: string)

  function TwoFloats(num: Numbers, s: string): Option<(Float, Float)> {
    var f := Fields(s);
    if |f| != 2 || num.scan(f[0]).None? || num.scan(f[1]).None? then None
    else Some((num.scan(f[0]).value, num.scan(f[1]).value))
  }

  /** What an element between LowerBoundary and UpperBoundary, or of a box, changes about the two ends found before. */
  function Boundary(c: Corners, n: Node): Corners {
    if n.name == "LowerBoundary" then c.(lower := FirstLiteral(n))
    else if n.name == "UpperBoundary" then c.(upper := FirstLiteral(n))
    else c
  }

  function Corner(c: Corners, n: Node): Corners {
    if n.name == "lowerCorner" then c.(lower := Trim(n.text))
    else if n.name == "upperCorner" then c.(upper := Trim(n.text))
    else c
  }

  function BoxCorner(c: Corners, n: Node): Corners {
    if n.name == "coordinates" then
      var pts := Fields(Trim(n.text));
      if |pts| == 2 then Corners(Replace(pts[0], ',', ' '), Replace(pts[1], ',', ' ')) else c
    else Corner(c, n)
  }

  function Ends(ns: seq<Node>, end: (Corners, Node) -> Corners): Corners {
    if ns == [] then Corners("", "") else end(Ends(ns[..|ns| - 1], end), ns[|ns| - 1])
  }

  function FloatsOf(num: Numbers, c: Corners): Option<(Float, Float, Float, Float)> {
    var lower, upper := TwoFloats(num, c.lower), TwoFloats(num, c.upper);
    if lower.None? || upper.None? then None else Some((lower.value.0, lower.value.1, upper.value.0, upper.value.1))
  }

  // ---- Geometries ----

  function PointCoords(num: Numbers, ns: seq<Node>): Option<(Float, Float)> {
    if ns == [] then None
    else if ns[0].name == "pos" then TwoFloats(num, Trim(ns[0].text))
    else if ns[0].name == "coordinates" then TwoFloats(num, Replace(Trim(ns[0].text), ',', ' '))
    else PointCoords(num, ns[1..])
  }

  /** The text of the last coordinate list in a tree, or `text` when there is none. */
  function RingText(n: Node, text: string): string
    decreases n
  {
    RingTextOfAll(n.children, if n.name == "posList" || n.name == "coordinates" then Trim(n.text) else text)
  }

  function RingTextOfAll(ns: seq<Node>, text: string): string
    decreases ns
  {
    if ns == [] then text else RingTextOfAll(ns[1..], RingText(ns[0], text))
  }

  function Pairs(nums: seq<string>): seq<string> {
    if |nums| < 2 then [] else [nums[0] + " " + nums[1]] + Pairs(nums[2..])
  }

  function Spaced(pairs: seq<string>): seq<string> {
    seq(|pairs|, i requires 0 <= i < |pairs| => Replace(pairs[i], ',', ' '))
  }

  function RingPoints(text: string): string {
    C.Join(if ',' in text then Spaced(Fields(text)) else Pairs(Fields(text)), ", ")
  }

  function Point(num: Numbers, x: Float, y: Float): string {
    num.show(x) + " " + num.show(y)
  }

  /** The geometry an element stands for as text: a point, a polygon or an envelope. */
  function WktOf(num: Numbers, n: Node): Option<string> {
    match n.name
    case "Point" =>
      (match PointCoords(num, n.children)
       case Some((x, y)) => Some("POINT(" + Point(num, x, y) + ")")
       case None => None)
    case "Polygon" =>
      var text := RingText(n, "");
      if text == "" then None else Some("POLYGON((" + RingPoints(text) + "))")
    case "Envelope" =>
      (match FloatsOf(num, Ends(n.children, Corner))
       case Some((lx, ly, ux, uy)) =>
         Some("POLYGON((" + C.Join([Point(num, lx, ly), Point(num, ux, ly), Point(num, ux, uy), Point(num, lx, uy), Point(num, lx, ly)], ", ") + "))")
       case None => None)
    case _ => None
  }

  function FirstWkt(num: Numbers, ns: seq<Node>): Option<string> {
    if ns == [] then None else if WktOf(num, ns[0]).Some? then WktOf(num, ns[0]) else FirstWkt(num, ns[1..])
  }

  // ---- Filters ----

  /** A box with its reference system, from the first Envelope or Box. */
  function BoxOf(num: Numbers, geom: string, ns: seq<Node>): Outcome<Expr> {
    if ns == [] then Fail
    else if ns[0].name == "Envelope" || ns[0].name == "Box" then
      match FloatsOf(num, Ends(ns[0].children, BoxCorner))
      case None => Fail
      case Some((lx, ly, ux, uy)) => Done(BBox(geom, lx, ly, ux, uy, if "srsName" in ns[0].attrs then ns[0].attrs["srsName"] else ""))
    else BoxOf(num, geom, ns[1..])
  }

  /** A filter element that tests one property. */
  function ConvertTest(num: Numbers, kind: Kind, n: Node): Outcome<Expr> {
    match PropOf(n.children)
    case None => Fail
    case Some(name) =>
      match kind
      case Comparison(op) => Done(Compare(op, Property(name), Literal(Str(LiteralText(n)))))
      case Relation(rel) =>
        (match FirstWkt(num, n.children)
         case Some(wkt) => Done(Spatial(rel, name, wkt))
         case None => Fail)
      case Likes => Done(Like(Property(name), LiteralText(n), false, false))
      case Nulls => Done(IsNull(Property(name), false))
      case Ranges =>
        var ends := Ends(n.children, Boundary);
        Done(Between(Property(name), Literal(Str(ends.lower)), Literal(Str(ends.upper)), false))
      case Boxes => BoxOf(num, name, n.children)
      case _ => Fail
  }

  /** What an element converts to, if every element inside it does. */
  function Convert(num: Numbers, n: Node): Outcome<Expr>
    decreases n
  {
    var kind := KindOf(n.name);
    match kind
    case Connects(op) =>
      var es :- ConvertAll(num, n.children);
      if |es| < 2 then Fail else Done(FoldFrom(op, es[0], es[1..]))
    case Negates =>
      if |n.children| != 1 then Fail
      else
        var e :- Convert(num, n.children[0]);
        Done(Not(e))
    case _ => ConvertTest(num, kind, n)
  }

  function ConvertAll(num: Numbers, ns: seq<Node>): (r: Outcome<seq<Expr>>)
    ensures r.Done? ==> |r.value| == |ns|
    decreases ns
  {
    if ns == [] then Done([])
    else
      var e :- Convert(num, ns[0]);
      var es :- ConvertAll(num, ns[1..]);
      Done([e] + es)
  }

  lemma Assoc<T>(a: seq<T>, b: seq<T>, c: seq<T>)
    ensures a + b + c == a + (b + c)
  {
  }

  lemma {:induction false} ConvertAllSnoc(num: Numbers, ns: seq<Node>, n: Node)
    ensures ConvertAll(num, ns + [n]) ==
      if ConvertAll(num, ns).Fail? || Convert(num, n).Fail? then Fail else Done(ConvertAll(num, ns).value + [Convert(num, n).value])
    decreases |ns|
  {
    if ns == [] {
      assert ([] + [n])[1..] == [] && ConvertAll(num, []) == Done([]);
      assert Convert(num, n).Done? ==> [Convert(num, n).value] + [] == [] + [Convert(num, n).value];
    } else {
      assert (ns + [n])[1..] == ns[1..] + [n];
      ConvertAllSnoc(num, ns[1..], n);
      if ConvertAll(num, ns).Done? && Convert(num, n).Done? {
        Assoc([Convert(num, ns[0]).value], ConvertAll(num, ns[1..]).value, [Convert(num, n).value]);
      }
    }
  }

  lemma {:induction false} ConvertAllPrefix(num: Numbers, ns: seq<Node>, i: nat)
    requires i <= |ns| && ConvertAll(num, ns[..i]).Fail?
    ensures ConvertAll(num, ns).Fail?
    decreases |ns| - i
  {
    if i < |ns| {
      assert ns[..i + 1] == ns[..i] + [ns[i]];
      ConvertAllSnoc(num, ns[..i], ns[i]);
      ConvertAllPrefix(num, ns, i + 1);
    } else {
      assert ns[..i] == ns;
    }
  }

  /** Later elements overwrite what earlier ones said about an end. */
  method FindEnds(ns: seq<Node>, end: (Corners, Node) -> Corners) returns (c: Corners)
    ensures c == Ends(ns, end)
  {
    c := Corners("", "");
    for i := 0 to |ns|
      invariant c == Ends(ns[..i], end)
    {
      assert ns[..i + 1][..i] == ns[..i];
      c := end(c, ns[i]);
    }
    assert ns[..|ns|] == ns;
  }

  method ConvertBox(num: Numbers, geom: string, ns: seq<Node>) returns (r: Outcome<Expr>)
    ensures r == BoxOf(num, geom, ns)
  {
    for i := 0 to |ns|
      invariant BoxOf(num, geom, ns[i..]) == BoxOf(num, geom, ns)
    {
      assert ns[i..][0] == ns[i] && ns[i..][1..] == ns[i + 1..];
      if ns[i].name == "Envelope" || ns[i].name == "Box" {
        var ends := FindEnds(ns[i].children, BoxCorner);
        var corners := FloatsOf(num, ends);
        if corners.None? {
          return Fail;
        }
        var (lx, ly, ux, uy) := corners.value;
        return Done(BBox(geom, lx, ly, ux, uy, if "srsName" in ns[i].attrs then ns[i].attrs["srsName"] else ""));
      }
    }
    assert ns[|ns|..] == [];
    return Fail;
  }

  method ConvertSpatial(num: Numbers, rel: SpatialOp, geom: string, ns: seq<Node>) returns (r: Outcome<Expr>)
    ensures r == match FirstWkt(num, ns) case Some(wkt) => Done(Spatial(rel, geom, wkt)) case None => Fail
  {
    for i := 0 to |ns|
      invariant FirstWkt(num, ns[i..]) == FirstWkt(num, ns)
    {
      assert ns[i..][0] == ns[i] && ns[i..][1..] == ns[i + 1..];
      var wkt := WktOf(num, ns[i]);
      if wkt.Some? {
        return Done(Spatial(rel, geom, wkt.value));
      }
    }
    assert ns[|ns|..] == [];
    return Fail;
  }

  method ConvertTestNode(num: Numbers, kind: Kind, n: Node) returns (r: Outcome<Expr>)
    ensures r == ConvertTest(num, kind, n)
  {
    var prop := PropOf(n.children);
    if prop.None? {
      return Fail;
    }
    match kind {
      case Comparison(op) =>
        return Done(Compare(op, Property(prop.value), Literal(Str(LiteralText(n)))));
      case Relation(rel) =>
        r := ConvertSpatial(num, rel, prop.value, n.children);
      case Likes =>
        return Done(Like(Property(prop.value), LiteralText(n), false, false));
      case Nulls =>
        return Done(IsNull(Property(prop.value), false));
      case Ranges =>
        var ends := FindEnds(n.children, Boundary);
        return Done(Between(Property(prop.value), Literal(Str(ends.lower)), Literal(Str(ends.upper)), false));
      case Boxes =>
        r := ConvertBox(num, prop.value, n.children);
      case _ =>
        return Fail;
    }
  }

  /** The converter: operands one by one, then folded from the left. */
  method ConvertNode(num: Numbers, n: Node) returns (r: Outcome<Expr>)
    ensures r == Convert(num, n)
    decreases n
  {
    var kind := KindOf(n.name);
    match kind {
      case Connects(op) =>
        var exprs: seq<Expr> := [];
        for i := 0 to |n.children|
          invariant ConvertAll(num, n.children[..i]) == Done(exprs)
        {
          assert n.children[..i + 1] == n.children[..i] + [n.children[i]];
          ConvertAllSnoc(num, n.children[..i], n.children[i]);
          var e := ConvertNode(num, n.children[i]);
          if e.Fail? {
            ConvertAllPrefix(num, n.children, i + 1);
            return Fail;
          }
          exprs := exprs + [e.value];
        }
        assert n.children[..|n.children|] == n.children;
        if |exprs| < 2 {
          return Fail;
        }
        var acc := Fold(op, exprs);
        return Done(acc);
      case Negates =>
        if |n.children| != 1 {
          return Fail;
        }
        var e :- ConvertNode(num, n.children[0]);
        return Done(Not(e));
      case _ =>
        r := ConvertTestNode(num, kind, n);
    }
  }

  method Fold(op: LogicOp, exprs: seq<Expr>) returns (acc: Expr)
    requires |exprs| >= 2
    ensures acc == FoldFrom(op, exprs[0], exprs[1..])
  {
    acc := Logic(op, [exprs[0], exprs[1]]);
    assert exprs[1..][1..] == exprs[2..];
    for j := 2 to |exprs|
      invariant FoldFrom(op, acc, exprs[j..]) == FoldFrom(op, exprs[0], exprs[1..])
    {
      assert exprs[j..][0] == exprs[j] && exprs[j..][1..] == exprs[j + 1..];
      acc := Logic(op, [acc, exprs[j]]);
    }
  }

  /** The filter of a document whose root is a Filter element: its first element. */
  function ParseFilter(num: Numbers, root: Outcome<Node>): Outcome<Expr> {
    if root.Fail? || root.value.name != "Filter" || root.value.children == [] then Fail
    else Convert(num, root.value.children[0])
  }

  // ---- What is converted is a filter ----

  lemma {:induction false} ConvertIsFormula(num: Numbers, n: Node)
    ensures Convert(num, n).Done? ==> Formula(Convert(num, n).value)
    decreases n
  {
    match KindOf(n.name) {
      case Connects(op) =>
        ConvertAllAreFormulas(num, n.children);
        var es := ConvertAll(num, n.children);
        if es.Done? && |es.value| >= 2 {
          FoldIsFormula(op, es.value[0], es.value[1..]);
        }
      case Negates =>
        if |n.children| == 1 {
          ConvertIsFormula(num, n.children[0]);
        }
      case Boxes => BoxIsFormula(num, n);
      case _ =>
    }
  }

  lemma {:induction false} BoxIsFormula(num: Numbers, n: Node)
    ensures ConvertTest(num, Boxes, n).Done? ==> Formula(ConvertTest(num, Boxes, n).value)
  {
    if PropOf(n.children).Some? {
      BoxIsBox(num, PropOf(n.children).value, n.children);
    }
  }

  lemma {:induction false} BoxIsBox(num: Numbers, geom: string, ns: seq<Node>)
    ensures BoxOf(num, geom, ns).Done? ==> BoxOf(num, geom, ns).value.BBox?
  {
    if ns != [] {
      BoxIsBox(num, geom, ns[1..]);
    }
  }

  lemma {:induction false} ConvertAllAreFormulas(num: Numbers, ns: seq<Node>)
    ensures ConvertAll(num, ns).Done? ==> AllFormulas(ConvertAll(num, ns).value)
    decreases ns
  {
    if ns != [] {
      ConvertIsFormula(num, ns[0]);
      ConvertAllAreFormulas(num, ns[1..]);
    }
  }

  // ---- Writing a filter out and reading it back ----

  /** Elements with children have only blank text of their own. */
  predicate BlankBetween(n: Node)
    decreases n
  {
    (n.children == [] || IsBlank(n.text)) && AllBlankBetween(n.children)
  }

  predicate AllBlankBetween(ns: seq<Node>)
    decreases ns
  {
    forall i | 0 <= i < |ns| :: BlankBetween(ns[i])
  }

  lemma SameText(n: Node)
    requires BlankBetween(n)
    ensures Trim(Stripped(n).text) == Trim(n.text)
  {
    TrimmedAway(n.text);
  }

  lemma {:induction false} SameProp(ns: seq<Node>)
    requires AllBlankBetween(ns)
    ensures PropOf(StrippedAll(ns)) == PropOf(ns)
  {
    if ns != [] {
      SameText(ns[0]);
      assert StrippedAll(ns)[1..] == StrippedAll(ns[1..]);
      SameProp(ns[1..]);
    }
  }

  lemma {:induction false} SameNamed(ns: seq<Node>, name: string)
    requires AllBlankBetween(ns)
    ensures TextNamed(StrippedAll(ns), name) == TextNamed(ns, name)
  {
    if ns != [] {
      SameText(ns[0]);
      assert StrippedAll(ns)[1..] == StrippedAll(ns[1..]);
      SameNamed(ns[1..], name);
    }
  }

  /** The one place where an element's own text is used although it has children. */
  lemma SameLiteral(n: Node)
    requires BlankBetween(n)
    ensures LiteralText(Stripped(n)) == LiteralText(n) && FirstLiteral(Stripped(n)) == FirstLiteral(n)
  {
    SameNamed(n.children, "Literal");
    SameText(n);
  }

  lemma {:induction false} StrippedLength(ns: seq<Node>)
    ensures |StrippedAll(ns)| == |ns|
  {
    if ns != [] {
      StrippedLength(ns[1..]);
    }
  }

  lemma {:induction false} StrippedSnoc(ns: seq<Node>, n: Node)
    ensures StrippedAll(ns + [n]) == StrippedAll(ns) + [Stripped(n)]
  {
    if ns == [] {
      assert ([] + [n])[1..] == [] && StrippedAll([]) == [];
    } else {
      assert (ns + [n])[1..] == ns[1..] + [n];
      StrippedSnoc(ns[1..], n);
    }
  }

  // The ends do not depend on text between elements.
  ghost predicate IgnoresText(end: (Corners, Node) -> Corners) {
    forall c, n | BlankBetween(n) :: end(c, Stripped(n)) == end(c, n)
  }

  lemma {:induction false} SameEnds(ns: seq<Node>, end: (Corners, Node) -> Corners)
    requires AllBlankBetween(ns) && IgnoresText(end)
    ensures Ends(StrippedAll(ns), end) == Ends(ns, end)
    decreases |ns|
  {
    if ns != [] {
      var front, last := ns[..|ns| - 1], ns[|ns| - 1];
      assert ns == front + [last];
      StrippedSnoc(front, last);
      assert StrippedAll(ns)[..|StrippedAll(ns)| - 1] == StrippedAll(front);
      SameEnds(front, end);
    }
  }

  lemma EndsIgnoreText()
    ensures IgnoresText(Boundary) && IgnoresText(Corner) && IgnoresText(BoxCorner)
  {
    forall c: Corners, n: Node | BlankBetween(n)
      ensures Boundary(c, Stripped(n)) == Boundary(c, n) && Corner(c, Stripped(n)) == Corner(c, n) && BoxCorner(c, Stripped(n)) == BoxCorner(c, n)
    {
      SameLiteral(n);
      SameText(n);
    }
  }

  lemma {:induction false} SamePoint(num: Numbers, ns: seq<Node>)
    requires AllBlankBetween(ns)
    ensures PointCoords(num, StrippedAll(ns)) == PointCoords(num, ns)
  {
    if ns != [] {
      SameText(ns[0]);
      assert StrippedAll(ns)[1..] == StrippedAll(ns[1..]);
      SamePoint(num, ns[1..]);
    }
  }

  lemma {:induction false} SameRing(n: Node, text: string)
    requires BlankBetween(n)
    ensures RingText(Stripped(n), text) == RingText(n, text)
    decreases n
  {
    SameText(n);
    SameRings(n.children, if n.name == "posList" || n.name == "coordinates" then Trim(n.text) else text);
  }

  lemma {:induction false} SameRings(ns: seq<Node>, text: string)
    requires AllBlankBetween(ns)
    ensures RingTextOfAll(StrippedAll(ns), text) == RingTextOfAll(ns, text)
    decreases ns
  {
    if ns != [] {
      SameRing(ns[0], text);
      assert StrippedAll(ns)[1..] == StrippedAll(ns[1..]);
      SameRings(ns[1..], RingText(ns[0], text));
    }
  }

  lemma SameWkt(num: Numbers, n: Node)
    requires BlankBetween(n)
    ensures WktOf(num, Stripped(n)) == WktOf(num, n)
  {
    SamePoint(num, n.children);
    SameRing(n, "");
    EndsIgnoreText();
    SameEnds(n.children, Corner);
  }

  lemma {:induction false} SameFirstWkt(num: Numbers, ns: seq<Node>)
    requires AllBlankBetween(ns)
    ensures FirstWkt(num, StrippedAll(ns)) == FirstWkt(num, ns)
  {
    if ns != [] {
      SameWkt(num, ns[0]);
      assert StrippedAll(ns)[1..] == StrippedAll(ns[1..]);
      SameFirstWkt(num, ns[1..]);
    }
  }

  lemma {:induction false} SameBox(num: Numbers, geom: string, ns: seq<Node>)
    requires AllBlankBetween(ns)
    ensures BoxOf(num, geom, StrippedAll(ns)) == BoxOf(num, geom, ns)
  {
    if ns != [] {
      EndsIgnoreText();
      SameEnds(ns[0].children, BoxCorner);
      assert StrippedAll(ns)[1..] == StrippedAll(ns[1..]);
      SameBox(num, geom, ns[1..]);
    }
  }

  lemma SameTest(num: Numbers, kind: Kind, n: Node)
    requires BlankBetween(n)
    ensures ConvertTest(num, kind, Stripped(n)) == ConvertTest(num, kind, n)
  {
    SameProp(n.children);
    match kind {
      case Comparison(_) => SameLiteral(n);
      case Likes => SameLiteral(n);
      case Relation(_) => SameFirstWkt(num, n.children);
      case Ranges =>
        EndsIgnoreText();
        SameEnds(n.children, Boundary);
      case Boxes =>
        if PropOf(n.children).Some? {
          SameBox(num, PropOf(n.children).value, n.children);
        }
      case _ =>
    }
  }

  /** Losing blank text between elements does not change what a filter converts to. */
  lemma {:induction false} StrippedConverts(num: Numbers, n: Node)
    requires BlankBetween(n)
    ensures Convert(num, Stripped(n)) == Convert(num, n)
    decreases n
  {
    match KindOf(n.name) {
      case Connects(_) => StrippedConvertAll(num, n.children);
      case Negates =>
        StrippedLength(n.children);
        if |n.children| == 1 {
          StrippedConverts(num, n.children[0]);
        }
      case _ => SameTest(num, KindOf(n.name), n);
    }
  }

  lemma {:induction false} StrippedConvertAll(num: Numbers, ns: seq<Node>)
    requires AllBlankBetween(ns)
    ensures |StrippedAll(ns)| == |ns| && ConvertAll(num, StrippedAll(ns)) == ConvertAll(num, ns)
    decreases ns
  {
    if ns != [] {
      StrippedConverts(num, ns[0]);
      assert StrippedAll(ns)[1..] == StrippedAll(ns[1..]);
      StrippedConvertAll(num, ns[1..]);
    }
  }

  /** So a Filter element written out and read back is the same filter, when text between elements is blank. */
  lemma ReserializedFilter(num: Numbers, n: Node)
    requires BlankBetween(n)
    ensures ParseFilter(num, Result(FeedAll(EMPTY, EventsOf(Reserialized(n))))) == ParseFilter(num, Done(n))
  {
    ReserializeThenDecode(n);
    if n.children != [] {
      StrippedConverts(num, n.children[0]);
    }
  }

  function BetweenNode(lower: Node): Node {
    Node("PropertyIsBetween", map[], [Node("PropertyName", map[], [], "p"), lower], "")
  }

  function Lower(text: string): Node {
    Node("LowerBoundary", map[], [Node("Function", map[], [], "")], text)
  }

  /** Without that it need not be: a lower boundary with text before its first element loses it. */
  lemma MixedTextIsLost(num: Numbers)
    ensures Convert(num, Stripped(BetweenNode(Lower("5")))) != Convert(num, BetweenNode(Lower("5")))
  {
    var prop := Node("PropertyName", map[], [], "p");
    StrippedPair(prop, Lower("5"));
    StrippedOne(Node("Function", map[], [], ""));
    assert Stripped(BetweenNode(Lower("5"))) == BetweenNode(Lower(""));
    LowerIs(num, "5");
    LowerIs(num, "");
    assert Trim("5") == "5" && Trim("") == "";
  }

  lemma LowerIs(num: Numbers, text: string)
    ensures Convert(num, BetweenNode(Lower(text))).Done?
    ensures Convert(num, BetweenNode(Lower(text))).value.lo == Literal(Str(Trim(text)))
  {
    var prop := Node("PropertyName", map[], [], "p");
    LastEnd(prop, Lower(text));
    assert TextNamed([Node("Function", map[], [], "")], "Literal") == None;
    assert PropName(prop).Some?;
  }

  lemma StrippedOne(a: Node)
    ensures StrippedAll([a]) == [Stripped(a)]
  {
    assert [a][1..] == [] && StrippedAll([]) == [];
  }

  lemma StrippedPair(a: Node, b: Node)
    ensures StrippedAll([a, b]) == [Stripped(a), Stripped(b)]
  {
    assert [a, b][1..] == [b];
    StrippedOne(b);
  }

  lemma LastEnd(a: Node, b: Node)
    ensures Ends([a, b], Boundary) == Boundary(Boundary(Corners("", ""), a), b)
  {
    assert [a, b][..1] == [a] && [a][..0] == [];
    assert Ends([a], Boundary) == Boundary(Ends([], Boundary), a);
  }
}

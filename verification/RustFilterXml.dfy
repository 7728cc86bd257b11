/** The Rust converter, from filter XML as its document tree has it to the filter tree. */
module RustFilterXml {
  import opened Outcomes
  import opened FilterAst
  import opened XmlTree
  import opened FilterElements
  import opened Whitespace

  // How a numeral is read.
  type Numeral = string -> Option<Float>

  // ---- Elements ----

  function Elements(items: seq<Item>): (es: seq<Item>)
    ensures forall i | 0 <= i < |es| :: es[i].Element? && es[i] in items
  {
    if items == [] then [] else (if items[0].Element? then [items[0]] else []) + Elements(items[1..])
  }

  function Local(items: seq<Item>, name: string): (r: Option<Item>)
    ensures r.Some? ==> r.value.Element?
  {
    if items == [] then None
    else if items[0].Element? && items[0].name == name then Some(items[0])
    else Local(items[1..], name)
  }

  function LocalEither(items: seq<Item>, name: string, other: string): (r: Option<Item>)
    ensures r.Some? ==> r.value.Element?
  {
    if Local(items, name).Some? then Local(items, name) else Local(items, other)
  }

  // The text of an element is its first child, when that is text.
  function TextOfElement(e: Item): string
    requires e.Element?
  {
    if e.items != [] && e.items[0].Chars? then Trim(e.items[0].text) else ""
  }

  function PropElement(items: seq<Item>): (r: Option<Item>)
    ensures r.Some? ==> r.value.Element?
  {
    LocalEither(items, "PropertyName", "ValueReference")
  }

  function ToLit(num: Numeral, s: string): Lit {
    match num(s)
    case Some(v) => Num(v)
    case None => Str(s)
  }

  // ---- Boxes ----

  function ParsedAll(num: Numeral, words: seq<string>): seq<Float> {
    if words == [] then []
    else (match num(words[0]) case Some(v) => [v] case None => []) + ParsedAll(num, words[1..])
  }

  function SplitAt(s: string, stop: char -> bool): (r: seq<string>)
    ensures r != []
    decreases |s|
  {
    var n := Until(s, stop);
    if n == |s| then [s] else [s[..n]] + SplitAt(s[n + 1..], stop)
  }

  function TrimAll(words: seq<string>): seq<string> {
    seq(|words|, i requires 0 <= i < |words| => Trim(words[i]))
  }

  function CornerBounds(num: Numeral, items: seq<Item>): Option<seq<Float>> {
    var lower, upper := Local(items, "lowerCorner"), Local(items, "upperCorner");
    if lower.None? || upper.None? then None
    else
      var lo, hi := ParsedAll(num, Fields(TextOfElement(lower.value))), ParsedAll(num, Fields(TextOfElement(upper.value)));
      if |lo| == 2 && |hi| == 2 then Some(lo + hi) else None
  }

  function CoordinateBounds(num: Numeral, items: seq<Item>): Option<seq<Float>> {
    match Local(items, "coordinates")
    case None => None
    case Some(e) =>
      var pts := ParsedAll(num, TrimAll(SplitAt(TextOfElement(e), c => c == ',' || c == ' ')));
      if |pts| == 4 then Some(pts) else None
  }

  function EnvelopeBounds(num: Numeral, items: seq<Item>): (r: Option<seq<Float>>)
    ensures r.Some? ==> |r.value| == 4
  {
    if CornerBounds(num, items).Some? then CornerBounds(num, items) else CoordinateBounds(num, items)
  }

  function FirstEnvelope(items: seq<Item>): (r: Option<Item>)
    ensures r.Some? ==> r.value.Element?
  {
    if items == [] then None
    else if items[0].Element? && (items[0].name == "Envelope" || items[0].name == "Box") then Some(items[0])
    else FirstEnvelope(items[1..])
  }

  /** A box; its property may be missing, and its reference system is not kept. */
  function BoxOf(num: Numeral, items: seq<Item>): Outcome<Expr> {
    var geom := match PropElement(items) case Some(e) => TextOfElement(e) case None => "";
    match FirstEnvelope(items)
    case None => Fail
    case Some(e) =>
      match EnvelopeBounds(num, e.items)
      case None => Fail
      case Some(b) => Done(BBox(geom, b[0], b[1], b[2], b[3], ""))
  }

  // ---- Tests on a property ----

  function FirstChar(attrs: Attributes, name: string, otherwise: char): char {
    if name in attrs && attrs[name] != "" then attrs[name][0] else otherwise
  }

  function LikePattern(pattern: string, wild: char, single: char): string {
    seq(|pattern|, i requires 0 <= i < |pattern| => if pattern[i] == wild then '%' else if pattern[i] == single then '_' else pattern[i])
  }

  /** The text of the first element inside a boundary. */
  function BoundaryText(items: seq<Item>, name: string): Option<string> {
    match Local(items, name)
    case None => None
    case Some(e) => if Elements(e.items) == [] then None else Some(TextOfElement(Elements(e.items)[0]))
  }

  function ConvertTest(num: Numeral, kind: Kind, e: Item): Outcome<Expr>
    requires e.Element?
  {
    var prop, lit := PropElement(e.items), Local(e.items, "Literal");
    match kind
    case Boxes => BoxOf(num, e.items)
    case Nulls => if prop.None? then Fail else Done(IsNull(Property(TextOfElement(prop.value)), false))
    case Comparison(op) =>
      if prop.None? || lit.None? then Fail
      else Done(Compare(op, Property(TextOfElement(prop.value)), Literal(ToLit(num, TextOfElement(lit.value)))))
    case Likes =>
      if prop.None? || lit.None? then Fail
      else
        var pattern := LikePattern(TextOfElement(lit.value), FirstChar(e.attrs, "wildCard", '*'), FirstChar(e.attrs, "singleChar", '.'));
        Done(Like(Property(TextOfElement(prop.value)), pattern, false, false))
    case Ranges =>
      var lo, hi := BoundaryText(e.items, "LowerBoundary"), BoundaryText(e.items, "UpperBoundary");
      if prop.None? || lo.None? || hi.None? then Fail
      else Done(Between(Property(TextOfElement(prop.value)), Literal(ToLit(num, lo.value)), Literal(ToLit(num, hi.value)), false))
    case _ => Fail
  }

  // ---- Filters ----

  /** What an element converts to; operands that do not convert are dropped, and so are elements behind the first inside Not. */
  function Convert(num: Numeral, e: Item): Outcome<Expr>
    requires e.Element?
    decreases e
  {
    var kind := KindOf(e.name);
    match kind
    case Connects(op) =>
      var es := ConvertAll(num, e.items);
      if es == [] then Fail else Done(Logic(op, es))
    case Negates =>
      var x :- ConvertFirst(num, e.items);
      Done(Not(x))
    case Filters => ConvertFirst(num, e.items)
    case _ => ConvertTest(num, kind, e)
  }

  function ConvertFirst(num: Numeral, items: seq<Item>): Outcome<Expr>
    decreases items
  {
    if items == [] then Fail
    else if items[0].Element? then Convert(num, items[0])
    else ConvertFirst(num, items[1..])
  }

  function ConvertAll(num: Numeral, items: seq<Item>): seq<Expr>
    decreases items
  {
    if items == [] then []
    else
      (if items[0].Element? && Convert(num, items[0]).Done? then [Convert(num, items[0]).value] else []) + ConvertAll(num, items[1..])
  }

  /** The filter of a document: what is inside a Filter element, or the root itself. */
  function ParseFilter(num: Numeral, root: Item): Outcome<Expr>
    requires root.Element?
  {
    if root.name == "Filter" then ConvertFirst(num, root.items) else Convert(num, root)
  }
}

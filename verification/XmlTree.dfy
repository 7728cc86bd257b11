/**
 XML trees built on a stack of open elements, as both XML front ends build them: nodes are shared by reference,
 here by their index in `nodes`, and a child is linked to its parent while it is still open.
 */
module XmlTree {
  import opened Outcomes

  type Attributes = map<string, string>

  // A decoded element: the text of its own character data, and its child elements.
  datatype Node = Node(name: string, attrs: Attributes, children: seq<Node>, text: string)

  // An element as it stands in a document, character data and elements in any order.
  datatype Item = Chars(text: string) | Element(name: string, attrs: Attributes, items: seq<Item>)

  datatype Event = Start(name: string, attrs: Attributes) | Text(text: string) | End

  // ---- Documents ----

  function EventsOf(item: Item): seq<Event>
    decreases item
  {
    match item
    case Chars(text) => [Text(text)]
    case Element(name, attrs, items) => [Start(name, attrs)] + EventsOfAll(items) + [End]
  }

  function EventsOfAll(items: seq<Item>): seq<Event>
    decreases items
  {
    if items == [] then [] else EventsOf(items[0]) + EventsOfAll(items[1..])
  }

  /** The element without the order between its character data and its children. */
  function NodeOf(item: Item): Node
    requires item.Element?
    decreases item
  {
    Node(item.name, item.attrs, ChildrenOf(item.items), TextOf(item.items))
  }

  function ChildrenOf(items: seq<Item>): seq<Node>
    decreases items
  {
    if items == [] then []
    else (if items[0].Element? then [NodeOf(items[0])] else []) + ChildrenOf(items[1..])
  }

  function TextOf(items: seq<Item>): string {
    if items == [] then ""
    else (if items[0].Chars? then items[0].text else "") + TextOf(items[1..])
  }

  // ---- The decoder ----

  datatype Record = Record(name: string, attrs: Attributes, children: seq<nat>, text: string)

  datatype Decoder = Decoder(nodes: seq<Record>, stack: seq<nat>, root: Option<nat>)

  const EMPTY := Decoder([], [], None)

  // Open elements exist, and children were created after their parents.
  predicate Valid(d: Decoder) {
    && (forall i | 0 <= i < |d.stack| :: d.stack[i] < |d.nodes|)
    && (d.root.Some? ==> d.root.value < |d.nodes|)
    && Linked(d.nodes)
  }

  predicate Linked(nodes: seq<Record>) {
    forall i, k | 0 <= i < |nodes| && 0 <= k < |nodes[i].children| :: i < nodes[i].children[k] < |nodes|
  }

  function Top(d: Decoder): nat
    requires d.stack != []
  {
    d.stack[|d.stack| - 1]
  }

  function AddChild(r: Record, child: nat): Record {
    r.(children := r.children + [child])
  }

  function Feed(d: Decoder, e: Event): (d': Decoder)
    requires Valid(d)
    ensures Valid(d')
  {
    match e
    case Start(name, attrs) =>
      var n, r := |d.nodes|, Record(name, attrs, [], "");
      if d.stack == [] then Decoder(d.nodes + [r], [n], Some(n))
      else Decoder(d.nodes[Top(d) := AddChild(d.nodes[Top(d)], n)] + [r], d.stack + [n], d.root)
    case End => if d.stack == [] then d else d.(stack := d.stack[..|d.stack| - 1])
    case Text(text) =>
      if d.stack == [] then d
      else d.(nodes := d.nodes[Top(d) := d.nodes[Top(d)].(text := d.nodes[Top(d)].text + text)])
  }

  function FeedAll(d: Decoder, events: seq<Event>): (d': Decoder)
    requires Valid(d)
    ensures Valid(d')
    decreases |events|
  {
    if events == [] then d else FeedAll(Feed(d, events[0]), events[1..])
  }

  /** The tree that a node's references lead to. */
  function TreeAt(nodes: seq<Record>, i: nat): Node
    requires Linked(nodes) && i < |nodes|
    decreases |nodes| - i, 0
  {
    Node(nodes[i].name, nodes[i].attrs, TreesAt(nodes, i, nodes[i].children), nodes[i].text)
  }

  function TreesAt(nodes: seq<Record>, parent: nat, ids: seq<nat>): seq<Node>
    requires Linked(nodes) && parent < |nodes| && forall k | 0 <= k < |ids| :: parent < ids[k] < |nodes|
    decreases |nodes| - parent, 0, |ids|
  {
    if ids == [] then [] else [TreeAt(nodes, ids[0])] + TreesAt(nodes, parent, ids[1..])
  }

  // What the decoder yields when the input ends.
  function Result(d: Decoder): Outcome<Node>
    requires Valid(d)
  {
    if d.root.None? then Fail else Done(TreeAt(d.nodes, d.root.value))
  }

  // ---- Decoding rebuilds the tree ----

  lemma {:induction false} FeedConcat(d: Decoder, a: seq<Event>, b: seq<Event>)
    requires Valid(d)
    ensures FeedAll(d, a + b) == FeedAll(FeedAll(d, a), b)
    decreases |a|
  {
    if a == [] {
      assert a + b == b;
    } else {
      assert (a + b)[1..] == a[1..] + b;
      FeedConcat(Feed(d, a[0]), a[1..], b);
    }
  }

  lemma FeedOne(d: Decoder, e: Event)
    requires Valid(d)
    ensures FeedAll(d, [e]) == Feed(d, e)
  {
    assert [e][1..] == [];
  }

  /** A tree does not change when only older nodes change and nodes are added. */
  lemma {:induction false} TreeFrame(nodes: seq<Record>, nodes': seq<Record>, i: nat)
    requires Linked(nodes) && Linked(nodes') && i < |nodes| <= |nodes'|
    requires forall j | i <= j < |nodes| :: nodes'[j] == nodes[j]
    ensures TreeAt(nodes', i) == TreeAt(nodes, i)
    decreases |nodes| - i, 0
  {
    TreesFrame(nodes, nodes', i, nodes[i].children);
  }

  lemma {:induction false} TreesFrame(nodes: seq<Record>, nodes': seq<Record>, parent: nat, ids: seq<nat>)
    requires Linked(nodes) && Linked(nodes') && parent < |nodes| <= |nodes'|
    requires forall j | parent < j < |nodes| :: nodes'[j] == nodes[j]
    requires forall k | 0 <= k < |ids| :: parent < ids[k] < |nodes|
    ensures TreesAt(nodes', parent, ids) == TreesAt(nodes, parent, ids)
    decreases |nodes| - parent, 0, |ids|
  {
    if ids != [] {
      TreeFrame(nodes, nodes', ids[0]);
      TreesFrame(nodes, nodes', parent, ids[1..]);
    }
  }

  // `ids` are what an element's content has added below the open node `p` of `d`.
  ghost predicate Added(d: Decoder, d': Decoder, p: nat, ids: seq<nat>, items: seq<Item>)
    requires Valid(d) && Valid(d') && p < |d.nodes|
  {
    && d'.stack == d.stack && d'.root == d.root && |d.nodes| <= |d'.nodes|
    && (forall k | 0 <= k < |ids| :: |d.nodes| <= ids[k] < |d'.nodes|)
    && (forall j | 0 <= j < |d.nodes| && j != p :: d'.nodes[j] == d.nodes[j])
    && d'.nodes[p] == Record(d.nodes[p].name, d.nodes[p].attrs, d.nodes[p].children + ids, d.nodes[p].text + TextOf(items))
    && TreesAt(d'.nodes, p, ids) == ChildrenOf(items)
  }

  lemma EventsSplit(d: Decoder, item: Item)
    requires Valid(d) && item.Element?
    ensures FeedAll(d, EventsOf(item)) == Feed(FeedAll(Feed(d, Start(item.name, item.attrs)), EventsOfAll(item.items)), End)
  {
    var start, events := Start(item.name, item.attrs), EventsOfAll(item.items);
    FeedConcat(d, [start] + events, [End]);
    FeedConcat(d, [start], events);
    FeedOne(d, start);
    FeedOne(FeedAll(Feed(d, start), events), End);
  }

  /** Between its start and its end, an element is built as the next node, linked to the open element above it. */
  lemma {:induction false} ElementBuilt(d: Decoder, item: Item)
    requires Valid(d) && item.Element? && d.stack != []
    ensures Added(d, FeedAll(d, EventsOf(item)), Top(d), [|d.nodes|], [item])
    decreases item, 3
  {
    EventsSplit(d, item);
    var d1 := Feed(d, Start(item.name, item.attrs));
    var ids := ItemsBuilt(d1, item.items);
    Closed(d, FeedAll(d1, EventsOfAll(item.items)), item, ids);
  }

  lemma Closed(d: Decoder, d2: Decoder, item: Item, ids: seq<nat>)
    requires Valid(d) && Valid(d2) && item.Element? && d.stack != []
    requires Added(Feed(d, Start(item.name, item.attrs)), d2, |d.nodes|, ids, item.items)
    ensures Added(d, Feed(d2, End), Top(d), [|d.nodes|], [item])
  {
    var n, p, d3 := |d.nodes|, Top(d), Feed(d2, End);
    assert d3.stack == d.stack;
    assert d2.nodes[n] == Record(item.name, item.attrs, [] + ids, "" + TextOf(item.items));
    assert [] + ids == ids && "" + TextOf(item.items) == TextOf(item.items);
    assert TreeAt(d3.nodes, n) == NodeOf(item);
    OneChild(d3.nodes, p, n, item);
    assert d.nodes[p].text + TextOf([item]) == d.nodes[p].text;
  }

  lemma OneChild(nodes: seq<Record>, p: nat, n: nat, item: Item)
    requires Linked(nodes) && p < n < |nodes| && item.Element? && TreeAt(nodes, n) == NodeOf(item)
    ensures TreesAt(nodes, p, [n]) == ChildrenOf([item]) && TextOf([item]) == ""
  {
    assert [n][1..] == [] && [item][1..] == [];
    assert TreesAt(nodes, p, []) == [] && ChildrenOf([]) == [];
    assert TextOf([]) == "";
  }

  lemma {:induction false} ItemsBuilt(d: Decoder, items: seq<Item>) returns (ids: seq<nat>)
    requires Valid(d) && d.stack != []
    ensures Added(d, FeedAll(d, EventsOfAll(items)), Top(d), ids, items)
    decreases items, 2
  {
    var p := Top(d);
    if items == [] {
      ids := [];
      assert d.nodes[p].children + ids == d.nodes[p].children && d.nodes[p].text + "" == d.nodes[p].text;
    } else {
      assert items == [items[0]] + items[1..];
      ids := FirstBuilt(d, items);
    }
  }

  lemma {:induction false} FirstBuilt(d: Decoder, items: seq<Item>) returns (ids: seq<nat>)
    requires Valid(d) && d.stack != [] && items != []
    ensures Added(d, FeedAll(d, EventsOf(items[0]) + EventsOfAll(items[1..])), Top(d), ids, [items[0]] + items[1..])
    decreases items, 1
  {
    var first, rest := items[0], items[1..];
    FeedConcat(d, EventsOf(first), EventsOfAll(rest));
    var d1 := FeedAll(d, EventsOf(first));
    if first.Element? {
      ElementBuilt(d, first);
      var more := ItemsBuilt(d1, rest);
      ids := [|d.nodes|] + more;
      ElementThenRest(d, d1, FeedAll(d1, EventsOfAll(rest)), Top(d), more, first, rest);
    } else {
      FeedOne(d, Text(first.text));
      ids := ItemsBuilt(d1, rest);
      CharsThenRest(d, FeedAll(d1, EventsOfAll(rest)), ids, first, rest);
    }
  }

  lemma Regroup(a: string, b: string, c: string)
    ensures a + b + c == a + (b + c)
  {
  }

  lemma CharsThenRest(d: Decoder, d2: Decoder, ids: seq<nat>, first: Item, rest: seq<Item>)
    requires Valid(d) && Valid(d2) && d.stack != [] && first.Chars?
    requires Added(Feed(d, Text(first.text)), d2, Top(d), ids, rest)
    ensures Added(d, d2, Top(d), ids, [first] + rest)
  {
    assert ([first] + rest)[1..] == rest;
    Regroup(d.nodes[Top(d)].text, first.text, TextOf(rest));
    assert [] + ChildrenOf(rest) == ChildrenOf(rest);
  }

  lemma TreesCons(nodes: seq<Record>, p: nat, n: nat, more: seq<nat>)
    requires Linked(nodes) && p < n < |nodes| && forall k | 0 <= k < |more| :: p < more[k] < |nodes|
    ensures forall k | 0 <= k < |[n] + more| :: p < ([n] + more)[k] < |nodes|
    ensures TreesAt(nodes, p, [n] + more) == [TreeAt(nodes, n)] + TreesAt(nodes, p, more)
  {
    assert ([n] + more)[1..] == more;
  }

  lemma ContentCons(first: Item, rest: seq<Item>)
    requires first.Element?
    ensures ChildrenOf([first] + rest) == [NodeOf(first)] + ChildrenOf(rest) && TextOf([first] + rest) == TextOf(rest)
  {
    assert ([first] + rest)[1..] == rest;
    assert "" + TextOf(rest) == TextOf(rest);
  }

  lemma ElementThenRest(d: Decoder, d1: Decoder, d2: Decoder, p: nat, more: seq<nat>, first: Item, rest: seq<Item>)
    requires Valid(d) && Valid(d1) && Valid(d2) && p < |d.nodes| && first.Element?
    requires Added(d, d1, p, [|d.nodes|], [first]) && Added(d1, d2, p, more, rest)
    ensures Added(d, d2, p, [|d.nodes|] + more, [first] + rest)
  {
    var n := |d.nodes|;
    assert d.nodes[p].children + [n] + more == d.nodes[p].children + ([n] + more);
    TreeFrame(d1.nodes, d2.nodes, n);
    OnlyChild(d1.nodes, p, n, first);
    TreesCons(d2.nodes, p, n, more);
    ContentCons(first, rest);
    OneChildText(first);
    assert d.nodes[p].text + "" + TextOf(rest) == d.nodes[p].text + TextOf(rest);
  }

  lemma OnlyChild(nodes: seq<Record>, p: nat, n: nat, item: Item)
    requires Linked(nodes) && p < n < |nodes| && item.Element? && TreesAt(nodes, p, [n]) == ChildrenOf([item])
    ensures TreeAt(nodes, n) == NodeOf(item)
  {
    assert TreesAt(nodes, p, [n])[0] == TreeAt(nodes, n);
    assert ChildrenOf([item])[0] == NodeOf(item);
  }

  lemma OneChildText(item: Item)
    requires item.Element?
    ensures TextOf([item]) == ""
  {
    assert [item][1..] == [];
    assert TextOf([]) == "";
  }

  /** The token stream of any document decodes to the document's tree. */
  lemma RootBuilt(item: Item)
    requires item.Element?
    ensures Result(FeedAll(EMPTY, EventsOf(item))) == Done(NodeOf(item))
  {
    var start, events := Start(item.name, item.attrs), EventsOfAll(item.items);
    var d1 := Feed(EMPTY, start);
    var ids := ItemsBuilt(d1, item.items);
    var d2 := FeedAll(d1, events);
    FeedConcat(EMPTY, [start] + events, [End]);
    FeedConcat(EMPTY, [start], events);
    FeedOne(EMPTY, start);
    FeedOne(d2, End);
    assert [] + ids == ids && "" + TextOf(item.items) == TextOf(item.items);
  }

  class TreeDecoder {
    var nodes: seq<Record>
    var stack: seq<nat>
    var root: Option<nat>

    function State(): Decoder
      reads this
    {
      Decoder(nodes, stack, root)
    }

    constructor ()
      ensures State() == EMPTY
    {
      nodes, stack, root := [], [], None;
    }

    /** One token: a start tag is linked to the open element above it and opened, character data goes to the open element. */
    method Token(e: Event)
      requires Valid(State())
      modifies this
      ensures State() == Feed(old(State()), e)
    {
      match e {
        case Start(name, attrs) =>
          var n := |nodes|;
          if |stack| > 0 {
            var parent := stack[|stack| - 1];
            nodes := nodes[parent := AddChild(nodes[parent], n)];
          } else {
            root := Some(n);
          }
          nodes := nodes + [Record(name, attrs, [], "")];
          stack := stack + [n];
        case End =>
          if |stack| > 0 {
            stack := stack[..|stack| - 1];
          }
        case Text(text) =>
          if |stack| > 0 {
            var top := stack[|stack| - 1];
            nodes := nodes[top := nodes[top].(text := nodes[top].text + text)];
          }
      }
    }
  }

  /** The decoding loop over a token stream, which may end in an error. */
  method Decode(events: seq<Event>, malformed: bool) returns (r: Outcome<Node>)
    ensures r == if malformed then Fail else Result(FeedAll(EMPTY, events))
  {
    var d := new TreeDecoder();
    for i := 0 to |events|
      invariant Valid(d.State())
      invariant FeedAll(d.State(), events[i..]) == FeedAll(EMPTY, events)
    {
      assert events[i..][0] == events[i] && events[i..][1..] == events[i + 1..];
      d.Token(events[i]);
    }
    assert events[|events|..] == [];
    if malformed || d.root.None? {
      return Fail;
    }
    return Done(TreeAt(d.nodes, d.root.value));
  }

  // ---- Writing a tree out again ----

  /** The document that a tree is written out as: the text of an element with children is left out. */
  function Reserialized(n: Node): (item: Item)
    ensures item.Element?
    decreases n
  {
    Element(n.name, n.attrs, if n.children == [] then Leaf(n.text) else ReserializedAll(n.children))
  }

  // No character data is read from an empty text.
  function Leaf(text: string): seq<Item> {
    if text == "" then [] else [Chars(text)]
  }

  function ReserializedAll(ns: seq<Node>): seq<Item>
    decreases ns
  {
    if ns == [] then [] else [Reserialized(ns[0])] + ReserializedAll(ns[1..])
  }

  /** The tree without the text of elements that have children. */
  function Stripped(n: Node): Node
    decreases n
  {
    Node(n.name, n.attrs, StrippedAll(n.children), if n.children == [] then n.text else "")
  }

  function StrippedAll(ns: seq<Node>): seq<Node>
    decreases ns
  {
    if ns == [] then [] else [Stripped(ns[0])] + StrippedAll(ns[1..])
  }

  lemma {:induction false} ReserializedNode(n: Node)
    ensures NodeOf(Reserialized(n)) == Stripped(n)
    decreases n
  {
    if n.children == [] {
      var items := Leaf(n.text);
      assert ChildrenOf([]) == [] && TextOf([]) == "";
      if n.text != "" {
        assert items[1..] == [];
        assert TextOf(items) == n.text + "";
      }
    } else {
      ReserializedNodes(n.children);
    }
  }

  lemma {:induction false} ReserializedNodes(ns: seq<Node>)
    ensures ChildrenOf(ReserializedAll(ns)) == StrippedAll(ns) && TextOf(ReserializedAll(ns)) == ""
    decreases ns
  {
    if ns != [] {
      ReserializedNode(ns[0]);
      ReserializedNodes(ns[1..]);
      assert ReserializedAll(ns)[1..] == ReserializedAll(ns[1..]);
    }
  }

  /** Elements with children have no text of their own. */
  predicate TextInLeaves(n: Node)
    decreases n
  {
    (n.children == [] || n.text == "") && forall i | 0 <= i < |n.children| :: TextInLeaves(n.children[i])
  }

  lemma {:induction false} StrippedSame(n: Node)
    ensures Stripped(n) == n <==> TextInLeaves(n)
    decreases n
  {
    StrippedAllSame(n.children);
  }

  lemma {:induction false} StrippedAllSame(ns: seq<Node>)
    ensures StrippedAll(ns) == ns <==> forall i | 0 <= i < |ns| :: TextInLeaves(ns[i])
    decreases ns
  {
    if ns != [] {
      StrippedSame(ns[0]);
      StrippedAllSame(ns[1..]);
      assert forall i | 1 <= i < |ns| :: ns[i] == ns[1..][i - 1];
      assert ns == [ns[0]] + ns[1..];
    }
  }

  /** Writing a tree out and decoding it again loses only the text of elements with children, and nothing when they have none. */
  lemma ReserializeThenDecode(n: Node)
    ensures Result(FeedAll(EMPTY, EventsOf(Reserialized(n)))) == Done(Stripped(n))
    ensures Stripped(n) == n <==> TextInLeaves(n)
  {
    RootBuilt(Reserialized(n));
    ReserializedNode(n);
    StrippedSame(n);
  }
}

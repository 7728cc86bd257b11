/**
 Filter XML as characters: how a decoded tree is written out, as it stands and without escaping, and what reading it again
 makes of it. The reader knows tags, attributes and character data; declarations, comments and CDATA sections it refuses.
 */
module XmlText {
  import opened Outcomes
  import opened XmlTree

  // What the two libraries know about characters: which are printed as they are and how the others are escaped, which may
  // stand in a document, what makes a name, and what character references stand for.
  datatype Tables = Tables(
    printable: char -> bool, escape: char -> string, legal: char -> bool, isName: string -> bool, reference: string -> Option<char>)

  // ---- Writing ----

  // Characters that stand for themselves in a quoted string; controls are never printable.
  predicate Verbatim(t: Tables, c: char) {
    t.printable(c) && c >= ' ' && c != '"' && c != '\\'
  }

  // What stands behind the backslash for any other character.
  function Escape(t: Tables, c: char): string {
    match c
    case '\\' => "\\"
    case '"' => "\""
    case '\n' => "n"
    case '\r' => "r"
    case '\t' => "t"
    case _ => t.escape(c)
  }

  function QuotedOnto(t: Tables, v: string, z: string): string {
    if v == "" then z
    else if Verbatim(t, v[0]) then [v[0]] + QuotedOnto(t, v[1..], z)
    else "\\" + (Escape(t, v[0]) + QuotedOnto(t, v[1..], z))
  }

  // The order in which the attributes of each element of a tree are written.
  datatype Layout = Layout(keys: seq<string>, below: seq<Layout>)

  predicate Enumerates(keys: seq<string>, attrs: Attributes) {
    && (forall k | k in keys :: k in attrs) && (forall k | k in attrs :: k in keys)
    && (forall i, j | 0 <= i < j < |keys| :: keys[i] != keys[j])
  }

  predicate Fits(n: Node, l: Layout)
    decreases n
  {
    && |l.below| == |n.children| && Enumerates(l.keys, n.attrs)
    && (forall i | 0 <= i < |n.children| :: Fits(n.children[i], l.below[i]))
  }

  function AttrOnto(t: Tables, name: string, v: string, z: string): string {
    [' '] + (name + (['=', '"'] + QuotedOnto(t, v, ['"'] + z)))
  }

  function AttrsOnto(t: Tables, attrs: Attributes, keys: seq<string>, z: string): string
    requires forall k | k in keys :: k in attrs
  {
    if keys == [] then z else AttrOnto(t, keys[0], attrs[keys[0]], AttrsOnto(t, attrs, keys[1..], z))
  }

  function EndOnto(name: string, z: string): string {
    ['<', '/'] + (name + (['>'] + z))
  }

  /** An element as it is written in front of `z`: with its text when it has no children. */
  function WriteOnto(t: Tables, n: Node, l: Layout, z: string): string
    requires Fits(n, l)
    decreases n
  {
    var body := if n.children == [] then n.text + EndOnto(n.name, z) else WriteAllOnto(t, n.children, l.below, EndOnto(n.name, z));
    ['<'] + (n.name + AttrsOnto(t, n.attrs, l.keys, ['>'] + body))
  }

  function WriteAllOnto(t: Tables, ns: seq<Node>, ls: seq<Layout>, z: string): string
    requires |ls| == |ns| && forall i | 0 <= i < |ns| :: Fits(ns[i], ls[i])
    decreases ns
  {
    if ns == [] then z else WriteOnto(t, ns[0], ls[0], WriteAllOnto(t, ns[1..], ls[1..], z))
  }

  lemma Assoc(a: string, b: string, c: string)
    ensures a + b + c == a + (b + c)
  {
  }

  lemma {:induction false} QuotedAppends(t: Tables, v: string, y: string, z: string)
    ensures QuotedOnto(t, v, y + z) == QuotedOnto(t, v, y) + z
  {
    if v != "" {
      QuotedAppends(t, v[1..], y, z);
      var q := QuotedOnto(t, v[1..], y);
      if Verbatim(t, v[0]) {
        Assoc([v[0]], q, z);
      } else {
        Assoc(Escape(t, v[0]), q, z);
        Assoc("\\", Escape(t, v[0]) + q, z);
      }
    }
  }

  lemma AttrAppends(t: Tables, name: string, v: string, y: string, z: string)
    ensures AttrOnto(t, name, v, y + z) == AttrOnto(t, name, v, y) + z
  {
    Assoc(['"'], y, z);
    QuotedAppends(t, v, ['"'] + y, z);
    var q := QuotedOnto(t, v, ['"'] + y);
    Assoc(['=', '"'], q, z);
    Assoc(name, ['=', '"'] + q, z);
    Assoc([' '], name + (['=', '"'] + q), z);
  }

  lemma {:induction false} AttrsAppend(t: Tables, attrs: Attributes, keys: seq<string>, y: string, z: string)
    requires forall k | k in keys :: k in attrs
    ensures AttrsOnto(t, attrs, keys, y + z) == AttrsOnto(t, attrs, keys, y) + z
  {
    if keys != [] {
      AttrsAppend(t, attrs, keys[1..], y, z);
      AttrAppends(t, keys[0], attrs[keys[0]], AttrsOnto(t, attrs, keys[1..], y), z);
    }
  }

  lemma {:induction false} AttrsSnoc(t: Tables, attrs: Attributes, keys: seq<string>, key: string)
    requires key in attrs && forall k | k in keys :: k in attrs
    ensures AttrsOnto(t, attrs, keys + [key], "") == AttrsOnto(t, attrs, keys, "") + AttrOnto(t, key, attrs[key], "")
  {
    var last := AttrOnto(t, key, attrs[key], "");
    if keys == [] {
      assert [] + [key] == [key] && [key][1..] == [];
      assert "" + last == last;
    } else {
      assert (keys + [key])[1..] == keys[1..] + [key] && (keys + [key])[0] == keys[0];
      AttrsSnoc(t, attrs, keys[1..], key);
      AttrAppends(t, keys[0], attrs[keys[0]], AttrsOnto(t, attrs, keys[1..], ""), last);
    }
  }

  /** The attributes of an element, in the arbitrary order of a loop over a map. */
  method WriteAttrs(t: Tables, attrs: Attributes) returns (s: string)
    ensures exists keys :: Enumerates(keys, attrs) && s == AttrsOnto(t, attrs, keys, "")
  {
    s := "";
    ghost var keys: seq<string> := [];
    var left := attrs.Keys;
    while left != {}
      invariant left <= attrs.Keys && (forall k :: k in keys <==> k in attrs && k !in left)
      invariant forall i, j | 0 <= i < j < |keys| :: keys[i] != keys[j]
      invariant s == AttrsOnto(t, attrs, keys, "")
      decreases |left|
    {
      var k :| k in left;
      AttrsSnoc(t, attrs, keys, k);
      s := s + ([' '] + (k + (['=', '"'] + QuotedOnto(t, attrs[k], ['"']))));
      assert ['"'] + "" == ['"'];
      keys := keys + [k];
      left := left - {k};
    }
  }

  lemma {:induction false} WriteAppends(t: Tables, n: Node, l: Layout, y: string, z: string)
    requires Fits(n, l)
    ensures WriteOnto(t, n, l, y + z) == WriteOnto(t, n, l, y) + z
    decreases n
  {
    EndAppends(n.name, y, z);
    var end := EndOnto(n.name, y);
    if n.children == [] {
      Assoc(n.text, end, z);
    } else {
      WriteAllAppends(t, n.children, l.below, end, z);
    }
    var body := if n.children == [] then n.text + end else WriteAllOnto(t, n.children, l.below, end);
    Assoc(['>'], body, z);
    AttrsAppend(t, n.attrs, l.keys, ['>'] + body, z);
    var attrs := AttrsOnto(t, n.attrs, l.keys, ['>'] + body);
    Assoc(n.name, attrs, z);
    Assoc(['<'], n.name + attrs, z);
  }

  lemma EndAppends(name: string, y: string, z: string)
    ensures EndOnto(name, y + z) == EndOnto(name, y) + z
  {
    Assoc(['>'], y, z);
    Assoc(name, ['>'] + y, z);
    Assoc(['<', '/'], name + (['>'] + y), z);
  }

  lemma {:induction false} WriteAllAppends(t: Tables, ns: seq<Node>, ls: seq<Layout>, y: string, z: string)
    requires |ls| == |ns| && forall i | 0 <= i < |ns| :: Fits(ns[i], ls[i])
    ensures WriteAllOnto(t, ns, ls, y + z) == WriteAllOnto(t, ns, ls, y) + z
    decreases ns
  {
    if ns != [] {
      WriteAllAppends(t, ns[1..], ls[1..], y, z);
      WriteAppends(t, ns[0], ls[0], WriteAllOnto(t, ns[1..], ls[1..], y), z);
    }
  }

  lemma {:induction false} WriteAllSnoc(t: Tables, ns: seq<Node>, ls: seq<Layout>, n: Node, l: Layout)
    requires |ls| == |ns| && (forall i | 0 <= i < |ns| :: Fits(ns[i], ls[i])) && Fits(n, l)
    ensures forall i | 0 <= i < |ns + [n]| :: Fits((ns + [n])[i], (ls + [l])[i])
    ensures WriteAllOnto(t, ns + [n], ls + [l], "") == WriteAllOnto(t, ns, ls, "") + WriteOnto(t, n, l, "")
    decreases |ns|
  {
    var last := WriteOnto(t, n, l, "");
    if ns == [] {
      assert [n][1..] == [] && [l][1..] == [];
      assert [] + [n] == [n] && [] + [l] == [l] && "" + last == last;
    } else {
      assert (ns + [n])[1..] == ns[1..] + [n] && (ls + [l])[1..] == ls[1..] + [l];
      WriteAllSnoc(t, ns[1..], ls[1..], n, l);
      WriteAppends(t, ns[0], ls[0], WriteAllOnto(t, ns[1..], ls[1..], ""), last);
    }
  }

  lemma WriteParts(t: Tables, n: Node, l: Layout, attrs: string, body: string)
    requires Fits(n, l) && attrs == AttrsOnto(t, n.attrs, l.keys, "")
    requires body == if n.children == [] then n.text else WriteAllOnto(t, n.children, l.below, "")
    ensures WriteOnto(t, n, l, "") == ['<'] + (n.name + (attrs + (['>'] + (body + (['<', '/'] + (n.name + ['>']))))))
  {
    var end := EndOnto(n.name, "");
    assert ['>'] + "" == ['>'] && "" + end == end;
    if n.children != [] {
      WriteAllAppends(t, n.children, l.below, "", end);
    }
    var rest := ['>'] + (body + end);
    assert "" + rest == rest;
    AttrsAppend(t, n.attrs, l.keys, "", rest);
  }

  /** What an element can be written as, in some order of the attributes. */
  ghost predicate Writes(t: Tables, n: Node, s: string) {
    exists l :: Fits(n, l) && s == WriteOnto(t, n, l, "")
  }

  ghost predicate WritesAll(t: Tables, ns: seq<Node>, s: string) {
    exists ls :: LaidOut(t, ns, ls, s)
  }

  predicate LaidOut(t: Tables, ns: seq<Node>, ls: seq<Layout>, s: string) {
    |ls| == |ns| && (forall i | 0 <= i < |ns| :: Fits(ns[i], ls[i])) && s == WriteAllOnto(t, ns, ls, "")
  }

  /** The writer: an element, its attributes, and its text or else its children one by one. */
  method Reserialize(t: Tables, n: Node) returns (s: string)
    ensures Writes(t, n, s)
    decreases n, 1
  {
    var attrs := WriteAttrs(t, n.attrs);
    var body := WriteChildren(t, n);
    if n.children == [] {
      body := n.text;
    }
    s := ['<'] + (n.name + (attrs + (['>'] + (body + (['<', '/'] + (n.name + ['>']))))));
    PartsWritten(t, n, attrs, body);
  }

  lemma PartsWritten(t: Tables, n: Node, attrs: string, body: string)
    requires exists keys :: Enumerates(keys, n.attrs) && attrs == AttrsOnto(t, n.attrs, keys, "")
    requires if n.children == [] then body == n.text else WritesAll(t, n.children, body)
    ensures Writes(t, n, ['<'] + (n.name + (attrs + (['>'] + (body + (['<', '/'] + (n.name + ['>'])))))))
  {
    var keys :| Enumerates(keys, n.attrs) && attrs == AttrsOnto(t, n.attrs, keys, "");
    var below: seq<Layout> := [];
    if n.children != [] {
      below :| LaidOut(t, n.children, below, body);
    }
    var l := Layout(keys, below);
    assert Fits(n, l);
    WriteParts(t, n, l, attrs, body);
  }

  method WriteChildren(t: Tables, n: Node) returns (s: string)
    ensures WritesAll(t, n.children, s)
    decreases n, 0
  {
    s := "";
    NothingWritten(t);
    for i := 0 to |n.children|
      invariant WritesAll(t, n.children[..i], s)
    {
      var child := Reserialize(t, n.children[i]);
      WrittenNext(t, n.children, i, s, child);
      s := s + child;
    }
    assert n.children[..|n.children|] == n.children;
  }

  lemma WrittenNext(t: Tables, ns: seq<Node>, i: nat, s: string, child: string)
    requires i < |ns| && WritesAll(t, ns[..i], s) && Writes(t, ns[i], child)
    ensures WritesAll(t, ns[..i + 1], s + child)
  {
    WrittenSnoc(t, ns[..i], s, ns[i], child);
    assert ns[..i + 1] == ns[..i] + [ns[i]];
  }

  lemma NothingWritten(t: Tables)
    ensures WritesAll(t, [], "")
  {
    var ls: seq<Layout> := [];
    assert LaidOut(t, [], ls, "");
  }

  lemma WrittenSnoc(t: Tables, ns: seq<Node>, s: string, n: Node, child: string)
    requires WritesAll(t, ns, s) && Writes(t, n, child)
    ensures WritesAll(t, ns + [n], s + child)
  {
    var ls :| LaidOut(t, ns, ls, s);
    var l :| Fits(n, l) && child == WriteOnto(t, n, l, "");
    LaidOutSnoc(t, ns, ls, s, n, l);
  }

  lemma LaidOutSnoc(t: Tables, ns: seq<Node>, ls: seq<Layout>, s: string, n: Node, l: Layout)
    requires LaidOut(t, ns, ls, s) && Fits(n, l)
    ensures LaidOut(t, ns + [n], ls + [l], s + WriteOnto(t, n, l, ""))
  {
    WriteAllSnoc(t, ns, ls, n, l);
  }

  // ---- Reading ----

  predicate AlphaNumeric(c: char) {
    'a' <= c <= 'z' || 'A' <= c <= 'Z' || '0' <= c <= '9'
  }

  predicate NameChar(c: char) {
    AlphaNumeric(c) || c == '_' || c == ':' || c == '.' || c == '-' || c as int >= 0x80
  }

  function NameLength(s: string): (n: nat)
    ensures n <= |s|
  {
    if s != "" && NameChar(s[0]) then 1 + NameLength(s[1..]) else 0
  }

  /** A name and what is behind it. */
  function ReadName(t: Tables, s: string): (r: Option<(string, string)>)
    ensures r.Some? ==> |r.value.1| < |s|
  {
    var n := NameLength(s);
    if n == 0 || !t.isName(s[..n]) then None else Some((s[..n], s[n..]))
  }

  function ColonAt(s: string): (i: nat)
    ensures i <= |s|
  {
    if s == "" || s[0] == ':' then 0 else 1 + ColonAt(s[1..])
  }

  // A name without its prefix.
  function LocalName(s: string): Option<string> {
    var i := ColonAt(s);
    if i == |s| then Some(s)
    else if ':' in s[i + 1..] then None
    else if i == 0 || i + 1 == |s| then Some(s)
    else Some(s[i + 1..])
  }

  // What stands between `&` and `;`.
  predicate IsReference(body: string) {
    body != "" && forall i | 0 <= i < |body| :: AlphaNumeric(body[i]) || body[i] == '#'
  }

  function Reference(t: Tables, body: string): Option<char> {
    match body
    case "lt" => Some('<')
    case "gt" => Some('>')
    case "amp" => Some('&')
    case "apos" => Some('\'')
    case "quot" => Some('"')
    case _ => if IsReference(body) && body[0] == '#' then t.reference(body) else None
  }

  function UntilSemicolon(s: string): (n: nat)
    ensures n <= |s|
    ensures n < |s| ==> s[n] == ';'
  {
    if s == "" || s[0] == ';' then 0 else 1 + UntilSemicolon(s[1..])
  }

  function Prepend(c: char, r: Option<(string, string)>): Option<(string, string)> {
    match r
    case None => None
    case Some((text, rest)) => Some(([c] + text, rest))
  }

  /**
   Character data up to the next tag, or a quoted value up to and with its quote, and what is behind it. References are
   replaced and line ends become newlines.
   */
  function ReadText(t: Tables, s: string, quote: Option<char>): (r: Option<(string, string)>)
    ensures r.Some? ==> |r.value.0| + |r.value.1| <= |s|
    ensures r.Some? && s != "" && (quote.Some? || s[0] != '<') ==> |r.value.1| < |s|
    decreases |s|
  {
    if s == "" then Some(("", ""))
    else if s[0] == '<' then (if quote.Some? then None else Some(("", s)))
    else if quote == Some(s[0]) then Some(("", s[1..]))
    else if quote.None? && "]]>" <= s then None
    else if s[0] == '&' then
      var n := UntilSemicolon(s[1..]);
      if n == |s| - 1 then None
      else
        match Reference(t, s[1..][..n])
        case None => None
        case Some(c) => if t.legal(c) then Prepend(c, ReadText(t, s[n + 2..], quote)) else None
    else if s[0] == '\r' then Prepend('\n', ReadText(t, if "\r\n" <= s then s[2..] else s[1..], quote))
    else if t.legal(s[0]) then Prepend(s[0], ReadText(t, s[1..], quote))
    else None
  }

  function SkipSpace(s: string): (r: string)
    ensures |r| <= |s|
  {
    if s != "" && (s[0] == ' ' || s[0] == '\t' || s[0] == '\n' || s[0] == '\r') then SkipSpace(s[1..]) else s
  }

  datatype Attr = Attr(name: string, value: string, rest: string)

  function ReadAttr(t: Tables, s: string): (r: Option<Attr>)
    ensures r.Some? ==> |r.value.rest| < |s|
  {
    match ReadName(t, s)
    case None => None
    case Some((raw, behind)) =>
      var v := SkipSpace(behind);
      if LocalName(raw).None? || v == "" || v[0] != '=' then None
      else
        var w := SkipSpace(v[1..]);
        if w == "" || (w[0] != '"' && w[0] != '\'') then None
        else
          match ReadText(t, w[1..], Some(w[0]))
          case None => None
          case Some((value, rest)) => Some(Attr(LocalName(raw).value, value, rest))
  }

  // The attributes of a start tag, whether the tag is closed at once, and what is behind it.
  datatype Tag = Tag(attrs: Attributes, closed: bool, rest: string)

  function ReadAttrs(t: Tables, s: string, attrs: Attributes): (r: Option<Tag>)
    ensures r.Some? ==> |r.value.rest| < |s|
    decreases |s|
  {
    var u := SkipSpace(s);
    if u == "" then None
    else if u[0] == '>' then Some(Tag(attrs, false, u[1..]))
    else if "/>" <= u then Some(Tag(attrs, true, u[2..]))
    else
      match ReadAttr(t, u)
      case None => None
      case Some(a) => ReadAttrs(t, a.rest, attrs[a.name := a.value])
  }

  function Before(events: seq<Event>, r: Outcome<seq<Event>>): Outcome<seq<Event>> {
    match r
    case Fail => Fail
    case Done(more) => Done(events + more)
  }

  /** The tokens of a text inside the open elements: every element must be closed, in the right order. */
  function ReadTokens(t: Tables, s: string, open: seq<string>): Outcome<seq<Event>>
    decreases |s|
  {
    if s == "" then (if open == [] then Done([]) else Fail)
    else if s[0] != '<' then
      match ReadText(t, s, None)
      case None => Fail
      case Some((text, rest)) => Before([Text(text)], ReadTokens(t, rest, open))
    else if "</" <= s then ReadEnd(t, s[2..], open)
    else ReadStart(t, s[1..], open)
  }

  function ReadEnd(t: Tables, s: string, open: seq<string>): Outcome<seq<Event>>
    decreases |s|
  {
    match ReadName(t, s)
    case None => Fail
    case Some((raw, behind)) =>
      var v := SkipSpace(behind);
      if LocalName(raw).None? || open == [] || open[|open| - 1] != raw || v == "" || v[0] != '>' then Fail
      else Before([End], ReadTokens(t, v[1..], open[..|open| - 1]))
  }

  function ReadStart(t: Tables, s: string, open: seq<string>): Outcome<seq<Event>>
    decreases |s|
  {
    match ReadName(t, s)
    case None => Fail
    case Some((raw, behind)) =>
      match ReadAttrs(t, behind, map[])
      case None => Fail
      case Some(tag) =>
        if LocalName(raw).None? then Fail
        else if tag.closed then Before([Start(LocalName(raw).value, tag.attrs), End], ReadTokens(t, tag.rest, open))
        else Before([Start(LocalName(raw).value, tag.attrs)], ReadTokens(t, tag.rest, open + [raw]))
  }

  /** The tree a text decodes to. */
  function ReadTree(t: Tables, s: string): Outcome<Node> {
    match ReadTokens(t, s, [])
    case Fail => Fail
    case Done(events) => Result(FeedAll(EMPTY, events))
  }

  // ---- Exactly which texts survive ----

  /** No tag or reference begins anywhere in the text, no CDATA section ends, and nothing is illegal or a carriage return. */
  predicate PlainText(t: Tables, s: string) {
    s == "" || (s[0] != '<' && s[0] != '&' && s[0] != '\r' && t.legal(s[0]) && !("]]>" <= s) && PlainText(t, s[1..]))
  }

  lemma SectionEnd(s: string, z: string)
    requires z != "" && z[0] == '<'
    ensures "]]>" <= s + z <==> "]]>" <= s
  {
    if "]]>" <= s + z {
      assert (s + z)[0] == ']' && (s + z)[1] == ']' && (s + z)[2] == '>';
      assert |s| >= 3 && (s + z)[..3] == s[..3];
    }
    if "]]>" <= s {
      assert (s + z)[..3] == s[..3];
    }
  }

  /** Character data written in front of a tag is read back exactly when it is plain. */
  lemma {:induction false} TextSurvives(t: Tables, s: string, z: string)
    requires z != "" && z[0] == '<'
    ensures ReadText(t, s + z, None) == Some((s, z)) <==> PlainText(t, s)
    decreases |s|
  {
    if s == "" {
      assert s + z == z;
    } else {
      SectionEnd(s, z);
      assert (s + z)[0] == s[0] && (s + z)[1..] == s[1..] + z;
      TextSurvives(t, s[1..], z);
      if s[0] != '<' && s[0] != '&' && s[0] != '\r' && t.legal(s[0]) && !("]]>" <= s) {
        assert [s[0]] + s[1..] == s;
        var r := ReadText(t, s[1..] + z, None);
        if ReadText(t, s + z, None) == Some((s, z)) {
          assert r.value.0 == ([s[0]] + r.value.0)[1..];
        }
      }
    }
  }

  /** A text that is not plain: what was escaped in the request once is unescaped a second time. */
  lemma UnescapedTwice(t: Tables, z: string)
    requires z != "" && z[0] == '<' && t.legal('<')
    ensures ReadText(t, "&lt;" + z, None) == Some(("<", z))
  {
    var s := "&lt;" + z;
    assert s[0] == '&' && s[1..] == "lt;" + z;
    assert ("lt;" + z)[1..] == "t;" + z && ("t;" + z)[1..] == ";" + z;
    assert UntilSemicolon(";" + z) == 0;
    assert UntilSemicolon("t;" + z) == 1;
    assert UntilSemicolon(s[1..]) == 2;
    assert s[1..][..2] == "lt" && s[4..] == z;
    assert ReadText(t, z, None) == Some(("", z)) && ['<'] + "" == "<";
  }

  // ---- Exactly which attribute values survive ----

  /** Every character is written as it is and read as it is. */
  predicate PlainValue(t: Tables, v: string) {
    v == "" || (Verbatim(t, v[0]) && v[0] != '<' && v[0] != '&' && t.legal(v[0]) && PlainValue(t, v[1..]))
  }

  // What a quoted value is read as.
  function ReadQuoted(t: Tables, v: string, z: string): Option<(string, string)> {
    ReadText(t, QuotedOnto(t, v, ['"'] + z), Some('"'))
  }

  lemma QuotedNothing(t: Tables, z: string)
    ensures ReadQuoted(t, "", z) == Some(("", z))
  {
    assert (['"'] + z)[1..] == z;
  }

  // A character that is printed as it is, and begins no tag or reference.
  lemma QuotedVerbatim(t: Tables, v: string, z: string)
    requires v != "" && Verbatim(t, v[0]) && v[0] != '&'
    ensures ReadQuoted(t, v, z) == if v[0] != '<' && t.legal(v[0]) then Prepend(v[0], ReadQuoted(t, v[1..], z)) else None
  {
    var q := QuotedOnto(t, v, ['"'] + z);
    assert q[0] == v[0] && q[1..] == QuotedOnto(t, v[1..], ['"'] + z);
  }

  // Any other character becomes a backslash first.
  lemma QuotedEscape(t: Tables, v: string, z: string)
    requires v != "" && !Verbatim(t, v[0])
    ensures ReadQuoted(t, v, z).Some? ==> ReadQuoted(t, v, z).value.0 != "" && ReadQuoted(t, v, z).value.0[0] == '\\'
  {
    var q := QuotedOnto(t, v, ['"'] + z);
    assert q[0] == '\\';
  }

  // And a backslash becomes two.
  lemma QuotedBackslash(t: Tables, v: string, z: string)
    requires v != "" && v[0] == '\\'
    ensures ReadQuoted(t, v, z) == if t.legal('\\') then Prepend('\\', Prepend('\\', ReadQuoted(t, v[1..], z))) else None
  {
    var q, r := QuotedOnto(t, v, ['"'] + z), QuotedOnto(t, v[1..], ['"'] + z);
    assert q == "\\" + ("\\" + r);
    assert q[0] == '\\' && q[1..] == "\\" + r;
    assert q[1..][0] == '\\' && q[1..][1..] == r;
    assert ReadText(t, q[1..], Some('"')) == if t.legal('\\') then Prepend('\\', ReadText(t, r, Some('"'))) else None;
  }

  lemma TailOfTail<T>(s: seq<T>, n: nat)
    requires 0 < n < |s|
    ensures s[n + 1..] == s[1..][n..] && s[n] == s[1..][n - 1]
  {
  }

  // Letters, digits and `#` up to a semicolon.
  predicate EndsReference(q: string, n: nat) {
    n < |q| && (if q[0] == ';' then n == 0 else n > 0 && (AlphaNumeric(q[0]) || q[0] == '#') && EndsReference(q[1..], n - 1))
  }

  predicate NoBackslash(s: string) {
    '\\' !in s
  }

  // They were written as they are.
  lemma {:induction false} ReferenceIsVerbatim(t: Tables, v: string, z: string, n: nat)
    requires EndsReference(QuotedOnto(t, v, ['"'] + z), n)
    ensures n < |v| && QuotedOnto(t, v, ['"'] + z)[n + 1..] == QuotedOnto(t, v[n + 1..], ['"'] + z)
    ensures NoBackslash(v[..n + 1])
    decreases n
  {
    var q := QuotedOnto(t, v, ['"'] + z);
    if v != "" && Verbatim(t, v[0]) {
      assert q[0] == v[0] && q[1..] == QuotedOnto(t, v[1..], ['"'] + z);
      if n > 0 {
        ReferenceIsVerbatim(t, v[1..], z, n - 1);
        TailOfTail(q, n);
        TailOfTail(v, n);
        assert v[..n + 1] == [v[0]] + v[1..][..n];
      } else {
        assert v[..1] == [v[0]];
      }
    }
  }

  /** A reference shrinks: what is read is one character for at least three, none of them a backslash. */
  lemma QuotedReference(t: Tables, v: string, z: string) returns (n: nat)
    requires v != "" && Verbatim(t, v[0]) && v[0] == '&' && ReadQuoted(t, v, z).Some?
    ensures 2 <= n <= |v| && ReadQuoted(t, v[n..], z).Some? && ReadQuoted(t, v, z).value.0 != ""
    ensures ReadQuoted(t, v, z).value.0[1..] == ReadQuoted(t, v[n..], z).value.0
    ensures NoBackslash(v[..n])
  {
    var q := QuotedOnto(t, v, ['"'] + z);
    assert q[0] == '&' && q[1..] == QuotedOnto(t, v[1..], ['"'] + z);
    var m := ReadReference(t, q);
    BehindReference(t, v, z, m);
    n := m + 2;
  }

  lemma BehindReference(t: Tables, v: string, z: string, m: nat)
    requires v != "" && Verbatim(t, v[0]) && EndsReference(QuotedOnto(t, v[1..], ['"'] + z), m)
    ensures m + 2 <= |v| && QuotedOnto(t, v, ['"'] + z)[m + 2..] == QuotedOnto(t, v[m + 2..], ['"'] + z)
    ensures NoBackslash(v[..m + 2])
  {
    var q := QuotedOnto(t, v, ['"'] + z);
    ReferenceIsVerbatim(t, v[1..], z, m);
    assert q[1..] == QuotedOnto(t, v[1..], ['"'] + z);
    TailOfTail(q, m + 1);
    TailOfTail(v, m + 1);
    assert v[..m + 2] == [v[0]] + v[1..][..m + 1];
  }

  lemma ReadReference(t: Tables, q: string) returns (m: nat)
    requires q != "" && q[0] == '&' && ReadText(t, q, Some('"')).Some?
    ensures EndsReference(q[1..], m) && m + 2 <= |q|
    ensures ReadText(t, q[m + 2..], Some('"')).Some? && ReadText(t, q, Some('"')).value.0 != ""
    ensures ReadText(t, q, Some('"')).value.0[1..] == ReadText(t, q[m + 2..], Some('"')).value.0
  {
    var r := q[1..];
    m := UntilSemicolon(r);
    ReferenceBody(t, r[..m]);
    assert forall i | 0 <= i < m :: r[i] == r[..m][i];
    ReferenceEnds(r, m);
  }

  lemma {:induction false} ReferenceEnds(r: string, m: nat)
    requires m < |r| && r[m] == ';' && forall i | 0 <= i < m :: AlphaNumeric(r[i]) || r[i] == '#'
    ensures EndsReference(r, m)
    decreases m
  {
    if m > 0 {
      assert forall i | 0 <= i < m - 1 :: r[1..][i] == r[i + 1];
      ReferenceEnds(r[1..], m - 1);
    }
  }

  lemma ReferenceBody(t: Tables, body: string)
    ensures Reference(t, body).Some? ==> IsReference(body)
  {
  }

  lemma NoBackslashes(a: string, b: string)
    requires NoBackslash(a) && NoBackslash(b)
    ensures NoBackslash(a + b)
  {
  }

  /** Escapes and references never cancel out: what is read is not the value behind some more characters without a backslash. */
  lemma {:induction false} NeverLonger(t: Tables, w: string, v: string, z: string)
    requires w != "" && NoBackslash(w)
    ensures ReadQuoted(t, v, z).Some? ==> ReadQuoted(t, v, z).value.0 != w + v
    decreases |v|
  {
    var r := ReadQuoted(t, v, z);
    if v == "" {
      QuotedNothing(t, z);
    } else if r.Some? && r.value.0 == w + v {
      assert (w + v)[0] == w[0];
      if !Verbatim(t, v[0]) {
        QuotedEscape(t, v, z);
        assert false;
      } else if v[0] == '&' {
        var n := QuotedReference(t, v, z);
        assert (w + v)[1..] == (w[1..] + v[..n]) + v[n..];
        NoBackslashes(w[1..], v[..n]);
        NeverLonger(t, w[1..] + v[..n], v[n..], z);
        assert false;
      } else {
        QuotedVerbatim(t, v, z);
        assert (w + v)[1..] == (w[1..] + [v[0]]) + v[1..];
        NoBackslashes(w[1..], [v[0]]);
        NeverLonger(t, w[1..] + [v[0]], v[1..], z);
        assert false;
      }
    }
  }

  function Backslashes(k: nat): string {
    seq(k, i => '\\')
  }

  // Nor behind some backslashes.
  lemma {:induction false} NeverBehindBackslashes(t: Tables, k: nat, v: string, z: string)
    requires k > 0
    ensures ReadQuoted(t, v, z).Some? ==> v != Backslashes(k) + ReadQuoted(t, v, z).value.0
    decreases |v|
  {
    var r := ReadQuoted(t, v, z);
    if r.Some? && v == Backslashes(k) + r.value.0 {
      assert v[0] == '\\';
      QuotedBackslash(t, v, z);
      var u := ReadQuoted(t, v[1..], z).value.0;
      assert r.value.0 == "\\\\" + u;
      assert v[1..] == Backslashes(k + 1) + u;
      NeverBehindBackslashes(t, k + 1, v[1..], z);
      assert false;
    }
  }

  /** An attribute value written in quotes is read back exactly when it is plain. */
  lemma {:induction false} ValueSurvives(t: Tables, v: string, z: string)
    ensures ReadQuoted(t, v, z) == Some((v, z)) <==> PlainValue(t, v)
    decreases |v|
  {
    if v == "" {
      QuotedNothing(t, z);
    } else if !Verbatim(t, v[0]) {
      if ReadQuoted(t, v, z) == Some((v, z)) {
        QuotedEscape(t, v, z);
        QuotedBackslash(t, v, z);
        EscapesDiffer(t, v, z);
        assert false;
      }
    } else if v[0] == '&' {
      if ReadQuoted(t, v, z) == Some((v, z)) {
        var n := QuotedReference(t, v, z);
        assert v[1..] == v[1..n] + v[n..] && v[..n][1..] == v[1..n];
        NeverLonger(t, v[1..n], v[n..], z);
        assert false;
      }
    } else {
      QuotedVerbatim(t, v, z);
      ValueSurvives(t, v[1..], z);
      assert v == [v[0]] + v[1..];
      var r := ReadQuoted(t, v[1..], z);
      if r.Some? && v[0] != '<' && t.legal(v[0]) {
        assert r.value.0 == ([v[0]] + r.value.0)[1..];
      }
    }
  }

  lemma EscapesDiffer(t: Tables, v: string, z: string)
    requires v != "" && v[0] == '\\' && ReadQuoted(t, v, z).Some?
    ensures ReadQuoted(t, v, z).value.0 != v
  {
    QuotedBackslash(t, v, z);
    var u := ReadQuoted(t, v[1..], z).value.0;
    if ReadQuoted(t, v, z).value.0 == v {
      assert v[1..] == Backslashes(1) + u;
      NeverBehindBackslashes(t, 1, v[1..], z);
      assert false;
    }
  }

  // ---- Trees that survive ----

  predicate GoodName(t: Tables, s: string) {
    s != "" && NameLength(s) == |s| && t.isName(s) && LocalName(s) == Some(s)
  }

  /** Names are names without a prefix, and texts and attribute values are plain. */
  predicate Clean(t: Tables, n: Node)
    decreases n
  {
    && GoodName(t, n.name) && (n.children == [] ==> PlainText(t, n.text))
    && (forall k | k in n.attrs :: GoodName(t, k) && PlainValue(t, n.attrs[k]))
    && (forall i | 0 <= i < |n.children| :: Clean(t, n.children[i]))
  }

  lemma {:induction false} NameEnds(s: string, z: string)
    requires NameLength(s) == |s| && (z == "" || !NameChar(z[0]))
    ensures NameLength(s + z) == |s|
  {
    if s == "" {
      assert s + z == z;
    } else {
      assert (s + z)[1..] == s[1..] + z;
      NameEnds(s[1..], z);
    }
  }

  lemma NameRead(t: Tables, s: string, z: string)
    requires GoodName(t, s) && (z == "" || !NameChar(z[0]))
    ensures ReadName(t, s + z) == Some((s, z)) && NameChar((s + z)[0])
  {
    NameEnds(s, z);
    assert (s + z)[..|s|] == s && (s + z)[|s|..] == z;
  }

  lemma AttrRead(t: Tables, name: string, v: string, z: string)
    requires GoodName(t, name) && PlainValue(t, v)
    ensures AttrOnto(t, name, v, z)[0] == ' ' && SkipSpace(AttrOnto(t, name, v, z)) == AttrOnto(t, name, v, z)[1..]
    ensures ReadAttr(t, AttrOnto(t, name, v, z)[1..]) == Some(Attr(name, v, z)) && NameChar(AttrOnto(t, name, v, z)[1])
  {
    var behind := ['=', '"'] + QuotedOnto(t, v, ['"'] + z);
    NameRead(t, name, behind);
    assert AttrOnto(t, name, v, z)[1..] == name + behind;
    assert SkipSpace(name + behind) == name + behind;
    ValueRead(t, name, name + behind, v, z);
  }

  lemma ValueRead(t: Tables, name: string, s: string, v: string, z: string)
    requires LocalName(name) == Some(name) && PlainValue(t, v)
    requires ReadName(t, s) == Some((name, ['=', '"'] + QuotedOnto(t, v, ['"'] + z)))
    ensures ReadAttr(t, s) == Some(Attr(name, v, z))
  {
    var q := QuotedOnto(t, v, ['"'] + z);
    var behind := ['=', '"'] + q;
    assert behind[0] == '=' && behind[1..] == ['"'] + q;
    assert (['"'] + q)[0] == '"' && (['"'] + q)[1..] == q;
    ValueSurvives(t, v, z);
  }

  // The attributes read, one after another.
  function Collected(attrs: Attributes, keys: seq<string>, found: Attributes): Attributes
    requires forall k | k in keys :: k in attrs
  {
    if keys == [] then found else Collected(attrs, keys[1..], found[keys[0] := attrs[keys[0]]])
  }

  lemma {:induction false} CollectedIs(attrs: Attributes, keys: seq<string>, found: Attributes)
    requires forall k | k in keys :: k in attrs
    requires forall k | k in found :: k in attrs && found[k] == attrs[k]
    requires forall k | k in attrs :: k in found || k in keys
    ensures Collected(attrs, keys, found) == attrs
    decreases |keys|
  {
    if keys != [] {
      assert keys == [keys[0]] + keys[1..];
      CollectedIs(attrs, keys[1..], found[keys[0] := attrs[keys[0]]]);
    }
  }

  lemma {:induction false} AttrsRead(t: Tables, attrs: Attributes, keys: seq<string>, found: Attributes, z: string)
    requires forall k | k in keys :: k in attrs && GoodName(t, k) && PlainValue(t, attrs[k])
    ensures ReadAttrs(t, AttrsOnto(t, attrs, keys, ['>'] + z), found) == Some(Tag(Collected(attrs, keys, found), false, z))
    decreases |keys|
  {
    if keys == [] {
      assert (['>'] + z)[1..] == z;
    } else {
      var more := AttrsOnto(t, attrs, keys[1..], ['>'] + z);
      AttrRead(t, keys[0], attrs[keys[0]], more);
      AttrsRead(t, attrs, keys[1..], found[keys[0] := attrs[keys[0]]], z);
    }
  }

  lemma BeforeBefore(a: seq<Event>, b: seq<Event>, r: Outcome<seq<Event>>)
    ensures Before(a, Before(b, r)) == Before(a + b, r)
  {
    if r.Done? {
      assert a + (b + r.value) == (a + b) + r.value;
    }
  }

  lemma StartRead(t: Tables, n: Node, keys: seq<string>, body: string, open: seq<string>)
    requires GoodName(t, n.name) && forall k | k in n.attrs :: GoodName(t, k) && PlainValue(t, n.attrs[k])
    requires Enumerates(keys, n.attrs)
    ensures ReadTokens(t, ['<'] + (n.name + AttrsOnto(t, n.attrs, keys, ['>'] + body)), open) ==
            Before([Start(n.name, n.attrs)], ReadTokens(t, body, open + [n.name]))
  {
    var behind := AttrsOnto(t, n.attrs, keys, ['>'] + body);
    NotNameChar(t, n.attrs, keys, body);
    NameRead(t, n.name, behind);
    AttrsRead(t, n.attrs, keys, map[], body);
    CollectedIs(n.attrs, keys, map[]);
    var s := ['<'] + (n.name + behind);
    assert s[0] == '<' && s[1..] == n.name + behind && s[1] == (n.name + behind)[0];
  }

  lemma NotNameChar(t: Tables, attrs: Attributes, keys: seq<string>, body: string)
    requires forall k | k in keys :: k in attrs
    ensures var s := AttrsOnto(t, attrs, keys, ['>'] + body); s != "" && !NameChar(s[0])
  {
  }

  lemma EndRead(t: Tables, name: string, z: string, open: seq<string>)
    requires GoodName(t, name)
    ensures ReadTokens(t, EndOnto(name, z), open + [name]) == Before([End], ReadTokens(t, z, open))
  {
    var s, behind := EndOnto(name, z), ['>'] + z;
    NameRead(t, name, behind);
    assert s[0] == '<' && s[1] == '/' && s[2..] == name + behind;
    assert SkipSpace(behind) == behind && behind[1..] == z;
    assert (open + [name])[..|open|] == open;
  }

  lemma LeafRead(t: Tables, text: string, name: string, z: string, open: seq<string>)
    requires GoodName(t, name) && PlainText(t, text)
    ensures ReadTokens(t, text + EndOnto(name, z), open + [name]) == Before(EventsOfAll(Leaf(text)) + [End], ReadTokens(t, z, open))
  {
    var end := EndOnto(name, z);
    EndRead(t, name, z, open);
    if text == "" {
      assert text + end == end;
      assert EventsOfAll(Leaf(text)) + [End] == [End];
    } else {
      TextSurvives(t, text, end);
      assert Leaf(text)[1..] == [] && EventsOfAll([]) == [];
      assert EventsOfAll(Leaf(text)) == [Text(text)];
      BeforeBefore([Text(text)], [End], ReadTokens(t, z, open));
    }
  }

  /** What is written of a clean tree is read as the tokens of its document. */
  lemma {:induction false} WrittenIsRead(t: Tables, n: Node, l: Layout, z: string, open: seq<string>)
    requires Fits(n, l) && Clean(t, n)
    ensures ReadTokens(t, WriteOnto(t, n, l, z), open) == Before(EventsOf(Reserialized(n)), ReadTokens(t, z, open))
    decreases n
  {
    var end := EndOnto(n.name, z);
    var start, inner := [Start(n.name, n.attrs)], EventsOfAll(Reserialized(n).items);
    var body := if n.children == [] then n.text + end else WriteAllOnto(t, n.children, l.below, end);
    StartRead(t, n, l.keys, body, open);
    assert ReadTokens(t, body, open + [n.name]) == Before(inner + [End], ReadTokens(t, z, open)) by {
      if n.children == [] {
        LeafRead(t, n.text, n.name, z, open);
      } else {
        AllWrittenIsRead(t, n.children, l.below, end, open + [n.name]);
        EndRead(t, n.name, z, open);
        BeforeBefore(inner, [End], ReadTokens(t, z, open));
      }
    }
    BeforeBefore(start, inner + [End], ReadTokens(t, z, open));
    assert start + (inner + [End]) == start + inner + [End];
  }

  lemma {:induction false} AllWrittenIsRead(t: Tables, ns: seq<Node>, ls: seq<Layout>, z: string, open: seq<string>)
    requires |ls| == |ns| && forall i | 0 <= i < |ns| :: Fits(ns[i], ls[i]) && Clean(t, ns[i])
    ensures ReadTokens(t, WriteAllOnto(t, ns, ls, z), open) == Before(EventsOfAll(ReserializedAll(ns)), ReadTokens(t, z, open))
    decreases ns
  {
    if ns == [] {
      NothingBefore(ReadTokens(t, z, open));
    } else {
      var items := ReserializedAll(ns);
      assert items[0] == Reserialized(ns[0]) && items[1..] == ReserializedAll(ns[1..]);
      WrittenIsRead(t, ns[0], ls[0], WriteAllOnto(t, ns[1..], ls[1..], z), open);
      AllWrittenIsRead(t, ns[1..], ls[1..], z, open);
      BeforeBefore(EventsOf(items[0]), EventsOfAll(items[1..]), ReadTokens(t, z, open));
    }
  }

  lemma NothingBefore(r: Outcome<seq<Event>>)
    ensures Before([], r) == r
  {
    if r.Done? {
      assert [] + r.value == r.value;
    }
  }

  /** A clean tree written in any order of its attributes is read back, but for the text of elements with children. */
  lemma WriteThenRead(t: Tables, n: Node, s: string)
    requires Clean(t, n) && Writes(t, n, s)
    ensures ReadTree(t, s) == Done(Stripped(n))
  {
    var l :| Fits(n, l) && s == WriteOnto(t, n, l, "");
    WrittenIsRead(t, n, l, "", []);
    assert EventsOf(Reserialized(n)) + [] == EventsOf(Reserialized(n));
    ReserializeThenDecode(n);
  }
}

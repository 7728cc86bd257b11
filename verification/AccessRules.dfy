/** Access rules: the first matching decision, and the constraints that matching LIMIT rules add to it as text. */
module AccessRules {
  import opened Outcomes
  import opened FilterAst
  import opened SqlTrees
  import opened SqlMeaning
  import Compose = CqlCompose
  import C = Compilation
  import G = CqlGrammar
  import S = CqlShape

  datatype Access = Allow | Deny | Limit | Other(text: string)

  datatype Rule = Rule(username: string, rolename: string, service: string, request: string, workspace: string, layer: string,
    access: Access, cqlRead: string, cqlWrite: string, attributes: seq<string>)

  datatype Subject = Subject(username: string, roles: seq<string>)

  datatype Query = Query(service: string, request: string, workspace: string, layer: string)

  datatype Decision = Decision(allow: bool, cqlRead: string, cqlWrite: string, attributes: seq<string>)

  // What a request is judged by. `fold` maps the characters that case-insensitive comparison identifies to one.
  datatype Context = Context(fold: char -> char, sub: Subject, query: Query)

  const REFUSED := Decision(false, "", "", [])

  // ---- Matching ----

  predicate EqualFold(fold: char -> char, a: string, b: string) {
    |a| == |b| && forall i | 0 <= i < |a| :: fold(a[i]) == fold(b[i])
  }

  predicate FieldMatch(fold: char -> char, ruleVal: string, queryVal: string) {
    ruleVal == "*" || ruleVal == "" || EqualFold(fold, ruleVal, queryVal)
  }

  predicate HasRole(fold: char -> char, ruleRole: string, roles: seq<string>) {
    ruleRole == "*" || ruleRole == "" || exists i | 0 <= i < |roles| :: EqualFold(fold, ruleRole, roles[i])
  }

  predicate Matches(ctx: Context, r: Rule) {
    && FieldMatch(ctx.fold, r.username, ctx.sub.username)
    && HasRole(ctx.fold, r.rolename, ctx.sub.roles)
    && FieldMatch(ctx.fold, r.service, ctx.query.service)
    && FieldMatch(ctx.fold, r.request, ctx.query.request)
    && FieldMatch(ctx.fold, r.workspace, ctx.query.workspace)
    && FieldMatch(ctx.fold, r.layer, ctx.query.layer)
  }

  method RoleMatch(fold: char -> char, ruleRole: string, roles: seq<string>) returns (b: bool)
    ensures b == HasRole(fold, ruleRole, roles)
  {
    if ruleRole == "*" || ruleRole == "" {
      return true;
    }
    for i := 0 to |roles|
      invariant forall j | 0 <= j < i :: !EqualFold(fold, ruleRole, roles[j])
    {
      if EqualFold(fold, ruleRole, roles[i]) {
        return true;
      }
    }
    return false;
  }

  method MatchRule(ctx: Context, r: Rule) returns (b: bool)
    ensures b == Matches(ctx, r)
  {
    var role := RoleMatch(ctx.fold, r.rolename, ctx.sub.roles);
    return FieldMatch(ctx.fold, r.username, ctx.sub.username) && role && FieldMatch(ctx.fold, r.service, ctx.query.service)
        && FieldMatch(ctx.fold, r.request, ctx.query.request) && FieldMatch(ctx.fold, r.workspace, ctx.query.workspace)
        && FieldMatch(ctx.fold, r.layer, ctx.query.layer);
  }

  // ---- The decision, rule order by rule order ----

  predicate Decides(ctx: Context, r: Rule) {
    Matches(ctx, r) && (r.access.Allow? || r.access.Deny?)
  }

  predicate Limits(ctx: Context, r: Rule) {
    Matches(ctx, r) && r.access.Limit?
  }

  /** The position of the first rule that decides, or the number of rules. */
  function FirstDecider(ctx: Context, rs: seq<Rule>): (n: nat)
    ensures n <= |rs|
  {
    if rs == [] || Decides(ctx, rs[0]) then 0 else 1 + FirstDecider(ctx, rs[1..])
  }

  /** It decides, and no rule before it does. */
  lemma {:induction false} FirstDeciderFirst(ctx: Context, rs: seq<Rule>)
    ensures var n := FirstDecider(ctx, rs);
            && (forall i | 0 <= i < n :: !Decides(ctx, rs[i]))
            && (n < |rs| ==> Decides(ctx, rs[n]))
  {
    if rs != [] && !Decides(ctx, rs[0]) {
      FirstDeciderFirst(ctx, rs[1..]);
      var n := FirstDecider(ctx, rs);
      assert forall i | 1 <= i < n :: rs[i] == rs[1..][i - 1];
    }
  }

  /** The matching LIMIT rules among `rs`, in order. */
  function LimitsAmong(ctx: Context, rs: seq<Rule>): seq<Rule> {
    if rs == [] then []
    else
      var last := rs[|rs| - 1];
      LimitsAmong(ctx, rs[..|rs| - 1]) + if Limits(ctx, last) then [last] else []
  }

  function AndCql(a: string, b: string): string {
    if a == "" then b else if b == "" then a else Compose.Joined(a, b)
  }

  /** All of `texts` joined, first to last. */
  function Conjoin(texts: seq<string>): string {
    if texts == [] then "" else AndCql(Conjoin(texts[..|texts| - 1]), texts[|texts| - 1])
  }

  function ReadTexts(rs: seq<Rule>): seq<string> {
    seq(|rs|, i requires 0 <= i < |rs| => rs[i].cqlRead)
  }

  function WriteTexts(rs: seq<Rule>): seq<string> {
    seq(|rs|, i requires 0 <= i < |rs| => rs[i].cqlWrite)
  }

  function Attributes(rs: seq<Rule>): seq<string> {
    if rs == [] then [] else Attributes(rs[..|rs| - 1]) + rs[|rs| - 1].attributes
  }

  predicate Allowed(ctx: Context, rs: seq<Rule>, defaultAllow: bool) {
    var n := FirstDecider(ctx, rs);
    if n < |rs| then rs[n].access.Allow? else defaultAllow
  }

  /** The matching LIMIT rules that stand before the decision. */
  function Constraints(ctx: Context, rs: seq<Rule>): seq<Rule> {
    LimitsAmong(ctx, rs[..FirstDecider(ctx, rs)])
  }

  /** What the constraints `ls` add up to. */
  function Combined(allow: bool, ls: seq<Rule>): Decision {
    Decision(allow, Conjoin(ReadTexts(ls)), Conjoin(WriteTexts(ls)), Attributes(ls))
  }

  function Verdict(ctx: Context, rs: seq<Rule>, defaultAllow: bool): Decision {
    if Allowed(ctx, rs, defaultAllow) then Combined(true, Constraints(ctx, rs)) else REFUSED
  }

  lemma LimitsSnoc(ctx: Context, rs: seq<Rule>, r: Rule)
    ensures LimitsAmong(ctx, rs + [r]) == LimitsAmong(ctx, rs) + if Limits(ctx, r) then [r] else []
  {
    assert (rs + [r])[..|rs|] == rs;
  }

  lemma ConjoinSnoc(ls: seq<Rule>, r: Rule)
    ensures Conjoin(ReadTexts(ls + [r])) == AndCql(Conjoin(ReadTexts(ls)), r.cqlRead)
    ensures Conjoin(WriteTexts(ls + [r])) == AndCql(Conjoin(WriteTexts(ls)), r.cqlWrite)
    ensures Attributes(ls + [r]) == Attributes(ls) + r.attributes
  {
    assert ReadTexts(ls + [r])[..|ls|] == ReadTexts(ls);
    assert WriteTexts(ls + [r])[..|ls|] == WriteTexts(ls);
    assert (ls + [r])[..|ls|] == ls;
  }

  lemma {:induction false} FirstDeciderIs(ctx: Context, rs: seq<Rule>, n: nat)
    requires n <= |rs| && (forall i | 0 <= i < n :: !Decides(ctx, rs[i])) && (n < |rs| ==> Decides(ctx, rs[n]))
    ensures FirstDecider(ctx, rs) == n
  {
    if n > 0 {
      FirstDeciderIs(ctx, rs[1..], n - 1);
    }
  }

  lemma CombinedSnoc(ctx: Context, rs: seq<Rule>, r: Rule)
    ensures var d := Combined(false, LimitsAmong(ctx, rs));
            Combined(false, LimitsAmong(ctx, rs + [r])) ==
            if Limits(ctx, r) then Decision(false, AndCql(d.cqlRead, r.cqlRead), AndCql(d.cqlWrite, r.cqlWrite), d.attributes + r.attributes)
            else d
  {
    var ls := LimitsAmong(ctx, rs);
    LimitsSnoc(ctx, rs, r);
    if Limits(ctx, r) {
      ConjoinSnoc(ls, r);
    } else {
      assert ls + [] == ls;
    }
  }

  lemma VerdictAt(ctx: Context, rs: seq<Rule>, n: nat, defaultAllow: bool)
    requires n <= |rs| && (forall i | 0 <= i < n :: !Decides(ctx, rs[i])) && (n < |rs| ==> Decides(ctx, rs[n]))
    ensures Verdict(ctx, rs, defaultAllow) ==
      if (if n < |rs| then rs[n].access.Allow? else defaultAllow) then Combined(true, LimitsAmong(ctx, rs[..n])) else REFUSED
  {
    FirstDeciderIs(ctx, rs, n);
  }

  /** The rules, highest priority first, against one request. */
  method Evaluate(ctx: Context, rs: seq<Rule>, defaultAllow: bool) returns (d: Decision)
    ensures d == Verdict(ctx, rs, defaultAllow)
  {
    d := REFUSED;
    for i := 0 to |rs|
      invariant forall j | 0 <= j < i :: !Decides(ctx, rs[j])
      invariant d == Combined(false, LimitsAmong(ctx, rs[..i]))
    {
      var r := rs[i];
      assert rs[..i + 1] == rs[..i] + [r];
      CombinedSnoc(ctx, rs[..i], r);
      var hit := MatchRule(ctx, r);
      if hit {
        match r.access {
          case Limit =>
            d := Decision(d.allow, AndCql(d.cqlRead, r.cqlRead), AndCql(d.cqlWrite, r.cqlWrite), d.attributes + r.attributes);
          case Allow =>
            VerdictAt(ctx, rs, i, defaultAllow);
            return d.(allow := true);
          case Deny =>
            VerdictAt(ctx, rs, i, defaultAllow);
            return REFUSED;
          case Other(_) =>
        }
      }
    }
    VerdictAt(ctx, rs, |rs|, defaultAllow);
    d := d.(allow := defaultAllow);
    if !d.allow {
      return REFUSED;
    }
  }

  // ---- Constraints as filters ----

  type Parser = string -> Outcome<Expr>

  // What is needed of the parser that a constraint ends up at; both engines have it.
  ghost predicate Composes(parse: Parser) {
    && (forall s: string :: parse(s).Done? ==> Formula(parse(s).value))
    && (forall a: string, b: string {:trigger Compose.Joined(a, b)} :: parse(a).Done? && parse(b).Done? ==>
         parse(Compose.Joined(a, b)) == Done(Logic(And, [parse(a).value, parse(b).value])))
  }

  function GoParser(conv: S.Conversion): Parser {
    (text: string) => G.ParseCql(S.GoReader(conv), text)
  }

  function RustParser(conv: S.Conversion): Parser {
    (text: string) => G.ParseCql(S.RustReader(conv), text)
  }

  /** Both parsers return formulas only, and parse bracketed filters with AND between them to their conjunction. */
  lemma EnginesCompose(conv: S.Conversion)
    ensures Composes(GoParser(conv)) && Composes(RustParser(conv))
  {
    forall s: string
      ensures GoParser(conv)(s).Done? ==> Formula(GoParser(conv)(s).value)
      ensures RustParser(conv)(s).Done? ==> Formula(RustParser(conv)(s).value)
    {
      ParsedIsFormula(conv, s);
    }
    forall a: string, b: string
      ensures GoParser(conv)(a).Done? && GoParser(conv)(b).Done? ==>
        GoParser(conv)(Compose.Joined(a, b)) == Done(Logic(And, [GoParser(conv)(a).value, GoParser(conv)(b).value]))
      ensures RustParser(conv)(a).Done? && RustParser(conv)(b).Done? ==>
        RustParser(conv)(Compose.Joined(a, b)) == Done(Logic(And, [RustParser(conv)(a).value, RustParser(conv)(b).value]))
    {
      JoinedBoth(conv, a, b);
    }
  }

  lemma ParsedIsFormula(conv: S.Conversion, s: string)
    ensures G.ParseCql(S.GoReader(conv), s).Done? ==> Formula(G.ParseCql(S.GoReader(conv), s).value)
    ensures G.ParseCql(S.RustReader(conv), s).Done? ==> Formula(G.ParseCql(S.RustReader(conv), s).value)
  {
    S.ParsedIsShaped(conv, s);
    var go, rust := G.ParseCql(S.GoReader(conv), s), G.ParseCql(S.RustReader(conv), s);
    if go.Done? {
      C.ShapedIsFormula(go.value);
    }
    if rust.Done? {
      C.ShapedIsFormula(rust.value);
    }
  }

  lemma JoinedBoth(conv: S.Conversion, a: string, b: string)
    ensures var num := S.GoReader(conv);
            G.ParseCql(num, a).Done? && G.ParseCql(num, b).Done? ==>
            G.ParseCql(num, Compose.Joined(a, b)) == Done(Logic(And, [G.ParseCql(num, a).value, G.ParseCql(num, b).value]))
    ensures var num := S.RustReader(conv);
            G.ParseCql(num, a).Done? && G.ParseCql(num, b).Done? ==>
            G.ParseCql(num, Compose.Joined(a, b)) == Done(Logic(And, [G.ParseCql(num, a).value, G.ParseCql(num, b).value]))
  {
    if G.ParseCql(S.GoReader(conv), a).Done? && G.ParseCql(S.GoReader(conv), b).Done? {
      Compose.JoinedParses(S.GoReader(conv), a, b);
    }
    if G.ParseCql(S.RustReader(conv), a).Done? && G.ParseCql(S.RustReader(conv), b).Done? {
      Compose.JoinedParses(S.RustReader(conv), a, b);
    }
  }

  // A constraint is empty or a filter.
  predicate IsConstraint(parse: Parser, text: string) {
    text == "" || parse(text).Done?
  }

  predicate AreConstraints(parse: Parser, texts: seq<string>) {
    forall text | text in texts :: IsConstraint(parse, text)
  }

  /** The trees of the texts that are not empty, folded from the left. */
  function FoldedTree(parse: Parser, texts: seq<string>): Option<Expr>
    requires AreConstraints(parse, texts)
  {
    if texts == [] then None
    else
      var last := texts[|texts| - 1];
      var front := FoldedTree(parse, texts[..|texts| - 1]);
      if last == "" then front
      else
        assert last in texts;
        var e := parse(last).value;
        match front
        case None => Some(e)
        case Some(x) => Some(Logic(And, [x, e]))
  }

  /**
   Composing constraints as text is conjunction: when each of them parses, so does the composed text, and to the
   left fold of their trees under AND. It is empty exactly when all of them are.
   */
  lemma {:induction false} ConjoinedParses(parse: Parser, texts: seq<string>)
    requires Composes(parse)
    requires AreConstraints(parse, texts)
    ensures match FoldedTree(parse, texts)
            case None => Conjoin(texts) == ""
            case Some(e) => Conjoin(texts) != "" && parse(Conjoin(texts)) == Done(e)
    decreases |texts|
  {
    if texts != [] {
      var front, last := texts[..|texts| - 1], texts[|texts| - 1];
      assert texts == front + [last];
      ConjoinedParses(parse, front);
      assert last in texts;
      if last != "" && Conjoin(front) != "" {
        assert parse(Compose.Joined(Conjoin(front), last)).Done?;
        assert Compose.Joined(Conjoin(front), last)[0] == '(';
      }
    }
  }

  // ---- Rows a decision shows ----

  /** A constraint admits a row when it is empty or its filter is true there. */
  predicate Admits<V>(w: World<V>, parse: Parser, text: string) {
    text == "" || (parse(text).Done? && Formula(parse(text).value) && Holds(w, parse(text).value) == True)
  }

  lemma ConjunctionIsFormula(x: Expr, y: Expr)
    requires Formula(x) && Formula(y)
    ensures Formula(Logic(And, [x, y]))
  {
    var e := Logic(And, [x, y]);
    assert e.exprs[0] == x && e.exprs[1] == y;
  }

  lemma ConjunctionHolds<V>(w: World<V>, x: Expr, y: Expr)
    requires Formula(x) && Formula(y)
    ensures Formula(Logic(And, [x, y]))
    ensures Holds(w, Logic(And, [x, y])) == True <==> Holds(w, x) == True && Holds(w, y) == True
  {
    var e := Logic(And, [x, y]);
    assert e.exprs[0] == x && e.exprs[1] == y;
    var xs := seq(|e.exprs|, i requires 0 <= i < |e.exprs| => Holds(w, e.exprs[i]));
    assert xs == [Holds(w, x), Holds(w, y)];
    assert xs[0] in xs && xs[1] in xs;
    assert Holds(w, e) == All3(xs);
  }

  lemma DisjunctionHolds<V>(w: World<V>, x: Expr, y: Expr)
    requires Formula(x) && Formula(y) && Holds(w, y) == True
    ensures Formula(Logic(Or, [x, y])) && Holds(w, Logic(Or, [x, y])) == True
  {
    var e := Logic(Or, [x, y]);
    assert e.exprs[0] == x && e.exprs[1] == y;
    var xs := seq(|e.exprs|, i requires 0 <= i < |e.exprs| => Holds(w, e.exprs[i]));
    assert xs[1] in xs;
    assert Holds(w, e) == Any3(xs);
  }

  /**
   That each constraint parses is needed: two filters with `) OR (` between them are none, but composed with a
   constraint they become one that admits every row the second of them holds on, whatever the constraint says.
   */
  lemma UncheckedConstraintAdmits<V>(w: World<V>, conv: S.Conversion, a: string, x: string, y: string)
    requires GoParser(conv)(a).Done? && a != "" && GoParser(conv)(x).Done? && GoParser(conv)(y).Done?
    ensures Formula(GoParser(conv)(y).value)
    ensures !IsConstraint(GoParser(conv), Compose.Unbalanced(x, y))
    ensures Holds(w, GoParser(conv)(y).value) == True ==> Admits(w, GoParser(conv), AndCql(a, Compose.Unbalanced(x, y)))
  {
    var num := S.GoReader(conv);
    Compose.UnbalancedComposes(num, a, x, y);
    ParsedIsFormula(conv, a);
    ParsedIsFormula(conv, x);
    ParsedIsFormula(conv, y);
    ConjunctionIsFormula(G.ParseCql(num, a).value, G.ParseCql(num, x).value);
    if Holds(w, G.ParseCql(num, y).value) == True {
      DisjunctionHolds(w, Logic(And, [G.ParseCql(num, a).value, G.ParseCql(num, x).value]), G.ParseCql(num, y).value);
    }
  }

  lemma JoinedAdmits<V>(w: World<V>, parse: Parser, a: string, b: string)
    requires Composes(parse)
    requires IsConstraint(parse, a) && IsConstraint(parse, b)
    ensures Admits(w, parse, AndCql(a, b)) <==> Admits(w, parse, a) && Admits(w, parse, b)
  {
    if a != "" && b != "" {
      assert parse(Compose.Joined(a, b)).Done?;
      assert Compose.Joined(a, b)[0] == '(';
      ConjunctionHolds(w, parse(a).value, parse(b).value);
    }
  }

  /** The composed text admits exactly the rows that every constraint admits. */
  lemma {:induction false} ConjoinedAdmits<V>(w: World<V>, parse: Parser, texts: seq<string>)
    requires Composes(parse)
    requires AreConstraints(parse, texts)
    ensures Admits(w, parse, Conjoin(texts)) <==> forall text | text in texts :: Admits(w, parse, text)
    decreases |texts|
  {
    if texts != [] {
      var n := |texts| - 1;
      var front := texts[..n];
      ConjoinedAdmits(w, parse, front);
      ConjoinedParses(parse, front);
      JoinedAdmits(w, parse, Conjoin(front), texts[n]);
      assert texts == front + [texts[n]];
    }
  }

  // ---- Inserting a LIMIT rule ----

  function Insert(rs: seq<Rule>, i: nat, r: Rule): seq<Rule>
    requires i <= |rs|
  {
    rs[..i] + [r] + rs[i..]
  }

  lemma FrontAndLast(a: seq<Rule>, b: seq<Rule>)
    requires b != []
    ensures var front, last := b[..|b| - 1], b[|b| - 1];
            b == front + [last] && a + b == (a + front) + [last]
  {
  }

  lemma {:induction false} LimitsConcat(ctx: Context, a: seq<Rule>, b: seq<Rule>)
    ensures LimitsAmong(ctx, a + b) == LimitsAmong(ctx, a) + LimitsAmong(ctx, b)
    decreases |b|
  {
    if b == [] {
      assert a + b == a;
      assert LimitsAmong(ctx, a) + [] == LimitsAmong(ctx, a);
    } else {
      var front, last := b[..|b| - 1], b[|b| - 1];
      LimitsConcat(ctx, a, front);
      FrontAndLast(a, b);
      LimitsSnoc(ctx, a + front, last);
      LimitsSnoc(ctx, front, last);
    }
  }

  lemma InsertedDecider(ctx: Context, rs: seq<Rule>, i: nat, r: Rule)
    requires i <= |rs| && r.access.Limit?
    ensures var n := FirstDecider(ctx, rs);
            FirstDecider(ctx, Insert(rs, i, r)) == if i <= n then n + 1 else n
  {
    var n, rs' := FirstDecider(ctx, rs), Insert(rs, i, r);
    FirstDeciderFirst(ctx, rs);
    assert forall j | 0 <= j < |rs'| :: rs'[j] == if j < i then rs[j] else if j == i then r else rs[j - 1];
    FirstDeciderIs(ctx, rs', if i <= n then n + 1 else n);
  }

  lemma LimitsAround(ctx: Context, a: seq<Rule>, r: Rule, b: seq<Rule>)
    requires r.access.Limit?
    ensures LimitsAmong(ctx, a + [r] + b) == LimitsAmong(ctx, a) + (if Matches(ctx, r) then [r] else []) + LimitsAmong(ctx, b)
  {
    LimitsConcat(ctx, a + [r], b);
    LimitsSnoc(ctx, a, r);
  }

  lemma InsertSlices(rs: seq<Rule>, i: nat, n: nat, r: Rule)
    requires i <= |rs| && n <= |rs|
    ensures if i <= n then Insert(rs, i, r)[..n + 1] == rs[..i] + [r] + rs[i..n] && rs[..n] == rs[..i] + rs[i..n]
            else Insert(rs, i, r)[..n] == rs[..n]
  {
  }

  lemma InsertedBefore(ctx: Context, rs: seq<Rule>, i: nat, r: Rule, n: nat)
    requires i <= n <= |rs| && r.access.Limit?
    ensures var a, b := LimitsAmong(ctx, rs[..i]), LimitsAmong(ctx, rs[i..n]);
            && LimitsAmong(ctx, rs[..n]) == a + b
            && LimitsAmong(ctx, Insert(rs, i, r)[..n + 1]) == a + (if Matches(ctx, r) then [r] else []) + b
  {
    InsertSlices(rs, i, n, r);
    LimitsAround(ctx, rs[..i], r, rs[i..n]);
    LimitsConcat(ctx, rs[..i], rs[i..n]);
  }

  lemma ConstraintsUpTo(ctx: Context, rs: seq<Rule>, n: nat)
    requires FirstDecider(ctx, rs) == n
    ensures Constraints(ctx, rs) == LimitsAmong(ctx, rs[..n])
  {
  }

  /** The inserted rule joins the constraints when it matches and stands before the decision; nothing else changes. */
  lemma InsertedConstraints(ctx: Context, rs: seq<Rule>, i: nat, r: Rule)
    requires i <= |rs| && r.access.Limit?
    ensures var n := FirstDecider(ctx, rs);
            if i <= n then
              var a, b := LimitsAmong(ctx, rs[..i]), LimitsAmong(ctx, rs[i..n]);
              && Constraints(ctx, rs) == a + b
              && Constraints(ctx, Insert(rs, i, r)) == a + (if Matches(ctx, r) then [r] else []) + b
            else Constraints(ctx, Insert(rs, i, r)) == Constraints(ctx, rs)
  {
    var n := FirstDecider(ctx, rs);
    InsertedDecider(ctx, rs, i, r);
    ConstraintsUpTo(ctx, rs, n);
    ConstraintsUpTo(ctx, Insert(rs, i, r), if i <= n then n + 1 else n);
    if i <= n {
      InsertedBefore(ctx, rs, i, r, n);
    } else {
      InsertSlices(rs, i, n, r);
    }
  }

  function Texts(write: bool, ls: seq<Rule>): seq<string> {
    if write then WriteTexts(ls) else ReadTexts(ls)
  }

  function Filter(write: bool, r: Rule): string {
    if write then r.cqlWrite else r.cqlRead
  }

  /** Whether a decision lets a row be read, or written. */
  predicate Shows<V>(w: World<V>, parse: Parser, write: bool, d: Decision) {
    d.allow && Admits(w, parse, if write then d.cqlWrite else d.cqlRead)
  }

  lemma TextsInserted(write: bool, a: seq<Rule>, r: Rule, b: seq<Rule>)
    ensures Texts(write, a + [r] + b) == Texts(write, a) + [Filter(write, r)] + Texts(write, b)
    ensures Texts(write, a + b) == Texts(write, a) + Texts(write, b)
  {
  }

  lemma AdmitsInserted<V>(w: World<V>, parse: Parser, a: seq<string>, t: string, b: seq<string>)
    requires Composes(parse)
    requires AreConstraints(parse, a + [t] + b)
    ensures Admits(w, parse, Conjoin(a + [t] + b)) <==> Admits(w, parse, Conjoin(a + b)) && Admits(w, parse, t)
  {
    var all, rest := a + [t] + b, a + b;
    assert forall x :: x in all <==> x in rest || x == t;
    ConjoinedAdmits(w, parse, all);
    ConjoinedAdmits(w, parse, rest);
  }

  lemma ShowsWhat<V>(w: World<V>, parse: Parser, write: bool, ctx: Context, rs: seq<Rule>, defaultAllow: bool)
    ensures Shows(w, parse, write, Verdict(ctx, rs, defaultAllow)) <==>
            Allowed(ctx, rs, defaultAllow) && Admits(w, parse, Conjoin(Texts(write, Constraints(ctx, rs))))
    ensures Verdict(ctx, rs, defaultAllow).allow == Allowed(ctx, rs, defaultAllow)
  {
  }

  lemma RulesAdmit<V>(w: World<V>, parse: Parser, write: bool, a: seq<Rule>, r: Rule, b: seq<Rule>)
    requires Composes(parse)
    requires AreConstraints(parse, Texts(write, a + [r] + b))
    ensures Admits(w, parse, Conjoin(Texts(write, a + [r] + b))) <==>
            Admits(w, parse, Conjoin(Texts(write, a + b))) && Admits(w, parse, Filter(write, r))
  {
    TextsInserted(write, a, r, b);
    AdmitsInserted(w, parse, Texts(write, a), Filter(write, r), Texts(write, b));
  }

  lemma ConstraintsAdmit<V>(w: World<V>, parse: Parser, write: bool, ctx: Context, rs: seq<Rule>, i: nat, r: Rule)
    requires Composes(parse)
    requires i <= |rs| && r.access.Limit?
    requires AreConstraints(parse, Texts(write, Constraints(ctx, Insert(rs, i, r))))
    ensures Admits(w, parse, Conjoin(Texts(write, Constraints(ctx, Insert(rs, i, r))))) <==>
            Admits(w, parse, Conjoin(Texts(write, Constraints(ctx, rs))))
            && (i <= FirstDecider(ctx, rs) && Matches(ctx, r) ==> Admits(w, parse, Filter(write, r)))
  {
    var n := FirstDecider(ctx, rs);
    InsertedConstraints(ctx, rs, i, r);
    if i <= n {
      var a, b := LimitsAmong(ctx, rs[..i]), LimitsAmong(ctx, rs[i..n]);
      if Matches(ctx, r) {
        RulesAdmit(w, parse, write, a, r, b);
      } else {
        assert a + [] == a;
      }
    }
  }

  /**
   A LIMIT rule inserted anywhere never changes whether a request is allowed, and never shows a row that was not
   shown: what it still shows are the rows its own filter admits, if it matches and stands before the decision,
   and all of them otherwise.
   */
  lemma InsertLimit<V>(w: World<V>, parse: Parser, write: bool, ctx: Context, rs: seq<Rule>, i: nat, r: Rule, defaultAllow: bool)
    requires Composes(parse)
    requires i <= |rs| && r.access.Limit?
    requires AreConstraints(parse, Texts(write, Constraints(ctx, Insert(rs, i, r))))
    ensures var before, after := Verdict(ctx, rs, defaultAllow), Verdict(ctx, Insert(rs, i, r), defaultAllow);
            && after.allow == before.allow
            && (Shows(w, parse, write, after) <==>
                 Shows(w, parse, write, before)
                 && (i <= FirstDecider(ctx, rs) && Matches(ctx, r) ==> Admits(w, parse, Filter(write, r))))
  {
    SameAllowance(ctx, rs, i, r, defaultAllow);
    ShowsWhat(w, parse, write, ctx, rs, defaultAllow);
    ShowsWhat(w, parse, write, ctx, Insert(rs, i, r), defaultAllow);
    ConstraintsAdmit(w, parse, write, ctx, rs, i, r);
  }

  lemma SameAllowance(ctx: Context, rs: seq<Rule>, i: nat, r: Rule, defaultAllow: bool)
    requires i <= |rs| && r.access.Limit?
    ensures Allowed(ctx, Insert(rs, i, r), defaultAllow) == Allowed(ctx, rs, defaultAllow)
  {
    InsertedDecider(ctx, rs, i, r);
    var n, rs' := FirstDecider(ctx, rs), Insert(rs, i, r);
    assert n < |rs| ==> rs'[if i <= n then n + 1 else n] == rs[n];
  }
}

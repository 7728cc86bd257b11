/**
 WFS Update and Delete: the filter of an operation and the write filter of its request, the condition whose rows are
 checked for locks and the condition of the edit itself.
 */
module FeatureEdits {
  import opened Outcomes
  import opened FilterAst
  import opened SqlCompiler
  import opened SqlFragments
  import opened SqlReader
  import opened SqlTrees
  import opened SqlMeaning
  import opened WhereClauses
  import opened Whitespace
  import opened XmlTree
  import A = AccessRules
  import C = Compilation
  import G = CqlGrammar
  import GoCql
  import GoSql
  import Locks = LockStore
  import S = CqlShape
  import X = GoFilterXml

  // How numerals are read: in filter text, in filter XML, and in feature ids.
  datatype Reading = Reading(conv: S.Conversion, numbers: X.Numbers, parse: string -> Option<Float>)

  // ---- The filter of an operation ----

  function Find(ns: seq<Node>, name: string): (r: Option<Node>)
    ensures r.Some? ==> r.value in ns
  {
    if ns == [] then None else if ns[0].name == name then Some(ns[0]) else Find(ns[1..], name)
  }

  function Attribute(n: Node, name: string): string {
    if name in n.attrs then n.attrs[name] else ""
  }

  // What names a feature: the fid of a FeatureId or the rid of a ResourceId.
  function RawId(n: Node): string {
    if n.name == "FeatureId" then Attribute(n, "fid") else if n.name == "ResourceId" then Attribute(n, "rid") else ""
  }

  function AfterLastDot(s: string): string
  {
    if '.' in s then AfterLastDot(s[1..]) else s
  }

  /** The test on the id column that the first feature id among some elements stands for. */
  function FeatureIdFilter(parse: string -> Option<Float>, ns: seq<Node>): Option<Expr> {
    if ns == [] then None
    else if RawId(ns[0]) == "" then FeatureIdFilter(parse, ns[1..])
    else
      var id := AfterLastDot(RawId(ns[0]));
      var lit := match parse(id) case Some(v) => Num(v) case None => Str(id);
      Some(Compare(Eq, Property("id"), Literal(lit)))
  }

  // What the Filter element of an operation stands for: absent, not convertible, or converted.
  type FilterElement = Option<Outcome<Expr>>

  /** A Filter element is a feature id, or a filter that is written out and read back before it is converted. */
  function ElementFilter(rd: Reading, op: Node): FilterElement {
    match Find(op.children, "Filter")
    case None => None
    case Some(f) =>
      match FeatureIdFilter(rd.parse, f.children)
      case Some(e) => Some(Done(e))
      case None => Some(X.ParseFilter(rd.numbers, Result(FeedAll(EMPTY, EventsOf(Reserialized(f))))))
  }

  lemma {:induction false} FeatureIdIsFormula(parse: string -> Option<Float>, ns: seq<Node>)
    ensures FeatureIdFilter(parse, ns).Some? ==> Formula(FeatureIdFilter(parse, ns).value)
  {
    if ns != [] {
      FeatureIdIsFormula(parse, ns[1..]);
    }
  }

  lemma ElementIsFormula(rd: Reading, op: Node)
    ensures var element := ElementFilter(rd, op);
            element.Some? && element.value.Done? ==> Formula(element.value.value)
  {
    var found := Find(op.children, "Filter");
    if found.Some? {
      FeatureIdIsFormula(rd.parse, found.value.children);
      var root := Result(FeedAll(EMPTY, EventsOf(Reserialized(found.value))));
      if root.Done? && root.value.children != [] {
        X.ConvertIsFormula(rd.numbers, root.value.children[0]);
      }
    }
  }

  /** Between elements that hold only blank text, the filter is the one that stands in the operation. */
  lemma ElementIsItsFilter(rd: Reading, op: Node, f: Node)
    requires Find(op.children, "Filter") == Some(f) && X.BlankBetween(f) && FeatureIdFilter(rd.parse, f.children).None?
    ensures ElementFilter(rd, op) == Some(X.ParseFilter(rd.numbers, Done(f)))
  {
    X.ReserializedFilter(rd.numbers, f);
  }

  // ---- What the conditions are ----

  function AndExpr(a: Option<Expr>, b: Expr): Expr {
    match a
    case None => b
    case Some(x) => Logic(And, [x, b])
  }

  /** The filter an edit is restricted to: its Filter element and the write filter of the request, if that parses. */
  function EditFilter(rd: Reading, op: Node, authCql: string): Outcome<Option<Expr>> {
    var element := ElementFilter(rd, op);
    if element.Some? && element.value.Fail? then Fail
    else
      var own := if element.Some? then Some(element.value.value) else None;
      var auth := G.ParseCql(S.GoReader(rd.conv), authCql);
      if authCql != "" && auth.Done? then Done(Some(AndExpr(own, auth.value))) else Done(own)
  }

  function WhereOf(f: Option<Expr>, k: nat): Outcome<Sql> {
    match f
    case None => Done(Sql("", []))
    case Some(e) =>
      var s :- Emit(e, k);
      Done(Sql(" WHERE " + s.text, s.args))
  }

  function EditWhere(rd: Reading, op: Node, authCql: string, k: nat): Outcome<Sql> {
    var f :- EditFilter(rd, op, authCql);
    WhereOf(f, k)
  }

  // ---- The handlers ----

  method TxFilterWhere(rd: Reading, op: Node, authCql: string, startArg: nat) returns (r: Outcome<Sql>)
    ensures r == EditWhere(rd, op, authCql, startArg)
  {
    var expr: Option<Expr> := None;
    var node := Find(op.children, "Filter");
    if node.Some? {
      var id := FeatureIdFilter(rd.parse, node.value.children);
      if id.Some? {
        expr := id;
      } else {
        var root := Decode(EventsOf(Reserialized(node.value)), false);
        if root.Fail? || root.value.name != "Filter" || root.value.children == [] {
          return Fail;
        }
        var parsed :- X.ConvertNode(rd.numbers, root.value.children[0]);
        expr := Some(parsed);
      }
    }
    if authCql != "" {
      var e := GoCql.ParseCql(authCql, rd.conv);
      if e.Done? {
        expr := Some(AndExpr(expr, e.value));
      }
    }
    if expr.None? {
      return Done(Sql("", []));
    }
    var s :- GoSql.ToSql(expr.value, startArg);
    return Done(Sql(" WHERE " + s.text, s.args));
  }

  datatype Assignment = Assignment(name: string, value: string)

  /** What an element inside a Property says about its assignment; later ones overwrite earlier ones. */
  function Assigned(a: Assignment, n: Node): Assignment {
    if n.name == "Name" || n.name == "ValueReference" then a.(name := Trim(n.text))
    else if n.name == "Value" then a.(value := Trim(n.text))
    else a
  }

  function AssignmentOf(ns: seq<Node>): Assignment {
    if ns == [] then Assignment("", "") else Assigned(AssignmentOf(ns[..|ns| - 1]), ns[|ns| - 1])
  }

  /** The assignments of an Update, one for every Property. */
  function Assignments(ns: seq<Node>): seq<Assignment> {
    if ns == [] then []
    else
      Assignments(ns[..|ns| - 1]) + if ns[|ns| - 1].name == "Property" then [AssignmentOf(ns[|ns| - 1].children)] else []
  }

  function SetTexts(props: seq<Assignment>, k: nat): seq<string>
    decreases |props|
  {
    if props == [] then []
    else ["\"" + props[0].name + "\"" + " = " + Placeholder(k)] + SetTexts(props[1..], k + 1)
  }

  function SetArgs(props: seq<Assignment>): Args {
    seq(|props|, i requires 0 <= i < |props| => Str(props[i].value))
  }

  predicate AllNamed(props: seq<Assignment>) {
    forall i | 0 <= i < |props| :: IsIdentifier(props[i].name)
  }

  lemma SetTextsSnoc(props: seq<Assignment>, a: Assignment, k: nat)
    ensures SetTexts(props + [a], k) == SetTexts(props, k) + ["\"" + a.name + "\"" + " = " + Placeholder(k + |props|)]
    decreases |props|
  {
    if props != [] {
      assert (props + [a])[1..] == props[1..] + [a];
      SetTextsSnoc(props[1..], a, k + 1);
    }
  }

  lemma NameAdded(props: seq<Assignment>, a: Assignment)
    ensures AllNamed(props + [a]) <==> AllNamed(props) && IsIdentifier(a.name)
  {
    var all := props + [a];
    assert all[|props|] == a;
    if AllNamed(all) {
      forall i | 0 <= i < |props|
        ensures IsIdentifier(props[i].name)
      {
        assert all[i] == props[i];
      }
    }
  }

  lemma ArgAdded(props: seq<Assignment>, a: Assignment)
    ensures SetArgs(props + [a]) == SetArgs(props) + [Str(a.value)]
  {
  }

  method ReadAssignment(ns: seq<Node>) returns (a: Assignment)
    ensures a == AssignmentOf(ns)
  {
    a := Assignment("", "");
    for i := 0 to |ns|
      invariant a == AssignmentOf(ns[..i])
    {
      assert ns[..i + 1][..i] == ns[..i];
      a := Assigned(a, ns[i]);
    }
    assert ns[..|ns|] == ns;
  }

  lemma AssignmentsSnoc(ns: seq<Node>, i: nat)
    requires i < |ns|
    ensures Assignments(ns[..i + 1]) == Assignments(ns[..i]) + if ns[i].name == "Property" then [AssignmentOf(ns[i].children)] else []
  {
    assert ns[..i + 1][..i] == ns[..i];
  }

  lemma {:induction false} UnnamedFails(ns: seq<Node>, i: nat)
    requires i <= |ns| && !AllNamed(Assignments(ns[..i]))
    ensures !AllNamed(Assignments(ns))
    decreases |ns| - i
  {
    if i < |ns| {
      AssignmentsSnoc(ns, i);
      var front, whole := Assignments(ns[..i]), Assignments(ns[..i + 1]);
      assert forall j | 0 <= j < |front| :: whole[j] == front[j];
      UnnamedFails(ns, i + 1);
    } else {
      assert ns[..i] == ns;
    }
  }

  /** The assignments of an Update, and their values as arguments from `$1`. */
  method SetClauses(ns: seq<Node>) returns (r: Outcome<(seq<string>, Args)>)
    ensures var props := Assignments(ns);
            r == if AllNamed(props) then Done((SetTexts(props, 1), SetArgs(props))) else Fail
  {
    var sets: seq<string>, args: Args, argn := [], [], 1;
    for i := 0 to |ns|
      invariant argn == |Assignments(ns[..i])| + 1
      invariant AllNamed(Assignments(ns[..i]))
      invariant sets == SetTexts(Assignments(ns[..i]), 1) && args == SetArgs(Assignments(ns[..i]))
    {
      ghost var props := Assignments(ns[..i]);
      AssignmentsSnoc(ns, i);
      if ns[i].name == "Property" {
        var a := ReadAssignment(ns[i].children);
        NameAdded(props, a);
        SetTextsSnoc(props, a, 1);
        ArgAdded(props, a);
        var c := QuoteIdent(a.name);
        if c.Fail? {
          UnnamedFails(ns, i + 1);
          return Fail;
        }
        sets := sets + [c.value + " = " + Placeholder(argn)];
        args := args + [Str(a.value)];
        argn := argn + 1;
      } else {
        assert props + [] == props;
      }
    }
    assert ns[..|ns|] == ns;
    return Done((sets, args));
  }

  // ---- Rows, and the features that are checked for locks ----

  // A row of the table and, when it has an id column that is not null there, its id.
  datatype Row<!V> = Row(world: World<V>, id: Option<string>)

  // The condition of a WHERE clause.
  function ConditionOf(where: string): string {
    if |where| < |" WHERE "| then "" else where[|" WHERE "|..]
  }

  /** The database selects a row when the clause is absent, or its condition is true there with the arguments bound. */
  predicate Selects<V>(w: World<V>, where: string, args: Args) {
    where == "" || (ReadCondition(ConditionOf(where)).Done? && TruthOf(w, BindAll(args), ReadCondition(ConditionOf(where)).value) == True)
  }

  /** The ids of the rows that a condition selects; none when the query fails. */
  function LockedIds<V>(rows: seq<Row<V>>, queried: bool, where: Sql): set<string> {
    set i | queried && 0 <= i < |rows| && rows[i].id.Some? && Selects(rows[i].world, where.text, where.args) :: rows[i].id.value
  }

  function UpdateText(table: string, sets: seq<string>, where: string): string {
    "UPDATE " + table + " SET " + Join(sets, ", ") + where
  }

  function UpdateOf(table: string, props: seq<Assignment>, where: Sql): Sql {
    Sql(UpdateText("\"" + table + "\"", SetTexts(props, 1), where.text), SetArgs(props) + where.args)
  }

  function DeleteOf(table: string, where: Sql): Sql {
    Sql("DELETE FROM " + ("\"" + table + "\"") + where.text, where.args)
  }

  // No other lock holds a feature that the condition selects, if it compiles.
  predicate IsFree<V>(issued: Locks.Locks, now: int, table: string, rows: seq<Row<V>>, queried: bool, check: Outcome<Sql>, own: string) {
    check.Done? ==> !Locks.Held(issued, now, table, LockedIds(rows, queried, check.value), own)
  }

  method FindLock<V>(rows: seq<Row<V>>, queried: bool, check: Outcome<Sql>, table: string, store: Locks.Store, now: int, own: string)
    returns (free: bool)
    requires store.Valid() && store.clock <= now
    modifies store
    ensures store.Valid() && store.issued == old(store.issued)
    ensures free == IsFree(store.issued, now, table, rows, queried, check, own)
  {
    if check.Fail? {
      return true;
    }
    free := store.EnforceLocks(now, table, LockedIds(rows, queried, check.value), own);
  }

  /** The statement of an Update; its condition is compiled behind the assigned values. */
  method BuildUpdate(rd: Reading, table: string, q: string, op: Node, authCql: string) returns (r: Outcome<Sql>)
    requires q == "\"" + table + "\""
    ensures var props := Assignments(op.children);
            var where := EditWhere(rd, op, authCql, |props| + 1);
            r == if AllNamed(props) && where.Done? then Done(UpdateOf(table, props, where.value)) else Fail
  {
    var clauses :- SetClauses(op.children);
    var where :- TxFilterWhere(rd, op, authCql, |clauses.1| + 1);
    return Done(Sql(UpdateText(q, clauses.0, where.text), clauses.1 + where.args));
  }

  /**
   Update. The edit runs only when no other lock holds a feature that its condition, numbered from `$1`, selects;
   the edit's own condition is numbered behind the assigned values.
   */
  method DoUpdate<V>(rd: Reading, table: string, op: Node, authCql: string, rows: seq<Row<V>>, queried: bool, store: Locks.Store, now: int, own: string)
    returns (r: Outcome<Sql>)
    requires store.Valid() && store.clock <= now
    modifies store
    ensures store.Valid() && store.issued == old(store.issued)
    ensures var props := Assignments(op.children);
            var check, where := EditWhere(rd, op, authCql, 1), EditWhere(rd, op, authCql, |props| + 1);
            r == if IsIdentifier(table) && AllNamed(props) && where.Done? && IsFree(store.issued, now, table, rows, queried, check, own)
                 then Done(UpdateOf(table, props, where.value)) else Fail
  {
    var q :- QuoteIdent(table);
    var check := TxFilterWhere(rd, op, authCql, 1);
    var free := FindLock(rows, queried, check, table, store, now, own);
    if !free {
      return Fail;
    }
    r := BuildUpdate(rd, table, q, op, authCql);
  }

  /** Delete: the condition that was checked for locks is the condition of the edit. */
  method DoDelete<V>(rd: Reading, table: string, op: Node, authCql: string, rows: seq<Row<V>>, queried: bool, store: Locks.Store, now: int, own: string)
    returns (r: Outcome<Sql>)
    requires store.Valid() && store.clock <= now
    modifies store
    ensures store.Valid() && store.issued == old(store.issued)
    ensures var where := EditWhere(rd, op, authCql, 1);
            r == if IsIdentifier(table) && where.Done? && IsFree(store.issued, now, table, rows, queried, where, own)
                 then Done(DeleteOf(table, where.value)) else Fail
  {
    var q :- QuoteIdent(table);
    var where :- TxFilterWhere(rd, op, authCql, 1);
    var free := store.EnforceLocks(now, table, LockedIds(rows, queried, where), own);
    if !free {
      return Fail;
    }
    return Done(Sql("DELETE FROM " + q + where.text, where.args));
  }

  // ---- The two conditions select the same rows ----

  /** The condition compiles from one first placeholder exactly when it compiles from another. */
  lemma SameSuccess(rd: Reading, op: Node, authCql: string, j: nat, k: nat)
    ensures EditWhere(rd, op, authCql, j).Done? <==> EditWhere(rd, op, authCql, k).Done?
  {
    var f := EditFilter(rd, op, authCql);
    if f.Done? && f.value.Some? {
      EmitIs(f.value.value, j);
      EmitIs(f.value.value, k);
    }
  }

  lemma FilterIsFormula(rd: Reading, op: Node, authCql: string)
    ensures var f := EditFilter(rd, op, authCql);
            f.Done? && f.value.Some? ==> Formula(f.value.value)
  {
    ElementIsFormula(rd, op);
    A.ParsedIsFormula(rd.conv, authCql);
    var element, auth := ElementFilter(rd, op), G.ParseCql(S.GoReader(rd.conv), authCql);
    if element.Some? && element.value.Done? && auth.Done? {
      A.ConjunctionIsFormula(element.value.value, auth.value);
    }
  }

  // Whether a filter, if there is one, is true on a row.
  predicate Chosen<V>(w: World<V>, f: Option<Expr>)
    requires f.Some? ==> Formula(f.value)
  {
    f.None? || Holds(w, f.value) == True
  }

  lemma WhereMeans<V>(w: World<V>, before: Args, e: Expr)
    requires Formula(e) && Compiles(e)
    ensures var where := WhereOf(Some(e), |before| + 1);
            where.Done? && (Selects(w, where.value.text, before + where.value.args) <==> Holds(w, e) == True)
  {
    var k := |before| + 1;
    EmitIs(e, k);
    BindAllBinds(before, ArgsOf(e));
    C.FragmentMeans(w, BindAll(before + ArgsOf(e)), e, k);
    var text := Emit(e, k).value.text;
    assert (" WHERE " + text)[|" WHERE "|..] == text;
  }

  /** Behind any arguments, the condition selects the rows that the filter of the edit chooses. */
  lemma WhereChooses<V>(w: World<V>, rd: Reading, op: Node, authCql: string, before: Args)
    requires EditWhere(rd, op, authCql, |before| + 1).Done?
    ensures var where, f := EditWhere(rd, op, authCql, |before| + 1).value, EditFilter(rd, op, authCql).value;
            && (f.Some? ==> Formula(f.value))
            && (Selects(w, where.text, before + where.args) <==> Chosen(w, f))
  {
    FilterIsFormula(rd, op, authCql);
    var f := EditFilter(rd, op, authCql);
    if f.value.Some? {
      EmitIs(f.value.value, |before| + 1);
      WhereMeans(w, before, f.value.value);
    }
  }

  /**
   On every row, the condition of the lock check under its own arguments selects it exactly when the condition of
   an UPDATE does behind any number of assigned values.
   */
  lemma SameRows<V>(w: World<V>, rd: Reading, op: Node, authCql: string, values: Args)
    requires EditWhere(rd, op, authCql, 1).Done?
    ensures var check, edit := EditWhere(rd, op, authCql, 1).value, EditWhere(rd, op, authCql, |values| + 1);
            && edit.Done?
            && (Selects(w, check.text, check.args) <==> Selects(w, edit.value.text, values + edit.value.args))
  {
    SameSuccess(rd, op, authCql, 1, |values| + 1);
    WhereChooses(w, rd, op, authCql, []);
    WhereChooses(w, rd, op, authCql, values);
    var check := EditWhere(rd, op, authCql, 1).value;
    assert [] + check.args == check.args;
  }

  // ---- Edits and locks ----

  lemma HeldByMore(locks: Locks.Locks, now: int, table: string, target: set<string>, own: string, id: string)
    requires id in target && Locks.Held(locks, now, table, {id}, own)
    ensures Locks.Held(locks, now, table, target, own)
  {
    var l :| l in locks && Locks.Holds(locks, l, now, table, {id}, own);
    assert Locks.Holds(locks, l, now, table, target, own);
  }

  /** At the instant of the check, an edit that passed it selects no row whose id a live lock of another holds on the table. */
  lemma LockedRowsUntouched<V>(rd: Reading, table: string, op: Node, authCql: string, rows: seq<Row<V>>, issued: Locks.Locks, now: int,
                               own: string, values: Args, i: nat)
    requires EditWhere(rd, op, authCql, 1).Done?
    requires IsFree(issued, now, table, rows, true, EditWhere(rd, op, authCql, 1), own)
    requires i < |rows| && rows[i].id.Some?
    ensures var edit := EditWhere(rd, op, authCql, |values| + 1);
            && edit.Done?
            && (Selects(rows[i].world, edit.value.text, values + edit.value.args) ==> !Locks.Held(issued, now, table, {rows[i].id.value}, own))
  {
    var check, edit := EditWhere(rd, op, authCql, 1).value, EditWhere(rd, op, authCql, |values| + 1);
    SameRows(rows[i].world, rd, op, authCql, values);
    if Selects(rows[i].world, edit.value.text, values + edit.value.args) {
      assert rows[i].id.value in LockedIds(rows, true, check);
      if Locks.Held(issued, now, table, {rows[i].id.value}, own) {
        HeldByMore(issued, now, table, LockedIds(rows, true, check), own, rows[i].id.value);
        assert false;
      }
    }
  }

  // ---- Edits and the write filter ----

  // The edit's own filter, without the write filter.
  function OwnFilter(rd: Reading, op: Node): (f: Option<Expr>)
    ensures f.Some? ==> Formula(f.value)
  {
    ElementIsFormula(rd, op);
    var element := ElementFilter(rd, op);
    if element.Some? && element.value.Done? then Some(element.value.value) else None
  }

  /** On every row: an edit chooses what its own filter chooses and the write filter admits, if that is empty or parses, and all of its own otherwise. */
  lemma EditChooses<V>(w: World<V>, rd: Reading, op: Node, authCql: string)
    requires EditFilter(rd, op, authCql).Done?
    ensures var f := EditFilter(rd, op, authCql).value;
            && (f.Some? ==> Formula(f.value))
            && (Chosen(w, f) <==>
                 Chosen(w, OwnFilter(rd, op)) && (A.IsConstraint(A.GoParser(rd.conv), authCql) ==> A.Admits(w, A.GoParser(rd.conv), authCql)))
  {
    FilterIsFormula(rd, op, authCql);
    A.ParsedIsFormula(rd.conv, authCql);
    var own, auth := OwnFilter(rd, op), G.ParseCql(S.GoReader(rd.conv), authCql);
    if own.Some? && auth.Done? {
      A.ConjunctionHolds(w, own.value, auth.value);
    }
  }

  /** So on a row its own filter chooses, an edit keeps to the write filter exactly when that is empty or parses; otherwise it is dropped. */
  lemma KeepsToWriteFilterExactly<V>(w: World<V>, rd: Reading, op: Node, authCql: string)
    requires EditFilter(rd, op, authCql).Done? && Chosen(w, OwnFilter(rd, op))
    ensures var f, parse := EditFilter(rd, op, authCql).value, A.GoParser(rd.conv);
            && (f.Some? ==> Formula(f.value))
            && ((Chosen(w, f) ==> A.Admits(w, parse, authCql)) <==> A.IsConstraint(parse, authCql))
  {
    EditChooses(w, rd, op, authCql);
  }

  /** With the write filter that access rules compose of constraints that parse, an edit chooses exactly the rows of its own filter that all of them admit. */
  lemma EditKeepsToRules<V>(w: World<V>, rd: Reading, op: Node, texts: seq<string>)
    requires EditFilter(rd, op, A.Conjoin(texts)).Done? && A.AreConstraints(A.GoParser(rd.conv), texts)
    ensures var f, parse := EditFilter(rd, op, A.Conjoin(texts)).value, A.GoParser(rd.conv);
            && (f.Some? ==> Formula(f.value))
            && (Chosen(w, f) <==> Chosen(w, OwnFilter(rd, op)) && forall text | text in texts :: A.Admits(w, parse, text))
  {
    A.EnginesCompose(rd.conv);
    A.ConjoinedParses(A.GoParser(rd.conv), texts);
    A.ConjoinedAdmits(w, A.GoParser(rd.conv), texts);
    EditChooses(w, rd, op, A.Conjoin(texts));
  }
}

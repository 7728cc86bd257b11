/**
 Compiling a filter to the text of a parameterised WHERE fragment, as a function: what both engines'
 compilers are proved against, and exactly when it succeeds.
 */
module SqlCompiler {
  import opened Outcomes
  import opened FilterAst
  import opened Decimals
  import L = CqlLexer

  type Args = seq<Lit>

  // A compiled fragment and the arguments for its placeholders, first to last.
  datatype Sql = Sql(text: string, args: Args)

  // Texts to be joined and the arguments for all of them.
  datatype Parts = Parts(texts: seq<string>, args: Args)

  predicate IsIdentifier(name: string) {
    && name != "" && L.IsIdentStart(name[0])
    && forall i | 1 <= i < |name| :: L.IsIdentStart(name[i]) || IsDigit(name[i])
  }

  function QuoteIdent(name: string): Outcome<string> {
    if IsIdentifier(name) then Done("\"" + name + "\"") else Fail
  }

  function Placeholder(n: nat): string {
    "$" + Decimal(n)
  }

  function Join(parts: seq<string>, sep: string): string {
    if parts == [] then ""
    else if |parts| == 1 then parts[0]
    else parts[0] + sep + Join(parts[1..], sep)
  }

  // ---- Function names ----

  function LowerChar(c: char): char {
    if 'A' <= c <= 'Z' then c - 'A' + 'a' else c
  }

  function Lower(s: string): string {
    seq(|s|, i requires 0 <= i < |s| => LowerChar(s[i]))
  }

  function Title(s: string): string {
    if s == "" then "" else [L.UpperChar(s[0])] + s[1..]
  }

  function SpatialFunction(rel: SpatialOp): string {
    "ST_" + Title(Lower(SpatialWord(rel)))
  }

  // ---- Fragments ----

  /** The placeholders for IN operands, which must be literals, behind `acc`. */
  function EmitValues(values: seq<Expr>, k: nat, acc: Parts): Outcome<Parts> {
    if values == [] then Done(acc)
    else if !values[0].Literal? then Fail
    else EmitValues(values[1..], k, Parts(acc.texts + [Placeholder(k + |acc.args|)], acc.args + [values[0].lit]))
  }

  function NotWord(negate: bool, word: string): string {
    if negate then "NOT " + word else word
  }

  function LikeWord(caseInsensitive: bool): string {
    if caseInsensitive then "ILIKE" else "LIKE"
  }

  /** The fragment for `e` whose first placeholder is `$k`. */
  function Emit(e: Expr, k: nat): Outcome<Sql>
    decreases e
  {
    match e
    case IncludeAll => Done(Sql("TRUE", []))
    case Property(name) =>
      var col :- QuoteIdent(name);
      Done(Sql(col, []))
    case Literal(_) => Fail
    case Compare(op, left, right) =>
      var l :- Emit(left, k);
      if right.Literal? then
        Done(Sql(l.text + " " + CompareText(op) + " " + Placeholder(k + |l.args|), l.args + [right.lit]))
      else
        var r :- Emit(right, k + |l.args|);
        Done(Sql(l.text + " " + CompareText(op) + " " + r.text, l.args + r.args))
    case Logic(op, es) =>
      var parts :- EmitAll(es, k, Parts([], []));
      Done(Sql("(" + Join(parts.texts, " " + Connective(op) + " ") + ")", parts.args))
    case Not(x) =>
      var s :- Emit(x, k);
      Done(Sql("NOT (" + s.text + ")", s.args))
    case Like(prop, pattern, ci, negate) =>
      var col :- Emit(prop, k);
      Done(Sql(col.text + " " + NotWord(negate, LikeWord(ci)) + " " + Placeholder(k + |col.args|), col.args + [Lit.Str(pattern)]))
    case In(prop, values, negate) =>
      var col :- Emit(prop, k);
      var phs :- EmitValues(values, k, Parts([], col.args));
      Done(Sql(col.text + " " + NotWord(negate, "IN") + " (" + Join(phs.texts, ", ") + ")", phs.args))
    case Between(prop, lo, hi, negate) =>
      var col :- Emit(prop, k);
      if !lo.Literal? || !hi.Literal? then Fail
      else
        var n := k + |col.args|;
        Done(Sql(col.text + " " + NotWord(negate, "BETWEEN") + " " + Placeholder(n) + " AND " + Placeholder(n + 1),
                 col.args + [lo.lit, hi.lit]))
    case IsNull(prop, negate) =>
      var col :- Emit(prop, k);
      Done(Sql(col.text + (if negate then " IS NOT NULL" else " IS NULL"), col.args))
    case BBox(geom, minX, minY, maxX, maxY, _) =>
      var col :- QuoteIdent(geom);
      Done(Sql(col + " && ST_MakeEnvelope(" + Placeholder(k) + ", " + Placeholder(k + 1) + ", " + Placeholder(k + 2) + ", " + Placeholder(k + 3) + ")",
               [Num(minX), Num(minY), Num(maxX), Num(maxY)]))
    case Spatial(rel, geom, wkt) =>
      var col :- QuoteIdent(geom);
      Done(Sql(SpatialFunction(rel) + "(" + col + ", ST_GeomFromText(" + Placeholder(k) + "))", [Lit.Str(wkt)]))
    case DWithin(geom, wkt, distance, _, beyond) =>
      var col :- QuoteIdent(geom);
      var call := "ST_DWithin(" + col + ", ST_GeomFromText(" + Placeholder(k) + "), " + Placeholder(k + 1) + ")";
      Done(Sql(if beyond then "NOT " + call else call, [Lit.Str(wkt), Num(distance)]))
  }

  function EmitAll(es: seq<Expr>, k: nat, acc: Parts): Outcome<Parts>
    decreases es
  {
    if es == [] then Done(acc)
    else
      var s :- Emit(es[0], k + |acc.args|);
      EmitAll(es[1..], k, Parts(acc.texts + [s.text], acc.args + s.args))
  }
}

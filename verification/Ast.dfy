/** The filter syntax tree shared by the Go and the Rust engine. */
module FilterAst {
  // A double as far as filters need it: an exact value, what an out-of-range numeral overflows to, or no number.
  datatype Float = Real(r: real) | Infinity(negative: bool) | NaN

  datatype Lit = Str(text: string) | Num(number: Float) | Bool(flag: bool)

  datatype CompareOp = Eq | Ne | Lt | Le | Gt | Ge

  datatype LogicOp = And | Or

  datatype SpatialOp = Intersects | Within | Contains | Disjoint | Touches | Crosses | Overlaps | Equals

  datatype Expr =
    | Property(name: string)
    | Literal(lit: Lit)
    | Compare(cmp: CompareOp, left: Expr, right: Expr)
    | Logic(op: LogicOp, exprs: seq<Expr>)
    | Not(expr: Expr)
    | Like(prop: Expr, pattern: string, caseInsensitive: bool, negate: bool)
    | In(prop: Expr, values: seq<Expr>, negate: bool)
    | Between(prop: Expr, lo: Expr, hi: Expr, negate: bool)
    | IsNull(prop: Expr, negate: bool)
    | BBox(geom: string, minX: Float, minY: Float, maxX: Float, maxY: Float, srs: string)
    | Spatial(rel: SpatialOp, geom: string, wkt: string)
    | DWithin(geom: string, wkt: string, distance: Float, units: string, beyond: bool)
    | IncludeAll

  // The operators as filter text and SQL spell them.

  function CompareText(op: CompareOp): string {
    match op
    case Eq => "="
    case Ne => "<>"
    case Lt => "<"
    case Le => "<="
    case Gt => ">"
    case Ge => ">="
  }

  function Connective(op: LogicOp): string {
    match op
    case And => "AND"
    case Or => "OR"
  }

  function SpatialWord(rel: SpatialOp): string {
    match rel
    case Intersects => "INTERSECTS"
    case Within => "WITHIN"
    case Contains => "CONTAINS"
    case Disjoint => "DISJOINT"
    case Touches => "TOUCHES"
    case Crosses => "CROSSES"
    case Overlaps => "OVERLAPS"
    case Equals => "EQUALS"
  }
}

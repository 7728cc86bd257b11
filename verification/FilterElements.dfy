/** The element names of filter XML (section 7 of OGC 09-026) that the converters know. */
module FilterElements {
  import opened FilterAst

  datatype Kind =
    | Comparison(op: CompareOp)
    | Relation(rel: SpatialOp)
    | Connects(connective: LogicOp)
    | Negates
    | Likes
    | Nulls
    | Ranges
    | Boxes
    | Filters
    | Unsupported

  function KindOf(name: string): Kind {
    match name
    case "PropertyIsEqualTo" => Comparison(Eq)
    case "PropertyIsNotEqualTo" => Comparison(Ne)
    case "PropertyIsLessThan" => Comparison(Lt)
    case "PropertyIsLessThanOrEqualTo" => Comparison(Le)
    case "PropertyIsGreaterThan" => Comparison(Gt)
    case "PropertyIsGreaterThanOrEqualTo" => Comparison(Ge)
    case "Intersects" => Relation(Intersects)
    case "Within" => Relation(Within)
    case "Contains" => Relation(Contains)
    case "Disjoint" => Relation(Disjoint)
    case "Touches" => Relation(Touches)
    case "Crosses" => Relation(Crosses)
    case "Overlaps" => Relation(Overlaps)
    case "Equals" => Relation(Equals)
    case "And" => Connects(And)
    case "Or" => Connects(Or)
    case "Not" => Negates
    case "PropertyIsLike" => Likes
    case "PropertyIsNull" => Nulls
    case "PropertyIsBetween" => Ranges
    case "BBOX" => Boxes
    case "Filter" => Filters
    case _ => Unsupported
  }
}

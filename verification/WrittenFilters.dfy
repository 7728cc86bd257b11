/** Filters written out as characters and read back: what they convert to, and what edits make of them. */
module WrittenFilters {
  import opened Outcomes
  import opened XmlTree
  import opened XmlText
  import Edits = FeatureEdits
  import Go = GoFilterXml

  /** A clean Filter element is the same filter when it is written out and read back, if text between elements is blank. */
  lemma WrittenFilter(num: Go.Numbers, t: Tables, n: Node, s: string)
    requires Clean(t, n) && Writes(t, n, s) && Go.BlankBetween(n)
    ensures Go.ParseFilter(num, ReadTree(t, s)) == Go.ParseFilter(num, Done(n))
  {
    WriteThenRead(t, n, s);
    ReserializeThenDecode(n);
    Go.ReserializedFilter(num, n);
  }

  /** The filter of an edit is what its clean Filter element reads as, whatever the order its attributes are written in. */
  lemma EditReadsElement(rd: Edits.Reading, t: Tables, op: Node, f: Node, s: string)
    requires Edits.Find(op.children, "Filter") == Some(f) && Edits.FeatureIdFilter(rd.parse, f.children).None?
    requires Clean(t, f) && Writes(t, f, s)
    ensures Edits.ElementFilter(rd, op) == Some(Go.ParseFilter(rd.numbers, ReadTree(t, s)))
  {
    WriteThenRead(t, f, s);
    ReserializeThenDecode(f);
  }
}

/** Looking up a tag in the first image file directory of a TIFF file (section 2 of TIFF 6.0), on arbitrary bytes. */
module TiffDirectory {
  import opened Outcomes
  import opened Whitespace

  type Byte = n: nat | n < 256

  type Bytes = seq<Byte>

  const ASCII := 2
  const DOUBLE := 12

  // "II" at the start; anything else is read as big-endian.
  predicate LittleEndian(b: Bytes)
    requires |b| >= 2
  {
    b[..2] == [0x49, 0x49]
  }

  function Ordered(b: Bytes, o: nat, n: nat): (r: Bytes)
    requires 2 <= |b| && o + n <= |b|
    ensures |r| == n
  {
    if LittleEndian(b) then Reversed(b[o..o + n]) else b[o..o + n]
  }

  function Reversed(s: Bytes): (r: Bytes)
    ensures |r| == |s|
  {
    if s == [] then [] else Reversed(s[1..]) + [s[0]]
  }

  /** The number whose digits in base 256 are the bytes, the highest first. */
  function NumberOf(s: Bytes): nat {
    if s == [] then 0 else 256 * NumberOf(s[..|s| - 1]) + s[|s| - 1]
  }

  function U16(b: Bytes, o: nat): nat
    requires 2 <= |b| && o + 2 <= |b|
  {
    NumberOf(Ordered(b, o, 2))
  }

  function U32(b: Bytes, o: nat): nat
    requires 2 <= |b| && o + 4 <= |b|
  {
    NumberOf(Ordered(b, o, 4))
  }

  // ---- The directory ----

  // There is a header, and the number of directory entries lies in the file.
  predicate HasDirectory(b: Bytes) {
    |b| >= 8 && U32(b, 4) + 2 <= |b|
  }

  function EntryOffset(b: Bytes, i: nat): nat
    requires HasDirectory(b)
  {
    U32(b, 4) + 2 + i * 12
  }

  function EntryCount(b: Bytes): nat
    requires HasDirectory(b)
  {
    U16(b, U32(b, 4))
  }

  /** Entry `i` is a directory entry that lies in the file and has the tag and type. */
  predicate IsEntry(b: Bytes, i: nat, tag: nat, kind: nat)
    requires HasDirectory(b)
  {
    && i < EntryCount(b) && EntryOffset(b, i) + 12 <= |b|
    && U16(b, EntryOffset(b, i)) == tag && U16(b, EntryOffset(b, i) + 2) == kind
  }

  ghost predicate IsFirstEntry(b: Bytes, i: nat, tag: nat, kind: nat)
    requires HasDirectory(b)
  {
    IsEntry(b, i, tag, kind) && forall j: nat | j < i :: !IsEntry(b, j, tag, kind)
  }

  ghost predicate HasEntry(b: Bytes, tag: nat, kind: nat)
    requires HasDirectory(b)
  {
    exists i: nat :: IsEntry(b, i, tag, kind)
  }

  // ---- Values ----

  // Characters of code 0 at both ends are dropped.
  function TrimNulStart(s: string): string {
    if s != "" && s[0] as int == 0 then TrimNulStart(s[1..]) else s
  }

  function TrimNulEnd(s: string): string {
    if s != "" && s[|s| - 1] as int == 0 then TrimNulEnd(s[..|s| - 1]) else s
  }

  function Cleaned(s: string): string {
    Trim(TrimNulEnd(TrimNulStart(s)))
  }

  /** The bytes of an ASCII value: in the entry itself when there are at most four, elsewhere in the file otherwise. */
  function AsciiAt(b: Bytes, e: nat): Option<Bytes>
    requires 2 <= |b| && e + 12 <= |b|
  {
    var count := U32(b, e + 4);
    if count <= 4 then Some(b[e + 8..e + 8 + count])
    else
      var off := U32(b, e + 8);
      if off + count > |b| then None else Some(b[off..off + count])
  }

  // What eight bytes stand for in binary64.
  datatype Double = Finite(value: real) | Infinite(negative: bool) | NaN

  function PowerOfTwo(n: nat): (p: real)
    ensures p > 0.0
  {
    if n == 0 then 1.0 else 2.0 * PowerOfTwo(n - 1)
  }

  function Scaled(m: real, exponent: int): real {
    if exponent >= 0 then m * PowerOfTwo(exponent) else m / PowerOfTwo(-exponent)
  }

  const SIGN_BIT := 0x8000_0000_0000_0000
  const FRACTION := 0x10_0000_0000_0000

  /** Sign, 11 bits of exponent and 52 of fraction; the smallest exponent has no leading one, the largest no number. */
  function DoubleOf(bits: nat): Double
    requires bits < 2 * SIGN_BIT
  {
    var negative, exponent, fraction := bits >= SIGN_BIT, bits / FRACTION % 2048, bits % FRACTION;
    if exponent == 2047 then if fraction == 0 then Infinite(negative) else NaN
    else
      var magnitude :=
        if exponent == 0 then Scaled(fraction as real, -1074) else Scaled((FRACTION + fraction) as real, exponent - 1075);
      Finite(if negative then -magnitude else magnitude)
  }

  lemma {:induction false} NumberFits(s: Bytes)
    ensures NumberOf(s) < PowerOf256(|s|)
  {
    if s != [] {
      NumberFits(s[..|s| - 1]);
    }
  }

  function PowerOf256(n: nat): nat {
    if n == 0 then 1 else 256 * PowerOf256(n - 1)
  }

  lemma EightBytesFit(s: Bytes)
    requires |s| == 8
    ensures NumberOf(s) < 2 * SIGN_BIT
  {
    NumberFits(s);
    assert PowerOf256(4) == 0x1_0000_0000;
    assert PowerOf256(8) == 256 * (256 * (256 * (256 * PowerOf256(4))));
  }

  function DoubleAt(b: Bytes, o: nat): Double
    requires 2 <= |b| && o + 8 <= |b|
  {
    EightBytesFit(Ordered(b, o, 8));
    DoubleOf(NumberOf(Ordered(b, o, 8)))
  }

  function Doubles(b: Bytes, off: nat, count: nat): seq<Double>
    requires 2 <= |b| && off + count * 8 <= |b|
  {
    seq(count, k requires 0 <= k < count => DoubleIn(b, off, count, k))
  }

  function DoubleIn(b: Bytes, off: nat, count: nat, k: nat): Double
    requires 2 <= |b| && off + count * 8 <= |b| && k < count
  {
    DoubleAt(b, off + k * 8)
  }

  function DoublesFrom(b: Bytes, off: nat, count: nat): Option<seq<Double>>
    requires 2 <= |b|
  {
    if count == 0 then Some([])
    else if off + count * 8 > |b| then None
    else Some(Doubles(b, off, count))
  }

  function DoublesOf(b: Bytes, e: nat): Option<seq<Double>>
    requires 2 <= |b| && e + 12 <= |b|
  {
    DoublesFrom(b, U32(b, e + 8), U32(b, e + 4))
  }

  // ---- The readers ----

  /** The offset of the first matching entry; the search ends at the first entry that does not lie in the file. */
  method FindEntry(b: Bytes, tag: nat, kind: nat) returns (r: Option<nat>)
    ensures r.Some? <==> HasDirectory(b) && HasEntry(b, tag, kind)
    ensures r.Some? ==> exists i: nat :: IsFirstEntry(b, i, tag, kind) && r.value == EntryOffset(b, i)
  {
    if |b| < 8 {
      return None;
    }
    var ifd := U32(b, 4);
    if ifd + 2 > |b| {
      return None;
    }
    var n := U16(b, ifd);
    var i := 0;
    while i < n
      invariant i <= n
      invariant forall j: nat | j < i :: !IsEntry(b, j, tag, kind)
    {
      var e := ifd + 2 + i * 12;
      if e + 12 > |b| {
        LaterEntriesOutside(b, i, tag, kind);
        return None;
      }
      if U16(b, e) == tag && U16(b, e + 2) == kind {
        assert IsFirstEntry(b, i, tag, kind);
        return Some(e);
      }
      i := i + 1;
    }
    return None;
  }

  lemma LaterEntriesOutside(b: Bytes, i: nat, tag: nat, kind: nat)
    requires HasDirectory(b) && EntryOffset(b, i) + 12 > |b|
    ensures forall j: nat | i <= j :: !IsEntry(b, j, tag, kind)
  {
    forall j: nat | i <= j
      ensures !IsEntry(b, j, tag, kind)
    {
      assert EntryOffset(b, j) >= EntryOffset(b, i);
    }
  }

  /** The text of the first ASCII entry with the tag, or nothing. `decode` reads bytes as UTF-8 as far as they are. */
  method ReadAsciiTag(b: Bytes, tag: nat, decode: Bytes -> string) returns (r: Option<string>)
    ensures !HasDirectory(b) || !HasEntry(b, tag, ASCII) ==> r == None
    ensures HasDirectory(b) && HasEntry(b, tag, ASCII) ==>
      exists i: nat :: IsFirstEntry(b, i, tag, ASCII) &&
        r == match AsciiAt(b, EntryOffset(b, i)) case None => None case Some(bytes) => Some(Cleaned(decode(bytes)))
  {
    var entry := FindEntry(b, tag, ASCII);
    if entry.None? {
      return None;
    }
    match AsciiAt(b, entry.value) {
      case None => return None;
      case Some(bytes) => return Some(Cleaned(decode(bytes)));
    }
  }

  /** The values of the first DOUBLE entry with the tag, or nothing when one of them lies outside the file. */
  method ReadGeoDoubles(b: Bytes, tag: nat) returns (r: Option<seq<Double>>)
    ensures !HasDirectory(b) || !HasEntry(b, tag, DOUBLE) ==> r == None
    ensures HasDirectory(b) && HasEntry(b, tag, DOUBLE) ==>
      exists i: nat :: IsFirstEntry(b, i, tag, DOUBLE) && r == DoublesOf(b, EntryOffset(b, i))
  {
    var entry := FindEntry(b, tag, DOUBLE);
    if entry.None? {
      return None;
    }
    var e := entry.value;
    r := ReadDoubles(b, U32(b, e + 8), U32(b, e + 4));
  }

  method ReadDoubles(b: Bytes, off: nat, count: nat) returns (r: Option<seq<Double>>)
    requires 2 <= |b|
    ensures r == DoublesFrom(b, off, count)
  {
    var out: seq<Double> := [];
    for k := 0 to count
      invariant |out| == k
      invariant k > 0 ==> off + k * 8 <= |b|
      invariant forall j | 0 <= j < k :: off + j * 8 + 8 <= |b| && out[j] == DoubleAt(b, off + j * 8)
    {
      var p := off + k * 8;
      if p + 8 > |b| {
        return None;
      }
      out := out + [DoubleAt(b, p)];
    }
    if count > 0 {
      assert out == Doubles(b, off, count);
    }
    return Some(out);
  }
}

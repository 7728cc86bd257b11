/** White space as both Go's strings package and Rust's str see it. */
module Whitespace {
  predicate IsSpace(c: char) {
    var n := c as int;
    9 <= n <= 13 || n == 32 || n == 0x85 || n == 0xA0 || n == 0x1680 || 0x2000 <= n <= 0x200A
    || n == 0x2028 || n == 0x2029 || n == 0x202F || n == 0x205F || n == 0x3000
  }

  predicate IsBlank(s: string) {
    forall i | 0 <= i < |s| :: IsSpace(s[i])
  }

  function TrimStart(s: string): string {
    if s != "" && IsSpace(s[0]) then TrimStart(s[1..]) else s
  }

  function TrimEnd(s: string): string {
    if s != "" && IsSpace(s[|s| - 1]) then TrimEnd(s[..|s| - 1]) else s
  }

  function Trim(s: string): string {
    TrimEnd(TrimStart(s))
  }

  lemma {:induction false} TrimStartKeeps(s: string)
    ensures TrimStart(s) != "" ==> !IsSpace(TrimStart(s)[0]) && !IsBlank(s)
    ensures TrimStart(s) == "" ==> IsBlank(s)
  {
    if s != "" && IsSpace(s[0]) {
      TrimStartKeeps(s[1..]);
      assert forall i | 1 <= i < |s| :: s[i] == s[1..][i - 1];
      assert forall i | 0 <= i < |s[1..]| :: s[1..][i] == s[i + 1];
    }
  }

  lemma {:induction false} TrimEndKeeps(s: string)
    requires s != "" && !IsSpace(s[0])
    ensures TrimEnd(s) != ""
    decreases |s|
  {
    if IsSpace(s[|s| - 1]) {
      TrimEndKeeps(s[..|s| - 1]);
    }
  }

  /** Trimming leaves nothing exactly of blank text. */
  lemma TrimmedAway(s: string)
    ensures Trim(s) == "" <==> IsBlank(s)
  {
    TrimStartKeeps(s);
    if TrimStart(s) != "" {
      TrimEndKeeps(TrimStart(s));
    }
  }

  /** The number of characters before the first that satisfies `stop`. */
  function Until(s: string, stop: char -> bool): (n: nat)
    ensures n <= |s|
    ensures s != "" && !stop(s[0]) ==> n > 0
  {
    if s == "" || stop(s[0]) then 0 else 1 + Until(s[1..], stop)
  }

  /** The words of a text. */
  function Fields(s: string): seq<string> {
    if s == "" then []
    else if IsSpace(s[0]) then Fields(s[1..])
    else
      var n := Until(s, IsSpace);
      [s[..n]] + Fields(s[n..])
  }

  function Replace(s: string, from: char, to: char): string {
    seq(|s|, i requires 0 <= i < |s| => if s[i] == from then to else s[i])
  }
}

/**
  The few functions of Go's `strings` package that the daemon's path, shell and reference
  code relies on. A `string` is a well-formed Go string read code point by code point;
  every test below looks at ASCII characters only, so it agrees with the byte test, except
  `IsSpace`, which in Go is itself a test on code points.
 */
module Text {
  import opened Results

  /** `unicode.IsSpace`. */
  predicate IsSpace(c: char) {
    var n := c as int;
    9 <= n <= 13 || n == 32 || n == 0x85 || n == 0xA0 || n == 0x1680 || 0x2000 <= n <= 0x200A ||
    n == 0x2028 || n == 0x2029 || n == 0x202F || n == 0x205F || n == 0x3000
  }

  function TrimLeft(s: string): (t: string)
    ensures |t| <= |s| && t == s[|s| - |t|..]
    ensures t != "" ==> !IsSpace(t[0])
  {
    if s != "" && IsSpace(s[0]) then TrimLeft(s[1..]) else s
  }

  function TrimRight(s: string): (t: string)
    ensures t <= s
    ensures t != "" ==> !IsSpace(t[|t| - 1])
  {
    if s != "" && IsSpace(s[|s| - 1]) then TrimRight(s[..|s| - 1]) else s
  }

  /** `strings.TrimSpace`. */
  function TrimSpace(s: string): string {
    TrimRight(TrimLeft(s))
  }

  predicate Blank(s: string) {
    forall i :: 0 <= i < |s| ==> IsSpace(s[i])
  }

  lemma TrimSpaceEmptyIffBlank(s: string)
    ensures TrimSpace(s) == "" <==> Blank(s)
  {
    TrimLeftDropsSpaces(s);
    var t := TrimLeft(s);
    if t != "" {
      TrimRightKeepsHead(t);
      assert s[|s| - |t|] == t[0];
    }
  }

  lemma {:induction false} TrimLeftDropsSpaces(s: string)
    ensures forall i :: 0 <= i < |s| - |TrimLeft(s)| ==> IsSpace(s[i])
  {
    if s != "" && IsSpace(s[0]) {
      TrimLeftDropsSpaces(s[1..]);
      forall i | 0 <= i < |s| - |TrimLeft(s)| ensures IsSpace(s[i]) {
        if i > 0 { assert s[i] == s[1..][i - 1]; }
      }
    }
  }

  lemma {:induction false} TrimRightKeepsHead(s: string)
    requires s != "" && !IsSpace(s[0])
    ensures TrimRight(s) != ""
  {
    if IsSpace(s[|s| - 1]) { TrimRightKeepsHead(s[..|s| - 1]); }
  }

  /** Trimming is a no-op exactly on strings without outer white space. */
  lemma TrimSpaceFixed(s: string)
    ensures TrimSpace(s) == s <==> s == "" || (!IsSpace(s[0]) && !IsSpace(s[|s| - 1]))
  {
  }

  /** `strings.Contains`. */
  predicate Contains(s: string, sub: string) {
    exists i :: 0 <= i <= |s| && sub <= s[i..]
  }

  /** The first index of `c` in `s`, or `None` (Go's -1). */
  function IndexOf(s: string, c: char): (r: Option<nat>)
    ensures r.Some? ==> r.value < |s| && s[r.value] == c && c !in s[..r.value]
    ensures r.None? ==> c !in s
  {
    if s == "" then None
    else if s[0] == c then Some(0)
    else match IndexOf(s[1..], c)
         case None => None
         case Some(i) => assert s[..i + 1] == [s[0]] + s[1..][..i]; Some(i + 1)
  }

  /** The last index of `c` in `s`, or `None` (Go's -1). */
  function LastIndexOf(s: string, c: char): (r: Option<nat>)
    ensures r.Some? ==> r.value < |s| && s[r.value] == c && c !in s[r.value + 1..]
    ensures r.None? ==> c !in s
  {
    if s == "" then None
    else if s[|s| - 1] == c then Some(|s| - 1)
    else
      var front := s[..|s| - 1];
      match LastIndexOf(front, c)
      case None => None
      case Some(i) => assert s[i + 1..] == front[i + 1..] + [s[|s| - 1]]; Some(i)
  }

  lemma {:induction false} FirstIndex(s: string, c: char, i: nat)
    requires i < |s| && s[i] == c && c !in s[..i]
    ensures IndexOf(s, c) == Some(i)
  {
    if i > 0 {
      assert s[..i][0] == s[0] && s[1..][..i - 1] == s[..i][1..];
      FirstIndex(s[1..], c, i - 1);
    }
  }

  lemma {:induction false} LastIndex(s: string, c: char, i: nat)
    requires i < |s| && s[i] == c && c !in s[i + 1..]
    ensures LastIndexOf(s, c) == Some(i)
  {
    if i + 1 < |s| {
      var front := s[..|s| - 1];
      assert s[i + 1..] == front[i + 1..] + [s[|s| - 1]];
      LastIndex(front, c, i);
    }
  }
}

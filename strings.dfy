/**
 * The string operations the modelled code relies on, over Dafny strings
 * (sequences of Unicode scalar values): lower-casing, prefix and substring
 * tests, splitting at the first or the last separator, and JavaScript's
 * `String.prototype.trim`.
 */
module Strings {

  /** Lower-cases one character: ASCII `A`..`Z` become `a`..`z`, every other character is kept. */
  function LowerChar(c: char): (r: char)
    ensures !('A' <= r <= 'Z')
    ensures !('A' <= c <= 'Z') ==> r == c
    ensures 'A' <= c <= 'Z' ==> 'a' <= r <= 'z' && r as int - c as int == 32
  {
    if 'A' <= c <= 'Z' then (c as int + 32) as char else c
  }

  /** `toLowerCase()` / `lower()` on ASCII letters, character by character. */
  function Lower(s: string): (r: string)
    ensures |r| == |s|
    ensures forall i :: 0 <= i < |s| ==> r[i] == LowerChar(s[i])
  {
    seq(|s|, i requires 0 <= i < |s| => LowerChar(s[i]))
  }

  /** JavaScript `s.startsWith(p)`, case-sensitive. */
  function StartsWith(s: string, p: string): (b: bool)
    ensures b <==> |p| <= |s| && s[..|p|] == p
  {
    p <= s
  }

  /** JavaScript `s.includes(t)`: `t` occurs somewhere in `s` as a contiguous block. */
  function Contains(s: string, t: string): (b: bool)
    ensures b <==> exists i :: 0 <= i <= |s| && t <= s[i..]
    decreases |s|
  {
    if t <= s then
      assert t <= s[0..];
      true
    else if s == [] then
      false
    else
      var rest := Contains(s[1..], t);
      assert forall i :: 1 <= i <= |s| ==> s[i..] == s[1..][i - 1..];
      assert rest ==> exists i :: 1 <= i <= |s| && t <= s[i..];
      rest
  }

  /** `s.split(sep)[0]`: the text before the first `sep`, or all of `s` when there is none. */
  function BeforeFirst(s: string, sep: char): (r: string)
    ensures r <= s
    ensures sep !in r
    ensures |r| < |s| ==> s[|r|] == sep
  {
    if s == [] then []
    else if s[0] == sep then []
    else [s[0]] + BeforeFirst(s[1..], sep)
  }

  /** `s.rsplit(sep, 1)[-1]`: the text after the last `sep`, or all of `s` when there is none. */
  function AfterLast(s: string, sep: char): (r: string)
    ensures |r| <= |s| && r == s[|s| - |r|..]
    ensures sep !in r
    ensures |r| < |s| ==> s[|s| - |r| - 1] == sep
  {
    if s == [] then []
    else if s[|s| - 1] == sep then []
    else AfterLast(s[..|s| - 1], sep) + [s[|s| - 1]]
  }

  /**
   * The characters `String.prototype.trim` removes: the ECMAScript WhiteSpace
   * set (tab, vertical tab, form feed, no-break space, byte-order mark and the
   * Unicode space separators) and the four LineTerminator characters.
   */
  predicate IsJsWhitespace(c: char) {
    var n := c as int;
    n == 0x09 || n == 0x0A || n == 0x0B || n == 0x0C || n == 0x0D || n == 0x20 ||
    n == 0xA0 || n == 0x1680 || (0x2000 <= n <= 0x200A) || n == 0x2028 ||
    n == 0x2029 || n == 0x202F || n == 0x205F || n == 0x3000 || n == 0xFEFF
  }

  /** Every character of `s` is whitespace. */
  predicate AllWhitespace(s: string) {
    forall k :: 0 <= k < |s| ==> IsJsWhitespace(s[k])
  }

  /** Drops leading whitespace: what remains is a suffix of `s` that is empty or starts with a visible character. */
  function TrimStart(s: string): (r: string)
    ensures |r| <= |s| && r == s[|s| - |r|..]
    ensures forall k :: 0 <= k < |s| - |r| ==> IsJsWhitespace(s[k])
    ensures r == [] || !IsJsWhitespace(r[0])
  {
    if s != [] && IsJsWhitespace(s[0]) then TrimStart(s[1..]) else s
  }

  /** Drops trailing whitespace: what remains is a prefix of `s` that is empty or ends with a visible character. */
  function TrimEnd(s: string): (r: string)
    ensures |r| <= |s| && r == s[..|r|]
    ensures forall k :: |r| <= k < |s| ==> IsJsWhitespace(s[k])
    ensures r == [] || !IsJsWhitespace(r[|r| - 1])
  {
    if s != [] && IsJsWhitespace(s[|s| - 1]) then TrimEnd(s[..|s| - 1]) else s
  }

  /** `r` is the slice of `s` starting at `a`, and everything of `s` before and after it is whitespace. */
  predicate WhitespaceAround(s: string, a: int, r: string) {
    0 <= a && a + |r| <= |s| && r == s[a..a + |r|] &&
    AllWhitespace(s[..a]) && AllWhitespace(s[a + |r|..])
  }

  /**
   * JavaScript `s.trim()`: `s` with its leading and trailing whitespace removed,
   * and nothing else; the slice starts where the leading whitespace ends.
   */
  function Trim(s: string): (r: string)
    ensures |r| <= |s|
    ensures r == [] || (!IsJsWhitespace(r[0]) && !IsJsWhitespace(r[|r| - 1]))
    ensures WhitespaceAround(s, |s| - |TrimStart(s)|, r)
  {
    var a := TrimStart(s);
    var r := TrimEnd(a);
    OuterSlice(s, a, r);
    r
  }

  /**
   * A prefix `r` of a suffix `a` of `s`, each with only whitespace dropped, is a
   * slice of `s` with whitespace around it; a visible first character of `a` is kept.
   */
  lemma OuterSlice(s: string, a: string, r: string)
    requires |a| <= |s| && a == s[|s| - |a|..]
    requires forall k :: 0 <= k < |s| - |a| ==> IsJsWhitespace(s[k])
    requires |r| <= |a| && r == a[..|r|]
    requires forall k :: |r| <= k < |a| ==> IsJsWhitespace(a[k])
    requires a == [] || !IsJsWhitespace(a[0])
    requires r == [] || !IsJsWhitespace(r[|r| - 1])
    ensures r == [] || (!IsJsWhitespace(r[0]) && !IsJsWhitespace(r[|r| - 1]))
    ensures WhitespaceAround(s, |s| - |a|, r)
  {
    if r != [] {
      assert r[0] == a[0];
    }
    var d := |s| - |a|;
    assert r == s[d..d + |r|];
    assert AllWhitespace(s[..d]);
    assert s[d + |r|..] == a[|r|..];
    assert AllWhitespace(s[d + |r|..]);
  }

  /** `s` holds some character that is not whitespace. */
  predicate HasVisibleChar(s: string) {
    exists k :: 0 <= k < |s| && !IsJsWhitespace(s[k])
  }

  /** Dropping leading whitespace leaves nothing exactly when `s` is all whitespace. */
  lemma TrimStartEmptyIff(s: string)
    ensures TrimStart(s) == [] <==> AllWhitespace(s)
  {
    var r := TrimStart(s);
    if r != [] {
      assert r[0] == s[|s| - |r|];
    }
  }

  /** The result of `trim` is empty exactly when `s` is all whitespace. */
  lemma TrimEmptyIff(s: string)
    ensures Trim(s) != [] <==> HasVisibleChar(s)
  {
    var a := TrimStart(s);
    TrimStartEmptyIff(s);
    if a != [] {
      // `a` starts with a visible character, which `TrimEnd` keeps.
      assert !IsJsWhitespace(a[0]) && 0 < |a|;
    }
  }

  /** Trimming again changes nothing. */
  lemma TrimIdempotent(s: string)
    ensures Trim(Trim(s)) == Trim(s)
  {
    var r := Trim(s);
    if r != [] {
      assert r[0] == TrimStart(s)[0];
      assert TrimStart(r) == r;
    }
  }
}

/** The JavaScript string operations the source uses: case mapping (ASCII
    letters only), `includes`, `startsWith`, `trim` and a first-occurrence
    `replace` of one character. */
module Text {

  /** `toLowerCase` on one character; letters outside A-Z are left as they are. */
  function LowerChar(c: char): (r: char)
    ensures 'A' <= c <= 'Z' ==> r as int == c as int + 32
    ensures !('A' <= c <= 'Z') ==> r == c
    ensures !('A' <= r <= 'Z')
  {
    if 'A' <= c <= 'Z' then (c as int + 32) as char else c
  }

  /** `toUpperCase` on one character; letters outside a-z are left as they are. */
  function UpperChar(c: char): (r: char)
    ensures 'a' <= c <= 'z' ==> r as int == c as int - 32
    ensures !('a' <= c <= 'z') ==> r == c
    ensures !('a' <= r <= 'z')
  {
    if 'a' <= c <= 'z' then (c as int - 32) as char else c
  }

  /** `s.toLowerCase()`. */
  function Lower(s: string): (r: string)
    ensures |r| == |s|
    ensures forall i :: 0 <= i < |s| ==> r[i] == LowerChar(s[i])
  {
    seq(|s|, i requires 0 <= i < |s| => LowerChar(s[i]))
  }

  /** `s.toUpperCase()`. */
  function Upper(s: string): (r: string)
    ensures |r| == |s|
    ensures forall i :: 0 <= i < |s| ==> r[i] == UpperChar(s[i])
  {
    seq(|s|, i requires 0 <= i < |s| => UpperChar(s[i]))
  }

  /** Lower-casing forgets a previous upper-casing. */
  lemma LowerOfUpper(s: string)
    ensures Lower(Upper(s)) == Lower(s)
  {
    forall i | 0 <= i < |s|
      ensures Lower(Upper(s))[i] == Lower(s)[i]
    {
      var c := s[i];
      if 'a' <= c <= 'z' {
        assert LowerChar(UpperChar(c)) as int == c as int;
      }
    }
  }

  /** `s.startsWith(prefix)`. */
  predicate StartsWith(s: string, prefix: string) {
    prefix <= s
  }

  /** `sub` occurs in `s` starting at index `i`. */
  predicate OccursAt(s: string, sub: string, i: nat) {
    i + |sub| <= |s| && s[i..i + |sub|] == sub
  }

  /** `s.includes(sub)`: `sub` occurs at some position of `s`. */
  predicate Contains(s: string, sub: string) {
    exists i :: 0 <= i <= |s| - |sub| && OccursAt(s, sub, i)
  }

  /** Every string includes the empty string. */
  lemma ContainsEmpty(s: string)
    ensures Contains(s, "")
  {
    assert OccursAt(s, "", 0);
  }

  /** A string that includes `sub` includes every prefix of `sub`. */
  lemma ContainsPrefix(s: string, pre: string, sub: string)
    requires pre <= sub && Contains(s, sub)
    ensures Contains(s, pre)
  {
    var i :| 0 <= i <= |s| - |sub| && OccursAt(s, sub, i);
    assert s[i..i + |pre|] == sub[..|pre|];
    assert OccursAt(s, pre, i);
  }

  /** The characters `String.prototype.trim` removes: the white-space and
      line-terminator code points of section 12.2 and 12.3 of ECMA-262
      (the Unicode `Zs` category included). */
  predicate IsWhitespace(c: char) {
    c == '\t' || c == '\n' || c == '\U{000B}' || c == '\U{000C}' || c == '\r' ||
    c == ' ' || c == '\U{00A0}' || c == '\U{1680}' ||
    ('\U{2000}' <= c <= '\U{200A}') ||
    c == '\U{2028}' || c == '\U{2029}' || c == '\U{202F}' || c == '\U{205F}' ||
    c == '\U{3000}' || c == '\U{FEFF}'
  }

  /** Every character of `s` is white space (vacuously so for ""). */
  predicate IsBlank(s: string) {
    forall i :: 0 <= i < |s| ==> IsWhitespace(s[i])
  }

  /** `s.trimStart()`: the suffix left after the leading white space. */
  function TrimStart(s: string): (r: string)
    ensures |r| <= |s|
    ensures r == s[|s| - |r|..]
    ensures |r| > 0 ==> !IsWhitespace(r[0])
    ensures forall i :: 0 <= i < |s| - |r| ==> IsWhitespace(s[i])
  {
    if |s| > 0 && IsWhitespace(s[0]) then TrimStart(s[1..]) else s
  }

  /** `s.trimEnd()`: the prefix left before the trailing white space. */
  function TrimEnd(s: string): (r: string)
    ensures |r| <= |s|
    ensures r == s[..|r|]
    ensures |r| > 0 ==> !IsWhitespace(r[|r| - 1])
    ensures forall i :: |r| <= i < |s| ==> IsWhitespace(s[i])
  {
    if |s| > 0 && IsWhitespace(s[|s| - 1]) then TrimEnd(s[..|s| - 1]) else s
  }

  /** `s.trim()`: white space removed from both ends. */
  function Trim(s: string): string {
    TrimEnd(TrimStart(s))
  }

  /** `!s.trim()` holds exactly for blank strings. */
  lemma TrimEmptyIffBlank(s: string)
    ensures Trim(s) == "" <==> IsBlank(s)
  {
    var a := TrimStart(s);
    if Trim(s) == "" {
      assert |a| == 0;
    }
  }

  /** `s.indexOf(c)`, except that "absent" is `|s|` rather than -1. */
  function IndexOf(s: string, c: char): (k: nat)
    ensures k <= |s|
    ensures k < |s| ==> s[k] == c
    ensures forall j :: 0 <= j < k ==> s[j] != c
  {
    if |s| == 0 || s[0] == c then 0 else 1 + IndexOf(s[1..], c)
  }

  /** The index of the first `c` is the only index that is either past the
      end or holds `c`, with no `c` before it. */
  lemma IndexOfIsFirst(s: string, c: char, k: nat)
    requires k <= |s| && (k < |s| ==> s[k] == c)
    requires forall j :: 0 <= j < k ==> s[j] != c
    ensures IndexOf(s, c) == k
  {
  }

  /** `s.replace(from, to)` with single-character strings: only the first
      occurrence of `from` is replaced. */
  function ReplaceFirst(s: string, from: char, to: char): (r: string)
    ensures |r| == |s|
    ensures forall i :: 0 <= i < |s| ==> r[i] == if i == IndexOf(s, from) then to else s[i]
  {
    var k := IndexOf(s, from);
    if k == |s| then s else s[..k] + [to] + s[k + 1..]
  }
}

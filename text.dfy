/** The string primitives of the .NET base library that the modelled code relies on. */
module Text {
  import opened Wrappers

  /** Environment.NewLine, fixed to the Windows value the service runs with. */
  const NewLine: string := "\r\n"

  /** char.IsWhiteSpace: the Unicode space separators, line and paragraph separators, and the C0/C1 white-space controls. */
  predicate IsWhiteSpace(c: char) {
    c == ' ' || ('\t' <= c <= '\r') || c == '\U{0085}' || c == '\U{00A0}' || c == '\U{1680}'
    || ('\U{2000}' <= c <= '\U{200A}') || c == '\U{2028}' || c == '\U{2029}' || c == '\U{202F}'
    || c == '\U{205F}' || c == '\U{3000}'
  }

  /** Empty, or white space only. */
  predicate IsBlank(s: string) {
    forall i :: 0 <= i < |s| ==> IsWhiteSpace(s[i])
  }

  /** string.IsNullOrWhiteSpace. */
  predicate IsNullOrWhiteSpace(s: Option<string>) {
    s.None? || IsBlank(s.value)
  }

  /** new string(c, n). */
  function Replicate(c: char, n: nat): (r: string)
    ensures |r| == n && forall i :: 0 <= i < n ==> r[i] == c
  {
    if n == 0 then "" else [c] + Replicate(c, n - 1)
  }

  /** s.TrimStart(c): drops every leading c. */
  function TrimStartChar(s: string, c: char): (r: string)
    ensures exists k :: 0 <= k <= |s| && s == Replicate(c, k) + r
    ensures r == [] || r[0] != c
  {
    if |s| > 0 && s[0] == c then
      var rest := TrimStartChar(s[1..], c);
      ghost var k :| 0 <= k <= |s[1..]| && s[1..] == Replicate(c, k) + rest;
      assert s == Replicate(c, k + 1) + rest;
      rest
    else
      assert s == Replicate(c, 0) + s;
      s
  }

  /** s.TrimStart(): drops leading white space. */
  function TrimStart(s: string): (r: string)
    ensures |r| <= |s| && r == s[|s| - |r|..]
    ensures r == [] || !IsWhiteSpace(r[0])
    ensures IsBlank(s[..|s| - |r|])
  {
    if |s| > 0 && IsWhiteSpace(s[0]) then
      var r := TrimStart(s[1..]);
      assert s[..|s| - |r|] == [s[0]] + s[1..][..|s| - 1 - |r|];
      r
    else s
  }

  /** s.TrimEnd(): drops trailing white space. */
  function TrimEnd(s: string): (r: string)
    ensures |r| <= |s| && r == s[..|r|]
    ensures r == [] || !IsWhiteSpace(r[|r| - 1])
    ensures IsBlank(s[|r|..])
  {
    if |s| > 0 && IsWhiteSpace(s[|s| - 1]) then
      var init := s[..|s| - 1];
      var r := TrimEnd(init);
      assert s[|r|..] == init[|r|..] + [s[|s| - 1]];
      r
    else s
  }

  /** s.Trim(). */
  function Trim(s: string): string {
    TrimEnd(TrimStart(s))
  }

  /** string.Join(sep, parts). */
  function Join(sep: string, parts: seq<string>): string {
    if |parts| == 0 then ""
    else if |parts| == 1 then parts[0]
    else parts[0] + sep + Join(sep, parts[1..])
  }

  /** The simple upper-case mapping OrdinalIgnoreCase compares with (ASCII letters). */
  function FoldChar(c: char): char {
    if 'a' <= c <= 'z' then (c as int - 32) as char else c
  }

  function Fold(s: string): (r: string)
    ensures |r| == |s| && forall i :: 0 <= i < |s| ==> r[i] == FoldChar(s[i])
  {
    if s == [] then [] else [FoldChar(s[0])] + Fold(s[1..])
  }

  /** string.Equals(a, b, StringComparison.OrdinalIgnoreCase). */
  predicate EqualsIgnoreCase(a: string, b: string) {
    Fold(a) == Fold(b)
  }

  /** sub occurs in s at position i. */
  predicate OccursAt(s: string, sub: string, i: nat) {
    i + |sub| <= |s| && s[i..i + |sub|] == sub
  }

  /** s.Contains(sub), i.e. s.IndexOf(sub) >= 0; the empty string occurs everywhere. */
  predicate Contains(s: string, sub: string) {
    exists i: nat | i <= |s| :: OccursAt(s, sub, i)
  }

  /** s.IndexOf(sub, StringComparison.OrdinalIgnoreCase) >= 0. */
  predicate ContainsIgnoreCase(s: string, sub: string) {
    Contains(Fold(s), Fold(sub))
  }

  function DigitChar(d: nat): char
    requires d < 10
  {
    ('0' as int + d) as char
  }

  /** n.ToString() for a non-negative number. */
  function NatToString(n: nat): (r: string)
    ensures |r| > 0
    ensures forall i :: 0 <= i < |r| ==> '0' <= r[i] <= '9'
  {
    if n < 10 then [DigitChar(n)] else NatToString(n / 10) + [DigitChar(n % 10)]
  }

  /** i.ToString() with a leading '-' for negative numbers. */
  function IntToString(i: int): (r: string)
    ensures |r| > 0
  {
    if i < 0 then "-" + NatToString(-i) else NatToString(i)
  }
}

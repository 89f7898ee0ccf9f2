/**
 * The few `str` and `char` operations of Rust's standard library that the lexer, the
 * diagnostics and the formatter rely on, over strings modelled as sequences of chars.
 */
module Strings {
  import opened Wrappers

  /** `char::is_whitespace`: the Unicode White_Space property. */
  predicate IsWhitespace(c: char) {
    ('\t' <= c <= '\r') || c == ' ' || c == '\U{85}' || c == '\U{A0}' || c == '\U{1680}'
    || ('\U{2000}' <= c <= '\U{200A}') || c == '\U{2028}' || c == '\U{2029}' || c == '\U{202F}'
    || c == '\U{205F}' || c == '\U{3000}'
  }

  predicate IsAsciiDigit(c: char) {
    '0' <= c <= '9'
  }

  predicate IsAsciiAlphabetic(c: char) {
    ('a' <= c <= 'z') || ('A' <= c <= 'Z')
  }

  predicate IsAsciiAlphanumeric(c: char) {
    IsAsciiAlphabetic(c) || IsAsciiDigit(c)
  }

  predicate StartsWith(s: string, prefix: string) {
    |prefix| <= |s| && s[..|prefix|] == prefix
  }

  predicate EndsWith(s: string, suffix: string) {
    |suffix| <= |s| && s[|s| - |suffix|..] == suffix
  }

  /** `str::find` with a char predicate: the index of the first char satisfying `f`. */
  function Find(s: string, f: char -> bool): (r: Option<nat>)
    ensures r.Some? ==> r.value < |s| && f(s[r.value])
    ensures r.Some? ==> forall j :: 0 <= j < r.value ==> !f(s[j])
    ensures r.None? ==> forall j :: 0 <= j < |s| ==> !f(s[j])
  {
    if |s| == 0 then None
    else if f(s[0]) then Some(0)
    else
      match Find(s[1..], f)
      case None => None
      case Some(i) => Some(i + 1)
  }

  /** `str::rfind` with a char predicate: the index of the last char satisfying `f`. */
  function RFind(s: string, f: char -> bool): (r: Option<nat>)
    ensures r.Some? ==> r.value < |s| && f(s[r.value])
    ensures r.Some? ==> forall j :: r.value < j < |s| ==> !f(s[j])
    ensures r.None? ==> forall j :: 0 <= j < |s| ==> !f(s[j])
  {
    if |s| == 0 then None
    else if f(s[|s| - 1]) then Some(|s| - 1)
    else RFind(s[..|s| - 1], f)
  }

  /** `str::find` with a string pattern: the first index at which `needle` occurs. */
  function FindStr(s: string, needle: string): (r: Option<nat>)
    ensures r.Some? ==> r.value + |needle| <= |s| && s[r.value..r.value + |needle|] == needle
    ensures r.Some? ==> forall j :: 0 <= j < r.value ==> !StartsWith(s[j..], needle)
    ensures r.None? ==> forall j :: 0 <= j <= |s| ==> !StartsWith(s[j..], needle)
  {
    if StartsWith(s, needle) then Some(0)
    else if |s| == 0 then None
    else
      match FindStr(s[1..], needle)
      case None =>
        assert forall j :: 1 <= j <= |s| ==> s[j..] == s[1..][j - 1..];
        None
      case Some(i) =>
        assert forall j :: 1 <= j <= i ==> s[j..] == s[1..][j - 1..];
        Some(i + 1)
  }

  /** The number of occurrences of `c` in `s`. */
  function Count(s: string, c: char): (n: nat)
    ensures n <= |s|
  {
    if |s| == 0 then 0 else (if s[0] == c then 1 else 0) + Count(s[1..], c)
  }

  /** `str::trim_end`: drop trailing whitespace. */
  function TrimEnd(s: string): (r: string)
    ensures |r| <= |s| && r == s[..|r|]
    ensures forall j :: |r| <= j < |s| ==> IsWhitespace(s[j])
    ensures r == [] || !IsWhitespace(r[|r| - 1])
  {
    if |s| == 0 || !IsWhitespace(s[|s| - 1]) then s else TrimEnd(s[..|s| - 1])
  }

  /** `str::trim`: drop leading and trailing whitespace. */
  function Trim(s: string): (r: string)
    ensures r == [] <==> forall j :: 0 <= j < |s| ==> IsWhitespace(s[j])
  {
    match Find(s, c => !IsWhitespace(c))
    case None => []
    case Some(i) =>
      var t := TrimEnd(s[i..]);
      assert t != [] by {
        assert !IsWhitespace(s[i..][0]);
      }
      t
  }
}

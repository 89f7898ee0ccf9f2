/**
 * The lexer's cursor: the unread rest of the source together with the offset at which it
 * starts. Offsets count chars, which are the source's byte offsets for ASCII text.
 */
module ParseStrs {
  import opened Wrappers
  import opened Strings

  datatype ParseStr = ParseStr(val: string, offset: nat)

  /** A cursor at the start of `s`. */
  function New(s: string): (p: ParseStr)
    ensures p.val == s && StartOffset(p) == 0 && EndOffset(p) == |s|
  {
    ParseStr(s, 0)
  }

  function Len(p: ParseStr): nat {
    |p.val|
  }

  predicate IsEnded(p: ParseStr) {
    |p.val| == 0
  }

  function StartOffset(p: ParseStr): nat {
    p.offset
  }

  function EndOffset(p: ParseStr): (e: nat)
    ensures e == StartOffset(p) + Len(p)
  {
    p.offset + |p.val|
  }

  /** The text from `idx` on; it still ends where `p` ends. */
  function From(p: ParseStr, idx: nat): (r: ParseStr)
    requires idx <= |p.val|
    ensures p.val == p.val[..idx] + r.val
    ensures StartOffset(r) == StartOffset(p) + idx
    ensures EndOffset(r) == EndOffset(p)
  {
    ParseStr(p.val[idx..], p.offset + idx)
  }

  /**
   * `rest` is what is left of `val` after a non-empty prefix: it lies at the end of `val`,
   * further right.
   */
  predicate Consumed(val: ParseStr, rest: ParseStr) {
    && StartOffset(val) < StartOffset(rest) && EndOffset(rest) == EndOffset(val)
    && |rest.val| < |val.val| && val.val == val.val[..|val.val| - |rest.val|] + rest.val
  }

  /** Skipping `skip` chars and then `len` more, at least one in all, consumes from `val`. */
  lemma FromTwiceConsumes(val: ParseStr, skip: nat, len: nat)
    requires 0 < skip + len <= |val.val|
    ensures Consumed(val, From(From(val, skip), len))
  {
    var rest := From(From(val, skip), len);
    assert rest.val == val.val[skip + len..];
    assert val.val == val.val[..skip + len] + rest.val;
  }

  /** Reading on from a cursor that lies at the end of `val` still consumes from `val`. */
  lemma ConsumedAfter(val: ParseStr, mid: ParseStr, rest: ParseStr)
    requires EndOffset(mid) == EndOffset(val) && |mid.val| <= |val.val|
    requires val.val == val.val[..|val.val| - |mid.val|] + mid.val
    requires Consumed(mid, rest)
    ensures Consumed(val, rest)
  {
    var k := |val.val| - |mid.val|;
    var j := |mid.val| - |rest.val|;
    assert val.val[k..] == mid.val;
    assert mid.val[j..] == rest.val;
    assert val.val[k + j..] == rest.val;
    assert val.val == val.val[..k + j] + val.val[k + j..];
  }

  /** The empty cursor at the end of `p`. */
  function End(p: ParseStr): (r: ParseStr)
    ensures IsEnded(r) && StartOffset(r) == EndOffset(p) && EndOffset(r) == EndOffset(p)
  {
    ParseStr([], p.offset + |p.val|)
  }

  /** End is From at the length: both give the same cursor. */
  lemma EndIsFromLength(p: ParseStr)
    ensures End(p) == From(p, |p.val|)
  {
  }

  /**
   * Splits at `mid`, or takes everything when there is no `mid`. The two halves
   * concatenate back to the text, and the remainder starts right after the prefix.
   */
  function SplitAt(p: ParseStr, mid: Option<nat>): (r: (string, ParseStr))
    requires mid.Some? ==> mid.value <= |p.val|
    ensures r.0 + r.1.val == p.val
    ensures StartOffset(r.1) == StartOffset(p) + |r.0|
    ensures EndOffset(r.1) == EndOffset(p)
    ensures mid.Some? ==> |r.0| == mid.value
    ensures mid.None? ==> r.0 == p.val && IsEnded(r.1)
  {
    match mid
    case Some(m) => (p.val[..m], From(p, m))
    case None => (p.val, End(p))
  }

  predicate IsLineBreakOrVisible(c: char) {
    c == '\n' || !IsWhitespace(c)
  }

  /**
   * Skips whitespace other than newlines: what is removed is non-newline whitespace, and
   * what is left is empty or starts with a newline or a visible char.
   */
  function TrimStart(p: ParseStr): (r: ParseStr)
    ensures |r.val| <= |p.val| && r.val == p.val[|p.val| - |r.val|..]
    ensures StartOffset(r) == StartOffset(p) + (|p.val| - |r.val|)
    ensures forall j :: 0 <= j < |p.val| - |r.val| ==> IsWhitespace(p.val[j]) && p.val[j] != '\n'
    ensures r.val == [] || IsLineBreakOrVisible(r.val[0])
  {
    match Find(p.val, IsLineBreakOrVisible)
    case Some(i) => From(p, i)
    case None => End(p)
  }

  /** Trimming twice trims nothing more. */
  lemma TrimStartIdempotent(p: ParseStr)
    ensures TrimStart(TrimStart(p)) == TrimStart(p)
  {
    var r := TrimStart(p);
    if r.val != [] {
      assert Find(r.val, IsLineBreakOrVisible) == Some(0);
    }
  }

  /** Some exactly when the text starts with `prefix`; the offset grows by the prefix length. */
  function StripPrefix(p: ParseStr, prefix: string): (r: Option<ParseStr>)
    ensures r.Some? <==> StartsWith(p.val, prefix)
    ensures r.Some? ==> prefix + r.value.val == p.val
    ensures r.Some? ==> StartOffset(r.value) == StartOffset(p) + |prefix|
    ensures r.Some? ==> EndOffset(r.value) == EndOffset(p)
  {
    if StartsWith(p.val, prefix) then Some(ParseStr(p.val[|prefix|..], p.offset + |prefix|)) else None
  }
}

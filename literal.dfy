/**
 * Literal recognition: integers in three bases (the digit parsing itself is delegated to
 * a number-parsing library, which the model takes as a parameter), floats (likewise),
 * character literals and the three kinds of string literal.
 */
module Literals {
  import opened Wrappers
  import opened Strings
  import opened ParseStrs
  import opened Tokens
  import opened LexerErrors

  /**
   * The integer parser of the number library: for a text and a base, None on failure,
   * otherwise the i64 value of the longest digit prefix and that prefix's length.
   */
  type IntParser = (string, LiteralBase) -> Option<(int, nat)>

  /** The float parser of the number library: None on failure, else the length it parsed. */
  type FloatParser = string -> Option<nat>

  const I64Min: int := -0x8000_0000_0000_0000
  const I64Max: int := 0x7FFF_FFFF_FFFF_FFFF

  /** What a partial parse may return: an i64 and a length within the text. */
  ghost predicate IntParserWellBehaved(parse: IntParser) {
    forall s, b :: parse(s, b).Some? ==>
      parse(s, b).value.1 <= |s| && I64Min <= parse(s, b).value.0 <= I64Max
  }

  /** What a partial float parse may return: a length within the text, and a success reads at least one character. */
  ghost predicate FloatParserWellBehaved(parse: FloatParser) {
    forall s :: parse(s).Some? ==> 0 < parse(s).value <= |s|
  }

  /** A `0` followed by an ASCII digit. */
  function StartsWithOctal(s: string): (r: bool)
    ensures r ==> StartsWith(s, "0") && !StartsWith(s, "0x")
    ensures r <==> |s| >= 2 && s[0] == '0' && IsAsciiDigit(s[1])
  {
    |s| >= 2 && s[0] == '0' && IsAsciiDigit(s[1])
  }

  predicate IsFloatTailChar(c: char) {
    c != '.' && !IsAsciiDigit(c)
  }

  /** The base of an integer literal and the length of its prefix: `0x`, an octal `0`, or none. */
  function NumberBase(s: string): (r: (LiteralBase, nat))
    ensures r.1 <= |s| && r.1 <= 2
    ensures r.0 == Hexadecimal <==> StartsWith(s, "0x")
    ensures r.0 == Octal <==> StartsWithOctal(s)
    ensures r.0 == Decimal ==> r.1 == 0
  {
    if StartsWith(s, "0x") then (Hexadecimal, 2)
    else if StartsWithOctal(s) then (Octal, 1)
    else (Decimal, 0)
  }

  /** How the integer reading of a number ends. */
  datatype IntegerAttempt =
    | NotInteger
    | Integer(value: int, base: LiteralBase, rest: ParseStr)
    | FollowedByDot

  /**
   * The integer half of `try_number`: after the base prefix the integer parser must read
   * at least one char, and an integer followed by `.` is handed on to the float reading.
   */
  function TryInteger(val: ParseStr, parseInt: IntParser): (r: IntegerAttempt)
    requires IntParserWellBehaved(parseInt)
    requires |val.val| > 0 && IsAsciiDigit(val.val[0])
    ensures r.Integer? ==>
      && Consumed(val, r.rest)
      && !StartsWith(r.rest.val, ".")
      && r.base == NumberBase(val.val).0
      && I64Min <= r.value <= I64Max
  {
    var (base, skip) := NumberBase(val.val);
    var remaining := From(val, skip);
    match parseInt(remaining.val, base)
    case None => NotInteger
    case Some((v, len)) =>
      if len == 0 then NotInteger
      else
        var rest := From(remaining, len);
        if StartsWith(rest.val, ".") then FollowedByDot
        else
          FromTwiceConsumes(val, skip, len);
          Integer(v, base, rest)
  }

  /**
   * The float half of `try_number`: the float parser must read something other than a lone
   * leading `.`, and any `[.0-9]` run after what it read is swallowed.
   */
  function TryFloat(val: ParseStr, parseFloat: FloatParser): (r: Option<ParseStr>)
    requires FloatParserWellBehaved(parseFloat)
    ensures r.Some? ==> Consumed(val, r.value) && (r.value.val == [] || IsFloatTailChar(r.value.val[0]))
  {
    match parseFloat(val.val)
    case None => None
    case Some(len) =>
      if len == 1 && StartsWith(val.val, ".") then None
      else
        var afterFloat := From(val, len);
        var tail := match Find(afterFloat.val, IsFloatTailChar)
          case Some(i) => i
          case None => |afterFloat.val|;
        FromTwiceConsumes(val, len, tail);
        Some(From(afterFloat, tail))
  }

  /**
   * `try_number`. A text starting with a digit is first read as an integer; an integer not
   * followed by `.` is the result. Otherwise, and for a text starting with `.`, the float
   * reading decides.
   */
  function TryNumber(val: ParseStr, parseInt: IntParser, parseFloat: FloatParser)
    : (r: Option<(LiteralToken, ParseStr)>)
    requires IntParserWellBehaved(parseInt) && FloatParserWellBehaved(parseFloat)
    ensures r.Some? ==> (r.value.0.Int? || r.value.0 == Float) && Consumed(val, r.value.1)
    ensures r.Some? && r.value.0.Int? ==>
      && !StartsWith(r.value.1.val, ".")
      && r.value.0.base == NumberBase(val.val).0
      && I64Min <= r.value.0.value <= I64Max
  {
    if |val.val| > 0 && IsAsciiDigit(val.val[0]) then DigitNumber(val, parseInt, parseFloat)
    else if StartsWith(val.val, ".") then FloatNumber(val, parseFloat)
    else None
  }

  /** `try_number` on a text that starts with a digit. */
  function DigitNumber(val: ParseStr, parseInt: IntParser, parseFloat: FloatParser)
    : (r: Option<(LiteralToken, ParseStr)>)
    requires IntParserWellBehaved(parseInt) && FloatParserWellBehaved(parseFloat)
    requires |val.val| > 0 && IsAsciiDigit(val.val[0])
    ensures r.Some? ==> (r.value.0.Int? || r.value.0 == Float) && Consumed(val, r.value.1)
    ensures r.Some? && r.value.0.Int? ==>
      && !StartsWith(r.value.1.val, ".")
      && r.value.0.base == NumberBase(val.val).0
      && I64Min <= r.value.0.value <= I64Max
  {
    match TryInteger(val, parseInt)
    case Integer(v, base, rest) => Some((Int(v, base), rest))
    case NotInteger => None
    case FollowedByDot => FloatNumber(val, parseFloat)
  }

  function FloatNumber(val: ParseStr, parseFloat: FloatParser): (r: Option<(LiteralToken, ParseStr)>)
    requires FloatParserWellBehaved(parseFloat)
    ensures r.Some? ==> r.value.0 == Float && Consumed(val, r.value.1)
  {
    match TryFloat(val, parseFloat)
    case None => None
    case Some(rest) => Some((Float, rest))
  }

  /** How a string body scan ends: at a closing delimiter, at end of input, or at a raw newline. */
  datatype ScanEnd = Closed(index: nat) | EndOfInput | EndOfLine(index: nat)

  /**
   * The scan of `try_string_val` from index `i` of the text after the opening delimiter.
   * Outside verbatim strings a newline is an error and a backslash skips the next char;
   * inside them a doubled delimiter is skipped.
   */
  function Scan(s: string, i: nat, delim: char, verbatim: bool): (r: ScanEnd)
    decreases |s| - i
    ensures r.Closed? ==> i <= r.index < |s| && s[r.index] == delim
    ensures r.EndOfLine? ==> i <= r.index < |s| && s[r.index] == '\n' && !verbatim
  {
    if i >= |s| then EndOfInput
    else if !verbatim && s[i] == '\n' then EndOfLine(i)
    else if !verbatim && s[i] == '\\' then Scan(s, i + 2, delim, verbatim)
    else if verbatim && s[i] == delim && i + 1 < |s| && s[i + 1] == delim then Scan(s, i + 2, delim, verbatim)
    else if s[i] == delim then Closed(i)
    else Scan(s, i + 1, delim, verbatim)
  }

  /** `try_string_val` as a function of the cursor. */
  function StringVal(val: ParseStr, delim: char, verbatim: bool)
    : (r: Result<Option<(string, ParseStr)>, LexerError>)
    ensures r.Ok? && r.value.Some? ==> Consumed(val, r.value.value.1)
  {
    if !StartsWith(val.val, [delim]) then Ok(None)
    else
      var body := From(val, 1);
      match Scan(body.val, 0, delim, verbatim)
      case Closed(idx) =>
        FromTwiceConsumes(val, 1, idx + 1);
        Ok(Some((body.val[..idx], From(body, idx + 1))))
      case EndOfInput => Err(LexerError(EndOfInputInsideString, Range(EndOffset(body), EndOffset(body))))
      case EndOfLine(idx) =>
        Err(LexerError(EndOfLineInsideString, Range(StartOffset(body) + idx, StartOffset(body) + idx)))
  }

  /**
   * `try_string_val`: the loop over the chars after the opening delimiter, with the
   * one-char lookahead of the peekable iterator.
   */
  method TryStringVal(val: ParseStr, delim: char, verbatim: bool)
    returns (r: Result<Option<(string, ParseStr)>, LexerError>)
    ensures r == StringVal(val, delim, verbatim)
  {
    if !StartsWith(val.val, [delim]) {
      return Ok(None);
    }
    var body := From(val, 1);
    var end := ScanBody(body.val, delim, verbatim);
    match end
    case Closed(idx) =>
      return Ok(Some((body.val[..idx], From(body, idx + 1))));
    case EndOfInput =>
      return Err(LexerError(EndOfInputInsideString, Range(EndOffset(body), EndOffset(body))));
    case EndOfLine(idx) =>
      return Err(LexerError(EndOfLineInsideString, Range(StartOffset(body) + idx, StartOffset(body) + idx)));
  }

  /** The loop of `try_string_val` over the chars after the opening delimiter. */
  method ScanBody(s: string, delim: char, verbatim: bool) returns (end: ScanEnd)
    ensures end == Scan(s, 0, delim, verbatim)
  {
    var i := 0;
    while true
      invariant Scan(s, i, delim, verbatim) == Scan(s, 0, delim, verbatim)
      decreases |s| + 2 - i
    {
      if i >= |s| {
        return EndOfInput;
      }
      var c := s[i];
      if !verbatim && c == '\n' {
        return EndOfLine(i);
      }
      if !verbatim && c == '\\' {
        i := i + 2;
        continue;
      }
      if verbatim && c == delim && i + 1 < |s| && s[i + 1] == delim {
        i := i + 2;
        continue;
      }
      if c == delim {
        return Closed(i);
      }
      i := i + 1;
    }
  }

  /**
   * The bodies a string literal may have: outside verbatim strings, chars other than the
   * delimiter, newline and backslash, or a backslash with any char after it; inside them,
   * chars other than the delimiter, or the delimiter doubled.
   */
  predicate WellFormedBody(s: string, delim: char, verbatim: bool)
    decreases |s|
  {
    if s == [] then true
    else if !verbatim then
      if s[0] == '\\' then |s| >= 2 && WellFormedBody(s[2..], delim, verbatim)
      else s[0] != '\n' && s[0] != delim && WellFormedBody(s[1..], delim, verbatim)
    else
      if s[0] == delim then |s| >= 2 && s[1] == delim && WellFormedBody(s[2..], delim, verbatim)
      else WellFormedBody(s[1..], delim, verbatim)
  }

  /** A scan that closes at `k` has read a well-formed body, and in a verbatim string the closer is not doubled. */
  lemma {:induction false} ScanClosedIsWellFormed(s: string, i: nat, delim: char, verbatim: bool)
    requires delim != '\\' && delim != '\n'
    requires Scan(s, i, delim, verbatim).Closed?
    ensures var k := Scan(s, i, delim, verbatim).index;
      WellFormedBody(s[i..k], delim, verbatim) && (verbatim ==> !(k + 1 < |s| && s[k + 1] == delim))
    decreases |s| - i
  {
    var k := Scan(s, i, delim, verbatim).index;
    if !verbatim && s[i] == '\\' {
      ScanClosedIsWellFormed(s, i + 2, delim, verbatim);
      assert s[i..k][2..] == s[i + 2..k];
    } else if verbatim && s[i] == delim && i + 1 < |s| && s[i + 1] == delim {
      ScanClosedIsWellFormed(s, i + 2, delim, verbatim);
      assert s[i..k][2..] == s[i + 2..k];
    } else if s[i] == delim {
      assert s[i..k] == [];
    } else {
      ScanClosedIsWellFormed(s, i + 1, delim, verbatim);
      assert s[i..k][1..] == s[i + 1..k];
    }
  }

  /** Conversely, a well-formed body followed by an undoubled delimiter closes right there. */
  lemma {:induction false} WellFormedBodyCloses(s: string, i: nat, k: nat, delim: char, verbatim: bool)
    requires delim != '\\' && delim != '\n'
    requires i <= k < |s| && s[k] == delim
    requires WellFormedBody(s[i..k], delim, verbatim)
    requires verbatim ==> !(k + 1 < |s| && s[k + 1] == delim)
    ensures Scan(s, i, delim, verbatim) == Closed(k)
    decreases k - i
  {
    if i == k {
    } else if !verbatim && s[i] == '\\' {
      assert s[i..k][2..] == s[i + 2..k];
      WellFormedBodyCloses(s, i + 2, k, delim, verbatim);
    } else if verbatim && s[i] == delim {
      assert s[i..k][2..] == s[i + 2..k];
      WellFormedBodyCloses(s, i + 2, k, delim, verbatim);
    } else {
      assert s[i..k][1..] == s[i + 1..k];
      WellFormedBodyCloses(s, i + 1, k, delim, verbatim);
    }
  }

  /**
   * `try_string_val` succeeds exactly on a delimiter, a well-formed body and a closing
   * delimiter: the content excludes both delimiters and the remainder starts right after
   * the closer.
   */
  lemma StringValRoundTrip(body: string, rest: string, offset: nat, delim: char, verbatim: bool)
    requires delim == '"' || delim == '\''
    requires WellFormedBody(body, delim, verbatim)
    requires verbatim ==> !StartsWith(rest, [delim])
    ensures StringVal(ParseStr([delim] + body + [delim] + rest, offset), delim, verbatim)
      == Ok(Some((body, ParseStr(rest, offset + |body| + 2))))
  {
    var val := ParseStr([delim] + body + [delim] + rest, offset);
    OpenedBody(body, rest, offset, delim);
    ClosedBodyScan(body, rest, delim, verbatim);
    StringValClosed(val, delim, verbatim, |body|);
  }

  /** After the opening delimiter come the body, the closer and the rest. */
  lemma OpenedBody(body: string, rest: string, offset: nat, delim: char)
    ensures var val := ParseStr([delim] + body + [delim] + rest, offset);
      && StartsWith(val.val, [delim])
      && From(val, 1) == ParseStr(body + [delim] + rest, offset + 1)
      && From(val, 1).val[..|body|] == body
      && From(From(val, 1), |body| + 1) == ParseStr(rest, offset + |body| + 2)
  {
    var val := ParseStr([delim] + body + [delim] + rest, offset);
    assert val.val[..1] == [delim];
    assert val.val[1..] == body + [delim] + rest;
    var b := body + [delim] + rest;
    assert b[..|body|] == body;
    assert b[|body| + 1..] == rest;
  }

  /** The scan of a well-formed body followed by its closer stops at the closer. */
  lemma ClosedBodyScan(body: string, rest: string, delim: char, verbatim: bool)
    requires delim == '"' || delim == '\''
    requires WellFormedBody(body, delim, verbatim)
    requires verbatim ==> !StartsWith(rest, [delim])
    ensures Scan(body + [delim] + rest, 0, delim, verbatim) == Closed(|body|)
  {
    var b := body + [delim] + rest;
    assert b[0..|body|] == body;
    WellFormedBodyCloses(b, 0, |body|, delim, verbatim);
  }

  /** A scan that closes at `idx` gives the body before it and the text after the closer. */
  lemma StringValClosed(val: ParseStr, delim: char, verbatim: bool, idx: nat)
    requires StartsWith(val.val, [delim]) && Scan(From(val, 1).val, 0, delim, verbatim) == Closed(idx)
    ensures StringVal(val, delim, verbatim) == Ok(Some((From(val, 1).val[..idx], From(From(val, 1), idx + 1))))
  {
  }

  lemma StringValIsWellFormed(val: ParseStr, delim: char, verbatim: bool)
    requires delim == '"' || delim == '\''
    requires StringVal(val, delim, verbatim).Ok? && StringVal(val, delim, verbatim).value.Some?
    ensures var (content, rest) := StringVal(val, delim, verbatim).value.value;
      && val.val == [delim] + content + [delim] + rest.val
      && WellFormedBody(content, delim, verbatim)
      && StartOffset(rest) == StartOffset(val) + |content| + 2
  {
    var body := From(val, 1);
    var k := Scan(body.val, 0, delim, verbatim).index;
    StringValClosed(val, delim, verbatim, k);
    ScanClosedIsWellFormed(body.val, 0, delim, verbatim);
    assert body.val[0..k] == body.val[..k];
    SplitAroundCloser(val.val, delim, k);
  }

  /** A text that opens and closes with `delim` is the opener, the body, the closer and the rest. */
  lemma SplitAroundCloser(s: string, delim: char, k: nat)
    requires k + 1 < |s| && s[0] == delim && s[k + 1] == delim
    ensures s == [delim] + s[1..][..k] + [delim] + s[1..][k + 1..]
  {
    assert s[1..][..k] == s[1..k + 1];
    assert s[1..][k + 1..] == s[k + 2..];
    assert s == s[..1] + s[1..k + 1] + s[k + 1..k + 2] + s[k + 2..];
  }

  /** The errors of `try_string_val` point at an empty range: the end of input, or the raw newline. */
  lemma StringValErrors(val: ParseStr, delim: char, verbatim: bool)
    requires StringVal(val, delim, verbatim).Err?
    ensures var e := StringVal(val, delim, verbatim).error;
      && e.range.start == e.range.end
      && (e.ty == EndOfInputInsideString ==> e.range.start == EndOffset(val))
      && (e.ty == EndOfLineInsideString ==>
            !verbatim && StartOffset(val) < e.range.start < EndOffset(val)
            && val.val[e.range.start - StartOffset(val)] == '\n')
      && (e.ty == EndOfInputInsideString || e.ty == EndOfLineInsideString)
  {
  }

  /** Not starting with the delimiter is exactly the Ok(None) case. */
  lemma StringValNone(val: ParseStr, delim: char, verbatim: bool)
    ensures StringVal(val, delim, verbatim) == Ok(None) <==> !StartsWith(val.val, [delim])
  {
  }

  /** `try_string`: `@` makes a verbatim string, `$` an asset string, anything else a plain one. */
  function TryString(val: ParseStr): (r: Result<Option<(StringToken, ParseStr)>, LexerError>)
    ensures r.Ok? && r.value.Some? ==> Consumed(val, r.value.value.1)
    ensures r.Ok? && r.value.Some? ==>
      && (r.value.value.0.Verbatim? <==> StartsWith(val.val, "@"))
      && (r.value.value.0.Asset? <==> StartsWith(val.val, "$"))
    ensures r == Ok(None) <==>
      var afterPrefix := if StartsWith(val.val, "@") || StartsWith(val.val, "$") then val.val[1..] else val.val;
      !StartsWith(afterPrefix, "\"")
  {
    match StripPrefix(val, "@")
    case Some(remaining) =>
      (match StringVal(remaining, '"', true)
       case Err(e) => Err(e)
       case Ok(None) => Ok(None)
       case Ok(Some((v, rest))) =>
         ConsumedAfter(val, remaining, rest);
         Ok(Some((Verbatim(v), rest))))
    case None =>
      match StripPrefix(val, "$")
      case Some(remaining) =>
        (match StringVal(remaining, '"', false)
         case Err(e) => Err(e)
         case Ok(None) => Ok(None)
         case Ok(Some((v, rest))) =>
           ConsumedAfter(val, remaining, rest);
           Ok(Some((Asset(v), rest))))
      case None =>
        match StringVal(val, '"', false)
        case Err(e) => Err(e)
        case Ok(None) => Ok(None)
        case Ok(Some((v, rest))) =>
          assert !StartsWith(val.val, "@") && !StartsWith(val.val, "$") by {
            assert val.val[0] == '"';
          }
          Ok(Some((StringToken.Literal(v), rest)))
  }

  /** `try_literal`: a number first, then a character literal, then a string literal. */
  function TryLiteral(val: ParseStr, parseInt: IntParser, parseFloat: FloatParser)
    : (r: Result<Option<(LiteralToken, ParseStr)>, LexerError>)
    requires IntParserWellBehaved(parseInt) && FloatParserWellBehaved(parseFloat)
    ensures r.Ok? && r.value.Some? ==> Consumed(val, r.value.value.1)
    ensures r.Ok? && r.value.Some? ==> (r.value.value.0.Char? <==>
      (TryNumber(val, parseInt, parseFloat).None? && StartsWith(val.val, "'")))
  {
    match TryNumber(val, parseInt, parseFloat)
    case Some(n) => Ok(Some(n))
    case None =>
      match StringVal(val, '\'', false)
      case Err(e) => Err(e)
      case Ok(Some((v, rest))) => Ok(Some((Char(v), rest)))
      case Ok(None) =>
        match TryString(val)
        case Err(e) => Err(e)
        case Ok(None) => Ok(None)
        case Ok(Some((s, rest))) => Ok(Some((String(s), rest)))
  }
}

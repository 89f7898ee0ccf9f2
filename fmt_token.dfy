// How the formatter prints a token: its text, the lines before it, and the guard on
// discarding a token that ends a line.
module TokenFormat {
  import opened Wrappers
  import opened Tokens
  import opened Writers

  /** The bases integer literals are printed in. */
  predicate Radix(base: nat) {
    base == 8 || base == 10 || base == 16
  }

  /** A digit in lower case: `0`-`9`, then `a`-`f`. */
  function DigitChar(d: nat): (c: char)
    requires d < 16
  {
    if d < 10 then (48 + d) as char else (87 + d) as char
  }

  /** Whether `c` is a digit below `base`, as `DigitChar` writes it. */
  predicate IsDigit(c: char, base: nat) {
    ('0' <= c <= '9' && (c as int) - 48 < base) || ('a' <= c <= 'f' && (c as int) - 87 < base)
  }

  /** The value of a digit `DigitChar` writes. */
  function DigitValue(c: char): int {
    if c <= '9' then (c as int) - 48 else (c as int) - 87
  }

  /** `DigitChar` writes a digit of the base, whose value is the one written. */
  lemma DigitCharValue(d: nat, base: nat)
    requires d < base && Radix(base)
    ensures IsDigit(DigitChar(d), base) && DigitValue(DigitChar(d)) == d
  {
  }

  /** The digits of `n` in `base`, most significant first, with no leading zero. */
  function Digits(n: nat, base: nat): (r: string)
    requires Radix(base)
    ensures |r| > 0 && (n > 0 ==> r[0] != '0')
    ensures forall i :: 0 <= i < |r| ==> IsDigit(r[i], base)
  {
    DigitCharValue(n % base, base);
    if n < base then [DigitChar(n)] else Digits(n / base, base) + [DigitChar(n % base)]
  }

  /** The number that digits in `base` stand for. */
  function ValueOf(s: string, base: nat): int {
    if |s| == 0 then 0 else ValueOf(s[..|s| - 1], base) * base + DigitValue(s[|s| - 1])
  }

  /** Appending a digit multiplies by the base and adds the digit. */
  lemma ValueOfAppend(s: string, c: char, base: nat)
    ensures ValueOf(s + [c], base) == ValueOf(s, base) * base + DigitValue(c)
  {
    assert (s + [c])[..|s|] == s;
  }

  /** A number is its quotient by the base times the base, plus the remainder. */
  lemma QuotientRemainder(n: nat, base: nat)
    requires Radix(base)
    ensures (n / base) * base + n % base == n
  {
    if base == 8 {
    } else if base == 10 {
    } else {
    }
  }

  /** The digits of a number of two or more digits: those of the quotient, then the remainder's. */
  lemma DigitsStep(n: nat, base: nat)
    requires Radix(base) && n >= base
    ensures Digits(n, base) == Digits(n / base, base) + [DigitChar(n % base)]
  {
  }

  /** A digit appended to digits worth `q` is worth `q * base` plus the digit. */
  lemma AppendDigitValue(prefix: string, q: nat, d: nat, n: nat, base: nat)
    requires Radix(base) && d < base
    requires ValueOf(prefix, base) == q && q * base + d == n
    ensures ValueOf(prefix + [DigitChar(d)], base) == n
  {
    DigitCharValue(d, base);
    ValueOfAppend(prefix, DigitChar(d), base);
  }

  /** Reading the digits back gives the number. */
  lemma {:induction false} DigitsRoundTrip(n: nat, base: nat)
    requires Radix(base)
    ensures ValueOf(Digits(n, base), base) == n
  {
    if n >= base {
      DigitsRoundTrip(n / base, base);
      QuotientRemainder(n, base);
      DigitsStep(n, base);
      AppendDigitValue(Digits(n / base, base), n / base, n % base, n, base);
    } else {
      DigitCharValue(n, base);
      ValueOfAppend([], DigitChar(n), base);
    }
  }

  /** `i64` and its range. */
  predicate IsI64(v: int) {
    -0x8000_0000_0000_0000 <= v < 0x8000_0000_0000_0000
  }

  /** The bits of an `i64` read as a `u64`: what the octal and hexadecimal format specifiers print for a negative value. */
  function Unsigned(v: int): (u: nat)
    requires IsI64(v)
    ensures u < 0x1_0000_0000_0000_0000
    ensures v >= 0 ==> u == v
    ensures v < 0 ==> u >= 0x8000_0000_0000_0000 && u - 0x1_0000_0000_0000_0000 == v
  {
    if v < 0 then v + 0x1_0000_0000_0000_0000 else v
  }

  /**
   * `int_to_base_string`: decimal as written, with a `-` for a negative value; octal with a
   * leading `0`; hexadecimal with `0x` and lower-case digits. Octal and hexadecimal print the
   * value's 64 bits, so a negative value comes out as its two's complement.
   */
  function IntToBaseString(v: int, base: LiteralBase): (r: string)
    requires IsI64(v)
    ensures |r| > 0 && (base == Decimal ==> (r[0] == '-' <==> v < 0))
    ensures base == Octal ==> |r| > 1 && r[0] == '0'
    ensures base == Hexadecimal ==> |r| > 2 && r[..2] == "0x"
  {
    match base
    case Decimal => if v < 0 then "-" + Digits(-v, 10) else Digits(v, 10)
    case Octal => "0" + Digits(Unsigned(v), 8)
    case Hexadecimal => "0x" + Digits(Unsigned(v), 16)
  }

  /** The printed literal reads back as the value: after the sign or base prefix come its digits. */
  lemma IntToBaseStringReadsBack(v: int, base: LiteralBase)
    requires IsI64(v)
    ensures var r := IntToBaseString(v, base);
      match base
      case Decimal =>
        if v < 0 then
          |r| > 1 && r[0] == '-' && ValueOf(r[1..], 10) == -v && r[1] != '0'
        else
          ValueOf(r, 10) == v && (v > 0 ==> r[0] != '0')
      case Octal => |r| > 1 && r[0] == '0' && ValueOf(r[1..], 8) == Unsigned(v)
      case Hexadecimal => |r| > 2 && r[..2] == "0x" && ValueOf(r[2..], 16) == Unsigned(v)
  {
    var r := IntToBaseString(v, base);
    match base
    case Decimal =>
      if v < 0 {
        DigitsRoundTrip(-v, 10);
        assert r[1..] == Digits(-v, 10);
      } else {
        DigitsRoundTrip(v, 10);
      }
    case Octal =>
      DigitsRoundTrip(Unsigned(v), 8);
      assert r[1..] == Digits(Unsigned(v), 8);
    case Hexadecimal =>
      DigitsRoundTrip(Unsigned(v), 16);
      assert r[2..] == Digits(Unsigned(v), 16);
  }

  /** 123 prints as `123`, `0x7b` and `0173`. */
  lemma IntToBaseStringExamples()
    ensures IntToBaseString(123, Decimal) == "123"
    ensures IntToBaseString(123, Hexadecimal) == "0x7b"
    ensures IntToBaseString(123, Octal) == "0173"
  {
    assert Digits(123, 10) == Digits(12, 10) + ['3'];
    assert Digits(12, 10) == Digits(1, 10) + ['2'];
    assert Digits(123, 16) == Digits(7, 16) + ['b'];
    assert Digits(123, 8) == Digits(15, 8) + ['3'];
    assert Digits(15, 8) == Digits(1, 8) + ['7'];
  }

  /** A string literal in quotes, after `@` for a verbatim string and `$` for an asset. */
  function StringText(s: StringToken): (r: string)
    ensures |r| >= 2 && r[|r| - 1] == '"'
    ensures r[0] == '"' <==> s.Literal?
  {
    match s
    case Literal(text) => "\"" + text + "\""
    case Verbatim(text) => "@\"" + text + "\""
    case Asset(text) => "$\"" + text + "\""
  }

  /** Reading a printed string literal back: its kind from the prefix, its text from inside the quotes. */
  function ParseStringText(r: string): Option<StringToken> {
    if |r| >= 2 && r[0] == '"' && r[|r| - 1] == '"' then Some(StringToken.Literal(r[1..|r| - 1]))
    else if |r| >= 3 && r[0] == '@' && r[1] == '"' && r[|r| - 1] == '"' then Some(StringToken.Verbatim(r[2..|r| - 1]))
    else if |r| >= 3 && r[0] == '$' && r[1] == '"' && r[|r| - 1] == '"' then Some(StringToken.Asset(r[2..|r| - 1]))
    else None
  }

  /** A printed string literal reads back as the same kind of string with the same text. */
  lemma StringTextRoundTrip(s: StringToken)
    ensures ParseStringText(StringText(s)) == Some(s)
  {
    var r := StringText(s);
    match s
    case Literal(text) => assert r[1..|r| - 1] == text;
    case Verbatim(text) => assert r[2..|r| - 1] == text;
    case Asset(text) => assert r[2..|r| - 1] == text;
  }

  /**
   * What `token_type` writes: nothing for the empty token; a terminal's text, an identifier's
   * name, or a literal as printed. `floatText` stands for the printing of a float literal.
   */
  function TokenText(ty: TokenType, floatText: string): (r: Option<string>)
    ensures r.None? <==> ty.Empty?
    ensures ty.Terminal? ==> r == Some(AsStr(ty.terminal))
    ensures ty.Identifier? ==> r == Some(ty.name)
    ensures ty.Literal? && ty.literal.String? ==> r.Some? && ParseStringText(r.value) == Some(ty.literal.str)
  {
    match ty
    case Empty => None
    case Terminal(t) => Some(AsStr(t))
    case Identifier(name) => Some(name)
    case Literal(l) =>
      match l
      case Int(v, base) => Some(if IsI64(v) then IntToBaseString(v, base) else "")
      case Char(text) => Some("'" + text + "'")
      case Float => Some(floatText)
      case String(s) => StringTextRoundTrip(s); Some(StringText(s))
  }

  /** `token_type`: the empty token writes nothing and cannot fail; any other is one `write`. */
  method WriteTokenType(w: Writer, ty: TokenType, floatText: string) returns (ok: bool)
    modifies w
    ensures TokenText(ty, floatText).None? ==>
      ok && w.currentLine == old(w.currentLine) && w.remainingColumns == old(w.remainingColumns)
    ensures TokenText(ty, floatText).Some? ==>
      var text := TokenText(ty, floatText).value;
      w.currentLine == old(w.currentLine) + text
      && w.remainingColumns == old(w.remainingColumns) - |text|
      && (ok <==> !(w.config.isSingleLine && w.remainingColumns < 0))
    ensures w.lines == old(w.lines) && w.config == old(w.config)
    ensures old(w.Valid()) ==> w.Valid()
  {
    var text := TokenText(ty, floatText);
    if text.None? {
      return true;
    }
    ok := w.Put(text.value);
  }

  /** The tests' terminals: `throw` and `<=>`. */
  lemma TerminalTexts()
    ensures TokenText(Terminal(Throw), "") == Some("throw")
    ensures TokenText(Terminal(ThreeWay), "") == Some("<=>")
  {
  }

  /** A line printed before a token: one line break for a run of empty lines, or the comments of a line. */
  datatype BeforeLine = Blank | Commented(comments: seq<Comment>)

  /** How many empty lines come first: `skip_while(|line| line.comments.is_empty())`. */
  function LeadingEmpty(lines: seq<TokenLine>): (n: nat)
    ensures n <= |lines|
    ensures forall i :: 0 <= i < n ==> |lines[i].comments| == 0
    ensures n < |lines| ==> |lines[n].comments| > 0
  {
    if |lines| == 0 || |lines[0].comments| > 0 then 0 else 1 + LeadingEmpty(lines[1..])
  }

  /** The lines printed for `lines`, once an empty line has or has not just been printed. */
  function Collapse(lines: seq<TokenLine>, wasLastEmpty: bool): seq<BeforeLine> {
    if |lines| == 0 then []
    else if |lines[0].comments| == 0 then
      if wasLastEmpty then Collapse(lines[1..], true) else [Blank] + Collapse(lines[1..], true)
    else [Commented(lines[0].comments)] + Collapse(lines[1..], false)
  }

  /** `token_before_lines`: what is printed for the lines before a token. */
  function BeforeLines(lines: seq<TokenLine>): seq<BeforeLine> {
    Collapse(lines[LeadingEmpty(lines)..], false)
  }

  /** Skipping one more empty line at the start. */
  lemma LeadingEmptyStep(lines: seq<TokenLine>, start: nat)
    requires start < |lines| && |lines[start].comments| == 0
    ensures LeadingEmpty(lines[start..]) == 1 + LeadingEmpty(lines[start + 1..])
  {
    assert lines[start..][1..] == lines[start + 1..];
  }

  /** Where the skipping stops, no empty line is left to skip. */
  lemma LeadingEmptyStop(lines: seq<TokenLine>, start: nat)
    requires start <= |lines| && (start == |lines| || |lines[start].comments| > 0)
    ensures LeadingEmpty(lines[start..]) == 0
  {
  }

  /** What is printed for one line, given whether an empty line was printed just before it. */
  function Emit(line: TokenLine, wasLastEmpty: bool): seq<BeforeLine> {
    if |line.comments| == 0 then (if wasLastEmpty then [] else [Blank]) else [Commented(line.comments)]
  }

  /** `Collapse` from line `i` on prints line `i` first. */
  lemma CollapseStep(lines: seq<TokenLine>, i: nat, wasLastEmpty: bool)
    requires i < |lines|
    ensures Collapse(lines[i..], wasLastEmpty)
      == Emit(lines[i], wasLastEmpty) + Collapse(lines[i + 1..], |lines[i].comments| == 0)
  {
    assert lines[i..][1..] == lines[i + 1..];
  }

  /** One turn of the collapsing loop: what line `i` prints is appended to what was printed. */
  lemma CollapseAdvance(lines: seq<TokenLine>, i: nat, wasLastEmpty: bool, out: seq<BeforeLine>, all: seq<BeforeLine>)
    requires i < |lines| && out + Collapse(lines[i..], wasLastEmpty) == all
    ensures out + Emit(lines[i], wasLastEmpty) + Collapse(lines[i + 1..], |lines[i].comments| == 0) == all
  {
    CollapseStep(lines, i, wasLastEmpty);
    ConcatAssociates(out, Emit(lines[i], wasLastEmpty), Collapse(lines[i + 1..], |lines[i].comments| == 0));
  }

  lemma ConcatAssociates(a: seq<BeforeLine>, b: seq<BeforeLine>, c: seq<BeforeLine>)
    ensures a + (b + c) == a + b + c
  {
  }

  /** `token_before_lines`' loop: empty lines at the start skipped, then runs of empty lines collapsed. */
  method TokenBeforeLines(lines: seq<TokenLine>) returns (out: seq<BeforeLine>)
    ensures out == BeforeLines(lines)
  {
    var start := 0;
    while start < |lines| && |lines[start].comments| == 0
      invariant 0 <= start <= |lines|
      invariant start + LeadingEmpty(lines[start..]) == LeadingEmpty(lines)
    {
      LeadingEmptyStep(lines, start);
      start := start + 1;
    }
    LeadingEmptyStop(lines, start);
    out := CollapseFrom(lines, start);
  }

  /** `token_before_lines`' second loop: from line `start` on, runs of empty lines collapsed. */
  method CollapseFrom(lines: seq<TokenLine>, start: nat) returns (out: seq<BeforeLine>)
    requires start <= |lines|
    ensures out == Collapse(lines[start..], false)
  {
    out := [];
    var wasLastEmpty := false;
    for i := start to |lines|
      invariant out + Collapse(lines[i..], wasLastEmpty) == Collapse(lines[start..], false)
    {
      CollapseAdvance(lines, i, wasLastEmpty, out, Collapse(lines[start..], false));
      if wasLastEmpty && |lines[i].comments| == 0 {
        continue;
      }
      wasLastEmpty := |lines[i].comments| == 0;
      if wasLastEmpty {
        out := out + [Blank];
      } else {
        out := out + [Commented(lines[i].comments)];
      }
    }
    assert lines[|lines|..] == [];
  }

  /** Two empty lines are never printed in a row, and none follows a printed empty line. */
  lemma {:induction false} CollapseNoDoubleBlank(lines: seq<TokenLine>, wasLastEmpty: bool)
    ensures var out := Collapse(lines, wasLastEmpty);
      && (wasLastEmpty && |out| > 0 ==> out[0].Commented?)
      && forall k :: 0 <= k < |out| - 1 ==> !(out[k].Blank? && out[k + 1].Blank?)
  {
    if |lines| > 0 {
      CollapseNoDoubleBlank(lines[1..], |lines[0].comments| == 0 || (wasLastEmpty && |lines[0].comments| == 0));
      if |lines[0].comments| == 0 {
        CollapseNoDoubleBlank(lines[1..], true);
      } else {
        CollapseNoDoubleBlank(lines[1..], false);
      }
    }
  }

  /** The comments of the lines that have any, in order. */
  function CommentLines(lines: seq<TokenLine>): seq<seq<Comment>> {
    if |lines| == 0 then []
    else if |lines[0].comments| == 0 then CommentLines(lines[1..])
    else [lines[0].comments] + CommentLines(lines[1..])
  }

  /** The comments of the printed lines, in order. */
  function PrintedComments(out: seq<BeforeLine>): seq<seq<Comment>> {
    if |out| == 0 then []
    else if out[0].Blank? then PrintedComments(out[1..])
    else [out[0].comments] + PrintedComments(out[1..])
  }

  /** Collapsing drops empty lines only: every line of comments is printed, in order. */
  lemma {:induction false} CollapseKeepsComments(lines: seq<TokenLine>, wasLastEmpty: bool)
    ensures PrintedComments(Collapse(lines, wasLastEmpty)) == CommentLines(lines)
  {
    if |lines| > 0 {
      CollapseKeepsComments(lines[1..], |lines[0].comments| == 0);
    }
  }

  /** Leading empty lines hold no comments. */
  lemma {:induction false} SkippedHoldNoComments(lines: seq<TokenLine>)
    ensures CommentLines(lines[LeadingEmpty(lines)..]) == CommentLines(lines)
  {
    if |lines| > 0 && |lines[0].comments| == 0 {
      SkippedHoldNoComments(lines[1..]);
      assert lines[LeadingEmpty(lines)..] == lines[1..][LeadingEmpty(lines[1..])..];
    }
  }

  /**
   * What is printed before a token: every line of comments in order, never an empty line
   * first, and never two empty lines in a row.
   */
  lemma BeforeLinesShape(lines: seq<TokenLine>)
    ensures var out := BeforeLines(lines);
      && PrintedComments(out) == CommentLines(lines)
      && (|out| > 0 ==> out[0].Commented?)
      && forall k :: 0 <= k < |out| - 1 ==> !(out[k].Blank? && out[k + 1].Blank?)
  {
    var rest := lines[LeadingEmpty(lines)..];
    CollapseKeepsComments(rest, false);
    SkippedHoldNoComments(lines);
    CollapseNoDoubleBlank(rest, false);
  }

  /**
   * Two empty lines, a comment, three empty lines, then two lines of comments: the leading
   * empty lines go, the run of three prints as one, and the comments stay in order.
   */
  lemma BeforeLinesExample(nice: seq<Comment>, two: seq<Comment>, third: seq<Comment>)
    requires |nice| > 0 && |two| > 0 && |third| > 0
    ensures var e := TokenLine([]);
      BeforeLines([e, e, TokenLine(nice), e, e, e, TokenLine(two), TokenLine(third)])
      == [Commented(nice), Blank, Commented(two), Commented(third)]
  {
    var e := TokenLine([]);
    var lines := [e, e, TokenLine(nice), e, e, e, TokenLine(two), TokenLine(third)];
    assert LeadingEmpty(lines[2..]) == 0;
    assert LeadingEmpty(lines[1..]) == 1;
    assert LeadingEmpty(lines) == 2;
    var rest := lines[2..];
    assert Collapse(rest[6..], false) == [];
    assert Collapse(rest[5..], false) == [Commented(third)];
    assert Collapse(rest[4..], true) == [Commented(two), Commented(third)];
    assert Collapse(rest[3..], true) == Collapse(rest[4..], true);
    assert Collapse(rest[2..], true) == Collapse(rest[3..], true);
    assert Collapse(rest[1..], false) == [Blank] + Collapse(rest[2..], true);
  }
}

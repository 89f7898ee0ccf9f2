/**
 * The token iterator: a state machine over the input that attaches comments and line
 * breaks to tokens. A token is held back until the next token, a line break or the end of
 * input shows that nothing more can attach to it.
 */
module TokenIters {
  import opened Wrappers
  import opened Strings
  import opened ParseStrs
  import opened Tokens
  import opened LexerErrors
  import opened Literals
  import opened CommentLexer
  import opened IdentifierLexer
  import opened SymbolLexer

  /** `try_token_ty`: a literal, else a symbol, else an identifier or reserved word. */
  function TryTokenTy(val: ParseStr, flavor: Flavor, parseInt: IntParser, parseFloat: FloatParser)
    : (r: Result<Option<(TokenType, ParseStr)>, LexerError>)
    requires IntParserWellBehaved(parseInt) && FloatParserWellBehaved(parseFloat)
    ensures r.Ok? && r.value.Some? ==> Consumed(val, r.value.value.1) && !r.value.value.0.Empty?
    ensures r.Ok? && r.value.Some? && r.value.value.0.Terminal? ==>
      IsSupported(r.value.value.0.terminal, flavor)
    ensures r.Err? ==> r.error.ty == EndOfInputInsideString || r.error.ty == EndOfLineInsideString
  {
    match TryLiteral(val, parseInt, parseFloat)
    case Err(e) =>
      LiteralErrors(val, parseInt, parseFloat);
      Err(e)
    case Ok(Some((literal, rest))) => Ok(Some((TokenType.Literal(literal), rest)))
    case Ok(None) =>
      match TrySymbol(val, flavor)
      case Some((symbol, rest)) => Ok(Some((Terminal(symbol), rest)))
      case None =>
        match TryIdentifier(val, flavor)
        case Some((ty, rest)) => Ok(Some((ty, rest)))
        case None => Ok(None)
  }

  /** The only errors a literal can raise are the two unterminated-string ones. */
  lemma LiteralErrors(val: ParseStr, parseInt: IntParser, parseFloat: FloatParser)
    requires IntParserWellBehaved(parseInt) && FloatParserWellBehaved(parseFloat)
    requires TryLiteral(val, parseInt, parseFloat).Err?
    ensures var e := TryLiteral(val, parseInt, parseFloat).error;
      e.ty == EndOfInputInsideString || e.ty == EndOfLineInsideString
  {
    if StringVal(val, '\'', false).Err? {
      StringValErrors(val, '\'', false);
    } else if StripPrefix(val, "@").Some? {
      StringValErrors(StripPrefix(val, "@").value, '"', true);
    } else if StripPrefix(val, "$").Some? {
      StringValErrors(StripPrefix(val, "$").value, '"', false);
    } else {
      StringValErrors(val, '"', false);
    }
  }

  /** The iterator's fields as a value. */
  datatype IterState = IterState(
    val: ParseStr,
    currentToken: Option<Token>,
    beforeLines: seq<TokenLine>,
    currentLineComments: seq<Comment>)

  /** The state of a fresh iterator over `text`. */
  function Start(text: string): (s: IterState)
    ensures s.val == New(text) && s.currentToken.None? && s.beforeLines == [] && s.currentLineComments == []
  {
    IterState(New(text), None, [], [])
  }

  /** Nothing is held back: no pending token, no pending lines, no pending comments. */
  predicate Drained(s: IterState) {
    s.currentToken.None? && s.beforeLines == [] && s.currentLineComments == []
  }

  /** A held-back token has no line break yet: the line break is what releases it. */
  predicate PendingWithoutNewLine(s: IterState) {
    s.currentToken.Some? ==> s.currentToken.value.newLine.None?
  }

  type Output = Option<Result<Token, LexerError>>

  /**
   * What the iterator keeps true between calls: a held-back token is a real token that
   * covers a non-empty range ending at or before the cursor, and has no line break yet;
   * while a token is held back no whole line is pending, since the token took them.
   */
  predicate Coherent(s: IterState) {
    PendingWithoutNewLine(s)
    && (s.currentToken.Some? ==> s.beforeLines == [])
    && (s.currentToken.Some? ==>
          && !s.currentToken.value.ty.Empty?
          && s.currentToken.value.range.start < s.currentToken.value.range.end <= StartOffset(s.val))
  }

  /**
   * A bound that every call returning a token lowers: the remaining input counts most,
   * then a held-back token, then pending comments or lines.
   */
  function Measure(s: IterState): nat {
    4 * |s.val.val| + (if s.currentToken.Some? then 2 else 0)
      + (if s.beforeLines != [] || s.currentLineComments != [] then 1 else 0)
  }

  /** What a returned token looks like: Empty ones sit at the end of input, the others cover some text. */
  predicate WellShaped(t: Token, endOffset: nat) {
    && (t.ty.Empty? ==> t.range.start == t.range.end == endOffset && t.newLine.None?)
    && (!t.ty.Empty? ==> t.range.start < t.range.end)
  }

  /** The end of input: release the held-back token, else one Empty token carrying the pending comments and lines. */
  function AtEnd(s: IterState): (r: (IterState, Output))
    ensures r.0.val == s.val
    ensures Coherent(s) ==> Coherent(r.0)
    ensures r.1.None? ==> Drained(r.0)
    ensures r.1.Some? ==> r.1.value.Ok? && Measure(r.0) < Measure(s)
    ensures r.1.Some? && Coherent(s) ==> WellShaped(r.1.value.value, EndOffset(s.val))
    ensures s.currentToken.Some? ==> r == (s.(currentToken := None), Some(Ok(s.currentToken.value)))
    ensures s.currentToken.None? && (s.beforeLines != [] || s.currentLineComments != []) ==>
      && r.0 == s.(beforeLines := [], currentLineComments := [])
      && r.1 == Some(Ok(Token(Empty, Range(EndOffset(s.val), EndOffset(s.val)), s.beforeLines, s.currentLineComments, None)))
    ensures r.1.None? <==> Drained(s)
    ensures r.1.None? ==> r.0 == s
  {
    if s.currentToken.Some? then (s.(currentToken := None), Some(Ok(s.currentToken.value)))
    else if s.currentLineComments != [] || s.beforeLines != [] then
      var token := Token(Empty, Range(EndOffset(s.val), EndOffset(s.val)), s.beforeLines, s.currentLineComments, None);
      (s.(beforeLines := [], currentLineComments := []), Some(Ok(token)))
    else (s, None)
  }

  /** One round of the scanning loop either goes on with a new state or returns. */
  datatype Round = GoOn(next: IterState) | Stop(next: IterState, out: Output)

  /**
   * One round of the loop of `next`, at a cursor past the blanks: a line break, a comment,
   * a token, or an error. Every round that goes on consumes input.
   */
  function NextRound(s: IterState, flavor: Flavor, parseInt: IntParser, parseFloat: FloatParser)
    : (r: Round)
    requires IntParserWellBehaved(parseInt) && FloatParserWellBehaved(parseFloat)
    requires !IsEnded(s.val)
    ensures EndOffset(r.next.val) == EndOffset(s.val) && StartOffset(s.val) <= StartOffset(r.next.val)
    ensures Coherent(s) ==> Coherent(r.next)
    ensures r.GoOn? ==> |r.next.val.val| < |s.val.val| && Measure(r.next) < Measure(s)
    ensures r.Stop? ==> r.out.Some?
    ensures r.Stop? && r.out.value.Ok? ==> Measure(r.next) < Measure(s)
    ensures r.Stop? && r.out.value.Ok? && Coherent(s) ==> WellShaped(r.out.value.value, EndOffset(s.val))
    // A line break releases the held-back token with the line's comments as its line
    // break; with no token held back the line joins the pending lines.
    ensures StripPrefix(s.val, "\n").Some? ==>
      var line := TokenLine(s.currentLineComments);
      var remaining := StripPrefix(s.val, "\n").value;
      && (r.Stop? <==> s.currentToken.Some?)
      && (r.Stop? ==> r.next == IterState(remaining, None, s.beforeLines, [])
                      && r.out == Some(Ok(s.currentToken.value.(newLine := Some(line)))))
      && (r.GoOn? ==> r.next == IterState(remaining, None, s.beforeLines + [line], []))
    // A comment joins the comments of the current line.
    ensures StripPrefix(s.val, "\n").None? && TryComment(s.val).value.Some? ==>
      var (comment, remaining) := TryComment(s.val).value.value;
      r == GoOn(s.(val := remaining, currentLineComments := s.currentLineComments + [comment]))
    // A new token takes every pending line and comment and covers the text it read; it is
    // held back, and the token it replaces, if any, is the one returned.
    ensures StripPrefix(s.val, "\n").None? && TryComment(s.val).value.None? ==>
      match TryTokenTy(s.val, flavor, parseInt, parseFloat)
      case Err(e) => r == Stop(s, Some(Err(e)))
      case Ok(None) =>
        r == Stop(s, Some(Err(LexerError(InvalidInput, Range(StartOffset(s.val), StartOffset(s.val))))))
      case Ok(Some((ty, remaining))) =>
        var token := Token(ty, Range(StartOffset(s.val), StartOffset(remaining)), s.beforeLines, s.currentLineComments, None);
        && r.next == IterState(remaining, Some(token), [], [])
        && (r.Stop? <==> s.currentToken.Some?)
        && (r.Stop? ==> r.out == Some(Ok(s.currentToken.value)))
  {
    match StripPrefix(s.val, "\n")
    case Some(remaining) =>
      var line := TokenLine(s.currentLineComments);
      if s.currentToken.Some? then
        Stop(IterState(remaining, None, s.beforeLines, []), Some(Ok(s.currentToken.value.(newLine := Some(line)))))
      else
        GoOn(IterState(remaining, None, s.beforeLines + [line], []))
    case None =>
      match TryComment(s.val).value
      case Some((comment, remaining)) =>
        GoOn(s.(val := remaining, currentLineComments := s.currentLineComments + [comment]))
      case None =>
        match TryTokenTy(s.val, flavor, parseInt, parseFloat)
        case Err(e) => Stop(s, Some(Err(e)))
        case Ok(None) =>
          Stop(s, Some(Err(LexerError(InvalidInput, Range(StartOffset(s.val), StartOffset(s.val))))))
        case Ok(Some((ty, remaining))) =>
          var token := Token(ty, Range(StartOffset(s.val), StartOffset(remaining)),
            s.beforeLines, s.currentLineComments, None);
          var next := IterState(remaining, Some(token), [], []);
          if s.currentToken.Some? then Stop(next, Some(Ok(s.currentToken.value)))
          else GoOn(next)
  }

  /**
   * `next` as a function of the state: the new state and what the call returns. Its
   * properties are the lemmas below.
   */
  function NextSpec(s: IterState, flavor: Flavor, parseInt: IntParser, parseFloat: FloatParser)
    : (r: (IterState, Output))
    requires IntParserWellBehaved(parseInt) && FloatParserWellBehaved(parseFloat)
    decreases |s.val.val|
  {
    if IsEnded(s.val) then AtEnd(s)
    else
      var trimmed := s.(val := TrimStart(s.val));
      if IsEnded(trimmed.val) then AtEnd(trimmed)
      else
        match NextRound(trimmed, flavor, parseInt, parseFloat)
        case GoOn(next) => NextSpec(next, flavor, parseInt, parseFloat)
        case Stop(next, out) => (next, out)
  }

  /** A call keeps the end of input and only moves the cursor right. */
  lemma {:induction false} NextSpecMovesRight(s: IterState, flavor: Flavor, parseInt: IntParser, parseFloat: FloatParser)
    requires IntParserWellBehaved(parseInt) && FloatParserWellBehaved(parseFloat)
    ensures var (s', out) := NextSpec(s, flavor, parseInt, parseFloat);
      EndOffset(s'.val) == EndOffset(s.val) && StartOffset(s.val) <= StartOffset(s'.val)
    decreases |s.val.val|
  {
    if !IsEnded(s.val) {
      var trimmed := s.(val := TrimStart(s.val));
      if !IsEnded(trimmed.val) {
        var round := NextRound(trimmed, flavor, parseInt, parseFloat);
        if round.GoOn? {
          NextSpecMovesRight(round.next, flavor, parseInt, parseFloat);
        }
      }
    }
  }

  /** A call that returns nothing leaves the input ended and nothing held back. */
  lemma {:induction false} NextSpecEndsDrained(s: IterState, flavor: Flavor, parseInt: IntParser, parseFloat: FloatParser)
    requires IntParserWellBehaved(parseInt) && FloatParserWellBehaved(parseFloat)
    ensures var (s', out) := NextSpec(s, flavor, parseInt, parseFloat);
      out.None? ==> IsEnded(s'.val) && Drained(s')
    decreases |s.val.val|
  {
    if !IsEnded(s.val) {
      var trimmed := s.(val := TrimStart(s.val));
      if !IsEnded(trimmed.val) {
        var round := NextRound(trimmed, flavor, parseInt, parseFloat);
        if round.GoOn? {
          NextSpecEndsDrained(round.next, flavor, parseInt, parseFloat);
        }
      }
    }
  }

  /** A call that returns a token lowers Measure, so a stream of calls ends. */
  lemma {:induction false} NextSpecLowersMeasure(s: IterState, flavor: Flavor, parseInt: IntParser, parseFloat: FloatParser)
    requires IntParserWellBehaved(parseInt) && FloatParserWellBehaved(parseFloat)
    ensures var (s', out) := NextSpec(s, flavor, parseInt, parseFloat);
      out.Some? && out.value.Ok? ==> Measure(s') < Measure(s)
    decreases |s.val.val|
  {
    if !IsEnded(s.val) {
      var trimmed := s.(val := TrimStart(s.val));
      assert Measure(trimmed) <= Measure(s);
      if !IsEnded(trimmed.val) {
        var round := NextRound(trimmed, flavor, parseInt, parseFloat);
        assert NextSpec(s, flavor, parseInt, parseFloat) ==
          if round.GoOn? then NextSpec(round.next, flavor, parseInt, parseFloat) else (round.next, round.out);
        if round.GoOn? {
          NextSpecLowersMeasure(round.next, flavor, parseInt, parseFloat);
        }
      }
    }
  }

  /**
   * The iterator stays coherent across a call, and every token it returns is well shaped:
   * an Empty token sits at the end of input, any other covers some text.
   */
  lemma {:induction false} NextSpecCoherent(s: IterState, flavor: Flavor, parseInt: IntParser, parseFloat: FloatParser)
    requires IntParserWellBehaved(parseInt) && FloatParserWellBehaved(parseFloat)
    requires Coherent(s)
    ensures var (s', out) := NextSpec(s, flavor, parseInt, parseFloat);
      && Coherent(s')
      && (out.Some? && out.value.Ok? ==> WellShaped(out.value.value, EndOffset(s.val)))
    decreases |s.val.val|
  {
    if !IsEnded(s.val) {
      var trimmed := s.(val := TrimStart(s.val));
      if !IsEnded(trimmed.val) {
        var round := NextRound(trimmed, flavor, parseInt, parseFloat);
        if round.GoOn? {
          NextSpecCoherent(round.next, flavor, parseInt, parseFloat);
        }
      }
    }
  }

  /** The comments of a sequence of lines, line by line. */
  function LinesComments(lines: seq<TokenLine>): seq<Comment> {
    if lines == [] then [] else LinesComments(lines[..|lines| - 1]) + lines[|lines| - 1].comments
  }

  /** Every comment a token carries, in text order: whole lines before it, its own line, its line break. */
  function TokenComments(t: Token): seq<Comment> {
    LinesComments(t.beforeLines) + t.comments + (if t.newLine.Some? then t.newLine.value.comments else [])
  }

  /** Every comment the iterator holds back, in text order. */
  function Held(s: IterState): seq<Comment> {
    (if s.currentToken.Some? then TokenComments(s.currentToken.value) else [])
      + LinesComments(s.beforeLines) + s.currentLineComments
  }

  /** The comments a call hands out: those of the token it returns, if any. */
  function Returned(out: Output): seq<Comment> {
    if out.Some? && out.value.Ok? then TokenComments(out.value.value) else []
  }

  /** The comment a round reads from the text, if it reads one. */
  function RoundComments(s: IterState): seq<Comment> {
    if StripPrefix(s.val, "\n").None? && TryComment(s.val).value.Some? then [TryComment(s.val).value.value.0]
    else []
  }

  /** The comments a call of `next` reads from the text, in order. */
  function Scanned(s: IterState, flavor: Flavor, parseInt: IntParser, parseFloat: FloatParser): seq<Comment>
    requires IntParserWellBehaved(parseInt) && FloatParserWellBehaved(parseFloat)
    decreases |s.val.val|
  {
    if IsEnded(s.val) then []
    else
      var trimmed := s.(val := TrimStart(s.val));
      if IsEnded(trimmed.val) then []
      else
        match NextRound(trimmed, flavor, parseInt, parseFloat)
        case GoOn(next) => RoundComments(trimmed) + Scanned(next, flavor, parseInt, parseFloat)
        case Stop(_, _) => []
  }

  /**
   * One round loses no comment: what it held back before, followed by what it read, is
   * what it returns followed by what it holds back after.
   */
  lemma RoundKeepsComments(s: IterState, flavor: Flavor, parseInt: IntParser, parseFloat: FloatParser)
    requires IntParserWellBehaved(parseInt) && FloatParserWellBehaved(parseFloat)
    requires !IsEnded(s.val) && Coherent(s)
    ensures var r := NextRound(s, flavor, parseInt, parseFloat);
      Returned(if r.Stop? then r.out else None) + Held(r.next) == Held(s) + RoundComments(s)
  {
    if StripPrefix(s.val, "\n").Some? {
      NewLineRoundKeeps(s, flavor, parseInt, parseFloat);
    } else if TryComment(s.val).value.Some? {
      CommentRoundKeeps(s, flavor, parseInt, parseFloat);
    } else {
      TokenRoundKeeps(s, flavor, parseInt, parseFloat);
    }
  }

  lemma NewLineRoundKeeps(s: IterState, flavor: Flavor, parseInt: IntParser, parseFloat: FloatParser)
    requires IntParserWellBehaved(parseInt) && FloatParserWellBehaved(parseFloat)
    requires !IsEnded(s.val) && Coherent(s) && StripPrefix(s.val, "\n").Some?
    ensures var r := NextRound(s, flavor, parseInt, parseFloat);
      Returned(if r.Stop? then r.out else None) + Held(r.next) == Held(s) + RoundComments(s)
  {
    assert RoundComments(s) == [];
    NewLineHeld(s, StripPrefix(s.val, "\n").value);
  }

  /** The comments held across a line break, by the values `NextRound` gives. */
  lemma NewLineHeld(s: IterState, remaining: ParseStr)
    requires Coherent(s)
    ensures var line := TokenLine(s.currentLineComments);
      if s.currentToken.Some? then
        TokenComments(s.currentToken.value.(newLine := Some(line))) + Held(IterState(remaining, None, s.beforeLines, []))
          == Held(s) + []
      else [] + Held(IterState(remaining, None, s.beforeLines + [line], [])) == Held(s) + []
  {
    if s.currentToken.Some? {
      NewLineKeepsComments(s.currentToken.value, s.currentLineComments);
    } else {
      LinesCommentsAppend(s.beforeLines, TokenLine(s.currentLineComments));
    }
  }

  lemma CommentRoundKeeps(s: IterState, flavor: Flavor, parseInt: IntParser, parseFloat: FloatParser)
    requires IntParserWellBehaved(parseInt) && FloatParserWellBehaved(parseFloat)
    requires !IsEnded(s.val) && Coherent(s)
    requires StripPrefix(s.val, "\n").None? && TryComment(s.val).value.Some?
    ensures var r := NextRound(s, flavor, parseInt, parseFloat);
      Returned(if r.Stop? then r.out else None) + Held(r.next) == Held(s) + RoundComments(s)
  {
    var (comment, remaining) := TryComment(s.val).value.value;
    assert RoundComments(s) == [comment];
    CommentHeld(s, comment, remaining);
  }

  /** The comments held after reading one more comment. */
  lemma CommentHeld(s: IterState, comment: Comment, remaining: ParseStr)
    ensures [] + Held(s.(val := remaining, currentLineComments := s.currentLineComments + [comment]))
      == Held(s) + [comment]
  {
  }

  lemma TokenRoundKeeps(s: IterState, flavor: Flavor, parseInt: IntParser, parseFloat: FloatParser)
    requires IntParserWellBehaved(parseInt) && FloatParserWellBehaved(parseFloat)
    requires !IsEnded(s.val) && Coherent(s)
    requires StripPrefix(s.val, "\n").None? && TryComment(s.val).value.None?
    ensures var r := NextRound(s, flavor, parseInt, parseFloat);
      Returned(if r.Stop? then r.out else None) + Held(r.next) == Held(s) + RoundComments(s)
  {
    assert RoundComments(s) == [];
    var ty := TryTokenTy(s.val, flavor, parseInt, parseFloat);
    if ty.Ok? && ty.value.Some? {
      var (t, remaining) := ty.value.value;
      TokenHeld(s, Token(t, Range(StartOffset(s.val), StartOffset(remaining)), s.beforeLines, s.currentLineComments, None), remaining);
    } else {
      assert Held(s) + [] == Held(s);
    }
  }

  /** The comments held after a new token takes the pending lines and comments. */
  lemma TokenHeld(s: IterState, token: Token, remaining: ParseStr)
    requires Coherent(s)
    requires token.beforeLines == s.beforeLines && token.comments == s.currentLineComments && token.newLine.None?
    ensures Returned(if s.currentToken.Some? then Some(Ok(s.currentToken.value)) else None)
      + Held(IterState(remaining, Some(token), [], [])) == Held(s) + []
  {
  }

  /** A line break closing a held-back token moves the line's comments into the token. */
  lemma NewLineKeepsComments(t: Token, line: seq<Comment>)
    requires t.newLine.None?
    ensures TokenComments(t.(newLine := Some(TokenLine(line)))) == TokenComments(t) + line
  {
  }

  lemma LinesCommentsAppend(lines: seq<TokenLine>, line: TokenLine)
    ensures LinesComments(lines + [line]) == LinesComments(lines) + line.comments
  {
    assert (lines + [line])[..|lines|] == lines;
  }

  /**
   * `next` loses no comment and hands none out twice: the comments held back before the
   * call, followed by those it read, are exactly those of the token it returns followed by
   * those it still holds back.
   */
  lemma {:induction false} NextSpecKeepsComments(s: IterState, flavor: Flavor, parseInt: IntParser, parseFloat: FloatParser)
    requires IntParserWellBehaved(parseInt) && FloatParserWellBehaved(parseFloat)
    requires Coherent(s)
    ensures var (s', out) := NextSpec(s, flavor, parseInt, parseFloat);
      Returned(out) + Held(s') == Held(s) + Scanned(s, flavor, parseInt, parseFloat)
    decreases |s.val.val|, 1
  {
    if IsEnded(s.val) {
      AtEndKeepsComments(s);
    } else {
      var trimmed := s.(val := TrimStart(s.val));
      assert Held(trimmed) == Held(s);
      if IsEnded(trimmed.val) {
        AtEndKeepsComments(trimmed);
      } else {
        RoundThenRestKeepComments(trimmed, flavor, parseInt, parseFloat);
      }
    }
  }

  /** The step of `NextSpecKeepsComments`: one round, then the rest of the call. */
  lemma {:induction false} RoundThenRestKeepComments(s: IterState, flavor: Flavor, parseInt: IntParser, parseFloat: FloatParser)
    requires IntParserWellBehaved(parseInt) && FloatParserWellBehaved(parseFloat)
    requires !IsEnded(s.val) && Coherent(s)
    ensures var r := NextRound(s, flavor, parseInt, parseFloat);
      var (s', out) := if r.GoOn? then NextSpec(r.next, flavor, parseInt, parseFloat) else (r.next, r.out);
      Returned(out) + Held(s')
        == Held(s) + (if r.GoOn? then RoundComments(s) + Scanned(r.next, flavor, parseInt, parseFloat) else [])
    decreases |s.val.val|, 0
  {
    var round := NextRound(s, flavor, parseInt, parseFloat);
    RoundKeepsComments(s, flavor, parseInt, parseFloat);
    if round.GoOn? {
      NextSpecKeepsComments(round.next, flavor, parseInt, parseFloat);
      var rest := Scanned(round.next, flavor, parseInt, parseFloat);
      var (s', out) := NextSpec(round.next, flavor, parseInt, parseFloat);
      assert Returned(None) == [];
      ChainComments(Returned(out), Held(s'), Held(round.next), rest, Held(s), RoundComments(s));
    } else {
      StopReadsNoComment(s, flavor, parseInt, parseFloat);
    }
  }

  /** Chaining a round with the rest of the call. */
  lemma ChainComments(out: seq<Comment>, after: seq<Comment>, middle: seq<Comment>, rest: seq<Comment>,
                      before: seq<Comment>, read: seq<Comment>)
    requires out + after == middle + rest
    requires [] + middle == before + read
    ensures out + after == before + (read + rest)
  {
    assert middle == [] + middle;
    assert (before + read) + rest == before + (read + rest);
  }

  /** A round that stops reads no comment: comments never stop the loop. */
  lemma StopReadsNoComment(s: IterState, flavor: Flavor, parseInt: IntParser, parseFloat: FloatParser)
    requires IntParserWellBehaved(parseInt) && FloatParserWellBehaved(parseFloat)
    requires !IsEnded(s.val)
    requires NextRound(s, flavor, parseInt, parseFloat).Stop?
    ensures RoundComments(s) == []
  {
  }

  /** At the end of input nothing is read, and the pending comments leave in the token returned or stay. */
  lemma AtEndKeepsComments(s: IterState)
    ensures var (s', out) := AtEnd(s);
      Returned(out) + Held(s') == Held(s) + []
  {
    if s.currentToken.None? && (s.beforeLines != [] || s.currentLineComments != []) {
      var (s', out) := AtEnd(s);
      assert Held(s') == [];
    }
  }

  lemma ConcatAssociates(a: seq<Comment>, b: seq<Comment>, c: seq<Comment>)
    ensures a + b + c == a + (b + c)
  {
  }

  /** A line break with a held-back token releases it, carrying the comments seen since the token. */
  lemma NewLineReleasesToken(s: IterState, flavor: Flavor, parseInt: IntParser, parseFloat: FloatParser)
    requires IntParserWellBehaved(parseInt) && FloatParserWellBehaved(parseFloat)
    requires s.currentToken.Some?
    requires StartsWith(s.val.val, "\n")
    ensures NextSpec(s, flavor, parseInt, parseFloat).1
      == Some(Ok(s.currentToken.value.(newLine := Some(TokenLine(s.currentLineComments)))))
    ensures NextSpec(s, flavor, parseInt, parseFloat).0.currentLineComments == []
  {
    assert s.val.val[0] == '\n';
    assert TrimStart(s.val) == s.val;
    assert s.(val := TrimStart(s.val)) == s;
    NewLineRound(s, flavor, parseInt, parseFloat);
    var round := NextRound(s, flavor, parseInt, parseFloat);
    assert NextSpec(s, flavor, parseInt, parseFloat) == (round.next, round.out);
  }

  lemma NewLineRound(s: IterState, flavor: Flavor, parseInt: IntParser, parseFloat: FloatParser)
    requires IntParserWellBehaved(parseInt) && FloatParserWellBehaved(parseFloat)
    requires s.currentToken.Some?
    requires StartsWith(s.val.val, "\n")
    ensures var round := NextRound(s, flavor, parseInt, parseFloat);
      round.Stop? && round.next.currentLineComments == []
      && round.out == Some(Ok(s.currentToken.value.(newLine := Some(TokenLine(s.currentLineComments)))))
  {
    assert StripPrefix(s.val, "\n").Some?;
  }

  /** Input that is only blanks other than line breaks ends the stream when nothing is pending. */
  lemma BlankInputEnds(text: string, flavor: Flavor, parseInt: IntParser, parseFloat: FloatParser)
    requires IntParserWellBehaved(parseInt) && FloatParserWellBehaved(parseFloat)
    requires forall i :: 0 <= i < |text| ==> !IsLineBreakOrVisible(text[i])
    ensures NextSpec(Start(text), flavor, parseInt, parseFloat).1.None?
  {
    var v := TrimStart(New(text));
    assert IsEnded(v);
  }

  /** `TokenIter`: the input cursor and what is held back for the next token. */
  class TokenIter {
    var val: ParseStr
    const flavor: Flavor
    const parseInt: IntParser
    const parseFloat: FloatParser
    var currentToken: Option<Token>
    var beforeLines: seq<TokenLine>
    var currentLineComments: seq<Comment>

    function State(): IterState
      reads this
    {
      IterState(val, currentToken, beforeLines, currentLineComments)
    }

    ghost predicate Valid()
      reads this
    {
      IntParserWellBehaved(parseInt) && FloatParserWellBehaved(parseFloat) && Coherent(State())
    }

    constructor (text: string, flavor: Flavor, parseInt: IntParser, parseFloat: FloatParser)
      requires IntParserWellBehaved(parseInt) && FloatParserWellBehaved(parseFloat)
      ensures Valid() && State() == Start(text)
      ensures this.flavor == flavor && this.parseInt == parseInt && this.parseFloat == parseFloat
    {
      val := New(text);
      this.flavor := flavor;
      this.parseInt := parseInt;
      this.parseFloat := parseFloat;
      currentToken := None;
      beforeLines := [];
      currentLineComments := [];
    }

    /** The end-of-input tail of `next`. */
    method FinishAtEnd() returns (r: Output)
      modifies this
      ensures (State(), r) == AtEnd(old(State()))
    {
      if currentToken.Some? {
        r := Some(Ok(currentToken.value));
        currentToken := None;
        return;
      }
      if currentLineComments != [] || beforeLines != [] {
        var token := Token(Empty, Range(EndOffset(val), EndOffset(val)), beforeLines, currentLineComments, None);
        currentLineComments := [];
        beforeLines := [];
        return Some(Ok(token));
      }
      return None;
    }

    /** One round of the loop of `next`, at a cursor past the blanks. */
    method Round() returns (stop: bool, r: Output)
      requires Valid() && !IsEnded(val)
      modifies this
      ensures Valid()
      ensures var round := NextRound(old(State()), flavor, parseInt, parseFloat);
        State() == round.next && stop == round.Stop? && (stop ==> r == round.out)
    {
      ghost var round := NextRound(State(), flavor, parseInt, parseFloat);
      var afterNewLine := StripPrefix(val, "\n");
      if afterNewLine.Some? {
        val := afterNewLine.value;
        var line := TokenLine(currentLineComments);
        currentLineComments := [];
        if currentToken.Some? {
          var token := currentToken.value.(newLine := Some(line));
          currentToken := None;
          return true, Some(Ok(token));
        }
        beforeLines := beforeLines + [line];
        return false, None;
      }
      var comment := TryComment(val).value;
      if comment.Some? {
        val := comment.value.1;
        currentLineComments := currentLineComments + [comment.value.0];
        return false, None;
      }
      var tokenTy := TryTokenTy(val, flavor, parseInt, parseFloat);
      if tokenTy.Err? {
        return true, Some(Err(tokenTy.error));
      }
      if tokenTy.value.None? {
        return true, Some(Err(LexerError(InvalidInput, Range(StartOffset(val), StartOffset(val)))));
      }
      var (ty, remaining) := tokenTy.value.value;
      var token := Token(ty, Range(StartOffset(val), StartOffset(remaining)), beforeLines, currentLineComments, None);
      currentLineComments := [];
      beforeLines := [];
      val := remaining;
      var existing := currentToken;
      currentToken := Some(token);
      if existing.Some? {
        return true, Some(Ok(existing.value));
      }
      return false, None;
    }

    /** `next`: scan line breaks and comments until a token can be released, an error occurs or the input ends. */
    method Next() returns (r: Output)
      requires Valid()
      modifies this
      ensures Valid()
      ensures (State(), r) == NextSpec(old(State()), flavor, parseInt, parseFloat)
    {
      ghost var target := NextSpec(State(), flavor, parseInt, parseFloat);
      while !IsEnded(val)
        invariant Valid()
        invariant NextSpec(State(), flavor, parseInt, parseFloat) == target
        decreases |val.val|
      {
        val := TrimStart(val);
        if IsEnded(val) {
          break;
        }
        var stop, out := Round();
        if stop {
          return out;
        }
      }
      r := FinishAtEnd();
    }
  }
}

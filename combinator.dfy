// The parser combinators: committing to a construct, trying alternatives in order, parsing
// inside a bracketed span, optional parts, and refusing a line break.
module Combinators {
  import opened Wrappers
  import opened Tokens
  import opened Lexers
  import opened TokenLists
  import opened Contexts
  import opened ParseErrors
  import opened TerminalParsers

  /** A parser that reads at least one token whenever it succeeds; loops over it terminate. */
  ghost predicate Advances<T>(p: Parser<T>) {
    forall c :: p(c).Ok? ==> Remaining(p(c).value.0) < Remaining(c)
  }

  /** `|tokens| terminal(tokens, t)`, the separator parser of the lists. */
  function TerminalParser(t: TerminalToken): (p: Parser<Token>)
    ensures Advances(p)
  {
    (x: Cursor) => MatchTerminal(x, t)
  }

  /**
   * Once `determinant` has matched, the construct is certain: any error of `remaining` becomes
   * fatal, in the context of the construct from its start to just past the error.
   */
  function Definitely<D, T>(c: Cursor, context: ContextType, determinant: Parser<D>,
                            remaining: (Cursor, D) -> ParseResult<T>): (r: ParseResult<T>)
    ensures determinant(c).Err? ==> r == Err(determinant(c).error)
    ensures determinant(c).Ok? ==>
      var (c1, d) := determinant(c).value;
      match remaining(c1, d)
      case Ok(v) => r == Ok(v)
      case Err(e) => r == Err(IntoFatal(WithContext(e, Range(c.index, e.tokenIndex + 1), context)))
    ensures (r.Err? && !r.error.isFatal) ==> determinant(c).Err?
  {
    match determinant(c)
    case Err(e) => Err(e)
    case Ok((c1, d)) => Commit(c, context, remaining(c1, d))
  }

  /** What `definitely` makes of the rest of a construct that began at `c`. */
  function Commit<T>(c: Cursor, context: ContextType, res: ParseResult<T>): (r: ParseResult<T>)
    ensures res.Ok? ==> r == res
    ensures res.Err? ==> r.Err? && r.error.isFatal && r.error.ty == res.error.ty
    ensures res.Err? ==>
      r == Err(IntoFatal(WithContext(res.error, Range(c.index, res.error.tokenIndex + 1), context)))
  {
    var startIndex := StartIndex(c);
    match res
    case Ok(v) => Ok(v)
    case Err(e) => Err(IntoFatal(WithContext(e, Range(startIndex, e.tokenIndex + 1), context)))
  }

  /** The specification of `first_of`: the first parser that does not fail softly decides. */
  function FirstOfSpec<T>(c: Cursor, parsers: seq<Parser<T>>, default: Parser<T>): ParseResult<T>
    decreases |parsers|
  {
    if |parsers| == 0 then default(c)
    else
      match parsers[0](c)
      case Ok(v) => Ok(v)
      case Err(e) => if e.isFatal then Err(e) else FirstOfSpec(c, parsers[1..], default)
  }

  /** Whether a result lets `first_of` go on to the next parser. */
  predicate SoftFailure<T>(r: ParseResult<T>) {
    r.Err? && !r.error.isFatal
  }

  /** The position of the first parser that does not fail softly, or |parsers| if none. */
  function FirstDecisive<T>(c: Cursor, parsers: seq<Parser<T>>): (i: nat)
    ensures i <= |parsers|
    decreases |parsers|
  {
    if |parsers| == 0 || !SoftFailure(parsers[0](c)) then 0
    else 1 + FirstDecisive(c, parsers[1..])
  }

  /**
   * `first_of` returns the result of the first parser that succeeds or fails fatally, after
   * every parser before it failed softly; when all fail softly, the default decides.
   */
  lemma {:induction false} FirstOfPicksFirstDecisive<T>(c: Cursor, parsers: seq<Parser<T>>, default: Parser<T>)
    ensures var i := FirstDecisive(c, parsers);
      && (forall j :: 0 <= j < i ==> SoftFailure(parsers[j](c)))
      && FirstOfSpec(c, parsers, default) == (if i < |parsers| then parsers[i](c) else default(c))
    decreases |parsers|
  {
    if |parsers| > 0 && SoftFailure(parsers[0](c)) {
      FirstOfPicksFirstDecisive(c, parsers[1..], default);
      var i := FirstDecisive(c, parsers);
      forall j | 0 <= j < i
        ensures SoftFailure(parsers[j](c))
      {
        if j > 0 {
          assert parsers[j] == parsers[1..][j - 1];
        }
      }
    }
  }

  /** `first_of`: tries the parsers in order on the same tokens. */
  method FirstOf<T>(c: Cursor, parsers: seq<Parser<T>>, default: Parser<T>) returns (r: ParseResult<T>)
    ensures r == FirstOfSpec(c, parsers, default)
  {
    var i := 0;
    while i < |parsers|
      invariant 0 <= i <= |parsers|
      invariant FirstOfSpec(c, parsers, default) == FirstOfSpec(c, parsers[i..], default)
    {
      assert parsers[i..][1..] == parsers[i + 1..];
      match parsers[i](c)
      case Ok(v) =>
        return Ok(v);
      case Err(e) =>
        if e.isFatal {
          return Err(e);
        }
      i := i + 1;
    }
    r := default(c);
  }

  /** The opening of a span: its opener, the list inside the brackets and the list from the closer on. */
  datatype SpanParts = SpanParts(inner: Cursor, outer: Cursor, opener: TokenItem)

  /**
   * Opens a span: matches the opener and splits the list at the index of its closer, which
   * the lexer recorded. An opener the lexer did not close is an internal error.
   */
  function SpanOpen(c: Cursor, openTerminal: TerminalToken): (r: Result<SpanParts, ParseError>)
    ensures r.Err? ==> !r.error.isFatal && r.error.tokenIndex == c.index
    ensures r.Err? ==>
      r.error.ty == (if AtTerminal(c, openTerminal) then Internal(TokenIsNotSpan) else ExpectedTerminal(openTerminal))
    ensures r.Ok? ==>
      && AtTerminal(c, openTerminal) && r.value.opener == c.tokens[c.index]
      && r.value.opener.closeIndex.Some?
      && var close := r.value.opener.closeIndex.value;
      && c.index < close < |c.tokens|
      && r.value.inner.tokens == c.tokens[..close] && r.value.inner.index == c.index + 1
      && r.value.outer.tokens == c.tokens && r.value.outer.index == close
    ensures r.Ok? ==> Remaining(r.value.inner) < Remaining(c) && Remaining(r.value.outer) < Remaining(c)
  {
    var startIndex := StartIndex(c);
    match MatchTerminalItem(c, openTerminal)
    case Err(e) => Err(e)
    case Ok((next, openItem)) =>
      match openItem.closeIndex
      case None => Err(New(Internal(TokenIsNotSpan), startIndex, Inline))
      case Some(closeIndex) =>
        var (inner, outer) := SplitAt(next, closeIndex);
        Ok(SpanParts(inner, outer, openItem))
  }

  /** Every error inside a span is fatal and carries the span's context, opener to closer. */
  function SpanError(e: ParseError, c: Cursor, parts: SpanParts, context: ContextType): (r: ParseError)
    ensures r.isFatal && r.tokenIndex == e.tokenIndex && r.ty == e.ty
  {
    IntoFatal(WithContext(e, Range(c.index, parts.outer.index + 1), context))
  }

  /** The closer of an opened span, read from the outer list. */
  function SpanClose(c: Cursor, parts: SpanParts, context: ContextType, closeTerminal: TerminalToken)
    : (r: ParseResult<Token>)
    ensures r.Err? ==> r.error.isFatal
    ensures r.Ok? ==> Advanced(parts.outer, r.value.0, 1)
  {
    match MatchTerminal(parts.outer, closeTerminal)
    case Err(e) => Err(SpanError(e, c, parts, context))
    case Ok(v) => Ok(v)
  }

  /**
   * Ends a span once the inner parser has run: its errors become fatal in the span's context,
   * and so does leaving tokens unread before the closer; otherwise parsing goes on after
   * the closer.
   */
  function SpanFinish<T>(c: Cursor, parts: SpanParts, context: ContextType, closeTerminal: TerminalToken,
                         after: Cursor, inner: ParseResult<T>): (r: ParseResult<T>)
    ensures r.Err? ==> r.error.isFatal
    ensures r.Ok? ==> inner.Ok? && IsEnded(inner.value.0) && r == Ok((after, inner.value.1))
    ensures inner.Ok? && !IsEnded(inner.value.0) ==>
      r.Err? && r.error.ty == ExpectedTerminal(closeTerminal) && r.error.tokenIndex == inner.value.0.index
  {
    match inner
    case Err(e) => Err(SpanError(e, c, parts, context))
    case Ok((innerRest, value)) =>
      if !IsEnded(innerRest) then
        Err(SpanError(New(ExpectedTerminal(closeTerminal), StartIndex(innerRest), Inline), c, parts, context))
      else Ok((after, value))
  }

  /**
   * `span`: a bracketed construct. The inner parser sees only the tokens between the opener
   * and its closer and must read all of them.
   */
  function Span<T>(c: Cursor, context: ContextType, openTerminal: TerminalToken, closeTerminal: TerminalToken,
                   inner: (Cursor, Token, Token) -> ParseResult<T>): (r: ParseResult<T>)
    ensures (r.Err? && !r.error.isFatal) ==> SpanOpen(c, openTerminal).Err?
    ensures r.Ok? ==>
      && SpanOpen(c, openTerminal).Ok?
      && r.value.0.tokens == c.tokens
      && r.value.0.index == c.tokens[c.index].closeIndex.value + 1
  {
    match SpanOpen(c, openTerminal)
    case Err(e) => Err(e)
    case Ok(parts) =>
      match SpanClose(c, parts, context, closeTerminal)
      case Err(e) => Err(e)
      case Ok((after, closeToken)) =>
        SpanFinish(c, parts, context, closeTerminal, after, inner(parts.inner, parts.opener.token, closeToken))
  }

  /**
   * A span is always read whole: on success the cursor is just past the closer the lexer
   * matched with the opener, and the inner parser saw exactly the tokens between them.
   */
  lemma SpanReadsBetweenBrackets<T>(c: Cursor, context: ContextType, openTerminal: TerminalToken,
                                    closeTerminal: TerminalToken, inner: (Cursor, Token, Token) -> ParseResult<T>)
    requires Span(c, context, openTerminal, closeTerminal, inner).Ok?
    ensures var close := c.tokens[c.index].closeIndex.value;
      && AtTerminal(c, openTerminal)
      && c.index < close < |c.tokens| && c.tokens[close].token.ty == Terminal(closeTerminal)
      && Remaining(Span(c, context, openTerminal, closeTerminal, inner).value.0) < Remaining(c)
      && var parts := SpanOpen(c, openTerminal).value;
      && parts.inner.tokens[parts.inner.index..] == c.tokens[c.index + 1..close]
  {
  }

  /** `opt`: a soft failure becomes an absent value at the original tokens. */
  function Opt<T>(c: Cursor, res: ParseResult<T>): (r: ParseResult<Option<T>>)
    ensures r.Err? <==> res.Err? && res.error.isFatal
    ensures r.Err? ==> r.error == res.error
    ensures res.Ok? ==> r == Ok((res.value.0, Some(res.value.1)))
    ensures SoftFailure(res) ==> r == Ok((c, None))
  {
    match res
    case Ok((c1, v)) => Ok((c1, Some(v)))
    case Err(e) => if e.isFatal then Err(e) else Ok((c, None))
  }

  function Map<A, B>(res: ParseResult<A>, f: A -> B): (r: ParseResult<B>)
    ensures r.Ok? <==> res.Ok?
    ensures r.Ok? ==> r.value == (res.value.0, f(res.value.1))
    ensures r.Err? ==> r.error == res.error
  {
    match res
    case Ok((c1, a)) => Ok((c1, f(a)))
    case Err(e) => Err(e)
  }

  /** `alt`: None means "try something else"; success and fatal errors are kept. */
  function Alt<T>(res: ParseResult<T>): (r: Option<ParseResult<T>>)
    ensures r.None? <==> SoftFailure(res)
    ensures r.Some? ==> r.value == res
  {
    match res
    case Ok(v) => Some(Ok(v))
    case Err(e) => if e.isFatal then Some(Err(e)) else None
  }

  function AltMap<A, B>(res: ParseResult<A>, f: A -> B): (r: Option<ParseResult<B>>)
    ensures r.None? <==> SoftFailure(res)
  {
    Alt(Map(res, f))
  }

  /**
   * `prevent_ending_line`: a parse that read something and stopped just after a line break
   * fails with IllegalLineBreak at the token that ended the line.
   */
  function PreventEndingLine<T>(c: Cursor, res: ParseResult<T>): (r: ParseResult<T>)
    ensures res.Err? ==> r == res
    ensures res.Ok? ==>
      var after := res.value.0;
      if c.index != after.index && IsNewline(after) then
        after.index > 0 && r == Err(New(IllegalLineBreak, after.index - 1, Inline))
      else r == res
  {
    match res
    case Err(e) => Err(e)
    case Ok((after, v)) =>
      if StartIndex(c) != StartIndex(after) && IsNewline(after) then
        Err(New(IllegalLineBreak, StartIndex(after) - 1, Inline))
      else Ok((after, v))
  }

  /** Soft failures are exactly what `opt` absorbs and `alt` passes over. */
  lemma OptAltAgree<T>(c: Cursor, res: ParseResult<T>)
    ensures Alt(res).None? <==> Opt(c, res) == Ok((c, None))
  {
  }
}

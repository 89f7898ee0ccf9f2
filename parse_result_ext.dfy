// Transforms of a parse result: soft and fatal failure, fallbacks, line-break checks,
// contexts, and the bracketed-construct helper `opens`.
module ParseResultExts {
  import opened Wrappers
  import opened Tokens
  import opened Lexers
  import opened Contexts
  import opened TokenLists
  import opened ParseErrors
  import opened Combinators

  /** `maybe`: a soft failure becomes an absent value at the given tokens. */
  function Maybe<T>(res: ParseResult<T>, c: Cursor): (r: ParseResult<Option<T>>)
    ensures res.Ok? ==> r == Ok((res.value.0, Some(res.value.1)))
    ensures (res.Err? && res.error.isFatal) ==> r == Err(res.error)
    ensures SoftFailure(res) ==> r == Ok((c, None))
  {
    match res
    case Ok((rest, value)) => Ok((rest, Some(value)))
    case Err(e) => if e.isFatal then Err(e) else Ok((c, None))
  }

  /** `maybe` and the combinator `opt` are the same rule. */
  lemma MaybeIsOpt<T>(res: ParseResult<T>, c: Cursor)
    ensures Maybe(res, c) == Opt(c, res)
  {
  }

  function NotDefinite<T>(res: ParseResult<T>): (r: ParseResult<T>)
    ensures res.Ok? ==> r == res
    ensures res.Err? ==> r == Err(IntoNonFatal(res.error))
  {
    match res
    case Ok(v) => Ok(v)
    case Err(e) => Err(IntoNonFatal(e))
  }

  function Definite<T>(res: ParseResult<T>): (r: ParseResult<T>)
    ensures res.Ok? ==> r == res
    ensures res.Err? ==> r == Err(IntoFatal(res.error))
  {
    match res
    case Ok(v) => Ok(v)
    case Err(e) => Err(IntoFatal(e))
  }

  /** Only the fatal flag changes, and the last conversion decides it. */
  lemma DefiniteFlagOnly<T>(res: ParseResult<T>)
    ensures Definite(NotDefinite(res)) == Definite(res)
    ensures NotDefinite(Definite(res)) == NotDefinite(res)
    ensures Definite(res).Err? <==> res.Err?
    ensures res.Err? ==> Definite(res).error.(isFatal := res.error.isFatal) == res.error
    ensures res.Err? ==> NotDefinite(res).error.(isFatal := res.error.isFatal) == res.error
  {
  }

  /**
   * `not_line_ending`: a value after which a line ends is refused with IllegalLineBreak at
   * the tokens after it.
   */
  function NotLineEnding<T>(res: ParseResult<T>): (r: ParseResult<T>)
    ensures res.Err? ==> r == res
    ensures res.Ok? ==> (r.Err? <==> IsNewline(res.value.0))
    ensures (res.Ok? && IsNewline(res.value.0)) ==>
      r == Err(New(IllegalLineBreak, res.value.0.index, if IsEnded(res.value.0) then Before else Inline))
    ensures r.Ok? ==> r == res
  {
    match res
    case Err(e) => Err(e)
    case Ok((rest, value)) =>
      if IsNewline(rest) then Err(Error(rest, IllegalLineBreak)) else Ok((rest, value))
  }

  function MapVal<A, B>(res: ParseResult<A>, f: A -> B): (r: ParseResult<B>)
    ensures r.Ok? <==> res.Ok?
    ensures r.Ok? ==> r.value == (res.value.0, f(res.value.1))
    ensures r.Err? ==> r.error == res.error
  {
    match res
    case Ok((rest, value)) => Ok((rest, f(value)))
    case Err(e) => Err(e)
  }

  /** `or_try`: the fallback runs only after a soft failure. */
  function OrTry<T>(res: ParseResult<T>, fallback: () -> ParseResult<T>): (r: ParseResult<T>)
    ensures SoftFailure(res) ==> r == fallback()
    ensures !SoftFailure(res) ==> r == res
  {
    match res
    case Ok(v) => Ok(v)
    case Err(e) => if e.isFatal then Err(e) else fallback()
  }

  /** `or_error`: a soft failure is replaced by the given error. */
  function OrError<T>(res: ParseResult<T>, err: () -> ParseError): (r: ParseResult<T>)
    ensures SoftFailure(res) ==> r == Err(err())
    ensures !SoftFailure(res) ==> r == res
  {
    OrTry(res, () => Err(err()))
  }

  /** `with_context`: every error of the result is put in the given context. */
  function WithContextResult<T>(res: ParseResult<T>, ty: ContextType, range: Range): (r: ParseResult<T>)
    ensures res.Ok? ==> r == res
    ensures res.Err? ==> r == Err(WithContext(res.error, range, ty))
  {
    match res
    case Ok(v) => Ok(v)
    case Err(e) => Err(WithContext(e, range, ty))
  }

  /**
   * `replace_context_from`: the context of an error runs from the given tokens' position to
   * the error's own token.
   */
  function ReplaceContextFrom<T>(res: ParseResult<T>, ty: ContextType, from: Cursor): (r: ParseResult<T>)
    ensures res.Ok? ==> r == res
    ensures res.Err? ==> r.Err? && r.error.tokenIndex == res.error.tokenIndex && r.error.ty == res.error.ty
    ensures (res.Err? && res.error.context.None?) ==>
      r.error.context == Some(ParseErrorContext(Range(from.index, res.error.tokenIndex), ty))
  {
    var startIndex := StartIndex(from);
    match res
    case Ok(v) => Ok(v)
    case Err(e) => Err(WithContext(e, Range(startIndex, e.tokenIndex), ty))
  }

  /**
   * `determines`: the determinant decides whether the construct is present, so its errors
   * are soft; once it has matched, every error of the continuation is fatal.
   */
  function Determines<A, B>(res: ParseResult<A>, f: (Cursor, A) -> ParseResult<B>): (r: ParseResult<B>)
    ensures res.Err? ==> r == Err(IntoNonFatal(res.error))
    ensures res.Ok? ==> r == Definite(f(res.value.0, res.value.1))
    ensures r.Err? ==> (r.error.isFatal <==> res.Ok?)
  {
    match NotDefinite(res)
    case Err(e) => Err(e)
    case Ok((rest, value)) => Definite(f(rest, value))
  }

  /** `determines` and the combinator `definitely` agree on how fatal their errors are. */
  lemma DeterminesLikeDefinitely<D, T>(c: Cursor, context: ContextType, determinant: Parser<D>,
                                       remaining: (Cursor, D) -> ParseResult<T>)
    requires determinant(c).Err? ==> !determinant(c).error.isFatal
    ensures Determines(determinant(c), remaining).Ok? <==> Definitely(c, context, determinant, remaining).Ok?
    ensures Determines(determinant(c), remaining).Err? ==>
      (Determines(determinant(c), remaining).error.isFatal
       <==> Definitely(c, context, determinant, remaining).error.isFatal)
  {
  }

  /**
   * The cursor just after an opener the lexer matched: the previous item is the opener, its
   * closer lies ahead, and every span opened in between closes before it.
   */
  ghost predicate OpenedSpan(c: Cursor) {
    && c.index > 0
    && c.tokens[c.index - 1].closeIndex.Some?
    && var close := c.tokens[c.index - 1].closeIndex.value;
    && c.index <= close < |c.tokens|
    && forall k :: c.index <= k < close && c.tokens[k].closeIndex.Some? ==> c.tokens[k].closeIndex.value < close
  }

  function CloseIndex(c: Cursor): (close: nat)
    requires OpenedSpan(c)
    ensures c.index <= close < |c.tokens|
  {
    c.tokens[c.index - 1].closeIndex.value
  }

  /** Stepping over an opener that the lexer closed gives a cursor that `opens` accepts. */
  lemma StepOverOpener(c: Cursor)
    requires !IsEnded(c) && c.tokens[c.index].closeIndex.Some?
    ensures OpenedSpan(SplitFirst(c).value.0)
  {
  }

  /** The span's context range: from the opener to just past the closer. */
  function SpanRange(c: Cursor): (r: Range)
    requires OpenedSpan(c)
    ensures r.start + 1 == c.index && r.end == CloseIndex(c) + 1
  {
    Range(StartIndex(c) - 1, CloseIndex(c) + 1)
  }

  /**
   * The error the closing parser gives first, read repeatedly from the given tokens: what
   * `opens` reports when the inner parser leaves tokens unread.
   */
  function CloseUntilError<C>(c: Cursor, close: Parser<C>, context: ContextType, range: Range): (r: ParseError)
    requires Advances(close)
    ensures r.context.Some?
    ensures IsEnded(c) ==> r == WithContext(close(c).error, range, context)
    decreases Remaining(c)
  {
    match close(c)
    case Err(e) => WithContext(e, range, context)
    case Ok((next, _)) => CloseUntilError(next, close, context, range)
  }

  /** What `opens` computes, given the tokens after the opener and the opener's value. */
  function OpensSpec<T, C, O>(c: Cursor, openValue: T, context: ContextType, close: Parser<C>,
                              inner: (Cursor, T, C) -> ParseResult<O>): ParseResult<O>
    requires OpenedSpan(c) && Advances(close)
  {
    var range := SpanRange(c);
    var (innerTokens, outerTokens) := SplitAt(c, CloseIndex(c));
    match close(outerTokens)
    case Err(e) => Err(WithContext(e, range, context))
    case Ok((after, closeValue)) =>
      match inner(innerTokens, openValue, closeValue)
      case Err(e) => Err(WithContext(e, range, context))
      case Ok((innerRest, value)) =>
        if IsEnded(innerRest) then Ok((after, value))
        else Err(CloseUntilError(innerRest, close, context, range))
  }

  /**
   * `opens` reads a bracketed construct whose opener has just been read: the closing parser
   * reads from the opener's closer on, and the inner parser sees only the tokens before it.
   * It succeeds only when the inner parser reads all of them, and then parsing goes on where
   * the closing parser stopped; every error carries the span's context.
   */
  lemma OpensReadsSpan<T, C, O>(c: Cursor, openValue: T, context: ContextType, close: Parser<C>,
                                inner: (Cursor, T, C) -> ParseResult<O>)
    requires OpenedSpan(c) && Advances(close)
    ensures var r := OpensSpec(c, openValue, context, close, inner);
      var outer := TokenList(c.tokens, CloseIndex(c));
      && (r.Ok? ==> close(outer).Ok? && r.value.0 == close(outer).value.0)
      && (r.Ok? ==>
           var innerTokens := TokenList(c.tokens[..CloseIndex(c)], c.index);
           && inner(innerTokens, openValue, close(outer).value.1).Ok?
           && IsEnded(inner(innerTokens, openValue, close(outer).value.1).value.0)
           && r.value.1 == inner(innerTokens, openValue, close(outer).value.1).value.1)
      && (r.Err? ==> r.error.context.Some?)
  {
    var (innerTokens, outerTokens) := SplitAt(c, CloseIndex(c));
    match close(outerTokens)
    case Err(e) =>
    case Ok((after, closeValue)) =>
      match inner(innerTokens, openValue, closeValue)
      case Err(e) =>
      case Ok((innerRest, value)) =>
  }

  /**
   * `opens`. The source's loop stops only with an error of the closing parser, and it
   * asserts that the closing parser never succeeds on an ended list; given that the
   * closing parser consumes what it reads, both hold.
   */
  method Opens<T, C, O>(res: ParseResult<T>, context: ContextType, close: Parser<C>,
                        inner: (Cursor, T, C) -> ParseResult<O>) returns (r: ParseResult<O>)
    requires res.Ok? ==> OpenedSpan(res.value.0)
    requires Advances(close)
    ensures res.Err? ==> r == Err(res.error)
    ensures res.Ok? ==> r == OpensSpec(res.value.0, res.value.1, context, close, inner)
  {
    if res.Err? {
      return Err(res.error);
    }
    var (tokens, openValue) := res.value;
    var closeIndex := CloseIndex(tokens);
    var spanRange := SpanRange(tokens);
    var (innerTokens, outerTokens) := SplitAt(tokens, closeIndex);
    var closed := WithContextResult(close(outerTokens), context, spanRange);
    if closed.Err? {
      return Err(closed.error);
    }
    var (after, closeValue) := closed.value;
    var parsed := WithContextResult(inner(innerTokens, openValue, closeValue), context, spanRange);
    if parsed.Err? {
      return Err(parsed.error);
    }
    var (innerRest, value) := parsed.value;
    if !IsEnded(innerRest) {
      var e := CloseUntil(innerRest, close, context, spanRange);
      return Err(e);
    }
    return Ok((after, value));
  }

  /** The loop of `opens` after unread inner tokens: the closing parser is read until it fails. */
  method CloseUntil<C>(c: Cursor, close: Parser<C>, context: ContextType, range: Range) returns (e: ParseError)
    requires Advances(close)
    ensures e == CloseUntilError(c, close, context, range)
  {
    var remaining := c;
    while true
      invariant CloseUntilError(remaining, close, context, range) == CloseUntilError(c, close, context, range)
      decreases Remaining(remaining)
    {
      var step := WithContextResult(close(remaining), context, range);
      if step.Err? {
        return step.error;
      }
      assert !IsEnded(remaining);
      remaining := step.value.0;
    }
  }

  /** `determines_and_opens`: a determinant opener, then `opens`, with all later errors fatal. */
  method DeterminesAndOpens<T, C, O>(res: ParseResult<T>, context: ContextType, close: Parser<C>,
                                     inner: (Cursor, T, C) -> ParseResult<O>) returns (r: ParseResult<O>)
    requires res.Ok? ==> OpenedSpan(res.value.0)
    requires Advances(close)
    ensures res.Err? ==> r == Err(IntoNonFatal(res.error))
    ensures res.Ok? ==> r == Definite(OpensSpec(res.value.0, res.value.1, context, close, inner))
  {
    var determined := NotDefinite(res);
    if determined.Err? {
      return Err(determined.error);
    }
    var spanned := Opens(determined, context, close, inner);
    r := Definite(spanned);
  }
}

// Parse errors: what was expected, at which token, in which construct, and whether the
// parser may still try another alternative.
module ParseErrors {
  import opened Wrappers
  import opened Tokens
  import opened Lexers
  import opened Contexts
  import opened TokenLists

  datatype InternalErrorType = TokenIsNotSpan | SpanEndPastEof | PrecedenceMismatch | Empty

  datatype ParseErrorType =
    | Internal(internal: InternalErrorType)
    | ExpectedTerminal(terminal: TerminalToken)
    | ExpectedCompound2(first: TerminalToken, second: TerminalToken)
    | ExpectedCompound3(first: TerminalToken, second: TerminalToken, third: TerminalToken)
    | ExpectedIdentifier
    | ExpectedLiteral
    | ExpectedExpression
    | ExpectedOperator
    | ExpectedPrefixOperator
    | ExpectedPostfixOperator
    | ExpectedBinaryOperator
    | ExpectedType
    | ExpectedTypeModifier
    | ExpectedTableSlot
    | ExpectedClassMember
    | ExpectedStatement
    | ExpectedGlobalDeclaration
    | IllegalLineBreak

  /** Whether an error belongs with the token it points at or with the gap before it. */
  datatype TokenAffinity = Before | Inline

  /** The construct an error was found in, as a range of token indices. */
  datatype ParseErrorContext = ParseErrorContext(tokenRange: Range, ty: ContextType)

  datatype ParseError = ParseError(
    ty: ParseErrorType,
    tokenIndex: nat,
    context: Option<ParseErrorContext>,
    isFatal: bool,
    affinity: TokenAffinity)

  /** What every parser returns: the tokens after what it read and the value, or an error. */
  type ParseResult<T> = Result<(Cursor, T), ParseError>

  /** A parser: a total function of the token list. */
  type Parser<T> = Cursor -> ParseResult<T>

  /** A fresh error: not fatal, and in no context yet. */
  function New(ty: ParseErrorType, tokenIndex: nat, affinity: TokenAffinity): (r: ParseError)
    ensures r.ty == ty && r.tokenIndex == tokenIndex && r.affinity == affinity
    ensures !r.isFatal && r.context.None?
  {
    ParseError(ty, tokenIndex, None, false, affinity)
  }

  /**
   * The error a token list reports at its cursor: an error at the end of the list belongs
   * before the missing token, any other error to the token at the cursor.
   */
  function Error(c: Cursor, ty: ParseErrorType): (r: ParseError)
    ensures r == New(ty, c.index, if IsEnded(c) then Before else Inline)
  {
    var affinity := if IsEnded(c) then Before else Inline;
    New(ty, StartIndex(c), affinity)
  }

  /** An error at the cursor that belongs before the token there. */
  function ErrorBefore(c: Cursor, ty: ParseErrorType): (r: ParseError)
    ensures r == New(ty, c.index, Before)
  {
    New(ty, StartIndex(c), Before)
  }

  /**
   * Attaches a context. An error with no context takes the new one; an error whose context
   * is not useful takes the new type, and its range grows to cover both ranges; an error
   * with a useful context keeps it.
   */
  function WithContext(err: ParseError, tokenRange: Range, ty: ContextType): (r: ParseError)
    ensures r.ty == err.ty && r.tokenIndex == err.tokenIndex && r.isFatal == err.isFatal
    ensures r.affinity == err.affinity
    ensures r.context.Some?
    ensures err.context.Some? && IsUseful(err.context.value.ty) ==> r == err
    ensures err.context.None? ==> r.context == Some(ParseErrorContext(tokenRange, ty))
    ensures err.context.Some? && !IsUseful(err.context.value.ty) ==>
      var old_ := err.context.value.tokenRange;
      var new_ := r.context.value.tokenRange;
      && r.context.value.ty == ty
      && new_.start <= old_.start && new_.start <= tokenRange.start
      && old_.end <= new_.end && tokenRange.end <= new_.end
      && (new_.start == old_.start || new_.start == tokenRange.start)
      && (new_.end == old_.end || new_.end == tokenRange.end)
  {
    match err.context
    case None => err.(context := Some(ParseErrorContext(tokenRange, ty)))
    case Some(context) =>
      if IsUseful(context.ty) then err
      else
        var range := context.tokenRange;
        var start := if range.start <= tokenRange.start then range.start else tokenRange.start;
        var end := if range.end >= tokenRange.end then range.end else tokenRange.end;
        err.(context := Some(ParseErrorContext(Range(start, end), ty)))
  }

  function IntoFatal(err: ParseError): (r: ParseError)
    ensures r.isFatal && r == err.(isFatal := true)
  {
    err.(isFatal := true)
  }

  function IntoNonFatal(err: ParseError): (r: ParseError)
    ensures !r.isFatal && r == err.(isFatal := false)
  {
    err.(isFatal := false)
  }

  /**
   * The innermost useful context wins: once an error has a useful context, attaching
   * further contexts, however many, changes nothing.
   */
  lemma UsefulContextSticks(err: ParseError, r1: Range, t1: ContextType, r2: Range, t2: ContextType)
    requires IsUseful(t1)
    ensures WithContext(WithContext(err, r1, t1), r2, t2) == WithContext(err, r1, t1)
  {
  }

  /**
   * A block-statement context is only a placeholder: the next useful context replaces its
   * type and keeps a range covering the block.
   */
  lemma BlockContextIsReplaced(err: ParseError, block: Range, outer: Range, ty: ContextType)
    requires err.context.None?
    requires IsUseful(ty)
    ensures var r := WithContext(WithContext(err, block, BlockStatement), outer, ty);
      && r.context.value.ty == ty
      && r.context.value.tokenRange.start <= block.start
      && r.context.value.tokenRange.end >= block.end
  {
  }

  /** The fatal flag is the only thing the two conversions touch, and the last one decides. */
  lemma FatalFlagRoundTrip(err: ParseError)
    ensures IntoNonFatal(IntoFatal(err)) == IntoNonFatal(err)
    ensures IntoFatal(IntoNonFatal(err)) == IntoFatal(err)
    ensures !err.isFatal ==> IntoNonFatal(IntoFatal(err)) == err
  {
  }

  /**
   * The source range an error at a token index points to: that token's range, or the empty
   * range at the end of the text when the index is past the last token.
   */
  function TokenSrcRange(tokenIndex: nat, tokens: seq<TokenItem>, src: string): (r: Range)
    ensures tokenIndex < |tokens| ==> r == tokens[tokenIndex].token.range
    ensures tokenIndex >= |tokens| ==> r.start == r.end == |src|
  {
    if tokenIndex < |tokens| then tokens[tokenIndex].token.range else Range(|src|, |src|)
  }
}

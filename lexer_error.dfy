/** The errors the lexer reports, each with the source range it points at. */
module LexerErrors {
  import opened Tokens

  datatype LexerErrorType =
    | EndOfInputInsideString
    | EndOfLineInsideString
    | InvalidInput
    | UnmatchedOpener(open: TokenType, close: TokenType)

  datatype LexerError = LexerError(ty: LexerErrorType, range: Range)
}

// Names in the syntax tree: a plain identifier token, and a method name, which may also be
// the `constructor` keyword.
module IdentifierParsers {
  import opened Wrappers
  import opened Tokens
  import opened TokenLists
  import opened ParseErrors
  import opened TerminalParsers
  import opened Combinators

  /** An identifier with the token it was read from. */
  datatype Name = Name(value: string, token: Token)

  /** A method name: the `constructor` keyword or an identifier. */
  datatype MethodName = ConstructorName(keyword: Token) | PlainName(name: Name)

  /** `identifier`: the next token when it is an identifier, else ExpectedIdentifier at the cursor. */
  function ParseIdentifier(c: Cursor): (r: ParseResult<Name>)
    ensures r.Ok? <==> !IsEnded(c) && c.tokens[c.index].token.ty.Identifier?
    ensures r.Ok? ==>
      && Advanced(c, r.value.0, 1)
      && r.value.1 == Name(c.tokens[c.index].token.ty.name, c.tokens[c.index].token)
    ensures r.Err? ==> r.error == New(ExpectedIdentifier, c.index, Inline)
  {
    match SplitFirst(c)
    case Some((rest, item)) =>
      if item.token.ty.Identifier? then Ok((rest, Name(item.token.ty.name, item.token)))
      else Err(New(ExpectedIdentifier, StartIndex(c), Inline))
    case None => Err(New(ExpectedIdentifier, StartIndex(c), Inline))
  }

  /** `identifier` as a parser of its own, as the list parsers take it. */
  function IdentifierParser(): (p: Parser<Name>)
    ensures Advances(p)
  {
    (x: Cursor) => ParseIdentifier(x)
  }

  /**
   * `method_identifier`: the `constructor` keyword is tried first; anything else must be an
   * identifier, and a failure reports the missing identifier.
   */
  function ParseMethodIdentifier(c: Cursor): (r: ParseResult<MethodName>)
    ensures r.Ok? <==> AtTerminal(c, Constructor) || ParseIdentifier(c).Ok?
    ensures r.Ok? ==> Advanced(c, r.value.0, 1)
    ensures r.Ok? && AtTerminal(c, Constructor) ==> r.value.1 == ConstructorName(c.tokens[c.index].token)
    ensures r.Ok? && !AtTerminal(c, Constructor) ==> r.value.1 == PlainName(ParseIdentifier(c).value.1)
    ensures r.Err? ==> r.error == New(ExpectedIdentifier, c.index, Inline)
  {
    match Alt(Map(MatchTerminal(c, Constructor), (t: Token) => ConstructorName(t)))
    case Some(res) => res
    case None => Map(ParseIdentifier(c), (n: Name) => PlainName(n))
  }
}

// Parsers written as methods of the token list: errors at the cursor, terminal matching
// whose errors point past what was read, and reading items until a condition holds.
module TokenListExts {
  import opened Wrappers
  import opened Tokens
  import opened Lexers
  import opened TokenLists
  import opened ParseErrors
  import opened TerminalParsers
  import opened Combinators
  import opened ParseResultExts
  import opened ListParsers

  /** `ended_or`: at the end of the list a result stays as it is; anywhere else it is definite. */
  function EndedOr<T>(c: Cursor, res: ParseResult<T>): (r: ParseResult<T>)
    ensures IsEnded(c) ==> r == res
    ensures !IsEnded(c) ==> r == Definite(res)
    ensures r.Ok? <==> res.Ok?
  {
    if IsEnded(c) then res else Definite(res)
  }

  /** `empty`: the Empty token that carries trailing comments, when it is next. */
  function EmptyToken(c: Cursor): (r: Option<(Cursor, Token)>)
    ensures r.Some? <==> !IsEnded(c) && c.tokens[c.index].token.ty.Empty?
    ensures r.Some? ==> Advanced(c, r.value.0, 1) && r.value.1 == c.tokens[c.index].token
  {
    match SplitFirst(c)
    case Some((rest, item)) => if item.token.ty.Empty? then Some((rest, item.token)) else None
    case None => None
  }

  /**
   * `terminal_item`: as the plain terminal parser, but its error takes its affinity from
   * the list: an expected terminal missing at the end belongs before the end.
   */
  function TerminalItem(c: Cursor, t: TerminalToken): (r: ParseResult<TokenItem>)
    ensures r.Ok? <==> AtTerminal(c, t)
    ensures r.Ok? ==> Advanced(c, r.value.0, 1) && r.value.1 == c.tokens[c.index]
    ensures r.Err? ==> r.error == Error(c, ExpectedTerminal(t))
  {
    match SplitFirst(c)
    case Some((rest, item)) =>
      if IsTerminalOfType(item.token, t) then Ok((rest, item)) else Err(Error(c, ExpectedTerminal(t)))
    case None => Err(Error(c, ExpectedTerminal(t)))
  }

  function TerminalOf(c: Cursor, t: TerminalToken): (r: ParseResult<Token>)
    ensures r.Ok? <==> AtTerminal(c, t)
    ensures r.Ok? ==> Advanced(c, r.value.0, 1) && r.value.1 == c.tokens[c.index].token
    ensures r.Err? ==> r.error == Error(c, ExpectedTerminal(t))
  {
    match TerminalItem(c, t)
    case Err(e) => Err(e)
    case Ok((rest, item)) => Ok((rest, item.token))
  }

  /** The plain and the list-method terminal parsers differ only in the error's affinity. */
  lemma TerminalOfAgrees(c: Cursor, t: TerminalToken)
    ensures TerminalOf(c, t).Ok? <==> MatchTerminal(c, t).Ok?
    ensures TerminalOf(c, t).Ok? ==> TerminalOf(c, t) == MatchTerminal(c, t)
    ensures TerminalOf(c, t).Err? ==>
      TerminalOf(c, t).error == MatchTerminal(c, t).error.(affinity := TerminalOf(c, t).error.affinity)
  {
  }

  /**
   * `terminal2`: two touching terminals. When both are there but a gap separates them, the
   * error is ExpectedCompound2 at the tokens after both.
   */
  function Terminal2(c: Cursor, a: TerminalToken, b: TerminalToken): (r: ParseResult<(Token, Token)>)
    ensures r.Ok? <==>
      AtTerminal(c, a) && c.index + 1 < |c.tokens| && c.tokens[c.index + 1].token.ty == Terminal(b)
      && Adjacent(c.tokens[c.index].token, c.tokens[c.index + 1].token)
    ensures r.Ok? ==>
      (Advanced(c, r.value.0, 2) && r.value.1 == (c.tokens[c.index].token, c.tokens[c.index + 1].token))
    ensures r.Err? ==> !r.error.isFatal && r.error.context.None?
    ensures (r.Err? && AtTerminal(c, a) && c.index + 1 < |c.tokens|
      && c.tokens[c.index + 1].token.ty == Terminal(b)) ==>
      (r.error.ty == ExpectedCompound2(a, b) && r.error.tokenIndex == c.index + 2)
  {
    match TerminalOf(c, a)
    case Err(e) => Err(e)
    case Ok((c1, tokenA)) =>
      match TerminalOf(c1, b)
      case Err(e) => Err(e)
      case Ok((c2, tokenB)) =>
        if Adjacent(tokenA, tokenB) then Ok((c2, (tokenA, tokenB)))
        else Err(Error(c2, ExpectedCompound2(a, b)))
  }

  /** `terminal3`: three terminals, each touching the next. */
  function Terminal3(c: Cursor, a: TerminalToken, b: TerminalToken, t3: TerminalToken)
    : (r: ParseResult<(Token, Token, Token)>)
    ensures r.Ok? <==>
      AtTerminal(c, a) && c.index + 2 < |c.tokens|
      && c.tokens[c.index + 1].token.ty == Terminal(b) && c.tokens[c.index + 2].token.ty == Terminal(t3)
      && Adjacent(c.tokens[c.index].token, c.tokens[c.index + 1].token)
      && Adjacent(c.tokens[c.index + 1].token, c.tokens[c.index + 2].token)
    ensures r.Ok? ==> Advanced(c, r.value.0, 3)
    ensures r.Ok? ==>
      r.value.1 == (c.tokens[c.index].token, c.tokens[c.index + 1].token, c.tokens[c.index + 2].token)
    ensures r.Err? ==> !r.error.isFatal && r.error.context.None?
    ensures (r.Err? && AtTerminal(c, a) && c.index + 2 < |c.tokens|
      && c.tokens[c.index + 1].token.ty == Terminal(b) && c.tokens[c.index + 2].token.ty == Terminal(t3)) ==>
      (r.error.ty == ExpectedCompound3(a, b, t3) && r.error.tokenIndex == c.index + 3)
  {
    match TerminalOf(c, a)
    case Err(e) => Err(e)
    case Ok((c1, tokenA)) =>
      match TerminalOf(c1, b)
      case Err(e) => Err(e)
      case Ok((c2, tokenB)) =>
        match TerminalOf(c2, t3)
        case Err(e) => Err(e)
        case Ok((c3, tokenC)) =>
          if Adjacent(tokenA, tokenB) && Adjacent(tokenB, tokenC) then Ok((c3, (tokenA, tokenB, tokenC)))
          else Err(Error(c3, ExpectedCompound3(a, b, t3)))
  }

  /**
   * The two families of compound matching accept exactly the same inputs and read the same
   * tokens; they differ only in where a gap between the terminals is reported.
   */
  lemma CompoundMatchesAgree(c: Cursor, a: TerminalToken, b: TerminalToken, t3: TerminalToken)
    ensures Terminal2(c, a, b).Ok? <==> MatchTerminal2(c, a, b).Ok?
    ensures Terminal2(c, a, b).Ok? ==> Terminal2(c, a, b) == MatchTerminal2(c, a, b)
    ensures Terminal3(c, a, b, t3).Ok? <==> MatchTerminal3(c, a, b, t3).Ok?
    ensures Terminal3(c, a, b, t3).Ok? ==> Terminal3(c, a, b, t3).value.0 == MatchTerminal3(c, a, b, t3).value.0
  {
  }

  /**
   * What `many_until` computes: items are read until the condition holds, and any error of
   * an item, soft or fatal, ends the whole read.
   */
  function ManyUntilSpec<T>(c: Cursor, cond: Cursor -> bool, item: Parser<T>): (r: ParseResult<seq<T>>)
    requires Advances(item)
    ensures r.Ok? ==> cond(r.value.0) && Remaining(r.value.0) <= Remaining(c)
    ensures r.Err? ==> !cond(c)
    ensures cond(c) ==> r == Ok((c, []))
    ensures (!cond(c) && item(c).Err?) ==> r == Err(item(c).error)
    decreases Remaining(c)
  {
    if cond(c) then Ok((c, []))
    else
      match item(c)
      case Err(e) => Err(e)
      case Ok((next, value)) => PrependValues([value], ManyUntilSpec(next, cond, item))
  }

  method ManyUntil<T>(c: Cursor, cond: Cursor -> bool, item: Parser<T>) returns (r: ParseResult<seq<T>>)
    requires Advances(item)
    ensures r == ManyUntilSpec(c, cond, item)
  {
    var tokens := c;
    var values: seq<T> := [];
    PrependTwice([], [], ManyUntilSpec(c, cond, item));
    while !cond(tokens)
      invariant ManyUntilSpec(c, cond, item) == PrependValues(values, ManyUntilSpec(tokens, cond, item))
      decreases Remaining(tokens)
    {
      match item(tokens)
      case Err(e) =>
        return Err(e);
      case Ok((next, value)) =>
        PrependTwice(values, [value], ManyUntilSpec(next, cond, item));
        tokens := next;
        values := values + [value];
    }
    assert values + [] == values;
    return Ok((tokens, values));
  }

  /** `many_until_ended`: items until the list is ended, so a success reads every token. */
  method ManyUntilEnded<T>(c: Cursor, item: Parser<T>) returns (r: ParseResult<seq<T>>)
    requires Advances(item)
    ensures r == ManyUntilSpec(c, IsEnded, item)
    ensures r.Ok? ==> IsEnded(r.value.0)
    ensures IsEnded(c) ==> r == Ok((c, []))
  {
    r := ManyUntil(c, IsEnded, item);
  }
}

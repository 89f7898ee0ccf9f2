// Matching single terminal tokens, and compound operators written as adjacent terminals.
module TerminalParsers {
  import opened Wrappers
  import opened Tokens
  import opened Lexers
  import opened TokenLists
  import opened ParseErrors

  predicate IsTerminalOfType(token: Token, expected: TerminalToken) {
    token.ty == Terminal(expected)
  }

  /** Whether the item at the cursor is the given terminal. */
  predicate AtTerminal(c: Cursor, t: TerminalToken) {
    !IsEnded(c) && IsTerminalOfType(c.tokens[c.index].token, t)
  }

  /** The cursor stepped `n` items further along the same tokens. */
  predicate Advanced(c: Cursor, c': Cursor, n: nat) {
    c'.tokens == c.tokens && c'.index == c.index + n
  }

  /** Whether `b` starts exactly where `a` ends in the source text. */
  predicate Adjacent(a: Token, b: Token) {
    a.range.end == b.range.start
  }

  /**
   * The item at the cursor when it is the expected terminal, consuming it; otherwise a
   * non-fatal ExpectedTerminal at the cursor, consuming nothing.
   */
  function MatchTerminalItem(c: Cursor, t: TerminalToken): (r: ParseResult<TokenItem>)
    ensures r.Ok? <==> AtTerminal(c, t)
    ensures r.Ok? ==> Advanced(c, r.value.0, 1) && r.value.1 == c.tokens[c.index]
    ensures r.Err? ==> r.error == New(ExpectedTerminal(t), c.index, Inline)
  {
    match SplitFirst(c)
    case Some((rest, item)) =>
      if IsTerminalOfType(item.token, t) then Ok((rest, item))
      else Err(New(ExpectedTerminal(t), StartIndex(c), Inline))
    case None => Err(New(ExpectedTerminal(t), StartIndex(c), Inline))
  }

  function MatchTerminal(c: Cursor, t: TerminalToken): (r: ParseResult<Token>)
    ensures r.Ok? <==> AtTerminal(c, t)
    ensures r.Ok? ==> Advanced(c, r.value.0, 1) && r.value.1 == c.tokens[c.index].token
    ensures r.Err? ==> r.error == New(ExpectedTerminal(t), c.index, Inline)
  {
    match MatchTerminalItem(c, t)
    case Err(e) => Err(e)
    case Ok((rest, item)) => Ok((rest, item.token))
  }

  /**
   * Two terminals that touch in the source, as in `<<` lexed as `<` `<`. A missing terminal
   * gives its own error; two terminals with a gap between them give ExpectedCompound2 at
   * the original cursor.
   */
  function MatchTerminal2(c: Cursor, a: TerminalToken, b: TerminalToken): (r: ParseResult<(Token, Token)>)
    ensures r.Ok? <==>
      AtTerminal(c, a) && c.index + 1 < |c.tokens| && c.tokens[c.index + 1].token.ty == Terminal(b)
      && Adjacent(c.tokens[c.index].token, c.tokens[c.index + 1].token)
    ensures r.Ok? ==>
      (Advanced(c, r.value.0, 2) && r.value.1 == (c.tokens[c.index].token, c.tokens[c.index + 1].token))
    ensures r.Err? ==> !r.error.isFatal && r.error.context.None?
    ensures (r.Err? && AtTerminal(c, a) && c.index + 1 < |c.tokens|
      && c.tokens[c.index + 1].token.ty == Terminal(b)) ==>
      r.error == New(ExpectedCompound2(a, b), c.index, Inline)
  {
    var index := StartIndex(c);
    match MatchTerminal(c, a)
    case Err(e) => Err(e)
    case Ok((c1, tokenA)) =>
      match MatchTerminal(c1, b)
      case Err(e) => Err(e)
      case Ok((c2, tokenB)) =>
        if Adjacent(tokenA, tokenB) then Ok((c2, (tokenA, tokenB)))
        else Err(New(ExpectedCompound2(a, b), index, Inline))
  }

  /** Three terminals, each touching the next, as in `>>>`. */
  function MatchTerminal3(c: Cursor, a: TerminalToken, b: TerminalToken, t3: TerminalToken)
    : (r: ParseResult<(Token, Token, Token)>)
    ensures r.Ok? <==>
      AtTerminal(c, a) && c.index + 2 < |c.tokens|
      && c.tokens[c.index + 1].token.ty == Terminal(b) && c.tokens[c.index + 2].token.ty == Terminal(t3)
      && Adjacent(c.tokens[c.index].token, c.tokens[c.index + 1].token)
      && Adjacent(c.tokens[c.index + 1].token, c.tokens[c.index + 2].token)
    ensures r.Ok? ==> Advanced(c, r.value.0, 3)
    ensures r.Err? ==> !r.error.isFatal && r.error.context.None?
    ensures (r.Err? && AtTerminal(c, a) && c.index + 2 < |c.tokens|
      && c.tokens[c.index + 1].token.ty == Terminal(b) && c.tokens[c.index + 2].token.ty == Terminal(t3)) ==>
      r.error == New(ExpectedCompound3(a, b, t3), c.index, Inline)
  {
    var index := StartIndex(c);
    match MatchTerminal(c, a)
    case Err(e) => Err(e)
    case Ok((c1, tokenA)) =>
      match MatchTerminal(c1, b)
      case Err(e) => Err(e)
      case Ok((c2, tokenB)) =>
        match MatchTerminal(c2, t3)
        case Err(e) => Err(e)
        case Ok((c3, tokenC)) =>
          if Adjacent(tokenA, tokenB) && Adjacent(tokenB, tokenC) then Ok((c3, (tokenA, tokenB, tokenC)))
          else Err(New(ExpectedCompound3(a, b, t3), index, Inline))
  }

  /** At most one terminal matches at a cursor, so the order of single-terminal tries is free. */
  lemma TerminalsExclusive(c: Cursor, a: TerminalToken, b: TerminalToken)
    requires MatchTerminal(c, a).Ok? && MatchTerminal(c, b).Ok?
    ensures a == b
  {
  }

  /**
   * A compound match starts with a plain match of its first terminal, which a try of the
   * plain terminal placed first would take; so compounds must be tried before their prefixes.
   */
  lemma CompoundShadowedByPrefix(c: Cursor, a: TerminalToken, b: TerminalToken, t3: TerminalToken)
    ensures MatchTerminal2(c, a, b).Ok? ==>
      (MatchTerminal(c, a).Ok? && MatchTerminal(c, a).value.0.index < MatchTerminal2(c, a, b).value.0.index)
    ensures MatchTerminal3(c, a, b, t3).Ok? ==>
      (MatchTerminal2(c, a, b).Ok?
       && MatchTerminal2(c, a, b).value.0.index < MatchTerminal3(c, a, b, t3).value.0.index)
  {
  }
}

// The shared parsers of the older parser built on the `nom` combinator library: terminals,
// compound operators whose parts must touch, and lists whose items are separated either by a
// separator or by a line break.
module LegacyShared {
  import opened Wrappers
  import opened Tokens

  /** The older parser's token list: the tokens left, and how many came before them. */
  datatype Slice = Slice(tokens: seq<Token>, offset: nat)

  datatype LegacyErrorType =
    | ExpectedTerminal(terminal: TerminalToken)
    | ExpectedCompound2(first: TerminalToken, second: TerminalToken)
    | ExpectedCompound3(first: TerminalToken, second: TerminalToken, third: TerminalToken)

  datatype LegacyError = LegacyError(tokenOffset: nat, ty: LegacyErrorType)

  /**
   * `nom`'s three ways to fail: a recoverable error that lets an alternative be tried, a
   * failure that stops parsing, and a request for more input.
   */
  datatype NomError = Recoverable(error: LegacyError) | Failure(failure: LegacyError) | Incomplete(needed: nat)

  type LegacyResult<T> = Result<(Slice, T), NomError>

  type LegacyParser<T> = Slice -> LegacyResult<T>

  /** `take_split(n)`: the tokens after the first `n`, whose offset grows by `n`. */
  function Rest(s: Slice, n: nat): (r: Slice)
    requires n <= |s.tokens|
    ensures |r.tokens| == |s.tokens| - n && r.offset == s.offset + n
  {
    Slice(s.tokens[n..], s.offset + n)
  }

  /** Whether `later` is what is left of `s` after some of its first tokens were read. */
  ghost predicate Suffix(s: Slice, later: Slice) {
    s.offset <= later.offset <= s.offset + |s.tokens|
    && later.tokens == s.tokens[later.offset - s.offset..]
  }

  /** A parser that only ever returns what is left of its input. */
  ghost predicate Reads<T>(p: LegacyParser<T>) {
    forall s :: p(s).Ok? ==> Suffix(s, p(s).value.0)
  }

  /** A parser that reads at least one token whenever it succeeds. */
  ghost predicate Advances<T>(p: LegacyParser<T>) {
    Reads(p) && forall s :: p(s).Ok? ==> |p(s).value.0.tokens| < |s.tokens|
  }

  /** `consumed`: the tokens read between `s` and `later`, at the offset of `s`. */
  function Consumed(s: Slice, later: Slice): (r: Slice)
    requires Suffix(s, later)
    ensures r.tokens + later.tokens == s.tokens && r.offset == s.offset
  {
    Slice(s.tokens[..later.offset - s.offset], s.offset)
  }

  /** `end_of_line`: the last token of the list ends a line. */
  predicate EndOfLine(s: Slice) {
    |s.tokens| > 0 && s.tokens[|s.tokens| - 1].newLine.Some?
  }

  /**
   * `terminal`: the first token when it is the terminal; another token is a recoverable
   * error, and no token at all asks for one more.
   */
  function LegacyTerminal(s: Slice, t: TerminalToken): (r: LegacyResult<Token>)
    ensures r.Ok? <==> |s.tokens| > 0 && s.tokens[0].ty == Terminal(t)
    ensures r.Ok? ==> r.value == (Rest(s, 1), s.tokens[0])
    ensures |s.tokens| == 0 ==> r == Err(Incomplete(1))
    ensures |s.tokens| > 0 && !r.Ok? ==> r == Err(Recoverable(LegacyError(s.offset, ExpectedTerminal(t))))
  {
    if |s.tokens| == 0 then Err(Incomplete(1))
    else if s.tokens[0].ty == Terminal(t) then Ok((Rest(s, 1), s.tokens[0]))
    else Err(Recoverable(LegacyError(s.offset, ExpectedTerminal(t))))
  }

  /** Whether token `b` starts exactly where token `a` ends in the source text. */
  predicate Touch(a: Token, b: Token) {
    a.range.end == b.range.start
  }

  /**
   * `adjacent_2`: two terminals in a row that touch in the source; a gap between them is a
   * recoverable error at the start.
   */
  function Adjacent2(s: Slice, a: TerminalToken, b: TerminalToken): (r: LegacyResult<(Token, Token)>)
    ensures r.Ok? <==>
      |s.tokens| >= 2 && s.tokens[0].ty == Terminal(a) && s.tokens[1].ty == Terminal(b)
      && Touch(s.tokens[0], s.tokens[1])
    ensures r.Ok? ==> r.value == (Rest(s, 2), (s.tokens[0], s.tokens[1]))
    ensures |s.tokens| >= 2 && s.tokens[0].ty == Terminal(a) && s.tokens[1].ty == Terminal(b)
            && !Touch(s.tokens[0], s.tokens[1]) ==>
      r == Err(Recoverable(LegacyError(s.offset, ExpectedCompound2(a, b))))
  {
    match LegacyTerminal(s, a)
    case Err(e) => Err(e)
    case Ok((s1, tokenA)) =>
      match LegacyTerminal(s1, b)
      case Err(e) => Err(e)
      case Ok((s2, tokenB)) =>
        if !Touch(tokenA, tokenB) then Err(Recoverable(LegacyError(s.offset, ExpectedCompound2(a, b))))
        else Ok((s2, (tokenA, tokenB)))
  }

  /** `adjacent_3`: three terminals in a row, each touching the next. */
  function Adjacent3(s: Slice, a: TerminalToken, b: TerminalToken, c: TerminalToken)
    : (r: LegacyResult<(Token, Token, Token)>)
    ensures r.Ok? <==>
      |s.tokens| >= 3 && s.tokens[0].ty == Terminal(a) && s.tokens[1].ty == Terminal(b)
      && s.tokens[2].ty == Terminal(c) && Touch(s.tokens[0], s.tokens[1]) && Touch(s.tokens[1], s.tokens[2])
    ensures r.Ok? ==> r.value == (Rest(s, 3), (s.tokens[0], s.tokens[1], s.tokens[2]))
    ensures |s.tokens| >= 3 && s.tokens[0].ty == Terminal(a) && s.tokens[1].ty == Terminal(b)
            && s.tokens[2].ty == Terminal(c)
            && !(Touch(s.tokens[0], s.tokens[1]) && Touch(s.tokens[1], s.tokens[2])) ==>
      r == Err(Recoverable(LegacyError(s.offset, ExpectedCompound3(a, b, c))))
  {
    match LegacyTerminal(s, a)
    case Err(e) => Err(e)
    case Ok((s1, tokenA)) =>
      match LegacyTerminal(s1, b)
      case Err(e) => Err(e)
      case Ok((s2, tokenB)) =>
        match LegacyTerminal(s2, c)
        case Err(e) => Err(e)
        case Ok((s3, tokenC)) =>
          if !Touch(tokenA, tokenB) || !Touch(tokenB, tokenC) then
            Err(Recoverable(LegacyError(s.offset, ExpectedCompound3(a, b, c))))
          else Ok((s3, (tokenA, tokenB, tokenC)))
  }

  /**
   * The specification of `many_separated` from `s`, with `values` read so far: values until
   * the first recoverable error of the value parser; a value that ends a line, or the last
   * tokens, needs no separator, and a missing separator ends the list after that value.
   */
  function ManySeparatedSpec<V, S, O>(s: Slice, value: LegacyParser<V>, separator: LegacyParser<S>,
                                      mapper: (V, Option<S>) -> O, values: seq<O>)
    : (r: LegacyResult<seq<O>>)
    requires Advances(value) && Reads(separator)
    ensures r.Ok? ==> Suffix(s, r.value.0)
    ensures value(s).Err? && value(s).error.Recoverable? ==> r == Ok((s, values))
    decreases |s.tokens|
  {
    match value(s)
    case Err(e) => if e.Recoverable? then Ok((s, values)) else Err(e)
    case Ok((s1, v)) =>
      if |s1.tokens| == 0 || EndOfLine(Consumed(s, s1)) then
        if |s1.tokens| == 0 then Ok((s1, values + [mapper(v, None)]))
        else ManySeparatedSpec(s1, value, separator, mapper, values + [mapper(v, None)])
      else
        match separator(s1)
        case Ok((s2, sep)) => ManySeparatedSpec(s2, value, separator, mapper, values + [mapper(v, Some(sep))])
        case Err(e) => if e.Recoverable? then Ok((s1, values + [mapper(v, None)])) else Err(e)
  }

  /** The list only grows: the values read before stay, in order, at its front. */
  lemma {:induction false} ManySeparatedKeeps<V, S, O>(s: Slice, value: LegacyParser<V>, separator: LegacyParser<S>,
                                                       mapper: (V, Option<S>) -> O, values: seq<O>)
    requires Advances(value) && Reads(separator)
    requires ManySeparatedSpec(s, value, separator, mapper, values).Ok?
    ensures var vs := ManySeparatedSpec(s, value, separator, mapper, values).value.1;
      |vs| >= |values| && vs[..|values|] == values
    decreases |s.tokens|
  {
    match value(s)
    case Err(e) =>
    case Ok((s1, v)) =>
      var vs := ManySeparatedSpec(s, value, separator, mapper, values).value.1;
      if |s1.tokens| == 0 || EndOfLine(Consumed(s, s1)) {
        if |s1.tokens| > 0 {
          ManySeparatedKeeps(s1, value, separator, mapper, values + [mapper(v, None)]);
          assert vs[..|values|] == vs[..|values| + 1][..|values|];
        }
      } else {
        match separator(s1)
        case Ok((s2, sep)) =>
          ManySeparatedKeeps(s2, value, separator, mapper, values + [mapper(v, Some(sep))]);
          assert vs[..|values|] == vs[..|values| + 1][..|values|];
        case Err(e) =>
      }
  }

  /**
   * A value that ends a line is not followed by a separator: the list goes on with the
   * next value, and the separator parser is not asked.
   */
  lemma LineEndSeparates<V, S, O>(s: Slice, value: LegacyParser<V>, separator: LegacyParser<S>,
                                  mapper: (V, Option<S>) -> O, values: seq<O>)
    requires Advances(value) && Reads(separator)
    requires value(s).Ok? && |value(s).value.0.tokens| > 0 && EndOfLine(Consumed(s, value(s).value.0))
    ensures var (s1, v) := value(s).value;
      ManySeparatedSpec(s, value, separator, mapper, values)
        == ManySeparatedSpec(s1, value, separator, mapper, values + [mapper(v, None)])
  {
  }

  /** `many_separated`: the loop. */
  method ManySeparated<V, S, O>(s: Slice, value: LegacyParser<V>, separator: LegacyParser<S>,
                                mapper: (V, Option<S>) -> O)
    returns (r: LegacyResult<seq<O>>)
    requires Advances(value) && Reads(separator)
    ensures r == ManySeparatedSpec(s, value, separator, mapper, [])
  {
    var tokens := s;
    var values: seq<O> := [];
    while true
      invariant ManySeparatedSpec(s, value, separator, mapper, []) ==
        ManySeparatedSpec(tokens, value, separator, mapper, values)
      decreases |tokens.tokens|
    {
      var parsed := value(tokens);
      if parsed.Err? {
        if parsed.error.Recoverable? {
          break;
        }
        return Err(parsed.error);
      }
      var (next, v) := parsed.value;
      var consumed := Consumed(tokens, next);
      if |next.tokens| == 0 || EndOfLine(consumed) {
        values := values + [mapper(v, None)];
        tokens := next;
        if |next.tokens| == 0 {
          break;
        }
        continue;
      }
      var sep := separator(next);
      if sep.Err? {
        if sep.error.Recoverable? {
          values := values + [mapper(v, None)];
          tokens := next;
          break;
        }
        return Err(sep.error);
      }
      values := values + [mapper(v, Some(sep.value.1))];
      tokens := sep.value.0;
    }
    r := Ok((tokens, values));
  }

  /**
   * The specification of `many_separated_till`: the terminator is tried before each value
   * and again after a value that does not end a line; any error of the value or the
   * separator parser is returned.
   */
  function TillSpec<V, S, E, O>(s: Slice, value: LegacyParser<V>, separator: LegacyParser<S>,
                                terminator: LegacyParser<E>, mapper: (V, Option<S>) -> O, values: seq<O>)
    : (r: LegacyResult<(seq<O>, E)>)
    requires Advances(value) && Reads(separator) && Reads(terminator)
    ensures terminator(s).Ok? ==> r == Ok((terminator(s).value.0, (values, terminator(s).value.1)))
    ensures terminator(s).Err? && !terminator(s).error.Recoverable? ==> r == Err(terminator(s).error)
    ensures terminator(s).Err? && terminator(s).error.Recoverable? && value(s).Err? ==> r == Err(value(s).error)
    decreases |s.tokens|, 1
  {
    match terminator(s)
    case Ok((s1, end)) => Ok((s1, (values, end)))
    case Err(e) =>
      if !e.Recoverable? then Err(e)
      else
        match value(s)
        case Err(e) => Err(e)
        case Ok((s1, v)) =>
          if EndOfLine(Consumed(s, s1)) then TillSpec(s1, value, separator, terminator, mapper, values + [mapper(v, None)])
          else AfterValue(s1, v, value, separator, terminator, mapper, values)
  }

  /** The rest of a round of `many_separated_till` after a value that did not end a line. */
  function AfterValue<V, S, E, O>(s: Slice, v: V, value: LegacyParser<V>, separator: LegacyParser<S>,
                                  terminator: LegacyParser<E>, mapper: (V, Option<S>) -> O, values: seq<O>)
    : (r: LegacyResult<(seq<O>, E)>)
    requires Advances(value) && Reads(separator) && Reads(terminator)
    ensures terminator(s).Ok? ==> r == Ok((terminator(s).value.0, (values + [mapper(v, None)], terminator(s).value.1)))
    decreases |s.tokens| + 1, 0
  {
    match terminator(s)
    case Ok((s1, end)) => Ok((s1, (values + [mapper(v, None)], end)))
    case Err(e) =>
      if !e.Recoverable? then Err(e)
      else
        match separator(s)
        case Err(e) => Err(e)
        case Ok((s1, sep)) => TillSpec(s1, value, separator, terminator, mapper, values + [mapper(v, Some(sep))])
  }

  /**
   * A list read by `many_separated_till` ends only where the terminator parsed: its result
   * is the terminator's own result at some point after the start.
   */
  lemma {:induction false} TillEndsWithTerminator<V, S, E, O>(s: Slice, value: LegacyParser<V>, separator: LegacyParser<S>,
                                                              terminator: LegacyParser<E>, mapper: (V, Option<S>) -> O,
                                                              values: seq<O>)
    requires Advances(value) && Reads(separator) && Reads(terminator)
    requires TillSpec(s, value, separator, terminator, mapper, values).Ok?
    ensures var (rest, (_, end)) := TillSpec(s, value, separator, terminator, mapper, values).value;
      exists t :: Suffix(s, t) && terminator(t) == Ok((rest, end))
    decreases |s.tokens|, 1
  {
    var (rest, (_, end)) := TillSpec(s, value, separator, terminator, mapper, values).value;
    if terminator(s).Ok? {
      assert Suffix(s, s) && terminator(s) == Ok((rest, end));
    } else {
      var (s1, v) := value(s).value;
      if EndOfLine(Consumed(s, s1)) {
        TillEndsWithTerminator(s1, value, separator, terminator, mapper, values + [mapper(v, None)]);
        var t :| Suffix(s1, t) && terminator(t) == Ok((rest, end));
        SuffixTransitive(s, s1, t);
      } else {
        AfterValueEndsWithTerminator(s1, v, value, separator, terminator, mapper, values);
        var t :| Suffix(s1, t) && terminator(t) == Ok((rest, end));
        SuffixTransitive(s, s1, t);
      }
    }
  }

  lemma {:induction false} AfterValueEndsWithTerminator<V, S, E, O>(s: Slice, v: V, value: LegacyParser<V>,
                                                                    separator: LegacyParser<S>, terminator: LegacyParser<E>,
                                                                    mapper: (V, Option<S>) -> O, values: seq<O>)
    requires Advances(value) && Reads(separator) && Reads(terminator)
    requires AfterValue(s, v, value, separator, terminator, mapper, values).Ok?
    ensures var (rest, (_, end)) := AfterValue(s, v, value, separator, terminator, mapper, values).value;
      exists t :: Suffix(s, t) && terminator(t) == Ok((rest, end))
    decreases |s.tokens| + 1, 0
  {
    var (rest, (_, end)) := AfterValue(s, v, value, separator, terminator, mapper, values).value;
    if terminator(s).Ok? {
      assert Suffix(s, s) && terminator(s) == Ok((rest, end));
    } else {
      var (s1, sep) := separator(s).value;
      TillEndsWithTerminator(s1, value, separator, terminator, mapper, values + [mapper(v, Some(sep))]);
      var t :| Suffix(s1, t) && terminator(t) == Ok((rest, end));
      SuffixTransitive(s, s1, t);
    }
  }

  lemma SuffixTransitive(a: Slice, b: Slice, c: Slice)
    requires Suffix(a, b) && Suffix(b, c)
    ensures Suffix(a, c)
  {
    assert c.tokens == a.tokens[b.offset - a.offset..][c.offset - b.offset..];
  }

  /** `many_separated_till`: the loop. */
  method ManySeparatedTill<V, S, E, O>(s: Slice, value: LegacyParser<V>, separator: LegacyParser<S>,
                                       terminator: LegacyParser<E>, mapper: (V, Option<S>) -> O)
    returns (r: LegacyResult<(seq<O>, E)>)
    requires Advances(value) && Reads(separator) && Reads(terminator)
    ensures r == TillSpec(s, value, separator, terminator, mapper, [])
  {
    var tokens := s;
    var values: seq<O> := [];
    while true
      invariant TillSpec(s, value, separator, terminator, mapper, []) ==
        TillSpec(tokens, value, separator, terminator, mapper, values)
      decreases |tokens.tokens|
    {
      var ended := terminator(tokens);
      if ended.Ok? {
        return Ok((ended.value.0, (values, ended.value.1)));
      } else if !ended.error.Recoverable? {
        return Err(ended.error);
      }
      var parsed := value(tokens);
      if parsed.Err? {
        return Err(parsed.error);
      }
      var (next, v) := parsed.value;
      if EndOfLine(Consumed(tokens, next)) {
        values := values + [mapper(v, None)];
        tokens := next;
        continue;
      }
      ended := terminator(next);
      if ended.Ok? {
        return Ok((ended.value.0, (values + [mapper(v, None)], ended.value.1)));
      } else if !ended.error.Recoverable? {
        return Err(ended.error);
      }
      var sep := separator(next);
      if sep.Err? {
        return Err(sep.error);
      }
      values := values + [mapper(v, Some(sep.value.1))];
      tokens := sep.value.0;
    }
  }
}

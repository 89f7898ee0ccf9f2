// Repetition: any number of items, and lists of items with separators between them.
module ListParsers {
  import opened Wrappers
  import opened Tokens
  import opened TokenLists
  import opened ParseErrors
  import opened Combinators
  import opened SeparatedLists

  /** Puts `vs` in front of the values of a successful result. */
  function PrependValues<T>(vs: seq<T>, r: ParseResult<seq<T>>): (r': ParseResult<seq<T>>)
    ensures r'.Ok? <==> r.Ok?
    ensures r.Ok? ==> r'.value == (r.value.0, vs + r.value.1)
    ensures r.Err? ==> r'.error == r.error
  {
    match r
    case Ok((c, ws)) => Ok((c, vs + ws))
    case Err(e) => Err(e)
  }

  lemma PrependTwice<T>(vs: seq<T>, ws: seq<T>, r: ParseResult<seq<T>>)
    ensures PrependValues(vs, PrependValues(ws, r)) == PrependValues(vs + ws, r)
    ensures PrependValues([], r) == r
  {
    if r.Ok? {
      assert vs + (ws + r.value.1) == (vs + ws) + r.value.1;
      assert [] + r.value.1 == r.value.1;
    }
  }

  /** `many`: items until the first soft failure, which reads nothing; fatal errors propagate. */
  function ManySpec<T>(c: Cursor, item: Parser<T>): ParseResult<seq<T>>
    requires Advances(item)
    decreases Remaining(c)
  {
    match item(c)
    case Ok((c1, v)) => PrependValues([v], ManySpec(c1, item))
    case Err(e) => if e.isFatal then Err(e) else Ok((c, []))
  }

  /**
   * `many` stops only where the item parser fails softly and returns the tokens at that
   * point; an error it returns is fatal.
   */
  lemma {:induction false} ManyStopsAtSoftFailure<T>(c: Cursor, item: Parser<T>)
    requires Advances(item)
    ensures var r := ManySpec(c, item);
      && (r.Ok? ==> SoftFailure(item(r.value.0)) && Remaining(r.value.0) <= Remaining(c))
      && (r.Err? ==> r.error.isFatal)
      && (SoftFailure(item(c)) ==> r == Ok((c, [])))
    decreases Remaining(c)
  {
    match item(c)
    case Ok((c1, v)) =>
      ManyStopsAtSoftFailure(c1, item);
    case Err(e) =>
  }

  method Many<T>(c: Cursor, item: Parser<T>) returns (r: ParseResult<seq<T>>)
    requires Advances(item)
    ensures r == ManySpec(c, item)
  {
    var tokens := c;
    var values: seq<T> := [];
    PrependTwice(values, values, ManySpec(tokens, item));
    while true
      invariant ManySpec(c, item) == PrependValues(values, ManySpec(tokens, item))
      decreases Remaining(tokens)
    {
      match item(tokens)
      case Ok((next, value)) =>
        PrependTwice(values, [value], ManySpec(next, item));
        tokens := next;
        values := values + [value];
      case Err(e) =>
        if e.isFatal {
          return Err(e);
        }
        assert values + [] == values;
        return Ok((tokens, values));
    }
  }

  /** The (separator, item) pairs after the first item of a `separated_list1`. */
  function SeparatedTail<T>(c: Cursor, item: Parser<T>, separator: Parser<Token>): ParseResult<seq<(Token, T)>>
    requires Advances(item) && Advances(separator)
    decreases Remaining(c)
  {
    match separator(c)
    case Err(e) => if e.isFatal then Err(e) else Ok((c, []))
    case Ok((c1, s)) =>
      match item(c1)
      case Err(e) => Err(e)
      case Ok((c2, v)) => PrependValues([(s, v)], SeparatedTail(c2, item, separator))
  }

  /** Pushes the pairs of a successful result onto `list`. */
  function PushResult<T>(list: SeparatedList1<T>, r: ParseResult<seq<(Token, T)>>): ParseResult<SeparatedList1<T>> {
    match r
    case Ok((c, pairs)) => Ok((c, PushAll(list, pairs)))
    case Err(e) => Err(e)
  }

  function SeparatedList1Spec<T>(c: Cursor, item: Parser<T>, separator: Parser<Token>)
    : ParseResult<SeparatedList1<T>>
    requires Advances(item) && Advances(separator)
  {
    match item(c)
    case Err(e) => Err(e)
    case Ok((c1, first)) => PushResult(Single(first), SeparatedTail(c1, item, separator))
  }

  /**
   * A `separated_list1` ends cleanly only where no separator follows; an item missing after a
   * separator is an error even when the item parser fails softly.
   */
  lemma {:induction false} SeparatedTailEnds<T>(c: Cursor, item: Parser<T>, separator: Parser<Token>)
    requires Advances(item) && Advances(separator)
    ensures var r := SeparatedTail(c, item, separator);
      && (r.Ok? ==> SoftFailure(separator(r.value.0)))
      && (separator(c).Ok? && item(separator(c).value.0).Err? ==> r == Err(item(separator(c).value.0).error))
    decreases Remaining(c)
  {
    match separator(c)
    case Err(e) =>
    case Ok((c1, s)) =>
      match item(c1)
      case Err(e) =>
      case Ok((c2, v)) =>
        SeparatedTailEnds(c2, item, separator);
  }

  /** The values of a `separated_list1`: the first item, then the item after each separator. */
  lemma SeparatedList1Values<T>(c: Cursor, item: Parser<T>, separator: Parser<Token>)
    requires Advances(item) && Advances(separator)
    requires SeparatedList1Spec(c, item, separator).Ok?
    ensures var list := SeparatedList1Spec(c, item, separator).value.1;
      var pairs := SeparatedTail(item(c).value.0, item, separator).value.1;
      && Values(list) == [item(c).value.1] + Seconds(pairs)
      && Separators(list) == Firsts(pairs)
  {
    var first := item(c).value.1;
    var pairs := SeparatedTail(item(c).value.0, item, separator).value.1;
    PushAllAppends(Single(first), pairs);
    assert Values(Single(first)) == [first];
    assert Separators(Single(first)) == [];
  }

  method SeparatedList1<T>(c: Cursor, item: Parser<T>, separator: Parser<Token>)
    returns (r: ParseResult<SeparatedList1<T>>)
    requires Advances(item) && Advances(separator)
    ensures r == SeparatedList1Spec(c, item, separator)
  {
    var tokens: Cursor;
    var first: T;
    match item(c) {
      case Err(e) =>
        return Err(e);
      case Ok((c1, v)) =>
        tokens, first := c1, v;
    }
    var list := new ListBuilder(first);
    while true
      invariant SeparatedList1Spec(c, item, separator) == PushResult(list.Value(), SeparatedTail(tokens, item, separator))
      decreases Remaining(tokens)
    {
      match separator(tokens) {
        case Err(e) =>
          if e.isFatal {
            return Err(e);
          }
          return Ok((tokens, list.Value()));
        case Ok((next, sep)) =>
          match item(next) {
            case Err(e) =>
              return Err(e);
            case Ok((after, value)) =>
              tokens := after;
              list.Push(sep, value);
          }
      }
    }
  }

  /** The pairs after the first item of a `separated_list_trailing1`, and its trailing separator. */
  function TrailingTail<T>(c: Cursor, item: Parser<T>, separator: Parser<Token>)
    : ParseResult<(seq<(Token, T)>, Option<Token>)>
    requires Advances(item) && Advances(separator)
    decreases Remaining(c)
  {
    match separator(c)
    case Err(e) => if e.isFatal then Err(e) else Ok((c, ([], None)))
    case Ok((c1, s)) =>
      match item(c1)
      case Err(e) => if e.isFatal then Err(e) else Ok((c1, ([], Some(s))))
      case Ok((c2, v)) =>
        match TrailingTail(c2, item, separator)
        case Err(e) => Err(e)
        case Ok((c3, (pairs, trailing))) => Ok((c3, ([(s, v)] + pairs, trailing)))
  }

  function FinishTrailing<T>(list: SeparatedList1<T>, r: ParseResult<(seq<(Token, T)>, Option<Token>)>)
    : ParseResult<SeparatedListTrailing1<T>>
  {
    match r
    case Ok((c, (pairs, trailing))) => Ok((c, IntoTrailing(PushAll(list, pairs), trailing)))
    case Err(e) => Err(e)
  }

  function SeparatedListTrailing1InitSpec<T>(c: Cursor, first: T, item: Parser<T>, separator: Parser<Token>)
    : ParseResult<SeparatedListTrailing1<T>>
    requires Advances(item) && Advances(separator)
  {
    FinishTrailing(Single(first), TrailingTail(c, item, separator))
  }

  function SeparatedListTrailing1Spec<T>(c: Cursor, item: Parser<T>, separator: Parser<Token>)
    : ParseResult<SeparatedListTrailing1<T>>
    requires Advances(item) && Advances(separator)
  {
    match item(c)
    case Err(e) => Err(e)
    case Ok((c1, first)) => SeparatedListTrailing1InitSpec(c1, first, item, separator)
  }

  function SeparatedListTrailing0Spec<T>(c: Cursor, item: Parser<T>, separator: Parser<Token>)
    : ParseResult<SeparatedListTrailing0<T>>
    requires Advances(item) && Advances(separator)
  {
    Opt(c, SeparatedListTrailing1Spec(c, item, separator))
  }

  /**
   * After the first item nothing fails softly: the list ends where no separator follows, or
   * after a separator with no item, which becomes the trailing separator; the tokens
   * returned are then those just after that separator.
   */
  lemma {:induction false} TrailingTailEnds<T>(c: Cursor, item: Parser<T>, separator: Parser<Token>)
    requires Advances(item) && Advances(separator)
    ensures var r := TrailingTail(c, item, separator);
      && (r.Err? ==> r.error.isFatal)
      && (r.Ok? && r.value.1.1.None? ==> SoftFailure(separator(r.value.0)))
      && (r.Ok? && r.value.1.1.Some? ==> SoftFailure(item(r.value.0)) && Remaining(r.value.0) < Remaining(c))
    decreases Remaining(c)
  {
    match separator(c)
    case Err(e) =>
    case Ok((c1, s)) =>
      match item(c1)
      case Err(e) =>
      case Ok((c2, v)) =>
        TrailingTailEnds(c2, item, separator);
  }

  /** `separated_list_trailing0` is absent exactly when the first item fails softly. */
  lemma SeparatedListTrailing0Absent<T>(c: Cursor, item: Parser<T>, separator: Parser<Token>)
    requires Advances(item) && Advances(separator)
    ensures var r := SeparatedListTrailing0Spec(c, item, separator);
      && (r.Ok? && r.value.1.None? <==> SoftFailure(item(c)))
      && (r.Ok? && r.value.1.None? ==> r.value.0 == c)
      && (r.Err? ==> r.error.isFatal)
  {
    if item(c).Ok? {
      TrailingTailEnds(item(c).value.0, item, separator);
    }
  }

  /** The loop of `separated_list_trailing1`, from a first item already read. */
  method SeparatedListTrailing1Init<T>(c: Cursor, first: T, item: Parser<T>, separator: Parser<Token>)
    returns (r: ParseResult<SeparatedListTrailing1<T>>)
    requires Advances(item) && Advances(separator)
    ensures r == SeparatedListTrailing1InitSpec(c, first, item, separator)
  {
    var tokens := c;
    var list := new ListBuilder(first);
    while true
      invariant SeparatedListTrailing1InitSpec(c, first, item, separator)
        == FinishTrailing(list.Value(), TrailingTail(tokens, item, separator))
      decreases Remaining(tokens)
    {
      match separator(tokens) {
        case Err(e) =>
          if e.isFatal {
            return Err(e);
          }
          return Ok((tokens, IntoTrailing(list.Value(), None)));
        case Ok((next, sep)) =>
          match item(next) {
            case Err(e) =>
              if e.isFatal {
                return Err(e);
              }
              return Ok((next, IntoTrailing(list.Value(), Some(sep))));
            case Ok((after, value)) =>
              tokens := after;
              list.Push(sep, value);
          }
      }
    }
  }

  method SeparatedListTrailing1<T>(c: Cursor, item: Parser<T>, separator: Parser<Token>)
    returns (r: ParseResult<SeparatedListTrailing1<T>>)
    requires Advances(item) && Advances(separator)
    ensures r == SeparatedListTrailing1Spec(c, item, separator)
  {
    match item(c) {
      case Err(e) =>
        return Err(e);
      case Ok((c1, first)) =>
        r := SeparatedListTrailing1Init(c1, first, item, separator);
    }
  }

  method SeparatedListTrailing0<T>(c: Cursor, item: Parser<T>, separator: Parser<Token>)
    returns (r: ParseResult<SeparatedListTrailing0<T>>)
    requires Advances(item) && Advances(separator)
    ensures r == SeparatedListTrailing0Spec(c, item, separator)
  {
    var list := SeparatedListTrailing1(c, item, separator);
    r := Opt(c, list);
  }
}

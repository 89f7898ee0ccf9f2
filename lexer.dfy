// Tokenizing a whole source text: the token stream of `TokenIter`, with every opening
// bracket linked to the token that closes it.
module Lexers {
  import opened Wrappers
  import opened Tokens
  import opened LexerErrors
  import opened Literals
  import opened TokenIters
  import opened ParseStrs

  /** A token of the stream; an opener that was closed records the index of its closer. */
  datatype TokenItem = TokenItem(token: Token, closeIndex: Option<nat>)

  /** An opener still waiting for its closer: where it is and what closes it. */
  datatype Layer = Layer(openIndex: nat, closeTy: TokenType)

  /** The token that closes a tree opened by `opening`, if `opening` opens one. */
  function ClosingToken(opening: TokenType): (r: Option<TokenType>)
    ensures r.Some? ==> opening.Terminal? && r.value.Terminal?
  {
    match opening
    case Terminal(OpenBrace) => Some(Terminal(CloseBrace))
    case Terminal(OpenSquare) => Some(Terminal(CloseSquare))
    case Terminal(OpenBracket) => Some(Terminal(CloseBracket))
    case Terminal(OpenAttributes) => Some(Terminal(CloseAttributes))
    case _ => None
  }

  predicate IsOpener(ty: TokenType) {
    ClosingToken(ty).Some?
  }

  /** A closer never opens a tree itself, and different openers have different closers. */
  lemma ClosersAreNotOpeners(a: TokenType, b: TokenType)
    ensures ClosingToken(a).Some? ==> !IsOpener(ClosingToken(a).value)
    ensures ClosingToken(a).Some? && ClosingToken(a) == ClosingToken(b) ==> a == b
  {
  }

  /** The four openers and their closers, as the source lists them. */
  lemma ClosingTokenPairs(ty: TokenType)
    ensures ClosingToken(ty) == Some(Terminal(CloseBrace)) <==> ty == Terminal(OpenBrace)
    ensures ClosingToken(ty) == Some(Terminal(CloseSquare)) <==> ty == Terminal(OpenSquare)
    ensures ClosingToken(ty) == Some(Terminal(CloseBracket)) <==> ty == Terminal(OpenBracket)
    ensures ClosingToken(ty) == Some(Terminal(CloseAttributes)) <==> ty == Terminal(OpenAttributes)
    ensures IsOpener(ty) <==> ty in {Terminal(OpenBrace), Terminal(OpenSquare), Terminal(OpenBracket), Terminal(OpenAttributes)}
  {
  }

  /** Every layer points at an item. */
  predicate LayersInRange(items: seq<TokenItem>, layers: seq<Layer>) {
    forall t :: 0 <= t < |layers| ==> layers[t].openIndex < |items|
  }

  /**
   * One round of the loop of `tokenize` on the token at index |items|: a token equal to
   * the top layer's closer closes that opener and pops it (only the top layer is looked
   * at); an opener then pushes a layer; the token is appended, not yet closed.
   */
  function Step(items: seq<TokenItem>, layers: seq<Layer>, token: Token): (r: (seq<TokenItem>, seq<Layer>))
    requires LayersInRange(items, layers)
    ensures LayersInRange(r.0, r.1) && |r.0| == |items| + 1
    ensures forall i :: 0 <= i < |items| ==> r.0[i].token == items[i].token
    ensures r.0[|items|] == TokenItem(token, None)
  {
    var index := |items|;
    var (items1, layers1) :=
      if |layers| > 0 && layers[|layers| - 1].closeTy == token.ty then
        var open := layers[|layers| - 1].openIndex;
        (items[open := items[open].(closeIndex := Some(index))], layers[..|layers| - 1])
      else (items, layers);
    var layers2 := match ClosingToken(token.ty)
      case Some(closeTy) => layers1 + [Layer(index, closeTy)]
      case None => layers1;
    (items1 + [TokenItem(token, None)], layers2)
  }

  /** The items and layers after the loop has seen `tokens`. */
  function MatchAll(tokens: seq<Token>): (r: (seq<TokenItem>, seq<Layer>))
    ensures LayersInRange(r.0, r.1)
    ensures Carries(r.0, tokens)
  {
    if tokens == [] then ([], [])
    else
      var (items, layers) := MatchAll(tokens[..|tokens| - 1]);
      Step(items, layers, tokens[|tokens| - 1])
  }

  /** What `tokenize` returns once every token is seen: the items, or the top layer's opener as unmatched. */
  function Finish(items: seq<TokenItem>, layers: seq<Layer>): Result<seq<TokenItem>, LexerError>
    requires LayersInRange(items, layers)
  {
    if layers == [] then Ok(items)
    else
      var layer := layers[|layers| - 1];
      var open := items[layer.openIndex].token;
      Err(LexerError(UnmatchedOpener(open.ty, layer.closeTy), open.range))
  }

  /** Each layer's opener is an unclosed opener, and its layer holds that opener's closer. */
  ghost predicate LayersOpen(items: seq<TokenItem>, layers: seq<Layer>) {
    forall t :: 0 <= t < |layers| ==>
      && layers[t].openIndex < |items|
      && items[layers[t].openIndex].closeIndex.None?
      && ClosingToken(items[layers[t].openIndex].token.ty) == Some(layers[t].closeTy)
  }

  /** The layers are stacked in source order. */
  ghost predicate LayersIncreasing(layers: seq<Layer>) {
    forall t, u :: 0 <= t < u < |layers| ==> layers[t].openIndex < layers[u].openIndex
  }

  /** Every opener not closed yet has a layer. */
  ghost predicate UnclosedInLayers(items: seq<TokenItem>, layers: seq<Layer>) {
    forall i :: 0 <= i < |items| && IsOpener(items[i].token.ty) && items[i].closeIndex.None? ==>
      exists t :: 0 <= t < |layers| && layers[t].openIndex == i
  }

  /** Only openers are closed, each by a later token of its closing type. */
  ghost predicate ClosedForward(items: seq<TokenItem>) {
    forall i :: 0 <= i < |items| && items[i].closeIndex.Some? ==>
      && IsOpener(items[i].token.ty)
      && i < items[i].closeIndex.value < |items|
      && ClosingToken(items[i].token.ty) == Some(items[items[i].closeIndex.value].token.ty)
  }

  /** Every opener strictly inside a closed pair is closed inside it. */
  ghost predicate ClosedNest(items: seq<TokenItem>) {
    forall i, k ::
      (0 <= i < k < |items| && items[i].closeIndex.Some? && k < items[i].closeIndex.value
        && IsOpener(items[k].token.ty)) ==>
      items[k].closeIndex.Some? && items[k].closeIndex.value < items[i].closeIndex.value
  }

  /**
   * The bracket structure the loop keeps: the layers are the unclosed openers, bottom to
   * top; each closed opener points forward to its closer; and every opener inside a
   * closed pair is closed inside it.
   */
  ghost predicate Nested(items: seq<TokenItem>, layers: seq<Layer>) {
    && LayersOpen(items, layers)
    && LayersIncreasing(layers)
    && UnclosedInLayers(items, layers)
    && ClosedForward(items)
    && ClosedNest(items)
  }

  /** The tokens of the items, in order. */
  predicate Carries(items: seq<TokenItem>, tokens: seq<Token>) {
    |items| == |tokens| && forall i :: 0 <= i < |items| ==> items[i].token == tokens[i]
  }

  /** A round whose token does not close the top layer keeps the structure. */
  lemma AppendKeepsNested(items: seq<TokenItem>, layers: seq<Layer>, token: Token)
    requires Nested(items, layers)
    ensures var n := |items|;
      var layers' := if IsOpener(token.ty) then layers + [Layer(n, ClosingToken(token.ty).value)] else layers;
      Nested(items + [TokenItem(token, None)], layers')
  {
    var n := |items|;
    var items' := items + [TokenItem(token, None)];
    var layers' := if IsOpener(token.ty) then layers + [Layer(n, ClosingToken(token.ty).value)] else layers;
    assert forall i :: 0 <= i < n ==> items'[i] == items[i];
    assert LayersOpen(items', layers') by {
      forall t | 0 <= t < |layers'|
        ensures layers'[t].openIndex < |items'| && items'[layers'[t].openIndex].closeIndex.None?
          && ClosingToken(items'[layers'[t].openIndex].token.ty) == Some(layers'[t].closeTy)
      {
        if t < |layers| {
          assert layers'[t] == layers[t];
        }
      }
    }
    assert UnclosedInLayers(items', layers') by {
      forall i | 0 <= i < |items'| && IsOpener(items'[i].token.ty) && items'[i].closeIndex.None?
        ensures exists t :: 0 <= t < |layers'| && layers'[t].openIndex == i
      {
        if i < n {
          var t :| 0 <= t < |layers| && layers[t].openIndex == i;
          assert layers'[t] == layers[t];
        } else {
          assert layers'[|layers|].openIndex == i;
        }
      }
    }
  }

  /** A round whose token closes the top layer's opener keeps the structure. */
  lemma CloseKeepsNested(items: seq<TokenItem>, layers: seq<Layer>, token: Token)
    requires Nested(items, layers)
    requires |layers| > 0 && layers[|layers| - 1].closeTy == token.ty
    ensures var n := |items|;
      var open := layers[|layers| - 1].openIndex;
      Nested(items[open := items[open].(closeIndex := Some(n))] + [TokenItem(token, None)], layers[..|layers| - 1])
  {
    var n := |items|;
    var top := |layers| - 1;
    var open := layers[top].openIndex;
    var items' := items[open := items[open].(closeIndex := Some(n))] + [TokenItem(token, None)];
    var layers' := layers[..top];
    ClosersAreNotOpeners(items[open].token.ty, token.ty);
    assert !IsOpener(token.ty);
    assert forall i :: 0 <= i < n && i != open ==> items'[i] == items[i];
    assert items'[open].token == items[open].token;
    assert LayersOpen(items', layers') by {
      forall t | 0 <= t < |layers'|
        ensures layers'[t].openIndex < |items'| && items'[layers'[t].openIndex].closeIndex.None?
          && ClosingToken(items'[layers'[t].openIndex].token.ty) == Some(layers'[t].closeTy)
      {
        assert layers'[t] == layers[t] && layers[t].openIndex < open;
      }
    }
    assert UnclosedInLayers(items', layers') by {
      forall i | 0 <= i < |items'| && IsOpener(items'[i].token.ty) && items'[i].closeIndex.None?
        ensures exists t :: 0 <= t < |layers'| && layers'[t].openIndex == i
      {
        assert i < n && i != open && items'[i] == items[i];
        var t :| 0 <= t < |layers| && layers[t].openIndex == i;
        assert t != top && layers'[t] == layers[t];
      }
    }
    assert ClosedForward(items') by {
      forall i | 0 <= i < |items'| && items'[i].closeIndex.Some?
        ensures && IsOpener(items'[i].token.ty)
          && i < items'[i].closeIndex.value < |items'|
          && ClosingToken(items'[i].token.ty) == Some(items'[items'[i].closeIndex.value].token.ty)
      {
        if i != open {
          assert i < n && items'[i] == items[i];
          var m := items[i].closeIndex.value;
          assert items'[m].token == items[m].token;
        }
      }
    }
    assert ClosedNest(items') by {
      forall i, k | 0 <= i < k < |items'| && items'[i].closeIndex.Some? && k < items'[i].closeIndex.value
          && IsOpener(items'[k].token.ty)
        ensures items'[k].closeIndex.Some? && items'[k].closeIndex.value < items'[i].closeIndex.value
      {
        if i == open {
          assert k < n && k != open && items'[k] == items[k];
        } else {
          assert i < n && items'[i] == items[i];
          assert k != open;
          assert items'[k] == items[k];
        }
      }
    }
  }

  lemma StepKeepsNested(items: seq<TokenItem>, layers: seq<Layer>, token: Token)
    requires Nested(items, layers)
    ensures LayersInRange(items, layers)
    ensures var (items', layers') := Step(items, layers, token); Nested(items', layers')
  {
    var n := |items|;
    if |layers| > 0 && layers[|layers| - 1].closeTy == token.ty {
      var open := layers[|layers| - 1].openIndex;
      ClosersAreNotOpeners(items[open].token.ty, token.ty);
      assert !IsOpener(token.ty);
      assert Step(items, layers, token)
        == (items[open := items[open].(closeIndex := Some(n))] + [TokenItem(token, None)], layers[..|layers| - 1]);
      CloseKeepsNested(items, layers, token);
    } else {
      assert Step(items, layers, token) == (items + [TokenItem(token, None)],
        if IsOpener(token.ty) then layers + [Layer(n, ClosingToken(token.ty).value)] else layers);
      AppendKeepsNested(items, layers, token);
    }
  }

  /** The loop keeps its structure and its items in token order, whatever the tokens. */
  lemma {:induction false} MatchAllNested(tokens: seq<Token>)
    ensures Nested(MatchAll(tokens).0, MatchAll(tokens).1)
  {
    if tokens != [] {
      var init := tokens[..|tokens| - 1];
      MatchAllNested(init);
      StepKeepsNested(MatchAll(init).0, MatchAll(init).1, tokens[|tokens| - 1]);
    }
  }

  /** Every token of the stream, in order; the first error ends the stream. */
  function Stream(s: IterState, flavor: Flavor, parseInt: IntParser, parseFloat: FloatParser)
    : Result<seq<Token>, LexerError>
    requires IntParserWellBehaved(parseInt) && FloatParserWellBehaved(parseFloat)
    decreases Measure(s)
  {
    var (next, out) := NextSpec(s, flavor, parseInt, parseFloat);
    match out
    case None => Ok([])
    case Some(Err(e)) => Err(e)
    case Some(Ok(token)) =>
      NextSpecLowersMeasure(s, flavor, parseInt, parseFloat);
      Prepend([token], Stream(next, flavor, parseInt, parseFloat))
  }

  function Prepend(tokens: seq<Token>, rest: Result<seq<Token>, LexerError>): Result<seq<Token>, LexerError> {
    match rest
    case Ok(more) => Ok(tokens + more)
    case Err(e) => Err(e)
  }

  lemma PrependNothing(rest: Result<seq<Token>, LexerError>)
    ensures Prepend([], rest) == rest
  {
    if rest.Ok? {
      assert [] + rest.value == rest.value;
    }
  }

  /** Every token of a stream from a coherent state is well shaped for the end of input. */
  lemma {:induction false} StreamWellShaped(s: IterState, flavor: Flavor, parseInt: IntParser, parseFloat: FloatParser)
    requires IntParserWellBehaved(parseInt) && FloatParserWellBehaved(parseFloat)
    requires Coherent(s)
    ensures var r := Stream(s, flavor, parseInt, parseFloat);
      r.Ok? ==> forall i :: 0 <= i < |r.value| ==> WellShaped(r.value[i], EndOffset(s.val))
    decreases Measure(s)
  {
    var (next, out) := NextSpec(s, flavor, parseInt, parseFloat);
    if out.Some? && out.value.Ok? {
      NextSpecLowersMeasure(s, flavor, parseInt, parseFloat);
      NextSpecCoherent(s, flavor, parseInt, parseFloat);
      NextSpecMovesRight(s, flavor, parseInt, parseFloat);
      StreamWellShaped(next, flavor, parseInt, parseFloat);
    }
  }

  /** What a stream's step means for the whole stream. */
  lemma StreamUnfold(s: IterState, flavor: Flavor, parseInt: IntParser, parseFloat: FloatParser)
    requires IntParserWellBehaved(parseInt) && FloatParserWellBehaved(parseFloat)
    ensures var (next, out) := NextSpec(s, flavor, parseInt, parseFloat);
      && (out.None? ==> Stream(s, flavor, parseInt, parseFloat) == Ok([]))
      && (out.Some? && out.value.Err? ==> Stream(s, flavor, parseInt, parseFloat) == Err(out.value.error))
      && (out.Some? && out.value.Ok? ==>
            Stream(s, flavor, parseInt, parseFloat) == Prepend([out.value.value], Stream(next, flavor, parseInt, parseFloat)))
  {
  }

  /** The bracket matching of `tokenize` over a whole stream. */
  function Match(tokens: seq<Token>): Result<seq<TokenItem>, LexerError> {
    var (items, layers) := MatchAll(tokens);
    Finish(items, layers)
  }

  /** `tokenize` as a function of the text. */
  function Tokenized(text: string, flavor: Flavor, parseInt: IntParser, parseFloat: FloatParser)
    : Result<seq<TokenItem>, LexerError>
    requires IntParserWellBehaved(parseInt) && FloatParserWellBehaved(parseFloat)
  {
    match Stream(Start(text), flavor, parseInt, parseFloat)
    case Err(e) => Err(e)
    case Ok(tokens) => Match(tokens)
  }

  /**
   * A successful matching lists the tokens in order; every opener is closed, by a later
   * token of its closing type; and the pairs nest.
   */
  lemma MatchOk(tokens: seq<Token>)
    requires Match(tokens).Ok?
    ensures var items := Match(tokens).value;
      && Carries(items, tokens)
      && (forall i :: 0 <= i < |items| ==> (IsOpener(items[i].token.ty) <==> items[i].closeIndex.Some?))
      && ClosedForward(items)
      && ClosedNest(items)
  {
    MatchAllNested(tokens);
  }

  /** The opener a failed matching reports: the one on the top layer. */
  function ReportedOpener(tokens: seq<Token>): nat
    requires Match(tokens).Err?
  {
    var layers := MatchAll(tokens).1;
    layers[|layers| - 1].openIndex
  }

  /**
   * An unclosed opener makes the matching fail with UnmatchedOpener at the last unclosed
   * opener, the one every later opener is closed after.
   */
  lemma {:induction false} MatchUnmatched(tokens: seq<Token>)
    requires Match(tokens).Err?
    ensures var k := ReportedOpener(tokens);
      var items := MatchAll(tokens).0;
      && k < |tokens| && IsOpener(tokens[k].ty)
      && Match(tokens).error
         == LexerError(UnmatchedOpener(tokens[k].ty, ClosingToken(tokens[k].ty).value), tokens[k].range)
      && items[k].closeIndex.None?
      && (forall j :: k < j < |tokens| && IsOpener(tokens[j].ty) ==> items[j].closeIndex.Some?)
  {
    MatchAllNested(tokens);
    var items := MatchAll(tokens).0;
    var k := ReportedOpener(tokens);
    assert items[k].token == tokens[k];
    forall j | k < j < |tokens| && IsOpener(tokens[j].ty)
      ensures items[j].closeIndex.Some?
    {
      assert items[j].token == tokens[j];
    }
  }

  /** One round of the loop of `tokenize`: close the top layer if the token closes it, then push an opener. */
  method Place(items: seq<TokenItem>, layers: seq<Layer>, token: Token)
    returns (items': seq<TokenItem>, layers': seq<Layer>)
    requires LayersInRange(items, layers)
    ensures (items', layers') == Step(items, layers, token)
  {
    items', layers' := items, layers;
    var index := |items'|;
    if |layers'| > 0 && layers'[|layers'| - 1].closeTy == token.ty {
      var open := layers'[|layers'| - 1].openIndex;
      items' := items'[open := items'[open].(closeIndex := Some(index))];
      layers' := layers'[..|layers'| - 1];
    }
    var closeTy := ClosingToken(token.ty);
    if closeTy.Some? {
      layers' := layers' + [Layer(index, closeTy.value)];
    }
    items' := items' + [TokenItem(token, None)];
  }

  /** The stream after one result of the iterator. */
  function Continue(out: Output, rest: Result<seq<Token>, LexerError>): Result<seq<Token>, LexerError> {
    match out
    case None => Ok([])
    case Some(Err(e)) => Err(e)
    case Some(Ok(token)) => Prepend([token], rest)
  }

  /** How a step along the stream extends the tokens seen so far. */
  lemma PrependContinue(seen: seq<Token>, out: Output, rest: Result<seq<Token>, LexerError>)
    ensures out.None? ==> Prepend(seen, Continue(out, rest)) == Ok(seen)
    ensures out.Some? && out.value.Err? ==> Prepend(seen, Continue(out, rest)) == Err(out.value.error)
    ensures out.Some? && out.value.Ok? ==>
      Prepend(seen, Continue(out, rest)) == Prepend(seen + [out.value.value], rest)
  {
    if out.None? {
      assert seen + [] == seen;
    } else if out.value.Ok? && rest.Ok? {
      assert seen + ([out.value.value] + rest.value) == (seen + [out.value.value]) + rest.value;
    }
  }

  /** One call of the iterator, seen as a step along the stream. */
  method Pull(iter: TokenIter) returns (out: Output)
    requires iter.Valid()
    modifies iter
    ensures iter.Valid()
    ensures Stream(old(iter.State()), iter.flavor, iter.parseInt, iter.parseFloat)
      == Continue(out, Stream(iter.State(), iter.flavor, iter.parseInt, iter.parseFloat))
    ensures out.Some? && out.value.Ok? ==> Measure(iter.State()) < Measure(old(iter.State()))
  {
    ghost var before := iter.State();
    out := iter.Next();
    StreamUnfold(before, iter.flavor, iter.parseInt, iter.parseFloat);
    NextSpecLowersMeasure(before, iter.flavor, iter.parseInt, iter.parseFloat);
  }

  /** `tokenize`: run the token iterator to its end, linking each opener to its closer. */
  method Tokenize(text: string, flavor: Flavor, parseInt: IntParser, parseFloat: FloatParser)
    returns (r: Result<seq<TokenItem>, LexerError>)
    requires IntParserWellBehaved(parseInt) && FloatParserWellBehaved(parseFloat)
    ensures r == Tokenized(text, flavor, parseInt, parseFloat)
  {
    var iter := new TokenIter(text, flavor, parseInt, parseFloat);
    ghost var seen: seq<Token> := [];
    var items: seq<TokenItem> := [];
    var layers: seq<Layer> := [];
    PrependNothing(Stream(Start(text), flavor, parseInt, parseFloat));
    while true
      invariant iter.Valid()
      invariant Stream(Start(text), flavor, parseInt, parseFloat)
        == Prepend(seen, Stream(iter.State(), flavor, parseInt, parseFloat))
      invariant (items, layers) == MatchAll(seen)
      decreases Measure(iter.State())
    {
      var out := Pull(iter);
      PrependContinue(seen, out, Stream(iter.State(), flavor, parseInt, parseFloat));
      if out.None? {
        break;
      }
      if out.value.Err? {
        return Err(out.value.error);
      }
      var token := out.value.value;
      items, layers := Place(items, layers, token);
      assert (seen + [token])[..|seen|] == seen;
      seen := seen + [token];
    }
    if layers == [] {
      return Ok(items);
    }
    var layer := layers[|layers| - 1];
    var openToken := items[layer.openIndex].token;
    return Err(LexerError(UnmatchedOpener(openToken.ty, layer.closeTy), openToken.range));
  }
}

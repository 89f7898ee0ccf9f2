// The parser's cursor over the token items of the lexer: a shared slice and a position in it.
module TokenLists {
  import opened Wrappers
  import opened Tokens
  import opened Lexers

  datatype TokenList = TokenList(tokens: seq<TokenItem>, index: nat)

  /**
   * The bracket structure the lexer hands the parser, seen from `index` on: every span that
   * opens there closes later inside `tokens`, and the spans it contains close before it does.
   * `split_at` relies on it: a close index outside the slice would make it panic.
   */
  ghost predicate SpansInside(tokens: seq<TokenItem>, index: nat) {
    && (forall k :: index <= k < |tokens| && tokens[k].closeIndex.Some? ==>
          k < tokens[k].closeIndex.value < |tokens|)
    && (forall i, k ::
          (index <= i < k < |tokens| && tokens[i].closeIndex.Some? && k < tokens[i].closeIndex.value
           && tokens[k].closeIndex.Some?) ==>
          tokens[k].closeIndex.value < tokens[i].closeIndex.value)
  }

  /** A token list the parser can hold: the position is inside the slice and the spans nest. */
  type Cursor = c: TokenList | c.index <= |c.tokens| && SpansInside(c.tokens, c.index)
    witness TokenList([], 0)

  /** The tokens not yet consumed. */
  function Remaining(c: Cursor): nat {
    |c.tokens| - c.index
  }

  function NewTokenList(tokens: seq<TokenItem>): (r: Cursor)
    requires SpansInside(tokens, 0)
    ensures r.tokens == tokens && r.index == 0 && Remaining(r) == |tokens|
  {
    var r: Cursor := TokenList(tokens, 0);
    r
  }

  /** The item just before the cursor. */
  function Previous(c: Cursor): (r: Option<TokenItem>)
    ensures r.None? <==> c.index == 0
    ensures r.Some? ==> r.value == c.tokens[c.index - 1]
  {
    if c.index > 0 then Some(c.tokens[c.index - 1]) else None
  }

  /** The item at the cursor. */
  function Next(c: Cursor): (r: Option<TokenItem>)
    ensures r.None? <==> IsEnded(c)
    ensures r.Some? ==> r.value == c.tokens[c.index]
  {
    if c.index < |c.tokens| then Some(c.tokens[c.index]) else None
  }

  predicate IsEnded(c: Cursor) {
    c.index == |c.tokens|
  }

  function StartIndex(c: Cursor): nat {
    c.index
  }

  /** Whether the token before the cursor ended its line. */
  predicate IsNewline(c: Cursor) {
    match Previous(c)
    case Some(item) => item.token.newLine.Some?
    case None => false
  }

  /** The item at the cursor and the list after it; None when the list is ended. */
  function SplitFirst(c: Cursor): (r: Option<(Cursor, TokenItem)>)
    ensures r.None? <==> IsEnded(c)
    ensures r.Some? ==>
      && r.value.0.tokens == c.tokens && r.value.0.index == c.index + 1
      && r.value.1 == c.tokens[c.index]
      && Remaining(r.value.0) == Remaining(c) - 1
  {
    match Next(c)
    case None => None
    case Some(first) =>
      var rest: Cursor := TokenList(c.tokens, c.index + 1);
      Some((rest, first))
  }

  /**
   * Splits the list at `index`: the inner list keeps the cursor and stops at `index`, the
   * outer list starts there. `index` must not be before the cursor (the source asserts it)
   * nor past the slice (the slice would panic), and no span may cross it, so that the inner
   * list is a cursor too.
   */
  function SplitAt(c: Cursor, index: nat): (r: (Cursor, Cursor))
    requires c.index <= index <= |c.tokens|
    requires forall k :: c.index <= k < index && c.tokens[k].closeIndex.Some? ==>
      c.tokens[k].closeIndex.value < index
    ensures r.0.tokens == c.tokens[..index] && r.0.index == c.index
    ensures r.1.tokens == c.tokens && r.1.index == index
    ensures IsEnded(r.0) <==> c.index == index
    ensures Remaining(r.0) + Remaining(r.1) == Remaining(c)
  {
    var inner: Cursor := TokenList(c.tokens[..index], c.index);
    var outer: Cursor := TokenList(c.tokens, index);
    (inner, outer)
  }

  /** Stepping over one item makes that item the previous one. */
  lemma SplitFirstThenPrevious(c: Cursor)
    requires !IsEnded(c)
    ensures Previous(SplitFirst(c).value.0) == Some(SplitFirst(c).value.1)
    ensures IsNewline(SplitFirst(c).value.0) <==> c.tokens[c.index].token.newLine.Some?
  {
  }

  /**
   * The nesting the lexer proves about its output is what the parser's cursor needs: a token
   * list that tokenizing produced can start a parse.
   */
  lemma LexedTokensNest(tokens: seq<Token>)
    requires Match(tokens).Ok?
    ensures SpansInside(Match(tokens).value, 0)
  {
    var items := Match(tokens).value;
    MatchOk(tokens);
    forall i, k | 0 <= i < k < |items| && items[i].closeIndex.Some? && k < items[i].closeIndex.value
        && items[k].closeIndex.Some?
      ensures items[k].closeIndex.value < items[i].closeIndex.value
    {
      assert IsOpener(items[k].token.ty);
    }
  }
}

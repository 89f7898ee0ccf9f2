// Reading prefix, postfix and binary operators: each is a chain of alternatives tried in a
// fixed order, where the first terminal (or run of touching terminals) that matches wins.
module OperatorParsers {
  import opened Wrappers
  import opened Tokens
  import opened TokenLists
  import opened ParseErrors
  import opened TerminalParsers
  import opened Combinators
  import opened ParseResultExts
  import opened TokenListExts
  import Operators

  type BinaryOperator = Operators.BinaryOperator
  type PrefixOperator = Operators.PrefixOperator
  type PostfixOperator = Operators.PostfixOperator

  /** The terminals that start a prefix operator, in the order they are tried. */
  const PrefixTerminals: seq<TerminalToken> :=
    [Subtract, Not, BitwiseNot, Typeof, Clone, Delete, Increment, Decrement]

  const PostfixTerminals: seq<TerminalToken> := [Increment, Decrement]

  /** The terminal at the cursor, when there is one. */
  function TerminalAt(c: Cursor): (r: Option<TerminalToken>)
    ensures r.Some? <==> !IsEnded(c) && c.tokens[c.index].token.ty.Terminal?
    ensures r.Some? ==> AtTerminal(c, r.value)
  {
    if !IsEnded(c) && c.tokens[c.index].token.ty.Terminal? then Some(c.tokens[c.index].token.ty.terminal)
    else None
  }

  /**
   * A chain of single-terminal alternatives, `res.or_try(..).or_try(..)`: each terminal is
   * tried, in order, only after the result so far failed softly, and `build` makes the value
   * from the terminal that matched and its token.
   */
  function Chain<O>(c: Cursor, res: ParseResult<O>, terms: seq<TerminalToken>, build: (TerminalToken, Token) --> O)
    : (r: ParseResult<O>)
    requires forall t, tok :: t in terms ==> build.requires(t, tok)
    ensures !SoftFailure(res) ==> r == res
    ensures SoftFailure(res) ==> (r.Ok? <==> TerminalAt(c).Some? && TerminalAt(c).value in terms)
    ensures (SoftFailure(res) && r.Ok?) ==>
      r.value == (SplitFirst(c).value.0, build(TerminalAt(c).value, c.tokens[c.index].token))
    ensures (SoftFailure(res) && r.Err?) ==> SoftFailure(r)
    decreases |terms|
  {
    if |terms| == 0 then res
    else
      var t := terms[0];
      var next := OrTry(res, () => MapVal(TerminalOf(c, t), tok => build(t, tok)));
      Chain(c, next, terms[1..], build)
  }

  /** A whole chain: its first terminal is tried directly, the rest through `or_try`. */
  function ChainFrom<O>(c: Cursor, terms: seq<TerminalToken>, build: (TerminalToken, Token) --> O)
    : (r: ParseResult<O>)
    requires |terms| > 0
    requires forall t, tok :: t in terms ==> build.requires(t, tok)
    ensures r.Ok? <==> TerminalAt(c).Some? && TerminalAt(c).value in terms
    ensures r.Ok? ==> r.value == (SplitFirst(c).value.0, build(TerminalAt(c).value, c.tokens[c.index].token))
    ensures r.Err? ==> SoftFailure(r)
  {
    var t := terms[0];
    Chain(c, MapVal(TerminalOf(c, t), tok => build(t, tok)), terms[1..], build)
  }

  /** The `map_val` of each prefix alternative: the operator written with terminal `t`. */
  function PrefixOperatorOf(t: TerminalToken, tok: Token): (op: PrefixOperator)
    requires t in PrefixTerminals
    ensures Operators.PrefixTerminal(op) == t && op.token == tok
  {
    match t
    case Subtract => Operators.Negate(tok)
    case Not => Operators.LogicalNot(tok)
    case BitwiseNot => Operators.BitwiseNot(tok)
    case Typeof => Operators.Typeof(tok)
    case Clone => Operators.Clone(tok)
    case Delete => Operators.Delete(tok)
    case Increment => Operators.Increment(tok)
    case Decrement => Operators.Decrement(tok)
  }

  /** `prefix_operator`: `-` `!` `~` `typeof` `clone` `delete` `++` `--`, in that order. */
  function ParsePrefixOperator(c: Cursor): (r: ParseResult<PrefixOperator>)
    ensures r.Ok? <==> TerminalAt(c).Some? && TerminalAt(c).value in PrefixTerminals
    ensures r.Ok? ==>
      && Advanced(c, r.value.0, 1)
      && r.value.1.token == c.tokens[c.index].token
      && Operators.PrefixTerminal(r.value.1) == TerminalAt(c).value
    ensures r.Err? ==> r.error == Error(c, ExpectedPrefixOperator)
  {
    OrError(ChainFrom(c, PrefixTerminals, PrefixOperatorOf), () => Error(c, ExpectedPrefixOperator))
  }

  function PostfixOperatorOf(t: TerminalToken, tok: Token): (op: PostfixOperator)
    requires t in PostfixTerminals
    ensures Operators.PostfixTerminal(op) == t && op.token == tok
  {
    if t == Increment then Operators.PostIncrement(tok) else Operators.PostDecrement(tok)
  }

  /** `postfix_operator`: `++` then `--`. */
  function ParsePostfixOperator(c: Cursor): (r: ParseResult<PostfixOperator>)
    ensures r.Ok? <==> AtTerminal(c, Increment) || AtTerminal(c, Decrement)
    ensures r.Ok? ==>
      && Advanced(c, r.value.0, 1)
      && r.value.1.token == c.tokens[c.index].token
      && AtTerminal(c, Operators.PostfixTerminal(r.value.1))
    ensures r.Err? ==> r.error == Error(c, ExpectedPostfixOperator)
  {
    OrError(ChainFrom(c, PostfixTerminals, PostfixOperatorOf), () => Error(c, ExpectedPostfixOperator))
  }

  /**
   * The cursor reads the operator `op`: its terminals and tokens are the next ones, each
   * touching the next in the source, and the result cursor is just past them.
   */
  predicate ReadsBinary(c: Cursor, after: Cursor, op: BinaryOperator) {
    ReadsTokens(c, after, Operators.BinaryTerminals(op), Operators.BinaryTokens(op))
  }

  /** The cursor reads the terminals `ts` held by the tokens `toks`, each touching the next. */
  predicate ReadsTokens(c: Cursor, after: Cursor, ts: seq<TerminalToken>, toks: seq<Token>)
    requires |toks| == |ts|
  {
    && Advanced(c, after, |ts|)
    && c.index + |ts| <= |c.tokens|
    && (forall i :: 0 <= i < |ts| ==>
          c.tokens[c.index + i].token == toks[i] && toks[i].ty == Terminal(ts[i]))
    && (forall i :: 0 <= i < |ts| - 1 ==> Adjacent(toks[i], toks[i + 1]))
  }

  /** One compound alternative of the binary chain. */
  function OrTerminal2(c: Cursor, res: ParseResult<BinaryOperator>, a: TerminalToken, b: TerminalToken,
                       build: (Token, Token) -> BinaryOperator): (r: ParseResult<BinaryOperator>)
    ensures !SoftFailure(res) ==> r == res
    ensures SoftFailure(res) && Terminal2(c, a, b).Ok? ==>
      r == Ok((Terminal2(c, a, b).value.0, build(Terminal2(c, a, b).value.1.0, Terminal2(c, a, b).value.1.1)))
    ensures SoftFailure(res) && Terminal2(c, a, b).Err? ==> SoftFailure(r)
  {
    OrTry(res, () => MapVal(Terminal2(c, a, b), (p: (Token, Token)) => build(p.0, p.1)))
  }

  /** The compound operators, tried first: `<-`, `<<`, `>>>`, `>>`. */
  function CompoundBinary(c: Cursor): (r: ParseResult<BinaryOperator>)
    ensures r.Err? ==> SoftFailure(r)
    ensures r.Ok? <==>
      Terminal2(c, Less, Subtract).Ok? || Terminal2(c, Less, Less).Ok?
      || Terminal3(c, Greater, Greater, Greater).Ok? || Terminal2(c, Greater, Greater).Ok?
  {
    var r := MapVal(Terminal2(c, Less, Subtract), (p: (Token, Token)) => Operators.AssignNewSlot(p.0, p.1));
    var r := OrTerminal2(c, r, Less, Less, (a, b) => Operators.ShiftLeft(a, b));
    var r := OrTry(r, () => MapVal(Terminal3(c, Greater, Greater, Greater),
                                   (p: (Token, Token, Token)) => Operators.UnsignedShiftRight(p.0, p.1, p.2)));
    OrTerminal2(c, r, Greater, Greater, (a, b) => Operators.ShiftRight(a, b))
  }

  /** A compound read by `terminal2` reads the operator that holds its two tokens. */
  lemma Terminal2Reads(c: Cursor, a: TerminalToken, b: TerminalToken, op: BinaryOperator)
    requires Terminal2(c, a, b).Ok?
    requires Operators.BinaryTerminals(op) == [a, b]
    requires Operators.BinaryTokens(op) == [Terminal2(c, a, b).value.1.0, Terminal2(c, a, b).value.1.1]
    ensures ReadsBinary(c, Terminal2(c, a, b).value.0, op)
  {
    TwoTouchingReads(c, Terminal2(c, a, b).value.0, a, b, op);
  }

  /** Two touching terminals `a` and `b` next at the cursor, held by `op`, are read as `op`. */
  lemma TwoTouchingReads(c: Cursor, after: Cursor, a: TerminalToken, b: TerminalToken, op: BinaryOperator)
    requires Advanced(c, after, 2) && c.index + 1 < |c.tokens|
    requires Operators.BinaryTerminals(op) == [a, b]
    requires Operators.BinaryTokens(op) == [c.tokens[c.index].token, c.tokens[c.index + 1].token]
    requires c.tokens[c.index].token.ty == Terminal(a) && c.tokens[c.index + 1].token.ty == Terminal(b)
    requires Adjacent(c.tokens[c.index].token, c.tokens[c.index + 1].token)
    ensures ReadsBinary(c, after, op)
  {
    TwoTokensRead(c, after, a, b);
  }

  lemma TwoTokensRead(c: Cursor, after: Cursor, a: TerminalToken, b: TerminalToken)
    requires Advanced(c, after, 2) && c.index + 1 < |c.tokens|
    requires c.tokens[c.index].token.ty == Terminal(a) && c.tokens[c.index + 1].token.ty == Terminal(b)
    requires Adjacent(c.tokens[c.index].token, c.tokens[c.index + 1].token)
    ensures ReadsTokens(c, after, [a, b], [c.tokens[c.index].token, c.tokens[c.index + 1].token])
  {
  }

  lemma Terminal3Reads(c: Cursor, op: BinaryOperator)
    requires Terminal3(c, Greater, Greater, Greater).Ok?
    requires op == Operators.UnsignedShiftRight(Terminal3(c, Greater, Greater, Greater).value.1.0,
      Terminal3(c, Greater, Greater, Greater).value.1.1, Terminal3(c, Greater, Greater, Greater).value.1.2)
    ensures ReadsBinary(c, Terminal3(c, Greater, Greater, Greater).value.0, op)
  {
    ShiftRightThreeReads(c, Terminal3(c, Greater, Greater, Greater).value.0, op);
  }

  /** Three touching `>` tokens next at the cursor, held by `op`, are read as `op`. */
  lemma ShiftRightThreeReads(c: Cursor, after: Cursor, op: BinaryOperator)
    requires op.UnsignedShiftRight? && Advanced(c, after, 3) && c.index + 2 < |c.tokens|
    requires op == Operators.UnsignedShiftRight(c.tokens[c.index].token, c.tokens[c.index + 1].token,
      c.tokens[c.index + 2].token)
    requires c.tokens[c.index].token.ty == Terminal(Greater) && c.tokens[c.index + 1].token.ty == Terminal(Greater)
    requires c.tokens[c.index + 2].token.ty == Terminal(Greater)
    requires Adjacent(c.tokens[c.index].token, c.tokens[c.index + 1].token)
    requires Adjacent(c.tokens[c.index + 1].token, c.tokens[c.index + 2].token)
    ensures ReadsBinary(c, after, op)
  {
    var toks := Operators.BinaryTokens(op);
    assert toks == [c.tokens[c.index].token, c.tokens[c.index + 1].token, c.tokens[c.index + 2].token];
  }

  /** The compound chain's value, alternative by alternative, in the order they are tried. */
  lemma CompoundPicks(c: Cursor)
    ensures var r := CompoundBinary(c);
      var n := Terminal2(c, Less, Subtract);
      var l := Terminal2(c, Less, Less);
      var u := Terminal3(c, Greater, Greater, Greater);
      var g := Terminal2(c, Greater, Greater);
      && (n.Ok? ==> r == Ok((n.value.0, Operators.AssignNewSlot(n.value.1.0, n.value.1.1))))
      && (n.Err? && l.Ok? ==> r == Ok((l.value.0, Operators.ShiftLeft(l.value.1.0, l.value.1.1))))
      && (n.Err? && l.Err? && u.Ok? ==>
            r == Ok((u.value.0, Operators.UnsignedShiftRight(u.value.1.0, u.value.1.1, u.value.1.2))))
      && (n.Err? && l.Err? && u.Err? && g.Ok? ==> r == Ok((g.value.0, Operators.ShiftRight(g.value.1.0, g.value.1.1))))
  {
  }

  lemma NewSlotReads(c: Cursor)
    requires Terminal2(c, Less, Subtract).Ok?
    ensures var (after, p) := Terminal2(c, Less, Subtract).value;
      ReadsBinary(c, after, Operators.AssignNewSlot(p.0, p.1))
  {
    var (after, p) := Terminal2(c, Less, Subtract).value;
    Terminal2Reads(c, Less, Subtract, Operators.AssignNewSlot(p.0, p.1));
  }

  lemma ShiftLeftReads(c: Cursor)
    requires Terminal2(c, Less, Less).Ok?
    ensures var (after, p) := Terminal2(c, Less, Less).value;
      ReadsBinary(c, after, Operators.ShiftLeft(p.0, p.1))
  {
    var (after, p) := Terminal2(c, Less, Less).value;
    Terminal2Reads(c, Less, Less, Operators.ShiftLeft(p.0, p.1));
  }

  lemma ShiftRightReads(c: Cursor)
    requires Terminal2(c, Greater, Greater).Ok?
    ensures var (after, p) := Terminal2(c, Greater, Greater).value;
      ReadsBinary(c, after, Operators.ShiftRight(p.0, p.1))
  {
    var (after, p) := Terminal2(c, Greater, Greater).value;
    Terminal2Reads(c, Greater, Greater, Operators.ShiftRight(p.0, p.1));
  }

  /** Whichever compound matched, the operator built holds exactly the tokens read. */
  lemma CompoundReads(c: Cursor)
    requires CompoundBinary(c).Ok?
    ensures ReadsBinary(c, CompoundBinary(c).value.0, CompoundBinary(c).value.1)
    ensures |Operators.BinaryTerminals(CompoundBinary(c).value.1)| > 1
  {
    CompoundPicks(c);
    if Terminal2(c, Less, Subtract).Ok? {
      NewSlotReads(c);
    } else if Terminal2(c, Less, Less).Ok? {
      ShiftLeftReads(c);
    } else if Terminal3(c, Greater, Greater, Greater).Ok? {
      var u := Terminal3(c, Greater, Greater, Greater).value;
      Terminal3Reads(c, Operators.UnsignedShiftRight(u.1.0, u.1.1, u.1.2));
    } else {
      ShiftRightReads(c);
    }
  }

  /** The single-terminal binary operators, in the order they are tried after the compounds. */
  const SingleBinaryTerminals: seq<TerminalToken> := [
    Assign, AddEqual, SubtractEqual, MultiplyEqual, DivideEqual, ModuloEqual, Add, Subtract,
    Multiply, Divide, Modulo, Equal, NotEqual, Less, LessEqual, Greater, GreaterEqual, ThreeWay,
    LogicalAnd, LogicalOr, BitwiseAnd, BitwiseOr, BitwiseXor, In, Instanceof
  ]

  /** The `map_val` of each single-terminal binary alternative. */
  function SingleBinaryOf(t: TerminalToken, tok: Token): (op: BinaryOperator)
    requires t in SingleBinaryTerminals
  {
    match t
    case Assign => Operators.Assign(tok)
    case AddEqual => Operators.AssignAdd(tok)
    case SubtractEqual => Operators.AssignSubtract(tok)
    case MultiplyEqual => Operators.AssignMultiply(tok)
    case DivideEqual => Operators.AssignDivide(tok)
    case ModuloEqual => Operators.AssignModulo(tok)
    case Add => Operators.Add(tok)
    case Subtract => Operators.Subtract(tok)
    case Multiply => Operators.Multiply(tok)
    case Divide => Operators.Divide(tok)
    case Modulo => Operators.Modulo(tok)
    case Equal => Operators.Equal(tok)
    case NotEqual => Operators.NotEqual(tok)
    case Less => Operators.Less(tok)
    case LessEqual => Operators.LessEqual(tok)
    case Greater => Operators.Greater(tok)
    case GreaterEqual => Operators.GreaterEqual(tok)
    case ThreeWay => Operators.ThreeWay(tok)
    case LogicalAnd => Operators.LogicalAnd(tok)
    case LogicalOr => Operators.LogicalOr(tok)
    case BitwiseAnd => Operators.BitwiseAnd(tok)
    case BitwiseOr => Operators.BitwiseOr(tok)
    case BitwiseXor => Operators.BitwiseXor(tok)
    case In => Operators.In(tok)
    case Instanceof => Operators.Instanceof(tok)
  }

  lemma SingleBinaryTerminalCases(t: TerminalToken)
    requires t in SingleBinaryTerminals
    ensures (t == Assign || t == AddEqual || t == SubtractEqual || t == MultiplyEqual || t == DivideEqual || t == ModuloEqual)
      || (t == Add || t == Subtract || t == Multiply || t == Divide || t == Modulo || t == Equal || t == NotEqual)
      || (t == Less || t == LessEqual || t == Greater || t == GreaterEqual || t == ThreeWay || t == LogicalAnd)
      || (t == LogicalOr || t == BitwiseAnd || t == BitwiseOr || t == BitwiseXor || t == In || t == Instanceof)
  {
  }

  /** Each single-terminal alternative builds the operator written with its own terminal. */
  lemma SingleBinaryOfReads(t: TerminalToken, tok: Token)
    requires t in SingleBinaryTerminals
    ensures Operators.BinaryTerminals(SingleBinaryOf(t, tok)) == [t]
    ensures Operators.BinaryTokens(SingleBinaryOf(t, tok)) == [tok]
  {
    SingleBinaryTerminalCases(t);
    if t == Assign || t == AddEqual || t == SubtractEqual || t == MultiplyEqual || t == DivideEqual || t == ModuloEqual {
      SingleBinaryOfReads0(t, tok);
    } else if t == Add || t == Subtract || t == Multiply || t == Divide || t == Modulo || t == Equal || t == NotEqual {
      SingleBinaryOfReads1(t, tok);
    } else if t == Less || t == LessEqual || t == Greater || t == GreaterEqual || t == ThreeWay || t == LogicalAnd {
      SingleBinaryOfReads2(t, tok);
    } else if t == LogicalOr || t == BitwiseAnd || t == BitwiseOr || t == BitwiseXor || t == In || t == Instanceof {
      SingleBinaryOfReads3(t, tok);
    }
  }

  lemma SingleBinaryOfReads0(t: TerminalToken, tok: Token)
    requires t == Assign || t == AddEqual || t == SubtractEqual || t == MultiplyEqual || t == DivideEqual || t == ModuloEqual
    ensures Operators.BinaryTerminals(SingleBinaryOf(t, tok)) == [t]
    ensures Operators.BinaryTokens(SingleBinaryOf(t, tok)) == [tok]
  {
  }

  lemma SingleBinaryOfReads1(t: TerminalToken, tok: Token)
    requires t == Add || t == Subtract || t == Multiply || t == Divide || t == Modulo || t == Equal || t == NotEqual
    ensures Operators.BinaryTerminals(SingleBinaryOf(t, tok)) == [t]
    ensures Operators.BinaryTokens(SingleBinaryOf(t, tok)) == [tok]
  {
  }

  lemma SingleBinaryOfReads2(t: TerminalToken, tok: Token)
    requires t == Less || t == LessEqual || t == Greater || t == GreaterEqual || t == ThreeWay || t == LogicalAnd
    ensures Operators.BinaryTerminals(SingleBinaryOf(t, tok)) == [t]
    ensures Operators.BinaryTokens(SingleBinaryOf(t, tok)) == [tok]
  {
  }

  lemma SingleBinaryOfReads3(t: TerminalToken, tok: Token)
    requires t == LogicalOr || t == BitwiseAnd || t == BitwiseOr || t == BitwiseXor || t == In || t == Instanceof
    ensures Operators.BinaryTerminals(SingleBinaryOf(t, tok)) == [t]
    ensures Operators.BinaryTokens(SingleBinaryOf(t, tok)) == [tok]
  {
  }

  function SingleBinary(c: Cursor): (r: ParseResult<BinaryOperator>)
    ensures r.Ok? <==> TerminalAt(c).Some? && TerminalAt(c).value in SingleBinaryTerminals
    ensures r.Ok? ==> r.value == (SplitFirst(c).value.0, SingleBinaryOf(TerminalAt(c).value, c.tokens[c.index].token))
    ensures r.Ok? ==> ReadsBinary(c, r.value.0, r.value.1)
    ensures r.Err? ==> SoftFailure(r)
  {
    var r := ChainFrom(c, SingleBinaryTerminals, SingleBinaryOf);
    if r.Ok? then
      SingleBinaryReads(c, r.value.0, TerminalAt(c).value);
      r
    else r
  }

  /** A single-terminal operator at the cursor is read as the operator written with it. */
  lemma SingleBinaryReads(c: Cursor, after: Cursor, t: TerminalToken)
    requires TerminalAt(c) == Some(t) && t in SingleBinaryTerminals && Advanced(c, after, 1)
    ensures ReadsBinary(c, after, SingleBinaryOf(t, c.tokens[c.index].token))
  {
    SingleBinaryOfReads(t, c.tokens[c.index].token);
    OneTokenRead(c, after, t);
  }

  lemma OneTokenRead(c: Cursor, after: Cursor, t: TerminalToken)
    requires AtTerminal(c, t) && Advanced(c, after, 1)
    ensures ReadsTokens(c, after, [t], [c.tokens[c.index].token])
  {
  }

  /**
   * `binary_operator`: the compounds, then the single terminals, each tried only after the
   * ones before it failed softly; no match is ExpectedBinaryOperator at the cursor.
   */
  function ParseBinaryOperator(c: Cursor): (r: ParseResult<BinaryOperator>)
    ensures r.Ok? <==> TerminalAt(c).Some? && TerminalAt(c).value in SingleBinaryTerminals
    ensures r.Ok? ==> ReadsBinary(c, r.value.0, r.value.1)
    ensures r.Err? ==> r.error == Error(c, ExpectedBinaryOperator)
  {
    var r := OrError(OrTry(CompoundBinary(c), () => SingleBinary(c)), () => Error(c, ExpectedBinaryOperator));
    if CompoundBinary(c).Ok? then
      CompoundReads(c);
      r
    else r
  }

  /** `<` `-` touching is read as the new-slot operator, never as `<` or a shift. */
  lemma NewSlotBeforeLess(c: Cursor)
    requires Terminal2(c, Less, Subtract).Ok?
    ensures ParseBinaryOperator(c).Ok? && ParseBinaryOperator(c).value.1.AssignNewSlot?
  {
  }

  /** `<` `<` touching is a left shift, not a comparison. */
  lemma ShiftLeftBeforeLess(c: Cursor)
    requires Terminal2(c, Less, Less).Ok?
    ensures ParseBinaryOperator(c).Ok? && ParseBinaryOperator(c).value.1.ShiftLeft?
  {
  }

  /** Three touching `>` are an unsigned shift, not a shift followed by a comparison. */
  lemma UnsignedShiftBeforeShift(c: Cursor)
    requires Terminal3(c, Greater, Greater, Greater).Ok?
    ensures ParseBinaryOperator(c).Ok? && ParseBinaryOperator(c).value.1.UnsignedShiftRight?
  {
  }

  lemma ShiftRightBeforeGreater(c: Cursor)
    requires Terminal2(c, Greater, Greater).Ok? && Terminal3(c, Greater, Greater, Greater).Err?
    ensures ParseBinaryOperator(c).Ok? && ParseBinaryOperator(c).value.1.ShiftRight?
  {
  }

  /** A `<` that does not start a compound is the comparison. */
  lemma LoneLessIsComparison(c: Cursor)
    requires AtTerminal(c, Less) && Terminal2(c, Less, Subtract).Err? && Terminal2(c, Less, Less).Err?
    ensures ParseBinaryOperator(c).Ok? && ParseBinaryOperator(c).value.1.Less?
  {
    assert !AtTerminal(c, Greater);
    assert SoftFailure(CompoundBinary(c));
    SingleLess(c);
  }

  lemma SingleLess(c: Cursor)
    requires AtTerminal(c, Less)
    ensures SingleBinary(c).Ok? && SingleBinary(c).value.1 == Operators.Less(c.tokens[c.index].token)
  {
    assert SingleBinaryTerminals[13] == Less;
    assert TerminalAt(c).value == Less;
    LessOf(c.tokens[c.index].token);
  }

  lemma LessOf(tok: Token)
    ensures SingleBinaryOf(Less, tok) == Operators.Less(tok)
  {
  }
}

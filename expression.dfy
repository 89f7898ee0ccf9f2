// The expression parser: a value followed by any number of operators, each applied only
// when it binds more tightly than the precedence the expression is being parsed at.
module Expressions {
  import opened Wrappers
  import opened Tokens
  import opened TokenLists
  import opened Contexts
  import opened ParseErrors
  import opened TerminalParsers
  import opened Combinators
  import opened SeparatedLists
  import opened ListParsers
  import opened ParseResultExts
  import opened Precedences
  import Operators
  import opened OperatorParsers
  import opened IdentifierParsers

  /** Syntax read by a grammar rule this model does not include: the token indices it spans. */
  datatype Elided = Elided(start: nat, end: nat)

  /**
   * The grammar rules of the files this model leaves out, as parsers: types, function and
   * class declarations, table slots and array values.
   */
  datatype Rules = Rules(
    typeRule: Parser<Elided>,
    functionDeclaration: Parser<Elided>,
    classDeclaration: Parser<Elided>,
    tableSlot: Parser<Elided>,
    arrayValue: Parser<Elided>)

  /** Each of those rules reads at least one token when it succeeds. */
  ghost predicate RulesAdvance(g: Rules) {
    && Advances(g.typeRule) && Advances(g.functionDeclaration) && Advances(g.classDeclaration)
    && Advances(g.tableSlot) && Advances(g.arrayValue)
  }

  /** A table literal `{ slots... }`, also the post-initializer of a call. */
  datatype Table = Table(open: Token, slots: seq<Elided>, spread: Option<Token>, close: Token)

  datatype Expression =
    | FunctionExpr(returnType: Option<Elided>, functionKeyword: Token, declaration: Elided)
    | ParensExpr(open: Token, value: Expression, close: Token)
    | LiteralExpr(literal: LiteralToken, token: Token)
    | VarExpr(name: Name)
    | RootVarExpr(root: Token, name: Name)
    | PrefixExpr(prefix: Operators.PrefixOperator, value: Expression)
    | TableExpr(table: Table)
    | ClassExpr(classKeyword: Token, declaration: Elided)
    | ArrayExpr(open: Token, elements: seq<Elided>, spread: Option<Token>, close: Token)
    | DelegateExpr(delegateKeyword: Token, parent: Expression, colon: Token, value: Expression)
    | VectorExpr(open: Token, x: Expression, comma1: Token, y: Expression, comma2: Token, z: Expression,
                 close: Token)
    | ExpectExpr(expectKeyword: Token, ty: Elided, open: Token, value: Expression, close: Token)
    | PropertyExpr(base: Expression, dot: Token, property: MethodName)
    | TernaryExpr(condition: Expression, question: Token, trueValue: Expression, separator: Token,
                  falseValue: Expression)
    | BinaryExpr(left: Expression, binary: Operators.BinaryOperator, right: Expression)
    | IndexExpr(base: Expression, open: Token, index: Expression, close: Token)
    | PostfixExpr(value: Expression, postfix: Operators.PostfixOperator)
    | CallExpr(callee: Expression, open: Token, arguments: SeparatedListTrailing0<Expression>, close: Token,
               postInitializer: Option<Table>)
    | CommaExpr(values: SeparatedList1<Expression>)

  /** `precedence_error`: an operator the current precedence does not let apply, at the cursor. */
  function PrecedenceError(c: Cursor): ParseError {
    New(Internal(PrecedenceMismatch), StartIndex(c), Inline)
  }

  /** Whether `e` is an operator applied to a value on its left, rather than a value form. */
  predicate IsOperation(e: Expression) {
    e.PropertyExpr? || e.TernaryExpr? || e.BinaryExpr? || e.IndexExpr? || e.PostfixExpr? || e.CallExpr?
    || e.CommaExpr?
  }

  /**
   * Whether the operation at the top of `e`, if any, is one an expression parsed at
   * precedence `p` may apply: it binds more tightly than `p`, or, for the ternary, at least
   * as tightly.
   */
  predicate Binds(p: Precedence, e: Expression) {
    match e
    case PropertyExpr(_, _, _) => Below(p, Property)
    case TernaryExpr(_, _, _, _, _) => AtMost(p, Ternary)
    case BinaryExpr(_, op, _) => Below(p, Operators.BinaryPrecedence(op))
    case IndexExpr(_, _, _, _) => Below(p, Postfix)
    case PostfixExpr(_, _) => Below(p, Postfix)
    case CallExpr(_, _, _, _, _) => Below(p, Postfix)
    case CommaExpr(_) => Below(p, Precedence.Comma)
    case _ => true
  }

  /** Every argument of a call binds at comma precedence, so none is a bare comma expression. */
  predicate ArgumentsBind(args: SeparatedListTrailing0<Expression>) {
    args.Some? ==>
      && (forall i :: 0 <= i < |args.value.items| ==> Binds(Precedence.Comma, args.value.items[i].0))
      && Binds(Precedence.Comma, args.value.lastItem)
  }

  // ---------------------------------------------------------------------------------------
  // Spans whose inner parser is the expression parser itself

  /**
   * The rest of a `span` once its opener is matched and `inner` has run on the tokens
   * between the brackets: the closer is read, `inner` must have read everything, and the
   * value is built from the opener, the inner value and the closer.
   */
  function SpanRest<A>(c: Cursor, parts: SpanParts, context: ContextType, closeTerminal: TerminalToken,
                       inner: ParseResult<A>): (r: ParseResult<(Token, A, Token)>)
    requires parts.outer.tokens == c.tokens && c.index < parts.outer.index
    ensures r.Ok? ==> Remaining(r.value.0) < Remaining(c)
    ensures r.Err? ==> r.error.isFatal
    ensures r.Ok? ==>
      && inner.Ok? && IsEnded(inner.value.0)
      && AtTerminal(parts.outer, closeTerminal) && Advanced(parts.outer, r.value.0, 1)
      && r.value.1 == (parts.opener.token, inner.value.1, parts.outer.tokens[parts.outer.index].token)
  {
    match SpanClose(c, parts, context, closeTerminal)
    case Err(e) => Err(e)
    case Ok((after, close)) =>
      SpanFinish(c, parts, context, closeTerminal, after,
                 MapVal(inner, (a: A) => (parts.opener.token, a, close)))
  }

  // ---------------------------------------------------------------------------------------
  // Values that do not contain expressions this model parses

  /** `literal`: the next token when it is a literal; otherwise ExpectedLiteral at the cursor. */
  function ParseLiteral(c: Cursor): (r: ParseResult<Expression>)
    ensures r.Ok? <==> !IsEnded(c) && c.tokens[c.index].token.ty.Literal?
    ensures r.Ok? ==>
      && Advanced(c, r.value.0, 1)
      && r.value.1 == LiteralExpr(c.tokens[c.index].token.ty.literal, c.tokens[c.index].token)
    ensures r.Err? ==> r.error == New(ExpectedLiteral, c.index, Inline)
  {
    match SplitFirst(c)
    case Some((rest, item)) =>
      if item.token.ty.Literal? then Ok((rest, LiteralExpr(item.token.ty.literal, item.token)))
      else Err(New(ExpectedLiteral, StartIndex(c), Inline))
    case None => Err(New(ExpectedLiteral, StartIndex(c), Inline))
  }

  function ParseVar(c: Cursor): (r: ParseResult<Expression>)
    ensures r.Ok? <==> ParseIdentifier(c).Ok?
    ensures r.Ok? ==> Advanced(c, r.value.0, 1) && r.value.1 == VarExpr(ParseIdentifier(c).value.1)
    ensures r.Err? ==> r.error == ParseIdentifier(c).error
  {
    MapVal(ParseIdentifier(c), (n: Name) => VarExpr(n))
  }

  /** `root_var`: `::name`; once `::` is read the name is required. */
  function ParseRootVar(c: Cursor): (r: ParseResult<Expression>)
    ensures SoftFailure(r) <==> !AtTerminal(c, Namespace)
    ensures r.Ok? ==> Advanced(c, r.value.0, 2) && r.value.1.RootVarExpr?
  {
    Definitely(c, RootVarExpression, (x: Cursor) => MatchTerminal(x, Namespace),
               (c1: Cursor, root: Token) => MapVal(ParseIdentifier(c1), (n: Name) => RootVarExpr(root, n)))
  }

  /** The slots of a table and the `...` that may end them. */
  function TableBody(c: Cursor, slot: Parser<Elided>): (r: ParseResult<(seq<Elided>, Option<Token>)>)
    requires Advances(slot)
  {
    match ManySpec(c, slot)
    case Err(e) => Err(e)
    case Ok((c1, slots)) => MapVal(Opt(c1, MatchTerminal(c1, Ellipsis)), (spread: Option<Token>) => (slots, spread))
  }

  /** `table_delimited` with braces: the table's slots must fill the braces. */
  function ParseTable(c: Cursor, g: Rules): (r: ParseResult<Table>)
    requires RulesAdvance(g)
    ensures SoftFailure(r) ==> SpanOpen(c, OpenBrace).Err?
    ensures r.Ok? ==> Remaining(r.value.0) < Remaining(c)
  {
    var r := Span(c, TableExpression, OpenBrace, CloseBrace,
      (inner: Cursor, open: Token, close: Token) =>
        MapVal(TableBody(inner, g.tableSlot), (b: (seq<Elided>, Option<Token>)) => Table(open, b.0, b.1, close)));
    if r.Ok? then
      SpanReadsBetweenBrackets(c, TableExpression, OpenBrace, CloseBrace,
        (inner: Cursor, open: Token, close: Token) =>
          MapVal(TableBody(inner, g.tableSlot), (b: (seq<Elided>, Option<Token>)) => Table(open, b.0, b.1, close)));
      r
    else r
  }

  /** A table as a value. */
  function ParseTableValue(c: Cursor, g: Rules): (r: ParseResult<Expression>)
    requires RulesAdvance(g)
    ensures SoftFailure(r) ==> SpanOpen(c, OpenBrace).Err?
    ensures r.Ok? ==> Remaining(r.value.0) < Remaining(c) && r.value.1.TableExpr?
  {
    match ParseTable(c, g)
    case Err(e) => Err(e)
    case Ok((c1, t)) => Ok((c1, TableExpr(t)))
  }

  function ParseArray(c: Cursor, g: Rules): (r: ParseResult<Expression>)
    requires RulesAdvance(g)
    ensures SoftFailure(r) ==> SpanOpen(c, OpenSquare).Err?
    ensures r.Ok? ==> Remaining(r.value.0) < Remaining(c) && r.value.1.ArrayExpr?
  {
    var r := Span(c, ArrayExpression, OpenSquare, CloseSquare,
      (inner: Cursor, open: Token, close: Token) =>
        MapVal(TableBody(inner, g.arrayValue), (b: (seq<Elided>, Option<Token>)) => ArrayExpr(open, b.0, b.1, close)));
    if r.Ok? then
      SpanReadsBetweenBrackets(c, ArrayExpression, OpenSquare, CloseSquare,
        (inner: Cursor, open: Token, close: Token) =>
          MapVal(TableBody(inner, g.arrayValue), (b: (seq<Elided>, Option<Token>)) => ArrayExpr(open, b.0, b.1, close)));
      r
    else r
  }

  /**
   * The determinant of a function expression: an optional return type, which may not end
   * the line and whose errors are never fatal here, then `function`.
   */
  function FunctionHead(c: Cursor, g: Rules): (r: ParseResult<(Option<Elided>, Token)>)
    requires RulesAdvance(g)
    ensures r.Ok? ==> Remaining(r.value.0) < Remaining(c)
    ensures r.Err? ==> !r.error.isFatal
  {
    match PreventEndingLine(c, Opt(c, NotDefinite(g.typeRule(c))))
    case Err(e) => Err(e)
    case Ok((c1, returnType)) => MapVal(MatchTerminal(c1, Function), (f: Token) => (returnType, f))
  }

  function ParseFunction(c: Cursor, g: Rules): (r: ParseResult<Expression>)
    requires RulesAdvance(g)
    ensures SoftFailure(r) <==> FunctionHead(c, g).Err?
    ensures r.Ok? ==> Remaining(r.value.0) < Remaining(c) && r.value.1.FunctionExpr?
  {
    Definitely(c, FunctionExpression, (x: Cursor) => FunctionHead(x, g),
      (c1: Cursor, head: (Option<Elided>, Token)) =>
        MapVal(g.functionDeclaration(c1), (d: Elided) => FunctionExpr(head.0, head.1, d)))
  }

  function ParseClass(c: Cursor, g: Rules): (r: ParseResult<Expression>)
    requires RulesAdvance(g)
    ensures SoftFailure(r) <==> !AtTerminal(c, Class)
    ensures r.Ok? ==> Remaining(r.value.0) < Remaining(c) && r.value.1.ClassExpr?
  {
    Definitely(c, ClassExpression, (x: Cursor) => MatchTerminal(x, Class),
      (c1: Cursor, k: Token) => MapVal(g.classDeclaration(c1), (d: Elided) => ClassExpr(k, d)))
  }

  // ---------------------------------------------------------------------------------------
  // The mutually recursive parsers. Every recursive call is on fewer remaining tokens, or on
  // the same tokens one level down in the order
  //   Arguments > ExpressionSpec > Fold > ParseValue > ValueFromVar > ValueFromTable
  //   > ValueFromDelegate, OperatorStep > LaterOperator > the single forms.

  /** `parens`: `( expression )`, the inner expression at the loosest precedence. */
  function ParseParens(c: Cursor, g: Rules): (r: ParseResult<Expression>)
    requires RulesAdvance(g)
    ensures SoftFailure(r) ==> SpanOpen(c, OpenBracket).Err?
    ensures r.Ok? ==> Remaining(r.value.0) < Remaining(c)
    ensures r.Ok? ==> !IsOperation(r.value.1)
    ensures r.Ok? ==> r.value.1.ParensExpr?
    decreases Remaining(c), 0
  {
    match SpanOpen(c, OpenBracket)
    case Err(e) => Err(e)
    case Ok(parts) =>
      match SpanRest(c, parts, ParensExpression, CloseBracket, ExpressionSpec(parts.inner, Precedence.None, g))
      case Err(e) => Err(e)
      case Ok((c1, (open, v, close))) => Ok((c1, ParensExpr(open, v, close)))
  }

  /** `prefix`: a prefix operator, then an expression at prefix precedence. */
  function ParsePrefix(c: Cursor, g: Rules): (r: ParseResult<Expression>)
    requires RulesAdvance(g)
    ensures SoftFailure(r) <==> ParsePrefixOperator(c).Err?
    ensures r.Ok? ==> Remaining(r.value.0) < Remaining(c) && r.value.1.PrefixExpr?
    decreases Remaining(c), 1
  {
    match ParsePrefixOperator(c)
    case Err(e) => Err(e)
    case Ok((c1, op)) => PrefixOperand(c, c1, op, g)
  }

  /**
   * The operand of a prefix operator read at `start`, parsed at prefix precedence from `c`;
   * once the operator is read, a failure is fatal.
   */
  function PrefixOperand(start: Cursor, c: Cursor, op: Operators.PrefixOperator, g: Rules): (r: ParseResult<Expression>)
    requires RulesAdvance(g) && Remaining(c) < Remaining(start)
    ensures r.Ok? ==> Remaining(r.value.0) < Remaining(c)
    ensures r.Ok? ==> r.value.1.PrefixExpr? && r.value.1.prefix == op && Binds(Prefix, r.value.1.value)
    ensures r.Err? ==> r.error.isFatal
    decreases Remaining(start), 0
  {
    Commit(start, ExpressionRightHandSide,
      match ExpressionSpec(c, Prefix, g)
      case Err(e) => Err(e)
      case Ok((c1, v)) => Ok((c1, PrefixExpr(op, v))))
  }

  /** `delegate parent : value`. */
  function ParseDelegate(c: Cursor, g: Rules): (r: ParseResult<Expression>)
    requires RulesAdvance(g)
    ensures SoftFailure(r) <==> !AtTerminal(c, Delegate)
    ensures r.Ok? ==> Remaining(r.value.0) < Remaining(c)
    ensures r.Ok? ==> r.value.1.DelegateExpr? && Binds(Precedence.Comma, r.value.1.value)
    decreases Remaining(c), 0
  {
    match MatchTerminal(c, Delegate)
    case Err(e) => Err(e)
    case Ok((c1, keyword)) =>
      Commit(c, DelegateExpression,
        match ExpressionSpec(c1, Precedence.None, g)
        case Err(e) => Err(e)
        case Ok((c2, parent)) =>
          match MatchTerminal(c2, Colon)
          case Err(e) => Err(e)
          case Ok((c3, colon)) =>
            match ExpressionSpec(c3, Precedence.Comma, g)
            case Err(e) => Err(e)
            case Ok((c4, v)) => Ok((c4, DelegateExpr(keyword, parent, colon, v))))
  }

  /** `< x, y, z >`: the last component stops before `>`, which a shift would otherwise take. */
  function ParseVector(c: Cursor, g: Rules): (r: ParseResult<Expression>)
    requires RulesAdvance(g)
    ensures SoftFailure(r) <==> !AtTerminal(c, Less)
    ensures r.Ok? ==> Remaining(r.value.0) < Remaining(c)
    ensures r.Ok? ==>
      && r.value.1.VectorExpr? && Binds(Precedence.Comma, r.value.1.x) && Binds(Precedence.Comma, r.value.1.y)
      && Binds(Bitshift, r.value.1.z)
    decreases Remaining(c), 0
  {
    match MatchTerminal(c, Less)
    case Err(e) => Err(e)
    case Ok((c1, open)) =>
      Commit(c, VectorExpression,
        match ExpressionSpec(c1, Precedence.Comma, g)
        case Err(e) => Err(e)
        case Ok((c2, x)) =>
          match MatchTerminal(c2, TerminalToken.Comma)
          case Err(e) => Err(e)
          case Ok((c3, comma1)) =>
            match VectorTail(c1, c3, g)
            case Err(e) => Err(e)
            case Ok((c4, (y, comma2, z, close))) => Ok((c4, VectorExpr(open, x, comma1, y, comma2, z, close))))
  }

  /** The rest of a vector after its first comma: `y , z >`. */
  function VectorTail(start: Cursor, c: Cursor, g: Rules): (r: ParseResult<(Expression, Token, Expression, Token)>)
    requires RulesAdvance(g) && Remaining(c) < Remaining(start)
    ensures r.Ok? ==> Remaining(r.value.0) < Remaining(c)
    ensures r.Ok? ==> Binds(Precedence.Comma, r.value.1.0) && Binds(Bitshift, r.value.1.2)
    decreases Remaining(start), 0
  {
    match ExpressionSpec(c, Precedence.Comma, g)
    case Err(e) => Err(e)
    case Ok((c1, y)) =>
      match MatchTerminal(c1, TerminalToken.Comma)
      case Err(e) => Err(e)
      case Ok((c2, comma2)) =>
        match ExpressionSpec(c2, Bitshift, g)
        case Err(e) => Err(e)
        case Ok((c3, z)) =>
          match MatchTerminal(c3, Greater)
          case Err(e) => Err(e)
          case Ok((c4, close)) => Ok((c4, (y, comma2, z, close)))
  }

  /** `expect type ( value )`. */
  function ParseExpect(c: Cursor, g: Rules): (r: ParseResult<Expression>)
    requires RulesAdvance(g)
    ensures SoftFailure(r) <==> !AtTerminal(c, Expect)
    ensures r.Ok? ==> Remaining(r.value.0) < Remaining(c)
    ensures r.Ok? ==> r.value.1.ExpectExpr?
    decreases Remaining(c), 0
  {
    match MatchTerminal(c, Expect)
    case Err(e) => Err(e)
    case Ok((c1, keyword)) =>
      Commit(c, ExpectExpression,
        match g.typeRule(c1)
        case Err(e) => Err(e)
        case Ok((c2, ty)) =>
          match SpanOpen(c2, OpenBracket)
          case Err(e) => Err(e)
          case Ok(parts) =>
            match SpanRest(c2, parts, ExpectExpression, CloseBracket, ExpressionSpec(parts.inner, Precedence.None, g))
            case Err(e) => Err(e)
            case Ok((c3, (open, v, close))) => Ok((c3, ExpectExpr(keyword, ty, open, v, close))))
  }

  /**
   * `value`: the value forms in order, the function expression first so that its return
   * type is read; the first that does not fail softly decides, and if all do the error is
   * ExpectedExpression at the cursor.
   */
  function ParseValue(c: Cursor, g: Rules): (r: ParseResult<Expression>)
    requires RulesAdvance(g)
    ensures r.Ok? ==> Remaining(r.value.0) < Remaining(c)
    ensures r.Ok? ==> !IsOperation(r.value.1)
    decreases Remaining(c), 4
  {
    var functionValue := ParseFunction(c, g);
    if !SoftFailure(functionValue) then functionValue else
    var parens := ParseParens(c, g);
    if !SoftFailure(parens) then parens else
    var literal := ParseLiteral(c);
    if !SoftFailure(literal) then literal else
    ValueFromVar(c, g)
  }

  /** The value forms from `var` on. */
  function ValueFromVar(c: Cursor, g: Rules): (r: ParseResult<Expression>)
    requires RulesAdvance(g)
    ensures r.Ok? ==> Remaining(r.value.0) < Remaining(c)
    ensures r.Ok? ==> !IsOperation(r.value.1)
    decreases Remaining(c), 3
  {
    var variable := ParseVar(c);
    if !SoftFailure(variable) then variable else
    var rootVar := ParseRootVar(c);
    if !SoftFailure(rootVar) then rootVar else
    var prefix := ParsePrefix(c, g);
    if !SoftFailure(prefix) then
      if prefix.Ok? then ValueIsNoOperation(prefix.value.1); prefix else prefix
    else
    ValueFromTable(c, g)
  }

  /** Prefix, delegate, vector and `expect` expressions are values, not operations. */
  lemma ValueIsNoOperation(e: Expression)
    requires e.PrefixExpr? || e.DelegateExpr? || e.VectorExpr? || e.ExpectExpr?
    ensures !IsOperation(e)
  {
  }

  /** The value forms from `table` on. */
  function ValueFromTable(c: Cursor, g: Rules): (r: ParseResult<Expression>)
    requires RulesAdvance(g)
    ensures r.Ok? ==> Remaining(r.value.0) < Remaining(c)
    ensures r.Ok? ==> !IsOperation(r.value.1)
    decreases Remaining(c), 2
  {
    var table := ParseTableValue(c, g);
    if !SoftFailure(table) then table else
    var classValue := ParseClass(c, g);
    if !SoftFailure(classValue) then classValue else
    var arrayValue := ParseArray(c, g);
    if !SoftFailure(arrayValue) then arrayValue else
    ValueFromDelegate(c, g)
  }

  /** The value forms from `delegate` on, with ExpectedExpression when all fail softly. */
  function ValueFromDelegate(c: Cursor, g: Rules): (r: ParseResult<Expression>)
    requires RulesAdvance(g)
    ensures r.Ok? ==> Remaining(r.value.0) < Remaining(c)
    ensures r.Ok? ==> !IsOperation(r.value.1)
    decreases Remaining(c), 1
  {
    var delegate := ParseDelegate(c, g);
    if !SoftFailure(delegate) then
      if delegate.Ok? then ValueIsNoOperation(delegate.value.1); delegate else delegate
    else
    var vector := ParseVector(c, g);
    if !SoftFailure(vector) then
      if vector.Ok? then ValueIsNoOperation(vector.value.1); vector else vector
    else
    var expectValue := ParseExpect(c, g);
    if !SoftFailure(expectValue) then
      if expectValue.Ok? then ValueIsNoOperation(expectValue.value.1); expectValue else expectValue
    else
    Err(New(ExpectedExpression, StartIndex(c), Inline))
  }

  /** The function expression is tried before every other value form. */
  lemma FunctionValueFirst(c: Cursor, g: Rules)
    requires RulesAdvance(g) && !SoftFailure(ParseFunction(c, g))
    ensures ParseValue(c, g) == ParseFunction(c, g)
  {
  }

  /** When every value form fails softly, the value fails with ExpectedExpression at the cursor. */
  lemma NoValueMatches(c: Cursor, g: Rules)
    requires RulesAdvance(g)
    requires SoftFailure(ParseFunction(c, g)) && SoftFailure(ParseParens(c, g)) && SoftFailure(ParseLiteral(c))
    requires SoftFailure(ParseVar(c)) && SoftFailure(ParseRootVar(c)) && SoftFailure(ParsePrefix(c, g))
    requires SoftFailure(ParseTableValue(c, g)) && SoftFailure(ParseClass(c, g)) && SoftFailure(ParseArray(c, g))
    requires SoftFailure(ParseDelegate(c, g)) && SoftFailure(ParseVector(c, g)) && SoftFailure(ParseExpect(c, g))
    ensures ParseValue(c, g) == Err(New(ExpectedExpression, StartIndex(c), Inline))
  {
    assert ValueFromTable(c, g) == ValueFromDelegate(c, g);
    assert ValueFromVar(c, g) == ValueFromTable(c, g);
  }

  /** The specification of `expression`: a value, then operators folded onto it. */
  function ExpressionSpec(c: Cursor, prec: Precedence, g: Rules): (r: ParseResult<Expression>)
    requires RulesAdvance(g)
    ensures r.Ok? ==> Remaining(r.value.0) < Remaining(c)
    ensures r.Ok? ==> Binds(prec, r.value.1)
    decreases Remaining(c), 6
  {
    match ParseValue(c, g)
    case Err(e) => Err(e)
    case Ok((c1, v)) => Fold(c1, prec, v, g)
  }

  /**
   * The loop of `expression`: apply operators to `left` until one fails softly, which ends
   * the expression with the value so far; a fatal error ends the whole parse.
   */
  function Fold(c: Cursor, prec: Precedence, left: Expression, g: Rules): (r: ParseResult<Expression>)
    requires RulesAdvance(g)
    ensures r.Ok? ==> Remaining(r.value.0) <= Remaining(c)
    ensures r.Ok? ==> r.value.1 == left || Binds(prec, r.value.1)
    decreases Remaining(c), 5
  {
    match OperatorStep(c, prec, left, g)
    case Ok((c1, v)) => Fold(c1, prec, v, g)
    case Err(e) => if e.isFatal then Err(e) else Ok((c, left))
  }

  /**
   * `operator`: property, ternary, binary, index, postfix, call and comma, in that order;
   * the first that does not fail softly decides, and if all do the error is
   * ExpectedOperator at the cursor.
   */
  function OperatorStep(c: Cursor, prec: Precedence, left: Expression, g: Rules): (r: ParseResult<Expression>)
    requires RulesAdvance(g)
    ensures r.Ok? ==> Remaining(r.value.0) < Remaining(c)
    ensures r.Ok? ==> Binds(prec, r.value.1)
    decreases Remaining(c), 2
  {
    var property := ParseProperty(c, prec, left);
    if !SoftFailure(property) then property else
    var ternary := ParseTernary(c, prec, left, g);
    if !SoftFailure(ternary) then ternary else
    var binary := ParseBinary(c, prec, left, g);
    if !SoftFailure(binary) then binary else
    var index := ParseIndex(c, prec, left, g);
    if !SoftFailure(index) then index else
    LaterOperator(c, prec, left, g)
  }

  /** The operators after `index`, in order, with ExpectedOperator when all fail softly. */
  function LaterOperator(c: Cursor, prec: Precedence, left: Expression, g: Rules): (r: ParseResult<Expression>)
    requires RulesAdvance(g)
    ensures r.Ok? ==> Remaining(r.value.0) < Remaining(c)
    ensures r.Ok? ==> Binds(prec, r.value.1)
    decreases Remaining(c), 1
  {
    var postfix := ParsePostfix(c, prec, left);
    if !SoftFailure(postfix) then postfix else
    var call := ParseCall(c, prec, left, g);
    if !SoftFailure(call) then call else
    var comma := ParseComma(c, prec, left, g);
    if !SoftFailure(comma) then comma else
    Err(New(ExpectedOperator, StartIndex(c), Inline))
  }

  /** `property`: `.name`, only below property precedence. */
  function ParseProperty(c: Cursor, prec: Precedence, left: Expression): (r: ParseResult<Expression>)
    ensures !Below(prec, Property) ==> r == Err(PrecedenceError(c))
    ensures r.Ok? ==> Advanced(c, r.value.0, 2) && r.value.1.PropertyExpr? && r.value.1.base == left
  {
    if !Below(prec, Property) then Err(PrecedenceError(c))
    else
      Definitely(c, ExpressionRightHandSide, (x: Cursor) => MatchTerminal(x, Dot),
        (c1: Cursor, dot: Token) => MapVal(ParseMethodIdentifier(c1), (m: MethodName) => PropertyExpr(left, dot, m)))
  }

  /** `ternary`: `? a : b`, allowed up to ternary precedence; `b` is parsed at ternary precedence. */
  function ParseTernary(c: Cursor, prec: Precedence, left: Expression, g: Rules): (r: ParseResult<Expression>)
    requires RulesAdvance(g)
    ensures !AtMost(prec, Ternary) ==> r == Err(PrecedenceError(c))
    ensures r.Ok? ==> Remaining(r.value.0) < Remaining(c)
    ensures r.Ok? ==> Binds(prec, r.value.1)
    ensures r.Ok? ==> r.value.1.TernaryExpr? && r.value.1.condition == left && Binds(Ternary, r.value.1.falseValue)
    decreases Remaining(c), 0
  {
    if !AtMost(prec, Ternary) then Err(PrecedenceError(c))
    else
      match MatchTerminal(c, Question)
      case Err(e) => Err(e)
      case Ok((c1, question)) =>
        Commit(c, TernaryExpression,
          match ExpressionSpec(c1, Precedence.None, g)
          case Err(e) => Err(e)
          case Ok((c2, trueValue)) =>
            match MatchTerminal(c2, Colon)
            case Err(e) => Err(e)
            case Ok((c3, separator)) =>
              match ExpressionSpec(c3, Ternary, g)
              case Err(e) => Err(e)
              case Ok((c4, f)) => Ok((c4, TernaryExpr(left, question, trueValue, separator, f))))
  }

  /**
   * The determinant of `binary`: a binary operator that binds more tightly than the current
   * precedence. Otherwise the precedence error points just past the operator.
   */
  function BinaryOperatorAbove(c: Cursor, prec: Precedence): (r: ParseResult<Operators.BinaryOperator>)
    ensures r.Ok? ==> Remaining(r.value.0) < Remaining(c) && r.value.0.tokens == c.tokens
    ensures r.Ok? ==> ParseBinaryOperator(c) == r && Below(prec, Operators.BinaryPrecedence(r.value.1))
    ensures r.Err? ==> SoftFailure(r)
  {
    match ParseBinaryOperator(c)
    case Err(e) => Err(e)
    case Ok((c1, op)) =>
      if !Below(prec, Operators.BinaryPrecedence(op)) then Err(PrecedenceError(c1)) else Ok((c1, op))
  }

  /** `binary`: the operator, then its right side at the operator's own precedence. */
  function ParseBinary(c: Cursor, prec: Precedence, left: Expression, g: Rules): (r: ParseResult<Expression>)
    requires RulesAdvance(g)
    ensures r.Ok? ==> Remaining(r.value.0) < Remaining(c)
    ensures r.Ok? ==> Binds(prec, r.value.1)
    ensures r.Ok? ==>
      && r.value.1.BinaryExpr? && r.value.1.left == left
      && Binds(Operators.BinaryPrecedence(r.value.1.binary), r.value.1.right)
    decreases Remaining(c), 0
  {
    match BinaryOperatorAbove(c, prec)
    case Err(e) => Err(e)
    case Ok((c1, op)) =>
      Commit(c, ExpressionRightHandSide,
        match ExpressionSpec(c1, Operators.BinaryPrecedence(op), g)
        case Err(e) => Err(e)
        case Ok((c2, right)) => Ok((c2, BinaryExpr(left, op, right))))
  }

  /** `index`: `[ expression ]`, only below postfix precedence. */
  function ParseIndex(c: Cursor, prec: Precedence, left: Expression, g: Rules): (r: ParseResult<Expression>)
    requires RulesAdvance(g)
    ensures !Below(prec, Postfix) ==> r == Err(PrecedenceError(c))
    ensures r.Ok? ==> Remaining(r.value.0) < Remaining(c)
    ensures r.Ok? ==> Binds(prec, r.value.1)
    ensures r.Ok? ==> r.value.1.IndexExpr? && r.value.1.base == left
    decreases Remaining(c), 0
  {
    if !Below(prec, Postfix) then Err(PrecedenceError(c))
    else
      match SpanOpen(c, OpenSquare)
      case Err(e) => Err(e)
      case Ok(parts) =>
        match SpanRest(c, parts, IndexExpression, CloseSquare, ExpressionSpec(parts.inner, Precedence.None, g))
        case Err(e) => Err(e)
        case Ok((c1, (open, i, close))) => Ok((c1, IndexExpr(left, open, i, close)))
  }

  /** `postfix`: `++` or `--`, only below postfix precedence. */
  function ParsePostfix(c: Cursor, prec: Precedence, left: Expression): (r: ParseResult<Expression>)
    ensures !Below(prec, Postfix) ==> r == Err(PrecedenceError(c))
    ensures Below(prec, Postfix) ==> (r.Ok? <==> ParsePostfixOperator(c).Ok?)
    ensures r.Ok? ==> Advanced(c, r.value.0, 1) && r.value.1 == PostfixExpr(left, ParsePostfixOperator(c).value.1)
  {
    if !Below(prec, Postfix) then Err(PrecedenceError(c))
    else MapVal(ParsePostfixOperator(c), (op: Operators.PostfixOperator) => PostfixExpr(left, op))
  }

  /**
   * The post-initializer table of a call: absent when the `)` ended its line, so that a
   * block after a call on the next line is not read as a table.
   */
  function PostInitializer(c: Cursor, g: Rules): (r: ParseResult<Option<Table>>)
    requires RulesAdvance(g)
    ensures IsNewline(c) ==> r == Ok((c, Option.None))
    ensures !IsNewline(c) ==> r == Opt(c, ParseTable(c, g))
    ensures r.Ok? ==> Remaining(r.value.0) <= Remaining(c)
  {
    if IsNewline(c) then Ok((c, Option.None)) else Opt(c, ParseTable(c, g))
  }

  /**
   * `call`: `( arguments )`, only below postfix precedence, then the post-initializer; the
   * call is certain once its brackets are read.
   */
  function ParseCall(c: Cursor, prec: Precedence, left: Expression, g: Rules): (r: ParseResult<Expression>)
    requires RulesAdvance(g)
    ensures !Below(prec, Postfix) ==> r == Err(PrecedenceError(c))
    ensures r.Ok? ==> Remaining(r.value.0) < Remaining(c)
    ensures r.Ok? ==> Binds(prec, r.value.1)
    ensures r.Ok? ==> r.value.1.CallExpr? && r.value.1.callee == left && ArgumentsBind(r.value.1.arguments)
    decreases Remaining(c), 0
  {
    if !Below(prec, Postfix) then Err(PrecedenceError(c))
    else
      match SpanOpen(c, OpenBracket)
      case Err(e) => Err(e)
      case Ok(parts) =>
        match SpanRest(c, parts, CallExpression, CloseBracket, Arguments(parts.inner, g))
        case Err(e) => Err(e)
        case Ok((c1, (open, args, close))) =>
          Commit(c, CallExpression,
            match PostInitializer(c1, g)
            case Err(e) => Err(e)
            case Ok((c2, t)) => Ok((c2, CallExpr(left, open, args, close, t))))
  }

  /** The argument list of a call: `separated_list_trailing0` of expressions at comma precedence. */
  function Arguments(c: Cursor, g: Rules): (r: ParseResult<SeparatedListTrailing0<Expression>>)
    requires RulesAdvance(g)
    ensures r.Ok? ==> Remaining(r.value.0) <= Remaining(c)
    ensures r.Ok? ==> ArgumentsBind(r.value.1)
    decreases Remaining(c), 7
  {
    Opt(c,
      match ExpressionSpec(c, Precedence.Comma, g)
      case Err(e) => Err(e)
      case Ok((c1, first)) =>
        var tail := ArgumentTail(c1, g);
        if tail.Ok? then
          PushAllKeeps(Single(first), tail.value.1.0, (e: Expression) => Binds(Precedence.Comma, e));
          FinishTrailing(Single(first), tail)
        else FinishTrailing(Single(first), tail))
  }

  /** The rest of the arguments after the first: `separated_list_trailing1`'s loop. */
  function ArgumentTail(c: Cursor, g: Rules): (r: ParseResult<(seq<(Token, Expression)>, Option<Token>)>)
    requires RulesAdvance(g)
    ensures r.Ok? ==> Remaining(r.value.0) <= Remaining(c)
    ensures r.Ok? ==> forall i :: 0 <= i < |r.value.1.0| ==> Binds(Precedence.Comma, r.value.1.0[i].1)
    decreases Remaining(c), 0
  {
    match MatchTerminal(c, TerminalToken.Comma)
    case Err(e) => if e.isFatal then Err(e) else Ok((c, ([], Option.None)))
    case Ok((c1, s)) =>
      match ExpressionSpec(c1, Precedence.Comma, g)
      case Err(e) => if e.isFatal then Err(e) else Ok((c1, ([], Some(s))))
      case Ok((c2, v)) =>
        match ArgumentTail(c2, g)
        case Err(e) => Err(e)
        case Ok((c3, (pairs, trailing))) => Ok((c3, ([(s, v)] + pairs, trailing)))
  }

  /**
   * `comma`: `, b, c ...` after `left`, only below comma precedence; the items are read by
   * `separated_list1` and `left` is inserted in front with the first comma.
   */
  function ParseComma(c: Cursor, prec: Precedence, left: Expression, g: Rules): (r: ParseResult<Expression>)
    requires RulesAdvance(g)
    ensures !Below(prec, Precedence.Comma) ==> r == Err(PrecedenceError(c))
    ensures r.Ok? ==> Remaining(r.value.0) < Remaining(c)
    ensures r.Ok? ==> Binds(prec, r.value.1)
    ensures r.Ok? ==>
      && r.value.1.CommaExpr? && |r.value.1.values.items| > 0 && r.value.1.values.items[0].0 == left
      && (forall i :: 1 <= i < |r.value.1.values.items| ==> Binds(Precedence.Comma, r.value.1.values.items[i].0))
      && Binds(Precedence.Comma, r.value.1.values.lastItem)
    decreases Remaining(c), 0
  {
    if !Below(prec, Precedence.Comma) then Err(PrecedenceError(c))
    else
      match MatchTerminal(c, TerminalToken.Comma)
      case Err(e) => Err(e)
      case Ok((c1, firstComma)) =>
        Commit(c, CommaExpression,
          match ExpressionSpec(c1, Precedence.Comma, g)
          case Err(e) => Err(e)
          case Ok((c2, first)) =>
            match CommaTail(c2, g)
            case Err(e) => Err(e)
            case Ok((c3, pairs)) =>
              PushAllKeeps(Single(first), pairs, (e: Expression) => Binds(Precedence.Comma, e));
              Ok((c3, CommaExpr(Inserted(PushAll(Single(first), pairs), left, firstComma)))))
  }

  /** The (comma, item) pairs after the first item: `separated_list1`'s loop. */
  function CommaTail(c: Cursor, g: Rules): (r: ParseResult<seq<(Token, Expression)>>)
    requires RulesAdvance(g)
    ensures r.Ok? ==> Remaining(r.value.0) <= Remaining(c)
    ensures r.Ok? ==> forall i :: 0 <= i < |r.value.1| ==> Binds(Precedence.Comma, r.value.1[i].1)
    decreases Remaining(c), 0
  {
    match MatchTerminal(c, TerminalToken.Comma)
    case Err(e) => if e.isFatal then Err(e) else Ok((c, []))
    case Ok((c1, s)) =>
      match ExpressionSpec(c1, Precedence.Comma, g)
      case Err(e) => Err(e)
      case Ok((c2, v)) => PrependValues([(s, v)], CommaTail(c2, g))
  }

  // ---------------------------------------------------------------------------------------
  // The loop of `expression`

  /** `expression`: a value, then operators applied in a loop until one fails softly. */
  method ParseExpression(c: Cursor, prec: Precedence, g: Rules) returns (r: ParseResult<Expression>)
    requires RulesAdvance(g)
    ensures r == ExpressionSpec(c, prec, g)
  {
    var first := ParseValue(c, g);
    if first.Err? {
      return Err(first.error);
    }
    var tokens := first.value.0;
    var value := first.value.1;
    while true
      invariant Fold(first.value.0, prec, first.value.1, g) == Fold(tokens, prec, value, g)
      decreases Remaining(tokens)
    {
      match OperatorStep(tokens, prec, value, g)
      case Ok((next, v)) =>
        tokens := next;
        value := v;
      case Err(e) =>
        if e.isFatal {
          return Err(e);
        }
        return Ok((tokens, value));
    }
  }
}

// Parts of the control statements: the `else` branch, the condition of a switch case, the
// declaration of a `for` loop, and the index and value of a `foreach` loop.
module ControlParsers {
  import opened Wrappers
  import opened Tokens
  import opened TokenLists
  import opened Contexts
  import opened ParseErrors
  import opened TerminalParsers
  import opened Combinators
  import opened SeparatedLists
  import opened ParseResultExts
  import opened IdentifierParsers
  import Precedences
  import Expressions
  import opened Statements

  /** `else` and the statement after it. */
  datatype IfElse = IfElse(elseKeyword: Token, body: Statement)

  datatype SwitchCaseCondition =
    | DefaultCase(defaultKeyword: Token)
    | ValueCase(caseKeyword: Token, value: Expression)

  /** The first clause of a `for` loop: a variable declaration or an expression. */
  datatype ForDeclaration =
    | DeclarationFor(ty: Elided, declarations: SeparatedListTrailing1<Elided>)
    | ExpressionFor(value: Expression)

  /** `Type? name` and the token after it: `,` for the index, `in` for the value. */
  datatype ForeachBinding = ForeachBinding(ty: Option<Elided>, name: Name, separator: Token)

  /** `if_else`: once `else` is read, a statement must follow. */
  function ParseElse(c: Cursor, g: Grammar): (r: ParseResult<IfElse>)
    ensures SoftFailure(r) <==> !AtTerminal(c, Else)
    ensures r.Ok? ==> r.value.1.elseKeyword == c.tokens[c.index].token
  {
    match MatchTerminal(c, Else)
    case Err(e) => Err(e)
    case Ok((c1, elseKeyword)) =>
      Commit(c, ElseStatement,
        match StatementSpec(c1, g)
        case Err(e) => Err(e)
        case Ok((c2, body)) => Ok((c2, IfElse(elseKeyword, body))))
  }

  /**
   * `switch_case_condition`: `default` is checked first; otherwise `case` commits to a
   * value expression.
   */
  function ParseSwitchCaseCondition(c: Cursor, g: Grammar): (r: ParseResult<SwitchCaseCondition>)
    ensures AtTerminal(c, Default) ==>
      r == Ok((MatchTerminal(c, Default).value.0, DefaultCase(c.tokens[c.index].token)))
    ensures !AtTerminal(c, Default) && !AtTerminal(c, Case) ==>
      r == Err(New(ExpectedTerminal(Case), c.index, Inline))
    ensures AtTerminal(c, Case) && r.Err? ==> r.error.isFatal
    ensures r.Ok? && r.value.1.ValueCase? ==> AtTerminal(c, Case)
  {
    match MatchTerminal(c, Default)
    case Ok((c1, defaultKeyword)) => Ok((c1, DefaultCase(defaultKeyword)))
    case Err(_) =>
      match MatchTerminal(c, Case)
      case Err(e) => Err(e)
      case Ok((c1, caseKeyword)) =>
        Commit(c, SwitchCaseCondition,
          match Expressions.ExpressionSpec(c1, Precedences.Precedence.None, g.expression)
          case Err(e) => Err(e)
          case Ok((c2, value)) => Ok((c2, ValueCase(caseKeyword, value))))
  }

  /**
   * `for_declaration`: a variable declaration is tried first. When it fails softly an
   * expression is tried, and if that fails softly too, the declaration's error is reported.
   */
  function ParseForDeclaration(c: Cursor, g: Grammar): (r: ParseResult<ForDeclaration>)
    ensures ParseVarDeclaration(c, g).Ok? ==>
      r.Ok? && r.value.1.DeclarationFor? && r.value.0 == ParseVarDeclaration(c, g).value.0
    ensures ParseVarDeclaration(c, g).Err? && ParseVarDeclaration(c, g).error.isFatal ==>
      r == Err(ParseVarDeclaration(c, g).error)
    ensures r.Ok? && r.value.1.ExpressionFor? ==> SoftFailure(ParseVarDeclaration(c, g))
    ensures SoftFailure(ParseVarDeclaration(c, g))
            && SoftFailure(Expressions.ExpressionSpec(c, Precedences.Precedence.None, g.expression)) ==>
      r == Err(ParseVarDeclaration(c, g).error)
  {
    match ParseVarDeclaration(c, g)
    case Ok((c1, declaration)) => Ok((c1, DeclarationFor(declaration.ty, declaration.declarations)))
    case Err(declarationError) =>
      if declarationError.isFatal then Err(declarationError)
      else
        match Expressions.ExpressionSpec(c, Precedences.Precedence.None, g.expression)
        case Ok((c1, value)) => Ok((c1, ExpressionFor(value)))
        case Err(e) => if e.isFatal then Err(e) else Err(declarationError)
  }

  /**
   * The typed binding of `foreach`: a type, made non-fatal and not ending a line, then a
   * name and the separator. None of its errors is fatal.
   */
  function TypedBinding(c: Cursor, g: Grammar, separator: TerminalToken): (r: ParseResult<ForeachBinding>)
    ensures r.Err? ==> !r.error.isFatal
    ensures r.Ok? ==> r.value.1.ty.Some? && IsTerminalOfType(r.value.1.separator, separator)
  {
    match PreventEndingLine(c, NotDefinite(g.expression.typeRule(c)))
    case Err(e) => Err(e)
    case Ok((c1, ty)) =>
      match ParseIdentifier(c1)
      case Err(e) => Err(e)
      case Ok((c2, name)) =>
        match MatchTerminal(c2, separator)
        case Err(e) => Err(e)
        case Ok((c3, sep)) => Ok((c3, ForeachBinding(Some(ty), name, sep)))
  }

  /** The untyped binding: a name and the separator. */
  function UntypedBinding(c: Cursor, separator: TerminalToken): (r: ParseResult<ForeachBinding>)
    ensures r.Ok? <==> ParseIdentifier(c).Ok? && AtTerminal(ParseIdentifier(c).value.0, separator)
    ensures r.Ok? ==>
      Advanced(c, r.value.0, 2) && r.value.1.ty.None? && r.value.1.name == ParseIdentifier(c).value.1
  {
    match ParseIdentifier(c)
    case Err(e) => Err(e)
    case Ok((c1, name)) =>
      match MatchTerminal(c1, separator)
      case Err(e) => Err(e)
      case Ok((c2, sep)) => Ok((c2, ForeachBinding(None, name, sep)))
  }

  /** The typed binding is tried first; any failure of it falls back on the untyped one. */
  function ParseBinding(c: Cursor, g: Grammar, separator: TerminalToken): (r: ParseResult<ForeachBinding>)
    ensures TypedBinding(c, g, separator).Ok? ==> r == TypedBinding(c, g, separator)
    ensures TypedBinding(c, g, separator).Err? ==> r == UntypedBinding(c, separator)
  {
    match Alt(TypedBinding(c, g, separator))
    case Some(res) => res
    case None => UntypedBinding(c, separator)
  }

  /** `foreach_index`: `Type? name ,`. */
  function ParseForeachIndex(c: Cursor, g: Grammar): (r: ParseResult<ForeachBinding>)
    ensures r.Ok? ==> IsTerminalOfType(r.value.1.separator, TerminalToken.Comma)
    ensures TypedBinding(c, g, TerminalToken.Comma).Ok? ==> r.Ok? && r.value.1.ty.Some?
  {
    ParseBinding(c, g, TerminalToken.Comma)
  }

  /** `foreach_value`: `Type? name in`. */
  function ParseForeachValue(c: Cursor, g: Grammar): (r: ParseResult<ForeachBinding>)
    ensures r.Ok? ==> IsTerminalOfType(r.value.1.separator, In)
    ensures TypedBinding(c, g, In).Ok? ==> r.Ok? && r.value.1.ty.Some?
  {
    ParseBinding(c, g, In)
  }
}

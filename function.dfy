// The argument list of a function declaration: typed or untyped arguments, each with an
// optional initializer, and the `...` that makes the function variadic.
module FunctionParsers {
  import opened Wrappers
  import opened Tokens
  import opened TokenLists
  import opened ParseErrors
  import opened TerminalParsers
  import opened Combinators
  import opened SeparatedLists
  import opened ListParsers
  import opened IdentifierParsers
  import Expressions

  type Elided = Expressions.Elided

  /** `Type? name initializer?`. */
  datatype FunctionArg = FunctionArg(ty: Option<Elided>, name: Name, initializer: Option<Elided>)

  datatype FunctionArgs =
    /** Arguments, if any, and no `...`. */
    | NonVariable(args: SeparatedListTrailing0<FunctionArg>)
    /** `...` alone. */
    | EmptyVariable(vararg: Token)
    /** Arguments, a comma, then `...`. */
    | NonEmptyVariable(list: SeparatedList1<FunctionArg>, comma: Token, vararg: Token)

  /** `typed_function_arg`: a type, a name and an optional initializer. */
  function TypedArg(c: Cursor, typeRule: Parser<Elided>, initializer: Parser<Elided>)
    : (r: ParseResult<FunctionArg>)
    requires Advances(initializer)
    ensures r.Ok? ==> typeRule(c).Ok? && Remaining(r.value.0) < Remaining(typeRule(c).value.0)
    ensures r.Ok? ==> r.value.1.ty == Some(typeRule(c).value.1)
    ensures typeRule(c).Err? ==> r == Err(typeRule(c).error)
  {
    match typeRule(c)
    case Err(e) => Err(e)
    case Ok((c1, ty)) =>
      match ParseIdentifier(c1)
      case Err(e) => Err(e)
      case Ok((c2, name)) =>
        match Opt(c2, initializer(c2))
        case Err(e) => Err(e)
        case Ok((c3, init)) => Ok((c3, FunctionArg(Some(ty), name, init)))
  }

  /** `untyped_function_arg`: a name and an optional initializer. */
  function UntypedArg(c: Cursor, initializer: Parser<Elided>): (r: ParseResult<FunctionArg>)
    requires Advances(initializer)
    ensures r.Ok? ==> Remaining(r.value.0) < Remaining(c) && r.value.1.ty.None?
    ensures r.Ok? <==> ParseIdentifier(c).Ok? && !(initializer(ParseIdentifier(c).value.0).Err?
                                                  && initializer(ParseIdentifier(c).value.0).error.isFatal)
    ensures r.Ok? ==> r.value.1.name == ParseIdentifier(c).value.1
  {
    match ParseIdentifier(c)
    case Err(e) => Err(e)
    case Ok((c1, name)) =>
      match Opt(c1, initializer(c1))
      case Err(e) => Err(e)
      case Ok((c2, init)) => Ok((c2, FunctionArg(None, name, init)))
  }

  /** `function_arg`: the typed form first, the untyped form after a soft failure of it. */
  function ParseFunctionArg(c: Cursor, typeRule: Parser<Elided>, initializer: Parser<Elided>)
    : (r: ParseResult<FunctionArg>)
    requires Advances(typeRule) && Advances(initializer)
    ensures r.Ok? ==> Remaining(r.value.0) < Remaining(c)
    ensures !SoftFailure(TypedArg(c, typeRule, initializer)) ==> r == TypedArg(c, typeRule, initializer)
    ensures SoftFailure(TypedArg(c, typeRule, initializer)) ==> r == UntypedArg(c, initializer)
  {
    match Alt(TypedArg(c, typeRule, initializer))
    case Some(res) => res
    case None => UntypedArg(c, initializer)
  }

  function ArgParser(typeRule: Parser<Elided>, initializer: Parser<Elided>): (p: Parser<FunctionArg>)
    requires Advances(typeRule) && Advances(initializer)
    ensures Advances(p)
    ensures forall c :: p(c) == ParseFunctionArg(c, typeRule, initializer)
  {
    (x: Cursor) => ParseFunctionArg(x, typeRule, initializer)
  }

  /**
   * `function_args`: a list of arguments with an optional trailing comma. With no arguments,
   * `...` may follow at once; after a trailing comma it may follow too; otherwise the list
   * is not variadic.
   */
  function ParseFunctionArgs(c: Cursor, typeRule: Parser<Elided>, initializer: Parser<Elided>)
    : (r: ParseResult<FunctionArgs>)
    requires Advances(typeRule) && Advances(initializer)
    ensures r.Err? ==> r.error.isFatal
    // The common case: a list of arguments not followed by `...` after a trailing comma is
    // that list, not variadic.
    ensures var parsed := SeparatedListTrailing0Spec(c, ArgParser(typeRule, initializer), TerminalParser(TerminalToken.Comma));
      parsed.Ok? && parsed.value.1.Some?
        && (parsed.value.1.value.trailing.None? || !AtTerminal(parsed.value.0, Ellipsis)) ==>
      r == Ok((parsed.value.0, NonVariable(parsed.value.1)))
  {
    var parsed: ParseResult<SeparatedListTrailing0<FunctionArg>> :=
      SeparatedListTrailing0Spec(c, ArgParser(typeRule, initializer), TerminalParser(TerminalToken.Comma));
    SeparatedListTrailing0Absent(c, ArgParser(typeRule, initializer), TerminalParser(TerminalToken.Comma));
    match parsed
    case Err(e) => Err(e)
    case Ok((c1, None)) =>
      (match MatchTerminal(c1, Ellipsis)
       case Ok((c2, vararg)) => Ok((c2, EmptyVariable(vararg)))
       case Err(_) => Ok((c1, NonVariable(None))))
    case Ok((c1, Some(args))) =>
      if args.trailing.Some? then
        match Opt(c1, MatchTerminal(c1, Ellipsis))
        case Err(e) => Err(e)
        case Ok((c2, Some(vararg))) =>
          Ok((c2, NonEmptyVariable(SeparatedList1(args.items, args.lastItem), args.trailing.value, vararg)))
        case Ok((c2, None)) => Ok((c2, NonVariable(Some(args))))
      else Ok((c1, NonVariable(Some(args))))
  }

  /**
   * With no argument, `...` gives an empty variadic list and anything else an absent list,
   * read from where the arguments would have started.
   */
  lemma NoArguments(c: Cursor, typeRule: Parser<Elided>, initializer: Parser<Elided>)
    requires Advances(typeRule) && Advances(initializer)
    requires SoftFailure(ParseFunctionArg(c, typeRule, initializer))
    ensures AtTerminal(c, Ellipsis) ==>
      ParseFunctionArgs(c, typeRule, initializer) == Ok((MatchTerminal(c, Ellipsis).value.0, EmptyVariable(c.tokens[c.index].token)))
    ensures !AtTerminal(c, Ellipsis) ==> ParseFunctionArgs(c, typeRule, initializer) == Ok((c, NonVariable(None)))
  {
    SeparatedListTrailing0Absent(c, ArgParser(typeRule, initializer), TerminalParser(TerminalToken.Comma));
  }

  /**
   * `...` is variadic only right at the start or after a trailing comma: a list returned as
   * not variadic with a trailing comma is not followed by `...`, and a variadic list keeps
   * its arguments and the comma before `...`.
   */
  lemma VarargPlacement(c: Cursor, typeRule: Parser<Elided>, initializer: Parser<Elided>)
    requires Advances(typeRule) && Advances(initializer)
    requires ParseFunctionArgs(c, typeRule, initializer).Ok?
    ensures var (c1, args) := ParseFunctionArgs(c, typeRule, initializer).value;
      && (args.NonVariable? && args.args.Some? && args.args.value.trailing.Some? ==> !AtTerminal(c1, Ellipsis))
      && (args.NonEmptyVariable? ==>
            var list := SeparatedListTrailing0Spec(c, ArgParser(typeRule, initializer), TerminalParser(TerminalToken.Comma)).value.1.value;
            && list.trailing == Some(args.comma)
            && args.list == SeparatedList1(list.items, list.lastItem)
            && IsTerminalOfType(args.vararg, Ellipsis))
      && (args.EmptyVariable? ==> SoftFailure(ParseFunctionArg(c, typeRule, initializer)))
  {
    SeparatedListTrailing0Absent(c, ArgParser(typeRule, initializer), TerminalParser(TerminalToken.Comma));
  }
}

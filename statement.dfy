// Statements: the empty statement, the order in which the statement forms are tried, and
// the forms whose rules belong to this model: constructor, function and variable
// declarations, `return`, `yield`, `const` and expression statements.
module Statements {
  import opened Wrappers
  import opened Tokens
  import opened TokenLists
  import opened Contexts
  import opened ParseErrors
  import opened TerminalParsers
  import opened Combinators
  import opened SeparatedLists
  import opened ListParsers
  import opened ParseResultExts
  import opened TokenListExts
  import opened IdentifierParsers
  import Precedences
  import Expressions

  type Elided = Expressions.Elided
  type Expression = Expressions.Expression

  /** The statement forms, in the order `statement_type` tries them. */
  datatype StatementForm =
    | EmptyForm | ConstructorForm | FunctionForm | VarForm | BlockForm | IfForm | WhileForm
    | DoWhileForm | SwitchForm | ForForm | ForeachForm | BreakForm | ContinueForm | ReturnForm
    | YieldForm | ClassForm | TryCatchForm | ThrowForm | ConstForm | EnumForm | ThreadForm
    | DelayThreadForm | WaitThreadForm | WaitForm | StructForm | TypedefForm | GlobalForm
    | GlobalizeAllFunctionsForm | UntypedForm | ExpressionForm

  /** The forms whose rules are written out here; the others are rules of the grammar. */
  predicate Modelled(f: StatementForm) {
    f.EmptyForm? || f.ConstructorForm? || f.FunctionForm? || f.VarForm? || f.ReturnForm?
    || f.YieldForm? || f.ConstForm? || f.ExpressionForm?
  }

  const Forms: seq<StatementForm> := [
    EmptyForm, ConstructorForm, FunctionForm, VarForm, BlockForm, IfForm, WhileForm,
    DoWhileForm, SwitchForm, ForForm, ForeachForm, BreakForm, ContinueForm, ReturnForm,
    YieldForm, ClassForm, TryCatchForm, ThrowForm, ConstForm, EnumForm, ThreadForm,
    DelayThreadForm, WaitThreadForm, WaitForm, StructForm, TypedefForm, GlobalForm,
    GlobalizeAllFunctionsForm, UntypedForm, ExpressionForm]

  datatype StatementType =
    | EmptyStmt(empty: Option<Token>)
    | ConstructorDeclarationStmt(functionKeyword: Token, namespaces: seq<(Name, Token)>,
                                 lastName: Name, lastNamespace: Token, constructorKeyword: Token,
                                 declaration: Elided)
    | FunctionDeclarationStmt(returnType: Option<Elided>, functionKeyword: Token,
                              qualifiedName: SeparatedList1<Name>, declaration: Elided)
    | VarDeclarationStmt(ty: Elided, declarations: SeparatedListTrailing1<Elided>)
    | ReturnStmt(returnKeyword: Token, value: Option<Expression>)
    | YieldStmt(yieldKeyword: Token, value: Option<Expression>)
    | ConstStmt(constKeyword: Token, constType: Option<Elided>, name: Name, initializer: Elided)
    | ExpressionStmt(expression: Expression)
    | OtherStmt(form: StatementForm, syntax: Elided)

  /** A statement and the `;` that may end it. */
  datatype Statement = Statement(ty: StatementType, end: Option<Token>)

  /**
   * The grammar rules of the files this model leaves out: those the expression parser
   * takes, a variable declaration and initializer, and the statement forms not written
   * out here.
   */
  datatype StatementRules = StatementRules(
    expression: Expressions.Rules,
    varDeclaration: Parser<Elided>,
    varInitializer: Parser<Elided>,
    other: StatementForm -> Parser<Elided>)

  ghost predicate StatementRulesAdvance(g: StatementRules) {
    Expressions.RulesAdvance(g.expression) && Advances(g.varDeclaration) && Advances(g.varInitializer)
  }

  /** A rule that never matches; it only shows that grammars whose rules advance exist. */
  function NoMatch(c: Cursor): ParseResult<Elided> {
    Err(New(ExpectedStatement, StartIndex(c), Inline))
  }

  type Grammar = g: StatementRules | StatementRulesAdvance(g)
    ghost witness StatementRules(
      Expressions.Rules(NoMatch, NoMatch, NoMatch, NoMatch, NoMatch), NoMatch, NoMatch, f => NoMatch)

  /** The form of statement each form's parser produces. */
  predicate Produces(f: StatementForm, s: StatementType) {
    match f
    case EmptyForm => s.EmptyStmt?
    case ConstructorForm => s.ConstructorDeclarationStmt?
    case FunctionForm => s.FunctionDeclarationStmt?
    case VarForm => s.VarDeclarationStmt?
    case ReturnForm => s.ReturnStmt?
    case YieldForm => s.YieldStmt?
    case ConstForm => s.ConstStmt?
    case ExpressionForm => s.ExpressionStmt?
    case _ => s.OtherStmt? && s.form == f
  }

  /** `empty_statement`: the Empty token that carries trailing comments. */
  function ParseEmptyStatement(c: Cursor): (r: ParseResult<StatementType>)
    ensures r.Ok? <==> !IsEnded(c) && c.tokens[c.index].token.ty.Empty?
    ensures r.Ok? ==> Advanced(c, r.value.0, 1) && r.value.1 == EmptyStmt(Some(c.tokens[c.index].token))
    ensures r.Err? ==> r.error == New(Internal(InternalErrorType.Empty), c.index, Inline)
  {
    match EmptyToken(c)
    case Some((rest, t)) => Ok((rest, EmptyStmt(Some(t))))
    case None => Err(New(Internal(InternalErrorType.Empty), StartIndex(c), Inline))
  }

  /**
   * The loop of `constructor_declaration_statement`: while an identifier follows, it must be
   * followed by `::`, and the name and `::` before it join the namespaces.
   */
  function NamespacesSpec(c: Cursor, namespaces: seq<(Name, Token)>, last: (Name, Token))
    : (r: ParseResult<(seq<(Name, Token)>, (Name, Token))>)
    ensures r.Ok? ==> Remaining(r.value.0) <= Remaining(c) && ParseIdentifier(r.value.0).Err?
    ensures r.Ok? && r.value.0 == c ==> r.value.1 == (namespaces, last)
    ensures r.Err? ==> !r.error.isFatal && r.error.ty == ExpectedTerminal(Namespace)
    decreases Remaining(c)
  {
    // `opt` of an identifier never fails: the identifier parser's errors are not fatal.
    match ParseIdentifier(c)
    case Err(_) => Ok((c, (namespaces, last)))
    case Ok((c1, name)) =>
      match MatchTerminal(c1, Namespace)
      case Err(e) => Err(e)
      case Ok((c2, namespace)) => NamespacesSpec(c2, namespaces + [last], (name, namespace))
  }

  /** The loop only appends: the namespaces read before stay, in order, at the front. */
  lemma {:induction false} NamespacesKeepEarlier(c: Cursor, namespaces: seq<(Name, Token)>, last: (Name, Token))
    requires NamespacesSpec(c, namespaces, last).Ok?
    ensures var names := NamespacesSpec(c, namespaces, last).value.1.0;
      |names| >= |namespaces| && names[..|namespaces|] == namespaces
    decreases Remaining(c)
  {
    match ParseIdentifier(c)
    case Err(_) =>
    case Ok((c1, name)) =>
      var (c2, namespace) := MatchTerminal(c1, Namespace).value;
      NamespacesKeepEarlier(c2, namespaces + [last], (name, namespace));
      var names := NamespacesSpec(c, namespaces, last).value.1.0;
      assert names[..|namespaces|] == names[..|namespaces| + 1][..|namespaces|];
  }

  /** Every name the loop reads is followed by a `::`: the chain is `a :: b :: … ::`. */
  lemma {:induction false} NamespacesSeparated(c: Cursor, namespaces: seq<(Name, Token)>, last: (Name, Token))
    requires IsTerminalOfType(last.1, Namespace)
    requires forall i :: 0 <= i < |namespaces| ==> IsTerminalOfType(namespaces[i].1, Namespace)
    requires NamespacesSpec(c, namespaces, last).Ok?
    ensures var (names, final) := NamespacesSpec(c, namespaces, last).value.1;
      && IsTerminalOfType(final.1, Namespace)
      && forall i :: 0 <= i < |names| ==> IsTerminalOfType(names[i].1, Namespace)
    decreases Remaining(c)
  {
    match ParseIdentifier(c)
    case Err(_) =>
    case Ok((c1, name)) =>
      var (c2, namespace) := MatchTerminal(c1, Namespace).value;
      NamespacesSeparated(c2, namespaces + [last], (name, namespace));
  }

  /** The while loop of `constructor_declaration_statement`, from the first `name ::`. */
  method ParseNamespaces(c: Cursor, first: (Name, Token))
    returns (r: ParseResult<(seq<(Name, Token)>, (Name, Token))>)
    ensures r == NamespacesSpec(c, [], first)
  {
    var tokens := c;
    var namespaces: seq<(Name, Token)> := [];
    var last := first;
    while true
      invariant NamespacesSpec(c, [], first) == NamespacesSpec(tokens, namespaces, last)
      decreases Remaining(tokens)
    {
      match ParseIdentifier(tokens) {
        case Err(_) =>
          return Ok((tokens, (namespaces, last)));
        case Ok((next, name)) =>
          match MatchTerminal(next, Namespace) {
            case Err(e) =>
              return Err(e);
            case Ok((after, namespace)) =>
              namespaces := namespaces + [last];
              last := (name, namespace);
              tokens := after;
          }
      }
    }
  }

  /** What `constructor_declaration_statement` is certain of: `function name :: … :: constructor`. */
  datatype ConstructorHead = ConstructorHead(
    functionKeyword: Token, namespaces: seq<(Name, Token)>, last: (Name, Token), constructorKeyword: Token)

  function ParseConstructorHead(c: Cursor): (r: ParseResult<ConstructorHead>)
    ensures r.Ok? ==> AtTerminal(c, Function) && Remaining(r.value.0) < Remaining(c)
    ensures r.Ok? ==> r.value.0.index > 0 && IsTerminalOfType(r.value.0.tokens[r.value.0.index - 1].token, Constructor)
    ensures r.Err? ==> !r.error.isFatal
  {
    match MatchTerminal(c, Function)
    case Err(e) => Err(e)
    case Ok((c1, functionKeyword)) =>
      match ParseIdentifier(c1)
      case Err(e) => Err(e)
      case Ok((c2, name)) =>
        match MatchTerminal(c2, Namespace)
        case Err(e) => Err(e)
        case Ok((c3, namespace)) => ConstructorHeadRest(c3, functionKeyword, (name, namespace))
  }

  /** The head after its first `name ::`: further `name ::` pairs, then `constructor`. */
  function ConstructorHeadRest(c: Cursor, functionKeyword: Token, first: (Name, Token)): (r: ParseResult<ConstructorHead>)
    ensures r.Ok? ==> Remaining(r.value.0) < Remaining(c)
    ensures r.Ok? ==> r.value.0.index > 0 && IsTerminalOfType(r.value.0.tokens[r.value.0.index - 1].token, Constructor)
    ensures r.Err? ==> !r.error.isFatal
  {
    match NamespacesSpec(c, [], first)
    case Err(e) => Err(e)
    case Ok((c1, (namespaces, last))) =>
      match MatchTerminal(c1, Constructor)
      case Err(e) => Err(e)
      case Ok((c2, constructorKeyword)) =>
        Ok((c2, ConstructorHead(functionKeyword, namespaces, last, constructorKeyword)))
  }

  /**
   * `constructor_declaration_statement`: once `function a :: … :: constructor` is read, the
   * declaration must follow, and its failure is fatal.
   */
  function ParseConstructorDeclaration(c: Cursor, g: Grammar): (r: ParseResult<StatementType>)
    ensures r.Ok? ==> r.value.1.ConstructorDeclarationStmt?
    ensures SoftFailure(r) <==> ParseConstructorHead(c).Err?
    ensures ParseConstructorHead(c).Ok? && r.Err? ==> r.error.context.Some?
  {
    match ParseConstructorHead(c)
    case Err(e) => Err(e)
    case Ok((c1, head)) =>
      Commit(c, FunctionDeclarationStatement,
        match g.expression.functionDeclaration(c1)
        case Err(e) => Err(e)
        case Ok((c2, declaration)) =>
          Ok((c2, ConstructorDeclarationStmt(head.functionKeyword, head.namespaces, head.last.0,
                                             head.last.1, head.constructorKeyword, declaration))))
  }

  /**
   * What `function_declaration_statement` is certain of: an optional return type that does
   * not end a line, then `function`. A type that fails to parse is not fatal here.
   */
  function ParseFunctionHead(c: Cursor, g: Grammar): (r: ParseResult<(Option<Elided>, Token)>)
    ensures r.Ok? ==> Remaining(r.value.0) < Remaining(c)
    ensures r.Ok? ==> r.value.0.index > 0 && IsTerminalOfType(r.value.0.tokens[r.value.0.index - 1].token, Function)
    ensures r.Ok? && AtTerminal(c, Function) && g.expression.typeRule(c).Err? ==> r.value.1.0.None?
  {
    match PreventEndingLine(c, Opt(c, NotDefinite(g.expression.typeRule(c))))
    case Err(e) => Err(e)
    case Ok((c1, returnType)) =>
      match MatchTerminal(c1, Function)
      case Err(e) => Err(e)
      case Ok((c2, functionKeyword)) => Ok((c2, (returnType, functionKeyword)))
  }

  /** `function_declaration_statement`: the name is a `::`-separated list of identifiers. */
  function ParseFunctionDeclaration(c: Cursor, g: Grammar): (r: ParseResult<StatementType>)
    ensures r.Ok? ==> r.value.1.FunctionDeclarationStmt?
    ensures r.Ok? ==> |Values(r.value.1.qualifiedName)| >= 1
    ensures ParseFunctionHead(c, g).Ok? && r.Err? ==> r.error.isFatal
  {
    match ParseFunctionHead(c, g)
    case Err(e) => Err(e)
    case Ok((c1, (returnType, functionKeyword))) =>
      Commit(c, FunctionDeclarationStatement,
        match SeparatedList1Spec(c1, IdentifierParser(), TerminalParser(Namespace))
        case Err(e) => Err(e)
        case Ok((c2, name)) =>
          match g.expression.functionDeclaration(c2)
          case Err(e) => Err(e)
          case Ok((c3, declaration)) =>
            Ok((c3, FunctionDeclarationStmt(returnType, functionKeyword, name, declaration))))
  }

  /** The items of a list that may end in a separator, in source order. */
  function TrailingValues<T>(list: SeparatedListTrailing1<T>): seq<T> {
    Values(SeparatedList1(list.items, list.lastItem))
  }

  /**
   * The declarations of a variable declaration statement, from the first declaration, the
   * comma after it and the declarations after that comma: the first pair is inserted in
   * front of the later ones, or, when none follows, the comma is left trailing.
   */
  function WithFirstDeclaration<T>(first: T, comma: Token, rest: SeparatedListTrailing0<T>)
    : (r: SeparatedListTrailing1<T>)
    ensures rest.None? ==> TrailingValues(r) == [first] && r.trailing == Some(comma)
    ensures rest.Some? ==> TrailingValues(r) == [first] + TrailingValues(rest.value)
    ensures rest.Some? ==> r.trailing == rest.value.trailing
    ensures |r.items| > 0 ==> r.items[0] == (first, comma)
  {
    match rest
    case Some(list) => IntoTrailing(Inserted(SeparatedList1(list.items, list.lastItem), first, comma), list.trailing)
    case None => SeparatedListTrailing1([], first, Some(comma))
  }

  /** What `var_declaration_statement` is certain of: a type, then a declaration. */
  function ParseVarHead(c: Cursor, g: Grammar): (r: ParseResult<(Elided, Elided)>)
    ensures r.Ok? ==> Remaining(r.value.0) < Remaining(c)
    ensures g.expression.typeRule(c).Err? ==> r.Err? && !r.error.isFatal
  {
    match NotDefinite(g.expression.typeRule(c))
    case Err(e) => Err(e)
    case Ok((c1, ty)) =>
      match g.varDeclaration(c1)
      case Err(e) => Err(e)
      case Ok((c2, first)) => Ok((c2, (ty, first)))
  }

  /** The declarations after the first one, from the tokens just after it. */
  function VarDeclarationsAfter(c: Cursor, first: Elided, g: Grammar)
    : (r: ParseResult<SeparatedListTrailing1<Elided>>)
    ensures !AtTerminal(c, TerminalToken.Comma) ==> r == Ok((c, SeparatedListTrailing1([], first, None)))
    ensures r.Ok? ==> TrailingValues(r.value.1)[0] == first
    ensures r.Err? ==> r.error.isFatal
  {
    match Opt(c, MatchTerminal(c, TerminalToken.Comma))
    case Err(e) => Err(e)
    case Ok((c1, None)) => Ok((c1, SeparatedListTrailing1([], first, None)))
    case Ok((c1, Some(comma))) =>
      SeparatedListTrailing0Absent(c1, g.varDeclaration, TerminalParser(TerminalToken.Comma));
      match SeparatedListTrailing0Spec(c1, g.varDeclaration, TerminalParser(TerminalToken.Comma))
      case Err(e) => Err(e)
      case Ok((c2, rest)) => Ok((c2, WithFirstDeclaration(first, comma, rest)))
  }

  /** `var_declaration_statement`: a type and a declaration commit to the statement. */
  function ParseVarDeclaration(c: Cursor, g: Grammar): (r: ParseResult<StatementType>)
    ensures r.Ok? ==> r.value.1.VarDeclarationStmt?
    ensures SoftFailure(r) <==> SoftFailure(ParseVarHead(c, g))
  {
    match ParseVarHead(c, g)
    case Err(e) => Err(e)
    case Ok((c1, (ty, first))) =>
      Commit(c, VarDeclarationStatement,
        match VarDeclarationsAfter(c1, first, g)
        case Err(e) => Err(e)
        case Ok((c2, declarations)) => Ok((c2, VarDeclarationStmt(ty, declarations))))
  }

  /**
   * "T a," with no declaration after the comma: no items, `a` last, and the comma trailing,
   * and the tokens returned are those after the comma.
   */
  lemma DanglingCommaDeclaration(c: Cursor, g: Grammar)
    requires ParseVarHead(c, g).Ok?
    requires var (c1, _) := ParseVarHead(c, g).value;
      AtTerminal(c1, TerminalToken.Comma) && SoftFailure(g.varDeclaration(MatchTerminal(c1, TerminalToken.Comma).value.0))
    ensures var (c1, (ty, first)) := ParseVarHead(c, g).value;
      var (c2, comma) := MatchTerminal(c1, TerminalToken.Comma).value;
      ParseVarDeclaration(c, g) == Ok((c2, VarDeclarationStmt(ty, SeparatedListTrailing1([], first, Some(comma)))))
  {
    var (c1, (ty, first)) := ParseVarHead(c, g).value;
    var (c2, comma) := MatchTerminal(c1, TerminalToken.Comma).value;
    SeparatedListTrailing0Absent(c2, g.varDeclaration, TerminalParser(TerminalToken.Comma));
  }

  /** The value of `return` or `yield`: none at a line break, else an optional expression. */
  function ReturnValue(c: Cursor, g: Grammar): (r: ParseResult<Option<Expression>>)
    ensures IsNewline(c) ==> r == Ok((c, None))
    ensures r.Ok? && r.value.1.None? ==> r.value.0 == c
    ensures r.Ok? && r.value.1.Some? ==> Remaining(r.value.0) < Remaining(c)
    ensures r.Err? ==> r.error.isFatal
  {
    if IsNewline(c) then Ok((c, None))
    else Opt(c, Expressions.ExpressionSpec(c, Precedences.Precedence.None, g.expression))
  }

  /** `return_statement`: after `return`, a line break means no value. */
  function ParseReturn(c: Cursor, g: Grammar): (r: ParseResult<StatementType>)
    ensures SoftFailure(r) <==> !AtTerminal(c, Return)
    ensures r.Ok? ==> r.value.1.ReturnStmt? && r.value.1.returnKeyword == c.tokens[c.index].token
    ensures AtTerminal(c, Return) && IsNewline(MatchTerminal(c, Return).value.0) ==>
      r == Ok((MatchTerminal(c, Return).value.0, ReturnStmt(c.tokens[c.index].token, None)))
  {
    match MatchTerminal(c, Return)
    case Err(e) => Err(e)
    case Ok((c1, keyword)) =>
      Commit(c, ReturnStatement,
        match ReturnValue(c1, g)
        case Err(e) => Err(e)
        case Ok((c2, value)) => Ok((c2, ReturnStmt(keyword, value))))
  }

  /** `yield_statement`: as `return`, with `yield`. */
  function ParseYield(c: Cursor, g: Grammar): (r: ParseResult<StatementType>)
    ensures SoftFailure(r) <==> !AtTerminal(c, Yield)
    ensures r.Ok? ==> r.value.1.YieldStmt? && r.value.1.yieldKeyword == c.tokens[c.index].token
    ensures AtTerminal(c, Yield) && IsNewline(MatchTerminal(c, Yield).value.0) ==>
      r == Ok((MatchTerminal(c, Yield).value.0, YieldStmt(c.tokens[c.index].token, None)))
  {
    match MatchTerminal(c, Yield)
    case Err(e) => Err(e)
    case Ok((c1, keyword)) =>
      Commit(c, YieldStatement,
        match ReturnValue(c1, g)
        case Err(e) => Err(e)
        case Ok((c2, value)) => Ok((c2, YieldStmt(keyword, value))))
  }

  /** `typed_const_statement`: a type that does not end a line, a name and an initializer. */
  function TypedConst(c: Cursor, keyword: Token, g: Grammar): (r: ParseResult<StatementType>)
    ensures r.Ok? ==> r.value.1.ConstStmt? && r.value.1.constType.Some?
    ensures g.expression.typeRule(c).Err? ==> r == Err(g.expression.typeRule(c).error)
  {
    match PreventEndingLine(c, g.expression.typeRule(c))
    case Err(e) => Err(e)
    case Ok((c1, ty)) =>
      match ParseIdentifier(c1)
      case Err(e) => Err(e)
      case Ok((c2, name)) =>
        match g.varInitializer(c2)
        case Err(e) => Err(e)
        case Ok((c3, initializer)) => Ok((c3, ConstStmt(keyword, Some(ty), name, initializer)))
  }

  /** `untyped_const_statement`: a name and an initializer. */
  function UntypedConst(c: Cursor, keyword: Token, g: Grammar): (r: ParseResult<StatementType>)
    ensures r.Ok? ==> r.value.1.ConstStmt? && r.value.1.constType.None?
    ensures r.Ok? ==> ParseIdentifier(c).Ok? && r.value.1.name == ParseIdentifier(c).value.1
  {
    match ParseIdentifier(c)
    case Err(e) => Err(e)
    case Ok((c1, name)) =>
      match g.varInitializer(c1)
      case Err(e) => Err(e)
      case Ok((c2, initializer)) => Ok((c2, ConstStmt(keyword, None, name, initializer)))
  }

  /** `const_statement`: after `const`, the typed form is tried first. */
  function ParseConst(c: Cursor, g: Grammar): (r: ParseResult<StatementType>)
    ensures SoftFailure(r) <==> !AtTerminal(c, Const)
    ensures r.Ok? ==> r.value.1.ConstStmt?
  {
    match MatchTerminal(c, Const)
    case Err(e) => Err(e)
    case Ok((c1, keyword)) =>
      Commit(c, ConstStatement,
        match Alt(TypedConst(c1, keyword, g))
        case Some(res) => res
        case None => UntypedConst(c1, keyword, g))
  }

  /**
   * The typed form wins whenever it does not fail softly: `const T a = 1` is read with the
   * type `T` even though `T` alone would also start an untyped constant; the untyped form
   * is read only after the typed one failed softly.
   */
  lemma TypedConstFirst(c: Cursor, g: Grammar)
    requires AtTerminal(c, Const)
    ensures var (c1, keyword) := MatchTerminal(c, Const).value;
      && (!SoftFailure(TypedConst(c1, keyword, g)) ==>
            ParseConst(c, g) == Commit(c, ConstStatement, TypedConst(c1, keyword, g)))
      && (SoftFailure(TypedConst(c1, keyword, g)) ==>
            ParseConst(c, g) == Commit(c, ConstStatement, UntypedConst(c1, keyword, g)))
      && (TypedConst(c1, keyword, g).Ok? ==> ParseConst(c, g).Ok? && ParseConst(c, g).value.1.constType.Some?)
  {
  }

  /** `expression_statement`: an expression at the lowest precedence. */
  function ParseExpressionStatement(c: Cursor, g: Grammar): (r: ParseResult<StatementType>)
    ensures r.Ok? ==> r.value.1.ExpressionStmt? && Remaining(r.value.0) < Remaining(c)
  {
    match Expressions.ExpressionSpec(c, Precedences.Precedence.None, g.expression)
    case Err(e) => Err(e)
    case Ok((c1, value)) => Ok((c1, ExpressionStmt(value)))
  }

  /** A statement form whose rule is not part of this model. */
  function ParseOther(f: StatementForm, c: Cursor, g: Grammar): (r: ParseResult<StatementType>)
    ensures r.Ok? ==> g.other(f)(c).Ok? && r.value.1 == OtherStmt(f, g.other(f)(c).value.1)
  {
    match g.other(f)(c)
    case Err(e) => Err(e)
    case Ok((c1, syntax)) => Ok((c1, OtherStmt(f, syntax)))
  }

  /** The parser of the modelled forms. */
  function ParseModelled(f: StatementForm, c: Cursor, g: Grammar): (r: ParseResult<StatementType>)
    requires Modelled(f)
    ensures r.Ok? ==> Produces(f, r.value.1)
  {
    match f
    case EmptyForm => ParseEmptyStatement(c)
    case ConstructorForm => ParseConstructorDeclaration(c, g)
    case FunctionForm => ParseFunctionDeclaration(c, g)
    case VarForm => ParseVarDeclaration(c, g)
    case ReturnForm => ParseReturn(c, g)
    case YieldForm => ParseYield(c, g)
    case ConstForm => ParseConst(c, g)
    case ExpressionForm => ParseExpressionStatement(c, g)
  }

  /** The parser of one statement form; each produces statements of its own form. */
  function FormParser(f: StatementForm, c: Cursor, g: Grammar): (r: ParseResult<StatementType>)
    ensures r.Ok? ==> Produces(f, r.value.1)
  {
    if Modelled(f) then ParseModelled(f, c, g) else ParseOther(f, c, g)
  }

  /** The alternatives of `statement_type`, in order. */
  function FormParsers(g: Grammar): (ps: seq<Parser<StatementType>>)
    ensures |ps| == |Forms|
    ensures forall i, c :: 0 <= i < |Forms| ==> ps[i](c) == FormParser(Forms[i], c, g)
  {
    seq(|Forms|, i requires 0 <= i < |Forms| => (x: Cursor) => FormParser(Forms[i], x, g))
  }

  /** What `statement_type` returns when no form matches. */
  function NoStatement(c: Cursor): (p: Parser<StatementType>)
    ensures forall x :: p(x) == Err(New(ExpectedStatement, c.index, Inline))
  {
    (x: Cursor) => Err(New(ExpectedStatement, StartIndex(c), Inline))
  }

  function StatementTypeSpec(c: Cursor, g: Grammar): ParseResult<StatementType> {
    FirstOfSpec(c, FormParsers(g), NoStatement(c))
  }

  /** `statement_type`: the forms are tried in order with `first_of`. */
  method ParseStatementType(c: Cursor, g: Grammar) returns (r: ParseResult<StatementType>)
    ensures r == StatementTypeSpec(c, g)
  {
    r := FirstOf(c, FormParsers(g), NoStatement(c));
  }

  /**
   * The statement read is that of the first form that does not fail softly, and every form
   * before it failed softly; when all fail softly, the error is ExpectedStatement at the start.
   */
  lemma StatementTypeFirstDecisive(c: Cursor, g: Grammar)
    ensures var i := FirstDecisive(c, FormParsers(g));
      && (forall j :: 0 <= j < i ==> SoftFailure(FormParser(Forms[j], c, g)))
      && (i < |Forms| ==> StatementTypeSpec(c, g) == FormParser(Forms[i], c, g))
      && (i == |Forms| ==> StatementTypeSpec(c, g) == Err(New(ExpectedStatement, c.index, Inline)))
  {
    FirstOfPicksFirstDecisive(c, FormParsers(g), NoStatement(c));
  }

  /** Where every form fails softly, the statement is reported missing at the start. */
  lemma NoFormMatches(c: Cursor, g: Grammar)
    requires forall j :: 0 <= j < |Forms| ==> SoftFailure(FormParser(Forms[j], c, g))
    ensures StatementTypeSpec(c, g) == Err(New(ExpectedStatement, c.index, Inline))
  {
    StatementTypeFirstDecisive(c, g);
    FirstDecisiveStops(c, FormParsers(g));
  }

  /** The parser `first_of` stops at does not fail softly. */
  lemma {:induction false} FirstDecisiveStops<T>(c: Cursor, parsers: seq<Parser<T>>)
    ensures var i := FirstDecisive(c, parsers); i < |parsers| ==> !SoftFailure(parsers[i](c))
    decreases |parsers|
  {
    if |parsers| > 0 && SoftFailure(parsers[0](c)) {
      FirstDecisiveStops(c, parsers[1..]);
    }
  }

  /**
   * A constructor declaration is tried before a function declaration: where the next token
   * is not an Empty token and the constructor form succeeds, it is the statement read, even
   * though `function a::constructor(…)` would also read as a function declaration.
   */
  lemma ConstructorBeforeFunction(c: Cursor, g: Grammar)
    requires IsEnded(c) || !c.tokens[c.index].token.ty.Empty?
    requires ParseConstructorDeclaration(c, g).Ok?
    ensures StatementTypeSpec(c, g) == ParseConstructorDeclaration(c, g)
    ensures StatementTypeSpec(c, g).value.1.ConstructorDeclarationStmt?
  {
    FirstTwoForms(c, g);
    SecondDecides(c, FormParsers(g), NoStatement(c));
  }

  lemma FirstTwoForms(c: Cursor, g: Grammar)
    ensures FormParsers(g)[0](c) == ParseEmptyStatement(c)
    ensures FormParsers(g)[1](c) == ParseConstructorDeclaration(c, g)
  {
    assert Forms[0] == EmptyForm && Forms[1] == ConstructorForm;
    assert FormParsers(g)[0](c) == FormParser(EmptyForm, c, g);
    assert FormParsers(g)[1](c) == FormParser(ConstructorForm, c, g);
    ModelledFormParsers(c, g);
  }

  /** The first two forms are modelled ones, parsed by their own parsers. */
  lemma ModelledFormParsers(c: Cursor, g: Grammar)
    ensures FormParser(EmptyForm, c, g) == ParseEmptyStatement(c)
    ensures FormParser(ConstructorForm, c, g) == ParseConstructorDeclaration(c, g)
  {
    assert Modelled(EmptyForm) && Modelled(ConstructorForm);
  }

  /** After a soft failure of the first parser, `first_of` gives the second parser's result when it decides. */
  lemma SecondDecides<T>(c: Cursor, parsers: seq<Parser<T>>, default: Parser<T>)
    requires |parsers| >= 2 && SoftFailure(parsers[0](c)) && !SoftFailure(parsers[1](c))
    ensures FirstOfSpec(c, parsers, default) == parsers[1](c)
  {
    assert parsers[1..][0] == parsers[1];
  }

  /** Only the last form produces expression statements. */
  lemma OnlyLastProducesExpression(i: nat, s: StatementType)
    requires i < |Forms| && s.ExpressionStmt? && Produces(Forms[i], s)
    ensures i == |Forms| - 1
  {
  }

  /**
   * The expression statement is tried last: a statement read as an expression means every
   * other form failed softly.
   */
  lemma ExpressionLast(c: Cursor, g: Grammar)
    requires StatementTypeSpec(c, g).Ok? && StatementTypeSpec(c, g).value.1.ExpressionStmt?
    ensures forall j :: 0 <= j < |Forms| - 1 ==> SoftFailure(FormParser(Forms[j], c, g))
  {
    StatementTypeFirstDecisive(c, g);
    var i := FirstDecisive(c, FormParsers(g));
    OnlyLastProducesExpression(i, StatementTypeSpec(c, g).value.1);
  }

  /**
   * `statement`: a leading `;` is an empty statement ended by it; otherwise a statement of
   * some form and the `;` that may follow it.
   */
  function StatementSpec(c: Cursor, g: Grammar): (r: ParseResult<Statement>)
    ensures AtTerminal(c, Semicolon) ==>
      r == Ok((MatchTerminal(c, Semicolon).value.0, Statement(EmptyStmt(None), Some(c.tokens[c.index].token))))
    ensures !AtTerminal(c, Semicolon) && r.Ok? ==>
      StatementTypeSpec(c, g).Ok? && r.value.1.ty == StatementTypeSpec(c, g).value.1
    ensures !AtTerminal(c, Semicolon) && StatementTypeSpec(c, g).Err? ==> r == Err(StatementTypeSpec(c, g).error)
  {
    match MatchTerminal(c, Semicolon)
    case Ok((c1, end)) => Ok((c1, Statement(EmptyStmt(None), Some(end))))
    case Err(_) =>
      match StatementTypeSpec(c, g)
      case Err(e) => Err(e)
      case Ok((c1, ty)) =>
        match Opt(c1, MatchTerminal(c1, Semicolon))
        case Err(e) => Err(e)
        case Ok((c2, end)) => Ok((c2, Statement(ty, end)))
  }

}

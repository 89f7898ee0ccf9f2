// The syntactic construct a parse error was found in, and how it is described to the user.
module Contexts {

  datatype ContextType =
    | ParensExpression | ClassDeclaration | StructDeclaration | IfStatement | ElseStatement
    | WhileStatement | DoWhileStatement | SwitchStatement | ForStatement | ForeachStatement
    | ReturnStatement | YieldStatement | VarDeclarationStatement | FunctionDeclarationStatement
    | ClassStatement | TryCatchStatement | ThrowStatement | ConstStatement | EnumStatement
    | ThreadStatement | DelayThreadStatement | WaitThreadStatement | WaitStatement
    | StructStatement | TypedefStatement | GlobalStatement | FunctionRefType | StructType
    | ArrayType | GenericType
    | ExpressionRightHandSide | RootVarExpression | DelegateExpression | VectorExpression
    | TernaryExpression | IndexExpression | CallExpression | CommaExpression | TableExpression
    | ClassExpression | ArrayExpression | ExpectExpression | FunctionExpression
    | PropertyTableSlot | ComputedPropertyTableSlot | JsonPropertyTableSlot | FunctionTableSlot
    | ClassExtends | PropertyClassMember | ComputedPropertyClassMember | ConstructorClassMember
    | FunctionClassMember | FunctionDeclarationArgs | FunctionDeclarationEnvironment
    | FunctionDeclarationCaptures | VarInitializer | FunctionGlobal | SwitchCaseCondition
    | BlockStatement

  /**
   * A useful context wins over a less useful one when an error gains context: only the
   * block statement is not useful, so that the statement owning the block is reported.
   */
  predicate IsUseful(ty: ContextType) {
    !ty.BlockStatement?
  }

  /**
   * The description the error display writes after "in this", as the source spells it.
   * Every context has one, and the `enum` statement's alone starts with a space.
   */
  function Display(ty: ContextType): (r: string)
    ensures |r| > 0
    ensures r[0] == ' ' <==> ty == EnumStatement
  {
    match ty
    case ParensExpression => "expression"
    case ClassDeclaration => "class"
    case StructDeclaration => "struct"
    case IfStatement => "`if` statement"
    case ElseStatement => "`else` statement"
    case WhileStatement => "`while` statement"
    case DoWhileStatement => "`do while` statement"
    case SwitchStatement => "`switch` statement"
    case ForStatement => "`for` statement"
    case ForeachStatement => "`foreach` statement"
    case ReturnStatement => "`return` statement"
    case YieldStatement => "`yield` statement"
    case VarDeclarationStatement => "`var` statement"
    case FunctionDeclarationStatement => "`function` statement"
    case ClassStatement => "`class` statement"
    case TryCatchStatement => "`try` statement"
    case ThrowStatement => "`throw` statement"
    case ConstStatement => "`const` statement"
    case EnumStatement => " `enum` statement"
    case ThreadStatement => "`thread` statement"
    case DelayThreadStatement => "`delaythread` statement"
    case WaitThreadStatement => "`waitthread` statement"
    case WaitStatement => "`wait` statement"
    case StructStatement => "`struct` statement"
    case TypedefStatement => "`typedef` statement"
    case GlobalStatement => "`global` statement"
    case FunctionRefType => "`functionref` type"
    case StructType => "`struct` type"
    case ArrayType => "array type"
    case GenericType => "generic type"
    case RootVarExpression => "`::` expression"
    case DelegateExpression => "`delegate` expression"
    case VectorExpression => "vector expression"
    case TernaryExpression => "ternary expression"
    case ExpressionRightHandSide => "right hand side"
    case IndexExpression => "index expression"
    case CallExpression => "call expression"
    case CommaExpression => "`,` expression"
    case TableExpression => "table expression"
    case ClassExpression => "`class` expression"
    case ArrayExpression => "array expression"
    case ExpectExpression => "`expect` expression"
    case FunctionExpression => "`function` expression"
    case PropertyTableSlot | ComputedPropertyTableSlot | JsonPropertyTableSlot => "table property"
    case FunctionTableSlot => "table function"
    case ClassExtends => "class declaration"
    case PropertyClassMember | ComputedPropertyClassMember => "class property"
    case ConstructorClassMember => "class constructor"
    case FunctionClassMember => "class method"
    case FunctionDeclarationArgs => "function argument list"
    case FunctionDeclarationEnvironment => "function environment"
    case FunctionDeclarationCaptures => "function capture list"
    case VarInitializer => "initializer"
    case FunctionGlobal => "`function` global"
    case SwitchCaseCondition => "`switch` case"
    case BlockStatement => "block statement"
  }

  /**
   * The description with the stray leading space of the `enum` statement removed: the
   * display writes "in this " before it, so that entry comes out with two spaces.
   */
  function Description(ty: ContextType): (r: string)
    ensures ty != EnumStatement ==> r == Display(ty)
    ensures ty == EnumStatement ==> Display(ty) == [' '] + r && r[0] == '`'
    ensures |r| > 0 && r[0] != ' '
  {
    if ty == EnumStatement then "`enum` statement" else Display(ty)
  }

  /**
   * As written, the `enum` statement is the one statement context whose description starts
   * with a space; its neighbours in the table start with the backticked keyword.
   */
  lemma EnumDisplayLeadingSpace()
    ensures Display(EnumStatement)[0] == ' '
    ensures Display(ConstStatement)[0] == '`' && Display(ThreadStatement)[0] == '`'
    ensures Description(EnumStatement) == Display(EnumStatement)[1..]
  {
  }
}

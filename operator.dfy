// The operators of the syntax tree, the terminals each is written with, and the precedence
// of each binary operator.
module Operators {
  import Tokens
  import opened Precedences

  type Token = Tokens.Token
  type TerminalToken = Tokens.TerminalToken

  /** A binary operator with the tokens it was read from; compounds hold one token per terminal. */
  datatype BinaryOperator =
    | Assign(token: Token)
    | AssignNewSlot(first: Token, second: Token)
    | AssignAdd(token: Token)
    | AssignSubtract(token: Token)
    | AssignMultiply(token: Token)
    | AssignDivide(token: Token)
    | AssignModulo(token: Token)
    | Add(token: Token)
    | Subtract(token: Token)
    | Multiply(token: Token)
    | Divide(token: Token)
    | Modulo(token: Token)
    | Equal(token: Token)
    | NotEqual(token: Token)
    | Less(token: Token)
    | LessEqual(token: Token)
    | Greater(token: Token)
    | GreaterEqual(token: Token)
    | ThreeWay(token: Token)
    | LogicalAnd(token: Token)
    | LogicalOr(token: Token)
    | BitwiseAnd(token: Token)
    | BitwiseOr(token: Token)
    | BitwiseXor(token: Token)
    | ShiftLeft(first: Token, second: Token)
    | ShiftRight(first: Token, second: Token)
    | UnsignedShiftRight(first: Token, second: Token, third: Token)
    | In(token: Token)
    | Instanceof(token: Token)

  datatype PrefixOperator =
    | Negate(token: Token)
    | LogicalNot(token: Token)
    | BitwiseNot(token: Token)
    | Typeof(token: Token)
    | Clone(token: Token)
    | Delete(token: Token)
    | Increment(token: Token)
    | Decrement(token: Token)

  datatype PostfixOperator = PostIncrement(token: Token) | PostDecrement(token: Token)

  /** The terminals a binary operator is written with, in source order. */
  function BinaryTerminals(op: BinaryOperator): (r: seq<TerminalToken>)
    ensures 1 <= |r| <= 3
    ensures (op.AssignNewSlot? || op.ShiftLeft? || op.ShiftRight?) <==> |r| == 2
    ensures op.UnsignedShiftRight? <==> |r| == 3
  {
    match op
    case Assign(_) => [Tokens.Assign]
    case AssignNewSlot(_, _) => [Tokens.Less, Tokens.Subtract]
    case AssignAdd(_) => [Tokens.AddEqual]
    case AssignSubtract(_) => [Tokens.SubtractEqual]
    case AssignMultiply(_) => [Tokens.MultiplyEqual]
    case AssignDivide(_) => [Tokens.DivideEqual]
    case AssignModulo(_) => [Tokens.ModuloEqual]
    case Add(_) => [Tokens.Add]
    case Subtract(_) => [Tokens.Subtract]
    case Multiply(_) => [Tokens.Multiply]
    case Divide(_) => [Tokens.Divide]
    case Modulo(_) => [Tokens.Modulo]
    case Equal(_) => [Tokens.Equal]
    case NotEqual(_) => [Tokens.NotEqual]
    case Less(_) => [Tokens.Less]
    case LessEqual(_) => [Tokens.LessEqual]
    case Greater(_) => [Tokens.Greater]
    case GreaterEqual(_) => [Tokens.GreaterEqual]
    case ThreeWay(_) => [Tokens.ThreeWay]
    case LogicalAnd(_) => [Tokens.LogicalAnd]
    case LogicalOr(_) => [Tokens.LogicalOr]
    case BitwiseAnd(_) => [Tokens.BitwiseAnd]
    case BitwiseOr(_) => [Tokens.BitwiseOr]
    case BitwiseXor(_) => [Tokens.BitwiseXor]
    case ShiftLeft(_, _) => [Tokens.Less, Tokens.Less]
    case ShiftRight(_, _) => [Tokens.Greater, Tokens.Greater]
    case UnsignedShiftRight(_, _, _) => [Tokens.Greater, Tokens.Greater, Tokens.Greater]
    case In(_) => [Tokens.In]
    case Instanceof(_) => [Tokens.Instanceof]
  }

  /** The tokens a binary operator holds, in source order. */
  function BinaryTokens(op: BinaryOperator): (r: seq<Token>)
    ensures |r| == |BinaryTerminals(op)|
  {
    match op
    case AssignNewSlot(a, b) => [a, b]
    case ShiftLeft(a, b) => [a, b]
    case ShiftRight(a, b) => [a, b]
    case UnsignedShiftRight(a, b, c) => [a, b, c]
    case _ => [op.token]
  }

  function PrefixTerminal(op: PrefixOperator): TerminalToken {
    match op
    case Negate(_) => Tokens.Subtract
    case LogicalNot(_) => Tokens.Not
    case BitwiseNot(_) => Tokens.BitwiseNot
    case Typeof(_) => Tokens.Typeof
    case Clone(_) => Tokens.Clone
    case Delete(_) => Tokens.Delete
    case Increment(_) => Tokens.Increment
    case Decrement(_) => Tokens.Decrement
  }

  function PostfixTerminal(op: PostfixOperator): TerminalToken {
    match op
    case PostIncrement(_) => Tokens.Increment
    case PostDecrement(_) => Tokens.Decrement
  }

  /** How tightly a binary operator binds: strictly between the comma and the prefix operators. */
  function BinaryPrecedence(op: BinaryOperator): (p: Precedence)
    ensures Below(Comma, p) && Below(p, Prefix)
    ensures Below(Ternary, p) <==> !(p == Assignment)
  {
    match op
    case Assign(_) => Assignment
    case AssignNewSlot(_, _) => Assignment
    case AssignAdd(_) => Assignment
    case AssignSubtract(_) => Assignment
    case AssignMultiply(_) => Assignment
    case AssignDivide(_) => Assignment
    case AssignModulo(_) => Assignment
    case LogicalOr(_) => Precedence.LogicalOr
    case LogicalAnd(_) => TestOrLogicalAnd
    case In(_) => TestOrLogicalAnd
    case Instanceof(_) => TestOrLogicalAnd
    case BitwiseOr(_) => Precedence.BitwiseOr
    case BitwiseXor(_) => Precedence.BitwiseXor
    case BitwiseAnd(_) => Precedence.BitwiseAnd
    case Equal(_) => Equality
    case NotEqual(_) => Equality
    case Less(_) => Comparison
    case LessEqual(_) => Comparison
    case Greater(_) => Comparison
    case GreaterEqual(_) => Comparison
    case ThreeWay(_) => Comparison
    case ShiftLeft(_, _) => Bitshift
    case ShiftRight(_, _) => Bitshift
    case UnsignedShiftRight(_, _, _) => Bitshift
    case Add(_) => AddSubtract
    case Subtract(_) => AddSubtract
    case Multiply(_) => MultiplyDivideModulo
    case Divide(_) => MultiplyDivideModulo
    case Modulo(_) => MultiplyDivideModulo
  }

  /** The assignment operators are exactly those written with `=` at the end, and `<-`. */
  lemma AssignmentGroup(op: BinaryOperator)
    ensures BinaryPrecedence(op) == Assignment <==>
      (op.Assign? || op.AssignNewSlot? || op.AssignAdd? || op.AssignSubtract? || op.AssignMultiply?
       || op.AssignDivide? || op.AssignModulo?)
  {
  }

  lemma TestGroup(op: BinaryOperator)
    ensures BinaryPrecedence(op) == TestOrLogicalAnd <==> (op.LogicalAnd? || op.In? || op.Instanceof?)
  {
  }

  /** The shifts are exactly the compound operators other than `<-`. */
  lemma BitshiftGroup(op: BinaryOperator)
    ensures BinaryPrecedence(op) == Bitshift <==> (op.ShiftLeft? || op.ShiftRight? || op.UnsignedShiftRight?)
    ensures BinaryPrecedence(op) == Bitshift <==> (|BinaryTerminals(op)| > 1 && !op.AssignNewSlot?)
  {
  }

  lemma MultiplicativeGroup(op: BinaryOperator)
    ensures BinaryPrecedence(op) == MultiplyDivideModulo <==> (op.Multiply? || op.Divide? || op.Modulo?)
  {
  }
}

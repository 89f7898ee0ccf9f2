/**
 * The token vocabulary of the Squirrel lexer: the terminal table (reserved words and
 * symbols, some of them only in the Respawn flavor), literal and comment payloads, and
 * the token record the lexer emits.
 */
module Tokens {
  import opened Wrappers

  /** The two dialects the lexer and parser understand. */
  datatype Flavor = SquirrelRespawn | Squirrel3

  /** Every reserved identifier and every symbol, in table order. */
  datatype TerminalToken =
    // identifiers
    | Break | Case | Catch | Class | Clone | Continue | Const | Default | Delegate | Delete
    | Do | Else | Enum | Extends | For | Foreach | Function | If | In | Local | Return
    | Switch | Throw | Try | Typeof | While | Yield
    | Constructor | Instanceof | Static
    // Respawn extensions
    | DelayThread | Expect | FunctionRef | Global | GlobalizeAllFunctions | OrNull | Struct
    | Thread | Typedef | Untyped | WaitThread | WaitThreadSolo | Wait
    // three-char symbols
    | ThreeWay | Ellipsis
    // two-char symbols
    | NotEqual | Equal | LogicalOr | LogicalAnd | GreaterEqual | LessEqual | AddEqual
    | SubtractEqual | DivideEqual | MultiplyEqual | ModuloEqual | Increment | Decrement
    | Namespace | OpenAttributes | CloseAttributes
    // one-char symbols
    | Not | Greater | Less | Add | Subtract | Divide | Multiply | Modulo | Assign | BitwiseAnd
    | BitwiseOr | BitwiseXor | BitwiseNot | OpenBrace | CloseBrace | OpenSquare | CloseSquare
    | OpenBracket | CloseBracket | Dot | Comma | Colon | Question | Semicolon | At

  /*
   * The IDENTIFIERS and SYMBOLS tables pair each terminal with its text, and `as_str`
   * returns that same text: both are generated from one list. The model keeps the
   * terminals of each table in order and takes the text from AsStr.
   */

  /** The IDENTIFIERS table: the reserved words of every flavor, then the Respawn-tagged ones. */
  const Identifiers: seq<TerminalToken> := [
    Break, Case, Catch, Class, Clone, Continue, Const, Default, Delegate, Delete, Do, Else,
    Enum, Extends, For, Foreach, Function, If, In, Local, Return, Switch, Throw, Try, Typeof,
    While, Yield, Constructor, Instanceof, Static,
    DelayThread, Expect, FunctionRef, Global, GlobalizeAllFunctions, OrNull, Struct, Thread,
    Typedef, Untyped, WaitThread, WaitThreadSolo, Wait
  ]

  /** The number of untagged entries at the head of IDENTIFIERS. */
  const CommonIdentifierCount: nat := 30

  /** The SYMBOLS table: the three-char symbols, then the two-char ones, then the one-char ones. */
  const Symbols: seq<TerminalToken> := [
    ThreeWay, Ellipsis,
    NotEqual, Equal, LogicalOr, LogicalAnd, GreaterEqual, LessEqual, AddEqual, SubtractEqual,
    DivideEqual, MultiplyEqual, ModuloEqual, Increment, Decrement, Namespace, OpenAttributes,
    CloseAttributes,
    Not, Greater, Less, Add, Subtract, Divide, Multiply, Modulo, Assign, BitwiseAnd, BitwiseOr,
    BitwiseXor, BitwiseNot, OpenBrace, CloseBrace, OpenSquare, CloseSquare, OpenBracket,
    CloseBracket, Dot, Comma, Colon, Question, Semicolon, At
  ]

  /** The source text of a terminal; no terminal is spelt with nothing. */
  function AsStr(t: TerminalToken): (r: string)
    ensures |r| > 0
  {
    match t
    case Break => "break"
    case Case => "case"
    case Catch => "catch"
    case Class => "class"
    case Clone => "clone"
    case Continue => "continue"
    case Const => "const"
    case Default => "default"
    case Delegate => "delegate"
    case Delete => "delete"
    case Do => "do"
    case Else => "else"
    case Enum => "enum"
    case Extends => "extends"
    case For => "for"
    case Foreach => "foreach"
    case Function => "function"
    case If => "if"
    case In => "in"
    case Local => "local"
    case Return => "return"
    case Switch => "switch"
    case Throw => "throw"
    case Try => "try"
    case Typeof => "typeof"
    case While => "while"
    case Yield => "yield"
    case Constructor => "constructor"
    case Instanceof => "instanceof"
    case Static => "static"
    case DelayThread => "delaythread"
    case Expect => "expect"
    case FunctionRef => "functionref"
    case Global => "global"
    case GlobalizeAllFunctions => "globalize_all_functions"
    case OrNull => "ornull"
    case Struct => "struct"
    case Thread => "thread"
    case Typedef => "typedef"
    case Untyped => "untyped"
    case WaitThread => "waitthread"
    case WaitThreadSolo => "waitthreadsolo"
    case Wait => "wait"
    case ThreeWay => "<=>"
    case Ellipsis => "..."
    case NotEqual => "!="
    case Equal => "=="
    case LogicalOr => "||"
    case LogicalAnd => "&&"
    case GreaterEqual => ">="
    case LessEqual => "<="
    case AddEqual => "+="
    case SubtractEqual => "-="
    case DivideEqual => "/="
    case MultiplyEqual => "*="
    case ModuloEqual => "%="
    case Increment => "++"
    case Decrement => "--"
    case Namespace => "::"
    case OpenAttributes => "</"
    case CloseAttributes => "/>"
    case Not => "!"
    case Greater => ">"
    case Less => "<"
    case Add => "+"
    case Subtract => "-"
    case Divide => "/"
    case Multiply => "*"
    case Modulo => "%"
    case Assign => "="
    case BitwiseAnd => "&"
    case BitwiseOr => "|"
    case BitwiseXor => "^"
    case BitwiseNot => "~"
    case OpenBrace => "{"
    case CloseBrace => "}"
    case OpenSquare => "["
    case CloseSquare => "]"
    case OpenBracket => "("
    case CloseBracket => ")"
    case Dot => "."
    case Comma => ","
    case Colon => ":"
    case Question => "?"
    case Semicolon => ";"
    case At => "@"
  }

  /** True for reserved words, false for symbols. */
  predicate IsIdentifier(t: TerminalToken) {
    t.Break? || t.Case? || t.Catch? || t.Class? || t.Clone? || t.Continue? || t.Const? ||
    t.Default? || t.Delegate? || t.Delete? || t.Do? || t.Else? || t.Enum? || t.Extends? ||
    t.For? || t.Foreach? || t.Function? || t.If? || t.In? || t.Local? || t.Return? ||
    t.Switch? || t.Throw? || t.Try? || t.Typeof? || t.While? || t.Yield? || t.Constructor? ||
    t.Instanceof? || t.Static? || t.DelayThread? || t.Expect? || t.FunctionRef? || t.Global? ||
    t.GlobalizeAllFunctions? || t.OrNull? || t.Struct? || t.Thread? || t.Typedef? ||
    t.Untyped? || t.WaitThread? || t.WaitThreadSolo? || t.Wait?
  }

  predicate IsSymbol(t: TerminalToken) {
    !IsIdentifier(t)
  }

  /** Terminals tagged `if Flavor::SquirrelRespawn` in the table. */
  predicate RespawnOnly(t: TerminalToken) {
    t.DelayThread? || t.Expect? || t.FunctionRef? || t.Global? || t.GlobalizeAllFunctions? ||
    t.OrNull? || t.Struct? || t.Thread? || t.Typedef? || t.Untyped? || t.WaitThread? ||
    t.WaitThreadSolo? || t.Wait?
  }

  /** An untagged terminal is supported everywhere, a tagged one only in its flavor. */
  predicate IsSupported(t: TerminalToken, flavor: Flavor) {
    !RespawnOnly(t) || flavor == SquirrelRespawn
  }

  /** An IDENTIFIERS entry is a reserved word, tagged for Respawn exactly from the untagged count on. */
  predicate IdentifierEntryOk(i: nat)
    requires i < |Identifiers|
  {
    IsIdentifier(Identifiers[i]) && (RespawnOnly(Identifiers[i]) <==> i >= CommonIdentifierCount)
  }

  lemma IdentifierEntries0(i: nat)
    requires i < 8
    ensures IdentifierEntryOk(i)
  {
  }

  lemma IdentifierEntries1(i: nat)
    requires 8 <= i < 16
    ensures IdentifierEntryOk(i)
  {
  }

  lemma IdentifierEntries2(i: nat)
    requires 16 <= i < 24
    ensures IdentifierEntryOk(i)
  {
  }

  lemma IdentifierEntries3(i: nat)
    requires 24 <= i < 30
    ensures IdentifierEntryOk(i)
  {
  }

  lemma IdentifierEntries4(i: nat)
    requires 30 <= i < 37
    ensures IdentifierEntryOk(i)
  {
  }

  lemma IdentifierEntries5(i: nat)
    requires 37 <= i < 43
    ensures IdentifierEntryOk(i)
  {
  }

  /** IDENTIFIERS holds reserved words only; the untagged ones come first and are supported in every flavor. */
  lemma IdentifierTable(i: nat)
    requires i < |Identifiers|
    ensures IsIdentifier(Identifiers[i])
    ensures i < CommonIdentifierCount ==> IsSupported(Identifiers[i], Squirrel3)
    ensures IsSupported(Identifiers[i], SquirrelRespawn)
    ensures i >= CommonIdentifierCount ==> !IsSupported(Identifiers[i], Squirrel3)
  {
    if i < 8 {
      IdentifierEntries0(i);
    } else if i < 16 {
      IdentifierEntries1(i);
    } else if i < 24 {
      IdentifierEntries2(i);
    } else if i < 30 {
      IdentifierEntries3(i);
    } else if i < 37 {
      IdentifierEntries4(i);
    } else {
      IdentifierEntries5(i);
    }
  }

  /** The length of the text of the i-th SYMBOLS entry, by section. */
  function SymbolLength(i: nat): nat {
    if i < 2 then 3 else if i < 18 then 2 else 1
  }

  /** A SYMBOLS entry is a symbol, supported in every flavor, with the length of its section. */
  predicate SymbolEntryOk(i: nat, flavor: Flavor)
    requires i < |Symbols|
  {
    IsSymbol(Symbols[i]) && IsSupported(Symbols[i], flavor) && |AsStr(Symbols[i])| == SymbolLength(i)
  }

  lemma SymbolEntries0(i: nat, flavor: Flavor)
    requires i < 4
    ensures SymbolEntryOk(i, flavor)
  {
  }

  lemma SymbolEntries1(i: nat, flavor: Flavor)
    requires 4 <= i < 8
    ensures SymbolEntryOk(i, flavor)
  {
  }

  lemma SymbolEntries2(i: nat, flavor: Flavor)
    requires 8 <= i < 12
    ensures SymbolEntryOk(i, flavor)
  {
  }

  lemma SymbolEntries3(i: nat, flavor: Flavor)
    requires 12 <= i < 16
    ensures SymbolEntryOk(i, flavor)
  {
  }

  lemma SymbolEntries4(i: nat, flavor: Flavor)
    requires 16 <= i < 20
    ensures SymbolEntryOk(i, flavor)
  {
  }

  lemma SymbolEntries5(i: nat, flavor: Flavor)
    requires 20 <= i < 24
    ensures SymbolEntryOk(i, flavor)
  {
  }

  lemma SymbolEntries6(i: nat, flavor: Flavor)
    requires 24 <= i < 28
    ensures SymbolEntryOk(i, flavor)
  {
  }

  lemma SymbolEntries7(i: nat, flavor: Flavor)
    requires 28 <= i < 32
    ensures SymbolEntryOk(i, flavor)
  {
  }

  lemma SymbolEntries8(i: nat, flavor: Flavor)
    requires 32 <= i < 36
    ensures SymbolEntryOk(i, flavor)
  {
  }

  lemma SymbolEntries9(i: nat, flavor: Flavor)
    requires 36 <= i < 40
    ensures SymbolEntryOk(i, flavor)
  {
  }

  lemma SymbolEntries10(i: nat, flavor: Flavor)
    requires 40 <= i < 43
    ensures SymbolEntryOk(i, flavor)
  {
  }

  /** SYMBOLS holds symbols only, each supported in every flavor, three-char ones first, then two, then one. */
  lemma SymbolTable(i: nat, flavor: Flavor)
    requires i < |Symbols|
    ensures IsSymbol(Symbols[i]) && IsSupported(Symbols[i], flavor)
    ensures |AsStr(Symbols[i])| == SymbolLength(i)
  {
    if i < 4 {
      SymbolEntries0(i, flavor);
    } else if i < 8 {
      SymbolEntries1(i, flavor);
    } else if i < 12 {
      SymbolEntries2(i, flavor);
    } else if i < 16 {
      SymbolEntries3(i, flavor);
    } else if i < 20 {
      SymbolEntries4(i, flavor);
    } else if i < 24 {
      SymbolEntries5(i, flavor);
    } else if i < 28 {
      SymbolEntries6(i, flavor);
    } else if i < 32 {
      SymbolEntries7(i, flavor);
    } else if i < 36 {
      SymbolEntries8(i, flavor);
    } else if i < 40 {
      SymbolEntries9(i, flavor);
    } else {
      SymbolEntries10(i, flavor);
    }
  }

  /** SYMBOLS lists its entries by non-increasing length, so a longer symbol is tried first. */
  lemma SymbolsByNonIncreasingLength(i: nat, j: nat)
    requires i <= j < |Symbols|
    ensures |AsStr(Symbols[i])| >= |AsStr(Symbols[j])|
  {
    SymbolTable(i, Squirrel3);
    SymbolTable(j, Squirrel3);
  }

  datatype StringToken = Literal(text: string) | Verbatim(text: string) | Asset(text: string)

  datatype LiteralBase = Decimal | Octal | Hexadecimal

  /** Int carries the parsed i64 value, kept as int within the i64 range. Float's f64 payload is not modelled. */
  datatype LiteralToken =
    | Int(value: int, base: LiteralBase)
    | Char(text: string)
    | Float
    | String(str: StringToken)

  datatype TokenType =
    | Empty
    | Terminal(terminal: TerminalToken)
    | Literal(literal: LiteralToken)
    | Identifier(name: string)

  datatype Comment = MultiLine(text: string) | SingleLine(text: string) | ScriptStyle(text: string)

  /** The half-open range start..end of a token in the source text. */
  datatype Range = Range(start: nat, end: nat)

  datatype TokenLine = TokenLine(comments: seq<Comment>)

  datatype Token = Token(
    ty: TokenType,
    range: Range,
    beforeLines: seq<TokenLine>,
    comments: seq<Comment>,
    newLine: Option<TokenLine>)

  function LiteralDisplay(l: LiteralToken): string {
    match l
    case Int(_, _) => "an integer literal"
    case Char(_) => "a character literal"
    case Float => "a float literal"
    case String(_) => "a string literal"
  }

  function TokenTypeDisplay(ty: TokenType): string {
    match ty
    case Empty => "<empty>"
    case Terminal(t) => "`" + AsStr(t) + "`"
    case Literal(l) => LiteralDisplay(l)
    case Identifier(name) => "`" + name + "`"
  }

  /**
   * Display tells the kinds apart: only terminals and identifiers are backticked, and a
   * backticked terminal shows exactly its table string.
   */
  lemma TokenTypeDisplayShape(ty: TokenType)
    ensures |TokenTypeDisplay(ty)| > 0
    ensures TokenTypeDisplay(ty)[0] == '`' <==> (ty.Terminal? || ty.Identifier?)
    ensures ty.Terminal? ==> TokenTypeDisplay(ty)[1..|TokenTypeDisplay(ty)| - 1] == AsStr(ty.terminal)
    ensures ty.Empty? <==> TokenTypeDisplay(ty) == "<empty>"
  {
    match ty
    case Literal(l) =>
      assert TokenTypeDisplay(ty)[0] == 'a';
    case Terminal(t) =>
      var d := TokenTypeDisplay(ty);
      assert d[1..|d| - 1] == AsStr(t);
    case Identifier(name) =>
      assert TokenTypeDisplay(ty)[0] == '`';
    case Empty =>
  }
}

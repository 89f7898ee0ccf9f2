// How tightly each kind of expression operator binds its neighbours. Precedences are compared
// by their position in the declaration, as a derived ordering does.
module Precedences {
  datatype Precedence =
    | None
    | Comma
    | Assignment
    | Ternary
    | LogicalOr
    | TestOrLogicalAnd
    | BitwiseOr
    | BitwiseXor
    | BitwiseAnd
    | Equality
    | Comparison
    | Bitshift
    | AddSubtract
    | MultiplyDivideModulo
    | Prefix
    | Postfix
    | Property

  /** The declared discriminant. */
  function Rank(p: Precedence): (r: nat)
    ensures r <= 16
  {
    match p
    case None => 0
    case Comma => 1
    case Assignment => 2
    case Ternary => 3
    case LogicalOr => 4
    case TestOrLogicalAnd => 5
    case BitwiseOr => 6
    case BitwiseXor => 7
    case BitwiseAnd => 8
    case Equality => 9
    case Comparison => 10
    case Bitshift => 11
    case AddSubtract => 12
    case MultiplyDivideModulo => 13
    case Prefix => 14
    case Postfix => 15
    case Property => 16
  }

  /** All precedences in declaration order. */
  const Ordered: seq<Precedence> := [
    None, Comma, Assignment, Ternary, LogicalOr, TestOrLogicalAnd, BitwiseOr, BitwiseXor,
    BitwiseAnd, Equality, Comparison, Bitshift, AddSubtract, MultiplyDivideModulo, Prefix,
    Postfix, Property
  ]

  /** `a < b` under the derived ordering: `a` binds more loosely than `b`. */
  predicate Below(a: Precedence, b: Precedence) {
    Rank(a) < Rank(b)
  }

  predicate AtMost(a: Precedence, b: Precedence) {
    Rank(a) <= Rank(b)
  }

  /** The discriminant is the position in the declaration, so it names each precedence once. */
  lemma RankIsPosition(p: Precedence)
    ensures |Ordered| == 17 && Ordered[Rank(p)] == p
  {
  }

  /** The ordering is total and antisymmetric: two precedences of equal rank are equal. */
  lemma TotalOrder(a: Precedence, b: Precedence)
    ensures Below(a, b) || a == b || Below(b, a)
    ensures AtMost(a, b) && AtMost(b, a) ==> a == b
    ensures !(Below(a, b) && Below(b, a))
  {
    RankIsPosition(a);
    RankIsPosition(b);
  }

  /** Each precedence in the declaration binds more tightly than every one before it. */
  lemma OrderedIncreases(i: nat, j: nat)
    requires i < j < |Ordered|
    ensures Below(Ordered[i], Ordered[j])
  {
  }

  /** None is the loosest precedence and Property the tightest. */
  lemma Extremes(p: Precedence)
    ensures AtMost(None, p) && AtMost(p, Property)
    ensures p != None ==> Below(None, p)
    ensures p != Property ==> Below(p, Property)
  {
    RankIsPosition(p);
  }
}

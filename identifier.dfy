/** Identifier recognition, and the lookup that turns reserved words into terminals. */
module IdentifierLexer {
  import opened Wrappers
  import opened Strings
  import opened ParseStrs
  import opened Tokens

  predicate IsIdentifierChar(c: char) {
    c == '_' || IsAsciiAlphanumeric(c)
  }

  predicate IsNotIdentifierChar(c: char) {
    !IsIdentifierChar(c)
  }

  /**
   * `try_identifier_str`: an identifier starts with `_` or an ASCII letter and is the
   * longest run of identifier chars from there.
   */
  function TryIdentifierStr(val: ParseStr): (r: Option<(string, ParseStr)>)
    ensures r.Some? <==> |val.val| > 0 && (val.val[0] == '_' || IsAsciiAlphabetic(val.val[0]))
    ensures r.Some? ==>
      var (ident, rest) := r.value;
      && ident + rest.val == val.val
      && |ident| > 0
      && (forall i :: 0 <= i < |ident| ==> IsIdentifierChar(ident[i]))
      && (rest.val == [] || !IsIdentifierChar(rest.val[0]))
      && StartOffset(rest) == StartOffset(val) + |ident| && EndOffset(rest) == EndOffset(val)
      && Consumed(val, rest)
  {
    if |val.val| == 0 then None
    else if val.val[0] != '_' && !IsAsciiAlphabetic(val.val[0]) then None
    else
      var (ident, rest) := SplitAt(val, Find(val.val, IsNotIdentifierChar));
      assert val.val[..|ident|] == ident;
      Some((ident, rest))
  }

  /** The IDENTIFIERS entry `k` is spelled `s`. */
  predicate Spells(k: nat, s: string)
    requires k < |Identifiers|
  {
    // equality, stated as equal length plus prefix
    |s| == |AsStr(Identifiers[k])| && StartsWith(s, AsStr(Identifiers[k]))
  }

  /**
   * The reserved-word map: the terminal of the first IDENTIFIERS entry from index `from`
   * whose text is `s`.
   */
  function LookupIdentifier(s: string, from: nat): (r: Option<nat>)
    requires from <= |Identifiers|
    decreases |Identifiers| - from
    ensures r.Some? ==> from <= r.value < |Identifiers| && Spells(r.value, s)
    ensures r.Some? ==> forall k :: from <= k < r.value ==> !Spells(k, s)
    ensures r.None? ==> forall k :: from <= k < |Identifiers| ==> !Spells(k, s)
  {
    if from == |Identifiers| then None
    else if Spells(from, s) then Some(from)
    else LookupIdentifier(s, from + 1)
  }

  /**
   * `identifier_as_token`: the reserved word spelled `s`, kept only when the flavor
   * supports it.
   */
  function IdentifierAsToken(s: string, flavor: Flavor): (r: Option<TerminalToken>)
    ensures r.Some? ==> AsStr(r.value) == s && IsIdentifier(r.value) && IsSupported(r.value, flavor)
    ensures r.None? ==>
      || (forall k :: 0 <= k < |Identifiers| ==> !Spells(k, s))
      || (LookupIdentifier(s, 0).Some? && !IsSupported(Identifiers[LookupIdentifier(s, 0).value], flavor))
  {
    match LookupIdentifier(s, 0)
    case None => None
    case Some(k) =>
      IdentifierTable(k);
      if IsSupported(Identifiers[k], flavor) then Some(Identifiers[k]) else None
  }

  /** A reserved word tagged for Respawn is a plain identifier in Squirrel 3. */
  lemma RespawnWordIsIdentifierInSquirrel3(s: string)
    requires LookupIdentifier(s, 0).Some? && LookupIdentifier(s, 0).value >= CommonIdentifierCount
    ensures IdentifierAsToken(s, Squirrel3).None?
    ensures IdentifierAsToken(s, SquirrelRespawn) == Some(Identifiers[LookupIdentifier(s, 0).value])
  {
    var k := LookupIdentifier(s, 0).value;
    IdentifierTable(k);
  }

  /** `try_identifier`: a supported reserved word becomes a terminal, anything else an identifier with the same text. */
  function TryIdentifier(val: ParseStr, flavor: Flavor): (r: Option<(TokenType, ParseStr)>)
    ensures r.Some? <==> TryIdentifierStr(val).Some?
    ensures r.Some? ==>
      var (ident, rest) := TryIdentifierStr(val).value;
      && r.value.1 == rest
      && (r.value.0.Terminal? || r.value.0.Identifier?)
      && (r.value.0.Terminal? ==>
            AsStr(r.value.0.terminal) == ident && IsSupported(r.value.0.terminal, flavor))
      && (r.value.0.Identifier? ==> r.value.0.name == ident && IdentifierAsToken(ident, flavor).None?)
  {
    match TryIdentifierStr(val)
    case None => None
    case Some((ident, rest)) =>
      match IdentifierAsToken(ident, flavor)
      case Some(t) => Some((Terminal(t), rest))
      case None => Some((Identifier(ident), rest))
  }

  /** `break` followed by a non-identifier char is read as a whole word. */
  lemma BreakIsOneWord(rest: string, offset: nat)
    requires rest == [] || !IsIdentifierChar(rest[0])
    ensures TryIdentifierStr(ParseStr("break" + rest, offset)) == Some(("break", ParseStr(rest, offset + 5)))
  {
    var val := ParseStr("break" + rest, offset);
    var found := Find(val.val, IsNotIdentifierChar);
    assert forall i :: 0 <= i < 5 ==> IsIdentifierChar(val.val[i]);
    if rest == [] {
      assert found.None?;
    } else {
      assert val.val[5] == rest[0];
      assert found == Some(5);
    }
    assert val.val[..5] == "break";
    assert val.val[5..] == rest;
  }

  /** The first reserved word reads as its terminal in every flavor. */
  lemma BreakIsTerminal(rest: string, offset: nat, flavor: Flavor)
    requires rest == [] || !IsIdentifierChar(rest[0])
    ensures TryIdentifier(ParseStr("break" + rest, offset), flavor)
      == Some((Terminal(Break), ParseStr(rest, offset + 5)))
  {
    BreakIsOneWord(rest, offset);
    assert Spells(0, "break");
    IdentifierTable(0);
    assert IdentifierAsToken("break", flavor) == Some(Break);
  }
}

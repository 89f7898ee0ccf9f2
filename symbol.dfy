/** Symbol recognition: the first supported entry of the SYMBOLS table that prefixes the input. */
module SymbolLexer {
  import opened Wrappers
  import opened Strings
  import opened ParseStrs
  import opened Tokens

  predicate Matches(s: string, k: nat, flavor: Flavor)
    requires k < |Symbols|
  {
    IsSupported(Symbols[k], flavor) && StartsWith(s, AsStr(Symbols[k]))
  }

  /** The index of the first SYMBOLS entry from `from` that is supported and prefixes `s`. */
  function FindSymbol(s: string, flavor: Flavor, from: nat): (r: Option<nat>)
    requires from <= |Symbols|
    decreases |Symbols| - from
    ensures r.Some? ==> from <= r.value < |Symbols| && Matches(s, r.value, flavor)
    ensures r.Some? ==> forall k :: from <= k < r.value ==> !Matches(s, k, flavor)
    ensures r.None? ==> forall k :: from <= k < |Symbols| ==> !Matches(s, k, flavor)
  {
    if from == |Symbols| then None
    else if Matches(s, from, flavor) then Some(from)
    else FindSymbol(s, flavor, from + 1)
  }

  /**
   * `try_symbol`: the first supported symbol in table order that prefixes the input; the
   * remainder starts right after it.
   */
  function TrySymbol(val: ParseStr, flavor: Flavor): (r: Option<(TerminalToken, ParseStr)>)
    ensures r.None? <==> forall k :: 0 <= k < |Symbols| ==> !Matches(val.val, k, flavor)
    ensures r.Some? ==>
      var (t, rest) := r.value;
      && IsSymbol(t) && IsSupported(t, flavor)
      && AsStr(t) + rest.val == val.val
      && StartOffset(rest) == StartOffset(val) + |AsStr(t)| && EndOffset(rest) == EndOffset(val)
      && Consumed(val, rest)
  {
    match FindSymbol(val.val, flavor, 0)
    case None => None
    case Some(k) =>
      SymbolTable(k, flavor);
      var t := Symbols[k];
      var rest := From(val, |AsStr(t)|);
      assert val.val[..|AsStr(t)|] == AsStr(t);
      Some((t, rest))
  }

  /** Maximal munch: no supported symbol that prefixes the input is longer than the one read. */
  lemma TrySymbolIsLongest(val: ParseStr, flavor: Flavor, k: nat)
    requires k < |Symbols| && Matches(val.val, k, flavor)
    ensures TrySymbol(val, flavor).Some?
    ensures |AsStr(Symbols[k])| <= |AsStr(TrySymbol(val, flavor).value.0)|
  {
    var found := FindSymbol(val.val, flavor, 0).value;
    assert TrySymbol(val, flavor).value.0 == Symbols[found];
    assert found <= k;
    SymbolsByNonIncreasingLength(found, k);
  }

  /** `<=>` reads as the three-way comparison, not as `<=` or `<`. */
  lemma ThreeWayWins(rest: string, offset: nat, flavor: Flavor)
    ensures TrySymbol(ParseStr("<=>" + rest, offset), flavor)
      == Some((ThreeWay, ParseStr(rest, offset + 3)))
  {
    var val := ParseStr("<=>" + rest, offset);
    assert Symbols[0] == ThreeWay;
    assert val.val[..3] == "<=>";
    assert AsStr(ThreeWay) == "<=>";
    assert Matches(val.val, 0, flavor);
    assert FindSymbol(val.val, flavor, 0) == Some(0);
    assert val.val[3..] == rest;
    assert From(val, 3) == ParseStr(rest, offset + 3);
  }
}

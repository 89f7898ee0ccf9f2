// Separator-delimited lists of the syntax tree, such as `a, b, c` with an optional trailing `,`.
module SeparatedLists {
  import opened Wrappers
  import opened Tokens

  /** At least one item; every item but the last is paired with the separator after it. */
  datatype SeparatedList1<T> = SeparatedList1(items: seq<(T, Token)>, lastItem: T)

  /** The same, with the separator that may follow the last item. */
  datatype SeparatedListTrailing1<T> =
    SeparatedListTrailing1(items: seq<(T, Token)>, lastItem: T, trailing: Option<Token>)

  /** An empty list is an absent one. */
  type SeparatedList0<T> = Option<SeparatedList1<T>>

  type SeparatedListTrailing0<T> = Option<SeparatedListTrailing1<T>>

  /** The list of one item, as the list parsers start it. */
  function Single<T>(first: T): (r: SeparatedList1<T>)
    ensures r.items == [] && r.lastItem == first
  {
    SeparatedList1([], first)
  }

  /** The items of the list in source order. */
  function Values<T>(list: SeparatedList1<T>): (r: seq<T>)
    ensures |r| == |list.items| + 1 && r[|list.items|] == list.lastItem
    ensures forall i :: 0 <= i < |list.items| ==> r[i] == list.items[i].0
  {
    seq(|list.items|, i requires 0 <= i < |list.items| => list.items[i].0) + [list.lastItem]
  }

  /** The separators of the list in source order. */
  function Separators<T>(list: SeparatedList1<T>): (r: seq<Token>)
    ensures |r| == |list.items|
    ensures forall i :: 0 <= i < |list.items| ==> r[i] == list.items[i].1
  {
    seq(|list.items|, i requires 0 <= i < |list.items| => list.items[i].1)
  }

  /** `into_trailing`: the same items, and the given trailing separator. */
  function IntoTrailing<T>(list: SeparatedList1<T>, trailing: Option<Token>): (r: SeparatedListTrailing1<T>)
    ensures r.items == list.items && r.lastItem == list.lastItem && r.trailing == trailing
  {
    SeparatedListTrailing1(list.items, list.lastItem, trailing)
  }

  /** The list a `push` of `separator` and `item` leaves. */
  function Pushed<T>(list: SeparatedList1<T>, separator: Token, item: T): (r: SeparatedList1<T>)
    ensures Values(r) == Values(list) + [item]
    ensures Separators(r) == Separators(list) + [separator]
  {
    var r := SeparatedList1(list.items + [(list.lastItem, separator)], item);
    assert Values(r) == Values(list) + [item];
    assert Separators(r) == Separators(list) + [separator];
    r
  }

  /** The list after `items.insert(0, (item, separator))`: a new first item, with its separator. */
  function Inserted<T>(list: SeparatedList1<T>, item: T, separator: Token): (r: SeparatedList1<T>)
    ensures Values(r) == [item] + Values(list)
    ensures Separators(r) == [separator] + Separators(list)
  {
    var r := SeparatedList1([(item, separator)] + list.items, list.lastItem);
    assert Values(r) == [item] + Values(list);
    assert Separators(r) == [separator] + Separators(list);
    r
  }

  /** The list built from a first item by pushing each (separator, item) pair in turn. */
  function PushAll<T>(list: SeparatedList1<T>, pairs: seq<(Token, T)>): SeparatedList1<T>
    decreases |pairs|
  {
    if |pairs| == 0 then list else PushAll(Pushed(list, pairs[0].0, pairs[0].1), pairs[1..])
  }

  /** The second components of the pairs, in order. */
  function Seconds<A, B>(pairs: seq<(A, B)>): (r: seq<B>)
    ensures |r| == |pairs| && forall i :: 0 <= i < |pairs| ==> r[i] == pairs[i].1
  {
    seq(|pairs|, i requires 0 <= i < |pairs| => pairs[i].1)
  }

  function Firsts<A, B>(pairs: seq<(A, B)>): (r: seq<A>)
    ensures |r| == |pairs| && forall i :: 0 <= i < |pairs| ==> r[i] == pairs[i].0
  {
    seq(|pairs|, i requires 0 <= i < |pairs| => pairs[i].0)
  }

  /** Pushing pairs appends their items and their separators, in order, and nothing else. */
  lemma {:induction false} PushAllAppends<T>(list: SeparatedList1<T>, pairs: seq<(Token, T)>)
    ensures Values(PushAll(list, pairs)) == Values(list) + Seconds(pairs)
    ensures Separators(PushAll(list, pairs)) == Separators(list) + Firsts(pairs)
    decreases |pairs|
  {
    if |pairs| > 0 {
      var next := Pushed(list, pairs[0].0, pairs[0].1);
      PushAllAppends(next, pairs[1..]);
      assert Seconds(pairs) == [pairs[0].1] + Seconds(pairs[1..]);
      assert Firsts(pairs) == [pairs[0].0] + Firsts(pairs[1..]);
    }
  }

  /** A property of every item carries over to the list built by pushing the pairs after `first`. */
  lemma {:induction false} PushAllKeeps<T>(list: SeparatedList1<T>, pairs: seq<(Token, T)>, P: T -> bool)
    requires (forall i :: 0 <= i < |list.items| ==> P(list.items[i].0)) && P(list.lastItem)
    requires forall i :: 0 <= i < |pairs| ==> P(pairs[i].1)
    ensures var r := PushAll(list, pairs);
      (forall i :: 0 <= i < |r.items| ==> P(r.items[i].0)) && P(r.lastItem)
    decreases |pairs|
  {
    if |pairs| > 0 {
      PushAllKeeps(Pushed(list, pairs[0].0, pairs[0].1), pairs[1..], P);
    }
  }

  /**
   * The list the parsers grow in place: `push` moves the old last item, with the separator
   * that followed it, to the end of `items`, and the new item becomes the last one.
   */
  class ListBuilder<T> {
    var items: seq<(T, Token)>
    var lastItem: T

    constructor (first: T)
      ensures items == [] && lastItem == first && Value() == Single(first)
    {
      items := [];
      lastItem := first;
    }

    /** The list as the syntax tree holds it. */
    function Value(): SeparatedList1<T>
      reads this
    {
      SeparatedList1(items, lastItem)
    }

    method Push(lastSeparator: Token, item: T)
      modifies this
      ensures items == old(items) + [(old(lastItem), lastSeparator)] && lastItem == item
      ensures Value() == Pushed(old(Value()), lastSeparator, item)
      ensures |Values(Value())| == |Values(old(Value()))| + 1
    {
      items := items + [(lastItem, lastSeparator)];
      lastItem := item;
    }

    /** `items.insert(0, …)`: an item and its separator in front of all the others. */
    method InsertFirst(item: T, separator: Token)
      modifies this
      ensures items == [(item, separator)] + old(items) && lastItem == old(lastItem)
      ensures Value() == Inserted(old(Value()), item, separator)
    {
      items := [(item, separator)] + items;
    }
  }
}

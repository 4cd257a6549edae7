/**
 * RuntimeSet: a scriptable-object list of items that never holds the same
 * item twice. Add appends an item that is not there yet, Remove deletes an
 * item, Initialize empties the list.
 */
module RuntimeSets {
  import opened Wrappers

  /** No item occurs twice. */
  predicate NoDuplicates<T(==)>(s: seq<T>) {
    forall i, j :: 0 <= i < j < |s| ==> s[i] != s[j]
  }

  /** The position of the first occurrence of x. */
  function IndexOf<T(==)>(s: seq<T>, x: T): (i: nat)
    requires x in s
    ensures i < |s| && s[i] == x && x !in s[..i]
  {
    if s[0] == x then 0
    else
      var j := IndexOf(s[1..], x);
      assert s[..j + 1] == [s[0]] + s[1..][..j];
      j + 1
  }

  /** List<T>.Remove: the first occurrence of x is taken out; nothing changes when x is absent. */
  function RemoveFirst<T(==)>(s: seq<T>, x: T): (r: seq<T>)
    ensures x in s ==> r == s[..IndexOf(s, x)] + s[IndexOf(s, x) + 1..]
    ensures x !in s ==> r == s
  {
    if s == [] then []
    else if s[0] == x then s[1..]
    else
      var rest := RemoveFirst(s[1..], x);
      assert x in s ==> x in s[1..] && IndexOf(s, x) == IndexOf(s[1..], x) + 1;
      assert x in s ==> s[..IndexOf(s, x)] == [s[0]] + s[1..][..IndexOf(s[1..], x)];
      [s[0]] + rest
  }

  /** Add: the item is appended unless it is already there. */
  function Added<T(==)>(s: seq<T>, x: T): seq<T> {
    if x in s then s else s + [x]
  }

  /** Adding keeps the list duplicate-free, and afterwards the item is in it. */
  lemma AddKeepsDistinct<T>(s: seq<T>, x: T)
    requires NoDuplicates(s)
    ensures NoDuplicates(Added(s, x))
    ensures x in Added(s, x)
    ensures forall y :: y in Added(s, x) <==> y in s || y == x
  {
  }

  /** The list without its i-th item: the items before i stay, the items after it shift down by one. */
  lemma Shifted<T>(s: seq<T>, i: nat, r: seq<T>)
    requires i < |s| && r == s[..i] + s[i + 1..]
    ensures |r| == |s| - 1
    ensures forall k :: 0 <= k < i ==> r[k] == s[k]
    ensures forall k :: i <= k < |r| ==> r[k] == s[k + 1]
  {
  }

  /** Taking one item out of a duplicate-free list keeps it duplicate-free. */
  lemma DistinctWithout<T>(s: seq<T>, i: nat)
    requires NoDuplicates(s) && i < |s|
    ensures NoDuplicates(s[..i] + s[i + 1..])
  {
    var r := s[..i] + s[i + 1..];
    Shifted(s, i, r);
    forall a, b | 0 <= a < b < |r| ensures r[a] != r[b] {
      var a' := if a < i then a else a + 1;
      var b' := if b < i then b else b + 1;
      assert r[a] == s[a'] && r[b] == s[b'] && a' < b';
    }
  }

  /** Removing from a duplicate-free list keeps it duplicate-free. */
  lemma RemoveKeepsDistinct<T>(s: seq<T>, x: T)
    requires NoDuplicates(s)
    ensures NoDuplicates(RemoveFirst(s, x))
  {
    if x in s {
      DistinctWithout(s, IndexOf(s, x));
    }
  }

  /** Every item left after taking out position i of a duplicate-free list was in it and differs from the item taken out. */
  lemma WithoutIsSubset<T>(s: seq<T>, i: nat, r: seq<T>, y: T)
    requires NoDuplicates(s) && i < |s| && r == s[..i] + s[i + 1..] && y in r
    ensures y in s && y != s[i]
  {
    Shifted(s, i, r);
    var k :| 0 <= k < |r| && r[k] == y;
    if k < i { assert s[k] == y; } else { assert s[k + 1] == y; }
  }

  /** Every item of the list other than the one at position i is still there after taking it out. */
  lemma WithoutKeepsOthers<T>(s: seq<T>, i: nat, r: seq<T>, y: T)
    requires i < |s| && r == s[..i] + s[i + 1..] && y in s && y != s[i]
    ensures y in r
  {
    Shifted(s, i, r);
    var k :| 0 <= k < |s| && s[k] == y;
    var k' := if k < i then k else k - 1;
    assert r[k'] == y;
  }

  /** Removing from a duplicate-free list takes out exactly that item. */
  lemma {:induction false} RemoveExactly<T>(s: seq<T>, x: T)
    requires NoDuplicates(s)
    ensures forall y :: y in RemoveFirst(s, x) <==> y in s && y != x
  {
    if x in s {
      var i := IndexOf(s, x);
      var r := RemoveFirst(s, x);
      forall y ensures y in r <==> y in s && y != x {
        if y in r {
          WithoutIsSubset(s, i, r, y);
        }
        if y in s && y != x {
          WithoutKeepsOthers(s, i, r, y);
        }
      }
    }
  }

  /** Removing an item that was just added restores the list. */
  lemma AddThenRemove<T>(s: seq<T>, x: T)
    requires x !in s
    ensures RemoveFirst(Added(s, x), x) == s
  {
    assert (s + [x])[..|s|] == s;
  }

  /** List<T>[index] throws ArgumentOutOfRangeException outside [0, Count). */
  datatype IndexError = ArgumentOutOfRange

  class RuntimeSet<T(==)> {
    var items: seq<T>

    ghost predicate Valid()
      reads this
    {
      NoDuplicates(items)
    }

    constructor ()
      ensures items == [] && Valid()
    {
      items := [];
    }

    /** Initialize: the list is cleared. */
    method Initialize()
      modifies this
      ensures items == [] && Valid()
    {
      items := [];
    }

    /** GetItem: the item at the index, or the indexer's exception. */
    function GetItem(index: int): (r: Result<T, IndexError>)
      reads this
      ensures r.Ok? <==> 0 <= index < |items|
      ensures r.Ok? ==> r.value == items[index]
    {
      if 0 <= index < |items| then Ok(items[index]) else Err(ArgumentOutOfRange)
    }

    /** FirstOrDefault: the first item, or the default value of T on an empty list. */
    function FirstOrDefault(defaultValue: T): (r: T)
      reads this
      ensures |items| == 0 ==> r == defaultValue
      ensures |items| > 0 ==> r == items[0] && r in items
    {
      if |items| == 0 then defaultValue else items[0]
    }

    /** Contains: whether the item is in the list. */
    function Contains(thing: T): (r: bool)
      reads this
      ensures r <==> exists i :: 0 <= i < |items| && items[i] == thing
    {
      thing in items
    }

    /** Add: a new item goes to the end; an item already present leaves the list as it was. */
    method Add(thing: T)
      modifies this
      ensures items == Added(old(items), thing)
      ensures old(Valid()) ==> Valid()
    {
      if thing !in items {
        items := items + [thing];
      }
    }

    /** Remove: the item is taken out, the other items keep their order. */
    method Remove(thing: T)
      modifies this
      ensures items == RemoveFirst(old(items), thing)
      ensures old(Valid()) ==> Valid() && !Contains(thing)
    {
      ghost var before := items;
      if thing in items {
        items := RemoveFirst(items, thing);
      }
      if old(Valid()) {
        RemoveKeepsDistinct(before, thing);
        RemoveExactly(before, thing);
      }
    }
  }
}

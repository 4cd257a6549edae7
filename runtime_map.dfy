/**
 * RuntimeMap: a scriptable-object association list of key/value pairs with
 * at most one pair per key. Add keeps the first value written for a key;
 * the lookups find the earliest pair with a key and treat "no pair" as the
 * default KeyValue struct.
 *
 * KeyValue.Equals, on which GetItem, Contains and RemoveByKey test for that
 * default, calls itself without end; the *AsWritten members below model it,
 * and the map itself is modelled with the evidently intended test ("no pair
 * with this key").
 */
module RuntimeMaps {
  import opened Wrappers
  import opened RuntimeSets

  datatype KeyValue<K, V> = KeyValue(key: K, value: V)

  /** Some pair has the key. */
  predicate HasKey<K(==), V>(items: seq<KeyValue<K, V>>, key: K) {
    exists i :: 0 <= i < |items| && items[i].key == key
  }

  /** No two pairs share a key. */
  predicate KeysUnique<K(==), V>(items: seq<KeyValue<K, V>>) {
    forall i, j :: 0 <= i < j < |items| ==> items[i].key != items[j].key
  }

  /** The position of the earliest pair with the key (FirstOrDefault's predicate search). */
  function FindKey<K(==), V>(items: seq<KeyValue<K, V>>, key: K): (r: Option<nat>)
    ensures r.None? <==> !HasKey(items, key)
    ensures r.Some? ==> r.value < |items| && items[r.value].key == key
    ensures r.Some? ==> forall j :: 0 <= j < r.value ==> items[j].key != key
  {
    if items == [] then None
    else if items[0].key == key then Some(0)
    else
      var rest := FindKey(items[1..], key);
      assert HasKey(items, key) ==> HasKey(items[1..], key) by {
        if HasKey(items, key) {
          var i :| 0 <= i < |items| && items[i].key == key;
          assert items[1..][i - 1].key == key;
        }
      }
      if rest.None? then None else Some(rest.value + 1)
  }

  /** The value of the earliest pair with the key, if any. */
  function Lookup<K(==), V>(items: seq<KeyValue<K, V>>, key: K): (r: Option<V>)
    ensures r.Some? <==> HasKey(items, key)
    ensures r.Some? ==> exists i :: 0 <= i < |items| && items[i] == KeyValue(key, r.value)
  {
    match FindKey(items, key)
    case None => None
    case Some(i) => assert items[i] == KeyValue(key, items[i].value); Some(items[i].value)
  }

  /** AddKeyValue: the pair is appended unless some pair already has its key. */
  function AddedPair<K(==), V>(items: seq<KeyValue<K, V>>, kv: KeyValue<K, V>): seq<KeyValue<K, V>> {
    if HasKey(items, kv.key) then items else items + [kv]
  }

  /** RemoveByKey: List.Remove of the earliest pair with the key, which is that pair itself. */
  function RemovedKey<K(==), V(==)>(items: seq<KeyValue<K, V>>, key: K): seq<KeyValue<K, V>> {
    match FindKey(items, key)
    case None => items
    case Some(i) => RemoveFirst(items, items[i])
  }

  /**
   * Add keeps keys unique; afterwards the key is present, a key that was
   * already present keeps its first value, a new key gets the value added,
   * and every other key keeps its lookup.
   */
  lemma AddThenLookup<K, V>(items: seq<KeyValue<K, V>>, kv: KeyValue<K, V>, other: K)
    requires KeysUnique(items)
    ensures KeysUnique(AddedPair(items, kv))
    ensures Lookup(AddedPair(items, kv), kv.key) ==
              if HasKey(items, kv.key) then Lookup(items, kv.key) else Some(kv.value)
    ensures other != kv.key ==> Lookup(AddedPair(items, kv), other) == Lookup(items, other)
  {
    var a := AddedPair(items, kv);
    if !HasKey(items, kv.key) {
      assert a[|items|] == kv;
      FindKeyPrefix(items, [kv], kv.key);
      FindKeyPrefix(items, [kv], other);
    }
  }

  /** The earliest pair with a key in a prefix is the earliest in the whole list; a key missing from the prefix is found after it. */
  lemma FindKeyPrefix<K, V>(items: seq<KeyValue<K, V>>, more: seq<KeyValue<K, V>>, key: K)
    ensures HasKey(items, key) ==> FindKey(items + more, key) == FindKey(items, key)
    ensures !HasKey(items, key) && more != [] && more[0].key == key ==> FindKey(items + more, key) == Some(|items|)
    ensures !HasKey(items, key) && !HasKey(more, key) ==> !HasKey(items + more, key)
  {
    var all := items + more;
    if HasKey(items, key) {
      var i := FindKey(items, key).value;
      assert all[i] == items[i];
      assert HasKey(all, key);
      assert forall k :: 0 <= k < i ==> all[k] == items[k];
    } else if more != [] && more[0].key == key {
      assert all[|items|] == more[0];
      assert HasKey(all, key);
      assert forall k :: 0 <= k < |items| ==> all[k] == items[k];
    } else if !HasKey(more, key) {
      forall k | 0 <= k < |all| ensures all[k].key != key {
        if k < |items| {
          assert all[k] == items[k];
        } else {
          assert all[k] == more[k - |items|];
        }
      }
    }
  }

  /** With unique keys, the pair with the key is the first pair equal to it, so List.Remove takes out that position. */
  lemma RemovedKeyAt<K, V>(items: seq<KeyValue<K, V>>, key: K)
    requires KeysUnique(items) && HasKey(items, key)
    ensures RemovedKey(items, key) == items[..FindKey(items, key).value] + items[FindKey(items, key).value + 1..]
  {
    var i := FindKey(items, key).value;
    var j := IndexOf(items, items[i]);
    assert items[j].key == key;
    assert j == i;
  }

  /** With unique keys, removing a key leaves the keys unique and the key absent. */
  lemma {:induction false} RemoveKeepsUnique<K, V>(items: seq<KeyValue<K, V>>, key: K)
    requires KeysUnique(items)
    ensures KeysUnique(RemovedKey(items, key))
    ensures !HasKey(RemovedKey(items, key), key)
  {
    if HasKey(items, key) {
      var i := FindKey(items, key).value;
      var r := RemovedKey(items, key);
      RemovedKeyAt(items, key);
      KeysUniqueWithout(items, i, r);
    }
  }

  /** Taking position i out of a list with unique keys keeps the keys unique, and the key at i is gone. */
  lemma KeysUniqueWithout<K, V>(items: seq<KeyValue<K, V>>, i: nat, r: seq<KeyValue<K, V>>)
    requires KeysUnique(items) && i < |items| && r == items[..i] + items[i + 1..]
    ensures KeysUnique(r)
    ensures forall k :: 0 <= k < |r| ==> r[k].key != items[i].key
  {
    Shifted(items, i, r);
    forall a, b | 0 <= a < b < |r| ensures r[a].key != r[b].key {
      var a' := if a < i then a else a + 1;
      var b' := if b < i then b else b + 1;
      assert r[a] == items[a'] && r[b] == items[b'] && a' < b';
    }
    forall k | 0 <= k < |r| ensures r[k].key != items[i].key {
      if k < i {
        assert r[k] == items[k];
      } else {
        assert r[k] == items[k + 1];
      }
    }
  }

  /** With unique keys, the lookup of a key gives v exactly when the pair (key, v) is in the list. */
  lemma LookupMembership<K, V>(items: seq<KeyValue<K, V>>, key: K, v: V)
    requires KeysUnique(items)
    ensures Lookup(items, key) == Some(v) <==> KeyValue(key, v) in items
  {
    UniqueLookup(items, key);
  }

  /** With unique keys, removing a key leaves the lookup of every other key as it was. */
  lemma RemoveThenLookup<K, V>(items: seq<KeyValue<K, V>>, key: K, other: K)
    requires KeysUnique(items) && other != key
    ensures Lookup(RemovedKey(items, key), other) == Lookup(items, other)
  {
    if HasKey(items, key) {
      var kv := items[FindKey(items, key).value];
      var r := RemovedKey(items, key);
      assert NoDuplicates(items);
      RemoveExactly(items, kv);
      RemoveKeepsUnique(items, key);
      forall v ensures Lookup(r, other) == Some(v) <==> Lookup(items, other) == Some(v) {
        LookupMembership(r, other, v);
        LookupMembership(items, other, v);
      }
    }
  }

  /** With unique keys, the lookup of a key is the value of the one pair that has it. */
  lemma UniqueLookup<K, V>(items: seq<KeyValue<K, V>>, key: K)
    requires KeysUnique(items)
    ensures forall i :: 0 <= i < |items| && items[i].key == key ==> Lookup(items, key) == Some(items[i].value)
  {
    forall i | 0 <= i < |items| && items[i].key == key ensures Lookup(items, key) == Some(items[i].value) {
      var f := FindKey(items, key).value;
    }
  }

  class RuntimeMap<K(==), V(==)> {
    var items: seq<KeyValue<K, V>>

    ghost predicate Valid()
      reads this
    {
      KeysUnique(items)
    }

    constructor ()
      ensures items == [] && Valid()
    {
      items := [];
    }

    /** AddKeyValue: a pair whose key is new goes to the end; otherwise nothing changes. */
    method AddKeyValue(newKv: KeyValue<K, V>)
      modifies this
      ensures items == AddedPair(old(items), newKv)
      ensures old(Valid()) ==> Valid()
    {
      if !HasKey(items, newKv.key) {
        items := items + [newKv];
      }
      if old(Valid()) {
        AddThenLookup(old(items), newKv, newKv.key);
      }
    }

    method Add(key: K, value: V)
      modifies this
      ensures items == AddedPair(old(items), KeyValue(key, value))
      ensures old(Valid()) ==> Valid()
    {
      AddKeyValue(KeyValue(key, value));
    }

    /** FirstOrDefault: the earliest pair with the key; None stands for the default struct. */
    function FirstOrDefault(key: K): (r: Option<KeyValue<K, V>>)
      reads this
      ensures r.None? <==> !HasKey(items, key)
      ensures r.Some? ==> r.value.key == key && r.value == items[FindKey(items, key).value]
    {
      match FindKey(items, key)
      case None => None
      case Some(i) => Some(items[i])
    }

    /** Initialize: the map is cleared. */
    method Initialize()
      modifies this
      ensures items == [] && Valid()
    {
      items := [];
    }

    /** GetItem (intended): the value of the pair with the key, or the default value of V. */
    function GetItem(key: K, defaultValue: V): (r: V)
      reads this
      ensures HasKey(items, key) ==> Lookup(items, key) == Some(r)
      ensures !HasKey(items, key) ==> r == defaultValue
    {
      var m := FirstOrDefault(key);
      if m.None? then defaultValue else m.value.value
    }

    /** Contains (intended): some pair has the key. */
    function Contains(key: K): (r: bool)
      reads this
      ensures r <==> exists i :: 0 <= i < |items| && items[i].key == key
    {
      FirstOrDefault(key).Some?
    }

    /** RemoveByKey (intended): the pair with the key is removed, and the result says whether there was one. */
    method RemoveByKey(key: K) returns (removed: bool)
      modifies this
      ensures removed <==> HasKey(old(items), key)
      ensures items == RemovedKey(old(items), key)
      ensures old(Valid()) ==> Valid() && !Contains(key)
    {
      var m := FirstOrDefault(key);
      if m.Some? {
        items := RemoveFirst(items, m.value);
        removed := true;
      } else {
        removed := false;
      }
      if old(Valid()) {
        RemoveKeepsUnique(old(items), key);
      }
    }

    method Remove(key: K) returns (removed: bool)
      modifies this
      ensures removed <==> HasKey(old(items), key)
      ensures items == RemovedKey(old(items), key)
      ensures old(Valid()) ==> Valid() && !Contains(key)
    {
      removed := RemoveByKey(key);
    }
  }

  // ---------------------------------------------------------------------
  // KeyValue.Equals as written
  // ---------------------------------------------------------------------

  /**
   * KeyValue.Equals(other) as written: it first evaluates
   * other.Equals(default), a call of the same method, before it can compare
   * anything. With room for depth nested calls on the stack, None means the
   * call never returned (the stack overflowed).
   */
  function EqualsAsWritten<K(==), V(==)>(depth: nat, self: KeyValue<K, V>, other: KeyValue<K, V>, defaultKv: KeyValue<K, V>): Option<bool> {
    if depth == 0 then None
    else
      match EqualsAsWritten(depth - 1, other, defaultKv, defaultKv)
      case None => None
      case Some(isDefault) => Some(!isDefault && self.key == other.key && self.value == other.value)
  }

  /** However deep the stack, KeyValue.Equals as written never returns. */
  lemma {:induction false} EqualsAsWrittenNeverReturns<K, V>(depth: nat, self: KeyValue<K, V>, other: KeyValue<K, V>, defaultKv: KeyValue<K, V>)
    ensures EqualsAsWritten(depth, self, other, defaultKv) == None
  {
    if depth > 0 {
      EqualsAsWrittenNeverReturns(depth - 1, other, defaultKv, defaultKv);
    }
  }

  /**
   * GetItem as written: FirstOrDefault, then match.Equals(default); None is
   * a call that never returns. Contains and RemoveByKey start the same way.
   */
  function GetItemAsWritten<K(==), V(==)>(depth: nat, items: seq<KeyValue<K, V>>, key: K, defaultKv: KeyValue<K, V>): Option<V> {
    var m := match FindKey(items, key) case None => defaultKv case Some(i) => items[i];
    match EqualsAsWritten(depth, m, defaultKv, defaultKv)
    case None => None
    case Some(isDefault) => Some(if isDefault then defaultKv.value else m.value)
  }

  /** GetItem as written never returns, not even on an empty map, while the intended GetItem always does. */
  lemma GetItemAsWrittenDiverges<K, V>(depth: nat, items: seq<KeyValue<K, V>>, key: K, defaultKv: KeyValue<K, V>)
    ensures GetItemAsWritten(depth, items, key, defaultKv) == None
    ensures GetItemAsWritten(depth, [], key, defaultKv) == None
  {
    var m := match FindKey(items, key) case None => defaultKv case Some(i) => items[i];
    EqualsAsWrittenNeverReturns(depth, m, defaultKv, defaultKv);
    EqualsAsWrittenNeverReturns(depth, defaultKv, defaultKv, defaultKv);
  }

  /** Contains as written: !FirstOrDefault(key).Equals(default); None is a call that never returns. */
  function ContainsAsWritten<K(==), V(==)>(depth: nat, items: seq<KeyValue<K, V>>, key: K, defaultKv: KeyValue<K, V>): Option<bool> {
    var m := match FindKey(items, key) case None => defaultKv case Some(i) => items[i];
    match EqualsAsWritten(depth, m, defaultKv, defaultKv)
    case None => None
    case Some(isDefault) => Some(!isDefault)
  }

  /** Contains as written never returns, whether or not the key is present, while the intended Contains always does. */
  lemma ContainsAsWrittenDiverges<K, V>(depth: nat, items: seq<KeyValue<K, V>>, key: K, defaultKv: KeyValue<K, V>)
    ensures ContainsAsWritten(depth, items, key, defaultKv) == None
    ensures ContainsAsWritten(depth, [], key, defaultKv) == None
  {
    var m := match FindKey(items, key) case None => defaultKv case Some(i) => items[i];
    EqualsAsWrittenNeverReturns(depth, m, defaultKv, defaultKv);
    EqualsAsWrittenNeverReturns(depth, defaultKv, defaultKv, defaultKv);
  }
}

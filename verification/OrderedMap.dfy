/** A string-keyed map that keeps the order in which its keys first came. */
module OrderedMap {
  import opened Wrappers

  datatype Entry<V> = Entry(key: string, value: V)

  ghost predicate HasKey<V>(entries: seq<Entry<V>>, key: string) { exists e <- entries :: e.key == key }

  predicate UniqueKeys<V>(entries: seq<Entry<V>>) {
    forall i, j :: 0 <= i < j < |entries| ==> entries[i].key != entries[j].key
  }

  function Lookup<V>(entries: seq<Entry<V>>, key: string): Option<V> {
    if entries == [] then None
    else if entries[0].key == key then Some(entries[0].value)
    else Lookup(entries[1..], key)
  }

  /** The map after `map[key] = value`. */
  function Put<V>(entries: seq<Entry<V>>, key: string, value: V): seq<Entry<V>> {
    if entries == [] then [Entry(key, value)]
    else if entries[0].key == key then [Entry(key, value)] + entries[1..]
    else [entries[0]] + Put(entries[1..], key, value)
  }

  lemma {:induction false} PutIsAssignment<V>(entries: seq<Entry<V>>, key: string, value: V, k: string)
    ensures Lookup(Put(entries, key, value), k) == if k == key then Some(value) else Lookup(entries, k)
  {
    if entries != [] && entries[0].key != key {
      PutIsAssignment(entries[1..], key, value, k);
      assert Put(entries, key, value)[1..] == Put(entries[1..], key, value);
    } else {
      assert Put(entries, key, value)[0] == Entry(key, value);
      assert entries != [] ==> Put(entries, key, value)[1..] == entries[1..];
      assert entries == [] ==> Put(entries, key, value)[1..] == [];
    }
  }

  /** An old key keeps its place; a new key goes last. */
  lemma {:induction false} PutKeepsOrder<V>(entries: seq<Entry<V>>, key: string, value: V)
    ensures |Put(entries, key, value)| == |entries| + if HasKey(entries, key) then 0 else 1
    ensures forall i :: 0 <= i < |entries| ==> Put(entries, key, value)[i].key == entries[i].key
    ensures !HasKey(entries, key) ==> Put(entries, key, value) == entries + [Entry(key, value)]
  {
    if entries != [] {
      if entries[0].key == key {
        assert entries[0] in entries;
      } else {
        PutKeepsOrder(entries[1..], key, value);
        assert HasKey(entries, key) <==> HasKey(entries[1..], key) by {
          assert entries == [entries[0]] + entries[1..];
        }
      }
    }
  }

  lemma PutKeepsUnique<V>(entries: seq<Entry<V>>, key: string, value: V)
    requires UniqueKeys(entries)
    ensures UniqueKeys(Put(entries, key, value))
  {
    PutKeepsOrder(entries, key, value);
  }

  /** At the place of an existing key only the value changes. */
  lemma {:induction false} PutAt<V>(entries: seq<Entry<V>>, i: nat, key: string, value: V)
    requires i < |entries| && entries[i].key == key
    requires forall j :: 0 <= j < i ==> entries[j].key != key
    ensures Put(entries, key, value) == entries[i := Entry(key, value)]
  {
    if i > 0 {
      assert entries[0].key != key;
      PutAt(entries[1..], i - 1, key, value);
      assert [entries[0]] + entries[1..][i - 1 := Entry(key, value)] == entries[i := Entry(key, value)];
    } else {
      assert [Entry(key, value)] + entries[1..] == entries[0 := Entry(key, value)];
    }
  }

  class Ordered<V> {
    var entries: seq<Entry<V>>

    constructor ()
      ensures entries == []
    {
      entries := [];
    }

    /** The first position of the key, or the number of entries. */
    method Find(key: string) returns (i: nat)
      ensures i <= |entries|
      ensures forall j :: 0 <= j < i ==> entries[j].key != key
      ensures i < |entries| ==> entries[i].key == key
    {
      i := 0;
      while i < |entries| && entries[i].key != key
        invariant i <= |entries|
        invariant forall j :: 0 <= j < i ==> entries[j].key != key
      {
        i := i + 1;
      }
    }

    method Assign(key: string, value: V)
      modifies this
      ensures entries == Put(old(entries), key, value)
    {
      var i := Find(key);
      if i < |entries| {
        PutAt(entries, i, key, value);
        entries := entries[i := Entry(key, value)];
      } else {
        PutKeepsOrder(entries, key, value);
        assert !HasKey(entries, key);
        entries := entries + [Entry(key, value)];
      }
    }
  }
}

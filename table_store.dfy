/** The table's scratch store: a record of values by key that `set` and `clear` change in place. */
module TableStore {
  import opened Values

  /** `store[key]`: a key never set reads as undefined. */
  function Lookup(store: map<string, Value>, key: string): Value {
    if key in store then store[key] else Undefined
  }

  /** Reading a key just set gives the value set, and other keys keep theirs. */
  lemma LookupAfterSet(store: map<string, Value>, key: string, v: Value, other: string)
    ensures Lookup(store[key := v], key) == v
    ensures other != key ==> Lookup(store[key := v], other) == Lookup(store, other)
  {
  }

  /** An emptied store reads undefined everywhere. */
  lemma LookupEmpty(key: string)
    ensures Lookup(map[], key) == Undefined
  {
  }

  class Store {
    var current: map<string, Value>

    /** The store starts as the empty record. */
    constructor ()
      ensures current == map[]
    {
      current := map[];
    }

    /** `get(key)`. */
    function Get(key: string): (r: Value)
      reads this
      ensures key !in current ==> r == Undefined
      ensures key in current ==> r == current[key]
    {
      Lookup(current, key)
    }

    /** `set(key, v)`: the key now reads `v`; every other key is unchanged. */
    method Set(key: string, v: Value)
      modifies this
      ensures current == old(current)[key := v]
      ensures Get(key) == v
      ensures forall k :: k != key ==> Get(k) == old(Get(k))
    {
      current := current[key := v];
    }

    /** `clear()`: every key reads undefined afterwards. */
    method Clear()
      modifies this
      ensures current == map[]
      ensures forall k :: Get(k) == Undefined
    {
      current := map[];
    }
  }
}

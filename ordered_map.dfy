/** A JavaScript `Map`: its entries and the insertion order of their keys. */
module OrderedMaps {
  import opened SeqFacts

  /** `s` with every occurrence of `k` removed, order kept. */
  function Remove<K(==,!new)>(s: seq<K>, k: K): (r: seq<K>)
    ensures |r| <= |s|
    ensures IsSubsequence(r, s)
    ensures forall x {:trigger multiset(r)[x]} :: multiset(r)[x] == if x != k then multiset(s)[x] else 0
    ensures forall x :: x in r <==> x in s && x != k
    ensures k !in s ==> r == s
  {
    if s == [] then []
    else
      var keep := s[0] != k;
      var rest := Remove(s[1..], k);
      ConsSubsequence(keep, s, rest);
      MultisetCons(s);
      var r := (if keep then [s[0]] else []) + rest;
      FilterMembers(r, s, x => x != k);
      r
  }

  predicate Distinct<K(==,!new)>(s: seq<K>) {
    forall i, j :: 0 <= i < j < |s| ==> s[i] != s[j]
  }

  /** Dropping the last element keeps the rest distinct. */
  lemma DistinctInit<K(!new)>(s: seq<K>)
    requires Distinct(s) && s != []
    ensures Distinct(s[..|s| - 1])
  {
    var init := s[..|s| - 1];
    assert forall i :: 0 <= i < |init| ==> init[i] == s[i];
  }

  lemma {:induction false} RemoveKeepsDistinct<K(!new)>(s: seq<K>, k: K)
    requires Distinct(s)
    ensures Distinct(Remove(s, k))
  {
    if s != [] {
      RemoveKeepsDistinct(s[1..], k);
      if s[0] != k {
        var r := Remove(s[1..], k);
        assert s[0] !in r by {
          assert s[0] !in s[1..];
        }
        assert Distinct([s[0]] + r) by {
          forall i, j | 0 <= i < j < |r| + 1 ensures ([s[0]] + r)[i] != ([s[0]] + r)[j] {
            if i > 0 {
              assert ([s[0]] + r)[i] == r[i - 1];
            }
          }
        }
      }
    }
  }

  /** Removing a key appended at the end gives back the original order. */
  lemma {:induction false} RemoveAppended<K(!new)>(s: seq<K>, k: K)
    requires k !in s
    ensures Remove(s + [k], k) == s
  {
    if s != [] {
      assert (s + [k])[1..] == s[1..] + [k];
      RemoveAppended(s[1..], k);
    }
  }

  datatype OMap<K(==,!new), V> = OMap(keys: seq<K>, entries: map<K, V>) {
    /** Each key once, and exactly the keys that have entries. */
    ghost predicate Valid() {
      Distinct(keys) && forall k :: k in entries <==> k in keys
    }

    /** `map.size`. */
    function Size(): nat {
      |keys|
    }

    /** `map.set(k, v)`: a new key goes last, an existing key keeps its place. */
    function Set(k: K, v: V): (r: OMap<K, V>)
      requires Valid()
      ensures r.Valid() && r.entries == entries[k := v]
      ensures r.keys == if k in entries then keys else keys + [k]
    {
      if k in entries then OMap(keys, entries[k := v]) else OMap(keys + [k], entries[k := v])
    }

    /** `map.delete(k)`. */
    function Delete(k: K): (r: OMap<K, V>)
      requires Valid()
      ensures r.Valid() && r.entries == entries - {k}
      ensures r.keys == Remove(keys, k)
    {
      RemoveKeepsDistinct(keys, k);
      OMap(Remove(keys, k), entries - {k})
    }

    /** `Array.from(map.values())`. */
    function Values(): (r: seq<V>)
      requires Valid()
      ensures |r| == |keys| && forall i :: 0 <= i < |keys| ==> r[i] == entries[keys[i]]
    {
      seq(|keys|, i requires 0 <= i < |keys| => entries[keys[i]])
    }
  }

  function EmptyMap<K(==,!new), V>(): (r: OMap<K, V>)
    ensures r.Valid() && r.Size() == 0 && r.entries == map[]
  {
    OMap([], map[])
  }

  /** Setting a new key and deleting it again restores the map, order included. */
  lemma SetThenDelete<K(!new), V>(m: OMap<K, V>, k: K, v: V)
    requires m.Valid() && k !in m.entries
    ensures m.Set(k, v).Delete(k) == m
  {
    RemoveAppended(m.keys, k);
    assert m.entries[k := v] - {k} == m.entries;
  }

  /** Each pair set in turn: `URLSearchParams.set` in a loop, or `Object.fromEntries`. */
  function SetAll<K(!new), V>(acc: OMap<K, V>, pairs: seq<(K, V)>): (r: OMap<K, V>)
    requires acc.Valid()
    ensures r.Valid()
    decreases |pairs|
  {
    if pairs == [] then acc else SetAll(acc.Set(pairs[0].0, pairs[0].1), pairs[1..])
  }
}

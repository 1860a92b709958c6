/**
 The guard-to-values table of the transition relation database is a
 `std::map`, and transitions enter it through `std::map::insert`. That call
 adds a key only when the key is absent: an entry that is already present is
 neither overwritten nor duplicated. This module states that behaviour on
 Dafny's `map` and proves what follows from it.
 */
module TransitionMap {

  /** `std::map::insert({key, value})`: the first value inserted for a key wins. */
  function InsertIfAbsent<K, V>(m: map<K, V>, key: K, value: V): (r: map<K, V>)
    ensures r.Keys == m.Keys + {key}
    ensures forall k :: k in m ==> k in r && r[k] == m[k]
    ensures key !in m ==> r[key] == value
  {
    if key in m then m else m[key := value]
  }

  /** Inserting a key that is already present changes nothing. */
  lemma InsertPresentKeepsMap<K, V>(m: map<K, V>, key: K, value: V)
    requires key in m
    ensures InsertIfAbsent(m, key, value) == m
  {
  }

  /** Inserting an absent key adds exactly that one entry. */
  lemma InsertAbsentAddsEntry<K, V>(m: map<K, V>, key: K, value: V)
    requires key !in m
    ensures InsertIfAbsent(m, key, value) == m[key := value]
    ensures |InsertIfAbsent(m, key, value)| == |m| + 1
  {
  }

  /** A second identical insert leaves the map as the first one left it. */
  lemma InsertIdempotent<K, V>(m: map<K, V>, key: K, value: V)
    ensures InsertIfAbsent(InsertIfAbsent(m, key, value), key, value) == InsertIfAbsent(m, key, value)
  {
  }

  /** A second insert of a key keeps the value of the first, whatever the second value is. */
  lemma FirstInsertWins<K, V>(m: map<K, V>, key: K, first: V, second: V)
    requires key !in m
    ensures InsertIfAbsent(InsertIfAbsent(m, key, first), key, second) == m[key := first]
  {
  }

  /** Inserts of two distinct keys give the same map in either order. */
  lemma InsertCommutesOnDistinctKeys<K, V>(m: map<K, V>, k1: K, v1: V, k2: K, v2: V)
    requires k1 != k2
    ensures InsertIfAbsent(InsertIfAbsent(m, k1, v1), k2, v2)
         == InsertIfAbsent(InsertIfAbsent(m, k2, v2), k1, v1)
  {
  }

  /**
   Inserts of one key with two different values do NOT commute: whichever
   comes first stays. Order of insertion matters exactly when the guards clash.
   */
  lemma InsertOrderMattersOnSameKey<K, V>(m: map<K, V>, key: K, v1: V, v2: V)
    requires key !in m && v1 != v2
    ensures InsertIfAbsent(InsertIfAbsent(m, key, v1), key, v2)[key] == v1
    ensures InsertIfAbsent(InsertIfAbsent(m, key, v2), key, v1)[key] == v2
    ensures InsertIfAbsent(InsertIfAbsent(m, key, v1), key, v2)
         != InsertIfAbsent(InsertIfAbsent(m, key, v2), key, v1)
  {
    FirstInsertWins(m, key, v1, v2);
    FirstInsertWins(m, key, v2, v1);
  }
}

/** The bounded first-in-first-out result caches of the keep-awake control plane. */
module FifoCache {
  import opened Text

  datatype Cache<K, V> = Cache(entries: map<K, V>, order: seq<K>)

  /** Entries and order agree, without duplicates, within the cap. */
  ghost predicate Agrees<K(!new), V(!new)>(c: Cache<K, V>, cap: nat) {
    && Distinct(c.order)
    && |c.order| <= cap
    && (forall k :: k in c.entries <==> k in c.order)
  }

  /** A key already present keeps its place; a new one evicts the oldest at the cap. */
  function Store<K, V>(c: Cache<K, V>, cap: nat, key: K, value: V): Cache<K, V>
    requires cap > 0
  {
    if key in c.entries then Cache(c.entries[key := value], c.order)
    else if |c.order| >= cap then
      Cache((c.entries - {c.order[0]})[key := value], c.order[1..] + [key])
    else
      Cache(c.entries[key := value], c.order + [key])
  }

  lemma StoreAgrees<K(!new), V(!new)>(c: Cache<K, V>, cap: nat, key: K, value: V)
    requires cap > 0 && Agrees(c, cap)
    ensures Agrees(Store(c, cap, key, value), cap)
  {
    var c' := Store(c, cap, key, value);
    if key !in c.entries && |c.order| >= cap {
      assert c.order == [c.order[0]] + c.order[1..];
      forall k
        ensures k in c'.entries <==> k in c'.order
      {
        if k in c.order[1..] {
          var i :| 0 <= i < |c.order[1..]| && c.order[1..][i] == k;
          assert c.order[i + 1] == k;
        }
      }
    }
  }

  /** An entry survives this many stores of other keys at least. */
  ghost predicate Survives<K(!new), V(!new)>(c: Cache<K, V>, cap: nat, key: K, stores: int) {
    key in c.entries && exists i :: 0 <= i < |c.order| && c.order[i] == key && stores <= i + cap - |c.order|
  }

  lemma StoreSurvives<K(!new), V(!new)>(c: Cache<K, V>, cap: nat, key: K, value: V)
    requires cap > 0 && Agrees(c, cap) && key !in c.entries
    ensures Survives(Store(c, cap, key, value), cap, key, cap - 1)
  {
    var c' := Store(c, cap, key, value);
    assert c'.order[|c'.order| - 1] == key;
  }

  /** One store costs an entry at most one place, and never changes its value unless the
      key itself is stored. */
  lemma StoreOther<K(!new), V(!new)>(c: Cache<K, V>, cap: nat, key: K, value: V, kept: K, stores: int)
    requires cap > 0 && Agrees(c, cap) && kept != key && stores > 0 && Survives(c, cap, kept, stores)
    ensures Survives(Store(c, cap, key, value), cap, kept, stores - 1)
    ensures Store(c, cap, key, value).entries[kept] == c.entries[kept]
  {
    var i :| 0 <= i < |c.order| && c.order[i] == kept && stores <= i + cap - |c.order|;
    var c' := Store(c, cap, key, value);
    if key in c.entries {
      assert c'.order[i] == kept;
    } else if |c.order| >= cap {
      assert i > 0;
      assert c'.order[i - 1] == kept;
      assert kept != c.order[0];
    } else {
      assert c'.order[i] == kept;
    }
  }

  /** The entry is in the cache and can outlive this many more stores. */
  ghost predicate Cached<K(!new), V(!new)>(c: Cache<K, V>, cap: nat, key: K, value: V, stores: int) {
    Survives(c, cap, key, stores) && c.entries[key] == value
  }

  /** A stored entry outlives one store less than the cache has places. */
  lemma StoreCached<K(!new), V(!new)>(c: Cache<K, V>, cap: nat, key: K, value: V)
    requires cap > 0 && Agrees(c, cap) && key !in c.entries
    ensures Cached(Store(c, cap, key, value), cap, key, value, cap - 1)
  {
    StoreSurvives(c, cap, key, value);
  }
}

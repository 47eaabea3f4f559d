/** Tables of sets: Redis sets by key, and the gateway's dictionaries of sets. An absent key reads as the
    empty set, and a set that becomes empty disappears. So a table is determined by what each key reads as,
    as long as no listed set is empty, and taking an element out of several sets one by one, in whatever
    order, is taking it out of all of them at once. */
module SetTables {

  function Members<K, T>(m: map<K, set<T>>, k: K): set<T> {
    if k in m then m[k] else {}
  }

  function Put<K, T>(m: map<K, set<T>>, k: K, x: T): map<K, set<T>> {
    m[k := Members(m, k) + {x}]
  }

  function Drop<K, T(==)>(m: map<K, set<T>>, k: K, x: T): map<K, set<T>> {
    if Members(m, k) - {x} == {} then m - {k} else m[k := m[k] - {x}]
  }

  /** Take `x` out of the sets of all the keys. */
  function DropAll<K, T(==)>(m: map<K, set<T>>, keys: set<K>, x: T): map<K, set<T>> {
    map k | k in m && !(k in keys && m[k] - {x} == {}) :: if k in keys then m[k] - {x} else m[k]
  }

  /** Every listed set has an element. */
  ghost predicate NoEmpty<K(!new), T>(m: map<K, set<T>>) {
    forall k :: k in m ==> m[k] != {}
  }

  lemma DropOneMore<K(!new), T>(m: map<K, set<T>>, keys: set<K>, k: K, x: T)
    requires NoEmpty(m)
    ensures Drop(DropAll(m, keys, x), k, x) == DropAll(m, keys + {k}, x)
  {
    if k in m && k in keys {
      assert m[k] - {x} - {x} == m[k] - {x};
    }
  }

  lemma PutMembers<K, T>(m: map<K, set<T>>, k: K, x: T, other: K)
    ensures Members(Put(m, k, x), other) == if other == k then Members(m, k) + {x} else Members(m, other)
  {}

  lemma DropMembers<K, T>(m: map<K, set<T>>, k: K, x: T, other: K)
    ensures Members(Drop(m, k, x), other) == if other == k then Members(m, k) - {x} else Members(m, other)
  {}
}

/** Id-keyed registries as the server keeps them: `std::map`s whose
    `operator[]` leaves a default entry behind for a key it did not find. */
module Registry {

  datatype Option<T> = None | Some(value: T)

  /** What `m[k]` reads: the bound value, or `absent` (null, 0, the sentinel). */
  function Lookup<K, V>(m: map<K, V>, k: K, absent: V): V
  {
    if k in m then m[k] else absent
  }

  /** The map after `m[k]` was evaluated: a missing key now holds `absent`. */
  function Touched<K, V>(m: map<K, V>, k: K, absent: V): (r: map<K, V>)
    ensures k in r && r.Keys == m.Keys + {k}
    ensures forall j :: j in m ==> j in r && r[j] == m[j]
    ensures k !in m ==> r[k] == absent
  {
    if k in m then m else m[k := absent]
  }

  /** Two registries that no lookup can tell apart. */
  ghost predicate SameView<K, V>(m: map<K, V>, m': map<K, V>, absent: V)
  {
    forall k :: k in m.Keys + m'.Keys ==> Lookup(m, k, absent) == Lookup(m', k, absent)
  }

  /** A lookup with `operator[]` changes no observable binding. */
  lemma TouchedSameView<K, V>(m: map<K, V>, k: K, absent: V)
    ensures SameView(Touched(m, k, absent), m, absent)
  {
    forall j | j in Touched(m, k, absent).Keys + m.Keys
      ensures Lookup(Touched(m, k, absent), j, absent) == Lookup(m, j, absent)
    {
    }
  }
}

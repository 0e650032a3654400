/** A type-keyed codec table. Both `CompoundSerializableDataHandler` and
    `JSONSerializableDataHandler` keep a `HashMap<Class, Pair<..>>` whose
    `map(...)` calls `put`, so a later registration for the same type silently
    replaces the earlier one. */
module Registry {

  /** `FIELD_SERIALIZER.put(type, codec)`. */
  function Register<K, V>(reg: map<K, V>, k: K, v: V): (r: map<K, V>)
    ensures k in r && r[k] == v
    ensures r.Keys == reg.Keys + {k}
    ensures forall j :: j in reg && j != k ==> r[j] == reg[j]
  {
    reg[k := v]
  }

  /** Registering the same type twice leaves only the second codec. */
  lemma LastRegistrationWins<K, V>(reg: map<K, V>, k: K, first: V, second: V)
    ensures Register(Register(reg, k, first), k, second) == Register(reg, k, second)
  {
  }

  /** Registrations of different types commute. */
  lemma IndependentRegistrationsCommute<K, V>(reg: map<K, V>, k1: K, v1: V, k2: K, v2: V)
    requires k1 != k2
    ensures Register(Register(reg, k1, v1), k2, v2) == Register(Register(reg, k2, v2), k1, v1)
  {
  }
}

/** Small value types shared by the store models. */
module Wrappers {
  datatype Option<+T> = None | Some(value: T)

  /** Server time in seconds. Every transaction takes the instant it runs at. */
  type Time = int

  function Lookup<K, V>(m: map<K, V>, k: K): Option<V> {
    if k in m then Some(m[k]) else None
  }
}

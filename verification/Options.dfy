/** A value that may be missing, and the look-up that gives one. */
module Options {
  datatype Option<+T> = None | Some(value: T)

  function Find<K, V>(m: map<K, V>, k: K): Option<V> {
    if k in m then Some(m[k]) else None
  }
}

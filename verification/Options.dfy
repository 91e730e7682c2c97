/** The usual optional value, used for absent map entries, nil results and failing calls. */
module Options {
  datatype Option<+T> = None | Some(value: T)

  /** Go's `v, ok := m[k]`. */
  function Get<K, V>(m: map<K, V>, k: K): Option<V> {
    if k in m then Some(m[k]) else None
  }

  /** Go's one-value `m[k]`: the default stands for the type's zero value. */
  function GetOr<K, V>(m: map<K, V>, k: K, default: V): V {
    if k in m then m[k] else default
  }
}

// Values that may be missing.
module Options {

  datatype Option<+T> = None | Some(value: T)

  function Lookup<K, V>(m: map<K, V>, key: K): Option<V> {
    if key in m then Some(m[key]) else None
  }

  function GetOr<T>(o: Option<T>, default: T): T {
    if o.None? then default else o.value
  }
}

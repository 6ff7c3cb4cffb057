/** Small value types shared by the modules of the model. */
module Wrappers {

  /** An optional value, standing for a JavaScript value that may be `undefined`. */
  datatype Option<+T> = None | Some(value: T)

  /** The value, or a default when there is none. */
  function GetOr<T>(o: Option<T>, d: T): T {
    if o.Some? then o.value else d
  }

  /** The entries of a map, looked up without failing: `undefined` becomes None. */
  function Lookup<K, V>(m: map<K, V>, k: K): (r: Option<V>)
    ensures r.Some? <==> k in m
    ensures r.Some? ==> r.value == m[k]
  {
    if k in m then Some(m[k]) else None
  }
}

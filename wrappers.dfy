/** Optional values: a missing key, an absent optional field, a submit that did not happen. */
module Wrappers {

  datatype Option<+T> = None | Some(value: T) {

    /** The value, or `default` when there is none (JavaScript's `x ?? default`). */
    function GetOr(default: T): T
    {
      match this
      case Some(v) => v
      case None => default
    }
  }

  /** JavaScript truthiness of an optional flag: `undefined` and `false` are both falsy. */
  function Truthy(b: Option<bool>): bool
  {
    b == Some(true)
  }

  /** The value recorded under a key, if any (reading a field of a JavaScript record). */
  function Lookup<K, V>(m: map<K, V>, k: K): Option<V>
  {
    if k in m then Some(m[k]) else None
  }
}

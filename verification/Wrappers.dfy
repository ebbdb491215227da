// A value that may be missing, and lookup in a map that answers with one.
module Wrappers {
  datatype Option<+T> = None | Some(value: T)

  function Lookup<T>(m: map<string, T>, key: string): Option<T> {
    if key in m then Some(m[key]) else None
  }
}

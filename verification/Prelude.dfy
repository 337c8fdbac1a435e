/** Shared vocabulary. */
module Prelude {
  datatype Option<+T> = None | Some(value: T) {
    function GetOr(default: T): T {
      match this
      case Some(v) => v
      case None => default
    }
  }

  function Max(a: int, b: int): int {
    if a < b then b else a
  }

  function Min(a: int, b: int): int {
    if a < b then a else b
  }

  /** `Map.get(key)` of the source, with `undefined` as None. */
  function Lookup<K, V>(m: map<K, V>, k: K): Option<V> {
    if k in m then Some(m[k]) else None
  }

  /** `Map.get(key) ?? default`. */
  function LookupOr<K, V>(m: map<K, V>, k: K, default: V): V {
    if k in m then m[k] else default
  }

  /** `slice(0, n)`. */
  function Slice<T>(s: seq<T>, n: nat): seq<T> {
    if |s| <= n then s else s[..n]
  }

  predicate Distinct<T(==)>(s: seq<T>) {
    forall i, j :: 0 <= i < j < |s| ==> s[i] != s[j]
  }

  function RemoveAt<T>(s: seq<T>, i: nat): seq<T>
    requires i < |s|
  {
    s[..i] + s[i + 1..]
  }
}

/** Yjs documents, as far as merging goes: sets of operations under union. */
module Crdt {
  type Op = nat
  type Doc = set<Op>
}

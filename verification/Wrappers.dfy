/** Values that may be absent, maps without one of their keys, and a few sequences. */
module Wrappers {
  datatype Option<+T> = None | Some(value: T)

  function Minus<K, V>(m: map<K, V>, k: K): (r: map<K, V>)
    ensures r.Keys == m.Keys - {k}
    ensures forall x | x in r :: r[x] == m[x]
  {
    map x | x in m && x != k :: m[x]
  }

  function Repeated<T>(x: T, n: nat): (s: seq<T>)
    ensures |s| == n
  {
    seq(n, i => x)
  }

  function Reversed<T>(s: seq<T>): (r: seq<T>)
    ensures |r| == |s|
  {
    seq(|s|, i requires 0 <= i < |s| => s[|s| - 1 - i])
  }
}

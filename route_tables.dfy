/**
  A routing table as JavaScript builds it in a plain object: string keys in
  insertion order, each key at most once. Assigning to a key that is already
  present overwrites its value in place and keeps its position; assigning to
  a new key appends it.
*/
module RouteTables {
  import opened Wrappers

  /** One property of the object: a route prefix and the upstream origin it forwards to. */
  datatype Entry = Entry(key: string, value: string)

  type Table = seq<Entry>

  /** `Object.keys(t)`, in insertion order. */
  function Keys(t: Table): (ks: seq<string>)
    ensures |ks| == |t|
    ensures forall i :: 0 <= i < |t| ==> ks[i] == t[i].key
  {
    if t == [] then [] else [t[0].key] + Keys(t[1..])
  }

  /** No key is present twice, as in any JavaScript object. */
  predicate UniqueKeys(t: Table) {
    forall i, j :: 0 <= i < j < |t| ==> t[i].key != t[j].key
  }

  /** `t[k]`: the value stored under `k`, None where JavaScript gives `undefined`. */
  function Lookup(t: Table, k: string): (r: Option<string>)
    ensures r.Some? <==> k in Keys(t)
    ensures r.Some? ==> exists i :: 0 <= i < |t| && t[i] == Entry(k, r.value)
  {
    if t == [] then None
    else if t[0].key == k then Some(t[0].value)
    else Lookup(t[1..], k)
  }

  /** `t[k] = v` on a plain object. */
  function Assign(t: Table, k: string, v: string): (r: Table)
    ensures Keys(r) == if k in Keys(t) then Keys(t) else Keys(t) + [k]
    ensures forall k' :: Lookup(r, k') == if k' == k then Some(v) else Lookup(t, k')
    ensures UniqueKeys(t) ==> UniqueKeys(r)
  {
    if t == [] then [Entry(k, v)]
    else if t[0].key == k then [Entry(k, v)] + t[1..]
    else [t[0]] + Assign(t[1..], k, v)
  }
}

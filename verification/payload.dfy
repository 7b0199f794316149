/**
 * A validated request body: the dict that `schema.load` returns, written as a
 * sequence of field entries. `key` names the dict key of an entry; a dict has
 * each key at most once.
 */
module Payload {

  import opened Wrappers

  ghost predicate DistinctKeys<F>(d: seq<F>, key: F -> string)
  {
    forall i, j :: 0 <= i < j < |d| ==> key(d[i]) != key(d[j])
  }

  /** The body carries key `k`. */
  ghost predicate Mentions<F>(d: seq<F>, key: F -> string, k: string)
  {
    exists i :: 0 <= i < |d| && key(d[i]) == k
  }

  /** `data[k]`: the entry stored under key `k`, or None where Python raises KeyError. */
  function Lookup<F>(d: seq<F>, key: F -> string, k: string): (f: Option<F>)
    ensures f.Some? <==> Mentions(d, key, k)
    ensures f.Some? ==> f.value in d && key(f.value) == k
  {
    if d == [] then None
    else if key(d[0]) == k then Some(d[0])
    else
      var f := Lookup(d[1..], key, k);
      assert Mentions(d, key, k) ==> Mentions(d[1..], key, k) by {
        if Mentions(d, key, k) {
          var i :| 0 <= i < |d| && key(d[i]) == k;
          assert d[1..][i - 1] == d[i];
        }
      }
      f
  }
}

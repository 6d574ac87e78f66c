/**
  The values a YAML loader hands to the synchroniser: mappings (Python dicts),
  sequences (lists), strings and every other scalar (numbers, booleans, null),
  the last kept as its canonical YAML text so that distinct scalars stay distinct.
  A mapping keeps its entries in document order.
 */
module Yaml {

  datatype Value =
    | Map(entries: seq<(string, Value)>)
    | List(items: seq<Value>)
    | Str(s: string)
    | Other(repr: string)   // a number, boolean or null, e.g. "1", "true", "null"

  type Entries = seq<(string, Value)>

  /** `k in d` for a Python dict. */
  predicate HasKey(m: Entries, k: string) {
    exists i :: 0 <= i < |m| && m[i].0 == k
  }

  /** `d[k]`: a repeated key keeps the value of its last occurrence, as the loader does. */
  function Get(m: Entries, k: string): (v: Value)
    requires HasKey(m, k)
    ensures exists i :: 0 <= i < |m| && m[i].0 == k && m[i].1 == v &&
                        forall j :: i < j < |m| ==> m[j].0 != k
    decreases |m|
  {
    if m[|m| - 1].0 == k then m[|m| - 1].1
    else
      assert HasKey(m[..|m| - 1], k) by {
        var i :| 0 <= i < |m| && m[i].0 == k;
        assert i < |m| - 1 && m[..|m| - 1][i].0 == k;
      }
      Get(m[..|m| - 1], k)
  }

  /** A Python dict: no key occurs twice. */
  predicate DistinctKeys(m: Entries) {
    forall i, j :: 0 <= i < j < |m| ==> m[i].0 != m[j].0
  }

  lemma GetDistinct(m: Entries, i: nat)
    requires DistinctKeys(m) && i < |m|
    ensures HasKey(m, m[i].0) && Get(m, m[i].0) == m[i].1
  {
  }
}

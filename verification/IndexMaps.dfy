/**
 The insertion-ordered map the fold accumulates in: re-inserting a present key keeps its slot,
 and `ShiftRemove` closes the gap without reordering the rest.
 */
module IndexMaps {
  import opened Prelude

  function Without<K(==,!new)>(order: seq<K>, k: K): (r: seq<K>)
    ensures forall x :: x in r <==> x in order && x != k
    ensures Distinct(order) ==> Distinct(r)
  {
    if order == [] then
      []
    else
      assert Distinct(order) ==> Distinct(order[1..]) && order[0] !in order[1..];
      (if order[0] == k then [] else [order[0]]) + Without(order[1..], k)
  }

  datatype IndexMap<K(==,!new), V> = IndexMap(order: seq<K>, entries: map<K, V>) {
    ghost predicate Valid() {
      && Distinct(order)
      && forall k :: k in order <==> k in entries
    }

    function Insert(k: K, v: V): (r: IndexMap<K, V>)
      ensures Valid() ==> r.Valid()
      ensures r.entries == entries[k := v]
    {
      IndexMap(if k in entries then order else order + [k], entries[k := v])
    }

    function ShiftRemove(k: K): (r: IndexMap<K, V>)
      ensures Valid() ==> r.Valid()
      ensures r.entries == entries - {k}
    {
      IndexMap(Without(order, k), entries - {k})
    }

    /** The values in insertion order. */
    function Values(): (r: seq<V>)
      requires Valid()
      ensures |r| == |order|
      ensures forall i :: 0 <= i < |r| ==> r[i] == entries[order[i]]
    {
      seq(|order|, i requires 0 <= i < |order| => entries[order[i]])
    }
  }
}

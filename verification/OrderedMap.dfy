/** A JavaScript `Map` with string keys: its entries in the order of their insertion. */
module OrderedMap {
  import opened Wrappers

  datatype Slot<+V> = Slot(key: string, value: V)

  function Find<V>(slots: seq<Slot<V>>, k: string): (r: Option<V>)
    ensures r.Some? ==> Slot(k, r.value) in slots
    ensures r.None? ==> forall s :: s in slots ==> s.key != k
  {
    if slots == [] then None
    else if slots[0].key == k then Some(slots[0].value)
    else Find(slots[1..], k)
  }

  /** `delete`. */
  function Without<V>(slots: seq<Slot<V>>, k: string): seq<Slot<V>> {
    if slots == [] then []
    else if slots[0].key == k then slots[1..]
    else [slots[0]] + Without(slots[1..], k)
  }

  ghost predicate DistinctKeys<V>(slots: seq<Slot<V>>) {
    forall i, j :: 0 <= i < j < |slots| ==> slots[i].key != slots[j].key
  }

  lemma {:induction false} WithoutRemoves<V>(slots: seq<Slot<V>>, k: string)
    requires DistinctKeys(slots)
    ensures DistinctKeys(Without(slots, k))
    ensures forall s :: s in Without(slots, k) ==> s in slots && s.key != k
    ensures forall s :: s in slots && s.key != k ==> s in Without(slots, k)
  {
    if slots == [] {
    } else {
      var tail := slots[1..];
      assert forall i :: 0 <= i < |tail| ==> tail[i] == slots[i + 1];
      WithoutRemoves(tail, k);
      assert forall s :: s in tail ==> s.key != slots[0].key;
    }
  }

  lemma WithoutAbsent<V>(slots: seq<Slot<V>>, k: string)
    requires forall s :: s in slots ==> s.key != k
    ensures Without(slots, k) == slots
  {
  }

  /** `delete` and `set` move an entry to the end. */
  lemma MovedToEnd<V>(slots: seq<Slot<V>>, k: string, v: V)
    requires DistinctKeys(slots)
    ensures DistinctKeys(Without(slots, k) + [Slot(k, v)])
  {
    WithoutRemoves(slots, k);
    var rest := Without(slots, k);
    assert forall i :: 0 <= i < |rest| ==> rest[i] in rest;
  }

  /** With distinct keys, what is listed is found. */
  lemma {:induction false} ListedIsFound<V>(slots: seq<Slot<V>>, k: string, v: V)
    requires DistinctKeys(slots) && Slot(k, v) in slots
    ensures Find(slots, k) == Some(v)
  {
    if slots[0] != Slot(k, v) {
      var tail := slots[1..];
      assert forall i :: 0 <= i < |tail| ==> tail[i] == slots[i + 1];
      assert Slot(k, v) in tail;
      ListedIsFound(tail, k, v);
    }
  }
}

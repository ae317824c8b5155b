/** The memory tier of the cache: an insertion-ordered table bounded by the bytes of its bodies. */
module MemoryTier {
  import opened Wrappers
  import opened OrderedMap

  type Key = string
  type Body = seq<bv8>
  type Metadata = string

  datatype Entry = Entry(body: Body, metadata: Metadata, expiresAt: int)

  type Slots = seq<Slot<Entry>>

  /** The table, oldest insertion first, and the running count of bytes. */
  datatype Memory = Memory(slots: Slots, bytes: int)

  function Bytes(slots: Slots): nat {
    if slots == [] then 0 else |slots[0].value.body| + Bytes(slots[1..])
  }

  function RemoveMemory(m: Memory, k: Key, e: Entry): Memory {
    Memory(Without(m.slots, k), m.bytes - |e.body|)
  }

  /** The eviction loop. */
  function Trim(m: Memory, limit: nat): Memory
    decreases |m.slots|
  {
    if m.bytes > limit && m.slots != [] then Trim(Memory(m.slots[1..], m.bytes - |m.slots[0].value.body|), limit) else m
  }

  function Forget(m: Memory, k: Key): Memory {
    match Find(m.slots, k)
    case Some(e) => RemoveMemory(m, k, e)
    case None => m
  }

  function PutMemory(m: Memory, k: Key, e: Entry, limit: nat): Memory {
    var m1 := Forget(m, k);
    Trim(Memory(m1.slots + [Slot(k, e)], m1.bytes + |e.body|), limit)
  }

  /** A hit: `delete` and `set` move the entry to the end. */
  function Touch(m: Memory, k: Key, e: Entry): Memory {
    m.(slots := Without(m.slots, k) + [Slot(k, e)])
  }

  // ---- The invariant: keys are distinct and the byte counter is exact ----

  ghost predicate Inv(m: Memory) {
    DistinctKeys(m.slots) && m.bytes == Bytes(m.slots)
  }

  lemma {:induction false} BytesOfConcat(a: Slots, b: Slots)
    ensures Bytes(a + b) == Bytes(a) + Bytes(b)
  {
    if a == [] {
      assert a + b == b;
    } else {
      assert (a + b)[1..] == a[1..] + b;
      BytesOfConcat(a[1..], b);
    }
  }

  lemma {:induction false} WithoutBytes(slots: Slots, k: Key)
    ensures Bytes(Without(slots, k)) == Bytes(slots) - match Find(slots, k) case Some(e) => |e.body| case None => 0
  {
    if slots != [] && slots[0].key != k {
      WithoutBytes(slots[1..], k);
      assert Without(slots, k)[1..] == Without(slots[1..], k);
    }
  }

  lemma ForgetInv(m: Memory, k: Key)
    requires Inv(m)
    ensures Inv(Forget(m, k)) && Forget(m, k).bytes <= m.bytes
    ensures Forget(m, k).slots == Without(m.slots, k)
  {
    WithoutRemoves(m.slots, k);
    WithoutBytes(m.slots, k);
    if Find(m.slots, k).None? {
      WithoutAbsent(m.slots, k);
    }
  }

  lemma TouchInv(m: Memory, k: Key, e: Entry)
    requires Inv(m) && Find(m.slots, k) == Some(e)
    ensures Inv(Touch(m, k, e))
  {
    MovedToEnd(m.slots, k, e);
    WithoutBytes(m.slots, k);
    BytesOfConcat(Without(m.slots, k), [Slot(k, e)]);
  }

  // ---- What an insert keeps ----

  /** What survives is `all` without its first n entries: it fits, and no longer suffix does. */
  ghost predicate SurvivesFrom(all: Slots, kept: Slots, limit: nat, n: nat) {
    n <= |all| && kept == all[n..] && Bytes(kept) <= limit && forall i :: 0 <= i < n ==> Bytes(all[i..]) > limit
  }

  lemma SurvivesOneLater(all: Slots, kept: Slots, limit: nat, n: nat)
    requires all != [] && Bytes(all) > limit && SurvivesFrom(all[1..], kept, limit, n)
    ensures SurvivesFrom(all, kept, limit, n + 1)
  {
    forall i | 0 <= i < n + 1 ensures Bytes(all[i..]) > limit {
      if i == 0 {
        assert all[0..] == all;
      } else {
        assert all[i..] == all[1..][i - 1..];
      }
    }
    assert all[n + 1..] == all[1..][n..];
  }

  lemma {:induction false} TrimKeepsSuffix(m: Memory, limit: nat) returns (n: nat)
    requires m.bytes == Bytes(m.slots)
    ensures Trim(m, limit).bytes == Bytes(Trim(m, limit).slots)
    ensures SurvivesFrom(m.slots, Trim(m, limit).slots, limit, n)
    decreases |m.slots|
  {
    n := 0;
    assert m.slots[0..] == m.slots;
    if m.bytes > limit && m.slots != [] {
      n := TrimKeepsSuffix(Memory(m.slots[1..], m.bytes - |m.slots[0].value.body|), limit);
      SurvivesOneLater(m.slots, Trim(m, limit).slots, limit, n);
      n := n + 1;
    }
  }

  lemma PutAtEnd(slots: Slots, k: Key, e: Entry)
    requires DistinctKeys(slots)
    ensures DistinctKeys(Without(slots, k) + [Slot(k, e)])
    ensures Bytes(Without(slots, k) + [Slot(k, e)]) == Bytes(Without(slots, k)) + |e.body|
  {
    MovedToEnd(slots, k, e);
    BytesOfConcat(Without(slots, k), [Slot(k, e)]);
  }

  /** The table of an insert before anything is dropped. */
  function Appended(slots: Slots, k: Key, e: Entry): Slots {
    Without(slots, k) + [Slot(k, e)]
  }

  lemma PutTrims(m: Memory, k: Key, e: Entry, limit: nat)
    requires Inv(m)
    ensures var all := Appended(m.slots, k, e);
      DistinctKeys(all) && PutMemory(m, k, e, limit) == Trim(Memory(all, Bytes(all)), limit)
  {
    ForgetInv(m, k);
    PutAtEnd(m.slots, k, e);
  }

  /** Each insert keeps the counter exact and leaves the longest suffix, by recency, that fits. */
  lemma PutKeepsLongestSuffix(m: Memory, k: Key, e: Entry, limit: nat) returns (n: nat)
    requires Inv(m)
    ensures Inv(PutMemory(m, k, e, limit)) && PutMemory(m, k, e, limit).bytes <= limit
    ensures SurvivesFrom(Appended(m.slots, k, e), PutMemory(m, k, e, limit).slots, limit, n)
  {
    var all := Appended(m.slots, k, e);
    PutTrims(m, k, e, limit);
    n := TrimKeepsSuffix(Memory(all, Bytes(all)), limit);
  }

  /** An entry that fits alone is the most recent one right after its insert; a larger one empties the tier. */
  lemma PutIsFound(m: Memory, k: Key, e: Entry, limit: nat)
    requires Inv(m)
    ensures var kept := PutMemory(m, k, e, limit).slots;
      if |e.body| <= limit then kept != [] && kept[|kept| - 1] == Slot(k, e) && Find(kept, k) == Some(e) else kept == []
  {
    var n := PutKeepsLongestSuffix(m, k, e, limit);
    PutAtEnd(m.slots, k, e);
    var all := Appended(m.slots, k, e);
    assert all[|all| - 1..] == [Slot(k, e)];
    assert Bytes([Slot(k, e)]) == |e.body|;
    if n < |all| {
      var kept := all[n..];
      assert kept == all[n..|all| - 1] + [Slot(k, e)];
      BytesOfConcat(all[n..|all| - 1], [Slot(k, e)]);
      ListedIsFound(kept, k, e);
    }
  }
}

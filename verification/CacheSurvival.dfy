/**
 What a put leaves behind while other operations happen: how long it is found, and why it can be
 found late.
 */
module CacheSurvival {
  import opened Wrappers
  import opened OrderedMap
  import opened MemoryTier
  import opened DiskTier
  import opened CacheSpec

  // ---- What was used since, key by key ----

  /** The largest body used of each key. */
  type Charges = seq<Slot<nat>>

  function Charge(charges: Charges, k: Key, n: nat): Charges {
    if charges == [] then [Slot(k, n)]
    else if charges[0].key == k then [Slot(k, if n > charges[0].value then n else charges[0].value)] + charges[1..]
    else [charges[0]] + Charge(charges[1..], k, n)
  }

  function Sum(charges: Charges): nat {
    if charges == [] then 0 else charges[0].value + Sum(charges[1..])
  }

  lemma {:induction false} ChargeGrows(charges: Charges, k: Key, n: nat)
    ensures Find(Charge(charges, k, n), k).Some? && Find(Charge(charges, k, n), k).value >= n
    ensures Sum(charges) <= Sum(Charge(charges, k, n))
  {
    if charges == [] || charges[0].key == k {
      assert charges != [] ==> Charge(charges, k, n)[1..] == charges[1..];
    } else {
      ChargeGrows(charges[1..], k, n);
      assert Charge(charges, k, n)[1..] == Charge(charges[1..], k, n);
    }
  }

  lemma {:induction false} ChargeKeeps(charges: Charges, k: Key, n: nat, j: Key)
    requires Find(charges, j).Some?
    ensures Find(Charge(charges, k, n), j).Some? && Find(Charge(charges, k, n), j).value >= Find(charges, j).value
  {
    if charges[0].key == k || charges[0].key == j {
    } else {
      ChargeKeeps(charges[1..], k, n, j);
    }
  }

  lemma {:induction false} WithoutCharge(charges: Charges, k: Key)
    requires Find(charges, k).Some?
    ensures Sum(charges) == Sum(Without(charges, k)) + Find(charges, k).value
    ensures forall j :: j != k ==> Find(Without(charges, k), j) == Find(charges, j)
  {
    if charges[0].key == k {
    } else {
      WithoutCharge(charges[1..], k);
      assert Without(charges, k)[1..] == Without(charges[1..], k);
    }
  }

  predicate Covers(charges: Charges, k: Key, n: nat) {
    Find(charges, k).Some? && n <= Find(charges, k).value
  }

  /** Each slot is charged to its key. */
  ghost predicate Charged(slots: Slots, charges: Charges) {
    forall s :: s in slots ==> Covers(charges, s.key, |s.value.body|)
  }

  /** Distinct keys that are all charged take no more bytes than the charges. */
  lemma {:induction false} ChargesCover(slots: Slots, charges: Charges)
    requires DistinctKeys(slots) && Charged(slots, charges)
    ensures Bytes(slots) <= Sum(charges)
  {
    if slots == [] {
    } else {
      var head, tail := slots[0], slots[1..];
      assert head in slots;
      assert forall i :: 0 <= i < |tail| ==> tail[i] == slots[i + 1];
      WithoutCharge(charges, head.key);
      ChargesCover(tail, Without(charges, head.key));
    }
  }

  // ---- What survives other operations ----

  /** The slots behind that of k: what was used later than k. */
  function Behind(slots: Slots, k: Key): Slots {
    if slots == [] then []
    else if slots[0].key == k then slots[1..]
    else Behind(slots[1..], k)
  }

  /** k is held with this entry, and what was used later than k is charged. */
  ghost predicate HeldBy(slots: Slots, k: Key, e: Entry, charges: Charges) {
    DistinctKeys(slots) && Find(slots, k) == Some(e) && Charged(Behind(slots, k), charges)
  }

  lemma {:induction false} BehindIsPart(slots: Slots, k: Key)
    requires DistinctKeys(slots)
    ensures DistinctKeys(Behind(slots, k)) && forall s :: s in Behind(slots, k) ==> s in slots
  {
    if slots == [] {
    } else {
      assert forall i :: 0 <= i < |slots[1..]| ==> slots[1..][i] == slots[i + 1];
      if slots[0].key != k {
        BehindIsPart(slots[1..], k);
      }
    }
  }

  lemma {:induction false} WithoutKeepsBehind(slots: Slots, k: Key, l: Key)
    requires DistinctKeys(slots) && l != k
    ensures Find(Without(slots, l), k) == Find(slots, k)
    ensures forall s :: s in Behind(Without(slots, l), k) ==> s in Behind(slots, k)
  {
    if slots == [] {
    } else {
      assert forall i :: 0 <= i < |slots[1..]| ==> slots[1..][i] == slots[i + 1];
      WithoutRemoves(slots[1..], l);
      if slots[0].key != l {
        WithoutKeepsBehind(slots[1..], k, l);
        assert Without(slots, l)[1..] == Without(slots[1..], l);
      }
    }
  }

  lemma WithoutKeepsHeld(slots: Slots, k: Key, e: Entry, charges: Charges, l: Key)
    requires HeldBy(slots, k, e, charges) && l != k
    ensures HeldBy(Without(slots, l), k, e, charges)
  {
    WithoutRemoves(slots, l);
    WithoutKeepsBehind(slots, k, l);
  }

  lemma {:induction false} AppendBehind(slots: Slots, k: Key, s: Slot<Entry>)
    requires Find(slots, k).Some?
    ensures Find(slots + [s], k) == Find(slots, k) && Behind(slots + [s], k) == Behind(slots, k) + [s]
  {
    assert (slots + [s])[1..] == slots[1..] + [s];
    if slots[0].key == k {
    } else {
      AppendBehind(slots[1..], k, s);
    }
  }

  lemma ChargeCovers(charges: Charges, k: Key, n: nat)
    ensures Covers(Charge(charges, k, n), k, n)
  {
    ChargeGrows(charges, k, n);
  }

  lemma StillCovers(charges: Charges, k: Key, n: nat, j: Key, m: nat)
    requires Covers(charges, j, m)
    ensures Covers(Charge(charges, k, n), j, m)
  {
    ChargeKeeps(charges, k, n, j);
  }

  lemma ChargedWithOneMore(slots: Slots, charges: Charges, s: Slot<Entry>)
    requires Charged(slots, charges)
    ensures Charged(slots + [s], Charge(charges, s.key, |s.value.body|))
  {
    ChargeCovers(charges, s.key, |s.value.body|);
    forall x | x in slots ensures Covers(Charge(charges, s.key, |s.value.body|), x.key, |x.value.body|) {
      StillCovers(charges, s.key, |s.value.body|, x.key, |x.value.body|);
    }
  }

  lemma AppendKeepsHeld(slots: Slots, k: Key, e: Entry, charges: Charges, s: Slot<Entry>)
    requires HeldBy(slots, k, e, charges) && DistinctKeys(slots + [s])
    ensures HeldBy(slots + [s], k, e, Charge(charges, s.key, |s.value.body|))
  {
    AppendBehind(slots, k, s);
    ChargedWithOneMore(Behind(slots, k), charges, s);
  }

  lemma {:induction false} TrimKeepsHeld(m: Memory, k: Key, e: Entry, charges: Charges, limit: nat)
    requires m.bytes == Bytes(m.slots) && HeldBy(m.slots, k, e, charges) && |e.body| + Sum(charges) <= limit
    ensures HeldBy(Trim(m, limit).slots, k, e, charges)
    decreases |m.slots|
  {
    if m.bytes <= limit {
    } else {
      var tail := m.slots[1..];
      assert forall i :: 0 <= i < |tail| ==> tail[i] == m.slots[i + 1];
      if m.slots[0].key == k {
        BehindIsPart(m.slots, k);
        ChargesCover(tail, charges);
      } else {
        TrimKeepsHeld(Memory(tail, m.bytes - |m.slots[0].value.body|), k, e, charges, limit);
      }
    }
  }

  lemma PutKeepsHeld(m: Memory, k: Key, e: Entry, charges: Charges, l: Key, f: Entry, limit: nat)
    requires MemoryTier.Inv(m) && HeldBy(m.slots, k, e, charges) && l != k
    requires |e.body| + Sum(Charge(charges, l, |f.body|)) <= limit
    ensures HeldBy(PutMemory(m, l, f, limit).slots, k, e, Charge(charges, l, |f.body|))
  {
    PutTrims(m, l, f, limit);
    WithoutKeepsHeld(m.slots, k, e, charges, l);
    AppendKeepsHeld(Without(m.slots, l), k, e, charges, Slot(l, f));
    var all := Appended(m.slots, l, f);
    TrimKeepsHeld(Memory(all, Bytes(all)), k, e, Charge(charges, l, |f.body|), limit);
  }

  lemma {:induction false} NothingBehindLast(slots: Slots, k: Key, e: Entry)
    requires DistinctKeys(slots + [Slot(k, e)])
    ensures Find(slots + [Slot(k, e)], k) == Some(e) && Behind(slots + [Slot(k, e)], k) == []
  {
    var all := slots + [Slot(k, e)];
    if slots == [] {
    } else {
      assert all[0].key != all[|slots|].key;
      assert all[1..] == slots[1..] + [Slot(k, e)];
      assert forall i :: 0 <= i < |all[1..]| ==> all[1..][i] == all[i + 1];
      NothingBehindLast(slots[1..], k, e);
    }
  }

  lemma TouchKeepsHeld(m: Memory, k: Key, e: Entry, charges: Charges, l: Key, f: Entry)
    requires MemoryTier.Inv(m) && HeldBy(m.slots, k, e, charges) && Find(m.slots, l) == Some(f)
    ensures HeldBy(Touch(m, l, f).slots, k, e, if l == k then charges else Charge(charges, l, |f.body|))
  {
    MovedToEnd(m.slots, l, f);
    if l == k {
      NothingBehindLast(Without(m.slots, k), k, e);
    } else {
      WithoutKeepsHeld(m.slots, k, e, charges, l);
      AppendKeepsHeld(Without(m.slots, l), k, e, charges, Slot(l, f));
    }
  }

  /** The memory entry that a put makes. */
  function EntryOf(put: Op): Entry
    requires put.Put?
  {
    Entry(put.body, put.metadata, put.now + put.ttlSeconds * 1000)
  }

  /** An operation that neither replaces nor takes away k, and reads it in time. */
  predicate Spares(op: Op, k: Key, expiresAt: int) {
    match op
    case Get(l, now, _) => l == k ==> now <= expiresAt
    case Put(l, _, _, _, _, _) => l != k
    case Remove(l) => l != k
    case Purge(_) => false
  }

  /** The charge of an operation: the body it puts, or finds under another key than k. */
  function ChargedBy(limits: Limits, c: Tiers, op: Op, k: Key, charges: Charges): Charges {
    match op
    case Get(l, _, _) =>
      var hit := Step(limits, c, op).hit;
      if l != k && hit.Some? then Charge(charges, l, |hit.value.body|) else charges
    case Put(l, body, _, _, _, _) => Charge(charges, l, |body|)
    case _ => charges
  }

  lemma DiskGetKeepsHeld(limits: Limits, c: Tiers, op: Op, k: Key, e: Entry, charges: Charges)
    requires MemoryTier.Inv(c.memory) && HeldBy(c.memory.slots, k, e, charges) && op.Get? && op.key != k
    requires var hit := GetFromDisk(limits, c, op.key, op.now, op.readable).hit;
      hit.Some? ==> |e.body| + Sum(Charge(charges, op.key, |hit.value.body|)) <= limits.memory
    ensures var a := GetFromDisk(limits, c, op.key, op.now, op.readable);
      HeldBy(a.tiers.memory.slots, k, e, if a.hit.Some? then Charge(charges, op.key, |a.hit.value.body|) else charges)
  {
    var read := GetRow(c.rows, op.key, op.now, op.readable);
    if read.found.Some? {
      var f := Entry(read.found.value.body, read.found.value.metadata, op.now + PROMOTION_MS);
      PutKeepsHeld(c.memory, k, e, charges, op.key, f, limits.memory);
    }
  }

  lemma GetKeepsHeld(limits: Limits, c: Tiers, op: Op, k: Key, e: Entry, charges: Charges)
    requires MemoryTier.Inv(c.memory) && HeldBy(c.memory.slots, k, e, charges) && op.Get?
    requires Spares(op, k, e.expiresAt)
    requires |e.body| + Sum(ChargedBy(limits, c, op, k, charges)) <= limits.memory
    ensures HeldBy(Step(limits, c, op).tiers.memory.slots, k, e, ChargedBy(limits, c, op, k, charges))
  {
    match Find(c.memory.slots, op.key)
    case Some(f) =>
      if f.expiresAt >= op.now {
        TouchKeepsHeld(c.memory, k, e, charges, op.key, f);
      } else {
        ForgetInv(c.memory, op.key);
        WithoutKeepsHeld(c.memory.slots, k, e, charges, op.key);
        DiskGetKeepsHeld(limits, c.(memory := Forget(c.memory, op.key)), op, k, e, charges);
      }
    case None => DiskGetKeepsHeld(limits, c, op, k, e, charges);
  }

  lemma RemoveKeepsHeld(c: Tiers, l: Key, k: Key, e: Entry, charges: Charges)
    requires MemoryTier.Inv(c.memory) && HeldBy(c.memory.slots, k, e, charges) && l != k
    ensures HeldBy(DeleteTiers(c, l).memory.slots, k, e, charges)
  {
    ForgetInv(c.memory, l);
    WithoutKeepsHeld(c.memory.slots, k, e, charges, l);
  }

  lemma PutStepKeepsHeld(limits: Limits, c: Tiers, op: Op, k: Key, e: Entry, charges: Charges)
    requires MemoryTier.Inv(c.memory) && HeldBy(c.memory.slots, k, e, charges) && op.Put? && op.key != k
    requires |e.body| + Sum(Charge(charges, op.key, |op.body|)) <= limits.memory
    ensures HeldBy(Step(limits, c, op).tiers.memory.slots, k, e, Charge(charges, op.key, |op.body|))
  {
    assert Step(limits, c, op).tiers.memory == PutMemory(c.memory, op.key, EntryOf(op), limits.memory);
    PutKeepsHeld(c.memory, k, e, charges, op.key, EntryOf(op), limits.memory);
  }

  lemma StepKeepsHeld(limits: Limits, c: Tiers, op: Op, k: Key, e: Entry, charges: Charges)
    requires MemoryTier.Inv(c.memory) && HeldBy(c.memory.slots, k, e, charges) && Spares(op, k, e.expiresAt)
    requires |e.body| + Sum(ChargedBy(limits, c, op, k, charges)) <= limits.memory
    ensures HeldBy(Step(limits, c, op).tiers.memory.slots, k, e, ChargedBy(limits, c, op, k, charges))
  {
    match op
    case Get(_, _, _) => GetKeepsHeld(limits, c, op, k, e, charges);
    case Put(_, _, _, _, _, _) => PutStepKeepsHeld(limits, c, op, k, e, charges);
    case Remove(l) => RemoveKeepsHeld(c, l, k, e, charges);
  }

  /** The largest body of each other key put or found by the operations after the first n. */
  function ChargesSince(limits: Limits, ops: seq<Op>, n: nat, k: Key): Charges
    requires n <= |ops|
    decreases |ops|
  {
    if n == |ops| then []
    else
      var before, op := ops[..|ops| - 1], ops[|ops| - 1];
      ChargedBy(limits, Run(limits, before), op, k, ChargesSince(limits, before, n, k))
  }

  lemma ChargesOnlyGrow(limits: Limits, c: Tiers, op: Op, k: Key, charges: Charges)
    ensures Sum(charges) <= Sum(ChargedBy(limits, c, op, k, charges))
  {
    match op
    case Get(l, _, _) =>
      var hit := Step(limits, c, op).hit;
      if hit.Some? {
        ChargeGrows(charges, l, |hit.value.body|);
      }
    case Put(l, body, _, _, _, _) => ChargeGrows(charges, l, |body|);
    case _ =>
  }

  lemma NothingBehindPut(m: Memory, k: Key, e: Entry, limit: nat)
    requires MemoryTier.Inv(m) && |e.body| <= limit
    ensures HeldBy(PutMemory(m, k, e, limit).slots, k, e, [])
  {
    PutMemoryKeeps(m, k, e, limit);
    PutIsFound(m, k, e, limit);
    var slots := PutMemory(m, k, e, limit).slots;
    var n := |slots| - 1;
    assert slots == slots[..n] + [Slot(k, e)];
    NothingBehindLast(slots[..n], k, e);
  }

  lemma PutHolds(limits: Limits, c: Tiers, put: Op)
    requires MemoryTier.Inv(c.memory) && put.Put? && |put.body| <= limits.memory
    ensures HeldBy(Step(limits, c, put).tiers.memory.slots, put.key, EntryOf(put), [])
  {
    assert Step(limits, c, put).tiers.memory == PutMemory(c.memory, put.key, EntryOf(put), limits.memory);
    NothingBehindPut(c.memory, put.key, EntryOf(put), limits.memory);
  }

  /** No operation after the n-th replaces its key, takes it away, or reads it too late. */
  ghost predicate SparedSince(ops: seq<Op>, n: nat)
    requires n < |ops| && ops[n].Put?
  {
    forall i :: n < i < |ops| ==> Spares(ops[i], ops[n].key, EntryOf(ops[n]).expiresAt)
  }

  /**
   As long as the keys put or found since a put of k fit in memory beside it, each at the largest
   body it had, k stays in memory: the least recently used entries make room first.
   */
  lemma {:induction false} HeldWhileItFits(limits: Limits, ops: seq<Op>, n: nat)
    requires n < |ops| && ops[n].Put? && SparedSince(ops, n)
    requires |ops[n].body| + Sum(ChargesSince(limits, ops, n + 1, ops[n].key)) <= limits.memory
    ensures HeldBy(Run(limits, ops).memory.slots, ops[n].key, EntryOf(ops[n]),
                   ChargesSince(limits, ops, n + 1, ops[n].key))
    decreases |ops|
  {
    var before, op, put := ops[..|ops| - 1], ops[|ops| - 1], ops[n];
    RunAgrees(limits, before);
    if n == |ops| - 1 {
      PutHolds(limits, Run(limits, before), put);
    } else {
      assert before[n] == put && SparedSince(before, n);
      var c, charges := Run(limits, before), ChargesSince(limits, before, n + 1, put.key);
      ChargesOnlyGrow(limits, c, op, put.key, charges);
      HeldWhileItFits(limits, before, n);
      StepKeepsHeld(limits, c, op, put.key, EntryOf(put), charges);
    }
  }

  /** So a put is found until it expires, while the keys used since fit in memory beside it. */
  lemma FoundWhileItFits(limits: Limits, ops: seq<Op>, n: nat, later: int, readable: bool)
    requires n < |ops| && ops[n].Put? && SparedSince(ops, n) && later <= EntryOf(ops[n]).expiresAt
    requires |ops[n].body| + Sum(ChargesSince(limits, ops, n + 1, ops[n].key)) <= limits.memory
    ensures var hit := GetTiers(limits, Run(limits, ops), ops[n].key, later, readable).hit;
      hit == Some(Hit(ops[n].body, ops[n].metadata, InMemory))
  {
    HeldWhileItFits(limits, ops, n);
  }

  // ---- What survives on disk ----

  lemma DeleteKeepsRow(rows: seq<Row>, k: Key, l: Key)
    requires FindRow(rows, k).Some? && l != k
    ensures FindRow(DeleteRow(rows, l), k).Some?
  {
    DeleteRemoves(rows, l);
    assert FindRow(rows, k).value in DeleteRow(rows, l);
  }

  lemma TouchKeepsRow(rows: seq<Row>, k: Key, l: Key, now: int)
    requires FindRow(rows, k).Some?
    ensures FindRow(TouchRow(rows, l, now), k).Some?
  {
    TouchKeepsKeys(rows, l, now);
    var i :| 0 <= i < |rows| && rows[i].key == k;
    assert TouchRow(rows, l, now)[i] in TouchRow(rows, l, now);
  }

  lemma InsertKeepsRow(rows: seq<Row>, k: Key, op: Op)
    requires op.Put? && (op.key == k || FindRow(rows, k).Some?)
    ensures FindRow(Inserted(rows, op.key, op.body, op.ttlSeconds, op.metadata, op.now), k).Some?
  {
    var row := Row(op.key, op.body, op.now + op.ttlSeconds * 1000, op.now, op.metadata);
    if op.key == k {
      assert row in DeleteRow(rows, op.key) + [row];
    } else {
      DeleteKeepsRow(rows, k, op.key);
      assert FindRow(DeleteRow(rows, op.key), k).value in DeleteRow(rows, op.key) + [row];
    }
  }

  lemma DiskGetKeepsRow(limits: Limits, c: Tiers, op: Op, k: Key, expiresAt: int)
    requires op.Get? && FindRow(c.rows, k).Some? && FindRow(c.rows, k).value.expiresAt == expiresAt
    requires Spares(op, k, expiresAt) && (op.key == k ==> op.readable)
    ensures FindRow(GetFromDisk(limits, c, op.key, op.now, op.readable).tiers.rows, k).Some?
  {
    TouchKeepsRow(c.rows, k, op.key, op.now);
    if op.key != k {
      DeleteKeepsRow(c.rows, k, op.key);
    }
  }

  /** An operation that spares k, can read its body, and evicts nothing, leaves its row. */
  lemma StepKeepsRow(limits: Limits, c: Tiers, op: Op, k: Key, expiresAt: int)
    requires FindRow(c.rows, k).Some? && FindRow(c.rows, k).value.expiresAt == expiresAt
    requires Spares(op, k, expiresAt) && (op.Get? && op.key == k ==> op.readable) && !Evicts(c.rows, op, limits.disk)
    ensures FindRow(Step(limits, c, op).tiers.rows, k).Some?
  {
    match op
    case Get(l, _, _) =>
      DiskGetKeepsRow(limits, c, op, k, expiresAt);
      DiskGetKeepsRow(limits, c.(memory := Forget(c.memory, l)), op, k, expiresAt);
    case Put(_, _, _, _, _, _) => InsertKeepsRow(c.rows, k, op);
    case Remove(l) => DeleteKeepsRow(c.rows, k, l);
  }

  /** From the n-th operation on no put evicts, and reads of k can read its body. */
  ghost predicate KeptSince(limits: Limits, ops: seq<Op>, n: nat, k: Key)
    requires n <= |ops|
    decreases |ops|
  {
    n == |ops| ||
      var before, op := ops[..|ops| - 1], ops[|ops| - 1];
      && KeptSince(limits, before, n, k)
      && !Evicts(Run(limits, before).rows, op, limits.disk)
      && (op.Get? && op.key == k ==> op.readable)
  }

  /** A put that was spared is the latest of its key. */
  lemma {:induction false} SparedIsLatest(ops: seq<Op>, n: nat)
    requires n < |ops| && ops[n].Put? && SparedSince(ops, n)
    ensures ops[n].key in Latest(ops)
    ensures Latest(ops)[ops[n].key] == Stored(ops[n].body, ops[n].metadata, EntryOf(ops[n]).expiresAt)
    decreases |ops|
  {
    var m := |ops| - 1;
    if n < m {
      assert ops[..m][n] == ops[n] && SparedSince(ops[..m], n);
      SparedIsLatest(ops[..m], n);
    }
  }

  lemma {:induction false} RowKept(limits: Limits, ops: seq<Op>, n: nat)
    requires n < |ops| && ops[n].Put? && SparedSince(ops, n) && KeptSince(limits, ops, n, ops[n].key)
    ensures FindRow(Run(limits, ops).rows, ops[n].key).Some?
    decreases |ops|
  {
    var m := |ops| - 1;
    var before, op, k := ops[..m], ops[m], ops[n].key;
    var rows := Run(limits, before).rows;
    if n == m {
      InsertKeepsRow(rows, k, op);
    } else {
      assert before[n] == ops[n] && SparedSince(before, n);
      RowKept(limits, before, n);
      SparedIsLatest(before, n);
      RunAgrees(limits, before);
      assert FindRow(rows, k).value in rows;
      StepKeepsRow(limits, Run(limits, before), op, k, EntryOf(ops[n]).expiresAt);
    }
  }

  /** A put is found until it expires, in one tier or the other, while no put evicts. */
  lemma FoundWhileKept(limits: Limits, ops: seq<Op>, n: nat, later: int)
    requires n < |ops| && ops[n].Put? && SparedSince(ops, n) && KeptSince(limits, ops, n, ops[n].key)
    requires later <= EntryOf(ops[n]).expiresAt
    ensures var hit := GetTiers(limits, Run(limits, ops), ops[n].key, later, true).hit;
      hit.Some? && hit.value.body == ops[n].body && hit.value.metadata == ops[n].metadata
  {
    RowKept(limits, ops, n);
    SparedIsLatest(ops, n);
    RunAgrees(limits, ops);
    assert FindRow(Run(limits, ops).rows, ops[n].key).value in Run(limits, ops).rows;
    FoundWhereHeld(limits, Run(limits, ops), ops[n].key, later, true);
    HitsAreTruthful(limits, ops, ops[n].key, later, true);
  }

  // ---- Why a memory hit can be late ----

  function PromotedAfter(limits: Limits, c: Tiers, op: Op, promoted: map<Key, int>): map<Key, int> {
    match op
    case Get(k, now, _) =>
      var hit := Step(limits, c, op).hit;
      if hit.Some? && hit.value.layer == OnDisk then promoted[k := now] else promoted
    case Put(k, _, _, _, _, _) => promoted - {k}
    case _ => promoted
  }

  /** When each key was last read from disk, since its last put. */
  function Promoted(limits: Limits, ops: seq<Op>): map<Key, int>
    decreases |ops|
  {
    if ops == [] then map[]
    else
      var before, op := ops[..|ops| - 1], ops[|ops| - 1];
      PromotedAfter(limits, Run(limits, before), op, Promoted(limits, before))
  }

  /** An entry expires with its put, or a minute after its row was last read. */
  ghost predicate ExpiresAsPromoted(slots: Slots, promoted: map<Key, int>, latest: map<Key, Stored>) {
    forall s :: s in slots ==>
      && s.key in latest
      && if s.key in promoted
         then s.value.expiresAt == promoted[s.key] + PROMOTION_MS && promoted[s.key] <= latest[s.key].expiresAt
         else s.value.expiresAt == latest[s.key].expiresAt
  }

  lemma DiskGetPromotes(limits: Limits, c: Tiers, op: Op, promoted: map<Key, int>, latest: map<Key, Stored>)
    requires op.Get? && Agrees(c, latest) && ExpiresAsPromoted(c.memory.slots, promoted, latest)
    ensures var a := GetFromDisk(limits, c, op.key, op.now, op.readable);
      ExpiresAsPromoted(a.tiers.memory.slots, if a.hit.Some? then promoted[op.key := op.now] else promoted, latest)
  {
    var read := GetRow(c.rows, op.key, op.now, op.readable);
    if read.found.Some? {
      var row := read.found.value;
      assert row in c.rows;
      PutMemoryKeeps(c.memory, op.key, Entry(row.body, row.metadata, op.now + PROMOTION_MS), limits.memory);
    }
  }

  lemma GetPromotes(limits: Limits, c: Tiers, op: Op, promoted: map<Key, int>, latest: map<Key, Stored>)
    requires op.Get? && Agrees(c, latest) && ExpiresAsPromoted(c.memory.slots, promoted, latest)
    ensures ExpiresAsPromoted(Step(limits, c, op).tiers.memory.slots, PromotedAfter(limits, c, op, promoted), latest)
  {
    match Find(c.memory.slots, op.key)
    case Some(e) =>
      WithoutRemoves(c.memory.slots, op.key);
      if e.expiresAt < op.now {
        ForgetAgrees(c.memory, op.key, latest);
        DiskGetPromotes(limits, c.(memory := Forget(c.memory, op.key)), op, promoted, latest);
      }
    case None => DiskGetPromotes(limits, c, op, promoted, latest);
  }

  lemma StepPromotes(limits: Limits, c: Tiers, op: Op, promoted: map<Key, int>, latest: map<Key, Stored>)
    requires Agrees(c, latest) && ExpiresAsPromoted(c.memory.slots, promoted, latest)
    ensures var slots := Step(limits, c, op).tiers.memory.slots;
      ExpiresAsPromoted(slots, PromotedAfter(limits, c, op, promoted), Noted(latest, op))
  {
    match op
    case Get(_, _, _) => GetPromotes(limits, c, op, promoted, latest);
    case Put(k, body, ttl, metadata, now, _) =>
      PutMemoryKeeps(c.memory, k, Entry(body, metadata, now + ttl * 1000), limits.memory);
    case Remove(k) =>
      ForgetInv(c.memory, k);
      WithoutRemoves(c.memory.slots, k);
    case Purge(_) =>
  }

  /**
   Over any history, an entry in memory expires with its put, or a minute after the last read from
   disk since.
   */
  lemma {:induction false} MemoryExpiresExactly(limits: Limits, ops: seq<Op>)
    ensures ExpiresAsPromoted(Run(limits, ops).memory.slots, Promoted(limits, ops), Latest(ops))
    decreases |ops|
  {
    if ops == [] {
    } else {
      var before := ops[..|ops| - 1];
      MemoryExpiresExactly(limits, before);
      RunAgrees(limits, before);
      StepPromotes(limits, Run(limits, before), ops[|ops| - 1], Promoted(limits, before), Latest(before));
    }
  }

  /** A hit after the expiry is of an entry read from disk before the expiry and within the last minute. */
  lemma LateHitsWerePromoted(limits: Limits, ops: seq<Op>, k: Key, now: int, readable: bool)
    requires var hit := GetTiers(limits, Run(limits, ops), k, now, readable).hit;
      hit.Some? && k in Latest(ops) && now > Latest(ops)[k].expiresAt
    ensures k in Promoted(limits, ops) && Promoted(limits, ops)[k] <= Latest(ops)[k].expiresAt
    ensures now <= Promoted(limits, ops)[k] + PROMOTION_MS
  {
    HitsAreTruthful(limits, ops, k, now, readable);
    MemoryExpiresExactly(limits, ops);
  }
}

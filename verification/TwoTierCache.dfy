/** The cache as the service runs it: two objects changed in place, proved against the tiers' functions. */
module TwoTierCaches {
  import opened Wrappers
  import opened OrderedMap
  import opened MemoryTier
  import opened DiskTier
  import opened CacheSpec
  import SingleFlight

  // ---- Purging selects rows first and deletes them by key ----

  lemma {:induction false} DeleteAbsent(rows: seq<Row>, k: Key)
    requires forall x :: x in rows ==> x.key != k
    ensures DeleteRow(rows, k) == rows
  {
    if rows == [] {
    } else {
      DeleteAbsent(rows[1..], k);
    }
  }

  function Victims(rows: seq<Row>, matches: Option<Metadata -> bool>): seq<Key> {
    if rows == [] then []
    else if matches.None? || matches.value(rows[0].metadata) then [rows[0].key] + Victims(rows[1..], matches)
    else Victims(rows[1..], matches)
  }

  function DeleteKeys(rows: seq<Row>, keys: seq<Key>): seq<Row>
    decreases |keys|
  {
    if keys == [] then rows else DeleteKeys(DeleteRow(rows, keys[0]), keys[1..])
  }

  lemma {:induction false} VictimsAreKeys(rows: seq<Row>, matches: Option<Metadata -> bool>, k: Key)
    requires k in Victims(rows, matches)
    ensures exists x :: x in rows && x.key == k
  {
    if k == rows[0].key {
      assert rows[0] in rows;
    } else {
      VictimsAreKeys(rows[1..], matches, k);
      var x :| x in rows[1..] && x.key == k;
      assert x in rows;
    }
  }

  lemma {:induction false} HeadStays(head: Row, rows: seq<Row>, keys: seq<Key>)
    requires head.key !in keys
    ensures DeleteKeys([head] + rows, keys) == [head] + DeleteKeys(rows, keys)
    decreases |keys|
  {
    if keys == [] {
    } else {
      assert DeleteRow([head] + rows, keys[0]) == [head] + DeleteRow(rows, keys[0]);
      HeadStays(head, DeleteRow(rows, keys[0]), keys[1..]);
    }
  }

  /** Deleting the selected keys one by one removes exactly the selected rows, as keys are distinct. */
  lemma {:induction false} PurgeByKey(rows: seq<Row>, matches: Option<Metadata -> bool>)
    requires DistinctRows(rows)
    ensures DeleteKeys(rows, Victims(rows, matches)) == PurgeRows(rows, matches)
    ensures |Victims(rows, matches)| == |rows| - |PurgeRows(rows, matches)|
  {
    if rows == [] {
    } else {
      var head, tail := rows[0], rows[1..];
      assert forall i :: 0 <= i < |tail| ==> tail[i] == rows[i + 1];
      PurgeByKey(tail, matches);
      assert forall x :: x in tail ==> x.key != head.key;
      if head.key in Victims(tail, matches) {
        VictimsAreKeys(tail, matches, head.key);
      }
      if matches.None? || matches.value(head.metadata) {
        DeleteAbsent(tail, head.key);
        assert DeleteRow(rows, head.key) == DeleteRow(tail, head.key);
        assert Victims(rows, matches)[1..] == Victims(tail, matches);
      } else {
        HeadStays(head, tail, Victims(tail, matches));
        assert rows == [head] + tail;
      }
    }
  }

  // ---- The two objects ----

  class CacheStore {
    var rows: seq<Row>
    const diskLimit: nat

    constructor (diskLimit: nat)
      ensures rows == [] && this.diskLimit == diskLimit
    {
      rows := [];
      this.diskLimit := diskLimit;
    }

    method Get(key: Key, now: int, readable: bool) returns (found: Option<Row>)
      modifies this
      ensures Read(rows, found) == GetRow(old(rows), key, now, readable)
    {
      found := FindRow(rows, key);
      if found.None? || found.value.expiresAt < now {
        if found.Some? {
          Delete(key);
        }
        return None;
      }
      if readable {
        rows := TouchRow(rows, key, now);
      } else {
        Delete(key);
        return None;
      }
    }

    method Put(key: Key, body: Body, ttlSeconds: int, metadata: Metadata, now: int, order: seq<Key>)
      modifies this
      ensures rows == PutRow(old(rows), key, body, ttlSeconds, metadata, now, order, diskLimit)
    {
      Delete(key);
      rows := rows + [Row(key, body, now + ttlSeconds * 1000, now, metadata)];
      EvictRows(order);
    }

    method Remove(key: Key)
      modifies this
      ensures rows == DeleteRow(old(rows), key)
    {
      if FindRow(rows, key).Some? {
        Delete(key);
      } else {
        DeleteAbsent(rows, key);
      }
    }

    method Purge(matches: Option<Metadata -> bool>) returns (count: nat)
      requires DistinctRows(rows)
      modifies this
      ensures rows == PurgeRows(old(rows), matches) && count == |old(rows)| - |rows|
    {
      var victims := Victims(rows, matches);
      count := |victims|;
      PurgeByKey(rows, matches);
      for i := 0 to |victims|
        invariant DeleteKeys(rows, victims[i..]) == PurgeRows(old(rows), matches)
      {
        Delete(victims[i]);
      }
    }

    method Delete(key: Key)
      modifies this
      ensures rows == DeleteRow(old(rows), key)
    {
      rows := DeleteRow(rows, key);
    }

    method EvictRows(order: seq<Key>)
      modifies this
      ensures rows == Evict(old(rows), order, diskLimit)
    {
      if Total(rows) <= diskLimit {
        return;
      }
      for i := 0 to |order|
        invariant EvictLoop(rows, order[i..], LowMark(diskLimit)) == Evict(old(rows), order, diskLimit)
      {
        assert order[i..][0] == order[i] && order[i..][1..] == order[i + 1..];
        Delete(order[i]);
        if Total(rows) <= LowMark(diskLimit) {
          return;
        }
      }
    }
  }

  class Cache {
    var memory: Slots
    var memoryBytes: int
    var inflight: map<Key, nat>
    /** The tasks that have not settled, and the next one's name. */
    var running: map<nat, Key>
    var next: nat
    const storage: CacheStore
    const memoryLimit: nat

    constructor (storage: CacheStore, memoryLimit: nat)
      requires storage.rows == []
      ensures this.storage == storage && this.memoryLimit == memoryLimit
      ensures State() == EMPTY && Flights() == SingleFlight.IDLE
    {
      memory, memoryBytes := [], 0;
      inflight, running, next := map[], map[], 0;
      this.storage := storage;
      this.memoryLimit := memoryLimit;
    }

    function State(): Tiers
      reads this, storage
    {
      Tiers(Memory(memory, memoryBytes), storage.rows)
    }

    function Flights(): SingleFlight.Flights
      reads this
    {
      SingleFlight.Flights(inflight, running, next)
    }

    function Bounds(): Limits {
      Limits(memoryLimit, storage.diskLimit)
    }

    method Get(key: Key, now: int, readable: bool) returns (hit: Option<Hit>)
      modifies this, storage
      ensures Answer(State(), hit) == GetTiers(Bounds(), old(State()), key, now, readable)
      ensures Flights() == old(Flights())
    {
      var entry := Find(memory, key);
      if entry.Some? {
        if entry.value.expiresAt >= now {
          memory := Without(memory, key);
          memory := memory + [Slot(key, entry.value)];
          return Some(Hit(entry.value.body, entry.value.metadata, InMemory));
        }
        RemoveFromMemory(key, entry.value);
      }
      var disk := storage.Get(key, now, readable);
      if disk.None? {
        return None;
      }
      PutInMemory(key, Entry(disk.value.body, disk.value.metadata, now + PROMOTION_MS));
      return Some(Hit(disk.value.body, disk.value.metadata, OnDisk));
    }

    method Put(key: Key, body: Body, ttlSeconds: int, metadata: Metadata, now: int, order: seq<Key>)
      modifies this, storage
      ensures State() == PutTiers(Bounds(), old(State()), key, body, ttlSeconds, metadata, now, order)
      ensures Flights() == old(Flights())
    {
      storage.Put(key, body, ttlSeconds, metadata, now, order);
      PutInMemory(key, Entry(body, metadata, now + ttlSeconds * 1000));
    }

    method Delete(key: Key)
      modifies this, storage
      ensures State() == DeleteTiers(old(State()), key)
      ensures Flights() == old(Flights())
    {
      var entry := Find(memory, key);
      if entry.Some? {
        RemoveFromMemory(key, entry.value);
      }
      storage.Remove(key);
    }

    method Purge(matches: Option<Metadata -> bool>) returns (count: nat)
      requires DistinctRows(storage.rows)
      modifies this, storage
      ensures State() == PurgeTiers(old(State()), matches) && count == |old(storage.rows)| - |storage.rows|
      ensures Flights() == old(Flights())
    {
      memory, memoryBytes := [], 0;
      count := storage.Purge(matches);
    }

    /** The task the caller shares, and whether this call started it. */
    method Coalesce(key: Key) returns (task: nat, started: bool)
      modifies this
      ensures Flights() == SingleFlight.Apply(old(Flights()), SingleFlight.Join(key))
      ensures task == SingleFlight.Given(old(Flights()), key) && started == (key !in old(inflight))
      ensures State() == old(State())
    {
      if key in inflight {
        return inflight[key], false;
      }
      task, started := next, true;
      next, running := next + 1, running[task := key];
      inflight := inflight[key := task];
    }

    method Settled(task: nat)
      requires task in running
      modifies this
      ensures Flights() == SingleFlight.Apply(old(Flights()), SingleFlight.Settle(task))
      ensures State() == old(State())
    {
      inflight := inflight - {running[task]};
      running := running - {task};
    }

    method PutInMemory(key: Key, entry: Entry)
      modifies this
      ensures Memory(memory, memoryBytes) == PutMemory(old(Memory(memory, memoryBytes)), key, entry, memoryLimit)
      ensures Flights() == old(Flights())
    {
      var previous := Find(memory, key);
      if previous.Some? {
        RemoveFromMemory(key, previous.value);
      }
      memory := memory + [Slot(key, entry)];
      memoryBytes := memoryBytes + |entry.body|;
      ghost var full := Memory(memory, memoryBytes);
      while memoryBytes > memoryLimit
        invariant Trim(Memory(memory, memoryBytes), memoryLimit) == Trim(full, memoryLimit)
        invariant Flights() == old(Flights())
        decreases |memory|
      {
        if memory == [] {
          break;
        }
        var oldest := memory[0];
        RemoveFromMemory(oldest.key, oldest.value);
      }
    }

    method RemoveFromMemory(key: Key, entry: Entry)
      modifies this
      ensures Memory(memory, memoryBytes) == RemoveMemory(old(Memory(memory, memoryBytes)), key, entry)
      ensures Flights() == old(Flights())
    {
      memory := Without(memory, key);
      memoryBytes := memoryBytes - |entry.body|;
    }
  }
}

/** The two-tier cache: the memory tier in front of the disk tier, over whole histories of operations. */
module CacheSpec {
  import opened Wrappers
  import opened OrderedMap
  import opened MemoryTier
  import opened DiskTier

  datatype Limits = Limits(memory: nat, disk: nat)

  datatype Tiers = Tiers(memory: Memory, rows: seq<Row>)

  datatype Layer = InMemory | OnDisk

  datatype Hit = Hit(body: Body, metadata: Metadata, layer: Layer)

  datatype Answer = Answer(tiers: Tiers, hit: Option<Hit>)

  /** How long a row read from disk stays in memory, whatever its own expiry. */
  const PROMOTION_MS: int := 60000

  function GetFromDisk(limits: Limits, c: Tiers, k: Key, now: int, readable: bool): Answer {
    var read := GetRow(c.rows, k, now, readable);
    match read.found
    case None => Answer(Tiers(c.memory, read.rows), None)
    case Some(row) =>
      var promoted := PutMemory(c.memory, k, Entry(row.body, row.metadata, now + PROMOTION_MS), limits.memory);
      Answer(Tiers(promoted, read.rows), Some(Hit(row.body, row.metadata, OnDisk)))
  }

  function GetTiers(limits: Limits, c: Tiers, k: Key, now: int, readable: bool): Answer {
    match Find(c.memory.slots, k)
    case Some(e) =>
      if e.expiresAt >= now then Answer(c.(memory := Touch(c.memory, k, e)), Some(Hit(e.body, e.metadata, InMemory)))
      else GetFromDisk(limits, c.(memory := RemoveMemory(c.memory, k, e)), k, now, readable)
    case None => GetFromDisk(limits, c, k, now, readable)
  }

  function PutTiers(limits: Limits, c: Tiers, k: Key, body: Body, ttlSeconds: int, metadata: Metadata, now: int,
                    order: seq<Key>): Tiers {
    Tiers(PutMemory(c.memory, k, Entry(body, metadata, now + ttlSeconds * 1000), limits.memory),
          PutRow(c.rows, k, body, ttlSeconds, metadata, now, order, limits.disk))
  }

  function DeleteTiers(c: Tiers, k: Key): Tiers {
    Tiers(Forget(c.memory, k), DeleteRow(c.rows, k))
  }

  /** Purging by value clears the whole memory tier and only the matching rows. */
  function PurgeTiers(c: Tiers, matches: Option<Metadata -> bool>): Tiers {
    Tiers(Memory([], 0), PurgeRows(c.rows, matches))
  }

  function Step(limits: Limits, c: Tiers, op: Op): Answer {
    match op
    case Get(k, now, readable) => GetTiers(limits, c, k, now, readable)
    case Put(k, body, ttl, metadata, now, order) =>
      Answer(PutTiers(limits, c, k, body, ttl, metadata, now, order), None)
    case Remove(k) => Answer(DeleteTiers(c, k), None)
    case Purge(matches) => Answer(PurgeTiers(c, matches), None)
  }

  const EMPTY := Tiers(Memory([], 0), [])

  function Run(limits: Limits, ops: seq<Op>): Tiers
    decreases |ops|
  {
    if ops == [] then EMPTY
    else Step(limits, Run(limits, ops[..|ops| - 1]), ops[|ops| - 1]).tiers
  }

  // ---- What a cache promises, told without tiers ----

  datatype Stored = Stored(body: Body, metadata: Metadata, expiresAt: int)

  function Unpurged(latest: map<Key, Stored>, matches: Option<Metadata -> bool>): map<Key, Stored> {
    map k | k in latest && matches.Some? && !matches.value(latest[k].metadata) :: latest[k]
  }

  /** What an operation makes of the latest puts. */
  function Noted(latest: map<Key, Stored>, op: Op): map<Key, Stored> {
    match op
    case Get(_, _, _) => latest
    case Put(k, body, ttl, metadata, now, _) => latest[k := Stored(body, metadata, now + ttl * 1000)]
    case Remove(k) => latest - {k}
    case Purge(matches) => Unpurged(latest, matches)
  }

  /** The latest put of each key that no later delete or purge took away. */
  function Latest(ops: seq<Op>): map<Key, Stored>
    decreases |ops|
  {
    if ops == [] then map[] else Noted(Latest(ops[..|ops| - 1]), ops[|ops| - 1])
  }

  /** When each key was last put or found, counted in operations. */
  function LastUse(limits: Limits, ops: seq<Op>): map<Key, nat>
    decreases |ops|
  {
    if ops == [] then map[]
    else
      var before, op := ops[..|ops| - 1], ops[|ops| - 1];
      var used := LastUse(limits, before);
      if op.Put? || (op.Get? && Step(limits, Run(limits, before), op).hit.Some?) then used[op.key := |ops|] else used
  }

  // ---- The tiers agree with the promise ----

  ghost predicate MemoryAgrees(slots: Slots, latest: map<Key, Stored>) {
    forall s :: s in slots ==>
      && s.key in latest
      && s.value.body == latest[s.key].body
      && s.value.metadata == latest[s.key].metadata
      && s.value.expiresAt <= latest[s.key].expiresAt + PROMOTION_MS
  }

  ghost predicate RowsAgree(rows: seq<Row>, latest: map<Key, Stored>) {
    forall x :: x in rows ==> x.key in latest && latest[x.key] == Stored(x.body, x.metadata, x.expiresAt)
  }

  ghost predicate Agrees(c: Tiers, latest: map<Key, Stored>) {
    MemoryTier.Inv(c.memory) && MemoryAgrees(c.memory.slots, latest) && RowsAgree(c.rows, latest)
  }

  lemma PutMemoryKeeps(m: Memory, k: Key, e: Entry, limit: nat)
    requires MemoryTier.Inv(m)
    ensures MemoryTier.Inv(PutMemory(m, k, e, limit))
    ensures forall s :: s in PutMemory(m, k, e, limit).slots ==> (s in m.slots && s.key != k) || s == Slot(k, e)
  {
    var n := PutKeepsLongestSuffix(m, k, e, limit);
    WithoutRemoves(m.slots, k);
  }

  lemma {:induction false} EvictLoopKeeps(rows: seq<Row>, order: seq<Key>, low: nat, x: Row)
    ensures x in EvictLoop(rows, order, low) ==> x in rows
    decreases |order|
  {
    if order == [] {
    } else {
      DeleteMembers(rows, order[0], x);
      EvictLoopKeeps(DeleteRow(rows, order[0]), order[1..], low, x);
    }
  }

  lemma PutRowKeeps(rows: seq<Row>, k: Key, body: Body, ttlSeconds: int, metadata: Metadata, now: int,
                    order: seq<Key>, limit: nat, x: Row)
    requires x in PutRow(rows, k, body, ttlSeconds, metadata, now, order, limit)
    ensures (x in rows && x.key != k) || x == Row(k, body, now + ttlSeconds * 1000, now, metadata)
  {
    EvictLoopKeeps(Inserted(rows, k, body, ttlSeconds, metadata, now), order, LowMark(limit), x);
    DeleteRemoves(rows, k);
  }

  lemma {:induction false} TouchRowKeeps(rows: seq<Row>, k: Key, now: int, x: Row) returns (y: Row)
    requires x in TouchRow(rows, k, now)
    ensures y in rows && y.(lastAccess := x.lastAccess) == x
  {
    if x == TouchRow(rows, k, now)[0] {
      y := rows[0];
    } else {
      assert x in TouchRow(rows[1..], k, now);
      y := TouchRowKeeps(rows[1..], k, now, x);
    }
  }

  lemma GetRowAgrees(rows: seq<Row>, k: Key, now: int, readable: bool, latest: map<Key, Stored>)
    requires RowsAgree(rows, latest)
    ensures RowsAgree(GetRow(rows, k, now, readable).rows, latest)
  {
    DeleteRemoves(rows, k);
    forall x | x in TouchRow(rows, k, now)
      ensures x.key in latest && latest[x.key] == Stored(x.body, x.metadata, x.expiresAt)
    {
      var y := TouchRowKeeps(rows, k, now, x);
    }
  }

  lemma ForgetAgrees(m: Memory, k: Key, latest: map<Key, Stored>)
    requires MemoryTier.Inv(m) && MemoryAgrees(m.slots, latest)
    ensures MemoryTier.Inv(Forget(m, k)) && MemoryAgrees(Forget(m, k).slots, latest - {k})
  {
    ForgetInv(m, k);
    WithoutRemoves(m.slots, k);
  }

  /** What a hit promises about the latest put of its key. */
  ghost predicate Truthful(k: Key, now: int, hit: Hit, latest: map<Key, Stored>) {
    && k in latest
    && hit.body == latest[k].body
    && hit.metadata == latest[k].metadata
    && now <= latest[k].expiresAt + PROMOTION_MS
    && (hit.layer == OnDisk ==> now <= latest[k].expiresAt)
  }

  lemma DiskGetAgrees(limits: Limits, c: Tiers, k: Key, now: int, readable: bool, latest: map<Key, Stored>)
    requires Agrees(c, latest)
    ensures var a := GetFromDisk(limits, c, k, now, readable);
      Agrees(a.tiers, latest) && (a.hit.Some? ==> Truthful(k, now, a.hit.value, latest))
  {
    GetRowAgrees(c.rows, k, now, readable, latest);
    var read := GetRow(c.rows, k, now, readable);
    if read.found.Some? {
      var row := read.found.value;
      assert row in c.rows;
      PutMemoryKeeps(c.memory, k, Entry(row.body, row.metadata, now + PROMOTION_MS), limits.memory);
    }
  }

  lemma GetAgrees(limits: Limits, c: Tiers, k: Key, now: int, readable: bool, latest: map<Key, Stored>)
    requires Agrees(c, latest)
    ensures var a := GetTiers(limits, c, k, now, readable);
      Agrees(a.tiers, latest) && (a.hit.Some? ==> Truthful(k, now, a.hit.value, latest))
  {
    match Find(c.memory.slots, k)
    case Some(e) =>
      if e.expiresAt >= now {
        TouchInv(c.memory, k, e);
        WithoutRemoves(c.memory.slots, k);
      } else {
        ForgetAgrees(c.memory, k, latest);
        DiskGetAgrees(limits, c.(memory := Forget(c.memory, k)), k, now, readable, latest);
      }
    case None => DiskGetAgrees(limits, c, k, now, readable, latest);
  }

  lemma PutAgrees(limits: Limits, c: Tiers, op: Op, latest: map<Key, Stored>)
    requires op.Put? && Agrees(c, latest)
    ensures Agrees(Step(limits, c, op).tiers, Noted(latest, op))
  {
    var expiry := op.now + op.ttlSeconds * 1000;
    PutMemoryKeeps(c.memory, op.key, Entry(op.body, op.metadata, expiry), limits.memory);
    forall x | x in Step(limits, c, op).tiers.rows
      ensures (x in c.rows && x.key != op.key) || x == Row(op.key, op.body, expiry, op.now, op.metadata)
    {
      PutRowKeeps(c.rows, op.key, op.body, op.ttlSeconds, op.metadata, op.now, op.order, limits.disk, x);
    }
  }

  lemma RemoveAgrees(c: Tiers, k: Key, latest: map<Key, Stored>)
    requires Agrees(c, latest)
    ensures Agrees(DeleteTiers(c, k), latest - {k})
  {
    ForgetAgrees(c.memory, k, latest);
    DeleteRemoves(c.rows, k);
  }

  lemma PurgeAgrees(c: Tiers, matches: Option<Metadata -> bool>, latest: map<Key, Stored>)
    requires Agrees(c, latest)
    ensures Agrees(PurgeTiers(c, matches), Unpurged(latest, matches))
  {
    PurgeTotal(c.rows, matches);
  }

  lemma StepAgrees(limits: Limits, c: Tiers, op: Op, latest: map<Key, Stored>)
    requires Agrees(c, latest)
    ensures Agrees(Step(limits, c, op).tiers, Noted(latest, op))
  {
    match op
    case Get(k, now, readable) => GetAgrees(limits, c, k, now, readable, latest);
    case Put(_, _, _, _, _, _) => PutAgrees(limits, c, op, latest);
    case Remove(k) => RemoveAgrees(c, k, latest);
    case Purge(matches) => PurgeAgrees(c, matches, latest);
  }

  lemma {:induction false} RunAgrees(limits: Limits, ops: seq<Op>)
    ensures Agrees(Run(limits, ops), Latest(ops))
    decreases |ops|
  {
    if ops == [] {
    } else {
      var before := ops[..|ops| - 1];
      RunAgrees(limits, before);
      StepAgrees(limits, Run(limits, before), ops[|ops| - 1], Latest(before));
    }
  }

  /**
   Over any history, a hit from either tier returns what the latest put of its key stored, never
   a deleted or purged one; from disk never after the expiry of that put, and from memory never
   more than a minute after it.
   */
  lemma HitsAreTruthful(limits: Limits, ops: seq<Op>, k: Key, now: int, readable: bool)
    ensures var hit := GetTiers(limits, Run(limits, ops), k, now, readable).hit;
      hit.Some? ==> Truthful(k, now, hit.value, Latest(ops))
  {
    RunAgrees(limits, ops);
    GetAgrees(limits, Run(limits, ops), k, now, readable, Latest(ops));
  }

  lemma FoundWhereHeld(limits: Limits, c: Tiers, k: Key, now: int, readable: bool)
    requires var m, d := Find(c.memory.slots, k), FindRow(c.rows, k);
      (m.Some? && m.value.expiresAt >= now) || (readable && d.Some? && d.value.expiresAt >= now)
    ensures GetTiers(limits, c, k, now, readable).hit.Some?
  {
  }

  /**
   The other direction: what was just put is found until it expires, if it fits in memory or
   stayed on disk.
   */
  lemma PutThenGet(limits: Limits, ops: seq<Op>, put: Op, later: int, readable: bool)
    requires put.Put? && later <= put.now + put.ttlSeconds * 1000
    requires |put.body| <= limits.memory || (readable && FindRow(Run(limits, ops + [put]).rows, put.key).Some?)
    ensures var hit := GetTiers(limits, Run(limits, ops + [put]), put.key, later, readable).hit;
      hit.Some? && hit.value.body == put.body && hit.value.metadata == put.metadata
  {
    var c, c' := Run(limits, ops), Run(limits, ops + [put]);
    var e := Entry(put.body, put.metadata, put.now + put.ttlSeconds * 1000);
    assert (ops + [put])[..|ops + [put]| - 1] == ops;
    assert c'.memory == PutMemory(c.memory, put.key, e, limits.memory);
    assert Latest(ops + [put])[put.key] == Stored(put.body, put.metadata, e.expiresAt);
    RunAgrees(limits, ops);
    RunAgrees(limits, ops + [put]);
    if |put.body| <= limits.memory {
      PutIsFound(c.memory, put.key, e, limits.memory);
    } else {
      assert FindRow(c'.rows, put.key).value in c'.rows;
    }
    FoundWhereHeld(limits, c', put.key, later, readable);
    HitsAreTruthful(limits, ops + [put], put.key, later, readable);
  }

  // ---- One operation, told by what the tables hold ----

  lemma {:induction false} TouchedRows(rows: seq<Row>, k: Key, now: int, x: Row)
    ensures x in TouchRow(rows, k, now) <==>
      (x in rows && x.key != k) || exists y :: y in rows && y.key == k && x == y.(lastAccess := now)
  {
    if rows == [] {
    } else {
      var rest := TouchRow(rows[1..], k, now);
      TouchedRows(rows[1..], k, now, x);
      assert rows == [rows[0]] + rows[1..];
      assert TouchRow(rows, k, now)[0] in TouchRow(rows, k, now);
    }
  }

  /** With one row a key, what is listed is found. */
  lemma {:induction false} ListedRowIsFound(rows: seq<Row>, x: Row)
    requires DistinctRows(rows) && x in rows
    ensures FindRow(rows, x.key) == Some(x)
  {
    if rows[0] != x {
      var tail := rows[1..];
      assert forall i :: 0 <= i < |tail| ==> tail[i] == rows[i + 1];
      ListedRowIsFound(tail, x);
    }
  }

  /** The row of this key is in time and its body can be read. */
  ghost predicate ReadableRow(rows: seq<Row>, k: Key, now: int, readable: bool, x: Row) {
    x in rows && x.key == k && now <= x.expiresAt && readable
  }

  /** An entry of this key is in memory and in time. */
  ghost predicate FreshEntry(slots: Slots, k: Key, now: int, e: Entry) {
    Slot(k, e) in slots && now <= e.expiresAt
  }

  /**
   A read finds an entry in time in memory, else a row in time whose body can be read, else nothing;
   then neither tier has the key any more.
   */
  lemma ReadsExactly(limits: Limits, c: Tiers, k: Key, now: int, readable: bool)
    requires MemoryTier.Inv(c.memory) && DistinctRows(c.rows)
    ensures var a := GetTiers(limits, c, k, now, readable);
      && (forall e :: FreshEntry(c.memory.slots, k, now, e) ==> a.hit == Some(Hit(e.body, e.metadata, InMemory)))
      && ((forall e :: !FreshEntry(c.memory.slots, k, now, e)) ==>
            forall x :: ReadableRow(c.rows, k, now, readable, x) ==> a.hit == Some(Hit(x.body, x.metadata, OnDisk)))
      && (a.hit.None? <==>
            && (forall e :: !FreshEntry(c.memory.slots, k, now, e))
            && (forall x :: !ReadableRow(c.rows, k, now, readable, x)))
      && (a.hit.None? ==> Find(a.tiers.memory.slots, k).None? && FindRow(a.tiers.rows, k).None?)
  {
    forall e | Slot(k, e) in c.memory.slots ensures Find(c.memory.slots, k) == Some(e) {
      ListedIsFound(c.memory.slots, k, e);
    }
    forall x | x in c.rows && x.key == k ensures FindRow(c.rows, k) == Some(x) {
      ListedRowIsFound(c.rows, x);
    }
    WithoutRemoves(c.memory.slots, k);
    DeleteRemoves(c.rows, k);
    var found := Find(c.memory.slots, k);
    if found.Some? {
      assert Slot(k, found.value) in c.memory.slots;
    }
    assert found.Some? && found.value.expiresAt >= now ==> FreshEntry(c.memory.slots, k, now, found.value);
    var row := FindRow(c.rows, k);
    assert row.Some? && row.value.expiresAt >= now && readable ==> ReadableRow(c.rows, k, now, readable, row.value);
  }

  /**
   What a read leaves of the rows: all of them after a hit in memory; else the row of the key is
   touched if it was found and gone if not, and the others stay.
   */
  lemma RowsAfterRead(limits: Limits, c: Tiers, k: Key, now: int, readable: bool, x: Row)
    requires MemoryTier.Inv(c.memory) && DistinctRows(c.rows)
    ensures var rows := GetTiers(limits, c, k, now, readable).tiers.rows;
      if exists e :: FreshEntry(c.memory.slots, k, now, e) then rows == c.rows
      else x in rows <==>
        (x in c.rows && x.key != k) ||
        exists y :: ReadableRow(c.rows, k, now, readable, y) && x == y.(lastAccess := now)
  {
    ReadsExactly(limits, c, k, now, readable);
    TouchedRows(c.rows, k, now, x);
    DeleteRemoves(c.rows, k);
    forall y | y in c.rows && y.key == k ensures FindRow(c.rows, k) == Some(y) {
      ListedRowIsFound(c.rows, y);
    }
    forall e | Slot(k, e) in c.memory.slots ensures Find(c.memory.slots, k) == Some(e) {
      ListedIsFound(c.memory.slots, k, e);
    }
    var found := Find(c.memory.slots, k);
    assert found.Some? ==> Slot(k, found.value) in c.memory.slots;
    assert found.Some? && found.value.expiresAt >= now ==> FreshEntry(c.memory.slots, k, now, found.value);
  }

  /** A delete takes the key out of both tiers and nothing else; a purge takes the matching rows and all of memory. */
  lemma TakesExactly(limits: Limits, c: Tiers, op: Op, x: Row)
    requires MemoryTier.Inv(c.memory) && (op.Remove? || op.Purge?)
    ensures var t := Step(limits, c, op).tiers;
      && (x in t.rows <==>
            && x in c.rows
            && (op.Remove? ==> x.key != op.key)
            && (op.Purge? ==> op.matches.Some? && !op.matches.value(x.metadata)))
      && (forall s :: s in t.memory.slots <==> s in c.memory.slots && op.Remove? && s.key != op.key)
  {
    match op
    case Remove(k) =>
      DeleteRemoves(c.rows, k);
      ForgetInv(c.memory, k);
      WithoutRemoves(c.memory.slots, k);
    case Purge(matches) => PurgeTotal(c.rows, matches);
  }

  // ---- The memory tier forgets the least recently used ----

  ghost predicate InUseOrder(slots: Slots, uses: map<Key, nat>) {
    && (forall i :: 0 <= i < |slots| ==> slots[i].key in uses)
    && (forall i, j :: 0 <= i < j < |slots| ==> uses[slots[i].key] < uses[slots[j].key])
  }

  lemma PrependKeepsOrder(head: Slot<Entry>, rest: Slots, uses: map<Key, nat>)
    requires InUseOrder(rest, uses) && head.key in uses
    requires forall s :: s in rest ==> s.key in uses && uses[head.key] < uses[s.key]
    ensures InUseOrder([head] + rest, uses)
  {
    assert forall j :: 0 <= j < |rest| ==> rest[j] in rest;
  }

  lemma {:induction false} WithoutKeepsOrder(slots: Slots, k: Key, uses: map<Key, nat>)
    requires InUseOrder(slots, uses) && DistinctKeys(slots)
    ensures InUseOrder(Without(slots, k), uses)
  {
    if slots == [] {
    } else {
      var tail := slots[1..];
      assert forall i :: 0 <= i < |tail| ==> tail[i] == slots[i + 1];
      if slots[0].key != k {
        WithoutKeepsOrder(tail, k, uses);
        WithoutRemoves(tail, k);
        PrependKeepsOrder(slots[0], Without(tail, k), uses);
      }
    }
  }

  /** Dropping the entry of k and appending a new one keeps the order, when k is used now. */
  lemma UsedLast(slots: Slots, k: Key, e: Entry, uses: map<Key, nat>, now: nat)
    requires InUseOrder(slots, uses) && DistinctKeys(slots)
    requires forall l :: l in uses ==> uses[l] < now
    ensures InUseOrder(Without(slots, k) + [Slot(k, e)], uses[k := now])
  {
    WithoutKeepsOrder(slots, k, uses);
    WithoutRemoves(slots, k);
    var rest := Without(slots, k);
    assert forall i :: 0 <= i < |rest| ==> rest[i] in rest;
  }

  lemma PutMemoryOrder(m: Memory, k: Key, e: Entry, limit: nat, uses: map<Key, nat>, now: nat)
    requires MemoryTier.Inv(m) && InUseOrder(m.slots, uses)
    requires forall l :: l in uses ==> uses[l] < now
    ensures InUseOrder(PutMemory(m, k, e, limit).slots, uses[k := now])
  {
    var n := PutKeepsLongestSuffix(m, k, e, limit);
    UsedLast(m.slots, k, e, uses, now);
  }

  lemma DiskGetOrder(limits: Limits, c: Tiers, op: Op, uses: map<Key, nat>, now: nat)
    requires op.Get? && MemoryTier.Inv(c.memory) && InUseOrder(c.memory.slots, uses)
    requires forall l :: l in uses ==> uses[l] < now
    ensures var a := GetFromDisk(limits, c, op.key, op.now, op.readable);
      InUseOrder(a.tiers.memory.slots, if a.hit.Some? then uses[op.key := now] else uses)
  {
    var read := GetRow(c.rows, op.key, op.now, op.readable);
    if read.found.Some? {
      var e := Entry(read.found.value.body, read.found.value.metadata, op.now + PROMOTION_MS);
      PutMemoryOrder(c.memory, op.key, e, limits.memory, uses, now);
    }
  }

  lemma GetOrder(limits: Limits, c: Tiers, op: Op, uses: map<Key, nat>, now: nat)
    requires op.Get? && MemoryTier.Inv(c.memory) && InUseOrder(c.memory.slots, uses)
    requires forall l :: l in uses ==> uses[l] < now
    ensures var a := Step(limits, c, op);
      InUseOrder(a.tiers.memory.slots, if a.hit.Some? then uses[op.key := now] else uses)
  {
    var k := op.key;
    match Find(c.memory.slots, k)
    case Some(e) =>
      if e.expiresAt >= op.now {
        UsedLast(c.memory.slots, k, e, uses, now);
      } else {
        ForgetInv(c.memory, k);
        WithoutKeepsOrder(c.memory.slots, k, uses);
        DiskGetOrder(limits, c.(memory := Forget(c.memory, k)), op, uses, now);
      }
    case None => DiskGetOrder(limits, c, op, uses, now);
  }

  /**
   Over any history the memory tier lists its entries by last use, so what an insert drops was
   used longest ago.
   */
  lemma {:induction false} MemoryIsInUseOrder(limits: Limits, ops: seq<Op>)
    ensures InUseOrder(Run(limits, ops).memory.slots, LastUse(limits, ops))
    ensures forall k :: k in LastUse(limits, ops) ==> LastUse(limits, ops)[k] <= |ops|
    decreases |ops|
  {
    if ops == [] {
    } else {
      var before, op := ops[..|ops| - 1], ops[|ops| - 1];
      var c, uses := Run(limits, before), LastUse(limits, before);
      MemoryIsInUseOrder(limits, before);
      RunAgrees(limits, before);
      match op
      case Get(_, _, _) => GetOrder(limits, c, op, uses, |ops|);
      case Put(k, body, ttl, metadata, now, _) =>
        PutMemoryOrder(c.memory, k, Entry(body, metadata, now + ttl * 1000), limits.memory, uses, |ops|);
      case Remove(k) =>
        ForgetInv(c.memory, k);
        WithoutKeepsOrder(c.memory.slots, k, uses);
      case Purge(_) =>
    }
  }

  /** When each key was last put or read from disk, by the clock. */
  function LastDiskUse(limits: Limits, ops: seq<Op>): map<Key, int>
    decreases |ops|
  {
    if ops == [] then map[]
    else
      var before, op := ops[..|ops| - 1], ops[|ops| - 1];
      var used := LastDiskUse(limits, before);
      if op.Put? then used[op.key := op.now]
      else if op.Get? then
        var hit := Step(limits, Run(limits, before), op).hit;
        if hit.Some? && hit.value.layer == OnDisk then used[op.key := op.now] else used
      else used
  }

  ghost predicate RowsRemember(rows: seq<Row>, used: map<Key, int>) {
    forall x :: x in rows ==> x.key in used && used[x.key] == x.lastAccess
  }

  lemma {:induction false} TouchRowMarks(rows: seq<Row>, k: Key, now: int, x: Row)
    requires x in TouchRow(rows, k, now)
    ensures if x.key == k then x.lastAccess == now else x in rows
  {
    if x != TouchRow(rows, k, now)[0] {
      TouchRowMarks(rows[1..], k, now, x);
    }
  }

  lemma DiskGetRemembers(limits: Limits, c: Tiers, op: Op, used: map<Key, int>)
    requires op.Get? && RowsRemember(c.rows, used)
    ensures var a := GetFromDisk(limits, c, op.key, op.now, op.readable);
      RowsRemember(a.tiers.rows, if a.hit.Some? then used[op.key := op.now] else used)
  {
    DeleteRemoves(c.rows, op.key);
    forall x | x in TouchRow(c.rows, op.key, op.now)
      ensures if x.key == op.key then x.lastAccess == op.now else x in c.rows
    {
      TouchRowMarks(c.rows, op.key, op.now, x);
    }
  }

  lemma PutRemembers(limits: Limits, c: Tiers, op: Op, used: map<Key, int>)
    requires op.Put? && RowsRemember(c.rows, used)
    ensures RowsRemember(Step(limits, c, op).tiers.rows, used[op.key := op.now])
  {
    forall x | x in Step(limits, c, op).tiers.rows ensures x.key == op.key ==> x.lastAccess == op.now
      ensures x.key != op.key ==> x in c.rows
    {
      PutRowKeeps(c.rows, op.key, op.body, op.ttlSeconds, op.metadata, op.now, op.order, limits.disk, x);
    }
  }

  /** Over any history each row carries the time of its key's last put or read from disk. */
  lemma {:induction false} RowsRememberTheirUse(limits: Limits, ops: seq<Op>)
    ensures RowsRemember(Run(limits, ops).rows, LastDiskUse(limits, ops))
    decreases |ops|
  {
    if ops == [] {
    } else {
      var before, op := ops[..|ops| - 1], ops[|ops| - 1];
      var c, used := Run(limits, before), LastDiskUse(limits, before);
      RowsRememberTheirUse(limits, before);
      match op
      case Get(k, _, _) =>
        DiskGetRemembers(limits, c, op, used);
        DiskGetRemembers(limits, c.(memory := Forget(c.memory, k)), op, used);
      case Put(_, _, _, _, _, _) => PutRemembers(limits, c, op, used);
      case Remove(k) => DeleteRemoves(c.rows, k);
      case Purge(matches) => PurgeTotal(c.rows, matches);
    }
  }

  // ---- Both tiers stay within their limits ----

  lemma {:induction false} EvictLoopDistinct(rows: seq<Row>, order: seq<Key>, low: nat)
    requires DistinctRows(rows)
    ensures DistinctRows(EvictLoop(rows, order, low))
    decreases |order|
  {
    if order == [] {
    } else {
      DeleteDistinct(rows, order[0]);
      EvictLoopDistinct(DeleteRow(rows, order[0]), order[1..], low);
    }
  }

  lemma InsertedDistinct(rows: seq<Row>, k: Key, body: Body, ttlSeconds: int, metadata: Metadata, now: int)
    requires DistinctRows(rows)
    ensures DistinctRows(Inserted(rows, k, body, ttlSeconds, metadata, now))
  {
    DeleteDistinct(rows, k);
    DeleteRemoves(rows, k);
    var rest := DeleteRow(rows, k);
    assert forall i :: 0 <= i < |rest| ==> rest[i] in rest;
  }

  lemma {:induction false} TouchKeepsKeys(rows: seq<Row>, k: Key, now: int)
    ensures |TouchRow(rows, k, now)| == |rows|
    ensures forall i :: 0 <= i < |rows| ==> TouchRow(rows, k, now)[i].key == rows[i].key
  {
    if rows == [] {
    } else {
      TouchKeepsKeys(rows[1..], k, now);
      forall i | 0 <= i < |rows| ensures TouchRow(rows, k, now)[i].key == rows[i].key {
        assert i > 0 ==> TouchRow(rows, k, now)[i] == TouchRow(rows[1..], k, now)[i - 1] && rows[i] == rows[1..][i - 1];
      }
    }
  }

  lemma {:induction false} PurgeDistinct(rows: seq<Row>, matches: Option<Metadata -> bool>)
    requires DistinctRows(rows)
    ensures DistinctRows(PurgeRows(rows, matches))
  {
    if rows == [] {
    } else {
      var tail := rows[1..];
      assert forall i :: 0 <= i < |tail| ==> tail[i] == rows[i + 1];
      PurgeDistinct(tail, matches);
      PurgeTotal(tail, matches);
      var rest := PurgeRows(tail, matches);
      forall i | 0 <= i < |rest| ensures rest[i].key != rows[0].key {
        assert rest[i] in rest && rest[i] in tail;
      }
    }
  }

  /** The database answered every eviction of the history with the order it was asked for. */
  ghost predicate AnswersInOrder(limits: Limits, ops: seq<Op>)
    decreases |ops|
  {
    ops == [] ||
      var before, op := ops[..|ops| - 1], ops[|ops| - 1];
      AnswersInOrder(limits, before) &&
      (op.Put? ==>
         var rows := Run(limits, before).rows;
         IsOrder(Inserted(rows, op.key, op.body, op.ttlSeconds, op.metadata, op.now), op.order))
  }

  lemma RowsStayDistinct(limits: Limits, c: Tiers, op: Op)
    requires DistinctRows(c.rows)
    ensures DistinctRows(Step(limits, c, op).tiers.rows)
  {
    match op
    case Get(k, now, _) =>
      DeleteDistinct(c.rows, k);
      TouchKeepsKeys(c.rows, k, now);
    case Put(k, body, ttl, metadata, now, order) =>
      InsertedDistinct(c.rows, k, body, ttl, metadata, now);
      EvictLoopDistinct(Inserted(c.rows, k, body, ttl, metadata, now), order, LowMark(limits.disk));
    case Remove(k) => DeleteDistinct(c.rows, k);
    case Purge(matches) => PurgeDistinct(c.rows, matches);
  }

  /** No operation but a put adds bytes to the disk, and a put ends within the limit. */
  lemma DiskStaysWithin(limits: Limits, c: Tiers, op: Op)
    requires Total(c.rows) <= limits.disk
    requires op.Put? ==> IsOrder(Inserted(c.rows, op.key, op.body, op.ttlSeconds, op.metadata, op.now), op.order)
    ensures Total(Step(limits, c, op).tiers.rows) <= limits.disk
  {
    match op
    case Get(k, now, readable) => DoTotal(c.rows, op, limits.disk);
    case Put(k, body, ttl, metadata, now, order) =>
      PutStaysWithinLimit(c.rows, k, body, ttl, metadata, now, order, limits.disk);
    case Remove(k) => DoTotal(c.rows, op, limits.disk);
    case Purge(matches) => DoTotal(c.rows, op, limits.disk);
  }

  lemma DiskGetStaysWithin(limits: Limits, c: Tiers, k: Key, now: int, readable: bool)
    requires MemoryTier.Inv(c.memory) && c.memory.bytes <= limits.memory
    ensures GetFromDisk(limits, c, k, now, readable).tiers.memory.bytes <= limits.memory
  {
    var read := GetRow(c.rows, k, now, readable);
    if read.found.Some? {
      var e := Entry(read.found.value.body, read.found.value.metadata, now + PROMOTION_MS);
      var n := PutKeepsLongestSuffix(c.memory, k, e, limits.memory);
    }
  }

  lemma GetStaysWithin(limits: Limits, c: Tiers, k: Key, now: int, readable: bool)
    requires MemoryTier.Inv(c.memory) && c.memory.bytes <= limits.memory
    ensures GetTiers(limits, c, k, now, readable).tiers.memory.bytes <= limits.memory
  {
    match Find(c.memory.slots, k)
    case Some(e) =>
      if e.expiresAt < now {
        ForgetInv(c.memory, k);
        DiskGetStaysWithin(limits, c.(memory := Forget(c.memory, k)), k, now, readable);
      }
    case None => DiskGetStaysWithin(limits, c, k, now, readable);
  }

  lemma MemoryStaysWithin(limits: Limits, c: Tiers, op: Op)
    requires MemoryTier.Inv(c.memory) && c.memory.bytes <= limits.memory
    ensures Step(limits, c, op).tiers.memory.bytes <= limits.memory
  {
    match op
    case Get(k, now, readable) => GetStaysWithin(limits, c, k, now, readable);
    case Put(k, body, ttl, metadata, now, _) =>
      var n := PutKeepsLongestSuffix(c.memory, k, Entry(body, metadata, now + ttl * 1000), limits.memory);
    case Remove(k) => ForgetInv(c.memory, k);
    case Purge(_) =>
  }

  /** Over any history both tiers hold at most their bytes, and the table holds one row a key. */
  lemma {:induction false} TiersStayWithinLimits(limits: Limits, ops: seq<Op>)
    requires AnswersInOrder(limits, ops)
    ensures var c := Run(limits, ops);
      DistinctRows(c.rows) && Total(c.rows) <= limits.disk && c.memory.bytes == Bytes(c.memory.slots) <= limits.memory
    decreases |ops|
  {
    if ops == [] {
    } else {
      var before, op := ops[..|ops| - 1], ops[|ops| - 1];
      TiersStayWithinLimits(limits, before);
      RunAgrees(limits, before);
      RunAgrees(limits, ops);
      RowsStayDistinct(limits, Run(limits, before), op);
      DiskStaysWithin(limits, Run(limits, before), op);
      MemoryStaysWithin(limits, Run(limits, before), op);
    }
  }

  // ---- The minute of slack is real ----

  const TIGHT := Limits(1, 100)
  const ROW_A := Row("a", [7], 1000, 0, "")
  const ROW_B := Row("b", [8], 1000, 0, "")

  /** One byte of memory holds one slot at a time. */
  lemma OneByte(held: Slot<Entry>, k: Key, e: Entry)
    requires held.key != k && |held.value.body| == |e.body| == 1
    ensures PutMemory(Memory([held], 1), k, e, 1) == Memory([Slot(k, e)], 1)
  {
    var both := Memory([held] + [Slot(k, e)], 2);
    assert Without([held], k) == [held];
    assert both.slots[1..] == [Slot(k, e)];
    assert Trim(Memory([Slot(k, e)], 1), 1) == Memory([Slot(k, e)], 1);
  }

  lemma AfterFirstPut()
    ensures Step(TIGHT, EMPTY, Put("a", [7], 1, "", 0, [])).tiers ==
      Tiers(Memory([Slot("a", Entry([7], "", 1000))], 1), [ROW_A])
  {
    var m := Memory([] + [Slot("a", Entry([7], "", 1000))], 1);
    assert Trim(m, 1) == m;
    assert [] + [ROW_A] == [ROW_A];
  }

  lemma AfterSecondPut(c: Tiers)
    requires c == Tiers(Memory([Slot("a", Entry([7], "", 1000))], 1), [ROW_A])
    ensures Step(TIGHT, c, Put("b", [8], 1, "", 0, [])).tiers ==
      Tiers(Memory([Slot("b", Entry([8], "", 1000))], 1), [ROW_A, ROW_B])
  {
    OneByte(c.memory.slots[0], "b", Entry([8], "", 1000));
    assert DeleteRow([ROW_A], "b") == [ROW_A];
    assert [ROW_A] + [ROW_B] == [ROW_A, ROW_B];
    assert Total([ROW_B]) == 1 && [ROW_A, ROW_B][1..] == [ROW_B];
  }

  lemma AfterPromotion(c: Tiers)
    requires c == Tiers(Memory([Slot("b", Entry([8], "", 1000))], 1), [ROW_A, ROW_B])
    ensures Step(TIGHT, c, Get("a", 1000, true)).tiers.memory == Memory([Slot("a", Entry([7], "", 61000))], 1)
  {
    OneByte(c.memory.slots[0], "a", Entry([7], "", 61000));
    assert FindRow(c.rows, "a") == Some(ROW_A);
  }

  /**
   One byte of memory, two keys. The second put drops the first key from memory; a read promotes
   it back from disk at its expiry, and it is still found in memory a minute later.
   */
  lemma SlackIsReached() returns (ops: seq<Op>)
    ensures "a" in Latest(ops) && Latest(ops)["a"].expiresAt == 1000
    ensures GetTiers(TIGHT, Run(TIGHT, ops), "a", 61000, true).hit == Some(Hit([7], "", InMemory))
  {
    var putA, putB, getA := Put("a", [7], 1, "", 0, []), Put("b", [8], 1, "", 0, []), Get("a", 1000, true);
    ops := [putA, putB, getA];
    assert ops[..2] == [putA, putB] && [putA, putB][..1] == [putA] && [putA][..0] == [];
    AfterFirstPut();
    assert Run(TIGHT, [putA]) == Step(TIGHT, EMPTY, putA).tiers;
    AfterSecondPut(Run(TIGHT, [putA]));
    assert Run(TIGHT, [putA, putB]) == Step(TIGHT, Run(TIGHT, [putA]), putB).tiers;
    AfterPromotion(Run(TIGHT, [putA, putB]));
    assert Latest([putA])["a"] == Stored([7], "", 1000);
    assert Latest([putA, putB])["a"] == Stored([7], "", 1000);
  }
}

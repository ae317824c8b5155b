/**
 The disk tier of the cache: a table of rows with size, expiry and last access.

 The order in which `evict` visits rows is the answer of the database to
 `ORDER BY expires_at ASC, last_access ASC`; ties may come in any order.
 */
module DiskTier {
  import opened Wrappers
  import opened MemoryTier

  datatype Row = Row(key: Key, body: Body, expiresAt: int, lastAccess: int, metadata: Metadata)

  function Total(rows: seq<Row>): nat {
    if rows == [] then 0 else |rows[0].body| + Total(rows[1..])
  }

  function FindRow(rows: seq<Row>, k: Key): (r: Option<Row>)
    ensures r.Some? ==> r.value in rows && r.value.key == k
    ensures r.None? ==> forall x :: x in rows ==> x.key != k
  {
    if rows == [] then None
    else if rows[0].key == k then Some(rows[0])
    else FindRow(rows[1..], k)
  }

  /** `DELETE FROM cache_entries WHERE key = ?`. */
  function DeleteRow(rows: seq<Row>, k: Key): seq<Row> {
    if rows == [] then []
    else if rows[0].key == k then DeleteRow(rows[1..], k)
    else [rows[0]] + DeleteRow(rows[1..], k)
  }

  function TouchRow(rows: seq<Row>, k: Key, now: int): seq<Row> {
    if rows == [] then []
    else [if rows[0].key == k then rows[0].(lastAccess := now) else rows[0]] + TouchRow(rows[1..], k, now)
  }

  /** Three quarters of the limit, rounded down. */
  function LowMark(limit: nat): nat {
    3 * limit / 4
  }

  function EvictLoop(rows: seq<Row>, order: seq<Key>, low: nat): seq<Row>
    decreases |order|
  {
    if order == [] then rows
    else
      var rest := DeleteRow(rows, order[0]);
      if Total(rest) <= low then rest else EvictLoop(rest, order[1..], low)
  }

  function Evict(rows: seq<Row>, order: seq<Key>, limit: nat): seq<Row> {
    if Total(rows) <= limit then rows else EvictLoop(rows, order, LowMark(limit))
  }

  function Inserted(rows: seq<Row>, k: Key, body: Body, ttlSeconds: int, metadata: Metadata, now: int): seq<Row> {
    DeleteRow(rows, k) + [Row(k, body, now + ttlSeconds * 1000, now, metadata)]
  }

  function PutRow(rows: seq<Row>, k: Key, body: Body, ttlSeconds: int, metadata: Metadata, now: int, order: seq<Key>,
                  limit: nat): seq<Row> {
    Evict(Inserted(rows, k, body, ttlSeconds, metadata, now), order, limit)
  }

  datatype Read = Read(rows: seq<Row>, found: Option<Row>)

  /** `readable` says whether the body's file can be read. */
  function GetRow(rows: seq<Row>, k: Key, now: int, readable: bool): Read {
    match FindRow(rows, k)
    case None => Read(rows, None)
    case Some(row) =>
      if row.expiresAt < now || !readable then Read(DeleteRow(rows, k), None)
      else Read(TouchRow(rows, k, now), Some(row))
  }

  /** `matches` is the LIKE test on the metadata; None purges everything. */
  function PurgeRows(rows: seq<Row>, matches: Option<Metadata -> bool>): seq<Row> {
    if rows == [] then []
    else if matches.None? || matches.value(rows[0].metadata) then PurgeRows(rows[1..], matches)
    else [rows[0]] + PurgeRows(rows[1..], matches)
  }

  // ---- The table ----

  ghost predicate DistinctRows(rows: seq<Row>) {
    forall i, j :: 0 <= i < j < |rows| ==> rows[i].key != rows[j].key
  }

  ghost predicate NotAfter(rows: seq<Row>, k: Key, l: Key) {
    FindRow(rows, k).Some? && FindRow(rows, l).Some? ==>
      var x, y := FindRow(rows, k).value, FindRow(rows, l).value;
      x.expiresAt < y.expiresAt || (x.expiresAt == y.expiresAt && x.lastAccess <= y.lastAccess)
  }

  /** The answer of the database: every row's key once, by expiry and then by last access. */
  ghost predicate IsOrder(rows: seq<Row>, order: seq<Key>) {
    && (forall x :: x in rows ==> x.key in order)
    && (forall i, j :: 0 <= i < j < |order| ==> order[i] != order[j] && NotAfter(rows, order[i], order[j]))
    && (forall k :: k in order ==> FindRow(rows, k).Some?)
  }

  lemma {:induction false} DeleteMembers(rows: seq<Row>, k: Key, x: Row)
    ensures x in DeleteRow(rows, k) <==> x in rows && x.key != k
  {
    if rows == [] {
    } else {
      DeleteMembers(rows[1..], k, x);
    }
  }

  lemma {:induction false} DeleteTotal(rows: seq<Row>, k: Key)
    ensures Total(DeleteRow(rows, k)) <= Total(rows)
  {
    if rows == [] {
    } else {
      DeleteTotal(rows[1..], k);
      assert ([rows[0]] + DeleteRow(rows[1..], k))[1..] == DeleteRow(rows[1..], k);
    }
  }

  lemma DeleteRemoves(rows: seq<Row>, k: Key)
    ensures forall x :: x in DeleteRow(rows, k) ==> x in rows && x.key != k
    ensures forall x :: x in rows && x.key != k ==> x in DeleteRow(rows, k)
    ensures Total(DeleteRow(rows, k)) <= Total(rows)
  {
    DeleteTotal(rows, k);
    forall x ensures x in DeleteRow(rows, k) <==> x in rows && x.key != k {
      DeleteMembers(rows, k, x);
    }
  }

  lemma PrependDistinct(head: Row, rest: seq<Row>)
    requires DistinctRows(rest) && forall x :: x in rest ==> x.key != head.key
    ensures DistinctRows([head] + rest)
  {
    assert forall i :: 0 <= i < |rest| ==> rest[i] in rest;
  }

  lemma {:induction false} DeleteDistinct(rows: seq<Row>, k: Key)
    requires DistinctRows(rows)
    ensures DistinctRows(DeleteRow(rows, k))
  {
    if rows == [] {
    } else {
      var tail := rows[1..];
      assert forall i :: 0 <= i < |tail| ==> tail[i] == rows[i + 1];
      DeleteDistinct(tail, k);
      DeleteRemoves(tail, k);
      PrependDistinct(rows[0], DeleteRow(tail, k));
    }
  }

  lemma TotalOfConcat(a: seq<Row>, b: seq<Row>)
    ensures Total(a + b) == Total(a) + Total(b)
  {
    if a == [] {
      assert a + b == b;
    } else {
      assert (a + b)[1..] == a[1..] + b;
    }
  }

  // ---- Eviction ----

  /** The rows left when the first n keys of an order are gone. */
  function WithoutFirst(rows: seq<Row>, order: seq<Key>, n: nat): seq<Row>
    requires n <= |order|
    decreases n
  {
    if n == 0 then rows else WithoutFirst(DeleteRow(rows, order[0]), order[1..], n - 1)
  }

  /**
   The eviction loop stops at the first prefix of the order that brings the total to the mark, or
   at the end.
   */
  lemma {:induction false} EvictLoopStops(rows: seq<Row>, order: seq<Key>, low: nat) returns (n: nat)
    requires order != []
    ensures 1 <= n <= |order| && EvictLoop(rows, order, low) == WithoutFirst(rows, order, n)
    ensures forall m :: 1 <= m < n ==> Total(WithoutFirst(rows, order, m)) > low
    ensures n < |order| ==> Total(WithoutFirst(rows, order, n)) <= low
    decreases |order|
  {
    var rest := DeleteRow(rows, order[0]);
    if Total(rest) <= low || |order| == 1 {
      n := 1;
      assert WithoutFirst(rows, order, 1) == WithoutFirst(rest, order[1..], 0) == rest;
      assert order[1..] == [] || Total(rest) <= low;
    } else {
      n := EvictLoopStops(rest, order[1..], low);
      forall m | 1 <= m < n + 1 ensures Total(WithoutFirst(rows, order, m)) > low {
        assert WithoutFirst(rows, order, m) == WithoutFirst(rest, order[1..], m - 1);
      }
      n := n + 1;
    }
  }

  lemma {:induction false} WithoutFirstKeeps(rows: seq<Row>, order: seq<Key>, n: nat, x: Row)
    requires n <= |order|
    ensures x in WithoutFirst(rows, order, n) <==> x in rows && x.key !in order[..n]
    decreases n
  {
    if n == 0 {
    } else {
      DeleteMembers(rows, order[0], x);
      WithoutFirstKeeps(DeleteRow(rows, order[0]), order[1..], n - 1, x);
      assert order[..n] == [order[0]] + order[1..][..n - 1];
    }
  }

  lemma AnyRow(rows: seq<Row>) returns (x: Row)
    requires Total(rows) > 0
    ensures x in rows
  {
    x := rows[0];
  }

  /** An eviction removes the shortest prefix of the order that brings the total down to three quarters of the limit. */
  lemma EvictRemovesShortestPrefix(rows: seq<Row>, order: seq<Key>, limit: nat) returns (n: nat)
    requires IsOrder(rows, order)
    ensures n <= |order| && Evict(rows, order, limit) == WithoutFirst(rows, order, n)
    ensures n == 0 <==> Total(rows) <= limit
    ensures n > 0 ==> 4 * Total(Evict(rows, order, limit)) <= 3 * limit
    ensures forall m :: 0 <= m < n ==> 4 * Total(WithoutFirst(rows, order, m)) > 3 * limit
    ensures forall x :: x in Evict(rows, order, limit) <==> x in rows && x.key !in order[..n]
  {
    n := 0;
    if Total(rows) > limit {
      assert rows[0] in rows;
      n := EvictLoopStops(rows, order, LowMark(limit));
      assert WithoutFirst(rows, order, 0) == rows;
    }
    var kept := Evict(rows, order, limit);
    forall x ensures x in kept <==> x in rows && x.key !in order[..n] {
      WithoutFirstKeeps(rows, order, n, x);
    }
    if n == |order| && Total(kept) > 0 {
      var x := AnyRow(kept);
      assert false;
    }
  }

  /** After every put the stored total is within the limit. */
  lemma PutStaysWithinLimit(rows: seq<Row>, k: Key, body: Body, ttlSeconds: int, metadata: Metadata, now: int,
                            order: seq<Key>, limit: nat)
    requires IsOrder(Inserted(rows, k, body, ttlSeconds, metadata, now), order)
    ensures Total(PutRow(rows, k, body, ttlSeconds, metadata, now, order, limit)) <= limit
  {
    var n := EvictRemovesShortestPrefix(Inserted(rows, k, body, ttlSeconds, metadata, now), order, limit);
  }

  // ---- From one eviction to the next ----

  datatype Op =
    | Get(key: Key, now: int, readable: bool)
    | Put(key: Key, body: Body, ttlSeconds: int, metadata: Metadata, now: int, order: seq<Key>)
    | Remove(key: Key)
    | Purge(matches: Option<Metadata -> bool>)

  function Do(rows: seq<Row>, op: Op, limit: nat): seq<Row> {
    match op
    case Get(k, now, readable) => GetRow(rows, k, now, readable).rows
    case Put(k, body, ttl, metadata, now, order) => PutRow(rows, k, body, ttl, metadata, now, order, limit)
    case Remove(k) => DeleteRow(rows, k)
    case Purge(matches) => PurgeRows(rows, matches)
  }

  function DoAll(rows: seq<Row>, ops: seq<Op>, limit: nat): seq<Row>
    decreases |ops|
  {
    if ops == [] then rows else DoAll(Do(rows, ops[0], limit), ops[1..], limit)
  }

  function BytesPut(ops: seq<Op>): nat {
    if ops == [] then 0 else (if ops[0].Put? then |ops[0].body| else 0) + BytesPut(ops[1..])
  }

  predicate Evicts(rows: seq<Row>, op: Op, limit: nat) {
    op.Put? && Total(Inserted(rows, op.key, op.body, op.ttlSeconds, op.metadata, op.now)) > limit
  }

  lemma {:induction false} PurgeTotal(rows: seq<Row>, matches: Option<Metadata -> bool>)
    ensures Total(PurgeRows(rows, matches)) <= Total(rows)
    ensures forall x :: x in PurgeRows(rows, matches) <==> x in rows && matches.Some? && !matches.value(x.metadata)
  {
    if rows == [] {
    } else {
      PurgeTotal(rows[1..], matches);
      assert rows == [rows[0]] + rows[1..];
      var rest := PurgeRows(rows[1..], matches);
      assert ([rows[0]] + rest)[1..] == rest;
    }
  }

  lemma {:induction false} TouchTotal(rows: seq<Row>, k: Key, now: int)
    ensures Total(TouchRow(rows, k, now)) == Total(rows)
  {
    if rows == [] {
    } else {
      TouchTotal(rows[1..], k, now);
      assert TouchRow(rows, k, now)[1..] == TouchRow(rows[1..], k, now);
    }
  }

  lemma {:induction false} EvictLoopShrinks(rows: seq<Row>, order: seq<Key>, low: nat)
    ensures Total(EvictLoop(rows, order, low)) <= Total(rows)
    decreases |order|
  {
    if order == [] {
    } else {
      DeleteRemoves(rows, order[0]);
      EvictLoopShrinks(DeleteRow(rows, order[0]), order[1..], low);
    }
  }

  lemma InsertedTotal(rows: seq<Row>, k: Key, body: Body, ttlSeconds: int, metadata: Metadata, now: int)
    ensures Total(Inserted(rows, k, body, ttlSeconds, metadata, now)) <= Total(rows) + |body|
  {
    DeleteRemoves(rows, k);
    TotalOfConcat(DeleteRow(rows, k), [Row(k, body, now + ttlSeconds * 1000, now, metadata)]);
  }

  lemma DoTotal(rows: seq<Row>, op: Op, limit: nat)
    ensures Total(Do(rows, op, limit)) <= Total(rows) + if op.Put? then |op.body| else 0
  {
    match op
    case Get(k, now, _) =>
      DeleteRemoves(rows, k);
      TouchTotal(rows, k, now);
    case Put(k, body, ttl, metadata, now, order) =>
      InsertedTotal(rows, k, body, ttl, metadata, now);
      EvictLoopShrinks(Inserted(rows, k, body, ttl, metadata, now), order, LowMark(limit));
    case Remove(k) => DeleteRemoves(rows, k);
    case Purge(matches) => PurgeTotal(rows, matches);
  }

  lemma {:induction false} DoAllTotal(rows: seq<Row>, ops: seq<Op>, limit: nat)
    ensures Total(DoAll(rows, ops, limit)) <= Total(rows) + BytesPut(ops)
    decreases |ops|
  {
    if ops == [] {
    } else {
      DoTotal(rows, ops[0], limit);
      DoAllTotal(Do(rows, ops[0], limit), ops[1..], limit);
    }
  }

  /**
   Hysteresis: whatever happens after an eviction, the next one comes only when more than a
   quarter of the limit has been put since.
   */
  lemma EvictionsAreApart(rows: seq<Row>, first: Op, between: seq<Op>, next: Op, limit: nat)
    requires first.Put? && Evicts(rows, first, limit)
    requires IsOrder(Inserted(rows, first.key, first.body, first.ttlSeconds, first.metadata, first.now), first.order)
    requires Evicts(DoAll(Do(rows, first, limit), between, limit), next, limit)
    ensures BytesPut(between) + |next.body| > limit - 3 * limit / 4
    ensures 4 * (BytesPut(between) + |next.body|) > limit
  {
    var inserted := Inserted(rows, first.key, first.body, first.ttlSeconds, first.metadata, first.now);
    var n := EvictRemovesShortestPrefix(inserted, first.order, limit);
    DoAllTotal(Do(rows, first, limit), between, limit);
    var later := DoAll(Do(rows, first, limit), between, limit);
    InsertedTotal(later, next.key, next.body, next.ttlSeconds, next.metadata, next.now);
  }
}

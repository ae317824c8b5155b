/** The bounded history of how each domain answered, and the cost it makes the planner announce. */
module DomainObservations {
  import opened Wrappers
  import opened OrderedMap

  type Host = string

  datatype Entry = Entry(shells: int, sufficient: int, lastSeenAt: int)

  type Entries = seq<Slot<Entry>>

  datatype Reason = ClientRenderedShell | HttpContentSufficient | OtherReason

  datatype Bounds = Bounds(entries: nat, samples: nat, ttlMs: int)

  /** The ratio of shells in hundredths. */
  datatype Observation = Observation(samples: int, shellHundredths: int, lastSeenAt: int)

  function Samples(e: Entry): int {
    e.shells + e.sufficient
  }

  /** A non-negative quotient to two decimals, halves up, in hundredths. */
  function Hundredths(part: int, whole: int): int
    requires whole > 0
  {
    (200 * part + whole) / (2 * whole)
  }

  function Observe(e: Entry): Observation {
    Observation(Samples(e), Hundredths(e.shells, if Samples(e) > 1 then Samples(e) else 1), e.lastSeenAt)
  }

  /** The planner charges three units instead of one for a domain of mostly shells. */
  predicate Costly(o: Observation) {
    o.shellHundredths >= 80
  }

  /** One sample less, from the larger count. */
  function Lowered(e: Entry): Entry {
    if e.shells >= e.sufficient then e.(shells := e.shells - 1) else e.(sufficient := e.sufficient - 1)
  }

  function TrimCounts(e: Entry, cap: nat): Entry
    decreases Samples(e) - cap
  {
    if Samples(e) <= cap then e else TrimCounts(Lowered(e), cap)
  }

  /** One more sample of its kind. */
  function Added(e: Entry, reason: Reason): Entry {
    if reason == ClientRenderedShell then e.(shells := e.shells + 1) else e.(sufficient := e.sufficient + 1)
  }

  function Counted(found: Option<Entry>, reason: Reason, now: int, cap: nat): Entry {
    var e := if found.Some? then found.value else Entry(0, 0, now);
    TrimCounts(Added(e, reason), cap).(lastSeenAt := now)
  }

  /** The eviction loop: it stops at an oldest entry whose host is the empty string. */
  function Drop(entries: Entries, limit: nat): Entries {
    if |entries| <= limit || entries[0].key == "" then entries
    else Drop(entries[1..], limit)
  }

  datatype Op = Record(host: Host, reason: Reason, now: int) | Get(host: Host, now: int)

  function Moved(b: Bounds, entries: Entries, host: Host, reason: Reason, now: int): Entries {
    Without(entries, host) + [Slot(host, Counted(Find(entries, host), reason, now, b.samples))]
  }

  function RecordStep(b: Bounds, entries: Entries, host: Host, reason: Reason, now: int): Entries {
    if reason == OtherReason then entries
    else Drop(Moved(b, entries, host, reason, now), b.entries)
  }

  function GetStep(b: Bounds, entries: Entries, host: Host, now: int): Entries {
    var found := Find(entries, host);
    if found.Some? && now - found.value.lastSeenAt > b.ttlMs then Without(entries, host) else entries
  }

  function GetResult(b: Bounds, entries: Entries, host: Host, now: int): Option<Observation> {
    var found := Find(entries, host);
    if found.None? || now - found.value.lastSeenAt > b.ttlMs then None else Some(Observe(found.value))
  }

  function Step(b: Bounds, entries: Entries, op: Op): Entries {
    match op
    case Record(host, reason, now) => RecordStep(b, entries, host, reason, now)
    case Get(host, now) => GetStep(b, entries, host, now)
  }

  function Exec(b: Bounds, ops: seq<Op>): Entries
    decreases |ops|
  {
    if ops == [] then [] else Step(b, Exec(b, ops[..|ops| - 1]), ops[|ops| - 1])
  }

  // ---- The counts of one domain ----

  ghost predicate CountsHold(e: Entry, cap: nat) {
    0 <= e.shells && 0 <= e.sufficient && Samples(e) <= cap
  }

  function Gap(e: Entry): int {
    if e.shells > e.sufficient then e.shells - e.sufficient else e.sufficient - e.shells
  }

  ghost predicate SameCounts(e: Entry, f: Entry) {
    e.shells == f.shells && e.sufficient == f.sufficient
  }

  ghost predicate Balanced(e: Entry) {
    e.shells == e.sufficient || e.shells + 1 == e.sufficient
  }

  lemma {:induction false} TrimHolds(e: Entry, cap: nat)
    requires 0 <= e.shells && 0 <= e.sufficient
    ensures CountsHold(TrimCounts(e, cap), cap)
    decreases Samples(e) - cap
  {
    if Samples(e) > cap {
      TrimHolds(Lowered(e), cap);
    }
  }

  lemma CountedHolds(found: Option<Entry>, reason: Reason, now: int, cap: nat)
    requires found.Some? ==> CountsHold(found.value, cap)
    ensures CountsHold(Counted(found, reason, now, cap), cap)
  {
    var e := if found.Some? then found.value else Entry(0, 0, now);
    TrimHolds(Added(e, reason), cap);
  }

  /**
   What one record does: below the cap its own count grows; at the cap a sample moves over from
   the other count, but only from the larger to the smaller.
   */
  lemma RecordMoves(e: Entry, reason: Reason, now: int, cap: nat)
    requires CountsHold(e, cap) && reason != OtherReason
    ensures var f, shell := Counted(Some(e), reason, now, cap), reason == ClientRenderedShell;
      && f.lastSeenAt == now
      && f.shells == e.shells + (
           if Samples(e) < cap then if shell then 1 else 0
           else if shell && e.shells + 1 < e.sufficient then 1
           else if !shell && e.sufficient < e.shells then -1 else 0)
      && Samples(f) == if Samples(e) < cap then Samples(e) + 1 else cap
  {
    var added := Added(e, reason);
    assert TrimCounts(Lowered(added), cap) == Lowered(added);
  }

  lemma QuotientAtLeast(x: int, d: int, q: int)
    requires d > 0
    ensures x / d >= q <==> x >= q * d
  {
    var r := x / d;
    assert r * d <= x < (r + 1) * d;
    if r >= q {
      assert r * d >= q * d;
    } else {
      assert (r + 1) * d <= q * d;
    }
  }

  /** What rounding to two decimals makes of four fifths. */
  lemma CostlyMeans(e: Entry)
    requires 0 <= e.shells && 0 <= e.sufficient
    ensures Costly(Observe(e)) <==> 0 < Samples(e) && 200 * e.shells >= 159 * Samples(e)
  {
    var whole := if Samples(e) > 1 then Samples(e) else 1;
    QuotientAtLeast(200 * e.shells + whole, 2 * whole, 80);
  }

  /**
   A full domain stays full, the gap between its counts never grows, and a balanced one never
   changes again; so a full domain that is not costly does not become it.
   */
  lemma FullStays(e: Entry, reason: Reason, now: int, cap: nat)
    requires CountsHold(e, cap) && Samples(e) == cap && reason != OtherReason
    ensures var f := Counted(Some(e), reason, now, cap);
      && CountsHold(f, cap) && Samples(f) == cap && Gap(f) <= Gap(e)
      && (Balanced(e) ==> SameCounts(f, e))
      && (!Costly(Observe(e)) ==> !Costly(Observe(f)))
  {
    var f, added := Counted(Some(e), reason, now, cap), Added(e, reason);
    assert TrimCounts(added, cap) == TrimCounts(Lowered(added), cap) == Lowered(added);
    CostlyMeans(e);
    CostlyMeans(f);
  }

  // ---- The table ----

  ghost predicate Inv(b: Bounds, entries: Entries) {
    DistinctKeys(entries) && forall s :: s in entries ==> CountsHold(s.value, b.samples)
  }

  /** The loop drops oldest entries while there are too many, up to one with an empty host. */
  lemma {:induction false} DropsOldest(entries: Entries, limit: nat) returns (n: nat)
    ensures n <= |entries| && Drop(entries, limit) == entries[n..]
    ensures forall i :: 0 <= i < n ==> entries[i].key != ""
    ensures n > 0 ==> |entries| - n >= limit
    ensures |entries| - n <= limit || entries[n].key == ""
    decreases |entries|
  {
    n := 0;
    if |entries| > limit && entries[0].key != "" {
      n := DropsOldest(entries[1..], limit);
      assert entries[n + 1..] == entries[1..][n..];
      forall i | 0 <= i < n + 1 ensures entries[i].key != "" {
        assert i > 0 ==> entries[i] == entries[1..][i - 1];
      }
      n := n + 1;
    }
  }

  lemma MovedInv(b: Bounds, entries: Entries, host: Host, reason: Reason, now: int)
    requires Inv(b, entries)
    ensures Inv(b, Moved(b, entries, host, reason, now))
  {
    var e := Counted(Find(entries, host), reason, now, b.samples);
    MovedToEnd(entries, host, e);
    WithoutRemoves(entries, host);
    CountedHolds(Find(entries, host), reason, now, b.samples);
  }

  lemma StepInv(b: Bounds, entries: Entries, op: Op)
    requires Inv(b, entries)
    ensures Inv(b, Step(b, entries, op))
  {
    match op
    case Record(host, reason, now) =>
      MovedInv(b, entries, host, reason, now);
      var n := DropsOldest(Moved(b, entries, host, reason, now), b.entries);
    case Get(host, _) => WithoutRemoves(entries, host);
  }

  /** Over every run the counts are not negative and sum up to at most the cap. */
  lemma {:induction false} RunInv(b: Bounds, ops: seq<Op>)
    ensures Inv(b, Exec(b, ops))
    decreases |ops|
  {
    if ops == [] {
    } else {
      RunInv(b, ops[..|ops| - 1]);
      StepInv(b, Exec(b, ops[..|ops| - 1]), ops[|ops| - 1]);
    }
  }

  /** A record leaves at most the maximum exactly when none of the entries it has to drop has an empty host. */
  lemma SizeBoundExactly(b: Bounds, entries: Entries, host: Host, reason: Reason, now: int)
    requires reason != OtherReason
    ensures var moved := Moved(b, entries, host, reason, now);
      |RecordStep(b, entries, host, reason, now)| <= b.entries <==>
        forall i :: 0 <= i < |moved| - b.entries ==> moved[i].key != ""
  {
    var n := DropsOldest(Moved(b, entries, host, reason, now), b.entries);
  }

  /** Behind an oldest entry with an empty host a full table grows with every new host. */
  lemma GrowsBehindEmptyHost(b: Bounds, entries: Entries, host: Host, reason: Reason, now: int)
    requires entries != [] && entries[0].key == "" && |entries| >= b.entries
    requires reason != OtherReason && forall s :: s in entries ==> s.key != host
    ensures |RecordStep(b, entries, host, reason, now)| == |entries| + 1
  {
    WithoutAbsent(entries, host);
    var moved := Moved(b, entries, host, reason, now);
    assert moved[0] == entries[0];
  }

  /** Two records and a table of one: the bound is broken. */
  lemma SizeBoundCanFail()
    ensures var run := [Record("", HttpContentSufficient, 0), Record("a", HttpContentSufficient, 0)];
      |Exec(Bounds(1, 20, 1000), run)| == 2
  {
    var b := Bounds(1, 20, 1000);
    var first, second := Record("", HttpContentSufficient, 0), Record("a", HttpContentSufficient, 0);
    assert [first, second][..1] == [first] && [first][..0] == [];
    var one := Exec(b, [first]);
    assert one == Step(b, Exec(b, []), first) == Drop(Moved(b, [], "", HttpContentSufficient, 0), 1);
    assert one == [Slot("", Counted(None, HttpContentSufficient, 0, 20))];
    GrowsBehindEmptyHost(b, one, "a", HttpContentSufficient, 0);
  }

  // ---- The table holds the most recently recorded domains ----

  /** Every domain recorded and not read after its time, by last record: the history without a maximum. */
  function Recent(b: Bounds, ops: seq<Op>): seq<Slot<int>>
    decreases |ops|
  {
    if ops == [] then []
    else
      var before := Recent(b, ops[..|ops| - 1]);
      match ops[|ops| - 1]
      case Record(host, reason, now) =>
        if reason == OtherReason then before else Without(before, host) + [Slot(host, now)]
      case Get(host, now) =>
        var found := Find(before, host);
        if found.Some? && now - found.value > b.ttlMs then Without(before, host) else before
  }

  function Seen(entries: Entries): (r: seq<Slot<int>>)
    ensures |r| == |entries|
    ensures forall i :: 0 <= i < |r| ==> r[i] == Slot(entries[i].key, entries[i].value.lastSeenAt)
  {
    if entries == [] then [] else [Slot(entries[0].key, entries[0].value.lastSeenAt)] + Seen(entries[1..])
  }

  lemma {:induction false} SeenWithout(entries: Entries, host: Host)
    ensures Seen(Without(entries, host)) == Without(Seen(entries), host)
    ensures Find(Seen(entries), host) == match Find(entries, host) case Some(e) => Some(e.lastSeenAt) case None => None
  {
    if entries == [] {
    } else {
      SeenWithout(entries[1..], host);
      if entries[0].key != host {
        assert Without(entries, host)[1..] == Without(entries[1..], host);
      }
    }
  }

  lemma {:induction false} WithoutInFront<V>(a: seq<Slot<V>>, c: seq<Slot<V>>, k: string)
    requires forall i :: 0 <= i < |c| ==> c[i].key != k
    ensures Without(a + c, k) == Without(a, k) + c
  {
    if a == [] {
      assert a + c == c;
      WithoutAbsent(c, k);
    } else {
      assert (a + c)[1..] == a[1..] + c;
      WithoutInFront(a[1..], c, k);
    }
  }

  lemma {:induction false} WithoutBehind<V>(a: seq<Slot<V>>, c: seq<Slot<V>>, k: string)
    requires forall i :: 0 <= i < |a| ==> a[i].key != k
    ensures Without(a + c, k) == a + Without(c, k) && Find(a + c, k) == Find(c, k)
  {
    if a == [] {
      assert a + c == c;
    } else {
      assert (a + c)[1..] == a[1..] + c;
      WithoutBehind(a[1..], c, k);
      assert a == [a[0]] + a[1..];
    }
  }

  /** With distinct keys, k is in front or behind. */
  lemma WithoutOfConcat<V>(a: seq<Slot<V>>, c: seq<Slot<V>>, k: string)
    requires DistinctKeys(a + c)
    ensures Without(a + c, k) == Without(a, k) + Without(c, k)
    ensures Find(c, k).Some? ==> Find(a + c, k) == Find(c, k)
  {
    if j :| 0 <= j < |c| && c[j].key == k {
      assert (a + c)[|a| + j] == c[j];
      assert forall i :: 0 <= i < |a| ==> (a + c)[i] == a[i] && a[i].key != k;
      WithoutBehind(a, c, k);
      WithoutAbsent(a, k);
    } else {
      WithoutInFront(a, c, k);
      WithoutAbsent(c, k);
    }
  }

  /** `entries` holds the latest of the unbounded history, the older part of which is `gone`. */
  ghost predicate HoldsLatest(recent: seq<Slot<int>>, gone: seq<Slot<int>>, entries: Entries) {
    DistinctKeys(recent) && recent == gone + Seen(entries)
  }

  lemma SeenMoved(b: Bounds, entries: Entries, host: Host, reason: Reason, now: int)
    ensures Seen(Moved(b, entries, host, reason, now)) == Without(Seen(entries), host) + [Slot(host, now)]
  {
    SeenWithout(entries, host);
    var seen, rest := Seen(Moved(b, entries, host, reason, now)), Seen(Without(entries, host));
    assert forall i :: 0 <= i < |rest| ==> seen[i] == rest[i];
  }

  lemma SeenSplits(entries: Entries, n: nat)
    requires n <= |entries|
    ensures Seen(entries) == Seen(entries)[..n] + Seen(entries[n..])
  {
  }

  lemma Regroup<T>(a: seq<T>, s: seq<T>, x: seq<T>, head: seq<T>, tail: seq<T>)
    requires s + x == head + tail
    ensures a + s + x == a + head + tail
  {
    assert a + s + x == a + (s + x) == a + (head + tail);
  }

  lemma RecordHoldsLatest(b: Bounds, recent: seq<Slot<int>>, gone: seq<Slot<int>>, entries: Entries, op: Op)
      returns (gone': seq<Slot<int>>)
    requires op.Record? && op.reason != OtherReason && HoldsLatest(recent, gone, entries)
    ensures HoldsLatest(Without(recent, op.host) + [Slot(op.host, op.now)], gone', Step(b, entries, op))
  {
    var moved := Moved(b, entries, op.host, op.reason, op.now);
    var n := DropsOldest(moved, b.entries);
    SeenMoved(b, entries, op.host, op.reason, op.now);
    SeenSplits(moved, n);
    WithoutOfConcat(gone, Seen(entries), op.host);
    MovedToEnd(recent, op.host, op.now);
    gone' := Without(gone, op.host) + Seen(moved)[..n];
    var kept, last := Without(Seen(entries), op.host), [Slot(op.host, op.now)];
    Regroup(Without(gone, op.host), kept, last, Seen(moved)[..n], Seen(moved[n..]));
  }

  lemma GetHoldsLatest(b: Bounds, recent: seq<Slot<int>>, gone: seq<Slot<int>>, entries: Entries, op: Op)
      returns (gone': seq<Slot<int>>)
    requires op.Get? && HoldsLatest(recent, gone, entries)
    ensures var found := Find(recent, op.host);
      var late := found.Some? && op.now - found.value > b.ttlMs;
      HoldsLatest(if late then Without(recent, op.host) else recent, gone', Step(b, entries, op))
  {
    var found := Find(recent, op.host);
    SeenWithout(entries, op.host);
    WithoutOfConcat(gone, Seen(entries), op.host);
    WithoutRemoves(recent, op.host);
    gone' := gone;
    if found.Some? && op.now - found.value > b.ttlMs {
      gone' := Without(gone, op.host);
      if Find(entries, op.host).None? {
        WithoutAbsent(entries, op.host);
      }
    }
  }

  /**
   Over every run the table is exactly the latest part of the unbounded history, in the order of
   the last record of each domain.
   */
  lemma {:induction false} RunHoldsLatest(b: Bounds, ops: seq<Op>) returns (gone: seq<Slot<int>>)
    ensures HoldsLatest(Recent(b, ops), gone, Exec(b, ops))
    decreases |ops|
  {
    gone := [];
    if ops == [] {
    } else {
      var before, op := ops[..|ops| - 1], ops[|ops| - 1];
      gone := RunHoldsLatest(b, before);
      match op
      case Record(_, reason, _) =>
        if reason != OtherReason {
          gone := RecordHoldsLatest(b, Recent(b, before), gone, Exec(b, before), op);
        }
      case Get(_, _) => gone := GetHoldsLatest(b, Recent(b, before), gone, Exec(b, before), op);
    }
  }

  lemma {:induction false} WithoutShrinks(entries: Entries, k: Host)
    ensures |Without(entries, k)| <= |entries|
    ensures forall s :: s in Without(entries, k) ==> s in entries
  {
    if entries == [] {
    } else {
      WithoutShrinks(entries[1..], k);
    }
  }

  lemma SizeHolds(b: Bounds, entries: Entries, op: Op)
    requires |entries| <= b.entries && forall s :: s in entries ==> s.key != ""
    requires op.Record? ==> op.host != ""
    ensures |Step(b, entries, op)| <= b.entries && forall s :: s in Step(b, entries, op) ==> s.key != ""
  {
    WithoutShrinks(entries, op.host);
    match op
    case Record(host, reason, now) => var n := DropsOldest(Moved(b, entries, host, reason, now), b.entries);
    case Get(_, _) =>
  }

  /** Over every run without empty hosts the table never exceeds its maximum. */
  lemma {:induction false} RunStaysWithin(b: Bounds, ops: seq<Op>)
    requires forall i :: 0 <= i < |ops| && ops[i].Record? ==> ops[i].host != ""
    ensures |Exec(b, ops)| <= b.entries
    ensures forall s :: s in Exec(b, ops) ==> s.key != ""
    decreases |ops|
  {
    if ops == [] {
    } else {
      RunStaysWithin(b, ops[..|ops| - 1]);
      SizeHolds(b, Exec(b, ops[..|ops| - 1]), ops[|ops| - 1]);
    }
  }

  // ---- A domain over a run ----

  /** The domain is never dropped from the table, neither by a read after its time nor by an eviction. */
  ghost predicate Held(b: Bounds, entries: Entries, ops: seq<Op>, host: Host)
    decreases |ops|
  {
    Find(entries, host).Some? && (ops == [] || Held(b, Step(b, entries, ops[0]), ops[1..], host))
  }

  function ExecFrom(b: Bounds, entries: Entries, ops: seq<Op>): Entries
    decreases |ops|
  {
    if ops == [] then entries else ExecFrom(b, Step(b, entries, ops[0]), ops[1..])
  }

  /** Only the domain's own records change its counts. */
  lemma EntryAfter(b: Bounds, entries: Entries, op: Op, host: Host)
    requires Inv(b, entries) && Find(entries, host).Some? && Find(Step(b, entries, op), host).Some?
    ensures Find(Step(b, entries, op), host).value ==
      if op.Record? && op.host == host && op.reason != OtherReason
      then Counted(Find(entries, host), op.reason, op.now, b.samples)
      else Find(entries, host).value
  {
    var e := Find(Step(b, entries, op), host).value;
    WithoutRemoves(entries, op.host);
    if op.Record? && op.reason != OtherReason {
      var moved := Moved(b, entries, op.host, op.reason, op.now);
      var n := DropsOldest(moved, b.entries);
      assert Slot(host, e) in moved;
    }
    if !(op.Record? && op.host == host && op.reason != OtherReason) {
      ListedIsFound(entries, host, e);
    }
  }

  /**
   Over every run, a full domain that falls under the planner's share stays under it until it is
   dropped; the gap between its counts never grows, and once balanced it stays as it is.
   */
  lemma {:induction false} UnderTheShareUntilDropped(b: Bounds, entries: Entries, ops: seq<Op>, host: Host)
    requires Inv(b, entries) && Held(b, entries, ops, host)
    requires Samples(Find(entries, host).value) == b.samples
    ensures Find(ExecFrom(b, entries, ops), host).Some?
    ensures var e, f := Find(entries, host).value, Find(ExecFrom(b, entries, ops), host).value;
      && Samples(f) == b.samples && Gap(f) <= Gap(e)
      && (Balanced(e) ==> SameCounts(f, e))
      && (!Costly(Observe(e)) ==> !Costly(Observe(f)))
    decreases |ops|
  {
    if ops == [] {
    } else {
      var op := ops[0];
      var e := Find(entries, host).value;
      assert Slot(host, e) in entries;
      StepInv(b, entries, op);
      EntryAfter(b, entries, op, host);
      if op.Record? && op.host == host && op.reason != OtherReason {
        FullStays(e, op.reason, op.now, b.samples);
      }
      UnderTheShareUntilDropped(b, Step(b, entries, op), ops[1..], host);
    }
  }

  /** How many records of the domain a run holds, for one reason. */
  function Tally(ops: seq<Op>, host: Host, reason: Reason): nat
    decreases |ops|
  {
    if ops == [] then 0
    else
      var counts := ops[0].Record? && ops[0].host == host && ops[0].reason == reason;
      (if counts then 1 else 0) + Tally(ops[1..], host, reason)
  }

  /** Over every run, until a domain is full its counts are tallies of its records. */
  lemma {:induction false} TalliesUntilFull(b: Bounds, entries: Entries, ops: seq<Op>, host: Host)
    requires Inv(b, entries) && Held(b, entries, ops, host)
    requires var tally := Tally(ops, host, ClientRenderedShell) + Tally(ops, host, HttpContentSufficient);
      Samples(Find(entries, host).value) + tally <= b.samples
    ensures Find(ExecFrom(b, entries, ops), host).Some?
    ensures var e, f := Find(entries, host).value, Find(ExecFrom(b, entries, ops), host).value;
      && f.shells == e.shells + Tally(ops, host, ClientRenderedShell)
      && f.sufficient == e.sufficient + Tally(ops, host, HttpContentSufficient)
    decreases |ops|
  {
    if ops == [] {
    } else {
      var op, e := ops[0], Find(entries, host).value;
      assert Slot(host, e) in entries;
      StepInv(b, entries, op);
      EntryAfter(b, entries, op, host);
      if op.Record? && op.host == host && op.reason != OtherReason {
        RecordMoves(e, op.reason, op.now, b.samples);
      }
      TalliesUntilFull(b, Step(b, entries, op), ops[1..], host);
    }
  }

  /** The first record of a domain counts one sample of its kind. */
  lemma FirstRecordCounts(b: Bounds, entries: Entries, host: Host, reason: Reason, now: int)
    requires Inv(b, entries) && Find(entries, host).None? && reason != OtherReason && b.samples >= 1
    requires Find(RecordStep(b, entries, host, reason, now), host).Some?
    ensures var e := Find(RecordStep(b, entries, host, reason, now), host).value;
      && e.shells == (if reason == ClientRenderedShell then 1 else 0) && e.shells + e.sufficient == 1
      && e.lastSeenAt == now
  {
    var e := Find(RecordStep(b, entries, host, reason, now), host).value;
    var moved := Moved(b, entries, host, reason, now);
    var n := DropsOldest(moved, b.entries);
    assert Slot(host, e) in moved;
    MovedInv(b, entries, host, reason, now);
    WithoutAbsent(entries, host);
    ListedIsFound(moved, host, Counted(None, reason, now, b.samples));
    ListedIsFound(moved, host, e);
  }

  // ---- What a read answers ----

  /** The nearest hundredth, halves up. */
  lemma HundredthsIsNearest(part: int, whole: int)
    requires 0 <= part <= whole && 0 < whole
    ensures var h := Hundredths(part, whole);
      0 <= h <= 100 && 200 * part - whole < 2 * whole * h <= 200 * part + whole
  {
    var h, x, d := Hundredths(part, whole), 200 * part + whole, 2 * whole;
    assert h * d <= x < h * d + d;
    assert h * d == 2 * whole * h;
    QuotientAtLeast(x, d, 101);
    QuotientAtLeast(x, d, 0);
  }

  /**
   Over every run a read answers exactly for a domain that is held and was recorded at most `ttlMs`
   ago: with all samples of the entry, the share of shells among them to the nearest hundredth, and
   the time of the last record.
   */
  lemma AnswersExactly(b: Bounds, ops: seq<Op>, host: Host, now: int)
    ensures var entries, r := Exec(b, ops), GetResult(b, Exec(b, ops), host, now);
      && (r.Some? <==> exists s :: s in entries && s.key == host && now <= s.value.lastSeenAt + b.ttlMs)
      && (r.Some? ==> forall s :: s in entries && s.key == host ==>
            var e, samples := s.value, s.value.shells + s.value.sufficient;
            && r.value.samples == samples && r.value.lastSeenAt == e.lastSeenAt
            && 0 <= r.value.shellHundredths <= 100
            && (samples == 0 ==> r.value.shellHundredths == 0)
            && (samples > 0 ==>
                  200 * e.shells - samples < 2 * samples * r.value.shellHundredths <= 200 * e.shells + samples))
  {
    RunInv(b, ops);
    var entries := Exec(b, ops);
    forall s | s in entries && s.key == host ensures Find(entries, host) == Some(s.value) {
      assert s == Slot(host, s.value);
      ListedIsFound(entries, host, s.value);
    }
    var found := Find(entries, host);
    if found.Some? {
      var e := found.value;
      assert Slot(host, e) in entries;
      if Samples(e) > 0 {
        HundredthsIsNearest(e.shells, Samples(e));
      }
    }
  }

  // ---- The store, changed in place ----

  class DomainObservationStore {
    var entries: Entries
    const bounds: Bounds

    constructor (maximumEntries: nat, maximumSamplesPerDomain: nat, ttlMs: int)
      ensures entries == [] && bounds == Bounds(maximumEntries, maximumSamplesPerDomain, ttlMs)
    {
      entries := [];
      bounds := Bounds(maximumEntries, maximumSamplesPerDomain, ttlMs);
    }

    method Get(host: Host, now: int) returns (seen: Option<Observation>)
      modifies this
      ensures entries == GetStep(bounds, old(entries), host, now)
      ensures seen == GetResult(bounds, old(entries), host, now)
    {
      var entry := Find(entries, host);
      if entry.None? {
        return None;
      }
      if now - entry.value.lastSeenAt > bounds.ttlMs {
        entries := Without(entries, host);
        return None;
      }
      seen := Some(Observe(entry.value));
    }

    method Record(host: Host, reason: Reason, now: int)
      modifies this
      ensures entries == RecordStep(bounds, old(entries), host, reason, now)
    {
      if reason != ClientRenderedShell && reason != HttpContentSufficient {
        return;
      }
      var found := Find(entries, host);
      var entry := if found.Some? then found.value else Entry(0, 0, now);
      if reason == ClientRenderedShell {
        entry := entry.(shells := entry.shells + 1);
      } else {
        entry := entry.(sufficient := entry.sufficient + 1);
      }
      ghost var added := entry;
      while entry.shells + entry.sufficient > bounds.samples
        invariant TrimCounts(entry, bounds.samples) == TrimCounts(added, bounds.samples)
        decreases Samples(entry) - bounds.samples
      {
        if entry.shells >= entry.sufficient {
          entry := entry.(shells := entry.shells - 1);
        } else {
          entry := entry.(sufficient := entry.sufficient - 1);
        }
      }
      entry := entry.(lastSeenAt := now);
      entries := Without(entries, host);
      entries := entries + [Slot(host, entry)];
      ghost var moved := entries;
      while |entries| > bounds.entries
        invariant Drop(entries, bounds.entries) == Drop(moved, bounds.entries)
        decreases |entries|
      {
        var oldest := entries[0].key;
        if oldest == "" {
          break;
        }
        entries := Without(entries, oldest);
      }
    }
  }
}

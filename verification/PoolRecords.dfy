/** What the records and counters of the pool say about the run that led to them. */
module PoolRecords {
  import opened Wrappers
  import opened PoolSpec
  import opened PoolInvariants
  import opened PoolLeases
  import opened PoolWorkers

  // ---- Told by the events ----

  /** When the launch of a worker succeeded. */
  function LaunchedAt<W(==)>(run: seq<Timed<W>>, w: W): Option<int> {
    if run == [] then None
    else
      var last := run[|run| - 1];
      if last.event.LaunchSucceeds? && last.event.worker == w then Some(last.now) else LaunchedAt(run[..|run| - 1], w)
  }

  predicate Dropped<W(==)>(run: seq<Timed<W>>, w: W) {
    exists i :: 0 <= i < |run| && run[i].event == ConnectionDrops(w)
  }

  /** The reading of the last memory sample that found the worker listed; 0 before any. */
  function LastReading<W(==)>(c: Config, t0: nat, run: seq<Timed<W>>, w: W): real
    requires Exec(c, t0, run).Some?
    decreases |run|
  {
    if run == [] then 0.0
    else
      var before, e := run[..|run| - 1], run[|run| - 1].event;
      if e.Sample? && w in Exec(c, t0, before).value.workers then Get(e.rss, w, 0.0) else LastReading(c, t0, before, w)
  }

  function LastTotal<W>(run: seq<Timed<W>>): real {
    if run == [] then 0.0
    else if run[|run| - 1].event.Sample? then run[|run| - 1].event.totalRssMb
    else LastTotal(run[..|run| - 1])
  }

  /** How many contexts of a worker failed to open. */
  function Failures<W(==)>(c: Config, t0: nat, run: seq<Timed<W>>, w: W): nat
    requires Exec(c, t0, run).Some?
    decreases |run|
  {
    if run == [] then 0
    else
      var before, e := run[..|run| - 1], run[|run| - 1].event;
      Failures(c, t0, before, w)
      + if e.ContextFails? && Exec(c, t0, before).value.tasks[e.task].worker == w then 1 else 0
  }

  // ---- One step ----

  /** What a step leaves or makes of a known worker's record, apart from its state and its counts of leases and jobs. */
  ghost predicate RecordMoves<W>(s: Pool<W>, s': Pool<W>, e: Event<W>, w: W)
    requires Enabled(s, e, s.clock) && w in s.recs
  {
    && w in s'.recs
    && var r, r' := s.recs[w], s'.recs[w];
       && r'.backend == r.backend && r'.profile == r.profile && r'.createdAt == r.createdAt
       && r'.failures == r.failures + One(e.ContextFails? && s.tasks[e.task].worker == w)
       && r'.connected == (r.connected && e != ConnectionDrops(w))
       && r'.rssMb == if e.Sample? && w in s.workers then Get(e.rss, w, 0.0) else r.rssMb
  }

  lemma OtherRecord<W>(c: Config, s: Pool<W>, e: Event<W>, w: W)
    requires Enabled(s, e, s.clock) && w in s.recs
    requires !e.Resume? && !e.Recycle? && !e.ServerCloses?
    ensures RecordMoves(s, Act(c, s, e), e, w)
  {
  }

  lemma SweptRecord<W>(c: Config, s: Pool<W>, t: nat, w: W)
    requires Enabled(s, Resume(t), s.clock) && w in s.recs
    ensures RecordMoves(s, Act(c, s, Resume(t)), Resume(t), w)
  {
    SweepWorker(c, s, s.workers, w);
    ResumeFrame(c, s, t);
  }

  lemma RecordAfter<W>(c: Config, s: Pool<W>, e: Event<W>, w: W)
    requires Enabled(s, e, s.clock) && w in s.recs
    ensures RecordMoves(s, Act(c, s, e), e, w)
  {
    match e
    case Resume(t) => SweptRecord(c, s, t, w);
    case Recycle(t) => RecycleHealth(c, s, t, w);
    case ServerCloses(x) => MarkDeadWorker(c, s, x, w);
    case _ => OtherRecord(c, s, e, w);
  }

  lemma {:induction false} SweepTotals<W>(c: Config, s: Pool<W>, ws: seq<W>)
    requires forall w :: w in ws ==> w in s.recs
    ensures Sweep(c, s, ws).totalRssMb == s.totalRssMb && Sweep(c, s, ws).closed == s.closed
    decreases |ws|
  {
    if ws == [] {
    } else {
      SweepTotals(c, if Lost(s.recs[ws[0]]) then MarkDead(c, s, ws[0]) else s, ws[1..]);
    }
  }

  lemma TotalAfter<W>(c: Config, s: Pool<W>, e: Event<W>)
    requires Enabled(s, e, s.clock)
    ensures Act(c, s, e).totalRssMb == if e.Sample? then e.totalRssMb else s.totalRssMb
    ensures Act(c, s, e).closed == (s.closed || e.Close?)
  {
    if e.Resume? {
      SweepTotals(c, s, s.workers);
      ResumeFrame(c, s, e.task);
    }
  }

  // ---- Over runs ----

  /** The record of a worker is what the run did to it. */
  ghost predicate Tells<W>(c: Config, t0: nat, run: seq<Timed<W>>, w: W)
    requires Exec(c, t0, run).Some?
  {
    var s := Exec(c, t0, run).value;
    && (w in s.recs <==> LaunchedAt(run, w).Some?)
    && (w in s.recs ==>
          && s.recs[w].createdAt == LaunchedAt(run, w).value
          && s.recs[w].failures == Failures(c, t0, run, w)
          && s.recs[w].rssMb == LastReading(c, t0, run, w)
          && s.recs[w].connected == !Dropped(run, w))
    && (w !in s.recs ==>
          w !in s.workers && Failures(c, t0, run, w) == 0 && LastReading(c, t0, run, w) == 0.0 && !Dropped(run, w))
  }

  lemma DroppedAfter<W>(run: seq<Timed<W>>, w: W)
    requires run != []
    ensures Dropped(run, w) <==> Dropped(run[..|run| - 1], w) || run[|run| - 1].event == ConnectionDrops(w)
  {
    var before := run[..|run| - 1];
    forall i | 0 <= i < |before| ensures before[i] == run[i] {
    }
    if Dropped(before, w) {
      var i :| 0 <= i < |before| && before[i].event == ConnectionDrops(w);
      assert run[i].event == ConnectionDrops(w);
    }
  }

  lemma StepTells<W>(c: Config, t0: nat, run: seq<Timed<W>>, w: W)
    requires run != [] && Exec(c, t0, run).Some? && Tells(c, t0, run[..|run| - 1], w)
    ensures Tells(c, t0, run, w)
  {
    var before, last := run[..|run| - 1], run[|run| - 1];
    var s := Tick(Exec(c, t0, before).value, last.now);
    DroppedAfter(run, w);
    KnownAfter(c, s, last.event);
    RunInv(c, t0, before);
    if w in s.recs {
      RecordAfter(c, s, last.event, w);
    } else if w in Act(c, s, last.event).workers {
      ListedAfter(c, s, last.event, w);
    }
  }

  /**
   Over every run the record of a worker says when its launch succeeded, how many of its contexts
   failed to open, what the last memory sample read while it was listed, and whether its connection
   dropped.
   */
  lemma {:induction false} RecordsTell<W>(c: Config, t0: nat, run: seq<Timed<W>>, w: W)
    requires Exec(c, t0, run).Some?
    ensures Tells(c, t0, run, w)
    decreases |run|
  {
    if run == [] {
      StartHasNoWorkers<W>(c, c.poolMin, t0);
    } else {
      RecordsTell(c, t0, run[..|run| - 1], w);
      StepTells(c, t0, run, w);
    }
  }

  lemma StartIsOpen<W>(c: Config, n: nat, t0: nat)
    ensures Start<W>(c, n, t0).totalRssMb == 0.0 && !Start<W>(c, n, t0).closed
  {
  }

  predicate CloseCalled<W>(run: seq<Timed<W>>) {
    exists i :: 0 <= i < |run| && run[i].event.Close?
  }

  lemma CloseCalledAfter<W>(run: seq<Timed<W>>)
    requires run != []
    ensures CloseCalled(run) <==> CloseCalled(run[..|run| - 1]) || run[|run| - 1].event.Close?
  {
    assert forall i :: 0 <= i < |run| - 1 ==> run[..|run| - 1][i] == run[i];
  }

  /** Over every run the memory in use is what the last sample read, and the pool is closed once `close` was called. */
  lemma {:induction false} TotalsTell<W>(c: Config, t0: nat, run: seq<Timed<W>>)
    requires Exec(c, t0, run).Some?
    ensures Exec(c, t0, run).value.totalRssMb == LastTotal(run)
    ensures Exec(c, t0, run).value.closed <==> CloseCalled(run)
    decreases |run|
  {
    if run == [] {
      StartIsOpen<W>(c, c.poolMin, t0);
    } else {
      var before, last := run[..|run| - 1], run[|run| - 1];
      TotalsTell(c, t0, before);
      CloseCalledAfter(run);
      TotalAfter(c, Tick(Exec(c, t0, before).value, last.now), last.event);
    }
  }

  // ---- Counters ----

  lemma LostCount<W>(c: Config, s: Pool<W>, ws: seq<W>)
    requires ws != [] && Distinct(ws) && forall w :: w in ws ==> w in s.recs
    ensures var s1 := if Lost(s.recs[ws[0]]) then MarkDead(c, s, ws[0]) else s;
      |LostIn(s, ws)| == |LostIn(s1, ws[1..])| + One(Lost(s.recs[ws[0]]))
  {
    LostInRest(c, s, ws);
    assert ws[0] !in ws[1..];
  }

  lemma {:induction false} SweepCounts<W>(c: Config, s: Pool<W>, ws: seq<W>)
    requires Distinct(ws) && forall w :: w in ws ==> w in s.recs
    ensures Sweep(c, s, ws).stats == s.stats.(crashes := s.stats.crashes + |LostIn(s, ws)|)
    decreases |ws|
  {
    if ws == [] {
      assert LostIn(s, ws) == {};
    } else {
      LostCount(c, s, ws);
      assert forall i :: 0 <= i < |ws[1..]| ==> ws[1..][i] == ws[i + 1];
      SweepCounts(c, if Lost(s.recs[ws[0]]) then MarkDead(c, s, ws[0]) else s, ws[1..]);
    }
  }

  /** Crashes are workers whose server closed while they were alive, and lost ones that a call found. */
  ghost function Crashes<W>(s: Pool<W>, e: Event<W>): nat
    requires Enabled(s, e, s.clock)
  {
    if e.ServerCloses? then One(s.recs[e.worker].state != Dead)
    else if e.Resume? then |set w | w in s.workers && s.recs[w].state == Healthy && !s.recs[w].connected|
    else 0
  }

  /** Every launch, failure, crash, retirement and replacement is counted once, as what it is. */
  ghost predicate Counted<W>(c: Config, s: Pool<W>, e: Event<W>, n': Stats)
    requires Enabled(s, e, s.clock)
  {
    && n'.launches == s.stats.launches + One(e.LaunchSucceeds?)
    && n'.launchFailures == s.stats.launchFailures + One(e.LaunchFails?)
    && n'.crashes == s.stats.crashes + Crashes(s, e)
    && n'.recycled == s.stats.recycled + One(e.Recycle? && Dies(c, s, e, s.tasks[e.task].worker))
    && n'.replacements == s.stats.replacements + One(e.Settle? && s.tasks[e.task].origin == ForRefill)
  }

  lemma SweepCounted<W>(c: Config, s: Pool<W>, t: nat)
    requires ListInv(s.workers, s.recs) && Enabled(s, Resume(t), s.clock)
    ensures Counted(c, s, Resume(t), Act(c, s, Resume(t)).stats)
  {
    SweepCounts(c, s, s.workers);
    ResumeFrame(c, s, t);
    assert LostIn(s, s.workers) == set w | w in s.workers && s.recs[w].state == Healthy && !s.recs[w].connected;
  }

  lemma LossCounted<W>(c: Config, s: Pool<W>, e: Event<W>)
    requires Enabled(s, e, s.clock) && (e.ServerCloses? || e.Refill?)
    ensures Counted(c, s, e, Act(c, s, e).stats)
  {
  }

  lemma CallCounted<W>(c: Config, s: Pool<W>, e: Event<W>)
    requires Enabled(s, e, s.clock) && IsCall(e) && !e.Refill?
    ensures Counted(c, s, e, Act(c, s, e).stats)
  {
  }

  lemma NoticeCounted<W>(c: Config, s: Pool<W>, e: Event<W>)
    requires Enabled(s, e, s.clock) && IsNotice(e) && !e.ServerCloses?
    ensures Counted(c, s, e, Act(c, s, e).stats)
  {
  }

  lemma CountersAfter<W>(c: Config, s: Pool<W>, e: Event<W>)
    requires ListInv(s.workers, s.recs) && Enabled(s, e, s.clock)
    ensures Counted(c, s, e, Act(c, s, e).stats)
  {
    match e
    case Resume(t) => SweepCounted(c, s, t);
    case ServerCloses(_) => LossCounted(c, s, e);
    case Refill(_) => LossCounted(c, s, e);
    case _ =>
      if IsCall(e) {
        CallCounted(c, s, e);
      } else {
        NoticeCounted(c, s, e);
      }
  }
}

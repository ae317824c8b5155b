/** How leases are counted, and where workers go. */
module PoolLeases {
  import opened Wrappers
  import opened PoolSpec
  import opened PoolInvariants

  // ---- The count of leases ----

  lemma SweepKeepsActive<W>(c: Config, s: Pool<W>, ws: seq<W>)
    requires forall w :: w in ws ==> w in s.recs
    ensures forall w :: w in s.recs ==> Sweep(c, s, ws).recs[w].active == s.recs[w].active
    decreases |ws|
  {
    if ws == [] {
    } else {
      var r := s.recs[ws[0]];
      SweepKeepsActive(c, if r.state == Healthy && !r.connected then MarkDead(c, s, ws[0]) else s, ws[1..]);
    }
  }

  /** Only a call that counts its context and a released one change a count of leases. */
  lemma ActiveAfter<W>(c: Config, s: Pool<W>, e: Event<W>, w: W)
    requires Enabled(s, e, s.clock) && !e.Resume? && w in s.recs
    ensures w in Act(c, s, e).recs
    ensures Act(c, s, e).recs[w].active == s.recs[w].active
      + One(e.Occupy? && s.tasks[e.task].worker == w)
      - One(e.Release? && s.tasks[e.task].worker == w)
  {
    match e
    case Recycle(_) =>
    case ServerCloses(_) =>
    case Refill(_) =>
    case Sample(_, _) =>
    case _ =>
  }

  lemma KnownAfter<W>(c: Config, s: Pool<W>, e: Event<W>)
    requires Enabled(s, e, s.clock)
    ensures forall w :: w in s.recs ==> w in Act(c, s, e).recs
    ensures forall w :: w in Act(c, s, e).recs ==> w in s.recs || (e.LaunchSucceeds? && e.worker == w)
  {
    if e.Resume? {
      SweepKeepsListed(c, s, s.workers);
    }
  }

  lemma StartHasNoWorkers<W>(c: Config, n: nat, t0: nat)
    ensures Start<W>(c, n, t0).recs == map[] && Start<W>(c, n, t0).workers == []
  {
  }

  lemma LeasesOf<W>(tasks: map<nat, Task<W>>, w: W)
    ensures Matching(tasks, LeaseOf(w)) == set t | t in tasks && tasks[t].Leased? && tasks[t].worker == w
  {
  }

  /** Over every run a worker's count of leases is exact. */
  lemma LeasesAreCounted<W>(c: Config, t0: nat, run: seq<Timed<W>>, w: W)
    requires Exec(c, t0, run).Some? && w in Exec(c, t0, run).value.recs
    ensures var s := Exec(c, t0, run).value;
      s.recs[w].active == |set t | t in s.tasks && s.tasks[t].Leased? && s.tasks[t].worker == w|
  {
    RunInv(c, t0, run);
    LeasesOf(Exec(c, t0, run).value.tasks, w);
  }

  // ---- Which calls a step moves ----

  /** Task t moves on, begins or ends; the others stay what they were. */
  ghost predicate MovesOne<W>(s: Pool<W>, s': Pool<W>, t: nat) {
    s'.tasks == s.tasks - {t} || (t in s'.tasks && s'.tasks == s.tasks[t := s'.tasks[t]])
  }

  /** A call past `acquire`, or one that is due, goes on. */
  predicate IsCall<W>(e: Event<W>) {
    || e.LaunchSucceeds? || e.LaunchFails? || e.Settle? || e.Occupy? || e.ContextOpens? || e.ContextFails?
    || e.Release? || e.Recycle? || e.Refill?
  }

  /** A call arrives, or something happens to workers. */
  predicate IsNotice<W>(e: Event<W>) {
    e.Arrive? || e.ServerCloses? || e.ConnectionDrops? || e.Disconnected? || e.Sample? || e.Close?
  }

  lemma CallMovesOne<W>(c: Config, s: Pool<W>, e: Event<W>)
    requires Enabled(s, e, s.clock)
    requires IsCall(e)
    ensures MovesOne(s, Act(c, s, e), e.task)
  {
  }

  lemma MarkDeadMovesOne<W>(c: Config, s: Pool<W>, w: W)
    requires w in s.recs && s.nextTask !in s.tasks
    ensures MovesOne(s, MarkDead(c, s, w), s.nextTask)
  {
  }

  lemma NoticeMovesOne<W>(c: Config, s: Pool<W>, e: Event<W>)
    requires Enabled(s, e, s.clock) && s.nextTask !in s.tasks
    requires IsNotice(e)
    ensures MovesOne(s, Act(c, s, e), s.nextTask)
  {
    if e.ServerCloses? {
      MarkDeadMovesOne(c, s, e.worker);
    } else {
      assert e.Arrive? || Act(c, s, e).tasks == s.tasks;
      assert s.tasks - {s.nextTask} == s.tasks;
    }
  }

  /** A call that moves changes a count of calls by what it was and what it is. */
  lemma MoveCounts<W>(s: Pool<W>, s': Pool<W>, t: nat, q: Query<W>)
    requires MovesOne(s, s', t)
    ensures Count(s'.tasks, q) == Count(s.tasks, q) - One(Hits(s.tasks, t, q)) + One(Hits(s'.tasks, t, q))
  {
    if s'.tasks == s.tasks - {t} {
      CountDrop(s.tasks, t, q);
    } else {
      CountPut(s.tasks, t, s'.tasks[t], q);
    }
  }

  /** The sweep leaves every call as it was. */
  lemma {:induction false} SweepKeepsTask<W>(c: Config, s: Pool<W>, ws: seq<W>, t: nat)
    requires t in s.tasks && t < s.nextTask && forall w :: w in ws ==> w in s.recs
    ensures var r := Sweep(c, s, ws); t in r.tasks && r.tasks[t] == s.tasks[t]
    decreases |ws|
  {
    if ws == [] {
    } else {
      var r := s.recs[ws[0]];
      SweepKeepsTask(c, if r.state == Healthy && !r.connected then MarkDead(c, s, ws[0]) else s, ws[1..], t);
    }
  }

  lemma ReuseMovesOne<W>(c: Config, s: Pool<W>, t: nat, b: Backend, p: Profile)
    requires forall w :: w in s.workers ==> w in s.recs
    ensures MovesOne(s, ReuseOrLaunch(c, s, t, b, p), t)
  {
  }

  lemma ResumeKeepsOther<W>(c: Config, s: Pool<W>, t: nat, b: Backend, p: Profile, u: nat)
    requires u in s.tasks && u < s.nextTask && u != t && forall w :: w in s.workers ==> w in s.recs
    ensures var s' := ResumeAcquire(c, s, t, b, p); u in s'.tasks && s'.tasks[u] == s.tasks[u]
  {
    SweepKeepsTask(c, s, s.workers, u);
    SweepKeepsListed(c, s, s.workers);
    ReuseMovesOne(c, Sweep(c, s, s.workers), t, b, p);
  }

  /** A step leaves every call but its own as it was. */
  lemma StepKeepsOther<W>(c: Config, s: Pool<W>, e: Event<W>, u: nat)
    requires Inv(s) && Enabled(s, e, s.clock) && u in s.tasks
    requires IsNotice(e) || e.task != u
    ensures u in Act(c, s, e).tasks && Act(c, s, e).tasks[u] == s.tasks[u]
  {
    if e.Resume? {
      ResumeKeepsOther(c, s, e.task, s.tasks[e.task].backend, s.tasks[e.task].profile, u);
    } else if IsNotice(e) {
      NoticeMovesOne(c, s, e);
    } else {
      CallMovesOne(c, s, e);
    }
  }

  // ---- Jobs ----

  /** How many contexts of a worker were released in a run. */
  function Releases<W(==)>(c: Config, t0: nat, run: seq<Timed<W>>, w: W): nat
    requires Exec(c, t0, run).Some?
    decreases |run|
  {
    if run == [] then 0
    else
      var before, e := run[..|run| - 1], run[|run| - 1].event;
      Releases(c, t0, before, w) + if e.Release? && Exec(c, t0, before).value.tasks[e.task].worker == w then 1 else 0
  }

  lemma SweepKeepsJobs<W>(c: Config, s: Pool<W>, ws: seq<W>)
    requires forall w :: w in ws ==> w in s.recs
    ensures forall w :: w in s.recs ==> Sweep(c, s, ws).recs[w].jobs == s.recs[w].jobs
    decreases |ws|
  {
    if ws == [] {
    } else {
      var r := s.recs[ws[0]];
      SweepKeepsJobs(c, if r.state == Healthy && !r.connected then MarkDead(c, s, ws[0]) else s, ws[1..]);
    }
  }

  lemma ResumeKeepsJobs<W>(c: Config, s: Pool<W>, t: nat, b: Backend, p: Profile)
    requires forall w :: w in s.workers ==> w in s.recs
    ensures var r := ResumeAcquire(c, s, t, b, p);
      r.recs.Keys == s.recs.Keys && forall w :: w in s.recs ==> r.recs[w].jobs == s.recs[w].jobs
  {
    SweepKeepsJobs(c, s, s.workers);
    SweepKeepsListed(c, s, s.workers);
  }

  lemma JobsAfterCall<W>(c: Config, s: Pool<W>, e: Event<W>, w: W)
    requires Enabled(s, e, s.clock) && w in Act(c, s, e).recs
    requires IsCall(e) && !e.Recycle? && !e.Refill?
    ensures if w in s.recs
      then Act(c, s, e).recs[w].jobs == s.recs[w].jobs + One(e.Release? && s.tasks[e.task].worker == w)
      else Act(c, s, e).recs[w].jobs == 0
  {
  }

  lemma JobsAfterNotice<W>(c: Config, s: Pool<W>, e: Event<W>, w: W)
    requires Enabled(s, e, s.clock)
    requires e.Arrive? || e.Refill? || e.ConnectionDrops? || e.Disconnected? || e.Sample? || e.Close?
    ensures w in Act(c, s, e).recs <==> w in s.recs
    ensures w in s.recs ==> Act(c, s, e).recs[w].jobs == s.recs[w].jobs
  {
  }

  lemma JobsAfterLoss<W>(c: Config, s: Pool<W>, e: Event<W>, w: W)
    requires Enabled(s, e, s.clock) && (e.Recycle? || e.ServerCloses?)
    ensures w in Act(c, s, e).recs <==> w in s.recs
    ensures w in s.recs ==> Act(c, s, e).recs[w].jobs == s.recs[w].jobs
  {
  }

  lemma JobsAfter<W>(c: Config, s: Pool<W>, e: Event<W>, w: W)
    requires Enabled(s, e, s.clock) && w in Act(c, s, e).recs
    ensures if w in s.recs
      then Act(c, s, e).recs[w].jobs == s.recs[w].jobs + One(e.Release? && s.tasks[e.task].worker == w)
      else Act(c, s, e).recs[w].jobs == 0
  {
    if e.Resume? {
      ResumeKeepsJobs(c, s, e.task, s.tasks[e.task].backend, s.tasks[e.task].profile);
    } else if IsCall(e) && !e.Recycle? && !e.Refill? {
      JobsAfterCall(c, s, e, w);
    } else if e.Recycle? || e.ServerCloses? {
      JobsAfterLoss(c, s, e, w);
    } else {
      JobsAfterNotice(c, s, e, w);
    }
  }

  /** Over every run a worker's count of jobs is the number of its released contexts. */
  lemma {:induction false} JobsAreReleases<W>(c: Config, t0: nat, run: seq<Timed<W>>, w: W)
    requires Exec(c, t0, run).Some?
    ensures var recs := Exec(c, t0, run).value.recs;
      Releases(c, t0, run, w) == if w in recs then recs[w].jobs else 0
    decreases |run|
  {
    if run == [] {
      StartHasNoWorkers<W>(c, c.poolMin, t0);
    } else {
      var before, e, now := run[..|run| - 1], run[|run| - 1].event, run[|run| - 1].now;
      var s := Tick(Exec(c, t0, before).value, now);
      JobsAreReleases(c, t0, before, w);
      KnownAfter(c, s, e);
      if w in Act(c, s, e).recs {
        JobsAfter(c, s, e, w);
      }
    }
  }

  // ---- Leaving the list ----

  /** A step lists at most the worker its launch just produced. */
  lemma ListedAfter<W>(c: Config, s: Pool<W>, e: Event<W>, w: W)
    requires Enabled(s, e, s.clock) && w in Act(c, s, e).workers
    ensures w in s.workers || (e.LaunchSucceeds? && e.worker == w)
  {
    match e
    case Resume(t) => SweepKeepsListed(c, s, s.workers);
    case Recycle(t) => RemoveSubset(s.workers, s.tasks[t].worker);
    case ServerCloses(x) => RemoveSubset(s.workers, x);
    case _ =>
  }

  /** What left the list stays off it. */
  lemma UnlistedForGood<W>(c: Config, s0: Pool<W>, e: Event<W>, now: int, w: W)
    requires Enabled(s0, e, now)
    requires w in s0.recs && w !in s0.workers
    ensures w in Apply(c, s0, e, now).recs && w !in Apply(c, s0, e, now).workers
  {
    var s := Tick(s0, now);
    KnownAfter(c, s, e);
    if w in Act(c, s, e).workers {
      ListedAfter(c, s, e, w);
    }
  }

  /** Once off the list in some run, off the list and unhealthy in every continuation of it. */
  lemma {:induction false} UnlistedInEveryContinuation<W>(c: Config, t0: nat, run: seq<Timed<W>>, n: nat, w: W)
    requires n <= |run| && Exec(c, t0, run).Some? && Exec(c, t0, run[..n]).Some?
    requires var s := Exec(c, t0, run[..n]).value; w in s.recs && w !in s.workers
    ensures var s := Exec(c, t0, run).value; w in s.recs && w !in s.workers && s.recs[w].state != Healthy
    decreases |run|
  {
    if n == |run| {
      assert run[..n] == run;
      RunInv(c, t0, run);
    } else {
      var before := run[..|run| - 1];
      assert before[..n] == run[..n];
      UnlistedInEveryContinuation(c, t0, before, n, w);
      RunInv(c, t0, run);
      UnlistedForGood(c, Exec(c, t0, before).value, run[|run| - 1].event, run[|run| - 1].now, w);
    }
  }

  /** `recycle` takes a worker off the list only when no context is open on it. */
  lemma RecycleRetiresLeaseFree<W>(c: Config, s0: Pool<W>, t: nat, now: int, w: W)
    requires Inv(s0) && Enabled(s0, Recycle(t), now)
    requires w in s0.workers && w !in Apply(c, s0, Recycle(t), now).workers
    ensures w == s0.tasks[t].worker
    ensures forall u :: u in s0.tasks && s0.tasks[u].Leased? ==> s0.tasks[u].worker != w
  {
    var s := Tick(s0, now);
    RemoveDistinct(s.workers, s.tasks[t].worker);
    forall u | u in s0.tasks && s0.tasks[u].Leased? ensures s0.tasks[u].worker != w {
      if s0.tasks[u].worker == w {
        CountSome(s0.tasks, u, LeaseOf(w));
      }
    }
  }

  lemma SomeHold<W>(tasks: map<nat, Task<W>>, w: W) returns (t: nat)
    requires Count(tasks, HoldOn(w)) >= 1
    ensures t in tasks && (tasks[t].Leased? || tasks[t].Released?) && tasks[t].worker == w
  {
    var held := Matching(tasks, HoldOn(w));
    t :| t in held;
  }

  /** A listed draining worker that is still connected has an open context or a `recycle` to come. */
  lemma NoneStranded<W>(c: Config, t0: nat, run: seq<Timed<W>>, w: W) returns (t: nat)
    requires Exec(c, t0, run).Some?
    requires var s := Exec(c, t0, run).value;
      w in s.workers && w in s.recs && s.recs[w].state == Draining && s.recs[w].connected
    ensures var s := Exec(c, t0, run).value;
      t in s.tasks && (s.tasks[t].Leased? || s.tasks[t].Released?) && s.tasks[t].worker == w
  {
    RunInv(c, t0, run);
    t := SomeHold(Exec(c, t0, run).value.tasks, w);
  }

  /** Listed workers are distinct and alive, whatever happened before. */
  lemma ListedAreAlive<W>(c: Config, t0: nat, run: seq<Timed<W>>)
    requires Exec(c, t0, run).Some?
    ensures var s := Exec(c, t0, run).value;
      && (forall i, j :: 0 <= i < j < |s.workers| ==> s.workers[i] != s.workers[j])
      && (forall w :: w in s.workers ==> w in s.recs && s.recs[w].state != Dead)
  {
    RunInv(c, t0, run);
  }

  // ---- Building runs ----

  lemma Extend<W>(c: Config, t0: nat, run: seq<Timed<W>>, s: Pool<W>, e: Event<W>, now: int)
      returns (longer: seq<Timed<W>>)
    requires Exec(c, t0, run) == Some(s) && Enabled(s, e, now)
    ensures Exec(c, t0, longer) == Some(Apply(c, s, e, now))
  {
    longer := run + [Timed(e, now)];
    assert longer[..|longer| - 1] == run;
  }

  /** One place per worker, and no thresholds in reach. */
  function SmallConfig(poolMin: nat, maxJobs: nat): Config {
    Config(poolMin, 1, 1, 3, 1000, maxJobs, 1800000, 900.0, 1536.0, "a", "a")
  }
}

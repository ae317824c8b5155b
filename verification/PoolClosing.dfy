/** What `close` does not stop: calls that were past their check, and launches under way. */
module PoolClosing {
  import opened Wrappers
  import opened PoolSpec
  import opened PoolInvariants
  import opened PoolLeases
  import opened PoolBackoff
  import opened PoolRuns

  /** Listed workers, and calls that may still list one. */
  ghost function Potential<W>(s: Pool<W>): nat {
    |s.workers| + Count(s.tasks, Unfinished)
  }

  /** A closed pool in which s' came after s: still closed, with no more workers to come. */
  ghost predicate WindsDown<W>(s: Pool<W>, s': Pool<W>) {
    s'.closed && Potential(s') <= Potential(s)
  }

  lemma RemoveShortens<W>(ws: seq<W>, w: W)
    ensures |Remove(ws, w)| <= |ws|
  {
  }

  lemma MarkDeadWindsDown<W>(c: Config, s: Pool<W>, w: W)
    requires s.closed && w in s.recs
    ensures WindsDown(s, MarkDead(c, s, w))
  {
    RemoveShortens(s.workers, w);
    CountDrop(s.tasks, s.nextTask, Unfinished);
  }

  lemma {:induction false} SweepWindsDown<W>(c: Config, s: Pool<W>, ws: seq<W>)
    requires s.closed && forall w :: w in ws ==> w in s.recs
    ensures WindsDown(s, Sweep(c, s, ws))
    decreases |ws|
  {
    if ws == [] {
    } else {
      var r := s.recs[ws[0]];
      MarkDeadWindsDown(c, s, ws[0]);
      SweepWindsDown(c, if r.state == Healthy && !r.connected then MarkDead(c, s, ws[0]) else s, ws[1..]);
    }
  }

  /** A waiting call that leases, launches or is refused lists no worker. */
  lemma ReuseWindsDown<W>(c: Config, s: Pool<W>, t: nat, b: Backend, p: Profile)
    requires s.closed && t in s.tasks && s.tasks[t].Acquiring?
    requires forall w :: w in s.workers ==> w in s.recs
    ensures WindsDown(s, ReuseOrLaunch(c, s, t, b, p))
  {
    var s' := ReuseOrLaunch(c, s, t, b, p);
    CountDrop(s.tasks, t, Unfinished);
    if t in s'.tasks {
      CountPut(s.tasks, t, s'.tasks[t], Unfinished);
    }
  }

  lemma ResumeWindsDown<W>(c: Config, s: Pool<W>, t: nat)
    requires s.closed && Inv(s) && t in s.tasks && s.tasks[t].Acquiring?
    ensures WindsDown(s, ResumeAcquire(c, s, t, s.tasks[t].backend, s.tasks[t].profile))
  {
    SweepWindsDown(c, s, s.workers);
    SweepKeepsListed(c, s, s.workers);
    SweepKeepsTask(c, s, s.workers, t);
    ReuseWindsDown(c, Sweep(c, s, s.workers), t, s.tasks[t].backend, s.tasks[t].profile);
  }

  /** A step of one call that begins no launch. */
  lemma CallWindsDown<W>(c: Config, s: Pool<W>, e: Event<W>)
    requires s.closed && Enabled(s, e, s.clock)
    requires IsCall(e) && !e.Recycle? && !e.Refill?
    ensures WindsDown(s, Act(c, s, e))
  {
    var t, s' := e.task, Act(c, s, e);
    CountDrop(s.tasks, t, Unfinished);
    if t in s'.tasks {
      CountPut(s.tasks, t, s'.tasks[t], Unfinished);
    }
  }

  lemma RecycleWindsDown<W>(c: Config, s: Pool<W>, t: nat)
    requires s.closed && Enabled(s, Recycle(t), s.clock)
    ensures WindsDown(s, RecycleStep(c, s, t))
  {
    var w := s.tasks[t].worker;
    RemoveShortens(s.workers, w);
    CountDrop(s.tasks, t, Unfinished);
    CountPut(s.tasks, t, Refilling(s.recs[w].backend), Unfinished);
  }

  lemma StepWindsDown<W>(c: Config, s: Pool<W>, e: Event<W>)
    requires s.closed && Inv(s) && Enabled(s, e, s.clock)
    ensures WindsDown(s, Act(c, s, e))
  {
    match e
    case Arrive(_, _) =>
    case Resume(t) => ResumeWindsDown(c, s, t);
    case Recycle(t) => RecycleWindsDown(c, s, t);
    case Refill(t) => CountDrop(s.tasks, t, Unfinished);
    case ServerCloses(w) => MarkDeadWindsDown(c, s, w);
    case ConnectionDrops(_) =>
    case Disconnected(_) =>
    case Sample(_, _) =>
    case Close =>
    case _ => CallWindsDown(c, s, e);
  }

  // ---- Over runs ----

  /**
   A pool that was closed stays closed, and lists at most one worker for each call that was
   unfinished then.
   */
  lemma {:induction false} ClosedPoolWindsDown<W>(c: Config, t0: nat, run: seq<Timed<W>>, n: nat)
    requires n < |run| && Exec(c, t0, run).Some? && run[n].event == Close
    ensures Exec(c, t0, run[..n]).Some?
    ensures var s := Exec(c, t0, run).value;
      s.closed && Potential(s) <= Count(Exec(c, t0, run[..n]).value.tasks, Unfinished)
    decreases |run|
  {
    var m := |run| - 1;
    var before, e, now := run[..m], run[m].event, run[m].now;
    if n < m {
      assert before[..n] == run[..n];
      ClosedPoolWindsDown(c, t0, before, n);
      RunInv(c, t0, before);
      var s := Exec(c, t0, before).value;
      assert Inv(Tick(s, now)) && Potential(Tick(s, now)) == Potential(s);
      StepWindsDown(c, Tick(s, now), e);
    }
  }

  // ---- Exactly when a closed pool grows ----

  lemma GrowsBySuccess<W>(c: Config, s: Pool<W>, e: Event<W>)
    requires Enabled(s, e, s.clock) && !e.Resume?
    ensures |Act(c, s, e).workers| > |s.workers| <==> e.LaunchSucceeds?
  {
    match e
    case Recycle(t) => RemoveShortens(s.workers, s.tasks[t].worker);
    case ServerCloses(w) => RemoveShortens(s.workers, w);
    case _ =>
  }

  lemma {:induction false} SweepShortens<W>(c: Config, s: Pool<W>, ws: seq<W>)
    requires forall w :: w in ws ==> w in s.recs
    ensures |Sweep(c, s, ws).workers| <= |s.workers|
    decreases |ws|
  {
    if ws == [] {
    } else {
      var r := s.recs[ws[0]];
      RemoveShortens(s.workers, ws[0]);
      SweepShortens(c, if r.state == Healthy && !r.connected then MarkDead(c, s, ws[0]) else s, ws[1..]);
    }
  }

  lemma ReuseListsNone<W>(c: Config, s: Pool<W>, t: nat, b: Backend, p: Profile)
    requires forall w :: w in s.workers ==> w in s.recs
    ensures ReuseOrLaunch(c, s, t, b, p).workers == s.workers
  {
  }

  /** The list grows exactly when a launch succeeds, whether or not the pool was closed meanwhile. */
  lemma GrowsExactly<W>(c: Config, s0: Pool<W>, e: Event<W>, now: int)
    requires Enabled(s0, e, now)
    ensures |Apply(c, s0, e, now).workers| > |s0.workers| <==> e.LaunchSucceeds?
  {
    var s := Tick(s0, now);
    if e.Resume? {
      SweepShortens(c, s, s.workers);
      SweepKeepsListed(c, s, s.workers);
      ReuseListsNone(c, Sweep(c, s, s.workers), e.task, s.tasks[e.task].backend, s.tasks[e.task].profile);
    } else {
      GrowsBySuccess(c, s, e);
    }
  }

  /** A call past the check of `acquire` finds nothing to reuse, and room, memory and no pause in its way. */
  predicate LaunchesOnResume<W(==)>(c: Config, s: Pool<W>, t: nat)
    requires t in s.tasks && s.tasks[t].Acquiring?
    requires forall w :: w in s.workers ==> w in s.recs
  {
    var swept := Sweep(c, s, s.workers);
    SweepKeepsListed(c, s, s.workers);
    && Select(c, swept.recs, swept.workers, s.tasks[t].backend, s.tasks[t].profile).None?
    && s.totalRssMb < c.softMb
    && |swept.workers| + s.launch.total < c.poolMax
    && Get(s.backoff.nextLaunchAt, s.tasks[t].backend, 0) <= s.clock
  }

  ghost predicate BeginsLaunch<W>(s: Pool<W>, s': Pool<W>) {
    exists u :: NewLaunch(s, s', u)
  }

  /** In a closed pool the sweep only takes workers off the list: nothing is refilled. */
  lemma {:induction false} ClosedSweep<W>(c: Config, s: Pool<W>, ws: seq<W>)
    requires s.closed && s.nextTask !in s.tasks && forall t :: t in s.tasks ==> t < s.nextTask
    requires forall w :: w in ws ==> w in s.recs
    ensures var r := Sweep(c, s, ws);
      && r.tasks == s.tasks && r.launch == s.launch && r.backoff == s.backoff
      && r.clock == s.clock && r.totalRssMb == s.totalRssMb
    decreases |ws|
  {
    if ws == [] {
    } else {
      var r := s.recs[ws[0]];
      ClosedSweep(c, if r.state == Healthy && !r.connected then MarkDead(c, s, ws[0]) else s, ws[1..]);
    }
  }

  lemma ClosedResumeLaunches<W>(c: Config, s: Pool<W>, t: nat)
    requires s.closed && Inv(s) && t in s.tasks && s.tasks[t].Acquiring?
    ensures BeginsLaunch(s, ResumeAcquire(c, s, t, s.tasks[t].backend, s.tasks[t].profile)) <==>
      LaunchesOnResume(c, s, t)
  {
    var s' := ResumeAcquire(c, s, t, s.tasks[t].backend, s.tasks[t].profile);
    ClosedSweep(c, s, s.workers);
    SweepKeepsListed(c, s, s.workers);
    if LaunchesOnResume(c, s, t) {
      assert NewLaunch(s, s', t);
    }
  }

  lemma ClosedOthersLaunchNone<W>(c: Config, s: Pool<W>, e: Event<W>, u: nat)
    requires s.closed && Enabled(s, e, s.clock) && !e.Resume?
    ensures !NewLaunch(s, Act(c, s, e), u)
  {
    match e
    case ServerCloses(_) =>
    case Refill(_) =>
    case _ =>
  }

  lemma TickLaunchesSame<W>(s0: Pool<W>, s: Pool<W>, s': Pool<W>)
    requires s0.tasks == s.tasks
    ensures BeginsLaunch(s0, s') <==> BeginsLaunch(s, s')
  {
    if u :| NewLaunch(s0, s', u) {
      assert NewLaunch(s, s', u);
    }
    if u :| NewLaunch(s, s', u) {
      assert NewLaunch(s0, s', u);
    }
  }

  /** A closed pool begins a launch exactly when a call that was past its check finds it must launch. */
  lemma ClosedLaunchesExactly<W>(c: Config, s0: Pool<W>, e: Event<W>, now: int)
    requires s0.closed && Inv(s0) && Enabled(s0, e, now)
    ensures BeginsLaunch(s0, Apply(c, s0, e, now)) <==> e.Resume? && LaunchesOnResume(c, Tick(s0, now), e.task)
  {
    var s := Tick(s0, now);
    assert Inv(s);
    TickLaunchesSame(s0, s, Act(c, s, e));
    if e.Resume? {
      ClosedResumeLaunches(c, s, e.task);
    } else {
      forall u ensures !NewLaunch(s, Act(c, s, e), u) {
        ClosedOthersLaunchNone(c, s, e, u);
      }
    }
  }

  // ---- A run in which it does ----

  /** Call 0 launches a worker. */
  function Launches(): Pool<nat> {
    Empty<nat>(0).(tasks := map[0 := Starting("a", "a", ForCaller, 0, 2)], nextTask := 1,
                   launch := InFlight(1, map["a" := 1]), steps := 2)
  }

  function ClosedEarly(): Pool<nat> {
    Launches().(closed := true, steps := 3)
  }

  /** The pool was closed, the launch ended, and worker 7 is listed and healthy. */
  function ListedLate(): Pool<nat> {
    HalfLaunched().(closed := true, tasks := map[0 := Settling(7, "a", ForCaller)], nextTask := 1, steps := 4)
  }

  lemma ReachClosedEarly() returns (run: seq<Timed<nat>>)
    ensures Exec(SmallConfig(0, 200), 0, run) == Some(ClosedEarly())
  {
    var c := SmallConfig(0, 200);
    var s1: Pool<nat> := Empty<nat>(0).(tasks := map[0 := Acquiring("a", "a")], nextTask := 1, steps := 1);
    assert Apply(c, Empty(0), Arrive("a", "a"), 0) == s1;
    assert Apply(c, s1, Resume(0), 0) == Launches();
    assert Apply(c, Launches(), Close, 0) == ClosedEarly();
    run := [];
    run := Extend(c, 0, run, Empty(0), Arrive("a", "a"), 0);
    run := Extend(c, 0, run, s1, Resume(0), 0);
    run := Extend(c, 0, run, Launches(), Close, 0);
  }

  /** A closed pool can list a healthy worker. */
  lemma ClosedPoolCanList() returns (run: seq<Timed<nat>>)
    ensures Exec(SmallConfig(0, 200), 0, run) == Some(ListedLate())
    ensures ListedLate().closed && ListedLate().workers == [7] && ListedLate().recs[7].state == Healthy
  {
    run := ReachClosedEarly();
    assert Apply(SmallConfig(0, 200), ClosedEarly(), LaunchSucceeds(0, 7), 0) == ListedLate();
    run := Extend(SmallConfig(0, 200), 0, run, ClosedEarly(), LaunchSucceeds(0, 7), 0);
  }
}

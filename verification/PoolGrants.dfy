/**
 From a grant to its count: `acquire` returns a worker, and `withContext` counts the context in a
 later microtask. What may happen in between, and what it does to the number of contexts and to
 the worker.
 */
module PoolGrants {
  import opened Wrappers
  import opened PoolSpec
  import opened PoolInvariants
  import opened PoolLeases

  // ---- Counts and promises ----

  ghost predicate WithinPlaces<W>(c: Config, s: Pool<W>) {
    forall w :: w in s.recs ==> s.recs[w].active <= c.contexts
  }

  /** A call counts its context on a worker that is full by then. */
  predicate OccupiesFull<W(==)>(c: Config, s: Pool<W>, e: Event<W>)
    requires Enabled(s, e, s.clock)
  {
    e.Occupy? && s.recs[s.tasks[e.task].worker].active >= c.contexts
  }

  lemma ActiveAfterResume<W>(c: Config, s: Pool<W>, t: nat, b: Backend, p: Profile)
    requires forall w :: w in s.workers ==> w in s.recs
    ensures var r := ResumeAcquire(c, s, t, b, p);
      r.recs.Keys == s.recs.Keys && forall w :: w in s.recs ==> r.recs[w].active == s.recs[w].active
  {
    SweepKeepsActive(c, s, s.workers);
    SweepKeepsListed(c, s, s.workers);
  }

  /** From a pool within its contexts, a step exceeds them exactly when it counts a grant on a full worker. */
  lemma PlacesExceededExactly<W>(c: Config, s0: Pool<W>, e: Event<W>, now: int)
    requires Enabled(s0, e, now) && WithinPlaces(c, s0)
    ensures WithinPlaces(c, Apply(c, s0, e, now)) <==> !OccupiesFull(c, Tick(s0, now), e)
  {
    var s := Tick(s0, now);
    if e.Resume? {
      ActiveAfterResume(c, s, e.task, s.tasks[e.task].backend, s.tasks[e.task].profile);
    } else {
      KnownAfter(c, s, e);
      forall w | w in s.recs
        ensures Act(c, s, e).recs[w].active <= c.contexts <==>
          !(OccupiesFull(c, s, e) && s.tasks[e.task].worker == w)
      {
        ActiveAfter(c, s, e, w);
      }
    }
  }

  /** Contexts counted on a worker, and granted but not yet counted. */
  ghost function Promised<W>(s: Pool<W>, w: W): int
    requires w in s.recs
  {
    s.recs[w].active + Count(s.tasks, GrantOf(w))
  }

  ghost predicate WithinPromises<W>(c: Config, s: Pool<W>) {
    forall w :: w in s.recs ==> Promised(s, w) <= c.contexts
  }

  /** The worker that a call which resumes would reuse. */
  function Choice<W(==)>(c: Config, s: Pool<W>, t: nat): (r: Option<W>)
    requires t in s.tasks && s.tasks[t].Acquiring?
    requires forall w :: w in s.workers ==> w in s.recs
    ensures r.Some? ==> r.value in s.recs
  {
    SweepKeepsListed(c, s, s.workers);
    var swept := Sweep(c, s, s.workers);
    Select(c, swept.recs, swept.workers, s.tasks[t].backend, s.tasks[t].profile)
  }

  /** The step makes a call choose, or a launcher bring back, this worker. */
  predicate GrantsOn<W(==)>(c: Config, s: Pool<W>, e: Event<W>, w: W)
    requires Enabled(s, e, s.clock)
  {
    || (e.Resume? && Choice(c, s, e.task) == Some(w))
    || (e.Settle? && s.tasks[e.task].origin == ForCaller && s.tasks[e.task].worker == w)
  }

  ghost predicate GrantsFull<W>(c: Config, s: Pool<W>, e: Event<W>)
    requires Enabled(s, e, s.clock)
  {
    exists w :: w in s.recs && GrantsOn(c, s, e, w) && Promised(s, w) >= c.contexts
  }

  lemma ReplenishGrants<W>(c: Config, s: Pool<W>, t: nat, b: Backend, x: W)
    requires t in s.tasks ==> !s.tasks[t].Granted?
    ensures Count(Replenish(c, s, t, b).tasks, GrantOf(x)) == Count(s.tasks, GrantOf(x))
  {
    CountDrop(s.tasks, t, GrantOf(x));
    CountPut(s.tasks, t, Starting(b, c.defaultProfile, ForRefill, s.clock, s.steps), GrantOf(x));
  }

  lemma MarkDeadGrants<W>(c: Config, s: Pool<W>, w: W, x: W)
    requires w in s.recs && s.nextTask !in s.tasks
    ensures Count(MarkDead(c, s, w).tasks, GrantOf(x)) == Count(s.tasks, GrantOf(x))
  {
    if s.recs[w].state != Dead {
      ReplenishGrants(c, Bury(s, w), s.nextTask, s.recs[w].backend, x);
    }
  }

  lemma {:induction false} SweepGrants<W>(c: Config, s: Pool<W>, ws: seq<W>, x: W)
    requires Inv(s) && forall w :: w in ws ==> w in s.recs
    ensures Count(Sweep(c, s, ws).tasks, GrantOf(x)) == Count(s.tasks, GrantOf(x))
    decreases |ws|
  {
    if ws == [] {
    } else {
      var r := s.recs[ws[0]];
      MarkDeadGrants(c, s, ws[0], x);
      MarkDeadInv(c, s, ws[0]);
      SweepGrants(c, if r.state == Healthy && !r.connected then MarkDead(c, s, ws[0]) else s, ws[1..], x);
    }
  }

  lemma ReuseGrants<W>(c: Config, s: Pool<W>, t: nat, b: Backend, p: Profile, x: W)
    requires t in s.tasks && s.tasks[t].Acquiring? && forall w :: w in s.workers ==> w in s.recs
    ensures Count(ReuseOrLaunch(c, s, t, b, p).tasks, GrantOf(x)) ==
      Count(s.tasks, GrantOf(x)) + One(Select(c, s.recs, s.workers, b, p) == Some(x))
  {
    var s' := ReuseOrLaunch(c, s, t, b, p);
    CountDrop(s.tasks, t, GrantOf(x));
    if t in s'.tasks {
      CountPut(s.tasks, t, s'.tasks[t], GrantOf(x));
    }
  }

  lemma ResumePromises<W>(c: Config, s: Pool<W>, t: nat, w: W)
    requires Inv(s) && t in s.tasks && s.tasks[t].Acquiring? && w in s.recs
    ensures var s' := ResumeAcquire(c, s, t, s.tasks[t].backend, s.tasks[t].profile);
      w in s'.recs && Promised(s', w) == Promised(s, w) + One(Choice(c, s, t) == Some(w))
  {
    ActiveAfterResume(c, s, t, s.tasks[t].backend, s.tasks[t].profile);
    SweepGrants(c, s, s.workers, w);
    SweepKeepsListed(c, s, s.workers);
    SweepKeepsTask(c, s, s.workers, t);
    ReuseGrants(c, Sweep(c, s, s.workers), t, s.tasks[t].backend, s.tasks[t].profile, w);
  }

  /** What a step of one call past `acquire` does to the grants on a worker. */
  lemma CallGrants<W>(c: Config, s: Pool<W>, e: Event<W>, w: W)
    requires Enabled(s, e, s.clock)
    requires e.LaunchSucceeds? || e.LaunchFails? || e.Settle? || e.Occupy? || e.ContextOpens? || e.ContextFails?
      || e.Release? || e.Recycle?
    ensures Count(Act(c, s, e).tasks, GrantOf(w)) ==
      Count(s.tasks, GrantOf(w)) - One(e.Occupy? && s.tasks[e.task].worker == w) + One(GrantsOn(c, s, e, w))
  {
    CallMovesOne(c, s, e);
    MoveCounts(s, Act(c, s, e), e.task, GrantOf(w));
  }

  lemma CallPromises<W>(c: Config, s: Pool<W>, e: Event<W>, w: W)
    requires Enabled(s, e, s.clock) && w in s.recs
    requires e.LaunchSucceeds? || e.LaunchFails? || e.Settle? || e.Occupy? || e.ContextOpens? || e.ContextFails?
      || e.Release? || e.Recycle?
    ensures w in Act(c, s, e).recs
    ensures Promised(Act(c, s, e), w) ==
      Promised(s, w) + One(GrantsOn(c, s, e, w)) - One(e.Release? && s.tasks[e.task].worker == w)
  {
    KnownAfter(c, s, e);
    ActiveAfter(c, s, e, w);
    CallGrants(c, s, e, w);
  }

  lemma RefillPromises<W>(c: Config, s: Pool<W>, t: nat, w: W)
    requires Enabled(s, Refill(t), s.clock) && w in s.recs
    ensures var s' := Act(c, s, Refill(t)); w in s'.recs && Promised(s', w) == Promised(s, w)
  {
    ReplenishGrants(c, s, t, s.tasks[t].backend, w);
  }

  /** No notice grants a worker: what it may begin is a call or a launch. */
  lemma NoticeGrants<W>(c: Config, s: Pool<W>, e: Event<W>, w: W)
    requires s.nextTask !in s.tasks && Enabled(s, e, s.clock) && IsNotice(e)
    ensures Count(Act(c, s, e).tasks, GrantOf(w)) == Count(s.tasks, GrantOf(w))
  {
    if e.ServerCloses? {
      MarkDeadGrants(c, s, e.worker, w);
    } else if e.Arrive? {
      CountPut(s.tasks, s.nextTask, Acquiring(e.backend, e.profile), GrantOf(w));
    }
  }

  lemma NoticePromises<W>(c: Config, s: Pool<W>, e: Event<W>, w: W)
    requires Inv(s) && Enabled(s, e, s.clock) && w in s.recs
    requires IsNotice(e)
    ensures w in Act(c, s, e).recs && Promised(Act(c, s, e), w) == Promised(s, w)
  {
    KnownAfter(c, s, e);
    ActiveAfter(c, s, e, w);
    NoticeGrants(c, s, e, w);
  }

  /** A worker's promises grow by a grant on it and shrink by a released context, and otherwise stay. */
  lemma PromisedAfter<W>(c: Config, s: Pool<W>, e: Event<W>, w: W)
    requires Inv(s) && Enabled(s, e, s.clock) && w in s.recs
    ensures w in Act(c, s, e).recs
    ensures Promised(Act(c, s, e), w) ==
      Promised(s, w) + One(GrantsOn(c, s, e, w)) - One(e.Release? && s.tasks[e.task].worker == w)
  {
    match e
    case Resume(t) => ResumePromises(c, s, t, w);
    case Refill(t) => RefillPromises(c, s, t, w);
    case Arrive(_, _) => NoticePromises(c, s, e, w);
    case ServerCloses(_) => NoticePromises(c, s, e, w);
    case ConnectionDrops(_) => NoticePromises(c, s, e, w);
    case Disconnected(_) => NoticePromises(c, s, e, w);
    case Sample(_, _) => NoticePromises(c, s, e, w);
    case Close => NoticePromises(c, s, e, w);
    case _ => CallPromises(c, s, e, w);
  }

  /** A worker just listed has no context counted or promised. */
  lemma NewWorkerPromised<W>(c: Config, s: Pool<W>, t: nat, w: W)
    requires Inv(s) && Enabled(s, LaunchSucceeds(t, w), s.clock)
    ensures Promised(LaunchSucceedsStep(s, t, w), w) == 0
  {
    var s' := LaunchSucceedsStep(s, t, w);
    assert Matching(s'.tasks, GrantOf(w)) == {};
  }

  /** The promises of every worker after a step. */
  lemma PromisesAfter<W>(c: Config, s: Pool<W>, e: Event<W>)
    requires Inv(s) && Enabled(s, e, s.clock)
    ensures forall w :: w in s.recs ==>
      && w in Act(c, s, e).recs
      && Promised(Act(c, s, e), w) ==
           Promised(s, w) + One(GrantsOn(c, s, e, w)) - One(e.Release? && s.tasks[e.task].worker == w)
    ensures forall w :: w in Act(c, s, e).recs && w !in s.recs ==> Promised(Act(c, s, e), w) == 0
  {
    KnownAfter(c, s, e);
    forall w | w in s.recs
      ensures w in Act(c, s, e).recs && Promised(Act(c, s, e), w) ==
        Promised(s, w) + One(GrantsOn(c, s, e, w)) - One(e.Release? && s.tasks[e.task].worker == w)
    {
      PromisedAfter(c, s, e, w);
    }
    if e.LaunchSucceeds? {
      NewWorkerPromised(c, s, e.task, e.worker);
    }
  }

  lemma TickPromises<W>(c: Config, s: Pool<W>, now: int)
    requires Inv(s)
    ensures Inv(Tick(s, now)) && (WithinPromises(c, Tick(s, now)) <==> WithinPromises(c, s))
  {
    assert forall w :: w in s.recs ==> Promised(Tick(s, now), w) == Promised(s, w);
  }

  /** From a pool that promised no more than its contexts, a step does exactly when it grants a full worker. */
  lemma PromisesExceededExactly<W>(c: Config, s0: Pool<W>, e: Event<W>, now: int)
    requires Inv(s0) && Enabled(s0, e, now) && WithinPromises(c, s0)
    ensures WithinPromises(c, Apply(c, s0, e, now)) <==> !GrantsFull(c, Tick(s0, now), e)
  {
    var s, s' := Tick(s0, now), Apply(c, s0, e, now);
    TickPromises(c, s0, now);
    PromisesAfter(c, s, e);
    if GrantsFull(c, s, e) {
      var w :| w in s.recs && GrantsOn(c, s, e, w) && Promised(s, w) >= c.contexts;
      assert Promised(s', w) > c.contexts;
    }
  }

  // ---- Runs ----

  /** No step of the run grants a worker that is promised to the full. */
  ghost predicate NoneGrantFull<W>(c: Config, t0: nat, run: seq<Timed<W>>)
    requires Exec(c, t0, run).Some?
    decreases |run|
  {
    run == [] ||
      var before, last := run[..|run| - 1], run[|run| - 1];
      NoneGrantFull(c, t0, before) && !GrantsFull(c, Tick(Exec(c, t0, before).value, last.now), last.event)
  }

  lemma PromisesBoundCounts<W>(c: Config, s: Pool<W>)
    requires WithinPromises(c, s)
    ensures WithinPlaces(c, s)
  {
    forall w | w in s.recs ensures s.recs[w].active <= c.contexts {
      assert Promised(s, w) <= c.contexts;
    }
  }

  /** Such a run keeps every worker within its contexts, promises included. */
  lemma {:induction false} PlacesKept<W>(c: Config, t0: nat, run: seq<Timed<W>>)
    requires Exec(c, t0, run).Some? && NoneGrantFull(c, t0, run)
    ensures WithinPromises(c, Exec(c, t0, run).value) && WithinPlaces(c, Exec(c, t0, run).value)
    decreases |run|
  {
    if run == [] {
      StartHasNoWorkers<W>(c, c.poolMin, t0);
    } else {
      var before, last := run[..|run| - 1], run[|run| - 1];
      PlacesKept(c, t0, before);
      RunInv(c, t0, before);
      PromisesExceededExactly(c, Exec(c, t0, before).value, last.event, last.now);
    }
    PromisesBoundCounts(c, Exec(c, t0, run).value);
  }

  // ---- Runs in which calls do not overtake each other's counts ----

  /** A call chooses a worker on which another call has not counted its grant yet. */
  ghost predicate Overlaps<W>(c: Config, s: Pool<W>, e: Event<W>)
    requires Enabled(s, e, s.clock)
  {
    e.Resume? && Choice(c, s, e.task).Some? && Count(s.tasks, GrantOf(Choice(c, s, e.task).value)) > 0
  }

  /** A launcher returns to a worker that is promised to the full. */
  ghost predicate SettlesOnFull<W>(c: Config, s: Pool<W>, e: Event<W>)
    requires Enabled(s, e, s.clock)
  {
    && e.Settle? && s.tasks[e.task].origin == ForCaller
    && s.recs[s.tasks[e.task].worker].active + Count(s.tasks, GrantOf(s.tasks[e.task].worker)) >= c.contexts
  }

  lemma ChoiceHasRoom<W>(c: Config, s: Pool<W>, t: nat)
    requires t in s.tasks && s.tasks[t].Acquiring? && forall w :: w in s.workers ==> w in s.recs
    ensures Choice(c, s, t).Some? ==> s.recs[Choice(c, s, t).value].active < c.contexts
  {
    SweepKeepsActive(c, s, s.workers);
    SweepKeepsListed(c, s, s.workers);
  }

  /** Without such an overlap only a returning launcher can grant a full worker. */
  lemma OrderlyGrants<W>(c: Config, s: Pool<W>, e: Event<W>)
    requires Inv(s) && Enabled(s, e, s.clock) && !Overlaps(c, s, e)
    ensures GrantsFull(c, s, e) <==> SettlesOnFull(c, s, e)
  {
    if e.Resume? {
      ChoiceHasRoom(c, s, e.task);
    }
    if SettlesOnFull(c, s, e) {
      assert GrantsOn(c, s, e, s.tasks[e.task].worker);
    }
  }

  ghost predicate Orderly<W>(c: Config, t0: nat, run: seq<Timed<W>>)
    requires Exec(c, t0, run).Some?
    decreases |run|
  {
    run == [] ||
      var before, last := run[..|run| - 1], run[|run| - 1];
      Orderly(c, t0, before) && !Overlaps(c, Tick(Exec(c, t0, before).value, last.now), last.event)
  }

  /** One promise too many at most, and none while the worker's launcher has not returned. */
  ghost predicate OrderlyInv<W>(c: Config, s: Pool<W>) {
    && (forall w :: w in s.recs ==> Promised(s, w) <= c.contexts + 1)
    && (forall t :: t in s.tasks && s.tasks[t].Settling? && s.tasks[t].worker in s.recs ==>
          Promised(s, s.tasks[t].worker) <= c.contexts)
  }

  lemma {:induction false} SweepSettles<W>(c: Config, s: Pool<W>, ws: seq<W>, t: nat)
    requires forall w :: w in ws ==> w in s.recs
    ensures var r := Sweep(c, s, ws);
      t in r.tasks && r.tasks[t].Settling? ==> t in s.tasks && s.tasks[t] == r.tasks[t]
    decreases |ws|
  {
    if ws == [] {
    } else {
      var r := s.recs[ws[0]];
      SweepSettles(c, if r.state == Healthy && !r.connected then MarkDead(c, s, ws[0]) else s, ws[1..], t);
    }
  }

  /** A call settles only after its launch succeeded. */
  lemma OwnSettling<W>(c: Config, s: Pool<W>, e: Event<W>)
    requires Enabled(s, e, s.clock) && IsCall(e)
    requires e.task in Act(c, s, e).tasks && Act(c, s, e).tasks[e.task].Settling?
    ensures e.LaunchSucceeds?
  {
  }

  lemma ReuseSettles<W>(c: Config, s: Pool<W>, t: nat, b: Backend, p: Profile, u: nat)
    requires forall w :: w in s.workers ==> w in s.recs
    ensures var s' := ReuseOrLaunch(c, s, t, b, p);
      u in s'.tasks && s'.tasks[u].Settling? ==> u in s.tasks && s.tasks[u] == s'.tasks[u]
  {
  }

  lemma ResumeSettles<W>(c: Config, s: Pool<W>, t: nat, b: Backend, p: Profile, u: nat)
    requires forall w :: w in s.workers ==> w in s.recs
    ensures var s' := ResumeAcquire(c, s, t, b, p);
      u in s'.tasks && s'.tasks[u].Settling? ==> u in s.tasks && s.tasks[u] == s'.tasks[u]
  {
    SweepSettles(c, s, s.workers, u);
    SweepKeepsListed(c, s, s.workers);
    ReuseSettles(c, Sweep(c, s, s.workers), t, b, p, u);
  }

  lemma NoticeBegins<W>(c: Config, s: Pool<W>, e: Event<W>)
    requires Enabled(s, e, s.clock) && IsNotice(e) && s.nextTask !in s.tasks
    ensures s.nextTask in Act(c, s, e).tasks ==> !Act(c, s, e).tasks[s.nextTask].Settling?
  {
  }

  lemma NoNewSettling<W>(c: Config, s: Pool<W>, e: Event<W>, t: nat)
    requires Inv(s) && Enabled(s, e, s.clock) && !IsCall(e)
    requires t in Act(c, s, e).tasks && Act(c, s, e).tasks[t].Settling?
    ensures t in s.tasks && s.tasks[t] == Act(c, s, e).tasks[t]
  {
    if e.Resume? {
      ResumeSettles(c, s, e.task, s.tasks[e.task].backend, s.tasks[e.task].profile, t);
    } else {
      NoticeBegins(c, s, e);
      NoticeMovesOne(c, s, e);
    }
  }

  /** Only a launch that succeeds makes a call settle. */
  lemma SettlingAfter<W>(c: Config, s: Pool<W>, e: Event<W>, t: nat)
    requires Inv(s) && Enabled(s, e, s.clock) && t in Act(c, s, e).tasks && Act(c, s, e).tasks[t].Settling?
    requires !(e.LaunchSucceeds? && e.task == t)
    ensures t in s.tasks && s.tasks[t] == Act(c, s, e).tasks[t] && !(e.Settle? && e.task == t)
  {
    if IsCall(e) {
      if e.task == t {
        OwnSettling(c, s, e);
      }
      CallMovesOne(c, s, e);
    } else {
      NoNewSettling(c, s, e, t);
    }
  }

  lemma OrderlyPromised<W>(c: Config, s: Pool<W>, e: Event<W>, w: W)
    requires Inv(s) && OrderlyInv(c, s) && Enabled(s, e, s.clock) && !Overlaps(c, s, e) && w in s.recs
    ensures w in Act(c, s, e).recs && Promised(Act(c, s, e), w) <= c.contexts + 1
    ensures !e.Settle? && Promised(s, w) <= c.contexts ==> Promised(Act(c, s, e), w) <= c.contexts
  {
    PromisedAfter(c, s, e, w);
    if e.Resume? {
      ChoiceHasRoom(c, s, e.task);
    }
  }

  lemma OrderlySettling<W>(c: Config, s: Pool<W>, e: Event<W>, t: nat)
    requires Inv(s) && OrderlyInv(c, s) && Enabled(s, e, s.clock) && !Overlaps(c, s, e)
    requires var s' := Act(c, s, e); t in s'.tasks && s'.tasks[t].Settling? && s'.tasks[t].worker in s'.recs
    ensures Promised(Act(c, s, e), Act(c, s, e).tasks[t].worker) <= c.contexts
  {
    if e.LaunchSucceeds? && e.task == t {
      NewWorkerPromised(c, s, t, e.worker);
    } else {
      SettlingAfter(c, s, e, t);
      var w := s.tasks[t].worker;
      assert HasWorker(s.tasks[t]);
      if e.Settle? {
        assert !SameSettling(s.tasks[t], s.tasks[e.task]);
        PromisedAfter(c, s, e, w);
      } else {
        OrderlyPromised(c, s, e, w);
      }
    }
  }

  lemma OrderlyStep<W>(c: Config, s: Pool<W>, e: Event<W>)
    requires Inv(s) && OrderlyInv(c, s) && Enabled(s, e, s.clock) && !Overlaps(c, s, e)
    ensures OrderlyInv(c, Act(c, s, e))
  {
    var s' := Act(c, s, e);
    KnownAfter(c, s, e);
    forall w | w in s'.recs ensures Promised(s', w) <= c.contexts + 1 {
      if w in s.recs {
        OrderlyPromised(c, s, e, w);
      } else {
        NewWorkerPromised(c, s, e.task, w);
      }
    }
    forall t | t in s'.tasks && s'.tasks[t].Settling? && s'.tasks[t].worker in s'.recs
      ensures Promised(s', s'.tasks[t].worker) <= c.contexts
    {
      OrderlySettling(c, s, e, t);
    }
  }

  lemma TickOrderly<W>(c: Config, s: Pool<W>, now: int)
    requires OrderlyInv(c, s) && Inv(s)
    ensures OrderlyInv(c, Tick(s, now)) && Inv(Tick(s, now))
  {
    var r := Tick(s, now);
    forall w | w in r.recs ensures Promised(r, w) == Promised(s, w) {
    }
  }

  /**
   In a run without overlaps, which is one in which every count follows its grant before another
   call chooses that worker, a worker carries at most one context too many, and that one through
   a launcher that returned late.
   */
  lemma {:induction false} OneTooManyAtMost<W>(c: Config, t0: nat, run: seq<Timed<W>>)
    requires Exec(c, t0, run).Some? && Orderly(c, t0, run)
    ensures OrderlyInv(c, Exec(c, t0, run).value)
    ensures forall w :: w in Exec(c, t0, run).value.recs ==> Exec(c, t0, run).value.recs[w].active <= c.contexts + 1
    decreases |run|
  {
    if run == [] {
      StartHasNoWorkers<W>(c, c.poolMin, t0);
    } else {
      var before, last := run[..|run| - 1], run[|run| - 1];
      var s := Tick(Exec(c, t0, before).value, last.now);
      OneTooManyAtMost(c, t0, before);
      RunInv(c, t0, before);
      TickOrderly(c, Exec(c, t0, before).value, last.now);
      OrderlyStep(c, s, last.event);
    }
    var s := Exec(c, t0, run).value;
    forall w | w in s.recs ensures s.recs[w].active <= c.contexts + 1 {
      assert Promised(s, w) <= c.contexts + 1;
    }
  }

  // ---- Which worker a grant is on ----

  ghost predicate NewGrant<W>(s: Pool<W>, s': Pool<W>, t: nat) {
    t in s'.tasks && s'.tasks[t].Granted? && !(t in s.tasks && s.tasks[t].Granted?)
  }

  /** A launcher returns to a worker that stopped being healthy while it was settling. */
  predicate SettlesOnLost<W(==)>(s: Pool<W>, e: Event<W>)
    requires Enabled(s, e, s.clock)
  {
    e.Settle? && s.tasks[e.task].origin == ForCaller && s.recs[s.tasks[e.task].worker].state != Healthy
  }

  lemma ReplenishFrame<W>(c: Config, s: Pool<W>, t: nat, b: Backend, u: nat)
    ensures var r := Replenish(c, s, t, b); r.workers == s.workers && r.recs == s.recs && !NewGrant(s, r, u)
  {
  }

  lemma MarkDeadGrantsNothing<W>(c: Config, s: Pool<W>, w: W, u: nat)
    requires w in s.recs
    ensures !NewGrant(s, MarkDead(c, s, w), u)
  {
    if s.recs[w].state != Dead {
      ReplenishFrame(c, Bury(s, w), s.nextTask, s.recs[w].backend, u);
    }
  }

  lemma {:induction false} SweepGrantsNothing<W>(c: Config, s: Pool<W>, ws: seq<W>, u: nat)
    requires forall w :: w in ws ==> w in s.recs
    ensures !NewGrant(s, Sweep(c, s, ws), u)
    decreases |ws|
  {
    if ws == [] {
    } else {
      var r := s.recs[ws[0]];
      MarkDeadGrantsNothing(c, s, ws[0], u);
      SweepGrantsNothing(c, if r.state == Healthy && !r.connected then MarkDead(c, s, ws[0]) else s, ws[1..], u);
    }
  }

  ghost predicate OnListedHealthy<W>(s: Pool<W>, t: nat) {
    t in s.tasks && s.tasks[t].Granted? && s.tasks[t].worker in s.recs
    && s.tasks[t].worker in s.workers && s.recs[s.tasks[t].worker].state == Healthy
  }

  lemma ReuseTarget<W>(c: Config, s: Pool<W>, t: nat, b: Backend, p: Profile, u: nat)
    requires forall w :: w in s.workers ==> w in s.recs
    requires NewGrant(s, ReuseOrLaunch(c, s, t, b, p), u)
    ensures OnListedHealthy(ReuseOrLaunch(c, s, t, b, p), u)
  {
  }

  lemma ResumeGrantTarget<W>(c: Config, s: Pool<W>, t: nat, b: Backend, p: Profile, u: nat)
    requires ListInv(s.workers, s.recs)
    requires NewGrant(s, ResumeAcquire(c, s, t, b, p), u)
    ensures OnListedHealthy(ResumeAcquire(c, s, t, b, p), u)
  {
    SweepGrantsNothing(c, s, s.workers, u);
    SweepKeepsListed(c, s, s.workers);
    ReuseTarget(c, Sweep(c, s, s.workers), t, b, p, u);
  }

  /** Grants come from nowhere but `acquire` and a launcher that returns. */
  lemma GrantsBeginWhere<W>(c: Config, s: Pool<W>, e: Event<W>, u: nat)
    requires Enabled(s, e, s.clock) && NewGrant(s, Act(c, s, e), u)
    ensures e.Resume? || (e.Settle? && e.task == u && s.tasks[u].origin == ForCaller)
  {
    match e
    case Refill(t) => ReplenishFrame(c, s, t, s.tasks[t].backend, u);
    case ServerCloses(w) => MarkDeadGrantsNothing(c, s, w, u);
    case _ =>
  }

  /** A new grant is on a listed, healthy worker unless its launcher settled on a lost one. */
  lemma GrantTargets<W>(c: Config, s0: Pool<W>, e: Event<W>, now: int, u: nat)
    requires ListInv(s0.workers, s0.recs) && Enabled(s0, e, now) && NewGrant(s0, Apply(c, s0, e, now), u)
    ensures OnListedHealthy(Apply(c, s0, e, now), u) <==> !SettlesOnLost(Tick(s0, now), e)
  {
    var s := Tick(s0, now);
    GrantsBeginWhere(c, s, e, u);
    if e.Resume? {
      ResumeGrantTarget(c, s, e.task, s.tasks[e.task].backend, s.tasks[e.task].profile, u);
    } else {
      var w := s.tasks[u].worker;
      assert SettleStep(s, u).tasks[u] == Granted(w) && SettleStep(s, u).recs[w].state == s.recs[w].state;
    }
  }

  /** A launcher returns to a worker that left the list while it was settling. */
  predicate SettlesOnUnlisted<W(==)>(s: Pool<W>, e: Event<W>)
    requires Enabled(s, e, s.clock)
  {
    e.Settle? && s.tasks[e.task].origin == ForCaller && s.tasks[e.task].worker !in s.workers
  }

  /** A new grant is on a worker that left the list exactly when its launcher settled on it there. */
  lemma GrantOffListExactly<W>(c: Config, s0: Pool<W>, e: Event<W>, now: int, u: nat)
    requires ListInv(s0.workers, s0.recs) && Enabled(s0, e, now) && NewGrant(s0, Apply(c, s0, e, now), u)
    ensures var s := Apply(c, s0, e, now);
      s.tasks[u].worker !in s.workers <==> SettlesOnUnlisted(Tick(s0, now), e)
  {
    var s := Tick(s0, now);
    GrantsBeginWhere(c, s, e, u);
    if e.Resume? {
      ResumeGrantTarget(c, s, e.task, s.tasks[e.task].backend, s.tasks[e.task].profile, u);
    } else {
      assert SettleStep(s, u).tasks[u] == Granted(s.tasks[u].worker);
    }
  }

  // ---- From the grant to the lease ----

  ghost predicate NewLease<W>(s: Pool<W>, s': Pool<W>, t: nat) {
    t in s'.tasks && s'.tasks[t].Leased? && !(t in s.tasks && s.tasks[t].Leased?)
  }

  lemma {:induction false} SweepLeases<W>(c: Config, s: Pool<W>, ws: seq<W>, t: nat)
    requires forall w :: w in ws ==> w in s.recs
    ensures var r := Sweep(c, s, ws);
      t in r.tasks && r.tasks[t].Leased? ==> t in s.tasks && s.tasks[t] == r.tasks[t]
    decreases |ws|
  {
    if ws == [] {
    } else {
      var r := s.recs[ws[0]];
      SweepLeases(c, if r.state == Healthy && !r.connected then MarkDead(c, s, ws[0]) else s, ws[1..], t);
    }
  }

  lemma ReuseLeases<W>(c: Config, s: Pool<W>, t: nat, b: Backend, p: Profile, u: nat)
    requires forall w :: w in s.workers ==> w in s.recs
    ensures var s' := ReuseOrLaunch(c, s, t, b, p);
      u in s'.tasks && s'.tasks[u].Leased? ==> u in s.tasks && s.tasks[u] == s'.tasks[u]
  {
  }

  lemma ReplenishLeases<W>(c: Config, s: Pool<W>, t: nat, b: Backend, u: nat)
    ensures var s' := Replenish(c, s, t, b);
      u in s'.tasks && s'.tasks[u].Leased? ==> u in s.tasks && s.tasks[u] == s'.tasks[u]
  {
  }

  /** A lease begins where a grant is counted, and nowhere else. */
  lemma LeasesAreGrantsCounted<W>(c: Config, s: Pool<W>, e: Event<W>, u: nat)
    requires Enabled(s, e, s.clock) && NewLease(s, Act(c, s, e), u)
    ensures e == Occupy(u) && Act(c, s, e).tasks[u].worker == s.tasks[u].worker
  {
    match e
    case Resume(t) =>
      SweepLeases(c, s, s.workers, u);
      SweepKeepsListed(c, s, s.workers);
      ReuseLeases(c, Sweep(c, s, s.workers), t, s.tasks[t].backend, s.tasks[t].profile, u);
    case ServerCloses(w) => ReplenishLeases(c, Bury(s, w), s.nextTask, s.recs[w].backend, u);
    case Refill(t) => ReplenishLeases(c, s, t, s.tasks[t].backend, u);
    case _ =>
  }

  lemma OthersAreNotGranted<W>(s: Pool<W>, e: Event<W>, u: nat)
    requires Enabled(s, e, s.clock) && u in s.tasks && s.tasks[u].Granted? && e != Occupy(u)
    ensures IsNotice(e) || e.task != u
  {
  }

  /** A grant stays until its call counts it. */
  lemma GrantStays<W>(c: Config, s: Pool<W>, e: Event<W>, u: nat)
    requires Inv(s) && Enabled(s, e, s.clock) && u in s.tasks && s.tasks[u].Granted? && e != Occupy(u)
    ensures u in Act(c, s, e).tasks && Act(c, s, e).tasks[u] == s.tasks[u]
  {
    OthersAreNotGranted(s, e, u);
    StepKeepsOther(c, s, e, u);
  }

  lemma GrantKept<W>(c: Config, s0: Pool<W>, e: Event<W>, now: int, u: nat, w: W)
    requires Inv(s0) && Enabled(s0, e, now) && u in s0.tasks && s0.tasks[u] == Granted(w) && e != Occupy(u)
    ensures var s := Apply(c, s0, e, now); u in s.tasks && s.tasks[u] == Granted(w)
    ensures w !in s0.workers ==> w !in Apply(c, s0, e, now).workers
  {
    assert Inv(Tick(s0, now));
    GrantStays(c, Tick(s0, now), e, u);
    assert HasWorker(s0.tasks[u]);
    if w !in s0.workers {
      UnlistedForGood(c, s0, e, now, w);
    }
  }

  /** The worker is listed from the i-th state of the run to its last. */
  ghost predicate ListedSince<W>(c: Config, t0: nat, run: seq<Timed<W>>, i: nat, w: W)
    requires i <= |run| && Exec(c, t0, run).Some?
    decreases |run|
  {
    w in Exec(c, t0, run).value.workers && (i == |run| || ListedSince(c, t0, run[..|run| - 1], i, w))
  }

  /** The worker was granted to the call at the i-th state of the run, and the call has not counted it since. */
  ghost predicate UncountedSince<W>(c: Config, t0: nat, run: seq<Timed<W>>, i: nat, u: nat, w: W)
    requires i <= |run| && Exec(c, t0, run).Some?
    decreases |run|
  {
    if i == |run| then var s := Exec(c, t0, run).value; u in s.tasks && s.tasks[u] == Granted(w)
    else run[|run| - 1].event != Occupy(u) && UncountedSince(c, t0, run[..|run| - 1], i, u, w)
  }

  /**
   Between its grant and its count a call keeps its worker, and the worker is listed at the count
   exactly when it was listed all the time since the grant.
   */
  lemma {:induction false} ListedSinceGrant<W>(c: Config, t0: nat, run: seq<Timed<W>>, i: nat, u: nat, w: W)
    requires i <= |run| && Exec(c, t0, run).Some? && UncountedSince(c, t0, run, i, u, w)
    ensures var s := Exec(c, t0, run).value; u in s.tasks && s.tasks[u] == Granted(w)
    ensures w in Exec(c, t0, run).value.workers <==> ListedSince(c, t0, run, i, w)
    decreases |run|
  {
    if i == |run| {
    } else {
      var before, last := run[..|run| - 1], run[|run| - 1];
      ListedSinceGrant(c, t0, before, i, u, w);
      RunInv(c, t0, before);
      GrantKept(c, Exec(c, t0, before).value, last.event, last.now, u, w);
    }
  }
}

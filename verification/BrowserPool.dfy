/** The browser pool in its own form: objects updated in place, one method per stretch between two `await`s. */
module BrowserPools {
  import opened Wrappers
  import opened PoolSpec
  import opened PoolChoice
  import opened PoolInvariants

  class BrowserWorker {
    const backend: Backend
    const profile: Profile
    const createdAt: int
    var jobs: nat
    var active: int
    var failures: nat
    var state: Health
    var rssMb: real
    var connected: bool

    constructor (backend: Backend, profile: Profile, now: int)
      ensures Record() == Worker(backend, profile, 0, now, 0, 0, Healthy, 0.0, true)
    {
      this.backend, this.profile, createdAt := backend, profile, now;
      jobs, active, failures, state, rssMb, connected := 0, 0, 0, Healthy, 0.0, true;
    }

    function Record(): Worker
      reads this
    {
      Worker(backend, profile, jobs, createdAt, active, failures, state, rssMb, connected)
    }
  }

  ghost function Records(ws: set<BrowserWorker>): map<BrowserWorker, Worker>
    reads ws
  {
    map w | w in ws :: w.Record()
  }

  datatype Acquired = Reused(worker: BrowserWorker) | Launching | Refused(code: string)

  class BrowserPool {
    const config: Config
    var workers: seq<BrowserWorker>
    var inFlight: InFlight
    var consecutive: map<Backend, nat>
    var nextLaunchAt: map<Backend, int>
    var closed: bool
    var totalRssMb: real
    var stats: Stats

    /** Every worker ever listed, the calls in flight, and the histories of the model. */
    ghost var created: set<BrowserWorker>
    ghost var tasks: map<nat, Task<BrowserWorker>>
    ghost var nextTask: nat
    ghost var clock: int
    ghost var steps: nat
    ghost var failed: map<Backend, seq<Attempt>>

    ghost function State(): Pool<BrowserWorker>
      reads this, created
    {
      Pool(workers, Records(created), inFlight, Backoff(consecutive, nextLaunchAt, failed), stats,
        closed, totalRssMb, tasks, nextTask, clock, steps)
    }

    ghost predicate Listed()
      reads this
    {
      forall w :: w in workers ==> w in created
    }

    /** The invariant of the pool, which every step keeps. */
    ghost predicate Valid()
      reads this, created
    {
      Inv(State())
    }

    /** `initialize` on a new pool: `browserPoolMin` launches start before any is awaited. */
    constructor (config: Config, now: nat)
      ensures Valid() && created == {} && this.config == config
      ensures State() == Start(config, config.poolMin, now)
    {
      this.config := config;
      workers, inFlight, stats := [], InFlight(0, map[]), Stats(0, 0, 0, 0, 0);
      consecutive, nextLaunchAt, closed, totalRssMb := map[], map[], false, 0.0;
      created, tasks, nextTask, clock, steps, failed := {}, map[], 0, now, 0, map[];
      new;
      assert State() == Start(config, 0, now);
      for i := 0 to config.poolMin
        invariant workers == [] && created == {} && this.config == config && clock == now
        invariant State() == Start(config, i, now)
      {
        nextTask := i + 1;
        assert State() == Start(config, i, now).(nextTask := i + 1);
        var started := BeginLaunch(i, config.defaultBackend, config.defaultProfile, ForStart, now);
      }
      StartInv<BrowserWorker>(config, config.poolMin, now);
    }

    // ---- Pieces the steps share ----

    /** `launch` up to its first `await`; false is the rejection while the backend backs off. */
    method BeginLaunch(ghost t: nat, b: Backend, p: Profile, ghost o: Origin, now: int) returns (started: bool)
      requires now == clock
      modifies this`inFlight, this`tasks
      ensures State() == PoolSpec.BeginLaunch(old(State()), t, b, p, o)
      ensures started <==> Get(nextLaunchAt, b, 0) <= now
    {
      started := Get(nextLaunchAt, b, 0) - now <= 0;
      if started {
        inFlight := InFlight(inFlight.total + 1, inFlight.per[b := Get(inFlight.per, b, 0) + 1]);
        tasks := tasks[t := Starting(b, p, o, clock, steps)];
      } else {
        tasks := tasks - {t};
      }
    }

    /** The `finally` of `launch`. */
    method EndLaunch(b: Backend)
      modifies this`inFlight
      ensures inFlight == Leave(old(inFlight), b)
    {
      var n := Get(inFlight.per, b, 1) - 1;
      inFlight := InFlight(inFlight.total - 1, inFlight.per[b := if n < 0 then 0 else n]);
    }

    /** How many listed workers run the backend. */
    method CountBackend(b: Backend) returns (n: nat)
      requires Listed()
      ensures n == CountOf(workers, Records(created), b)
    {
      n := 0;
      for i := |workers| downto 0
        invariant n == CountOf(workers[i..], Records(created), b)
      {
        assert workers[i..][0] == workers[i] && workers[i..][1..] == workers[i + 1..];
        assert workers[i] in workers;
        if workers[i].backend == b {
          n := n + 1;
        }
      }
      assert workers[0..] == workers;
    }

    /** `replenish` up to its first `await`. */
    method Replenish(ghost t: nat, b: Backend, now: int)
      requires Listed() && now == clock
      modifies this`inFlight, this`tasks
      ensures State() == PoolSpec.Replenish(config, old(State()), t, b)
    {
      var desired := if b == config.defaultBackend then config.poolMin else 0;
      var listed := CountBackend(b);
      if closed
         || listed + Get(inFlight.per, b, 0) >= desired
         || now < Get(nextLaunchAt, b, 0)
      {
        tasks := tasks - {t};
        return;
      }
      var started := BeginLaunch(t, b, config.defaultProfile, ForRefill, now);
    }

    /** `indexOf` and `splice`. */
    method Unlist(worker: BrowserWorker)
      modifies this`workers
      ensures workers == Remove(old(workers), worker)
    {
      var i := 0;
      while i < |workers| && workers[i] != worker
        invariant i <= |workers|
        invariant workers == old(workers)
        invariant Remove(workers, worker) == workers[..i] + Remove(workers[i..], worker)
      {
        assert workers[i..][1..] == workers[i + 1..];
        assert workers[..i] + [workers[i]] == workers[..i + 1];
        i := i + 1;
      }
      if i < |workers| {
        assert workers[i..][1..] == workers[i + 1..];
        workers := workers[..i] + workers[i + 1..];
      } else {
        assert workers[i..] == [] && workers[..i] == workers;
      }
    }

    method MarkDead(worker: BrowserWorker, now: int)
      requires Listed() && worker in created && now == clock
      modifies this, worker
      ensures Listed() && created == old(created) && clock == old(clock)
      ensures State() == PoolSpec.MarkDead(config, old(State()), worker)
    {
      if worker.state == Dead {
        return;
      }
      Bury(worker);
      Replenish(nextTask - 1, worker.backend, now);
    }

    /** The part of `markDead` before it sets off a refill. */
    method Bury(worker: BrowserWorker)
      requires Listed() && worker in created
      modifies this`stats, this`workers, this`nextTask, worker`state
      ensures Listed()
      ensures State() == PoolSpec.Bury(old(State()), worker)
    {
      RemoveSubset(workers, worker);
      Retire(worker);
      stats := stats.(crashes := stats.crashes + 1);
      nextTask := nextTask + 1;
    }

    /** `worker.active++`. */
    method Lease(ghost t: nat, worker: BrowserWorker)
      requires worker in created
      modifies this`tasks, worker`active
      ensures State() == PoolSpec.Lease(old(State()), t, worker)
    {
      worker.active := worker.active + 1;
      tasks := tasks[t := Leased(worker, true)];
      assert Records(created) == old(Records(created))[worker := worker.Record()];
    }

    method RecordFailure(worker: BrowserWorker)
      requires worker in created
      modifies worker`failures, worker`state
      ensures var r := old(worker.Record()).(failures := old(worker.failures) + 1);
        var recorded := if r.failures >= config.failureLimit then r.(state := Draining) else r;
        State() == old(State()).(recs := old(Records(created))[worker := recorded])
    {
      worker.failures := worker.failures + 1;
      if worker.failures >= config.failureLimit {
        worker.state := Draining;
      }
      assert Records(created) == old(Records(created))[worker := worker.Record()];
    }

    method Retire(worker: BrowserWorker)
      requires worker in created
      modifies this`workers, worker`state
      ensures State() == PoolSpec.Unlist(old(State()), worker) && worker.state == Dead
    {
      worker.state := Dead;
      Unlist(worker);
      assert Records(created) == old(Records(created))[worker := worker.Record()];
    }

    /** The filter of `acquire`. */
    method Filter(b: Backend, p: Profile) returns (available: seq<BrowserWorker>)
      requires Listed()
      ensures available == Available(config, Records(created), workers, b, p)
    {
      available := [];
      for i := |workers| downto 0
        invariant available == Available(config, Records(created), workers[i..], b, p)
      {
        assert workers[i..][0] == workers[i] && workers[i..][1..] == workers[i + 1..];
        assert workers[i] in workers;
        if Eligible(config, workers[i].Record(), b, p) {
          available := [workers[i]] + available;
        }
      }
      assert workers[0..] == workers;
    }

    /** `sort` on `active`, which is stable. */
    method Sort(ws: seq<BrowserWorker>) returns (sorted: seq<BrowserWorker>)
      requires forall w :: w in ws ==> w in created
      ensures IsStableSort(Records(created), ws, sorted)
    {
      sorted := [];
      for i := |ws| downto 0
        invariant IsStableSort(Records(created), ws[i..], sorted)
      {
        assert ws[i] in ws && ws[i..] == [ws[i]] + ws[i + 1..];
        var j := 0;
        while j < |sorted| && sorted[j].active < ws[i].active
          invariant j <= |sorted|
          invariant forall k :: 0 <= k < j ==> sorted[k].active < ws[i].active
        {
          j := j + 1;
        }
        ghost var recs := Records(created);
        assert forall w :: w in recs ==> recs[w].active == w.active;
        assert forall k :: 0 <= k < |sorted| ==> sorted[k] in recs;
        InsertionIsStable(recs, ws[i + 1..], sorted, ws[i], j);
        sorted := sorted[..j] + [ws[i]] + sorted[j..];
      }
      assert ws[0..] == ws;
    }

    /** `filter`, `sort` and the first element. */
    method Choose(b: Backend, p: Profile) returns (r: Option<BrowserWorker>)
      requires Listed()
      ensures r == Select(config, Records(created), workers, b, p)
    {
      var available := Filter(b, p);
      var sorted := Sort(available);
      StableSortChooses(config, Records(created), workers, b, p, sorted);
      r := if sorted == [] then None else Some(sorted[0]);
    }

    /** The loop at the head of `acquire`. */
    method MarkDisconnected(now: int)
      requires Listed() && now == clock
      modifies this, created
      ensures Listed() && created == old(created) && clock == old(clock)
      ensures State() == Sweep(config, old(State()), old(workers))
    {
      ghost var s0 := State();
      var copy := workers;
      var i := 0;
      while i < |copy|
        invariant i <= |copy| && Listed() && created == old(created) && clock == old(clock)
        invariant forall w :: w in copy ==> w in created
        invariant forall w :: w in copy ==> w in s0.recs
        invariant Sweep(config, s0, copy) == Sweep(config, State(), copy[i..])
      {
        var worker := copy[i];
        assert copy[i..][0] == worker && copy[i..][1..] == copy[i + 1..];
        if worker.state == Healthy && !worker.connected {
          MarkDead(worker, now);
        }
        i := i + 1;
      }
      assert copy[i..] == [];
    }

    ghost method Tick(now: int)
      modifies this`clock, this`steps
      ensures State() == PoolSpec.Tick(old(State()), now) && clock == now
    {
      clock, steps := now, steps + 1;
    }

    // ---- The steps ----

    /** `withContext` up to the memory refresh of `acquire`. */
    method Arrive(b: Backend, p: Profile, now: int) returns (accepted: bool)
      requires Valid() && Enabled(State(), Event.Arrive(b, p), now)
      modifies this
      ensures Valid() && created == old(created)
      ensures State() == Apply(config, old(State()), Event.Arrive(b, p), now)
      ensures accepted <==> !closed
    {
      ghost var s := State();
      Tick(now);
      accepted := TakeCall(b, p);
      StepInv(config, s, Event.Arrive(b, p), now);
    }

    method TakeCall(b: Backend, p: Profile) returns (accepted: bool)
      modifies this`tasks, this`nextTask
      ensures State() == if old(closed) then old(State()) else
        old(State()).(tasks := old(tasks)[old(nextTask) := Acquiring(b, p)], nextTask := old(nextTask) + 1)
      ensures accepted <==> !closed
    {
      accepted := !closed;
      if accepted {
        tasks := tasks[nextTask := Acquiring(b, p)];
        nextTask := nextTask + 1;
      }
    }

    /** `acquire` after the refresh, up to its return or its next `await`. */
    method Resume(ghost t: nat, b: Backend, p: Profile, now: int) returns (r: Acquired)
      requires Valid() && Enabled(State(), Event.Resume(t), now) && tasks[t] == Acquiring(b, p)
      modifies this, created
      ensures Valid() && created == old(created)
      ensures State() == Apply(config, old(State()), Event.Resume(t), now)
      ensures r.Reused? ==> t in tasks && tasks[t] == Granted(r.worker)
    {
      ghost var s := State();
      Tick(now);
      MarkDisconnected(now);
      SweepKeepsListed(config, PoolSpec.Tick(s, now), s.workers);
      r := ReuseOrLaunch(t, b, p, now);
      StepInv(config, s, Event.Resume(t), now);
    }

    method ReuseOrLaunch(ghost t: nat, b: Backend, p: Profile, now: int) returns (r: Acquired)
      requires Listed() && now == clock
      modifies this`tasks, this`inFlight
      ensures State() == PoolSpec.ReuseOrLaunch(config, old(State()), t, b, p)
      ensures r.Reused? ==> t in tasks && tasks[t] == Granted(r.worker)
    {
      var available := Choose(b, p);
      if available.Some? {
        tasks := tasks[t := Granted(available.value)];
        return Reused(available.value);
      }
      if totalRssMb >= config.softMb {
        tasks := tasks - {t};
        return Refused("MEMORY_PRESSURE");
      }
      if |workers| + inFlight.total >= config.poolMax {
        tasks := tasks - {t};
        return Refused("NO_BROWSER_CAPACITY");
      }
      var started := BeginLaunch(t, b, p, ForCaller, now);
      r := if started then Acquired.Launching else Refused("NO_BROWSER_CAPACITY");
    }

    /** The worker process is up: `launch` lists it and awaits a memory refresh. */
    method LaunchSucceeded(ghost t: nat, b: Backend, p: Profile, now: int) returns (worker: BrowserWorker)
      requires Valid() && t in tasks && tasks[t].Starting? && tasks[t].backend == b && tasks[t].profile == p
      requires clock <= now
      modifies this
      ensures Valid() && fresh(worker) && created == old(created) + {worker}
      ensures Enabled(old(State()), LaunchSucceeds(t, worker), now)
      ensures State() == Apply(config, old(State()), LaunchSucceeds(t, worker), now)
    {
      ghost var s := State();
      Tick(now);
      worker := Enlist(t, b, p, now);
      StepInv(config, s, LaunchSucceeds(t, worker), now);
    }

    method ClearSchedule(b: Backend)
      modifies this`consecutive, this`nextLaunchAt, this`failed
      ensures Backoff(consecutive, nextLaunchAt, failed) == Succeed(old(Backoff(consecutive, nextLaunchAt, failed)), b)
    {
      consecutive := consecutive[b := 0];
      nextLaunchAt := nextLaunchAt[b := 0];
      failed := failed[b := []];
    }

    method Push(b: Backend, p: Profile, now: int) returns (worker: BrowserWorker)
      modifies this`workers, this`created
      ensures fresh(worker) && created == old(created) + {worker}
      ensures worker.Record() == Worker(b, p, 0, now, 0, 0, Healthy, 0.0, true)
      ensures State() ==
        old(State()).(workers := old(workers) + [worker], recs := old(State()).recs[worker := worker.Record()])
    {
      worker := new BrowserWorker(b, p, now);
      workers := workers + [worker];
      created := created + {worker};
      assert Records(created) == old(Records(created))[worker := worker.Record()];
    }

    method Enlist(ghost t: nat, b: Backend, p: Profile, now: int) returns (worker: BrowserWorker)
      requires Listed() && t in tasks && tasks[t].Starting? && tasks[t].backend == b && tasks[t].profile == p
      requires now == clock
      modifies this
      ensures Listed() && fresh(worker) && created == old(created) + {worker}
      ensures State() == LaunchSucceedsStep(old(State()), t, worker)
    {
      ghost var s := State();
      worker := Push(b, p, now);
      ClearSchedule(b);
      assert State() ==
        s.(workers := workers, recs := s.recs[worker := worker.Record()], backoff := Succeed(s.backoff, b));
      stats := stats.(launches := stats.launches + 1);
      tasks := tasks[t := Settling(worker, b, tasks[t].origin)];
    }

    method LaunchFailed(ghost t: nat, b: Backend, now: int)
      requires Valid() && Enabled(State(), LaunchFails(t), now) && tasks[t].backend == b
      modifies this
      ensures Valid() && created == old(created)
      ensures State() == Apply(config, old(State()), LaunchFails(t), now)
    {
      ghost var s := State();
      Tick(now);
      BackOff(t, b, now);
      StepInv(config, s, LaunchFails(t), now);
    }

    method Reschedule(b: Backend, ghost a: Attempt, now: int)
      requires a.end == now
      modifies this`consecutive, this`nextLaunchAt, this`failed
      ensures State() == old(State()).(backoff := Fail(config, old(State()).backoff, b, a))
    {
      var n := Get(consecutive, b, 0) + 1;
      consecutive := consecutive[b := n];
      nextLaunchAt := nextLaunchAt[b := now + Delay(config, n)];
      failed := failed[b := Get(failed, b, []) + [a]];
    }

    /** The `catch` and the `finally` of `launch`. */
    method BackOff(ghost t: nat, b: Backend, now: int)
      requires t in tasks && tasks[t].Starting? && tasks[t].backend == b && now == clock
      modifies this`stats, this`consecutive, this`nextLaunchAt, this`failed, this`inFlight, this`tasks
      ensures State() == LaunchFailsStep(config, old(State()), t)
    {
      ghost var a := Attempt(tasks[t].startedAt, tasks[t].startedStep, clock, steps);
      stats := stats.(launchFailures := stats.launchFailures + 1);
      tasks := tasks - {t};
      Reschedule(b, a, now);
      EndLaunch(b);
    }

    /** `launch` returns: its caller is granted the worker as it now is, a refill is counted. */
    method Settled(ghost t: nat, worker: BrowserWorker, o: Origin, now: int)
      requires Valid() && Enabled(State(), Event.Settle(t), now)
      requires tasks[t] == Settling(worker, worker.backend, o)
      modifies this, worker
      ensures Valid() && created == old(created)
      ensures State() == Apply(config, old(State()), Event.Settle(t), now)
    {
      ghost var s := State();
      Tick(now);
      Settle(t, worker, o);
      StepInv(config, s, Event.Settle(t), now);
    }

    method Settle(ghost t: nat, worker: BrowserWorker, o: Origin)
      requires Listed() && worker in created && t in tasks && tasks[t] == Settling(worker, worker.backend, o)
      modifies this`inFlight, this`stats, this`tasks
      ensures State() == SettleStep(old(State()), t)
    {
      EndLaunch(worker.backend);
      match o
      case ForCaller =>
        tasks := tasks[t := Granted(worker)];
      case ForRefill =>
        stats := stats.(replacements := stats.replacements + 1);
        tasks := tasks - {t};
      case ForStart =>
        tasks := tasks - {t};
    }

    /** `withContext` goes on with the worker that `acquire` returned, whatever it has become. */
    method Occupied(ghost t: nat, worker: BrowserWorker, now: int)
      requires Valid() && Enabled(State(), Occupy(t), now) && tasks[t].worker == worker
      modifies this, worker
      ensures Valid() && created == old(created)
      ensures State() == Apply(config, old(State()), Occupy(t), now)
    {
      ghost var s := State();
      Tick(now);
      Lease(t, worker);
      StepInv(config, s, Occupy(t), now);
    }

    method ContextOpened(ghost t: nat, now: int)
      requires Valid() && Enabled(State(), ContextOpens(t), now)
      modifies this
      ensures Valid() && created == old(created)
      ensures State() == Apply(config, old(State()), ContextOpens(t), now)
    {
      ghost var s := State();
      Tick(now);
      Opened(t);
      StepInv(config, s, ContextOpens(t), now);
    }

    ghost method Opened(t: nat)
      requires t in tasks && tasks[t].Leased?
      modifies this`tasks
      ensures State() == old(State()).(tasks := old(tasks)[t := Leased(old(tasks[t]).worker, false)])
    {
      tasks := tasks[t := Leased(tasks[t].worker, false)];
    }

    /** `recordFailure`. */
    method ContextFailed(ghost t: nat, worker: BrowserWorker, now: int)
      requires Valid() && Enabled(State(), ContextFails(t), now) && tasks[t].worker == worker
      modifies this, worker
      ensures Valid() && created == old(created)
      ensures State() == Apply(config, old(State()), ContextFails(t), now)
    {
      ghost var s := State();
      Tick(now);
      FailContext(t, worker);
      StepInv(config, s, ContextFails(t), now);
    }

    method FailContext(ghost t: nat, worker: BrowserWorker)
      requires t in tasks && tasks[t].Leased? && tasks[t].worker == worker && worker in created
      modifies this`tasks, worker`failures, worker`state
      ensures State() == ContextFailsStep(config, old(State()), t)
    {
      RecordFailure(worker);
      tasks := tasks[t := Leased(worker, false)];
    }

    /** The `finally` of `withContext` up to its memory refresh. */
    method Released(ghost t: nat, worker: BrowserWorker, now: int)
      requires Valid() && Enabled(State(), Release(t), now) && tasks[t].worker == worker
      modifies this, worker
      ensures Valid() && created == old(created)
      ensures State() == Apply(config, old(State()), Release(t), now)
    {
      ghost var s := State();
      Tick(now);
      CloseContext(t, worker);
      StepInv(config, s, Release(t), now);
    }

    method CloseContext(ghost t: nat, worker: BrowserWorker)
      requires t in tasks && tasks[t].Leased? && tasks[t].worker == worker && worker in created
      modifies this`tasks, worker`active, worker`jobs
      ensures State() == ReleaseStep(old(State()), t)
    {
      worker.active := worker.active - 1;
      worker.jobs := worker.jobs + 1;
      assert Records(created) == old(Records(created))[worker := worker.Record()];
      tasks := tasks[t := Task.Released(worker)];
    }

    method Recycled(ghost t: nat, worker: BrowserWorker, now: int) returns (retired: bool)
      requires Valid() && Enabled(State(), Event.Recycle(t), now) && tasks[t].worker == worker
      modifies this, worker
      ensures Valid() && created == old(created)
      ensures State() == Apply(config, old(State()), Event.Recycle(t), now)
      ensures retired ==> worker.state == Dead
    {
      ghost var s := State();
      Tick(now);
      retired := Recycle(t, worker, now);
      StepInv(config, s, Event.Recycle(t), now);
    }

    method DrainIfWorn(worker: BrowserWorker, now: int)
      requires worker in created && now == clock
      modifies worker`state
      ensures State() == Judged(config, old(State()), worker)
    {
      if worker.jobs >= config.maxJobs
         || now - worker.createdAt >= config.maxAgeMs
         || worker.rssMb >= config.recycleRssMb
      {
        worker.state := Draining;
      }
      assert Records(created) == old(Records(created))[worker := worker.Record()];
    }

    method Recycle(ghost t: nat, worker: BrowserWorker, now: int) returns (retired: bool)
      requires Listed() && worker in created && t in tasks && tasks[t] == Task.Released(worker) && now == clock
      modifies this`workers, this`stats, this`tasks, worker`state
      ensures Listed()
      ensures State() == RecycleStep(config, old(State()), t)
      ensures retired ==> worker.state == Dead
    {
      RemoveSubset(workers, worker);
      DrainIfWorn(worker, now);
      if worker.active > 0 || worker.state == Healthy {
        tasks := tasks - {t};
        return false;
      }
      RetireWorn(t, worker);
      retired := true;
    }

    method RetireWorn(ghost t: nat, worker: BrowserWorker)
      requires worker in created
      modifies this`workers, this`stats, this`tasks, worker`state
      ensures worker.state == Dead
      ensures State() == var s := PoolSpec.Unlist(old(State()), worker);
        s.(stats := s.stats.(recycled := s.stats.recycled + 1), tasks := s.tasks[t := Refilling(worker.backend)])
    {
      Retire(worker);
      stats := stats.(recycled := stats.recycled + 1);
      tasks := tasks[t := Refilling(worker.backend)];
    }

    /** The `replenish` at the end of `recycle`. */
    method Refilled(ghost t: nat, b: Backend, now: int)
      requires Valid() && Enabled(State(), Refill(t), now) && tasks[t].backend == b
      modifies this
      ensures Valid() && created == old(created)
      ensures State() == Apply(config, old(State()), Refill(t), now)
    {
      ghost var s := State();
      Tick(now);
      Replenish(t, b, now);
      StepInv(config, s, Refill(t), now);
    }

    /** The server's `close` event. */
    method ServerClosed(worker: BrowserWorker, now: int)
      requires Valid() && worker in created && clock <= now
      modifies this, worker
      ensures Valid() && created == old(created)
      ensures Enabled(old(State()), ServerCloses(worker), now)
      ensures State() == Apply(config, old(State()), ServerCloses(worker), now)
    {
      ghost var s := State();
      Tick(now);
      MarkDead(worker, now);
      StepInv(config, s, ServerCloses(worker), now);
    }

    method ConnectionDropped(worker: BrowserWorker, now: int)
      requires Valid() && worker in created && clock <= now
      modifies this, worker
      ensures Valid() && created == old(created)
      ensures Enabled(old(State()), ConnectionDrops(worker), now)
      ensures State() == Apply(config, old(State()), ConnectionDrops(worker), now)
    {
      ghost var s := State();
      assert worker in s.recs;
      Tick(now);
      DropConnection(worker);
      StepInv(config, s, ConnectionDrops(worker), now);
    }

    method DropConnection(worker: BrowserWorker)
      requires worker in created
      modifies worker`connected
      ensures State() ==
        old(State()).(recs := old(Records(created))[worker := old(worker.Record()).(connected := false)])
    {
      worker.connected := false;
      assert Records(created) == old(Records(created))[worker := worker.Record()];
    }

    /** The browser's `disconnected` handler. */
    method Disconnect(worker: BrowserWorker, now: int)
      requires Valid() && worker in created && !worker.connected && clock <= now
      modifies this, worker
      ensures Valid() && created == old(created)
      ensures Enabled(old(State()), Disconnected(worker), now)
      ensures State() == Apply(config, old(State()), Disconnected(worker), now)
    {
      ghost var s := State();
      assert worker in s.recs;
      Tick(now);
      DrainIfHealthy(worker);
      StepInv(config, s, Disconnected(worker), now);
    }

    method DrainIfHealthy(worker: BrowserWorker)
      requires worker in created
      modifies worker`state
      ensures State() == if old(worker.state) == Healthy then SetState(old(State()), worker, Draining) else old(State())
    {
      if worker.state == Healthy {
        worker.state := Draining;
      }
      assert Records(created) == old(Records(created))[worker := worker.Record()];
    }

    /** `refreshMemory` stores its readings. */
    method StoreReadings(total: real, rss: map<BrowserWorker, real>, now: int)
      requires Valid() && clock <= now
      modifies this, created
      ensures Valid() && created == old(created)
      ensures Enabled(old(State()), Sample(total, rss), now)
      ensures State() == Apply(config, old(State()), Sample(total, rss), now)
    {
      ghost var s := State();
      Tick(now);
      assert Listed() && created == old(created);
      Store(total, rss);
      StepInv(config, s, Sample(total, rss), now);
    }

    method Store(total: real, rss: map<BrowserWorker, real>)
      requires Listed()
      modifies this`totalRssMb, workers`rssMb
      ensures State() == SampleStep(old(State()), total, rss)
    {
      totalRssMb := total;
      forall w | w in workers {
        w.rssMb := Get(rss, w, 0.0);
      }
    }

    /** `close` up to the closing of the servers. */
    method Shutdown(now: int)
      requires Valid() && clock <= now
      modifies this, created
      ensures Valid() && created == old(created)
      ensures Enabled(old(State()), Close, now)
      ensures State() == Apply(config, old(State()), Close, now)
    {
      ghost var s := State();
      Tick(now);
      assert Listed() && created == old(created);
      CloseAll();
      StepInv(config, s, Close, now);
    }

    method CloseAll()
      requires Listed()
      modifies this`closed, this`workers, workers`state
      ensures Listed()
      ensures State() == CloseStep(old(State()))
    {
      closed := true;
      var all := workers;
      workers := [];
      forall w | w in all {
        w.state := Dead;
      }
    }
  }
}

/** Runs in which a worker carries too many contexts, or is leased after it was lost. */
module PoolRuns {
  import opened Wrappers
  import opened PoolSpec
  import opened PoolLeases
  import opened PoolCapacity

  // ---- A launcher that returns late ----

  /** Worker 7, still settling for call 0, while call 1 waits for its memory refresh. */
  function HalfLaunched(): Pool<nat> {
    Pool([7], map[7 := Worker("a", "a", 0, 0, 0, 0, Healthy, 0.0, true)],
      InFlight(1, map["a" := 1]), Backoff(map["a" := 0], map["a" := 0], map["a" := []]), Stats(1, 0, 0, 0, 0),
      false, 0.0, map[0 := Settling(7, "a", ForCaller), 1 := Acquiring("a", "a")], 2, 0, 4)
  }

  /** Call 0 asked the empty pool, then launches, then settles. */
  function FirstAsked(): Pool<nat> {
    Empty(0).(tasks := map[0 := Acquiring("a", "a")], nextTask := 1, steps := 1)
  }

  function FirstLaunches(): Pool<nat> {
    FirstAsked().(launch := InFlight(1, map["a" := 1]),
                  tasks := map[0 := Starting("a", "a", ForCaller, 0, 2)], steps := 2)
  }

  function FirstSettles(): Pool<nat> {
    HalfLaunched().(tasks := map[0 := Settling(7, "a", ForCaller)], nextTask := 1, steps := 3)
  }

  lemma AskFirst()
    ensures Apply(SmallConfig(0, 200), Empty(0), Arrive("a", "a"), 0) == FirstAsked()
    ensures Apply(SmallConfig(0, 200), FirstAsked(), Resume(0), 0) == FirstLaunches()
  {
  }

  lemma LaunchFirst()
    ensures Apply(SmallConfig(0, 200), FirstLaunches(), LaunchSucceeds(0, 7), 0) == FirstSettles()
    ensures Apply(SmallConfig(0, 200), FirstSettles(), Arrive("a", "a"), 0) == HalfLaunched()
  {
  }

  lemma ReachHalfLaunched() returns (run: seq<Timed<nat>>)
    ensures Exec(SmallConfig(0, 200), 0, run) == Some(HalfLaunched())
  {
    var c := SmallConfig(0, 200);
    run := [];
    AskFirst();
    run := Extend(c, 0, run, Empty(0), Arrive("a", "a"), 0);
    run := Extend(c, 0, run, FirstAsked(), Resume(0), 0);
    LaunchFirst();
    run := Extend(c, 0, run, FirstLaunches(), LaunchSucceeds(0, 7), 0);
    run := Extend(c, 0, run, FirstSettles(), Arrive("a", "a"), 0);
  }

  function Seven(active: int, state: Health): map<nat, Worker> {
    map[7 := Worker("a", "a", 0, 0, active, 0, state, 0.0, true)]
  }

  /** Call 1 chose worker 7. */
  function OneGrant(): Pool<nat> {
    HalfLaunched().(tasks := map[0 := Settling(7, "a", ForCaller), 1 := Granted(7)], steps := 5)
  }

  /** And counted its context. */
  function OneLease(): Pool<nat> {
    OneGrant().(recs := Seven(1, Healthy),
                tasks := map[0 := Settling(7, "a", ForCaller), 1 := Leased(7, true)], steps := 6)
  }

  /** The browser server of worker 7 closed instead. */
  function Crashed(): Pool<nat> {
    HalfLaunched().(workers := [], recs := Seven(0, Dead), stats := Stats(1, 0, 1, 0, 0), nextTask := 3, steps := 5)
  }

  /** Call 0, the launcher of worker 7, returns. */
  function Back(s: Pool<nat>): Pool<nat> {
    s.(launch := InFlight(0, map["a" := 0]), tasks := s.tasks[0 := Granted(7)], steps := s.steps + 1)
  }

  /** And counts its context. */
  function Settled(s: Pool<nat>, recs: map<nat, Worker>): Pool<nat> {
    Back(s).(recs := recs, tasks := s.tasks[0 := Leased(7, true)], steps := s.steps + 2)
  }

  lemma ResumeHalfLaunched()
    ensures Apply(SmallConfig(0, 200), HalfLaunched(), Resume(1), 0) == OneGrant()
  {
    var c := SmallConfig(0, 200);
    var s := Tick(HalfLaunched(), 0);
    assert Sweep(c, s, [7]) == Sweep(c, s, []) == s;
    assert Select(c, s.recs, [7], "a", "a") == Some(7);
  }

  lemma OccupyHalfLaunched()
    ensures Apply(SmallConfig(0, 200), OneGrant(), Occupy(1), 0) == OneLease()
  {
  }

  lemma CrashHalfLaunched()
    ensures Apply(SmallConfig(0, 200), HalfLaunched(), ServerCloses(7), 0) == Crashed()
  {
  }

  lemma SettleLate()
    ensures Enabled(OneLease(), Settle(0), 0) && Enabled(Crashed(), Settle(0), 0)
    ensures Apply(SmallConfig(0, 200), OneLease(), Settle(0), 0) == Back(OneLease())
    ensures Apply(SmallConfig(0, 200), Crashed(), Settle(0), 0) == Back(Crashed())
  {
  }

  lemma OccupyFull()
    ensures Enabled(Back(OneLease()), Occupy(0), 0)
    ensures Apply(SmallConfig(0, 200), Back(OneLease()), Occupy(0), 0) == Settled(OneLease(), Seven(2, Healthy))
  {
  }

  lemma OccupyDead()
    ensures Enabled(Back(Crashed()), Occupy(0), 0)
    ensures Apply(SmallConfig(0, 200), Back(Crashed()), Occupy(0), 0) == Settled(Crashed(), Seven(1, Dead))
  {
  }

  /**
   Two leases on a worker with one place: the launched worker is listed before its launcher's
   memory refresh ends, a second caller leases it meanwhile, and the launcher leases it as well.
   */
  lemma PlacesCanBeExceeded() returns (run: seq<Timed<nat>>)
    ensures SmallConfig(0, 200).Valid() && SmallConfig(0, 200).contexts == 1
    ensures Exec(SmallConfig(0, 200), 0, run) == Some(Settled(OneLease(), Seven(2, Healthy)))
  {
    run := ReachHalfLaunched();
    ResumeHalfLaunched();
    run := Extend(SmallConfig(0, 200), 0, run, HalfLaunched(), Resume(1), 0);
    OccupyHalfLaunched();
    run := Extend(SmallConfig(0, 200), 0, run, OneGrant(), Occupy(1), 0);
    SettleLate();
    run := Extend(SmallConfig(0, 200), 0, run, OneLease(), Settle(0), 0);
    OccupyFull();
    run := Extend(SmallConfig(0, 200), 0, run, Back(OneLease()), Occupy(0), 0);
  }

  /** The launched worker dies while it settles, and its launcher leases it all the same. */
  lemma LostWorkerCanBeLeased() returns (run: seq<Timed<nat>>)
    ensures Exec(SmallConfig(0, 200), 0, run) == Some(Settled(Crashed(), Seven(1, Dead)))
  {
    run := ReachHalfLaunched();
    CrashHalfLaunched();
    run := Extend(SmallConfig(0, 200), 0, run, HalfLaunched(), ServerCloses(7), 0);
    SettleLate();
    run := Extend(SmallConfig(0, 200), 0, run, Crashed(), Settle(0), 0);
    OccupyDead();
    run := Extend(SmallConfig(0, 200), 0, run, Back(Crashed()), Occupy(0), 0);
  }

  // ---- Calls that resume together ----

  /** The calls from 1 to n. */
  function Ids(n: nat): (ids: set<nat>)
    ensures forall t :: t in ids <==> 1 <= t <= n
  {
    if n == 0 then {} else Ids(n - 1) + {n}
  }

  /** The idle worker 7 and n calls: some have counted a context on it, some were granted it, the others wait. */
  function Crowd(n: nat, granted: nat, counted: nat): Pool<nat> {
    Ready().(recs := Served(0, counted, Healthy), nextTask := n + 1, steps := 2 + n + granted + counted,
      tasks := map t | t in Ids(n) ::
        if t <= counted then Leased(7, true) else if t <= granted then Granted(7) else Acquiring("a", "a"))
  }

  lemma NoneYet()
    ensures Crowd(0, 0, 0) == Ready()
  {
  }

  lemma OneMoreArrives(n: nat)
    ensures Enabled(Crowd(n, 0, 0), Arrive("a", "a"), 0)
    ensures Apply(SmallConfig(1, 1), Crowd(n, 0, 0), Arrive("a", "a"), 0) == Crowd(n + 1, 0, 0)
  {
  }

  lemma OneMoreChooses(n: nat, k: nat)
    requires k < n
    ensures Enabled(Crowd(n, k, 0), Resume(k + 1), 0)
    ensures Apply(SmallConfig(1, 1), Crowd(n, k, 0), Resume(k + 1), 0) == Crowd(n, k + 1, 0)
  {
    var c, s := SmallConfig(1, 1), Tick(Crowd(n, k, 0), 0);
    assert Sweep(c, s, [7]) == Sweep(c, s, []) == s;
    assert Select(c, s.recs, [7], "a", "a") == Some(7);
  }

  lemma OneMoreCounts(n: nat, k: nat)
    requires k < n
    ensures Enabled(Crowd(n, n, k), Occupy(k + 1), 0)
    ensures Apply(SmallConfig(1, 1), Crowd(n, n, k), Occupy(k + 1), 0) == Crowd(n, n, k + 1)
  {
  }

  lemma {:induction false} ReachArrived(n: nat) returns (run: seq<Timed<nat>>)
    ensures Exec(SmallConfig(1, 1), 0, run) == Some(Crowd(n, 0, 0))
  {
    if n == 0 {
      run := ReachReady();
      NoneYet();
    } else {
      OneMoreArrives(n - 1);
      run := ReachArrived(n - 1);
      run := Extend(SmallConfig(1, 1), 0, run, Crowd(n - 1, 0, 0), Arrive("a", "a"), 0);
    }
  }

  lemma GrantOne(run: seq<Timed<nat>>, n: nat, k: nat) returns (longer: seq<Timed<nat>>)
    requires k < n && Exec(SmallConfig(1, 1), 0, run) == Some(Crowd(n, k, 0))
    ensures Exec(SmallConfig(1, 1), 0, longer) == Some(Crowd(n, k + 1, 0))
  {
    OneMoreChooses(n, k);
    longer := Extend(SmallConfig(1, 1), 0, run, Crowd(n, k, 0), Resume(k + 1), 0);
  }

  lemma CountOne(run: seq<Timed<nat>>, n: nat, k: nat) returns (longer: seq<Timed<nat>>)
    requires k < n && Exec(SmallConfig(1, 1), 0, run) == Some(Crowd(n, n, k))
    ensures Exec(SmallConfig(1, 1), 0, longer) == Some(Crowd(n, n, k + 1))
  {
    OneMoreCounts(n, k);
    longer := Extend(SmallConfig(1, 1), 0, run, Crowd(n, n, k), Occupy(k + 1), 0);
  }

  lemma {:induction false} ReachGranted(n: nat, k: nat) returns (run: seq<Timed<nat>>)
    requires k <= n
    ensures Exec(SmallConfig(1, 1), 0, run) == Some(Crowd(n, k, 0))
    decreases k
  {
    if k == 0 {
      run := ReachArrived(n);
    } else {
      run := ReachGranted(n, k - 1);
      run := GrantOne(run, n, k - 1);
    }
  }

  lemma {:induction false} ReachCounted(n: nat, k: nat) returns (run: seq<Timed<nat>>)
    requires k <= n
    ensures Exec(SmallConfig(1, 1), 0, run) == Some(Crowd(n, n, k))
    decreases k
  {
    if k == 0 {
      run := ReachGranted(n, n);
    } else {
      run := ReachCounted(n, k - 1);
      run := CountOne(run, n, k - 1);
    }
  }

  /** Any number of calls that await one memory refresh can end up on a worker for one context. */
  lemma AnyNumberTogether(n: nat) returns (run: seq<Timed<nat>>)
    ensures Exec(SmallConfig(1, 1), 0, run) == Some(Crowd(n, n, n)) && SmallConfig(1, 1).contexts == 1
    ensures Crowd(n, n, n).recs[7].active == n
  {
    run := ReachCounted(n, n);
  }

  // ---- A worker retired between the grant and the count ----

  /** Call 1 had worker 7 first, and call 2 asks for the same. */
  function Two(
    workers: seq<nat>, recs: map<nat, Worker>, recycled: nat, first: Task<nat>, second: Task<nat>, steps: nat
  ): Pool<nat> {
    Pool(workers, recs, InFlight(0, map["a" := 0]), Backoff(map["a" := 0], map["a" := 0], map["a" := []]),
      Stats(1, 0, 0, recycled, 0), false, 0.0, map[1 := first, 2 := second], 3, 0, steps)
  }

  /** Call 2 arrives while call 1 has its context. */
  function BusyAsked(): Pool<nat> {
    Two([7], Served(0, 1, Healthy), 0, Leased(7, false), Acquiring("a", "a"), 7)
  }

  /** Worker 7 is worn out after the job of call 1, whose `recycle` is due. */
  function WornAsked(): Pool<nat> {
    Two([7], Served(1, 0, Healthy), 0, Released(7), Acquiring("a", "a"), 8)
  }

  function WornGranted(): Pool<nat> {
    Two([7], Served(1, 0, Healthy), 0, Released(7), Granted(7), 9)
  }

  function WornRetired(): Pool<nat> {
    Two([], Served(1, 0, Dead), 1, Refilling("a"), Granted(7), 10)
  }

  function WornLeased(): Pool<nat> {
    Two([], Served(1, 1, Dead), 1, Refilling("a"), Leased(7, true), 11)
  }

  lemma WearOut()
    ensures Apply(SmallConfig(1, 1), Working(false, 6), Arrive("a", "a"), 0) == BusyAsked()
    ensures Apply(SmallConfig(1, 1), BusyAsked(), Release(1), 0) == WornAsked()
  {
  }

  lemma ChooseWorn()
    ensures Apply(SmallConfig(1, 1), WornAsked(), Resume(2), 0) == WornGranted()
  {
    var c, s := SmallConfig(1, 1), Tick(WornAsked(), 0);
    assert Sweep(c, s, [7]) == Sweep(c, s, []) == s;
    assert Select(c, s.recs, [7], "a", "a") == Some(7);
  }

  lemma RetireGranted()
    ensures Apply(SmallConfig(1, 1), WornGranted(), Recycle(1), 0) == WornRetired()
  {
  }

  lemma OccupyRetired()
    ensures Enabled(WornRetired(), Occupy(2), 0)
    ensures Apply(SmallConfig(1, 1), WornRetired(), Occupy(2), 0) == WornLeased()
  {
  }

  /** A `recycle` that awaited the same refresh as a call retires the worker that the call has just chosen. */
  lemma RetiredBeforeTheCount() returns (run: seq<Timed<nat>>)
    ensures Exec(SmallConfig(1, 1), 0, run) == Some(WornLeased())
    ensures WornLeased().tasks[2] == Leased(7, true) && WornLeased().recs[7].state == Dead
  {
    run := ReachWorking();
    WearOut();
    run := Extend(SmallConfig(1, 1), 0, run, Working(false, 6), Arrive("a", "a"), 0);
    run := Extend(SmallConfig(1, 1), 0, run, BusyAsked(), Release(1), 0);
    ChooseWorn();
    run := Extend(SmallConfig(1, 1), 0, run, WornAsked(), Resume(2), 0);
    RetireGranted();
    run := Extend(SmallConfig(1, 1), 0, run, WornGranted(), Recycle(1), 0);
    OccupyRetired();
    run := Extend(SmallConfig(1, 1), 0, run, WornRetired(), Occupy(2), 0);
  }
}

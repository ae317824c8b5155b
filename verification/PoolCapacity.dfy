/** How many browser processes the pool can have, listed or about to be. */
module PoolCapacity {
  import opened Wrappers
  import opened PoolSpec
  import opened PoolInvariants
  import opened PoolLeases

  /** Listed workers plus launches whose worker is not listed yet. */
  ghost function Total<W>(s: Pool<W>): nat {
    |s.workers| + Count(s.tasks, Unlisted)
  }

  /** The part of the total that is not of the default backend. */
  ghost function Others<W>(c: Config, s: Pool<W>): int {
    |s.workers| - CountOf(s.workers, s.recs, c.defaultBackend) + Count(s.tasks, UnlistedOther(c.defaultBackend))
  }

  /** The call is past `acquire`: its worker was granted to it. */
  predicate HasContext<W>(k: Task<W>) {
    k.Granted? || k.Leased? || k.Released?
  }

  /** Every worker and call in flight is of the default backend. */
  ghost predicate DefaultOnly<W>(c: Config, s: Pool<W>) {
    && (forall w :: w in s.recs ==> s.recs[w].backend == c.defaultBackend)
    && (forall t :: t in s.tasks && !HasContext(s.tasks[t]) ==>
          s.tasks[t].backend == c.defaultBackend)
  }

  /** `only` says that no caller ever asked for another backend than the default one. */
  ghost predicate CapacityInv<W>(c: Config, s: Pool<W>, only: bool) {
    && Others(c, s) <= c.poolMax
    && Total(s) <= c.poolMax + c.poolMin
    && (only ==> DefaultOnly(c, s))
    && (only || c.poolMin == 0 ==> Total(s) <= c.poolMax)
  }

  // ---- Counting ----

  lemma UnlistedAreLaunching<W>(tasks: map<nat, Task<W>>, d: Backend)
    ensures Count(tasks, Unlisted) <= Count(tasks, Launching)
    ensures Count(tasks, UnlistedOther(d)) <= Count(tasks, Unlisted)
    ensures Count(tasks, Unlisted) <= Count(tasks, UnlistedOther(d)) + Count(tasks, LaunchingOf(d))
  {
    var all, mine := Matching(tasks, Unlisted), Matching(tasks, LaunchingOf(d));
    var other := Matching(tasks, UnlistedOther(d));
    SubsetCard(all, Matching(tasks, Launching));
    SubsetCard(other, all);
    SubsetCard(all, other + mine);
    assert |other + mine| <= |other| + |mine|;
  }

  lemma CountOfBounds<W>(ws: seq<W>, recs: map<W, Worker>, b: Backend)
    ensures CountOf(ws, recs, b) <= |ws|
    ensures (forall w :: w in ws ==> w in recs && recs[w].backend == b) ==> CountOf(ws, recs, b) == |ws|
  {
    if ws == [] {
    } else {
      CountOfBounds(ws[1..], recs, b);
      assert forall w :: w in ws[1..] ==> w in ws;
    }
  }

  lemma CountOfSameBackends<W>(ws: seq<W>, recs: map<W, Worker>, recs': map<W, Worker>, b: Backend)
    requires forall w :: w in ws ==> w in recs && w in recs' && recs[w].backend == recs'[w].backend
    ensures CountOf(ws, recs, b) == CountOf(ws, recs', b)
  {
    if ws == [] {
    } else {
      assert ws[0] in ws;
      assert forall w :: w in ws[1..] ==> w in ws;
      CountOfSameBackends(ws[1..], recs, recs', b);
    }
  }

  lemma CountOfSnoc<W>(ws: seq<W>, recs: map<W, Worker>, w: W, b: Backend)
    requires w in recs
    ensures CountOf(ws + [w], recs, b) == CountOf(ws, recs, b) + One(recs[w].backend == b)
  {
    if ws == [] {
      assert ws + [w] == [w];
    } else {
      assert (ws + [w])[1..] == ws[1..] + [w];
      CountOfSnoc(ws[1..], recs, w, b);
    }
  }

  lemma CountOfRemove<W>(ws: seq<W>, recs: map<W, Worker>, w: W, b: Backend)
    requires w in recs
    ensures CountOf(Remove(ws, w), recs, b) == CountOf(ws, recs, b) - One(w in ws && recs[w].backend == b)
    ensures |Remove(ws, w)| == |ws| - One(w in ws)
  {
    if ws != [] && ws[0] != w {
      CountOfRemove(ws[1..], recs, w, b);
      assert ([ws[0]] + Remove(ws[1..], w))[1..] == Remove(ws[1..], w);
      assert w in ws <==> w in ws[1..];
    }
  }

  // ---- Launch starts ----

  lemma StartCounts<W>(tasks: map<nat, Task<W>>, t: nat, k: Task<W>, d: Backend)
    requires Idle(tasks, t)
    ensures Count(tasks[t := k], Unlisted) == Count(tasks, Unlisted) + One(k.Starting?)
    ensures Count(tasks[t := k], UnlistedOther(d)) ==
      Count(tasks, UnlistedOther(d)) + One(k.Starting? && k.backend != d)
    ensures Count(tasks - {t}, Unlisted) == Count(tasks, Unlisted)
    ensures Count(tasks - {t}, UnlistedOther(d)) == Count(tasks, UnlistedOther(d))
  {
    CountPut(tasks, t, k, Unlisted);
    CountPut(tasks, t, k, UnlistedOther(d));
    CountDrop(tasks, t, Unlisted);
    CountDrop(tasks, t, UnlistedOther(d));
  }

  predicate StartsRefill<W(==)>(c: Config, s: Pool<W>, b: Backend) {
    && !s.closed
    && CountOf(s.workers, s.recs, b) + Get(s.launch.per, b, 0) < (if b == c.defaultBackend then c.poolMin else 0)
    && s.clock >= Get(s.backoff.nextLaunchAt, b, 0)
  }

  lemma ReplenishTotal<W>(c: Config, s: Pool<W>, t: nat, b: Backend)
    requires Idle(s.tasks, t)
    ensures var r := Replenish(c, s, t, b);
      && r.workers == s.workers && r.recs == s.recs
      && Total(r) == Total(s) + One(StartsRefill(c, s, b))
      && Others(c, r) == Others(c, s) + One(StartsRefill(c, s, b) && b != c.defaultBackend)
  {
    StartCounts(s.tasks, t, Starting(b, c.defaultProfile, ForRefill, s.clock, s.steps), c.defaultBackend);
  }

  lemma RefillGuard<W>(c: Config, s: Pool<W>, b: Backend)
    requires ListInv(s.workers, s.recs) && LaunchInv(s.launch, s.tasks) && StartsRefill(c, s, b) && c.Valid()
    ensures b == c.defaultBackend && 0 < c.poolMin
    ensures Total(s) < Others(c, s) + c.poolMin
    ensures DefaultOnly(c, s) ==> Total(s) < c.poolMax
  {
    UnlistedAreLaunching(s.tasks, b);
    CountOfBounds(s.workers, s.recs, b);
    if DefaultOnly(c, s) {
      assert Matching(s.tasks, UnlistedOther(b)) == {};
    }
  }

  lemma ReplenishCapacity<W>(c: Config, s: Pool<W>, t: nat, b: Backend, only: bool)
    requires c.Valid() && ListInv(s.workers, s.recs) && LaunchInv(s.launch, s.tasks)
    requires CapacityInv(c, s, only) && Idle(s.tasks, t)
    ensures CapacityInv(c, Replenish(c, s, t, b), only)
  {
    ReplenishTotal(c, s, t, b);
    if StartsRefill(c, s, b) {
      RefillGuard(c, s, b);
    }
  }

  /** Off the list, whatever the label becomes. */
  lemma UnlistTotal<W>(c: Config, s: Pool<W>, w: W)
    requires ListInv(s.workers, s.recs) && w in s.recs
    ensures Total(Unlist(s, w)) == Total(s) - One(w in s.workers)
    ensures Others(c, Unlist(s, w)) == Others(c, s) - One(w in s.workers && s.recs[w].backend != c.defaultBackend)
    ensures DefaultOnly(c, s) ==> DefaultOnly(c, Unlist(s, w))
  {
    var r := Unlist(s, w);
    RemoveSubset(s.workers, w);
    CountOfRemove(s.workers, s.recs, w, c.defaultBackend);
    CountOfSameBackends(r.workers, s.recs, r.recs, c.defaultBackend);
  }

  lemma BuryCapacity<W>(c: Config, s: Pool<W>, w: W, only: bool)
    requires ListInv(s.workers, s.recs) && CapacityInv(c, s, only) && w in s.recs
    ensures CapacityInv(c, Bury(s, w), only)
  {
    UnlistTotal(c, s, w);
    var u := Unlist(s, w);
    assert Total(Bury(s, w)) == Total(u) && Others(c, Bury(s, w)) == Others(c, u);
  }

  lemma MarkDeadCapacity<W>(c: Config, s: Pool<W>, w: W, only: bool)
    requires c.Valid() && Inv(s) && CapacityInv(c, s, only) && w in s.recs
    ensures CapacityInv(c, MarkDead(c, s, w), only)
  {
    if s.recs[w].state != Dead {
      BuryInv(s, w);
      BuryCapacity(c, s, w, only);
      ReplenishCapacity(c, Bury(s, w), s.nextTask, s.recs[w].backend, only);
    }
  }

  lemma SweepCapacity<W>(c: Config, s: Pool<W>, ws: seq<W>, t: nat, only: bool)
    requires c.Valid() && Inv(s) && CapacityInv(c, s, only) && Idle(s.tasks, t) && t < s.nextTask
    requires forall w :: w in ws ==> w in s.recs
    ensures CapacityInv(c, Sweep(c, s, ws), only)
    decreases |ws|
  {
    if ws == [] {
    } else {
      MarkDeadInv(c, s, ws[0]);
      MarkDeadCapacity(c, s, ws[0], only);
      MarkDeadKeepsTasks(c, s, ws[0], t);
      var r := s.recs[ws[0]];
      SweepCapacity(c, if r.state == Healthy && !r.connected then MarkDead(c, s, ws[0]) else s, ws[1..], t, only);
    }
  }

  // ---- Steps that begin no launch ----

  /** The list is as it was, no label of origin changed, and no launch began. */
  ghost predicate NoGrowth<W>(c: Config, s: Pool<W>, s': Pool<W>) {
    && Total(s') <= Total(s) && Others(c, s') <= Others(c, s)
    && (DefaultOnly(c, s) ==> DefaultOnly(c, s'))
  }

  lemma SameListCounts<W>(c: Config, s: Pool<W>, s': Pool<W>)
    requires s'.workers == s.workers
    requires forall w :: w in s.workers ==> w in s.recs && w in s'.recs && s.recs[w].backend == s'.recs[w].backend
    requires Count(s'.tasks, Unlisted) == Count(s.tasks, Unlisted)
    requires Count(s'.tasks, UnlistedOther(c.defaultBackend)) == Count(s.tasks, UnlistedOther(c.defaultBackend))
    ensures Total(s') == Total(s) && Others(c, s') == Others(c, s)
  {
    CountOfSameBackends(s.workers, s.recs, s'.recs, c.defaultBackend);
  }

  /** A call that is not starting a launch moves on, or ends. */
  lemma OtherTaskCounts<W>(tasks: map<nat, Task<W>>, t: nat, k: Task<W>, d: Backend)
    requires (t in tasks ==> !tasks[t].Starting?) && !k.Starting?
    ensures Count(tasks[t := k], Unlisted) == Count(tasks - {t}, Unlisted) == Count(tasks, Unlisted)
    ensures Count(tasks[t := k], UnlistedOther(d)) == Count(tasks - {t}, UnlistedOther(d)) ==
      Count(tasks, UnlistedOther(d))
  {
    CountPut(tasks, t, k, Unlisted);
    CountPut(tasks, t, k, UnlistedOther(d));
    CountDrop(tasks, t, Unlisted);
    CountDrop(tasks, t, UnlistedOther(d));
  }

  lemma GrantNoGrowth<W>(c: Config, s: Pool<W>, t: nat, w: W)
    requires ListInv(s.workers, s.recs) && w in s.recs && (t in s.tasks ==> !s.tasks[t].Starting?)
    ensures NoGrowth(c, s, Grant(s, t, w)) && Total(Grant(s, t, w)) == Total(s)
  {
    OtherTaskCounts(s.tasks, t, Granted(w), c.defaultBackend);
    SameListCounts(c, s, Grant(s, t, w));
  }

  lemma LaunchEndsNoGrowth<W>(c: Config, s: Pool<W>, e: Event<W>)
    requires ListInv(s.workers, s.recs) && Enabled(s, e, s.clock) && (e.LaunchSucceeds? || e.LaunchFails?)
    ensures NoGrowth(c, s, Act(c, s, e))
    ensures e.LaunchSucceeds? ==> Total(Act(c, s, e)) == Total(s)
  {
    var t := e.task;
    var k := s.tasks[t];
    var d := c.defaultBackend;
    if e.LaunchSucceeds? {
      var r := LaunchSucceedsStep(s, t, e.worker);
      CountPut(s.tasks, t, r.tasks[t], Unlisted);
      CountPut(s.tasks, t, r.tasks[t], UnlistedOther(d));
      CountOfSameBackends(s.workers, s.recs, r.recs, d);
      CountOfSnoc(s.workers, r.recs, e.worker, d);
    } else {
      CountDrop(s.tasks, t, Unlisted);
      CountDrop(s.tasks, t, UnlistedOther(d));
    }
  }

  /** A due `recycle` ends, or goes on to refill, after a change of list that is no growth. */
  lemma ReleasedNoGrowth<W>(c: Config, s: Pool<W>, s1: Pool<W>, s': Pool<W>, t: nat)
    requires NoGrowth(c, s, s1) && t in s1.tasks && s1.tasks[t].Released?
    requires s'.workers == s1.workers && s'.recs == s1.recs
    requires s'.tasks == s1.tasks - {t}
      || (s1.tasks[t].worker in s1.recs && s'.tasks == s1.tasks[t := Refilling(s1.recs[s1.tasks[t].worker].backend)])
    ensures NoGrowth(c, s, s')
  {
    OtherTaskCounts(s1.tasks, t, if t in s'.tasks then s'.tasks[t] else Released(s1.tasks[t].worker), c.defaultBackend);
  }

  lemma DrainNoGrowth<W>(c: Config, s: Pool<W>, w: W)
    requires ListInv(s.workers, s.recs) && w in s.recs
    ensures NoGrowth(c, s, SetState(s, w, Draining))
  {
    SameListCounts(c, s, SetState(s, w, Draining));
  }

  lemma UnlistNoGrowth<W>(c: Config, s: Pool<W>, s1: Pool<W>, w: W)
    requires NoGrowth(c, s, s1) && ListInv(s1.workers, s1.recs) && w in s1.recs
    ensures NoGrowth(c, s, Unlist(s1, w))
  {
    UnlistTotal(c, s1, w);
  }

  lemma JudgedNoGrowth<W>(c: Config, s: Pool<W>, t: nat)
    requires ListInv(s.workers, s.recs) && Enabled(s, Recycle(t), s.clock)
    ensures var s1 := Judged(c, s, s.tasks[t].worker);
      NoGrowth(c, s, s1) && ListInv(s1.workers, s1.recs) && s1.tasks == s.tasks && s1.recs.Keys == s.recs.Keys
  {
    DrainNoGrowth(c, s, s.tasks[t].worker);
  }

  lemma RecycleNoGrowth<W>(c: Config, s: Pool<W>, t: nat)
    requires ListInv(s.workers, s.recs) && Enabled(s, Recycle(t), s.clock)
    ensures NoGrowth(c, s, RecycleStep(c, s, t))
  {
    var w := s.tasks[t].worker;
    var s1 := Judged(c, s, w);
    JudgedNoGrowth(c, s, t);
    if s.recs[w].active > 0 || s1.recs[w].state == Healthy {
      ReleasedNoGrowth(c, s, s1, RecycleStep(c, s, t), t);
    } else {
      UnlistNoGrowth(c, s, s1, w);
      ReleasedNoGrowth(c, s, Unlist(s1, w), RecycleStep(c, s, t), t);
    }
  }

  lemma SettleNoGrowth<W>(c: Config, s: Pool<W>, t: nat)
    requires ListInv(s.workers, s.recs) && Enabled(s, Settle(t), s.clock)
    ensures NoGrowth(c, s, SettleStep(s, t))
  {
    var k := s.tasks[t];
    OtherTaskCounts(s.tasks, t, Granted(k.worker), c.defaultBackend);
    if k.origin == ForCaller {
      GrantNoGrowth(c, s.(launch := Leave(s.launch, k.backend)), t, k.worker);
    }
  }

  lemma LeaseStepNoGrowth<W>(c: Config, s: Pool<W>, e: Event<W>)
    requires ListInv(s.workers, s.recs) && Enabled(s, e, s.clock)
    requires e.Occupy? || e.ContextOpens? || e.ContextFails? || e.Release?
    ensures NoGrowth(c, s, Act(c, s, e))
  {
    var s' := Act(c, s, e);
    OtherTaskCounts(s.tasks, e.task, s'.tasks[e.task], c.defaultBackend);
    SameListCounts(c, s, s');
  }

  lemma NoticeNoGrowth<W>(c: Config, s: Pool<W>, e: Event<W>)
    requires ListInv(s.workers, s.recs) && Enabled(s, e, s.clock)
    requires e.ConnectionDrops? || e.Disconnected? || e.Sample?
    ensures NoGrowth(c, s, Act(c, s, e))
  {
    SameListCounts(c, s, Act(c, s, e));
  }

  lemma CloseNoGrowth<W>(c: Config, s: Pool<W>)
    requires ListInv(s.workers, s.recs)
    ensures NoGrowth(c, s, CloseStep(s))
  {
    CountOfBounds(s.workers, s.recs, c.defaultBackend);
  }

  /** Every step that neither begins a launch nor takes a call. */
  lemma NoLaunchNoGrowth<W>(c: Config, s: Pool<W>, e: Event<W>)
    requires ListInv(s.workers, s.recs) && Enabled(s, e, s.clock)
    requires !e.Arrive? && !e.Resume? && !e.Refill? && !e.ServerCloses?
    ensures NoGrowth(c, s, Act(c, s, e))
  {
    match e
    case LaunchSucceeds(_, _) => LaunchEndsNoGrowth(c, s, e);
    case LaunchFails(_) => LaunchEndsNoGrowth(c, s, e);
    case Settle(t) => SettleNoGrowth(c, s, t);
    case Occupy(_) => LeaseStepNoGrowth(c, s, e);
    case ContextOpens(_) => LeaseStepNoGrowth(c, s, e);
    case ContextFails(_) => LeaseStepNoGrowth(c, s, e);
    case Release(_) => LeaseStepNoGrowth(c, s, e);
    case Recycle(t) => RecycleNoGrowth(c, s, t);
    case ConnectionDrops(_) => NoticeNoGrowth(c, s, e);
    case Disconnected(_) => NoticeNoGrowth(c, s, e);
    case Sample(_, _) => NoticeNoGrowth(c, s, e);
    case Close => CloseNoGrowth(c, s);
  }

  lemma ArriveNoGrowth<W>(c: Config, s: Pool<W>, b: Backend, p: Profile)
    requires ListInv(s.workers, s.recs) && s.nextTask !in s.tasks
    ensures var s' := Act(c, s, Arrive(b, p));
      && Total(s') == Total(s) && Others(c, s') == Others(c, s)
      && (DefaultOnly(c, s) && b == c.defaultBackend ==> DefaultOnly(c, s'))
  {
    OtherTaskCounts(s.tasks, s.nextTask, Acquiring(b, p), c.defaultBackend);
  }

  // ---- The step and the run ----

  lemma BeginLaunchCapacity<W>(c: Config, s: Pool<W>, t: nat, b: Backend, p: Profile, only: bool)
    requires c.Valid() && ListInv(s.workers, s.recs) && LaunchInv(s.launch, s.tasks)
    requires CapacityInv(c, s, only) && Idle(s.tasks, t)
    requires |s.workers| + s.launch.total < c.poolMax && (only ==> b == c.defaultBackend)
    ensures CapacityInv(c, BeginLaunch(s, t, b, p, ForCaller), only)
    ensures Total(BeginLaunch(s, t, b, p, ForCaller)) <= c.poolMax
  {
    UnlistedAreLaunching(s.tasks, c.defaultBackend);
    CountOfBounds(s.workers, s.recs, c.defaultBackend);
    StartCounts(s.tasks, t, Starting(b, p, ForCaller, s.clock, s.steps), c.defaultBackend);
  }

  lemma ReuseOrLaunchCapacity<W>(c: Config, s: Pool<W>, t: nat, b: Backend, p: Profile, only: bool)
    requires c.Valid() && ListInv(s.workers, s.recs) && LaunchInv(s.launch, s.tasks) && CapacityInv(c, s, only)
    requires Idle(s.tasks, t) && (only ==> b == c.defaultBackend)
    ensures CapacityInv(c, ReuseOrLaunch(c, s, t, b, p), only)
  {
    match Select(c, s.recs, s.workers, b, p)
    case Some(w) => GrantNoGrowth(c, s, t, w);
    case None =>
      StartCounts(s.tasks, t, Acquiring(b, p), c.defaultBackend);
      if s.totalRssMb < c.softMb && |s.workers| + s.launch.total < c.poolMax {
        BeginLaunchCapacity(c, s, t, b, p, only);
      }
  }

  lemma ResumeCapacity<W>(c: Config, s: Pool<W>, t: nat, only: bool)
    requires c.Valid() && Inv(s) && CapacityInv(c, s, only) && t in s.tasks && s.tasks[t].Acquiring?
    ensures CapacityInv(c, ResumeAcquire(c, s, t, s.tasks[t].backend, s.tasks[t].profile), only)
  {
    SweepInv(c, s, s.workers, t);
    SweepCapacity(c, s, s.workers, t, only);
    ReuseOrLaunchCapacity(c, Sweep(c, s, s.workers), t, s.tasks[t].backend, s.tasks[t].profile, only);
  }

  lemma QuietCapacity<W>(c: Config, s: Pool<W>, e: Event<W>, only: bool)
    requires ListInv(s.workers, s.recs) && CapacityInv(c, s, only) && Enabled(s, e, s.clock)
    requires !e.Arrive? && !e.Resume? && !e.Refill? && !e.ServerCloses?
    ensures CapacityInv(c, Act(c, s, e), only)
  {
    NoLaunchNoGrowth(c, s, e);
  }

  lemma ArriveCapacity<W>(c: Config, s: Pool<W>, e: Event<W>, only: bool)
    requires ListInv(s.workers, s.recs) && CapacityInv(c, s, only) && Enabled(s, e, s.clock) && e.Arrive?
    requires only ==> e.backend == c.defaultBackend
    ensures CapacityInv(c, Act(c, s, e), only)
  {
    ArriveNoGrowth(c, s, e.backend, e.profile);
  }

  lemma StepCapacity<W>(c: Config, s0: Pool<W>, e: Event<W>, now: int, only: bool)
    requires c.Valid() && Inv(s0) && CapacityInv(c, s0, only) && Enabled(s0, e, now)
    requires only && e.Arrive? ==> e.backend == c.defaultBackend
    ensures CapacityInv(c, Apply(c, s0, e, now), only)
  {
    var s := Tick(s0, now);
    assert Inv(s) && CapacityInv(c, s, only);
    match e
    case Arrive(_, _) => ArriveCapacity(c, s, e, only);
    case Resume(t) => ResumeCapacity(c, s, t, only);
    case Refill(t) => ReplenishCapacity(c, s, t, s.tasks[t].backend, only);
    case ServerCloses(w) => MarkDeadCapacity(c, s, w, only);
    case _ => QuietCapacity(c, s, e, only);
  }

  lemma StartTaskFresh<W>(c: Config, n: nat, t0: nat)
    ensures n !in Start<W>(c, n, t0).tasks
  {
    StartInv<W>(c, n, t0);
  }

  lemma StartOneMore<W>(c: Config, s: Pool<W>, n: nat)
    requires 0 < n && n - 1 !in s.tasks && DefaultOnly(c, s)
    ensures var r := BeginLaunch(s.(nextTask := n), n - 1, c.defaultBackend, c.defaultProfile, ForStart);
      Total(r) <= Total(s) + 1 && Others(c, r) == Others(c, s) && DefaultOnly(c, r)
  {
    var k := Starting(c.defaultBackend, c.defaultProfile, ForStart, s.clock, s.steps);
    StartCounts(s.tasks, n - 1, k, c.defaultBackend);
  }

  lemma EmptyCounts<W>(c: Config, t0: nat)
    ensures Total(Empty<W>(t0)) == 0 && Others(c, Empty<W>(t0)) == 0 && DefaultOnly(c, Empty<W>(t0))
  {
    var s := Empty<W>(t0);
    assert Matching(s.tasks, Unlisted) == {} && Matching(s.tasks, UnlistedOther(c.defaultBackend)) == {};
  }

  lemma {:induction false} StartCapacity<W>(c: Config, n: nat, t0: nat)
    ensures Total(Start<W>(c, n, t0)) <= n && Others(c, Start<W>(c, n, t0)) == 0 && DefaultOnly(c, Start<W>(c, n, t0))
  {
    EmptyCounts<W>(c, t0);
    if n == 0 {
    } else {
      StartCapacity<W>(c, n - 1, t0);
      StartTaskFresh<W>(c, n - 1, t0);
      StartOneMore(c, Start<W>(c, n - 1, t0), n);
    }
  }

  ghost predicate ArrivesDefaultOnly<W>(c: Config, run: seq<Timed<W>>) {
    forall i :: 0 <= i < |run| && run[i].event.Arrive? ==> run[i].event.backend == c.defaultBackend
  }

  lemma {:induction false} RunCapacity<W>(c: Config, t0: nat, run: seq<Timed<W>>, only: bool)
    requires c.Valid() && Exec(c, t0, run).Some? && (only ==> ArrivesDefaultOnly(c, run))
    ensures CapacityInv(c, Exec(c, t0, run).value, only)
    decreases |run|
  {
    if run == [] {
      StartCapacity<W>(c, c.poolMin, t0);
    } else {
      var before := run[..|run| - 1];
      RunCapacity(c, t0, before, only);
      RunInv(c, t0, before);
      StepCapacity(c, Exec(c, t0, before).value, run[|run| - 1].event, run[|run| - 1].now, only);
    }
  }

  /**
   In every run, listed workers and launches not yet listed together stay within
   `browserPoolMax + browserPoolMin`, and within `browserPoolMax` when the minimum is 0 or no
   caller asked for another backend than the default one.
   */
  lemma CapacityBound<W>(c: Config, t0: nat, run: seq<Timed<W>>)
    requires c.Valid() && Exec(c, t0, run).Some?
    ensures var s := Exec(c, t0, run).value;
      && |s.workers| + |set t | t in s.tasks && s.tasks[t].Starting?| <= c.poolMax + c.poolMin
      && (c.poolMin == 0 || ArrivesDefaultOnly(c, run) ==>
            |s.workers| + |set t | t in s.tasks && s.tasks[t].Starting?| <= c.poolMax)
  {
    var s := Exec(c, t0, run).value;
    RunCapacity(c, t0, run, ArrivesDefaultOnly(c, run));
    assert Matching(s.tasks, Unlisted) == set t | t in s.tasks && s.tasks[t].Starting?;
  }

  // ---- Exactly when the maximum is exceeded ----

  /** A refill of the default backend begins although callers have filled the pool meanwhile. */
  ghost predicate RefillsAtLimit<W>(c: Config, s: Pool<W>, e: Event<W>)
    requires Enabled(s, e, s.clock)
  {
    && Total(s) == c.poolMax
    && ((e.Refill? && StartsRefill(c, s, s.tasks[e.task].backend))
        || (e.ServerCloses? && s.recs[e.worker].state != Dead && e.worker !in s.workers
            && StartsRefill(c, s, s.recs[e.worker].backend)))
  }

  lemma RemoveAbsent<W>(ws: seq<W>, w: W)
    requires w !in ws
    ensures Remove(ws, w) == ws
  {
    if ws == [] {
    } else {
      RemoveAbsent(ws[1..], w);
    }
  }

  lemma BuryAbsent<W>(c: Config, s: Pool<W>, w: W, b: Backend)
    requires ListInv(s.workers, s.recs) && w in s.recs && w !in s.workers
    ensures StartsRefill(c, Bury(s, w), b) == StartsRefill(c, s, b)
  {
    RemoveAbsent(s.workers, w);
    CountOfSameBackends(s.workers, s.recs, Bury(s, w).recs, b);
  }

  lemma MarkDeadTotal<W>(c: Config, s: Pool<W>, w: W)
    requires Inv(s) && w in s.recs
    ensures w in s.workers ==> Total(MarkDead(c, s, w)) <= Total(s)
    ensures w !in s.workers ==>
      Total(MarkDead(c, s, w)) == Total(s) + One(s.recs[w].state != Dead && StartsRefill(c, s, s.recs[w].backend))
  {
    if s.recs[w].state != Dead {
      var s1 := Bury(s, w);
      UnlistTotal(c, s, w);
      assert Total(s1) == Total(Unlist(s, w));
      BuryInv(s, w);
      ReplenishTotal(c, s1, s.nextTask, s.recs[w].backend);
      if w !in s.workers {
        BuryAbsent(c, s, w, s.recs[w].backend);
      }
    }
  }

  lemma SweepTotal<W>(c: Config, s: Pool<W>, ws: seq<W>)
    requires Inv(s)
    requires forall w :: w in ws ==> w in s.recs
    ensures Total(Sweep(c, s, ws)) <= Total(s)
    decreases |ws|
  {
    if ws == [] {
    } else {
      var w := ws[0];
      if s.recs[w].state == Healthy && !s.recs[w].connected {
        MarkDeadInv(c, s, w);
        MarkDeadTotal(c, s, w);
        SweepTotal(c, MarkDead(c, s, w), ws[1..]);
      } else {
        SweepTotal(c, s, ws[1..]);
      }
    }
  }

  lemma ReuseOrLaunchTotal<W>(c: Config, s: Pool<W>, t: nat, b: Backend, p: Profile)
    requires ListInv(s.workers, s.recs) && LaunchInv(s.launch, s.tasks) && Total(s) <= c.poolMax && Idle(s.tasks, t)
    ensures Total(ReuseOrLaunch(c, s, t, b, p)) <= c.poolMax
  {
    match Select(c, s.recs, s.workers, b, p)
    case Some(w) => GrantNoGrowth(c, s, t, w);
    case None =>
      StartCounts(s.tasks, t, Starting(b, p, ForCaller, s.clock, s.steps), c.defaultBackend);
      UnlistedAreLaunching(s.tasks, c.defaultBackend);
  }

  lemma ResumeTotal<W>(c: Config, s: Pool<W>, t: nat)
    requires Inv(s) && Total(s) <= c.poolMax && t in s.tasks && s.tasks[t].Acquiring?
    ensures Total(ResumeAcquire(c, s, t, s.tasks[t].backend, s.tasks[t].profile)) <= c.poolMax
  {
    SweepInv(c, s, s.workers, t);
    SweepTotal(c, s, s.workers);
    ReuseOrLaunchTotal(c, Sweep(c, s, s.workers), t, s.tasks[t].backend, s.tasks[t].profile);
  }

  lemma OthersStayWithin<W>(c: Config, s: Pool<W>, e: Event<W>)
    requires Inv(s) && Enabled(s, e, s.clock) && Total(s) <= c.poolMax && !e.Refill? && !e.ServerCloses?
    ensures Total(Act(c, s, e)) <= c.poolMax
  {
    match e
    case Arrive(b, p) => ArriveNoGrowth(c, s, b, p);
    case Resume(t) => ResumeTotal(c, s, t);
    case _ => NoLaunchNoGrowth(c, s, e);
  }

  /** From a pool within `browserPoolMax`, a step leaves it exactly when it refills a full pool. */
  lemma MaximumExceededExactly<W>(c: Config, s0: Pool<W>, e: Event<W>, now: int)
    requires Inv(s0) && Enabled(s0, e, now) && Total(s0) <= c.poolMax
    ensures Total(Apply(c, s0, e, now)) > c.poolMax <==> RefillsAtLimit(c, Tick(s0, now), e)
  {
    var s := Tick(s0, now);
    assert Inv(s) && Total(s) == Total(s0);
    match e
    case Refill(t) => ReplenishTotal(c, s, t, s.tasks[t].backend);
    case ServerCloses(w) => MarkDeadTotal(c, s, w);
    case _ => OthersStayWithin(c, s, e);
  }

  // ---- A run past the maximum ----

  function Served(jobs: nat, active: int, state: Health): map<nat, Worker> {
    map[7 := Worker("a", "a", jobs, 0, active, 0, state, 0.0, true)]
  }

  /** The start-up worker 7 is listed and settled, and has been asked for by call 1. */
  function Asked(): Pool<nat> {
    Pool([7], Served(0, 0, Healthy), InFlight(0, map["a" := 0]),
      Backoff(map["a" := 0], map["a" := 0], map["a" := []]), Stats(1, 0, 0, 0, 0),
      false, 0.0, map[1 := Acquiring("a", "a")], 2, 0, 3)
  }

  /** Call 1 is done; its worker, worn out after one job, is retired and due to be replaced. */
  function Retired(): Pool<nat> {
    Asked().(workers := [], recs := Served(1, 0, Dead), stats := Stats(1, 0, 0, 1, 0),
             tasks := map[1 := Refilling("a")], steps := 8)
  }

  /** Before the replacement starts, call 2 begins to launch another backend. */
  function Overtaken(): Pool<nat> {
    Retired().(launch := InFlight(1, map["a" := 0, "b" := 1]),
      tasks := map[1 := Refilling("a"), 2 := Starting("b", "b", ForCaller, 0, 10)], nextTask := 3, steps := 10)
  }

  function Overfull(): Pool<nat> {
    Overtaken().(launch := InFlight(2, map["a" := 1, "b" := 1]),
      tasks := map[1 := Starting("a", "a", ForRefill, 0, 11), 2 := Starting("b", "b", ForCaller, 0, 10)], steps := 11)
  }

  /** The start-up worker 7 is listed and settled. */
  function Ready(): Pool<nat> {
    Asked().(tasks := map[], nextTask := 1, steps := 2)
  }

  lemma ReachReady() returns (run: seq<Timed<nat>>)
    ensures Exec(SmallConfig(1, 1), 0, run) == Some(Ready())
  {
    var c := SmallConfig(1, 1);
    var launching := InFlight(1, map["a" := 1]);
    var s0 := Empty<nat>(0).(nextTask := 1, launch := launching, tasks := map[0 := Starting("a", "a", ForStart, 0, 0)]);
    assert Start<nat>(c, 0, 0) == Empty(0);
    assert Start<nat>(c, 1, 0) == s0;
    run := [];
    var s1 := Asked().(launch := launching, tasks := map[0 := Settling(7, "a", ForStart)], nextTask := 1, steps := 1);
    assert Apply(c, s0, LaunchSucceeds(0, 7), 0) == s1;
    assert Apply(c, s1, Settle(0), 0) == Ready();
    run := Extend(c, 0, run, s0, LaunchSucceeds(0, 7), 0);
    run := Extend(c, 0, run, s1, Settle(0), 0);
  }

  lemma ReachAsked() returns (run: seq<Timed<nat>>)
    ensures Exec(SmallConfig(1, 1), 0, run) == Some(Asked())
  {
    assert Apply(SmallConfig(1, 1), Ready(), Arrive("a", "a"), 0) == Asked();
    run := ReachReady();
    run := Extend(SmallConfig(1, 1), 0, run, Ready(), Arrive("a", "a"), 0);
  }

  function Chosen(): Pool<nat> {
    Asked().(tasks := map[1 := Granted(7)], steps := 4)
  }

  function Working(opening: bool, steps: nat): Pool<nat> {
    Asked().(recs := Served(0, 1, Healthy), tasks := map[1 := Leased(7, opening)], steps := steps)
  }

  function Finished(): Pool<nat> {
    Asked().(recs := Served(1, 0, Healthy), tasks := map[1 := Released(7)], steps := 7)
  }

  lemma ServeAsked()
    ensures Apply(SmallConfig(1, 1), Asked(), Resume(1), 0) == Chosen()
  {
    var c := SmallConfig(1, 1);
    var s := Tick(Asked(), 0);
    assert Sweep(c, s, [7]) == Sweep(c, s, []) == s;
    assert Select(c, s.recs, [7], "a", "a") == Some(7);
  }

  lemma FinishWork()
    ensures Apply(SmallConfig(1, 1), Chosen(), Occupy(1), 0) == Working(true, 5)
    ensures Apply(SmallConfig(1, 1), Working(true, 5), ContextOpens(1), 0) == Working(false, 6)
    ensures Apply(SmallConfig(1, 1), Working(false, 6), Release(1), 0) == Finished()
  {
  }

  lemma RetireFinished()
    ensures Apply(SmallConfig(1, 1), Finished(), Recycle(1), 0) == Retired()
  {
  }

  lemma ReachWorking() returns (run: seq<Timed<nat>>)
    ensures Exec(SmallConfig(1, 1), 0, run) == Some(Working(false, 6))
  {
    run := ReachAsked();
    ServeAsked();
    run := Extend(SmallConfig(1, 1), 0, run, Asked(), Resume(1), 0);
    FinishWork();
    run := Extend(SmallConfig(1, 1), 0, run, Chosen(), Occupy(1), 0);
    run := Extend(SmallConfig(1, 1), 0, run, Working(true, 5), ContextOpens(1), 0);
  }

  lemma ReachFinished() returns (run: seq<Timed<nat>>)
    ensures Exec(SmallConfig(1, 1), 0, run) == Some(Finished())
  {
    run := ReachWorking();
    FinishWork();
    run := Extend(SmallConfig(1, 1), 0, run, Working(false, 6), Release(1), 0);
  }

  lemma ReachRetired() returns (run: seq<Timed<nat>>)
    ensures Exec(SmallConfig(1, 1), 0, run) == Some(Retired())
  {
    run := ReachFinished();
    RetireFinished();
    run := Extend(SmallConfig(1, 1), 0, run, Finished(), Recycle(1), 0);
  }

  function AskedForOther(): Pool<nat> {
    Retired().(tasks := map[1 := Refilling("a"), 2 := Acquiring("b", "b")], nextTask := 3, steps := 9)
  }

  lemma OvertakeRefill()
    ensures Apply(SmallConfig(1, 1), Retired(), Arrive("b", "b"), 0) == AskedForOther()
    ensures Apply(SmallConfig(1, 1), AskedForOther(), Resume(2), 0) == Overtaken()
  {
  }

  lemma RefillOvertaken()
    ensures Apply(SmallConfig(1, 1), Overtaken(), Refill(1), 0) == Overfull()
  {
  }

  lemma ReachOverfull() returns (run: seq<Timed<nat>>)
    ensures Exec(SmallConfig(1, 1), 0, run) == Some(Overfull())
  {
    run := ReachRetired();
    OvertakeRefill();
    run := Extend(SmallConfig(1, 1), 0, run, Retired(), Arrive("b", "b"), 0);
    run := Extend(SmallConfig(1, 1), 0, run, AskedForOther(), Resume(2), 0);
    RefillOvertaken();
    run := Extend(SmallConfig(1, 1), 0, run, Overtaken(), Refill(1), 0);
  }

  lemma OverfullTotal()
    ensures Total(Overfull()) == 2
  {
    assert Matching(Overfull().tasks, Unlisted) == {1, 2};
  }

  /** With a minimum and a maximum of one worker, two are being launched: the bound is reached. */
  lemma MaximumCanBeExceeded() returns (run: seq<Timed<nat>>)
    ensures SmallConfig(1, 1).Valid() && Exec(SmallConfig(1, 1), 0, run) == Some(Overfull())
    ensures Total(Overfull()) == SmallConfig(1, 1).poolMax + SmallConfig(1, 1).poolMin
  {
    run := ReachOverfull();
    OverfullTotal();
  }
}

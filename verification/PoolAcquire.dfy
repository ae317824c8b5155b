/**
 What a call gets when it resumes, when a refill begins, and where each step leaves its call, told
 by the fields that the source tests.
 */
module PoolAcquire {
  import opened Wrappers
  import opened PoolSpec
  import opened PoolInvariants
  import opened PoolLeases
  import opened PoolChoice
  import opened PoolWorkers

  // ---- The choice ----

  /** A listed worker that the call may reuse. */
  predicate Usable<W(==)>(c: Config, s: Pool<W>, w: W, b: Backend, p: Profile) {
    && w in s.workers && w in s.recs
    && s.recs[w].state == Healthy && s.recs[w].connected
    && s.recs[w].backend == b && s.recs[w].profile == p
    && s.recs[w].active < c.contexts
  }

  /** The k-th worker is usable, none usable has fewer contexts, and none before it has as few. */
  ghost predicate BestAt<W>(c: Config, s: Pool<W>, b: Backend, p: Profile, k: int) {
    && 0 <= k < |s.workers| && Usable(c, s, s.workers[k], b, p)
    && forall i :: 0 <= i < |s.workers| && Usable(c, s, s.workers[i], b, p) ==>
         var fewest, other := s.recs[s.workers[k]].active, s.recs[s.workers[i]].active;
         fewest <= other && (i < k ==> fewest < other)
  }

  /** Workers that are not eligible anyway may leave the list before the choice. */
  lemma {:induction false} SelectSkips<W>(c: Config, recs: map<W, Worker>, recs': map<W, Worker>, ws: seq<W>,
                                          gone: set<W>, b: Backend, p: Profile)
    requires forall w :: w in ws ==> w in recs && w in recs'
    requires forall w :: w in ws ==> if w in gone then !Eligible(c, recs[w], b, p) else recs'[w] == recs[w]
    ensures forall w :: w in Kept(ws, gone) ==> w in ws
    ensures Select(c, recs', Kept(ws, gone), b, p) == Select(c, recs, ws, b, p)
  {
    if ws == [] {
    } else {
      SelectSkips(c, recs, recs', ws[1..], gone, b, p);
      if ws[0] in gone {
        assert Kept(ws, gone) == Kept(ws[1..], gone);
      } else {
        assert Kept(ws, gone)[1..] == Kept(ws[1..], gone);
      }
    }
  }

  lemma SweptChoice<W>(c: Config, s: Pool<W>, b: Backend, p: Profile)
    requires ListInv(s.workers, s.recs)
    ensures var swept := Sweep(c, s, s.workers);
      && (forall w :: w in swept.workers ==> w in swept.recs)
      && Select(c, swept.recs, swept.workers, b, p) == Select(c, s.recs, s.workers, b, p)
  {
    var swept := Sweep(c, s, s.workers);
    forall w | w in s.workers
      ensures w in LostIn(s, s.workers) ==> !Eligible(c, s.recs[w], b, p)
      ensures w !in LostIn(s, s.workers) ==> swept.recs[w] == s.recs[w]
    {
      SweepWorker(c, s, s.workers, w);
    }
    SweepList(c, s, s.workers);
    SweepKeepsListed(c, s, s.workers);
    SelectSkips(c, s.recs, swept.recs, s.workers, LostIn(s, s.workers), b, p);
  }

  lemma BestIsChosen<W>(c: Config, s: Pool<W>, b: Backend, p: Profile)
    requires ListInv(s.workers, s.recs)
    ensures Select(c, s.recs, s.workers, b, p).None? <==> forall w :: !Usable(c, s, w, b, p)
    ensures Select(c, s.recs, s.workers, b, p).Some? ==>
      exists k :: BestAt(c, s, b, p, k) && s.workers[k] == Select(c, s.recs, s.workers, b, p).value
  {
    SelectsLeastLoaded(c, s.recs, s.workers, b, p);
    var r := Select(c, s.recs, s.workers, b, p);
    assert forall i :: 0 <= i < |s.workers| ==>
      (Eligible(c, s.recs[s.workers[i]], b, p) <==> Usable(c, s, s.workers[i], b, p));
    if r.Some? {
      var k :| 0 <= k < |s.workers| && s.workers[k] == r.value && LeastLoaded(c, s.recs, s.workers, b, p, k);
      assert BestAt(c, s, b, p, k);
    }
  }

  /** The call goes on with the best worker, if any is usable. */
  ghost predicate Reuses<W>(c: Config, s: Pool<W>, s': Pool<W>, t: nat, b: Backend, p: Profile) {
    t in s'.tasks && s'.tasks[t].Granted? && exists k :: BestAt(c, s, b, p, k) && s.workers[k] == s'.tasks[t].worker
  }

  /** Otherwise it launches one if memory, room and schedule allow it, and is refused if not. */
  ghost predicate LaunchesOrEnds<W>(c: Config, s: Pool<W>, s': Pool<W>, t: nat, b: Backend, p: Profile) {
    if t in s'.tasks
    then
      && s'.tasks[t] == Starting(b, p, ForCaller, s.clock, s.steps)
      && s.totalRssMb < c.softMb && |s'.workers| + s'.launch.total <= c.poolMax
      && Get(s.backoff.nextLaunchAt, b, 0) <= s.clock
    else
      s.totalRssMb >= c.softMb || |s'.workers| + s'.launch.total >= c.poolMax
      || Get(s.backoff.nextLaunchAt, b, 0) > s.clock
  }

  lemma {:induction false} SweepKeepsTimes<W>(c: Config, s: Pool<W>, ws: seq<W>)
    requires forall w :: w in ws ==> w in s.recs
    ensures var r := Sweep(c, s, ws);
      r.totalRssMb == s.totalRssMb && r.backoff == s.backoff && r.clock == s.clock && r.steps == s.steps
    decreases |ws|
  {
    if ws == [] {
    } else {
      SweepKeepsTimes(c, if Lost(s.recs[ws[0]]) then MarkDead(c, s, ws[0]) else s, ws[1..]);
    }
  }

  lemma ReuseDecides<W>(c: Config, s: Pool<W>, t: nat, b: Backend, p: Profile)
    requires forall w :: w in s.workers ==> w in s.recs
    ensures var s', choice := ReuseOrLaunch(c, s, t, b, p), Select(c, s.recs, s.workers, b, p);
      if choice.Some? then t in s'.tasks && s'.tasks[t] == Granted(choice.value)
      else LaunchesOrEnds(c, s, s', t, b, p)
  {
  }

  /**
   A call that resumes first drops the workers that disconnected unnoticed. Then it reuses the usable
   worker with the fewest contexts, the earliest listed of those; if none is usable it launches one,
   as far as memory, room and schedule allow; and otherwise it is refused.
   */
  lemma AcquireDecides<W>(c: Config, s0: Pool<W>, t: nat, now: int)
    requires Inv(s0) && Enabled(s0, Resume(t), now)
    ensures var s, s' := Tick(s0, now), Apply(c, s0, Resume(t), now);
      var b, p := s0.tasks[t].backend, s0.tasks[t].profile;
      && (forall w :: w in s'.workers ==> w in s'.recs && (s'.recs[w].state == Healthy ==> s'.recs[w].connected))
      && if exists w :: Usable(c, s, w, b, p) then Reuses(c, s, s', t, b, p) else LaunchesOrEnds(c, s, s', t, b, p)
  {
    var s := Tick(s0, now);
    var b, p := s.tasks[t].backend, s.tasks[t].profile;
    assert Inv(s);
    SweptChoice(c, s, b, p);
    BestIsChosen(c, s, b, p);
    SweepKeepsTimes(c, s, s.workers);
    ReuseDecides(c, Sweep(c, s, s.workers), t, b, p);
    ResumeFrame(c, s, t);
    forall w | w in Act(c, s, Resume(t)).workers
      ensures w in Act(c, s, Resume(t)).recs
      ensures Act(c, s, Resume(t)).recs[w].state == Healthy ==> Act(c, s, Resume(t)).recs[w].connected
    {
      SweepKeepsListed(c, s, s.workers);
      SweepWorker(c, s, s.workers, w);
    }
  }

  // ---- Refills ----

  ghost function OfBackend<W>(ws: seq<W>, recs: map<W, Worker>, b: Backend): set<W>
    requires forall w :: w in ws ==> w in recs
  {
    set w | w in ws && recs[w].backend == b
  }

  lemma OfBackendRest<W>(ws: seq<W>, recs: map<W, Worker>, b: Backend)
    requires ws != [] && Distinct(ws) && forall w :: w in ws ==> w in recs
    ensures ws[0] !in ws[1..] && Distinct(ws[1..])
    ensures OfBackend(ws, recs, b) == OfBackend(ws[1..], recs, b) + if recs[ws[0]].backend == b then {ws[0]} else {}
  {
    assert forall i :: 0 <= i < |ws[1..]| ==> ws[1..][i] == ws[i + 1];
    assert ws == [ws[0]] + ws[1..];
  }

  lemma {:induction false} CountOfIsCard<W>(ws: seq<W>, recs: map<W, Worker>, b: Backend)
    requires Distinct(ws) && forall w :: w in ws ==> w in recs
    ensures CountOf(ws, recs, b) == |OfBackend(ws, recs, b)|
  {
    if ws == [] {
      assert OfBackend(ws, recs, b) == {};
    } else {
      OfBackendRest(ws, recs, b);
      CountOfIsCard(ws[1..], recs, b);
    }
  }

  /** Fewer workers of the default backend are listed or launching than the minimum, and nothing forbids a launch. */
  ghost predicate NeedsRefill<W>(c: Config, s: Pool<W>, b: Backend)
    requires forall w :: w in s.workers ==> w in s.recs
  {
    && !s.closed && b == c.defaultBackend
    && |OfBackend(s.workers, s.recs, b)|
       + |set t | t in s.tasks && (s.tasks[t].Starting? || s.tasks[t].Settling?) && s.tasks[t].backend == b| < c.poolMin
    && Get(s.backoff.nextLaunchAt, b, 0) <= s.clock
  }

  lemma LaunchingCard<W>(tasks: map<nat, Task<W>>, b: Backend)
    ensures Count(tasks, LaunchingOf(b)) ==
      |set t | t in tasks && (tasks[t].Starting? || tasks[t].Settling?) && tasks[t].backend == b|
  {
    assert Matching(tasks, LaunchingOf(b)) ==
      set t | t in tasks && (tasks[t].Starting? || tasks[t].Settling?) && tasks[t].backend == b;
  }

  lemma ReplenishDecides<W>(c: Config, s: Pool<W>, t: nat, b: Backend)
    requires Distinct(s.workers) && LaunchInv(s.launch, s.tasks) && forall w :: w in s.workers ==> w in s.recs
    ensures var s' := Replenish(c, s, t, b);
      s'.tasks ==
        if NeedsRefill(c, s, b) then s.tasks[t := Starting(b, c.defaultProfile, ForRefill, s.clock, s.steps)]
        else s.tasks - {t}
  {
    CountOfIsCard(s.workers, s.recs, b);
    LaunchingCard(s.tasks, b);
    assert Get(s.launch.per, b, 0) == Count(s.tasks, LaunchingOf(b));
  }

  /** A due refill launches a worker of the default profile exactly when one is needed. */
  lemma RefillsExactly<W>(c: Config, s: Pool<W>, t: nat)
    requires Inv(s) && Enabled(s, Refill(t), s.clock)
    ensures Act(c, s, Refill(t)).tasks ==
      if NeedsRefill(c, s, s.tasks[t].backend)
      then s.tasks[t := Starting(s.tasks[t].backend, c.defaultProfile, ForRefill, s.clock, s.steps)]
      else s.tasks - {t}
  {
    ReplenishDecides(c, s, t, s.tasks[t].backend);
  }

  /** A crash sets off a launch of its own exactly when, without the worker, one is needed. */
  lemma CrashRefillsExactly<W>(c: Config, s: Pool<W>, w: W)
    requires Inv(s) && w in s.recs && s.recs[w].state != Dead
    ensures var buried := s.(workers := Remove(s.workers, w), recs := s.recs[w := s.recs[w].(state := Dead)]);
      && (forall x :: x in buried.workers ==> x in buried.recs)
      && MarkDead(c, s, w).tasks ==
           if NeedsRefill(c, buried, s.recs[w].backend)
           then s.tasks[s.nextTask := Starting(s.recs[w].backend, c.defaultProfile, ForRefill, s.clock, s.steps)]
           else s.tasks
  {
    BuryInv(s, w);
    var b := Bury(s, w);
    RemoveDistinct(s.workers, w);
    ReplenishDecides(c, b, s.nextTask, s.recs[w].backend);
    assert b.tasks == s.tasks && s.tasks - {s.nextTask} == s.tasks;
    var buried := s.(workers := Remove(s.workers, w), recs := s.recs[w := s.recs[w].(state := Dead)]);
    assert NeedsRefill(c, buried, s.recs[w].backend) == NeedsRefill(c, b, s.recs[w].backend);
  }

  // ---- Where a step leaves its call ----

  /** The next suspension of the call that a step runs, if it has one. */
  ghost function Next<W>(c: Config, s: Pool<W>, e: Event<W>): Option<Task<W>>
    requires Enabled(s, e, s.clock) && IsCall(e) && !e.Refill?
  {
    var k := s.tasks[e.task];
    match e
    case LaunchSucceeds(_, w) => Some(Settling(w, k.backend, k.origin))
    case LaunchFails(_) => None
    case Settle(_) => if k.origin == ForCaller then Some(Granted(k.worker)) else None
    case Occupy(_) => Some(Leased(k.worker, true))
    case ContextOpens(_) => Some(Leased(k.worker, false))
    case ContextFails(_) => Some(Leased(k.worker, false))
    case Release(_) => Some(Released(k.worker))
    case Recycle(_) => if Dies(c, s, e, k.worker) then Some(Refilling(s.recs[k.worker].backend)) else None
  }

  /** Every step of a call leads to the suspension that follows in the source, and leaves the other calls alone. */
  lemma CallMovesOn<W>(c: Config, s: Pool<W>, e: Event<W>)
    requires Enabled(s, e, s.clock) && IsCall(e) && !e.Refill?
    ensures Act(c, s, e).tasks ==
      match Next(c, s, e) case Some(k) => s.tasks[e.task := k] case None => s.tasks - {e.task}
  {
  }

  /** `initialize` begins the minimum of launches of the default backend and profile, and nothing else. */
  lemma {:induction false} StartsMinimum<W>(c: Config, n: nat, t0: nat)
    ensures var s := Start<W>(c, n, t0);
      && (forall t: nat :: t in s.tasks <==> t < n)
      && (forall t :: t in s.tasks ==>
            s.tasks[t] == Starting(c.defaultBackend, c.defaultProfile, ForStart, t0, 0))
      && s.backoff == Backoff(map[], map[], map[]) && s.clock == t0 && s.steps == 0 && s.nextTask == n
  {
    if n == 0 {
    } else {
      StartsMinimum<W>(c, n - 1, t0);
    }
  }
}

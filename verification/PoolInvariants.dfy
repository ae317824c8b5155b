/** What every step of the browser pool keeps, and therefore what holds in every run. */
module PoolInvariants {
  import opened Wrappers
  import opened PoolSpec

  // ---- Counting calls in flight ----

  datatype Query<W> =
    | Launching
    | LaunchingOf(backend: Backend)
    | Unlisted
    | UnlistedOther(backend: Backend)
    | Unfinished
    | GrantOf(worker: W)
    | LeaseOf(worker: W)
    | HoldOn(worker: W)

  /**
   `Unlisted` launches are those whose worker is not yet in the list; a hold is a lease or a due
   `recycle`; an unfinished call may still list a worker.
   */
  predicate Is<W(==)>(q: Query<W>, k: Task<W>) {
    match q
    case Launching => k.Starting? || k.Settling?
    case LaunchingOf(b) => (k.Starting? || k.Settling?) && k.backend == b
    case Unlisted => k.Starting?
    case UnlistedOther(b) => k.Starting? && k.backend != b
    case Unfinished => k.Acquiring? || k.Starting?
    case GrantOf(w) => k.Granted? && k.worker == w
    case LeaseOf(w) => k.Leased? && k.worker == w
    case HoldOn(w) => (k.Leased? || k.Released?) && k.worker == w
  }

  ghost predicate Hits<W>(tasks: map<nat, Task<W>>, t: nat, q: Query<W>) {
    t in tasks && Is(q, tasks[t])
  }

  ghost function Matching<W>(tasks: map<nat, Task<W>>, q: Query<W>): set<nat> {
    set t | t in tasks && Hits(tasks, t, q)
  }

  ghost function Count<W>(tasks: map<nat, Task<W>>, q: Query<W>): nat {
    |Matching(tasks, q)|
  }

  function One(b: bool): nat {
    if b then 1 else 0
  }

  lemma CardOfChange(a: set<nat>, b: set<nat>, t: nat)
    requires a - {t} == b - {t}
    ensures |b| == |a| - One(t in a) + One(t in b)
  {
    assert |a - {t}| == |a| - One(t in a);
    assert |b - {t}| == |b| - One(t in b);
  }

  lemma CountPut<W>(tasks: map<nat, Task<W>>, t: nat, k: Task<W>, q: Query<W>)
    ensures Count(tasks[t := k], q) == Count(tasks, q) - One(Hits(tasks, t, q)) + One(Is(q, k))
  {
    CardOfChange(Matching(tasks, q), Matching(tasks[t := k], q), t);
  }

  lemma CountDrop<W>(tasks: map<nat, Task<W>>, t: nat, q: Query<W>)
    ensures Count(tasks - {t}, q) == Count(tasks, q) - One(Hits(tasks, t, q))
  {
    CardOfChange(Matching(tasks, q), Matching(tasks - {t}, q), t);
  }

  lemma CountSome<W>(tasks: map<nat, Task<W>>, t: nat, q: Query<W>)
    requires Hits(tasks, t, q)
    ensures Count(tasks, q) >= 1
  {
    assert t in Matching(tasks, q);
  }

  lemma SubsetCard(a: set<nat>, b: set<nat>)
    requires a <= b
    ensures |a| <= |b|
  {
    assert b == a + (b - a);
  }

  lemma LeaseIsHold<W>(tasks: map<nat, Task<W>>, w: W)
    ensures Count(tasks, LeaseOf(w)) <= Count(tasks, HoldOn(w))
  {
    SubsetCard(Matching(tasks, LeaseOf(w)), Matching(tasks, HoldOn(w)));
  }

  // ---- The list ----

  ghost predicate Distinct<W>(ws: seq<W>) {
    forall i, j :: 0 <= i < j < |ws| ==> ws[i] != ws[j]
  }

  lemma RemoveDistinct<W>(ws: seq<W>, w: W)
    requires Distinct(ws)
    ensures Distinct(Remove(ws, w))
    ensures forall x :: x in Remove(ws, w) ==> x in ws && x != w
    ensures forall x :: x in ws && x != w ==> x in Remove(ws, w)
    ensures |Remove(ws, w)| == |ws| - if w in ws then 1 else 0
  {
    if ws != [] && ws[0] != w {
      RemoveDistinct(ws[1..], w);
      var rest := Remove(ws[1..], w);
      assert forall x :: x in ws <==> x == ws[0] || x in ws[1..];
      assert ws[0] !in ws[1..];
      assert Remove(ws, w) == [ws[0]] + rest;
    }
  }

  // ---- The invariant ----

  ghost predicate ListInv<W>(ws: seq<W>, recs: map<W, Worker>) {
    && Distinct(ws)
    && (forall w :: w in ws ==> w in recs && recs[w].state != Dead)
    && (forall w :: w in recs && w !in ws ==> recs[w].state != Healthy)
  }

  predicate HasWorker<W>(k: Task<W>) {
    k.Settling? || k.Granted? || k.Leased? || k.Released?
  }

  predicate SameSettling<W(==)>(j: Task<W>, k: Task<W>) {
    j.Settling? && k.Settling? && j.worker == k.worker
  }

  ghost predicate TaskInv<W>(tasks: map<nat, Task<W>>, next: nat, workers: set<W>) {
    && (forall t :: t in tasks ==> t < next)
    && (forall t :: t in tasks && HasWorker(tasks[t]) ==> tasks[t].worker in workers)
    && (forall t, u :: t in tasks && u in tasks && SameSettling(tasks[t], tasks[u]) ==> t == u)
  }

  ghost predicate LaunchInv<W>(l: InFlight, tasks: map<nat, Task<W>>) {
    && l.total == Count(tasks, Launching)
    && forall b :: Get(l.per, b, 0) == Count(tasks, LaunchingOf(b))
  }

  /** Leases are counted exactly. */
  ghost predicate LeaseInv<W>(recs: map<W, Worker>, tasks: map<nat, Task<W>>) {
    forall w :: w in recs ==> recs[w].active == Count(tasks, LeaseOf(w))
  }

  ghost predicate HoldInv<W>(ws: seq<W>, recs: map<W, Worker>, tasks: map<nat, Task<W>>) {
    forall w :: w in ws && w in recs && recs[w].state == Draining && recs[w].connected ==>
      Count(tasks, HoldOn(w)) >= 1
  }

  ghost predicate Inv<W>(s: Pool<W>) {
    && ListInv(s.workers, s.recs)
    && TaskInv(s.tasks, s.nextTask, s.recs.Keys)
    && LaunchInv(s.launch, s.tasks)
    && LeaseInv(s.recs, s.tasks)
    && HoldInv(s.workers, s.recs, s.tasks)
  }

  // ---- Steps of a call that holds no worker ----

  /** `t` is free or names a call that holds neither a worker nor a launch. */
  predicate Idle<W(==)>(tasks: map<nat, Task<W>>, t: nat) {
    t in tasks ==> tasks[t].Acquiring? || tasks[t].Refilling?
  }

  ghost predicate HoldsInv<W>(ws: seq<W>, recs: map<W, Worker>, tasks: map<nat, Task<W>>, next: nat) {
    TaskInv(tasks, next, recs.Keys) && LeaseInv(recs, tasks) && HoldInv(ws, recs, tasks)
  }

  lemma PutPlain<W>(ws: seq<W>, recs: map<W, Worker>, tasks: map<nat, Task<W>>, next: nat, t: nat,
                    k: Task<W>)
    requires HoldsInv(ws, recs, tasks, next) && t < next
    requires t in tasks ==> !HasWorker(tasks[t])
    requires !HasWorker(k)
    ensures HoldsInv(ws, recs, tasks[t := k], next)
  {
    forall w | w in recs
      ensures Count(tasks[t := k], LeaseOf(w)) == Count(tasks, LeaseOf(w))
      ensures Count(tasks[t := k], HoldOn(w)) == Count(tasks, HoldOn(w))
    {
      CountPut(tasks, t, k, LeaseOf(w));
      CountPut(tasks, t, k, HoldOn(w));
    }
  }

  lemma DropTask<W>(tasks: map<nat, Task<W>>, next: nat, workers: set<W>, t: nat)
    requires TaskInv(tasks, next, workers)
    ensures TaskInv(tasks - {t}, next, workers)
  {
  }

  /** Dropping a call that holds no context leaves the counts exact. */
  lemma DropCounts<W>(recs: map<W, Worker>, tasks: map<nat, Task<W>>, t: nat)
    requires LeaseInv(recs, tasks) && (t in tasks ==> !tasks[t].Leased?)
    ensures LeaseInv(recs, tasks - {t})
  {
    forall w | w in recs ensures Count(tasks - {t}, LeaseOf(w)) == Count(tasks, LeaseOf(w)) {
      CountDrop(tasks, t, LeaseOf(w));
    }
  }

  /** Dropping a call leaves every draining worker held, unless it was the last to hold its worker. */
  lemma DropHolds<W>(ws: seq<W>, recs: map<W, Worker>, tasks: map<nat, Task<W>>, t: nat)
    requires HoldInv(ws, recs, tasks)
    requires t in tasks && (tasks[t].Leased? || tasks[t].Released?) ==>
      var w := tasks[t].worker; w !in ws || w !in recs || recs[w].state != Draining || Count(tasks, HoldOn(w)) >= 2
    ensures HoldInv(ws, recs, tasks - {t})
  {
    forall x | x in ws && x in recs && recs[x].state == Draining && recs[x].connected
      ensures Count(tasks - {t}, HoldOn(x)) >= 1
    {
      CountDrop(tasks, t, HoldOn(x));
    }
  }

  lemma DropPlain<W>(ws: seq<W>, recs: map<W, Worker>, tasks: map<nat, Task<W>>, next: nat, t: nat)
    requires HoldsInv(ws, recs, tasks, next)
    requires t in tasks ==> !tasks[t].Leased? && !tasks[t].Released?
    ensures HoldsInv(ws, recs, tasks - {t}, next)
  {
    DropTask(tasks, next, recs.Keys, t);
    DropCounts(recs, tasks, t);
    DropHolds(ws, recs, tasks, t);
  }

  lemma LaunchUntouched<W>(l: InFlight, tasks: map<nat, Task<W>>, t: nat, k: Task<W>)
    requires LaunchInv(l, tasks)
    requires t in tasks ==> !tasks[t].Starting? && !tasks[t].Settling?
    ensures !k.Starting? && !k.Settling? ==> LaunchInv(l, tasks[t := k])
    ensures LaunchInv(l, tasks - {t})
  {
    CountPut(tasks, t, k, Launching);
    CountDrop(tasks, t, Launching);
    forall b
      ensures Count(tasks - {t}, LaunchingOf(b)) == Count(tasks, LaunchingOf(b))
      ensures !k.Starting? && !k.Settling? ==> Count(tasks[t := k], LaunchingOf(b)) == Count(tasks, LaunchingOf(b))
    {
      CountPut(tasks, t, k, LaunchingOf(b));
      CountDrop(tasks, t, LaunchingOf(b));
    }
  }

  lemma LaunchEntered<W>(l: InFlight, tasks: map<nat, Task<W>>, t: nat, k: Task<W>)
    requires LaunchInv(l, tasks) && Idle(tasks, t) && k.Starting?
    ensures LaunchInv(Enter(l, k.backend), tasks[t := k])
  {
    CountPut(tasks, t, k, Launching);
    forall b ensures Count(tasks[t := k], LaunchingOf(b)) == Count(tasks, LaunchingOf(b)) + One(b == k.backend) {
      CountPut(tasks, t, k, LaunchingOf(b));
    }
  }

  lemma LaunchLeft<W>(l: InFlight, tasks: map<nat, Task<W>>, t: nat, k: Task<W>)
    requires LaunchInv(l, tasks) && t in tasks && (tasks[t].Starting? || tasks[t].Settling?)
    requires !k.Starting? && !k.Settling?
    ensures LaunchInv(Leave(l, tasks[t].backend), tasks - {t})
    ensures LaunchInv(Leave(l, tasks[t].backend), tasks[t := k])
  {
    CountPut(tasks, t, k, Launching);
    CountDrop(tasks, t, Launching);
    CountSome(tasks, t, LaunchingOf(tasks[t].backend));
    forall b
      ensures Count(tasks - {t}, LaunchingOf(b)) == Count(tasks, LaunchingOf(b)) - One(b == tasks[t].backend)
      ensures Count(tasks[t := k], LaunchingOf(b)) == Count(tasks, LaunchingOf(b)) - One(b == tasks[t].backend)
    {
      CountPut(tasks, t, k, LaunchingOf(b));
      CountDrop(tasks, t, LaunchingOf(b));
    }
  }

  lemma DropIdleInv<W>(s: Pool<W>, t: nat)
    requires Inv(s) && Idle(s.tasks, t)
    ensures Inv(s.(tasks := s.tasks - {t}))
  {
    DropPlain(s.workers, s.recs, s.tasks, s.nextTask, t);
    LaunchUntouched(s.launch, s.tasks, t, Refilling(""));
  }

  lemma BeginLaunchInv<W>(s: Pool<W>, t: nat, b: Backend, p: Profile, o: Origin)
    requires Inv(s) && Idle(s.tasks, t) && t < s.nextTask
    ensures Inv(BeginLaunch(s, t, b, p, o))
  {
    DropIdleInv(s, t);
    var k: Task<W> := Starting(b, p, o, s.clock, s.steps);
    PutPlain(s.workers, s.recs, s.tasks, s.nextTask, t, k);
    LaunchEntered(s.launch, s.tasks, t, k);
  }

  lemma ReplenishInv<W>(c: Config, s: Pool<W>, t: nat, b: Backend)
    requires Inv(s) && Idle(s.tasks, t) && t < s.nextTask
    ensures Inv(Replenish(c, s, t, b))
  {
    DropIdleInv(s, t);
    BeginLaunchInv(s, t, b, c.defaultProfile, ForRefill);
  }

  // ---- Leaving the list ----

  lemma UnlistInv<W>(s: Pool<W>, w: W)
    requires Inv(s) && w in s.recs
    ensures Inv(Unlist(s, w))
  {
    RemoveDistinct(s.workers, w);
    var r := Unlist(s, w);
    assert r.recs.Keys == s.recs.Keys;
    assert r.workers == Remove(s.workers, w);
    forall x | x in r.workers ensures x in s.recs && x != w && r.recs[x] == s.recs[x] {
      assert x in Remove(s.workers, w);
      assert x in s.workers;
    }
  }

  lemma BuryInv<W>(s: Pool<W>, w: W)
    requires Inv(s) && w in s.recs
    ensures Inv(Bury(s, w)) && s.nextTask !in Bury(s, w).tasks
  {
    UnlistInv(s, w);
  }

  lemma MarkDeadInv<W>(c: Config, s: Pool<W>, w: W)
    requires Inv(s) && w in s.recs
    ensures Inv(MarkDead(c, s, w))
  {
    if s.recs[w].state != Dead {
      BuryInv(s, w);
      ReplenishInv(c, Bury(s, w), s.nextTask, s.recs[w].backend);
    }
  }

  /** A launch begun, or not begun, for task t touches no other call. */
  lemma ReplenishKeepsTasks<W>(c: Config, s: Pool<W>, t: nat, b: Backend)
    ensures Replenish(c, s, t, b).nextTask == s.nextTask
    ensures Replenish(c, s, t, b).tasks - {t} == s.tasks - {t}
  {
  }

  lemma MarkDeadKeepsTasks<W>(c: Config, s: Pool<W>, w: W, t: nat)
    requires w in s.recs && t < s.nextTask && Idle(s.tasks, t)
    ensures t < MarkDead(c, s, w).nextTask && Idle(MarkDead(c, s, w).tasks, t)
  {
    if s.recs[w].state != Dead {
      ReplenishKeepsTasks(c, Bury(s, w), s.nextTask, s.recs[w].backend);
      assert t in s.tasks <==> t in Bury(s, w).tasks - {s.nextTask};
    }
  }

  lemma SweepInv<W>(c: Config, s: Pool<W>, ws: seq<W>, t: nat)
    requires Inv(s) && t < s.nextTask && Idle(s.tasks, t)
    requires forall w :: w in ws ==> w in s.recs
    ensures Inv(Sweep(c, s, ws))
    ensures t < Sweep(c, s, ws).nextTask && Idle(Sweep(c, s, ws).tasks, t)
    decreases |ws|
  {
    if ws == [] {
    } else {
      MarkDeadInv(c, s, ws[0]);
      MarkDeadKeepsTasks(c, s, ws[0], t);
      var r := s.recs[ws[0]];
      SweepInv(c, if r.state == Healthy && !r.connected then MarkDead(c, s, ws[0]) else s, ws[1..], t);
    }
  }

  // ---- Leases ----

  lemma LeaseCounts<W>(tasks: map<nat, Task<W>>, t: nat, w: W, x: W)
    requires t in tasks ==> !tasks[t].Leased? && !tasks[t].Released?
    ensures Count(tasks[t := Leased(w, true)], LeaseOf(x)) == Count(tasks, LeaseOf(x)) + One(w == x)
    ensures Count(tasks[t := Leased(w, true)], HoldOn(x)) == Count(tasks, HoldOn(x)) + One(w == x)
  {
    CountPut(tasks, t, Leased(w, true), LeaseOf(x));
    CountPut(tasks, t, Leased(w, true), HoldOn(x));
  }

  lemma LeaseIsCounted<W>(recs: map<W, Worker>, tasks: map<nat, Task<W>>, t: nat, w: W)
    requires LeaseInv(recs, tasks) && w in recs
    requires t in tasks ==> !tasks[t].Leased? && !tasks[t].Released?
    ensures LeaseInv(recs[w := recs[w].(active := recs[w].active + 1)], tasks[t := Leased(w, true)])
  {
    forall x | x in recs
      ensures Count(tasks[t := Leased(w, true)], LeaseOf(x)) == Count(tasks, LeaseOf(x)) + One(w == x)
    {
      LeaseCounts(tasks, t, w, x);
    }
  }

  lemma LeaseHolds<W>(s: Pool<W>, t: nat, w: W)
    requires HoldsInv(s.workers, s.recs, s.tasks, s.nextTask) && w in s.recs && t < s.nextTask
    requires t in s.tasks ==> !s.tasks[t].Leased? && !s.tasks[t].Released?
    ensures var r := Lease(s, t, w); HoldsInv(r.workers, r.recs, r.tasks, r.nextTask)
  {
    var r := Lease(s, t, w);
    assert r.recs.Keys == s.recs.Keys;
    LeaseIsCounted(s.recs, s.tasks, t, w);
    forall x | x in s.recs ensures Count(r.tasks, HoldOn(x)) >= Count(s.tasks, HoldOn(x)) {
      LeaseCounts(s.tasks, t, w, x);
    }
  }

  /** A granted call counts its context. */
  lemma OccupyInv<W>(s: Pool<W>, t: nat)
    requires Inv(s) && t in s.tasks && s.tasks[t].Granted?
    ensures Inv(Lease(s, t, s.tasks[t].worker))
  {
    var w := s.tasks[t].worker;
    LeaseHolds(s, t, w);
    LaunchUntouched(s.launch, s.tasks, t, Leased(w, true));
  }

  // ---- Grants ----

  lemma GrantHolds<W>(ws: seq<W>, recs: map<W, Worker>, tasks: map<nat, Task<W>>, next: nat, t: nat, w: W)
    requires HoldsInv(ws, recs, tasks, next) && w in recs && t < next
    requires t in tasks ==> !tasks[t].Leased? && !tasks[t].Released?
    ensures HoldsInv(ws, recs, tasks[t := Granted(w)], next)
  {
    forall x | x in recs
      ensures Count(tasks[t := Granted(w)], LeaseOf(x)) == Count(tasks, LeaseOf(x))
      ensures Count(tasks[t := Granted(w)], HoldOn(x)) == Count(tasks, HoldOn(x))
    {
      CountPut(tasks, t, Granted(w), LeaseOf(x));
      CountPut(tasks, t, Granted(w), HoldOn(x));
    }
  }

  lemma GrantInv<W>(s: Pool<W>, t: nat, w: W)
    requires Inv(s) && w in s.recs && Idle(s.tasks, t) && t < s.nextTask
    ensures Inv(Grant(s, t, w))
  {
    GrantHolds(s.workers, s.recs, s.tasks, s.nextTask, t, w);
    LaunchUntouched(s.launch, s.tasks, t, Granted(w));
  }

  lemma ReuseOrLaunchInv<W>(c: Config, s: Pool<W>, t: nat, b: Backend, p: Profile)
    requires Inv(s) && Idle(s.tasks, t) && t < s.nextTask
    ensures Inv(ReuseOrLaunch(c, s, t, b, p))
  {
    match Select(c, s.recs, s.workers, b, p)
    case Some(w) => GrantInv(s, t, w);
    case None =>
      DropIdleInv(s, t);
      BeginLaunchInv(s, t, b, p, ForCaller);
  }

  lemma ResumeInv<W>(c: Config, s: Pool<W>, t: nat, b: Backend, p: Profile)
    requires Inv(s) && Idle(s.tasks, t) && t < s.nextTask
    ensures Inv(ResumeAcquire(c, s, t, b, p))
  {
    SweepInv(c, s, s.workers, t);
    ReuseOrLaunchInv(c, Sweep(c, s, s.workers), t, b, p);
  }

  lemma SettleInv<W>(s: Pool<W>, t: nat)
    requires Inv(s) && t in s.tasks && s.tasks[t].Settling?
    ensures Inv(SettleStep(s, t))
  {
    var k := s.tasks[t];
    LaunchLeft(s.launch, s.tasks, t, Granted(k.worker));
    if k.origin == ForCaller {
      GrantHolds(s.workers, s.recs, s.tasks, s.nextTask, t, k.worker);
    } else {
      DropPlain(s.workers, s.recs, s.tasks, s.nextTask, t);
    }
  }

  // ---- Launch outcomes ----

  lemma NoHoldOnStranger<W>(tasks: map<nat, Task<W>>, next: nat, workers: set<W>, w: W)
    requires TaskInv(tasks, next, workers) && w !in workers
    ensures Count(tasks, LeaseOf(w)) == 0
  {
    assert Matching(tasks, LeaseOf(w)) == {};
  }

  lemma ListedCounts<W>(tasks: map<nat, Task<W>>, t: nat, w: W, b: Backend, o: Origin, x: W)
    requires t in tasks && tasks[t].Starting?
    ensures Count(tasks[t := Settling(w, b, o)], LeaseOf(x)) == Count(tasks, LeaseOf(x))
    ensures Count(tasks[t := Settling(w, b, o)], HoldOn(x)) == Count(tasks, HoldOn(x))
  {
    CountPut(tasks, t, Settling(w, b, o), LeaseOf(x));
    CountPut(tasks, t, Settling(w, b, o), HoldOn(x));
  }

  lemma ListedLeases<W>(recs: map<W, Worker>, tasks: map<nat, Task<W>>, next: nat, t: nat, w: W, r: Worker,
                        b: Backend, o: Origin)
    requires TaskInv(tasks, next, recs.Keys) && LeaseInv(recs, tasks)
    requires t in tasks && tasks[t].Starting? && w !in recs && r.active == 0
    ensures TaskInv(tasks[t := Settling(w, b, o)], next, recs[w := r].Keys)
    ensures LeaseInv(recs[w := r], tasks[t := Settling(w, b, o)])
  {
    NoHoldOnStranger(tasks, next, recs.Keys, w);
    forall x | x in recs[w := r] ensures Count(tasks[t := Settling(w, b, o)], LeaseOf(x)) == Count(tasks, LeaseOf(x)) {
      ListedCounts(tasks, t, w, b, o, x);
    }
  }

  lemma LaunchSucceedsHolds<W>(s: Pool<W>, t: nat, w: W)
    requires Inv(s) && t in s.tasks && s.tasks[t].Starting? && w !in s.recs
    ensures var r := LaunchSucceedsStep(s, t, w); HoldsInv(r.workers, r.recs, r.tasks, r.nextTask)
  {
    var r, k := LaunchSucceedsStep(s, t, w), s.tasks[t];
    ListedLeases(s.recs, s.tasks, s.nextTask, t, w, r.recs[w], k.backend, k.origin);
    forall x | x in s.recs ensures Count(r.tasks, HoldOn(x)) == Count(s.tasks, HoldOn(x)) {
      ListedCounts(s.tasks, t, w, k.backend, k.origin, x);
    }
  }

  lemma LaunchSucceedsInv<W>(s: Pool<W>, t: nat, w: W)
    requires Inv(s) && t in s.tasks && s.tasks[t].Starting? && w !in s.recs
    ensures Inv(LaunchSucceedsStep(s, t, w))
  {
    LaunchSucceedsHolds(s, t, w);
    var r := LaunchSucceedsStep(s, t, w);
    CountPut(s.tasks, t, r.tasks[t], Launching);
    forall b ensures Count(r.tasks, LaunchingOf(b)) == Count(s.tasks, LaunchingOf(b)) {
      CountPut(s.tasks, t, r.tasks[t], LaunchingOf(b));
    }
    assert ListInv(r.workers, r.recs);
  }

  lemma LaunchFailsInv<W>(c: Config, s: Pool<W>, t: nat)
    requires Inv(s) && t in s.tasks && s.tasks[t].Starting?
    ensures Inv(LaunchFailsStep(c, s, t))
  {
    DropPlain(s.workers, s.recs, s.tasks, s.nextTask, t);
    LaunchLeft(s.launch, s.tasks, t, Refilling(""));
  }

  // ---- A lease from opening to recycling ----

  lemma CloseLeaseCounts<W>(tasks: map<nat, Task<W>>, t: nat, k: Task<W>, x: W)
    requires t in tasks && tasks[t].Leased? && (k.Leased? || k.Released?) && k.worker == tasks[t].worker
    ensures Count(tasks[t := k], LeaseOf(x)) == Count(tasks, LeaseOf(x)) - One(k.Released? && x == k.worker)
    ensures Count(tasks[t := k], HoldOn(x)) == Count(tasks, HoldOn(x))
  {
    CountPut(tasks, t, k, LeaseOf(x));
    CountPut(tasks, t, k, HoldOn(x));
  }

  /** A call that holds a worker goes on with it. */
  lemma KeepsWorker<W>(tasks: map<nat, Task<W>>, next: nat, workers: set<W>, t: nat, k: Task<W>)
    requires TaskInv(tasks, next, workers) && t in tasks && HasWorker(tasks[t])
    requires (k.Leased? || k.Released?) && k.worker == tasks[t].worker
    ensures TaskInv(tasks[t := k], next, workers)
  {
  }

  lemma LeaseStepCounts<W>(recs: map<W, Worker>, tasks: map<nat, Task<W>>, t: nat, k: Task<W>, r: Worker)
    requires LeaseInv(recs, tasks) && t in tasks && tasks[t].Leased? && tasks[t].worker in recs
    requires (k.Leased? || k.Released?) && k.worker == tasks[t].worker
    requires r.active == recs[k.worker].active - One(k.Released?)
    ensures LeaseInv(recs[k.worker := r], tasks[t := k])
  {
    forall x | x in recs
      ensures Count(tasks[t := k], LeaseOf(x)) == Count(tasks, LeaseOf(x)) - One(k.Released? && x == k.worker)
    {
      CloseLeaseCounts(tasks, t, k, x);
    }
  }

  lemma LeaseStepHolds<W>(ws: seq<W>, recs: map<W, Worker>, tasks: map<nat, Task<W>>, next: nat, t: nat,
                          k: Task<W>, r: Worker)
    requires HoldsInv(ws, recs, tasks, next)
    requires t in tasks && tasks[t].Leased? && (k.Leased? || k.Released?) && k.worker == tasks[t].worker
    requires r.active == recs[k.worker].active - One(k.Released?)
    requires r.state == recs[k.worker].state || r.state == Draining
    requires r.connected == recs[k.worker].connected
    ensures HoldsInv(ws, recs[k.worker := r], tasks[t := k], next)
  {
    KeepsWorker(tasks, next, recs.Keys, t, k);
    assert recs[k.worker := r].Keys == recs.Keys;
    LeaseStepCounts(recs, tasks, t, k, r);
    CountSome(tasks, t, HoldOn(k.worker));
    forall x | x in recs ensures Count(tasks[t := k], HoldOn(x)) == Count(tasks, HoldOn(x)) {
      CloseLeaseCounts(tasks, t, k, x);
    }
  }

  /** The context of a lease opened, failed, or closed. */
  lemma LeaseStepInv<W>(s: Pool<W>, t: nat, k: Task<W>, r: Worker)
    requires Inv(s) && t in s.tasks && s.tasks[t].Leased?
    requires (k.Leased? || k.Released?) && k.worker == s.tasks[t].worker
    requires r.active == s.recs[k.worker].active - One(k.Released?)
    requires r.state == s.recs[k.worker].state || r.state == Draining
    requires r.connected == s.recs[k.worker].connected
    ensures Inv(s.(recs := s.recs[k.worker := r], tasks := s.tasks[t := k]))
  {
    LaunchUntouched(s.launch, s.tasks, t, k);
    LeaseStepHolds(s.workers, s.recs, s.tasks, s.nextTask, t, k, r);
  }

  /** What `recycle` may do to the label of a worker it holds. */
  lemma DrainHeldInv<W>(s: Pool<W>, t: nat)
    requires Inv(s) && t in s.tasks && s.tasks[t].Released?
    ensures Inv(SetState(s, s.tasks[t].worker, Draining))
  {
    var w := s.tasks[t].worker;
    CountSome(s.tasks, t, HoldOn(w));
    assert SetState(s, w, Draining).recs.Keys == s.recs.Keys;
  }

  /** A leased worker whose context is released has two holds on it. */
  lemma TwoHolds<W>(recs: map<W, Worker>, tasks: map<nat, Task<W>>, t: nat)
    requires LeaseInv(recs, tasks) && t in tasks && tasks[t].Released?
    requires tasks[t].worker in recs && recs[tasks[t].worker].active > 0
    ensures Count(tasks, HoldOn(tasks[t].worker)) >= 2
  {
    var w := tasks[t].worker;
    LeaseIsHold(tasks - {t}, w);
    CountDrop(tasks, t, LeaseOf(w));
    CountDrop(tasks, t, HoldOn(w));
  }

  lemma HoldEnds<W>(ws: seq<W>, recs: map<W, Worker>, tasks: map<nat, Task<W>>, next: nat, t: nat)
    requires HoldsInv(ws, recs, tasks, next) && t in tasks && tasks[t].Released?
    requires var w := tasks[t].worker; w !in ws || recs[w].active > 0 || recs[w].state == Healthy
    ensures HoldsInv(ws, recs, tasks - {t}, next)
  {
    DropTask(tasks, next, recs.Keys, t);
    DropCounts(recs, tasks, t);
    if recs[tasks[t].worker].active > 0 {
      TwoHolds(recs, tasks, t);
    }
    DropHolds(ws, recs, tasks, t);
  }

  /** A due `recycle` may end once its worker is off the list, healthy, or still leased. */
  lemma HoldEndsInv<W>(s: Pool<W>, t: nat, k: Task<W>)
    requires Inv(s) && t in s.tasks && s.tasks[t].Released? && k.Refilling?
    requires var w := s.tasks[t].worker; w !in s.workers || s.recs[w].active > 0 || s.recs[w].state == Healthy
    ensures Inv(s.(tasks := s.tasks - {t})) && Inv(s.(tasks := s.tasks[t := k]))
  {
    LaunchUntouched(s.launch, s.tasks, t, k);
    HoldEnds(s.workers, s.recs, s.tasks, s.nextTask, t);
    PutPlain(s.workers, s.recs, s.tasks - {t}, s.nextTask, t, k);
    assert (s.tasks - {t})[t := k] == s.tasks[t := k];
  }

  lemma RecycleInv<W>(c: Config, s: Pool<W>, t: nat)
    requires Inv(s) && t in s.tasks && s.tasks[t].Released?
    ensures Inv(RecycleStep(c, s, t))
  {
    var w := s.tasks[t].worker;
    var r := s.recs[w];
    DrainHeldInv(s, t);
    var s1 := Judged(c, s, w);
    if r.active > 0 || s1.recs[w].state == Healthy {
      HoldEndsInv(s1, t, Refilling(r.backend));
    } else {
      UnlistInv(s1, w);
      RemoveDistinct(s1.workers, w);
      HoldEndsInv(Unlist(s1, w), t, Refilling(r.backend));
    }
  }

  // ---- Runs ----

  lemma SampleInv<W>(s: Pool<W>, total: real, rss: map<W, real>)
    requires Inv(s)
    ensures Inv(SampleStep(s, total, rss))
  {
    assert SampleStep(s, total, rss).recs.Keys == s.recs.Keys;
  }

  lemma CloseInv<W>(s: Pool<W>)
    requires Inv(s)
    ensures Inv(CloseStep(s))
  {
    assert CloseStep(s).recs.Keys == s.recs.Keys;
  }

  lemma ArriveInv<W>(s: Pool<W>, b: Backend, p: Profile)
    requires Inv(s)
    ensures Inv(s.(tasks := s.tasks[s.nextTask := Acquiring(b, p)], nextTask := s.nextTask + 1))
  {
    var s1 := s.(nextTask := s.nextTask + 1);
    assert Inv(s1);
    PutPlain(s1.workers, s1.recs, s1.tasks, s1.nextTask, s.nextTask, Acquiring(b, p));
    LaunchUntouched(s1.launch, s1.tasks, s.nextTask, Acquiring(b, p));
  }

  /** The connection of a worker drops, or its `disconnected` handler runs. */
  lemma DisconnectInv<W>(s: Pool<W>, w: W, r: Worker)
    requires Inv(s) && w in s.recs && !r.connected && r.active == s.recs[w].active
    requires r.state == s.recs[w].state || (s.recs[w].state == Healthy && r.state == Draining)
    ensures Inv(s.(recs := s.recs[w := r]))
  {
    assert s.recs[w := r].Keys == s.recs.Keys;
  }

  /** Every step keeps the invariant. */
  lemma StepInv<W>(c: Config, s0: Pool<W>, e: Event<W>, now: int)
    requires Inv(s0) && Enabled(s0, e, now)
    ensures Inv(Apply(c, s0, e, now))
  {
    var s := Tick(s0, now);
    assert Inv(s);
    match e
    case Arrive(b, p) => ArriveInv(s, b, p);
    case Resume(t) => ResumeInv(c, s, t, s.tasks[t].backend, s.tasks[t].profile);
    case LaunchSucceeds(t, w) => LaunchSucceedsInv(s, t, w);
    case LaunchFails(t) => LaunchFailsInv(c, s, t);
    case Settle(t) => SettleInv(s, t);
    case Occupy(t) => OccupyInv(s, t);
    case ContextOpens(t) =>
      var w := s.tasks[t].worker;
      assert s.recs == s.recs[w := s.recs[w]];
      LeaseStepInv(s, t, Leased(w, false), s.recs[w]);
    case ContextFails(t) =>
      var w := s.tasks[t].worker;
      LeaseStepInv(s, t, Leased(w, false), ContextFailsStep(c, s, t).recs[w]);
    case Release(t) =>
      var w := s.tasks[t].worker;
      LeaseStepInv(s, t, Released(w), ReleaseStep(s, t).recs[w]);
    case Recycle(t) => RecycleInv(c, s, t);
    case Refill(t) => ReplenishInv(c, s, t, s.tasks[t].backend);
    case ServerCloses(w) => MarkDeadInv(c, s, w);
    case ConnectionDrops(w) => DisconnectInv(s, w, s.recs[w].(connected := false));
    case Disconnected(w) =>
      if s.recs[w].state == Healthy {
        DisconnectInv(s, w, s.recs[w].(state := Draining));
      }
    case Sample(total, rss) => SampleInv(s, total, rss);
    case Close => CloseInv(s);
  }

  lemma EmptyInv<W>(t0: nat)
    ensures Inv(Empty<W>(t0))
  {
    var none: map<nat, Task<W>> := map[];
    assert forall q: Query<W> :: Matching(none, q) == {};
  }

  /** One more launch of start-up. */
  lemma StartOneInv<W>(c: Config, s: Pool<W>, n: nat)
    requires Inv(s) && s.nextTask == n
    ensures var r := BeginLaunch(s.(nextTask := n + 1), n, c.defaultBackend, c.defaultProfile, ForStart);
      Inv(r) && r.nextTask == n + 1
  {
    BeginLaunchInv(s.(nextTask := n + 1), n, c.defaultBackend, c.defaultProfile, ForStart);
  }

  lemma {:induction false} StartInv<W>(c: Config, n: nat, t0: nat)
    ensures Inv(Start<W>(c, n, t0))
    ensures Start<W>(c, n, t0).nextTask == n
  {
    if n == 0 {
      EmptyInv<W>(t0);
    } else {
      StartInv<W>(c, n - 1, t0);
      StartOneInv<W>(c, Start<W>(c, n - 1, t0), n - 1);
    }
  }

  /** Every reachable state of the pool satisfies the invariant. */
  lemma {:induction false} RunInv<W>(c: Config, t0: nat, run: seq<Timed<W>>)
    requires Exec(c, t0, run).Some?
    ensures Inv(Exec(c, t0, run).value)
    decreases |run|
  {
    if run == [] {
      StartInv<W>(c, c.poolMin, t0);
    } else {
      RunInv(c, t0, run[..|run| - 1]);
      StepInv(c, Exec(c, t0, run[..|run| - 1]).value, run[|run| - 1].event, run[|run| - 1].now);
    }
  }
}

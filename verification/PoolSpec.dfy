/**
 The browser pool as a transition system.

 Every `await` of the source is a point where another caller may run, so a call in flight is a
 task with a program counter, and each event runs one task (or one browser callback) from one
 suspension point to the next. Worker identities are a type parameter: the class in
 BrowserPool.dfy instantiates it with objects.
 */
module PoolSpec {
  import opened Wrappers

  type Backend = string
  type Profile = string

  datatype Config = Config(
    poolMin: nat,
    poolMax: nat,
    contexts: nat,
    failureLimit: nat,
    backoffMs: nat,
    maxJobs: nat,
    maxAgeMs: nat,
    recycleRssMb: real,
    softMb: real,
    defaultBackend: Backend,
    defaultProfile: Profile)
  {
    /** The ranges config.ts enforces at start-up. */
    predicate Valid() {
      poolMin <= poolMax && 1 <= poolMax && 1 <= contexts && 100 <= backoffMs <= 60000
    }
  }

  datatype Health = Healthy | Draining | Dead

  /** `connected` is what `browser.isConnected()` answers. */
  datatype Worker = Worker(
    backend: Backend,
    profile: Profile,
    jobs: nat,
    createdAt: int,
    active: int,
    failures: nat,
    state: Health,
    rssMb: real,
    connected: bool)

  /** Who waits for a launch: a caller that will be granted the worker, a refill, or start-up. */
  datatype Origin = ForCaller | ForRefill | ForStart

  /** A call in flight, named by the `await` it is suspended at. */
  datatype Task<W> =
    | Acquiring(backend: Backend, profile: Profile)
    | Starting(backend: Backend, profile: Profile, origin: Origin, startedAt: int, startedStep: nat)
    | Settling(worker: W, backend: Backend, origin: Origin)
    | Granted(worker: W)
    | Leased(worker: W, opening: bool)
    | Released(worker: W)
    | Refilling(backend: Backend)

  /** One failed launch, by clock and by position in the run. */
  datatype Attempt = Attempt(start: int, startStep: nat, end: int, endStep: nat)

  /** Launches in flight, in all and by backend. */
  datatype InFlight = InFlight(total: int, per: map<Backend, int>)

  /** Per backend: failures in a row, the earliest next launch, and the failed launches themselves. */
  datatype Backoff = Backoff(
    consecutive: map<Backend, nat>,
    nextLaunchAt: map<Backend, int>,
    failed: map<Backend, seq<Attempt>>)

  datatype Stats = Stats(launches: nat, launchFailures: nat, crashes: nat, recycled: nat, replacements: nat)

  /**
   The pool's fields, the calls in flight, the clock and the number of steps taken. `failed`,
   `nextTask` and `steps` are histories that no step of the pool reads.
   */
  datatype Pool<W> = Pool(
    workers: seq<W>,
    recs: map<W, Worker>,
    launch: InFlight,
    backoff: Backoff,
    stats: Stats,
    closed: bool,
    totalRssMb: real,
    tasks: map<nat, Task<W>>,
    nextTask: nat,
    clock: int,
    steps: nat)

  datatype Event<W> =
    | Arrive(backend: Backend, profile: Profile)
    | Resume(task: nat)
    | LaunchSucceeds(task: nat, worker: W)
    | LaunchFails(task: nat)
    | Settle(task: nat)
    | Occupy(task: nat)
    | ContextOpens(task: nat)
    | ContextFails(task: nat)
    | Release(task: nat)
    | Recycle(task: nat)
    | Refill(task: nat)
    | ServerCloses(worker: W)
    | ConnectionDrops(worker: W)
    | Disconnected(worker: W)
    | Sample(totalRssMb: real, rss: map<W, real>)
    | Close

  // ---- Launching ----

  function Pow2(n: nat): nat {
    if n == 0 then 1 else 2 * Pow2(n - 1)
  }

  /** The pause after the k-th launch failure in a row. */
  function Delay(c: Config, k: nat): int
    requires 1 <= k
  {
    var d := c.backoffMs * Pow2(k - 1);
    if d < 60000 then d else 60000
  }

  function Enter(l: InFlight, b: Backend): InFlight {
    InFlight(l.total + 1, l.per[b := Get(l.per, b, 0) + 1])
  }

  /** `launch` up to its first `await`; while the backend backs off the call is rejected. */
  function BeginLaunch<W(==)>(s: Pool<W>, t: nat, b: Backend, p: Profile, o: Origin): Pool<W> {
    if Get(s.backoff.nextLaunchAt, b, 0) - s.clock > 0 then
      s.(tasks := s.tasks - {t})
    else
      s.(launch := Enter(s.launch, b), tasks := s.tasks[t := Starting(b, p, o, s.clock, s.steps)])
  }

  /** The `finally` of `launch`. */
  function Leave(l: InFlight, b: Backend): InFlight {
    var n := Get(l.per, b, 1) - 1;
    InFlight(l.total - 1, l.per[b := if n < 0 then 0 else n])
  }

  function CountOf<W(==)>(ws: seq<W>, recs: map<W, Worker>, b: Backend): nat {
    if ws == [] then 0
    else (if ws[0] in recs && recs[ws[0]].backend == b then 1 else 0) + CountOf(ws[1..], recs, b)
  }

  function Replenish<W(==)>(c: Config, s: Pool<W>, t: nat, b: Backend): Pool<W> {
    var desired := if b == c.defaultBackend then c.poolMin else 0;
    if s.closed
       || CountOf(s.workers, s.recs, b) + Get(s.launch.per, b, 0) >= desired
       || s.clock < Get(s.backoff.nextLaunchAt, b, 0)
    then s.(tasks := s.tasks - {t})
    else BeginLaunch(s, t, b, c.defaultProfile, ForRefill)
  }

  // ---- Leaving the list ----

  /** `indexOf` followed by `splice`. */
  function Remove<W(==)>(ws: seq<W>, w: W): seq<W> {
    if ws == [] then [] else if ws[0] == w then ws[1..] else [ws[0]] + Remove(ws[1..], w)
  }

  function SetState<W(==)>(s: Pool<W>, w: W, h: Health): Pool<W>
    requires w in s.recs
  {
    s.(recs := s.recs[w := s.recs[w].(state := h)])
  }

  function Unlist<W(==)>(s: Pool<W>, w: W): Pool<W>
    requires w in s.recs
  {
    SetState(s, w, Dead).(workers := Remove(s.workers, w))
  }

  /** A crash counted, and the identity of the refill it sets off. */
  function Bury<W(==)>(s: Pool<W>, w: W): Pool<W>
    requires w in s.recs
  {
    Unlist(s, w).(stats := s.stats.(crashes := s.stats.crashes + 1), nextTask := s.nextTask + 1)
  }

  function MarkDead<W(==)>(c: Config, s: Pool<W>, w: W): (r: Pool<W>)
    requires w in s.recs
    ensures r.recs.Keys == s.recs.Keys
  {
    if s.recs[w].state == Dead then s
    else
      Replenish(c, Bury(s, w), s.nextTask, s.recs[w].backend)
  }

  /** The loop at the head of `acquire` over a copy of the list. */
  function Sweep<W(==)>(c: Config, s: Pool<W>, ws: seq<W>): (r: Pool<W>)
    requires forall w :: w in ws ==> w in s.recs
    ensures r.recs.Keys == s.recs.Keys
    decreases |ws|
  {
    if ws == [] then s
    else
      var r := s.recs[ws[0]];
      Sweep(c, if r.state == Healthy && !r.connected then MarkDead(c, s, ws[0]) else s, ws[1..])
  }

  // ---- Leasing ----

  predicate Eligible(c: Config, r: Worker, b: Backend, p: Profile) {
    r.state == Healthy && r.connected && r.backend == b && r.profile == p && r.active < c.contexts
  }

  /** `filter`, a stable sort on `active`, and the first element. */
  function Select<W(==)>(c: Config, recs: map<W, Worker>, ws: seq<W>, b: Backend, p: Profile): (r: Option<W>)
    requires forall w :: w in ws ==> w in recs
    ensures r.Some? ==> r.value in ws && Eligible(c, recs[r.value], b, p)
  {
    if ws == [] then None
    else
      var rest := Select(c, recs, ws[1..], b, p);
      if !Eligible(c, recs[ws[0]], b, p) then rest
      else if rest.Some? && recs[rest.value].active < recs[ws[0]].active then rest
      else Some(ws[0])
  }

  /** `acquire` returns a worker. Nothing is counted yet: its caller goes on in a later microtask. */
  function Grant<W(==)>(s: Pool<W>, t: nat, w: W): Pool<W> {
    s.(tasks := s.tasks[t := Granted(w)])
  }

  /** `worker.active++` in `withContext`. */
  function Lease<W(==)>(s: Pool<W>, t: nat, w: W): Pool<W>
    requires w in s.recs
  {
    s.(recs := s.recs[w := s.recs[w].(active := s.recs[w].active + 1)], tasks := s.tasks[t := Leased(w, true)])
  }

  /** The end of `acquire`: reuse a worker, or launch one if memory and the maximum allow. */
  function ReuseOrLaunch<W(==)>(c: Config, s: Pool<W>, t: nat, b: Backend, p: Profile): Pool<W>
    requires forall w :: w in s.workers ==> w in s.recs
  {
    match Select(c, s.recs, s.workers, b, p)
    case Some(w) => Grant(s, t, w)
    case None =>
      if s.totalRssMb >= c.softMb || |s.workers| + s.launch.total >= c.poolMax
      then s.(tasks := s.tasks - {t})
      else BeginLaunch(s, t, b, p, ForCaller)
  }

  lemma RemoveSubset<W>(ws: seq<W>, w: W)
    ensures forall x :: x in Remove(ws, w) ==> x in ws
  {
  }

  lemma SweepKeepsListed<W>(c: Config, s: Pool<W>, ws: seq<W>)
    requires forall w :: w in ws ==> w in s.recs
    ensures forall w :: w in Sweep(c, s, ws).workers ==> w in s.workers
    decreases |ws|
  {
    if ws == [] {
    } else {
      RemoveSubset(s.workers, ws[0]);
      var r := s.recs[ws[0]];
      SweepKeepsListed(c, if r.state == Healthy && !r.connected then MarkDead(c, s, ws[0]) else s, ws[1..]);
    }
  }

  /** `acquire` after its memory refresh. */
  function ResumeAcquire<W(==)>(c: Config, s: Pool<W>, t: nat, b: Backend, p: Profile): Pool<W>
    requires forall w :: w in s.workers ==> w in s.recs
  {
    SweepKeepsListed(c, s, s.workers);
    ReuseOrLaunch(c, Sweep(c, s, s.workers), t, b, p)
  }

  // ---- The steps ----

  function Succeed(o: Backoff, b: Backend): Backoff {
    Backoff(o.consecutive[b := 0], o.nextLaunchAt[b := 0], o.failed[b := []])
  }

  function Fail(c: Config, o: Backoff, b: Backend, a: Attempt): Backoff {
    var n := Get(o.consecutive, b, 0) + 1;
    Backoff(o.consecutive[b := n], o.nextLaunchAt[b := a.end + Delay(c, n)], o.failed[b := Get(o.failed, b, []) + [a]])
  }

  function LaunchSucceedsStep<W(==)>(s: Pool<W>, t: nat, w: W): Pool<W>
    requires t in s.tasks && s.tasks[t].Starting?
  {
    var k := s.tasks[t];
    s.(workers := s.workers + [w],
       recs := s.recs[w := Worker(k.backend, k.profile, 0, s.clock, 0, 0, Healthy, 0.0, true)],
       stats := s.stats.(launches := s.stats.launches + 1),
       backoff := Succeed(s.backoff, k.backend),
       tasks := s.tasks[t := Settling(w, k.backend, k.origin)])
  }

  function LaunchFailsStep<W(==)>(c: Config, s: Pool<W>, t: nat): Pool<W>
    requires t in s.tasks && s.tasks[t].Starting?
  {
    var k := s.tasks[t];
    s.(launch := Leave(s.launch, k.backend),
       stats := s.stats.(launchFailures := s.stats.launchFailures + 1),
       backoff := Fail(c, s.backoff, k.backend, Attempt(k.startedAt, k.startedStep, s.clock, s.steps)),
       tasks := s.tasks - {t})
  }

  function SettleStep<W(==)>(s: Pool<W>, t: nat): Pool<W>
    requires t in s.tasks && s.tasks[t].Settling? && s.tasks[t].worker in s.recs
  {
    var k := s.tasks[t];
    var s1 := s.(launch := Leave(s.launch, k.backend));
    match k.origin
    case ForCaller => Grant(s1, t, k.worker)
    case ForRefill => s1.(stats := s.stats.(replacements := s.stats.replacements + 1), tasks := s.tasks - {t})
    case ForStart => s1.(tasks := s.tasks - {t})
  }

  /** A rejected `newContext` counts against the worker, whatever state the worker is in by then. */
  function ContextFailsStep<W(==)>(c: Config, s: Pool<W>, t: nat): Pool<W>
    requires t in s.tasks && s.tasks[t].Leased? && s.tasks[t].worker in s.recs
  {
    var w := s.tasks[t].worker;
    var r := s.recs[w].(failures := s.recs[w].failures + 1);
    s.(recs := s.recs[w := if r.failures >= c.failureLimit then r.(state := Draining) else r],
       tasks := s.tasks[t := Leased(w, false)])
  }

  function ReleaseStep<W(==)>(s: Pool<W>, t: nat): Pool<W>
    requires t in s.tasks && s.tasks[t].Leased? && s.tasks[t].worker in s.recs
  {
    var w := s.tasks[t].worker;
    var r := s.recs[w];
    s.(recs := s.recs[w := r.(active := r.active - 1, jobs := r.jobs + 1)], tasks := s.tasks[t := Released(w)])
  }

  /** A worker that is worn out is draining from now on, also one that already died. */
  function Judged<W(==)>(c: Config, s: Pool<W>, w: W): Pool<W>
    requires w in s.recs
  {
    var r := s.recs[w];
    var worn := r.jobs >= c.maxJobs || s.clock - r.createdAt >= c.maxAgeMs || r.rssMb >= c.recycleRssMb;
    if worn then SetState(s, w, Draining) else s
  }

  /** `recycle`; a worker that already died and is relabelled is retired a second time. */
  function RecycleStep<W(==)>(c: Config, s: Pool<W>, t: nat): Pool<W>
    requires t in s.tasks && s.tasks[t].Released? && s.tasks[t].worker in s.recs
  {
    var w := s.tasks[t].worker;
    var s1 := Judged(c, s, w);
    if s1.recs[w].active > 0 || s1.recs[w].state == Healthy then s1.(tasks := s.tasks - {t})
    else
      Unlist(s1, w).(stats := s.stats.(recycled := s.stats.recycled + 1),
                     tasks := s.tasks[t := Refilling(s.recs[w].backend)])
  }

  function SampleStep<W(==)>(s: Pool<W>, total: real, rss: map<W, real>): Pool<W> {
    s.(totalRssMb := total,
       recs := map w | w in s.recs :: if w in s.workers then s.recs[w].(rssMb := Get(rss, w, 0.0)) else s.recs[w])
  }

  function CloseStep<W(==)>(s: Pool<W>): Pool<W> {
    s.(closed := true, workers := [],
       recs := map w | w in s.recs :: if w in s.workers then s.recs[w].(state := Dead) else s.recs[w])
  }

  predicate Enabled<W(==)>(s: Pool<W>, e: Event<W>, now: int) {
    && s.clock <= now
    && (forall w :: w in s.workers ==> w in s.recs)
    && match e
       case Arrive(_, _) => s.nextTask !in s.tasks
       case Resume(t) => t in s.tasks && s.tasks[t].Acquiring?
       case LaunchSucceeds(t, w) => t in s.tasks && s.tasks[t].Starting? && w !in s.recs
       case LaunchFails(t) => t in s.tasks && s.tasks[t].Starting?
       case Settle(t) => t in s.tasks && s.tasks[t].Settling? && s.tasks[t].worker in s.recs
       case Occupy(t) => t in s.tasks && s.tasks[t].Granted? && s.tasks[t].worker in s.recs
       case ContextOpens(t) => t in s.tasks && s.tasks[t].Leased? && s.tasks[t].opening && s.tasks[t].worker in s.recs
       case ContextFails(t) => t in s.tasks && s.tasks[t].Leased? && s.tasks[t].opening && s.tasks[t].worker in s.recs
       case Release(t) => t in s.tasks && s.tasks[t].Leased? && !s.tasks[t].opening && s.tasks[t].worker in s.recs
       case Recycle(t) => t in s.tasks && s.tasks[t].Released? && s.tasks[t].worker in s.recs
       case Refill(t) => t in s.tasks && s.tasks[t].Refilling?
       case ServerCloses(w) => w in s.recs
       case ConnectionDrops(w) => w in s.recs
       case Disconnected(w) => w in s.recs && !s.recs[w].connected
       case Sample(_, _) => true
       case Close => true
  }

  function Tick<W(==)>(s: Pool<W>, now: int): Pool<W> {
    s.(clock := now, steps := s.steps + 1)
  }

  function Act<W(==)>(c: Config, s: Pool<W>, e: Event<W>): Pool<W>
    requires Enabled(s, e, s.clock)
  {
    match e
    case Arrive(b, p) =>
      if s.closed then s else s.(tasks := s.tasks[s.nextTask := Acquiring(b, p)], nextTask := s.nextTask + 1)
    case Resume(t) => ResumeAcquire(c, s, t, s.tasks[t].backend, s.tasks[t].profile)
    case LaunchSucceeds(t, w) => LaunchSucceedsStep(s, t, w)
    case LaunchFails(t) => LaunchFailsStep(c, s, t)
    case Settle(t) => SettleStep(s, t)
    case Occupy(t) => Lease(s, t, s.tasks[t].worker)
    case ContextOpens(t) => s.(tasks := s.tasks[t := Leased(s.tasks[t].worker, false)])
    case ContextFails(t) => ContextFailsStep(c, s, t)
    case Release(t) => ReleaseStep(s, t)
    case Recycle(t) => RecycleStep(c, s, t)
    case Refill(t) => Replenish(c, s, t, s.tasks[t].backend)
    case ServerCloses(w) => MarkDead(c, s, w)
    case ConnectionDrops(w) => s.(recs := s.recs[w := s.recs[w].(connected := false)])
    case Disconnected(w) => if s.recs[w].state == Healthy then SetState(s, w, Draining) else s
    case Sample(total, rss) => SampleStep(s, total, rss)
    case Close => CloseStep(s)
  }

  function Apply<W(==)>(c: Config, s: Pool<W>, e: Event<W>, now: int): Pool<W>
    requires Enabled(s, e, now)
  {
    Act(c, Tick(s, now), e)
  }

  // ---- Runs ----

  function Empty<W(==)>(now: int): Pool<W> {
    Pool([], map[], InFlight(0, map[]), Backoff(map[], map[], map[]), Stats(0, 0, 0, 0, 0),
      false, 0.0, map[], 0, now, 0)
  }

  /** `initialize`: n launches of the default backend start before any of them is awaited. */
  function Start<W(==)>(c: Config, n: nat, now: int): Pool<W> {
    if n == 0 then Empty(now)
    else
      var s := Start(c, n - 1, now);
      BeginLaunch(s.(nextTask := n), n - 1, c.defaultBackend, c.defaultProfile, ForStart)
  }

  datatype Timed<W> = Timed(event: Event<W>, now: int)

  /** The state a run reaches, if each of its events could happen where it stands. */
  function Exec<W(==)>(c: Config, t0: nat, run: seq<Timed<W>>): Option<Pool<W>> {
    if run == [] then Some(Start(c, c.poolMin, t0))
    else
      var last := run[|run| - 1];
      match Exec(c, t0, run[..|run| - 1])
      case None => None
      case Some(s) => if Enabled(s, last.event, last.now) then Some(Apply(c, s, last.event, last.now)) else None
  }
}

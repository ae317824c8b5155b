/** The pauses between failed launches of one backend, over whole runs of the pool. */
module PoolBackoff {
  import opened Wrappers
  import opened PoolSpec

  /** The failed launches of a backend since its last success, oldest first. */
  function Log(o: Backoff, b: Backend): seq<Attempt> {
    Get(o.failed, b, [])
  }

  lemma Pow2Grows(m: nat, n: nat)
    requires m <= n
    ensures 1 <= Pow2(m) <= Pow2(n)
  {
  }

  lemma MulGrows(a: nat, x: nat, y: nat)
    requires x <= y
    ensures 0 <= a * x <= a * y
  {
  }

  lemma DelayGrows(c: Config, j: nat, k: nat)
    requires 1 <= j <= k
    ensures 0 <= Delay(c, j) <= Delay(c, k) <= 60000
  {
    Pow2Grows(j - 1, k - 1);
    MulGrows(c.backoffMs, Pow2(j - 1), Pow2(k - 1));
  }

  /** The first pause is the configured one, each further one twice the last, and none longer than a minute. */
  lemma DelayDoubles(c: Config, k: nat)
    requires 1 <= k
    ensures Delay(c, 1) == Min(60000, c.backoffMs)
    ensures Delay(c, k + 1) == Min(60000, 2 * Delay(c, k))
  {
    assert Pow2(k) == 2 * Pow2(k - 1);
    assert c.backoffMs * (2 * Pow2(k - 1)) == 2 * (c.backoffMs * Pow2(k - 1));
  }

  /** A launch that started after the i-th failure ended waited out that failure's pause. */
  ghost predicate WaitedOut(c: Config, log: seq<Attempt>, start: int, startStep: nat) {
    forall i :: 0 <= i < |log| && startStep > log[i].endStep ==> start >= log[i].end + Delay(c, i + 1)
  }

  ghost predicate LogInv(c: Config, log: seq<Attempt>, clock: int, steps: nat) {
    && (forall i :: 0 <= i < |log| ==> log[i].end <= clock && log[i].endStep <= steps && log[i].start <= log[i].end)
    && (forall i, j :: 0 <= i < j < |log| ==> log[i].end <= log[j].end && log[i].endStep < log[j].endStep)
    && (forall j :: 0 <= j < |log| ==> WaitedOut(c, log[..j], log[j].start, log[j].startStep))
  }

  /** The counter is the length of the log, and the next launch waits for the last failure's pause. */
  ghost predicate ScheduleInv(c: Config, o: Backoff, b: Backend) {
    && Get(o.consecutive, b, 0) == |Log(o, b)|
    && var log := Log(o, b);
       Get(o.nextLaunchAt, b, 0) == if log == [] then 0 else log[|log| - 1].end + Delay(c, |log|)
  }

  ghost predicate StartsInv<W>(c: Config, s: Pool<W>) {
    forall t :: t in s.tasks && s.tasks[t].Starting? ==>
      && s.tasks[t].startedAt <= s.clock && s.tasks[t].startedStep <= s.steps
      && WaitedOut(c, Log(s.backoff, s.tasks[t].backend), s.tasks[t].startedAt, s.tasks[t].startedStep)
  }

  ghost predicate BackoffInv<W>(c: Config, s: Pool<W>) {
    && (forall b :: ScheduleInv(c, s.backoff, b) && LogInv(c, Log(s.backoff, b), s.clock, s.steps))
    && StartsInv(c, s)
  }

  /** Right after a tick no failure has ended at the current step. */
  ghost predicate Ticked<W>(s: Pool<W>) {
    forall b, i :: 0 <= i < |Log(s.backoff, b)| ==> Log(s.backoff, b)[i].endStep < s.steps
  }

  /** A launch that is allowed to start has waited out every pause. */
  lemma AllowedStart<W>(c: Config, s: Pool<W>, b: Backend)
    requires BackoffInv(c, s) && Get(s.backoff.nextLaunchAt, b, 0) <= s.clock
    ensures WaitedOut(c, Log(s.backoff, b), s.clock, s.steps)
  {
    var log := Log(s.backoff, b);
    assert ScheduleInv(c, s.backoff, b) && LogInv(c, log, s.clock, s.steps);
    forall i | 0 <= i < |log| ensures s.clock >= log[i].end + Delay(c, i + 1) {
      DelayGrows(c, i + 1, |log|);
    }
  }

  lemma BeginLaunchBackoff<W>(c: Config, s: Pool<W>, t: nat, b: Backend, p: Profile, o: Origin)
    requires BackoffInv(c, s)
    ensures BackoffInv(c, BeginLaunch(s, t, b, p, o))
  {
    if Get(s.backoff.nextLaunchAt, b, 0) - s.clock <= 0 {
      AllowedStart(c, s, b);
    }
  }

  lemma MarkDeadBackoff<W>(c: Config, s: Pool<W>, w: W)
    requires BackoffInv(c, s) && w in s.recs
    ensures BackoffInv(c, MarkDead(c, s, w))
  {
    if s.recs[w].state != Dead {
      assert BackoffInv(c, Bury(s, w));
      BeginLaunchBackoff(c, Bury(s, w), s.nextTask, s.recs[w].backend, c.defaultProfile, ForRefill);
    }
  }

  lemma SweepBackoff<W>(c: Config, s: Pool<W>, ws: seq<W>)
    requires BackoffInv(c, s)
    requires forall w :: w in ws ==> w in s.recs
    ensures BackoffInv(c, Sweep(c, s, ws))
    decreases |ws|
  {
    if ws == [] {
    } else {
      MarkDeadBackoff(c, s, ws[0]);
      var r := s.recs[ws[0]];
      SweepBackoff(c, if r.state == Healthy && !r.connected then MarkDead(c, s, ws[0]) else s, ws[1..]);
    }
  }

  lemma ResumeBackoff<W>(c: Config, s: Pool<W>, t: nat, b: Backend, p: Profile)
    requires BackoffInv(c, s) && forall w :: w in s.workers ==> w in s.recs
    ensures BackoffInv(c, ResumeAcquire(c, s, t, b, p))
  {
    SweepBackoff(c, s, s.workers);
    SweepKeepsListed(c, s, s.workers);
    var s1 := Sweep(c, s, s.workers);
    BeginLaunchBackoff(c, s1, t, b, p, ForCaller);
    match Select(c, s1.recs, s1.workers, b, p)
    case Some(w) => assert StartsInv(c, Grant(s1, t, w));
    case None => assert StartsInv(c, s1.(tasks := s1.tasks - {t}));
  }

  lemma SucceedBook(c: Config, o: Backoff, d: Backend, b: Backend, clock: int, steps: nat)
    requires ScheduleInv(c, o, b) && LogInv(c, Log(o, b), clock, steps)
    ensures ScheduleInv(c, Succeed(o, d), b) && LogInv(c, Log(Succeed(o, d), b), clock, steps)
    ensures Log(Succeed(o, d), b) == if b == d then [] else Log(o, b)
  {
  }

  lemma SucceedBackoff<W>(c: Config, s: Pool<W>, t: nat, w: W)
    requires BackoffInv(c, s) && t in s.tasks && s.tasks[t].Starting?
    ensures BackoffInv(c, LaunchSucceedsStep(s, t, w))
  {
    var s' := LaunchSucceedsStep(s, t, w);
    forall b
      ensures ScheduleInv(c, s'.backoff, b) && LogInv(c, Log(s'.backoff, b), s'.clock, s'.steps)
      ensures Log(s'.backoff, b) == [] || Log(s'.backoff, b) == Log(s.backoff, b)
    {
      SucceedBook(c, s.backoff, s.tasks[t].backend, b, s.clock, s.steps);
    }
    assert forall u :: u in s'.tasks && s'.tasks[u].Starting? ==> u in s.tasks && s'.tasks[u] == s.tasks[u];
  }

  lemma LogSnoc(c: Config, log: seq<Attempt>, a: Attempt, clock: int, steps: nat)
    requires LogInv(c, log, clock, steps) && WaitedOut(c, log, a.start, a.startStep)
    requires a.start <= a.end == clock && a.endStep == steps
    requires forall i :: 0 <= i < |log| ==> log[i].endStep < steps
    ensures LogInv(c, log + [a], clock, steps)
  {
    var longer := log + [a];
    forall j | 0 <= j < |longer| ensures WaitedOut(c, longer[..j], longer[j].start, longer[j].startStep) {
      if j < |log| {
        assert longer[..j] == log[..j] && WaitedOut(c, log[..j], log[j].start, log[j].startStep);
      } else {
        assert longer[..j] == log;
      }
    }
  }

  lemma FailLog(c: Config, o: Backoff, d: Backend, a: Attempt, b: Backend)
    ensures Log(Fail(c, o, d, a), b) == if b == d then Log(o, d) + [a] else Log(o, b)
  {
  }

  lemma FailSchedule(c: Config, o: Backoff, d: Backend, a: Attempt, b: Backend)
    requires ScheduleInv(c, o, b)
    ensures ScheduleInv(c, Fail(c, o, d, a), b)
  {
    FailLog(c, o, d, a, b);
  }

  lemma FailBook(c: Config, o: Backoff, d: Backend, a: Attempt, b: Backend, steps: nat)
    requires ScheduleInv(c, o, b) && LogInv(c, Log(o, b), a.end, steps)
    requires WaitedOut(c, Log(o, d), a.start, a.startStep) && a.start <= a.end && a.endStep == steps
    requires forall i :: 0 <= i < |Log(o, d)| ==> Log(o, d)[i].endStep < steps
    ensures ScheduleInv(c, Fail(c, o, d, a), b) && LogInv(c, Log(Fail(c, o, d, a), b), a.end, steps)
  {
    FailSchedule(c, o, d, a, b);
    FailLog(c, o, d, a, b);
    if b == d {
      LogSnoc(c, Log(o, d), a, a.end, steps);
    }
  }

  /** A failure at the current step is no failure any launch under way started after. */
  lemma StillWaitedOut(c: Config, log: seq<Attempt>, a: Attempt, start: int, startStep: nat)
    requires WaitedOut(c, log, start, startStep) && startStep <= a.endStep
    ensures WaitedOut(c, log + [a], start, startStep)
  {
  }

  lemma FailBackoff<W>(c: Config, s: Pool<W>, t: nat)
    requires BackoffInv(c, s) && Ticked(s) && t in s.tasks && s.tasks[t].Starting?
    ensures BackoffInv(c, LaunchFailsStep(c, s, t))
  {
    var s' := LaunchFailsStep(c, s, t);
    var k := s.tasks[t];
    var a := Attempt(k.startedAt, k.startedStep, s.clock, s.steps);
    forall b ensures ScheduleInv(c, s'.backoff, b) && LogInv(c, Log(s'.backoff, b), s'.clock, s'.steps) {
      FailBook(c, s.backoff, k.backend, a, b, s.steps);
    }
    forall u | u in s'.tasks && s'.tasks[u].Starting?
      ensures WaitedOut(c, Log(s'.backoff, s'.tasks[u].backend), s'.tasks[u].startedAt, s'.tasks[u].startedStep)
    {
      StillWaitedOut(c, Log(s.backoff, s.tasks[u].backend), a, s.tasks[u].startedAt, s.tasks[u].startedStep);
    }
  }

  lemma QuietFrame<W>(c: Config, s: Pool<W>, e: Event<W>)
    requires Enabled(s, e, s.clock)
    requires !e.Resume? && !e.LaunchSucceeds? && !e.LaunchFails? && !e.Refill? && !e.ServerCloses?
    ensures var s' := Act(c, s, e);
      && s'.backoff == s.backoff && s'.clock == s.clock && s'.steps == s.steps
      && forall u :: u in s'.tasks && s'.tasks[u].Starting? ==> u in s.tasks && s'.tasks[u] == s.tasks[u]
  {
  }

  /** Steps that touch neither the book of failures nor the launches under way. */
  lemma QuietBackoff<W>(c: Config, s: Pool<W>, e: Event<W>)
    requires BackoffInv(c, s) && Enabled(s, e, s.clock)
    requires !e.Resume? && !e.LaunchSucceeds? && !e.LaunchFails? && !e.Refill? && !e.ServerCloses?
    ensures BackoffInv(c, Act(c, s, e))
  {
    QuietFrame(c, s, e);
  }

  lemma TickBackoff<W>(c: Config, s: Pool<W>, now: int)
    requires BackoffInv(c, s) && s.clock <= now
    ensures BackoffInv(c, Tick(s, now)) && Ticked(Tick(s, now))
  {
    var s' := Tick(s, now);
    forall b
      ensures ScheduleInv(c, s'.backoff, b) && LogInv(c, Log(s'.backoff, b), s'.clock, s'.steps)
      ensures forall i :: 0 <= i < |Log(s'.backoff, b)| ==> Log(s'.backoff, b)[i].endStep < s'.steps
    {
      assert ScheduleInv(c, s.backoff, b) && LogInv(c, Log(s.backoff, b), s.clock, s.steps);
    }
  }

  lemma StepBackoff<W>(c: Config, s0: Pool<W>, e: Event<W>, now: int)
    requires BackoffInv(c, s0) && Enabled(s0, e, now)
    ensures BackoffInv(c, Apply(c, s0, e, now))
  {
    TickBackoff(c, s0, now);
    var s := Tick(s0, now);
    match e
    case Resume(t) => ResumeBackoff(c, s, t, s.tasks[t].backend, s.tasks[t].profile);
    case LaunchSucceeds(t, w) => SucceedBackoff(c, s, t, w);
    case LaunchFails(t) => FailBackoff(c, s, t);
    case Refill(t) =>
      BeginLaunchBackoff(c, s, t, s.tasks[t].backend, c.defaultProfile, ForRefill);
      assert StartsInv(c, s.(tasks := s.tasks - {t}));
    case ServerCloses(w) => MarkDeadBackoff(c, s, w);
    case _ => QuietBackoff(c, s, e);
  }

  /** At start-up nothing has failed yet, and every launch starts at once. */
  lemma {:induction false} StartShape<W>(c: Config, n: nat, t0: nat)
    ensures var s: Pool<W> := Start(c, n, t0);
      && s.backoff == Backoff(map[], map[], map[]) && s.clock == t0 && s.steps == 0
      && forall t :: t in s.tasks && s.tasks[t].Starting? ==> s.tasks[t].startedAt == t0 && s.tasks[t].startedStep == 0
  {
    if n == 0 {
    } else {
      StartShape<W>(c, n - 1, t0);
    }
  }

  lemma StartBackoff<W>(c: Config, n: nat, t0: nat)
    ensures BackoffInv(c, Start<W>(c, n, t0))
  {
    var s: Pool<W> := Start(c, n, t0);
    StartShape<W>(c, n, t0);
    assert forall b :: Log(s.backoff, b) == [];
  }

  lemma {:induction false} RunBackoff<W>(c: Config, t0: nat, run: seq<Timed<W>>)
    requires Exec(c, t0, run).Some?
    ensures BackoffInv(c, Exec(c, t0, run).value)
    decreases |run|
  {
    if run == [] {
      StartBackoff<W>(c, c.poolMin, t0);
    } else {
      var before := run[..|run| - 1];
      RunBackoff(c, t0, before);
      StepBackoff(c, Exec(c, t0, before).value, run[|run| - 1].event, run[|run| - 1].now);
    }
  }

  // ---- What the schedule promises ----

  /** In every run, the k-th failure in a row schedules the next launch Delay(k) after it ended. */
  lemma FailureSchedules<W>(c: Config, t0: nat, run: seq<Timed<W>>, t: nat, now: int)
    requires Exec(c, t0, run).Some? && Enabled(Exec(c, t0, run).value, LaunchFails(t), now)
    ensures var s := Exec(c, t0, run).value;
      var b := s.tasks[t].backend;
      Get(Apply(c, s, LaunchFails(t), now).backoff.nextLaunchAt, b, 0) == now + Delay(c, |Log(s.backoff, b)| + 1)
  {
    RunBackoff(c, t0, run);
    var s := Exec(c, t0, run).value;
    assert ScheduleInv(c, s.backoff, s.tasks[t].backend);
  }

  ghost predicate NewLaunch<W>(s: Pool<W>, s': Pool<W>, u: nat) {
    u in s'.tasks && s'.tasks[u].Starting? && !(u in s.tasks && s.tasks[u] == s'.tasks[u])
  }

  lemma MarkDeadOnTime<W>(c: Config, s: Pool<W>, w: W, u: nat)
    requires w in s.recs
    ensures MarkDead(c, s, w).backoff == s.backoff && MarkDead(c, s, w).clock == s.clock
    ensures var s' := MarkDead(c, s, w); NewLaunch(s, s', u) ==>
      Get(s.backoff.nextLaunchAt, s'.tasks[u].backend, 0) <= s.clock
  {
  }

  lemma SweepOnTime<W>(c: Config, s: Pool<W>, ws: seq<W>, u: nat)
    requires forall w :: w in ws ==> w in s.recs
    ensures Sweep(c, s, ws).backoff == s.backoff && Sweep(c, s, ws).clock == s.clock
    ensures var s' := Sweep(c, s, ws); NewLaunch(s, s', u) ==>
      Get(s.backoff.nextLaunchAt, s'.tasks[u].backend, 0) <= s.clock
    decreases |ws|
  {
    if ws == [] {
    } else {
      MarkDeadOnTime(c, s, ws[0], u);
      var r := s.recs[ws[0]];
      SweepOnTime(c, if r.state == Healthy && !r.connected then MarkDead(c, s, ws[0]) else s, ws[1..], u);
    }
  }

  lemma ResumeOnTime<W>(c: Config, s: Pool<W>, t: nat, b: Backend, p: Profile, u: nat)
    requires forall w :: w in s.workers ==> w in s.recs
    ensures var s' := ResumeAcquire(c, s, t, b, p);
      NewLaunch(s, s', u) ==> Get(s.backoff.nextLaunchAt, s'.tasks[u].backend, 0) <= s.clock
  {
    SweepOnTime(c, s, s.workers, u);
    SweepKeepsListed(c, s, s.workers);
  }

  /** No launch begins before its own backend's scheduled time, whoever asks for it. */
  lemma LaunchesBeginOnTime<W>(c: Config, s0: Pool<W>, e: Event<W>, now: int, u: nat)
    requires Enabled(s0, e, now) && NewLaunch(s0, Apply(c, s0, e, now), u)
    ensures Get(s0.backoff.nextLaunchAt, Apply(c, s0, e, now).tasks[u].backend, 0) <= now
  {
    var s := Tick(s0, now);
    match e
    case Resume(t) => ResumeOnTime(c, s, t, s.tasks[t].backend, s.tasks[t].profile, u);
    case ServerCloses(w) => MarkDeadOnTime(c, s, w, u);
    case _ =>
  }

  /** The pauses of n failures in a row, the first of which is the i-th counted from 0. */
  function Pauses(c: Config, i: nat, n: nat): int {
    if n == 0 then 0 else Pauses(c, i, n - 1) + Delay(c, i + n)
  }

  /** Each of the n launches after the i-th failure started after the one before it had failed. */
  ghost predicate NonOverlapping(log: seq<Attempt>, i: nat, n: nat)
    requires i + n < |log|
  {
    forall j :: i <= j < i + n ==> log[j + 1].startStep > log[j].endStep
  }

  lemma {:induction false} LogSpan(c: Config, log: seq<Attempt>, clock: int, steps: nat, i: nat, n: nat)
    requires LogInv(c, log, clock, steps) && i + n < |log| && NonOverlapping(log, i, n)
    ensures log[i + n].end - log[i].end >= Pauses(c, i, n)
    decreases n
  {
    if n == 0 {
    } else {
      var k := i + n;
      LogSpan(c, log, clock, steps, i, n - 1);
      assert log[k - 1 + 1].startStep > log[k - 1].endStep;
      assert WaitedOut(c, log[..k], log[k].start, log[k].startStep);
      assert log[..k][k - 1] == log[k - 1];
    }
  }

  /**
   In every run, any stretch of a backend's failures in a row in which none overlaps the next
   spans the pauses between them, whatever failures came before.
   */
  lemma FailuresSpanTheirPauses<W>(c: Config, t0: nat, run: seq<Timed<W>>, b: Backend, i: nat, n: nat)
    requires Exec(c, t0, run).Some?
    requires var log := Log(Exec(c, t0, run).value.backoff, b); i + n < |log| && NonOverlapping(log, i, n)
    ensures var log := Log(Exec(c, t0, run).value.backoff, b);
      log[i + n].end - log[i].end >= Pauses(c, i, n)
  {
    RunBackoff(c, t0, run);
    var s := Exec(c, t0, run).value;
    var log := Log(s.backoff, b);
    assert LogInv(c, log, s.clock, s.steps);
    LogSpan(c, log, s.clock, s.steps, i, n);
  }
}

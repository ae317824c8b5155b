/** Which memory readings the admission queue takes, what it makes of them, and when it refuses. */
module QueueSamples {
  import opened Wrappers
  import opened Percentile
  import opened QueueSpec
  import opened QueueProofs

  // ---- Readings ----

  function Submissions(run: seq<Event>): nat {
    if run == [] then 0 else Submissions(run[..|run| - 1]) + if run[|run| - 1].Submit? then 1 else 0
  }

  function Resolutions(run: seq<Event>): nat {
    if run == [] then 0 else Resolutions(run[..|run| - 1]) + if run[|run| - 1].Sample? then 1 else 0
  }

  /**
   The readings taken: one for each submission, for each drain (one follows each admission and
   each end of a job), for each start and for each resolved job.
   */
  ghost predicate ReadingsCounted(s: Queue, submissions: nat, resolutions: nat) {
    s.attempts == submissions && s.taken == submissions + |s.admitted| + |s.ended| + |s.started| + resolutions
  }

  /** A drain takes one reading for each job it starts, after its own. */
  ghost predicate StartsOnly(s: Queue, s': Queue) {
    && s'.attempts == s.attempts && s'.admitted == s.admitted && s'.ended == s.ended
    && s'.samples == s.samples && s'.log == s.log && s'.alerted == s.alerted
    && s'.memoryRejections == s.memoryRejections && s'.queueRejections == s.queueRejections
    && s.started <= s'.started && s'.taken - s.taken == |s'.started| - |s.started|
  }

  lemma {:induction false} DrainLoopReads(c: Config, rss: nat -> real, s: Queue, reading: real)
    requires Positive(s.samples)
    ensures StartsOnly(s, DrainLoop(c, rss, s, reading))
    decreases |s.pending|
  {
    if CanStart(c, s, reading) {
      DrainLoopReads(c, rss, StartHead(rss, s), reading);
    }
  }

  lemma DrainReads(c: Config, rss: nat -> real, s: Queue)
    requires Positive(s.samples)
    ensures StartsOnly(s.(taken := s.taken + 1, alerted := s.alerted && s.pending != []), Drain(c, rss, s))
  {
    DrainLoopReads(c, rss, s.(taken := s.taken + 1, alerted := s.alerted && s.pending != []), rss(s.taken));
  }

  /** The state in which the drain of an admitted submission begins. */
  function Admitted(c: Config, s: Queue, k: Kind): Queue {
    Admit(c, s.(taken := s.taken + 1, attempts := s.attempts + 1), k)
  }

  predicate Refused(c: Config, rss: nat -> real, s: Queue, k: Kind) {
    MemoryRefuses(c, s, k, rss(s.taken)) || |s.pending| >= c.queueMax
  }

  /** The readings of one step. */
  ghost predicate StepReads(s: Queue, s': Queue, e: Event) {
    && s'.attempts == s.attempts + (if e.Submit? then 1 else 0)
    && s'.taken - s.taken == (if e.Submit? || e.Sample? then 1 else 0)
         + |s'.admitted| - |s.admitted| + |s'.ended| - |s.ended| + |s'.started| - |s.started|
  }

  lemma SubmitReads(c: Config, rss: nat -> real, s: Queue, k: Kind)
    requires Positive(s.samples)
    ensures StepReads(s, SubmitStep(c, rss, s, k), Submit(k)) && SubmitStep(c, rss, s, k).log == s.log
  {
    if !Refused(c, rss, s, k) {
      DrainReads(c, rss, Admitted(c, s, k));
    }
  }

  lemma EndReads(c: Config, rss: nat -> real, s: Queue, id: nat)
    requires Positive(s.samples)
    ensures StepReads(s, Drain(c, rss, Free(s, id)), Complete(id)) && Drain(c, rss, Free(s, id)).log == s.log
  {
    DrainReads(c, rss, Free(s, id));
  }

  lemma {:induction false} ReadingsTaken(c: Config, rss: nat -> real, run: seq<Event>)
    requires Exec(c, rss, run).Some?
    ensures ReadingsCounted(Exec(c, rss, run).value, Submissions(run), Resolutions(run))
    decreases |run|
  {
    if run == [] {
    } else {
      var s := Exec(c, rss, run[..|run| - 1]).value;
      ReadingsTaken(c, rss, run[..|run| - 1]);
      match run[|run| - 1]
      case Submit(k) => SubmitReads(c, rss, s, k);
      case Sample(_) =>
      case Complete(id) => EndReads(c, rss, s, id);
      case Fail(id) => EndReads(c, rss, s, id);
    }
  }

  // ---- Samples ----

  /**
   The reading a job's growth is counted from, by its number: the starts of a step take the last
   readings of the step, in order.
   */
  function StartReading(c: Config, rss: nat -> real, run: seq<Event>, id: nat): nat
    requires Exec(c, rss, run).Some? && id < |Exec(c, rss, run).value.started|
    decreases |run|
  {
    ReadingsTaken(c, rss, run);
    var before, s := run[..|run| - 1], Exec(c, rss, run).value;
    if id < |Exec(c, rss, before).value.started| then StartReading(c, rss, before, id)
    else s.taken - |s.started| + id
  }

  /** What resolved jobs of a kind grew by, each at least 1, in the order in which they resolved. */
  function Growths(c: Config, rss: nat -> real, run: seq<Event>, k: Kind): seq<real>
    requires Exec(c, rss, run).Some?
    decreases |run|
  {
    if run == [] then []
    else
      var before, e := run[..|run| - 1], run[|run| - 1];
      var s := Exec(c, rss, before).value;
      RunInv(c, rss, before);
      Growths(c, rss, before, k) +
      if e.Sample? && s.admitted[e.id].kind == k then
        var grown := rss(s.taken) - rss(StartReading(c, rss, before, e.id));
        [if grown < 1.0 then 1.0 else grown]
      else []
  }

  /** A running job is of its own kind, and a working one carries this reading, by number. */
  ghost predicate Notes(rss: nat -> real, s: Queue, id: nat, reading: int)
    requires id in s.running
  {
    && id < |s.admitted| && s.running[id].kind == s.admitted[id].kind
    && (s.running[id].Working? ==> 0 <= reading && s.running[id].before == rss(reading))
  }

  lemma {:induction false} DrainLoopNotes(c: Config, rss: nat -> real, s: Queue, reading: real, id: nat)
    requires Inv(c, s) && Positive(s.samples) && s.taken >= |s.started|
    requires id in DrainLoop(c, rss, s, reading).running
    ensures var s' := DrainLoop(c, rss, s, reading);
      if id < |s.started| then id in s.running && s'.running[id] == s.running[id]
      else Notes(rss, s', id, s.taken - |s.started| + id)
    decreases |s.pending|
  {
    if CanStart(c, s, reading) {
      var s1 := StartHead(rss, s);
      assert s.pending[0] == s.admitted[|s.started|];
      StartInv(c, rss, s);
      DrainLoopNotes(c, rss, s1, reading, id);
      DrainLoopReads(c, rss, s1, reading);
    }
  }

  lemma DrainNotes(c: Config, rss: nat -> real, s: Queue, id: nat)
    requires Inv(c, s) && Positive(s.samples) && s.taken >= |s.started|
    requires id in Drain(c, rss, s).running
    ensures var s' := Drain(c, rss, s);
      if id < |s.started| then id in s.running && s'.running[id] == s.running[id]
      else Notes(rss, s', id, s'.taken - |s'.started| + id)
  {
    DrainReads(c, rss, s);
    DrainLoopNotes(c, rss, s.(taken := s.taken + 1, alerted := s.alerted && s.pending != []), rss(s.taken), id);
  }

  /** What is known of a job is kept by a step, or the step starts it and notes its reading. */
  ghost predicate KeepsNotes(rss: nat -> real, s: Queue, s': Queue, e: Event, id: nat)
    requires id in s'.running
  {
    && s.admitted <= s'.admitted
    && if id >= |s.started| then Notes(rss, s', id, s'.taken - |s'.started| + id)
       else id in s.running && s'.running[id] == if e == Sample(id) then Sampled(s.running[id].kind) else s.running[id]
  }

  lemma AdmittedNotes(c: Config, rss: nat -> real, s: Queue, k: Kind, id: nat)
    requires Inv(c, s) && Positive(s.samples) && s.taken >= |s.started| && |s.pending| < c.queueMax
    requires id in Drain(c, rss, Admitted(c, s, k)).running
    ensures KeepsNotes(rss, s, Drain(c, rss, Admitted(c, s, k)), Submit(k), id)
  {
    AdmitInv(c, s, k);
    DrainNotes(c, rss, Admitted(c, s, k), id);
    DrainReads(c, rss, Admitted(c, s, k));
  }

  lemma SubmitNotes(c: Config, rss: nat -> real, s: Queue, k: Kind, id: nat)
    requires Inv(c, s) && Positive(s.samples) && s.taken >= |s.started| && id in SubmitStep(c, rss, s, k).running
    ensures KeepsNotes(rss, s, SubmitStep(c, rss, s, k), Submit(k), id)
  {
    if !Refused(c, rss, s, k) {
      AdmittedNotes(c, rss, s, k, id);
    }
  }

  lemma EndNotes(c: Config, rss: nat -> real, s: Queue, j: nat, e: Event, id: nat)
    requires Inv(c, s) && Positive(s.samples) && s.taken >= |s.started| && j in s.running && !e.Sample?
    requires id in Drain(c, rss, Free(s, j)).running
    ensures KeepsNotes(rss, s, Drain(c, rss, Free(s, j)), e, id)
  {
    FreeInv(c, s, j);
    DrainNotes(c, rss, Free(s, j), id);
    DrainReads(c, rss, Free(s, j));
  }

  lemma StepNotes(c: Config, rss: nat -> real, s: Queue, e: Event, id: nat)
    requires Inv(c, s) && Enabled(s, e) && s.taken >= |s.started| && id in Apply(c, rss, s, e).running
    ensures KeepsNotes(rss, s, Apply(c, rss, s, e), e, id)
  {
    match e
    case Submit(k) => SubmitNotes(c, rss, s, k, id);
    case Sample(_) =>
    case Complete(j) => EndNotes(c, rss, s, j, e, id);
    case Fail(j) => EndNotes(c, rss, s, j, e, id);
  }

  /** What a step keeps is still noted after it; a job whose sample was taken works no more. */
  lemma StillNoted(rss: nat -> real, s: Queue, s': Queue, e: Event, id: nat, reading: int)
    requires id in s.running && Notes(rss, s, id, reading)
    requires id in s'.running && KeepsNotes(rss, s, s', e, id) && id < |s.started|
    ensures Notes(rss, s', id, reading)
  {
  }

  lemma RunningStarted(c: Config, rss: nat -> real, run: seq<Event>, id: nat)
    requires Exec(c, rss, run).Some? && id in Exec(c, rss, run).value.running
    ensures id < |Exec(c, rss, run).value.started|
  {
    RunInv(c, rss, run);
  }

  /** Over every run a working job carries the reading of its own start. */
  lemma {:induction false} RunNotes(c: Config, rss: nat -> real, run: seq<Event>, id: nat)
    requires Exec(c, rss, run).Some? && id in Exec(c, rss, run).value.running
    ensures id < |Exec(c, rss, run).value.started|
    ensures Notes(rss, Exec(c, rss, run).value, id, StartReading(c, rss, run, id))
    decreases |run|
  {
    RunningStarted(c, rss, run, id);
    if run == [] {
    } else {
      var before, e := run[..|run| - 1], run[|run| - 1];
      var s := Exec(c, rss, before).value;
      RunInv(c, rss, before);
      ReadingsTaken(c, rss, before);
      StepNotes(c, rss, s, e, id);
      if id < |s.started| {
        RunNotes(c, rss, before, id);
        StillNoted(rss, s, Exec(c, rss, run).value, e, id, StartReading(c, rss, before, id));
      }
    }
  }

  lemma StepLogs(c: Config, rss: nat -> real, s: Queue, e: Event, k: Kind)
    requires Inv(c, s) && Enabled(s, e)
    ensures Get(Apply(c, rss, s, e).log, k, []) == Get(s.log, k, []) +
      if e.Sample? && s.running[e.id].kind == k then
        var grown := rss(s.taken) - s.running[e.id].before;
        [if grown < 1.0 then 1.0 else grown]
      else []
  {
    match e
    case Submit(j) => SubmitReads(c, rss, s, j);
    case Sample(_) =>
    case Complete(id) => EndReads(c, rss, s, id);
    case Fail(id) => EndReads(c, rss, s, id);
  }

  lemma {:induction false} LogsGrowths(c: Config, rss: nat -> real, run: seq<Event>, k: Kind)
    requires Exec(c, rss, run).Some?
    ensures Get(Exec(c, rss, run).value.log, k, []) == Growths(c, rss, run, k)
    decreases |run|
  {
    if run == [] {
    } else {
      var before, e := run[..|run| - 1], run[|run| - 1];
      var s := Exec(c, rss, before).value;
      RunInv(c, rss, before);
      LogsGrowths(c, rss, before, k);
      StepLogs(c, rss, s, e, k);
      if e.Sample? {
        RunNotes(c, rss, before, e.id);
      }
    }
  }

  /**
   Over every run, a workload's estimate is the nearest-rank 90th percentile of what the last 128
   jobs of its kind to resolve grew by, each from the reading of its own start to that of its
   resolution; until the first has resolved it is the default.
   */
  lemma EstimatesOverRuns(c: Config, rss: nat -> real, run: seq<Event>, k: Kind)
    requires Exec(c, rss, run).Some?
    ensures var s, all := Exec(c, rss, run).value, Growths(c, rss, run, k);
      var window := if |all| > 128 then all[|all| - 128..] else all;
      var planned :=
        if k == Http then 32.0
        else if k == Screenshot || k == Download then 192.0
        else if k == Unknown then 200.0
        else 256.0;
      && Get(s.samples, k, []) == window && Estimate(s.samples, k) >= 1.0
      && (all != [] ==> NearestRank90(window, Estimate(s.samples, k)))
      && (all == [] ==> Estimate(s.samples, k) == planned)
  {
    RunInv(c, rss, run);
    LogsGrowths(c, rss, run, k);
    var s := Exec(c, rss, run).value;
    WindowsPositive(s.samples, s.log);
    EstimatePositive(s.samples, k);
    var window := LastOf(Get(s.log, k, []), WINDOW);
    assert Get(s.samples, k, []) == window;
    if window != [] {
      P90IsNearestRank(window, DefaultEstimate(k));
    }
  }

  // ---- Refusals and the alert ----

  /**
   A submission is refused for memory when the service is at its hard limit or the estimate does not
   fit under the reserve, else for the queue when that is full, and is admitted otherwise, last;
   each outcome is counted as what it is.
   */
  lemma RefusedExactly(c: Config, rss: nat -> real, s: Queue, k: Kind)
    requires Inv(c, s) && Enabled(s, Submit(k))
    ensures var s', reading := Apply(c, rss, s, Submit(k)), rss(s.taken);
      var memory := reading >= c.hardMb || reading + Estimate(s.samples, k) > c.hardMb - c.reserveMb;
      var full := !memory && |s.pending| >= c.queueMax;
      && s'.memoryRejections == s.memoryRejections + (if memory then 1 else 0)
      && s'.queueRejections == s.queueRejections + (if full then 1 else 0)
      && s'.admitted == s.admitted + (if memory || full then [] else [Job(|s.admitted|, k)])
      && (memory || full ==> s'.started == s.started && s'.pending == s.pending && s'.alerted == s.alerted)
  {
    if !Refused(c, rss, s, k) {
      DrainReads(c, rss, Admitted(c, s, k));
    }
  }

  /**
   The alert is raised by a submission that is admitted while others wait or all slots are taken,
   and lowered by the end of a job while nobody waits.
   */
  lemma AlertedExactly(c: Config, rss: nat -> real, s: Queue, e: Event)
    requires Inv(c, s) && Enabled(s, e)
    ensures var s' := Apply(c, rss, s, e);
      s'.alerted <==>
        if e.Submit? && |s'.admitted| > |s.admitted| then s.alerted || |s.pending| > 0 || s.active >= c.maxConcurrency
        else if e.Complete? || e.Fail? then s.alerted && |s.pending| > 0
        else s.alerted
  {
    match e
    case Submit(k) =>
      if !Refused(c, rss, s, k) {
        DrainReads(c, rss, Admitted(c, s, k));
      }
    case Sample(_) =>
    case Complete(id) => DrainReads(c, rss, Free(s, id));
    case Fail(id) => DrainReads(c, rss, Free(s, id));
  }
}

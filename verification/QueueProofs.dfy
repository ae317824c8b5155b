/** What the admission queue keeps in every run, when it starts jobs, and when it stalls. */
module QueueProofs {
  import opened Wrappers
  import opened Percentile
  import opened QueueSpec

  // ---- The arithmetic of a slot ----

  lemma MulMonotone(a: real, b: real, e: real)
    requires a <= b && e > 0.0
    ensures a * e <= b * e
  {
    assert (b - a) * e >= 0.0;
  }

  lemma MulStrict(a: real, b: real, e: real)
    requires a < b && e > 0.0
    ensures a * e < b * e
  {
    assert (b - a) * e > 0.0;
  }

  /** Being below the floored quotient is having room for one more estimate. */
  lemma SlotsMean(room: real, estimate: real, active: nat)
    requires estimate > 0.0
    ensures active < Slots(room, estimate) <==> (active + 1) as real * estimate <= room
  {
    var q := room / estimate;
    assert q * estimate == room;
    var n := (active + 1) as real;
    if n <= q {
      MulMonotone(n, q, estimate);
      assert q.Floor >= active + 1;
    } else {
      MulStrict(q, n, estimate);
      assert q.Floor <= active;
    }
  }

  // ---- The invariant ----

  ghost predicate Windows(samples: map<Kind, seq<real>>, log: map<Kind, seq<real>>) {
    && (forall k :: Get(samples, k, []) == LastOf(Get(log, k, []), WINDOW))
    && (forall k, i :: 0 <= i < |Get(log, k, [])| ==> Get(log, k, [])[i] >= 1.0)
  }

  ghost predicate Inv(c: Config, s: Queue) {
    // The admitted jobs are the started ones in start order, then the pending ones.
    && s.admitted == s.started + s.pending
    && (forall i :: 0 <= i < |s.admitted| ==> s.admitted[i].id == i)
    // Every call was admitted or refused.
    && s.attempts == |s.admitted| + s.memoryRejections + s.queueRejections
    // A started job is running or has ended, once; the running ones hold the active slots.
    && (forall id: nat :: id in s.running <==> id < |s.started| && id !in s.ended)
    && (forall i, j :: 0 <= i < j < |s.ended| ==> s.ended[i] != s.ended[j])
    && (forall i :: 0 <= i < |s.ended| ==> s.ended[i] < |s.started|)
    && |s.started| == s.active + |s.ended|
    // The bounds.
    && 0 <= s.active <= c.maxConcurrency
    && |s.pending| <= c.queueMax
    && (!s.alerted ==> |s.pending| <= 1)
    // The windows.
    && Windows(s.samples, s.log)
  }

  lemma WindowsPositive(samples: map<Kind, seq<real>>, log: map<Kind, seq<real>>)
    requires Windows(samples, log)
    ensures Positive(samples)
  {
    forall k, i | k in samples && 0 <= i < |samples[k]| ensures samples[k][i] >= 1.0 {
      assert samples[k] == Get(samples, k, []) == LastOf(Get(log, k, []), WINDOW);
    }
  }

  lemma WindowSlides(all: seq<real>, v: real)
    ensures LastOf(LastOf(all, WINDOW) + [v], WINDOW) == LastOf(all + [v], WINDOW)
  {
  }

  lemma RecordKeepsWindows(samples: map<Kind, seq<real>>, log: map<Kind, seq<real>>, k: Kind, v: real)
    requires Windows(samples, log) && v >= 1.0
    ensures Windows(Record(samples, k, v), log[k := Get(log, k, []) + [v]])
  {
    var samples', log' := Record(samples, k, v), log[k := Get(log, k, []) + [v]];
    WindowSlides(Get(log, k, []), v);
    forall j
      ensures Get(samples', j, []) == LastOf(Get(log', j, []), WINDOW)
      ensures forall i :: 0 <= i < |Get(log', j, [])| ==> Get(log', j, [])[i] >= 1.0
    {
      assert Get(samples, j, []) == LastOf(Get(log, j, []), WINDOW);
      assert j != k ==> Get(samples', j, []) == Get(samples, j, []) && Get(log', j, []) == Get(log, j, []);
    }
  }

  lemma DistinctCard(s: seq<nat>, all: set<nat>)
    requires forall i, j :: 0 <= i < j < |s| ==> s[i] != s[j]
    requires all == set i | 0 <= i < |s| :: s[i]
    ensures |all| == |s|
  {
    if s == [] {
    } else {
      var n := |s| - 1;
      var less := set i | 0 <= i < n :: s[..n][i];
      DistinctCard(s[..n], less);
      assert all == less + {s[n]};
    }
  }

  /** The running jobs are as many as the active slots. */
  lemma ActiveIsRunning(c: Config, s: Queue)
    requires Inv(c, s)
    ensures s.active == |s.running|
  {
    var ids := seq(|s.started|, i => i);
    var all := set i | 0 <= i < |ids| :: ids[i];
    var ended := set i | 0 <= i < |s.ended| :: s.ended[i];
    DistinctCard(ids, all);
    DistinctCard(s.ended, ended);
    forall id: nat ensures id in all <==> id < |s.started| {
      if id < |s.started| {
        assert ids[id] == id;
      }
    }
    forall id: nat ensures id in ended <==> id in s.ended {
    }
    assert ended <= all;
    assert s.running.Keys == all - ended;
    assert |s.running| == |s.running.Keys|;
  }

  lemma StartInv(c: Config, rss: nat -> real, s: Queue)
    requires Inv(c, s) && s.pending != [] && s.active < c.maxConcurrency
    ensures Inv(c, StartHead(rss, s))
  {
    var s' := StartHead(rss, s);
    assert s'.admitted == s'.started + s'.pending;
    assert s.pending[0] == s.admitted[|s.started|];
    assert s.pending[0].id == |s.started|;
  }

  lemma {:induction false} DrainLoopInv(c: Config, rss: nat -> real, s: Queue, reading: real)
    requires Inv(c, s) && Positive(s.samples)
    ensures Inv(c, DrainLoop(c, rss, s, reading))
    decreases |s.pending|
  {
    if CanStart(c, s, reading) {
      StartInv(c, rss, s);
      DrainLoopInv(c, rss, StartHead(rss, s), reading);
    }
  }

  lemma DrainInv(c: Config, rss: nat -> real, s: Queue)
    requires Inv(c, s) && Positive(s.samples)
    ensures Inv(c, Drain(c, rss, s))
  {
    DrainLoopInv(c, rss, s.(taken := s.taken + 1, alerted := s.alerted && s.pending != []), rss(s.taken));
  }

  lemma AdmitInv(c: Config, s: Queue, k: Kind)
    requires Inv(c, s) && |s.pending| < c.queueMax
    ensures Inv(c, Admit(c, s.(taken := s.taken + 1, attempts := s.attempts + 1), k))
  {
    var s' := Admit(c, s.(taken := s.taken + 1, attempts := s.attempts + 1), k);
    assert s'.admitted == s.started + s'.pending;
  }

  lemma RefuseInv(c: Config, s: Queue)
    requires Inv(c, s)
    ensures var s1 := s.(taken := s.taken + 1, attempts := s.attempts + 1);
      && Inv(c, s1.(memoryRejections := s.memoryRejections + 1))
      && Inv(c, s1.(queueRejections := s.queueRejections + 1))
  {
  }

  lemma SubmitInv(c: Config, rss: nat -> real, s: Queue, k: Kind)
    requires Inv(c, s) && Positive(s.samples)
    ensures Inv(c, SubmitStep(c, rss, s, k))
  {
    if !MemoryRefuses(c, s, k, rss(s.taken)) && |s.pending| < c.queueMax {
      AdmitInv(c, s, k);
      DrainInv(c, rss, Admit(c, s.(taken := s.taken + 1, attempts := s.attempts + 1), k));
    } else {
      RefuseInv(c, s);
    }
  }

  lemma FreeInv(c: Config, s: Queue, id: nat)
    requires Inv(c, s) && id in s.running
    ensures Inv(c, Free(s, id)) && s.active >= 1
  {
    ActiveIsRunning(c, s);
    assert s.running.Keys != {};
    assert Free(s, id).running.Keys == s.running.Keys - {id};
  }

  lemma SampleInv(c: Config, rss: nat -> real, s: Queue, id: nat)
    requires Inv(c, s) && id in s.running && s.running[id].Working?
    ensures Inv(c, SampleStep(rss, s, id))
  {
    var grown := rss(s.taken) - s.running[id].before;
    RecordKeepsWindows(s.samples, s.log, s.running[id].kind, if grown < 1.0 then 1.0 else grown);
  }

  lemma StepInv(c: Config, rss: nat -> real, s: Queue, e: Event)
    requires Inv(c, s) && Enabled(s, e)
    ensures Inv(c, Apply(c, rss, s, e))
  {
    match e
    case Submit(k) => SubmitInv(c, rss, s, k);
    case Sample(id) => SampleInv(c, rss, s, id);
    case Complete(id) =>
      FreeInv(c, s, id);
      DrainInv(c, rss, Free(s, id));
    case Fail(id) =>
      FreeInv(c, s, id);
      DrainInv(c, rss, Free(s, id));
  }

  /** The invariant holds over every run. */
  lemma {:induction false} RunInv(c: Config, rss: nat -> real, run: seq<Event>)
    requires Exec(c, rss, run).Some?
    ensures Inv(c, Exec(c, rss, run).value)
    decreases |run|
  {
    if run == [] {
    } else {
      RunInv(c, rss, run[..|run| - 1]);
      StepInv(c, rss, Exec(c, rss, run[..|run| - 1]).value, run[|run| - 1]);
    }
  }

  /** What the invariant says, over every run. */
  lemma QueueAccounts(c: Config, rss: nat -> real, run: seq<Event>)
    requires Exec(c, rss, run).Some?
    ensures var s := Exec(c, rss, run).value;
      && s.admitted == s.started + s.pending
      && (forall i :: 0 <= i < |s.admitted| ==> s.admitted[i].id == i)
      && s.attempts == |s.admitted| + s.memoryRejections + s.queueRejections
      && (forall id: nat :: id in s.running <==> id < |s.started| && id !in s.ended)
      && (forall i, j :: 0 <= i < j < |s.ended| ==> s.ended[i] != s.ended[j])
      && (forall i :: 0 <= i < |s.ended| ==> s.ended[i] < |s.started|)
      && s.active == |s.running| <= c.maxConcurrency
      && |s.started| == |s.running| + |s.ended|
      && |s.pending| <= c.queueMax && (!s.alerted ==> |s.pending| <= 1)
  {
    RunInv(c, rss, run);
    ActiveIsRunning(c, Exec(c, rss, run).value);
  }

  // ---- What a drain starts ----

  /** One more job of this kind beside `active` others stays within the budget at this reading. */
  ghost predicate Fits(c: Config, samples: map<Kind, seq<real>>, active: int, k: Kind, reading: real) {
    (active + 1) as real * Estimate(samples, k) <= c.hardMb - c.reserveMb - reading
  }

  /** The first n jobs of a queue fit one after another beside the active ones. */
  ghost predicate FitInTurn(c: Config, samples: map<Kind, seq<real>>, active: int, jobs: seq<Job>, reading: real) {
    forall j :: 0 <= j < |jobs| ==> Fits(c, samples, active + j, jobs[j].kind, reading)
  }

  lemma FitOneMore(c: Config, samples: map<Kind, seq<real>>, active: int, job: Job, jobs: seq<Job>, reading: real)
    requires Fits(c, samples, active, job.kind, reading) && FitInTurn(c, samples, active + 1, jobs, reading)
    ensures FitInTurn(c, samples, active, [job] + jobs, reading)
  {
    forall j | 0 <= j < |[job] + jobs| ensures Fits(c, samples, active + j, ([job] + jobs)[j].kind, reading) {
      if j > 0 {
        assert Fits(c, samples, active + 1 + (j - 1), jobs[j - 1].kind, reading);
      }
    }
  }

  lemma CanStartMeans(c: Config, s: Queue, reading: real)
    requires Positive(s.samples) && s.active >= 0 && s.pending != []
    ensures CanStart(c, s, reading) <==>
      s.active < c.maxConcurrency && Fits(c, s.samples, s.active, s.pending[0].kind, reading)
  {
    EstimatePositive(s.samples, s.pending[0].kind);
    SlotsMean(c.Budget() - reading, Estimate(s.samples, s.pending[0].kind), s.active);
  }

  /** A drain stops only at the concurrency bound or at a job that does not fit. */
  lemma {:induction false} DrainLoopStops(c: Config, rss: nat -> real, s: Queue, reading: real)
    requires Positive(s.samples) && s.active >= 0
    ensures var s' := DrainLoop(c, rss, s, reading);
      && s'.samples == s.samples
      && (s'.pending != [] && s'.active < c.maxConcurrency ==>
            !Fits(c, s.samples, s'.active, s'.pending[0].kind, reading))
    decreases |s.pending|
  {
    if CanStart(c, s, reading) {
      DrainLoopStops(c, rss, StartHead(rss, s), reading);
    } else if s.pending != [] {
      CanStartMeans(c, s, reading);
    }
  }

  lemma Prepend(all: seq<Job>, rest: seq<Job>, left: seq<Job>, started: seq<Job>, started': seq<Job>)
    requires all != [] && all[1..] == rest + left && started' == started + [all[0]] + rest
    ensures all == [all[0]] + rest + left && started' == started + ([all[0]] + rest)
  {
  }

  /** The first jobs of the queue were started, in order, each fitting beside those active when it started. */
  ghost predicate Starts(c: Config, s: Queue, s': Queue, jobs: seq<Job>, reading: real) {
    && s'.active == s.active + |jobs|
    && s'.started == s.started + jobs && s.pending == jobs + s'.pending
    && FitInTurn(c, s.samples, s.active, jobs, reading)
  }

  lemma OneMoreStarts(c: Config, rss: nat -> real, s: Queue, s': Queue, rest: seq<Job>, reading: real)
    requires Positive(s.samples) && s.active >= 0 && CanStart(c, s, reading)
    requires Starts(c, StartHead(rss, s), s', rest, reading)
    ensures Starts(c, s, s', [s.pending[0]] + rest, reading)
  {
    CanStartMeans(c, s, reading);
    FitOneMore(c, s.samples, s.active, s.pending[0], rest, reading);
    Prepend(s.pending, rest, s'.pending, s.started, s'.started);
  }

  /**
   A drain takes jobs off the front of the queue, as long as each one leaves the active jobs,
   at the estimate of the one started, within the memory budget.
   */
  lemma {:induction false} DrainLoopStarts(c: Config, rss: nat -> real, s: Queue, reading: real)
      returns (jobs: seq<Job>)
    requires Positive(s.samples) && s.active >= 0
    ensures Starts(c, s, DrainLoop(c, rss, s, reading), jobs, reading)
    decreases |s.pending|
  {
    if CanStart(c, s, reading) {
      var rest := DrainLoopStarts(c, rss, StartHead(rss, s), reading);
      OneMoreStarts(c, rss, s, DrainLoop(c, rss, s, reading), rest, reading);
      jobs := [s.pending[0]] + rest;
    } else {
      jobs := [];
    }
  }

  ghost predicate Stalled(s: Queue) {
    s.pending != [] && s.active == 0
  }

  /** A drain leaves jobs waiting with none running exactly when the first one does not fit alone. */
  lemma DrainStallsExactly(c: Config, rss: nat -> real, s: Queue)
    requires c.Valid() && Positive(s.samples) && s.active >= 0
    ensures Stalled(Drain(c, rss, s)) <==>
      s.active == 0 && s.pending != [] && Estimate(s.samples, s.pending[0].kind) > c.hardMb - c.reserveMb - rss(s.taken)
  {
    var s1 := s.(taken := s.taken + 1, alerted := s.alerted && s.pending != []);
    var jobs := DrainLoopStarts(c, rss, s1, rss(s.taken));
    DrainLoopStops(c, rss, s1, rss(s.taken));
  }

  // ---- Waiting, while the head of the queue finds room ----

  /** The state in which the drain of a step begins, if the step drains. */
  function Draining(c: Config, rss: nat -> real, s: Queue, e: Event): Option<Queue>
    requires Enabled(s, e)
  {
    match e
    case Submit(k) =>
      if MemoryRefuses(c, s, k, rss(s.taken)) || |s.pending| >= c.queueMax then None
      else Some(Admit(c, s.(taken := s.taken + 1, attempts := s.attempts + 1), k))
    case Sample(_) => None
    case Complete(id) => Some(Free(s, id))
    case Fail(id) => Some(Free(s, id))
  }

  /** With nothing running, the drain's reading leaves room for the first job alone. */
  predicate RoomForHead(c: Config, rss: nat -> real, s: Queue) {
    s.active == 0 && s.pending != [] ==> Estimate(s.samples, s.pending[0].kind) <= c.hardMb - c.reserveMb - rss(s.taken)
  }

  /** Every drain of the run that finds nothing running finds room for the first job alone. */
  ghost predicate AlwaysRoom(c: Config, rss: nat -> real, run: seq<Event>)
    requires Exec(c, rss, run).Some?
    decreases |run|
  {
    run == [] ||
      var before := run[..|run| - 1];
      var draining := Draining(c, rss, Exec(c, rss, before).value, run[|run| - 1]);
      AlwaysRoom(c, rss, before) && (draining.Some? ==> RoomForHead(c, rss, draining.value))
  }

  lemma SubmitStallsExactly(c: Config, rss: nat -> real, s: Queue, k: Kind)
    requires c.Valid() && Inv(c, s) && Positive(s.samples)
    ensures var draining := Draining(c, rss, s, Submit(k));
      Stalled(SubmitStep(c, rss, s, k)) <==>
        if draining.Some? then !RoomForHead(c, rss, draining.value) else Stalled(s)
  {
    if !MemoryRefuses(c, s, k, rss(s.taken)) && |s.pending| < c.queueMax {
      DrainStallsExactly(c, rss, Admit(c, s.(taken := s.taken + 1, attempts := s.attempts + 1), k));
    }
  }

  /** A step stalls the queue exactly when its drain finds nothing running and no room for the first job. */
  lemma StepStallsExactly(c: Config, rss: nat -> real, s: Queue, e: Event)
    requires c.Valid() && Inv(c, s) && Enabled(s, e)
    ensures var draining := Draining(c, rss, s, e);
      Stalled(Apply(c, rss, s, e)) <==> if draining.Some? then !RoomForHead(c, rss, draining.value) else Stalled(s)
  {
    match e
    case Submit(k) => SubmitStallsExactly(c, rss, s, k);
    case Sample(_) =>
    case Complete(id) =>
      FreeInv(c, s, id);
      DrainStallsExactly(c, rss, Free(s, id));
    case Fail(id) =>
      FreeInv(c, s, id);
      DrainStallsExactly(c, rss, Free(s, id));
  }

  lemma {:induction false} NeverStalls(c: Config, rss: nat -> real, run: seq<Event>)
    requires c.Valid() && Exec(c, rss, run).Some? && AlwaysRoom(c, rss, run)
    ensures !Stalled(Exec(c, rss, run).value)
    decreases |run|
  {
    if run == [] {
    } else {
      var before := run[..|run| - 1];
      NeverStalls(c, rss, before);
      RunInv(c, rss, before);
      StepStallsExactly(c, rss, Exec(c, rss, before).value, run[|run| - 1]);
    }
  }

  /**
   While every drain that finds nothing running finds room for the first job alone, waiting jobs
   always have a running one ahead of them, and the job admitted i-th has started once i jobs
   have ended.
   */
  lemma NobodyWaitsWhileRoom(c: Config, rss: nat -> real, run: seq<Event>, i: nat)
    requires c.Valid() && Exec(c, rss, run).Some? && AlwaysRoom(c, rss, run)
    requires i < |Exec(c, rss, run).value.admitted|
    ensures var s := Exec(c, rss, run).value;
      && (s.pending != [] ==> s.active >= 1)
      && (i <= |s.ended| ==> i < |s.started| && s.started[i] == s.admitted[i])
  {
    NeverStalls(c, rss, run);
    RunInv(c, rss, run);
  }

  // ---- Waiting, while memory readings never rise ----

  ghost predicate NeverRises(rss: nat -> real) {
    forall i: nat, j: nat :: i <= j ==> rss(j) <= rss(i)
  }

  /** Every sample is the minimum, and every waiting job still fits alone. */
  ghost predicate CalmInv(c: Config, rss: nat -> real, s: Queue) {
    && (forall k, i :: 0 <= i < |Get(s.samples, k, [])| ==> Get(s.samples, k, [])[i] == 1.0)
    && (forall id :: id in s.running && s.running[id].Working? ==> s.running[id].before >= rss(s.taken))
    && (forall i :: 0 <= i < |s.pending| ==> Estimate(s.samples, s.pending[i].kind) <= c.Budget() - rss(s.taken))
    && !Stalled(s)
  }

  lemma CalmEstimates(samples: map<Kind, seq<real>>, k: Kind)
    requires forall i :: 0 <= i < |Get(samples, k, [])| ==> Get(samples, k, [])[i] == 1.0
    ensures Estimate(samples, k) == if Get(samples, k, []) == [] then DefaultEstimate(k) else 1.0
  {
    if Get(samples, k, []) != [] {
      P90IsNearestRank(Get(samples, k, []), DefaultEstimate(k));
    }
  }

  /** The parts of the calm invariant a drain keeps, whether or not it was stalled before. */
  ghost predicate Waiting(c: Config, rss: nat -> real, s: Queue) {
    && (forall k, i :: 0 <= i < |Get(s.samples, k, [])| ==> Get(s.samples, k, [])[i] == 1.0)
    && (forall id :: id in s.running && s.running[id].Working? ==> s.running[id].before >= rss(s.taken))
    && (forall i :: 0 <= i < |s.pending| ==> Estimate(s.samples, s.pending[i].kind) <= c.Budget() - rss(s.taken))
  }

  lemma {:induction false} DrainLoopWaiting(c: Config, rss: nat -> real, s: Queue, reading: real)
    requires NeverRises(rss) && Waiting(c, rss, s) && Positive(s.samples)
    ensures Waiting(c, rss, DrainLoop(c, rss, s, reading))
    decreases |s.pending|
  {
    if CanStart(c, s, reading) {
      assert rss(s.taken + 1) <= rss(s.taken);
      assert forall i :: 0 <= i < |s.pending[1..]| ==> s.pending[1..][i] == s.pending[i + 1];
      DrainLoopWaiting(c, rss, StartHead(rss, s), reading);
    }
  }

  lemma DrainCalm(c: Config, rss: nat -> real, s: Queue)
    requires c.Valid() && NeverRises(rss) && Waiting(c, rss, s) && Positive(s.samples) && s.active >= 0
    ensures CalmInv(c, rss, Drain(c, rss, s))
  {
    var s1 := s.(taken := s.taken + 1, alerted := s.alerted && s.pending != []);
    assert rss(s.taken + 1) <= rss(s.taken);
    DrainLoopWaiting(c, rss, s1, rss(s.taken));
    DrainStallsExactly(c, rss, s);
  }

  lemma SampleCalm(c: Config, rss: nat -> real, s: Queue, id: nat)
    requires NeverRises(rss) && CalmInv(c, rss, s) && Enabled(s, Sample(id))
    ensures CalmInv(c, rss, Apply(c, rss, s, Sample(id)))
  {
    var s' := SampleStep(rss, s, id);
    assert rss(s.taken + 1) <= rss(s.taken);
    var k0 := s.running[id].kind;
    assert s'.samples == Record(s.samples, k0, 1.0);
    forall k
      ensures forall i :: 0 <= i < |Get(s'.samples, k, [])| ==> Get(s'.samples, k, [])[i] == 1.0
      ensures Estimate(s'.samples, k) <= Estimate(s.samples, k)
    {
      assert k != k0 ==> Get(s'.samples, k, []) == Get(s.samples, k, []);
      CalmEstimates(s.samples, k);
      CalmEstimates(s'.samples, k);
    }
  }

  lemma AdmitWaiting(c: Config, rss: nat -> real, s: Queue, k: Kind)
    requires NeverRises(rss) && CalmInv(c, rss, s) && !MemoryRefuses(c, s, k, rss(s.taken))
    ensures Waiting(c, rss, Admit(c, s.(taken := s.taken + 1, attempts := s.attempts + 1), k))
  {
    assert rss(s.taken + 1) <= rss(s.taken);
  }

  lemma SubmitCalm(c: Config, rss: nat -> real, s: Queue, k: Kind)
    requires c.Valid() && NeverRises(rss) && CalmInv(c, rss, s) && Positive(s.samples) && s.active >= 0
    ensures CalmInv(c, rss, SubmitStep(c, rss, s, k))
  {
    if MemoryRefuses(c, s, k, rss(s.taken)) || |s.pending| >= c.queueMax {
      assert rss(s.taken + 1) <= rss(s.taken);
    } else {
      AdmitWaiting(c, rss, s, k);
      DrainCalm(c, rss, Admit(c, s.(taken := s.taken + 1, attempts := s.attempts + 1), k));
    }
  }

  lemma StepCalm(c: Config, rss: nat -> real, s: Queue, e: Event)
    requires c.Valid() && NeverRises(rss) && Inv(c, s) && CalmInv(c, rss, s) && Enabled(s, e)
    ensures CalmInv(c, rss, Apply(c, rss, s, e))
  {
    match e
    case Submit(k) => SubmitCalm(c, rss, s, k);
    case Sample(id) => SampleCalm(c, rss, s, id);
    case Complete(id) =>
      FreeInv(c, s, id);
      DrainCalm(c, rss, Free(s, id));
    case Fail(id) =>
      FreeInv(c, s, id);
      DrainCalm(c, rss, Free(s, id));
  }

  lemma {:induction false} RunCalm(c: Config, rss: nat -> real, run: seq<Event>)
    requires c.Valid() && NeverRises(rss) && Exec(c, rss, run).Some?
    ensures CalmInv(c, rss, Exec(c, rss, run).value)
    decreases |run|
  {
    if run == [] {
    } else {
      RunCalm(c, rss, run[..|run| - 1]);
      RunInv(c, rss, run[..|run| - 1]);
      StepCalm(c, rss, Exec(c, rss, run[..|run| - 1]).value, run[|run| - 1]);
    }
  }

  /**
   While readings never rise, waiting jobs always have a running one ahead of them, and the job
   admitted i-th has started once i jobs have ended: a job with n unfinished jobs ahead of it
   waits for at most n ends.
   */
  lemma NobodyWaitsForever(c: Config, rss: nat -> real, run: seq<Event>, i: nat)
    requires c.Valid() && NeverRises(rss) && Exec(c, rss, run).Some?
    requires i < |Exec(c, rss, run).value.admitted|
    ensures var s := Exec(c, rss, run).value;
      && (s.pending != [] ==> s.active >= 1)
      && (i <= |s.ended| ==> i < |s.started| && s.started[i] == s.admitted[i])
  {
    RunCalm(c, rss, run);
    RunInv(c, rss, run);
  }

  // ---- A run that stalls ----

  function SmallConfig(): Config {
    Config(1, 100, 1900.0, 256.0)
  }

  /** The service is empty until the first job ends, and full from then on. */
  function RisingReadings(): nat -> real {
    n => if n < 5 then 0.0 else 1800.0
  }

  lemma Extend(c: Config, rss: nat -> real, run: seq<Event>, s: Queue, e: Event) returns (longer: seq<Event>)
    requires Exec(c, rss, run) == Some(s) && Enabled(s, e)
    ensures Exec(c, rss, longer) == Some(Apply(c, rss, s, e))
  {
    longer := run + [e];
    assert longer[..|longer| - 1] == run;
  }

  function OneRunning(): Queue {
    Queue(1, [], map[], false, 0, 0, 3, map[0 := Working(Http, 0.0)], 1, [Job(0, Http)], [Job(0, Http)], [], map[])
  }

  function OneWaiting(): Queue {
    OneRunning().(pending := [Job(1, Http)], alerted := true, taken := 5, attempts := 2,
                  admitted := [Job(0, Http), Job(1, Http)])
  }

  function Stuck(): Queue {
    OneWaiting().(active := 0, taken := 6, running := map[], ended := [0])
  }

  lemma SmallSlots()
    ensures Slots(1644.0, 32.0) > 0 && Slots(-156.0, 32.0) == 0
  {
    SlotsMean(1644.0, 32.0, 0);
    SlotsMean(-156.0, 32.0, 0);
  }

  lemma FirstStarts()
    ensures Apply(SmallConfig(), RisingReadings(), Empty(), Submit(Http)) == OneRunning()
  {
    SmallSlots();
    var s := Admit(SmallConfig(), Empty().(taken := 1, attempts := 1), Http).(taken := 2);
    var s' := StartHead(RisingReadings(), s);
    assert CanStart(SmallConfig(), s, 0.0);
    assert s'.pending == [];
    assert s' == OneRunning();
    assert DrainLoop(SmallConfig(), RisingReadings(), s, 0.0) == DrainLoop(SmallConfig(), RisingReadings(), s', 0.0) ==
      s';
  }

  lemma SecondWaits()
    ensures Apply(SmallConfig(), RisingReadings(), OneRunning(), Submit(Http)) == OneWaiting()
  {
    var s := Admit(SmallConfig(), OneRunning().(taken := 4, attempts := 2), Http);
    assert s == OneWaiting().(taken := 4);
    assert !CanStart(SmallConfig(), OneWaiting(), 0.0);
  }

  lemma NothingStarts()
    ensures Apply(SmallConfig(), RisingReadings(), OneWaiting(), Fail(0)) == Stuck()
  {
    SmallSlots();
    var s := Free(OneWaiting(), 0);
    assert s.running == map[];
    assert s == Stuck().(taken := 5);
    assert !CanStart(SmallConfig(), Stuck(), 1800.0);
  }

  /** With rising readings a job can wait with nothing running, so that nothing will call `drain` for it. */
  lemma QueueCanStall() returns (run: seq<Event>)
    ensures SmallConfig().Valid() && !NeverRises(RisingReadings())
    ensures Exec(SmallConfig(), RisingReadings(), run) == Some(Stuck()) && Stalled(Stuck()) && Stuck().running == map[]
  {
    assert RisingReadings()(0) < RisingReadings()(5);
    run := [];
    FirstStarts();
    run := Extend(SmallConfig(), RisingReadings(), run, Empty(), Submit(Http));
    SecondWaits();
    run := Extend(SmallConfig(), RisingReadings(), run, OneRunning(), Submit(Http));
    NothingStarts();
    run := Extend(SmallConfig(), RisingReadings(), run, OneWaiting(), Fail(0));
  }
}

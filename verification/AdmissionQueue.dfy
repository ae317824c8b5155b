/** The admission queue in its own form: an object whose methods update its counters and lists. */
module AdmissionQueues {
  import opened Wrappers
  import opened QueueSpec

  class AdmissionQueue {
    const config: Config
    /** `memorySnapshot`: what the i-th call answers. */
    const rss: nat -> real
    var active: int
    var pending: seq<Job>
    var samples: map<Kind, seq<real>>
    var alerted: bool
    var memoryRejections: nat
    var queueRejections: nat
    /** Memory readings taken so far, and the wrappers of jobs that have not ended. */
    var taken: nat
    var running: map<nat, Running>
    var nextId: nat

    ghost var attempts: nat
    ghost var admitted: seq<Job>
    ghost var started: seq<Job>
    ghost var ended: seq<nat>
    ghost var log: map<Kind, seq<real>>

    ghost function State(): Queue
      reads this
    {
      Queue(active, pending, samples, alerted, memoryRejections, queueRejections, taken, running,
        attempts, admitted, started, ended, log)
    }

    ghost predicate Valid()
      reads this
    {
      Positive(samples) && nextId == |admitted|
    }

    constructor (config: Config, rss: nat -> real)
      ensures Valid() && this.config == config && this.rss == rss
      ensures State() == Empty()
    {
      this.config, this.rss := config, rss;
      active, pending, samples, alerted, memoryRejections, queueRejections := 0, [], map[], false, 0, 0;
      taken, running, nextId := 0, map[], 0;
      attempts, admitted, started, ended, log := 0, [], [], [], map[];
    }

    method Memory() returns (r: real)
      modifies this`taken
      ensures r == rss(old(taken)) && taken == old(taken) + 1
    {
      r := rss(taken);
      taken := taken + 1;
    }

    /** Some(id) for an admitted job, None for a refusal. */
    method Run(kind: Kind) returns (r: Option<nat>)
      requires Valid()
      modifies this
      ensures Valid() && Enabled(old(State()), Submit(kind))
      ensures State() == Apply(config, rss, old(State()), Submit(kind))
      ensures r.Some? <==> |admitted| == |old(admitted)| + 1
    {
      var refused := Refuse(kind);
      if refused {
        return None;
      }
      Push(kind);
      Drain();
      r := Some(nextId - 1);
    }

    /** The two tests a call must pass to be admitted. */
    method Refuse(kind: Kind) returns (refused: bool)
      requires Valid()
      modifies this`attempts, this`taken, this`memoryRejections, this`queueRejections
      ensures Valid()
      ensures refused <==> MemoryRefuses(config, old(State()), kind, rss(old(taken))) || |pending| >= config.queueMax
      ensures refused ==> State() == SubmitStep(config, rss, old(State()), kind)
      ensures !refused ==> State() == old(State()).(taken := old(taken) + 1, attempts := old(attempts) + 1)
    {
      attempts := attempts + 1;
      var current := Memory();
      ghost var s1 := old(State()).(taken := old(taken) + 1, attempts := old(attempts) + 1);
      assert State() == s1;
      if current >= config.hardMb || current + Estimate(samples, kind) > config.Budget() {
        memoryRejections := memoryRejections + 1;
        return true;
      }
      if |pending| >= config.queueMax {
        queueRejections := queueRejections + 1;
        return true;
      }
      refused := false;
    }

    /** The alert flag and the new entry of the queue. */
    method Push(kind: Kind)
      requires Valid()
      modifies this`alerted, this`pending, this`admitted, this`nextId
      ensures Valid() && nextId == old(nextId) + 1
      ensures State() == Admit(config, old(State()), kind)
    {
      if (|pending| > 0 || active >= config.maxConcurrency) && !alerted {
        alerted := true;
      }
      var job := Job(nextId, kind);
      pending := pending + [job];
      admitted := admitted + [job];
      nextId := nextId + 1;
    }

    method Drain()
      requires Valid()
      modifies this`alerted, this`pending, this`active, this`taken, this`running, this`started
      ensures Valid()
      ensures State() == QueueSpec.Drain(config, rss, old(State()))
    {
      var reading := Memory();
      if |pending| == 0 {
        alerted := false;
      }
      ghost var all := DrainLoop(config, rss, State(), reading);
      while |pending| > 0 && active < config.maxConcurrency
        invariant Valid() && attempts == old(attempts) && samples == old(samples)
        invariant DrainLoop(config, rss, State(), reading) == all
        decreases |pending|
      {
        var fits := FirstFits(reading);
        if !fits {
          return;
        }
        StartFirst();
      }
    }

    /** The memory-slot test for the head of the queue. */
    method FirstFits(reading: real) returns (fits: bool)
      requires Valid() && pending != [] && active < config.maxConcurrency
      ensures fits <==> CanStart(config, State(), reading)
    {
      EstimatePositive(samples, pending[0].kind);
      var slots := ((config.Budget() - reading) / Estimate(samples, pending[0].kind)).Floor;
      fits := active < if slots < 0 then 0 else slots;
    }

    /** `shift`, `active++`, and the wrapper up to the first suspension of the job. */
    method StartFirst()
      requires pending != []
      modifies this`pending, this`active, this`taken, this`running, this`started
      ensures State() == StartHead(rss, old(State()))
    {
      var job := pending[0];
      pending := pending[1..];
      active := active + 1;
      started := started + [job];
      var before := Memory();
      running := running[job.id := Working(job.kind, before)];
    }

    method RecordSample(kind: Kind, value: real)
      requires Valid() && value >= 1.0
      modifies this`samples
      ensures Valid() && samples == Record(old(samples), kind, value)
    {
      var history := Get(samples, kind, []) + [value];
      if |history| > WINDOW {
        history := history[|history| - WINDOW..];
      }
      samples := samples[kind := history];
    }

    /** The job of a wrapper resolved: its growth becomes a sample. */
    method JobResolved(id: nat)
      requires Valid() && Enabled(State(), Event.Sample(id))
      modifies this
      ensures Valid()
      ensures State() == Apply(config, rss, old(State()), Event.Sample(id))
    {
      var kind, before := running[id].kind, running[id].before;
      var after := Memory();
      var value := if after - before < 1.0 then 1.0 else after - before;
      RecordSample(kind, value);
      running := running[id := Sampled(kind)];
      log := log[kind := Get(log, kind, []) + [value]];
    }

    /** The two handlers of a wrapper's end: a slot is freed and the queue is drained. */
    method JobCompleted(id: nat)
      requires Valid() && Enabled(State(), Complete(id))
      modifies this
      ensures Valid()
      ensures State() == Apply(config, rss, old(State()), Complete(id))
    {
      active := active - 1;
      running := running - {id};
      ended := ended + [id];
      Drain();
    }

    method JobFailed(id: nat)
      requires Valid() && Enabled(State(), Fail(id))
      modifies this
      ensures Valid()
      ensures State() == Apply(config, rss, old(State()), Fail(id))
    {
      active := active - 1;
      running := running - {id};
      ended := ended + [id];
      Drain();
    }
  }
}

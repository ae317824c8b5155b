/**
 The admission queue as a transition system.

 `rss` is the sequence of all memory readings the queue will ever take, in order; `taken` counts
 those taken. Between two steps the queue is idle: a job reports its sample, then completes or
 fails, and other callers may submit in between.
 */
module QueueSpec {
  import opened Wrappers
  import opened Percentile

  datatype Kind = Http | Browser | Screenshot | Pdf | Download | Workflow | Automation | Unknown

  function DefaultEstimate(k: Kind): real {
    match k
    case Http => 32.0
    case Browser => 256.0
    case Screenshot => 192.0
    case Pdf => 256.0
    case Download => 192.0
    case Workflow => 256.0
    case Automation => 256.0
    case Unknown => 200.0
  }

  datatype Config = Config(maxConcurrency: nat, queueMax: nat, hardMb: real, reserveMb: real)
  {
    predicate Valid() {
      1 <= maxConcurrency && reserveMb < hardMb
    }

    function Budget(): real {
      hardMb - reserveMb
    }
  }

  const WINDOW := 128

  /** Jobs are numbered in the order of their admission. */
  datatype Job = Job(id: nat, kind: Kind)

  datatype Running = Working(kind: Kind, before: real) | Sampled(kind: Kind)

  /** The fields of the queue, then what happened so far: calls, admissions, starts, ends, samples. */
  datatype Queue = Queue(
    active: int,
    pending: seq<Job>,
    samples: map<Kind, seq<real>>,
    alerted: bool,
    memoryRejections: nat,
    queueRejections: nat,
    taken: nat,
    running: map<nat, Running>,
    attempts: nat,
    admitted: seq<Job>,
    started: seq<Job>,
    ended: seq<nat>,
    log: map<Kind, seq<real>>)

  datatype Event =
    | Submit(kind: Kind)
    | Sample(id: nat)
    | Complete(id: nat)
    | Fail(id: nat)

  function Estimate(samples: map<Kind, seq<real>>, k: Kind): real {
    P90(Get(samples, k, []), DefaultEstimate(k))
  }

  function LastOf(s: seq<real>, n: nat): seq<real> {
    if |s| > n then s[|s| - n..] else s
  }

  /** `recordSample`: push, then cut the window from the front. */
  function Record(samples: map<Kind, seq<real>>, k: Kind, v: real): map<Kind, seq<real>> {
    samples[k := LastOf(Get(samples, k, []) + [v], WINDOW)]
  }

  /** `Math.floor(room / estimate)`, with slots below zero counted as none. */
  function Slots(room: real, estimate: real): int
    requires estimate > 0.0
  {
    var slots := (room / estimate).Floor;
    if slots < 0 then 0 else slots
  }

  predicate Positive(samples: map<Kind, seq<real>>) {
    forall k :: k in samples ==> forall i :: 0 <= i < |samples[k]| ==> samples[k][i] >= 1.0
  }

  lemma EstimatePositive(samples: map<Kind, seq<real>>, k: Kind)
    requires Positive(samples)
    ensures Estimate(samples, k) >= 1.0
  {
    var window := Get(samples, k, []);
    if window != [] {
      P90IsNearestRank(window, DefaultEstimate(k));
    }
  }

  predicate CanStart(c: Config, s: Queue, reading: real)
    requires Positive(s.samples)
  {
    s.pending != [] && s.active < c.maxConcurrency &&
    (EstimatePositive(s.samples, s.pending[0].kind);
     s.active < Slots(c.Budget() - reading, Estimate(s.samples, s.pending[0].kind)))
  }

  /** One job leaves the queue; its wrapper reads the memory before the job begins. */
  function StartHead(rss: nat -> real, s: Queue): Queue
    requires s.pending != []
  {
    var job := s.pending[0];
    s.(pending := s.pending[1..], active := s.active + 1, taken := s.taken + 1,
       running := s.running[job.id := Working(job.kind, rss(s.taken))],
       started := s.started + [job])
  }

  function DrainLoop(c: Config, rss: nat -> real, s: Queue, reading: real): Queue
    requires Positive(s.samples)
    decreases |s.pending|
  {
    if CanStart(c, s, reading) then DrainLoop(c, rss, StartHead(rss, s), reading) else s
  }

  function Drain(c: Config, rss: nat -> real, s: Queue): Queue
    requires Positive(s.samples)
  {
    DrainLoop(c, rss, s.(taken := s.taken + 1, alerted := s.alerted && s.pending != []), rss(s.taken))
  }

  predicate MemoryRefuses(c: Config, s: Queue, k: Kind, reading: real) {
    reading >= c.hardMb || reading + Estimate(s.samples, k) > c.Budget()
  }

  /** `run` past its two refusals. */
  function Admit(c: Config, s: Queue, k: Kind): Queue {
    var job := Job(|s.admitted|, k);
    s.(alerted := s.alerted || |s.pending| > 0 || s.active >= c.maxConcurrency,
       pending := s.pending + [job], admitted := s.admitted + [job])
  }

  function SubmitStep(c: Config, rss: nat -> real, s: Queue, k: Kind): Queue
    requires Positive(s.samples)
  {
    var s1 := s.(taken := s.taken + 1, attempts := s.attempts + 1);
    if MemoryRefuses(c, s, k, rss(s.taken)) then s1.(memoryRejections := s.memoryRejections + 1)
    else if |s.pending| >= c.queueMax then s1.(queueRejections := s.queueRejections + 1)
    else Drain(c, rss, Admit(c, s1, k))
  }

  function SampleStep(rss: nat -> real, s: Queue, id: nat): Queue
    requires id in s.running && s.running[id].Working?
  {
    var k := s.running[id].kind;
    var grown := rss(s.taken) - s.running[id].before;
    var v := if grown < 1.0 then 1.0 else grown;
    s.(taken := s.taken + 1, samples := Record(s.samples, k, v), running := s.running[id := Sampled(k)],
       log := s.log[k := Get(s.log, k, []) + [v]])
  }

  /** A job's slot is freed, however the job ended. */
  function Free(s: Queue, id: nat): Queue {
    s.(active := s.active - 1, running := s.running - {id}, ended := s.ended + [id])
  }

  predicate Enabled(s: Queue, e: Event) {
    && Positive(s.samples)
    && match e
       case Submit(_) => true
       case Sample(id) => id in s.running && s.running[id].Working?
       case Complete(id) => id in s.running && s.running[id].Sampled?
       case Fail(id) => id in s.running && s.running[id].Working?
  }

  function Apply(c: Config, rss: nat -> real, s: Queue, e: Event): Queue
    requires Enabled(s, e)
  {
    match e
    case Submit(k) => SubmitStep(c, rss, s, k)
    case Sample(id) => SampleStep(rss, s, id)
    case Complete(id) => Drain(c, rss, Free(s, id))
    case Fail(id) => Drain(c, rss, Free(s, id))
  }

  function Empty(): Queue {
    Queue(0, [], map[], false, 0, 0, 0, map[], 0, [], [], [], map[])
  }

  function Exec(c: Config, rss: nat -> real, run: seq<Event>): Option<Queue> {
    if run == [] then Some(Empty())
    else
      match Exec(c, rss, run[..|run| - 1])
      case None => None
      case Some(s) => if Enabled(s, run[|run| - 1]) then Some(Apply(c, rss, s, run[|run| - 1])) else None
  }
}

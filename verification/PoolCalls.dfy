/** What a call gets: a worker of the backend and the profile it asked for. */
module PoolCalls {
  import opened PoolSpec

  datatype Ask = Ask(backend: Backend, profile: Profile)

  function AsksAfter<W(==)>(s: Pool<W>, e: Event<W>, asks: map<nat, Ask>): map<nat, Ask> {
    if e.Arrive? && !s.closed then asks[s.nextTask := Ask(e.backend, e.profile)] else asks
  }

  /** What each call of a run asked for when it arrived. */
  function Asks<W(==)>(c: Config, t0: nat, run: seq<Timed<W>>): map<nat, Ask>
    requires Exec(c, t0, run).Some?
    decreases |run|
  {
    if run == [] then map[]
    else
      var before := run[..|run| - 1];
      AsksAfter(Exec(c, t0, before).value, run[|run| - 1].event, Asks(c, t0, before))
  }

  function OriginOf(r: Worker): Ask {
    Ask(r.backend, r.profile)
  }

  /** The call is waiting for, launching, or using what it asked for. */
  ghost predicate AskKept<W>(recs: map<W, Worker>, k: Task<W>, asks: map<nat, Ask>, t: nat) {
    match k
    case Acquiring(b, p) => t in asks && asks[t] == Ask(b, p)
    case Starting(b, p, origin, _, _) => origin == ForCaller ==> t in asks && asks[t] == Ask(b, p)
    case Settling(w, _, origin) => origin == ForCaller ==> w in recs && t in asks && asks[t] == OriginOf(recs[w])
    case Granted(w) => w in recs && t in asks && asks[t] == OriginOf(recs[w])
    case Leased(w, _) => w in recs && t in asks && asks[t] == OriginOf(recs[w])
    case Released(w) => w in recs && t in asks && asks[t] == OriginOf(recs[w])
    case Refilling(_) => true
  }

  ghost predicate AsksInv<W>(s: Pool<W>, asks: map<nat, Ask>) {
    forall t :: t in s.tasks ==> AskKept(s.recs, s.tasks[t], asks, t)
  }

  /** Known workers keep their backend and profile. */
  ghost predicate SameOrigins<W>(recs: map<W, Worker>, recs': map<W, Worker>) {
    forall w :: w in recs ==> w in recs' && OriginOf(recs'[w]) == OriginOf(recs[w])
  }

  /** Calls that are new in s' launch for no caller. */
  ghost predicate OnlyRefills<W>(s: Pool<W>, s': Pool<W>) {
    && SameOrigins(s.recs, s'.recs)
    && forall t :: t in s'.tasks && !(t in s.tasks && s'.tasks[t] == s.tasks[t]) ==>
         s'.tasks[t].Refilling? || (s'.tasks[t].Starting? && s'.tasks[t].origin == ForRefill)
  }

  lemma RefillsKeepAsks<W>(s: Pool<W>, s': Pool<W>, asks: map<nat, Ask>)
    requires AsksInv(s, asks) && OnlyRefills(s, s')
    ensures AsksInv(s', asks)
  {
    forall t | t in s'.tasks ensures AskKept(s'.recs, s'.tasks[t], asks, t) {
      if t in s.tasks && s'.tasks[t] == s.tasks[t] {
        assert AskKept(s.recs, s.tasks[t], asks, t);
      }
    }
  }

  lemma MarkDeadOnlyRefills<W>(c: Config, s: Pool<W>, w: W)
    requires w in s.recs
    ensures OnlyRefills(s, MarkDead(c, s, w))
  {
  }

  lemma {:induction false} SweepKeepsAsks<W>(c: Config, s: Pool<W>, ws: seq<W>, asks: map<nat, Ask>)
    requires AsksInv(s, asks) && forall w :: w in ws ==> w in s.recs
    ensures AsksInv(Sweep(c, s, ws), asks) && SameOrigins(s.recs, Sweep(c, s, ws).recs)
    decreases |ws|
  {
    if ws == [] {
    } else {
      var r := s.recs[ws[0]];
      var s1 := if r.state == Healthy && !r.connected then MarkDead(c, s, ws[0]) else s;
      MarkDeadOnlyRefills(c, s, ws[0]);
      if s1 != s {
        RefillsKeepAsks(s, s1, asks);
      }
      SweepKeepsAsks(c, s1, ws[1..], asks);
    }
  }

  lemma ReuseKeepsAsks<W>(c: Config, s: Pool<W>, t: nat, b: Backend, p: Profile, asks: map<nat, Ask>)
    requires AsksInv(s, asks) && t in asks && asks[t] == Ask(b, p)
    requires forall w :: w in s.workers ==> w in s.recs
    ensures AsksInv(ReuseOrLaunch(c, s, t, b, p), asks)
  {
    var s' := ReuseOrLaunch(c, s, t, b, p);
    forall u | u in s'.tasks && u != t ensures AskKept(s'.recs, s'.tasks[u], asks, u) {
      assert AskKept(s.recs, s.tasks[u], asks, u);
    }
  }

  lemma ResumeKeepsAsks<W>(c: Config, s: Pool<W>, t: nat, asks: map<nat, Ask>)
    requires AsksInv(s, asks) && t in s.tasks && s.tasks[t].Acquiring?
    requires forall w :: w in s.workers ==> w in s.recs
    ensures AsksInv(ResumeAcquire(c, s, t, s.tasks[t].backend, s.tasks[t].profile), asks)
  {
    assert AskKept(s.recs, s.tasks[t], asks, t);
    SweepKeepsAsks(c, s, s.workers, asks);
    SweepKeepsListed(c, s, s.workers);
    ReuseKeepsAsks(c, Sweep(c, s, s.workers), t, s.tasks[t].backend, s.tasks[t].profile, asks);
  }

  /** One call moves on; the others and the workers stay what they were. */
  ghost predicate OneMoves<W>(s: Pool<W>, s': Pool<W>, t: nat) {
    && SameOrigins(s.recs, s'.recs)
    && forall u :: u in s'.tasks && u != t ==> u in s.tasks && s'.tasks[u] == s.tasks[u]
  }

  lemma MoveKeepsAsks<W>(s: Pool<W>, s': Pool<W>, t: nat, asks: map<nat, Ask>)
    requires AsksInv(s, asks) && OneMoves(s, s', t)
    requires t in s'.tasks ==> AskKept(s'.recs, s'.tasks[t], asks, t)
    ensures AsksInv(s', asks)
  {
    forall u | u in s'.tasks && u != t ensures AskKept(s'.recs, s'.tasks[u], asks, u) {
      assert AskKept(s.recs, s.tasks[u], asks, u);
    }
  }

  lemma LaunchKeepsAsks<W>(c: Config, s: Pool<W>, e: Event<W>, asks: map<nat, Ask>)
    requires AsksInv(s, asks) && Enabled(s, e, s.clock) && (e.LaunchSucceeds? || e.LaunchFails? || e.Settle?)
    ensures AsksInv(Act(c, s, e), asks)
  {
    assert AskKept(s.recs, s.tasks[e.task], asks, e.task);
    assert OneMoves(s, Act(c, s, e), e.task);
    MoveKeepsAsks(s, Act(c, s, e), e.task, asks);
  }

  lemma RecycleKeepsAsks<W>(c: Config, s: Pool<W>, t: nat, asks: map<nat, Ask>)
    requires AsksInv(s, asks) && Enabled(s, Recycle(t), s.clock)
    ensures AsksInv(RecycleStep(c, s, t), asks)
  {
    assert OneMoves(s, RecycleStep(c, s, t), t);
    MoveKeepsAsks(s, RecycleStep(c, s, t), t, asks);
  }

  lemma LeaseKeepsAsks<W>(c: Config, s: Pool<W>, e: Event<W>, asks: map<nat, Ask>)
    requires AsksInv(s, asks) && Enabled(s, e, s.clock)
    requires e.Occupy? || e.ContextOpens? || e.ContextFails? || e.Release?
    ensures AsksInv(Act(c, s, e), asks)
  {
    assert AskKept(s.recs, s.tasks[e.task], asks, e.task);
    assert OneMoves(s, Act(c, s, e), e.task);
    MoveKeepsAsks(s, Act(c, s, e), e.task, asks);
  }

  lemma NoticeOnlyRefills<W>(c: Config, s: Pool<W>, e: Event<W>)
    requires Enabled(s, e, s.clock)
    requires e.ConnectionDrops? || e.Disconnected? || e.Sample? || e.Close?
    ensures OnlyRefills(s, Act(c, s, e))
  {
  }

  lemma RefillOnlyRefills<W>(c: Config, s: Pool<W>, t: nat)
    requires Enabled(s, Refill(t), s.clock)
    ensures OnlyRefills(s, Replenish(c, s, t, s.tasks[t].backend))
  {
  }

  lemma ArriveKeepsAsks<W>(c: Config, s: Pool<W>, e: Event<W>, asks: map<nat, Ask>)
    requires AsksInv(s, asks) && Enabled(s, e, s.clock) && e.Arrive?
    ensures AsksInv(Act(c, s, e), AsksAfter(s, e, asks))
  {
    var s' := Act(c, s, e);
    forall u | u in s'.tasks ensures AskKept(s'.recs, s'.tasks[u], AsksAfter(s, e, asks), u) {
      if u in s.tasks {
        assert AskKept(s.recs, s.tasks[u], asks, u);
      }
    }
  }

  lemma StepKeepsAsks<W>(c: Config, s: Pool<W>, e: Event<W>, asks: map<nat, Ask>)
    requires AsksInv(s, asks) && Enabled(s, e, s.clock)
    ensures AsksInv(Act(c, s, e), AsksAfter(s, e, asks))
  {
    match e
    case Arrive(_, _) => ArriveKeepsAsks(c, s, e, asks);
    case Resume(t) => ResumeKeepsAsks(c, s, t, asks);
    case LaunchSucceeds(_, _) => LaunchKeepsAsks(c, s, e, asks);
    case LaunchFails(_) => LaunchKeepsAsks(c, s, e, asks);
    case Settle(_) => LaunchKeepsAsks(c, s, e, asks);
    case Occupy(_) => LeaseKeepsAsks(c, s, e, asks);
    case ContextOpens(_) => LeaseKeepsAsks(c, s, e, asks);
    case ContextFails(_) => LeaseKeepsAsks(c, s, e, asks);
    case Release(_) => LeaseKeepsAsks(c, s, e, asks);
    case Recycle(t) => RecycleKeepsAsks(c, s, t, asks);
    case ServerCloses(w) =>
      MarkDeadOnlyRefills(c, s, w);
      RefillsKeepAsks(s, Act(c, s, e), asks);
    case Refill(t) =>
      RefillOnlyRefills(c, s, t);
      RefillsKeepAsks(s, Act(c, s, e), asks);
    case _ =>
      NoticeOnlyRefills(c, s, e);
      RefillsKeepAsks(s, Act(c, s, e), asks);
  }

  lemma {:induction false} StartAsks<W>(c: Config, n: nat, t0: nat)
    ensures AsksInv(Start<W>(c, n, t0), map[])
  {
    if n == 0 {
    } else {
      StartAsks<W>(c, n - 1, t0);
    }
  }

  lemma {:induction false} RunKeepsAsks<W>(c: Config, t0: nat, run: seq<Timed<W>>)
    requires Exec(c, t0, run).Some?
    ensures AsksInv(Exec(c, t0, run).value, Asks(c, t0, run))
    decreases |run|
  {
    if run == [] {
      StartAsks<W>(c, c.poolMin, t0);
    } else {
      var before := run[..|run| - 1];
      RunKeepsAsks(c, t0, before);
      StepKeepsAsks(c, Tick(Exec(c, t0, before).value, run[|run| - 1].now), run[|run| - 1].event, Asks(c, t0, before));
    }
  }

  /** In every run, a leased worker has the backend and the profile that the call asked for when it arrived. */
  lemma CallersGetWhatTheyAskFor<W>(c: Config, t0: nat, run: seq<Timed<W>>, t: nat)
    requires Exec(c, t0, run).Some? && t in Exec(c, t0, run).value.tasks && Exec(c, t0, run).value.tasks[t].Leased?
    ensures var s := Exec(c, t0, run).value;
      && s.tasks[t].worker in s.recs && t in Asks(c, t0, run)
      && s.recs[s.tasks[t].worker].backend == Asks(c, t0, run)[t].backend
      && s.recs[s.tasks[t].worker].profile == Asks(c, t0, run)[t].profile
  {
    RunKeepsAsks(c, t0, run);
    var s := Exec(c, t0, run).value;
    assert AskKept(s.recs, s.tasks[t], Asks(c, t0, run), t);
  }
}

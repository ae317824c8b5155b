/**
 What becomes of a worker: when it drains, when it dies and leaves the list, and what its record
 holds. The conditions are told by the fields that the source tests.
 */
module PoolWorkers {
  import opened PoolSpec
  import opened PoolInvariants

  // ---- The sweep ----

  /** The worker is still thought healthy although its browser has disconnected. */
  predicate Lost(r: Worker) {
    r.state == Healthy && !r.connected
  }

  lemma MarkDeadWorker<W>(c: Config, s: Pool<W>, w: W, x: W)
    requires w in s.recs && x in s.recs
    ensures MarkDead(c, s, w).recs[x] == if x == w then s.recs[w].(state := Dead) else s.recs[x]
    ensures MarkDead(c, s, w).workers == if s.recs[w].state == Dead then s.workers else Remove(s.workers, w)
  {
  }

  /** The sweep marks the lost ones of its list dead and leaves the records of others as they were. */
  lemma {:induction false} SweepWorker<W>(c: Config, s: Pool<W>, ws: seq<W>, x: W)
    requires x in s.recs && forall w :: w in ws ==> w in s.recs
    ensures Sweep(c, s, ws).recs[x] == if x in ws && Lost(s.recs[x]) then s.recs[x].(state := Dead) else s.recs[x]
    decreases |ws|
  {
    if ws == [] {
    } else {
      var s1 := if Lost(s.recs[ws[0]]) then MarkDead(c, s, ws[0]) else s;
      MarkDeadWorker(c, s, ws[0], x);
      SweepWorker(c, s1, ws[1..], x);
    }
  }

  lemma ReuseFrame<W>(c: Config, s: Pool<W>, t: nat, b: Backend, p: Profile)
    requires forall w :: w in s.workers ==> w in s.recs
    ensures var s' := ReuseOrLaunch(c, s, t, b, p);
      && s'.workers == s.workers && s'.recs == s.recs && s'.stats == s.stats
      && s'.totalRssMb == s.totalRssMb && s'.closed == s.closed
  {
  }

  /** What a call does to workers when it resumes, the sweep does. */
  lemma ResumeFrame<W>(c: Config, s: Pool<W>, t: nat)
    requires Enabled(s, Resume(t), s.clock)
    ensures var s', swept := Act(c, s, Resume(t)), Sweep(c, s, s.workers);
      && s'.workers == swept.workers && s'.recs == swept.recs && s'.stats == swept.stats
      && s'.totalRssMb == swept.totalRssMb && s'.closed == swept.closed
  {
    SweepKeepsListed(c, s, s.workers);
    ReuseFrame(c, Sweep(c, s, s.workers), t, s.tasks[t].backend, s.tasks[t].profile);
  }

  // ---- Health ----

  /** Worn out by jobs, age or memory. */
  predicate Worn(c: Config, r: Worker, now: int) {
    r.jobs >= c.maxJobs || now - r.createdAt >= c.maxAgeMs || r.rssMb >= c.recycleRssMb
  }

  /**
   A worker dies when its server or the pool closes, when a call finds it lost, and when a call that
   is done with it finds it idle and worn out, or no longer healthy.
   */
  predicate Dies<W(==)>(c: Config, s: Pool<W>, e: Event<W>, w: W)
    requires Enabled(s, e, s.clock) && w in s.recs
  {
    var r := s.recs[w];
    match e
    case ServerCloses(x) => x == w
    case Close => w in s.workers
    case Resume(_) => w in s.workers && r.state == Healthy && !r.connected
    case Recycle(t) => s.tasks[t].worker == w && r.active <= 0 && (r.state != Healthy || Worn(c, r, s.clock))
    case _ => false
  }

  /** It drains when it is worn out but busy, at its limit of failures, and when it disconnects. */
  predicate Drains<W(==)>(c: Config, s: Pool<W>, e: Event<W>, w: W)
    requires Enabled(s, e, s.clock) && w in s.recs
  {
    var r := s.recs[w];
    match e
    case Recycle(t) => s.tasks[t].worker == w && r.active > 0 && Worn(c, r, s.clock)
    case ContextFails(t) => s.tasks[t].worker == w && r.failures + 1 >= c.failureLimit
    case Disconnected(x) => x == w && r.state == Healthy
    case _ => false
  }

  lemma RecycleHealth<W>(c: Config, s: Pool<W>, t: nat, w: W)
    requires Enabled(s, Recycle(t), s.clock) && w in s.recs
    ensures w in RecycleStep(c, s, t).recs
    ensures RecycleStep(c, s, t).recs[w] ==
      if Dies(c, s, Recycle(t), w) then s.recs[w].(state := Dead)
      else if Drains(c, s, Recycle(t), w) then s.recs[w].(state := Draining)
      else s.recs[w]
  {
  }

  lemma OtherHealth<W>(c: Config, s: Pool<W>, e: Event<W>, w: W)
    requires Enabled(s, e, s.clock) && w in s.recs && !e.Resume? && !e.Recycle? && !e.ServerCloses?
    ensures w in Act(c, s, e).recs
    ensures Act(c, s, e).recs[w].state ==
      if Dies(c, s, e, w) then Dead else if Drains(c, s, e, w) then Draining else s.recs[w].state
  {
  }

  /** A step changes the state of a worker exactly in these cases. */
  lemma HealthAfter<W>(c: Config, s: Pool<W>, e: Event<W>, w: W)
    requires Enabled(s, e, s.clock) && w in s.recs
    ensures w in Act(c, s, e).recs
    ensures Act(c, s, e).recs[w].state ==
      if Dies(c, s, e, w) then Dead else if Drains(c, s, e, w) then Draining else s.recs[w].state
  {
    match e
    case Resume(t) =>
      SweepWorker(c, s, s.workers, w);
      ResumeFrame(c, s, t);
    case Recycle(t) => RecycleHealth(c, s, t, w);
    case ServerCloses(x) => MarkDeadWorker(c, s, x, w);
    case _ => OtherHealth(c, s, e, w);
  }

  // ---- The list ----

  /** What is left of a list without these workers, in order. */
  function Kept<W(==)>(ws: seq<W>, gone: set<W>): seq<W> {
    if ws == [] then [] else (if ws[0] in gone then [] else [ws[0]]) + Kept(ws[1..], gone)
  }

  lemma {:induction false} KeptAgree<W>(ws: seq<W>, a: set<W>, b: set<W>)
    requires forall w :: w in ws ==> (w in a <==> w in b)
    ensures Kept(ws, a) == Kept(ws, b)
  {
    if ws == [] {
    } else {
      KeptAgree(ws[1..], a, b);
    }
  }

  lemma {:induction false} KeptAll<W>(ws: seq<W>)
    ensures Kept(ws, {}) == ws
  {
    if ws == [] {
    } else {
      KeptAll(ws[1..]);
    }
  }

  lemma {:induction false} KeptNone<W>(ws: seq<W>, gone: set<W>)
    requires forall w :: w in ws ==> w in gone
    ensures Kept(ws, gone) == []
  {
    if ws == [] {
    } else {
      KeptNone(ws[1..], gone);
    }
  }

  lemma {:induction false} KeptTwice<W>(ws: seq<W>, a: set<W>, b: set<W>)
    ensures Kept(Kept(ws, a), b) == Kept(ws, a + b)
  {
    if ws == [] {
    } else {
      KeptTwice(ws[1..], a, b);
      if ws[0] in a {
        assert Kept(ws, a) == Kept(ws[1..], a);
      } else {
        assert Kept(ws, a)[1..] == Kept(ws[1..], a);
      }
    }
  }

  lemma {:induction false} RemoveIsKept<W>(ws: seq<W>, w: W)
    requires Distinct(ws)
    ensures Remove(ws, w) == Kept(ws, {w})
  {
    if ws == [] {
    } else {
      assert forall i :: 0 <= i < |ws[1..]| ==> ws[1..][i] == ws[i + 1];
      if ws[0] == w {
        KeptAgree(ws[1..], {w}, {});
        KeptAll(ws[1..]);
      } else {
        RemoveIsKept(ws[1..], w);
      }
    }
  }

  ghost function LostIn<W>(s: Pool<W>, ws: seq<W>): set<W>
    requires forall w :: w in ws ==> w in s.recs
  {
    set w | w in ws && Lost(s.recs[w])
  }

  lemma LostInRest<W>(c: Config, s: Pool<W>, ws: seq<W>)
    requires ws != [] && forall w :: w in ws ==> w in s.recs
    ensures var s1 := if Lost(s.recs[ws[0]]) then MarkDead(c, s, ws[0]) else s;
      LostIn(s, ws) == LostIn(s1, ws[1..]) + if Lost(s.recs[ws[0]]) then {ws[0]} else {}
  {
    var s1 := if Lost(s.recs[ws[0]]) then MarkDead(c, s, ws[0]) else s;
    forall w | w in ws ensures s1.recs[w] == s.recs[w] || (w == ws[0] && !Lost(s1.recs[w]) && Lost(s.recs[w])) {
      MarkDeadWorker(c, s, ws[0], w);
    }
    assert ws == [ws[0]] + ws[1..];
  }

  lemma {:induction false} SweepList<W>(c: Config, s: Pool<W>, ws: seq<W>)
    requires Distinct(s.workers) && forall w :: w in ws ==> w in s.recs
    ensures Sweep(c, s, ws).workers == Kept(s.workers, LostIn(s, ws))
    decreases |ws|
  {
    if ws == [] {
      KeptAll(s.workers);
      KeptAgree(s.workers, LostIn(s, ws), {});
    } else {
      var s1 := if Lost(s.recs[ws[0]]) then MarkDead(c, s, ws[0]) else s;
      LostInRest(c, s, ws);
      if Lost(s.recs[ws[0]]) {
        RemoveDistinct(s.workers, ws[0]);
        RemoveIsKept(s.workers, ws[0]);
        MarkDeadWorker(c, s, ws[0], ws[0]);
        SweepList(c, s1, ws[1..]);
        KeptTwice(s.workers, {ws[0]}, LostIn(s1, ws[1..]));
        KeptAgree(s.workers, {ws[0]} + LostIn(s1, ws[1..]), LostIn(s, ws));
      } else {
        SweepList(c, s1, ws[1..]);
        KeptAgree(s.workers, LostIn(s1, ws[1..]), LostIn(s, ws));
      }
    }
  }

  /** The listed workers that a step makes die. */
  ghost function Gone<W>(c: Config, s: Pool<W>, e: Event<W>): set<W>
    requires Enabled(s, e, s.clock)
  {
    set w | w in s.workers && Dies(c, s, e, w)
  }

  lemma RecycleList<W>(c: Config, s: Pool<W>, t: nat)
    requires ListInv(s.workers, s.recs) && Enabled(s, Recycle(t), s.clock)
    ensures RecycleStep(c, s, t).workers == Kept(s.workers, Gone(c, s, Recycle(t)))
  {
    var w := s.tasks[t].worker;
    if Dies(c, s, Recycle(t), w) {
      RemoveIsKept(s.workers, w);
      KeptAgree(s.workers, {w}, Gone(c, s, Recycle(t)));
    } else {
      KeptAll(s.workers);
      KeptAgree(s.workers, {}, Gone(c, s, Recycle(t)));
    }
  }

  lemma CrashList<W>(c: Config, s: Pool<W>, w: W)
    requires ListInv(s.workers, s.recs) && Enabled(s, ServerCloses(w), s.clock)
    ensures MarkDead(c, s, w).workers == Kept(s.workers, Gone(c, s, ServerCloses(w)))
  {
    MarkDeadWorker(c, s, w, w);
    RemoveIsKept(s.workers, w);
    KeptAgree(s.workers, {w}, Gone(c, s, ServerCloses(w)));
    if w !in s.workers {
      KeptAll(s.workers);
      KeptAgree(s.workers, {}, Gone(c, s, ServerCloses(w)));
    }
  }

  lemma SweptList<W>(c: Config, s: Pool<W>, t: nat)
    requires ListInv(s.workers, s.recs) && Enabled(s, Resume(t), s.clock)
    ensures Act(c, s, Resume(t)).workers == Kept(s.workers, Gone(c, s, Resume(t)))
  {
    SweepList(c, s, s.workers);
    ResumeFrame(c, s, t);
    KeptAgree(s.workers, LostIn(s, s.workers), Gone(c, s, Resume(t)));
  }

  lemma OtherList<W>(c: Config, s: Pool<W>, e: Event<W>)
    requires ListInv(s.workers, s.recs) && Enabled(s, e, s.clock)
    requires !e.Resume? && !e.Recycle? && !e.ServerCloses? && !e.Close?
    ensures Act(c, s, e).workers == Kept(s.workers, Gone(c, s, e)) + if e.LaunchSucceeds? then [e.worker] else []
  {
    KeptAll(s.workers);
    assert Gone(c, s, e) == {};
  }

  /** Off the list go the workers that die, no others; a worker whose launch succeeds joins at its end. */
  lemma ListAfter<W>(c: Config, s: Pool<W>, e: Event<W>)
    requires ListInv(s.workers, s.recs) && Enabled(s, e, s.clock)
    ensures Act(c, s, e).workers == Kept(s.workers, Gone(c, s, e)) + if e.LaunchSucceeds? then [e.worker] else []
  {
    match e
    case Resume(t) => SweptList(c, s, t);
    case Recycle(t) => RecycleList(c, s, t);
    case ServerCloses(w) => CrashList(c, s, w);
    case Close => KeptNone(s.workers, Gone(c, s, e));
    case _ => OtherList(c, s, e);
  }

  // ---- Retiring ----

  /**
   The call that is done with a worker retires it exactly when no context is open on it and it is
   worn out or no longer healthy; otherwise the worker stays listed, draining if it is worn out.
   */
  lemma RecycleRetiresExactly<W>(c: Config, s0: Pool<W>, t: nat, now: int)
    requires Inv(s0) && Enabled(s0, Recycle(t), now) && s0.tasks[t].worker in s0.workers
    ensures var s, w := Apply(c, s0, Recycle(t), now), s0.tasks[t].worker;
      var r := s0.recs[w];
      var worn := r.jobs >= c.maxJobs || now - r.createdAt >= c.maxAgeMs || r.rssMb >= c.recycleRssMb;
      && w in s.recs
      && (w !in s.workers <==> r.active == 0 && (r.state != Healthy || worn))
      && s.stats.recycled == s0.stats.recycled + (if w in s.workers then 0 else 1)
      && if w in s.workers
         then s.recs[w].state == (if worn then Draining else r.state) && t !in s.tasks
         else s.recs[w].state == Dead && t in s.tasks && s.tasks[t] == Refilling(r.backend)
  {
    RemoveDistinct(s0.workers, s0.tasks[t].worker);
  }
}

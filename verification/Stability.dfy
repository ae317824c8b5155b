/** The wait for a page to become stable: three timers and a stream of mutations. */
module Stability {
  import opened Wrappers

  // ---- Settings ----

  const DEFAULT_QUIET_MS: nat := 600
  const DEFAULT_TIMEOUT_MS: nat := 4000

  datatype Settings = Settings(quiet: nat, maximum: nat, observation: nat)

  function Effective(quietMs: Option<nat>, timeoutMs: Option<nat>, minimumObservationMs: Option<nat>): (s: Settings)
    ensures s.quiet <= s.maximum && s.observation <= s.maximum
    // A caller's own settings are used; only the maximum may be raised, to the quiet period.
    ensures s.quiet == if quietMs.Some? then quietMs.value else 600
    ensures var asked := if timeoutMs.Some? then timeoutMs.value else 4000;
      asked <= s.maximum && (s.maximum == asked || s.maximum == s.quiet)
    ensures var asked := if minimumObservationMs.Some? then minimumObservationMs.value else 0;
      s.observation <= asked && (s.observation == asked || s.observation == s.maximum)
  {
    var quiet := OrElse(quietMs, DEFAULT_QUIET_MS);
    var maximum := Max(quiet, OrElse(timeoutMs, DEFAULT_TIMEOUT_MS));
    Settings(quiet, maximum, Min(OrElse(minimumObservationMs, 0), maximum))
  }

  datatype BrowserWait = StabilityWait(quietMs: Option<nat>, timeoutMs: Option<nat>) | OtherWait

  /** The wait of a fetch: its own, or with default stability one that is cut to the budget. */
  function RenderWait(wait: Option<BrowserWait>, waitUntil: bool, timeoutMs: Option<nat>, jobTimeoutMs: nat,
                      defaultStability: bool): Option<BrowserWait> {
    if wait.Some? then wait
    else if waitUntil || !defaultStability then None
    else
      var budget := Min(OrElse(timeoutMs, jobTimeoutMs), jobTimeoutMs);
      Some(StabilityWait(Some(Min(DEFAULT_QUIET_MS, budget)), Some(Min(DEFAULT_TIMEOUT_MS, budget))))
  }

  // ---- The machine ----

  /** A node with the length of its trimmed text, 0 when it has none. */
  datatype Node = Node(nodeType: int, textLength: nat)

  datatype Record = Record(childList: bool, added: seq<Node>, removed: seq<Node>)

  predicate Meaningful(records: seq<Record>) {
    exists r :: r in records && r.childList &&
      exists n :: n in r.added + r.removed && (n.nodeType == 1 || n.textLength >= 80)
  }

  /** A timer holds the time it is due; `resolutions` counts calls of `resolve`. */
  datatype Wait = Wait(now: int, complete: bool, observed: bool,
    quietTimer: Option<int>, maximumTimer: Option<int>, observationTimer: Option<int>, resolutions: nat)

  datatype Event =
    | Mutated(at: int, records: seq<Record>)
    | QuietFires(at: int)
    | ObservationFires(at: int)
    | MaximumFires(at: int)

  function Start(s: Settings): Wait {
    var observed := s.observation == 0;
    Wait(0, false, observed, Some(s.quiet), Some(s.maximum), if observed then None else Some(s.observation), 0)
  }

  function Finish(w: Wait): Wait {
    if w.complete then w
    else Wait(w.now, true, w.observed, None, None, None, w.resolutions + 1)
  }

  function ResetQuiet(s: Settings, w: Wait): Wait {
    w.(quietTimer := Some(w.now + s.quiet))
  }

  function Apply(s: Settings, before: Wait, e: Event): Wait {
    var w := before.(now := e.at);
    match e
    case Mutated(_, records) => if Meaningful(records) then ResetQuiet(s, w) else w
    case QuietFires(_) =>
      var fired := w.(quietTimer := None);
      if w.observed then Finish(fired) else fired
    case ObservationFires(_) => ResetQuiet(s, w.(observationTimer := None, observed := true))
    case MaximumFires(_) => Finish(w.(maximumTimer := None))
  }

  /** A timer fires when it is due, and nothing happens later than an armed timer; ties come in any order. */
  predicate DueBy(timer: Option<int>, at: int) {
    timer.Some? ==> at <= timer.value
  }

  predicate Enabled(w: Wait, e: Event) {
    && w.now <= e.at && DueBy(w.quietTimer, e.at) && DueBy(w.maximumTimer, e.at) && DueBy(w.observationTimer, e.at)
    && match e
       case Mutated(_, _) => !w.complete
       case QuietFires(at) => w.quietTimer == Some(at)
       case ObservationFires(at) => w.observationTimer == Some(at)
       case MaximumFires(at) => w.maximumTimer == Some(at)
  }

  function Exec(s: Settings, run: seq<Event>): Option<Wait>
    decreases |run|
  {
    if run == [] then Some(Start(s))
    else
      match Exec(s, run[..|run| - 1])
      case None => None
      case Some(w) => if Enabled(w, run[|run| - 1]) then Some(Apply(s, w, run[|run| - 1])) else None
  }

  // ---- What the wait promises, told without timers ----

  /** When the event was a meaningful mutation. */
  function ChangedBy(e: Event): seq<int> {
    if e.Mutated? && Meaningful(e.records) then [e.at] else []
  }

  /** When meaningful mutations were handled. */
  function Changes(run: seq<Event>): seq<int>
    decreases |run|
  {
    if run == [] then [] else Changes(run[..|run| - 1]) + ChangedBy(run[|run| - 1])
  }

  /** A quiet period that begins at `since` saw no change after its beginning. */
  predicate Silent(quiet: nat, changes: seq<int>, since: int) {
    forall m :: m in changes ==> !(since < m <= since + quiet)
  }

  /** The earlier of the maximum and the end of the first silence that begins after the observation. */
  ghost predicate ResolvesAt(s: Settings, changes: seq<int>, t: int) {
    && t <= s.maximum
    && (t == s.maximum || (s.observation <= t - s.quiet && Silent(s.quiet, changes, t - s.quiet)))
    && (forall since :: s.observation <= since && since + s.quiet < t ==> !Silent(s.quiet, changes, since))
  }

  // ---- The machine keeps the promise ----

  function LastChange(s: Settings, changes: seq<int>): int
    decreases |changes|
  {
    if changes == [] then s.observation
    else Max(LastChange(s, changes[..|changes| - 1]), changes[|changes| - 1])
  }

  ghost predicate Waiting(s: Settings, w: Wait, changes: seq<int>) {
    && !w.complete && w.resolutions == 0 && w.maximumTimer == Some(s.maximum)
    && DueBy(w.quietTimer, w.now) && DueBy(w.maximumTimer, w.now) && DueBy(w.observationTimer, w.now)
    && (forall m :: m in changes ==> m <= w.now)
    && (if w.observed
        then
          && w.observationTimer == None && w.now >= s.observation
          && w.quietTimer == Some(LastChange(s, changes) + s.quiet)
        else w.observationTimer == Some(s.observation))
    && (forall since :: s.observation <= since < LastChange(s, changes) ==> !Silent(s.quiet, changes, since))
  }

  ghost predicate Resolved(s: Settings, w: Wait, changes: seq<int>) {
    && w.complete && w.resolutions == 1
    && w.quietTimer == None && w.maximumTimer == None && w.observationTimer == None
    && ResolvesAt(s, changes, w.now)
  }

  lemma {:induction false} LastChangeIsLast(s: Settings, changes: seq<int>)
    ensures s.observation <= LastChange(s, changes)
    ensures forall m :: m in changes ==> m <= LastChange(s, changes)
    ensures LastChange(s, changes) == s.observation || LastChange(s, changes) in changes
    decreases |changes|
  {
    if changes == [] {
    } else {
      LastChangeIsLast(s, changes[..|changes| - 1]);
      assert changes == changes[..|changes| - 1] + [changes[|changes| - 1]];
    }
  }

  /** A change within the quiet period restarts it, and leaves no silence before it. */
  lemma ChangeRestarts(s: Settings, changes: seq<int>, t: int)
    requires t <= LastChange(s, changes) + s.quiet
    requires forall since :: s.observation <= since < LastChange(s, changes) ==> !Silent(s.quiet, changes, since)
    ensures LastChange(s, changes + [t]) == Max(LastChange(s, changes), t)
    ensures forall since :: s.observation <= since < LastChange(s, changes + [t]) ==>
      !Silent(s.quiet, changes + [t], since)
  {
    assert (changes + [t])[..|changes|] == changes;
    forall since | s.observation <= since < LastChange(s, changes + [t])
      ensures !Silent(s.quiet, changes + [t], since)
    {
      if since < LastChange(s, changes) {
        assert !Silent(s.quiet, changes, since);
        var m :| m in changes && since < m <= since + s.quiet;
        assert m in changes + [t];
      } else {
        assert t in changes + [t] && since < t <= since + s.quiet;
      }
    }
  }

  /** Before the observation ends no change is later than it. */
  lemma BeforeObservation(s: Settings, changes: seq<int>, t: int)
    requires t <= s.observation && forall m :: m in changes ==> m <= t
    ensures LastChange(s, changes) == s.observation
  {
    LastChangeIsLast(s, changes);
  }

  lemma MutationKeeps(s: Settings, w: Wait, changes: seq<int>, e: Event)
    requires Waiting(s, w, changes) && Enabled(w, e) && e.Mutated? && Meaningful(e.records)
    ensures Waiting(s, Apply(s, w, e), changes + [e.at])
  {
    LastChangeIsLast(s, changes);
    if w.observed {
      ChangeRestarts(s, changes, e.at);
    } else {
      BeforeObservation(s, changes, e.at);
      BeforeObservation(s, changes + [e.at], e.at);
    }
  }

  lemma ObservationKeeps(s: Settings, w: Wait, changes: seq<int>, e: Event)
    requires Waiting(s, w, changes) && Enabled(w, e) && e.ObservationFires?
    ensures Waiting(s, Apply(s, w, e), changes)
  {
    BeforeObservation(s, changes, e.at);
  }

  lemma QuietKeeps(s: Settings, w: Wait, changes: seq<int>, e: Event)
    requires Waiting(s, w, changes) && Enabled(w, e) && e.QuietFires?
    ensures if w.observed then Resolved(s, Apply(s, w, e), changes) else Waiting(s, Apply(s, w, e), changes)
  {
    if w.observed {
      LastChangeIsLast(s, changes);
      assert Silent(s.quiet, changes, e.at - s.quiet);
    }
  }

  lemma MaximumKeeps(s: Settings, w: Wait, changes: seq<int>, e: Event)
    requires Waiting(s, w, changes) && Enabled(w, e) && e.MaximumFires?
    ensures Resolved(s, Apply(s, w, e), changes)
  {
  }

  /** Still waiting as the changes demand, or resolved as they demand. */
  ghost predicate Kept(s: Settings, w: Wait, changes: seq<int>) {
    if w.complete then Resolved(s, w, changes) else Waiting(s, w, changes)
  }

  lemma StepKeeps(s: Settings, w: Wait, changes: seq<int>, e: Event)
    requires s.quiet <= s.maximum && s.observation <= s.maximum && Kept(s, w, changes) && Enabled(w, e)
    ensures Kept(s, Apply(s, w, e), changes + ChangedBy(e))
  {
    assert !w.complete;
    assert changes + [] == changes;
    match e
    case Mutated(_, records) =>
      if Meaningful(records) {
        MutationKeeps(s, w, changes, e);
      }
    case QuietFires(_) => QuietKeeps(s, w, changes, e);
    case ObservationFires(_) => ObservationKeeps(s, w, changes, e);
    case MaximumFires(_) => MaximumKeeps(s, w, changes, e);
  }

  lemma {:induction false} RunKeeps(s: Settings, run: seq<Event>)
    requires s.quiet <= s.maximum && s.observation <= s.maximum && Exec(s, run).Some?
    ensures Kept(s, Exec(s, run).value, Changes(run))
    decreases |run|
  {
    if run == [] {
    } else {
      var before := run[..|run| - 1];
      RunKeeps(s, before);
      StepKeeps(s, Exec(s, before).value, Changes(before), run[|run| - 1]);
    }
  }

  /**
   A wait that is over resolved once, at the earlier of the maximum and the end of the first
   silence after the observation, whatever changes still follow; no timer is armed and no event
   can come any more.
   */
  lemma ResolvesAtFirstSilence(s: Settings, run: seq<Event>, later: seq<int>)
    requires s.quiet <= s.maximum && s.observation <= s.maximum
    requires Exec(s, run).Some? && Exec(s, run).value.complete
    requires forall m :: m in later ==> m > Exec(s, run).value.now
    ensures var w := Exec(s, run).value;
      && w.resolutions == 1 && ResolvesAt(s, Changes(run) + later, w.now)
      && w.quietTimer == None && w.maximumTimer == None && w.observationTimer == None
      && forall e :: !Enabled(w, e)
  {
    RunKeeps(s, run);
    var w, all := Exec(s, run).value, Changes(run) + later;
    forall since | s.observation <= since && since + s.quiet < w.now ensures !Silent(s.quiet, all, since) {
      assert !Silent(s.quiet, Changes(run), since);
      var m :| m in Changes(run) && since < m <= since + s.quiet;
      assert m in all;
    }
  }

  /** The promise names one time. */
  lemma OneResolution(s: Settings, changes: seq<int>, t: int, u: int)
    requires ResolvesAt(s, changes, t) && ResolvesAt(s, changes, u)
    ensures t == u
  {
    assert t < u ==> Silent(s.quiet, changes, t - s.quiet);
    assert u < t ==> Silent(s.quiet, changes, u - s.quiet);
  }

  /** The order in which timers and changes of one instant are handled decides only which changes are seen. */
  lemma SameChangesSameTime(s: Settings, run: seq<Event>, other: seq<Event>)
    requires s.quiet <= s.maximum && s.observation <= s.maximum
    requires Exec(s, run).Some? && Exec(s, run).value.complete
    requires Exec(s, other).Some? && Exec(s, other).value.complete
    requires Changes(run) == Changes(other)
    ensures Exec(s, run).value.now == Exec(s, other).value.now
  {
    RunKeeps(s, run);
    RunKeeps(s, other);
    OneResolution(s, Changes(run), Exec(s, run).value.now, Exec(s, other).value.now);
  }

  // ---- What counts as a change ----

  /** An element, or a node with at least 80 characters of text. */
  predicate Weighs(n: Node) {
    n.nodeType == 1 || n.textLength >= 80
  }

  /** Some record adds such a node, or removes one. */
  ghost predicate Moves(records: seq<Record>) {
    exists r, n :: r in records && (n in r.added || n in r.removed) && r.childList && Weighs(n)
  }

  /** A delivery of records restarts the quiet period if a node that weighs moves, and changes no timer otherwise. */
  lemma MovesRestart(s: Settings, w: Wait, at: int, records: seq<Record>)
    requires Enabled(w, Mutated(at, records))
    ensures Apply(s, w, Mutated(at, records)) ==
      w.(now := at, quietTimer := if Moves(records) then Some(at + s.quiet) else w.quietTimer)
  {
    if Moves(records) {
      var r, n :| r in records && (n in r.added || n in r.removed) && r.childList && Weighs(n);
      assert n in r.added + r.removed;
    }
    if Meaningful(records) {
      var r :| r in records && r.childList &&
        exists n :: n in r.added + r.removed && (n.nodeType == 1 || n.textLength >= 80);
      var n :| n in r.added + r.removed && (n.nodeType == 1 || n.textLength >= 80);
      assert Weighs(n);
    }
  }

  /** The changes of a run are the times at which it handled such moves. */
  lemma {:induction false} ChangesAreMoves(run: seq<Event>, at: int)
    ensures at in Changes(run) <==>
      exists i :: 0 <= i < |run| && run[i].Mutated? && run[i].at == at && Moves(run[i].records)
    decreases |run|
  {
    if run == [] {
    } else {
      var before, e := run[..|run| - 1], run[|run| - 1];
      ChangesAreMoves(before, at);
      assert forall i :: 0 <= i < |before| ==> run[i] == before[i];
      if e.Mutated? {
        MovesRestart(Settings(0, 0, 0), Wait(e.at, false, true, None, None, None, 0), e.at, e.records);
      }
    }
  }

  lemma {:induction false} ChangesAreHandled(s: Settings, run: seq<Event>)
    requires Exec(s, run).Some?
    ensures forall m :: m in Changes(run) ==> m <= Exec(s, run).value.now
    decreases |run|
  {
    if run == [] {
    } else {
      ChangesAreHandled(s, run[..|run| - 1]);
    }
  }

  /** A wait that ends before its maximum ends a quiet period or more after each move that it saw before. */
  lemma EndsQuietAfterMoves(s: Settings, run: seq<Event>, i: nat)
    requires s.quiet <= s.maximum && s.observation <= s.maximum
    requires Exec(s, run).Some? && Exec(s, run).value.complete && Exec(s, run).value.now < s.maximum
    requires i < |run| && run[i].Mutated? && Moves(run[i].records)
    ensures run[i].at + s.quiet <= Exec(s, run).value.now
  {
    ChangesAreMoves(run, run[i].at);
    RunKeeps(s, run);
    ChangesAreHandled(s, run);
  }

  // ---- The wait always ends ----

  function Timers(run: seq<Event>): nat
    decreases |run|
  {
    if run == [] then 0 else Timers(run[..|run| - 1]) + if run[|run| - 1].Mutated? then 0 else 1
  }

  function Armed(w: Wait): nat {
    (if w.quietTimer.Some? then 1 else 0)
    + (if w.maximumTimer.Some? then 1 else 0)
    + (if w.observationTimer.Some? then 2 else 0)
  }

  lemma {:induction false} TimersAreBounded(s: Settings, run: seq<Event>)
    requires Exec(s, run).Some?
    ensures Timers(run) + Armed(Exec(s, run).value) <= |Changes(run)| + 4
    decreases |run|
  {
    if run == [] {
    } else {
      TimersAreBounded(s, run[..|run| - 1]);
    }
  }

  /**
   Until the wait is over the clock stays within the maximum and some timer can fire, and there are
   at most three more firings than changes: the wait cannot go on without changes, nor beyond the
   maximum.
   */
  lemma AlwaysEnds(s: Settings, run: seq<Event>) returns (next: Event)
    requires s.quiet <= s.maximum && s.observation <= s.maximum
    requires Exec(s, run).Some? && !Exec(s, run).value.complete
    ensures Exec(s, run).value.now <= s.maximum
    ensures !next.Mutated? && Enabled(Exec(s, run).value, next) && next.at <= s.maximum
    ensures Timers(run) < |Changes(run)| + 4
  {
    RunKeeps(s, run);
    TimersAreBounded(s, run);
    var w := Exec(s, run).value;
    next := MaximumFires(s.maximum);
    if w.observationTimer.Some? && w.observationTimer.value <= next.at {
      next := ObservationFires(w.observationTimer.value);
    }
    if w.quietTimer.Some? && w.quietTimer.value <= next.at {
      next := QuietFires(w.quietTimer.value);
    }
  }

  /** The least of two times and, if there is one, a third. */
  predicate IsLeast(t: nat, a: nat, b: nat, c: Option<nat>) {
    && t <= a && t <= b && (c.Some? ==> t <= c.value)
    && (t == a || t == b || c == Some(t))
  }

  /**
   A fetch waits as its caller says; without a wait of its own it waits for stability if that is the
   default and the caller names no load event, with the default times cut to its budget.
   */
  lemma WaitsAsAsked(wait: Option<BrowserWait>, waitUntil: bool, timeoutMs: Option<nat>, jobTimeoutMs: nat,
                     defaultStability: bool)
    ensures var r := RenderWait(wait, waitUntil, timeoutMs, jobTimeoutMs, defaultStability);
      && (wait.Some? ==> r == wait)
      && (wait.None? ==> (r.Some? <==> !waitUntil && defaultStability))
      && (wait.None? && r.Some? ==>
            && r.value.StabilityWait? && r.value.quietMs.Some? && r.value.timeoutMs.Some?
            && IsLeast(r.value.quietMs.value, 600, jobTimeoutMs, timeoutMs)
            && IsLeast(r.value.timeoutMs.value, 4000, jobTimeoutMs, timeoutMs))
  {
  }

  /** The default wait of a fetch resolves within the fetch's own budget. */
  lemma DefaultWaitFitsBudget(timeoutMs: Option<nat>, jobTimeoutMs: nat, minimumObservationMs: Option<nat>,
                              run: seq<Event>)
    ensures var wait := RenderWait(None, false, timeoutMs, jobTimeoutMs, true);
      wait.Some? && wait.value.StabilityWait? &&
      var s := Effective(wait.value.quietMs, wait.value.timeoutMs, minimumObservationMs);
      Exec(s, run).Some? ==> Exec(s, run).value.now <= Min(OrElse(timeoutMs, jobTimeoutMs), jobTimeoutMs)
  {
    var wait := RenderWait(None, false, timeoutMs, jobTimeoutMs, true).value;
    var s := Effective(wait.quietMs, wait.timeoutMs, minimumObservationMs);
    if Exec(s, run).Some? {
      RunKeeps(s, run);
    }
  }

  // ---- The closures of the page script, changed in place ----

  class StabilityObserver {
    const settings: Settings
    var now: int
    var complete: bool
    var observationComplete: bool
    var quietTimer: Option<int>
    var maximumTimer: Option<int>
    var observationTimer: Option<int>
    var resolutions: nat

    function State(): Wait
      reads this
    {
      Wait(now, complete, observationComplete, quietTimer, maximumTimer, observationTimer, resolutions)
    }

    constructor (settings: Settings)
      ensures this.settings == settings && State() == Start(settings)
    {
      this.settings := settings;
      now, complete, resolutions := 0, false, 0;
      observationComplete := settings.observation == 0;
      maximumTimer, observationTimer := Some(settings.maximum), None;
      quietTimer := None;
      new;
      if !observationComplete {
        observationTimer := Some(settings.observation);
      }
      RestartQuiet();
    }

    method Resolve()
      modifies this
      ensures State() == Finish(old(State()))
    {
      if complete {
        return;
      }
      complete := true;
      quietTimer, maximumTimer, observationTimer := None, None, None;
      resolutions := resolutions + 1;
    }

    method RestartQuiet()
      modifies this
      ensures State() == ResetQuiet(settings, old(State()))
    {
      quietTimer := Some(now + settings.quiet);
    }

    method OnMutations(at: int, records: seq<Record>)
      requires Enabled(State(), Mutated(at, records))
      modifies this
      ensures State() == Apply(settings, old(State()), Mutated(at, records))
    {
      now := at;
      if Meaningful(records) {
        RestartQuiet();
      }
    }

    method OnQuiet(at: int)
      requires Enabled(State(), QuietFires(at))
      modifies this
      ensures State() == Apply(settings, old(State()), QuietFires(at))
    {
      now, quietTimer := at, None;
      if observationComplete {
        Resolve();
      }
    }

    method OnObservation(at: int)
      requires Enabled(State(), ObservationFires(at))
      modifies this
      ensures State() == Apply(settings, old(State()), ObservationFires(at))
    {
      now, observationTimer := at, None;
      observationComplete := true;
      RestartQuiet();
    }

    method OnMaximum(at: int)
      requires Enabled(State(), MaximumFires(at))
      modifies this
      ensures State() == Apply(settings, old(State()), MaximumFires(at))
    {
      now, maximumTimer := at, None;
      Resolve();
    }
  }
}

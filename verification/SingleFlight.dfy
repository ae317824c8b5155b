/** `coalesce`: callers that ask for a key while its work is under way share one task. */
module SingleFlight {
  import opened Wrappers

  type Key = string

  /**
   `inflight` is the table of the source; `running` holds the tasks that have not settled, by key;
   `next` names the next task.
   */
  datatype Flights = Flights(inflight: map<Key, nat>, running: map<nat, Key>, next: nat)

  datatype Event = Join(key: Key) | Settle(task: nat)

  const IDLE := Flights(map[], map[], 0)

  /** The task a caller of `coalesce(k)` gets. */
  function Given(s: Flights, k: Key): nat {
    if k in s.inflight then s.inflight[k] else s.next
  }

  function JoinStep(s: Flights, k: Key): Flights {
    if k in s.inflight then s
    else Flights(s.inflight[k := s.next], s.running[s.next := k], s.next + 1)
  }

  /** The `finally` handler deletes the key, whichever task is listed under it. */
  function SettleStep(s: Flights, task: nat): Flights
    requires task in s.running
  {
    Flights(s.inflight - {s.running[task]}, s.running - {task}, s.next)
  }

  predicate Enabled(s: Flights, e: Event) {
    e.Settle? ==> e.task in s.running
  }

  function Apply(s: Flights, e: Event): Flights
    requires Enabled(s, e)
  {
    match e
    case Join(k) => JoinStep(s, k)
    case Settle(task) => SettleStep(s, task)
  }

  function Exec(run: seq<Event>): Option<Flights>
    decreases |run|
  {
    if run == [] then Some(IDLE)
    else
      match Exec(run[..|run| - 1])
      case None => None
      case Some(s) => if Enabled(s, run[|run| - 1]) then Some(Apply(s, run[|run| - 1])) else None
  }

  /** The table lists exactly the running tasks, one for each key. */
  ghost predicate Inv(s: Flights) {
    && (forall k :: k in s.inflight ==> s.inflight[k] in s.running && s.running[s.inflight[k]] == k)
    && (forall t :: t in s.running ==> t < s.next && s.running[t] in s.inflight && s.inflight[s.running[t]] == t)
  }

  /** At every moment at most one task runs for a key, and it is the one the table lists. */
  lemma {:induction false} RunInv(run: seq<Event>)
    requires Exec(run).Some?
    ensures Inv(Exec(run).value)
    ensures var running := Exec(run).value.running;
      forall t, u :: t in running && u in running && running[t] == running[u] ==> t == u
    decreases |run|
  {
    if run == [] {
    } else {
      RunInv(run[..|run| - 1]);
    }
  }

  lemma {:induction false} Prefix(run: seq<Event>, i: nat)
    requires Exec(run).Some? && i <= |run|
    ensures Exec(run[..i]).Some?
    decreases |run|
  {
    if i < |run| {
      Prefix(run[..|run| - 1], i);
      assert run[..|run| - 1][..i] == run[..i];
    } else {
      assert run[..i] == run;
    }
  }

  ghost predicate Listed(s: Flights, k: Key, task: nat) {
    k in s.inflight && s.inflight[k] == task
  }

  lemma StepKeepsListed(s: Flights, e: Event, k: Key, task: nat)
    requires Inv(s) && Enabled(s, e) && task < s.next
    ensures Listed(s, k, task) ==>
      if e == Settle(task) then task !in Apply(s, e).running else Listed(Apply(s, e), k, task)
    ensures task !in s.running ==> task !in Apply(s, e).running
  {
  }

  /** Whether a task that was given at some point of a run is still listed later. */
  lemma {:induction false} ListedUntilSettled(run: seq<Event>, i: nat, k: Key, task: nat)
    requires Exec(run).Some? && i < |run| && run[i] == Join(k)
    requires Exec(run[..i]).Some? && task == Given(Exec(run[..i]).value, k)
    ensures var s := Exec(run).value;
      task < s.next && if Settle(task) in run[i + 1..] then task !in s.running else Listed(s, k, task)
    decreases |run|
  {
    var before := run[..|run| - 1];
    RunInv(before);
    if i < |before| {
      assert before[..i] == run[..i];
      ListedUntilSettled(before, i, k, task);
      StepKeepsListed(Exec(before).value, run[|run| - 1], k, task);
      assert run[i + 1..] == before[i + 1..] + [run[|run| - 1]];
    } else {
      assert before == run[..i];
      assert run[i + 1..] == [];
    }
  }

  /** Two callers of a key get the same task exactly when it has not settled between their calls. */
  lemma SharedExactlyUntilSettled(run: seq<Event>, i: nat, j: nat, k: Key)
    requires Exec(run).Some? && i < j < |run| && run[i] == run[j] == Join(k)
    ensures Exec(run[..i]).Some? && Exec(run[..j]).Some?
    ensures var first := Given(Exec(run[..i]).value, k);
      Given(Exec(run[..j]).value, k) == first <==> Settle(first) !in run[i + 1..j]
  {
    Prefix(run, i);
    Prefix(run, j);
    assert run[..j][..i] == run[..i];
    assert run[..j][i + 1..] == run[i + 1..j];
    ListedUntilSettled(run[..j], i, k, Given(Exec(run[..i]).value, k));
    RunInv(run[..j]);
  }
}

/** The fixed-window counter of requests by API key. */
module RateLimit {
  import opened Wrappers

  type Key = string

  const WINDOW_MS: int := 60000
  const DEFAULT_LIMIT: nat := 600

  datatype Counter = Counter(startedAt: int, count: nat)

  function Counted(state: Option<Counter>, now: int): Counter {
    if state.None? || now - state.value.startedAt >= WINDOW_MS then Counter(now, 1)
    else state.value.(count := state.value.count + 1)
  }

  function LimitOf(policy: Option<nat>): nat {
    OrElse(policy, DEFAULT_LIMIT)
  }

  function Lookup(counters: map<Key, Counter>, k: Key): Option<Counter> {
    if k in counters then Some(counters[k]) else None
  }

  function Hit(counters: map<Key, Counter>, k: Key, now: int): map<Key, Counter> {
    counters[k := Counted(Lookup(counters, k), now)]
  }

  datatype Request = Request(key: Key, at: int)

  function Exec(trace: seq<Request>): map<Key, Counter>
    decreases |trace|
  {
    if trace == [] then map[]
    else Hit(Exec(trace[..|trace| - 1]), trace[|trace| - 1].key, trace[|trace| - 1].at)
  }

  /** Whether the i-th request of a trace passes a limit. */
  predicate Admitted(trace: seq<Request>, limit: nat, i: nat)
    requires i < |trace|
  {
    Counted(Lookup(Exec(trace[..i]), trace[i].key), trace[i].at).count <= limit
  }

  class RateLimiter {
    var counters: map<Key, Counter>

    constructor ()
      ensures counters == Exec([])
    {
      counters := map[];
    }

    method OnRequest(key: Key, now: int, rateLimitPerMinute: Option<nat>) returns (passed: bool)
      modifies this
      ensures counters == Hit(old(counters), key, now) && key in counters
      ensures passed <==> counters[key].count <= if rateLimitPerMinute.Some? then rateLimitPerMinute.value else 600
    {
      var state := Lookup(counters, key);
      var updated;
      if state.None? || now - state.value.startedAt >= WINDOW_MS {
        updated := Counter(now, 1);
      } else {
        updated := state.value.(count := state.value.count + 1);
      }
      counters := counters[key := updated];
      passed := updated.count <= LimitOf(rateLimitPerMinute);
    }
  }

  // ---- One key: which requests share a window ----

  function Times(trace: seq<Request>, k: Key): seq<int>
    decreases |trace|
  {
    if trace == [] then []
    else Times(trace[..|trace| - 1], k) + if trace[|trace| - 1].key == k then [trace[|trace| - 1].at] else []
  }

  /** The request that opened the window of request i: the last one at least a window after its opener. */
  function Opener(times: seq<int>, i: nat): (s: nat)
    requires i < |times|
    ensures s <= i
  {
    if i == 0 then 0
    else if times[i] - times[Opener(times, i - 1)] >= 60000 then i
    else Opener(times, i - 1)
  }

  /** A request passes when fewer than `limit` others came before it in its window. */
  predicate Passes(times: seq<int>, limit: nat, i: nat)
    requires i < |times|
  {
    i - Opener(times, i) < limit
  }

  lemma {:induction false} OpenerOfPrefix(times: seq<int>, n: nat, i: nat)
    requires i < n <= |times|
    ensures Opener(times[..n], i) == Opener(times, i)
  {
    if i == 0 {
    } else {
      OpenerOfPrefix(times, n, i - 1);
    }
  }

  /** The opener and the length of the last window. */
  function LastWindow(times: seq<int>): Option<Counter> {
    if times == [] then None
    else
      var s := Opener(times, |times| - 1);
      Some(Counter(times[s], |times| - s))
  }

  lemma OneMoreCounts(times: seq<int>, at: int)
    ensures Some(Counted(LastWindow(times), at)) == LastWindow(times + [at])
  {
    var more := times + [at];
    if times != [] {
      assert times == more[..|times|];
      OpenerOfPrefix(more, |times|, |times| - 1);
    }
  }

  /** The counter of a key tells of the last window of that key's own requests, whatever other keys do. */
  lemma {:induction false} CounterTells(trace: seq<Request>, k: Key)
    ensures Lookup(Exec(trace), k) == LastWindow(Times(trace, k))
    decreases |trace|
  {
    if trace == [] {
    } else {
      var n := |trace| - 1;
      CounterTells(trace[..n], k);
      if trace[n].key == k {
        OneMoreCounts(Times(trace[..n], k), trace[n].at);
      } else {
        assert Times(trace, k) == Times(trace[..n], k);
      }
    }
  }

  /** A request is admitted exactly when it passes among the requests of its own key. */
  lemma AdmittedExactly(trace: seq<Request>, limit: nat, i: nat)
    requires i < |trace|
    ensures var times := Times(trace[..i + 1], trace[i].key);
      times != [] && (Admitted(trace, limit, i) <==> Passes(times, limit, |times| - 1))
  {
    var k := trace[i].key;
    assert trace[..i + 1][..i] == trace[..i];
    CounterTells(trace[..i], k);
    CounterTells(trace[..i + 1], k);
    assert Times(trace[..i + 1], k) == Times(trace[..i], k) + [trace[i].at];
  }

  // ---- How many pass ----

  predicate Monotone(times: seq<int>) {
    forall i, j :: 0 <= i < j < |times| ==> times[i] <= times[j]
  }

  /** How many of the requests from i up to j pass. */
  function Passed(times: seq<int>, limit: nat, i: nat, j: nat): nat
    requires i <= j <= |times|
    decreases j - i
  {
    if i == j then 0 else Passed(times, limit, i, j - 1) + if Passes(times, limit, j - 1) then 1 else 0
  }

  /** In one window at most `limit` requests pass, on any clock. */
  lemma {:induction false} WindowPasses(times: seq<int>, limit: nat, s: nat, i: nat, j: nat)
    requires s <= i <= j <= |times|
    requires forall k :: i <= k < j ==> Opener(times, k) == s
    ensures Passed(times, limit, i, j) <= limit
    ensures Passed(times, limit, i, j) <= j - i
    ensures Passed(times, limit, i, j) <= Max(0, s + limit - i)
    decreases j - i
  {
    if i < j {
      WindowPasses(times, limit, s, i, j - 1);
    }
  }

  lemma {:induction false} PassedSplits(times: seq<int>, limit: nat, i: nat, m: nat, j: nat)
    requires i <= m <= j <= |times|
    ensures Passed(times, limit, i, j) == Passed(times, limit, i, m) + Passed(times, limit, m, j)
    decreases j - m
  {
    if m < j {
      PassedSplits(times, limit, i, m, j - 1);
    }
  }

  lemma {:induction false} OpenerOpens(times: seq<int>, i: nat)
    requires i < |times|
    ensures Opener(times, Opener(times, i)) == Opener(times, i)
    ensures forall k :: Opener(times, i) <= k <= i ==> Opener(times, k) == Opener(times, i)
    ensures Opener(times, i) < i ==> times[i] - times[Opener(times, i)] < 60000
  {
    if i == 0 {
    } else {
      OpenerOpens(times, i - 1);
    }
  }

  /** Two openers after a request are more than a window later than it. */
  lemma ThirdIsFar(times: seq<int>, i: nat, a: nat, b: nat)
    requires Monotone(times) && i < a < b < |times|
    requires Opener(times, a) == a && Opener(times, b) == b && Opener(times, b - 1) == a
    ensures times[b] - times[i] > 60000
  {
    assert times[b] - times[a] >= 60000;
    OpenerOpens(times, a - 1);
    var s := Opener(times, a - 1);
    assert times[a] - times[s] >= 60000;
    assert times[i] <= times[a - 1] || i == a - 1;
  }

  /** On a monotone clock requests at most a window apart lie in at most two windows. */
  lemma TwoWindows(times: seq<int>, i: nat, j: nat) returns (m: nat)
    requires Monotone(times) && i <= j < |times| && times[j] - times[i] <= 60000
    ensures i <= m <= j + 1
    ensures forall k :: i <= k < m ==> Opener(times, k) == Opener(times, i)
    ensures forall k :: m <= k <= j ==> Opener(times, k) == m
  {
    OpenerOpens(times, j);
    var b := Opener(times, j);
    if b <= i {
      return j + 1;
    }
    OpenerOpens(times, b - 1);
    OpenerOpens(times, i);
    var a := Opener(times, b - 1);
    if a > i {
      OpenerOpens(times, a - 1);
      ThirdIsFar(times, i, a, b);
    }
    m := b;
  }

  /** At most `limit` requests pass in a window, and at most twice that in any interval of a window's length. */
  lemma AtMostTwice(times: seq<int>, limit: nat, i: nat, j: nat)
    requires Monotone(times) && i <= j < |times| && times[j] - times[i] <= 60000
    ensures Passed(times, limit, i, j + 1) <= 2 * limit
  {
    var m := TwoWindows(times, i, j);
    WindowPasses(times, limit, Opener(times, i), i, m);
    WindowPasses(times, limit, m, m, j + 1);
    PassedSplits(times, limit, i, m, j + 1);
  }

  // ---- The same over traces of all keys ----

  ghost predicate MonotoneTrace(trace: seq<Request>) {
    forall i, j :: 0 <= i < j < |trace| ==> trace[i].at <= trace[j].at
  }

  /** How many requests of a key are admitted from the i-th request of the trace up to the j-th. */
  function AdmittedCount(trace: seq<Request>, k: Key, limit: nat, i: nat, j: nat): nat
    requires i <= j <= |trace|
    decreases j - i
  {
    if i == j then 0
    else
      AdmittedCount(trace, k, limit, i, j - 1) + if trace[j - 1].key == k && Admitted(trace, limit, j - 1) then 1 else 0
  }

  function Before(trace: seq<Request>, k: Key, i: nat): nat
    requires i <= |trace|
  {
    |Times(trace[..i], k)|
  }

  lemma {:induction false} TimesOfPrefix(trace: seq<Request>, k: Key, i: nat)
    requires i <= |trace|
    ensures Before(trace, k, i) <= |Times(trace, k)| && Times(trace[..i], k) == Times(trace, k)[..Before(trace, k, i)]
    decreases |trace|
  {
    if i < |trace| {
      var n := |trace| - 1;
      TimesOfPrefix(trace[..n], k, i);
      assert trace[..n][..i] == trace[..i];
    } else {
      assert trace[..i] == trace;
    }
  }

  /** Request j is admitted exactly when it passes at its place among its key's requests. */
  lemma AdmittedAtItsPlace(trace: seq<Request>, limit: nat, j: nat)
    requires j < |trace|
    ensures var k := trace[j].key;
      && Before(trace, k, j + 1) == Before(trace, k, j) + 1 <= |Times(trace, k)|
      && (Admitted(trace, limit, j) <==> Passes(Times(trace, k), limit, Before(trace, k, j)))
  {
    var k, prefix := trace[j].key, trace[..j + 1];
    assert prefix[..j] == trace[..j];
    TimesOfPrefix(trace, k, j + 1);
    AdmittedExactly(trace, limit, j);
    OpenerOfPrefix(Times(trace, k), |Times(prefix, k)|, |Times(prefix, k)| - 1);
  }

  lemma OtherKeysDoNotCount(trace: seq<Request>, k: Key, j: nat)
    requires j < |trace| && trace[j].key != k
    ensures Before(trace, k, j + 1) == Before(trace, k, j)
  {
    assert trace[..j + 1][..j] == trace[..j];
    assert Times(trace[..j + 1], k) == Times(trace[..j], k);
  }

  lemma BeforeGrows(trace: seq<Request>, k: Key, j: nat)
    requires j < |trace|
    ensures Before(trace, k, j + 1) == Before(trace, k, j) + if trace[j].key == k then 1 else 0
    ensures Before(trace, k, j + 1) <= |Times(trace, k)|
  {
    TimesOfPrefix(trace, k, j + 1);
    if trace[j].key == k {
      AdmittedAtItsPlace(trace, 0, j);
    } else {
      OtherKeysDoNotCount(trace, k, j);
    }
  }

  lemma {:induction false} BeforeIsMonotone(trace: seq<Request>, k: Key, i: nat, j: nat)
    requires i <= j <= |trace|
    ensures Before(trace, k, i) <= Before(trace, k, j) <= |Times(trace, k)|
    decreases j
  {
    if i < j {
      BeforeIsMonotone(trace, k, i, j - 1);
      BeforeGrows(trace, k, j - 1);
    } else {
      TimesOfPrefix(trace, k, j);
    }
  }

  /** The requests admitted from i to j are those that pass from a to b among the key's own times. */
  lemma {:induction false} CountsAgree(trace: seq<Request>, k: Key, limit: nat, i: nat, j: nat, times: seq<int>,
                                       a: nat, b: nat)
    requires i <= j <= |trace| && times == Times(trace, k)
    requires a == Before(trace, k, i) && b == Before(trace, k, j) && a <= b <= |times|
    ensures AdmittedCount(trace, k, limit, i, j) == Passed(times, limit, a, b)
    decreases j
  {
    if i < j {
      var m := Before(trace, k, j - 1);
      BeforeIsMonotone(trace, k, i, j - 1);
      CountsAgree(trace, k, limit, i, j - 1, times, a, m);
      BeforeGrows(trace, k, j - 1);
      if trace[j - 1].key == k {
        AdmittedAtItsPlace(trace, limit, j - 1);
      }
    }
  }

  lemma {:induction false} TimesAreMonotone(trace: seq<Request>, k: Key)
    requires MonotoneTrace(trace)
    ensures Monotone(Times(trace, k))
    ensures forall n :: 0 <= n < |Times(trace, k)| ==> Times(trace, k)[n] <= trace[|trace| - 1].at
    decreases |trace|
  {
    if trace == [] {
    } else {
      TimesAreMonotone(trace[..|trace| - 1], k);
    }
  }

  /** The key's requests from the i-th request of the trace on are not earlier than that request. */
  lemma {:induction false} NotBefore(trace: seq<Request>, k: Key, i: nat, n: nat)
    requires MonotoneTrace(trace) && i < |trace| && Before(trace, k, i) <= n < |Times(trace, k)|
    ensures trace[i].at <= Times(trace, k)[n]
    decreases |trace|
  {
    TimesOfPrefix(trace, k, i);
    var last := |trace| - 1;
    if n < |Times(trace[..last], k)| {
      if i < last {
        assert trace[..last][..i] == trace[..i];
        NotBefore(trace[..last], k, i, n);
      }
    }
  }

  /** And those up to the j-th are not later than it. */
  lemma NotAfter(trace: seq<Request>, k: Key, j: nat, n: nat)
    requires MonotoneTrace(trace) && j < |trace| && n < Before(trace, k, j + 1)
    ensures n < |Times(trace, k)| && Times(trace, k)[n] <= trace[j].at
  {
    var prefix := trace[..j + 1];
    TimesOfPrefix(trace, k, j + 1);
    TimesAreMonotone(prefix, k);
    assert prefix[|prefix| - 1] == trace[j];
    assert Times(prefix, k)[n] == Times(trace, k)[n];
  }

  /**
   Whatever other keys do, at most twice the limit of a key's requests are admitted among
   requests of the trace that are at most a window apart.
   */
  lemma AdmittedAtMostTwice(trace: seq<Request>, k: Key, limit: nat, i: nat, j: nat)
    requires MonotoneTrace(trace) && i <= j < |trace| && trace[j].at - trace[i].at <= 60000
    ensures AdmittedCount(trace, k, limit, i, j + 1) <= 2 * limit
  {
    var a, b := Before(trace, k, i), Before(trace, k, j + 1);
    BeforeIsMonotone(trace, k, i, j + 1);
    CountsAgree(trace, k, limit, i, j + 1, Times(trace, k), a, b);
    if a < b {
      TimesAreMonotone(trace, k);
      NotBefore(trace, k, i, a);
      NotAfter(trace, k, j, b - 1);
      AtMostTwice(Times(trace, k), limit, a, b - 1);
    }
  }

  // ---- The bound is reached ----

  /** n requests at once, and n more exactly a window later. */
  function Burst(n: nat): seq<int> {
    seq(2 * n, i => if i < n then 0 else 60000)
  }

  lemma {:induction false} BurstOpeners(n: nat, i: nat)
    requires i < 2 * n
    ensures Opener(Burst(n), i) == if i < n then 0 else n
  {
    if i == 0 {
    } else {
      BurstOpeners(n, i - 1);
    }
  }

  lemma {:induction false} BurstPasses(n: nat, j: nat)
    requires j <= 2 * n
    ensures Passed(Burst(n), n, 0, j) == j
  {
    if j == 0 {
    } else {
      BurstOpeners(n, j - 1);
      BurstPasses(n, j - 1);
    }
  }

  /** The same as requests of one key. */
  function BurstTrace(k: Key, n: nat): seq<Request> {
    seq(2 * n, i requires 0 <= i < 2 * n => Request(k, Burst(n)[i]))
  }

  lemma {:induction false} TimesOfBurst(k: Key, n: nat, j: nat)
    requires j <= 2 * n
    ensures Times(BurstTrace(k, n)[..j], k) == Burst(n)[..j]
  {
    if j == 0 {
    } else {
      var trace := BurstTrace(k, n)[..j];
      TimesOfBurst(k, n, j - 1);
      assert trace[..j - 1] == BurstTrace(k, n)[..j - 1];
      assert Burst(n)[..j] == Burst(n)[..j - 1] + [Burst(n)[j - 1]];
    }
  }

  /**
   For every limit there is a trace in which twice as many requests are admitted, the first and
   last a window apart.
   */
  lemma TwiceIsReached(k: Key, limit: nat)
    requires limit > 0
    ensures var trace := BurstTrace(k, limit);
      && MonotoneTrace(trace) && trace[|trace| - 1].at - trace[0].at == 60000
      && AdmittedCount(trace, k, limit, 0, |trace|) == 2 * limit
  {
    var n, trace := 2 * limit, BurstTrace(k, limit);
    BurstPasses(limit, n);
    TimesOfBurst(k, limit, n);
    assert trace[..n] == trace && Burst(limit)[..n] == Burst(limit);
    CountsAgree(trace, k, limit, 0, n, Burst(limit), 0, n);
  }
}

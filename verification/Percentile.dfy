/** The queue's estimate: the nearest-rank 90th percentile of a window of samples. */
module Percentile {
  // ---- Sorting, as a specification ----

  function Insert(x: real, s: seq<real>): seq<real> {
    if s == [] || x <= s[0] then [x] + s else [s[0]] + Insert(x, s[1..])
  }

  function Sort(s: seq<real>): seq<real> {
    if s == [] then [] else Insert(s[0], Sort(s[1..]))
  }

  predicate Sorted(s: seq<real>) {
    forall i, j :: 0 <= i < j < |s| ==> s[i] <= s[j]
  }

  lemma {:induction false} InsertAdds(x: real, s: seq<real>)
    ensures multiset(Insert(x, s)) == multiset(s) + multiset{x}
  {
    if s == [] {
    } else {
      InsertAdds(x, s[1..]);
      assert s == [s[0]] + s[1..];
    }
  }

  lemma PrependSorted(y: real, s: seq<real>, m: multiset<real>)
    requires Sorted(s) && multiset(s) == m && forall z :: z in m ==> y <= z
    ensures Sorted([y] + s)
  {
    forall j | 0 <= j < |s| ensures y <= s[j] {
      assert s[j] in multiset(s);
    }
  }

  lemma {:induction false} InsertSorts(x: real, s: seq<real>)
    requires Sorted(s)
    ensures Sorted(Insert(x, s))
  {
    if s != [] && x > s[0] {
      assert forall i :: 0 <= i < |s[1..]| ==> s[1..][i] == s[i + 1];
      InsertSorts(x, s[1..]);
      InsertAdds(x, s[1..]);
      PrependSorted(s[0], Insert(x, s[1..]), multiset(s[1..]) + multiset{x});
    }
  }

  lemma {:induction false} SortSorts(s: seq<real>)
    ensures Sorted(Sort(s)) && multiset(Sort(s)) == multiset(s) && |Sort(s)| == |s|
  {
    if s == [] {
    } else {
      SortSorts(s[1..]);
      InsertSorts(s[0], Sort(s[1..]));
      InsertAdds(s[0], Sort(s[1..]));
      assert s == [s[0]] + s[1..];
      assert |multiset(Sort(s))| == |multiset(s)|;
    }
  }

  // ---- The percentile ----

  /** `Math.ceil(n * 0.9)`. */
  function Rank(n: nat): nat {
    (9 * n + 9) / 10
  }

  lemma RankInRange(n: nat)
    requires 1 <= n
    ensures 1 <= Rank(n) <= n && 10 * (Rank(n) - 1) < 9 * n <= 10 * Rank(n)
  {
  }

  /** `p90`: the code clamps the index to the last one before it reads. */
  function P90(values: seq<real>, fallback: real): real {
    if values == [] then fallback
    else
      SortSorts(values);
      RankInRange(|values|);
      var last := |values| - 1;
      Sort(values)[if Rank(|values|) - 1 < last then Rank(|values|) - 1 else last]
  }

  /** How many samples satisfy a bound. */
  function CountBelow(s: seq<real>, v: real): nat {
    if s == [] then 0 else (if s[0] < v then 1 else 0) + CountBelow(s[1..], v)
  }

  function CountUpTo(s: seq<real>, v: real): nat {
    if s == [] then 0 else (if s[0] <= v then 1 else 0) + CountUpTo(s[1..], v)
  }

  /** Nearest rank: at least nine tenths of the samples are at most v, fewer than that are below it. */
  ghost predicate NearestRank90(s: seq<real>, v: real) {
    v in s && 10 * CountUpTo(s, v) >= 9 * |s| && 10 * CountBelow(s, v) < 9 * |s|
  }

  lemma NoneBelow(s: seq<real>, v: real)
    requires forall i :: 0 <= i < |s| ==> v <= s[i]
    ensures CountBelow(s, v) == 0
  {
  }

  lemma {:induction false} SortedCounts(s: seq<real>, k: nat, v: real)
    requires Sorted(s) && k < |s| && s[k] == v
    ensures CountUpTo(s, v) >= k + 1 && CountBelow(s, v) <= k
  {
    assert forall i, j :: 0 <= i < j < |s[1..]| ==> s[1..][i] == s[i + 1] && s[1..][j] == s[j + 1];
    if k > 0 {
      SortedCounts(s[1..], k - 1, v);
    } else {
      NoneBelow(s, v);
    }
  }

  lemma CountsSplit(a: seq<real>, b: seq<real>, v: real)
    ensures CountUpTo(a + b, v) == CountUpTo(a, v) + CountUpTo(b, v)
    ensures CountBelow(a + b, v) == CountBelow(a, v) + CountBelow(b, v)
  {
    if a == [] {
      assert a + b == b;
    } else {
      assert (a + b)[1..] == a[1..] + b;
    }
  }

  lemma WithoutOne(t: seq<real>, k: nat, v: real)
    requires k < |t|
    ensures var r := t[..k] + t[k + 1..];
      && multiset(r) == multiset(t) - multiset{t[k]}
      && CountUpTo(t, v) == CountUpTo(r, v) + (if t[k] <= v then 1 else 0)
      && CountBelow(t, v) == CountBelow(r, v) + (if t[k] < v then 1 else 0)
  {
    var rest := [t[k]] + t[k + 1..];
    assert t == t[..k] + rest;
    assert rest[1..] == t[k + 1..];
    CountsSplit(t[..k], rest, v);
    CountsSplit(t[..k], t[k + 1..], v);
    assert multiset(t) == multiset(t[..k]) + multiset{t[k]} + multiset(t[k + 1..]);
  }

  /** Counting does not depend on the order of the samples. */
  lemma {:induction false} CountsOfMultiset(s: seq<real>, t: seq<real>, v: real)
    requires multiset(s) == multiset(t)
    ensures CountUpTo(s, v) == CountUpTo(t, v) && CountBelow(s, v) == CountBelow(t, v) && |s| == |t|
  {
    assert |multiset(s)| == |s| && |multiset(t)| == |t|;
    if s == [] {
    } else {
      assert s[0] in multiset(t);
      var k :| 0 <= k < |t| && t[k] == s[0];
      WithoutOne(t, k, v);
      WithoutOne(s, 0, v);
      assert s[..0] + s[0 + 1..] == s[1..];
      CountsOfMultiset(s[1..], t[..k] + t[k + 1..], v);
    }
  }

  lemma {:induction false} BelowIsUpToLess(s: seq<real>, v: real, w: real)
    requires v < w
    ensures CountUpTo(s, v) <= CountBelow(s, w)
  {
    if s == [] {
    } else {
      BelowIsUpToLess(s[1..], v, w);
    }
  }

  /** `p90` answers the nearest-rank 90th percentile of its samples. */
  lemma P90IsNearestRank(s: seq<real>, fallback: real)
    requires s != []
    ensures NearestRank90(s, P90(s, fallback))
  {
    SortSorts(s);
    RankInRange(|s|);
    var v := P90(s, fallback);
    assert v in multiset(Sort(s));
    SortedCounts(Sort(s), Rank(|s|) - 1, v);
    CountsOfMultiset(Sort(s), s, v);
  }

  /** There is one nearest-rank percentile. */
  lemma NearestRankIsUnique(s: seq<real>, v: real, w: real)
    requires NearestRank90(s, v) && NearestRank90(s, w)
    ensures v == w
  {
    if v < w {
      BelowIsUpToLess(s, v, w);
    } else if w < v {
      BelowIsUpToLess(s, w, v);
    }
  }

  /** The estimate depends on which samples there are, not on their order. */
  lemma P90IgnoresOrder(s: seq<real>, t: seq<real>, fallback: real)
    requires multiset(s) == multiset(t)
    ensures P90(s, fallback) == P90(t, fallback)
  {
    if s == [] {
      assert |multiset(t)| == 0;
    } else {
      assert s[0] in multiset(t);
      P90IsNearestRank(s, fallback);
      P90IsNearestRank(t, fallback);
      var v := P90(t, fallback);
      CountsOfMultiset(s, t, v);
      assert v in multiset(s);
      NearestRankIsUnique(s, P90(s, fallback), v);
    }
  }
}

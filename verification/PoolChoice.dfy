/** Which worker `acquire` reuses: a choice, and the filter and sort by which the source makes it. */
module PoolChoice {
  import opened Wrappers
  import opened PoolSpec

  ghost predicate LeastLoaded<W>(c: Config, recs: map<W, Worker>, ws: seq<W>, b: Backend, p: Profile, k: nat)
    requires forall w :: w in ws ==> w in recs
    requires k < |ws|
  {
    && Eligible(c, recs[ws[k]], b, p)
    && forall i :: 0 <= i < |ws| && Eligible(c, recs[ws[i]], b, p) ==>
         recs[ws[k]].active <= recs[ws[i]].active && (i < k ==> recs[ws[k]].active < recs[ws[i]].active)
  }

  /** `acquire` reuses the least-loaded eligible worker, the earliest listed one on ties. */
  lemma {:induction false} SelectsLeastLoaded<W>(c: Config, recs: map<W, Worker>, ws: seq<W>, b: Backend, p: Profile)
    requires forall w :: w in ws ==> w in recs
    ensures Select(c, recs, ws, b, p).None? <==> forall i :: 0 <= i < |ws| ==> !Eligible(c, recs[ws[i]], b, p)
    ensures Select(c, recs, ws, b, p).Some? ==>
      exists k :: 0 <= k < |ws| && ws[k] == Select(c, recs, ws, b, p).value && LeastLoaded(c, recs, ws, b, p, k)
  {
    if ws == [] {
    } else {
      SelectsLeastLoaded(c, recs, ws[1..], b, p);
      var rest := Select(c, recs, ws[1..], b, p);
      assert forall i :: 1 <= i < |ws| ==> ws[i] == ws[1..][i - 1];
      if rest.Some? {
        var k :| 0 <= k < |ws[1..]| && ws[1..][k] == rest.value && LeastLoaded(c, recs, ws[1..], b, p, k);
        assert forall i :: 0 <= i < |ws[1..]| && Eligible(c, recs[ws[1..][i]], b, p) ==>
          && recs[ws[1..][k]].active <= recs[ws[1..][i]].active
          && (i < k ==> recs[ws[1..][k]].active < recs[ws[1..][i]].active);
        if Select(c, recs, ws, b, p) == rest && !(Eligible(c, recs[ws[0]], b, p) && rest.value == ws[0]) {
          assert LeastLoaded(c, recs, ws, b, p, k + 1);
        } else {
          assert LeastLoaded(c, recs, ws, b, p, 0);
        }
      } else if Eligible(c, recs[ws[0]], b, p) {
        assert LeastLoaded(c, recs, ws, b, p, 0);
      }
    }
  }

  // ---- Filter and sort ----

  /** The eligible workers, in the order of the list. */
  function Available<W(==)>(c: Config, recs: map<W, Worker>, ws: seq<W>, b: Backend, p: Profile): (r: seq<W>)
    requires forall w :: w in ws ==> w in recs
    ensures forall w :: w in r ==> w in ws
  {
    if ws == [] then []
    else (if Eligible(c, recs[ws[0]], b, p) then [ws[0]] else []) + Available(c, recs, ws[1..], b, p)
  }

  /** The workers with n open contexts, in the order of the list. */
  function OfActive<W(==)>(recs: map<W, Worker>, ws: seq<W>, n: int): seq<W> {
    if ws == [] then []
    else (if ws[0] in recs && recs[ws[0]].active == n then [ws[0]] else []) + OfActive(recs, ws[1..], n)
  }

  /** Fewest contexts first, and those with equally many in the order they had. */
  ghost predicate IsStableSort<W>(recs: map<W, Worker>, ws: seq<W>, sorted: seq<W>) {
    && (forall w :: w in sorted ==> w in recs)
    && (forall i, j :: 0 <= i < j < |sorted| ==> recs[sorted[i]].active <= recs[sorted[j]].active)
    && (forall n :: OfActive(recs, sorted, n) == OfActive(recs, ws, n))
  }

  lemma {:induction false} OfActiveMembers<W>(recs: map<W, Worker>, ws: seq<W>, w: W)
    requires w in ws && w in recs
    ensures OfActive(recs, ws, recs[w].active) != []
  {
    if ws[0] != w {
      OfActiveMembers(recs, ws[1..], w);
    }
  }

  lemma {:induction false} OfActiveSome<W>(recs: map<W, Worker>, ws: seq<W>, n: int) returns (k: nat)
    requires OfActive(recs, ws, n) != []
    ensures k < |ws| && ws[k] in recs && recs[ws[k]].active == n
  {
    if ws[0] in recs && recs[ws[0]].active == n {
      k := 0;
    } else {
      k := OfActiveSome(recs, ws[1..], n);
      k := k + 1;
    }
  }

  /** The choice is the first of the available workers with the fewest contexts. */
  lemma {:induction false} SelectIsFirstOfFewest<W>(c: Config, recs: map<W, Worker>, ws: seq<W>, b: Backend, p: Profile)
    requires forall w :: w in ws ==> w in recs
    ensures var r, available := Select(c, recs, ws, b, p), Available(c, recs, ws, b, p);
      && (r.None? <==> available == [])
      && (r.Some? ==>
            && OfActive(recs, available, recs[r.value].active) != []
            && OfActive(recs, available, recs[r.value].active)[0] == r.value
            && forall w :: w in available ==> recs[r.value].active <= recs[w].active)
  {
    if ws == [] {
    } else {
      SelectIsFirstOfFewest(c, recs, ws[1..], b, p);
      var rest, available := Available(c, recs, ws[1..], b, p), Available(c, recs, ws, b, p);
      if Eligible(c, recs[ws[0]], b, p) {
        assert available == [ws[0]] + rest && available[1..] == rest;
      } else {
        assert available == rest;
      }
    }
  }

  /** Whatever stable sort of the filtered list one takes, its first element is the choice. */
  lemma StableSortChooses<W>(c: Config, recs: map<W, Worker>, ws: seq<W>, b: Backend, p: Profile, sorted: seq<W>)
    requires forall w :: w in ws ==> w in recs
    requires IsStableSort(recs, Available(c, recs, ws, b, p), sorted)
    ensures Select(c, recs, ws, b, p) == if sorted == [] then None else Some(sorted[0])
  {
    var r, available := Select(c, recs, ws, b, p), Available(c, recs, ws, b, p);
    SelectIsFirstOfFewest(c, recs, ws, b, p);
    if sorted != [] {
      var n := recs[sorted[0]].active;
      OfActiveMembers(recs, sorted, sorted[0]);
      assert OfActive(recs, sorted, n)[0] == sorted[0];
      var k := OfActiveSome(recs, available, n);
      assert available[k] in available;
    }
    if r.Some? {
      var k := OfActiveSome(recs, sorted, recs[r.value].active);
    }
  }

  // ---- A stable sort by insertion ----

  lemma {:induction false} OfActiveConcat<W>(recs: map<W, Worker>, a: seq<W>, b: seq<W>, n: int)
    ensures OfActive(recs, a + b, n) == OfActive(recs, a, n) + OfActive(recs, b, n)
  {
    if a == [] {
      assert a + b == b;
    } else {
      assert (a + b)[1..] == a[1..] + b;
      OfActiveConcat(recs, a[1..], b, n);
    }
  }

  lemma {:induction false} NoneOfActive<W>(recs: map<W, Worker>, ws: seq<W>, n: int)
    requires forall i :: 0 <= i < |ws| ==> ws[i] in recs && recs[ws[i]].active != n
    ensures OfActive(recs, ws, n) == []
  {
    if ws == [] {
    } else {
      assert forall i :: 0 <= i < |ws[1..]| ==> ws[1..][i] == ws[i + 1];
      NoneOfActive(recs, ws[1..], n);
    }
  }

  /** At each number of contexts, w put after `head` comes where it would come in front of all. */
  lemma InsertedOfActive<W>(recs: map<W, Worker>, head: seq<W>, w: W, tail: seq<W>, n: int)
    requires w in recs && forall i :: 0 <= i < |head| ==> head[i] in recs && recs[head[i]].active < recs[w].active
    ensures OfActive(recs, head + [w] + tail, n) == OfActive(recs, [w], n) + OfActive(recs, head + tail, n)
  {
    OfActiveConcat(recs, head, tail, n);
    OfActiveConcat(recs, head + [w], tail, n);
    OfActiveConcat(recs, head, [w], n);
    if n == recs[w].active {
      NoneOfActive(recs, head, n);
    }
  }

  lemma InsertedSorted<W>(recs: map<W, Worker>, sorted: seq<W>, w: W, j: nat)
    requires w in recs && j <= |sorted| && forall x :: x in sorted ==> x in recs
    requires forall i, k :: 0 <= i < k < |sorted| ==> recs[sorted[i]].active <= recs[sorted[k]].active
    requires forall i :: 0 <= i < j ==> recs[sorted[i]].active < recs[w].active
    requires j < |sorted| ==> recs[w].active <= recs[sorted[j]].active
    ensures var more := sorted[..j] + [w] + sorted[j..];
      && (forall x :: x in more ==> x in recs)
      && forall i, k :: 0 <= i < k < |more| ==> recs[more[i]].active <= recs[more[k]].active
  {
    var more := sorted[..j] + [w] + sorted[j..];
    assert forall i :: 0 <= i < |more| ==> more[i] == if i < j then sorted[i] else if i == j then w else sorted[i - 1];
  }

  /** A worker goes before the first one that has no fewer contexts. */
  lemma InsertionIsStable<W>(recs: map<W, Worker>, ws: seq<W>, sorted: seq<W>, w: W, j: nat)
    requires IsStableSort(recs, ws, sorted) && w in recs && j <= |sorted|
    requires forall i :: 0 <= i < j ==> recs[sorted[i]].active < recs[w].active
    requires j < |sorted| ==> recs[w].active <= recs[sorted[j]].active
    ensures IsStableSort(recs, [w] + ws, sorted[..j] + [w] + sorted[j..])
  {
    InsertedSorted(recs, sorted, w, j);
    assert sorted == sorted[..j] + sorted[j..];
    forall n ensures OfActive(recs, sorted[..j] + [w] + sorted[j..], n) == OfActive(recs, [w] + ws, n) {
      InsertedOfActive(recs, sorted[..j], w, sorted[j..], n);
      OfActiveConcat(recs, [w], ws, n);
    }
  }
}

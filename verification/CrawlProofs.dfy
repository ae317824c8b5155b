/** What the crawl's loop keeps, and why its breadth-first order finds shortest distances. */
module CrawlProofs {
  import opened Wrappers
  import opened SiteGraph

  /** What `seen` holds: pages by URL, and views by URL under a prefix of their own. */
  datatype Key = PageKey(url: Url) | ViewKey(url: Url)

  /**
   The loop's variables, then its history: the pages visited with their distances, and the deepest
   of these.
   */
  datatype Progress = Progress(
    seen: set<Key>,
    results: seq<MappedUrl>,
    pending: seq<MappedUrl>,
    dist: map<Url, nat>,
    level: nat)

  // ---- The queue ----

  ghost predicate Queued(pending: seq<MappedUrl>, u: Url, depth: nat) {
    exists i :: 0 <= i < |pending| && pending[i].url == u && pending[i].depth <= depth
  }

  lemma QueuedMore(pending: seq<MappedUrl>, more: seq<MappedUrl>, u: Url, depth: nat)
    requires Queued(pending, u, depth) && pending <= more
    ensures Queued(more, u, depth)
  {
    var i :| 0 <= i < |pending| && pending[i].url == u && pending[i].depth <= depth;
    assert more[i] == pending[i];
  }

  /** Queued items are pages, reached as deep as they say, no deeper than one below `level`. */
  ghost predicate PendingInv(p: Plan, pending: seq<MappedUrl>, level: nat) {
    && (forall i :: 0 <= i < |pending| ==>
          && level <= pending[i].depth <= level + 1 && pending[i].depth <= p.Deepest()
          && ReachIn(p, pending[i].url, pending[i].depth)
          && p.site.normalize(pending[i].url) == pending[i].url
          && !pending[i].source.InteractiveView?)
    && (forall i, j :: 0 <= i < j < |pending| ==> pending[i].depth <= pending[j].depth)
  }

  /** The pages visited so far, at their shortest distances; all were safe. */
  ghost predicate VisitedInv(p: Plan, seen: set<Key>, dist: map<Url, nat>, level: nat) {
    && (forall u :: PageKey(u) in seen <==> u in dist)
    && (forall u :: u in dist ==>
          dist[u] <= level && Shortest(p, u, dist[u]) && p.site.normalize(u) == u && p.site.safe(u))
  }

  /** The page was visited and is expanded. */
  ghost predicate Expanded(p: Plan, dist: map<Url, nat>, u: Url) {
    u in dist && p.site.included(u) && dist[u] < p.maxDepth
  }

  /** The successors of a page: visited, or waiting at most one level below it. */
  ghost predicate Covered(p: Plan, dist: map<Url, nat>, pending: seq<MappedUrl>, u: Url)
    requires u in dist
  {
    forall v :: Edge(p.site, u, v) ==> v in dist || Queued(pending, v, dist[u] + 1)
  }

  /** Everything closer to the seed than the level was visited. */
  ghost predicate LevelComplete(p: Plan, dist: map<Url, nat>, level: nat) {
    forall u, n: nat :: n < level && ReachIn(p, u, n) ==> u in dist
  }

  ghost predicate SeedInv(p: Plan, dist: map<Url, nat>, pending: seq<MappedUrl>) {
    p.seed in dist || Queued(pending, p.seed, 0)
  }

  ghost predicate ClosureInv(p: Plan, dist: map<Url, nat>, pending: seq<MappedUrl>) {
    SeedInv(p, dist, pending) && forall u :: Expanded(p, dist, u) ==> Covered(p, dist, pending, u)
  }

  /** Views are keyed exactly when they are listed. */
  ghost predicate ViewKeysInv(seen: set<Key>, results: seq<MappedUrl>) {
    forall v :: ViewKey(v) in seen <==> exists i :: ViewAt(results, i, v)
  }

  ghost predicate ResultsInv(p: Plan, dist: map<Url, nat>, results: seq<MappedUrl>, level: nat) {
    && (forall i :: 0 <= i < |results| ==>
          if results[i].source.InteractiveView?
          then '#' in results[i].url && ViewOfPage(p, results, i)
          else
            && results[i].url in dist && dist[results[i].url] == results[i].depth
            && p.site.included(results[i].url) && '#' !in results[i].url)
    && (forall i :: 0 <= i < |results| ==> results[i].depth <= level)
    && InOrder(results)
    && (forall u :: u in dist && p.site.included(u) ==> exists i :: PageAt(results, i, u))
  }

  /** Whatever is closer to the seed than everything in the queue has been visited. */
  lemma {:induction false} CloserIsVisited(p: Plan, s: Progress, d: nat, u: Url, k: nat)
    requires VisitedInv(p, s.seen, s.dist, s.level) && ClosureInv(p, s.dist, s.pending)
    requires forall i :: 0 <= i < |s.pending| ==> d <= s.pending[i].depth
    requires k < d <= p.Deepest() + 1 && ReachIn(p, u, k)
    ensures u in s.dist && s.dist[u] <= k
    decreases k
  {
    if k > 0 {
      var v :| ReachIn(p, v, k - 1) && p.site.included(v) && Edge(p.site, v, u);
      CloserIsVisited(p, s, d, v, k - 1);
      assert Covered(p, s.dist, s.pending, v);
    }
    assert Shortest(p, u, s.dist[u]);
  }

  /** The first item of the queue, if its URL is new, is at its shortest distance. */
  lemma FrontIsShortest(p: Plan, s: Progress)
    requires VisitedInv(p, s.seen, s.dist, s.level) && ClosureInv(p, s.dist, s.pending)
    requires PendingInv(p, s.pending, s.level) && s.pending != []
    requires s.pending[0].url !in s.dist
    ensures Shortest(p, s.pending[0].url, s.pending[0].depth)
  {
    var c := s.pending[0];
    forall k: nat | k < c.depth ensures !ReachIn(p, c.url, k) {
      if ReachIn(p, c.url, k) {
        CloserIsVisited(p, s, c.depth, c.url, k);
      }
    }
  }

  // ---- The links and controls of one page ----

  /** `more` continues `pending` with successors of a page, all at the same depth. */
  ghost predicate Extends(site: Site, page: Page, pending: seq<MappedUrl>, more: seq<MappedUrl>, depth: nat) {
    && pending <= more
    && forall i :: |pending| <= i < |more| ==>
         more[i].depth == depth && Follows(site, page, more[i].url) && !more[i].source.InteractiveView?
  }

  /** A view of the current page. */
  ghost predicate IsView(site: Site, current: MappedUrl, page: Page, m: MappedUrl) {
    && m.source.InteractiveView? && m.depth == current.depth
    && exists id :: Offers(site, page, id) && m.url == ViewUrl(current.url, id)
  }

  /** Views that the page offers, added at the end, each new to `seen`. */
  ghost predicate AddsViews(site: Site, current: MappedUrl, page: Page, results: seq<MappedUrl>,
                            results': seq<MappedUrl>) {
    && results <= results'
    && (forall i :: |results| <= i < |results'| ==> IsView(site, current, page, results'[i]))
    && (forall i, j :: |results| <= i < j < |results'| ==> results'[i].url != results'[j].url)
  }

  /** v was added at place i, past the first n results. */
  ghost predicate AddedAt(n: nat, results: seq<MappedUrl>, i: int, v: Url) {
    n <= i < |results| && results[i].url == v
  }

  /** `seen` grows by the keys of the added views. */
  ghost predicate KeysViews(seen: set<Key>, results: seq<MappedUrl>, seen': set<Key>, results': seq<MappedUrl>) {
    && (forall u :: PageKey(u) in seen' <==> PageKey(u) in seen)
    && (forall i :: |results| <= i < |results'| ==> ViewKey(results'[i].url) !in seen)
    && (forall v :: ViewKey(v) in seen' <==> ViewKey(v) in seen || exists i :: AddedAt(|results|, results', i, v))
  }

  // ---- The crawl ----

  ghost predicate Answered(p: Plan, dist: map<Url, nat>) {
    forall u :: Expanded(p, dist, u) ==> !p.site.fetch(u).Failed?
  }

  /** The whole state of the loop. */
  ghost predicate CrawlInv(p: Plan, s: Progress) {
    && s.level <= p.Deepest()
    && VisitedInv(p, s.seen, s.dist, s.level)
    && PendingInv(p, s.pending, s.level)
    && ResultsInv(p, s.dist, s.results, s.level)
    && ViewKeysInv(s.seen, s.results)
    && Answered(p, s.dist)
    && LevelComplete(p, s.dist, s.level)
    && ViewsListedBefore(p, s.results)
    && |s.results| <= Max(0, p.maximum)
    && (|s.results| < p.maximum ==> ClosureInv(p, s.dist, s.pending) && ViewsListed(p, s.results))
  }

  lemma DroppedFront(pending: seq<MappedUrl>, u: Url, d: nat)
    requires pending != [] && Queued(pending, u, d) && u != pending[0].url
    ensures Queued(pending[1..], u, d)
  {
    var i :| 0 <= i < |pending| && pending[i].url == u && pending[i].depth <= d;
    assert pending[1..][i - 1] == pending[i];
  }

  /** Taking a visited URL off the queue uncovers nothing. */
  lemma StillCovered(p: Plan, dist: map<Url, nat>, pending: seq<MappedUrl>, u: Url)
    requires pending != [] && pending[0].url in dist && u in dist && Covered(p, dist, pending, u)
    ensures Covered(p, dist, pending[1..], u)
  {
    forall v | Edge(p.site, u, v) && v !in dist ensures Queued(pending[1..], v, dist[u] + 1) {
      DroppedFront(pending, v, dist[u] + 1);
    }
  }

  /** Nothing is taken off the queue before the seed. */
  lemma SeedComesFirst(p: Plan, s: Progress)
    requires PendingInv(p, s.pending, s.level) && SeedInv(p, s.dist, s.pending) && s.pending != []
    ensures p.seed in s.dist || s.pending[0].url == p.seed
  {
  }

  /** The front of the queue was visited before. */
  lemma SkipFront(p: Plan, s: Progress)
    requires CrawlInv(p, s) && s.pending != [] && s.pending[0].url in s.dist && |s.results| < p.maximum
    ensures CrawlInv(p, s.(pending := s.pending[1..]))
  {
    SeedComesFirst(p, s);
    forall u | Expanded(p, s.dist, u) ensures Covered(p, s.dist, s.pending[1..], u) {
      StillCovered(p, s.dist, s.pending, u);
    }
  }

  /** The front of the queue is taken off and noted as visited. */
  function Visited(s: Progress): Progress
    requires s.pending != []
  {
    var c := s.pending[0];
    Progress(s.seen + {PageKey(c.url)}, s.results, s.pending[1..], s.dist[c.url := c.depth], c.depth)
  }

  /** A new page that passes the filters is listed. */
  function Listed(s: Progress): Progress
    requires s.pending != []
  {
    Visited(s).(results := s.results + [s.pending[0]])
  }

  lemma VisitQueue(p: Plan, s: Progress)
    requires CrawlInv(p, s) && s.pending != [] && s.pending[0].url !in s.dist && |s.results| < p.maximum
    ensures p.seed in Visited(s).dist
    ensures forall u :: Expanded(p, s.dist, u) ==> Covered(p, Visited(s).dist, Visited(s).pending, u)
  {
    var c, v := s.pending[0], Visited(s);
    SeedComesFirst(p, s);
    forall u | Expanded(p, s.dist, u) ensures Covered(p, v.dist, v.pending, u) {
      assert Covered(p, s.dist, s.pending, u);
      forall w | Edge(p.site, u, w) && w !in v.dist ensures Queued(v.pending, w, v.dist[u] + 1) {
        DroppedFront(s.pending, w, s.dist[u] + 1);
      }
    }
  }

  /** The front of the queue is new and safe: it is visited at its shortest distance. */
  lemma VisitFront(p: Plan, s: Progress)
    requires p.site.Valid() && CrawlInv(p, s) && |s.results| < p.maximum
    requires s.pending != [] && s.pending[0].url !in s.dist && p.site.safe(s.pending[0].url)
    ensures var v := Visited(s);
      && v.level <= p.Deepest() && VisitedInv(p, v.seen, v.dist, v.level) && PendingInv(p, v.pending, v.level)
      && LevelComplete(p, v.dist, v.level)
  {
    FrontIsShortest(p, s);
    forall u, n: nat | n < Visited(s).level && ReachIn(p, u, n) ensures u in s.dist {
      CloserIsVisited(p, s, s.pending[0].depth, u, n);
    }
  }

  /** Everything a view needs of the results before it stays as it was when they grow. */
  lemma GrownKeepsViews(p: Plan, results: seq<MappedUrl>, more: seq<MappedUrl>)
    requires results <= more
    ensures forall i :: ViewOfPage(p, results, i) ==> ViewOfPage(p, more, i)
    ensures forall i, v :: ViewAt(results, i, v) ==> ViewAt(more, i, v)
    ensures forall i, u :: PageAt(results, i, u) ==> PageAt(more, i, u)
  {
    forall i | ViewOfPage(p, results, i) ensures ViewOfPage(p, more, i) {
      var j, id :| OfferedBy(p, results, j, id) && j < i
        && results[j].depth == results[i].depth && results[i].url == ViewUrl(results[j].url, id);
      assert OfferedBy(p, more, j, id) && more[i] == results[i];
    }
  }

  lemma ListPage(p: Plan, s: Progress)
    requires p.site.Valid() && CrawlInv(p, s) && |s.results| < p.maximum
    requires s.pending != [] && s.pending[0].url !in s.dist && p.site.included(s.pending[0].url)
    ensures ResultsInv(p, Listed(s).dist, Listed(s).results, Listed(s).level)
  {
    var c, more := s.pending[0], Listed(s).results;
    assert '#' !in p.site.normalize(c.url);
    GrownKeepsViews(p, s.results, more);
    assert PageAt(more, |s.results|, c.url);
    forall i | 0 <= i < |s.results|
      ensures more[i] == s.results[i] && more[i].url != c.url && more[i].depth <= c.depth
    {
    }
  }

  lemma SkipPage(p: Plan, s: Progress)
    requires CrawlInv(p, s) && |s.results| < p.maximum
    requires s.pending != [] && s.pending[0].url !in s.dist && !p.site.included(s.pending[0].url)
    ensures ResultsInv(p, Visited(s).dist, s.results, Visited(s).level)
  {
  }

  /** A page listed last adds no view and no key. */
  lemma PageAddsNoView(seen: set<Key>, results: seq<MappedUrl>, c: MappedUrl)
    requires ViewKeysInv(seen, results) && !c.source.InteractiveView?
    ensures ViewKeysInv(seen + {PageKey(c.url)}, results) && ViewKeysInv(seen + {PageKey(c.url)}, results + [c])
  {
    forall v, i ensures ViewAt(results + [c], i, v) <==> ViewAt(results, i, v) {
    }
  }

  /** Only page c of the results may lack views. */
  ghost predicate ViewsListedBut(p: Plan, results: seq<MappedUrl>, c: MappedUrl) {
    forall j, id :: OfferedBy(p, results, j, id) && results[j].url != c.url ==>
      exists i :: ViewAt(results, i, ViewUrl(results[j].url, id))
  }

  /** The loop between the listing of page c and the end of its iteration: only c may be uncovered. */
  ghost predicate Expanding(p: Plan, s: Progress, c: MappedUrl) {
    && c.depth == s.level <= p.Deepest() && p.site.included(c.url) && !c.source.InteractiveView?
    && VisitedInv(p, s.seen, s.dist, s.level) && c.url in s.dist && s.dist[c.url] == c.depth
    && PendingInv(p, s.pending, s.level)
    && ResultsInv(p, s.dist, s.results, s.level)
    && ViewKeysInv(s.seen, s.results)
    && 0 < |s.results| <= p.maximum && s.results[|s.results| - 1] == c
    && p.seed in s.dist
    && LevelComplete(p, s.dist, s.level)
    && ViewsListedBut(p, s.results, c)
    && forall u :: Expanded(p, s.dist, u) && u != c.url ==> Covered(p, s.dist, s.pending, u) && !p.site.fetch(u).Failed?
  }

  lemma EnterExcluded(p: Plan, s: Progress)
    requires p.site.Valid() && CrawlInv(p, s) && |s.results| < p.maximum
    requires s.pending != [] && s.pending[0].url !in s.dist && p.site.safe(s.pending[0].url)
    requires !p.site.included(s.pending[0].url)
    ensures CrawlInv(p, Visited(s))
  {
    var c, v := s.pending[0], Visited(s);
    VisitFront(p, s);
    VisitQueue(p, s);
    SkipPage(p, s);
    PageAddsNoView(s.seen, s.results, c);
    assert forall u :: Expanded(p, v.dist, u) ==> Expanded(p, s.dist, u);
  }

  lemma ListedViews(p: Plan, results: seq<MappedUrl>, c: MappedUrl)
    requires ViewsListed(p, results)
    ensures ViewsListedBut(p, results + [c], c)
  {
    var more := results + [c];
    GrownKeepsViews(p, results, more);
    forall j, id | OfferedBy(p, more, j, id) && more[j].url != c.url
      ensures exists i :: ViewAt(more, i, ViewUrl(more[j].url, id))
    {
      assert OfferedBy(p, results, j, id) && results[j] == more[j];
      var i :| ViewAt(results, i, ViewUrl(results[j].url, id));
      assert ViewAt(more, i, ViewUrl(more[j].url, id));
    }
  }

  lemma EnterIncluded(p: Plan, s: Progress)
    requires p.site.Valid() && CrawlInv(p, s) && |s.results| < p.maximum
    requires s.pending != [] && s.pending[0].url !in s.dist && p.site.safe(s.pending[0].url)
    requires p.site.included(s.pending[0].url)
    ensures Expanding(p, Listed(s), s.pending[0])
  {
    var c, v := s.pending[0], Listed(s);
    VisitFront(p, s);
    VisitQueue(p, s);
    ListPage(p, s);
    PageAddsNoView(s.seen, s.results, c);
    ListedViews(p, s.results, c);
    assert forall u :: Expanded(p, v.dist, u) && u != c.url ==> Expanded(p, s.dist, u);
  }

  /** Queueing the successors of the page just visited. */
  lemma QueueSuccessors(p: Plan, dist: map<Url, nat>, pending: seq<MappedUrl>, more: seq<MappedUrl>, c: MappedUrl)
    requires p.site.Valid() && PendingInv(p, pending, c.depth) && c.depth < p.maxDepth
    requires ReachIn(p, c.url, c.depth) && p.site.included(c.url)
    requires Extends(p.site, p.site.fetch(c.url), pending, more, c.depth + 1)
    ensures PendingInv(p, more, c.depth)
    ensures forall u :: u in dist && Covered(p, dist, pending, u) ==> Covered(p, dist, more, u)
    ensures forall u, d :: Queued(pending, u, d) ==> Queued(more, u, d)
  {
    forall u, d | Queued(pending, u, d) ensures Queued(more, u, d) {
      QueuedMore(pending, more, u, d);
    }
    forall i | |pending| <= i < |more|
      ensures ReachIn(p, more[i].url, more[i].depth) && p.site.normalize(more[i].url) == more[i].url
    {
      assert Edge(p.site, c.url, more[i].url);
    }
    assert forall i :: 0 <= i < |pending| ==> more[i] == pending[i];
  }

  lemma QueueExpanding(p: Plan, s: Progress, more: seq<MappedUrl>, c: MappedUrl)
    requires p.site.Valid() && Expanding(p, s, c) && c.depth < p.maxDepth
    requires Extends(p.site, p.site.fetch(c.url), s.pending, more, c.depth + 1)
    ensures Expanding(p, s.(pending := more), c)
  {
    QueueSuccessors(p, s.dist, s.pending, more, c);
  }

  /** With every link and route of the page queued or visited, the page is covered. */
  lemma PageCovered(p: Plan, s: Progress, links: seq<MappedUrl>, more: seq<MappedUrl>, u: Url)
    requires VisitedInv(p, s.seen, s.dist, s.level) && u in s.dist && p.site.fetch(u).Html? && links <= more
    requires forall l :: l in p.site.fetch(u).links && FollowsLink(p.site, l) && PageKey(l.value) !in s.seen ==>
      Queued(links, p.site.normalize(l.value), s.dist[u] + 1)
    requires forall k :: k in p.site.fetch(u).controls && FollowsControl(p.site, k) ==>
      Queued(more, p.site.normalize(k.target.href.value), s.dist[u] + 1)
    ensures Covered(p, s.dist, more, u)
  {
    var page := p.site.fetch(u);
    forall v | Edge(p.site, u, v) ensures v in s.dist || Queued(more, v, s.dist[u] + 1) {
      if l :| l in page.links && FollowsLink(p.site, l) && v == p.site.normalize(l.value) {
        if PageKey(l.value) !in s.seen {
          QueuedMore(links, more, v, s.dist[u] + 1);
        }
      } else {
        var k :| k in page.controls && FollowsControl(p.site, k) && v == p.site.normalize(k.target.href.value);
      }
    }
  }

  lemma ViewsFollow(p: Plan, s: Progress, c: MappedUrl, results': seq<MappedUrl>)
    requires Expanding(p, s, c) && c.depth < p.maxDepth
    requires AddsViews(p.site, c, p.site.fetch(c.url), s.results, results')
    ensures forall i :: |s.results| <= i < |results'| ==> '#' in results'[i].url && ViewOfPage(p, results', i)
  {
    var n := |s.results|;
    forall i | n <= i < |results'| ensures '#' in results'[i].url && ViewOfPage(p, results', i) {
      assert IsView(p.site, c, p.site.fetch(c.url), results'[i]);
      var id :| Offers(p.site, p.site.fetch(c.url), id) && results'[i].url == ViewUrl(c.url, id);
      assert results'[n - 1] == c;
      assert OfferedBy(p, results', n - 1, id);
      assert results'[i].url[|c.url|] == '#';
    }
  }

  lemma ViewsAreNew(p: Plan, s: Progress, c: MappedUrl, seen': set<Key>, results': seq<MappedUrl>)
    requires Expanding(p, s, c)
    requires AddsViews(p.site, c, p.site.fetch(c.url), s.results, results')
    requires KeysViews(s.seen, s.results, seen', results')
    requires forall i :: |s.results| <= i < |results'| ==> '#' in results'[i].url
    ensures InOrder(results') && ViewKeysInv(seen', results')
  {
    var n := |s.results|;
    forall v ensures ViewKey(v) in seen' <==> exists i :: ViewAt(results', i, v) {
      if i :| ViewAt(results', i, v) {
        assert i < n ==> ViewAt(s.results, i, v);
        assert i >= n ==> AddedAt(n, results', i, v);
      }
      if i :| ViewAt(s.results, i, v) {
        assert ViewAt(results', i, v);
      }
      if i :| AddedAt(n, results', i, v) {
        assert ViewAt(results', i, v);
      }
    }
    forall i, j | 0 <= i < n <= j < |results'| ensures results'[i].url != results'[j].url {
      assert results'[i] == s.results[i];
      assert s.results[i].source.InteractiveView? ==> ViewAt(s.results, i, s.results[i].url);
    }
  }

  /** The views of page c are listed after it, under keys of their own. */
  lemma ListViews(p: Plan, s: Progress, c: MappedUrl, seen': set<Key>, results': seq<MappedUrl>)
    requires Expanding(p, s, c) && c.depth < p.maxDepth && |results'| <= p.maximum
    requires AddsViews(p.site, c, p.site.fetch(c.url), s.results, results')
    requires KeysViews(s.seen, s.results, seen', results')
    ensures ResultsInv(p, s.dist, results', s.level) && ViewKeysInv(seen', results')
  {
    GrownKeepsViews(p, s.results, results');
    ViewsFollow(p, s, c, results');
    ViewsAreNew(p, s, c, seen', results');
  }

  lemma AllViewsListed(p: Plan, s: Progress, c: MappedUrl, seen': set<Key>, results': seq<MappedUrl>)
    requires Expanding(p, s, c) && ViewKeysInv(seen', results')
    requires AddsViews(p.site, c, p.site.fetch(c.url), s.results, results')
    requires forall id :: Offers(p.site, p.site.fetch(c.url), id) ==> ViewKey(ViewUrl(c.url, id)) in seen'
    ensures ViewsListed(p, results')
  {
    forall j, id | OfferedBy(p, results', j, id) ensures exists i :: ViewAt(results', i, ViewUrl(results'[j].url, id)) {
      assert j < |s.results| && results'[j] == s.results[j];
      assert OfferedBy(p, s.results, j, id);
      if results'[j].url == c.url {
        assert ViewKey(ViewUrl(c.url, id)) in seen';
      } else {
        var i :| ViewAt(s.results, i, ViewUrl(s.results[j].url, id));
        assert ViewAt(results', i, ViewUrl(s.results[j].url, id));
      }
    }
  }

  lemma AllCovered(p: Plan, s: Progress, c: MappedUrl)
    requires Expanding(p, s, c) && (c.depth < p.maxDepth ==> Covered(p, s.dist, s.pending, c.url))
    ensures ClosureInv(p, s.dist, s.pending)
  {
  }

  lemma AllAnswered(p: Plan, s: Progress, c: MappedUrl)
    requires Expanding(p, s, c) && (c.depth < p.maxDepth ==> !p.site.fetch(c.url).Failed?)
    ensures Answered(p, s.dist)
  {
  }

  /** Only the last page may lack views, when only views were added after it. */
  lemma EarlierViewsListed(p: Plan, results: seq<MappedUrl>, c: MappedUrl, results': seq<MappedUrl>)
    requires InOrder(results) && results != [] && results[|results| - 1] == c && ViewsListedBut(p, results, c)
    requires results <= results'
    requires forall i :: |results| <= i < |results'| ==> results'[i].source.InteractiveView?
    ensures ViewsListedBefore(p, results')
  {
    forall j, id | OfferedBy(p, results', j, id) && PageAfter(results', j)
      ensures exists i :: ViewAt(results', i, ViewUrl(results'[j].url, id))
    {
      var k :| 0 <= k < |results'| && j < k && !results'[k].source.InteractiveView?;
      assert k < |results| && results'[j] == results[j];
      assert OfferedBy(p, results, j, id) && results[j].url != c.url;
      var i :| ViewAt(results, i, ViewUrl(results[j].url, id));
      assert ViewAt(results', i, ViewUrl(results[j].url, id));
    }
  }

  /** A page at the depth limit, or without HTML, has nothing to expand. */
  lemma NothingToExpand(p: Plan, s: Progress, c: MappedUrl)
    requires Expanding(p, s, c) && (c.depth >= p.maxDepth || p.site.fetch(c.url).NoHtml?)
    ensures CrawlInv(p, s)
  {
    AllCovered(p, s, c);
    AllAnswered(p, s, c);
    EarlierViewsListed(p, s.results, c, s.results);
    forall j, id | OfferedBy(p, s.results, j, id)
      ensures exists i :: ViewAt(s.results, i, ViewUrl(s.results[j].url, id))
    {
      assert PageAt(s.results, |s.results| - 1, c.url);
      assert s.results[j].url != c.url;
    }
  }

  /** Both selectors have run: below the cap the page is covered and its views are keyed. */
  lemma EndExpansion(p: Plan, s: Progress, c: MappedUrl, seen': set<Key>, results': seq<MappedUrl>)
    requires Expanding(p, s, c) && c.depth < p.maxDepth && p.site.fetch(c.url).Html? && |results'| <= p.maximum
    requires AddsViews(p.site, c, p.site.fetch(c.url), s.results, results')
    requires KeysViews(s.seen, s.results, seen', results')
    requires |results'| < p.maximum ==> Covered(p, s.dist, s.pending, c.url)
    requires |results'| < p.maximum ==>
      forall id :: Offers(p.site, p.site.fetch(c.url), id) ==> ViewKey(ViewUrl(c.url, id)) in seen'
    ensures CrawlInv(p, s.(seen := seen', results := results'))
  {
    ListViews(p, s, c, seen', results');
    AllAnswered(p, s, c);
    EarlierViewsListed(p, s.results, c, results');
    if |results'| < p.maximum {
      AllCovered(p, s, c);
      AllViewsListed(p, s, c, seen', results');
    }
  }

  // ---- The end of the crawl ----

  /** Whatever blocks the crawl within reach would have been visited. */
  lemma NothingBlocks(p: Plan, s: Progress)
    requires CrawlInv(p, s) && s.pending == [] && |s.results| < p.maximum
    ensures !Blocked(p)
  {
    forall u, n: nat | n <= p.Deepest() && ReachIn(p, u, n) ensures !Blocks(p, u, n) {
      CloserIsVisited(p, s, p.Deepest() + 1, u, n);
      assert n < p.maxDepth && p.site.included(u) ==> Expanded(p, s.dist, u);
    }
  }

  lemma EmptyQueueIsMap(p: Plan, s: Progress)
    requires CrawlInv(p, s) && (s.pending == [] || |s.results| >= p.maximum)
    ensures IsMap(p, s.results)
  {
    forall i | 0 <= i < |s.results| && !s.results[i].source.InteractiveView? ensures GoodPage(p, s.results[i]) {
      assert s.results[i].depth < p.maxDepth ==> Expanded(p, s.dist, s.results[i].url);
    }
    if |s.results| < p.maximum {
      NothingBlocks(p, s);
      forall u, n: nat | n <= p.Deepest() && ReachIn(p, u, n) && p.site.included(u)
        ensures exists i :: PageAt(s.results, i, u)
      {
        CloserIsVisited(p, s, p.Deepest() + 1, u, n);
      }
    }
  }

  lemma StartOfCrawl(p: Plan)
    requires p.site.Valid() && p.site.normalize(p.seed) == p.seed
    ensures CrawlInv(p, Progress({}, [], [MappedUrl(p.seed, 0, Seed)], map[], 0))
  {
    var pending := [MappedUrl(p.seed, 0, Seed)];
    assert pending[0].url == p.seed;
  }
}

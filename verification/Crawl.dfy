/** The site map: a breadth-first crawl that drops duplicates when it takes a URL off the queue. */
module Crawl {
  import opened Wrappers
  import opened SiteGraph
  import opened SiteLevels
  import opened CrawlProofs
  import opened CrawlQueues
  import opened CrawlOrder

  /** `url.split("#", 1)[0]`. */
  function BeforeHash(u: Url): Url {
    if u == "" || u[0] == '#' then "" else [u[0]] + BeforeHash(u[1..])
  }

  lemma NoHash(u: Url)
    requires '#' !in u
    ensures BeforeHash(u) == u
  {
    if u != "" {
      assert u == [u[0]] + u[1..];
    }
  }

  /** The first selector: each link whose written form has not been visited. */
  method PushLinks(site: Site, current: MappedUrl, page: Page, seen: set<Key>, pending: seq<MappedUrl>)
      returns (more: seq<MappedUrl>)
    requires page.Html?
    ensures more == pending + QueuedLinks(site, page.links, seen, current.depth + 1, LinkSource(page))
    ensures Extends(site, page, pending, more, current.depth + 1)
    ensures forall l :: l in page.links && FollowsLink(site, l) && PageKey(l.value) !in seen ==>
      Queued(more, site.normalize(l.value), current.depth + 1)
    ensures forall i :: |pending| <= i < |more| ==> more[i].source == if page.rendered then RenderedLink else Link
  {
    more := pending;
    for i := 0 to |page.links|
      invariant more == pending + QueuedLinks(site, page.links[..i], seen, current.depth + 1, LinkSource(page))
    {
      LinksStep(site, page.links, i, seen, current.depth + 1, LinkSource(page));
      var l := page.links[i];
      if l.Some? && site.inOrigin(l.value) && PageKey(l.value) !in seen {
        var source := if page.rendered then RenderedLink else Link;
        more := more + [MappedUrl(site.normalize(l.value), current.depth + 1, source)];
      }
    }
    assert page.links[..|page.links|] == page.links;
    LinksExtend(site, page, |page.links|, seen, pending, current.depth + 1, LinkSource(page));
    LinksAreQueued(site, page.links, seen, pending, current.depth + 1, LinkSource(page));
  }

  /** What the second selector did with the first n controls. */
  ghost predicate Selected(site: Site, current: MappedUrl, page: Page, seen: set<Key>, results: seq<MappedUrl>,
                           pending: seq<MappedUrl>, n: nat, seen': set<Key>, results': seq<MappedUrl>,
                           more: seq<MappedUrl>)
    requires page.Html? && n <= |page.controls|
  {
    var views := NewViews(site, page.controls[..n], seen, current.url, current.depth);
    && results' == results + views && Keyed(seen, views, seen')
    && more == pending + RoutesOf(site, page.controls[..n], current.depth + 1)
  }

  /** One more control: at most a route and a view. */
  lemma SelectOne(site: Site, current: MappedUrl, page: Page, seen: set<Key>, results: seq<MappedUrl>,
                  pending: seq<MappedUrl>, n: nat, seen': set<Key>, results': seq<MappedUrl>, more: seq<MappedUrl>)
    requires page.Html? && n < |page.controls|
    requires Selected(site, current, page, seen, results, pending, n, seen', results', more)
    ensures var k := page.controls[n];
      var view := k.target.View? && OffersView(site, k, k.target.id)
        && ViewKey(ViewUrl(current.url, k.target.id)) !in seen';
      Selected(site, current, page, seen, results, pending, n + 1,
        seen' + (if view then {ViewKey(ViewUrl(current.url, k.target.id))} else {}),
        results'
        + (if view then [MappedUrl(ViewUrl(current.url, k.target.id), current.depth, InteractiveView)] else []),
        more + (if FollowsControl(site, k)
                then [MappedUrl(site.normalize(k.target.href.value), current.depth + 1, RenderedLink)] else []))
  {
    var k, views := page.controls[n], NewViews(site, page.controls[..n], seen, current.url, current.depth);
    ViewsStep(site, page.controls, n, seen, current.url, current.depth);
    RoutesStep(site, page.controls, n, current.depth + 1);
    Regroup(pending, RoutesOf(site, page.controls[..n], current.depth + 1),
      if FollowsControl(site, k)
      then [MappedUrl(site.normalize(k.target.href.value), current.depth + 1, RenderedLink)] else []);
    assert seen' + {} == seen' && results' + [] == results' && views + [] == views;
    if k.target.View? {
      var view := MappedUrl(ViewUrl(current.url, k.target.id), current.depth, InteractiveView);
      assert ViewKey(view.url) in seen' <==> ViewKey(view.url) in seen || view.url in Urls(views);
      KeyedMore(seen, views, seen', view);
      Regroup(results, views, [view]);
    }
  }

  /** What the second selector has done when it stops: at the end, or with the results full. */
  lemma SelectedAll(site: Site, current: MappedUrl, page: Page, seen: set<Key>, results: seq<MappedUrl>,
                    pending: seq<MappedUrl>, n: nat, seen': set<Key>, results': seq<MappedUrl>, more: seq<MappedUrl>,
                    maximum: int)
    requires page.Html? && n <= |page.controls| && |results'| <= maximum
    requires Selected(site, current, page, seen, results, pending, n, seen', results', more)
    requires n == |page.controls| || |results'| == maximum
    ensures Extends(site, page, pending, more, current.depth + 1)
    ensures forall i :: |pending| <= i < |more| ==> more[i].source == RenderedLink
    ensures AddsViews(site, current, page, results, results') && KeysViews(seen, results, seen', results')
    ensures results' ==
      Take(results + NewViews(site, page.controls, seen, current.url, current.depth), maximum)
    ensures |results'| < maximum ==> more == pending + RoutesOf(site, page.controls, current.depth + 1)
  {
    var views := NewViews(site, page.controls[..n], seen, current.url, current.depth);
    RoutesExtend(site, page, n, pending, current.depth + 1);
    ViewsAdd(site, current, page, n, seen, results);
    KeyedViews(seen, results, views, seen');
    ViewsGrow(site, page.controls, n, seen, current.url, current.depth);
    if n == |page.controls| {
      assert page.controls[..n] == page.controls;
    }
  }

  lemma NothingMissed(site: Site, current: MappedUrl, page: Page, seen: set<Key>, results: seq<MappedUrl>,
                      pending: seq<MappedUrl>, seen': set<Key>, results': seq<MappedUrl>, more: seq<MappedUrl>)
    requires page.Html?
    requires Selected(site, current, page, seen, results, pending, |page.controls|, seen', results', more)
    ensures forall k :: k in page.controls && FollowsControl(site, k) ==>
      Queued(more, site.normalize(k.target.href.value), current.depth + 1)
    ensures forall id :: Offers(site, page, id) ==> ViewKey(ViewUrl(current.url, id)) in seen'
  {
    assert page.controls[..|page.controls|] == page.controls;
    RoutesAreQueued(site, page.controls, pending, current.depth + 1);
    forall id | Offers(site, page, id) ensures ViewKey(ViewUrl(current.url, id)) in seen' {
      var k :| k in page.controls && OffersView(site, k, id);
      var j :| 0 <= j < |page.controls| && page.controls[j] == k;
      ViewIsKeyed(site, page.controls, j, id, seen, current.url, current.depth);
    }
  }

  /** The second selector: routes are queued and views are listed, until the results are full. */
  method PushControls(site: Site, current: MappedUrl, page: Page, seen: set<Key>, results: seq<MappedUrl>,
                      pending: seq<MappedUrl>, maximum: int)
      returns (seen': set<Key>, results': seq<MappedUrl>, more: seq<MappedUrl>)
    requires page.Html? && |results| <= maximum && '#' !in current.url
    ensures Extends(site, page, pending, more, current.depth + 1)
    ensures forall i :: |pending| <= i < |more| ==> more[i].source == RenderedLink
    ensures AddsViews(site, current, page, results, results') && KeysViews(seen, results, seen', results')
    ensures |results'| <= maximum
    ensures results' == Take(results + NewViews(site, page.controls, seen, current.url, current.depth), maximum)
    ensures |results'| < maximum ==> more == pending + RoutesOf(site, page.controls, current.depth + 1)
    ensures |results'| < maximum ==> forall k :: k in page.controls && FollowsControl(site, k) ==>
      Queued(more, site.normalize(k.target.href.value), current.depth + 1)
    ensures |results'| < maximum ==> forall id :: Offers(site, page, id) ==> ViewKey(ViewUrl(current.url, id)) in seen'
  {
    seen', results', more := seen, results, pending;
    NoHash(current.url);
    ghost var met := |page.controls|;
    for i := 0 to |page.controls|
      invariant met == |page.controls| && |results'| <= maximum
      invariant Selected(site, current, page, seen, results, pending, i, seen', results', more)
    {
      if |results'| >= maximum {
        met := i;
        break;
      }
      var k := page.controls[i];
      SelectOne(site, current, page, seen, results, pending, i, seen', results', more);
      if site.unsafeName(k.name) {
        continue;
      }
      match k.target
      case Route(href) =>
        if href.Some? && site.inOrigin(href.value) {
          more := more + [MappedUrl(site.normalize(href.value), current.depth + 1, RenderedLink)];
        }
      case View(id) =>
        if id == "" || !site.validId(id) {
          continue;
        }
        var viewUrl := BeforeHash(current.url) + "#" + id;
        var key := ViewKey(viewUrl);
        if key in seen' {
          continue;
        }
        seen' := seen' + {key};
        results' := results' + [MappedUrl(viewUrl, current.depth, InteractiveView)];
    }
    SelectedAll(site, current, page, seen, results, pending, met, seen', results', more, maximum);
    if |results'| < maximum {
      NothingMissed(site, current, page, seen, results, pending, seen', results', more);
    }
  }

  /** Both selectors over the page just listed. */
  method ExpandPage(ghost p: Plan, ghost s: Progress, site: Site, maximum: int, seen: set<Key>, results: seq<MappedUrl>,
                    pending: seq<MappedUrl>, current: MappedUrl, page: Page)
      returns (seen': set<Key>, results': seq<MappedUrl>, more: seq<MappedUrl>)
    requires site == p.site && site.Valid() && maximum == p.maximum
    requires s.seen == seen && s.results == results && s.pending == pending
    requires Expanding(p, s, current) && current.depth < p.maxDepth && page == site.fetch(current.url) && page.Html?
    ensures CrawlInv(p, s.(seen := seen', results := results', pending := more)) && |results| <= |results'|
    ensures results' == Take(results + ViewsOf(site, page.controls, current.url, current.depth), maximum)
    ensures |results'| < maximum ==> more == pending + QueuedFor(site, page, seen, current.depth + 1)
  {
    var links := PushLinks(site, current, page, seen, pending);
    QueueExpanding(p, s, links, current);
    assert '#' !in current.url;
    seen', results', more := PushControls(site, current, page, seen, results, links, maximum);
    QueueExpanding(p, s.(pending := links), more, current);
    NoViewYet(p, s, current);
    AllViewsAreNew(site, page.controls, seen, current.url, current.depth);
    if |results'| < maximum {
      PageCovered(p, s, links, more, current.url);
      Regroup(pending, QueuedLinks(site, page.links, seen, current.depth + 1, LinkSource(page)),
        RoutesOf(site, page.controls, current.depth + 1));
    }
    EndExpansion(p, s.(pending := more), current, seen', results');
  }

  lemma ListOnly(p: Plan, s: Progress, at: Place)
    requires p.site.Valid() && CrawlInv(p, s) && OrderInv(p, s, at)
    requires at.front != [] && s.pending != [] && |s.results| < p.maximum
    requires var m := s.pending[0];
      && m.url !in s.dist && p.site.safe(m.url) && p.site.included(m.url)
      && (m.depth >= p.maxDepth || p.site.fetch(m.url).NoHtml?)
    ensures CrawlInv(p, Listed(s)) && OrderInv(p, Listed(s), Advanced(at, []))
  {
    EnterIncluded(p, s);
    NothingToExpand(p, Listed(s), s.pending[0]);
    LeaveInOrder(p, s, at);
  }

  /** The front of the queue is new, safe and included, and the results are not full. */
  ghost predicate AtNewPage(p: Plan, s: Progress, at: Place, m: MappedUrl) {
    && CrawlInv(p, s) && OrderInv(p, s, at) && at.front != [] && s.pending != [] && |s.results| < p.maximum
    && m == s.pending[0] && m.url !in s.dist && p.site.safe(m.url) && p.site.included(m.url)
  }

  lemma KnowsNext(p: Plan, s: Progress)
    requires VisitedInv(p, s.seen, s.dist, s.level) && s.pending != []
    requires p.site.normalize(s.pending[0].url) == s.pending[0].url
    ensures KnowsVisited(p.site, Visited(s).seen, Visited(s).dist.Keys)
  {
  }

  lemma ExpandedInOrder(p: Plan, s: Progress, at: Place, m: MappedUrl, page: Page, seen': set<Key>,
                        results': seq<MappedUrl>, more: seq<MappedUrl>)
    requires AtNewPage(p, s, at, m) && m.depth < p.maxDepth && page == p.site.fetch(m.url) && page.Html?
    requires results' == Take(Listed(s).results + ViewsOf(p.site, page.controls, m.url, m.depth), p.maximum)
    requires |results'| < p.maximum ==>
      more == Listed(s).pending + QueuedFor(p.site, page, Listed(s).seen, m.depth + 1)
    ensures OrderInv(p, Listed(s).(seen := seen', results := results', pending := more),
      Advanced(at, QueuedFor(p.site, page, Listed(s).seen, m.depth + 1)))
  {
    KnowsNext(p, s);
    VisitedKeys(s);
    ExpandAt(p, s.results, s.pending, s.dist.Keys, at, m, page, Listed(s).seen, results', more);
  }

  /** The page just listed is expanded. */
  method ExpandListed(ghost p: Plan, ghost s: Progress, ghost at: Place, site: Site, maximum: int, seen: set<Key>,
                      results: seq<MappedUrl>, pending: seq<MappedUrl>, current: MappedUrl, page: Page)
      returns (seen': set<Key>, results': seq<MappedUrl>, more: seq<MappedUrl>, ghost s': Progress, ghost at': Place)
    requires site == p.site && site.Valid() && maximum == p.maximum && AtNewPage(p, s, at, current)
    requires seen == Listed(s).seen && results == Listed(s).results && pending == Listed(s).pending
    requires current.depth < p.maxDepth && page == site.fetch(current.url) && page.Html?
    ensures s'.seen == seen' && s'.results == results' && s'.pending == more && |results'| >= |results|
    ensures CrawlInv(p, s') && OrderInv(p, s', at')
  {
    EnterIncluded(p, s);
    seen', results', more := ExpandPage(p, Listed(s), site, maximum, seen, results, pending, current, page);
    s' := Listed(s).(seen := seen', results := results', pending := more);
    ExpandedInOrder(p, s, at, current, page, seen', results', more);
    at' := Advanced(at, QueuedFor(site, page, seen, current.depth + 1));
  }

  /** A page that passed the filters is listed, and expanded if it is to be. */
  method ListPage(ghost p: Plan, ghost s: Progress, ghost at: Place, site: Site, maximum: int, maxDepth: int,
                  seen: set<Key>, results: seq<MappedUrl>, pending: seq<MappedUrl>, current: MappedUrl)
      returns (error: Option<Failure>, seen': set<Key>, results': seq<MappedUrl>, more: seq<MappedUrl>,
               ghost s': Progress, ghost at': Place)
    requires site == p.site && site.Valid() && maximum == p.maximum && maxDepth == p.maxDepth
    requires AtNewPage(p, s, at, current)
    requires seen == Listed(s).seen && results == s.results && pending == Listed(s).pending
    ensures error.Some? ==> Blocks(p, current.url, current.depth)
    ensures error.Some? ==> error.value == if site.safe(current.url) then FetchFailed else UnsafeTarget
    ensures error.None? ==> s'.seen == seen' && s'.results == results' && s'.pending == more && |results'| > |results|
    ensures error.None? ==> CrawlInv(p, s') && OrderInv(p, s', at')
  {
    error, seen', results', more, s', at' := None, seen, results + [current], pending, Listed(s), at;
    if current.depth >= maxDepth {
      ListOnly(p, s, at);
      at' := Advanced(at, []);
      return;
    }
    var page := site.fetch(current.url);
    if page.Failed? {
      error := Some(FetchFailed);
      return;
    }
    if page.NoHtml? {
      ListOnly(p, s, at);
      at' := Advanced(at, []);
      return;
    }
    seen', results', more, s', at' :=
      ExpandListed(p, s, at, site, maximum, seen, results', pending, current, page);
  }

  lemma Leave(p: Plan, s: Progress, at: Place)
    requires p.site.Valid() && CrawlInv(p, s) && OrderInv(p, s, at)
    requires at.front != [] && s.pending != [] && |s.results| < p.maximum
    requires s.pending[0].url !in s.dist && p.site.safe(s.pending[0].url) && !p.site.included(s.pending[0].url)
    ensures CrawlInv(p, Visited(s)) && OrderInv(p, Visited(s), Advanced(at, []))
  {
    EnterExcluded(p, s);
    LeaveInOrder(p, s, at);
  }

  /** A new URL is noted, checked and filtered before it is listed. */
  method VisitPage(ghost p: Plan, ghost s: Progress, ghost at: Place, site: Site, maximum: int, maxDepth: int,
                   seen: set<Key>, results: seq<MappedUrl>, pending: seq<MappedUrl>, current: MappedUrl)
      returns (error: Option<Failure>, seen': set<Key>, results': seq<MappedUrl>, more: seq<MappedUrl>,
               ghost s': Progress, ghost at': Place)
    requires site == p.site && site.Valid() && maximum == p.maximum && maxDepth == p.maxDepth
    requires CrawlInv(p, s) && OrderInv(p, s, at) && at.front != [] && s.pending != [] && |s.results| < p.maximum
    requires current == s.pending[0] && current.url !in s.dist
    requires seen == s.seen && results == s.results && pending == s.pending[1..]
    ensures error.Some? ==> Blocks(p, current.url, current.depth)
    ensures error.Some? ==> error.value == if site.safe(current.url) then FetchFailed else UnsafeTarget
    ensures error.None? ==> s'.seen == seen' && s'.results == results' && s'.pending == more
    ensures error.None? ==> |results'| > |results| || (results' == results && more == pending)
    ensures error.None? ==> CrawlInv(p, s') && OrderInv(p, s', at')
  {
    error, seen', results', more, s', at' := None, seen + {PageKey(current.url)}, results, pending, Visited(s), at;
    if !site.safe(current.url) {
      error := Some(UnsafeTarget);
      return;
    }
    if !site.included(current.url) {
      Leave(p, s, at);
      at' := Advanced(at, []);
      return;
    }
    error, seen', results', more, s', at' :=
      ListPage(p, s, at, site, maximum, maxDepth, seen', results, pending, current);
  }

  /** The crawl from a normalized URL. */
  method CrawlSite(p: Plan) returns (r: Result<seq<MappedUrl>, Failure>)
    requires p.site.Valid() && p.site.normalize(p.seed) == p.seed
    ensures r.Ok? ==> IsMap(p, r.value) && r.value == SiteMap(p)
    ensures r.Err? ==> Blocked(p)
    ensures r.Err? <==> exists k :: BlocksAt(p, k)
    ensures r.Err? ==> exists k :: FailsAt(p, k, r.error)
  {
    var seen: set<Key> := {};
    var results: seq<MappedUrl> := [];
    var pending := [MappedUrl(p.seed, 0, Seed)];
    ghost var s := Progress(seen, results, pending, map[], 0);
    ghost var at := Place(0, [], Level(p, 0), pending, []);
    StartOfCrawl(p);
    StartOfOrder(p);
    while |pending| > 0 && |results| < p.maximum
      invariant s.seen == seen && s.results == results && s.pending == pending
      invariant CrawlInv(p, s) && OrderInv(p, s, at)
      decreases p.maximum - |results|, |pending|
    {
      TurnLevel(p, s, at);
      at := Turned(p, at);
      var current := pending[0];
      pending := pending[1..];
      if PageKey(current.url) in seen {
        SkipFront(p, s);
        SkipInOrder(p, s, at);
        s, at := s.(pending := pending), at.(front := at.front[1..]);
        continue;
      }
      ghost var before, place := s, at;
      var error;
      error, seen, results, pending, s, at :=
        VisitPage(p, s, at, p.site, p.maximum, p.maxDepth, seen, results, pending, current);
      if error.Some? {
        BlockedInOrder(p, before, place);
        return Err(error.value);
      }
    }
    EmptyQueueIsMap(p, s);
    EndInOrder(p, s, at);
    r := Ok(results);
  }

  // ---- Options ----

  datatype Options = Options(maxUrls: Option<int>, maxDepth: Option<int>, search: string)

  function Kept(results: seq<MappedUrl>, keep: Url -> bool): seq<MappedUrl> {
    if results == [] then []
    else if keep(results[0].url) then [results[0]] + Kept(results[1..], keep)
    else Kept(results[1..], keep)
  }

  lemma {:induction false} KeptExactly(results: seq<MappedUrl>, keep: Url -> bool, x: MappedUrl)
    ensures x in Kept(results, keep) <==> x in results && keep(x.url)
  {
    if results == [] {
    } else {
      KeptExactly(results[1..], keep, x);
    }
  }

  lemma PrependInOrder(x: MappedUrl, s: seq<MappedUrl>)
    requires InOrder(s) && forall y :: y in s ==> x.url != y.url && x.depth <= y.depth
    ensures InOrder([x] + s)
  {
  }

  /** The search filter keeps the entries distinct and in order of depth. */
  lemma {:induction false} KeptInOrder(results: seq<MappedUrl>, keep: Url -> bool)
    requires InOrder(results)
    ensures InOrder(Kept(results, keep)) && |Kept(results, keep)| <= |results|
  {
    if results == [] {
    } else {
      var tail := results[1..];
      assert forall i :: 0 <= i < |tail| ==> tail[i] == results[i + 1];
      KeptInOrder(tail, keep);
      forall x | x in Kept(tail, keep) ensures results[0].url != x.url && results[0].depth <= x.depth {
        KeptExactly(tail, keep, x);
      }
      PrependInOrder(results[0], Kept(tail, keep));
    }
  }

  /** Where the entries that the search keeps stood before it: it leaves them in their order. */
  lemma {:induction false} KeptPlaces(results: seq<MappedUrl>, keep: Url -> bool) returns (places: seq<nat>)
    ensures |places| == |Kept(results, keep)|
    ensures forall i :: 0 <= i < |places| ==> places[i] < |results| && results[places[i]] == Kept(results, keep)[i]
    ensures forall i, j :: 0 <= i < j < |places| ==> places[i] < places[j]
  {
    places := [];
    if results == [] {
    } else {
      var rest := KeptPlaces(results[1..], keep);
      var later := seq(|rest|, i requires 0 <= i < |rest| => rest[i] + 1);
      places := if keep(results[0].url) then [0] + later else later;
    }
  }

  /** `matches` answers whether a URL contains the search text, ignoring case. */
  method MapSite(site: Site, url: Url, options: Options, matches: Url -> bool) returns (r: Result<seq<MappedUrl>,
                 Failure>)
    requires site.Valid()
    ensures var maximum := Min(if options.maxUrls.Some? then options.maxUrls.value else 100, 1000);
      var maxDepth := Min(if options.maxDepth.Some? then options.maxDepth.value else 2, 10);
      var p := Plan(site, site.normalize(url), maximum, maxDepth);
      && (r.Ok? ==> IsMap(p, SiteMap(p)))
      && (r.Ok? ==> r.value == if options.search != "" then Kept(SiteMap(p), matches) else SiteMap(p))
      && (r.Ok? ==> InOrder(r.value) && |r.value| <= Max(0, maximum))
      && (r.Err? ==> Blocked(p))
      && (r.Err? <==> exists k :: BlocksAt(p, k))
      && (r.Err? ==> exists k :: FailsAt(p, k, r.error))
  {
    var maximum := Min(OrElse(options.maxUrls, 100), 1000);
    var maxDepth := Min(OrElse(options.maxDepth, 2), 10);
    r := CrawlSite(Plan(site, site.normalize(url), maximum, maxDepth));
    if r.Ok? && options.search != "" {
      KeptInOrder(r.value, matches);
      r := Ok(Kept(r.value, matches));
    }
  }
}

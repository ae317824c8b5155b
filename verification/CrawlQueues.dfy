/** What the two selectors of the crawl queue and list, as functions of the document, and what that gives the loop. */
module CrawlQueues {
  import opened Wrappers
  import opened SiteGraph
  import opened SiteLevels
  import opened CrawlProofs

  // ---- Links ----

  /** The links that are queued: those whose written form has not been visited. */
  function QueuedLinks(site: Site, links: seq<Option<Url>>, seen: set<Key>, depth: nat, source: Source)
    : seq<MappedUrl>
  {
    if links == [] then []
    else
      var n := |links| - 1;
      QueuedLinks(site, links[..n], seen, depth, source)
      + if FollowsLink(site, links[n]) && PageKey(links[n].value) !in seen
        then [MappedUrl(site.normalize(links[n].value), depth, source)] else []
  }

  lemma LinksStep(site: Site, links: seq<Option<Url>>, i: nat, seen: set<Key>, depth: nat, source: Source)
    requires i < |links|
    ensures QueuedLinks(site, links[..i + 1], seen, depth, source) == QueuedLinks(site, links[..i], seen, depth, source)
      + if FollowsLink(site, links[i]) && PageKey(links[i].value) !in seen
        then [MappedUrl(site.normalize(links[i].value), depth, source)] else []
  {
    assert links[..i + 1][..i] == links[..i];
  }

  lemma ExtendsMore(site: Site, page: Page, pending: seq<MappedUrl>, a: seq<MappedUrl>, b: seq<MappedUrl>, depth: nat)
    requires Extends(site, page, pending, pending + a, depth) && Extends(site, page, [], b, depth)
    ensures Extends(site, page, pending, pending + (a + b), depth)
  {
    Regroup(pending, a, b);
  }

  /** Links queue successors of the page, all one level below it. */
  lemma {:induction false} LinksExtend(site: Site, page: Page, n: nat, seen: set<Key>, pending: seq<MappedUrl>,
                                       depth: nat, source: Source)
    requires page.Html? && n <= |page.links| && !source.InteractiveView?
    ensures var queued := QueuedLinks(site, page.links[..n], seen, depth, source);
      && Extends(site, page, pending, pending + queued, depth)
      && forall i :: 0 <= i < |queued| ==> queued[i].source == source
  {
    if n == 0 {
    } else {
      var l := page.links[n - 1];
      LinksExtend(site, page, n - 1, seen, pending, depth, source);
      LinksStep(site, page.links, n - 1, seen, depth, source);
      var before := QueuedLinks(site, page.links[..n - 1], seen, depth, source);
      assert before + [] == before;
      if FollowsLink(site, l) && PageKey(l.value) !in seen {
        assert l in page.links;
        ExtendsMore(site, page, pending, before, [MappedUrl(site.normalize(l.value), depth, source)], depth);
      }
    }
  }

  lemma QueuedLater(pending: seq<MappedUrl>, queued: seq<MappedUrl>, i: nat)
    requires i < |queued|
    ensures Queued(pending + queued, queued[i].url, queued[i].depth)
  {
    assert (pending + queued)[|pending| + i] == queued[i];
  }

  /** Every link that is followed and new in its written form is queued. */
  lemma {:induction false} LinkIsQueued(site: Site, links: seq<Option<Url>>, j: nat, seen: set<Key>, depth: nat,
                                        source: Source) returns (i: nat)
    requires j < |links| && FollowsLink(site, links[j]) && PageKey(links[j].value) !in seen
    ensures var queued := QueuedLinks(site, links, seen, depth, source);
      i < |queued| && queued[i].url == site.normalize(links[j].value) && queued[i].depth == depth
  {
    var n := |links| - 1;
    if j == n {
      i := |QueuedLinks(site, links[..n], seen, depth, source)|;
    } else {
      i := LinkIsQueued(site, links[..n], j, seen, depth, source);
    }
  }

  lemma LinksAreQueued(site: Site, links: seq<Option<Url>>, seen: set<Key>, pending: seq<MappedUrl>, depth: nat,
                       source: Source)
    ensures forall l :: l in links && FollowsLink(site, l) && PageKey(l.value) !in seen ==>
      Queued(pending + QueuedLinks(site, links, seen, depth, source), site.normalize(l.value), depth)
  {
    forall l | l in links && FollowsLink(site, l) && PageKey(l.value) !in seen
      ensures Queued(pending + QueuedLinks(site, links, seen, depth, source), site.normalize(l.value), depth)
    {
      var j :| 0 <= j < |links| && links[j] == l;
      var i := LinkIsQueued(site, links, j, seen, depth, source);
      QueuedLater(pending, QueuedLinks(site, links, seen, depth, source), i);
    }
  }

  // ---- Routes ----

  lemma RoutesStep(site: Site, controls: seq<Control>, i: nat, depth: nat)
    requires i < |controls|
    ensures RoutesOf(site, controls[..i + 1], depth) == RoutesOf(site, controls[..i], depth)
      + if FollowsControl(site, controls[i])
        then [MappedUrl(site.normalize(controls[i].target.href.value), depth, RenderedLink)] else []
  {
    assert controls[..i + 1][..i] == controls[..i];
  }

  /** Routes queue successors of the page, all one level below it. */
  lemma {:induction false} RoutesExtend(site: Site, page: Page, n: nat, pending: seq<MappedUrl>, depth: nat)
    requires page.Html? && n <= |page.controls|
    ensures var queued := RoutesOf(site, page.controls[..n], depth);
      && Extends(site, page, pending, pending + queued, depth)
      && forall i :: 0 <= i < |queued| ==> queued[i].source == RenderedLink
  {
    if n == 0 {
    } else {
      var k := page.controls[n - 1];
      RoutesExtend(site, page, n - 1, pending, depth);
      RoutesStep(site, page.controls, n - 1, depth);
      var before := RoutesOf(site, page.controls[..n - 1], depth);
      assert before + [] == before;
      if FollowsControl(site, k) {
        assert k in page.controls;
        var item := MappedUrl(site.normalize(k.target.href.value), depth, RenderedLink);
        ExtendsMore(site, page, pending, before, [item], depth);
      }
    }
  }

  lemma {:induction false} RouteIsQueued(site: Site, controls: seq<Control>, j: nat, depth: nat) returns (i: nat)
    requires j < |controls| && FollowsControl(site, controls[j])
    ensures var queued := RoutesOf(site, controls, depth);
      i < |queued| && queued[i].url == site.normalize(controls[j].target.href.value) && queued[i].depth == depth
  {
    var n := |controls| - 1;
    if j == n {
      i := |RoutesOf(site, controls[..n], depth)|;
    } else {
      i := RouteIsQueued(site, controls[..n], j, depth);
    }
  }

  lemma RoutesAreQueued(site: Site, controls: seq<Control>, pending: seq<MappedUrl>, depth: nat)
    ensures forall k :: k in controls && FollowsControl(site, k) ==>
      Queued(pending + RoutesOf(site, controls, depth), site.normalize(k.target.href.value), depth)
  {
    forall k | k in controls && FollowsControl(site, k)
      ensures Queued(pending + RoutesOf(site, controls, depth), site.normalize(k.target.href.value), depth)
    {
      var j :| 0 <= j < |controls| && controls[j] == k;
      var i := RouteIsQueued(site, controls, j, depth);
      QueuedLater(pending, RoutesOf(site, controls, depth), i);
    }
  }

  /** What both selectors queue for a page. */
  function QueuedFor(site: Site, page: Page, seen: set<Key>, depth: nat): seq<MappedUrl>
    requires page.Html?
  {
    QueuedLinks(site, page.links, seen, depth, LinkSource(page)) + RoutesOf(site, page.controls, depth)
  }

  // ---- Views ----

  /** The views that are listed: those not keyed before, each once. */
  function NewViews(site: Site, controls: seq<Control>, seen: set<Key>, u: Url, depth: nat): seq<MappedUrl> {
    if controls == [] then []
    else
      var n := |controls| - 1;
      var before, k := NewViews(site, controls[..n], seen, u, depth), controls[n];
      before
      + if k.target.View? && OffersView(site, k, k.target.id) && ViewKey(ViewUrl(u, k.target.id)) !in seen
           && ViewUrl(u, k.target.id) !in Urls(before)
        then [MappedUrl(ViewUrl(u, k.target.id), depth, InteractiveView)] else []
  }

  lemma ViewsStep(site: Site, controls: seq<Control>, i: nat, seen: set<Key>, u: Url, depth: nat)
    requires i < |controls|
    ensures var k, before := controls[i], NewViews(site, controls[..i], seen, u, depth);
      NewViews(site, controls[..i + 1], seen, u, depth) == before
      + if k.target.View? && OffersView(site, k, k.target.id) && ViewKey(ViewUrl(u, k.target.id)) !in seen
           && ViewUrl(u, k.target.id) !in Urls(before)
        then [MappedUrl(ViewUrl(u, k.target.id), depth, InteractiveView)] else []
  {
    assert controls[..i + 1][..i] == controls[..i];
  }

  /** Before any view of the page is keyed, its new views are all its views. */
  lemma {:induction false} AllViewsAreNew(site: Site, controls: seq<Control>, seen: set<Key>, u: Url, depth: nat)
    requires forall id :: ViewKey(ViewUrl(u, id)) !in seen
    ensures NewViews(site, controls, seen, u, depth) == ViewsOf(site, controls, u, depth)
  {
    if controls == [] {
    } else {
      AllViewsAreNew(site, controls[..|controls| - 1], seen, u, depth);
    }
  }

  lemma {:induction false} ViewsGrow(site: Site, controls: seq<Control>, n: nat, seen: set<Key>, u: Url, depth: nat)
    requires n <= |controls|
    ensures NewViews(site, controls[..n], seen, u, depth) <= NewViews(site, controls, seen, u, depth)
    decreases |controls|
  {
    if n == |controls| {
      assert controls[..n] == controls;
    } else {
      ViewsGrow(site, controls[..|controls| - 1], n, seen, u, depth);
      assert controls[..|controls| - 1][..n] == controls[..n];
    }
  }

  /** `seen` after these views were listed. */
  ghost predicate Keyed(seen: set<Key>, views: seq<MappedUrl>, seen': set<Key>) {
    && (forall u :: PageKey(u) in seen' <==> PageKey(u) in seen)
    && (forall v :: ViewKey(v) in seen' <==> ViewKey(v) in seen || v in Urls(views))
  }

  lemma KeyedMore(seen: set<Key>, views: seq<MappedUrl>, seen': set<Key>, view: MappedUrl)
    requires Keyed(seen, views, seen')
    ensures Keyed(seen, views + [view], seen' + {ViewKey(view.url)})
  {
    UrlsOfConcat(views, [view]);
    assert Urls([view]) == {view.url};
  }

  lemma AddsOne(site: Site, current: MappedUrl, page: Page, results: seq<MappedUrl>, views: seq<MappedUrl>,
                view: MappedUrl)
    requires AddsViews(site, current, page, results, results + views) && IsView(site, current, page, view)
    requires view.url !in Urls(views)
    ensures AddsViews(site, current, page, results, results + (views + [view]))
  {
    Regroup(results, views, [view]);
    forall i | 0 <= i < |views| ensures views[i].url != view.url && (results + views)[|results| + i] == views[i] {
      UrlsMembers(views, views[i].url);
    }
  }

  /** The first n controls add views of the page, each new to `seen`. */
  ghost predicate ViewsAdded(site: Site, current: MappedUrl, page: Page, seen: set<Key>, results: seq<MappedUrl>,
                             views: seq<MappedUrl>) {
    && AddsViews(site, current, page, results, results + views)
    && forall v :: v in Urls(views) ==> ViewKey(v) !in seen
  }

  lemma ViewAdded(site: Site, current: MappedUrl, page: Page, seen: set<Key>, results: seq<MappedUrl>,
                  views: seq<MappedUrl>, view: MappedUrl)
    requires ViewsAdded(site, current, page, seen, results, views) && IsView(site, current, page, view)
    requires ViewKey(view.url) !in seen && view.url !in Urls(views)
    ensures ViewsAdded(site, current, page, seen, results, views + [view])
  {
    AddsOne(site, current, page, results, views, view);
    UrlsOfConcat(views, [view]);
    assert Urls([view]) == {view.url};
  }

  lemma ShowsViews(site: Site, current: MappedUrl, page: Page, k: Control, id: string)
    requires page.Html? && k in page.controls && OffersView(site, k, id)
    ensures IsView(site, current, page, MappedUrl(ViewUrl(current.url, id), current.depth, InteractiveView))
  {
    assert Offers(site, page, id);
  }

  lemma {:induction false} ViewsAdd(site: Site, current: MappedUrl, page: Page, n: nat, seen: set<Key>,
                                    results: seq<MappedUrl>)
    requires page.Html? && n <= |page.controls|
    ensures ViewsAdded(site, current, page, seen, results,
      NewViews(site, page.controls[..n], seen, current.url, current.depth))
  {
    if n == 0 {
      assert results + [] == results;
    } else {
      var k, views := page.controls[n - 1], NewViews(site, page.controls[..n - 1], seen, current.url, current.depth);
      ViewsAdd(site, current, page, n - 1, seen, results);
      ViewsStep(site, page.controls, n - 1, seen, current.url, current.depth);
      assert views + [] == views;
      if k.target.View? && OffersView(site, k, k.target.id) && ViewKey(ViewUrl(current.url, k.target.id)) !in seen
         && ViewUrl(current.url, k.target.id) !in Urls(views) {
        ShowsViews(site, current, page, k, k.target.id);
        ViewAdded(site, current, page, seen, results, views,
          MappedUrl(ViewUrl(current.url, k.target.id), current.depth, InteractiveView));
      }
    }
  }

  lemma KeyedViews(seen: set<Key>, results: seq<MappedUrl>, views: seq<MappedUrl>, seen': set<Key>)
    requires Keyed(seen, views, seen') && forall v :: v in Urls(views) ==> ViewKey(v) !in seen
    ensures KeysViews(seen, results, seen', results + views)
  {
    var more := results + views;
    forall i | 0 <= i < |views| ensures views[i].url in Urls(views) && more[|results| + i] == views[i] {
      UrlsMembers(views, views[i].url);
    }
    forall v ensures v in Urls(views) <==> exists i :: AddedAt(|results|, more, i, v) {
      UrlsMembers(views, v);
      if i :| 0 <= i < |views| && views[i].url == v {
        assert AddedAt(|results|, more, |results| + i, v);
      }
      if i :| AddedAt(|results|, more, i, v) {
        assert views[i - |results|].url == v;
      }
    }
  }

  /** Every view that a control shows is keyed once the control was met. */
  lemma {:induction false} ViewIsKeyed(site: Site, controls: seq<Control>, j: nat, id: string, seen: set<Key>, u: Url,
                                       depth: nat)
    requires j < |controls| && OffersView(site, controls[j], id)
    ensures ViewKey(ViewUrl(u, id)) in seen || ViewUrl(u, id) in Urls(NewViews(site, controls, seen, u, depth))
    decreases |controls|
  {
    var n := |controls| - 1;
    var before := NewViews(site, controls[..n], seen, u, depth);
    if j < n {
      ViewIsKeyed(site, controls[..n], j, id, seen, u, depth);
      UrlsOfConcat(before, NewViews(site, controls, seen, u, depth)[|before|..]);
    } else if ViewKey(ViewUrl(u, id)) !in seen && ViewUrl(u, id) !in Urls(before) {
      assert NewViews(site, controls, seen, u, depth) == before + [MappedUrl(ViewUrl(u, id), depth, InteractiveView)];
    } else {
      assert NewViews(site, controls, seen, u, depth) == before;
    }
  }
}

/**
 The order in which a breadth-first crawl meets pages, told level by level without a queue: each
 level holds what the one before leads to, in the order of its pages and of their documents, each
 URL once and where it comes first.
 */
module SiteLevels {
  import opened Wrappers
  import opened SiteGraph

  // ---- What a page leads to ----

  function LinkSource(page: Page): Source
    requires page.Html?
  {
    if page.rendered then RenderedLink else Link
  }

  /** The links that are followed, in document order. */
  function LinksOf(site: Site, links: seq<Option<Url>>, depth: nat, source: Source): seq<MappedUrl> {
    if links == [] then []
    else
      var n := |links| - 1;
      LinksOf(site, links[..n], depth, source)
      + if FollowsLink(site, links[n]) then [MappedUrl(site.normalize(links[n].value), depth, source)] else []
  }

  /** The routes of controls that are followed, in document order. */
  function RoutesOf(site: Site, controls: seq<Control>, depth: nat): seq<MappedUrl> {
    if controls == [] then []
    else
      var n := |controls| - 1;
      RoutesOf(site, controls[..n], depth)
      + if FollowsControl(site, controls[n])
        then [MappedUrl(site.normalize(controls[n].target.href.value), depth, RenderedLink)] else []
  }

  /** What a page leads to: first its links, then its routes. */
  function Successors(site: Site, page: Page, depth: nat): seq<MappedUrl> {
    if page.Html? then LinksOf(site, page.links, depth, LinkSource(page)) + RoutesOf(site, page.controls, depth) else []
  }

  /** What the included pages of a level lead to. */
  function Out(p: Plan, items: seq<MappedUrl>): seq<MappedUrl> {
    if items == [] then []
    else
      var n := |items| - 1;
      Out(p, items[..n])
      + if p.site.included(items[n].url)
        then Successors(p.site, p.site.fetch(items[n].url), items[n].depth + 1) else []
  }

  // ---- Levels ----

  function Urls(items: seq<MappedUrl>): set<Url> {
    if items == [] then {} else Urls(items[..|items| - 1]) + {items[|items| - 1].url}
  }

  /** The items whose URLs are not known, each URL once, where it comes first. */
  function Fresh(items: seq<MappedUrl>, known: set<Url>): seq<MappedUrl> {
    if items == [] then []
    else
      var n := |items| - 1;
      var before := Fresh(items[..n], known);
      before + if items[n].url in known || items[n].url in Urls(before) then [] else [items[n]]
  }

  /** The pages n links away from the seed, in the order in which they are first led to. */
  function Level(p: Plan, n: nat): seq<MappedUrl>
    decreases n, 1
  {
    if n == 0 then [MappedUrl(p.seed, 0, Seed)] else Fresh(Out(p, Level(p, n - 1)), Urls(Earlier(p, n)))
  }

  /** The levels before the n-th. */
  function Earlier(p: Plan, n: nat): seq<MappedUrl>
    decreases n, 0
  {
    if n == 0 then [] else Earlier(p, n - 1) + Level(p, n - 1)
  }

  // ---- What is listed ----

  /** The views that the controls show, in document order, each once. */
  function ViewsOf(site: Site, controls: seq<Control>, u: Url, depth: nat): seq<MappedUrl> {
    if controls == [] then []
    else
      var n := |controls| - 1;
      var before, k := ViewsOf(site, controls[..n], u, depth), controls[n];
      before
      + if k.target.View? && OffersView(site, k, k.target.id) && ViewUrl(u, k.target.id) !in Urls(before)
        then [MappedUrl(ViewUrl(u, k.target.id), depth, InteractiveView)] else []
  }

  /** The entries of one page: itself and, if it is expanded, its views. */
  function EntriesOf(p: Plan, m: MappedUrl): seq<MappedUrl> {
    var page := p.site.fetch(m.url);
    [m] + if m.depth < p.maxDepth && page.Html? then ViewsOf(p.site, page.controls, m.url, m.depth) else []
  }

  /** The entries of the included pages among these, in their order. */
  function Listing(p: Plan, items: seq<MappedUrl>): seq<MappedUrl> {
    if items == [] then []
    else
      var n := |items| - 1;
      Listing(p, items[..n]) + if p.site.included(items[n].url) then EntriesOf(p, items[n]) else []
  }

  /** All pages within the depth, in the order of the crawl. */
  function Visits(p: Plan): seq<MappedUrl> {
    Earlier(p, p.Deepest() + 1)
  }

  function Take(items: seq<MappedUrl>, n: int): seq<MappedUrl> {
    if n <= 0 then [] else if n < |items| then items[..n] else items
  }

  /** The first entries of the listing, up to the cap. */
  function SiteMap(p: Plan): seq<MappedUrl> {
    Take(Listing(p, Visits(p)), p.maximum)
  }

  /** The k-th visit blocks the crawl, and comes before the map is full. */
  ghost predicate BlocksAt(p: Plan, k: nat) {
    k < |Visits(p)| && Blocks(p, Visits(p)[k].url, Visits(p)[k].depth) && |Listing(p, Visits(p)[..k])| < p.maximum
  }

  datatype Failure = UnsafeTarget | FetchFailed

  /** The k-th visit is the first that blocks the crawl, and this is why. */
  ghost predicate FailsAt(p: Plan, k: nat, f: Failure) {
    && BlocksAt(p, k)
    && (forall i :: 0 <= i < k ==> !Blocks(p, Visits(p)[i].url, Visits(p)[i].depth))
    && f == if p.site.safe(Visits(p)[k].url) then FetchFailed else UnsafeTarget
  }

  // ---- Laws of the parts ----

  lemma {:induction false} UrlsMembers(items: seq<MappedUrl>, u: Url)
    ensures u in Urls(items) <==> exists i :: 0 <= i < |items| && items[i].url == u
  {
    if items == [] {
    } else {
      var n := |items| - 1;
      UrlsMembers(items[..n], u);
      assert forall i :: 0 <= i < n ==> items[..n][i] == items[i];
    }
  }

  lemma {:induction false} UrlsOfConcat(a: seq<MappedUrl>, b: seq<MappedUrl>)
    ensures Urls(a + b) == Urls(a) + Urls(b)
    decreases |b|
  {
    if b == [] {
      assert a + b == a;
    } else {
      var n := |b| - 1;
      assert (a + b)[..|a| + n] == a + b[..n];
      UrlsOfConcat(a, b[..n]);
    }
  }

  /** The item as it is kept after others. */
  function IfNew(item: MappedUrl, known: set<Url>): seq<MappedUrl> {
    if item.url in known then [] else [item]
  }

  lemma UrlsSnoc(items: seq<MappedUrl>, item: MappedUrl)
    ensures Urls(items + [item]) == Urls(items) + {item.url}
  {
    assert (items + [item])[..|items|] == items;
  }

  lemma FreshSnoc(items: seq<MappedUrl>, item: MappedUrl, known: set<Url>)
    requires Urls(Fresh(items, known)) == Urls(items) - known
    ensures Fresh(items + [item], known) == Fresh(items, known) + IfNew(item, known + Urls(items))
    ensures Urls(Fresh(items + [item], known)) == Urls(items + [item]) - known
  {
    assert (items + [item])[..|items|] == items && Fresh(items, known) + [] == Fresh(items, known);
    UrlsSnoc(items, item);
    UrlsSnoc(Fresh(items, known), item);
  }

  /** Keeping only first appearances loses no URL. */
  lemma {:induction false} FreshUrls(items: seq<MappedUrl>, known: set<Url>)
    ensures Urls(Fresh(items, known)) == Urls(items) - known
  {
    if items == [] {
    } else {
      var n := |items| - 1;
      FreshUrls(items[..n], known);
      FreshSnoc(items[..n], items[n], known);
      assert items == items[..n] + [items[n]];
    }
  }

  lemma Regroup(a: seq<MappedUrl>, b: seq<MappedUrl>, x: seq<MappedUrl>)
    ensures a + b + x == a + (b + x)
  {
  }

  lemma FreshConcatSnoc(a: seq<MappedUrl>, head: seq<MappedUrl>, item: MappedUrl, known: set<Url>)
    requires Fresh(a + head, known) == Fresh(a, known) + Fresh(head, known + Urls(a))
    ensures Fresh(a + head + [item], known) == Fresh(a, known) + Fresh(head + [item], known + Urls(a))
  {
    var more := known + Urls(a);
    FreshUrls(a + head, known);
    FreshUrls(head, more);
    UrlsOfConcat(a, head);
    assert known + Urls(a + head) == more + Urls(head);
    FreshSnoc(a + head, item, known);
    FreshSnoc(head, item, more);
    Regroup(Fresh(a, known), Fresh(head, more), IfNew(item, more + Urls(head)));
  }

  lemma SplitLast(a: seq<MappedUrl>, b: seq<MappedUrl>)
    requires b != []
    ensures b == b[..|b| - 1] + [b[|b| - 1]] && a + b == a + b[..|b| - 1] + [b[|b| - 1]]
  {
  }

  lemma {:induction false} FreshOfConcat(a: seq<MappedUrl>, b: seq<MappedUrl>, known: set<Url>)
    ensures Fresh(a + b, known) == Fresh(a, known) + Fresh(b, known + Urls(a))
    decreases |b|
  {
    if b == [] {
      assert a + b == a;
    } else {
      var head, item := b[..|b| - 1], b[|b| - 1];
      FreshOfConcat(a, head, known);
      FreshConcatSnoc(a, head, item, known);
      SplitLast(a, b);
    }
  }

  function ListingOf(p: Plan, m: MappedUrl): seq<MappedUrl> {
    if p.site.included(m.url) then EntriesOf(p, m) else []
  }

  lemma ListingSnoc(p: Plan, items: seq<MappedUrl>, m: MappedUrl)
    ensures Listing(p, items + [m]) == Listing(p, items) + ListingOf(p, m)
  {
    assert (items + [m])[..|items|] == items;
  }

  lemma {:induction false} ListingGrows(p: Plan, items: seq<MappedUrl>, more: seq<MappedUrl>)
    ensures Listing(p, items) <= Listing(p, items + more)
    decreases |more|
  {
    if more == [] {
      assert items + more == items;
    } else {
      var n := |more| - 1;
      ListingGrows(p, items, more[..n]);
      Regroup(items, more[..n], [more[n]]);
      assert more == more[..n] + [more[n]];
      ListingSnoc(p, items + more[..n], more[n]);
    }
  }

  /** What an included page leads to. */
  function OutOf(p: Plan, m: MappedUrl): seq<MappedUrl> {
    if p.site.included(m.url) then Successors(p.site, p.site.fetch(m.url), m.depth + 1) else []
  }

  lemma OutSnoc(p: Plan, items: seq<MappedUrl>, m: MappedUrl)
    ensures Out(p, items + [m]) == Out(p, items) + OutOf(p, m)
  {
    assert (items + [m])[..|items|] == items;
  }
}

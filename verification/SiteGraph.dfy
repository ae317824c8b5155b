/**
 The site a crawl maps, the distances of its link graph, and what a map of it is.

 The site is a parameter. Each URL is fetched at most once, so a function from URLs to parsed
 pages describes every way the site can answer. `normalize` is `normalizeUrl`; `included` is the
 verdict of the include and exclude patterns.
 */
module SiteGraph {
  import opened Wrappers

  type Url = string

  /** What a control points at: its `data-href`, resolved if it is a valid URL, or the id of a view. */
  datatype Target = Route(href: Option<Url>) | View(id: string)

  datatype Control = Control(name: string, target: Target)

  /** `links` are resolved against the page; None is an invalid URL. */
  datatype Page =
    | Failed
    | NoHtml
    | Html(links: seq<Option<Url>>, controls: seq<Control>, rendered: bool)

  datatype Site = Site(
    normalize: Url -> Url,
    safe: Url -> bool,
    included: Url -> bool,
    inOrigin: Url -> bool,
    unsafeName: string -> bool,
    validId: string -> bool,
    fetch: Url -> Page)
  {
    /** Normalizing is idempotent and removes the fragment. */
    ghost predicate Valid() {
      forall u :: normalize(normalize(u)) == normalize(u) && '#' !in normalize(u)
    }
  }

  /** A crawl: where it starts, and its two limits. */
  datatype Plan = Plan(site: Site, seed: Url, maximum: int, maxDepth: int)
  {
    function Deepest(): int {
      Max(0, maxDepth)
    }
  }

  datatype Source = Seed | Link | RenderedLink | InteractiveView

  datatype MappedUrl = MappedUrl(url: Url, depth: nat, source: Source)

  function ViewUrl(u: Url, id: string): Url {
    u + "#" + id
  }

  // ---- The link graph ----

  predicate FollowsLink(site: Site, l: Option<Url>) {
    l.Some? && site.inOrigin(l.value)
  }

  predicate FollowsControl(site: Site, k: Control) {
    !site.unsafeName(k.name) && k.target.Route? && k.target.href.Some? && site.inOrigin(k.target.href.value)
  }

  /** v is a link or a route of the page. */
  ghost predicate Follows(site: Site, page: Page, v: Url) {
    page.Html? &&
    ((exists l :: l in page.links && FollowsLink(site, l) && v == site.normalize(l.value))
     || (exists k :: k in page.controls && FollowsControl(site, k) && v == site.normalize(k.target.href.value)))
  }

  ghost predicate Edge(site: Site, u: Url, v: Url) {
    Follows(site, site.fetch(u), v)
  }

  /** u is n links away from the seed, by a path whose earlier pages all pass the filters. */
  ghost predicate ReachIn(p: Plan, u: Url, n: nat)
    decreases n
  {
    if n == 0 then u == p.seed
    else exists v :: ReachIn(p, v, n - 1) && p.site.included(v) && Edge(p.site, v, u)
  }

  ghost predicate Shortest(p: Plan, u: Url, n: nat) {
    ReachIn(p, u, n) && forall k: nat :: k < n ==> !ReachIn(p, u, k)
  }

  // ---- Views ----

  predicate OffersView(site: Site, k: Control, id: string) {
    !site.unsafeName(k.name) && k.target == View(id) && id != "" && site.validId(id)
  }

  /** A safe control of the page shows the view. */
  ghost predicate Offers(site: Site, page: Page, id: string) {
    page.Html? && exists k :: k in page.controls && OffersView(site, k, id)
  }

  // ---- What a map is ----

  ghost predicate PageAt(results: seq<MappedUrl>, i: int, u: Url) {
    0 <= i < |results| && results[i].url == u && !results[i].source.InteractiveView?
  }

  ghost predicate ViewAt(results: seq<MappedUrl>, i: int, v: Url) {
    0 <= i < |results| && results[i].url == v && results[i].source.InteractiveView?
  }

  /** Page j of the results is expanded and offers the view. */
  ghost predicate OfferedBy(p: Plan, results: seq<MappedUrl>, j: int, id: string) {
    && 0 <= j < |results| && !results[j].source.InteractiveView? && results[j].depth < p.maxDepth
    && Offers(p.site, p.site.fetch(results[j].url), id)
  }

  /** A view is listed after a page that offers it, at the depth of that page. */
  ghost predicate ViewOfPage(p: Plan, results: seq<MappedUrl>, i: int) {
    0 <= i < |results| && exists j, id ::
      OfferedBy(p, results, j, id) && j < i
      && results[j].depth == results[i].depth && results[i].url == ViewUrl(results[j].url, id)
  }

  /** Every view that a listed page offers is listed. */
  ghost predicate ViewsListed(p: Plan, results: seq<MappedUrl>) {
    forall j, id :: OfferedBy(p, results, j, id) ==> exists i :: ViewAt(results, i, ViewUrl(results[j].url, id))
  }

  /** Another page is listed after the j-th entry. */
  ghost predicate PageAfter(results: seq<MappedUrl>, j: int) {
    exists k :: 0 <= k < |results| && j < k && !results[k].source.InteractiveView?
  }

  /** Every view that a listed page offers is listed, unless it is the last page listed. */
  ghost predicate ViewsListedBefore(p: Plan, results: seq<MappedUrl>) {
    forall j, id :: OfferedBy(p, results, j, id) && PageAfter(results, j) ==>
      exists i :: ViewAt(results, i, ViewUrl(results[j].url, id))
  }

  /** Distinct URLs by non-decreasing depth. */
  ghost predicate InOrder(s: seq<MappedUrl>) {
    forall i, j :: 0 <= i < j < |s| ==> s[i].url != s[j].url && s[i].depth <= s[j].depth
  }

  /**
   A listed page passed the safety check and the filters, carries its shortest distance, and
   answered if it was asked.
   */
  ghost predicate GoodPage(p: Plan, m: MappedUrl) {
    && p.site.safe(m.url) && p.site.included(m.url)
    && m.depth <= p.Deepest() && Shortest(p, m.url, m.depth)
    && (m.depth < p.maxDepth ==> !p.site.fetch(m.url).Failed?)
  }

  predicate Blocks(p: Plan, u: Url, n: nat) {
    !p.site.safe(u) || (p.site.included(u) && n < p.maxDepth && p.site.fetch(u).Failed?)
  }

  /** A page within reach is unsafe, or is to be expanded and cannot be fetched. */
  ghost predicate Blocked(p: Plan) {
    exists u, n: nat :: n <= p.Deepest() && ReachIn(p, u, n) && Blocks(p, u, n)
  }

  /** What a finished crawl returns. */
  ghost predicate IsMap(p: Plan, results: seq<MappedUrl>) {
    // URLs are distinct, within the cap, and in order of depth.
    && |results| <= Max(0, p.maximum)
    && InOrder(results)
    && (forall i :: 0 <= i < |results| ==>
          if results[i].source.InteractiveView? then ViewOfPage(p, results, i) else GoodPage(p, results[i]))
    // Whatever is closer to the seed than some entry is listed, with the views of every page but the last.
    && (forall j, u, n: nat ::
          0 <= j < |results| && n < results[j].depth && ReachIn(p, u, n) && p.site.included(u) ==>
          exists i :: PageAt(results, i, u))
    && ViewsListedBefore(p, results)
    // Below the cap nothing within reach is missing, and nothing within reach is blocked.
    && (|results| < p.maximum ==>
          && (forall u, n: nat :: n <= p.Deepest() && ReachIn(p, u, n) && p.site.included(u) ==>
                exists i :: PageAt(results, i, u))
          && ViewsListed(p, results)
          && !Blocked(p))
  }
}

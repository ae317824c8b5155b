/** Why the crawl's queue, which holds duplicates and mixes two levels, meets pages in the order of the levels. */
module CrawlOrder {
  import opened Wrappers
  import opened SiteGraph
  import opened SiteLevels
  import opened CrawlProofs
  import opened CrawlQueues

  // ---- What equal queues have in common ----

  lemma SameUrls(a: seq<MappedUrl>, a': seq<MappedUrl>, known: set<Url>)
    requires Fresh(a, known) == Fresh(a', known)
    ensures known + Urls(a) == known + Urls(a')
  {
    FreshUrls(a, known);
    FreshUrls(a', known);
    assert known + Urls(a) == known + (Urls(a) - known);
    assert known + Urls(a') == known + (Urls(a') - known);
  }

  lemma SameFresh(a: seq<MappedUrl>, a': seq<MappedUrl>, b: seq<MappedUrl>, b': seq<MappedUrl>, known: set<Url>)
    requires Fresh(a, known) == Fresh(a', known) && Fresh(b, known + Urls(a)) == Fresh(b', known + Urls(a))
    ensures Fresh(a + b, known) == Fresh(a' + b', known)
  {
    SameUrls(a, a', known);
    FreshOfConcat(a, b, known);
    FreshOfConcat(a', b', known);
  }

  /** Visited pages are known, and in normal form. */
  ghost predicate KnowsVisited(site: Site, seen: set<Key>, known: set<Url>) {
    forall u :: PageKey(u) in seen ==> u in known && site.normalize(u) == u
  }

  lemma QueuedSnoc(queued: seq<MappedUrl>, all: seq<MappedUrl>, item: MappedUrl, known: set<Url>)
    requires Fresh(queued, known) == Fresh(all, known)
    ensures Fresh(queued + [item], known) == Fresh(all + [item], known)
    ensures item.url in known ==> Fresh(queued, known) == Fresh(all + [item], known)
  {
    SameUrls(queued, all, known);
    FreshUrls(queued, known);
    FreshUrls(all, known);
    FreshSnoc(all, item, known);
    FreshSnoc(queued, item, known);
  }

  /** Links are compared before they are normalized, and what that drops is dropped anyway. */
  lemma {:induction false} QueuedFresh(site: Site, links: seq<Option<Url>>, seen: set<Key>, depth: nat, source: Source,
                                       known: set<Url>)
    requires KnowsVisited(site, seen, known)
    ensures Fresh(QueuedLinks(site, links, seen, depth, source), known) ==
      Fresh(LinksOf(site, links, depth, source), known)
  {
    if links == [] {
    } else {
      var n := |links| - 1;
      var queued, all := QueuedLinks(site, links[..n], seen, depth, source), LinksOf(site, links[..n], depth, source);
      QueuedFresh(site, links[..n], seen, depth, source, known);
      assert queued + [] == queued && all + [] == all;
      if FollowsLink(site, links[n]) {
        QueuedSnoc(queued, all, MappedUrl(site.normalize(links[n].value), depth, source), known);
      }
    }
  }

  // ---- The queue at a place in the levels ----

  /**
   The level under way, its pages visited and still to visit, and the parts of the queue that belong
   to it and to the next level.
   */
  datatype Place = Place(level: nat, done: seq<MappedUrl>, rest: seq<MappedUrl>, front: seq<MappedUrl>,
    back: seq<MappedUrl>)

  function Done(p: Plan, at: Place): seq<MappedUrl> {
    Earlier(p, at.level) + at.done
  }

  /** What the queue holds for the next level, if there is one. */
  ghost predicate BackHolds(p: Plan, at: Place) {
    if at.level < p.maxDepth
    then var known := Urls(Earlier(p, at.level + 1)); Fresh(at.back, known) == Fresh(Out(p, at.done), known)
    else at.back == []
  }

  /** Without what is known and without repetitions, the queue is the rest of a level and the begin of the next. */
  ghost predicate QueueAt(p: Plan, visited: set<Url>, at: Place) {
    && Level(p, at.level) == at.done + at.rest
    && visited == Urls(Done(p, at))
    && Fresh(at.front, visited) == at.rest
    && BackHolds(p, at)
  }

  /** When nothing of a level is left in the queue, the level is done and the next one begins. */
  function NextLevel(p: Plan, at: Place): Place {
    Place(at.level + 1, [], Level(p, at.level + 1), at.back, [])
  }

  lemma EnterLevel(p: Plan, visited: set<Url>, at: Place)
    requires QueueAt(p, visited, at) && at.front == [] && at.back != []
    ensures at.level < p.maxDepth && QueueAt(p, visited, NextLevel(p, at))
    ensures Done(p, NextLevel(p, at)) == Done(p, at)
  {
    var next := NextLevel(p, at);
    assert at.rest == [];
    assert at.done + [] == at.done;
    assert Done(p, next) == Earlier(p, next.level) == Done(p, at);
    assert Level(p, next.level) == Fresh(Out(p, at.done), Urls(Earlier(p, next.level)));
    assert [] + next.rest == next.rest;
  }

  lemma FreshHead(item: MappedUrl, rest: seq<MappedUrl>, known: set<Url>)
    ensures Fresh([item] + rest, known) == IfNew(item, known) + Fresh(rest, known + {item.url})
  {
    FreshOfConcat([item], rest, known);
    assert Urls([item]) == {item.url};
    FreshSnoc([], item, known);
    assert [] + [item] == [item];
  }

  /** A visited URL at the front of the queue is none of the level's. */
  lemma SkipVisited(p: Plan, visited: set<Url>, at: Place)
    requires QueueAt(p, visited, at) && at.front != [] && at.front[0].url in visited
    ensures QueueAt(p, visited, at.(front := at.front[1..]))
  {
    assert at.front == [at.front[0]] + at.front[1..];
    FreshHead(at.front[0], at.front[1..], visited);
    assert visited + {at.front[0].url} == visited;
  }

  /** The front of the queue was visited, and this was queued for it. */
  function Advanced(at: Place, queued: seq<MappedUrl>): Place
    requires at.front != []
  {
    var rest := if at.rest == [] then [] else at.rest[1..];
    Place(at.level, at.done + [at.front[0]], rest, at.front[1..], at.back + queued)
  }

  /** A new URL at the front of the queue is the next of its level. */
  lemma NextOfLevel(p: Plan, visited: set<Url>, at: Place)
    requires QueueAt(p, visited, at) && at.front != [] && at.front[0].url !in visited
    ensures at.rest != [] && at.rest[0] == at.front[0]
    ensures Fresh(at.front[1..], visited + {at.front[0].url}) == at.rest[1..]
  {
    assert at.front == [at.front[0]] + at.front[1..];
    FreshHead(at.front[0], at.front[1..], visited);
  }

  lemma AdvancedParts(p: Plan, visited: set<Url>, at: Place, queued: seq<MappedUrl>)
    requires at.front != [] && at.rest != [] && at.rest[0] == at.front[0]
    requires Level(p, at.level) == at.done + at.rest && visited == Urls(Done(p, at))
    ensures var next := Advanced(at, queued);
      && Level(p, at.level) == next.done + next.rest
      && Done(p, next) == Done(p, at) + [at.front[0]]
      && visited + {at.front[0].url} == Urls(Done(p, next))
  {
    var next := Advanced(at, queued);
    assert at.rest == [at.rest[0]] + at.rest[1..];
    Regroup(at.done, [at.rest[0]], at.rest[1..]);
    Regroup(Earlier(p, at.level), at.done, [at.front[0]]);
    UrlsOfConcat(Done(p, at), [at.front[0]]);
    assert Urls([at.front[0]]) == {at.front[0].url};
  }

  lemma DoneIsEarlier(p: Plan, at: Place)
    requires Level(p, at.level) == at.done + at.rest
    ensures Urls(Done(p, at)) <= Urls(Earlier(p, at.level + 1))
  {
    UrlsOfConcat(Earlier(p, at.level), Level(p, at.level));
    UrlsOfConcat(Earlier(p, at.level), at.done);
    UrlsOfConcat(at.done, at.rest);
  }

  /** What is queued for a page amounts to what it leads to, as far as that is not known. */
  ghost predicate Amounts(p: Plan, visited: set<Url>, m: MappedUrl, level: nat, queued: seq<MappedUrl>) {
    if level < p.maxDepth
    then forall known :: visited <= known ==> Fresh(queued, known) == Fresh(OutOf(p, m), known)
    else queued == []
  }

  lemma AdvanceBack(p: Plan, visited: set<Url>, at: Place, queued: seq<MappedUrl>)
    requires at.front != [] && at.rest != [] && BackHolds(p, at)
    requires visited <= Urls(Earlier(p, at.level + 1)) && Amounts(p, visited, at.front[0], at.level, queued)
    ensures BackHolds(p, Advanced(at, queued))
  {
    if at.level < p.maxDepth {
      var known := Urls(Earlier(p, at.level + 1));
      OutSnoc(p, at.done, at.front[0]);
      SameFresh(at.back, Out(p, at.done), queued, OutOf(p, at.front[0]), known);
    }
  }

  /** The page at the front was visited: what was queued for it amounts to what it leads to. */
  lemma VisitNext(p: Plan, visited: set<Url>, at: Place, queued: seq<MappedUrl>)
    requires QueueAt(p, visited, at) && at.front != [] && at.front[0].url !in visited
    requires Amounts(p, visited + {at.front[0].url}, at.front[0], at.level, queued)
    ensures at.rest != [] && at.rest[0] == at.front[0]
    ensures QueueAt(p, visited + {at.front[0].url}, Advanced(at, queued))
    ensures Done(p, Advanced(at, queued)) == Done(p, at) + [at.front[0]]
  {
    NextOfLevel(p, visited, at);
    AdvancedParts(p, visited, at, queued);
    DoneIsEarlier(p, Advanced(at, queued));
    AdvanceBack(p, visited + {at.front[0].url}, at, queued);
  }

  /** Both selectors together queue what a page leads to. */
  lemma PageAmounts(p: Plan, seen: set<Key>, visited: set<Url>, m: MappedUrl, level: nat)
    requires p.site.included(m.url) && p.site.fetch(m.url).Html? && KnowsVisited(p.site, seen, visited)
    requires level < p.maxDepth
    ensures Amounts(p, visited, m, level, QueuedFor(p.site, p.site.fetch(m.url), seen, m.depth + 1))
  {
    var page := p.site.fetch(m.url);
    var queued := QueuedLinks(p.site, page.links, seen, m.depth + 1, LinkSource(page));
    var routes := RoutesOf(p.site, page.controls, m.depth + 1);
    forall known: set<Url> | visited <= known ensures Fresh(queued + routes, known) == Fresh(OutOf(p, m), known) {
      QueuedFresh(p.site, page.links, seen, m.depth + 1, LinkSource(page), known);
      SameFresh(queued, LinksOf(p.site, page.links, m.depth + 1, LinkSource(page)), routes, routes, known);
    }
  }

  lemma NothingAmounts(p: Plan, visited: set<Url>, m: MappedUrl, level: nat)
    requires level >= p.maxDepth || !p.site.included(m.url) || !p.site.fetch(m.url).Html?
    ensures Amounts(p, visited, m, level, [])
  {
  }

  // ---- Depths ----

  ghost predicate AllAt(items: seq<MappedUrl>, depth: nat) {
    forall i :: 0 <= i < |items| ==> items[i].depth == depth
  }

  lemma {:induction false} FreshDepth(items: seq<MappedUrl>, known: set<Url>, depth: nat)
    requires AllAt(items, depth)
    ensures AllAt(Fresh(items, known), depth)
  {
    if items == [] {
    } else {
      FreshDepth(items[..|items| - 1], known, depth);
    }
  }

  lemma {:induction false} LinksDepth(site: Site, links: seq<Option<Url>>, depth: nat, source: Source)
    ensures AllAt(LinksOf(site, links, depth, source), depth)
  {
    if links == [] {
    } else {
      LinksDepth(site, links[..|links| - 1], depth, source);
    }
  }

  lemma {:induction false} RoutesDepth(site: Site, controls: seq<Control>, depth: nat)
    ensures AllAt(RoutesOf(site, controls, depth), depth)
  {
    if controls == [] {
    } else {
      RoutesDepth(site, controls[..|controls| - 1], depth);
    }
  }

  lemma SuccessorsDepth(site: Site, page: Page, depth: nat)
    ensures AllAt(Successors(site, page, depth), depth)
  {
    if page.Html? {
      LinksDepth(site, page.links, depth, LinkSource(page));
      RoutesDepth(site, page.controls, depth);
    }
  }

  lemma JoinedDepth(a: seq<MappedUrl>, b: seq<MappedUrl>, depth: nat)
    requires AllAt(a, depth) && AllAt(b, depth)
    ensures AllAt(a + b, depth)
  {
  }

  lemma {:induction false} OutDepth(p: Plan, items: seq<MappedUrl>, depth: nat)
    requires AllAt(items, depth)
    ensures AllAt(Out(p, items), depth + 1)
  {
    if items == [] {
    } else {
      var n := |items| - 1;
      OutDepth(p, items[..n], depth);
      SuccessorsDepth(p.site, p.site.fetch(items[n].url), depth + 1);
      JoinedDepth(Out(p, items[..n]), OutOf(p, items[n]), depth + 1);
    }
  }

  /** The pages of a level are as deep as the level. */
  lemma {:induction false} LevelDepth(p: Plan, n: nat)
    ensures AllAt(Level(p, n), n)
  {
    if n == 0 {
    } else {
      LevelDepth(p, n - 1);
      OutDepth(p, Level(p, n - 1), n - 1);
      FreshDepth(Out(p, Level(p, n - 1)), Urls(Earlier(p, n)), n);
    }
  }

  // ---- The listing ----

  lemma TakeOfPrefix(a: seq<MappedUrl>, b: seq<MappedUrl>, n: int)
    requires a <= b && |Take(a, n)| >= n
    ensures Take(b, n) == Take(a, n)
  {
  }

  // ---- The whole crawl ----

  ghost predicate NoneBlocks(p: Plan, items: seq<MappedUrl>) {
    forall i :: 0 <= i < |items| ==> !Blocks(p, items[i].url, items[i].depth)
  }

  /** The visited pages are listed in order, up to the cap, and none of them blocks. */
  ghost predicate ListsDone(p: Plan, results: seq<MappedUrl>, done: seq<MappedUrl>) {
    results == Take(Listing(p, done), p.maximum) && NoneBlocks(p, done)
  }

  /** The crawl's place in the levels: what it has listed, and what its queue amounts to until the map is full. */
  ghost predicate OrderAt(p: Plan, results: seq<MappedUrl>, pending: seq<MappedUrl>, visited: set<Url>, at: Place) {
    && at.level <= p.Deepest() && Level(p, at.level) == at.done + at.rest
    && ListsDone(p, results, Done(p, at))
    && (|results| < p.maximum ==> pending == at.front + at.back && QueueAt(p, visited, at))
  }

  ghost predicate OrderInv(p: Plan, s: Progress, at: Place) {
    OrderAt(p, s.results, s.pending, s.dist.Keys, at)
  }

  /** The map is not full, and the front of the queue is a new page. */
  ghost predicate AtNew(p: Plan, results: seq<MappedUrl>, pending: seq<MappedUrl>, visited: set<Url>, at: Place,
                        m: MappedUrl) {
    && OrderAt(p, results, pending, visited, at) && at.front != [] && |results| < p.maximum
    && pending != [] && m == pending[0] && m.url !in visited
  }

  lemma StartOfOrder(p: Plan)
    ensures OrderInv(p, Progress({}, [], [MappedUrl(p.seed, 0, Seed)], map[], 0),
      Place(0, [], Level(p, 0), [MappedUrl(p.seed, 0, Seed)], []))
  {
    var seed := MappedUrl(p.seed, 0, Seed);
    var at := Place(0, [], Level(p, 0), [seed], []);
    assert [] + [seed] == [seed] && [seed] + [] == [seed];
    assert Done(p, at) == [];
    FreshSnoc([], seed, {});
    assert Fresh(at.back, Urls(Earlier(p, 1))) == Fresh(Out(p, at.done), Urls(Earlier(p, 1)));
  }

  /** The place from which the front of the queue is taken. */
  function Turned(p: Plan, at: Place): Place {
    if at.front == [] then NextLevel(p, at) else at
  }

  lemma TurnQueue(p: Plan, pending: seq<MappedUrl>, visited: set<Url>, at: Place)
    requires QueueAt(p, visited, at) && at.front == [] && pending == at.front + at.back && pending != []
    ensures var next := NextLevel(p, at);
      && at.level < p.maxDepth && QueueAt(p, visited, next) && Done(p, next) == Done(p, at)
      && pending == next.front + next.back && next.front != []
  {
    assert pending == at.back && at.back + [] == at.back;
    EnterLevel(p, visited, at);
  }

  lemma TurnLevel(p: Plan, s: Progress, at: Place)
    requires OrderInv(p, s, at) && s.pending != [] && |s.results| < p.maximum
    ensures OrderInv(p, s, Turned(p, at)) && Turned(p, at).front != []
  {
    if at.front == [] {
      TurnQueue(p, s.pending, s.dist.Keys, at);
    }
  }

  lemma PopSkipped(p: Plan, pending: seq<MappedUrl>, at: Place)
    requires pending == at.front + at.back && at.front != []
    ensures pending[1..] == at.front[1..] + at.back && Done(p, at.(front := at.front[1..])) == Done(p, at)
  {
  }

  lemma SkipAt(p: Plan, results: seq<MappedUrl>, pending: seq<MappedUrl>, visited: set<Url>, at: Place)
    requires OrderAt(p, results, pending, visited, at) && at.front != [] && pending != [] && |results| < p.maximum
    requires at.front[0].url in visited
    ensures OrderAt(p, results, pending[1..], visited, at.(front := at.front[1..]))
  {
    SkipVisited(p, visited, at);
    PopSkipped(p, pending, at);
  }

  lemma SkipInOrder(p: Plan, s: Progress, at: Place)
    requires OrderInv(p, s, at) && at.front != [] && s.pending != [] && |s.results| < p.maximum
    requires s.pending[0].url in s.dist
    ensures OrderInv(p, s.(pending := s.pending[1..]), at.(front := at.front[1..]))
  {
    SkipAt(p, s.results, s.pending, s.dist.Keys, at);
  }

  lemma ListsOneMore(p: Plan, results: seq<MappedUrl>, done: seq<MappedUrl>, m: MappedUrl, results': seq<MappedUrl>)
    requires ListsDone(p, results, done) && |results| < p.maximum && !Blocks(p, m.url, m.depth)
    requires results' == Take(results + ListingOf(p, m), p.maximum)
    ensures ListsDone(p, results', done + [m])
  {
    ListingSnoc(p, done, m);
  }

  lemma PopPending(pending: seq<MappedUrl>, at: Place, queued: seq<MappedUrl>)
    requires pending == at.front + at.back && at.front != [] && at.rest != []
    ensures pending[0] == at.front[0]
    ensures pending[1..] + queued == Advanced(at, queued).front + Advanced(at, queued).back
  {
    assert pending[1..] == at.front[1..] + at.back;
    Regroup(at.front[1..], at.back, queued);
  }

  lemma ListAt(p: Plan, results: seq<MappedUrl>, pending: seq<MappedUrl>, visited: set<Url>, at: Place, m: MappedUrl,
               results': seq<MappedUrl>, queued: seq<MappedUrl>)
    requires AtNew(p, results, pending, visited, at, m) && !Blocks(p, m.url, m.depth)
    requires results' == Take(results + ListingOf(p, m), p.maximum)
    ensures at.rest != [] && Level(p, at.level) == Advanced(at, queued).done + Advanced(at, queued).rest
    ensures ListsDone(p, results', Done(p, Advanced(at, queued)))
  {
    NextOfLevel(p, visited, at);
    AdvancedParts(p, visited, at, queued);
    ListsOneMore(p, results, Done(p, at), m, results');
  }

  /** The next page was visited: its entries are listed, and what it leads to is queued until the map is full. */
  lemma VisitAt(p: Plan, results: seq<MappedUrl>, pending: seq<MappedUrl>, visited: set<Url>, at: Place, m: MappedUrl,
                queued: seq<MappedUrl>, results': seq<MappedUrl>, pending': seq<MappedUrl>)
    requires AtNew(p, results, pending, visited, at, m) && !Blocks(p, m.url, m.depth)
    requires results' == Take(results + ListingOf(p, m), p.maximum)
    requires |results'| < p.maximum ==> pending' == pending[1..] + queued
    requires |results'| < p.maximum ==> Amounts(p, visited + {m.url}, m, at.level, queued)
    ensures at.rest != [] && OrderAt(p, results', pending', visited + {m.url}, Advanced(at, queued))
  {
    ListAt(p, results, pending, visited, at, m, results', queued);
    PopPending(pending, at, queued);
    if |results'| < p.maximum {
      VisitNext(p, visited, at, queued);
    }
  }

  lemma DepthAt(p: Plan, results: seq<MappedUrl>, pending: seq<MappedUrl>, visited: set<Url>, at: Place, m: MappedUrl)
    requires AtNew(p, results, pending, visited, at, m)
    ensures m.depth == at.level
  {
    NextOfLevel(p, visited, at);
    LevelDepth(p, at.level);
    assert Level(p, at.level)[|at.done|] == at.rest[0];
  }

  /** The next page was visited and leads nowhere: it is filtered out, too deep, or has no HTML. */
  lemma LeaveAt(p: Plan, results: seq<MappedUrl>, pending: seq<MappedUrl>, visited: set<Url>, at: Place, m: MappedUrl)
    requires AtNew(p, results, pending, visited, at, m) && !Blocks(p, m.url, m.depth)
    requires !p.site.included(m.url) || m.depth >= p.maxDepth || p.site.fetch(m.url).NoHtml?
    ensures at.rest != []
    ensures OrderAt(p, if p.site.included(m.url) then results + [m] else results, pending[1..], visited + {m.url},
      Advanced(at, []))
  {
    DepthAt(p, results, pending, visited, at, m);
    assert results + [] == results && pending[1..] + [] == pending[1..] && [m] + [] == [m];
    NothingAmounts(p, visited + {m.url}, m, at.level);
    VisitAt(p, results, pending, visited, at, m, [], if p.site.included(m.url) then results + [m] else results,
      pending[1..]);
  }

  lemma VisitedKeys(s: Progress)
    requires s.pending != []
    ensures Visited(s).dist.Keys == s.dist.Keys + {s.pending[0].url}
  {
  }

  lemma LeaveInOrder(p: Plan, s: Progress, at: Place)
    requires s.pending != [] && AtNew(p, s.results, s.pending, s.dist.Keys, at, s.pending[0])
    requires var m := s.pending[0];
      && !Blocks(p, m.url, m.depth)
      && (!p.site.included(m.url) || m.depth >= p.maxDepth || p.site.fetch(m.url).NoHtml?)
    ensures OrderInv(p, if p.site.included(s.pending[0].url) then Listed(s) else Visited(s), Advanced(at, []))
  {
    VisitedKeys(s);
    LeaveAt(p, s.results, s.pending, s.dist.Keys, at, s.pending[0]);
  }

  lemma ExpansionLists(p: Plan, results: seq<MappedUrl>, m: MappedUrl, page: Page)
    requires p.site.included(m.url) && m.depth < p.maxDepth && page == p.site.fetch(m.url) && page.Html?
    ensures results + [m] + ViewsOf(p.site, page.controls, m.url, m.depth) == results + ListingOf(p, m)
  {
    Regroup(results, [m], ViewsOf(p.site, page.controls, m.url, m.depth));
  }

  /** The next page was visited and expanded. */
  lemma ExpandAt(p: Plan, results: seq<MappedUrl>, pending: seq<MappedUrl>, visited: set<Url>, at: Place, m: MappedUrl,
                 page: Page, seen: set<Key>, results': seq<MappedUrl>, pending': seq<MappedUrl>)
    requires AtNew(p, results, pending, visited, at, m) && !Blocks(p, m.url, m.depth)
    requires p.site.included(m.url) && m.depth < p.maxDepth && page == p.site.fetch(m.url) && page.Html?
    requires KnowsVisited(p.site, seen, visited + {m.url})
    requires results' == Take(results + [m] + ViewsOf(p.site, page.controls, m.url, m.depth), p.maximum)
    requires |results'| < p.maximum ==> pending' == pending[1..] + QueuedFor(p.site, page, seen, m.depth + 1)
    ensures OrderAt(p, results', pending', visited + {m.url},
      Advanced(at, QueuedFor(p.site, page, seen, m.depth + 1)))
  {
    var queued := QueuedFor(p.site, page, seen, m.depth + 1);
    DepthAt(p, results, pending, visited, at, m);
    PageAmounts(p, seen, visited + {m.url}, m, at.level);
    ExpansionLists(p, results, m, page);
    VisitAt(p, results, pending, visited, at, m, queued, results', pending');
  }

  // ---- The end ----

  lemma LevelAfter(p: Plan, n: nat)
    ensures Earlier(p, n + 1) == Earlier(p, n) + Level(p, n)
    ensures Level(p, n + 1) == Fresh(Out(p, Level(p, n)), Urls(Earlier(p, n + 1)))
  {
  }

  lemma NothingLeads(p: Plan, n: nat)
    requires Level(p, n) == []
    ensures Level(p, n + 1) == [] && Earlier(p, n + 1) == Earlier(p, n)
  {
    LevelAfter(p, n);
    assert Out(p, []) == [] && Earlier(p, n) + [] == Earlier(p, n);
  }

  /** Behind an empty level all are empty. */
  lemma {:induction false} LevelsEnd(p: Plan, n: nat, m: nat)
    requires n <= m && Level(p, n) == []
    ensures Level(p, m) == [] && Earlier(p, m) == Earlier(p, n)
    decreases m - n
  {
    if n == m {
    } else {
      NothingLeads(p, n);
      LevelsEnd(p, n + 1, m);
    }
  }

  lemma {:induction false} EarlierGrows(p: Plan, n: nat, m: nat)
    requires n <= m
    ensures Earlier(p, n) <= Earlier(p, m)
    decreases m
  {
    if m > n {
      EarlierGrows(p, n, m - 1);
    }
  }

  lemma NextIsEmpty(p: Plan, at: Place)
    requires Level(p, at.level) == at.done && at.level < p.maxDepth && BackHolds(p, at) && at.back == []
    ensures Level(p, at.level + 1) == []
  {
    LevelAfter(p, at.level);
    assert Fresh(at.back, Urls(Earlier(p, at.level + 1))) == [];
  }

  lemma LevelDone(p: Plan, at: Place)
    requires Level(p, at.level) == at.done
    ensures Done(p, at) == Earlier(p, at.level + 1)
  {
    LevelAfter(p, at.level);
  }

  lemma NothingLeft(p: Plan, visited: set<Url>, at: Place)
    requires QueueAt(p, visited, at) && at.front == [] && at.back == []
    ensures Level(p, at.level) == at.done
    ensures at.level < p.maxDepth ==> Level(p, at.level + 1) == []
  {
    assert at.rest == [] && at.done + [] == at.done;
    if at.level < p.maxDepth {
      NextIsEmpty(p, at);
    }
  }

  lemma VisitsEnd(p: Plan, n: nat)
    requires n <= p.Deepest() && (n < p.maxDepth ==> Level(p, n + 1) == [])
    ensures Visits(p) == Earlier(p, n + 1)
  {
    if n < p.maxDepth {
      LevelsEnd(p, n + 1, p.Deepest() + 1);
    }
  }

  /** With an empty queue every page within the depth was visited. */
  lemma AllVisited(p: Plan, visited: set<Url>, at: Place)
    requires QueueAt(p, visited, at) && at.front == [] && at.back == [] && at.level <= p.Deepest()
    ensures Done(p, at) == Visits(p)
  {
    NothingLeft(p, visited, at);
    LevelDone(p, at);
    VisitsEnd(p, at.level);
  }

  /** The visited pages are the first ones of all visits. */
  lemma DoneComesFirst(p: Plan, at: Place)
    requires at.level <= p.Deepest() && Level(p, at.level) == at.done + at.rest
    ensures Done(p, at) <= Visits(p)
  {
    Regroup(Earlier(p, at.level), at.done, at.rest);
    EarlierGrows(p, at.level + 1, p.Deepest() + 1);
  }

  lemma FullBefore(p: Plan, done: seq<MappedUrl>, k: nat)
    requires done <= Visits(p) && |done| <= k < |Visits(p)| && |Listing(p, done)| >= p.maximum
    ensures |Listing(p, Visits(p)[..k])| >= p.maximum
  {
    var first := Visits(p)[..k];
    assert first == done + first[|done|..];
    ListingGrows(p, done, first[|done|..]);
  }

  /** A crawl that ends returns the site map, and nothing blocked it. */
  lemma EndInOrder(p: Plan, s: Progress, at: Place)
    requires OrderInv(p, s, at) && (s.pending == [] || |s.results| >= p.maximum)
    ensures s.results == SiteMap(p) && forall k :: !BlocksAt(p, k)
  {
    var done := Done(p, at);
    DoneComesFirst(p, at);
    if |s.results| < p.maximum {
      AllVisited(p, s.dist.Keys, at);
    } else {
      assert Visits(p) == done + Visits(p)[|done|..];
      ListingGrows(p, done, Visits(p)[|done|..]);
      TakeOfPrefix(Listing(p, done), Listing(p, Visits(p)), p.maximum);
    }
    forall k | 0 <= k < |Visits(p)| ensures !BlocksAt(p, k) {
      if k < |done| {
        assert Visits(p)[k] == done[k];
      } else {
        FullBefore(p, done, k);
      }
    }
  }

  /** A page that blocks is met where the order of the levels has it, with the map not yet full. */
  lemma BlockedInOrder(p: Plan, s: Progress, at: Place)
    requires s.pending != [] && AtNew(p, s.results, s.pending, s.dist.Keys, at, s.pending[0])
    requires Blocks(p, s.pending[0].url, s.pending[0].depth)
    ensures FailsAt(p, |Done(p, at)|, if p.site.safe(s.pending[0].url) then FetchFailed else UnsafeTarget)
  {
    var done := Done(p, at);
    NextOfLevel(p, s.dist.Keys, at);
    AdvancedParts(p, s.dist.Keys, at, []);
    DoneComesFirst(p, Advanced(at, []));
    assert Visits(p)[|done|] == s.pending[0] && Visits(p)[..|done|] == done;
    assert forall i :: 0 <= i < |done| ==> Visits(p)[i] == done[i];
  }

  lemma SplitAtHash(u: Url, v: Url, x: string, y: string)
    requires '#' !in u && '#' !in v && ViewUrl(u, x) == ViewUrl(v, y)
    ensures u == v
  {
    var w := ViewUrl(u, x);
    assert w[|u|] == '#' && w[|v|] == '#';
    assert forall i :: 0 <= i < |u| ==> w[i] == u[i];
    assert forall i :: 0 <= i < |v| ==> w[i] == v[i];
    assert |u| == |v|;
    assert u == w[..|u|] == v;
  }

  /** While a page is being expanded for the first time, none of its views is keyed. */
  lemma NoViewYet(p: Plan, s: Progress, c: MappedUrl)
    requires Expanding(p, s, c)
    ensures forall id :: ViewKey(ViewUrl(c.url, id)) !in s.seen
  {
    forall id ensures ViewKey(ViewUrl(c.url, id)) !in s.seen {
      if ViewKey(ViewUrl(c.url, id)) in s.seen {
        var i :| ViewAt(s.results, i, ViewUrl(c.url, id));
        assert ViewOfPage(p, s.results, i);
        var j, x :| OfferedBy(p, s.results, j, x) && j < i && s.results[i].url == ViewUrl(s.results[j].url, x);
        SplitAtHash(s.results[j].url, c.url, x, id);
        assert false;
      }
    }
  }
}

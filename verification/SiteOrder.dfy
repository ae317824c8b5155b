/** The order of the levels told by places: which link or route of which page leads to a page first. */
module SiteOrder {
  import opened SiteGraph
  import opened SiteLevels

  /** A place on a page of a level; the routes are counted after the links. */
  datatype Lead = Lead(parent: nat, place: nat)

  predicate Precedes(a: Lead, b: Lead) {
    a.parent < b.parent || (a.parent == b.parent && a.place < b.place)
  }

  /** The place holds a link of the document within the origin. */
  predicate LinkAt(site: Site, page: Page, place: nat, depth: nat, m: MappedUrl) {
    && page.Html? && place < |page.links| && page.links[place].Some? && site.inOrigin(page.links[place].value)
    && m == MappedUrl(site.normalize(page.links[place].value), depth, if page.rendered then RenderedLink else Link)
  }

  /** The place holds a route within the origin, on a control with a safe name. */
  predicate RouteAt(site: Site, page: Page, place: nat, depth: nat, m: MappedUrl) {
    && page.Html? && |page.links| <= place < |page.links| + |page.controls|
    && var k := page.controls[place - |page.links|];
       && !site.unsafeName(k.name) && k.target.Route? && k.target.href.Some? && site.inOrigin(k.target.href.value)
       && m == MappedUrl(site.normalize(k.target.href.value), depth, RenderedLink)
  }

  /** The place on this page leads to m. */
  predicate HeldAt(site: Site, page: Page, place: nat, depth: nat, m: MappedUrl) {
    LinkAt(site, page, place, depth, m) || RouteAt(site, page, place, depth, m)
  }

  /** The place on an included page among these leads to m, one level deeper. */
  predicate LeadsTo(p: Plan, items: seq<MappedUrl>, a: Lead, m: MappedUrl) {
    && a.parent < |items| && p.site.included(items[a.parent].url)
    && HeldAt(p.site, p.site.fetch(items[a.parent].url), a.place, items[a.parent].depth + 1, m)
  }

  // ---- Places on one page ----

  /** m stands at this place, and is the i-th of those found. */
  ghost predicate FoundAt(places: seq<nat>, found: seq<MappedUrl>, i: int, place: nat, m: MappedUrl) {
    0 <= i < |places| && i < |found| && places[i] == place && found[i] == m
  }

  /** What the first n places hold, in order, and nothing else. */
  ghost predicate Found(site: Site, page: Page, depth: nat, places: seq<nat>, found: seq<MappedUrl>, n: nat) {
    && |places| == |found|
    && (forall i :: 0 <= i < |places| ==> places[i] < n && HeldAt(site, page, places[i], depth, found[i]))
    && (forall i, j :: 0 <= i < j < |places| ==> places[i] < places[j])
    && (forall place: nat, m :: place < n && HeldAt(site, page, place, depth, m) ==>
          exists i :: FoundAt(places, found, i, place, m))
  }

  lemma FoundOne(site: Site, page: Page, depth: nat, places: seq<nat>, found: seq<MappedUrl>, n: nat, item: MappedUrl)
    requires Found(site, page, depth, places, found, n)
    requires forall m :: HeldAt(site, page, n, depth, m) <==> m == item
    ensures Found(site, page, depth, places + [n], found + [item], n + 1)
  {
    var places', found' := places + [n], found + [item];
    assert FoundAt(places', found', |places|, n, item);
    forall i, place, m | FoundAt(places, found, i, place, m) ensures FoundAt(places', found', i, place, m) {
    }
    forall place: nat, m | place < n + 1 && HeldAt(site, page, place, depth, m)
      ensures exists i :: FoundAt(places', found', i, place, m)
    {
      if place < n {
        var i :| FoundAt(places, found, i, place, m);
        assert FoundAt(places', found', i, place, m);
      }
    }
  }

  lemma FoundNone(site: Site, page: Page, depth: nat, places: seq<nat>, found: seq<MappedUrl>, n: nat)
    requires Found(site, page, depth, places, found, n) && forall m :: !HeldAt(site, page, n, depth, m)
    ensures Found(site, page, depth, places, found, n + 1)
  {
  }

  lemma {:induction false} LinkPlaces(site: Site, page: Page, n: nat, depth: nat) returns (places: seq<nat>)
    requires page.Html? && n <= |page.links|
    ensures Found(site, page, depth, places, LinksOf(site, page.links[..n], depth, LinkSource(page)), n)
  {
    places := [];
    if n == 0 {
    } else {
      var l, before := page.links[n - 1], LinksOf(site, page.links[..n - 1], depth, LinkSource(page));
      places := LinkPlaces(site, page, n - 1, depth);
      assert page.links[..n][..n - 1] == page.links[..n - 1];
      if FollowsLink(site, l) {
        FoundOne(site, page, depth, places, before, n - 1,
          MappedUrl(site.normalize(l.value), depth, LinkSource(page)));
        places := places + [n - 1];
      } else {
        assert before + [] == before;
        FoundNone(site, page, depth, places, before, n - 1);
      }
    }
  }

  /** One more control after the links of a page and the routes of the controls before it. */
  lemma RouteFound(site: Site, page: Page, depth: nat, places: seq<nat>, found: seq<MappedUrl>, place: nat,
                   places': seq<nat>, found': seq<MappedUrl>)
    requires page.Html? && |page.links| <= place < |page.links| + |page.controls|
    requires Found(site, page, depth, places, found, place)
    requires var k := page.controls[place - |page.links|];
      && places' == (if FollowsControl(site, k) then places + [place] else places)
      && found' == found
           + if FollowsControl(site, k)
             then [MappedUrl(site.normalize(k.target.href.value), depth, RenderedLink)] else []
    ensures Found(site, page, depth, places', found', place + 1)
  {
    var k := page.controls[place - |page.links|];
    if FollowsControl(site, k) {
      FoundOne(site, page, depth, places, found, place,
        MappedUrl(site.normalize(k.target.href.value), depth, RenderedLink));
    } else {
      assert found + [] == found;
      FoundNone(site, page, depth, places, found, place);
    }
  }

  /** The links of a page and the routes of its first n controls. */
  function FirstRoutes(site: Site, page: Page, n: nat, depth: nat): seq<MappedUrl>
    requires page.Html? && n <= |page.controls|
  {
    LinksOf(site, page.links, depth, LinkSource(page)) + RoutesOf(site, page.controls[..n], depth)
  }

  lemma FirstRoutesStep(site: Site, page: Page, n: nat, depth: nat)
    requires page.Html? && n < |page.controls|
    ensures FirstRoutes(site, page, n + 1, depth) == FirstRoutes(site, page, n, depth)
      + if FollowsControl(site, page.controls[n])
        then [MappedUrl(site.normalize(page.controls[n].target.href.value), depth, RenderedLink)] else []
  {
    assert page.controls[..n + 1][..n] == page.controls[..n];
  }

  lemma FirstRoutesBounds(site: Site, page: Page, depth: nat)
    requires page.Html?
    ensures FirstRoutes(site, page, 0, depth) ==
      LinksOf(site, page.links[..|page.links|], depth, LinkSource(page))
    ensures FirstRoutes(site, page, |page.controls|, depth) == Successors(site, page, depth)
  {
    assert page.links[..|page.links|] == page.links && page.controls[..|page.controls|] == page.controls;
  }

  /** What the first n controls add to the places of the links. */
  function RoutesFrom(site: Site, page: Page, n: nat, places: seq<nat>): seq<nat>
    requires page.Html? && n <= |page.controls|
    decreases n
  {
    if n == 0 then places
    else
      var before := RoutesFrom(site, page, n - 1, places);
      if FollowsControl(site, page.controls[n - 1]) then before + [|page.links| + n - 1] else before
  }

  lemma {:induction false} RoutePlaces(site: Site, page: Page, n: nat, depth: nat, places: seq<nat>)
    requires page.Html? && n <= |page.controls|
    requires Found(site, page, depth, places, FirstRoutes(site, page, 0, depth), |page.links|)
    ensures Found(site, page, depth, RoutesFrom(site, page, n, places), FirstRoutes(site, page, n, depth),
      |page.links| + n)
    decreases n
  {
    if n == 0 {
    } else {
      RoutePlaces(site, page, n - 1, depth, places);
      FirstRoutesStep(site, page, n - 1, depth);
      RouteFound(site, page, depth, RoutesFrom(site, page, n - 1, places), FirstRoutes(site, page, n - 1, depth),
        |page.links| + n - 1, RoutesFrom(site, page, n, places), FirstRoutes(site, page, n, depth));
    }
  }

  /** The successors of a page, in the order of its document. */
  lemma SuccessorPlaces(site: Site, page: Page, depth: nat) returns (places: seq<nat>)
    ensures |places| == |Successors(site, page, depth)|
    ensures forall i :: 0 <= i < |places| ==> HeldAt(site, page, places[i], depth, Successors(site, page, depth)[i])
    ensures forall i, j :: 0 <= i < j < |places| ==> places[i] < places[j]
    ensures forall place: nat, m :: HeldAt(site, page, place, depth, m) ==>
      exists i :: FoundAt(places, Successors(site, page, depth), i, place, m)
  {
    places := [];
    if page.Html? {
      var found := Successors(site, page, depth);
      places := LinkPlaces(site, page, |page.links|, depth);
      FirstRoutesBounds(site, page, depth);
      RoutePlaces(site, page, |page.controls|, depth, places);
      places := RoutesFrom(site, page, |page.controls|, places);
      assert Found(site, page, depth, places, found, |page.links| + |page.controls|);
      forall place: nat, m | HeldAt(site, page, place, depth, m)
        ensures exists i :: FoundAt(places, found, i, place, m)
      {
        assert place < |page.links| + |page.controls|;
      }
    }
  }

  // ---- Places on a level ----

  ghost predicate LedTo(leads: seq<Lead>, out: seq<MappedUrl>, i: int, a: Lead, m: MappedUrl) {
    0 <= i < |leads| && i < |out| && leads[i] == a && out[i] == m
  }

  /** The leads of these items, in order, to what they lead to. */
  ghost predicate Leads(p: Plan, items: seq<MappedUrl>, leads: seq<Lead>, out: seq<MappedUrl>) {
    && |leads| == |out|
    && (forall i :: 0 <= i < |leads| ==> LeadsTo(p, items, leads[i], out[i]))
    && (forall i, j :: 0 <= i < j < |leads| ==> Precedes(leads[i], leads[j]))
    && (forall a, m :: LeadsTo(p, items, a, m) ==> exists i :: LedTo(leads, out, i, a, m))
  }

  function OnPage(n: nat, places: seq<nat>): seq<Lead> {
    seq(|places|, i requires 0 <= i < |places| => Lead(n, places[i]))
  }

  /** What the last page of these leads to, place by place. */
  ghost predicate LastLeads(p: Plan, items: seq<MappedUrl>, n: nat, places: seq<nat>, found: seq<MappedUrl>) {
    && |places| == |found|
    && (forall i :: 0 <= i < |places| ==> LeadsTo(p, items, Lead(n, places[i]), found[i]))
    && (forall i, j :: 0 <= i < j < |places| ==> places[i] < places[j])
    && (forall place: nat, m :: LeadsTo(p, items, Lead(n, place), m) ==>
          exists i :: FoundAt(places, found, i, place, m))
  }

  lemma LeadsStay(p: Plan, items: seq<MappedUrl>, item: MappedUrl, a: Lead, m: MappedUrl)
    requires a.parent < |items|
    ensures LeadsTo(p, items + [item], a, m) <==> LeadsTo(p, items, a, m)
  {
  }

  lemma LeadsInOrder(p: Plan, items: seq<MappedUrl>, leads: seq<Lead>, out: seq<MappedUrl>, places: seq<nat>)
    requires Leads(p, items, leads, out) && forall i, j :: 0 <= i < j < |places| ==> places[i] < places[j]
    ensures var all := leads + OnPage(|items|, places);
      forall i, j :: 0 <= i < j < |all| ==> Precedes(all[i], all[j])
  {
    var all := leads + OnPage(|items|, places);
    forall i, j | 0 <= i < j < |all| ensures Precedes(all[i], all[j]) {
      if i < |leads| <= j {
        assert LeadsTo(p, items, leads[i], out[i]);
      }
    }
  }

  lemma LeadsComplete(p: Plan, items: seq<MappedUrl>, item: MappedUrl, leads: seq<Lead>, out: seq<MappedUrl>,
                      places: seq<nat>, found: seq<MappedUrl>, a: Lead, m: MappedUrl)
    requires Leads(p, items, leads, out) && LastLeads(p, items + [item], |items|, places, found)
    requires LeadsTo(p, items + [item], a, m)
    ensures exists i :: LedTo(leads + OnPage(|items|, places), out + found, i, a, m)
  {
    if a.parent < |items| {
      LeadsStay(p, items, item, a, m);
      var i :| LedTo(leads, out, i, a, m);
      assert LedTo(leads + OnPage(|items|, places), out + found, i, a, m);
    } else {
      assert a == Lead(|items|, a.place);
      var i :| FoundAt(places, found, i, a.place, m);
      assert LedTo(leads + OnPage(|items|, places), out + found, |leads| + i, a, m);
    }
  }

  lemma LeadsMore(p: Plan, items: seq<MappedUrl>, item: MappedUrl, leads: seq<Lead>, out: seq<MappedUrl>,
                  places: seq<nat>, found: seq<MappedUrl>)
    requires Leads(p, items, leads, out) && LastLeads(p, items + [item], |items|, places, found)
    ensures Leads(p, items + [item], leads + OnPage(|items|, places), out + found)
  {
    var leads', out' := leads + OnPage(|items|, places), out + found;
    forall i | 0 <= i < |leads'| ensures LeadsTo(p, items + [item], leads'[i], out'[i]) {
      if i < |leads| {
        LeadsStay(p, items, item, leads[i], out[i]);
      } else {
        assert LeadsTo(p, items + [item], Lead(|items|, places[i - |leads|]), found[i - |leads|]);
      }
    }
    LeadsInOrder(p, items, leads, out, places);
    forall a, m | LeadsTo(p, items + [item], a, m) ensures exists i :: LedTo(leads', out', i, a, m) {
      LeadsComplete(p, items, item, leads, out, places, found, a, m);
    }
  }

  /** What one more page leads to, if it is included. */
  lemma PageLeads(p: Plan, items: seq<MappedUrl>, item: MappedUrl) returns (places: seq<nat>)
    ensures LastLeads(p, items + [item], |items|, places, OutOf(p, item))
  {
    places := [];
    assert (items + [item])[|items|] == item;
    if p.site.included(item.url) {
      places := SuccessorPlaces(p.site, p.site.fetch(item.url), item.depth + 1);
    }
  }

  lemma {:induction false} OutLeads(p: Plan, items: seq<MappedUrl>) returns (leads: seq<Lead>)
    ensures Leads(p, items, leads, Out(p, items))
  {
    leads := [];
    if items == [] {
    } else {
      var first, item := items[..|items| - 1], items[|items| - 1];
      var before := OutLeads(p, first);
      var places := PageLeads(p, first, item);
      LeadsMore(p, first, item, before, Out(p, first), places, OutOf(p, item));
      OutSnoc(p, first, item);
      assert items == first + [item];
      leads := before + OnPage(|first|, places);
    }
  }

  // ---- The order of a level ----

  /** The item stands at this place, and its URL is neither known nor found before it. */
  ghost predicate FirstAt(items: seq<MappedUrl>, known: set<Url>, m: MappedUrl, place: nat) {
    place < |items| && items[place] == m && m.url !in known && forall i :: 0 <= i < place ==> items[i].url != m.url
  }

  /** Where the fresh items come from: each from its first appearance, in order. */
  ghost predicate Firsts(items: seq<MappedUrl>, known: set<Url>, kept: seq<MappedUrl>, places: seq<nat>) {
    && |places| == |kept|
    && (forall j :: 0 <= j < |places| ==> FirstAt(items, known, kept[j], places[j]))
    && (forall i, j :: 0 <= i < j < |places| ==> places[i] < places[j])
  }

  lemma FirstAtStays(items: seq<MappedUrl>, item: MappedUrl, known: set<Url>, m: MappedUrl, place: nat)
    requires FirstAt(items, known, m, place)
    ensures FirstAt(items + [item], known, m, place)
  {
  }

  lemma FirstAtEnd(items: seq<MappedUrl>, item: MappedUrl, known: set<Url>)
    requires item.url !in known && item.url !in Urls(items)
    ensures FirstAt(items + [item], known, item, |items|)
  {
    forall i | 0 <= i < |items| ensures items[i].url != item.url {
      UrlsMembers(items, items[i].url);
    }
  }

  lemma FirstsMore(items: seq<MappedUrl>, known: set<Url>, kept: seq<MappedUrl>, places: seq<nat>, item: MappedUrl)
    requires Firsts(items, known, kept, places)
    ensures Firsts(items + [item], known, kept, places)
  {
    forall j | 0 <= j < |places| ensures FirstAt(items + [item], known, kept[j], places[j]) {
      FirstAtStays(items, item, known, kept[j], places[j]);
    }
  }

  lemma FirstsOne(items: seq<MappedUrl>, known: set<Url>, kept: seq<MappedUrl>, places: seq<nat>, item: MappedUrl)
    requires Firsts(items, known, kept, places) && FirstAt(items + [item], known, item, |items|)
    ensures Firsts(items + [item], known, kept + [item], places + [|items|])
  {
    forall j | 0 <= j < |places|
      ensures FirstAt(items + [item], known, kept[j], places[j]) && places[j] < |items|
    {
      FirstAtStays(items, item, known, kept[j], places[j]);
    }
  }

  lemma FirstsStep(items: seq<MappedUrl>, known: set<Url>, kept: seq<MappedUrl>, places: seq<nat>, item: MappedUrl,
                   items': seq<MappedUrl>, kept': seq<MappedUrl>)
    requires Firsts(items, known, kept, places)
    requires items' == items + [item] && kept' == kept + IfNew(item, known + Urls(items))
    ensures Firsts(items', known, kept', if item.url in known + Urls(items) then places else places + [|items|])
  {
    if item.url in known + Urls(items) {
      assert kept' == kept;
      FirstsMore(items, known, kept, places, item);
    } else {
      FirstAtEnd(items, item, known);
      FirstsOne(items, known, kept, places, item);
    }
  }

  lemma FreshLast(items: seq<MappedUrl>, known: set<Url>)
    requires items != []
    ensures items == items[..|items| - 1] + [items[|items| - 1]]
    ensures Fresh(items, known) ==
      Fresh(items[..|items| - 1], known) + IfNew(items[|items| - 1], known + Urls(items[..|items| - 1]))
  {
    FreshUrls(items[..|items| - 1], known);
    FreshSnoc(items[..|items| - 1], items[|items| - 1], known);
    assert items == items[..|items| - 1] + [items[|items| - 1]];
  }

  /** Where the fresh items come from, told by a function. */
  function FreshAt(items: seq<MappedUrl>, known: set<Url>): seq<nat> {
    if items == [] then []
    else
      var n := |items| - 1;
      var before := FreshAt(items[..n], known);
      if items[n].url in known + Urls(items[..n]) then before else before + [n]
  }

  lemma {:induction false} FreshPlaces(items: seq<MappedUrl>, known: set<Url>)
    ensures Firsts(items, known, Fresh(items, known), FreshAt(items, known))
  {
    if items == [] {
    } else {
      var n := |items| - 1;
      FreshPlaces(items[..n], known);
      FreshLast(items, known);
      FirstsStep(items[..n], known, Fresh(items[..n], known), FreshAt(items[..n], known), items[n], items,
        Fresh(items, known));
    }
  }

  /** Of all places on a level that lead to this URL, this is the first. */
  ghost predicate FirstLead(p: Plan, items: seq<MappedUrl>, a: Lead, m: MappedUrl) {
    LeadsTo(p, items, a, m) && forall b, x :: LeadsTo(p, items, b, x) && x.url == m.url ==> b == a || Precedes(a, b)
  }

  lemma FirstOfAll(p: Plan, items: seq<MappedUrl>, leads: seq<Lead>, out: seq<MappedUrl>, i: int)
    requires Leads(p, items, leads, out) && 0 <= i < |leads|
    requires forall k :: 0 <= k < i ==> out[k].url != out[i].url
    ensures FirstLead(p, items, leads[i], out[i])
  {
    forall b, x | LeadsTo(p, items, b, x) && x.url == out[i].url ensures b == leads[i] || Precedes(leads[i], b) {
      var k :| LedTo(leads, out, k, b, x);
    }
  }

  /**
   The pages of the next level are those that a page of this one leads to and no earlier level has;
   they come in the order of the first place that leads to them, and as what that place makes them.
   */
  lemma LevelInOrder(p: Plan, n: nat) returns (leads: seq<Lead>)
    ensures |leads| == |Level(p, n + 1)|
    ensures forall j :: 0 <= j < |leads| ==>
      FirstLead(p, Level(p, n), leads[j], Level(p, n + 1)[j]) && Level(p, n + 1)[j].url !in Urls(Earlier(p, n + 1))
    ensures forall i, j :: 0 <= i < j < |leads| ==> Precedes(leads[i], leads[j])
    ensures forall a, m :: LeadsTo(p, Level(p, n), a, m) ==> m.url in Urls(Earlier(p, n + 1)) + Urls(Level(p, n + 1))
  {
    var level, known := Level(p, n), Urls(Earlier(p, n + 1));
    var out := Out(p, level);
    var all := OutLeads(p, level);
    var places := FreshAt(out, known);
    FreshPlaces(out, known);
    assert Level(p, n + 1) == Fresh(out, known);
    leads := seq(|places|, j requires 0 <= j < |places| => all[places[j]]);
    forall j | 0 <= j < |leads| ensures FirstLead(p, level, leads[j], Fresh(out, known)[j]) {
      assert FirstAt(out, known, Fresh(out, known)[j], places[j]);
      FirstOfAll(p, level, all, out, places[j]);
    }
    forall a, m | LeadsTo(p, level, a, m) ensures m.url in known + Urls(Fresh(out, known)) {
      var i :| LedTo(all, out, i, a, m);
      UrlsMembers(out, m.url);
      FreshUrls(out, known);
    }
  }

  // ---- The order of the entries ----

  /** Each included page stands behind the entries of the pages before it, and is followed by its own. */
  lemma PageStandsAt(p: Plan, items: seq<MappedUrl>, i: nat)
    requires i < |items| && p.site.included(items[i].url)
    ensures var at, own := |Listing(p, items[..i])|, EntriesOf(p, items[i]);
      at + |own| <= |Listing(p, items)| && Listing(p, items)[at..at + |own|] == own && own[0] == items[i]
  {
    var first, rest := items[..i], items[i + 1..];
    var listed, own := Listing(p, first), EntriesOf(p, items[i]);
    ListingSnoc(p, first, items[i]);
    ListingGrows(p, first + [items[i]], rest);
    assert items == first + [items[i]] + rest;
    assert (listed + own)[|listed|..] == own;
    assert Listing(p, items)[..|listed + own|] == listed + own;
  }

  /** The control shows the view with this URL. */
  predicate ShowsView(site: Site, k: Control, u: Url, v: Url) {
    && !site.unsafeName(k.name) && k.target.View? && k.target.id != "" && site.validId(k.target.id)
    && v == u + "#" + k.target.id
  }

  /** The control at this place shows the view, and none before it does. */
  ghost predicate FirstShownAt(site: Site, controls: seq<Control>, u: Url, depth: nat, m: MappedUrl, place: nat) {
    && place < |controls| && ShowsView(site, controls[place], u, m.url)
    && m.depth == depth && m.source == InteractiveView
    && forall i :: 0 <= i < place ==> !ShowsView(site, controls[i], u, m.url)
  }

  /** The views in the order of the first control that shows them, each once, and none missing. */
  ghost predicate InViewOrder(site: Site, controls: seq<Control>, u: Url, depth: nat, views: seq<MappedUrl>,
                              places: seq<nat>) {
    && |places| == |views|
    && (forall j :: 0 <= j < |places| ==> FirstShownAt(site, controls, u, depth, views[j], places[j]))
    && (forall i, j :: 0 <= i < j < |places| ==> places[i] < places[j])
    && (forall i, v :: 0 <= i < |controls| && ShowsView(site, controls[i], u, v) ==> v in Urls(views))
  }

  lemma ShownMore(site: Site, controls: seq<Control>, k: Control, u: Url, depth: nat, m: MappedUrl, place: nat)
    requires FirstShownAt(site, controls, u, depth, m, place)
    ensures FirstShownAt(site, controls + [k], u, depth, m, place)
  {
    assert forall i :: 0 <= i < |controls| ==> (controls + [k])[i] == controls[i];
  }

  lemma ViewOrderNone(site: Site, controls: seq<Control>, k: Control, u: Url, depth: nat, views: seq<MappedUrl>,
                      places: seq<nat>)
    requires InViewOrder(site, controls, u, depth, views, places)
    requires forall x :: ShowsView(site, k, u, x) ==> x in Urls(views)
    ensures InViewOrder(site, controls + [k], u, depth, views, places)
  {
    forall j | 0 <= j < |places| ensures FirstShownAt(site, controls + [k], u, depth, views[j], places[j]) {
      ShownMore(site, controls, k, u, depth, views[j], places[j]);
    }
    assert forall i :: 0 <= i < |controls| ==> (controls + [k])[i] == controls[i];
  }

  lemma FirstShownLast(site: Site, controls: seq<Control>, k: Control, u: Url, depth: nat, views: seq<MappedUrl>,
                       v: Url)
    requires forall i, x :: 0 <= i < |controls| && ShowsView(site, controls[i], u, x) ==> x in Urls(views)
    requires v !in Urls(views) && ShowsView(site, k, u, v)
    ensures FirstShownAt(site, controls + [k], u, depth, MappedUrl(v, depth, InteractiveView), |controls|)
  {
    assert forall i :: 0 <= i < |controls| ==> (controls + [k])[i] == controls[i];
  }

  lemma ViewOrderOne(site: Site, controls: seq<Control>, k: Control, u: Url, depth: nat, views: seq<MappedUrl>,
                     places: seq<nat>, v: Url)
    requires InViewOrder(site, controls, u, depth, views, places) && v !in Urls(views)
    requires forall x :: ShowsView(site, k, u, x) <==> x == v
    ensures InViewOrder(site, controls + [k], u, depth, views + [MappedUrl(v, depth, InteractiveView)],
      places + [|controls|])
  {
    var view, all := MappedUrl(v, depth, InteractiveView), controls + [k];
    UrlsSnoc(views, view);
    FirstShownLast(site, controls, k, u, depth, views, v);
    forall j | 0 <= j < |places|
      ensures FirstShownAt(site, all, u, depth, views[j], places[j]) && places[j] < |controls|
    {
      ShownMore(site, controls, k, u, depth, views[j], places[j]);
    }
    forall i, x | 0 <= i < |all| && ShowsView(site, all[i], u, x) ensures x in Urls(views + [view]) {
      assert i < |controls| ==> all[i] == controls[i];
    }
  }

  /** The views of a page come in the order of its document. */
  lemma {:induction false} ViewsInOrder(site: Site, controls: seq<Control>, u: Url, depth: nat)
      returns (places: seq<nat>)
    ensures InViewOrder(site, controls, u, depth, ViewsOf(site, controls, u, depth), places)
  {
    places := [];
    if controls == [] {
    } else {
      var n := |controls| - 1;
      var k, before := controls[n], ViewsOf(site, controls[..n], u, depth);
      places := ViewsInOrder(site, controls[..n], u, depth);
      assert controls == controls[..n] + [k] && before + [] == before;
      var v := if k.target.View? then u + "#" + k.target.id else "";
      if ShowsView(site, k, u, v) && v !in Urls(before) {
        ViewOrderOne(site, controls[..n], k, u, depth, before, places, v);
        places := places + [n];
      } else {
        ViewOrderNone(site, controls[..n], k, u, depth, before, places);
      }
    }
  }
}

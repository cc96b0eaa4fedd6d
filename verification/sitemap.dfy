/** `build_site_map` run sequentially.  Fetching is an oracle from a URL to
    the href matches of its page, the visited set (`processed_sites`) is an
    explicit argument, and each child is crawled with the visited set as its
    parent left it, one after another in the order the parent lists them. */
module SiteMap {
  import opened PyStr
  import opened Seqs
  import opened Links

  /** One site map entry: `{"page_url": …, "links": …, "images": …}`. */
  datatype PageRecord = PageRecord(pageUrl: string, links: seq<string>, images: seq<string>)

  /** What fetching a URL yields: the href matches of the page body in
      document order, or a transport failure. */
  datatype Fetched = Page(hrefs: seq<string>) | Unreachable

  datatype CrawlError =
    | MissingStartingUrl          // the exception raised for an empty `starting_url`
    | TransportFailure(url: string)

  datatype Result<T> = Ok(value: T) | Err(error: CrawlError)

  /** The synchronous work of one call once its page has been fetched: the
      record, the visited set after inserting the page, and the URLs to
      recurse into. */
  datatype PageStep = PageStep(record: PageRecord, visited: set<string>, children: seq<string>)

  /** The synchronous part of `build_site_map` after its fetch.  The record
      holds every distinct href once, split into non-images and images; the
      page itself is marked visited; the children are the distinct in-domain
      non-image hrefs not yet visited, the page itself excluded. */
  function ProcessPage(url: string, hrefs: seq<string>, visited: set<string>): (p: PageStep)
    ensures p.record.pageUrl == url
    ensures forall x {:trigger x in p.record.links} :: x in p.record.links <==> x in hrefs && !IsImageLink(x)
    ensures forall x {:trigger x in p.record.images} :: x in p.record.images <==> x in hrefs && IsImageLink(x)
    ensures NoDuplicates(p.record.links) && NoDuplicates(p.record.images)
    ensures p.visited == visited + {url}
    ensures forall c {:trigger c in p.children} :: c in p.children <==>
      c in hrefs && !IsImageLink(c) && InDomain(c, url) && c !in visited && c != url
    ensures NoDuplicates(p.children)
  {
    var links := UniqueLinks(hrefs);
    var visited' := visited + {url};
    var domainLinks := DomainLinks(links, url);
    FilterNoDuplicates(link => !IsImageLink(link), links);
    FilterNoDuplicates(IsImageLink, links);
    FilterNoDuplicates(link => InDomain(link, url) && !IsImageLink(link), links);
    FilterNoDuplicates(link => link !in visited', domainLinks);
    PageStep(
      PageRecord(url, NonImageLinks(links), ImageLinks(links)),
      visited',
      Filter(link => link !in visited', domainLinks))
  }

  /** The children are the record's links that are in the page's domain and
      not yet visited, in the order the record lists them. */
  lemma ChildrenFollowLinks(url: string, hrefs: seq<string>, visited: set<string>)
    ensures var p := ProcessPage(url, hrefs, visited);
      p.children == Filter(link => InDomain(link, url) && link !in p.visited, p.record.links)
  {
    var p := ProcessPage(url, hrefs, visited);
    var links := UniqueLinks(hrefs);
    DomainLinksAreNonImageLinks(links, url);
    FilterFilter(link => link !in p.visited, link => InDomain(link, url),
      link => InDomain(link, url) && link !in p.visited, NonImageLinks(links));
  }

  /** A page step: what one call of `build_site_map` does with its fetched
      page, given the page URL, its href matches and the visited set.  The
      recursion below is written once over any page step, so that its
      structural facts can be proved without unfolding link classification;
      `SiteMapStep` is the step of the source. */
  type PageStepFn = (string, seq<string>, set<string>) -> PageStep

  const SiteMapStep: PageStepFn := (url, hrefs, visited) => ProcessPage(url, hrefs, visited)

  /** `build_site_map(url, depth, visited)`: a depth of zero yields an empty
      map, an empty URL is an error, an unreachable page aborts the crawl,
      and otherwise the map starts with the page's own record. */
  function BuildSiteMap(fetch: string -> Fetched, url: string, depth: nat, visited: set<string>): (r: Result<seq<PageRecord>>)
    ensures depth == 0 ==> r == Ok([])
    ensures depth > 0 && url == [] ==> r == Err(MissingStartingUrl)
    ensures depth > 0 && url != [] && fetch(url).Unreachable? ==> r == Err(TransportFailure(url))
    ensures r.Ok? && depth > 0 ==>
      && fetch(url).Page?
      && |r.value| > 0
      && r.value[0] == ProcessPage(url, fetch(url).hrefs, visited).record
  {
    Crawl(SiteMapStep, fetch, url, depth, visited)
  }

  /** The recursion of `build_site_map` over a page step. */
  function Crawl(step: PageStepFn, fetch: string -> Fetched, url: string, depth: nat, visited: set<string>): (r: Result<seq<PageRecord>>)
    decreases depth, 0, 0
    ensures depth == 0 ==> r == Ok([])
    ensures depth > 0 && url == [] ==> r == Err(MissingStartingUrl)
    ensures depth > 0 && url != [] && fetch(url).Unreachable? ==> r == Err(TransportFailure(url))
    ensures r.Ok? && depth > 0 ==>
      && fetch(url).Page?
      && |r.value| > 0
      && r.value[0] == step(url, fetch(url).hrefs, visited).record
  {
    if depth == 0 then Ok([])
    else if url == [] then Err(MissingStartingUrl)
    else match fetch(url)
      case Unreachable => Err(TransportFailure(url))
      case Page(hrefs) =>
        var p := step(url, hrefs, visited);
        match CrawlAll(step, fetch, p.children, depth - 1, p.visited)
        case Err(e) => Err(e)
        case Ok(rest) => Ok([p.record] + rest)
  }

  /** The join over the children: every child crawled with the same depth and
      visited set, results concatenated in child order, the first failure
      aborting the whole. */
  function CrawlAll(step: PageStepFn, fetch: string -> Fetched, urls: seq<string>, depth: nat, visited: set<string>): (r: Result<seq<PageRecord>>)
    decreases depth, 1, |urls|
    ensures depth == 0 ==> r == Ok([])
  {
    if urls == [] then Ok([])
    else
      var first := Crawl(step, fetch, urls[0], depth, visited);
      var rest := CrawlAll(step, fetch, urls[1..], depth, visited);
      if first.Err? then Err(first.error)
      else if rest.Err? then Err(rest.error)
      else
        assert depth == 0 ==> first.value + rest.value == [];
        Ok(first.value + rest.value)
  }

  /** The records of a successful crawl, nothing for a failed one. */
  function Pages(r: Result<seq<PageRecord>>): seq<PageRecord> {
    match r
    case Ok(v) => v
    case Err(_) => []
  }

  function Flatten(parts: seq<seq<PageRecord>>): seq<PageRecord> {
    if parts == [] then [] else parts[0] + Flatten(parts[1..])
  }

  /** Each child's records, separately. */
  function ChildPages(step: PageStepFn, fetch: string -> Fetched, urls: seq<string>, depth: nat, visited: set<string>): seq<seq<PageRecord>> {
    seq(|urls|, i requires 0 <= i < |urls| => Pages(Crawl(step, fetch, urls[i], depth, visited)))
  }

  /** The join succeeds exactly when every child does, and then yields the
      children's records one child after another. */
  lemma {:induction false} CrawlAllIsConcat(step: PageStepFn, fetch: string -> Fetched, urls: seq<string>, depth: nat, visited: set<string>)
    ensures var r := CrawlAll(step, fetch, urls, depth, visited);
      && (r.Ok? <==> forall i :: 0 <= i < |urls| ==> Crawl(step, fetch, urls[i], depth, visited).Ok?)
      && (r.Ok? ==> r.value == Flatten(ChildPages(step, fetch, urls, depth, visited)))
  {
    if urls != [] {
      CrawlAllIsConcat(step, fetch, urls[1..], depth, visited);
      assert ChildPages(step, fetch, urls[1..], depth, visited) == ChildPages(step, fetch, urls, depth, visited)[1..];
      assert forall i :: 1 <= i < |urls| ==> urls[i] == urls[1..][i - 1];
    }
  }

  /** One level of the crawl: the page's record, then whatever the join over
      its children yields. */
  lemma CrawlUnfold(step: PageStepFn, fetch: string -> Fetched, url: string, depth: nat, visited: set<string>)
    requires depth > 0 && url != [] && fetch(url).Page?
    ensures var p := step(url, fetch(url).hrefs, visited);
      var rest := CrawlAll(step, fetch, p.children, depth - 1, p.visited);
      Crawl(step, fetch, url, depth, visited) == if rest.Ok? then Ok([p.record] + rest.value) else Err(rest.error)
  {
  }

  /** A crawl with budget left, of a non-empty URL whose page is fetched,
      succeeds exactly when every child crawl (one level shallower, from the
      visited set as the page left it) succeeds, and yields the page's record
      followed by the children's records in child order. */
  lemma CrawlIsRecordThenChildren(step: PageStepFn, fetch: string -> Fetched, url: string, depth: nat, visited: set<string>)
    requires depth > 0 && url != [] && fetch(url).Page?
    ensures var p := step(url, fetch(url).hrefs, visited);
      var r := Crawl(step, fetch, url, depth, visited);
      && (r.Ok? <==> forall i :: 0 <= i < |p.children| ==> Crawl(step, fetch, p.children[i], depth - 1, p.visited).Ok?)
      && (r.Ok? ==> r.value == [p.record] + Flatten(ChildPages(step, fetch, p.children, depth - 1, p.visited)))
  {
    var p := step(url, fetch(url).hrefs, visited);
    CrawlUnfold(step, fetch, url, depth, visited);
    CrawlAllIsConcat(step, fetch, p.children, depth - 1, p.visited);
  }

  /** With a budget of one only the seed page is fetched, whatever it links to. */
  lemma CrawlDepthOne(fetch: string -> Fetched, url: string, visited: set<string>)
    ensures BuildSiteMap(fetch, url, 1, visited) ==
      if url == [] then Err(MissingStartingUrl)
      else if fetch(url).Unreachable? then Err(TransportFailure(url))
      else Ok([ProcessPage(url, fetch(url).hrefs, visited).record])
  {
    if url != [] && fetch(url).Page? {
      var p := ProcessPage(url, fetch(url).hrefs, visited);
      assert SiteMapStep(url, fetch(url).hrefs, visited) == p;
      CrawlUnfold(SiteMapStep, fetch, url, 1, visited);
      assert [p.record] + [] == [p.record];
    }
  }

  // ------------------------------------------------ facts about page steps

  /** The step's record is about the page it was given. */
  ghost predicate NamesItsPage(step: PageStepFn) {
    forall url, hrefs, visited :: step(url, hrefs, visited).record.pageUrl == url
  }

  /** The step inserts the page into the visited set and nothing else. */
  ghost predicate MarksVisited(step: PageStepFn) {
    forall url, hrefs, visited :: step(url, hrefs, visited).visited == visited + {url}
  }

  /** The step recurses only into pages it has not yet visited. */
  ghost predicate ChildrenUnvisited(step: PageStepFn) {
    forall url, hrefs, visited, c :: c in step(url, hrefs, visited).children ==> c !in step(url, hrefs, visited).visited
  }

  /** A page the crawl may recurse into from `anchor`: in its domain and not an image. */
  predicate DomainPage(link: string, anchor: string) {
    InDomain(link, anchor) && !IsImageLink(link)
  }

  /** Every URL is in its own domain. */
  lemma InDomainOfSelf(url: string)
    ensures InDomain(url, url)
  {
    var n := StripHttpWww(url);
    assert n[..|n|] == n;
  }

  /** The step recurses only into domain pages of the page it was given. */
  ghost predicate ChildrenInDomain(step: PageStepFn) {
    forall url, hrefs, visited, c :: c in step(url, hrefs, visited).children ==> DomainPage(c, url)
  }

  /** The source's page step has all four properties. */
  lemma SiteMapStepFacts()
    ensures NamesItsPage(SiteMapStep) && MarksVisited(SiteMapStep)
    ensures ChildrenUnvisited(SiteMapStep) && ChildrenInDomain(SiteMapStep)
  {
    forall url, hrefs, visited
      ensures SiteMapStep(url, hrefs, visited) == ProcessPage(url, hrefs, visited)
    {
    }
  }

  // ------------------------------------------------------- crawl invariants

  /** Every record of a successful crawl names a non-empty URL. */
  lemma {:induction false} CrawlPagesNamed(step: PageStepFn, fetch: string -> Fetched, url: string, depth: nat, visited: set<string>)
    requires NamesItsPage(step)
    decreases depth, 0, 0
    ensures var r := Crawl(step, fetch, url, depth, visited);
      r.Ok? ==> forall i :: 0 <= i < |r.value| ==> r.value[i].pageUrl != []
  {
    if depth > 0 && url != [] && fetch(url).Page? {
      var p := step(url, fetch(url).hrefs, visited);
      CrawlUnfold(step, fetch, url, depth, visited);
      CrawlAllPagesNamed(step, fetch, p.children, depth - 1, p.visited);
    }
  }

  lemma {:induction false} CrawlAllPagesNamed(step: PageStepFn, fetch: string -> Fetched, urls: seq<string>, depth: nat, visited: set<string>)
    requires NamesItsPage(step)
    decreases depth, 1, |urls|
    ensures var r := CrawlAll(step, fetch, urls, depth, visited);
      r.Ok? ==> forall i :: 0 <= i < |r.value| ==> r.value[i].pageUrl != []
  {
    if urls != [] {
      CrawlPagesNamed(step, fetch, urls[0], depth, visited);
      CrawlAllPagesNamed(step, fetch, urls[1..], depth, visited);
    }
  }

  /** Every page of the site map after the seed is a domain page of the
      seed, and the seed is in its own domain: the domain test is transitive
      along the recursion. */
  lemma {:induction false} CrawlStaysInDomain(step: PageStepFn, fetch: string -> Fetched, url: string, depth: nat, visited: set<string>)
    requires NamesItsPage(step) && ChildrenInDomain(step)
    decreases depth, 0, 0
    ensures var r := Crawl(step, fetch, url, depth, visited);
      r.Ok? ==>
        && (forall i :: 0 <= i < |r.value| ==> InDomain(r.value[i].pageUrl, url))
        && (forall i :: 1 <= i < |r.value| ==> DomainPage(r.value[i].pageUrl, url))
  {
    if depth > 0 && url != [] && fetch(url).Page? {
      var p := step(url, fetch(url).hrefs, visited);
      CrawlUnfold(step, fetch, url, depth, visited);
      assert forall i :: 0 <= i < |p.children| ==> p.children[i] in p.children;
      CrawlAllStaysInDomain(step, fetch, p.children, depth - 1, p.visited, url);
      var rest := CrawlAll(step, fetch, p.children, depth - 1, p.visited);
      if rest.Ok? {
        var all := [p.record] + rest.value;
        InDomainOfSelf(url);
        forall i | 0 <= i < |all|
          ensures InDomain(all[i].pageUrl, url)
          ensures i >= 1 ==> DomainPage(all[i].pageUrl, url)
        {
          if i >= 1 {
            assert all[i] == rest.value[i - 1];
          }
        }
      }
    }
  }

  lemma {:induction false} CrawlAllStaysInDomain(step: PageStepFn, fetch: string -> Fetched, urls: seq<string>, depth: nat, visited: set<string>, anchor: string)
    requires NamesItsPage(step) && ChildrenInDomain(step)
    requires forall i :: 0 <= i < |urls| ==> DomainPage(urls[i], anchor)
    decreases depth, 1, |urls|
    ensures var r := CrawlAll(step, fetch, urls, depth, visited);
      r.Ok? ==> forall i :: 0 <= i < |r.value| ==> DomainPage(r.value[i].pageUrl, anchor)
  {
    if urls != [] {
      var u := urls[0];
      CrawlStaysInDomain(step, fetch, u, depth, visited);
      CrawlAllStaysInDomain(step, fetch, urls[1..], depth, visited, anchor);
      var first := Crawl(step, fetch, u, depth, visited);
      var rest := CrawlAll(step, fetch, urls[1..], depth, visited);
      if first.Ok? && rest.Ok? {
        var all := first.value + rest.value;
        forall i | 0 <= i < |all|
          ensures DomainPage(all[i].pageUrl, anchor)
        {
          if i < |first.value| {
            StartsWithTrans(StripHttpWww(first.value[i].pageUrl), StripHttpWww(u), StripHttpWww(anchor));
          } else {
            assert all[i] == rest.value[i - |first.value|];
          }
        }
      }
    }
  }

  /** No page after the seed was visited when the crawl began, nor is it the
      seed itself. */
  lemma {:induction false} CrawlSkipsVisited(step: PageStepFn, fetch: string -> Fetched, url: string, depth: nat, visited: set<string>)
    requires NamesItsPage(step) && MarksVisited(step) && ChildrenUnvisited(step)
    decreases depth, 0, 0
    ensures var r := Crawl(step, fetch, url, depth, visited);
      r.Ok? ==> forall i :: 1 <= i < |r.value| ==> r.value[i].pageUrl !in visited + {url}
  {
    if depth > 0 && url != [] && fetch(url).Page? {
      var p := step(url, fetch(url).hrefs, visited);
      CrawlUnfold(step, fetch, url, depth, visited);
      assert forall i :: 0 <= i < |p.children| ==> p.children[i] in p.children;
      CrawlAllSkipsVisited(step, fetch, p.children, depth - 1, p.visited);
      var rest := CrawlAll(step, fetch, p.children, depth - 1, p.visited);
      if rest.Ok? {
        var all := [p.record] + rest.value;
        forall i | 1 <= i < |all|
          ensures all[i].pageUrl !in visited + {url}
        {
          assert all[i] == rest.value[i - 1];
        }
      }
    }
  }

  lemma {:induction false} CrawlAllSkipsVisited(step: PageStepFn, fetch: string -> Fetched, urls: seq<string>, depth: nat, visited: set<string>)
    requires NamesItsPage(step) && MarksVisited(step) && ChildrenUnvisited(step)
    requires forall i :: 0 <= i < |urls| ==> urls[i] !in visited
    decreases depth, 1, |urls|
    ensures var r := CrawlAll(step, fetch, urls, depth, visited);
      r.Ok? ==> forall i :: 0 <= i < |r.value| ==> r.value[i].pageUrl !in visited
  {
    if urls != [] {
      CrawlSkipsVisited(step, fetch, urls[0], depth, visited);
      CrawlAllSkipsVisited(step, fetch, urls[1..], depth, visited);
      var first := Crawl(step, fetch, urls[0], depth, visited);
      var rest := CrawlAll(step, fetch, urls[1..], depth, visited);
      if first.Ok? && rest.Ok? {
        var all := first.value + rest.value;
        forall i | 0 <= i < |all|
          ensures all[i].pageUrl !in visited
        {
          if i >= |first.value| {
            assert all[i] == rest.value[i - |first.value|];
          }
        }
      }
    }
  }

  // ------------------------------------------------ the site map's promises

  /** Every record of the site map names a non-empty URL. */
  lemma SiteMapPagesNamed(fetch: string -> Fetched, url: string, depth: nat, visited: set<string>)
    ensures var r := BuildSiteMap(fetch, url, depth, visited);
      r.Ok? ==> forall i :: 0 <= i < |r.value| ==> r.value[i].pageUrl != []
  {
    SiteMapStepFacts();
    CrawlPagesNamed(SiteMapStep, fetch, url, depth, visited);
  }

  /** Every page of the site map is in the seed's domain, and every page
      after the seed is a non-image page in the seed's domain. */
  lemma SiteMapStaysInDomain(fetch: string -> Fetched, url: string, depth: nat, visited: set<string>)
    ensures var r := BuildSiteMap(fetch, url, depth, visited);
      r.Ok? ==>
        && (forall i :: 0 <= i < |r.value| ==> InDomain(r.value[i].pageUrl, url))
        && (forall i :: 1 <= i < |r.value| ==> DomainPage(r.value[i].pageUrl, url))
  {
    var r := BuildSiteMap(fetch, url, depth, visited);
    assert r == Crawl(SiteMapStep, fetch, url, depth, visited);
    SiteMapStepFacts();
    CrawlStaysInDomain(SiteMapStep, fetch, url, depth, visited);
  }

  /** No page of the site map after the seed was in the visited set the
      crawl began with, nor is it the seed itself. */
  lemma SiteMapSkipsVisited(fetch: string -> Fetched, url: string, depth: nat, visited: set<string>)
    ensures var r := BuildSiteMap(fetch, url, depth, visited);
      r.Ok? ==> forall i :: 1 <= i < |r.value| ==> r.value[i].pageUrl !in visited + {url}
  {
    SiteMapStepFacts();
    CrawlSkipsVisited(SiteMapStep, fetch, url, depth, visited);
  }
}

/** Worked crawls over abstract pages: what `build_site_map` returns for
    small link graphs. */
module CrawlScenarios {
  import opened Seqs
  import opened Links
  import opened SiteMap

  /** A duplicate-free sequence whose only element is `x` is `[x]`. */
  lemma SingletonOfDistinct(s: seq<string>, x: string)
    requires NoDuplicates(s)
    requires forall y :: y in s <==> y == x
    ensures s == [x]
  {
    assert x in s;
    forall j | 0 <= j < |s|
      ensures s[j] == x && j == 0
    {
      assert s[j] in s && s[0] in s;
    }
    assert s[|s| - 1] == x;
  }

  /** The crawl of a page whose only child is a page with no children of
      its own, with budget for both. */
  lemma CrawlTwoPages(step: PageStepFn, fetch: string -> Fetched, a: string, b: string, depth: nat)
    requires a != [] && b != [] && depth >= 2
    requires fetch(a) == Page([b]) && fetch(b) == Page([a])
    requires step(a, [b], {}).children == [b]
    requires step(b, [a], step(a, [b], {}).visited).children == []
    ensures Crawl(step, fetch, a, depth, {}) ==
      Ok([step(a, [b], {}).record, step(b, [a], step(a, [b], {}).visited).record])
  {
    var pa := step(a, [b], {});
    var pb := step(b, [a], pa.visited);
    CrawlUnfold(step, fetch, b, depth - 1, pa.visited);
    assert CrawlAll(step, fetch, pb.children, depth - 2, pb.visited) == Ok([]);
    assert [pb.record] + [] == [pb.record];
    assert Crawl(step, fetch, b, depth - 1, pa.visited) == Ok([pb.record]);
    assert [b][1..] == [];
    assert CrawlAll(step, fetch, [b][1..], depth - 1, pa.visited) == Ok([]);
    assert CrawlAll(step, fetch, [b], depth - 1, pa.visited) == Ok([pb.record]);
    CrawlUnfold(step, fetch, a, depth, {});
    assert [pa.record] + [pb.record] == [pa.record, pb.record];
  }

  /** The page step of the first page keeps the second as its only child. */
  lemma CycleForward(a: string, b: string)
    requires a != b && DomainPage(b, a)
    ensures ProcessPage(a, [b], {}).children == [b]
    ensures ProcessPage(a, [b], {}).visited == {a}
  {
    SingletonOfDistinct(ProcessPage(a, [b], {}).children, b);
  }

  /** The page step of the second page drops the link back, as visited. */
  lemma CycleBack(a: string, b: string)
    ensures ProcessPage(b, [a], {a}).children == []
  {
    var p := ProcessPage(b, [a], {a});
    if p.children != [] {
      assert false;
    }
  }

  /** Two distinct pages of one domain that link only to each other: from
      the first, with any budget of at least two, the site map holds both
      pages once each, the first page first, and the crawl stops there
      because the first page is already visited when the second is
      processed. */
  lemma TwoPageCycle(fetch: string -> Fetched, a: string, b: string, depth: nat)
    requires a != [] && b != [] && a != b
    requires fetch(a) == Page([b]) && fetch(b) == Page([a])
    requires DomainPage(b, a)
    requires depth >= 2
    ensures BuildSiteMap(fetch, a, depth, {}) ==
      Ok([ProcessPage(a, [b], {}).record, ProcessPage(b, [a], {a}).record])
  {
    CycleForward(a, b);
    CycleBack(a, b);
    assert SiteMapStep(a, [b], {}) == ProcessPage(a, [b], {});
    assert SiteMapStep(b, [a], {a}) == ProcessPage(b, [a], {a});
    CrawlTwoPages(SiteMapStep, fetch, a, b, depth);
  }

  /** A seed crawled with a budget of one whose page links to two pages and
      an image: one record, holding the two pages as links and the image as
      its images, and no page beyond the seed is fetched. */
  lemma OnePageWithImage(fetch: string -> Fetched, url: string, a: string, b: string, img: string)
    requires url != [] && fetch(url) == Page([a, b, img])
    requires !IsImageLink(a) && !IsImageLink(b) && IsImageLink(img)
    ensures var r := BuildSiteMap(fetch, url, 1, {});
      && r.Ok? && |r.value| == 1
      && r.value[0].pageUrl == url
      && (forall x :: x in r.value[0].links <==> x == a || x == b)
      && (forall x :: x in r.value[0].images <==> x == img)
  {
    CrawlDepthOne(fetch, url, {});
  }
}

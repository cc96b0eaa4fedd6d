# site_map: link handling and crawl skeleton in Dafny

`site_map.py` builds a site map. It starts from a URL, fetches the page, and
collects the page's `href` targets. It splits them into image and non-image
links. Then it recurses into links of the same domain that it has not seen
yet, down to a maximum depth. This project models that logic as pure Dafny
functions and proves properties of them:

- `PyStr` (`pystr.dfy`) holds the Python `str` primitives the helpers use.
  These are `startswith`, the character-set `strip`/`lstrip`/`rstrip`,
  ASCII `lower`, and the `s[-n:]` slice.
- `Seqs` (`seqs.dfy`) holds the list comprehension `[x for x in s if p(x)]`
  as an order-preserving `Filter`, with its algebra.
- `Links` (`links.dfy`) models the helpers:
  - `IMAGE_EXTS` and `is_image_link`;
  - `strip_http_www`, together with a literal-prefix reference normaliser;
  - `get_domain_links`, `get_image_links` and `get_non_image_links`;
  - the dedup step of `get_all_links_from_html`.
- `SiteMap` (`sitemap.dfy`) models `build_site_map`.
  - The page fetch is an oracle from a URL to the page's href matches, or to
    a transport failure.
  - `processed_sites` is an explicit visited set.
  - The recursion is written once over an abstract page step (`Crawl`) and
    instantiated with the source's page step (`BuildSiteMap`).
- `LinkVectors` (`vectors.dfy`) restates the unit tests' assertions in
  `test.py` as lemmas.
- `CrawlScenarios` (`scenarios.dfy`) works through small link graphs:
  - a one-level crawl of a page with an image;
  - two pages that link to each other.

Where the code and its stated intent differ, the model follows the code:

- **Over-stripping.** `strip_http_www` removes the scheme and `www.` with
  `lstrip`. `lstrip` takes a set of characters, not a prefix, so more can go
  than the literal prefix. `"https://test.com"` becomes `"est.com"` and
  `"https://www.web.com"` becomes `"eb.com"`. `Links.ExactStripHttpWww` is
  the literal-prefix reading. The lemmas prove three things about the two
  normalisers:
  - the source's result is always a tail of the literal one;
  - they agree whenever the literal result does not start with a scheme or
    `w`/`.` character;
  - concrete inputs show where they differ.
- **`wwww.` is kept.** The `www.` strip is guarded by a literal
  `startswith("www.")`, so `"https://wwww.example.com"` normalises to
  `"wwww.example.com"` under both readings (`LinkVectors.WwwwKeptVector`).
- **`.jpg` links are not images.** `IMAGE_EXTS` lists `"jpg"` without a dot.
  A link ending in `.jpg` that is four or more characters long is therefore
  never an image. test.py:119 expects `https://example.com/img1.jpg` to be
  an image. The model proves that it is not (`LinkVectors.JpgVector`).
  `Links.IntendedIsImageLink` is the test over the dotted list. It accepts
  the link (`LinkVectors.IntendedJpgVector`), and it differs from the
  source's test on `.jpg` tails and on the three-character link `jpg` only
  (`Links.IntendedImageTestDiffers`).

The rest of the model, the crawl included, uses the source's definitions.
The intended ones serve only to pin down the discrepancies below.

## Model

| member | source | states |
|---|---|---|
| PyStr.LStripSpec | site_map.py:33 | `lstrip` removes exactly the longest leading run of characters from the set: only set characters go, and the result is empty or starts outside the set |
| PyStr.RStripSpec | site_map.py:31 | `rstrip` removes exactly the longest trailing run of set characters |
| PyStr.StripSpec | site_map.py:31 | `strip` removes a run of set characters at each end and leaves a string that neither starts nor ends with one |
| PyStr.LStripPastPrefix | site_map.py:32-35 | when a string starts with a prefix made of set characters, `lstrip` runs straight through that prefix |
| PyStr.LStripRun | site_map.py:33-37 | `lstrip` eats a leading run of set characters and stops at the first character outside the set |
| PyStr.RStripPastSuffix | site_map.py:31 | trailing set characters make no difference to `rstrip` |
| PyStr.StripTrailingRun | site_map.py:31 | `strip('/')` of a slash-free-ended string followed by slashes gives back that string |
| Seqs.Filter | site_map.py:46-50 | a list comprehension keeps exactly the elements that satisfy the condition and is no longer than its input |
| Seqs.FilterConcat | site_map.py:58-65 | a comprehension over a concatenation is the concatenation of the comprehensions, so input order is kept |
| Seqs.FilterPartition | site_map.py:58-65 | a condition and its negation split the input: the multisets add up to the input's, and so do the lengths |
| Seqs.FilterFilter | site_map.py:46-50 | filtering twice equals filtering once by the conjunction |
| Seqs.FilterNoDuplicates | site_map.py:46-50 | a comprehension over a duplicate-free list is duplicate-free |
| Links.UniqueLinks | site_map.py:25-26 | the dedup step returns a duplicate-free list whose elements are exactly the matched URLs |
| Links.UniqueLinksOnceEach | site_map.py:25-26 | in whatever order, the dedup step lists every matched URL exactly once and nothing else, so a duplicate-free input comes back as a permutation of itself |
| Links.IsImageLinkIff | site_map.py:53-55 | a link is an image iff its lowercased last four characters are `.ico`, `.png` or `.gif`, or it is three characters long and lowercases to `jpg` |
| Links.ImageTestIgnoresCase | site_map.py:55 | lowercasing a link does not change whether it is an image |
| Links.TrailingSlashNotImage | site_map.py:55 | a link ending in `/` is never an image |
| Links.JpgNotImage | site_map.py:13 | a link of four or more characters ending in `.jpg`, in any case, is never an image, because the extension list has `jpg` without a dot |
| Links.IntendedImageTestDiffers | site_map.py:13 | the image test over the dotted list `.ico`, `.png`, `.jpg`, `.gif` differs from the source's exactly on links whose lowercased tail is `.jpg` (only the dotted list accepts them) and on three-character links lowercasing to `jpg` (only the source's accepts them) |
| Links.StripSchemeTrims | site_map.py:32-35 | the scheme step only removes leading characters from `{h,t,p,s,:,/}` |
| Links.StripWwwTrims | site_map.py:36-37 | the `www.` step only removes leading `w` and `.` characters |
| Links.StripHttpWwwSpec | site_map.py:29-38 | the normalised form is a tail of the slash-trimmed link, reached by dropping only scheme and `www.` characters, and it never ends in `/` |
| Links.StripHttpWwwPlain | site_map.py:31-38 | a link that after slash trimming starts with no scheme and no `www.` only loses its surrounding slashes |
| Links.SchemeStepOf | site_map.py:32-35 | after a literal `https://` (or `http://`) the step strips that scheme's character set from the rest, where literal removal keeps the rest whole |
| Links.SchemeRunSteps | site_map.py:32-37 | on scheme + a run of that scheme's characters + a host part, the scheme step strips the run too and the `www.` step does nothing, where literal removal keeps the run |
| Links.SchemeWwwRunSteps | site_map.py:32-37 | on scheme + `www.` + a run of `w`/`.` + a host part, the scheme step stops at the first `w` and the `www.` step strips `www.` and the run, where literal removal keeps the run |
| Links.PrefixStepsOf | site_map.py:32-37 | on scheme + optional `www.` + a run of strippable characters + a host part, the scheme and `www.` steps leave the host part, and literal removal leaves the run and the host |
| Links.StripHttpWwwOfUrl | site_map.py:29-38 | the same URL shape followed by any number of `/` normalises to the host part; literal removal keeps the run as well |
| Links.LiteralSchemeOverStrips | site_map.py:32-35 | a character-set strip through a literal scheme drops the scheme and then only scheme characters, and nothing more when `www.` follows |
| Links.SchemeStepOverStrips | site_map.py:32-35 | the scheme step strips at least the literal scheme, only scheme characters beyond it, and exactly the scheme when `www.` follows |
| Links.WwwStepOverStrips | site_map.py:36-37 | after a scheme step that may have over-stripped, the `www.` step still leaves a tail of the literal result, trimmed by scheme and `www.` characters only |
| Links.StripHttpWwwOverStrips | site_map.py:29-38 | the normaliser never strips less than literal prefix removal: its result is a tail of the reference result, and the extra characters are scheme or `www.` characters |
| Links.StripHttpWwwAgreesWithExact | site_map.py:29-38 | the normaliser equals literal prefix removal whenever the literal result does not start with a scheme or `www.` character |
| Links.ExactStripRemovesPrefixes | site_map.py:29-38 | literal prefix removal takes off a leading scheme and a `www.` right after it and leaves the rest of the URL whole, whatever its characters |
| Links.DomainLinks | site_map.py:41-50 | a link is a domain link iff it is in the input, is not an image, and its normal form starts with the anchor's normal form |
| SiteMap.InDomainOfSelf | site_map.py:48 | every URL passes the domain test against itself, so the seed page is in its own domain |
| Links.ImageLinks | site_map.py:58-60 | a link is kept iff it is in the input and is an image |
| Links.NonImageLinks | site_map.py:63-65 | a link is kept iff it is in the input and is not an image |
| Links.ImagePartition | site_map.py:58-65 | every input occurrence lands in exactly one of the image and non-image lists, and their lengths sum to the input's |
| Links.ClassifiersPreserveOrder | site_map.py:46-65 | each classifier maps a concatenation to the concatenation of its results, so relative order is kept |
| Links.DomainLinksAreNonImageLinks | site_map.py:41-50 | the domain links are the in-domain entries of the non-image links in the same order, and none is an image link |
| SiteMap.ProcessPage | site_map.py:118-134 | the record names the page; its links are exactly the non-image hrefs and its images exactly the image hrefs, each without duplicates; the page joins the visited set; the children are exactly the distinct in-domain non-image hrefs not yet visited and not the page itself |
| SiteMap.ChildrenFollowLinks | site_map.py:119-134 | the children are the record's links that are in the page's domain and not visited, in the order the record lists them |
| SiteMap.BuildSiteMap | site_map.py:112-138 | depth 0 gives an empty map, even for an empty URL; otherwise an empty URL is an error raised before any fetch; an unreachable page is an error; a successful map starts with the page's own record |
| SiteMap.Crawl | site_map.py:112-138 | the same guarantees for the recursion over any page step |
| SiteMap.CrawlAll | site_map.py:130-137 | spawning children with no depth left yields nothing |
| SiteMap.CrawlAllIsConcat | site_map.py:130-137 | the join over the children succeeds iff every child crawl succeeds, and then yields the children's results one after another |
| SiteMap.CrawlIsRecordThenChildren | site_map.py:122-138 | a crawl of a fetched page succeeds iff every child crawl does, and yields the seed record then the children's records in child order |
| SiteMap.CrawlDepthOne | site_map.py:112-131 | with depth 1 the map is exactly the seed's record, whatever the page links to |
| SiteMap.SiteMapStepFacts | site_map.py:118-134 | the source's page step names its page, only marks that page visited, and recurses only into unvisited domain pages |
| SiteMap.CrawlPagesNamed | site_map.py:114-123 | for any step that names its page, every record of a successful crawl has a non-empty URL |
| SiteMap.CrawlAllPagesNamed | site_map.py:130-137 | the same over a list of children |
| SiteMap.CrawlStaysInDomain | site_map.py:119-133 | every record of a successful crawl is in the seed's domain, and every record after the seed is a non-image page of it |
| SiteMap.CrawlAllStaysInDomain | site_map.py:130-137 | children that are domain pages of an anchor yield only records that are domain pages of that anchor |
| SiteMap.CrawlSkipsVisited | site_map.py:127-133 | no record after the seed was in the starting visited set or is the seed |
| SiteMap.CrawlAllSkipsVisited | site_map.py:130-137 | children outside the visited set yield only records outside it |
| SiteMap.SiteMapPagesNamed | site_map.py:114-123 | every record of the site map names a non-empty URL |
| SiteMap.SiteMapStaysInDomain | site_map.py:119-133 | every page of the site map is in the seed's domain, and every page after the seed is a non-image page of it |
| SiteMap.SiteMapSkipsVisited | site_map.py:127-133 | no page after the seed was already processed when the crawl began, nor is it the seed |
| CrawlScenarios.CrawlTwoPages | site_map.py:127-137 | for any page step, two pages that link to each other, where the first page's step yields the second as its only child and the second's step yields no children, crawl to exactly those two records, the first page first |
| CrawlScenarios.CycleForward | site_map.py:119-133 | a page whose only href is another in-domain page recurses into exactly that page and marks itself visited |
| CrawlScenarios.CycleBack | site_map.py:130-134 | a page whose only href is already processed recurses into nothing |
| CrawlScenarios.TwoPageCycle | site_map.py:112-138 | two pages that link to each other, crawled with depth of at least 2, give exactly two records, the seed first, with no further recursion |
| CrawlScenarios.OnePageWithImage | site_map.py:112-131 | with depth 1, a page linking to two pages and an image gives one record whose links are the two pages and whose images are the image |
| LinkVectors.StripHttpsVector | test.py:58 | `https://example.com` normalises to `example.com` |
| LinkVectors.StripHttpVector | test.py:61 | `http://example.com` normalises to `example.com` |
| LinkVectors.StripHttpsWwwVector | test.py:64-67 | `https://www.example.com` normalises to `example.com` |
| LinkVectors.StripHttpWwwVector | test.py:70-73 | `http://www.example.com` normalises to `example.com` |
| LinkVectors.SchemeOverStripVector | site_map.py:32-33 | `https://test.com` normalises to `est.com`, where literal prefix removal gives `test.com` |
| LinkVectors.WwwOverStripVector | site_map.py:36-37 | `https://www.web.com` normalises to `eb.com`, where literal prefix removal gives `web.com` |
| LinkVectors.HttpsHostKept | site_map.py:29-38 | an `https://` URL whose host starts with no scheme character and no `www.` normalises to its host under both readings |
| LinkVectors.WwwwKeptVector | site_map.py:36-37 | `https://wwww.example.com` keeps its `wwww.` under both readings, since the `www.` guard fails |
| LinkVectors.ImageTestOfTail | site_map.py:55 | the image test of a link depends only on its last four characters |
| LinkVectors.PlainLinkNotImageVector | test.py:110 | `https://example.com` is not an image |
| LinkVectors.IcoSlashNotImageVector | test.py:113 | `https://example.com/img1.ico/` is not an image |
| LinkVectors.PngSlashNotImageVector | test.py:116 | `https://example.com/img1.PNG/` is not an image |
| LinkVectors.JpgVector | test.py:119 | `https://example.com/img1.jpg` is NOT an image, contrary to the test's expectation |
| LinkVectors.IntendedJpgVector | test.py:119 | under the dotted extension list, `https://example.com/img1.jpg` is an image, as the test expects |
| LinkVectors.GifVector | test.py:122 | `https://example.com/img1.GIF` is an image |
| LinkVectors.PlainUrl | site_map.py:29-38 | scheme + optional `www.` + host + slashes normalises to the host |
| LinkVectors.TestLinkImages | test.py:31-38 | of the six shared test links, exactly the last two are images |
| LinkVectors.TestLinkForm0 | test.py:32 | `https://example.com/` normalises to `example.com` |
| LinkVectors.TestLinkForm1 | test.py:33 | `http://example2.com` normalises to `example2.com` |
| LinkVectors.TestLinkForm2 | test.py:34 | `https://example2.com//` normalises to `example2.com` |
| LinkVectors.TestLinkForm3 | test.py:35 | `http://example.com` normalises to `example.com` |
| LinkVectors.WwwSlashesAnchorForm | test.py:85 | `https://www.example.com//` normalises to `example.com` |
| LinkVectors.Example2AnchorForm | test.py:103 | `http://www.example2.com///` normalises to `example2.com` |
| LinkVectors.DomainLinksOfSix | site_map.py:41-50 | with two links at the anchor's normal form, two outside it and two images, the domain links are exactly the first two |
| LinkVectors.FormsAgainst | site_map.py:48 | links sharing the anchor's normal form pass the domain prefix test, and links whose common form differs from the anchor's at a position within the anchor's form fail it |
| LinkVectors.ExampleForms | test.py:78-99 | against an `example.com` anchor, two test links match and the `example2.com` ones do not |
| LinkVectors.ExampleDomainLinks | test.py:78-99 | against any anchor normalising to `example.com`, the domain links are exactly `https://example.com/` and `http://example.com` |
| LinkVectors.Example2Forms | test.py:102-105 | against an `example2.com` anchor, the two `example2.com` links match and the `example.com` ones do not |
| LinkVectors.Example2DomainLinks | test.py:102-105 | against any anchor normalising to `example2.com`, the domain links are exactly `http://example2.com` and `https://example2.com//` |
| LinkVectors.DomainLinksVectors | test.py:78-105 | the five domain-link assertions, as element sets |
| LinkVectors.ImageLinksVectors | test.py:126-141 | the image links of the test list are exactly its two image URLs, and the non-image links exactly its other four |
| LinkVectors.FixtureDedupVector | test.py:13-50 | deduplicating the fixture's fourteen href matches gives a duplicate-free list with exactly the eleven expected URLs |

## Findings

| source | as written | input that shows it | evidently intended | confidence | as-written member | corrected member |
|---|---|---|---|---|---|---|
| site_map.py:13 | `IMAGE_EXTS` lists `"jpg"` without its dot, so no `.jpg` link of four or more characters is an image | `https://example.com/img1.jpg`, which test.py:119 expects to be an image | the entry `".jpg"`, as the other three entries and the unit test read it | not executed | LinkVectors.JpgVector | LinkVectors.IntendedJpgVector |
| site_map.py:33 | `lstrip("https://")` strips every leading character from the set `{h,t,p,s,:,/}`, so it eats into the host | `https://test.com` normalises to `est.com` | removal of the literal prefix `https://`, giving `test.com`, as the function's docstring says | not executed | LinkVectors.SchemeOverStripVector | Links.ExactStripRemovesPrefixes |
| site_map.py:37 | `lstrip("www.")` strips every leading `w` and `.`, so it eats into a host starting with `w` | `https://www.web.com` normalises to `eb.com` | removal of the literal prefix `www.`, giving `web.com` | not executed | LinkVectors.WwwOverStripVector | Links.ExactStripRemovesPrefixes |

## Left out

- Fetching (`fetch_html`, `aiohttp.ClientSession`, site_map.py:16-19 and 116-117) is network I/O. It is an oracle parameter `fetch: string -> Fetched`. A failed fetch is `Unreachable`, and the crawl reports it as `Err(TransportFailure(url))`.
- The `HREF_RE` regular expression and `findall` (site_map.py:8-12, 24) are not modelled. The oracle returns the list of matched URLs, and only the dedup step is modelled.
- Links.UniqueLinksOfDistinct: returns a duplicate-free input unchanged. This is a property of the model's first-occurrence order only. The source promises just a permutation, which `Links.UniqueLinksOnceEach` states.
- Links.UniqueLinks: keeps first occurrences in input order. Python's `list(set(...))` order is arbitrary, so the contract states only the element set and the absence of duplicates.
- The concurrent fan-out through `asyncio.gather` (site_map.py:130-137) is sequential here. Every child is crawled from the visited set as its parent left it, in child order. Siblings do not see each other's insertions. The check-then-insert race across the fetch suspension point is not modelled, so no global "no page is fetched twice" property is claimed.
- SiteMap.Crawl: when several children fail, the model reports the first failing child in child order. `asyncio.gather` propagates whichever exception happens first in time.
- The default `max_depth: int = 10` (site_map.py:70) is not modelled. Every call passes the depth explicitly.
- The mutable default `processed_sites = set()` (site_map.py:71) persists across top-level calls. The visited set is an explicit argument instead.
- Negative `max_depth` recurses without bound in the source, because `not max_depth` is false. Depth is a `nat`.
- `main`, `json.dump` to `data.json`, and the interactive input loop (site_map.py:141-167) are file and console I/O.
- PyStr.Lower: lowercases ASCII letters only. Python's `str.lower` also maps non-ASCII letters. The image extensions are ASCII, so whether a link is an image does not depend on this.
- The `if out:` test at site_map.py:136 is not modelled separately. Extending by an empty list changes nothing.
- LinkVectors.FixtureDedupVector: states the set of eleven URLs and the absence of duplicates. The count of eleven follows from these but is not stated as a length.
- The expectation at test.py:119 (`.jpg` is an image) is not proved, because it is false for the code. `LinkVectors.JpgVector` proves the opposite.

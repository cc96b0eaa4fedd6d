/** The pure link helpers of `site_map.py`: the dedup step of link
    extraction, the URL normaliser, the image test and the three classifying
    filters built on them. */
module Links {
  import opened PyStr
  import opened Seqs

  /** `IMAGE_EXTS`.  The third entry is written without its dot. */
  const ImageExts: seq<string> := [".ico", ".png", "jpg", ".gif"]

  /** The character sets the normaliser hands to `strip` and `lstrip`: the
      characters of `"/"`, `"https://"`, `"http://"` and `"www."`. */
  const Slash: set<char> := {'/'}
  const HttpsChars: set<char> := {'h', 't', 'p', 's', ':', '/'}
  const HttpChars: set<char> := {'h', 't', 'p', ':', '/'}
  const WwwChars: set<char> := {'w', '.'}

  // ---------------------------------------------------------------- dedup

  /** The dedup step of `get_all_links_from_html`, applied to the list of
      href matches: each distinct URL is kept once (at its first occurrence;
      the source's order is that of a Python set and is unspecified). */
  function UniqueLinks(matches: seq<string>): (r: seq<string>)
    ensures NoDuplicates(r)
    ensures forall x {:trigger x in r} :: x in r <==> x in matches
    ensures |r| <= |matches|
  {
    if matches == [] then []
    else
      var init := matches[..|matches| - 1];
      var last := matches[|matches| - 1];
      assert matches == init + [last];
      var kept := UniqueLinks(init);
      if last in kept then kept else kept + [last]
  }

  /** A list that already has no duplicates comes back unchanged, so the
      dedup step is idempotent. */
  lemma {:induction false} UniqueLinksOfDistinct(links: seq<string>)
    requires NoDuplicates(links)
    ensures UniqueLinks(links) == links
  {
    if links != [] {
      var init := links[..|links| - 1];
      UniqueLinksOfDistinct(init);
      assert links[|links| - 1] !in init;
      assert links == init + [links[|links| - 1]];
    }
  }

  /** Whatever order it picks, the dedup step lists every matched URL
      exactly once and nothing else, so on a duplicate-free input it returns
      a permutation of that input. */
  lemma UniqueLinksOnceEach(matches: seq<string>)
    ensures forall x :: multiset(UniqueLinks(matches))[x] == if x in matches then 1 else 0
    ensures NoDuplicates(matches) ==> multiset(UniqueLinks(matches)) == multiset(matches)
  {
    var r := UniqueLinks(matches);
    forall x
      ensures multiset(r)[x] == if x in matches then 1 else 0
    {
      DistinctMultiplicity(r, x);
    }
    if NoDuplicates(matches) {
      forall x
        ensures multiset(r)[x] == multiset(matches)[x]
      {
        DistinctMultiplicity(matches, x);
      }
    }
  }

  // ----------------------------------------------------------- image test

  /** `is_image_link`. */
  predicate IsImageLink(link: string) {
    LowerStr(Last(link, 4)) in ImageExts
  }

  /** A link is an image exactly when its lowercased last four characters
      are `.ico`, `.png` or `.gif`, or it is three characters long and
      lowercases to `jpg`: the undotted entry never matches a four-character
      tail. */
  lemma IsImageLinkIff(link: string)
    ensures IsImageLink(link) <==>
      || (|link| >= 4 && LowerStr(link[|link| - 4..]) in {".ico", ".png", ".gif"})
      || (|link| == 3 && LowerStr(link) == "jpg")
  {
  }

  /** The image test ignores case. */
  lemma ImageTestIgnoresCase(link: string)
    ensures IsImageLink(LowerStr(link)) == IsImageLink(link)
  {
    var low := LowerStr(link);
    assert LowerStr(Last(low, 4)) == LowerStr(Last(link, 4));
  }

  /** A trailing `/` defeats the image test. */
  lemma TrailingSlashNotImage(link: string)
    ensures !IsImageLink(link + "/")
  {
    var s := link + "/";
    assert LowerStr(Last(s, 4))[|Last(s, 4)| - 1] == '/';
  }

  /** A link ending in `.jpg`, in any case, is not an image. */
  lemma JpgNotImage(link: string)
    requires |link| >= 4 && LowerStr(link[|link| - 4..]) == ".jpg"
    ensures !IsImageLink(link)
  {
    IsImageLinkIff(link);
  }

  /** The extension list as the unit tests read it, every entry dotted. */
  const IntendedImageExts: seq<string> := [".ico", ".png", ".jpg", ".gif"]

  /** `is_image_link` over the dotted extension list. */
  predicate IntendedIsImageLink(link: string) {
    LowerStr(Last(link, 4)) in IntendedImageExts
  }

  /** The intended test and the source's disagree on exactly two kinds of
      link: those whose lowercased last four characters are `.jpg`, which
      only the intended test accepts, and three-character links lowercasing
      to `jpg`, which only the source's accepts.  On every other link they
      agree. */
  lemma IntendedImageTestDiffers(link: string)
    ensures IntendedIsImageLink(link) && !IsImageLink(link) <==>
      |link| >= 4 && LowerStr(link[|link| - 4..]) == ".jpg"
    ensures IsImageLink(link) && !IntendedIsImageLink(link) <==>
      |link| == 3 && LowerStr(link) == "jpg"
  {
    var tail := Last(link, 4);
    assert |LowerStr(tail)| == |tail|;
    if |link| >= 4 {
      assert tail == link[|link| - 4..];
    } else {
      assert tail == link;
    }
  }

  // ----------------------------------------------------------- normaliser

  /** Steps 2 and 3 of `strip_http_www`: a character-set `lstrip`, guarded by
      a literal prefix test. */
  function StripScheme(link: string): string {
    if StartsWith(link, "https://") then LStrip(link, HttpsChars)
    else if StartsWith(link, "http://") then LStrip(link, HttpChars)
    else link
  }

  /** Step 4 of `strip_http_www`. */
  function StripWww(link: string): string {
    if StartsWith(link, "www.") then LStrip(link, WwwChars) else link
  }

  /** `strip_http_www`: surrounding `/` are removed, then the scheme, then `www.`. */
  function StripHttpWww(link: string): string {
    StripWww(StripScheme(Strip(link, Slash)))
  }

  /** The scheme step only drops scheme characters. */
  lemma StripSchemeTrims(link: string)
    ensures TrimmedFrom(StripScheme(link), link, HttpsChars)
  {
    if StartsWith(link, "https://") {
      LStripSpec(link, HttpsChars);
    } else if StartsWith(link, "http://") {
      LStripSpec(link, HttpChars);
    }
  }

  /** The `www.` step only drops `w` and `.`. */
  lemma StripWwwTrims(link: string)
    ensures TrimmedFrom(StripWww(link), link, WwwChars)
  {
    if StartsWith(link, "www.") {
      LStripSpec(link, WwwChars);
    }
  }

  /** The normalised form is a tail of the slash-trimmed link, reached by
      dropping only scheme and `www.` characters, and it never ends in `/`. */
  lemma StripHttpWwwSpec(link: string)
    ensures var r := StripHttpWww(link);
      && TrimmedFrom(r, Strip(link, Slash), HttpsChars + WwwChars)
      && (r == [] || r[|r| - 1] != '/')
  {
    var t := Strip(link, Slash);
    StripSpec(link, Slash);
    var n := StripScheme(t);
    StripSchemeTrims(t);
    var r := StripWww(n);
    StripWwwTrims(n);
    TrimmedFromTrans(r, n, t, WwwChars, HttpsChars);
    assert WwwChars + HttpsChars == HttpsChars + WwwChars;
    if r != [] {
      TrimmedFromKeepsLast(r, t, HttpsChars + WwwChars);
    }
  }

  /** A link with no scheme and no `www.` after slash trimming only loses
      its surrounding slashes. */
  lemma StripHttpWwwPlain(link: string)
    requires var t := Strip(link, Slash);
      !StartsWith(t, "https://") && !StartsWith(t, "http://") && !StartsWith(t, "www.")
    ensures StripHttpWww(link) == Strip(link, Slash)
  {
  }

  /** Reference normaliser: each prefix removed literally, at most once. */
  function DropPrefix(s: string, prefix: string): string {
    if StartsWith(s, prefix) then s[|prefix|..] else s
  }

  /** Literal removal of a leading `https://` or, failing that, `http://`. */
  function DropScheme(link: string): string {
    if StartsWith(link, "https://") then DropPrefix(link, "https://")
    else DropPrefix(link, "http://")
  }

  function ExactStripHttpWww(link: string): string {
    DropPrefix(DropScheme(Strip(link, Slash)), "www.")
  }

  /** The character set the scheme step strips after a literal `scheme`. */
  function SchemeChars(scheme: string): set<char> {
    if scheme == "https://" then HttpsChars else HttpChars
  }

  /** The characters the source keeps stripping after the scheme, or after
      `www.` when that follows. */
  function RunChars(scheme: string, www: string): set<char> {
    if www == "www." then WwwChars else SchemeChars(scheme)
  }

  /** After a literal scheme the scheme step strips the scheme's characters
      from the rest, where literal removal keeps the rest whole. */
  lemma SchemeStepOf(scheme: string, rest: string)
    requires scheme == "https://" || scheme == "http://"
    ensures StripScheme(scheme + rest) == LStrip(rest, SchemeChars(scheme))
    ensures DropScheme(scheme + rest) == rest
  {
    var link := scheme + rest;
    assert link[..|scheme|] == scheme && link[|scheme|..] == rest;
    assert StartsWith(link, scheme);
    if scheme == "http://" {
      assert link[4] == ':';
      NotStartsWith(link, "https://", 4);
    }
    LStripPastPrefix(link, scheme, SchemeChars(scheme));
  }

  /** The scheme and `www.` steps on a URL with no `www.`: the scheme step
      strips the run, and the `www.` step does nothing. */
  lemma SchemeRunSteps(scheme: string, run: string, host: string)
    requires scheme == "https://" || scheme == "http://"
    requires forall i :: 0 <= i < |run| ==> run[i] in SchemeChars(scheme)
    requires host != [] && host[0] !in HttpsChars + WwwChars
    ensures StripWww(StripScheme(scheme + (run + host))) == host
    ensures DropPrefix(DropScheme(scheme + (run + host)), "www.") == run + host
  {
    var tail := run + host;
    assert tail[0] == if run == [] then host[0] else run[0];
    SchemeStepOf(scheme, tail);
    LStripRun(run, host, SchemeChars(scheme));
    NotStartsWith(host, "www.", 0);
    NotStartsWith(tail, "www.", 0);
  }

  /** The scheme and `www.` steps on a URL with `www.`: the scheme step
      stops at the `w`, and the `www.` step strips `www.` and the run. */
  lemma SchemeWwwRunSteps(scheme: string, run: string, host: string)
    requires scheme == "https://" || scheme == "http://"
    requires forall i :: 0 <= i < |run| ==> run[i] in WwwChars
    requires host != [] && host[0] !in HttpsChars + WwwChars
    ensures StripWww(StripScheme(scheme + ("www." + (run + host)))) == host
    ensures DropPrefix(DropScheme(scheme + ("www." + (run + host))), "www.") == run + host
  {
    var tail := run + host;
    var rest := "www." + tail;
    SchemeStepOf(scheme, rest);
    assert rest[0] == 'w';
    assert LStrip(rest, SchemeChars(scheme)) == rest;
    assert rest[..4] == "www." && rest[4..] == tail;
    assert rest == ("www." + run) + host;
    LStripRun("www." + run, host, WwwChars);
  }

  /** The scheme and `www.` steps on a slash-free URL of the shape below. */
  lemma PrefixStepsOf(scheme: string, www: string, run: string, host: string)
    requires scheme == "https://" || scheme == "http://"
    requires www == "" || www == "www."
    requires forall i :: 0 <= i < |run| ==> run[i] in RunChars(scheme, www)
    requires host != [] && host[0] !in HttpsChars + WwwChars
    ensures StripWww(StripScheme(scheme + (www + (run + host)))) == host
    ensures DropPrefix(DropScheme(scheme + (www + (run + host))), "www.") == run + host
  {
    if www == "" {
      assert www + (run + host) == run + host;
      SchemeRunSteps(scheme, run, host);
    } else {
      SchemeWwwRunSteps(scheme, run, host);
    }
  }

  /** A URL written as a scheme, an optional `www.`, a run of characters of
      the strip set that applies next, a host part and trailing slashes
      normalises to the host part alone, where literal prefix removal keeps
      the run: provided the host part neither starts with a scheme or `www.`
      character nor ends with `/`.  With an empty run the two agree. */
  lemma StripHttpWwwOfUrl(scheme: string, www: string, run: string, host: string, slashes: string)
    requires scheme == "https://" || scheme == "http://"
    requires www == "" || www == "www."
    requires forall i :: 0 <= i < |run| ==> run[i] in RunChars(scheme, www)
    requires host != [] && host[0] !in HttpsChars + WwwChars && host[|host| - 1] != '/'
    requires forall i :: 0 <= i < |slashes| ==> slashes[i] == '/'
    ensures StripHttpWww(scheme + www + run + host + slashes) == host
    ensures ExactStripHttpWww(scheme + www + run + host + slashes) == run + host
  {
    var core := scheme + (www + (run + host));
    var link := scheme + www + run + host + slashes;
    assert Strip(link, Slash) == core by {
      assert link == core + slashes;
      assert core[0] == 'h' && core[|core| - 1] == host[|host| - 1];
      StripTrailingRun(core, slashes, Slash);
    }
    PrefixStepsOf(scheme, www, run, host);
  }

  /** A character-set strip through a literal scheme whose characters are
      in the set drops the scheme and then only scheme characters, and
      nothing more when `www.` follows the scheme. */
  lemma LiteralSchemeOverStrips(link: string, scheme: string, chars: set<char>)
    requires StartsWith(link, scheme) && chars <= HttpsChars && 'w' !in chars
    requires forall i :: 0 <= i < |scheme| ==> scheme[i] in chars
    ensures TrimmedFrom(LStrip(link, chars), link[|scheme|..], HttpsChars)
    ensures StartsWith(link[|scheme|..], "www.") ==> LStrip(link, chars) == link[|scheme|..]
  {
    var rest := link[|scheme|..];
    LStripPastPrefix(link, scheme, chars);
    LStripSpec(rest, chars);
    if StartsWith(rest, "www.") {
      assert rest[0] == 'w';
    }
  }

  /** The source's scheme step strips at least the literal scheme, and
      exactly it when `www.` follows. */
  lemma SchemeStepOverStrips(link: string)
    ensures TrimmedFrom(StripScheme(link), DropScheme(link), HttpsChars)
    ensures StartsWith(DropScheme(link), "www.") ==> StripScheme(link) == DropScheme(link)
  {
    if StartsWith(link, "https://") {
      LiteralSchemeOverStrips(link, "https://", HttpsChars);
    } else if StartsWith(link, "http://") {
      LiteralSchemeOverStrips(link, "http://", HttpChars);
    }
  }

  /** The source's step 4 after a scheme step that may have over-stripped. */
  lemma WwwStepOverStrips(exact: string, actual: string)
    requires TrimmedFrom(actual, exact, HttpsChars)
    requires StartsWith(exact, "www.") ==> actual == exact
    ensures TrimmedFrom(StripWww(actual), DropPrefix(exact, "www."), HttpsChars + WwwChars)
  {
    if StartsWith(exact, "www.") {
      LStripPastPrefix(exact, "www.", WwwChars);
      LStripSpec(exact[4..], WwwChars);
    } else {
      StripWwwTrims(actual);
      TrimmedFromTrans(StripWww(actual), actual, exact, WwwChars, HttpsChars);
      assert WwwChars + HttpsChars == HttpsChars + WwwChars;
    }
  }

  /** The source normaliser never strips less than literal prefix removal
      would: its result is a tail of the reference result, and everything
      it strips beyond the reference is a scheme or `www.` character. */
  lemma StripHttpWwwOverStrips(link: string)
    ensures TrimmedFrom(StripHttpWww(link), ExactStripHttpWww(link), HttpsChars + WwwChars)
  {
    var t := Strip(link, Slash);
    SchemeStepOverStrips(t);
    WwwStepOverStrips(DropScheme(t), StripScheme(t));
  }

  /** ... and the two agree whenever the reference result does not start
      with a scheme or `www.` character. */
  lemma StripHttpWwwAgreesWithExact(link: string)
    requires var e := ExactStripHttpWww(link); e == [] || e[0] !in HttpsChars + WwwChars
    ensures StripHttpWww(link) == ExactStripHttpWww(link)
  {
    StripHttpWwwOverStrips(link);
  }

  /** Literal prefix removal takes off the scheme and a `www.` right after
      it, and leaves the rest of the URL whole, whatever its characters. */
  lemma ExactStripRemovesPrefixes(scheme: string, www: string, rest: string)
    requires scheme == "https://" || scheme == "http://"
    requires www == "" || www == "www."
    requires rest != [] && rest[|rest| - 1] != '/'
    requires www == "" ==> !StartsWith(rest, "www.")
    ensures ExactStripHttpWww(scheme + www + rest) == rest
  {
    var tail := www + rest;
    var link := scheme + tail;
    assert scheme + www + rest == link;
    assert Strip(link, Slash) == link by {
      assert link[0] == 'h' && link[|link| - 1] == rest[|rest| - 1];
      assert link + "" == link;
      StripTrailingRun(link, "", Slash);
    }
    SchemeStepOf(scheme, tail);
    if www == "www." {
      assert tail[..4] == www && tail[4..] == rest;
    } else {
      assert tail == rest;
    }
  }

  // ---------------------------------------------------------- classifiers

  /** The domain test of `get_domain_links`: the normalised link starts with
      the normalised anchor. */
  predicate InDomain(link: string, domainUrl: string) {
    StartsWith(StripHttpWww(link), StripHttpWww(domainUrl))
  }

  /** `get_domain_links`. */
  function DomainLinks(links: seq<string>, domainUrl: string): (r: seq<string>)
    ensures forall x {:trigger x in r} :: x in r <==> x in links && InDomain(x, domainUrl) && !IsImageLink(x)
  {
    Filter(link => InDomain(link, domainUrl) && !IsImageLink(link), links)
  }

  /** `get_image_links`. */
  function ImageLinks(links: seq<string>): (r: seq<string>)
    ensures forall x {:trigger x in r} :: x in r <==> x in links && IsImageLink(x)
  {
    Filter(IsImageLink, links)
  }

  /** `get_non_image_links`. */
  function NonImageLinks(links: seq<string>): (r: seq<string>)
    ensures forall x {:trigger x in r} :: x in r <==> x in links && !IsImageLink(x)
  {
    Filter(link => !IsImageLink(link), links)
  }

  /** Image and non-image links split the input: every occurrence lands in
      exactly one of them, so their lengths add up to the input's. */
  lemma ImagePartition(links: seq<string>)
    ensures multiset(ImageLinks(links)) + multiset(NonImageLinks(links)) == multiset(links)
    ensures |ImageLinks(links)| + |NonImageLinks(links)| == |links|
  {
    FilterPartition(IsImageLink, link => !IsImageLink(link), links);
  }

  /** The three classifiers keep their input's order: classifying a
      concatenation classifies each part. */
  lemma ClassifiersPreserveOrder(a: seq<string>, b: seq<string>, domainUrl: string)
    ensures ImageLinks(a + b) == ImageLinks(a) + ImageLinks(b)
    ensures NonImageLinks(a + b) == NonImageLinks(a) + NonImageLinks(b)
    ensures DomainLinks(a + b, domainUrl) == DomainLinks(a, domainUrl) + DomainLinks(b, domainUrl)
  {
    FilterConcat(IsImageLink, a, b);
    FilterConcat(link => !IsImageLink(link), a, b);
    FilterConcat(link => InDomain(link, domainUrl) && !IsImageLink(link), a, b);
  }

  /** Domain links are the in-domain entries of the non-image links, in the
      same order; in particular no domain link is an image link. */
  lemma DomainLinksAreNonImageLinks(links: seq<string>, domainUrl: string)
    ensures DomainLinks(links, domainUrl) == Filter(link => InDomain(link, domainUrl), NonImageLinks(links))
    ensures forall x :: x in DomainLinks(links, domainUrl) ==> x !in ImageLinks(links)
  {
    FilterFilter(link => InDomain(link, domainUrl), link => !IsImageLink(link),
      link => InDomain(link, domainUrl) && !IsImageLink(link), links);
  }
}

/** The assertions of the repository's unit tests for the link helpers,
    stated as lemmas about the model. */
module LinkVectors {
  import opened PyStr
  import opened Seqs
  import opened Links

  // ------------------------------------------------------ strip_http_www

  lemma StripHttpsVector()
    ensures StripHttpWww("https://example.com") == "example.com"
  {
    var host := "example.com";
    assert "https://" + host == "https://example.com";
    assert "https://" + host == "https://" + "" + "" + host + "";
    StripHttpWwwOfUrl("https://", "", "", host, "");
  }

  lemma StripHttpVector()
    ensures StripHttpWww("http://example.com") == "example.com"
  {
    var host := "example.com";
    assert "http://" + host == "http://example.com";
    assert "http://" + host == "http://" + "" + "" + host + "";
    StripHttpWwwOfUrl("http://", "", "", host, "");
  }

  lemma StripHttpsWwwVector()
    ensures StripHttpWww("https://www.example.com") == "example.com"
  {
    var host := "example.com";
    assert "https://www." + host == "https://www.example.com";
    assert "https://www." + host == "https://" + "www." + "" + host + "";
    StripHttpWwwOfUrl("https://", "www.", "", host, "");
  }

  lemma StripHttpWwwVector()
    ensures StripHttpWww("http://www.example.com") == "example.com"
  {
    var host := "example.com";
    assert "http://www." + host == "http://www.example.com";
    assert "http://www." + host == "http://" + "www." + "" + host + "";
    StripHttpWwwOfUrl("http://", "www.", "", host, "");
  }

  /** The scheme step strips a character set, so a host starting with a
      scheme character loses it. */
  lemma SchemeOverStripVector()
    ensures StripHttpWww("https://test.com") == "est.com"
    ensures ExactStripHttpWww("https://test.com") == "test.com"
  {
    var host := "est.com";
    assert "https://t" + host == "https://test.com";
    assert "https://t" + host == "https://" + "" + "t" + host + "";
    assert "t" + host == "test.com";
    StripHttpWwwOfUrl("https://", "", "t", host, "");
  }

  /** The `www.` step strips a character set, so after a literal `www.` a
      host starting with `w` loses it. */
  lemma WwwOverStripVector()
    ensures StripHttpWww("https://www.web.com") == "eb.com"
    ensures ExactStripHttpWww("https://www.web.com") == "web.com"
  {
    var host := "eb.com";
    assert "https://www.w" + host == "https://www.web.com";
    assert "https://www.w" + host == "https://" + "www." + "w" + host + "";
    assert "w" + host == "web.com";
    StripHttpWwwOfUrl("https://", "www.", "w", host, "");
  }

  /** An `https://` URL whose host part starts with neither a scheme
      character nor a literal `www.` normalises to its host part either way. */
  lemma HttpsHostKept(host: string)
    requires host != [] && host[0] !in HttpsChars && host[|host| - 1] != '/'
    requires !StartsWith(host, "www.")
    ensures StripHttpWww("https://" + host) == host
    ensures ExactStripHttpWww("https://" + host) == host
  {
    var link := "https://" + host;
    assert Strip(link, Slash) == link by {
      assert link[0] == 'h' && link[|link| - 1] == host[|host| - 1];
      assert link + "" == link;
      StripTrailingRun(link, "", Slash);
    }
    SchemeStepOf("https://", host);
  }

  /** The `www.` step is guarded by a literal prefix test, so a `wwww.` host
      is kept whole, as literal prefix removal keeps it. */
  lemma WwwwKeptVector()
    ensures StripHttpWww("https://wwww.example.com") == "wwww.example.com"
    ensures ExactStripHttpWww("https://wwww.example.com") == "wwww.example.com"
  {
    var host := "wwww.example.com";
    assert "https://" + host == "https://wwww.example.com";
    NotStartsWith(host, "www.", 3);
    HttpsHostKept(host);
  }

  // -------------------------------------------------------- is_image_link

  /** The image test looks at the last four characters only. */
  lemma ImageTestOfTail(front: string, tail: string)
    requires |tail| == 4
    ensures IsImageLink(front + tail) <==> LowerStr(tail) in ImageExts
  {
    assert Last(front + tail, 4) == tail;
  }

  lemma PlainLinkNotImageVector()
    ensures !IsImageLink("https://example.com")
  {
    assert "https://example" + ".com" == "https://example.com";
    assert LowerStr(".com") == ".com";
    ImageTestOfTail("https://example", ".com");
  }

  lemma IcoSlashNotImageVector()
    ensures !IsImageLink("https://example.com/img1.ico/")
  {
    assert "https://example.com/img1.ico" + "/" == "https://example.com/img1.ico/";
    TrailingSlashNotImage("https://example.com/img1.ico");
  }

  lemma PngSlashNotImageVector()
    ensures !IsImageLink("https://example.com/img1.PNG/")
  {
    assert "https://example.com/img1.PNG" + "/" == "https://example.com/img1.PNG/";
    TrailingSlashNotImage("https://example.com/img1.PNG");
  }

  /** The unit test expects this link to be an image; the undotted `jpg`
      entry of the extension list makes the source answer no. */
  lemma JpgVector()
    ensures !IsImageLink("https://example.com/img1.jpg")
  {
    var link := "https://example.com/img1.jpg";
    assert link[|link| - 4..] == ".jpg";
    assert LowerStr(".jpg") == ".jpg";
    JpgNotImage(link);
  }

  /** The same link under the dotted extension list the test assumes. */
  lemma IntendedJpgVector()
    ensures IntendedIsImageLink("https://example.com/img1.jpg")
  {
    var link := "https://example.com/img1.jpg";
    assert Last(link, 4) == ".jpg";
    assert LowerStr(".jpg") == ".jpg";
  }

  lemma GifVector()
    ensures IsImageLink("https://example.com/img1.GIF")
  {
    assert "https://example.com/img1" + ".GIF" == "https://example.com/img1.GIF";
    assert LowerStr(".GIF") == ".gif";
    ImageTestOfTail("https://example.com/img1", ".GIF");
  }

  // ------------------------------------------------------ the classifiers

  /** The link list the classifier tests share. */
  const TestLinks: seq<string> := [
    "https://example.com/",
    "http://example2.com",
    "https://example2.com//",
    "http://example.com",
    "http://example.com/img1.png",
    "http://example2.com/img2.ico"
  ]

  /** A URL with no run after its prefixes normalises to its host part. */
  lemma PlainUrl(scheme: string, www: string, host: string, slashes: string)
    requires scheme == "https://" || scheme == "http://"
    requires www == "" || www == "www."
    requires host != [] && host[0] !in HttpsChars + WwwChars && host[|host| - 1] != '/'
    requires forall i :: 0 <= i < |slashes| ==> slashes[i] == '/'
    ensures StripHttpWww(scheme + www + host + slashes) == host
  {
    assert scheme + www + "" + host + slashes == scheme + www + host + slashes;
    StripHttpWwwOfUrl(scheme, www, "", host, slashes);
  }

  /** Which test links are images. */
  lemma TestLinkImages()
    ensures !IsImageLink(TestLinks[0]) && !IsImageLink(TestLinks[1])
    ensures !IsImageLink(TestLinks[2]) && !IsImageLink(TestLinks[3])
    ensures IsImageLink(TestLinks[4]) && IsImageLink(TestLinks[5])
  {
    assert "https://example.com" + "/" == TestLinks[0];
    TrailingSlashNotImage("https://example.com");
    assert "http://example2" + ".com" == TestLinks[1];
    ImageTestOfTail("http://example2", ".com");
    assert "https://example2.com/" + "/" == TestLinks[2];
    TrailingSlashNotImage("https://example2.com/");
    assert "http://example" + ".com" == TestLinks[3];
    ImageTestOfTail("http://example", ".com");
    assert LowerStr(".com") == ".com";
    assert "http://example.com/img1" + ".png" == TestLinks[4];
    ImageTestOfTail("http://example.com/img1", ".png");
    assert LowerStr(".png") == ".png";
    assert "http://example2.com/img2" + ".ico" == TestLinks[5];
    ImageTestOfTail("http://example2.com/img2", ".ico");
    assert LowerStr(".ico") == ".ico";
  }

  lemma TestLinkForm0()
    ensures StripHttpWww(TestLinks[0]) == "example.com"
  {
    var host := "example.com";
    assert "https://" + host + "/" == TestLinks[0];
    assert "https://" + host + "/" == "https://" + "" + host + "/";
    PlainUrl("https://", "", host, "/");
  }

  lemma TestLinkForm1()
    ensures StripHttpWww(TestLinks[1]) == "example2.com"
  {
    var host := "example2.com";
    assert "http://" + host == TestLinks[1];
    assert "http://" + host == "http://" + "" + host + "";
    PlainUrl("http://", "", host, "");
  }

  lemma TestLinkForm2()
    ensures StripHttpWww(TestLinks[2]) == "example2.com"
  {
    var host := "example2.com";
    assert "https://" + host + "//" == TestLinks[2];
    assert "https://" + host + "//" == "https://" + "" + host + "//";
    PlainUrl("https://", "", host, "//");
  }

  lemma TestLinkForm3()
    ensures StripHttpWww(TestLinks[3]) == "example.com"
  {
    StripHttpVector();
  }

  lemma WwwSlashesAnchorForm()
    ensures StripHttpWww("https://www.example.com//") == "example.com"
  {
    var host := "example.com";
    assert "https://www." + host + "//" == "https://www.example.com//";
    assert "https://www." + host + "//" == "https://" + "www." + host + "//";
    PlainUrl("https://", "www.", host, "//");
  }

  lemma Example2AnchorForm()
    ensures StripHttpWww("http://www.example2.com///") == "example2.com"
  {
    var host := "example2.com";
    assert "http://www." + host + "///" == "http://www.example2.com///";
    assert "http://www." + host + "///" == "http://" + "www." + host + "///";
    PlainUrl("http://", "www.", host, "///");
  }

  /** The domain links of a list made of two links that normalise to the
      anchor's form, two whose forms do not extend it, and two images. */
  lemma DomainLinksOfSix(links: seq<string>, anchor: string,
                         inA: string, inB: string, outA: string, outB: string, imgA: string, imgB: string)
    requires forall x :: x in links <==> x in {inA, inB, outA, outB, imgA, imgB}
    requires StripHttpWww(inA) == StripHttpWww(anchor) && !IsImageLink(inA)
    requires StripHttpWww(inB) == StripHttpWww(anchor) && !IsImageLink(inB)
    requires !StartsWith(StripHttpWww(outA), StripHttpWww(anchor))
    requires !StartsWith(StripHttpWww(outB), StripHttpWww(anchor))
    requires IsImageLink(imgA) && IsImageLink(imgB)
    ensures forall x :: x in DomainLinks(links, anchor) <==> x == inA || x == inB
  {
    var form := StripHttpWww(anchor);
    assert StartsWith(form, form);
  }

  /** Two links with the anchor's normal form match it; two whose common
      form differs from the anchor's within its length do not. */
  lemma FormsAgainst(anchor: string, inA: string, inB: string, outA: string, outB: string,
                     form: string, otherForm: string, at: nat)
    requires StripHttpWww(anchor) == form
    requires StripHttpWww(inA) == form && StripHttpWww(inB) == form
    requires StripHttpWww(outA) == otherForm && StripHttpWww(outB) == otherForm
    requires at < |form| && (at < |otherForm| ==> otherForm[at] != form[at])
    ensures StripHttpWww(inA) == StripHttpWww(anchor) && StripHttpWww(inB) == StripHttpWww(anchor)
    ensures !StartsWith(StripHttpWww(outA), StripHttpWww(anchor))
    ensures !StartsWith(StripHttpWww(outB), StripHttpWww(anchor))
  {
    NotStartsWith(otherForm, form, at);
  }

  lemma ExampleForms(anchor: string)
    requires StripHttpWww(anchor) == "example.com"
    ensures StripHttpWww(TestLinks[0]) == StripHttpWww(anchor)
    ensures StripHttpWww(TestLinks[3]) == StripHttpWww(anchor)
    ensures !StartsWith(StripHttpWww(TestLinks[1]), StripHttpWww(anchor))
    ensures !StartsWith(StripHttpWww(TestLinks[2]), StripHttpWww(anchor))
  {
    TestLinkForm0();
    TestLinkForm3();
    TestLinkForm1();
    TestLinkForm2();
    FormsAgainst(anchor, TestLinks[0], TestLinks[3], TestLinks[1], TestLinks[2], "example.com", "example2.com", 7);
  }

  /** Against any anchor that normalises to `example.com`, the domain links
      of the test list are its two `example.com` pages. */
  lemma ExampleDomainLinks(anchor: string)
    requires StripHttpWww(anchor) == "example.com"
    ensures forall x :: x in DomainLinks(TestLinks, anchor) <==> x == "https://example.com/" || x == "http://example.com"
  {
    TestLinkImages();
    ExampleForms(anchor);
    DomainLinksOfSix(TestLinks, anchor, TestLinks[0], TestLinks[3], TestLinks[1], TestLinks[2], TestLinks[4], TestLinks[5]);
  }

  lemma Example2Forms(anchor: string)
    requires StripHttpWww(anchor) == "example2.com"
    ensures StripHttpWww(TestLinks[1]) == StripHttpWww(anchor)
    ensures StripHttpWww(TestLinks[2]) == StripHttpWww(anchor)
    ensures !StartsWith(StripHttpWww(TestLinks[0]), StripHttpWww(anchor))
    ensures !StartsWith(StripHttpWww(TestLinks[3]), StripHttpWww(anchor))
  {
    TestLinkForm1();
    TestLinkForm2();
    TestLinkForm0();
    TestLinkForm3();
    FormsAgainst(anchor, TestLinks[1], TestLinks[2], TestLinks[0], TestLinks[3], "example2.com", "example.com", 7);
  }

  /** Against any anchor that normalises to `example2.com`, the domain links
      of the test list are its two `example2.com` pages. */
  lemma Example2DomainLinks(anchor: string)
    requires StripHttpWww(anchor) == "example2.com"
    ensures forall x :: x in DomainLinks(TestLinks, anchor) <==> x == "http://example2.com" || x == "https://example2.com//"
  {
    TestLinkImages();
    Example2Forms(anchor);
    DomainLinksOfSix(TestLinks, anchor, TestLinks[1], TestLinks[2], TestLinks[0], TestLinks[3], TestLinks[4], TestLinks[5]);
  }

  /** The five assertions of the domain-link unit test. */
  lemma DomainLinksVectors()
    ensures forall x :: x in DomainLinks(TestLinks, "https://example.com") <==> x == "https://example.com/" || x == "http://example.com"
    ensures forall x :: x in DomainLinks(TestLinks, "https://www.example.com//") <==> x == "https://example.com/" || x == "http://example.com"
    ensures forall x :: x in DomainLinks(TestLinks, "http://example.com") <==> x == "https://example.com/" || x == "http://example.com"
    ensures forall x :: x in DomainLinks(TestLinks, "http://www.example.com") <==> x == "https://example.com/" || x == "http://example.com"
    ensures forall x :: x in DomainLinks(TestLinks, "http://www.example2.com///") <==> x == "http://example2.com" || x == "https://example2.com//"
  {
    StripHttpsVector();
    ExampleDomainLinks("https://example.com");
    WwwSlashesAnchorForm();
    ExampleDomainLinks("https://www.example.com//");
    StripHttpVector();
    ExampleDomainLinks("http://example.com");
    StripHttpWwwVector();
    ExampleDomainLinks("http://www.example.com");
    Example2AnchorForm();
    Example2DomainLinks("http://www.example2.com///");
  }

  /** The image-link and non-image-link unit tests. */
  lemma ImageLinksVectors()
    ensures forall x :: x in ImageLinks(TestLinks) <==> x == "http://example.com/img1.png" || x == "http://example2.com/img2.ico"
    ensures forall x :: x in NonImageLinks(TestLinks) <==>
      x == "https://example.com/" || x == "http://example2.com" || x == "https://example2.com//" || x == "http://example.com"
  {
    TestLinkImages();
    forall x
      ensures x in ImageLinks(TestLinks) <==> x == TestLinks[4] || x == TestLinks[5]
      ensures x in NonImageLinks(TestLinks) <==> x in TestLinks[..4]
    {
    }
  }

  // ------------------------------------------------------------ the dedup

  /** The href values of the link-extraction fixture, in document order. */
  const FixtureMatches: seq<string> := [
    "https://www.mozilla.org/media/img/favicon/apple-touch-icon-180x180.8772ec154918.png",
    "https://www.mozilla.org/media/img/favicon/favicon-196x196.c80e6abe0767.png",
    "https://www.mozilla.org/media/img/favicon.d4f1f46b91f4.ico",
    "https://www.mozilla.org/media/img/favicon/apple-touch-icon-180x180.8772ec154918.png",
    "https://www.mozilla.org/en-US/",
    "https://www.mozilla.org/en-US/",
    "https://www.mozilla.org/an/",
    "https://www.mozilla.org/ar/",
    "https://www.mozilla.org/az/",
    "https://www.mozilla.org/an/",
    "https://www.mozilla.org/be/",
    "https://www.mozilla.org/bg/",
    "https://www.mozilla.org/bs/",
    "https://www.mozilla.org/ca/"
  ]

  /** The set the link-extraction unit test expects. */
  const FixtureLinks: set<string> := {
    "https://www.mozilla.org/media/img/favicon/apple-touch-icon-180x180.8772ec154918.png",
    "https://www.mozilla.org/media/img/favicon/favicon-196x196.c80e6abe0767.png",
    "https://www.mozilla.org/media/img/favicon.d4f1f46b91f4.ico",
    "https://www.mozilla.org/en-US/",
    "https://www.mozilla.org/an/",
    "https://www.mozilla.org/ar/",
    "https://www.mozilla.org/az/",
    "https://www.mozilla.org/be/",
    "https://www.mozilla.org/bg/",
    "https://www.mozilla.org/bs/",
    "https://www.mozilla.org/ca/"
  }

  /** Deduplicating the fixture's fourteen matches leaves exactly the
      expected links, each once. */
  lemma FixtureDedupVector()
    ensures forall x :: x in UniqueLinks(FixtureMatches) <==> x in FixtureLinks
    ensures NoDuplicates(UniqueLinks(FixtureMatches))
  {
  }
}

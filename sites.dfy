/** Facts about individual scrapers, stated on their profiles. */
module Sites {
  import opened Wrappers
  import opened Dom
  import opened Selectors
  import opened Pruning
  import opened Paywall
  import opened Profiles
  import opened Locator
  import opened Article

  /** MSNBC: when the page has an `article` holding a paywall marker, the scraper reports that it found no
      content, not a paywall, and does not go on to try `main` or the other selectors. */
  lemma MsnbcMarkerMeansNotFound(doc: Node, bypass: bool, updates: seq<string>)
    requires SelectOne(doc, [], [TagSel("article")]).Some?
    requires Indicated(SelectOne(doc, [], [TagSel("article")]).value, Msnbc.indicators)
    ensures Extract(Msnbc, doc, bypass, updates) == ContentNotFound
  {
    CascadePicks(doc, Msnbc.cascade, 0, 0);
  }

  /** The Verge: its own container classes are tried before `article`, so `.l-col__main` wins wherever
      it is in the page. */
  lemma VergeOwnClassFirst(doc: Node)
    requires SelectOne(doc, [], [ClassSel("l-col__main")]).Some?
    ensures Locate(doc, TheVerge) == SelectOne(doc, [], [ClassSel("l-col__main")])
  {
    CascadePicks(doc, TheVerge.cascade, 0, 0);
  }

  /** Times of India: `article` is tried first; a page without one but with `main` uses `main`. */
  lemma TimesOfIndiaMainSecond(doc: Node)
    requires Misses(doc, TagSel("article")) && SelectOne(doc, [], [TagSel("main")]).Some?
    ensures Locate(doc, TimesOfIndia) == SelectOne(doc, [], [TagSel("main")])
  {
    TimesOfIndiaOrder();
    SecondSelector(doc, TimesOfIndia);
  }

  lemma TimesOfIndiaOrder()
    ensures TimesOfIndia.indicators == [] && |TimesOfIndia.cascade| >= 2
    ensures TimesOfIndia.cascade[0] == TagSel("article") && TimesOfIndia.cascade[1] == TagSel("main")
  {
  }

  /** Without paywall markers, a page that the first selector misses uses what the second one finds. */
  lemma SecondSelector(doc: Node, p: ArticleProfile)
    requires p.indicators == [] && |p.cascade| >= 2
    requires Misses(doc, p.cascade[0]) && SelectOne(doc, [], [p.cascade[1]]).Some?
    ensures Locate(doc, p) == SelectOne(doc, [], [p.cascade[1]])
  {
    CascadePicks(doc, p.cascade, 0, 1);
    LocateUnmarked(doc, p);
  }

  /** ABC News: `find_main_content` changes nothing. */
  lemma AbcLeavesPageAlone(doc: Node)
    ensures AfterCleanUp(doc, AbcNewsAu) == doc
    ensures Locate(doc, AbcNewsAu).Some? ==> Container(doc, AbcNewsAu) == Locate(doc, AbcNewsAu).value
  {
    if Locate(doc, AbcNewsAu).Some? {
      ReplaceAtSame(doc, Locate(doc, AbcNewsAu).value.path);
    }
  }

  /** BBC Sport and ABC News never report a paywall: once a container is found, they return its text. */
  lemma NoPaywallReport(doc: Node, bypass: bool, updates: seq<string>)
    ensures Extract(BbcSport, doc, bypass, updates) != PaywallDetected
    ensures Extract(AbcNewsAu, doc, bypass, updates) != PaywallDetected
    ensures Locate(doc, BbcSport).Some? ==> Extract(BbcSport, doc, bypass, updates).Success?
  {
  }

  /** The generic scraper and the Financial Review call `bypass_paywall` but ignore what it reports. */
  lemma BypassResultUnused(doc: Node, updates: seq<string>)
    ensures Extract(GenericNews, doc, true, updates) == Extract(GenericNews, doc, false, updates)
    ensures Extract(FinancialReview, doc, true, updates) == Extract(FinancialReview, doc, false, updates)
  {
    BypassIgnored(GenericNews, doc, updates);
    BypassIgnored(FinancialReview, doc, updates);
  }

  /** Times of India removes `header`, `footer` and `nav` as classes: a `header` element is kept, a `div`
      of class `header` is not. */
  lemma TimesOfIndiaHeaderIsAClass(cs: seq<Node>)
    ensures !Hits(TimesOfIndia.passes[0], Element(Label("header", [], map[]), cs))
    ensures Hits(TimesOfIndia.passes[0], Element(Label("div", ["header"], map[]), cs))
  {
    assert CommonUnwanted[8] == "header";
    assert (CommonUnwanted + ["readmore_tb", "toi-plus-paywall", "toi_plus_banner",
       "toi_plus_banner_new", "toi_plus_banner_new_v2"])[8] == "header";
  }

  /** The generic scraper removes structural tags but leaves scripts and styles in the container. */
  lemma GenericKeepsScripts(cs: seq<Node>)
    ensures |GenericNews.passes| == 1
    ensures !Hits(GenericNews.passes[0], Element(Label("script", [], map[]), cs))
    ensures Hits(GenericNews.passes[0], Element(Label("aside", [], map[]), cs))
  {
    var g := [[TagIs("header")], [TagIs("footer")], [TagIs("aside")], [TagIs("nav")],
              [TagIs("section"), HasClass("related-news")]];
    assert GenericNews.passes == [Unwanted(g)];
    var script := Label("script", [], map[]);
    forall i | 0 <= i < |g| ensures !CompoundHolds(g[i], script) {
      assert !ClauseHolds(g[i][0], script);
    }
    assert CompoundHolds(g[2], Label("aside", [], map[]));
  }

  const Empty: Label := Label("p", [], map[])
  const Image: Node := Element(Label("img", [], map[]), [])

  /** news.com.au keeps an empty paragraph that holds an image; Google News removes it. */
  lemma MediaParagraphs()
    ensures !Hits(NewsComAu.passes[2], Element(Empty, [Image]))
    ensures Hits(GoogleNews.passes[2], Element(Empty, [Image]))
    ensures Hits(NewsComAu.passes[2], Element(Empty, [TextNode(" ")]))
  {
    assert MediaOrHasMedia(Image);
    assert HasMedia(Element(Empty, [Image])) by {
      assert Element(Empty, [Image]).children[0] == Image;
    }
    assert Blank(Element(Empty, [Image])) by {
      assert BlankAs(Image, Plain, Plain);
    }
  }
}

/** The ten article scrapers are one extraction procedure run with different constants. A profile holds
    one scraper's constants: where to look for the article, what to clean out of it, where its title
    and byline come from, which paragraphs to skip, and how it treats a possible paywall. */
module Profiles {
  import opened Selectors
  import opened Pruning
  import opened Paywall

  /** Where the title comes from. */
  datatype TitleScope =
    | PageH1            // `soup.find('h1')`, on the page as the clean-up left it
    | ContainerH1       // `main_content.find('h1')`
    | ContainerH1OrH2   // `main_content.find(['h1', 'h2'])`

  datatype Byline =
    | NoByline
      /** `soup.select_one(author)` and `soup.select_one(date)`, printed under the title */
    | Byline(author: Group, date: Group)

  datatype ArticleProfile = ArticleProfile(
    /** `content_selectors`, tried one after another with `select_one` */
    cascade: seq<Selector>,
    /** selectors whose presence inside the first container found means "behind a paywall" */
    indicators: seq<Selector>,
    /** the clean-up passes, in order */
    passes: seq<Rule>,
    title: TitleScope,
    byline: Byline,
    /** a paragraph with an ancestor of one of these tags is skipped */
    structural: seq<string>,
    /** a paragraph with one of these classes is skipped */
    boilerplate: seq<string>,
    /** the extra "Stream on" / "MORE:" filters */
    headlineFilters: bool,
    gate: Gate,
    /** whether the live updates are appended */
    liveUpdates: bool)

  function TagSel(name: string): Selector {
    Simple([TagIs(name)])
  }

  function ClassSel(name: string): Selector {
    Simple([HasClass(name)])
  }

  function IdSel(id: string): Selector {
    Simple([IdIs(id)])
  }

  /** `time[datetime]` */
  const TimeWithDatetime: Selector := Simple([TagIs("time"), HasAttr("datetime")])

  const StripTags: Rule := TagRule(["script", "style", "iframe", "svg", "noscript"])
  const BlankParagraphs: Rule := BlankElements({"p"}, false)
  const BlankBlocks: Rule := BlankElements({"p", "div"}, true)

  const Structural: seq<string> := ["aside", "figure", "header", "footer", "nav"]

  /** The unwanted classes that Times of India, news.com.au, Vice and The Verge share. */
  const CommonUnwanted: seq<string> := [
    "ad-container", "related-content", "share-buttons", "author-box",
    "newsletter-signup", "sidebar", "comments-area", "footer",
    "header", "nav", "social-share", "sponsored-content",
    "article-tags", "article-footer", "article-header"]

  const GoogleUnwanted: seq<string> := [
    "ad-container", "related-content", "share-tools", "comments-container",
    "video-player", "inline-video", "article-footer", "article-meta",
    "article-social", "article-tags", "article-header", "sidebar",
    "newsletter-signup", "social-share-toolbar", "gdpr-consent",
    "subscription-prompt", "cookie-banner", "recommended-articles"]

  const GoogleNews: ArticleProfile := ArticleProfile(
    [TagSel("article"), TagSel("main"), ClassSel("article-body"), IdSel("article-body"),
     ClassSel("content-wrapper"), ClassSel("article-content"), ClassSel("article-container"),
     ClassSel("article__content"), Simple([AttrEquals("role", "main")])],
    [],
    [ClassRule(GoogleUnwanted), StripTags, BlankParagraphs],
    PageH1,
    Byline([ClassSel("author-name"), ClassSel("byline__author")], [TimeWithDatetime]),
    Structural,
    ["ad-container", "related-content", "share-tools"],
    false,
    TextGate(true),
    false)

  const TimesOfIndia: ArticleProfile := ArticleProfile(
    [TagSel("article"), TagSel("main"), ClassSel("article-body"), ClassSel("article__content"),
     ClassSel("article-container"), ClassSel("content-body"), IdSel("articlebody"), ClassSel("Normal")],
    [],
    [ClassRule(CommonUnwanted + [
       "readmore_tb", "toi-plus-paywall", "toi_plus_banner",
       "toi_plus_banner_new", "toi_plus_banner_new_v2"]),
     StripTags, BlankParagraphs],
    PageH1,
    Byline([ClassSel("auth_detail"), ClassSel("byline__author"), ClassSel("auth-nm")],
           [TimeWithDatetime, ClassSel("byline__date"), ClassSel("publish_date")]),
    Structural,
    ["ad-container", "related-content", "share-buttons"],
    false,
    TextGate(true),
    false)

  const NewsComAu: ArticleProfile := ArticleProfile(
    [TagSel("article"), TagSel("main"), ClassSel("article-body"), IdSel("story-body"),
     ClassSel("story__body"), ClassSel("story-content"),
     Simple([AttrEquals("data-testid", "article-body")]), ClassSel("story-primary")],
    [],
    [ClassRule(CommonUnwanted + [
       "video-player", "embedded-video", "social-icons", "trending-stories",
       "read-more", "story-recommendations", "story-related",
       "story-social", "story-image-copyright", "story-extras"]),
     StripTags, BlankBlocks],
    PageH1,
    Byline([ClassSel("author-name"), ClassSel("byline__author")], [TimeWithDatetime]),
    Structural,
    ["ad-container", "related-content", "share-buttons"],
    false,
    TextGate(true),
    false)

  const ViceNews: ArticleProfile := ArticleProfile(
    [TagSel("article"), TagSel("main"), ClassSel("article__body"), ClassSel("article__content"),
     ClassSel("post-content"), ClassSel("article-body"), IdSel("article-body"), ClassSel("content-wrapper")],
    [],
    [ClassRule(CommonUnwanted + [
       "vice-ad", "vice-related-articles", "vice-newsletter-signup",
       "vice-tags", "vice-recommended", "vice-comments",
       "vice-social-share", "vice-video-player"]),
     StripTags, BlankBlocks],
    PageH1,
    Byline([ClassSel("author-name"), ClassSel("byline__author"), ClassSel("article__byline")],
           [TimeWithDatetime, ClassSel("article__date")]),
    Structural,
    ["ad-container", "related-content", "share-buttons"],
    false,
    TextGate(true),
    false)

  const TheVerge: ArticleProfile := ArticleProfile(
    [ClassSel("l-col__main"), ClassSel("c-entry-content"), ClassSel("c-entry-hero"),
     ClassSel("c-entry-body"), TagSel("article"), TagSel("main")],
    [],
    [ClassRule(CommonUnwanted + [
       "c-related-list", "c-rock-list", "c-entry-box--compact",
       "c-newsletter-signup-box", "c-comments-button", "c-article-footer",
       "c-compact-river", "c-nav-list", "c-tab-bar"]),
     StripTags, BlankParagraphs],
    PageH1,
    Byline([ClassSel("c-byline__author"), ClassSel("c-byline__authors"), ClassSel("c-article__byline")],
           [TimeWithDatetime, ClassSel("c-byline__item--date")]),
    Structural,
    ["ad-container", "related-content", "share-buttons"],
    false,
    TextGate(true),
    false)

  const Msnbc: ArticleProfile := ArticleProfile(
    [TagSel("article"), TagSel("main"), ClassSel("article-body"), ClassSel("article__content"),
     IdSel("content-body"), ClassSel("article-container"), ClassSel("article-wrapper")],
    [ClassSel("paywall"), ClassSel("subscription-required"), ClassSel("premium-content")],
    [ClassRule([
       "ad-container", "related-content", "share-buttons", "author-box",
       "newsletter-signup", "sidebar", "comments-area", "msnbc-footer",
       "msnbc-header", "msnbc-nav", "social-share", "sponsored-content",
       "article-tags", "article-footer", "article-header", "widget-container",
       "taboola-container", "outbrain-container"]),
     StripTags, BlankParagraphs],
    PageH1,
    Byline([ClassSel("author-name"), ClassSel("byline__author"), ClassSel("article__author")],
           [TimeWithDatetime, ClassSel("article__date")]),
    Structural,
    ["ad-container", "related-content", "share-buttons"],
    false,
    TextGate(true),
    false)

  const GenericNews: ArticleProfile := ArticleProfile(
    [TagSel("article"), TagSel("main"), Simple([TagIs("div"), HasClass("content")]),
     Simple([TagIs("div"), HasClass("article-body")])],
    [],
    [Unwanted([[TagIs("header")], [TagIs("footer")], [TagIs("aside")], [TagIs("nav")],
               [TagIs("section"), HasClass("related-news")]])],
    ContainerH1OrH2,
    NoByline,
    Structural + ["section"],
    ["paywall", "ad", "promo", "social-share"],
    true,
    TextGate(false),
    false)

  const FinancialReview: ArticleProfile := ArticleProfile(
    [TagSel("article"), TagSel("main"), ClassSel("article-body"), ClassSel("article__content")],
    [],
    [ClassRule(["ad-wrapper", "related-articles", "newsletter-subscribe"])],
    ContainerH1,
    Byline([ClassSel("author-name"), ClassSel("byline")], [ClassSel("article-date"), ClassSel("date-published")]),
    Structural,
    ["ad-wrapper", "related-articles", "newsletter-subscribe"],
    false,
    TextGate(false),
    false)

  const BbcSport: ArticleProfile := ArticleProfile(
    [TagSel("article"), TagSel("main"), ClassSel("article-body"), IdSel("main-content")],
    [],
    [ClassRule(["social-share", "ad-wrapper", "related-content"])],
    ContainerH1,
    NoByline,
    Structural,
    ["tags", "related-content"],
    false,
    NoGate,
    true)

  const AbcNewsAu: ArticleProfile := ArticleProfile(
    [TagSel("article"), TagSel("main"), ClassSel("article-body")],
    [],
    [],
    ContainerH1,
    NoByline,
    Structural,
    ["tags", "related-content"],
    false,
    NoGate,
    false)

  /** What the extraction procedure relies on: every pass but the last removes by class or tag, and every
      pass is `Stable`. */
  predicate WellFormed(p: ArticleProfile) {
    forall j :: 0 <= j < |p.passes| ==> Stable(p.passes[j]) && (p.passes[j].Unwanted? || j == |p.passes| - 1)
  }

  const All: seq<ArticleProfile> := [GoogleNews, TimesOfIndia, NewsComAu, ViceNews, TheVerge, Msnbc,
                                     GenericNews, FinancialReview, BbcSport, AbcNewsAu]

  lemma AllWellFormed()
    ensures forall i :: 0 <= i < |All| ==> WellFormed(All[i])
  {
    forall i | 0 <= i < |All| ensures WellFormed(All[i]) {
      var p := All[i];
      forall j | 0 <= j < |p.passes| ensures Stable(p.passes[j]) && (p.passes[j].Unwanted? || j == |p.passes| - 1) {
      }
    }
  }
}

/** What an article scraper returns once it has the page source: the not-found message, the paywall
    message, or the title, byline, body and live updates, one clean line after another. */
module Article {
  import opened Wrappers
  import opened Strings
  import opened Dom
  import opened Selectors
  import opened Pruning
  import opened Paywall
  import opened Page
  import opened Profiles
  import opened Locator

  datatype Outcome =
    | ContentNotFound
    | PaywallDetected
    | Success(text: string)

  /** The string the scraper returns. */
  function Message(o: Outcome): string {
    match o
    case ContentNotFound => "Could not find the main content on the page."
    case PaywallDetected => "The article content might be behind a paywall."
    case Success(t) => t
  }

  /** `find_all(['p', 'h2', 'h3', 'h4', 'h5', 'h6'])` */
  const ContentTags: seq<string> := ["p", "h2", "h3", "h4", "h5", "h6"]

  /** The line that introduces the live updates. */
  const LiveHeading: string := "Live Updates:"

  /** An `h2` whose text is exactly "Stream on". */
  predicate StreamHeading(e: Located) {
    e.node.Element? && e.node.lab.tag == "h2" && Strip(GetText(e.node)) == "Stream on"
  }

  /** A content element whose text starts with "MORE:". */
  predicate MorePointer(e: Located) {
    e.node.Element? && e.node.lab.tag in ContentTags && StartsWith(Strip(GetText(e.node)), "MORE:")
  }

  /** The condition of the list comprehension that builds the body. */
  predicate Kept(p: ArticleProfile, e: Located) {
    !HasAncestorTag(e, p.structural) && !HasAnyClass(e, p.boilerplate)
    && !(p.headlineFilters && (StreamHeading(e) || MorePointer(e)))
  }

  /** `[extract_text(elem) for elem in content_elements if ...]` */
  function Fragments(p: ArticleProfile, es: seq<Located>): (r: seq<string>)
    ensures |r| <= |es|
    ensures r == [] <==> forall k :: 0 <= k < |es| ==> !Kept(p, es[k])
    ensures forall i :: 0 <= i < |r| ==> Trimmed(r[i])
  {
    if es == [] then []
    else
      ExtractTextTrimmed(es[0].node);
      var head := if Kept(p, es[0]) then [ExtractText(es[0].node)] else [];
      var rest := Fragments(p, es[1..]);
      assert rest == [] <==> forall k :: 1 <= k < |es| ==> !Kept(p, es[k]) by {
        assert forall k :: 1 <= k < |es| ==> es[k] == es[1..][k - 1];
      }
      head + rest
  }

  /** The text of every kept element is a fragment, and every fragment is the text of a kept element. */
  lemma {:induction false} FragmentsFrom(p: ArticleProfile, es: seq<Located>)
    ensures forall e | e in es && Kept(p, e) :: ExtractText(e.node) in Fragments(p, es)
    ensures forall f | f in Fragments(p, es) :: exists e :: e in es && Kept(p, e) && f == ExtractText(e.node)
  {
    if es != [] {
      FragmentsFrom(p, es[1..]);
      assert es == [es[0]] + es[1..];
    }
  }

  /** One element gives its text when it is kept, and nothing otherwise. */
  lemma FragmentsSingle(p: ArticleProfile, e: Located)
    ensures Fragments(p, [e]) == if Kept(p, e) then [ExtractText(e.node)] else []
  {
    assert [e][1..] == [];
  }

  /** The fragments of two runs of elements are those of the first run, then those of the second: with
      `FragmentsSingle`, the body lists one text per kept element, in the order of the elements. */
  lemma {:induction false} FragmentsAppend(p: ArticleProfile, a: seq<Located>, b: seq<Located>)
    ensures Fragments(p, a + b) == Fragments(p, a) + Fragments(p, b)
  {
    if a == [] {
      assert a + b == b;
    } else {
      assert (a + b)[0] == a[0];
      assert (a + b)[1..] == a[1..] + b;
      var h := if Kept(p, a[0]) then [ExtractText(a[0].node)] else [];
      var fa, fb := Fragments(p, a[1..]), Fragments(p, b);
      calc {
        Fragments(p, a + b);
        h + Fragments(p, a[1..] + b);
        { FragmentsAppend(p, a[1..], b); }
        h + (fa + fb);
        (h + fa) + fb;
        Fragments(p, a) + fb;
      }
    }
  }

  /** `content`: the kept elements' texts, a blank line between two of them. */
  function Body(p: ArticleProfile, content: Located): string {
    Join("\n\n", Fragments(p, SelectAll(content.node, content.anc, Tags(ContentTags))))
  }

  /** `title_text`, read on the page as the clean-up left it. */
  function TitleText(p: ArticleProfile, page: Node, content: Located): string {
    match p.title
    case PageH1 => TextOr(SelectOne(page, [], Tags(["h1"])), "Title not found")
    case ContainerH1 => TextOr(SelectOne(content.node, content.anc, Tags(["h1"])), "Title not found")
    case ContainerH1OrH2 => TextOr(SelectOne(content.node, content.anc, Tags(["h1", "h2"])), "Title not found")
  }

  /** `full_content` before its lines are cleaned. */
  function FullText(p: ArticleProfile, page: Node, content: Located, updates: seq<string>): string {
    var head := match p.byline
      case NoByline => TitleText(p, page, content) + "\n\n" + Body(p, content)
      case Byline(author, date) =>
        TitleText(p, page, content) + "\n\nBy " + TextOr(SelectOne(page, [], author), "Author not found")
        + "\n" + TextOr(SelectOne(page, [], date), "Date not found") + "\n\n" + Body(p, content);
    if p.liveUpdates && updates != [] then head + "\n\n" + LiveHeading + "\n" + Join("\n", updates) else head
  }

  /** The container as `find_main_content` leaves it: found in the original page, then cleaned up. */
  function Container(doc: Node, p: ArticleProfile): Located
    requires Locate(doc, p).Some?
  {
    var c := Locate(doc, p).value;
    c.(node := PruneAll(c.node, p.passes))
  }

  /** The scraper's result for page `doc`, given what `bypass_paywall` reported and the live updates read
      before the page source was taken. */
  function Extract(p: ArticleProfile, doc: Node, bypass: bool, updates: seq<string>): (r: Outcome)
    ensures r == ContentNotFound <==> Locate(doc, p).None?
    ensures r == PaywallDetected <==> Locate(doc, p).Some? && Gated(p.gate, Body(p, Container(doc, p)), bypass)
  {
    if Locate(doc, p).None? then ContentNotFound
    else
      var content := Container(doc, p);
      if Gated(p.gate, Body(p, content), bypass) then PaywallDetected
      else Success(Normalize(FullText(p, AfterCleanUp(doc, p), content, updates)))
  }

  /** The scraping function from the moment the page source is parsed. */
  method ScrapeArticle(p: ArticleProfile, doc: Node, bypass: bool, updates: seq<string>) returns (o: Outcome)
    requires WellFormed(p)
    ensures o == Extract(p, doc, bypass, updates)
  {
    var soup := new Soup(doc);
    var found := FindMainContent(soup, p);
    if found.None? {
      return ContentNotFound;
    }
    var c := found.value;
    AtReplaceAt(doc, c.path, PruneAll(c.node, p.passes));
    var content := c.(node := At(soup.root, c.path));
    var body := Body(p, content);
    if Gated(p.gate, body, bypass) {
      return PaywallDetected;
    }
    o := Success(Normalize(FullText(p, soup.root, content, updates)));
  }

  /** A successful result is already clean: cleaning it again changes nothing, and each of its lines is
      non-empty, has no whitespace at either end and no line break inside. */
  lemma SuccessIsClean(p: ArticleProfile, doc: Node, bypass: bool, updates: seq<string>)
    requires Extract(p, doc, bypass, updates).Success?
    ensures var t := Extract(p, doc, bypass, updates).text;
      Normalize(t) == t && (t != "" ==> forall i :: 0 <= i < |Lines(t)| ==> CleanLine(Lines(t)[i]))
  {
    var content := Container(doc, p);
    var s := FullText(p, AfterCleanUp(doc, p), content, updates);
    NormalizeIdempotent(s);
    NormalizeLines(s);
  }

  /** One kept paragraph that mentions subscribing, registering or signing up is enough for a scraper that
      searches the body to report a paywall, unless it honours a successful bypass. */
  lemma OneMentionBlocks(p: ArticleProfile, doc: Node, bypass: bool, updates: seq<string>, e: Located)
    requires Locate(doc, p).Some? && p.gate.TextGate? && !(p.gate.honoursBypass && bypass)
    requires e in SelectAll(Container(doc, p).node, Container(doc, p).anc, Tags(ContentTags))
    requires Kept(p, e) && Mentions(ExtractText(e.node))
    ensures Extract(p, doc, bypass, updates) == PaywallDetected
  {
    var content := Container(doc, p);
    var es := SelectAll(content.node, content.anc, Tags(ContentTags));
    var fs := Fragments(p, es);
    FragmentsFrom(p, es);
    var i :| 0 <= i < |fs| && fs[i] == ExtractText(e.node);
    var a, c := JoinContains("\n\n", fs, i);
    MentionsInContext(a, fs[i], c);
  }

  /** Every element below an ancestor with a structural tag is dropped from the body. */
  lemma UnderStructural(p: ArticleProfile, n: Node, anc: seq<Label>, k: nat)
    requires k < |anc| && anc[k].tag in p.structural
    ensures Fragments(p, SelectAll(n, anc, Tags(ContentTags))) == []
  {
    var es := SelectAll(n, anc, Tags(ContentTags));
    DescValid(n, anc);
    forall j | 0 <= j < |es| ensures !Kept(p, es[j]) {
      assert es[j] in Desc(n, anc);
      assert anc <= es[j].anc;
      assert es[j].anc[k] == anc[k];
    }
  }

  /** A container that itself sits inside one of the structural tags (`aside`, `header`, ...) yields an
      empty body: every paragraph in it has that ancestor. A scraper that searches the body therefore
      reports a paywall. */
  lemma StructuralContainerEmpty(p: ArticleProfile, doc: Node, bypass: bool, updates: seq<string>)
    requires Locate(doc, p).Some?
    requires exists k :: 0 <= k < |Locate(doc, p).value.anc| && Locate(doc, p).value.anc[k].tag in p.structural
    ensures Body(p, Container(doc, p)) == ""
    ensures p.gate.TextGate? ==> Extract(p, doc, bypass, updates) == PaywallDetected
  {
    var content := Container(doc, p);
    var k :| 0 <= k < |content.anc| && content.anc[k].tag in p.structural;
    UnderStructural(p, content.node, content.anc, k);
  }

  /** A scraper that does not honour the bypass gives the same result whatever `bypass_paywall` reported. */
  lemma BypassIgnored(p: ArticleProfile, doc: Node, updates: seq<string>)
    requires !p.gate.TextGate? || !p.gate.honoursBypass
    ensures Extract(p, doc, true, updates) == Extract(p, doc, false, updates)
  {
  }

  /** With a successful bypass, a scraper that honours it reports a paywall only for an empty body. */
  lemma BypassHonoured(p: ArticleProfile, doc: Node, updates: seq<string>)
    requires p.gate == TextGate(true) && Locate(doc, p).Some?
    ensures Extract(p, doc, true, updates) == PaywallDetected <==> Body(p, Container(doc, p)) == ""
  {
  }

  /** The body is empty exactly when no element is kept, or one is kept and its text is blank. Two blank
      kept paragraphs give "\n\n", which passes the emptiness test. */
  lemma BodyEmpty(p: ArticleProfile, content: Located)
    ensures var fs := Fragments(p, SelectAll(content.node, content.anc, Tags(ContentTags)));
      Body(p, content) == "" <==> fs == [] || fs == [""]
  {
    JoinEmpty("\n\n", Fragments(p, SelectAll(content.node, content.anc, Tags(ContentTags))));
  }

  lemma LiveHeadingClean()
    ensures CleanLine(LiveHeading)
  {
  }

  lemma FullTextWithUpdates(p: ArticleProfile, page: Node, content: Located, updates: seq<string>)
    requires p.liveUpdates && updates != []
    ensures FullText(p, page, content, updates)
      == FullText(p, page, content, []) + "\n\n" + LiveHeading + "\n" + Join("\n", updates)
  {
  }

  /** The live updates come after the article as the scraper would have returned it without them: a line
      "Live Updates:", then the updates' own clean lines. */
  lemma LiveUpdatesAppended(p: ArticleProfile, doc: Node, bypass: bool, updates: seq<string>)
    requires p.liveUpdates && updates != []
    requires Extract(p, doc, bypass, []).Success?
    ensures Extract(p, doc, bypass, updates)
      == Success(Glue(Extract(p, doc, bypass, []).text, Glue(LiveHeading, Normalize(Join("\n", updates)))))
  {
    var content := Container(doc, p);
    var page := AfterCleanUp(doc, p);
    var head := FullText(p, page, content, []);
    FullTextWithUpdates(p, page, content, updates);
    assert Extract(p, doc, bypass, []) == Success(Normalize(head));
    assert Extract(p, doc, bypass, updates) == Success(Normalize(FullText(p, page, content, updates)));
    LiveHeadingClean();
    NormalizeSection(head, LiveHeading, Join("\n", updates));
  }

  /** Without live updates in the profile, the updates passed in play no part. */
  lemma UpdatesIgnored(p: ArticleProfile, doc: Node, bypass: bool, updates: seq<string>)
    requires !p.liveUpdates
    ensures Extract(p, doc, bypass, updates) == Extract(p, doc, bypass, [])
  {
  }

  /** No element left in the container matches a class or tag clean-up pass of the profile, nor the last
      pass. */
  lemma ContainerIsClean(p: ArticleProfile, doc: Node, j: nat)
    requires WellFormed(p) && Locate(doc, p).Some? && j < |p.passes|
    ensures NoHits(Desc(Container(doc, p).node, Container(doc, p).anc), p.passes[j])
  {
    PruneAllClean(Locate(doc, p).value.node, p.passes, Locate(doc, p).value.anc, j);
  }
}

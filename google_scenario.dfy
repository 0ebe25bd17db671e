/** A small Google News page whose only headline sits in an `.article-header`. The scraper removes that
    header from the container before it looks for the title on the whole page, so the title line says
    "Title not found". */
module GoogleScenario {
  import opened Wrappers
  import opened Strings
  import opened Dom
  import opened Selectors
  import opened Pruning
  import opened Paywall
  import opened Profiles
  import opened Locator
  import opened Article

  function L(tag: string, classes: seq<string>): Label {
    Label(tag, classes, map[])
  }

  const DocL: Label := L("[document]", [])
  const ArtL: Label := L("article", [])
  const Headline: Node := Element(L("h1", []), [TextNode("Headline")])
  const Header: Node := Element(L("div", ["article-header"]), [Headline])
  const Para: Node := Element(L("p", []), [TextNode("Story")])
  const Art: Node := Element(ArtL, [Header, Para])
  const Doc: Node := Element(DocL, [Art])
  const Found: Located := Located([0], Art, [DocL])

  lemma DocOrder()
    ensures |Desc(Doc, [])| >= 1 && Desc(Doc, [])[0] == Found
  {
    assert [] + [DocL] == [DocL];
    assert Desc(Doc, []) == DescF([Art], 0, [DocL]);
    assert [Art][1..] == [];
    assert DescF([Art], 0, [DocL]) == Entry(Art, 0, [DocL]) + DescF([], 1, [DocL]);
    assert Entry(Art, 0, [DocL]) == [Found] + Lift(0, Desc(Art, [DocL]));
  }

  lemma FoundArticle()
    ensures Locate(Doc, GoogleNews) == Some(Found)
  {
    DocOrder();
    assert Matches(TagSel("article"), Found) by {
      assert ClauseHolds(TagIs("article"), ArtL);
    }
    assert [TagSel("article")][0] == TagSel("article");
    assert MatchesAny([TagSel("article")], Found);
    assert FirstMatch(Desc(Doc, []), [TagSel("article")], 0) == Some(0);
    assert SelectOne(Doc, [], [TagSel("article")]) == Some(Found);
    CascadePicks(Doc, GoogleNews.cascade, 0, 0);
  }

  const CleanArt: Node := Element(ArtL, [Para])

  /** Hits and no hits for one pass, on the article's parts. */
  lemma ParaKept(r: Rule)
    requires !Hits(r, Para)
    ensures Prune(Para, r) == Para
    ensures PruneF([Para], r) == [Para]
  {
    assert [TextNode("Story")][1..] == [];
    assert PruneF([TextNode("Story")], r) == [TextNode("Story")] + PruneF([], r);
    assert [Para][1..] == [];
    assert PruneF([Para], r) == [Prune(Para, r)] + PruneF([], r);
  }

  lemma HeaderHit()
    ensures Hits(GoogleNews.passes[0], Header)
  {
    assert GoogleUnwanted[10] in Header.lab.classes;
  }

  lemma ParaMissed()
    ensures !Hits(GoogleNews.passes[0], Para)
  {
    var r := GoogleNews.passes[0];
    assert Para.lab.classes == [];
    assert r.Unwanted?;
    forall i | 0 <= i < |r.group| ensures !CompoundHolds(r.group[i], Para.lab) {
      assert r.group[i] == [HasClass(r.group[i][0].name)];
    }
  }

  lemma FirstPass()
    ensures Prune(Art, GoogleNews.passes[0]) == CleanArt
  {
    var r := GoogleNews.passes[0];
    HeaderHit();
    ParaMissed();
    ParaKept(r);
    assert [Header, Para][1..] == [Para];
    assert PruneF([Header, Para], r) == [] + PruneF([Para], r);
  }

  lemma LaterPass(r: Rule)
    requires !Hits(r, Para)
    ensures Prune(CleanArt, r) == CleanArt
  {
    ParaKept(r);
  }

  lemma ParaNotBlank()
    ensures !Blank(Para)
  {
    assert !IsSpace("Story"[0]);
    assert !AllSpace("Story");
    assert Para.children[0] == TextNode("Story");
  }

  lemma PruneAllThree(n: Node, ps: seq<Rule>)
    requires |ps| == 3
    ensures PruneAll(n, ps) == Prune(Prune(Prune(n, ps[0]), ps[1]), ps[2])
  {
    var m1 := Prune(n, ps[0]);
    var m2 := Prune(m1, ps[1]);
    assert ps[1..][0] == ps[1] && ps[1..][1..] == ps[2..];
    assert ps[2..][0] == ps[2] && ps[2..][1..] == [];
    assert PruneAll(n, ps) == PruneAll(m1, ps[1..]);
    assert PruneAll(m1, ps[1..]) == PruneAll(m2, ps[2..]);
    assert PruneAll(m2, ps[2..]) == PruneAll(Prune(m2, ps[2]), []);
  }

  lemma SecondPassKeeps()
    ensures !Hits(GoogleNews.passes[1], Para)
  {
    assert GoogleNews.passes[1] == StripTags;
  }

  lemma ThirdPassKeeps()
    ensures !Hits(GoogleNews.passes[2], Para)
  {
    ParaNotBlank();
    assert GoogleNews.passes[2] == BlankParagraphs;
  }

  lemma Cleaned()
    ensures PruneAll(Art, GoogleNews.passes) == CleanArt
  {
    var ps := GoogleNews.passes;
    PruneAllThree(Art, ps);
    FirstPass();
    SecondPassKeeps();
    LaterPass(ps[1]);
    ThirdPassKeeps();
    LaterPass(ps[2]);
  }

  const Page: Node := Element(DocL, [CleanArt])

  lemma ReplaceHere()
    ensures ReplaceAt(Doc, [0], CleanArt) == Page
  {
    assert [0][1..] == [];
    assert [Art][0 := CleanArt] == [CleanArt];
  }

  lemma PageAfter()
    ensures AfterCleanUp(Doc, GoogleNews) == Page
    ensures Container(Doc, GoogleNews) == Located([0], CleanArt, [DocL])
  {
    FoundArticle();
    Cleaned();
    ReplaceHere();
  }

  const InPage: Located := Located([0], CleanArt, [DocL])
  const ParaIn: Located := Located([0, 0], Para, [DocL, ArtL])

  lemma PageOrder()
    ensures Desc(Page, []) == [InPage, ParaIn]
  {
    assert [] + [DocL] == [DocL];
    assert [CleanArt][1..] == [];
    assert DescF([CleanArt], 0, [DocL]) == Entry(CleanArt, 0, [DocL]) + DescF([], 1, [DocL]);
    ArticleOrder();
  }

  lemma ArticleOrder()
    ensures Desc(CleanArt, [DocL]) == [Located([0], Para, [DocL, ArtL])]
    ensures Entry(CleanArt, 0, [DocL]) == [InPage, ParaIn]
  {
    assert [Para][1..] == [];
    assert DescF([Para], 0, [DocL, ArtL]) == Entry(Para, 0, [DocL, ArtL]) + DescF([], 1, [DocL, ArtL]);
    assert Desc(Para, [DocL, ArtL]) == [] by {
      assert [TextNode("Story")][1..] == [];
      assert DescF([TextNode("Story")], 0, [DocL, ArtL, Para.lab]) == Entry(TextNode("Story"), 0, [DocL, ArtL, Para.lab]) + DescF([], 1, [DocL, ArtL, Para.lab]);
    }
    assert [DocL] + [ArtL] == [DocL, ArtL];
    assert Desc(CleanArt, [DocL]) == DescF([Para], 0, [DocL, ArtL]);
    assert [0] + [0] == [0, 0];
    assert Lift(0, [Located([0], Para, [DocL, ArtL])]) == [ParaIn];
  }

  lemma NothingElse(g: Group)
    requires !MatchesAny(g, InPage) && !MatchesAny(g, ParaIn)
    ensures SelectOne(Page, [], g) == None
  {
    PageOrder();
  }

  lemma NoHeadline()
    ensures TitleText(GoogleNews, Page, InPage) == "Title not found"
  {
    NothingElse(Tags(["h1"]));
  }

  lemma NoClass(name: string)
    ensures !Matches(ClassSel(name), InPage) && !Matches(ClassSel(name), ParaIn)
  {
    assert ClassSel(name).self[0] == HasClass(name);
    assert !ClauseHolds(HasClass(name), InPage.node.lab);
    assert !ClauseHolds(HasClass(name), ParaIn.node.lab);
  }

  lemma NoTime()
    ensures !Matches(TimeWithDatetime, InPage) && !Matches(TimeWithDatetime, ParaIn)
  {
    assert TimeWithDatetime.self[0] == TagIs("time");
    assert !ClauseHolds(TagIs("time"), InPage.node.lab);
    assert !ClauseHolds(TagIs("time"), ParaIn.node.lab);
  }

  lemma NoByline()
    ensures SelectOne(Page, [], GoogleNews.byline.author) == None
    ensures SelectOne(Page, [], GoogleNews.byline.date) == None
  {
    var a := GoogleNews.byline.author;
    assert a == [ClassSel("author-name"), ClassSel("byline__author")];
    NoClass("author-name");
    NoClass("byline__author");
    assert !MatchesAny(a, InPage) && !MatchesAny(a, ParaIn);
    NothingElse(a);
    NoTime();
    assert !MatchesAny([TimeWithDatetime], InPage) && !MatchesAny([TimeWithDatetime], ParaIn);
    NothingElse([TimeWithDatetime]);
  }

  lemma StoryText()
    ensures ExtractText(Para) == "Story"
  {
    assert TextParts(Para) == ["Story"] by {
      assert [TextNode("Story")][1..] == [];
      assert Own(Para) == Plain;
      assert StringsOfF([TextNode("Story")], Plain, Plain) == StringsOf(TextNode("Story"), Plain, Plain) + StringsOfF([], Plain, Plain);
    }
    StripTrimmed("Story");
    assert ["Story"][1..] == [];
    assert NonEmptyStripped(["Story"]) == ["Story"] + NonEmptyStripped([]);
  }

  const ParaInArt: Located := Located([0], Para, [DocL, ArtL])

  lemma StoryBody()
    ensures Body(GoogleNews, InPage) == "Story"
  {
    ArticleOrder();
    var es := SelectAll(CleanArt, [DocL], Tags(ContentTags));
    assert MatchesAny(Tags(ContentTags), ParaInArt);
    assert es == Filter([ParaInArt], Tags(ContentTags));
    assert [ParaInArt][1..] == [];
    assert es == [ParaInArt] + Filter([], Tags(ContentTags));
    assert Kept(GoogleNews, ParaInArt) by {
      assert ParaInArt.anc[0].tag == "[document]" && ParaInArt.anc[1].tag == "article";
      assert !HasAncestorTag(ParaInArt, Structural);
      assert !HasAnyClass(ParaInArt, GoogleNews.boilerplate);
    }
    StoryText();
    assert Fragments(GoogleNews, es) == ["Story"] + Fragments(GoogleNews, []);
  }

  const Output: string := "Title not found" + "\n" + ("By Author not found" + "\n" + ("Date not found" + "\n" + "Story"))

  lemma CleanLiterals()
    ensures CleanLine("Title not found") && CleanLine("By Author not found")
    ensures CleanLine("Date not found") && CleanLine("Story")
  {
  }

  lemma FullLiteral(t: string, bl: string, d: string, st: string)
    ensures t + "\n\nBy " + bl + "\n" + d + "\n\n" + st
      == t + "\n" + ("" + "\n" + (("By " + bl) + "\n" + (d + "\n" + ("" + "\n" + st))))
  {
  }

  lemma NormalizeFour(t: string, bl: string, d: string, st: string)
    requires CleanLine(t) && CleanLine(bl) && CleanLine(d) && CleanLine(st)
    ensures Normalize(t + "\n" + ("" + "\n" + (bl + "\n" + (d + "\n" + ("" + "\n" + st)))))
      == t + "\n" + (bl + "\n" + (d + "\n" + st))
  {
    var s5 := "" + "\n" + st;
    var s4 := d + "\n" + s5;
    var s3 := bl + "\n" + s4;
    var s2 := "" + "\n" + s3;
    NormalizeEmpty();
    NormalizeClean(t);
    NormalizeClean(bl);
    NormalizeClean(d);
    NormalizeClean(st);
    NormalizeConcat("", st);
    NormalizeConcat(d, s5);
    NormalizeConcat(bl, s4);
    NormalizeConcat("", s3);
    NormalizeConcat(t, s2);
  }

  lemma OutputLines()
    ensures Normalize("Title not found" + "\n\nBy " + "Author not found" + "\n" + "Date not found" + "\n\n" + "Story")
      == Output
  {
    CleanLiterals();
    FullLiteral("Title not found", "Author not found", "Date not found", "Story");
    assert "By " + "Author not found" == "By Author not found";
    NormalizeFour("Title not found", "By Author not found", "Date not found", "Story");
  }

  lemma HeadlineInOriginal()
    ensures SelectOne(Doc, [], Tags(["h1"])).Some?
  {
    var hl := Located([0], Headline, [DocL, ArtL, Header.lab]);
    assert [DocL, ArtL] + [Header.lab] == [DocL, ArtL, Header.lab];
    DescContains(Header, [DocL, ArtL], 0);
    assert hl in Desc(Header, [DocL, ArtL]);
    assert [DocL] + [Art.lab] == [DocL, ArtL];
    DescContains(Art, [DocL], 0);
    var h2 := hl.(path := [0] + hl.path);
    assert h2 in Desc(Art, [DocL]);
    assert [] + [Doc.lab] == [DocL];
    DescContains(Doc, [], 0);
    var h3 := h2.(path := [0] + h2.path);
    assert h3 in Desc(Doc, []);
    assert MatchesAny(Tags(["h1"]), h3);
  }

  lemma GoogleFullText()
    ensures FullText(GoogleNews, Page, InPage, [])
      == "Title not found" + "\n\nBy " + "Author not found" + "\n" + "Date not found" + "\n\n" + "Story"
  {
    NoHeadline();
    NoByline();
    StoryBody();
  }

  lemma GoogleSucceeds()
    ensures Extract(GoogleNews, Doc, true, []) == Success(Normalize(FullText(GoogleNews, Page, InPage, [])))
  {
    PageAfter();
    StoryBody();
    assert !Gated(GoogleNews.gate, "Story", true);
  }

  /** The headline is in the page as loaded, but the title line reports it missing. */
  lemma GoogleHeadlineRemoved()
    ensures SelectOne(Doc, [], Tags(["h1"])).Some?
    ensures Extract(GoogleNews, Doc, true, []) == Success(Output)
  {
    HeadlineInOriginal();
    GoogleSucceeds();
    GoogleFullText();
    OutputLines();
  }
}

/** A page for the generic scraper whose only paragraph holds an inline script that mentions subscribing.
    BeautifulSoup gives the script's text its own string class, so the paragraph's text is just "Story";
    the paywall pattern is never seen and the article is returned. */
module ScriptScenario {
  import opened Wrappers
  import opened Strings
  import opened Dom
  import opened Selectors
  import opened Pruning
  import opened Paywall
  import opened Profiles
  import opened Locator
  import opened Article

  function L(tag: string): Label {
    Label(tag, [], map[])
  }

  const DocL: Label := L("[document]")
  const ArtL: Label := L("article")
  const ParaL: Label := L("p")
  const Script: Node := Element(L("script"), [TextNode("subscribe()")])
  const Para: Node := Element(ParaL, [TextNode("Story"), Script])
  const Art: Node := Element(ArtL, [Para])
  const Doc: Node := Element(DocL, [Art])
  const Found: Located := Located([0], Art, [DocL])
  const ParaIn: Located := Located([0], Para, [DocL, ArtL])
  const ScriptIn: Located := Located([0, 1], Script, [DocL, ArtL, ParaL])

  /** The script's string is a `Script`, not a plain string: the paragraph's text leaves it out, while the
      script's own text is exactly that string. */
  lemma ParaText()
    ensures TextParts(Para) == ["Story"]
    ensures GetText(Para) == "Story"
    ensures GetText(Script) == "subscribe()"
  {
    assert Own(Para) == Plain && Own(Script) == Inside("script");
    assert Within(Script.lab, Plain) == Inside("script");
    assert [TextNode("subscribe()")][1..] == [];
    assert StringsOf(Script, Plain, Plain) == [] by {
      assert StringsOfF([TextNode("subscribe()")], Plain, Inside("script"))
        == StringsOf(TextNode("subscribe()"), Plain, Inside("script")) + StringsOfF([], Plain, Inside("script"));
    }
    assert [TextNode("Story"), Script][1..] == [Script];
    assert [Script][1..] == [];
    assert StringsOfF([TextNode("Story"), Script], Plain, Plain)
      == StringsOf(TextNode("Story"), Plain, Plain) + StringsOfF([Script], Plain, Plain);
    assert StringsOfF([Script], Plain, Plain) == StringsOf(Script, Plain, Plain) + StringsOfF([], Plain, Plain);
    assert TextParts(Script) == ["subscribe()"] by {
      assert StringsOfF([TextNode("subscribe()")], Inside("script"), Inside("script"))
        == StringsOf(TextNode("subscribe()"), Inside("script"), Inside("script"))
           + StringsOfF([], Inside("script"), Inside("script"));
    }
    assert ["Story"][1..] == [] && ["subscribe()"][1..] == [];
  }

  lemma ScriptMentions()
    ensures Mentions("subscribe()")
  {
    assert MatchAt("subscribe()", 0) by {
      assert WordAt("subscribe()", 0, "subscribe");
    }
  }

  lemma StoryQuiet()
    ensures !Mentions("Story")
  {
    var s := "Story";
    assert !MatchAt(s, 0) by {
      assert !WordAt(s, 0, "sign") by { assert Fold(s[1]) != "sign"[1]; }
    }
    assert !MatchAt(s, 3);
    forall i | 0 <= i < |s| && i != 0 && i != 3 ensures !MatchAt(s, i) {
      FirstLetter(s, i);
    }
  }

  lemma ExtractStory()
    ensures ExtractText(Para) == "Story"
  {
    ParaText();
    StripTrimmed("Story");
    assert NonEmptyStripped(["Story"]) == ["Story"] + NonEmptyStripped([]);
  }

  lemma DocOrder()
    ensures |Desc(Doc, [])| >= 1 && Desc(Doc, [])[0] == Found
  {
    assert [] + [DocL] == [DocL];
    assert Desc(Doc, []) == DescF([Art], 0, [DocL]);
    assert [Art][1..] == [];
    assert DescF([Art], 0, [DocL]) == Entry(Art, 0, [DocL]) + DescF([], 1, [DocL]);
    assert Entry(Art, 0, [DocL]) == [Found] + Lift(0, Desc(Art, [DocL]));
  }

  lemma FoundArticle()
    ensures Locate(Doc, GenericNews) == Some(Found)
  {
    DocOrder();
    assert Matches(TagSel("article"), Found) by {
      assert ClauseHolds(TagIs("article"), ArtL);
    }
    assert [TagSel("article")][0] == TagSel("article");
    assert MatchesAny([TagSel("article")], Found);
    assert FirstMatch(Desc(Doc, []), [TagSel("article")], 0) == Some(0);
    assert SelectOne(Doc, [], [TagSel("article")]) == Some(Found);
    assert GenericNews.cascade[0] == TagSel("article") && GenericNews.indicators == [];
    CascadePicks(Doc, GenericNews.cascade, 0, 0);
  }

  /** The generic pass removes `header`, `footer`, `aside`, `nav` and `section.related-news`; nothing here. */
  lemma NoneHit(n: Node)
    requires n.Element? && n.lab.tag in {"p", "script"} && n.lab.classes == []
    ensures !Hits(GenericNews.passes[0], n)
  {
    var g := GenericNews.passes[0].group;
    forall i | 0 <= i < |g| ensures !CompoundHolds(g[i], n.lab) {
      assert !ClauseHolds(g[i][0], n.lab);
    }
  }

  lemma TextKept(s: string, r: Rule)
    ensures PruneF([TextNode(s)], r) == [TextNode(s)]
  {
    assert [TextNode(s)][1..] == [];
    assert PruneF([TextNode(s)], r) == [TextNode(s)] + PruneF([], r);
  }

  lemma Uncleaned()
    ensures PruneAll(Art, GenericNews.passes) == Art
  {
    var r := GenericNews.passes[0];
    assert GenericNews.passes == [r] && [r][1..] == [];
    NoneHit(Script);
    NoneHit(Para);
    TextKept("subscribe()", r);
    assert Prune(Script, r) == Script;
    TextKept("Story", r);
    assert [TextNode("Story"), Script][1..] == [Script];
    assert [Script][1..] == [];
    assert PruneF([Script], r) == [Script] + PruneF([], r);
    assert PruneF([TextNode("Story"), Script], r) == [TextNode("Story")] + PruneF([Script], r);
    assert Prune(Para, r) == Para;
    assert [Para][1..] == [];
    assert PruneF([Para], r) == [Para] + PruneF([], r);
    assert Prune(Art, r) == Art;
    assert PruneAll(Art, GenericNews.passes) == PruneAll(Prune(Art, r), []);
  }

  lemma ArticleOrder()
    ensures Desc(Art, [DocL]) == [ParaIn, ScriptIn]
  {
    assert [DocL] + [ArtL] == [DocL, ArtL];
    assert [DocL, ArtL] + [ParaL] == [DocL, ArtL, ParaL];
    assert [Para][1..] == [];
    assert Desc(Art, [DocL]) == DescF([Para], 0, [DocL, ArtL]);
    assert DescF([Para], 0, [DocL, ArtL]) == Entry(Para, 0, [DocL, ArtL]) + DescF([], 1, [DocL, ArtL]);
    assert Desc(Script, [DocL, ArtL, ParaL]) == [] by {
      assert [TextNode("subscribe()")][1..] == [];
    }
    var inner := Located([1], Script, [DocL, ArtL, ParaL]);
    assert Desc(Para, [DocL, ArtL]) == [inner] by {
      var cs := [TextNode("Story"), Script];
      assert cs[1..] == [Script] && [Script][1..] == [];
      assert Desc(Para, [DocL, ArtL]) == DescF(cs, 0, [DocL, ArtL, ParaL]);
      assert DescF(cs, 0, [DocL, ArtL, ParaL]) == Entry(TextNode("Story"), 0, [DocL, ArtL, ParaL]) + DescF([Script], 1, [DocL, ArtL, ParaL]);
      assert DescF([Script], 1, [DocL, ArtL, ParaL]) == Entry(Script, 1, [DocL, ArtL, ParaL]) + DescF([], 2, [DocL, ArtL, ParaL]);
    }
    assert [0] + [1] == [0, 1];
    assert Lift(0, [inner]) == [ScriptIn];
  }

  lemma ParaKept()
    ensures Kept(GenericNews, ParaIn)
  {
    assert ParaIn.anc[0].tag == "[document]" && ParaIn.anc[1].tag == "article";
    assert !HasAncestorTag(ParaIn, GenericNews.structural);
    assert !HasAnyClass(ParaIn, GenericNews.boilerplate);
    ParaText();
    StripTrimmed("Story");
    assert !StartsWith("Story", "MORE:") by {
      assert "Story"[..5][0] != "MORE:"[0];
    }
    assert !MorePointer(ParaIn);
    assert !StreamHeading(ParaIn);
  }

  lemma StoryBody()
    ensures Body(GenericNews, Found) == "Story"
  {
    ArticleOrder();
    var g := Tags(ContentTags);
    var es := SelectAll(Art, [DocL], g);
    assert MatchesAny(g, ParaIn);
    assert !MatchesAny(g, ScriptIn);
    assert es == Filter([ParaIn, ScriptIn], g);
    assert [ParaIn, ScriptIn][1..] == [ScriptIn] && [ScriptIn][1..] == [];
    assert Filter([ScriptIn], g) == [] + Filter([], g);
    assert es == [ParaIn] + Filter([ScriptIn], g);
    ParaKept();
    ExtractStory();
    assert Fragments(GenericNews, es) == ["Story"] + Fragments(GenericNews, []);
  }

  /** The generic scraper returns the article, not the paywall message, although the script inside its
      only paragraph mentions subscribing. */
  lemma ScriptDoesNotGate(bypass: bool, updates: seq<string>)
    ensures Mentions(GetText(Script))
    ensures Locate(Doc, GenericNews) == Some(Found)
    ensures Body(GenericNews, Container(Doc, GenericNews)) == "Story"
    ensures Extract(GenericNews, Doc, bypass, updates).Success?
  {
    ParaText();
    ScriptMentions();
    FoundArticle();
    Uncleaned();
    assert Container(Doc, GenericNews) == Found;
    StoryBody();
    StoryQuiet();
    assert !Gated(GenericNews.gate, "Story", bypass);
  }
}

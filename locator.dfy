/** `find_main_content` of the article scrapers: try the content selectors in order, take the first
    element the first successful one finds, optionally give up if it contains a paywall marker, and
    run the profile's clean-up passes on it in place. */
module Locator {
  import opened Wrappers
  import opened Dom
  import opened Selectors
  import opened Pruning
  import opened Page
  import opened Profiles

  /** `soup.select_one(s)` finds nothing. */
  predicate Misses(doc: Node, s: Selector) {
    SelectOne(doc, [], [s]).None?
  }

  /** The element found by the first selector, from index `from` on, that finds anything; a selector that
      finds something wins even when a later one would find an element earlier in the page. */
  function Cascade(doc: Node, sels: seq<Selector>, from: nat): Option<Located>
    requires from <= |sels|
    decreases |sels| - from
  {
    if from == |sels| then None
    else
      var hit := SelectOne(doc, [], [sels[from]]);
      if hit.Some? then hit else Cascade(doc, sels, from + 1)
  }

  /** The cascade finds nothing exactly when every selector misses, and otherwise finds what the first
      selector that does not miss finds. */
  lemma CascadeSpec(doc: Node, sels: seq<Selector>, from: nat)
    requires from <= |sels|
    ensures Cascade(doc, sels, from).None? <==> forall i :: from <= i < |sels| ==> Misses(doc, sels[i])
    ensures Cascade(doc, sels, from).Some? ==> exists i :: (from <= i < |sels|
      && SelectOne(doc, [], [sels[i]]) == Cascade(doc, sels, from)
      && forall j :: from <= j < i ==> Misses(doc, sels[j]))
  {
    CascadeNone(doc, sels, from);
    if Cascade(doc, sels, from).Some? {
      var i := CascadeSome(doc, sels, from);
    }
  }

  lemma {:induction false} CascadeNone(doc: Node, sels: seq<Selector>, from: nat)
    requires from <= |sels|
    ensures Cascade(doc, sels, from).None? <==> forall i :: from <= i < |sels| ==> Misses(doc, sels[i])
    decreases |sels| - from
  {
    if from < |sels| {
      CascadeNone(doc, sels, from + 1);
      if Misses(doc, sels[from]) {
        CascadeSkips(doc, sels, from);
      } else {
        CascadeHits(doc, sels, from);
      }
    }
  }

  lemma {:induction false} CascadeSome(doc: Node, sels: seq<Selector>, from: nat) returns (i: nat)
    requires from <= |sels| && Cascade(doc, sels, from).Some?
    ensures from <= i < |sels| && SelectOne(doc, [], [sels[i]]) == Cascade(doc, sels, from)
    ensures forall j :: from <= j < i ==> Misses(doc, sels[j])
    decreases |sels| - from
  {
    if Misses(doc, sels[from]) {
      CascadeSkips(doc, sels, from);
      i := CascadeSome(doc, sels, from + 1);
      forall j | from <= j < i ensures Misses(doc, sels[j]) {
        if j == from {
        }
      }
    } else {
      CascadeHits(doc, sels, from);
      i := from;
    }
  }

  /** Every selector from index `from` up to `to` misses. */
  predicate MissesFrom(doc: Node, sels: seq<Selector>, from: nat, to: nat)
    requires from <= to <= |sels|
  {
    forall j :: from <= j < to ==> Misses(doc, sels[j])
  }

  /** Selector `i` decides the cascade when it finds something and every selector before it finds nothing. */
  lemma {:induction false} CascadePicks(doc: Node, sels: seq<Selector>, from: nat, i: nat)
    requires from <= i < |sels| && SelectOne(doc, [], [sels[i]]).Some?
    requires MissesFrom(doc, sels, from, i)
    ensures Cascade(doc, sels, from) == SelectOne(doc, [], [sels[i]])
    decreases i - from
  {
    if from < i {
      CascadeSkips(doc, sels, from);
      CascadePicks(doc, sels, from + 1, i);
    } else {
      CascadeHits(doc, sels, from);
    }
  }

  lemma CascadeSkips(doc: Node, sels: seq<Selector>, from: nat)
    requires from < |sels| && Misses(doc, sels[from])
    ensures Cascade(doc, sels, from) == Cascade(doc, sels, from + 1)
  {
  }

  lemma CascadeHits(doc: Node, sels: seq<Selector>, i: nat)
    requires i < |sels| && SelectOne(doc, [], [sels[i]]).Some?
    ensures Cascade(doc, sels, i) == SelectOne(doc, [], [sels[i]])
  {
  }

  /** `any(content.select_one(indicator) for indicator in paywall_indicators)` */
  predicate Indicated(c: Located, indicators: seq<Selector>) {
    exists k :: 0 <= k < |indicators| && SelectOne(c.node, c.anc, [indicators[k]]).Some?
  }

  /** The container `find_main_content` returns, as it was found in the unchanged page. */
  function Locate(doc: Node, p: ArticleProfile): (r: Option<Located>)
    ensures r.Some? ==> (ValidPath(doc, r.value.path) && At(doc, r.value.path) == r.value.node
      && r.value.node.Element? && r.value.path != [])
    ensures r.None? <==> (Cascade(doc, p.cascade, 0).None? || Indicated(Cascade(doc, p.cascade, 0).value, p.indicators))
    ensures r.Some? ==> r == Cascade(doc, p.cascade, 0)
  {
    var c := Cascade(doc, p.cascade, 0);
    if c.None? || Indicated(c.value, p.indicators) then None
    else
      CascadeSpec(doc, p.cascade, 0);
      var i :| 0 <= i < |p.cascade| && SelectOne(doc, [], [p.cascade[i]]) == c;
      FoundAt(doc, [], [p.cascade[i]]);
      c
  }

  /** Without paywall markers the container is whatever the cascade finds. */
  lemma LocateUnmarked(doc: Node, p: ArticleProfile)
    requires p.indicators == []
    ensures Locate(doc, p) == Cascade(doc, p.cascade, 0)
  {
  }

  /** The page after `find_main_content`: the container replaced by its cleaned-up form. */
  function AfterCleanUp(doc: Node, p: ArticleProfile): Node {
    match Locate(doc, p)
    case None => doc
    case Some(c) => ReplaceAt(doc, c.path, PruneAll(c.node, p.passes))
  }

  /** The `for element in main_content.find_all(...): element.decompose()` loops, one pass after another. */
  method RunPasses(soup: Soup, at: Path, passes: seq<Rule>)
    requires ValidPath(soup.root, at)
    requires forall j :: 0 <= j < |passes| ==> Stable(passes[j])
    modifies soup
    ensures soup.root == ReplaceAt(old(soup.root), at, PruneAll(At(old(soup.root), at), passes))
  {
    var doc := soup.root;
    var start := At(doc, at);
    var k := 0;
    assert passes[..0] == [];
    ReplaceAtSame(doc, at);
    while k < |passes|
      invariant 0 <= k <= |passes|
      invariant ValidPath(soup.root, at) && At(soup.root, at) == PruneAll(start, passes[..k])
      invariant soup.root == ReplaceAt(doc, at, PruneAll(start, passes[..k]))
    {
      var before := PruneAll(start, passes[..k]);
      soup.CleanUp(at, passes[k]);
      PruneAllSnoc(start, passes[..k], passes[k]);
      assert passes[..k + 1] == passes[..k] + [passes[k]];
      ReplaceAtTwice(doc, at, before, Prune(before, passes[k]));
      k := k + 1;
    }
    assert passes[..k] == passes;
  }

  /** `find_main_content(soup)`, changing the soup in place. */
  method FindMainContent(soup: Soup, p: ArticleProfile) returns (found: Option<Located>)
    requires WellFormed(p)
    modifies soup
    ensures found == Locate(old(soup.root), p)
    ensures soup.root == AfterCleanUp(old(soup.root), p)
  {
    var doc := soup.root;
    var i := 0;
    while i < |p.cascade|
      invariant 0 <= i <= |p.cascade|
      invariant soup.root == doc
      invariant Cascade(doc, p.cascade, i) == Cascade(doc, p.cascade, 0)
    {
      var hit := SelectOne(soup.root, [], [p.cascade[i]]);
      if hit.Some? {
        if Indicated(hit.value, p.indicators) {
          return None;
        }
        FoundAt(doc, [], [p.cascade[i]]);
        RunPasses(soup, hit.value.path, p.passes);
        return hit;
      }
      i := i + 1;
    }
    return None;
  }
}

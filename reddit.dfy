/** The r/all scraper: scroll until the page stops growing, take every post container the first
    successful selector finds, clean each one, and print one record per container. */
module Reddit {
  import opened Wrappers
  import opened Strings
  import opened Dom
  import opened Selectors
  import opened Pruning
  import opened Profiles

  /** How the scroll loop ends. The source loops until two successive heights agree; given finitely many
      readings, the model also reports when none of them has repeated yet. */
  datatype ScrollEnd = Settled(scrolls: nat) | StillGrowing

  /** The height the loop compares reading `k` with: the initial one, or the reading before. */
  function Previous(first: int, readings: seq<int>, k: nat): int
    requires k <= |readings|
  {
    if k == 0 then first else readings[k - 1]
  }

  /** Where the loop ends, reading `k` (the height after scroll `k + 1`) onwards. */
  function Settle(first: int, readings: seq<int>, k: nat): (e: ScrollEnd)
    requires k <= |readings|
    ensures e.Settled? ==> k < e.scrolls <= |readings|
    decreases |readings| - k
  {
    if k == |readings| then StillGrowing
    else if readings[k] == Previous(first, readings, k) then Settled(k + 1)
    else Settle(first, readings, k + 1)
  }

  /** The loop stops after the first scroll whose height equals the one before it, and only then. */
  lemma {:induction false} SettleSpec(first: int, readings: seq<int>, k: nat)
    requires k <= |readings|
    ensures Settle(first, readings, k).StillGrowing? <==>
      forall j :: k <= j < |readings| ==> readings[j] != Previous(first, readings, j)
    ensures Settle(first, readings, k).Settled? ==>
      var n := Settle(first, readings, k).scrolls;
      readings[n - 1] == Previous(first, readings, n - 1)
      && forall j :: k <= j < n - 1 ==> readings[j] != Previous(first, readings, j)
    decreases |readings| - k
  {
    if k < |readings| && readings[k] != Previous(first, readings, k) {
      SettleSpec(first, readings, k + 1);
    }
  }

  /** The `while True` loop of lines 73-80: `last` is always the previous reading, and there is one
      scroll per reading taken. */
  method ScrollToBottom(first: int, readings: seq<int>) returns (e: ScrollEnd)
    ensures e == Settle(first, readings, 0)
  {
    var last := first;
    var k := 0;
    while k < |readings|
      invariant 0 <= k <= |readings|
      invariant last == Previous(first, readings, k)
      invariant Settle(first, readings, k) == Settle(first, readings, 0)
    {
      var height := readings[k];
      if height == last {
        return Settled(k + 1);
      }
      last := height;
      k := k + 1;
    }
    return StillGrowing;
  }

  const ContainerSelectors: seq<Selector> := [IdSel("siteTable"), ClassSel("thing"), ClassSel("entry")]

  /** `soup.select(s)` finds nothing. */
  predicate NoneMatch(doc: Node, s: Selector) {
    SelectAll(doc, [], [s]) == []
  }

  /** None of the selectors from index `from` up to `to` finds anything. */
  predicate NoneFrom(doc: Node, sels: seq<Selector>, from: nat, to: nat)
    requires from <= to <= |sels|
  {
    forall j :: from <= j < to ==> NoneMatch(doc, sels[j])
  }

  /** All matches of the first selector, from index `from` on, that matches anything. */
  function FirstNonEmpty(doc: Node, sels: seq<Selector>, from: nat): (r: Option<seq<Located>>)
    requires from <= |sels|
    ensures r.None? <==> NoneFrom(doc, sels, from, |sels|)
    ensures r.Some? ==> r.value != [] && exists i :: (from <= i < |sels| && r.value == SelectAll(doc, [], [sels[i]])
      && NoneFrom(doc, sels, from, i))
    decreases |sels| - from
  {
    if from == |sels| then None
    else
      if !NoneMatch(doc, sels[from]) then Some(SelectAll(doc, [], [sels[from]]))
      else FirstNonEmpty(doc, sels, from + 1)
  }

  /** `.promoted, .ad-container, .sponsored-headline` */
  const PostNoise: Rule := ClassRule(["promoted", "ad-container", "sponsored-headline"])

  /** Each container as the cleaning loop leaves it. */
  function Cleaned(c: Located): Located {
    c.(node := Prune(c.node, PostNoise))
  }

  /** The nested `decompose` loop of `find_main_content`, container after container. */
  method CleanContainers(cs: seq<Located>) returns (out: seq<Located>)
    ensures |out| == |cs|
    ensures forall i :: 0 <= i < |cs| ==> out[i] == Cleaned(cs[i])
  {
    out := [];
    for i := 0 to |cs|
      invariant |out| == i
      invariant forall j :: 0 <= j < i ==> out[j] == Cleaned(cs[j])
    {
      var m := DecomposeMatches(cs[i].node, PostNoise);
      out := out + [cs[i].(node := m)];
    }
  }

  /** No container keeps a promoted, ad or sponsored element. */
  lemma ContainersClean(c: Located)
    ensures NoHits(Desc(Cleaned(c).node, c.anc), PostNoise)
  {
    PruneClean(c.node, PostNoise, c.anc);
  }

  /** `.title a` */
  const TitleLink: Selector := Descendant([HasClass("title")], [TagIs("a")])
  /** `.score.unvoted` */
  const Score: Selector := Simple([HasClass("score"), HasClass("unvoted")])

  function Field(post: Located, s: Selector, missing: string): string {
    TextOr(SelectOne(post.node, post.anc, [s]), missing)
  }

  /** The four labelled lines of a post, and the empty line its final line break ends. */
  function PostLines(post: Located): seq<string> {
    ["Title: " + Field(post, TitleLink, "Title not found"),
     "Author: " + Field(post, ClassSel("author"), "Author not found"),
     "Score: " + Field(post, Score, "Score not found"),
     "Comments: " + Field(post, ClassSel("comments"), "Comments link not found"),
     ""]
  }

  /** The record appended for one post. */
  function Record(post: Located): string {
    Join("\n", PostLines(post))
  }

  function Records(posts: seq<Located>): (r: seq<string>)
    ensures |r| == |posts|
  {
    if posts == [] then [] else [Record(posts[0])] + Records(posts[1..])
  }

  /** Entry `i` of the records is the record of post `i`. */
  lemma {:induction false} RecordsAt(posts: seq<Located>, i: nat)
    requires i < |posts|
    ensures Records(posts)[i] == Record(posts[i])
    decreases i
  {
    if i > 0 {
      RecordsAt(posts[1..], i - 1);
      assert posts[1..][i - 1] == posts[i];
    }
  }

  lemma PrefixNext(all: seq<string>, i: nat)
    requires i < |all|
    ensures all[..i + 1] == all[..i] + [all[i]]
  {
  }

  /** The `for post in main_content` loop and the join after it. */
  method CollectPosts(posts: seq<Located>) returns (text: string)
    ensures text == Join("\n", Records(posts))
  {
    ghost var all := Records(posts);
    var acc: seq<string> := [];
    for i := 0 to |posts|
      invariant acc == all[..i]
    {
      var r := Record(posts[i]);
      RecordsAt(posts, i);
      PrefixNext(all, i);
      acc := acc + [r];
    }
    assert all[..|posts|] == all;
    text := Join("\n", acc);
  }

  /** When no field holds a line break, a record is exactly its four labelled lines followed by a line
      break, `Title: ...` first. */
  lemma RecordLines(post: Located)
    requires forall i :: 0 <= i < |PostLines(post)| ==> NoBreak(PostLines(post)[i])
    ensures Lines(Record(post)) == PostLines(post)
    ensures StartsWith(Record(post), "Title: ")
  {
    var ls := PostLines(post);
    LinesOfJoin(ls);
    var rest := Join("\n", ls[1..]);
    assert Record(post) == ls[0] + "\n" + rest;
    StartsWithConcat("Title: ", Field(post, TitleLink, "Title not found"));
    StartsWithExtend(ls[0], "Title: ", "\n");
    StartsWithExtend(ls[0] + "\n", "Title: ", rest);
  }

  datatype Outcome = NotFound | Posts(text: string)

  /** The string the scraper returns. */
  function Message(o: Outcome): string {
    match o
    case NotFound => "Could not find the main content on the page."
    case Posts(t) => t
  }

  /** The scraper's result for page `doc`. */
  function Scrape(doc: Node): (o: Outcome)
    ensures o.NotFound? <==> forall i :: 0 <= i < |ContainerSelectors| ==> NoneMatch(doc, ContainerSelectors[i])
  {
    match FirstNonEmpty(doc, ContainerSelectors, 0)
    case None => NotFound
    case Some(cs) => Posts(Join("\n", Records(seq(|cs|, i requires 0 <= i < |cs| => Cleaned(cs[i])))))
  }

  /** The scraping function from the moment the page source is parsed. */
  method ScrapeRedditAll(doc: Node) returns (o: Outcome)
    ensures o == Scrape(doc)
  {
    var found := FirstNonEmpty(doc, ContainerSelectors, 0);
    if found.None? {
      return NotFound;
    }
    var cs := CleanContainers(found.value);
    assert cs == seq(|found.value|, i requires 0 <= i < |found.value| => Cleaned(found.value[i]));
    var text := CollectPosts(cs);
    return Posts(text);
  }

  /** The output holds one record per container, in order: when no field holds a line break, its lines
      are each container's five lines one after another, so posts are separated by an empty line. */
  lemma PostsInOrder(posts: seq<Located>)
    requires posts != []
    requires forall k, i :: 0 <= k < |posts| && 0 <= i < 5 ==> NoBreak(PostLines(posts[k])[i])
    ensures Lines(Join("\n", Records(posts))) == AllLines(Records(posts))
    ensures forall k :: 0 <= k < |posts| ==> Lines(Records(posts)[k]) == PostLines(posts[k])
  {
    LinesOfJoinAll(Records(posts));
    forall k | 0 <= k < |posts| ensures Lines(Records(posts)[k]) == PostLines(posts[k]) {
      RecordsAt(posts, k);
      RecordLines(posts[k]);
    }
  }
}

/** The Hacker News scraper: the front page's item table, or a story with its comment tree moved into
    it, then one record per post row and per comment row. */
module HackerNews {
  import opened Wrappers
  import opened Strings
  import opened Dom
  import opened Selectors
  import opened Page
  import opened Profiles

  /** `table.itemlist` */
  const ItemList: Selector := Simple([TagIs("table"), HasClass("itemlist")])
  /** `.fatitem` */
  const FatItem: Selector := ClassSel("fatitem")
  /** `table.comment-tree` */
  const CommentTree: Selector := Simple([TagIs("table"), HasClass("comment-tree")])

  /** What `find_main_content` does with the page. */
  datatype Found =
    | Missing
      /** the front page's table, returned as it is */
    | Front(list: Located)
      /** a story without a comment tree */
    | Story(item: Located)
      /** a story, with the comment tree found elsewhere in the page to be appended to it */
    | StoryWithComments(item: Located, tree: Located)
      /** the comment tree is the story element itself: `append` raises `ValueError` */
    | SelfAppend
      /** the comment tree encloses the story element: appending it would make the tree a cycle */
    | CyclicAppend

  /** `soup.select_one('table.itemlist')` */
  function ListOf(doc: Node): Option<Located> {
    SelectOne(doc, [], [ItemList])
  }

  /** `soup.select_one('.fatitem')` */
  function FatOf(doc: Node): Option<Located> {
    SelectOne(doc, [], [FatItem])
  }

  /** `soup.select_one('table.comment-tree')` */
  function TreeOf(doc: Node): Option<Located> {
    SelectOne(doc, [], [CommentTree])
  }

  /** A story page: no item list, and a `.fatitem`. */
  predicate StoryPage(doc: Node) {
    ListOf(doc).None? && FatOf(doc).Some?
  }

  /** The front page's item list wins. On a story page the first comment tree is appended to the first
      `.fatitem`: there is nothing to append without a tree, `append` raises when the tree is the item
      itself, and the tree would form a cycle when it encloses the item. */
  function MainContent(doc: Node): (f: Found)
    ensures ListOf(doc).Some? ==> f == Front(ListOf(doc).value)
    ensures f.Missing? <==> ListOf(doc).None? && FatOf(doc).None?
    ensures StoryPage(doc) ==> var fat, tree := FatOf(doc).value, TreeOf(doc);
      (f == Story(fat) <==> tree.None?)
      && (f == SelfAppend <==> tree.Some? && tree.value.path == fat.path)
      && (f == CyclicAppend <==> tree.Some? && tree.value.path < fat.path)
      && (f.StoryWithComments? <==> tree.Some? && !(tree.value.path <= fat.path))
      && (f.StoryWithComments? ==> f == StoryWithComments(fat, tree.value))
    ensures f.StoryWithComments? ==> (ValidPath(doc, f.item.path) && ValidPath(doc, f.tree.path)
      && f.tree.path != [] && !(f.tree.path <= f.item.path) && At(doc, f.item.path).Element?
      && At(doc, f.item.path) == f.item.node && At(doc, f.tree.path) == f.tree.node)
  {
    var list := ListOf(doc);
    if list.Some? then Front(list.value)
    else
      var fat := FatOf(doc);
      if fat.None? then Missing
      else
        var tree := TreeOf(doc);
        if tree.None? then Story(fat.value)
        else if tree.value.path == fat.value.path then SelfAppend
        else if tree.value.path <= fat.value.path then CyclicAppend
        else
          FoundAt(doc, [], [FatItem]);
          FoundAt(doc, [], [CommentTree]);
          StoryWithComments(fat.value, tree.value)
  }

  /** The page once `find_main_content` has run. */
  function PageAfter(doc: Node): Node {
    match MainContent(doc)
    case StoryWithComments(item, tree) => Moved(doc, item.path, tree.path)
    case _ => doc
  }

  /** The container the items are read from, as it is in `PageAfter(doc)`: the item list, or the first
      `.fatitem`, at its place after the comment tree has moved into it. */
  function Container(doc: Node): (c: Option<Located>)
    ensures c.Some? <==> MainContent(doc).Front? || MainContent(doc).Story? || MainContent(doc).StoryWithComments?
    ensures c.Some? ==> ValidPath(PageAfter(doc), c.value.path) && At(PageAfter(doc), c.value.path) == c.value.node
    ensures ListOf(doc).Some? ==> c == ListOf(doc)
    ensures MainContent(doc).Story? ==> c == FatOf(doc)
    ensures MainContent(doc).StoryWithComments? ==> var fat, tree := FatOf(doc).value, TreeOf(doc).value;
      c.Some? && c.value.path == Shift(fat.path, tree.path) && c.value.anc == fat.anc
  {
    match MainContent(doc)
    case Front(list) =>
      FoundAt(doc, [], [ItemList]);
      Some(list)
    case Story(item) =>
      FoundAt(doc, [], [FatItem]);
      Some(item)
    case StoryWithComments(item, tree) =>
      MovedLast(doc, item.path, tree.path);
      Some(item.(path := Shift(item.path, tree.path), node := At(Moved(doc, item.path, tree.path), Shift(item.path, tree.path))))
    case _ => None
  }

  /** On a story page with a comment tree outside the first `.fatitem`, the tree becomes that item's last
      child, after all its own children, and the container keeps the item's label. */
  lemma CommentTreeLast(doc: Node)
    requires StoryPage(doc) && TreeOf(doc).Some?
    requires !(TreeOf(doc).value.path <= FatOf(doc).value.path)
    ensures Container(doc).Some?
    ensures var c := Container(doc).value.node;
      c.Element? && |c.children| >= 1 && c.children[|c.children| - 1] == TreeOf(doc).value.node
      && c.lab == FatOf(doc).value.node.lab
  {
    var fat, tree := FatOf(doc).value, TreeOf(doc).value;
    assert MainContent(doc) == StoryWithComments(fat, tree);
    AppendedLast(doc, fat, tree);
  }

  lemma AppendedContainer(doc: Node, fat: Located, tree: Located)
    requires MainContent(doc) == StoryWithComments(fat, tree)
    ensures ValidPath(Moved(doc, fat.path, tree.path), Shift(fat.path, tree.path))
    ensures var target := Shift(fat.path, tree.path);
      var t := At(Moved(doc, fat.path, tree.path), target);
      Container(doc) == Some(fat.(path := target, node := t))
      && t.Element? && |t.children| >= 1 && t.children[|t.children| - 1] == tree.node && t.lab == fat.node.lab
  {
    MovedLast(doc, fat.path, tree.path);
  }

  lemma AppendedLast(doc: Node, fat: Located, tree: Located)
    requires MainContent(doc) == StoryWithComments(fat, tree)
    ensures Container(doc).Some?
    ensures var c := Container(doc).value.node;
      c.Element? && |c.children| >= 1 && c.children[|c.children| - 1] == tree.node && c.lab == fat.node.lab
  {
    AppendedContainer(doc, fat, tree);
  }

  /** `find_main_content(soup)`, changing the soup in place. */
  method FindMainContent(soup: Soup) returns (f: Found)
    modifies soup
    ensures f == MainContent(old(soup.root))
    ensures soup.root == PageAfter(old(soup.root))
  {
    var list := SelectOne(soup.root, [], [ItemList]);
    if list.Some? {
      return Front(list.value);
    }
    var fat := SelectOne(soup.root, [], [FatItem]);
    if fat.None? {
      return Missing;
    }
    var tree := SelectOne(soup.root, [], [CommentTree]);
    if tree.None? {
      return Story(fat.value);
    }
    if tree.value.path == fat.value.path {
      return SelfAppend;
    }
    if tree.value.path <= fat.value.path {
      return CyclicAppend;
    }
    FoundAt(soup.root, [], [FatItem]);
    FoundAt(soup.root, [], [CommentTree]);
    soup.Append(fat.value.path, tree.value.path);
    return StoryWithComments(fat.value, tree.value);
  }

  /** `find_all('tr', class_='athing')` */
  const Row: Selector := Simple([TagIs("tr"), HasClass("athing")])
  /** `find('span', class_='titleline')` */
  const TitleLine: Selector := Simple([TagIs("span"), HasClass("titleline")])
  /** `find('span', class_='score')` */
  const ScoreSpan: Selector := Simple([TagIs("span"), HasClass("score")])
  /** `find('a', class_='hnuser')` */
  const UserLink: Selector := Simple([TagIs("a"), HasClass("hnuser")])
  /** `find('span', class_='commtext')` */
  const CommentText: Selector := Simple([TagIs("span"), HasClass("commtext")])

  /** Index of the first element child at or after `from` with tag `tag`. */
  function NextTagged(cs: seq<Node>, from: nat, tag: string): (r: Option<nat>)
    requires from <= |cs|
    ensures r.Some? ==> from <= r.value < |cs| && cs[r.value].Element? && cs[r.value].lab.tag == tag
    ensures r.None? ==> forall j :: from <= j < |cs| ==> !(cs[j].Element? && cs[j].lab.tag == tag)
    ensures r.Some? ==> forall j :: from <= j < r.value ==> !(cs[j].Element? && cs[j].lab.tag == tag)
    decreases |cs| - from
  {
    if from == |cs| then None
    else if cs[from].Element? && cs[from].lab.tag == tag then Some(from)
    else NextTagged(cs, from + 1, tag)
  }

  /** The element holding the node at `path`, and the node's index among its children. */
  function ParentOf(content: Node, path: Path): (parent: Node)
    requires ValidPath(content, path) && path != []
    ensures parent.Element? && path[|path| - 1] < |parent.children|
    ensures parent.children[path[|path| - 1]] == At(content, path)
  {
    var k := |path| - 1;
    AtPrefix(content, path[..k], path);
    assert path[k..] == [path[k]];
    At(content, path[..k])
  }

  /** `item.find_next_sibling('tr')`, for an item below `content`: the first `tr` element among the item's
      later siblings, or none exactly when there is none. */
  function NextRow(content: Node, item: Located): (r: Option<Located>)
    requires ValidPath(content, item.path) && item.path != []
    ensures r.Some? ==> r.value.node.Element? && r.value.node.lab.tag == "tr"
    ensures var cs, k := ParentOf(content, item.path).children, |item.path| - 1;
      r.None? <==> forall j :: item.path[k] < j < |cs| ==> !(cs[j].Element? && cs[j].lab.tag == "tr")
    ensures var cs, k := ParentOf(content, item.path).children, |item.path| - 1;
      r.Some? ==> (|r.value.path| == |item.path| && r.value.path[..k] == item.path[..k] && r.value.anc == item.anc
        && item.path[k] < r.value.path[k] < |cs| && r.value.node == cs[r.value.path[k]]
        && forall j :: item.path[k] < j < r.value.path[k] ==> !(cs[j].Element? && cs[j].lab.tag == "tr"))
  {
    var k := |item.path| - 1;
    var parent := ParentOf(content, item.path);
    var i := item.path[k];
    match NextTagged(parent.children, i + 1, "tr")
    case None => None
    case Some(j) =>
      var path := item.path[..k] + [j];
      assert path[..k] == item.path[..k] && path[k] == j;
      Some(Located(path, parent.children[j], item.anc))
  }

  /** What one row contributes: a record, nothing, or the exception that ends the scrape. */
  datatype Step = Emit(record: string) | Skip | Raise(error: string)

  /** The four labelled lines of a story row, and the empty line its final line break ends. */
  function PostLines(title: string, url: string, score: string, author: string): seq<string> {
    ["Title: " + title, "URL: " + url, "Score: " + score, "Author: " + author, ""]
  }

  /** The record appended for a story row: its lines joined by line breaks. */
  function PostRecord(title: string, url: string, score: string, author: string): (r: string)
    ensures StartsWith(r, "Title: ")
  {
    var ls := PostLines(title, url, score, author);
    var rest := Join("\n", ls[1..]);
    assert Join("\n", ls) == ls[0] + "\n" + rest;
    StartsWithConcat("Title: ", title);
    StartsWithExtend(ls[0], "Title: ", "\n");
    StartsWithExtend(ls[0] + "\n", "Title: ", rest);
    Join("\n", ls)
  }

  /** The line of a comment row, and the empty line its final line break ends. */
  function CommentLines(author: string, text: string): seq<string> {
    ["Comment by " + author + ": " + text, ""]
  }

  /** The record appended for a comment row. */
  function CommentRecord(author: string, text: string): (r: string)
    ensures StartsWith(r, "Comment by ")
  {
    var ls := CommentLines(author, text);
    assert ls[0] == "Comment by " + (author + ": " + text);
    assert Join("\n", ls) == ls[0] + "\n" + Join("\n", ls[1..]);
    StartsWithConcat("Comment by ", author + ": " + text);
    StartsWithExtend(ls[0], "Comment by ", "\n" + Join("\n", ls[1..]));
    Join("\n", ls)
  }

  /** When no field holds a line break, a story record is exactly its five lines. */
  lemma PostRecordLines(title: string, url: string, score: string, author: string)
    requires NoBreak(title) && NoBreak(url) && NoBreak(score) && NoBreak(author)
    ensures Lines(PostRecord(title, url, score, author)) == PostLines(title, url, score, author)
  {
    NoBreakConcat("Title: ", title);
    NoBreakConcat("URL: ", url);
    NoBreakConcat("Score: ", score);
    NoBreakConcat("Author: ", author);
    assert NoBreak("");
    LinesOfJoin(PostLines(title, url, score, author));
  }

  /** When neither field holds a line break, a comment record is its one line, then an empty line. */
  lemma CommentRecordLines(author: string, text: string)
    requires NoBreak(author) && NoBreak(text)
    ensures Lines(CommentRecord(author, text)) == CommentLines(author, text)
  {
    NoBreakConcat("Comment by ", author);
    NoBreakConcat("Comment by " + author, ": ");
    NoBreakConcat("Comment by " + author + ": ", text);
    assert NoBreak("");
    LinesOfJoin(CommentLines(author, text));
  }

  /** A row with a title line: a post record, or the exception its missing pieces raise. */
  function PostStep(content: Node, item: Located, title: Located): Step
    requires ValidPath(content, item.path) && item.path != []
  {
    var t := ExtractText(title.node);
    var link := SelectOne(title.node, title.anc, Tags(["a"]));
    if link.Some? && "href" !in link.value.node.lab.attrs then Raise("KeyError")
    else
      var url := if link.Some? then link.value.node.lab.attrs["href"] else "";
      match NextRow(content, item)
      case None => Emit(PostRecord(t, url, "No score", "No author"))
      case Some(row) =>
        var score := SelectOne(row.node, row.anc, [ScoreSpan]);
        var author := SelectOne(row.node, row.anc, [UserLink]);
        if score.None? || author.None? then Raise("AttributeError")
        else Emit(PostRecord(t, url, ExtractText(score.value.node), ExtractText(author.value.node)))
  }

  /** A row without a title line: a comment record if it has comment text, else nothing. */
  function CommentStep(item: Located): Step {
    match SelectOne(item.node, item.anc, [CommentText])
    case None => Skip
    case Some(comment) =>
      Emit(CommentRecord(TextOr(SelectOne(item.node, item.anc, [UserLink]), "No author"), ExtractText(comment.node)))
  }

  /** The body of the `for item in items` loop, lines 90-102. */
  function Classify(content: Node, item: Located): Step
    requires ValidPath(content, item.path) && item.path != []
  {
    match SelectOne(item.node, item.anc, [TitleLine])
    case Some(title) => PostStep(content, item, title)
    case None => CommentStep(item)
  }

  /** A row with a title line is a post even when it also has comment text; otherwise a row with comment
      text is a comment; any other row adds nothing. Only `KeyError` and `AttributeError` escape. */
  lemma ClassifySpec(content: Node, item: Located)
    requires ValidPath(content, item.path) && item.path != []
    ensures var s := Classify(content, item);
      (s.Raise? ==> s.error == "KeyError" || s.error == "AttributeError")
      && (s.Emit? && SelectOne(item.node, item.anc, [TitleLine]).Some? ==> StartsWith(s.record, "Title: "))
      && (s.Emit? && SelectOne(item.node, item.anc, [TitleLine]).None? ==> StartsWith(s.record, "Comment by "))
      && (s.Skip? <==> SelectOne(item.node, item.anc, [TitleLine]).None? && SelectOne(item.node, item.anc, [CommentText]).None?)
  {
    match SelectOne(item.node, item.anc, [TitleLine])
    case Some(title) => PostStepSpec(content, item, title);
    case None => CommentStepSpec(item);
  }

  lemma PostStepSpec(content: Node, item: Located, title: Located)
    requires ValidPath(content, item.path) && item.path != []
    ensures var s := PostStep(content, item, title);
      (s.Raise? ==> s.error == "KeyError" || s.error == "AttributeError") && !s.Skip?
      && (s.Emit? ==> StartsWith(s.record, "Title: "))
  {
    var t := ExtractText(title.node);
    var link := SelectOne(title.node, title.anc, Tags(["a"]));
    if !(link.Some? && "href" !in link.value.node.lab.attrs) {
      var url := if link.Some? then link.value.node.lab.attrs["href"] else "";
      var next := NextRow(content, item);
      if next.Some? {
        var score := SelectOne(next.value.node, next.value.anc, [ScoreSpan]);
        var author := SelectOne(next.value.node, next.value.anc, [UserLink]);
        if !(score.None? || author.None?) {
          assert PostStep(content, item, title)
            == Emit(PostRecord(t, url, ExtractText(score.value.node), ExtractText(author.value.node)));
        }
      } else {
        assert PostStep(content, item, title) == Emit(PostRecord(t, url, "No score", "No author"));
      }
    }
  }

  lemma CommentStepSpec(item: Located)
    ensures var s := CommentStep(item);
      !s.Raise? && (s.Emit? ==> StartsWith(s.record, "Comment by "))
      && (s.Skip? <==> SelectOne(item.node, item.anc, [CommentText]).None?)
  {
  }

  /** A post row without a following `tr` gets the two placeholders. With a following `tr`, the post's
      score and author come from that row, and a row lacking either ends the scrape. */
  lemma PostDetails(content: Node, item: Located)
    requires ValidPath(content, item.path) && item.path != []
    requires SelectOne(item.node, item.anc, [TitleLine]).Some?
    ensures var title := SelectOne(item.node, item.anc, [TitleLine]).value;
      var link := SelectOne(title.node, title.anc, Tags(["a"]));
      var url := if link.Some? && "href" in link.value.node.lab.attrs then link.value.node.lab.attrs["href"] else "";
      var next := NextRow(content, item);
      !(link.Some? && "href" !in link.value.node.lab.attrs) ==>
        (next.None? ==> Classify(content, item) == Emit(PostRecord(ExtractText(title.node), url, "No score", "No author")))
        && (next.Some? ==> (Classify(content, item).Raise? <==>
              SelectOne(next.value.node, next.value.anc, [ScoreSpan]).None?
              || SelectOne(next.value.node, next.value.anc, [UserLink]).None?))
  {
  }

  /** A title link without an `href` raises `KeyError` before the next row is looked at. */
  lemma MissingHref(content: Node, item: Located)
    requires ValidPath(content, item.path) && item.path != []
    requires SelectOne(item.node, item.anc, [TitleLine]).Some?
    requires var title := SelectOne(item.node, item.anc, [TitleLine]).value;
      var link := SelectOne(title.node, title.anc, Tags(["a"]));
      link.Some? && "href" !in link.value.node.lab.attrs
    ensures Classify(content, item) == Raise("KeyError")
  {
  }

  /** The result of the loop: the records, or the first exception raised. */
  datatype Collected = Crashed(error: string) | Records(records: seq<string>)

  /** The items are the rows below `content`, so each has a place in it. */
  predicate RowsOf(content: Node, items: seq<Located>) {
    forall j :: 0 <= j < |items| ==> ValidPath(content, items[j].path) && items[j].path != []
  }

  /** The loop from item `k` on, with the records of the earlier items in `acc`. */
  function CollectFrom(content: Node, items: seq<Located>, k: nat, acc: seq<string>): Collected
    requires k <= |items| && RowsOf(content, items)
    decreases |items| - k
  {
    if k == |items| then Records(acc)
    else match Classify(content, items[k])
      case Raise(e) => Crashed(e)
      case Skip => CollectFrom(content, items, k + 1, acc)
      case Emit(r) => CollectFrom(content, items, k + 1, acc + [r])
  }

  /** The records of the items from `k` on, in order, ignoring exceptions. */
  function Emitted(content: Node, items: seq<Located>, k: nat): (r: seq<string>)
    requires k <= |items| && RowsOf(content, items)
    ensures |r| <= |items| - k
    decreases |items| - k
  {
    if k == |items| then []
    else match Classify(content, items[k])
      case Emit(r) => [r] + Emitted(content, items, k + 1)
      case _ => Emitted(content, items, k + 1)
  }

  /** Item `item` raises an exception. */
  predicate Raises(content: Node, item: Located)
    requires ValidPath(content, item.path) && item.path != []
  {
    Classify(content, item).Raise?
  }

  /** Which items raise, item by item. */
  function RaiseFlags(content: Node, items: seq<Located>): (f: seq<bool>)
    requires RowsOf(content, items)
    ensures |f| == |items| && forall j :: 0 <= j < |items| ==> f[j] == Raises(content, items[j])
  {
    seq(|items|, j requires 0 <= j < |items| => Raises(content, items[j]))
  }

  /** The first index from `k` on whose flag is set. */
  function FirstSet(f: seq<bool>, k: nat): (r: Option<nat>)
    requires k <= |f|
    ensures r.None? <==> forall j :: k <= j < |f| ==> !f[j]
    ensures r.Some? ==> k <= r.value < |f| && f[r.value] && forall j :: k <= j < r.value ==> !f[j]
    decreases |f| - k
  {
    if k == |f| then None
    else if f[k] then Some(k)
    else FirstSet(f, k + 1)
  }

  /** The first item from `k` on that raises, if any: the loop stops there. */
  function FirstRaise(content: Node, items: seq<Located>, k: nat): (r: Option<nat>)
    requires k <= |items| && RowsOf(content, items)
    ensures r.None? <==> forall j :: k <= j < |items| ==> !Raises(content, items[j])
    ensures r.Some? ==> (k <= r.value < |items| && Raises(content, items[r.value])
      && forall j :: k <= j < r.value ==> !Raises(content, items[j]))
  {
    FirstSet(RaiseFlags(content, items), k)
  }

  /** One step of the loop, for an item that raises. */
  lemma CollectRaise(content: Node, items: seq<Located>, k: nat, acc: seq<string>)
    requires k < |items| && RowsOf(content, items) && Classify(content, items[k]).Raise?
    ensures CollectFrom(content, items, k, acc) == Crashed(Classify(content, items[k]).error)
    ensures FirstRaise(content, items, k) == Some(k)
  {
  }

  /** One step of the loop, for an item that adds nothing. */
  lemma CollectSkip(content: Node, items: seq<Located>, k: nat, acc: seq<string>)
    requires k < |items| && RowsOf(content, items) && Classify(content, items[k]).Skip?
    ensures CollectFrom(content, items, k, acc) == CollectFrom(content, items, k + 1, acc)
    ensures FirstRaise(content, items, k) == FirstRaise(content, items, k + 1)
    ensures Emitted(content, items, k) == Emitted(content, items, k + 1)
  {
  }

  /** One step of the loop, for an item that adds a record. */
  lemma CollectEmit(content: Node, items: seq<Located>, k: nat, acc: seq<string>)
    requires k < |items| && RowsOf(content, items) && Classify(content, items[k]).Emit?
    ensures var r := Classify(content, items[k]).record;
      CollectFrom(content, items, k, acc) == CollectFrom(content, items, k + 1, acc + [r])
      && Emitted(content, items, k) == [r] + Emitted(content, items, k + 1)
    ensures FirstRaise(content, items, k) == FirstRaise(content, items, k + 1)
  {
  }

  /** The scrape fails exactly when some item raises, and then with the first such item's exception;
      otherwise the records are those of the rows that are posts or comments, in document order. */
  lemma {:induction false} CollectSpec(content: Node, items: seq<Located>, k: nat, acc: seq<string>)
    requires k <= |items| && RowsOf(content, items)
    ensures match FirstRaise(content, items, k)
      case Some(j) => CollectFrom(content, items, k, acc) == Crashed(Classify(content, items[j]).error)
      case None => CollectFrom(content, items, k, acc) == Records(acc + Emitted(content, items, k))
    decreases |items| - k
  {
    if k < |items| {
      var s := Classify(content, items[k]);
      if s.Raise? {
        CollectRaise(content, items, k, acc);
      } else if s.Skip? {
        CollectSkip(content, items, k, acc);
        CollectSpec(content, items, k + 1, acc);
      } else {
        CollectEmit(content, items, k, acc);
        CollectSpec(content, items, k + 1, acc + [s.record]);
        assert acc + [s.record] + Emitted(content, items, k + 1) == acc + ([s.record] + Emitted(content, items, k + 1));
      }
    } else {
      assert acc + [] == acc;
    }
  }

  /** The loop of lines 89-102, appending to `content` (here `acc`). */
  method CollectItems(content: Node, items: seq<Located>) returns (c: Collected)
    requires RowsOf(content, items)
    ensures c == CollectFrom(content, items, 0, [])
  {
    var acc: seq<string> := [];
    var k := 0;
    while k < |items|
      invariant 0 <= k <= |items|
      invariant CollectFrom(content, items, k, acc) == CollectFrom(content, items, 0, [])
    {
      var step := Classify(content, items[k]);
      if step.Raise? {
        return Crashed(step.error);
      }
      if step.Emit? {
        acc := acc + [step.record];
      }
      k := k + 1;
    }
    return Records(acc);
  }

  datatype Outcome =
    | NotFound
    | Raised(error: string)
      /** the page would have made `append` build a cycle; the model says nothing more */
    | Cyclic
    | Text(text: string)

  /** The string the scraper returns; `None` when it raises instead. */
  function Message(o: Outcome): Option<string> {
    match o
    case NotFound => Some("Could not find the main content on the page.")
    case Text(t) => Some(t)
    case Raised(_) => None
    case Cyclic => None
  }

  /** `main_content.find_all('tr', class_='athing')` */
  function Items(c: Located): (items: seq<Located>)
    ensures RowsOf(c.node, items)
    ensures forall e :: e in items <==> e in Desc(c.node, c.anc) && Matches(Row, e)
    ensures ListsMatches(items, Desc(c.node, c.anc), [Row])
  {
    var items := SelectAll(c.node, c.anc, [Row]);
    DescValid(c.node, c.anc);
    SelectAllInOrder(c.node, c.anc, [Row]);
    assert forall e :: MatchesAny([Row], e) <==> Matches(Row, e) by {
      assert [Row][0] == Row;
    }
    items
  }

  /** The scraper's result for page `doc`. */
  function Scrape(doc: Node): (o: Outcome)
    ensures o.NotFound? <==> MainContent(doc).Missing?
    ensures MainContent(doc).SelfAppend? ==> o == Raised("ValueError")
    ensures StoryPage(doc) && TreeOf(doc).Some? && TreeOf(doc).value.path == FatOf(doc).value.path
      ==> o == Raised("ValueError")
  {
    match MainContent(doc)
    case Missing => NotFound
    case SelfAppend => Raised("ValueError")
    case CyclicAppend => Cyclic
    case _ =>
      var c := Container(doc).value;
      match CollectFrom(c.node, Items(c), 0, [])
      case Crashed(e) => Raised(e)
      case Records(rs) => Text(Join("\n", rs))
  }

  /** Once a container is found, the scrape ends with the first exception an item raises, or else
      returns the records of the post and comment rows, in document order, one per line group. */
  lemma ScrapeSpec(doc: Node)
    requires Container(doc).Some?
    ensures var c := Container(doc).value;
      match FirstRaise(c.node, Items(c), 0)
      case Some(j) => Scrape(doc) == Raised(Classify(c.node, Items(c)[j]).error)
      case None => Scrape(doc) == Text(Join("\n", Emitted(c.node, Items(c), 0)))
  {
    var c := Container(doc).value;
    CollectSpec(c.node, Items(c), 0, []);
    assert [] + Emitted(c.node, Items(c), 0) == Emitted(c.node, Items(c), 0);
  }

  /** The scraping function from the moment the page source is parsed. */
  method ScrapeHackerNews(doc: Node) returns (o: Outcome)
    ensures o == Scrape(doc)
  {
    var soup := new Soup(doc);
    var found := FindMainContent(soup);
    match found
    case Missing =>
      return NotFound;
    case SelfAppend =>
      return Raised("ValueError");
    case CyclicAppend =>
      return Cyclic;
    case _ =>
    var c := Container(doc).value;
    var content := c.(node := At(soup.root, c.path));
    var collected := CollectItems(content.node, Items(content));
    match collected
    case Crashed(e) =>
      return Raised(e);
    case Records(rs) =>
      return Text(Join("\n", rs));
  }
}

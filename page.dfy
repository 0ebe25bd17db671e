/** The `BeautifulSoup` object a scraper builds from the page source. `find_main_content` changes it in
    place, so whatever the scraper reads from the page afterwards (title, author, date) sees the
    clean-up passes' effect. */
module Page {
  import opened Dom
  import opened Pruning

  class Soup {
    /** The document; its element stands for the `BeautifulSoup` object itself. */
    var root: Node

    constructor (doc: Node)
      ensures root == doc
    {
      root := doc;
    }

    /** One clean-up pass, run on the element at `at` in place. */
    method CleanUp(at: Path, r: Rule)
      requires ValidPath(root, at) && Stable(r)
      modifies this
      ensures ValidPath(root, at) && At(root, at) == Prune(At(old(root), at), r)
      ensures root == ReplaceAt(old(root), at, Prune(At(old(root), at), r))
    {
      var m := DecomposeMatches(At(root, at), r);
      AtReplaceAt(root, at, m);
      root := ReplaceAt(root, at, m);
    }

    /** `tag.append(other)` for the element `tag` at `to` and the element `other` at `from`. */
    method Append(to: Path, from: Path)
      requires ValidPath(root, to) && ValidPath(root, from) && from != [] && !(from <= to)
      requires At(root, to).Element?
      modifies this
      ensures root == Moved(old(root), to, from)
    {
      root := Moved(root, to, from);
    }
  }
}

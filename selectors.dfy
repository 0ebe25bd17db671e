/** The part of CSS selector and BeautifulSoup search semantics the scrapers use: compound selectors
    (tag, `.class`, `#id`, `[attr]`, `[attr="v"]`), the descendant combinator, comma groups, and
    `select_one` / `select` / `find` / `find_all` over the descendants of a search root. */
module Selectors {
  import opened Wrappers
  import opened Dom
  import opened Strings

  datatype Clause =
    | TagIs(tag: string)
    | HasClass(name: string)
    | IdIs(id: string)
    | HasAttr(attr: string)
    | AttrEquals(attr: string, value: string)

  /** All clauses must hold of one element: `div.content`, `time[datetime]`, `.score.unvoted`. */
  type Compound = seq<Clause>

  /** `A` or `A B` (some ancestor matches `A`, the element matches `B`). As in soupsieve, the ancestor may
      lie above the element the search starts from. */
  datatype Selector = Simple(self: Compound) | Descendant(outer: Compound, self: Compound)

  /** A comma-separated selector list, or the list of names given to `find` / `find_all`. */
  type Group = seq<Selector>

  predicate ClauseHolds(c: Clause, l: Label) {
    match c
    case TagIs(t) => l.tag == t
    case HasClass(k) => k in l.classes
    case IdIs(v) => "id" in l.attrs && l.attrs["id"] == v
    case HasAttr(a) => a in l.attrs
    case AttrEquals(a, v) => a in l.attrs && l.attrs[a] == v
  }

  predicate CompoundHolds(c: Compound, l: Label) {
    forall i :: 0 <= i < |c| ==> ClauseHolds(c[i], l)
  }

  predicate Matches(s: Selector, e: Located) {
    e.node.Element? && CompoundHolds(s.self, e.node.lab)
    && (s.Descendant? ==> exists k :: 0 <= k < |e.anc| && CompoundHolds(s.outer, e.anc[k]))
  }

  predicate MatchesAny(g: Group, e: Located) {
    exists i :: 0 <= i < |g| && Matches(g[i], e)
  }

  /** Single names, as passed to `find('h1')` or `find_all(['p', 'h2'])`. */
  function Tags(names: seq<string>): (g: Group)
    ensures |g| == |names|
    ensures forall e: Located :: MatchesAny(g, e) <==> e.node.Element? && e.node.lab.tag in names
  {
    var g := seq(|names|, i requires 0 <= i < |names| => Simple([TagIs(names[i])]));
    forall e: Located ensures MatchesAny(g, e) <==> e.node.Element? && e.node.lab.tag in names {
      if MatchesAny(g, e) {
        var i :| 0 <= i < |g| && Matches(g[i], e);
        assert ClauseHolds(g[i].self[0], e.node.lab);
      }
      if e.node.Element? && e.node.lab.tag in names {
        var i :| 0 <= i < |names| && names[i] == e.node.lab.tag;
        assert Matches(g[i], e);
      }
    }
    g
  }

  /** `.a, .b, ...` for a list of class names. */
  function Classes(names: seq<string>): (g: Group)
    ensures |g| == |names|
    ensures forall e: Located :: MatchesAny(g, e) <==>
      (e.node.Element? && exists i :: 0 <= i < |names| && names[i] in e.node.lab.classes)
  {
    var g := seq(|names|, i requires 0 <= i < |names| => Simple([HasClass(names[i])]));
    forall e: Located
      ensures MatchesAny(g, e) <==> (e.node.Element? && exists i :: 0 <= i < |names| && names[i] in e.node.lab.classes)
    {
      if MatchesAny(g, e) {
        var i :| 0 <= i < |g| && Matches(g[i], e);
        assert ClauseHolds(g[i].self[0], e.node.lab);
      }
      if e.node.Element? && exists i :: 0 <= i < |names| && names[i] in e.node.lab.classes {
        var i :| 0 <= i < |names| && names[i] in e.node.lab.classes;
        assert Matches(g[i], e);
      }
    }
    g
  }

  /** Index of the first entry at or after `from` that the group matches. */
  function FirstMatch(es: seq<Located>, g: Group, from: nat): (r: Option<nat>)
    requires from <= |es|
    ensures r.None? <==> forall k :: from <= k < |es| ==> !MatchesAny(g, es[k])
    ensures r.Some? ==> from <= r.value < |es| && MatchesAny(g, es[r.value])
    ensures r.Some? ==> forall k :: from <= k < r.value ==> !MatchesAny(g, es[k])
    decreases |es| - from
  {
    if from == |es| then None
    else if MatchesAny(g, es[from]) then Some(from)
    else FirstMatch(es, g, from + 1)
  }

  /** `root.select_one(g)` (also `root.find(...)`): the first descendant in document order that any member of
      the group matches, or nothing when none does. */
  function SelectOne(root: Node, anc: seq<Label>, g: Group): (r: Option<Located>)
    ensures r.None? <==> forall e | e in Desc(root, anc) :: !MatchesAny(g, e)
    ensures r.Some? ==> exists k :: (0 <= k < |Desc(root, anc)| && Desc(root, anc)[k] == r.value
      && MatchesAny(g, r.value) && forall j :: 0 <= j < k ==> !MatchesAny(g, Desc(root, anc)[j]))
  {
    var es := Desc(root, anc);
    match FirstMatch(es, g, 0)
    case None => None
    case Some(k) => Some(es[k])
  }

  function Filter(es: seq<Located>, g: Group): (r: seq<Located>)
    ensures |r| <= |es|
    ensures forall e :: e in r <==> e in es && MatchesAny(g, e)
  {
    if es == [] then []
    else (if MatchesAny(g, es[0]) then [es[0]] else []) + Filter(es[1..], g)
  }

  lemma {:induction false} FilterAppend(a: seq<Located>, b: seq<Located>, g: Group)
    ensures Filter(a + b, g) == Filter(a, g) + Filter(b, g)
  {
    if a == [] {
      assert a + b == b;
    } else {
      assert (a + b)[0] == a[0];
      assert (a + b)[1..] == a[1..] + b;
      FilterAppend(a[1..], b, g);
    }
  }

  /** The indices, from `from` on, of the entries the group matches, in increasing order. */
  function MatchIndices(es: seq<Located>, g: Group, from: nat): (idx: seq<nat>)
    requires from <= |es|
    ensures forall k :: 0 <= k < |idx| ==> from <= idx[k] < |es| && MatchesAny(g, es[idx[k]])
    ensures forall k, l :: 0 <= k < l < |idx| ==> idx[k] < idx[l]
    ensures forall j :: from <= j < |es| && MatchesAny(g, es[j]) ==> j in idx
    decreases |es| - from
  {
    if from == |es| then []
    else (if MatchesAny(g, es[from]) then [from] else []) + MatchIndices(es, g, from + 1)
  }

  /** Entry `k` of `r` is entry `idx[k]` of `es`. */
  predicate Picks(r: seq<Located>, es: seq<Located>, idx: seq<nat>) {
    |r| == |idx| && forall k :: 0 <= k < |r| ==> idx[k] < |es| && r[k] == es[idx[k]]
  }

  /** `r` lists the entries of `es` that the group matches, each once, in the order of `es`. */
  predicate ListsMatches(r: seq<Located>, es: seq<Located>, g: Group) {
    Picks(r, es, MatchIndices(es, g, 0))
  }

  lemma PicksCons(r: seq<Located>, es: seq<Located>, idx: seq<nat>, i: nat)
    requires Picks(r, es, idx) && i < |es|
    ensures Picks([es[i]] + r, es, [i] + idx)
  {
    var r1, idx1 := [es[i]] + r, [i] + idx;
    forall k | 0 <= k < |r1| ensures idx1[k] < |es| && r1[k] == es[idx1[k]] {
      if k > 0 {
        assert r1[k] == r[k - 1] && idx1[k] == idx[k - 1];
      }
    }
  }

  lemma {:induction false} FilterFrom(es: seq<Located>, g: Group, from: nat)
    requires from <= |es|
    ensures Picks(Filter(es[from..], g), es, MatchIndices(es, g, from))
    decreases |es| - from
  {
    if from < |es| {
      var t := es[from..];
      assert t[0] == es[from] && t[1..] == es[from + 1..];
      var r', idx' := Filter(es[from + 1..], g), MatchIndices(es, g, from + 1);
      FilterFrom(es, g, from + 1);
      if MatchesAny(g, es[from]) {
        assert Filter(t, g) == [es[from]] + r';
        assert MatchIndices(es, g, from) == [from] + idx';
        PicksCons(r', es, idx', from);
      } else {
        assert Filter(t, g) == [] + r' == r';
        assert MatchIndices(es, g, from) == [] + idx' == idx';
      }
    }
  }

  /** `root.select(g)` / `root.find_all(...)`: the matching descendants, in document order. */
  function SelectAll(root: Node, anc: seq<Label>, g: Group): (r: seq<Located>)
    ensures forall e :: e in r <==> e in Desc(root, anc) && MatchesAny(g, e)
  {
    Filter(Desc(root, anc), g)
  }

  /** `select` lists every matching descendant once, in document order. */
  lemma SelectAllInOrder(root: Node, anc: seq<Label>, g: Group)
    ensures ListsMatches(SelectAll(root, anc, g), Desc(root, anc), g)
  {
    var es := Desc(root, anc);
    FilterFrom(es, g, 0);
    assert es[0..] == es;
  }

  /** `select_one` finds something exactly when `select` does, and it is the first of what `select` finds. */
  lemma {:induction false} SelectOneIsFirstOfAll(es: seq<Located>, g: Group, from: nat)
    requires from <= |es|
    ensures FirstMatch(es, g, from).None? <==> Filter(es[from..], g) == []
    ensures FirstMatch(es, g, from).Some? ==> Filter(es[from..], g)[0] == es[FirstMatch(es, g, from).value]
    decreases |es| - from
  {
    if from < |es| {
      assert es[from..] == [es[from]] + es[from + 1..];
      FilterAppend([es[from]], es[from + 1..], g);
      assert Filter([es[from]], g) == (if MatchesAny(g, es[from]) then [es[from]] else []) + Filter([], g);
      SelectOneIsFirstOfAll(es, g, from + 1);
    }
  }

  lemma SelectOneSelectAll(root: Node, anc: seq<Label>, g: Group)
    ensures SelectOne(root, anc, g).None? <==> SelectAll(root, anc, g) == []
    ensures SelectOne(root, anc, g).Some? ==> SelectOne(root, anc, g).value == SelectAll(root, anc, g)[0]
  {
    var es := Desc(root, anc);
    SelectOneIsFirstOfAll(es, g, 0);
    assert es[0..] == es;
  }

  /** `element.find_parent(names)` is not None: some ancestor, up to the document itself, has one of the tags. */
  predicate HasAncestorTag(e: Located, names: seq<string>) {
    exists k :: 0 <= k < |e.anc| && e.anc[k].tag in names
  }

  /** `any(cls in element.get('class', []) for cls in names)` */
  predicate HasAnyClass(e: Located, names: seq<string>) {
    e.node.Element? && exists i :: 0 <= i < |names| && names[i] in e.node.lab.classes
  }

  /** `extract_text(x) if x else missing`, for the result `x` of a search. */
  function TextOr(x: Option<Located>, missing: string): (r: string)
    ensures x.None? ==> r == missing
    ensures x.Some? ==> Trimmed(r)
  {
    if x.Some? then ExtractTextTrimmed(x.value.node); ExtractText(x.value.node) else missing
  }

  /** What `select_one` returns lies below the search root, at the path it records. */
  lemma FoundAt(root: Node, anc: seq<Label>, g: Group)
    requires SelectOne(root, anc, g).Some?
    ensures var c := SelectOne(root, anc, g).value;
      ValidPath(root, c.path) && At(root, c.path) == c.node && c.node.Element? && c.path != []
  {
    DescValid(root, anc);
  }
}

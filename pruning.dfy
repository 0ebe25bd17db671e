/** The clean-up passes every `find_main_content` runs on the container it found: decompose whatever an
    unwanted-class (or tag) selector matches, and decompose paragraphs (and divs) whose text is blank.
    `Prune` is the net effect of one pass on a tree, and `DecomposeMatches` the pass as a loop that keeps
    taking out the first element the rule still hits. */
module Pruning {
  import opened Wrappers
  import opened Dom
  import opened Selectors

  datatype Rule =
      /** `for e in content.select('.a, .b, ...'): e.decompose()` (also `content(['script', ...])`) */
    | Unwanted(group: seq<Compound>)
      /** `for e in content.find_all(tags): if not e.text.strip() [and not e.find_all(['img', 'video'])]: e.decompose()` */
    | BlankElements(tags: set<string>, keepMedia: bool)

  /** The elements the pass decomposes, as decided on the element itself. */
  predicate Hits(r: Rule, n: Node) {
    n.Element? &&
    match r
    case Unwanted(g) => exists i :: 0 <= i < |g| && CompoundHolds(g[i], n.lab)
    case BlankElements(t, km) => n.lab.tag in t && Blank(n) && !(km && HasMedia(n))
  }

  /** A blank-element pass targets no string container, and a media-keeping one no media tag (true of every
      pass in the scrapers); this is what makes the outcome independent of the order in which the hits are
      taken out. */
  predicate Stable(r: Rule) {
    r.BlankElements? ==> r.tags !! StringContainers && (r.keepMedia ==> "img" !in r.tags && "video" !in r.tags)
  }

  /** The rule for `.name` selectors over a list of class names. */
  function ClassRule(names: seq<string>): (r: Rule)
    ensures r.Unwanted? && Stable(r)
    ensures forall n: Node :: Hits(r, n) <==> n.Element? && exists i :: 0 <= i < |names| && names[i] in n.lab.classes
  {
    var g := seq(|names|, i requires 0 <= i < |names| => [HasClass(names[i])]);
    forall n: Node ensures Hits(Unwanted(g), n) <==> n.Element? && exists i :: 0 <= i < |names| && names[i] in n.lab.classes {
      if Hits(Unwanted(g), n) {
        var i :| 0 <= i < |g| && CompoundHolds(g[i], n.lab);
        assert ClauseHolds(g[i][0], n.lab);
      }
      if n.Element? && exists i :: 0 <= i < |names| && names[i] in n.lab.classes {
        var i :| 0 <= i < |names| && names[i] in n.lab.classes;
        assert CompoundHolds(g[i], n.lab);
      }
    }
    Unwanted(g)
  }

  /** The rule for bare tag-name selectors. */
  function TagRule(names: seq<string>): (r: Rule)
    ensures r.Unwanted? && Stable(r)
    ensures forall n: Node :: Hits(r, n) <==> n.Element? && n.lab.tag in names
  {
    var g := seq(|names|, i requires 0 <= i < |names| => [TagIs(names[i])]);
    assert forall n: Node :: Hits(Unwanted(g), n) ==> n.Element? && n.lab.tag in names by {
      forall n: Node | Hits(Unwanted(g), n) ensures n.lab.tag in names {
        var i :| 0 <= i < |g| && CompoundHolds(g[i], n.lab);
        assert ClauseHolds(g[i][0], n.lab);
      }
    }
    assert forall n: Node :: n.Element? && n.lab.tag in names ==> Hits(Unwanted(g), n) by {
      forall n: Node | n.Element? && n.lab.tag in names ensures Hits(Unwanted(g), n) {
        var i :| 0 <= i < |names| && names[i] == n.lab.tag;
        assert CompoundHolds(g[i], n.lab);
      }
    }
    Unwanted(g)
  }

  /** The tree after one pass: every hit below the root is gone together with everything inside it. The
      root itself is never a candidate, because `select` and `find_all` only look below it. */
  function Prune(n: Node, r: Rule): (m: Node)
    ensures m.Element? == n.Element? && (n.Element? ==> m.lab == n.lab)
    decreases n, 1
  {
    match n
    case TextNode(_) => n
    case Element(l, cs) => Element(l, PruneF(cs, r))
  }

  function PruneF(cs: seq<Node>, r: Rule): seq<Node>
    decreases cs, 0
  {
    if cs == [] then [] else (if Hits(r, cs[0]) then [] else [Prune(cs[0], r)]) + PruneF(cs[1..], r)
  }

  lemma PruneFSingle(c: Node, r: Rule)
    ensures PruneF([c], r) == if Hits(r, c) then [] else [Prune(c, r)]
  {
    assert [c][1..] == [];
  }

  lemma {:induction false} PruneFAppend(a: seq<Node>, b: seq<Node>, r: Rule)
    ensures PruneF(a + b, r) == PruneF(a, r) + PruneF(b, r)
  {
    if a == [] {
      assert a + b == b;
    } else {
      var h := if Hits(r, a[0]) then [] else [Prune(a[0], r)];
      calc {
        PruneF(a + b, r);
        == { assert (a + b)[0] == a[0]; assert (a + b)[1..] == a[1..] + b; }
        h + PruneF(a[1..] + b, r);
        == { PruneFAppend(a[1..], b, r); }
        h + (PruneF(a[1..], r) + PruneF(b, r));
        ==
        PruneF(a, r) + PruneF(b, r);
      }
    }
  }

  predicate AnyMedia(cs: seq<Node>) {
    exists i :: 0 <= i < |cs| && MediaOrHasMedia(cs[i])
  }

  lemma AllBlankAsAppend(a: seq<Node>, b: seq<Node>, want: StringKind, k: StringKind)
    ensures AllBlankAs(a + b, want, k) <==> AllBlankAs(a, want, k) && AllBlankAs(b, want, k)
  {
    if AllBlankAs(a + b, want, k) {
      forall i | 0 <= i < |b| ensures BlankAs(b[i], want, k) {
        assert (a + b)[|a| + i] == b[i];
      }
      forall i | 0 <= i < |a| ensures BlankAs(a[i], want, k) {
        assert (a + b)[i] == a[i];
      }
    }
  }

  lemma AnyMediaAppend(a: seq<Node>, b: seq<Node>)
    ensures AnyMedia(a + b) <==> AnyMedia(a) || AnyMedia(b)
  {
    if AnyMedia(a) {
      var i :| 0 <= i < |a| && MediaOrHasMedia(a[i]);
      assert (a + b)[i] == a[i];
    }
    if AnyMedia(b) {
      var i :| 0 <= i < |b| && MediaOrHasMedia(b[i]);
      assert (a + b)[|a| + i] == b[i];
    }
  }

  /** Inside a string container no string is plain, so there is no plain text to be blank or not. */
  lemma {:induction false} BlankOutside(n: Node, c: string)
    ensures BlankAs(n, Plain, Inside(c))
    decreases n
  {
    match n
    case TextNode(_) =>
    case Element(l, cs) =>
      var c' := if l.tag in StringContainers then l.tag else c;
      forall i | 0 <= i < |cs| ensures BlankAs(cs[i], Plain, Inside(c')) {
        BlankOutside(cs[i], c');
      }
  }

  lemma AllBlankOutside(cs: seq<Node>, c: string)
    ensures AllBlankAs(cs, Plain, Inside(c))
  {
    forall i | 0 <= i < |cs| ensures BlankAs(cs[i], Plain, Inside(c)) {
      BlankOutside(cs[i], c);
    }
  }

  /** A blank-element pass only removes elements whose plain text is blank, so it never changes whether the
      plain text of a tree is blank. */
  lemma {:induction false} BlankPrune(n: Node, r: Rule)
    requires r.BlankElements? && Stable(r)
    ensures BlankAs(Prune(n, r), Plain, Plain) == BlankAs(n, Plain, Plain)
    decreases n, 1
  {
    match n
    case TextNode(_) =>
    case Element(l, cs) =>
      if l.tag in StringContainers {
        AllBlankOutside(cs, l.tag);
        AllBlankOutside(PruneF(cs, r), l.tag);
      } else {
        BlankPruneF(cs, r);
      }
  }

  lemma {:induction false} BlankPruneF(cs: seq<Node>, r: Rule)
    requires r.BlankElements? && Stable(r)
    ensures AllBlankAs(PruneF(cs, r), Plain, Plain) == AllBlankAs(cs, Plain, Plain)
    decreases cs, 0
  {
    if cs != [] {
      BlankPrune(cs[0], r);
      BlankPruneF(cs[1..], r);
      var h := if Hits(r, cs[0]) then [] else [Prune(cs[0], r)];
      assert PruneF(cs, r) == h + PruneF(cs[1..], r);
      AllBlankAsAppend(h, PruneF(cs[1..], r), Plain, Plain);
      AllBlankAsCons(cs, Plain, Plain);
      if Hits(r, cs[0]) {
        assert Own(cs[0]) == Plain;
      } else {
        assert h == [Prune(cs[0], r)];
        assert AllBlankAs(h, Plain, Plain) == BlankAs(h[0], Plain, Plain);
      }
    }
  }

  /** A pass that keeps media never removes an image or a video, so it never changes whether a tree has one. */
  lemma {:induction false} MediaPrune(n: Node, r: Rule)
    requires r.BlankElements? && r.keepMedia && Stable(r)
    ensures HasMedia(Prune(n, r)) == HasMedia(n)
    decreases n, 1
  {
    match n
    case TextNode(_) =>
    case Element(l, cs) =>
      MediaPruneF(cs, r);
      assert HasMedia(n) == AnyMedia(cs);
      assert HasMedia(Prune(n, r)) == AnyMedia(PruneF(cs, r));
  }

  lemma {:induction false} MediaPruneF(cs: seq<Node>, r: Rule)
    requires r.BlankElements? && r.keepMedia && Stable(r)
    ensures AnyMedia(PruneF(cs, r)) == AnyMedia(cs)
    decreases cs, 0
  {
    if cs != [] {
      MediaPrune(cs[0], r);
      MediaPruneF(cs[1..], r);
      var h := if Hits(r, cs[0]) then [] else [Prune(cs[0], r)];
      assert PruneF(cs, r) == h + PruneF(cs[1..], r);
      AnyMediaAppend(h, PruneF(cs[1..], r));
      assert cs == [cs[0]] + cs[1..];
      AnyMediaAppend([cs[0]], cs[1..]);
      if Hits(r, cs[0]) {
        assert !MediaOrHasMedia(cs[0]);
        assert !AnyMedia([cs[0]]);
      } else {
        assert MediaOrHasMedia(Prune(cs[0], r)) == MediaOrHasMedia(cs[0]);
        assert AnyMedia(h) == MediaOrHasMedia(h[0]);
        assert AnyMedia([cs[0]]) == MediaOrHasMedia(cs[0]);
      }
    }
  }

  /** Whether the pass targets an element does not depend on the pass having run inside it already. */
  lemma HitsPrune(r: Rule, x: Node)
    requires Stable(r)
    ensures Hits(r, Prune(x, r)) == Hits(r, x)
  {
    if r.BlankElements? && x.Element? && x.lab.tag in r.tags {
      assert Own(x) == Plain && Own(Prune(x, r)) == Plain;
      BlankPrune(x, r);
      if r.keepMedia {
        MediaPrune(x, r);
      }
    }
  }

  /** `e` is one of the elements of `es` that the pass kept, with the pass applied inside it. */
  predicate ComesFrom(es: seq<Located>, r: Rule, e: Located) {
    exists o :: o in es && !Hits(r, o.node) && e.node == Prune(o.node, r) && e.anc == o.anc
  }

  /** Every element left after the pass is an element of the original tree that the rule does not hit,
      with the same ancestors. */
  lemma {:induction false} PruneDescFrom(n: Node, r: Rule, anc: seq<Label>)
    ensures forall e | e in Desc(Prune(n, r), anc) :: ComesFrom(Desc(n, anc), r, e)
    decreases n, 1
  {
    if n.Element? {
      PruneDescFromF(n.children, r, 0, 0, anc + [n.lab]);
    }
  }

  lemma {:induction false} PruneDescFromF(cs: seq<Node>, r: Rule, base: nat, base': nat, anc: seq<Label>)
    ensures forall e | e in DescF(PruneF(cs, r), base', anc) :: ComesFrom(DescF(cs, base, anc), r, e)
    decreases cs, 1
  {
    if cs != [] {
      var c := cs[0];
      var h := if Hits(r, c) then [] else [Prune(c, r)];
      var rest := PruneF(cs[1..], r);
      assert PruneF(cs, r) == h + rest;
      DescFAppend(h, rest, base', anc);
      PruneDescFromF(cs[1..], r, base + 1, base' + |h|, anc);
      forall e | e in DescF(PruneF(cs, r), base', anc) ensures ComesFrom(DescF(cs, base, anc), r, e) {
        if e in DescF(rest, base' + |h|, anc) {
          ComesFromTail(cs, r, base, anc, e);
        } else {
          assert e in DescF(h, base', anc);
          assert h == [Prune(c, r)];
          assert DescF(h, base', anc) == Entry(Prune(c, r), base', anc) + DescF([], base' + 1, anc);
          ComesFromHead(cs, r, base, base', anc, e);
        }
      }
    }
  }

  lemma ComesFromTail(cs: seq<Node>, r: Rule, base: nat, anc: seq<Label>, e: Located)
    requires cs != [] && ComesFrom(DescF(cs[1..], base + 1, anc), r, e)
    ensures ComesFrom(DescF(cs, base, anc), r, e)
  {
    var o :| o in DescF(cs[1..], base + 1, anc) && !Hits(r, o.node) && e.node == Prune(o.node, r) && e.anc == o.anc;
    DescFTail(cs, base, anc, o);
  }

  /** An element that the pass left in the first tree comes from that tree. */
  lemma {:induction false} ComesFromHead(cs: seq<Node>, r: Rule, base: nat, base': nat, anc: seq<Label>, e: Located)
    requires cs != [] && !Hits(r, cs[0]) && e in Entry(Prune(cs[0], r), base', anc)
    ensures ComesFrom(DescF(cs, base, anc), r, e)
    decreases cs, 0
  {
    var c := cs[0];
    assert c.Element?;
    if e == Located([base'], Prune(c, r), anc) {
      DescFHead(cs, base, anc, Located([base], c, anc));
    } else {
      var lifted := Lift(base', Desc(Prune(c, r), anc));
      assert e in lifted;
      var k :| 0 <= k < |lifted| && lifted[k] == e;
      var d := Desc(Prune(c, r), anc)[k];
      assert d in Desc(Prune(c, r), anc);
      PruneDescFrom(c, r, anc);
      var o :| o in Desc(c, anc) && !Hits(r, o.node) && d.node == Prune(o.node, r) && d.anc == o.anc;
      EntryLifted(c, base, anc, o);
      DescFHead(cs, base, anc, o.(path := [base] + o.path));
    }
  }

  /** No element below the search root is hit by the rule. */
  predicate NoHits(es: seq<Located>, r: Rule) {
    forall e | e in es :: !Hits(r, e.node)
  }

  lemma {:induction false} PruneFKeeps(cs: seq<Node>, r: Rule)
    requires forall i :: 0 <= i < |cs| ==> !Hits(r, cs[i]) && Prune(cs[i], r) == cs[i]
    ensures PruneF(cs, r) == cs
  {
    if cs != [] {
      PruneFKeeps(cs[1..], r);
      assert cs == [cs[0]] + cs[1..];
    }
  }

  /** A pass with nothing to hit leaves the tree as it is. */
  lemma {:induction false} PruneNoHit(n: Node, r: Rule, anc: seq<Label>)
    requires NoHits(Desc(n, anc), r)
    ensures Prune(n, r) == n
    decreases n
  {
    if n.Element? {
      var cs := n.children;
      forall i | 0 <= i < |cs| ensures !Hits(r, cs[i]) && Prune(cs[i], r) == cs[i] {
        if cs[i].Element? {
          DescContains(n, anc, i);
          forall d | d in Desc(cs[i], anc + [n.lab]) ensures !Hits(r, d.node) {
            assert d.(path := [i] + d.path) in Desc(n, anc);
          }
          PruneNoHit(cs[i], r, anc + [n.lab]);
        }
      }
      PruneFKeeps(cs, r);
    }
  }

  /** After the pass nothing that the rule hits is left below the root. */
  lemma PruneClean(n: Node, r: Rule, anc: seq<Label>)
    requires Stable(r)
    ensures NoHits(Desc(Prune(n, r), anc), r)
  {
    PruneDescFrom(n, r, anc);
    forall e | e in Desc(Prune(n, r), anc) ensures !Hits(r, e.node) {
      var o :| o in Desc(n, anc) && !Hits(r, o.node) && e.node == Prune(o.node, r) && e.anc == o.anc;
      HitsPrune(r, o.node);
    }
  }

  /** Running a pass a second time changes nothing. */
  lemma PruneIdempotent(n: Node, r: Rule)
    requires Stable(r)
    ensures Prune(Prune(n, r), r) == Prune(n, r)
  {
    PruneClean(n, r, []);
    PruneNoHit(Prune(n, r), r, []);
  }

  /** A later pass cannot bring back an element that a class or tag pass removed. */
  lemma LabelRuleKept(m: Node, r: Rule, u: Rule, anc: seq<Label>)
    requires u.Unwanted? && NoHits(Desc(m, anc), u)
    ensures NoHits(Desc(Prune(m, r), anc), u)
  {
    PruneDescFrom(m, r, anc);
    forall e | e in Desc(Prune(m, r), anc) ensures !Hits(u, e.node) {
      var o :| o in Desc(m, anc) && !Hits(r, o.node) && e.node == Prune(o.node, r) && e.anc == o.anc;
      assert !Hits(u, o.node);
    }
  }

  /** Taking out an ordinary element with blank text does not change whether the plain text around it is
      blank. */
  lemma {:induction false} BlankRemove(x: Node, p: Path)
    requires ValidPath(x, p) && p != [] && At(x, p).Element? && Own(At(x, p)) == Plain && Blank(At(x, p))
    ensures BlankAs(RemoveAt(x, p), Plain, Plain) == BlankAs(x, Plain, Plain)
    decreases p
  {
    var cs, i := x.children, p[0];
    assert At(x, p) == At(cs[i], p[1..]);
    var cs' := RemoveAt(x, p).children;
    if x.lab.tag in StringContainers {
      AllBlankOutside(cs, x.lab.tag);
      AllBlankOutside(cs', x.lab.tag);
    } else if |p| == 1 {
      assert cs' == cs[..i] + cs[i + 1..];
      assert BlankAs(cs[i], Plain, Plain);
      assert cs == cs[..i] + [cs[i]] + cs[i + 1..];
      AllBlankAsAppend(cs[..i] + [cs[i]], cs[i + 1..], Plain, Plain);
      AllBlankAsAppend(cs[..i], [cs[i]], Plain, Plain);
      AllBlankAsAppend(cs[..i], cs[i + 1..], Plain, Plain);
      assert AllBlankAs([cs[i]], Plain, Plain);
    } else {
      BlankRemove(cs[i], p[1..]);
      assert cs' == cs[i := RemoveAt(cs[i], p[1..])];
      if AllBlankAs(cs', Plain, Plain) {
        forall j | 0 <= j < |cs| ensures BlankAs(cs[j], Plain, Plain) {
          if j != i {
            assert cs[j] == cs'[j];
          } else {
            assert cs'[i] == RemoveAt(cs[i], p[1..]);
          }
        }
      }
      if AllBlankAs(cs, Plain, Plain) {
        forall j | 0 <= j < |cs'| ensures BlankAs(cs'[j], Plain, Plain) {
          if j != i {
            assert cs'[j] == cs[j];
          }
        }
      }
    }
  }

  lemma {:induction false} MediaRemove(x: Node, p: Path)
    requires ValidPath(x, p) && p != [] && !MediaOrHasMedia(At(x, p))
    ensures HasMedia(RemoveAt(x, p)) == HasMedia(x)
    decreases p
  {
    var cs, i := x.children, p[0];
    assert At(x, p) == At(cs[i], p[1..]);
    if |p| == 1 {
      var cs' := cs[..i] + cs[i + 1..];
      assert cs == cs[..i] + [cs[i]] + cs[i + 1..];
      AnyMediaAppend(cs[..i], cs[i + 1..]);
      AnyMediaAppend(cs[..i] + [cs[i]], cs[i + 1..]);
      AnyMediaAppend(cs[..i], [cs[i]]);
      assert !AnyMedia([cs[i]]);
      assert HasMedia(RemoveAt(x, p)) == AnyMedia(cs');
      assert HasMedia(x) == AnyMedia(cs);
    } else {
      var c' := RemoveAt(cs[i], p[1..]);
      MediaRemove(cs[i], p[1..]);
      assert MediaOrHasMedia(c') == MediaOrHasMedia(cs[i]);
      var cs' := cs[i := c'];
      assert HasMedia(RemoveAt(x, p)) == AnyMedia(cs');
      assert HasMedia(x) == AnyMedia(cs);
      if AnyMedia(cs) {
        var j :| 0 <= j < |cs| && MediaOrHasMedia(cs[j]);
        assert MediaOrHasMedia(cs'[j]);
      }
      if AnyMedia(cs') {
        var j :| 0 <= j < |cs'| && MediaOrHasMedia(cs'[j]);
        assert MediaOrHasMedia(cs[j]);
      }
    }
  }

  /** Taking out one hit does not change whether an enclosing element is hit. */
  lemma HitsRemove(r: Rule, x: Node, p: Path)
    requires Stable(r) && ValidPath(x, p) && p != [] && Hits(r, At(x, p))
    ensures Hits(r, RemoveAt(x, p)) == Hits(r, x)
  {
    if r.BlankElements? {
      assert Own(At(x, p)) == Plain;
      BlankRemove(x, p);
      if x.lab.tag in r.tags {
        assert Own(x) == Plain && Own(RemoveAt(x, p)) == Plain;
      }
      if r.keepMedia {
        MediaRemove(x, p);
      }
    }
  }

  lemma PruneFAround(pre: seq<Node>, c: Node, post: seq<Node>, r: Rule)
    ensures PruneF(pre + [c] + post, r) == PruneF(pre, r) + PruneF([c], r) + PruneF(post, r)
  {
    PruneFAppend(pre + [c], post, r);
    PruneFAppend(pre, [c], r);
  }

  lemma PruneFDrop(cs: seq<Node>, i: nat, r: Rule)
    requires i < |cs| && Hits(r, cs[i])
    ensures PruneF(cs[..i] + cs[i + 1..], r) == PruneF(cs, r)
  {
    var pre, post := cs[..i], cs[i + 1..];
    calc {
      PruneF(cs, r);
      == { assert cs == pre + [cs[i]] + post; }
      PruneF(pre + [cs[i]] + post, r);
      == { PruneFAround(pre, cs[i], post, r); PruneFSingle(cs[i], r); }
      PruneF(pre, r) + PruneF(post, r);
      == { PruneFAppend(pre, post, r); }
      PruneF(pre + post, r);
    }
  }

  lemma PruneFReplace(cs: seq<Node>, i: nat, c: Node, r: Rule)
    requires i < |cs| && Hits(r, c) == Hits(r, cs[i]) && Prune(c, r) == Prune(cs[i], r)
    ensures PruneF(cs[i := c], r) == PruneF(cs, r)
  {
    var pre, post := cs[..i], cs[i + 1..];
    calc {
      PruneF(cs[i := c], r);
      == { assert cs[i := c] == pre + [c] + post; }
      PruneF(pre + [c] + post, r);
      == { PruneFAround(pre, c, post, r); }
      PruneF(pre, r) + PruneF([c], r) + PruneF(post, r);
      == { PruneFSingle(c, r); PruneFSingle(cs[i], r); }
      PruneF(pre, r) + PruneF([cs[i]], r) + PruneF(post, r);
      == { PruneFAround(pre, cs[i], post, r); assert cs == pre + [cs[i]] + post; }
      PruneF(cs, r);
    }
  }

  /** Taking out one hit before the pass runs does not change what the pass produces. */
  lemma {:induction false} PruneRemoveHit(n: Node, q: Path, r: Rule)
    requires Stable(r) && ValidPath(n, q) && q != [] && Hits(r, At(n, q))
    ensures Prune(RemoveAt(n, q), r) == Prune(n, r)
    decreases q
  {
    var cs, i := n.children, q[0];
    assert At(n, q) == At(cs[i], q[1..]);
    if |q| == 1 {
      PruneFDrop(cs, i, r);
    } else {
      var c' := RemoveAt(cs[i], q[1..]);
      PruneRemoveHit(cs[i], q[1..], r);
      HitsRemove(r, cs[i], q[1..]);
      PruneFReplace(cs, i, c', r);
    }
  }

  /** Index of the first entry at or after `from` that the rule hits. */
  function FirstHit(es: seq<Located>, r: Rule, from: nat): (k: Option<nat>)
    requires from <= |es|
    ensures k.None? <==> forall j :: from <= j < |es| ==> !Hits(r, es[j].node)
    ensures k.Some? ==> from <= k.value < |es| && Hits(r, es[k.value].node)
    ensures k.Some? ==> forall j :: from <= j < k.value ==> !Hits(r, es[j].node)
    decreases |es| - from
  {
    if from == |es| then None
    else if Hits(r, es[from].node) then Some(from)
    else FirstHit(es, r, from + 1)
  }

  /** One pass as the scrapers run it: decompose the hits below the root one after another, in document
      order, until none is left. Whatever order the hits are taken in, the result is `Prune`. */
  method DecomposeMatches(n: Node, r: Rule) returns (m: Node)
    requires Stable(r)
    ensures m == Prune(n, r)
  {
    m := n;
    while true
      invariant Prune(m, r) == Prune(n, r)
      decreases Size(m)
    {
      var es := Desc(m, []);
      var k := FirstHit(es, r, 0);
      if k.None? {
        forall e | e in es ensures !Hits(r, e.node) {
          var j :| 0 <= j < |es| && es[j] == e;
        }
        PruneNoHit(m, r, []);
        return;
      }
      DescValid(m, []);
      var e := es[k.value];
      assert e in es;
      PruneRemoveHit(m, e.path, r);
      RemoveAtSmaller(m, e.path);
      m := RemoveAt(m, e.path);
    }
  }

  /** The passes of one scraper, run one after another. */
  function PruneAll(n: Node, rules: seq<Rule>): Node
    decreases |rules|
  {
    if rules == [] then n else PruneAll(Prune(n, rules[0]), rules[1..])
  }

  lemma {:induction false} LabelRuleKeptAll(m: Node, rules: seq<Rule>, u: Rule, anc: seq<Label>)
    requires u.Unwanted? && NoHits(Desc(m, anc), u)
    ensures NoHits(Desc(PruneAll(m, rules), anc), u)
    decreases |rules|
  {
    if rules != [] {
      LabelRuleKept(m, rules[0], u, anc);
      LabelRuleKeptAll(Prune(m, rules[0]), rules[1..], u, anc);
    }
  }

  /** After all passes, nothing that a class or tag pass targets is left, nor anything the last pass targets. */
  lemma {:induction false} PruneAllClean(n: Node, rules: seq<Rule>, anc: seq<Label>, j: nat)
    requires j < |rules| && (rules[j].Unwanted? || j == |rules| - 1) && Stable(rules[j])
    ensures NoHits(Desc(PruneAll(n, rules), anc), rules[j])
    decreases |rules|
  {
    if j == 0 {
      PruneClean(n, rules[0], anc);
      if |rules| > 1 {
        LabelRuleKeptAll(Prune(n, rules[0]), rules[1..], rules[0], anc);
      } else {
        assert PruneAll(Prune(n, rules[0]), rules[1..]) == Prune(n, rules[0]);
      }
    } else {
      PruneAllClean(Prune(n, rules[0]), rules[1..], anc, j - 1);
    }
  }

  lemma {:induction false} PruneAllSnoc(n: Node, rules: seq<Rule>, r: Rule)
    ensures PruneAll(n, rules + [r]) == Prune(PruneAll(n, rules), r)
    decreases |rules|
  {
    if rules == [] {
      assert [] + [r] == [r];
      assert [r][1..] == [];
    } else {
      assert (rules + [r])[0] == rules[0];
      assert (rules + [r])[1..] == rules[1..] + [r];
      PruneAllSnoc(Prune(n, rules[0]), rules[1..], r);
    }
  }
}

module Wrappers {
  datatype Option<+T> = None | Some(value: T)
}

/** The parsed page as BeautifulSoup holds it: elements with a tag, a class list, the other attributes
    and ordered children, and text strings. A `Path` locates a node by child indices from a root; the
    document root itself stands for the `BeautifulSoup` object. */
module Dom {
  import opened Strings

  datatype Label = Label(tag: string, classes: seq<string>, attrs: map<string, string>)

  datatype Node = TextNode(text: string) | Element(lab: Label, children: seq<Node>)

  type Path = seq<nat>

  const MediaTags: set<string> := {"img", "video"}

  predicate ValidPath(n: Node, p: Path)
    decreases p
  {
    p == [] || (n.Element? && p[0] < |n.children| && ValidPath(n.children[p[0]], p[1..]))
  }

  /** The node that `p` leads to. */
  function At(n: Node, p: Path): Node
    requires ValidPath(n, p)
    decreases p
  {
    if p == [] then n else At(n.children[p[0]], p[1..])
  }

  /** `n` with the node at `p` replaced by `m`. */
  function ReplaceAt(n: Node, p: Path, m: Node): Node
    requires ValidPath(n, p)
    decreases p
  {
    if p == [] then m
    else Element(n.lab, n.children[p[0] := ReplaceAt(n.children[p[0]], p[1..], m)])
  }

  /** `n` with the node at `p` taken out of its parent's children: what `decompose()` does to the tree. */
  function RemoveAt(n: Node, p: Path): Node
    requires ValidPath(n, p) && p != []
    decreases p
  {
    var i := p[0];
    if |p| == 1 then Element(n.lab, n.children[..i] + n.children[i + 1..])
    else Element(n.lab, n.children[i := RemoveAt(n.children[i], p[1..])])
  }

  function Size(n: Node): nat {
    match n
    case TextNode(_) => 1
    case Element(_, cs) => 1 + SizeF(cs)
  }

  function SizeF(cs: seq<Node>): nat {
    if cs == [] then 0 else Size(cs[0]) + SizeF(cs[1..])
  }

  lemma {:induction false} SizeFAppend(a: seq<Node>, b: seq<Node>)
    ensures SizeF(a + b) == SizeF(a) + SizeF(b)
  {
    if a == [] {
      assert a + b == b;
    } else {
      assert (a + b)[0] == a[0];
      assert (a + b)[1..] == a[1..] + b;
      SizeFAppend(a[1..], b);
    }
  }

  lemma SizeFSplit(cs: seq<Node>, i: nat)
    requires i < |cs|
    ensures SizeF(cs) == SizeF(cs[..i]) + Size(cs[i]) + SizeF(cs[i + 1..])
  {
    assert cs == cs[..i] + ([cs[i]] + cs[i + 1..]);
    SizeFAppend(cs[..i], [cs[i]] + cs[i + 1..]);
    assert ([cs[i]] + cs[i + 1..])[1..] == cs[i + 1..];
  }

  /** Taking a node out makes the tree strictly smaller. */
  lemma {:induction false} RemoveAtSmaller(n: Node, p: Path)
    requires ValidPath(n, p) && p != []
    ensures Size(RemoveAt(n, p)) < Size(n)
    decreases p
  {
    var cs, i := n.children, p[0];
    SizeFSplit(cs, i);
    if |p| == 1 {
      SizeFAppend(cs[..i], cs[i + 1..]);
    } else {
      var cs' := cs[i := RemoveAt(cs[i], p[1..])];
      RemoveAtSmaller(cs[i], p[1..]);
      SizeFSplit(cs', i);
      assert cs'[..i] == cs[..i] && cs'[i + 1..] == cs[i + 1..];
    }
  }

  /** The tags whose strings BeautifulSoup puts in a string class of their own: `Script`, `Stylesheet`,
      `TemplateString`, `RubyTextString` and `RubyParenthesisString`. */
  const StringContainers: set<string> := {"script", "style", "template", "rt", "rp"}

  /** The class of a text string: a plain `NavigableString`, or the class given by the innermost string
      container around it. */
  datatype StringKind = Plain | Inside(container: string)

  /** The kind of the strings directly inside an element with label `l`, when the strings around the
      element have kind `k`. */
  function Within(l: Label, k: StringKind): StringKind {
    if l.tag in StringContainers then Inside(l.tag) else k
  }

  /** The kind of string that `.text` and `stripped_strings` of `n` collect: plain strings for an ordinary
      element, the container's own class for a string container. */
  function Own(n: Node): StringKind {
    if n.Element? then Within(n.lab, Plain) else Plain
  }

  /** The strings of kind `want` below `n`, in document order, when the strings around `n` have kind `k`. */
  function StringsOf(n: Node, want: StringKind, k: StringKind): seq<string>
    decreases n, 1
  {
    match n
    case TextNode(s) => if k == want then [s] else []
    case Element(l, cs) => StringsOfF(cs, want, Within(l, k))
  }

  function StringsOfF(cs: seq<Node>, want: StringKind, k: StringKind): seq<string>
    decreases cs, 0
  {
    if cs == [] then [] else StringsOf(cs[0], want, k) + StringsOfF(cs[1..], want, k)
  }

  /** The text strings that BeautifulSoup's string generators visit below `n`, in document order: those of
      `n`'s own kind, seen from `n`. An ordinary element skips what lies inside `script`, `style`,
      `template`, `rt` and `rp`. */
  function TextParts(n: Node): seq<string> {
    StringsOf(n, Own(n), Own(n))
  }

  function Concat(ss: seq<string>): string {
    if ss == [] then "" else ss[0] + Concat(ss[1..])
  }

  /** `element.text` */
  function GetText(n: Node): string {
    Concat(TextParts(n))
  }

  /** `' '.join(element.stripped_strings)`: the `extract_text` helper of every scraper. */
  function ExtractText(n: Node): string {
    Join(" ", NonEmptyStripped(TextParts(n)))
  }

  /** `extract_text` never begins or ends with whitespace, and is empty exactly when every string below
      the element is whitespace. */
  lemma ExtractTextTrimmed(n: Node)
    ensures Trimmed(ExtractText(n))
    ensures ExtractText(n) == "" <==> forall i :: 0 <= i < |TextParts(n)| ==> AllSpace(TextParts(n)[i])
  {
    var ps := TextParts(n);
    var parts := NonEmptyStripped(ps);
    assert ExtractText(n) == Join(" ", parts);
    JoinTrimmed(parts);
    NonEmptyStrippedEmpty(ps);
    assert parts == [] ==> Join(" ", parts) == "";
    assert AllParts(ps) <==> forall i :: 0 <= i < |ps| ==> AllSpace(ps[i]);
  }

  lemma {:induction false} NonEmptyStrippedEmpty(ss: seq<string>)
    ensures NonEmptyStripped(ss) == [] <==> AllParts(ss)
  {
    if ss != [] {
      StripSpec(ss[0]);
      NonEmptyStrippedEmpty(ss[1..]);
      AllPartsCons(ss);
      var h := if Strip(ss[0]) == "" then [] else [Strip(ss[0])];
      assert NonEmptyStripped(ss) == h + NonEmptyStripped(ss[1..]);
    }
  }

  /** Every string of kind `want` below `n` is whitespace, the strings around `n` having kind `k`. */
  predicate BlankAs(n: Node, want: StringKind, k: StringKind)
    decreases n, 1
  {
    match n
    case TextNode(s) => k == want ==> AllSpace(s)
    case Element(l, cs) => AllBlankAs(cs, want, Within(l, k))
  }

  predicate AllBlankAs(cs: seq<Node>, want: StringKind, k: StringKind)
    decreases cs, 0
  {
    forall i :: 0 <= i < |cs| ==> BlankAs(cs[i], want, k)
  }

  lemma AllBlankAsCons(cs: seq<Node>, want: StringKind, k: StringKind)
    requires cs != []
    ensures AllBlankAs(cs, want, k) <==> BlankAs(cs[0], want, k) && AllBlankAs(cs[1..], want, k)
  {
    if BlankAs(cs[0], want, k) && AllBlankAs(cs[1..], want, k) {
      forall i | 0 < i < |cs| ensures BlankAs(cs[i], want, k) {
        assert cs[i] == cs[1..][i - 1];
      }
    }
  }

  /** Whitespace-only content: `not element.text.strip()`, stated on the tree. */
  predicate Blank(n: Node) {
    BlankAs(n, Own(n), Own(n))
  }

  /** `element.find_all(['img', 'video'])` is non-empty. */
  predicate HasMedia(n: Node)
    decreases n, 0
  {
    n.Element? && exists i :: 0 <= i < |n.children| && MediaOrHasMedia(n.children[i])
  }

  predicate MediaOrHasMedia(c: Node)
    decreases c, 1
  {
    c.Element? && (c.lab.tag in MediaTags || HasMedia(c))
  }

  lemma {:induction false} AllSpaceConcat(a: string, b: string)
    ensures AllSpace(a + b) <==> AllSpace(a) && AllSpace(b)
  {
    if AllSpace(a) && AllSpace(b) {
      forall i | 0 <= i < |a + b| ensures IsSpace((a + b)[i]) {
        if i >= |a| {
          assert (a + b)[i] == b[i - |a|];
        }
      }
    }
    if AllSpace(a + b) {
      forall i | 0 <= i < |b| ensures IsSpace(b[i]) {
        assert (a + b)[i + |a|] == b[i];
      }
      forall i | 0 <= i < |a| ensures IsSpace(a[i]) {
        assert (a + b)[i] == a[i];
      }
    }
  }

  predicate AllParts(ss: seq<string>) {
    forall i :: 0 <= i < |ss| ==> AllSpace(ss[i])
  }

  lemma {:induction false} AllPartsAppend(a: seq<string>, b: seq<string>)
    ensures AllParts(a + b) <==> AllParts(a) && AllParts(b)
  {
    if AllParts(a + b) {
      forall i | 0 <= i < |b| ensures AllSpace(b[i]) {
        assert (a + b)[i + |a|] == b[i];
      }
      forall i | 0 <= i < |a| ensures AllSpace(a[i]) {
        assert (a + b)[i] == a[i];
      }
    }
  }

  lemma AllPartsCons(ss: seq<string>)
    requires ss != []
    ensures AllParts(ss) <==> AllSpace(ss[0]) && AllParts(ss[1..])
  {
    if AllSpace(ss[0]) && AllParts(ss[1..]) {
      forall i | 0 <= i < |ss| ensures AllSpace(ss[i]) {
        if i > 0 {
          assert ss[i] == ss[1..][i - 1];
        }
      }
    }
  }

  lemma {:induction false} ConcatAllSpace(ss: seq<string>)
    ensures AllSpace(Concat(ss)) <==> AllParts(ss)
  {
    if ss != [] {
      ConcatAllSpace(ss[1..]);
      AllSpaceConcat(ss[0], Concat(ss[1..]));
      assert ss == [ss[0]] + ss[1..];
      AllPartsAppend([ss[0]], ss[1..]);
    }
  }

  lemma {:induction false} BlankParts(n: Node, want: StringKind, k: StringKind)
    ensures BlankAs(n, want, k) <==> AllParts(StringsOf(n, want, k))
    decreases n, 1
  {
    match n
    case TextNode(s) =>
      if k == want {
        assert StringsOf(n, want, k) == [s];
        assert [s][0] == s;
      }
    case Element(l, cs) => BlankPartsF(cs, want, Within(l, k));
  }

  lemma {:induction false} BlankPartsF(cs: seq<Node>, want: StringKind, k: StringKind)
    ensures AllBlankAs(cs, want, k) <==> AllParts(StringsOfF(cs, want, k))
    decreases cs, 0
  {
    if cs != [] {
      BlankParts(cs[0], want, k);
      BlankPartsF(cs[1..], want, k);
      AllPartsAppend(StringsOf(cs[0], want, k), StringsOfF(cs[1..], want, k));
      AllBlankAsCons(cs, want, k);
    }
  }

  /** The tree form of blankness agrees with `not element.text.strip()`. */
  lemma BlankIffTextStripsEmpty(n: Node)
    ensures Blank(n) <==> Strip(GetText(n)) == ""
  {
    BlankParts(n, Own(n), Own(n));
    ConcatAllSpace(TextParts(n));
    StripSpec(GetText(n));
  }

  /** An element found below a search root: its path from that root, the element, and the labels of
      all its ancestors from the document root down to its parent. */
  datatype Located = Located(path: Path, node: Node, anc: seq<Label>)

  /** `es` seen from one level up: every path gains the leading child index `i`. */
  function Lift(i: nat, es: seq<Located>): (r: seq<Located>)
    ensures |r| == |es|
    ensures forall k :: 0 <= k < |es| ==> r[k] == es[k].(path := [i] + es[k].path)
  {
    seq(|es|, k requires 0 <= k < |es| => es[k].(path := [i] + es[k].path))
  }

  /** Every element strictly below `n`, in document (pre-)order; `anc` is the ancestor chain of `n`.
      This is the order of `find_all`, `select` and `descendants`, none of which visits `n` itself. */
  function Desc(n: Node, anc: seq<Label>): seq<Located>
    decreases n, 2
  {
    match n
    case TextNode(_) => []
    case Element(l, cs) => DescF(cs, 0, anc + [l])
  }

  /** The elements in the forest `cs` and below, the first tree being child number `base`. */
  function DescF(cs: seq<Node>, base: nat, anc: seq<Label>): seq<Located>
    decreases cs, 1
  {
    if cs == [] then [] else Entry(cs[0], base, anc) + DescF(cs[1..], base + 1, anc)
  }

  /** What child number `base` contributes: itself, then its own descendants (nothing for a string). */
  function Entry(c: Node, base: nat, anc: seq<Label>): seq<Located>
    decreases c, 3
  {
    if c.Element? then [Located([base], c, anc)] + Lift(base, Desc(c, anc)) else []
  }

  /** Each listed descendant is an element that its path really leads to, and its ancestor chain
      starts with the search root's own chain and the root's label. */
  lemma {:induction false} DescValid(n: Node, anc: seq<Label>)
    ensures forall e | e in Desc(n, anc) ::
      e.path != [] && ValidPath(n, e.path) && At(n, e.path) == e.node && e.node.Element?
      && n.Element? && anc + [n.lab] <= e.anc
    decreases n, 1
  {
    if n.Element? {
      DescFValid(n.children, 0, anc + [n.lab]);
      forall e | e in Desc(n, anc)
        ensures e.path != [] && ValidPath(n, e.path) && At(n, e.path) == e.node && e.node.Element?
        ensures anc + [n.lab] <= e.anc
      {
        assert InForest(n.children, 0, anc + [n.lab], e);
      }
    }
  }

  /** `e` lies in the forest `cs` whose first tree is child number `base`, below ancestors `anc`. */
  predicate InForest(cs: seq<Node>, base: nat, anc: seq<Label>, e: Located) {
    e.path != [] && base <= e.path[0] < base + |cs|
    && ValidPath(cs[e.path[0] - base], e.path[1..]) && At(cs[e.path[0] - base], e.path[1..]) == e.node
    && e.node.Element? && anc <= e.anc
  }

  /** The entries one child tree contributes to `DescF`: the child itself, then its own descendants. */
  lemma HeadValid(c: Node, base: nat, anc: seq<Label>)
    requires c.Element?
    ensures forall e | e in Entry(c, base, anc) :: InForest([c], base, anc, e)
    decreases c, 2
  {
    DescValid(c, anc);
    var lifted := Lift(base, Desc(c, anc));
    forall e | e in [Located([base], c, anc)] + lifted
      ensures InForest([c], base, anc, e)
    {
      if e in lifted {
        var k :| 0 <= k < |lifted| && lifted[k] == e;
        var d := Desc(c, anc)[k];
        assert d in Desc(c, anc);
        assert e.path[1..] == d.path;
        assert anc + [c.lab] <= d.anc;
      }
    }
  }

  lemma {:induction false} DescFValid(cs: seq<Node>, base: nat, anc: seq<Label>)
    ensures forall e | e in DescF(cs, base, anc) :: InForest(cs, base, anc, e)
    decreases cs, 0
  {
    if cs != [] {
      DescFValid(cs[1..], base + 1, anc);
      var tail := DescF(cs[1..], base + 1, anc);
      if cs[0].Element? {
        HeadValid(cs[0], base, anc);
      }
      forall e | e in DescF(cs, base, anc)
        ensures InForest(cs, base, anc, e)
      {
        if e in tail {
          assert InForest(cs[1..], base + 1, anc, e);
          assert cs[e.path[0] - base] == cs[1..][e.path[0] - (base + 1)];
        } else {
          assert e in Entry(cs[0], base, anc);
          assert InForest([cs[0]], base, anc, e);
        }
      }
    }
  }

  lemma LiftMember(i: nat, es: seq<Located>, d: Located)
    requires d in es
    ensures d.(path := [i] + d.path) in Lift(i, es)
  {
    var k :| 0 <= k < |es| && es[k] == d;
    assert Lift(i, es)[k] == d.(path := [i] + d.path);
  }

  lemma {:induction false} DescFAppend(a: seq<Node>, b: seq<Node>, base: nat, anc: seq<Label>)
    ensures DescF(a + b, base, anc) == DescF(a, base, anc) + DescF(b, base + |a|, anc)
  {
    if a == [] {
      assert a + b == b;
    } else {
      var x := Entry(a[0], base, anc);
      calc {
        DescF(a + b, base, anc);
        == { assert (a + b)[0] == a[0]; assert (a + b)[1..] == a[1..] + b; }
        x + DescF(a[1..] + b, base + 1, anc);
        == { DescFAppend(a[1..], b, base + 1, anc); assert base + 1 + |a[1..]| == base + |a|; }
        x + (DescF(a[1..], base + 1, anc) + DescF(b, base + |a|, anc));
        ==
        DescF(a, base, anc) + DescF(b, base + |a|, anc);
      }
    }
  }

  lemma DescFHead(cs: seq<Node>, base: nat, anc: seq<Label>, e: Located)
    requires cs != [] && e in Entry(cs[0], base, anc)
    ensures e in DescF(cs, base, anc)
  {
  }

  lemma DescFTail(cs: seq<Node>, base: nat, anc: seq<Label>, e: Located)
    requires cs != [] && e in DescF(cs[1..], base + 1, anc)
    ensures e in DescF(cs, base, anc)
  {
  }

  lemma EntryLifted(c: Node, base: nat, anc: seq<Label>, d: Located)
    requires c.Element? && d in Desc(c, anc)
    ensures d.(path := [base] + d.path) in Entry(c, base, anc)
  {
    LiftMember(base, Desc(c, anc), d);
  }

  /** A descendant of child `i`, with the child's number put in front of its path, is listed by `DescF`. */
  lemma {:induction false} DescFContainsBelow(cs: seq<Node>, base: nat, anc: seq<Label>, i: nat, d: Located)
    requires i < |cs| && cs[i].Element? && d in Desc(cs[i], anc)
    ensures d.(path := [base + i] + d.path) in DescF(cs, base, anc)
    decreases i
  {
    if i == 0 {
      EntryLifted(cs[0], base, anc, d);
      DescFHead(cs, base, anc, d.(path := [base] + d.path));
    } else {
      assert cs[1..][i - 1] == cs[i];
      DescFContainsBelow(cs[1..], base + 1, anc, i - 1, d);
      assert base + 1 + (i - 1) == base + i;
      DescFTail(cs, base, anc, d.(path := [base + i] + d.path));
    }
  }

  lemma DescFFirstChild(cs: seq<Node>, base: nat, anc: seq<Label>)
    requires cs != [] && cs[0].Element?
    ensures Located([base], cs[0], anc) in DescF(cs, base, anc)
  {
    assert Entry(cs[0], base, anc) == [Located([base], cs[0], anc)] + Lift(base, Desc(cs[0], anc));
    DescFHead(cs, base, anc, Located([base], cs[0], anc));
  }

  /** Child `i` itself is listed by `DescF`. */
  lemma {:induction false} DescFContainsChild(cs: seq<Node>, base: nat, anc: seq<Label>, i: nat)
    requires i < |cs| && cs[i].Element?
    ensures Located([base + i], cs[i], anc) in DescF(cs, base, anc)
    decreases i
  {
    if i == 0 {
      DescFFirstChild(cs, base, anc);
    } else {
      assert cs[1..][i - 1] == cs[i];
      DescFContainsChild(cs[1..], base + 1, anc, i - 1);
      assert base + 1 + (i - 1) == base + i;
      DescFTail(cs, base, anc, Located([base + i], cs[i], anc));
    }
  }

  /** Every element child of `n`, and everything below it, is listed by `Desc`. */
  lemma DescContains(n: Node, anc: seq<Label>, i: nat)
    requires n.Element? && i < |n.children| && n.children[i].Element?
    ensures Located([i], n.children[i], anc + [n.lab]) in Desc(n, anc)
    ensures forall d | d in Desc(n.children[i], anc + [n.lab]) :: d.(path := [i] + d.path) in Desc(n, anc)
  {
    var cs, a := n.children, anc + [n.lab];
    assert Desc(n, anc) == DescF(cs, 0, a);
    DescFContainsChild(cs, 0, a, i);
    forall d | d in Desc(cs[i], a) ensures d.(path := [i] + d.path) in DescF(cs, 0, a) {
      DescFContainsBelow(cs, 0, a, i, d);
    }
  }

  lemma {:induction false} AtReplaceAt(n: Node, p: Path, m: Node)
    requires ValidPath(n, p)
    ensures ValidPath(ReplaceAt(n, p, m), p) && At(ReplaceAt(n, p, m), p) == m
    decreases p
  {
    if p != [] {
      AtReplaceAt(n.children[p[0]], p[1..], m);
    }
  }

  lemma {:induction false} ReplaceAtTwice(n: Node, p: Path, m1: Node, m2: Node)
    requires ValidPath(n, p)
    ensures ValidPath(ReplaceAt(n, p, m1), p)
    ensures ReplaceAt(ReplaceAt(n, p, m1), p, m2) == ReplaceAt(n, p, m2)
    decreases p
  {
    AtReplaceAt(n, p, m1);
    if p != [] {
      ReplaceAtTwice(n.children[p[0]], p[1..], m1, m2);
    }
  }

  lemma {:induction false} ReplaceAtSame(n: Node, p: Path)
    requires ValidPath(n, p)
    ensures ReplaceAt(n, p, At(n, p)) == n
    decreases p
  {
    if p != [] {
      ReplaceAtSame(n.children[p[0]], p[1..]);
    }
  }

  function AppendChild(n: Node, c: Node): (r: Node)
    requires n.Element?
    ensures r.Element? && r.lab == n.lab && r.children == n.children + [c]
  {
    Element(n.lab, n.children + [c])
  }

  /** Where the node at `p` is found once the node at `q` has been taken out: one place further left
      when `q` was an earlier sibling of `p` or of one of its ancestors. */
  function Shift(p: Path, q: Path): Path
    requires q != []
  {
    var k := |q| - 1;
    if k < |p| && q[..k] == p[..k] && q[k] < p[k] then p[k := p[k] - 1] else p
  }

  lemma ShiftCons(p: Path, q: Path)
    requires p != [] && |q| > 1 && p[0] == q[0]
    ensures Shift(p, q) == [p[0]] + Shift(p[1..], q[1..])
  {
    var k := |q| - 1;
    if k < |p| {
      assert q[..k] == p[..k] <==> q[1..][..k - 1] == p[1..][..k - 1] by {
        assert q[..k] == [q[0]] + q[1..][..k - 1];
        assert p[..k] == [p[0]] + p[1..][..k - 1];
      }
      assert q[k] == q[1..][k - 1] && p[k] == p[1..][k - 1];
    }
  }

  lemma {:induction false} AtPrefix(n: Node, p: Path, q: Path)
    requires ValidPath(n, q) && p <= q
    ensures ValidPath(n, p) && ValidPath(At(n, p), q[|p|..]) && At(At(n, p), q[|p|..]) == At(n, q)
    decreases p
  {
    if p != [] {
      assert q[1..][..|p| - 1] == p[1..];
      AtPrefix(n.children[p[0]], p[1..], q[1..]);
      assert q[1..][|p[1..]|..] == q[|p|..];
    } else {
      assert q[0..] == q;
    }
  }

  /** The node at `p` once the node at `q` has been taken out of the tree. */
  function Without(n: Node, p: Path, q: Path): Node
    requires ValidPath(n, q) && ValidPath(n, p) && q != [] && !(q <= p)
  {
    if p <= q then
      AtPrefix(n, p, q);
      RemoveAt(At(n, p), q[|p|..])
    else At(n, p)
  }

  /** `RemoveShift` when the node taken out is a child of the root. */
  lemma RemoveShiftSibling(n: Node, q: Path, p: Path)
    requires ValidPath(n, q) && ValidPath(n, p) && |q| == 1 && p != [] && !(q <= p)
    ensures ValidPath(RemoveAt(n, q), Shift(p, q))
    ensures At(RemoveAt(n, q), Shift(p, q)) == Without(n, p, q)
  {
    var cs, i := n.children, q[0];
    assert p[0] != i by {
      assert q == [i];
      assert p[..1] == [p[0]];
    }
    assert !(p <= q);
    var cs' := cs[..i] + cs[i + 1..];
    var j := if p[0] > i then p[0] - 1 else p[0];
    assert Shift(p, q) == [j] + p[1..] by {
      assert q[..0] == p[..0];
    }
    assert cs'[j] == cs[p[0]];
    calc {
      At(RemoveAt(n, q), Shift(p, q));
      At(Element(n.lab, cs'), [j] + p[1..]);
      At(cs'[j], ([j] + p[1..])[1..]);
      { assert ([j] + p[1..])[1..] == p[1..]; }
      At(cs[p[0]], p[1..]);
      At(n, p);
    }
  }

  /** `RemoveShift` when the node taken out lies in another child's subtree. */
  lemma RemoveShiftElsewhere(n: Node, q: Path, p: Path)
    requires ValidPath(n, q) && ValidPath(n, p) && |q| > 1 && p != [] && p[0] != q[0]
    ensures ValidPath(RemoveAt(n, q), Shift(p, q))
    ensures At(RemoveAt(n, q), Shift(p, q)) == Without(n, p, q)
  {
    assert Shift(p, q) == p by {
      var k := |q| - 1;
      if k < |p| {
        assert q[..k][0] != p[..k][0];
      }
    }
  }

  /** Taking out the node at `q` keeps the node at `p` reachable at `Shift(p, q)`; it is unchanged unless
      `q` lay inside it. */
  lemma {:induction false} RemoveShift(n: Node, q: Path, p: Path)
    requires ValidPath(n, q) && ValidPath(n, p) && q != [] && !(q <= p)
    ensures ValidPath(RemoveAt(n, q), Shift(p, q))
    ensures At(RemoveAt(n, q), Shift(p, q)) == Without(n, p, q)
    decreases q
  {
    var cs, i := n.children, q[0];
    if p == [] {
      assert q[0..] == q;
    } else if |q| == 1 {
      RemoveShiftSibling(n, q, p);
    } else if p[0] != i {
      RemoveShiftElsewhere(n, q, p);
    } else {
      ShiftCons(p, q);
      assert !(q[1..] <= p[1..]);
      RemoveShift(cs[i], q[1..], p[1..]);
      assert p <= q <==> p[1..] <= q[1..];
      if p <= q {
        assert q[|p|..] == q[1..][|p[1..]|..];
      }
    }
  }

  /** `tag.append(other)` with both in the same document: `other` leaves its place and becomes the last
      child of `tag`. */
  function Moved(n: Node, p: Path, q: Path): Node
    requires ValidPath(n, q) && ValidPath(n, p) && q != [] && !(q <= p) && At(n, p).Element?
  {
    RemoveShift(n, q, p);
    var removed := RemoveAt(n, q);
    var target := Shift(p, q);
    ReplaceAt(removed, target, AppendChild(At(removed, target), At(n, q)))
  }

  /** After the move, the node at `q` is the last child of the target, whose other children are its
      original ones (less the moved node, if it came from inside the target). */
  lemma MovedLast(n: Node, p: Path, q: Path)
    requires ValidPath(n, q) && ValidPath(n, p) && q != [] && !(q <= p) && At(n, p).Element?
    ensures ValidPath(Moved(n, p, q), Shift(p, q))
    ensures var t := At(Moved(n, p, q), Shift(p, q));
      t.Element? && t.lab == At(n, p).lab && |t.children| >= 1 && t.children[|t.children| - 1] == At(n, q)
      && t.children[..|t.children| - 1] == Without(n, p, q).children
  {
    RemoveShift(n, q, p);
    var removed := RemoveAt(n, q);
    var target := Shift(p, q);
    AtReplaceAt(removed, target, AppendChild(At(removed, target), At(n, q)));
  }
}

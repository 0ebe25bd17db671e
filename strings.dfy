/** Character classes, stripping, joining and the line normaliser shared by every scraper.
    Only the ASCII part of Python's `str.isspace` and `str.splitlines` is modelled. */
module Strings {

  /** Python's `str.isspace` restricted to ASCII: space, \t, \n, \v, \f, \r and the separators 0x1C-0x1F. */
  predicate IsSpace(c: char) {
    c == ' ' || c == '\t' || c == '\n' || c == '\r' || c == '\U{000B}' || c == '\U{000C}'
    || c == '\U{001C}' || c == '\U{001D}' || c == '\U{001E}' || c == '\U{001F}'
  }

  /** The ASCII line boundaries of Python's `str.splitlines` (0x1F is whitespace but not a boundary). */
  predicate IsLineBreak(c: char) {
    c == '\n' || c == '\r' || c == '\U{000B}' || c == '\U{000C}'
    || c == '\U{001C}' || c == '\U{001D}' || c == '\U{001E}'
  }

  lemma LineBreakIsSpace(c: char)
    requires IsLineBreak(c)
    ensures IsSpace(c)
  {
  }

  predicate AllSpace(s: string) {
    forall i :: 0 <= i < |s| ==> IsSpace(s[i])
  }

  predicate NoBreak(s: string) {
    forall i :: 0 <= i < |s| ==> !IsLineBreak(s[i])
  }

  /** `s.lstrip()`: the suffix left after dropping leading whitespace. */
  function TrimStart(s: string): string {
    if s != [] && IsSpace(s[0]) then TrimStart(s[1..]) else s
  }

  /** `s.rstrip()`: the prefix left after dropping trailing whitespace. */
  function TrimEnd(s: string): string {
    if s != [] && IsSpace(s[|s| - 1]) then TrimEnd(s[..|s| - 1]) else s
  }

  lemma SpacePrefix(s: string, n: nat)
    requires 0 < n <= |s| && IsSpace(s[0]) && AllSpace(s[1..][..n - 1])
    ensures AllSpace(s[..n])
  {
    forall i | 0 <= i < n ensures IsSpace(s[..n][i]) {
      if i > 0 {
        assert s[..n][i] == s[1..][..n - 1][i - 1];
      }
    }
  }

  lemma SpaceSuffix(s: string, n: nat)
    requires n < |s| && IsSpace(s[|s| - 1]) && AllSpace(s[..|s| - 1][n..])
    ensures AllSpace(s[n..])
  {
    forall i | 0 <= i < |s| - n ensures IsSpace(s[n..][i]) {
      if i < |s| - 1 - n {
        assert s[n..][i] == s[..|s| - 1][n..][i];
      }
    }
  }

  /** `lstrip` drops a run of leading whitespace and stops at the first other character. */
  lemma {:induction false} TrimStartSpec(s: string)
    ensures |TrimStart(s)| <= |s| && TrimStart(s) == s[|s| - |TrimStart(s)|..]
    ensures AllSpace(s[..|s| - |TrimStart(s)|])
    ensures TrimStart(s) == [] || !IsSpace(TrimStart(s)[0])
    decreases |s|
  {
    if s != [] && IsSpace(s[0]) {
      TrimStartSpec(s[1..]);
      var r := TrimStart(s[1..]);
      assert TrimStart(s) == r;
      assert s[1..][|s| - 1 - |r|..] == s[|s| - |r|..];
      SpacePrefix(s, |s| - |r|);
    } else {
      assert s[..0] == [];
    }
  }

  /** `rstrip` drops a run of trailing whitespace and stops at the last other character. */
  lemma {:induction false} TrimEndSpec(s: string)
    ensures |TrimEnd(s)| <= |s| && TrimEnd(s) == s[..|TrimEnd(s)|]
    ensures AllSpace(s[|TrimEnd(s)|..])
    ensures TrimEnd(s) == [] || !IsSpace(TrimEnd(s)[|TrimEnd(s)| - 1])
    decreases |s|
  {
    if s != [] && IsSpace(s[|s| - 1]) {
      TrimEndSpec(s[..|s| - 1]);
      var r := TrimEnd(s[..|s| - 1]);
      assert TrimEnd(s) == r;
      assert s[..|s| - 1][..|r|] == s[..|r|];
      SpaceSuffix(s, |r|);
    } else {
      assert s[|s|..] == [];
    }
  }

  /** `s.strip()` */
  function Strip(s: string): string {
    TrimEnd(TrimStart(s))
  }

  /** A stripped string has no whitespace at either end. */
  predicate Trimmed(s: string) {
    s == [] || (!IsSpace(s[0]) && !IsSpace(s[|s| - 1]))
  }

  /** `strip()` leaves no whitespace at either end, keeps a slice of its input, and is empty exactly
      when the input is all whitespace. */
  lemma StripSpec(s: string)
    ensures Trimmed(Strip(s))
    ensures Strip(s) == "" <==> AllSpace(s)
    ensures forall i :: 0 <= i < |Strip(s)| ==> Strip(s)[i] in s
  {
    var t := TrimStart(s);
    var r := TrimEnd(t);
    TrimStartSpec(s);
    TrimEndSpec(t);
    assert t == s[|s| - |t|..];
    assert r == t[..|r|];
    if r != [] {
      assert t[0] == r[0];
    }
    if r == "" {
      assert t[|r|..] == t;
      assert t == [];
      assert s[..|s| - |t|] == s;
    } else {
      assert !IsSpace(r[0]);
    }
    forall i | 0 <= i < |r| ensures r[i] in s {
      assert r[i] == t[i] == s[i + (|s| - |t|)];
    }
  }

  /** Stripping a string that is already trimmed changes nothing. */
  lemma StripTrimmed(s: string)
    requires Trimmed(s)
    ensures Strip(s) == s
  {
  }

  lemma NoBreakConcat(a: string, b: string)
    requires NoBreak(a) && NoBreak(b)
    ensures NoBreak(a + b)
  {
    forall i | 0 <= i < |a + b| ensures !IsLineBreak((a + b)[i]) {
      if i < |a| {
        assert (a + b)[i] == a[i];
      } else {
        assert (a + b)[i] == b[i - |a|];
      }
    }
  }

  lemma NoBreakStrip(s: string)
    requires NoBreak(s)
    ensures NoBreak(Strip(s))
  {
    StripSpec(s);
    var r := Strip(s);
    forall i | 0 <= i < |r| ensures !IsLineBreak(r[i]) {
      assert r[i] in s;
      var j :| 0 <= j < |s| && s[j] == r[i];
    }
  }

  /** `sep.join(parts)` */
  function Join(sep: string, parts: seq<string>): string
    decreases |parts|
  {
    if |parts| == 0 then ""
    else if |parts| == 1 then parts[0]
    else parts[0] + sep + Join(sep, parts[1..])
  }

  /** Joining with a non-empty separator gives the empty string exactly for `[]` and `[""]`. */
  lemma {:induction false} JoinEmpty(sep: string, parts: seq<string>)
    requires sep != ""
    ensures Join(sep, parts) == "" <==> parts == [] || parts == [""]
  {
    if |parts| > 1 {
      assert |Join(sep, parts)| >= |sep|;
    } else if |parts| == 1 {
      assert parts == [parts[0]];
    }
  }

  /** Joining two non-empty lists is joining each and gluing them with one more separator. */
  lemma {:induction false} JoinAppend(sep: string, xs: seq<string>, ys: seq<string>)
    requires xs != [] && ys != []
    ensures Join(sep, xs + ys) == Join(sep, xs) + sep + Join(sep, ys)
    decreases |xs|
  {
    if |xs| == 1 {
      assert (xs + ys)[0] == xs[0];
      assert (xs + ys)[1..] == ys;
    } else {
      assert (xs + ys)[1..] == xs[1..] + ys;
      JoinAppend(sep, xs[1..], ys);
    }
  }

  /** Every part is non-empty and has no whitespace at either end. */
  predicate TrimmedParts(ps: seq<string>) {
    forall i :: 0 <= i < |ps| ==> ps[i] != "" && Trimmed(ps[i])
  }

  lemma TrimmedPartsConcat(h: seq<string>, t: seq<string>)
    requires TrimmedParts(h) && TrimmedParts(t)
    ensures TrimmedParts(h + t)
  {
    forall i | 0 <= i < |h + t| ensures (h + t)[i] != "" && Trimmed((h + t)[i]) {
      if i < |h| {
        assert (h + t)[i] == h[i];
      } else {
        assert (h + t)[i] == t[i - |h|];
      }
    }
  }

  lemma TrimmedPartsTail(ps: seq<string>)
    requires ps != [] && TrimmedParts(ps)
    ensures ps[0] != "" && Trimmed(ps[0]) && TrimmedParts(ps[1..])
  {
    forall i | 0 <= i < |ps[1..]| ensures ps[1..][i] != "" && Trimmed(ps[1..][i]) {
      assert ps[1..][i] == ps[i + 1];
    }
  }

  /** The parts stripped one by one, with the empty results dropped: `(s.strip() for s in ss if s.strip())`. */
  function NonEmptyStripped(ss: seq<string>): (r: seq<string>)
    ensures TrimmedParts(r)
    ensures |r| <= |ss|
  {
    if ss == [] then []
    else
      var h := if Strip(ss[0]) == "" then [] else [Strip(ss[0])];
      var t := NonEmptyStripped(ss[1..]);
      StripSpec(ss[0]);
      assert TrimmedParts(h);
      TrimmedPartsConcat(h, t);
      h + t
  }

  /** Joining non-empty trimmed parts with spaces leaves no whitespace at either end. */
  lemma {:induction false} JoinTrimmed(parts: seq<string>)
    requires TrimmedParts(parts)
    ensures Trimmed(Join(" ", parts))
    ensures parts != [] ==> Join(" ", parts) != ""
    decreases |parts|
  {
    if parts != [] {
      TrimmedPartsTail(parts);
    }
    if |parts| > 1 {
      JoinTrimmed(parts[1..]);
      var j := Join(" ", parts[1..]);
      var s := parts[0] + " " + j;
      assert s[0] == parts[0][0];
      assert s[|s| - 1] == j[|j| - 1];
    }
  }

  /** `s.splitlines()`, except that it always yields at least one (possibly empty) line and that a trailing
      or doubled boundary yields an empty line; both differences vanish once empty lines are dropped. */
  function Lines(s: string): (ls: seq<string>)
    ensures |ls| >= 1
    ensures forall i :: 0 <= i < |ls| ==> NoBreak(ls[i])
  {
    if s == [] then [[]]
    else
      var rest := Lines(s[1..]);
      if IsLineBreak(s[0]) then [[]] + rest
      else [[s[0]] + rest[0]] + rest[1..]
  }

  /** `line.strip() for line in lines if line.strip()` */
  function CleanLines(ls: seq<string>): seq<string> {
    if ls == [] then []
    else (if Strip(ls[0]) == "" then [] else [Strip(ls[0])]) + CleanLines(ls[1..])
  }

  /** `'\n'.join(line.strip() for line in s.splitlines() if line.strip())` */
  function Normalize(s: string): string {
    Join("\n", CleanLines(Lines(s)))
  }

  /** A line of normalised output: non-empty, no boundary inside, no whitespace at either end. */
  predicate CleanLine(l: string) {
    l != "" && NoBreak(l) && Trimmed(l)
  }

  predicate AllClean(ls: seq<string>) {
    forall i :: 0 <= i < |ls| ==> CleanLine(ls[i])
  }

  predicate NoBreaks(ls: seq<string>) {
    forall i :: 0 <= i < |ls| ==> NoBreak(ls[i])
  }

  lemma NoBreaksTail(ls: seq<string>)
    requires ls != [] && NoBreaks(ls)
    ensures NoBreak(ls[0]) && NoBreaks(ls[1..])
  {
    forall i | 0 <= i < |ls[1..]| ensures NoBreak(ls[1..][i]) {
      assert ls[1..][i] == ls[i + 1];
    }
  }

  lemma CleanHead(l: string)
    requires NoBreak(l)
    ensures AllClean(if Strip(l) == "" then [] else [Strip(l)])
  {
    StripSpec(l);
    NoBreakStrip(l);
  }

  lemma AllCleanConcat(h: seq<string>, t: seq<string>)
    requires AllClean(h) && AllClean(t)
    ensures AllClean(h + t)
  {
    forall i | 0 <= i < |h + t| ensures CleanLine((h + t)[i]) {
      if i < |h| {
        assert (h + t)[i] == h[i];
      } else {
        assert (h + t)[i] == t[i - |h|];
      }
    }
  }

  lemma {:induction false} CleanLinesAreClean(ls: seq<string>)
    requires forall i :: 0 <= i < |ls| ==> NoBreak(ls[i])
    ensures forall i :: 0 <= i < |CleanLines(ls)| ==> CleanLine(CleanLines(ls)[i])
  {
    if ls != [] {
      assert NoBreaks(ls);
      NoBreaksTail(ls);
      var h := if Strip(ls[0]) == "" then [] else [Strip(ls[0])];
      CleanHead(ls[0]);
      CleanLinesAreClean(ls[1..]);
      assert AllClean(CleanLines(ls[1..]));
      AllCleanConcat(h, CleanLines(ls[1..]));
      assert CleanLines(ls) == h + CleanLines(ls[1..]);
      assert AllClean(CleanLines(ls));
    }
  }

  lemma {:induction false} CleanLinesOfClean(ls: seq<string>)
    requires forall i :: 0 <= i < |ls| ==> ls[i] != "" && Strip(ls[i]) == ls[i]
    ensures CleanLines(ls) == ls
  {
    if ls != [] {
      CleanLinesOfClean(ls[1..]);
      assert ls == [ls[0]] + ls[1..];
    }
  }

  lemma {:induction false} CleanLinesAppend(xs: seq<string>, ys: seq<string>)
    ensures CleanLines(xs + ys) == CleanLines(xs) + CleanLines(ys)
  {
    if xs != [] {
      var h := if Strip(xs[0]) == "" then [] else [Strip(xs[0])];
      assert (xs + ys)[0] == xs[0];
      assert (xs + ys)[1..] == xs[1..] + ys;
      assert CleanLines(xs + ys) == h + CleanLines(xs[1..] + ys);
      CleanLinesAppend(xs[1..], ys);
      assert CleanLines(xs) == h + CleanLines(xs[1..]);
    } else {
      assert xs + ys == ys;
    }
  }

  /** A line without boundaries followed by more text continues the first line of that text. */
  lemma {:induction false} LinesPrefix(c: string, t: string)
    requires NoBreak(c)
    ensures Lines(c + t) == [c + Lines(t)[0]] + Lines(t)[1..]
  {
    if c != [] {
      assert (c + t)[0] == c[0];
      assert (c + t)[1..] == c[1..] + t;
      LinesPrefix(c[1..], t);
      assert [c[0]] + (c[1..] + Lines(t)[0]) == c + Lines(t)[0];
    } else {
      assert c + t == t;
      assert c + Lines(t)[0] == Lines(t)[0];
      assert Lines(t) == [Lines(t)[0]] + Lines(t)[1..];
    }
  }

  /** A boundary character splits the lines of a concatenation into the lines of each side. */
  lemma {:induction false} LinesSplit(a: string, b: char, c: string)
    requires IsLineBreak(b)
    ensures Lines(a + [b] + c) == Lines(a) + Lines(c)
  {
    if a == [] {
      assert a + [b] + c == [b] + c;
      assert ([b] + c)[1..] == c;
    } else {
      assert (a + [b] + c)[0] == a[0];
      assert (a + [b] + c)[1..] == a[1..] + [b] + c;
      LinesSplit(a[1..], b, c);
    }
  }

  /** A string without boundaries is one line. */
  lemma LinesSingle(c: string)
    requires NoBreak(c)
    ensures Lines(c) == [c]
  {
    LinesPrefix(c, "");
    assert c + "" == c;
  }

  /** Splitting a `'\n'`-join of boundary-free lines gives the lines back. */
  lemma {:induction false} LinesOfJoin(ls: seq<string>)
    requires ls != []
    requires forall i :: 0 <= i < |ls| ==> NoBreak(ls[i])
    ensures Lines(Join("\n", ls)) == ls
    decreases |ls|
  {
    if |ls| == 1 {
      LinesSingle(ls[0]);
    } else {
      var j := Join("\n", ls[1..]);
      calc {
        Lines(Join("\n", ls));
        == { assert Join("\n", ls) == ls[0] + ['\n'] + j; LinesSplit(ls[0], '\n', j); }
        Lines(ls[0]) + Lines(j);
        == { LinesSingle(ls[0]); LinesOfJoin(ls[1..]); }
        [ls[0]] + ls[1..];
        == { assert ls == [ls[0]] + ls[1..]; }
        ls;
      }
    }
  }

  /** Every line of the normalised text is non-empty and carries no leading or trailing whitespace. */
  lemma NormalizeLines(s: string)
    ensures Normalize(s) == "" || Lines(Normalize(s)) == CleanLines(Lines(s))
    ensures forall i :: 0 <= i < |CleanLines(Lines(s))| ==> CleanLine(CleanLines(Lines(s))[i])
    ensures Normalize(s) != "" ==> forall i :: 0 <= i < |Lines(Normalize(s))| ==> CleanLine(Lines(Normalize(s))[i])
  {
    var c := CleanLines(Lines(s));
    CleanLinesAreClean(Lines(s));
    if c != [] {
      LinesOfJoin(c);
    }
  }

  /** Normalising twice gives the same as normalising once. */
  lemma NormalizeIdempotent(s: string)
    ensures Normalize(Normalize(s)) == Normalize(s)
  {
    var c := CleanLines(Lines(s));
    NormalizeLines(s);
    if c == [] {
      assert Normalize(s) == "";
      assert Lines("") == [[]];
      assert Strip([]) == [];
    } else {
      LinesOfJoin(c);
      forall i | 0 <= i < |c| ensures c[i] != "" && Strip(c[i]) == c[i] {
        StripTrimmed(c[i]);
      }
      CleanLinesOfClean(c);
    }
  }

  /** `a` and `b` placed on successive lines, where an empty side contributes nothing. */
  function Glue(a: string, b: string): string {
    if a == "" then b else if b == "" then a else a + "\n" + b
  }

  lemma JoinCleanEmpty(ls: seq<string>)
    requires forall i :: 0 <= i < |ls| ==> CleanLine(ls[i])
    ensures Join("\n", ls) == "" <==> ls == []
  {
    JoinEmpty("\n", ls);
    if ls != [] {
      assert CleanLine(ls[0]);
      assert ls != [""];
    }
  }

  /** Normalising text joined at a line boundary is normalising each side and gluing the results. */
  lemma NormalizeConcat(a: string, c: string)
    ensures Normalize(a + "\n" + c) == Glue(Normalize(a), Normalize(c))
  {
    assert a + "\n" + c == a + ['\n'] + c;
    LinesSplit(a, '\n', c);
    var x := CleanLines(Lines(a));
    var y := CleanLines(Lines(c));
    CleanLinesAppend(Lines(a), Lines(c));
    CleanLinesAreClean(Lines(a));
    CleanLinesAreClean(Lines(c));
    GlueJoin(x, y);
  }

  lemma GlueJoin(x: seq<string>, y: seq<string>)
    requires forall i :: 0 <= i < |x| ==> CleanLine(x[i])
    requires forall i :: 0 <= i < |y| ==> CleanLine(y[i])
    ensures Join("\n", x + y) == Glue(Join("\n", x), Join("\n", y))
  {
    JoinCleanEmpty(x);
    JoinCleanEmpty(y);
    if x == [] {
      assert x + y == y;
    } else if y == [] {
      assert x + y == x;
    } else {
      JoinAppend("\n", x, y);
    }
  }

  /** `s.startswith(p)` */
  predicate StartsWith(s: string, p: string) {
    |p| <= |s| && s[..|p|] == p
  }

  lemma StartsWithConcat(p: string, s: string)
    ensures StartsWith(p + s, p)
  {
    assert (p + s)[..|p|] == p;
  }

  lemma StartsWithExtend(s: string, p: string, t: string)
    requires StartsWith(s, p)
    ensures StartsWith(s + t, p)
  {
    assert (s + t)[..|p|] == s[..|p|];
  }

  /** Each part occurs, whole, in the joined string. */
  lemma {:induction false} JoinContains(sep: string, parts: seq<string>, i: nat) returns (a: string, c: string)
    requires i < |parts|
    ensures Join(sep, parts) == a + parts[i] + c
    decreases |parts|
  {
    if |parts| == 1 {
      a, c := "", "";
    } else if i == 0 {
      a, c := "", sep + Join(sep, parts[1..]);
    } else {
      var a', c' := JoinContains(sep, parts[1..], i - 1);
      a, c := parts[0] + sep + a', c';
    }
  }

  lemma NormalizeClean(h: string)
    requires CleanLine(h)
    ensures Normalize(h) == h
  {
    LinesOfJoin([h]);
    StripTrimmed(h);
    assert CleanLines([h]) == [h] + CleanLines([]);
  }

  lemma NormalizeEmpty()
    ensures Normalize("") == ""
  {
    assert Lines("") == [""];
    assert CleanLines([""]) == [] + CleanLines([]);
  }

  /** A clean heading line inserted after a blank line keeps its own line in the cleaned text. */
  lemma NormalizeSection(a: string, h: string, u: string)
    requires CleanLine(h)
    ensures Normalize(a + "\n\n" + h + "\n" + u) == Glue(Normalize(a), Glue(h, Normalize(u)))
  {
    var t := h + "\n" + u;
    var m := "" + "\n" + t;
    assert a + "\n\n" + h + "\n" + u == a + "\n" + m;
    NormalizeConcat(a, m);
    NormalizeConcat("", t);
    NormalizeConcat(h, u);
    NormalizeEmpty();
    NormalizeClean(h);
  }

  /** The lines of each string, one string after another. */
  function AllLines(rs: seq<string>): seq<string> {
    if rs == [] then [] else Lines(rs[0]) + AllLines(rs[1..])
  }

  /** The lines of a newline-joined list are the lines of its members, in order. */
  lemma {:induction false} LinesOfJoinAll(rs: seq<string>)
    requires rs != []
    ensures Lines(Join("\n", rs)) == AllLines(rs)
    decreases |rs|
  {
    if |rs| == 1 {
      assert AllLines(rs) == Lines(rs[0]) + AllLines([]);
    } else {
      assert Join("\n", rs) == rs[0] + ['\n'] + Join("\n", rs[1..]);
      LinesSplit(rs[0], '\n', Join("\n", rs[1..]));
      LinesOfJoinAll(rs[1..]);
    }
  }
}

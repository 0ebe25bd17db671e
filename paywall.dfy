/** The paywall heuristic of the article scrapers: the extracted body is searched, case-insensitively,
    for `subscribe`, `register`, or `sign` followed by `up` with at most one character (not a line
    break) in between. */
module Paywall {
  /** Python's `re.IGNORECASE` on the letters of the pattern: the ASCII letters, plus the three
      non-ASCII letters that Python's matcher treats as equal to one of them (long s, dotless i and
      capital I with dot above). */
  function Fold(c: char): (f: char)
    ensures 'A' <= c <= 'Z' ==> f as int == c as int + 32
    ensures f == '\n' <==> c == '\n'
  {
    if 'A' <= c <= 'Z' then (c as int + 32) as char
    else if c == '\U{017F}' then 's'
    else if c == '\U{0130}' || c == '\U{0131}' then 'i'
    else c
  }

  lemma FoldIdempotent(c: char)
    ensures Fold(Fold(c)) == Fold(c)
  {
  }

  /** The lower-case ASCII word `w` occurs in `s` at index `i`, ignoring case. */
  predicate WordAt(s: string, i: nat, w: string) {
    i + |w| <= |s| && forall k :: 0 <= k < |w| ==> Fold(s[i + k]) == w[k]
  }

  /** One of the three alternatives matches at index `i`. */
  predicate MatchAt(s: string, i: nat) {
    WordAt(s, i, "subscribe")
    || WordAt(s, i, "register")
    || (WordAt(s, i, "sign")
        && (WordAt(s, i + 4, "up") || (i + 4 < |s| && s[i + 4] != '\n' && WordAt(s, i + 5, "up"))))
  }

  /** `re.search(r'subscribe|sign.?up|register', s, re.IGNORECASE)` finds a match. */
  predicate Mentions(s: string) {
    exists i :: 0 <= i < |s| && MatchAt(s, i)
  }

  function FoldAll(s: string): (r: string)
    ensures |r| == |s| && forall i :: 0 <= i < |s| ==> r[i] == Fold(s[i])
  {
    seq(|s|, i requires 0 <= i < |s| => Fold(s[i]))
  }

  lemma WordAtFold(s: string, i: nat, w: string)
    ensures WordAt(FoldAll(s), i, w) == WordAt(s, i, w)
  {
    if i + |w| <= |s| {
      forall k | 0 <= k < |w| ensures Fold(FoldAll(s)[i + k]) == w[k] <==> Fold(s[i + k]) == w[k] {
        FoldIdempotent(s[i + k]);
      }
    }
  }

  /** Case does not matter: folding the whole text first finds exactly the same matches. */
  lemma MentionsIgnoresCase(s: string)
    ensures Mentions(FoldAll(s)) == Mentions(s)
  {
    forall i: nat ensures MatchAt(FoldAll(s), i) == MatchAt(s, i) {
      WordAtFold(s, i, "subscribe");
      WordAtFold(s, i, "register");
      WordAtFold(s, i, "sign");
      WordAtFold(s, i + 4, "up");
      WordAtFold(s, i + 5, "up");
    }
  }

  lemma WordAtShift(a: string, s: string, c: string, i: nat, w: string)
    requires WordAt(s, i, w)
    ensures WordAt(a + s + c, |a| + i, w)
  {
    forall k | 0 <= k < |w| ensures Fold((a + s + c)[|a| + i + k]) == w[k] {
      assert (a + s + c)[|a| + i + k] == s[i + k];
    }
  }

  /** The search looks everywhere: text around a match never hides it. */
  lemma MentionsInContext(a: string, s: string, c: string)
    requires Mentions(s)
    ensures Mentions(a + s + c)
  {
    var i :| 0 <= i < |s| && MatchAt(s, i);
    var t := a + s + c;
    if WordAt(s, i, "subscribe") {
      WordAtShift(a, s, c, i, "subscribe");
    } else if WordAt(s, i, "register") {
      WordAtShift(a, s, c, i, "register");
    } else {
      WordAtShift(a, s, c, i, "sign");
      if WordAt(s, i + 4, "up") {
        WordAtShift(a, s, c, i + 4, "up");
      } else {
        WordAtShift(a, s, c, i + 5, "up");
        assert t[|a| + i + 4] == s[i + 4];
      }
    }
    assert MatchAt(t, |a| + i);
  }

  /** "sign" and "up", in any case, separated by nothing or by one character that is not a line break
      ("signup", "Sign up", "SIGN-UP"), are a match. */
  lemma SignSepUp(a: string, sep: string, b: string)
    requires |a| == 4 && WordAt(a, 0, "sign") && |b| == 2 && WordAt(b, 0, "up")
    requires |sep| <= 1 && sep != "\n"
    ensures Mentions(a + sep + b)
  {
    var t := a + sep + b;
    WordAtShift([], a, sep + b, 0, "sign");
    assert [] + a + (sep + b) + [] == t;
    WordAtShift(a + sep, b, [], 0, "up");
    assert a + sep + b + [] == t;
    if sep != [] {
      assert t[4] == sep[0];
    }
    assert MatchAt(t, 0);
  }

  /** No alternative starts with a letter other than `s` or `r`. */
  lemma FirstLetter(s: string, i: nat)
    requires i < |s| && Fold(s[i]) != 's' && Fold(s[i]) != 'r'
    ensures !MatchAt(s, i)
  {
    assert "subscribe"[0] == 's' && "sign"[0] == 's' && "register"[0] == 'r';
  }

  /** A line break between the two words is not matched. */
  lemma SignUpAcrossLines()
    ensures !Mentions("sign\nup")
  {
    var s := "sign\nup";
    assert |s| == 7 && s[4] == '\n';
    assert !WordAt(s, 0, "subscribe") by { assert Fold(s[1]) != "subscribe"[1]; }
    assert !WordAt(s, 0, "register") by { assert Fold(s[0]) != "register"[0]; }
    assert !WordAt(s, 4, "up") by { assert Fold(s[4]) != "up"[0]; }
    assert !MatchAt(s, 0);
    forall i | 1 <= i < |s| ensures !MatchAt(s, i) {
      FirstLetter(s, i);
    }
  }

  /** How an article scraper treats the body it extracted. */
  datatype Gate =
    | NoGate
      /** `if not content or (not bypass_successful and re.search(...))`, or without the bypass term */
    | TextGate(honoursBypass: bool)

  /** The scraper reports a paywall instead of the article. */
  predicate Gated(g: Gate, body: string, bypass: bool) {
    g.TextGate? && (body == "" || (!(g.honoursBypass && bypass) && Mentions(body)))
  }
}

/**
 * extractPossibleLinks: every match, left to right, of the regular expression
 *
 *     (?i)\b((?:[a-z0-9-]+\.)+[a-z]{2,}(?:/[^\s]*)?)
 *
 * under Go's leftmost-first semantics (the match a backtracking matcher
 * would prefer), written out as a hand-made matcher. The matcher works on
 * positions in the whole text, so that \b sees the character before a
 * match. IsHost and IsLink describe the shape of a match independently of
 * the matcher.
 */
module Links {
  import opened Wrappers

  /**
   * What (?i)[a-z] matches: the ASCII letters of either case, plus the two
   * characters whose case folding reaches one (U+017F folds to s, U+212A
   * KELVIN SIGN to k).
   */
  predicate IsLetter(c: char)
  {
    ('a' <= c <= 'z') || ('A' <= c <= 'Z') || c == '\U{017F}' || c == '\U{212A}'
  }

  /** What (?i)[a-z0-9-] matches. */
  predicate IsLabelChar(c: char)
  {
    IsLetter(c) || ('0' <= c <= '9') || c == '-'
  }

  /** \w, which \b is defined by: ASCII only. */
  predicate IsWordChar(c: char)
  {
    ('a' <= c <= 'z') || ('A' <= c <= 'Z') || ('0' <= c <= '9') || c == '_'
  }

  /** \s: tab, newline, form feed, carriage return and space. */
  predicate IsRegexSpace(c: char)
  {
    c == '\t' || c == '\n' || c == '\U{000C}' || c == '\r' || c == ' '
  }

  /** \b at position p: a word character on exactly one side. */
  predicate AtWordBoundary(t: string, p: nat)
    requires p <= |t|
  {
    (p > 0 && IsWordChar(t[p - 1])) != (p < |t| && IsWordChar(t[p]))
  }

  /** The end of the longest run of label characters from i. */
  function LabelEnd(t: string, i: nat): (e: nat)
    requires i <= |t|
    decreases |t| - i
    ensures i <= e <= |t|
    ensures forall k :: i <= k < e ==> IsLabelChar(t[k])
    ensures e == |t| || !IsLabelChar(t[e])
  {
    if i < |t| && IsLabelChar(t[i]) then LabelEnd(t, i + 1) else i
  }

  /** The end of the longest run of letters from i. */
  function LetterEnd(t: string, i: nat): (e: nat)
    requires i <= |t|
    decreases |t| - i
    ensures i <= e <= |t|
    ensures forall k :: i <= k < e ==> IsLetter(t[k])
    ensures e == |t| || !IsLetter(t[e])
  {
    if i < |t| && IsLetter(t[i]) then LetterEnd(t, i + 1) else i
  }

  /** The end of the longest run of non-\s characters from i: [^\s]*. */
  function NonSpaceEnd(t: string, i: nat): (e: nat)
    requires i <= |t|
    decreases |t| - i
    ensures i <= e <= |t|
    ensures forall k :: i <= k < e ==> !IsRegexSpace(t[k])
  {
    if i < |t| && !IsRegexSpace(t[i]) then NonSpaceEnd(t, i + 1) else i
  }

  /** [a-z]{2,} at q, greedy: nothing follows it in the pattern that could make it give back letters. */
  function LetterTail(t: string, q: nat): (r: Option<nat>)
    requires q <= |t|
  {
    var l := LetterEnd(t, q);
    if l - q >= 2 then Some(l) else None
  }

  /**
   * (?:[a-z0-9-]+\.)+[a-z]{2,} at i, returning where the preferred match
   * ends: one label and its dot are required; the greedy + then first tries
   * one more repetition, and only when that cannot be completed stops and
   * matches the closing letters right after the dot.
   */
  function HostEnd(t: string, i: nat): (r: Option<nat>)
    requires i <= |t|
    decreases |t| - i
    ensures r.Some? ==> i < r.value <= |t|
    ensures r.Some? ==> forall k :: i <= k < r.value ==> IsLabelChar(t[k]) || t[k] == '.'
  {
    var e := LabelEnd(t, i);
    if e == i || e == |t| || t[e] != '.' then None
    else match HostEnd(t, e + 1) {
      case Some(h) => Some(h)
      case None => LetterTail(t, e + 1)
    }
  }

  /** The end of the preferred match that starts at p, if any: \b, the host, then an optional /path. */
  function MatchAt(t: string, p: nat): (r: Option<nat>)
    requires p <= |t|
    ensures r.Some? ==> p < r.value <= |t|
  {
    if !AtWordBoundary(t, p) then None
    else match HostEnd(t, p) {
      case None => None
      case Some(h) => Some(if h < |t| && t[h] == '/' then NonSpaceEnd(t, h + 1) else h)
    }
  }

  /**
   * FindAllString(text, -1) from position p: the leftmost match at or after
   * p, then the search resumes where it ended. Spans are (start, end) pairs.
   */
  function MatchSpans(t: string, p: nat): (r: seq<(nat, nat)>)
    requires p <= |t|
    decreases |t| - p
    ensures forall k :: 0 <= k < |r| ==> p <= r[k].0 < r[k].1 <= |t|
    ensures forall k :: 0 <= k < |r| - 1 ==> r[k].1 <= r[k + 1].0
  {
    if p == |t| then []
    else match MatchAt(t, p) {
      case Some(e) => [(p, e)] + MatchSpans(t, e)
      case None => MatchSpans(t, p + 1)
    }
  }

  /**
   * extractPossibleLinks: one link per span, in order; each is the text of
   * the preferred match at its start (LinksAreWellShaped gives its shape).
   */
  function ExtractPossibleLinks(text: string): (links: seq<string>)
    ensures |links| == |MatchSpans(text, 0)|
    ensures forall k :: 0 <= k < |links| ==>
      MatchAt(text, MatchSpans(text, 0)[k].0) == Some(MatchSpans(text, 0)[k].1) &&
      links[k] == text[MatchSpans(text, 0)[k].0 .. MatchSpans(text, 0)[k].1]
  {
    var spans := MatchSpans(text, 0);
    SpansStartMatches(text, 0);
    seq(|spans|, k requires 0 <= k < |spans| => text[spans[k].0 .. spans[k].1])
  }

  // ---------------------------------------------------------------------
  // The shape of a match, stated without the matcher.

  /** The position of the first c in s, or |s|. */
  function IndexOf(s: string, c: char): (d: nat)
    ensures d <= |s|
    ensures forall k :: 0 <= k < d ==> s[k] != c
    ensures d < |s| ==> s[d] == c
  {
    if s == [] || s[0] == c then 0 else 1 + IndexOf(s[1..], c)
  }

  predicate AllLabelChars(s: string)
  {
    forall k :: 0 <= k < |s| ==> IsLabelChar(s[k])
  }

  predicate AllLetters(s: string)
  {
    forall k :: 0 <= k < |s| ==> IsLetter(s[k])
  }

  /** One or more dot-terminated labels of [a-z0-9-], then a last label of two or more letters. */
  predicate IsHost(s: string)
    decreases |s|
  {
    var d := IndexOf(s, '.');
    0 < d < |s| && AllLabelChars(s[..d]) &&
    var rest := s[d + 1..];
    (|rest| >= 2 && AllLetters(rest)) || IsHost(rest)
  }

  /** A host, then optionally '/' and any characters other than \s. */
  predicate IsLink(s: string)
  {
    var k := IndexOf(s, '/');
    IsHost(s[..k]) && forall j :: k < j < |s| ==> !IsRegexSpace(s[j])
  }

  /** A label, a dot, and then closing letters or another host make a host. */
  lemma IsHostIntro(s: string, d: nat)
    requires 0 < d < |s| && s[d] == '.' && AllLabelChars(s[..d])
    requires (|s[d + 1..]| >= 2 && AllLetters(s[d + 1..])) || IsHost(s[d + 1..])
    ensures IsHost(s)
  {
    forall k | 0 <= k < d ensures s[k] != '.' {
      assert s[k] == s[..d][k];
    }
    assert IndexOf(s, '.') == d;
  }

  /** Positions [i, e) of t hold label characters. */
  predicate LabelRun(t: string, i: nat, e: nat)
    requires i <= e <= |t|
  {
    forall k :: i <= k < e ==> IsLabelChar(t[k])
  }

  /** Positions [j, h) of t hold two or more letters: the closing [a-z]{2,}. */
  predicate LetterRun(t: string, j: nat, h: nat)
    requires j <= h <= |t|
  {
    h - j >= 2 && forall k :: j <= k < h ==> IsLetter(t[k])
  }

  /** The same, read off positions of a text: a label in [i, e), a dot at e, then the rest up to h. */
  lemma IsHostSlice(t: string, i: nat, e: nat, h: nat)
    requires i < e < h <= |t| && t[e] == '.'
    requires forall k :: i <= k < e ==> IsLabelChar(t[k])
    requires LetterRun(t, e + 1, h) || IsHost(t[e + 1..h])
    ensures IsHost(t[i..h])
  {
    var s := t[i..h];
    assert s[..e - i] == t[i..e];
    assert s[e - i + 1..] == t[e + 1..h];
    forall k | 0 <= k < e - i ensures IsLabelChar(t[i..e][k]) {
      assert t[i..e][k] == t[i + k];
    }
    var rest := t[e + 1..h];
    if !IsHost(rest) {
      forall k | 0 <= k < |rest| ensures IsLetter(rest[k]) {
        assert rest[k] == t[e + 1 + k];
      }
    }
    IsHostIntro(s, e - i);
  }

  /** Every host HostEnd finds has the shape IsHost. */
  lemma {:induction false} HostEndIsHost(t: string, i: nat)
    requires i <= |t| && HostEnd(t, i).Some?
    ensures IsHost(t[i..HostEnd(t, i).value])
    decreases |t| - i
  {
    var h := HostEnd(t, i).value;
    var e := LabelEnd(t, i);
    assert i < e < |t| && t[e] == '.';
    match HostEnd(t, e + 1) {
      case Some(h') =>
        assert h' == h;
        HostEndIsHost(t, e + 1);
        IsHostSlice(t, i, e, h);
      case None =>
        assert h == LetterEnd(t, e + 1);
        assert LetterRun(t, e + 1, h);
        IsHostSlice(t, i, e, h);
    }
  }

  /** A host without '/', then nothing or '/' and non-\s characters, is a link. */
  lemma IsLinkSlice(t: string, p: nat, h: nat, e: nat)
    requires p < h <= e <= |t| && IsHost(t[p..h])
    requires forall k :: p <= k < h ==> t[k] != '/'
    requires e == h || (t[h] == '/' && forall k :: h < k < e ==> !IsRegexSpace(t[k]))
    ensures IsLink(t[p..e])
  {
    var s := t[p..e];
    forall k | 0 <= k < h - p ensures s[k] != '/' {
      assert s[k] == t[p + k];
    }
    assert IndexOf(s, '/') == h - p;
    assert s[..h - p] == t[p..h];
    forall j | h - p < j < |s| ensures !IsRegexSpace(s[j]) {
      assert s[j] == t[p + j];
    }
  }

  /** Every match has the shape IsLink and contains no \s character. */
  lemma MatchAtIsLink(t: string, p: nat)
    requires p <= |t| && MatchAt(t, p).Some?
    ensures IsLink(t[p..MatchAt(t, p).value])
    ensures forall k :: p <= k < MatchAt(t, p).value ==> !IsRegexSpace(t[k])
  {
    var h := HostEnd(t, p).value;
    var e := MatchAt(t, p).value;
    HostEndIsHost(t, p);
    assert forall k :: p <= k < h ==> t[k] != '/' && !IsRegexSpace(t[k]);
    IsLinkSlice(t, p, h, e);
  }

  /** Each extracted link has the shape IsLink and contains no white space. */
  lemma LinksAreWellShaped(text: string)
    ensures forall x :: x in ExtractPossibleLinks(text) ==>
      IsLink(x) && forall j :: 0 <= j < |x| ==> !IsRegexSpace(x[j])
  {
    SpansStartMatches(text, 0);
    var spans := MatchSpans(text, 0);
    var links := ExtractPossibleLinks(text);
    forall k | 0 <= k < |links|
      ensures IsLink(links[k]) && forall j :: 0 <= j < |links[k]| ==> !IsRegexSpace(links[k][j])
    {
      MatchIsLink(text, spans[k].0, spans[k].1);
    }
  }

  /** The text of a match has the shape IsLink and contains no white space. */
  lemma MatchIsLink(t: string, p: nat, e: nat)
    requires p <= |t| && MatchAt(t, p) == Some(e)
    ensures p <= e <= |t|
    ensures IsLink(t[p..e]) && forall j :: 0 <= j < |t[p..e]| ==> !IsRegexSpace(t[p..e][j])
  {
    MatchAtIsLink(t, p);
    forall j | 0 <= j < |t[p..e]| ensures !IsRegexSpace(t[p..e][j]) {
      assert t[p..e][j] == t[p + j];
    }
  }

  /** Position q lies inside one of the spans. */
  predicate Covered(spans: seq<(nat, nat)>, q: nat)
  {
    exists k :: 0 <= k < |spans| && spans[k].0 <= q < spans[k].1
  }

  /**
   * The spans are exactly Go's left-to-right, non-overlapping search: each
   * span is the preferred match at its start, and no match starts at a
   * position between spans.
   */
  lemma SpansAreMatches(t: string, p: nat)
    requires p <= |t|
    ensures forall k :: 0 <= k < |MatchSpans(t, p)| ==>
      MatchAt(t, MatchSpans(t, p)[k].0) == Some(MatchSpans(t, p)[k].1)
    ensures forall q :: p <= q < |t| && !Covered(MatchSpans(t, p), q) ==> MatchAt(t, q).None?
  {
    SpansStartMatches(t, p);
    GapsHaveNoMatch(t, p);
  }

  lemma {:induction false} SpansStartMatches(t: string, p: nat)
    requires p <= |t|
    decreases |t| - p
    ensures forall k :: 0 <= k < |MatchSpans(t, p)| ==>
      MatchAt(t, MatchSpans(t, p)[k].0) == Some(MatchSpans(t, p)[k].1)
  {
    if p < |t| {
      match MatchAt(t, p) {
        case Some(e) =>
          SpansStartMatches(t, e);
          var rest := MatchSpans(t, e);
          assert MatchSpans(t, p) == [(p, e)] + rest;
        case None =>
          SpansStartMatches(t, p + 1);
      }
    }
  }

  lemma {:induction false} GapsHaveNoMatch(t: string, p: nat)
    requires p <= |t|
    decreases |t| - p
    ensures forall q :: p <= q < |t| && !Covered(MatchSpans(t, p), q) ==> MatchAt(t, q).None?
  {
    if p < |t| {
      var spans := MatchSpans(t, p);
      match MatchAt(t, p) {
        case Some(e) =>
          GapsHaveNoMatch(t, e);
          var rest := MatchSpans(t, e);
          assert spans == [(p, e)] + rest;
          forall q | p <= q < |t| && !Covered(spans, q) ensures MatchAt(t, q).None? {
            CoveredCons(p, e, rest, q);
          }
        case None =>
          GapsHaveNoMatch(t, p + 1);
          assert spans == MatchSpans(t, p + 1);
      }
    }
  }

  /** A position in [p, e) or inside a span of rest is inside a span of [(p, e)] + rest. */
  lemma CoveredCons(p: nat, e: nat, rest: seq<(nat, nat)>, q: nat)
    ensures (p <= q < e || Covered(rest, q)) ==> Covered([(p, e)] + rest, q)
  {
    var spans := [(p, e)] + rest;
    if p <= q < e {
      assert spans[0].0 <= q < spans[0].1;
    } else if Covered(rest, q) {
      var k :| 0 <= k < |rest| && rest[k].0 <= q < rest[k].1;
      assert spans[k + 1] == rest[k];
    }
  }

  // ---------------------------------------------------------------------
  // The other direction: text of the link shape is found.

  /** A run of label characters from i that stops at a character that is not one ends where LabelEnd says. */
  lemma {:induction false} LabelEndAt(t: string, i: nat, j: nat)
    requires i <= j < |t| && !IsLabelChar(t[j])
    requires forall k :: i <= k < j ==> IsLabelChar(t[k])
    ensures LabelEnd(t, i) == j
    decreases j - i
  {
    if i < j {
      LabelEndAt(t, i + 1, j);
    }
  }

  /** A run of letters from i that stops at a character that is not one ends where LetterEnd says. */
  lemma {:induction false} LetterEndAt(t: string, i: nat, j: nat)
    requires i <= j < |t| && !IsLetter(t[j])
    requires forall k :: i <= k < j ==> IsLetter(t[k])
    ensures LetterEnd(t, i) == j
    decreases j - i
  {
    if i < j {
      LetterEndAt(t, i + 1, j);
    }
  }

  /** A run of label characters from i up to h is passed over by LabelEnd. */
  lemma {:induction false} LabelEndPast(t: string, i: nat, h: nat)
    requires i <= h <= |t|
    requires forall k :: i <= k < h ==> IsLabelChar(t[k])
    ensures LabelEnd(t, i) >= h
    decreases h - i
  {
    if i < h {
      LabelEndPast(t, i + 1, h);
    }
  }

  /** A run of letters from i up to h is passed over by LetterEnd. */
  lemma {:induction false} LetterEndPast(t: string, i: nat, h: nat)
    requires i <= h <= |t|
    requires forall k :: i <= k < h ==> IsLetter(t[k])
    ensures LetterEnd(t, i) >= h
    decreases h - i
  {
    if i < h {
      LetterEndPast(t, i + 1, h);
    }
  }

  /** A host in t[p..h] splits at its first dot e into a label [p, e) and a rest that is a host or closing letters. */
  lemma HostSplit(t: string, p: nat, h: nat) returns (e: nat, more: bool)
    requires p < h <= |t| && IsHost(t[p..h])
    ensures p < e && e + 1 < h && t[e] == '.'
    ensures LabelRun(t, p, e)
    ensures more ==> IsHost(t[e + 1..h])
    ensures !more ==> LetterRun(t, e + 1, h)
  {
    var s := t[p..h];
    var d := IndexOf(s, '.');
    e := p + d;
    forall k | p <= k < e ensures IsLabelChar(t[k]) {
      assert t[k] == s[..d][k - p];
    }
    assert t[e] == s[d];
    var rest := s[d + 1..];
    assert rest == t[e + 1..h];
    more := IsHost(rest);
    if !more {
      forall k | e + 1 <= k < h ensures IsLetter(t[k]) {
        assert t[k] == rest[k - e - 1];
      }
    }
  }

  /** HostEnd succeeds at i and ends no earlier than h. */
  predicate HostEndsBeyond(t: string, i: nat, h: nat)
    requires i <= |t|
  {
    HostEnd(t, i).Some? && HostEnd(t, i).value >= h
  }

  /**
   * Every host is found: when the text holds a host from p to h, HostEnd
   * succeeds at p and, being greedy, ends no earlier than h.
   */
  lemma {:induction false} HostFound(t: string, p: nat, h: nat)
    requires p < h <= |t| && IsHost(t[p..h])
    ensures HostEndsBeyond(t, p, h)
    decreases h - p, 1
  {
    var e, more := HostSplit(t, p, h);
    HostFoundFrom(t, p, e, h, more);
  }

  /** The same, once the first label [p, e) is split off; more says whether another label follows its dot. */
  lemma {:induction false} HostFoundFrom(t: string, p: nat, e: nat, h: nat, more: bool)
    requires p < e && e + 1 < h <= |t| && t[e] == '.'
    requires LabelRun(t, p, e)
    requires more ==> IsHost(t[e + 1..h])
    requires !more ==> LetterRun(t, e + 1, h)
    ensures HostEndsBeyond(t, p, h)
    decreases h - p, 0
  {
    if more {
      HostFound(t, e + 1, h);
      HostAfterLabel(t, p, e, h, true);
    } else {
      HostAfterLabel(t, p, e, h, false);
    }
  }

  /** One step of the same: a label [p, e) and a dot, then a rest HostEnd finds to h or beyond, or closing letters. */
  lemma HostAfterLabel(t: string, p: nat, e: nat, h: nat, more: bool)
    requires p < e && e + 1 < h <= |t| && t[e] == '.'
    requires LabelRun(t, p, e)
    requires more ==> HostEndsBeyond(t, e + 1, h)
    requires !more ==> LetterRun(t, e + 1, h)
    ensures HostEndsBeyond(t, p, h)
  {
    LabelEndAt(t, p, e);
    HostEndStep(t, p, e);
    if !more {
      ClosingLettersFound(t, e + 1, h);
    }
  }

  /** HostEnd past its first label: the preferred match of the rest, or else the closing letters. */
  lemma HostEndStep(t: string, p: nat, e: nat)
    requires p < e < |t| && t[e] == '.' && LabelEnd(t, p) == e
    ensures HostEnd(t, p) == if HostEnd(t, e + 1).Some? then HostEnd(t, e + 1) else LetterTail(t, e + 1)
  {
  }

  /** Closing letters up to h leave HostEnd, or failing it LetterTail, ending no earlier than h. */
  lemma ClosingLettersFound(t: string, j: nat, h: nat)
    requires j <= h <= |t| && LetterRun(t, j, h)
    ensures HostEnd(t, j).Some? ==> HostEnd(t, j).value >= h
    ensures HostEnd(t, j).None? ==> LetterTail(t, j).Some? && LetterTail(t, j).value >= h
  {
    if HostEnd(t, j).Some? {
      LabelEndPast(t, j, h);
    } else {
      LetterEndPast(t, j, h);
    }
  }

  /**
   * Every link-shaped word is found: at a word boundary q where a host
   * starts, some extracted span covers q; and when no span before q
   * reaches past it, a span starts at q and runs at least to the host's end.
   */
  lemma HostIsExtracted(t: string, q: nat, h: nat)
    requires q < h <= |t| && AtWordBoundary(t, q) && IsHost(t[q..h])
    ensures Covered(MatchSpans(t, 0), q)
    ensures (forall k :: 0 <= k < |MatchSpans(t, 0)| && MatchSpans(t, 0)[k].0 < q ==> MatchSpans(t, 0)[k].1 <= q) ==>
      exists k :: 0 <= k < |MatchSpans(t, 0)| && MatchSpans(t, 0)[k].0 == q && MatchSpans(t, 0)[k].1 >= h
  {
    HostFound(t, q, h);
    assert MatchAt(t, q).Some? && MatchAt(t, q).value >= h;
    SpansAreMatches(t, 0);
    var spans := MatchSpans(t, 0);
    var k :| 0 <= k < |spans| && spans[k].0 <= q < spans[k].1;
    if spans[k].0 == q {
      assert MatchAt(t, q) == Some(spans[k].1);
    }
  }

  /** A shorter slice from the same start is a prefix. */
  lemma SlicePrefix(t: string, q: nat, h: nat, e: nat)
    requires q <= h <= e <= |t|
    ensures t[q..h] <= t[q..e]
  {
    assert t[q..h] == t[q..e][..h - q];
  }

  /**
   * The same for the links: a host at a word boundary that no earlier link
   * runs over is the beginning of an extracted link.
   */
  lemma HostBeginsALink(t: string, q: nat, h: nat)
    requires q < h <= |t| && AtWordBoundary(t, q) && IsHost(t[q..h])
    requires forall k :: 0 <= k < |MatchSpans(t, 0)| && MatchSpans(t, 0)[k].0 < q ==> MatchSpans(t, 0)[k].1 <= q
    ensures exists x :: x in ExtractPossibleLinks(t) && t[q..h] <= x
  {
    HostIsExtracted(t, q, h);
    var spans := MatchSpans(t, 0);
    var links := ExtractPossibleLinks(t);
    var k :| 0 <= k < |spans| && spans[k].0 == q && spans[k].1 >= h;
    var x := links[k];
    assert x == t[q..spans[k].1];
    SlicePrefix(t, q, h, spans[k].1);
    assert x in links;
  }

  /** Text without a '.' has no links. */
  lemma {:induction false} NoDotNoLinks(text: string)
    requires forall k :: 0 <= k < |text| ==> text[k] != '.'
    ensures ExtractPossibleLinks(text) == []
  {
    NoDotNoSpans(text, 0);
  }

  lemma {:induction false} NoDotNoSpans(t: string, p: nat)
    requires p <= |t|
    requires forall k :: 0 <= k < |t| ==> t[k] != '.'
    ensures MatchSpans(t, p) == []
    decreases |t| - p
  {
    if p < |t| {
      assert HostEnd(t, p).None?;
      NoDotNoSpans(t, p + 1);
    }
  }
}

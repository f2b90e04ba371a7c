/**
 * extractPossibleLinks on a worked message: "check out foo.example.com and
 * bar.example.org!!" yields the two host names, in order.
 */
module LinksExample {
  import opened Wrappers
  import opened Links

  /** Positions q..j start no host: a dot-free run of label characters ends at j on a character that is neither. */
  lemma NoHostIn(t: string, q: nat, j: nat)
    requires q <= j < |t| && !IsLabelChar(t[j]) && t[j] != '.'
    requires LabelRun(t, q, j)
    ensures forall r :: q <= r <= j ==> HostEnd(t, r).None?
  {
    forall r | q <= r <= j ensures HostEnd(t, r).None? {
      LabelEndAt(t, r, j);
    }
  }

  /** Where no match starts, the search moves on with nothing found. */
  lemma {:induction false} SkipNoMatch(t: string, p: nat, p': nat)
    requires p <= p' <= |t|
    requires forall q :: p <= q < p' ==> MatchAt(t, q).None?
    ensures MatchSpans(t, p) == MatchSpans(t, p')
    decreases p' - p
  {
    if p < p' {
      SkipNoMatch(t, p + 1, p');
    }
  }

  /** A last label of letters [j, e), ended by neither a label character nor '.', is matched by the closing [a-z]{2,} alone. */
  lemma LastLabel(t: string, j: nat, e: nat)
    requires j <= e < |t| && !IsLabelChar(t[e]) && t[e] != '.'
    requires LetterRun(t, j, e)
    ensures HostEnd(t, j).None? && LetterTail(t, j) == Some(e)
  {
    LabelEndAt(t, j, e);
    LetterEndAt(t, j, e);
  }

  /** A label [p, d) and its dot, followed by a host HostEnd finds, extend that host. */
  lemma LabelThenHost(t: string, p: nat, d: nat, e: nat)
    requires p < d < |t| && t[d] == '.' && HostEnd(t, d + 1) == Some(e)
    requires LabelRun(t, p, d)
    ensures HostEnd(t, p) == Some(e)
  {
    LabelEndAt(t, p, d);
    HostEndStep(t, p, d);
  }

  /** A label [p, d) and its dot, followed by closing letters only, make a host ending with them. */
  lemma LabelThenLetters(t: string, p: nat, d: nat, e: nat)
    requires p < d < |t| && t[d] == '.' && HostEnd(t, d + 1).None? && LetterTail(t, d + 1) == Some(e)
    requires LabelRun(t, p, d)
    ensures HostEnd(t, p) == Some(e)
  {
    LabelEndAt(t, p, d);
    HostEndStep(t, p, d);
  }

  /**
   * A host of two dotted labels [p, d1) and (d1, d2) and a last label
   * (d2, e), at a word boundary and followed by neither a label character,
   * '.' nor '/', is matched whole.
   */
  lemma TwoDotMatch(t: string, p: nat, d1: nat, d2: nat, e: nat)
    requires p < d1 && d1 + 1 < d2 && d2 < e < |t| && AtWordBoundary(t, p)
    requires t[d1] == '.' && t[d2] == '.' && !IsLabelChar(t[e]) && t[e] != '.' && t[e] != '/'
    requires LabelRun(t, p, d1) && LabelRun(t, d1 + 1, d2) && LetterRun(t, d2 + 1, e)
    ensures MatchAt(t, p) == Some(e)
  {
    LastLabel(t, d2 + 1, e);
    LabelThenLetters(t, d1 + 1, d2, e);
    LabelThenHost(t, p, d1, e);
    HostMatch(t, p, e);
  }

  /** A host at a word boundary that no '/' follows is the whole match. */
  lemma HostMatch(t: string, p: nat, e: nat)
    requires p < e < |t| && AtWordBoundary(t, p) && HostEnd(t, p) == Some(e) && t[e] != '/'
    ensures MatchAt(t, p) == Some(e)
  {
  }

  const FooHost := "foo.example.com"
  const BarHost := "bar.example.org"
  /** A message naming two hosts, the second followed by punctuation. */
  const TwoHostMessage := "check out " + FooHost + " and " + BarHost + "!!"

  /** The characters of TwoHostMessage, a dozen at a time. */
  predicate MessageChars0(t: string)
    requires |t| == 47
  {
    t[0] == 'c' && t[1] == 'h' && t[2] == 'e' && t[3] == 'c' && t[4] == 'k' && t[5] == ' ' &&
    t[6] == 'o' && t[7] == 'u' && t[8] == 't' && t[9] == ' ' && t[10] == 'f' && t[11] == 'o'
  }

  predicate MessageChars1(t: string)
    requires |t| == 47
  {
    t[12] == 'o' && t[13] == '.' && t[14] == 'e' && t[15] == 'x' && t[16] == 'a' && t[17] == 'm' &&
    t[18] == 'p' && t[19] == 'l' && t[20] == 'e' && t[21] == '.' && t[22] == 'c' && t[23] == 'o'
  }

  predicate MessageChars2(t: string)
    requires |t| == 47
  {
    t[24] == 'm' && t[25] == ' ' && t[26] == 'a' && t[27] == 'n' && t[28] == 'd' && t[29] == ' ' &&
    t[30] == 'b' && t[31] == 'a' && t[32] == 'r' && t[33] == '.' && t[34] == 'e' && t[35] == 'x'
  }

  predicate MessageChars3(t: string)
    requires |t| == 47
  {
    t[36] == 'a' && t[37] == 'm' && t[38] == 'p' && t[39] == 'l' && t[40] == 'e' && t[41] == '.' &&
    t[42] == 'o' && t[43] == 'r' && t[44] == 'g' && t[45] == '!' && t[46] == '!'
  }

  /** A text of the message's length and characters. */
  predicate MessageShape(t: string)
  {
    |t| == 47 && MessageChars0(t) && MessageChars1(t) && MessageChars2(t) && MessageChars3(t)
  }

  /** TwoHostMessage has that shape. */
  lemma TwoHostMessageShape()
    ensures MessageShape(TwoHostMessage)
  {
    assert |TwoHostMessage| == 47;
    assert MessageChars0(TwoHostMessage);
    assert MessageChars1(TwoHostMessage);
    assert MessageChars2(TwoHostMessage);
    assert MessageChars3(TwoHostMessage);
  }

  /** The search from the end of the first host on finds only the second. */
  lemma MessageSpansFrom25(t: string)
    requires MessageShape(t)
    ensures MatchSpans(t, 25) == [(30, 45)]
  {
    NoHostIn(t, 45, 45);
    NoHostIn(t, 46, 46);
    SkipNoMatch(t, 45, 47);
    TwoDotMatch(t, 30, 33, 41, 45);
    NoHostIn(t, 25, 25);
    NoHostIn(t, 26, 29);
    SkipNoMatch(t, 25, 30);
  }

  /** The whole search: the two host names, and nothing in "check out ", " and " or "!!". */
  lemma MessageSpans(t: string)
    requires MessageShape(t)
    ensures MatchSpans(t, 0) == [(10, 25), (30, 45)]
  {
    MessageSpansFrom25(t);
    TwoDotMatch(t, 10, 13, 21, 25);
    NoHostIn(t, 0, 5);
    NoHostIn(t, 6, 9);
    SkipNoMatch(t, 0, 10);
  }

  /** The links of a text of the message's shape are the two host names, by position. */
  lemma MessageLinks(t: string)
    requires MessageShape(t)
    ensures ExtractPossibleLinks(t) == [t[10..25], t[30..45]]
  {
    MessageSpans(t);
  }

  /** Where the two host names sit in the message. */
  lemma MessageHosts()
    ensures TwoHostMessage[10..25] == FooHost && TwoHostMessage[30..45] == BarHost
  {
  }

  /** The two hosts of the message are its links, in order, and the "!!" after the second is left out. */
  lemma TwoHostMessageLinks()
    ensures ExtractPossibleLinks(TwoHostMessage) == [FooHost, BarHost]
  {
    TwoHostMessageShape();
    MessageLinks(TwoHostMessage);
    MessageHosts();
  }
}

/**
 * String helpers shared by the handler and the store: Go's notion of white
 * space (unicode.IsSpace) and strings.TrimSpace.
 */
module Text {

  /** unicode.IsSpace: the Latin-1 spaces plus the Unicode White_Space code points above Latin-1. */
  predicate IsSpace(c: char)
  {
    || c == '\t' || c == '\n' || c == '\U{000B}' || c == '\U{000C}' || c == '\r' || c == ' '
    || c == '\U{0085}' || c == '\U{00A0}' || c == '\U{1680}'
    || ('\U{2000}' <= c <= '\U{200A}')
    || c == '\U{2028}' || c == '\U{2029}' || c == '\U{202F}' || c == '\U{205F}' || c == '\U{3000}'
  }

  /** Every character of s is white space (vacuously true of ""). */
  predicate AllSpace(s: string)
  {
    forall k :: 0 <= k < |s| ==> IsSpace(s[k])
  }

  /** Drops leading white space. */
  function TrimLeftSpace(s: string): string
  {
    if s != [] && IsSpace(s[0]) then TrimLeftSpace(s[1..]) else s
  }

  /** Drops trailing white space. */
  function TrimRightSpace(s: string): string
  {
    if s != [] && IsSpace(s[|s| - 1]) then TrimRightSpace(s[..|s| - 1]) else s
  }

  /** TrimLeftSpace gives a suffix of s that does not start with space, and only space was dropped. */
  lemma {:induction false} TrimLeftSpaceSpec(s: string)
    ensures |TrimLeftSpace(s)| <= |s| && TrimLeftSpace(s) == s[|s| - |TrimLeftSpace(s)|..]
    ensures AllSpace(s[..|s| - |TrimLeftSpace(s)|])
    ensures TrimLeftSpace(s) == [] || !IsSpace(TrimLeftSpace(s)[0])
  {
    if s != [] && IsSpace(s[0]) {
      TrimLeftSpaceSpec(s[1..]);
      var n := |s| - |TrimLeftSpace(s)|;
      assert s[..n] == [s[0]] + s[1..][..n - 1];
    }
  }

  /** TrimRightSpace gives a prefix of s that does not end with space, and only space was dropped. */
  lemma {:induction false} TrimRightSpaceSpec(s: string)
    ensures |TrimRightSpace(s)| <= |s| && TrimRightSpace(s) == s[..|TrimRightSpace(s)|]
    ensures AllSpace(s[|TrimRightSpace(s)|..])
    ensures TrimRightSpace(s) == [] || !IsSpace(TrimRightSpace(s)[|TrimRightSpace(s)| - 1])
  {
    if s != [] && IsSpace(s[|s| - 1]) {
      var init := s[..|s| - 1];
      TrimRightSpaceSpec(init);
      var m := |TrimRightSpace(s)|;
      assert s[m..] == init[m..] + [s[|s| - 1]];
    }
  }

  /** strings.TrimSpace. */
  function TrimSpace(s: string): (r: string)
  {
    TrimRightSpace(TrimLeftSpace(s))
  }

  /** Where the trimmed text starts inside s. */
  function TrimStart(s: string): nat
  {
    TrimLeftSpaceSpec(s);
    |s| - |TrimLeftSpace(s)|
  }

  /**
   * TrimSpace cuts one contiguous piece out of s; everything cut away on
   * either side is white space, and the piece neither starts nor ends with it.
   */
  lemma TrimSpaceSlice(s: string)
    ensures TrimStart(s) + |TrimSpace(s)| <= |s|
    ensures TrimSpace(s) == s[TrimStart(s)..TrimStart(s) + |TrimSpace(s)|]
    ensures AllSpace(s[..TrimStart(s)]) && AllSpace(s[TrimStart(s) + |TrimSpace(s)|..])
    ensures TrimSpace(s) == [] || (!IsSpace(TrimSpace(s)[0]) && !IsSpace(TrimSpace(s)[|TrimSpace(s)| - 1]))
  {
    var l := TrimLeftSpace(s);
    var i := TrimStart(s);
    var r := TrimRightSpace(l);
    TrimLeftSpaceSpec(s);
    TrimRightSpaceSpec(l);
    assert l == s[i..];
    assert r == s[i..i + |r|];
    assert s[i + |r|..] == l[|r|..];
    if r != [] {
      assert r[0] == l[0];
    }
  }

  /** The trimmed text is empty exactly when the whole text is white space. */
  lemma TrimSpaceEmptyIff(s: string)
    ensures TrimSpace(s) == [] <==> AllSpace(s)
  {
    TrimSpaceSlice(s);
    var i := TrimStart(s);
    if TrimSpace(s) == [] {
      TrimLeftSpaceSpec(s);
      TrimRightSpaceSpec(TrimLeftSpace(s));
      assert TrimLeftSpace(s) == [];
      assert s[..i] == s;
    } else {
      assert s[i] == TrimSpace(s)[0];
    }
  }

  /** Trimming twice is trimming once. */
  lemma TrimSpaceIdempotent(s: string)
    ensures TrimSpace(TrimSpace(s)) == TrimSpace(s)
  {
    TrimSpaceSlice(s);
    var r := TrimSpace(s);
    if r != [] {
      assert TrimLeftSpace(r) == r;
      assert TrimRightSpace(r) == r;
    }
  }
}

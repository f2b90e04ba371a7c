/**
 * Secret masking for the access log: mask keeps at most the first and the
 * last four bytes of a secret, and isSensitiveHeader says whether a header
 * name, in any letter case, is one whose value must be masked.
 */
module Sanitize {
  import opened Bytes

  /** "****" */
  const Stars: seq<byte> := [42, 42, 42, 42]

  /**
   * mask: "" stays "", a secret of at most eight bytes becomes "****", a
   * longer one keeps its first and last four bytes around "****".
   */
  function Mask(s: seq<byte>): (r: seq<byte>)
    ensures r == [] <==> s == []
    ensures 1 <= |s| <= 8 ==> r == Stars
    ensures |s| > 8 ==> |r| == 12 && r[..4] == s[..4] && r[4..8] == Stars && r[8..] == s[|s| - 4..]
  {
    if s == [] then []
    else if |s| <= 8 then Stars
    else s[..4] + Stars + s[|s| - 4..]
  }

  /**
   * mask reveals nothing but whether the secret is empty, short or long,
   * and for a long one its first and last four bytes: two secrets have the
   * same mask exactly when they agree on these.
   */
  lemma MaskRevealsOnlyTheEnds(s: seq<byte>, s': seq<byte>)
    ensures Mask(s) == Mask(s') <==>
      (s == [] && s' == []) ||
      (1 <= |s| <= 8 && 1 <= |s'| <= 8) ||
      (|s| > 8 && |s'| > 8 && s[..4] == s'[..4] && s[|s| - 4..] == s'[|s'| - 4..])
  {
    if Mask(s) == Mask(s') && |s| > 8 && |s'| > 8 {
      assert Mask(s)[..4] == Mask(s')[..4];
      assert Mask(s)[8..] == Mask(s')[8..];
    }
    if |s| > 8 && 1 <= |s'| <= 8 {
      assert |Mask(s)| != |Mask(s')|;
    }
    if 1 <= |s| <= 8 && |s'| > 8 {
      assert |Mask(s)| != |Mask(s')|;
    }
  }

  /** The middle of a long secret, everything but its first and last four bytes, never reaches the mask. */
  lemma MaskHidesTheMiddle(s: seq<byte>, middle: seq<byte>)
    requires |s| > 8 && middle != []
    ensures |s[..4] + middle + s[|s| - 4..]| > 8
    ensures Mask(s[..4] + middle + s[|s| - 4..]) == Mask(s)
  {
    var t := s[..4] + middle + s[|s| - 4..];
    assert t[..4] == s[..4];
    assert t[|t| - 4..] == s[|s| - 4..];
    MaskRevealsOnlyTheEnds(t, s);
  }

  /** The header names whose values are masked, in lower case. */
  const XLineSignature := "x-line-signature"
  const Authorization := "authorization"
  const XApiKey := "x-api-key"
  const SensitiveHeaders: set<string> := {XLineSignature, Authorization, XApiKey}

  /**
   * unicode.ToLower on the runes that matter here: the ASCII capitals, and
   * the two other runes whose lower case is an ASCII letter, U+0130 (to
   * 'i') and the Kelvin sign U+212A (to 'k'). Every other rune is kept.
   */
  function LowerRune(c: char): (l: char)
    ensures 'A' <= c <= 'Z' ==> l as int == c as int + 32
    ensures ('a' <= l <= 'z') <==> ('a' <= c <= 'z' || 'A' <= c <= 'Z' || c == '\U{0130}' || c == '\U{212A}')
  {
    if 'A' <= c <= 'Z' then (c as int + 32) as char
    else if c == '\U{0130}' then 'i'
    else if c == '\U{212A}' then 'k'
    else c
  }

  /** strings.ToLower, rune by rune. */
  function ToLower(s: string): string
  {
    seq(|s|, k requires 0 <= k < |s| => LowerRune(s[k]))
  }

  /** Lower-casing a lower-cased name changes nothing. */
  lemma ToLowerIdempotent(s: string)
    ensures ToLower(ToLower(s)) == ToLower(s)
  {
    var l := ToLower(s);
    assert forall k :: 0 <= k < |l| ==> LowerRune(l[k]) == l[k];
  }

  /** isSensitiveHeader: the name, lower-cased, is one of the sensitive names. */
  function IsSensitiveHeader(key: string): bool
  {
    var l := ToLower(key);
    l == XLineSignature || l == Authorization || l == XApiKey
  }

  /**
   * A header is sensitive exactly when it has the length of one of the
   * sensitive names and each of its runes lower-cases to that name's rune.
   */
  lemma SensitiveHeaderRuneByRune(key: string)
    ensures IsSensitiveHeader(key) <==>
      exists name :: name in SensitiveHeaders && |name| == |key| &&
                     forall k :: 0 <= k < |key| ==> LowerRune(key[k]) == name[k]
  {
    var l := ToLower(key);
    assert forall name :: (name in SensitiveHeaders && |name| == |key| &&
                           (forall k :: 0 <= k < |key| ==> LowerRune(key[k]) == name[k])) ==> name == l;
  }

  /** The lookup ignores letter case: a name and its lower case are equally sensitive. */
  lemma SensitiveHeaderIgnoresCase(key: string)
    ensures IsSensitiveHeader(key) == IsSensitiveHeader(ToLower(key))
  {
    ToLowerIdempotent(key);
  }

  /** The signature header as the LINE platform spells it is sensitive. */
  lemma LineSignatureIsSensitive()
    ensures IsSensitiveHeader("X-Line-Signature")
  {
    assert ToLower("X-Line-Signature") == "x-line-signature";
  }

  lemma AuthorizationIsSensitive()
    ensures IsSensitiveHeader("Authorization")
  {
    assert ToLower("Authorization") == "authorization";
  }

  /** A Kelvin sign standing for the k of x-api-key still names a sensitive header. */
  lemma KelvinSignApiKeyIsSensitive()
    ensures IsSensitiveHeader("X-API-\U{212A}EY")
  {
    assert ToLower("X-API-\U{212A}EY") == "x-api-key";
  }

  /** A header outside the list is logged as it is. */
  lemma ContentTypeIsNotSensitive()
    ensures !IsSensitiveHeader("Content-Type")
  {
    var l := ToLower("Content-Type");
    assert |l| == 12;
    assert l != "x-line-signature" && l != "authorization" && l != "x-api-key";
  }
}

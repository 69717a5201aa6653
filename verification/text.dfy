/** JavaScript's `String.prototype.trim` and the truthiness of its result, which
    the navigation bar uses to decide whether a search query is worth acting on. */
module Text {

  /** ECMAScript's WhiteSpace and LineTerminator code points: the characters `trim` removes. */
  predicate IsWhitespace(c: char) {
    || c == '\t' || c == '\n' || c == '\U{000B}' || c == '\U{000C}' || c == '\r'
    || c == ' ' || c == '\U{00A0}' || c == '\U{1680}'
    || ('\U{2000}' <= c <= '\U{200A}')
    || c == '\U{2028}' || c == '\U{2029}' || c == '\U{202F}' || c == '\U{205F}'
    || c == '\U{3000}' || c == '\U{FEFF}'
  }

  /** Number of whitespace characters at the start of `s`. */
  function LeadingSpace(s: string): (k: nat)
    ensures k <= |s|
    ensures forall i :: 0 <= i < k ==> IsWhitespace(s[i])
    ensures k < |s| ==> !IsWhitespace(s[k])
  {
    if |s| > 0 && IsWhitespace(s[0]) then 1 + LeadingSpace(s[1..]) else 0
  }

  /** Index where the run of whitespace at the end of `s` begins. */
  function TrailingSpaceStart(s: string): (e: nat)
    ensures e <= |s|
    ensures forall i :: e <= i < |s| ==> IsWhitespace(s[i])
    ensures e > 0 ==> !IsWhitespace(s[e - 1])
  {
    if |s| > 0 && IsWhitespace(s[|s| - 1]) then TrailingSpaceStart(s[..|s| - 1]) else |s|
  }

  /** Only whitespace lies outside the slice `s[a..b]`. */
  predicate OnlySpaceOutside(s: string, a: nat, b: nat)
    requires a <= b <= |s|
  {
    && (forall i :: 0 <= i < a ==> IsWhitespace(s[i]))
    && (forall i :: b <= i < |s| ==> IsWhitespace(s[i]))
  }

  /** `s` without its leading and trailing whitespace. */
  function Trim(s: string): (r: string)
    ensures exists a: nat, b: nat :: a <= b <= |s| && r == s[a..b] && OnlySpaceOutside(s, a, b)
    ensures |r| > 0 ==> !IsWhitespace(r[0]) && !IsWhitespace(r[|r| - 1])
  {
    var a := LeadingSpace(s);
    var t := s[a..];
    var e := TrailingSpaceStart(t);
    assert s[a..][..e] == s[a..a + e];
    s[a..a + e]
  }

  /** JavaScript truthiness of `s.trim()`: the trimmed string is non-empty. */
  predicate HasText(s: string)
  {
    |Trim(s)| > 0
  }

  /** `s.trim()` is truthy exactly when `s` holds a character that is not whitespace. */
  lemma HasTextIffNonSpace(s: string)
    ensures HasText(s) <==> exists i :: 0 <= i < |s| && !IsWhitespace(s[i])
  {
    var r := Trim(s);
    var a: nat, b: nat :| a <= b <= |s| && r == s[a..b] && OnlySpaceOutside(s, a, b);
    if |r| > 0 {
      assert s[a] == r[0];
    } else {
      assert a == b;
      forall i | 0 <= i < |s|
        ensures IsWhitespace(s[i])
      {
        if i >= a {
          assert i >= b;
        }
      }
    }
  }
}

/**
 * JavaScript's String.prototype.trim, which the name form and the
 * questionnaire's free-text answers use: it strips white space and line
 * terminators from both ends and keeps everything in between.
 */
module JsString {

  /** The characters trimming removes: ECMAScript WhiteSpace and LineTerminator. */
  predicate IsWhitespace(c: char)
  {
    c == ' ' || c == '\t' || c == '\n' || c == '\r' ||
    c as int in {0x0B, 0x0C, 0xA0, 0x1680, 0x2028, 0x2029, 0x202F, 0x205F, 0x3000, 0xFEFF} ||
    (0x2000 <= c as int <= 0x200A)
  }

  /** True when every character of s is white space (so trimming it gives the empty string). */
  predicate AllWhitespace(s: string)
  {
    forall i :: 0 <= i < |s| ==> IsWhitespace(s[i])
  }

  /** The first index at or after i whose character is not white space (|s| if none). */
  function SkipForward(s: string, i: nat): (k: nat)
    requires i <= |s|
    ensures i <= k <= |s|
    ensures forall j :: i <= j < k ==> IsWhitespace(s[j])
    ensures k < |s| ==> !IsWhitespace(s[k])
    decreases |s| - i
  {
    if i < |s| && IsWhitespace(s[i]) then SkipForward(s, i + 1) else i
  }

  /** Where s[lo..hi] ends once its trailing white space is dropped. */
  function SkipBackward(s: string, lo: nat, hi: nat): (k: nat)
    requires lo <= hi <= |s|
    ensures lo <= k <= hi
    ensures forall j :: k <= j < hi ==> IsWhitespace(s[j])
    ensures k > lo ==> !IsWhitespace(s[k - 1])
    decreases hi
  {
    if hi > lo && IsWhitespace(s[hi - 1]) then SkipBackward(s, lo, hi - 1) else hi
  }

  /** Where the trimmed string starts in s: the length of the leading white space. */
  function TrimOffset(s: string): (k: nat)
    ensures k <= |s|
    ensures forall j :: 0 <= j < k ==> IsWhitespace(s[j])
    ensures k < |s| ==> !IsWhitespace(s[k])
  {
    SkipForward(s, 0)
  }

  /** A string with its leading and trailing white space removed: what lies between them. */
  function Trim(s: string): (r: string)
    ensures TrimOffset(s) + |r| <= |s| && r == s[TrimOffset(s)..TrimOffset(s) + |r|]
    ensures r != [] ==> !IsWhitespace(r[0]) && !IsWhitespace(r[|r| - 1])
    ensures r == [] <==> AllWhitespace(s)
    ensures forall j :: 0 <= j < TrimOffset(s) ==> IsWhitespace(s[j])
    ensures forall j :: TrimOffset(s) + |r| <= j < |s| ==> IsWhitespace(s[j])
  {
    var lo := TrimOffset(s);
    var hi := SkipBackward(s, lo, |s|);
    assert lo == hi ==> AllWhitespace(s) by {
      if lo == hi {
        forall j | 0 <= j < |s| ensures IsWhitespace(s[j]) {
        }
      }
    }
    s[lo..hi]
  }

  /** A trimmed string has no white space left at either end to strip. */
  lemma TrimIdempotent(s: string)
    ensures Trim(Trim(s)) == Trim(s)
  {
  }
}

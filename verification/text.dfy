/**
 Whitespace trimming as `str.strip()` does it: leading and trailing
 characters of a whitespace class are removed, inner ones are kept. The
 class is a parameter; the exact set Python uses is not part of the model.
 */
module Text {

  /** The number of whitespace characters `s` starts with. */
  function LeadingSpaces(s: string, isSpace: char -> bool): (n: nat)
    ensures n <= |s|
    ensures forall k :: 0 <= k < n ==> isSpace(s[k])
    ensures n < |s| ==> !isSpace(s[n])
    decreases |s|
  {
    if |s| > 0 && isSpace(s[0]) then 1 + LeadingSpaces(s[1..], isSpace) else 0
  }

  /** The number of whitespace characters `s` ends with. */
  function TrailingSpaces(s: string, isSpace: char -> bool): (n: nat)
    ensures n <= |s|
    ensures forall k :: |s| - n <= k < |s| ==> isSpace(s[k])
    ensures n < |s| ==> !isSpace(s[|s| - n - 1])
    decreases |s|
  {
    if |s| > 0 && isSpace(s[|s| - 1]) then 1 + TrailingSpaces(s[..|s| - 1], isSpace) else 0
  }

  /** `s` without leading and trailing whitespace: a slice of `s` that is
      empty or starts and ends with a non-space, with only whitespace cut
      off on either side. */
  function Strip(s: string, isSpace: char -> bool): (r: string)
    ensures LeadingSpaces(s, isSpace) + |r| <= |s|
    ensures r == s[LeadingSpaces(s, isSpace)..LeadingSpaces(s, isSpace) + |r|]
    ensures forall k :: LeadingSpaces(s, isSpace) + |r| <= k < |s| ==> isSpace(s[k])
    ensures |r| > 0 ==> !isSpace(r[0]) && !isSpace(r[|r| - 1])
  {
    var i := LeadingSpaces(s, isSpace);
    var t := s[i..];
    var j := TrailingSpaces(t, isSpace);
    var r := t[..|t| - j];
    assert r == s[i..i + |r|];
    assert forall k :: i + |r| <= k < |s| ==> s[k] == t[k - i];
    assert |r| > 0 ==> r[0] == s[i] && r[|r| - 1] == t[|t| - j - 1];
    r
  }

  /** Stripping twice is stripping once. */
  lemma StripIdempotent(s: string, isSpace: char -> bool)
    ensures Strip(Strip(s, isSpace), isSpace) == Strip(s, isSpace)
  {
    var r := Strip(s, isSpace);
    if |r| > 0 {
      assert LeadingSpaces(r, isSpace) == 0;
      assert TrailingSpaces(r, isSpace) == 0;
    }
  }

  /** A string strips to empty exactly when it is all whitespace. */
  lemma StripEmpty(s: string, isSpace: char -> bool)
    ensures Strip(s, isSpace) == [] <==> forall k :: 0 <= k < |s| ==> isSpace(s[k])
  {
  }
}

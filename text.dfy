/**
 * Character and string helpers shared by the model: the ASCII digit class
 * that stands for the regular expression \d, and the ASCII reading of
 * Python's str.lower() used for every case-insensitive comparison.
 */
module Text {

  /** An ASCII decimal digit (the model's reading of \d). */
  predicate IsDigit(c: char) {
    '0' <= c <= '9'
  }

  predicate IsUpper(c: char) {
    'A' <= c <= 'Z'
  }

  /** The case distance of ASCII letters: 'a' - 'A'. */
  const CaseOffset: int := 'a' as int - 'A' as int

  function LowerChar(c: char): (r: char)
    ensures !IsUpper(r)
    ensures !IsUpper(c) ==> r == c
    ensures IsUpper(c) ==> r as int == c as int + CaseOffset
  {
    if IsUpper(c) then (c as int + CaseOffset) as char else c
  }

  /** str.lower(), restricted to ASCII letters: every other character is kept. */
  function Lower(s: string): (r: string)
    ensures |r| == |s|
    ensures forall i :: 0 <= i < |s| && IsUpper(s[i]) ==> r[i] as int == s[i] as int + CaseOffset
    ensures forall i :: 0 <= i < |s| && !IsUpper(s[i]) ==> r[i] == s[i]
    ensures forall i :: 0 <= i < |r| ==> !IsUpper(r[i])
  {
    seq(|s|, i requires 0 <= i < |s| => LowerChar(s[i]))
  }

  /** The same letter up to ASCII case, or the same non-letter character. */
  predicate EqualIgnoringCase(c: char, d: char) {
    || c == d
    || (IsUpper(c) && d as int == c as int + CaseOffset)
    || (IsUpper(d) && c as int == d as int + CaseOffset)
  }

  /** Two strings lower-case alike exactly when they agree position by position up to ASCII case. */
  lemma LowerEqualIgnoringCase(a: string, b: string)
    ensures Lower(a) == Lower(b) <==>
      |a| == |b| && forall i :: 0 <= i < |a| ==> EqualIgnoringCase(a[i], b[i])
  {
  }

  /** A string without upper-case letters is its own lower case. */
  lemma LowerOfLowerCase(s: string)
    requires forall i :: 0 <= i < |s| ==> !IsUpper(s[i])
    ensures Lower(s) == s
  {
  }
}

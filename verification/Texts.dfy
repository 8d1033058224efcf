/** Trimming, as the request checks do it. */
module Texts {

  predicate Blank(c: char) { c == ' ' || c == '\t' || c == '\n' || c == '\r' }

  function Trim(s: string): string {
    if s == [] then s
    else if Blank(s[0]) then Trim(s[1..])
    else if Blank(s[|s| - 1]) then Trim(s[..|s| - 1])
    else s
  }

  /** Blanks go at both ends, and nothing else. */
  lemma {:induction false} TrimIs(s: string) returns (i: nat, j: nat)
    ensures i <= j <= |s| && Trim(s) == s[i..j]
    ensures forall k :: 0 <= k < i || j <= k < |s| ==> Blank(s[k])
    ensures i < j ==> !Blank(s[i]) && !Blank(s[j - 1])
  {
    if s == [] {
      i, j := 0, 0;
    } else if Blank(s[0]) {
      i, j := TrimIs(s[1..]);
      i, j := i + 1, j + 1;
    } else if Blank(s[|s| - 1]) {
      i, j := TrimIs(s[..|s| - 1]);
    } else {
      i, j := 0, |s|;
    }
  }
}

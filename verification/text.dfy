/**
 Text helpers used by the catalogue searches: ASCII lower-casing and
 substring containment (the meaning of Python's `needle in haystack` on
 strings).
 */
module Text {

  predicate IsUpper(c: char) {
    'A' <= c <= 'Z'
  }

  /** Lower-cases one ASCII letter; every other character is left alone. */
  function LowerChar(c: char): (r: char)
    ensures !IsUpper(r)
    ensures !IsUpper(c) ==> r == c
    ensures IsUpper(c) ==> 'a' <= r <= 'z' && r as int - c as int == 'a' as int - 'A' as int
  {
    if IsUpper(c) then (c as int - 'A' as int + 'a' as int) as char else c
  }

  /** Lower-cases a whole string, character by character. */
  function Lower(s: string): (r: string)
    ensures |r| == |s|
    ensures forall i :: 0 <= i < |s| ==> r[i] == LowerChar(s[i])
  {
    seq(|s|, i requires 0 <= i < |s| => LowerChar(s[i]))
  }

  /** Lower-casing twice is the same as lower-casing once. */
  lemma LowerIdempotent(s: string)
    ensures Lower(Lower(s)) == Lower(s)
  {
  }

  /** `needle` sits in `hay` starting at index `i`. */
  predicate OccursAt(hay: string, needle: string, i: int) {
    0 <= i && i + |needle| <= |hay| && hay[i..i + |needle|] == needle
  }

  /** Dropping the first character of `hay` shifts every occurrence left by one. */
  lemma OccursAtShift(hay: string, needle: string)
    requires |hay| > 0
    ensures forall i :: 0 <= i ==> (OccursAt(hay[1..], needle, i) <==> OccursAt(hay, needle, i + 1))
  {
  }

  /** Python's substring test `needle in hay`: true exactly when `needle`
      occurs somewhere in `hay` (the empty string occurs everywhere). */
  function Contains(hay: string, needle: string): (r: bool)
    ensures r <==> exists i :: OccursAt(hay, needle, i)
    decreases |hay|
  {
    if |needle| > |hay| then
      false
    else if hay[..|needle|] == needle then
      assert OccursAt(hay, needle, 0);
      true
    else
      OccursAtShift(hay, needle);
      assert !OccursAt(hay, needle, 0);
      assert forall j :: OccursAt(hay, needle, j) ==> OccursAt(hay[1..], needle, j - 1);
      Contains(hay[1..], needle)
  }

  /** Case-insensitive containment, as `keyword.lower() in text.lower()`. */
  function Matches(text: string, keyword: string): (m: bool)
    ensures m <==> exists i :: OccursAt(Lower(text), Lower(keyword), i)
  {
    Contains(Lower(text), Lower(keyword))
  }

  /** The empty keyword matches every text. */
  lemma EmptyKeywordMatches(text: string)
    ensures Matches(text, "")
  {
  }

  /** Matching ignores the case of both the text and the keyword. */
  lemma MatchesIgnoresCase(text: string, keyword: string)
    ensures Matches(text, keyword) <==> Matches(Lower(text), Lower(keyword))
  {
    LowerIdempotent(text);
    LowerIdempotent(keyword);
  }
}

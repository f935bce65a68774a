/** Case-insensitive substring matching over ASCII: how a search term
    given as `{ $regex: term, $options: 'i' }` selects a field. */
module Text {

  /** ASCII lower-casing of one character; every other character is kept. */
  function Lower(c: char): (r: char)
    ensures 'A' <= c <= 'Z' ==> r as int == c as int + 32
    ensures !('A' <= c <= 'Z') ==> r == c
    ensures !('A' <= r <= 'Z')
  {
    if 'A' <= c <= 'Z' then (c as int + 32) as char else c
  }

  /** ASCII lower-casing of a string, character by character. */
  function LowerStr(s: string): (r: string)
    ensures |r| == |s|
    ensures forall i | 0 <= i < |s| :: r[i] == Lower(s[i])
  {
    seq(|s|, i requires 0 <= i < |s| => Lower(s[i]))
  }

  /** The needle occurs at position `i` of the haystack, ignoring case. */
  predicate MatchesAt(hay: string, needle: string, i: nat)
  {
    i + |needle| <= |hay| && LowerStr(hay)[i..i + |needle|] == LowerStr(needle)
  }

  /** The needle occurs somewhere in the haystack, ignoring case. */
  predicate ContainsCI(hay: string, needle: string)
    ensures ContainsCI(hay, needle) ==> |needle| <= |hay|
    ensures needle == [] ==> ContainsCI(hay, needle)
  {
    assert needle == [] ==> MatchesAt(hay, needle, 0);
    exists i: nat | i <= |hay| :: MatchesAt(hay, needle, i)
  }

  /** Lower-casing twice is lower-casing once. */
  lemma LowerStrIdempotent(s: string)
    ensures LowerStr(LowerStr(s)) == LowerStr(s)
  {
  }

  /** The case of either string never changes whether one contains the other. */
  lemma {:induction false} ContainsCIIgnoresCase(hay: string, needle: string)
    ensures ContainsCI(hay, needle) <==> ContainsCI(LowerStr(hay), LowerStr(needle))
  {
    LowerStrIdempotent(hay);
    LowerStrIdempotent(needle);
    forall i: nat | i <= |hay|
      ensures MatchesAt(hay, needle, i) <==> MatchesAt(LowerStr(hay), LowerStr(needle), i)
    {
    }
  }

  /** Searching "engineer" finds "Software Engineer" and "ENGINEER II" but not "Designer". */
  lemma EngineerExample()
    ensures ContainsCI("Software Engineer", "engineer")
    ensures ContainsCI("ENGINEER II", "engineer")
    ensures !ContainsCI("Designer", "engineer")
  {
    assert MatchesAt("Software Engineer", "engineer", 9);
    assert MatchesAt("ENGINEER II", "engineer", 0);
    assert LowerStr("Designer")[0] == 'd';
  }
}

/** Case-insensitive substring matching, the meaning the listing gives to a
    keyword passed as a `$regex` with the `i` option (for keywords without
    regular-expression metacharacters). Case folding covers ASCII letters. */
module Text {

  function LowerChar(ch: char): char
  {
    if 'A' <= ch <= 'Z' then (ch as int + 32) as char else ch
  }

  function Lower(s: string): (r: string)
    ensures |r| == |s|
    ensures forall i :: 0 <= i < |s| ==> r[i] == LowerChar(s[i])
  {
    seq(|s|, i requires 0 <= i < |s| => LowerChar(s[i]))
  }

  /** `needle` sits in `hay` starting at position `i`. */
  predicate OccursAt(hay: string, needle: string, i: int)
  {
    0 <= i && i + |needle| <= |hay| && hay[i..i + |needle|] == needle
  }

  /** Substring search: `needle` is a prefix of `hay` or of one of its suffixes. */
  predicate Contains(hay: string, needle: string)
    decreases |hay|
  {
    needle <= hay || (|hay| > 0 && Contains(hay[1..], needle))
  }

  /** A case-insensitive match is a window of `hay` that equals `needle` up to case. */
  predicate ContainsIgnoringCase(hay: string, needle: string): (b: bool)
    ensures b <==> exists i :: OccursIgnoringCaseAt(hay, needle, i)
  {
    ContainsIgnoringCaseIff(hay, needle);
    Contains(Lower(hay), Lower(needle))
  }

  /** `needle` sits in `hay` at position `i` once both are folded to lower case. */
  predicate OccursIgnoringCaseAt(hay: string, needle: string, i: int)
  {
    0 <= i && i + |needle| <= |hay| && Lower(hay[i..i + |needle|]) == Lower(needle)
  }

  /** The recursive search agrees with the positional definition of a substring. */
  lemma {:induction false} ContainsIffOccurs(hay: string, needle: string)
    ensures Contains(hay, needle) <==> exists i :: OccursAt(hay, needle, i)
    decreases |hay|
  {
    if needle <= hay {
      assert OccursAt(hay, needle, 0);
    } else if |hay| > 0 {
      ContainsIffOccurs(hay[1..], needle);
      if i :| OccursAt(hay[1..], needle, i) {
        assert hay[1..][i..i + |needle|] == hay[i + 1..i + 1 + |needle|];
        assert OccursAt(hay, needle, i + 1);
      }
      if i :| OccursAt(hay, needle, i) {
        assert i >= 1;
        assert hay[1..][i - 1..i - 1 + |needle|] == hay[i..i + |needle|];
        assert OccursAt(hay[1..], needle, i - 1);
      }
    }
  }

  lemma LowerOfSlice(s: string, i: int, j: int)
    requires 0 <= i <= j <= |s|
    ensures Lower(s)[i..j] == Lower(s[i..j])
  {
  }

  /** Searching the lower-cased strings finds exactly the windows of `hay`
      that equal `needle` up to case. */
  lemma ContainsIgnoringCaseIff(hay: string, needle: string)
    ensures Contains(Lower(hay), Lower(needle)) <==> exists i :: OccursIgnoringCaseAt(hay, needle, i)
  {
    ContainsIffOccurs(Lower(hay), Lower(needle));
    forall i | 0 <= i && i + |needle| <= |hay|
      ensures OccursAt(Lower(hay), Lower(needle), i) <==> OccursIgnoringCaseAt(hay, needle, i)
    {
      LowerOfSlice(hay, i, i + |needle|);
    }
  }

  lemma LowerIdempotent(s: string)
    ensures Lower(Lower(s)) == Lower(s)
  {
  }

  /** The case in which the keyword is written does not change the match. */
  lemma KeywordCaseIrrelevant(hay: string, needle: string)
    ensures ContainsIgnoringCase(hay, Lower(needle)) == ContainsIgnoringCase(hay, needle)
  {
    LowerIdempotent(needle);
  }
}

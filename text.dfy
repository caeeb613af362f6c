/**
 The two string operations the catalog listing uses: lowering the case of a
 string (`str.lower()`) and testing whether one string occurs inside another
 (`needle in haystack`). Case folding is modelled on ASCII letters only.
 */
module Text {

  /** The lower-case form of one character: 'A'..'Z' map to 'a'..'z', all else is kept. */
  function LowerChar(c: char): char
  {
    if 'A' <= c <= 'Z' then (c as int - 'A' as int + 'a' as int) as char else c
  }

  predicate IsUpperAscii(c: char)
  {
    'A' <= c <= 'Z'
  }

  /** `s.lower()`: every character lowered, in place. */
  function Lower(s: string): string
  {
    seq(|s|, i requires 0 <= i < |s| => LowerChar(s[i]))
  }

  /** A lowered string has no upper-case letter left. */
  lemma LowerHasNoUpper(s: string, i: int)
    requires 0 <= i < |s|
    ensures !IsUpperAscii(Lower(s)[i])
  {
  }

  /** Lowering twice is lowering once, so comparing lowered strings is stable. */
  lemma LowerIdempotent(s: string)
    ensures Lower(Lower(s)) == Lower(s)
  {
  }

  /** Two characters are the same letter ignoring case: equal, or one is an upper-case ASCII letter and the other its lower-case form. */
  predicate SameIgnoringCase(c: char, d: char)
  {
    || c == d
    || ('A' <= c <= 'Z' && d as int == c as int + 32)
    || ('A' <= d <= 'Z' && c as int == d as int + 32)
  }

  /** Lowered strings are equal exactly when the strings agree letter by letter ignoring case. */
  lemma LowerEqIff(a: string, b: string)
    ensures Lower(a) == Lower(b) <==> |a| == |b| && forall i :: 0 <= i < |a| ==> SameIgnoringCase(a[i], b[i])
  {
    if Lower(a) == Lower(b) {
      forall i | 0 <= i < |a|
        ensures SameIgnoringCase(a[i], b[i])
      {
        assert Lower(a)[i] == Lower(b)[i];
      }
    }
  }

  /** `needle in hay`: the needle is a prefix of some suffix of the haystack. */
  predicate Contains(hay: string, needle: string)
    decreases |hay|
  {
    needle <= hay || (hay != [] && Contains(hay[1..], needle))
  }

  /** True iff `needle` occurs in `hay` starting at offset `k`. */
  predicate OccursAt(hay: string, needle: string, k: int)
  {
    0 <= k && k + |needle| <= |hay| && hay[k..k + |needle|] == needle
  }

  /** An occurrence in the tail at `k` is an occurrence in the whole at `k + 1`, and back. */
  lemma OccursInTail(hay: string, needle: string, k: int)
    requires hay != [] && 0 <= k
    ensures OccursAt(hay[1..], needle, k) <==> OccursAt(hay, needle, k + 1)
  {
    if 0 <= k && k + |needle| <= |hay| - 1 {
      assert hay[1..][k..k + |needle|] == hay[k + 1..k + 1 + |needle|];
    }
  }

  /** The search agrees with the definition of a substring: some offset holds the needle. */
  lemma {:induction false} ContainsIffOccurs(hay: string, needle: string)
    ensures Contains(hay, needle) <==> exists k :: OccursAt(hay, needle, k)
    decreases |hay|
  {
    if needle <= hay {
      assert OccursAt(hay, needle, 0);
    } else if hay != [] {
      ContainsIffOccurs(hay[1..], needle);
      if exists k :: OccursAt(hay[1..], needle, k) {
        var k :| OccursAt(hay[1..], needle, k);
        OccursInTail(hay, needle, k);
      }
      if exists k :: OccursAt(hay, needle, k) {
        var k :| OccursAt(hay, needle, k);
        assert k != 0;
        OccursInTail(hay, needle, k - 1);
      }
    }
  }

  /** A non-empty needle whose first character is absent from the haystack never occurs in it. */
  lemma {:induction false} FirstCharAbsent(hay: string, needle: string)
    requires needle != [] && needle[0] !in hay
    ensures !Contains(hay, needle)
    decreases |hay|
  {
    if hay != [] {
      assert hay[0] != needle[0];
      FirstCharAbsent(hay[1..], needle);
    }
  }

  /** The empty string occurs in every string, as Python's `"" in s` is always true. */
  lemma EmptyOccursEverywhere(hay: string)
    ensures Contains(hay, "")
  {
  }
}

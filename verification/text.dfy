/**
 Substring containment on strings, as Python's `needle in haystack` computes it
 for two `str` operands. The page generator uses it to recognise marker lines.
 */
module Text {

  /** `needle` occurs in `haystack` starting at position `i`. */
  predicate OccursAt(haystack: string, needle: string, i: nat)
  {
    i + |needle| <= |haystack| && haystack[i..i + |needle|] == needle
  }

  /** An occurrence at `i + 1` is an occurrence at `i` in the tail, and back. */
  lemma OccursAtTail(haystack: string, needle: string, i: nat)
    requires |haystack| > 0
    ensures OccursAt(haystack, needle, i + 1) <==> OccursAt(haystack[1..], needle, i)
  {
  }

  /**
   Python's `needle in haystack`: scan the start positions from left to right.
   The empty needle occurs in every string, the empty string included.
   */
  function Contains(haystack: string, needle: string): (b: bool)
    ensures b <==> exists i: nat :: OccursAt(haystack, needle, i)
    decreases |haystack|
  {
    if needle <= haystack then
      assert haystack[0..|needle|] == needle;
      assert OccursAt(haystack, needle, 0);
      true
    else if |haystack| == 0 then
      false
    else
      var rest := Contains(haystack[1..], needle);
      assert rest <==> exists i: nat :: OccursAt(haystack, needle, i) by {
        if rest {
          var j: nat :| OccursAt(haystack[1..], needle, j);
          OccursAtTail(haystack, needle, j);
        }
        if exists i: nat :: OccursAt(haystack, needle, i) {
          var i: nat :| OccursAt(haystack, needle, i);
          assert i != 0;
          OccursAtTail(haystack, needle, i - 1);
        }
      }
      rest
  }
}

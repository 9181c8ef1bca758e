/**
 String operations the components use on free text: `toLowerCase`,
 `String.prototype.includes` and the comparison behind `localeCompare`.
 Lower-casing is modelled as the ASCII fold of 'A'..'Z' and collation as
 lexicographic order on code points.
 */
module Text {

  /** Lower-case one character: 'A'..'Z' map to 'a'..'z', all else unchanged. */
  function LowerChar(c: char): (d: char)
    ensures 'A' <= c <= 'Z' ==> 'a' <= d <= 'z' && d as int - c as int == 32
    ensures !('A' <= c <= 'Z') ==> d == c
  {
    if 'A' <= c <= 'Z' then (c as int + 32) as char else c
  }

  /** `s.toLowerCase()`. */
  function Lower(s: string): (r: string)
    ensures |r| == |s|
    ensures forall i :: 0 <= i < |s| ==> r[i] == LowerChar(s[i])
  {
    seq(|s|, i requires 0 <= i < |s| => LowerChar(s[i]))
  }

  /** `hay.includes(needle)`: `needle` occurs somewhere in `hay`. */
  predicate Contains(hay: string, needle: string)
    decreases |hay|
  {
    needle <= hay || (|hay| > 0 && Contains(hay[1..], needle))
  }

  /** `needle` occurs in `hay` starting at position `k`. */
  predicate OccursAt(hay: string, needle: string, k: int) {
    0 <= k && k + |needle| <= |hay| && hay[k..k + |needle|] == needle
  }

  /** A window of the tail is the window one position further along. */
  lemma SliceOfTail(hay: string, k: int, n: int)
    requires 0 <= k && 0 <= n && k + n < |hay|
    ensures hay[1..][k..k + n] == hay[k + 1..k + 1 + n]
  {
    var tail, window := hay[1..], hay[k + 1..k + 1 + n];
    forall i | 0 <= i < n ensures tail[k..k + n][i] == window[i] {
      assert tail[k + i] == hay[k + 1 + i];
    }
  }

  /** The recursive `Contains` agrees with the positional definition of a substring. */
  lemma {:induction false} ContainsIffOccurrence(hay: string, needle: string)
    ensures Contains(hay, needle) <==> exists k :: OccursAt(hay, needle, k)
    decreases |hay|
  {
    // From a recursive match to a position.
    if Contains(hay, needle) {
      if needle <= hay {
        assert OccursAt(hay, needle, 0);
      } else {
        ContainsIffOccurrence(hay[1..], needle);
        var k :| OccursAt(hay[1..], needle, k);
        SliceOfTail(hay, k, |needle|);
        assert OccursAt(hay, needle, k + 1);
      }
    }
    // From a position to a recursive match.
    if exists k :: OccursAt(hay, needle, k) {
      var k :| OccursAt(hay, needle, k);
      if k == 0 {
        assert needle <= hay;
      } else {
        SliceOfTail(hay, k - 1, |needle|);
        assert OccursAt(hay[1..], needle, k - 1);
        ContainsIffOccurrence(hay[1..], needle);
      }
    }
  }

  /** The empty string occurs in every string (the empty search matches everything). */
  lemma ContainsEmpty(hay: string)
    ensures Contains(hay, "")
  {
  }

  /**
   `a` sorts no later than `b` in lexicographic code-point order. This order
   stands in for `a.localeCompare(b) <= 0`.
   */
  predicate LexLe(a: string, b: string)
    decreases |a|
  {
    |a| == 0 ||
    (|b| > 0 && (a[0] < b[0] || (a[0] == b[0] && LexLe(a[1..], b[1..]))))
  }

  /** Any two strings are comparable. */
  lemma {:induction false} LexLeTotal(a: string, b: string)
    ensures LexLe(a, b) || LexLe(b, a)
    decreases |a|
  {
    if |a| > 0 && |b| > 0 && a[0] == b[0] {
      LexLeTotal(a[1..], b[1..]);
    }
  }

  /** The order is transitive. */
  lemma {:induction false} LexLeTransitive(a: string, b: string, c: string)
    requires LexLe(a, b) && LexLe(b, c)
    ensures LexLe(a, c)
    decreases |a|
  {
    if |a| > 0 && a[0] == b[0] && b[0] == c[0] {
      LexLeTransitive(a[1..], b[1..], c[1..]);
    }
  }
}

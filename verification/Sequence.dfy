/** Wrap-around comparison of unsigned sequence numbers. */
module Sequence {

  /** Is s1 newer than s2, for an unsigned type whose largest value is max. */
  predicate IsSequenceMoreRecent(s1: nat, s2: nat, max: nat) {
    (s1 > s2 && s1 - s2 <= max / 2) || (s2 > s1 && s2 - s1 > max / 2)
  }

  /** Reducing two counters changes their distance by a multiple of the number of values. */
  lemma Reduced(a: nat, b: nat, values: nat) returns (k: int)
    requires values > 0
    ensures a - b == k * values + (a % values - b % values)
  {
    k := a / values - b / values;
    assert a == values * (a / values) + a % values && b == values * (b / values) + b % values;
    assert k * values == values * (a / values) - values * (b / values);
  }

  lemma NoSmallMultiple(k: int, m: int)
    requires -m < k * m < m
    ensures k == 0
  {
    assert k >= 1 ==> k * m >= m;
    assert k <= -1 ==> k * m <= -m;
  }

  lemma Shift(k: int, m: int)
    ensures (k + 1) * m == k * m + m && (k - 1) * m == k * m - m
  {
  }

  /**
   For counters closer than half the range of values, the comparison of their reductions is
   the comparison of the counters.
   */
  lemma RecentMeansGreater(a: nat, b: nat, half: nat, values: nat)
    requires half > 0 && values == 2 * half && a < b + half && b < a + half
    ensures IsSequenceMoreRecent(a % values, b % values, values - 1) <==> a > b
  {
    var s1, s2 := a % values, b % values;
    assert s1 < values && s2 < values;
    var k := Reduced(a, b, values);
    Shift(k, values);
    if s1 - s2 >= half {
      NoSmallMultiple(k + 1, values);
    } else if s2 - s1 >= half {
      NoSmallMultiple(k - 1, values);
    } else {
      NoSmallMultiple(k, values);
    }
  }

  /**
   Of two distinct values exactly one is more recent, at half the range too, where the smaller
   of the two is (section 3.2 of RFC 1982 leaves that case undefined).
   */
  lemma ExactlyOneIsRecent(s1: nat, s2: nat, half: nat)
    requires s1 < 2 * half && s2 < 2 * half
    ensures !(IsSequenceMoreRecent(s1, s2, 2 * half - 1) && IsSequenceMoreRecent(s2, s1, 2 * half - 1))
    ensures IsSequenceMoreRecent(s1, s2, 2 * half - 1) || IsSequenceMoreRecent(s2, s1, 2 * half - 1) <==> s1 != s2
    ensures s1 - s2 == half ==> IsSequenceMoreRecent(s2, s1, 2 * half - 1)
  {
  }
}

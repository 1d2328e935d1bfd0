/** Order statistics of a list of scores: the 95th percentile and the median. */
module Quantiles {
  import opened Counting
  import opened Sorting

  function Above(t: real): real -> bool {
    x => x > t
  }

  function Below(t: real): real -> bool {
    x => x < t
  }

  /** How many elements exceed t. */
  function CountAbove(s: seq<real>, t: real): (n: nat)
    ensures n <= |s|
  {
    Count(s, Above(t))
  }

  /** floor(0.95 n), capped at the last index: the least index that leaves fewer than 5% of n above it. */
  function ThresholdIndex(n: nat): (i: nat)
    requires n > 0
    ensures i < n
  {
    if 95 * n / 100 < n - 1 then 95 * n / 100 else n - 1
  }

  lemma LeastIndex(n: nat)
    requires n > 0
    ensures 20 * (n - 1 - ThresholdIndex(n)) < n <= 20 * (n - ThresholdIndex(n))
  {
  }

  function Threshold(scores: seq<real>): real
    requires |scores| > 0
  {
    Sorted(scores)[ThresholdIndex(|scores|)]
  }

  lemma {:induction false} InsertCounts(x: real, s: seq<real>, p: real -> bool)
    requires IsSorted(s)
    ensures Count(Insert(x, s), p) == Count(s, p) + (if p(x) then 1 else 0)
  {
    hide Insert;
    InsertShape(x, s);
    if s != [] && x > s[0] {
      InsertCounts(x, s[1..], p);
    }
  }

  /** Sorting does not change how many elements satisfy a predicate. */
  lemma {:induction false} SortedCounts(s: seq<real>, p: real -> bool)
    ensures Count(Sorted(s), p) == Count(s, p)
  {
    if s != [] {
      var init, x := s[..|s| - 1], s[|s| - 1];
      assert s == init + [x];
      SortedCounts(init, p);
      InsertCounts(x, Sorted(init), p);
      CountAppend(init, x, p);
    }
  }

  /** Above the element at index i of an ascending list lie the elements after i, all of them
      exactly when the next one differs. */
  lemma {:induction false} CountAboveIndex(s: seq<real>, i: nat)
    requires IsSorted(s) && i < |s|
    ensures CountAbove(s, s[i]) <= |s| - 1 - i
    ensures CountAbove(s, s[i]) == |s| - 1 - i <==> i == |s| - 1 || s[i] < s[i + 1]
  {
    if i > 0 {
      assert s[1..][i - 1] == s[i];
      CountAboveIndex(s[1..], i - 1);
    } else if |s| > 1 {
      if s[0] == s[1] {
        CountAboveIndex(s[1..], 0);
      } else {
        CountAll(s[1..], Above(s[0]));
      }
    }
  }

  /** Below the element at index i of an ascending list lie at most the elements before i. */
  lemma {:induction false} CountBelowIndex(s: seq<real>, i: nat)
    requires IsSorted(s) && i < |s|
    ensures Count(s, Below(s[i])) <= i
  {
    var before, after := s[..i], s[i..];
    assert s == before + after;
    CountConcat(before, after, Below(s[i]));
    CountNone(after, Below(s[i]));
  }

  /** Fewer than 5% of the scores exceed their own threshold. Their number is the largest one below 5% exactly
      when the score after the threshold in ascending order differs from it. */
  lemma FewExceedThreshold(scores: seq<real>)
    requires |scores| > 0
    ensures 20 * CountAbove(scores, Threshold(scores)) < |scores|
    ensures var i, above := ThresholdIndex(|scores|), CountAbove(scores, Threshold(scores));
            20 * (above + 1) >= |scores| <==> (i == |scores| - 1 || Sorted(scores)[i] < Sorted(scores)[i + 1])
  {
    hide Sorted, Count, ThresholdIndex;
    LeastIndex(|scores|);
    SortedCounts(scores, Above(Threshold(scores)));
    CountAboveIndex(Sorted(scores), ThresholdIndex(|scores|));
  }

  /** The middle element is one of the list, fewer than half of the list lie above it, at most half below. */
  lemma MiddleIsMedian(s: seq<real>) returns (i: nat)
    requires |s| > 0
    ensures i < |s| && s[i] == Sorted(s)[|s| / 2]
    ensures 2 * Count(s, Above(s[i])) < |s| && 2 * Count(s, Below(s[i])) <= |s|
  {
    hide Sorted, Count;
    var m := Sorted(s)[|s| / 2];
    SameMembers(Sorted(s), s, m);
    i :| 0 <= i < |s| && s[i] == m;
    SortedCounts(s, Above(m));
    SortedCounts(s, Below(m));
    CountAboveIndex(Sorted(s), |s| / 2);
    CountBelowIndex(Sorted(s), |s| / 2);
  }
}

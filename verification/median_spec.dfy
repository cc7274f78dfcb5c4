/**
 * The reference definition of the median of a finite sequence of counts:
 * sort it, then take the middle element (odd length) or the mean of the two
 * middle elements (even length). The streaming engine is proved against it.
 */
module MedianSpec {
  import opened Heaps

  /** Insertion sort into non-decreasing order. */
  function Sort(s: seq<nat>): (r: seq<nat>)
    ensures |r| == |s|
  {
    if s == [] then [] else PushMin(Sort(s[..|s| - 1]), s[|s| - 1])
  }

  /** Sorting yields an ordered rearrangement of its input. */
  lemma {:induction false} SortSpec(s: seq<nat>)
    ensures MinOrdered(Sort(s))
    ensures multiset(Sort(s)) == multiset(s)
  {
    if s != [] {
      var init, last := s[..|s| - 1], s[|s| - 1];
      SortSpec(init);
      PushMinSpec(Sort(init), last);
      assert s == init + [last];
    }
  }

  /** Two ordered arrangements of the same multiset are the same sequence. */
  lemma {:induction false} SortedUnique(a: seq<nat>, b: seq<nat>)
    requires MinOrdered(a) && MinOrdered(b)
    requires multiset(a) == multiset(b)
    ensures a == b
  {
    assert |a| == |multiset(a)| == |multiset(b)| == |b|;
    if a != [] {
      assert b[0] in multiset(a);
      MinRootBounds(a, b[0]);
      assert a[0] in multiset(b);
      MinRootBounds(b, a[0]);
      assert a[0] == b[0];
      assert a == [a[0]] + a[1..];
      assert b == [b[0]] + b[1..];
      assert multiset(a[1..]) == multiset(a) - multiset{a[0]};
      assert multiset(b[1..]) == multiset(b) - multiset{a[0]};
      SortedUnique(a[1..], b[1..]);
    }
  }

  /**
   * Twice the middle of a non-empty sequence: strip one element from each
   * end until one or two remain, then double the one or add the two.
   */
  function MiddleSum(t: seq<nat>): nat
    requires t != []
    decreases |t|
  {
    if |t| == 1 then 2 * t[0]
    else if |t| == 2 then t[0] + t[1]
    else MiddleSum(t[1..|t| - 1])
  }

  /** MiddleSum reads the middle element (odd length) or the two middle elements (even length). */
  lemma {:induction false} MiddleSumAt(t: seq<nat>, mid: nat)
    requires |t| == 2 * mid + 1 || |t| == 2 * mid + 2
    ensures |t| == 2 * mid + 1 ==> MiddleSum(t) == 2 * t[mid]
    ensures |t| == 2 * mid + 2 ==> MiddleSum(t) == t[mid] + t[mid + 1]
  {
    if mid > 0 {
      var inner := t[1..|t| - 1];
      MiddleSumAt(inner, mid - 1);
      assert inner[mid - 1] == t[mid];
      if |t| == 2 * mid + 2 {
        assert inner[mid] == t[mid + 1];
      }
    }
  }

  /** Twice the exact median. */
  function DoubledMedian(s: seq<nat>): nat
    requires s != []
  {
    MiddleSum(Sort(s))
  }

  /**
   * The exact median: the middle element of the sorted sequence, or the mean
   * of its two middle elements; always a whole number or a half.
   */
  function Median(s: seq<nat>): real
    requires s != []
  {
    DoubledMedian(s) as real / 2.0
  }

  /** The median after each prefix of the observations, in order. */
  function RunningMedians(obs: seq<nat>): (r: seq<real>)
    ensures |r| == |obs|
  {
    if obs == [] then [] else RunningMedians(obs[..|obs| - 1]) + [Median(obs)]
  }

  /** Entry k of the running medians is the median of the first k + 1 observations. */
  lemma {:induction false} RunningMediansAt(obs: seq<nat>, k: nat)
    requires k < |obs|
    ensures RunningMedians(obs)[k] == Median(obs[..k + 1])
  {
    var init := obs[..|obs| - 1];
    assert RunningMedians(obs) == RunningMedians(init) + [Median(obs)];
    if k < |obs| - 1 {
      RunningMediansAt(init, k);
      assert init[..k + 1] == obs[..k + 1];
    } else {
      assert obs[..k + 1] == obs;
    }
  }

  /** Every entry of the running medians is the median of its prefix. */
  lemma RunningMediansPrefixes(obs: seq<nat>)
    ensures forall k :: 0 <= k < |obs| ==> RunningMedians(obs)[k] == Median(obs[..k + 1])
  {
    forall k | 0 <= k < |obs| ensures RunningMedians(obs)[k] == Median(obs[..k + 1]) {
      RunningMediansAt(obs, k);
    }
  }

  /** The median depends only on which values were seen, not on their order. */
  lemma MedianIgnoresOrder(a: seq<nat>, b: seq<nat>)
    requires a != [] && multiset(a) == multiset(b)
    ensures b != [] && Median(a) == Median(b)
  {
    assert |b| == |multiset(b)| == |a|;
    SortSpec(a);
    SortSpec(b);
    SortedUnique(Sort(a), Sort(b));
  }

  /** The middle of values within [lo, hi] is within [lo, hi]. */
  lemma {:induction false} MiddleSumWithin(t: seq<nat>, lo: nat, hi: nat)
    requires t != []
    requires forall k :: 0 <= k < |t| ==> lo <= t[k] <= hi
    ensures 2 * lo <= MiddleSum(t) <= 2 * hi
    decreases |t|
  {
    if |t| > 2 {
      var inner := t[1..|t| - 1];
      assert forall k :: 0 <= k < |inner| ==> inner[k] == t[k + 1];
      MiddleSumWithin(inner, lo, hi);
    }
  }

  /** The median lies between any lower and upper bound of the values seen. */
  lemma MedianWithinRange(s: seq<nat>, lo: nat, hi: nat)
    requires s != []
    requires forall i :: 0 <= i < |s| ==> lo <= s[i] <= hi
    ensures lo as real <= Median(s) <= hi as real
  {
    var t := Sort(s);
    SortSpec(s);
    forall k | 0 <= k < |t| ensures lo <= t[k] <= hi {
      assert t[k] in multiset(s);
      var i :| 0 <= i < |s| && s[i] == t[k];
    }
    MiddleSumWithin(t, lo, hi);
  }

  function Reverse(s: seq<nat>): (r: seq<nat>)
    ensures |r| == |s|
    ensures forall k :: 0 <= k < |s| ==> r[k] == s[|s| - 1 - k]
  {
    if s == [] then [] else Reverse(s[1..]) + [s[0]]
  }

  lemma {:induction false} ReverseMultiset(s: seq<nat>)
    ensures multiset(Reverse(s)) == multiset(s)
  {
    if s != [] {
      ReverseMultiset(s[1..]);
      assert s == [s[0]] + s[1..];
    }
  }

  /** The low half read backwards, then the high half, is in non-decreasing order. */
  lemma HalvesOrdered(low: seq<nat>, high: seq<nat>)
    requires Straddles(low, high)
    ensures MinOrdered(Reverse(low) + high)
  {
  }

  /**
   * Two balanced halves, a max-ordered low half whose root is at most the
   * root of the min-ordered high half, are together the sorted sequence of
   * everything seen, so their roots give the median.
   */
  lemma MedianOfHalves(low: seq<nat>, high: seq<nat>, s: seq<nat>)
    requires Straddles(low, high)
    requires |low| == |high| || |low| == |high| + 1
    requires multiset(low) + multiset(high) == multiset(s)
    requires s != []
    ensures |s| == |low| + |high| && low != []
    ensures |low| == |high| ==> high != [] && DoubledMedian(s) == low[0] + high[0]
    ensures |low| == |high| + 1 ==> DoubledMedian(s) == 2 * low[0]
  {
    assert |s| == |multiset(s)| == |low| + |high|;
    var t := Reverse(low) + high;
    ReverseMultiset(low);
    HalvesOrdered(low, high);
    SortSpec(s);
    SortedUnique(Sort(s), t);
    MiddleSumAt(t, |low| - 1);
    assert t[|low| - 1] == low[0];
    if |low| == |high| {
      assert t[|low|] == high[0];
    }
  }
}

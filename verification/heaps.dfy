/**
 * The two priority queues of the streaming median, abstracted to their
 * contents kept in priority order with the root first. A max-oriented queue
 * (the "low" half) lists its elements in non-increasing order, a
 * min-oriented queue (the "high" half) in non-decreasing order. Pushing is
 * an ordered insertion; popping the root takes the head of the list.
 */
module Heaps {

  /** Elements in non-increasing order: s[0] is the maximum. */
  predicate MaxOrdered(s: seq<nat>) {
    forall i, j :: 0 <= i < j < |s| ==> s[i] >= s[j]
  }

  /** Elements in non-decreasing order: s[0] is the minimum. */
  predicate MinOrdered(s: seq<nat>) {
    forall i, j :: 0 <= i < j < |s| ==> s[i] <= s[j]
  }

  /** Push onto a max-oriented queue: x goes before the first element it is not smaller than. */
  function PushMax(s: seq<nat>, x: nat): (r: seq<nat>)
    ensures |r| == |s| + 1
  {
    if s == [] || x >= s[0] then [x] + s else [s[0]] + PushMax(s[1..], x)
  }

  /** Push onto a min-oriented queue: x goes before the first element it is not larger than. */
  function PushMin(s: seq<nat>, x: nat): (r: seq<nat>)
    ensures |r| == |s| + 1
  {
    if s == [] || x <= s[0] then [x] + s else [s[0]] + PushMin(s[1..], x)
  }

  /** Pushing keeps a max-oriented queue ordered, adds exactly x, and the new root is the larger of x and the old root. */
  lemma {:induction false} PushMaxSpec(s: seq<nat>, x: nat)
    requires MaxOrdered(s)
    ensures MaxOrdered(PushMax(s, x))
    ensures multiset(PushMax(s, x)) == multiset(s) + multiset{x}
    ensures PushMax(s, x)[0] == if s == [] || x >= s[0] then x else s[0]
  {
    if s != [] && x < s[0] {
      var rest := PushMax(s[1..], x);
      assert PushMax(s, x) == [s[0]] + rest;
      assert s == [s[0]] + s[1..];
      PushMaxSpec(s[1..], x);
      ConsMax(s[0], rest, s[1..], x);
    }
  }

  /** Pushing keeps a min-oriented queue ordered, adds exactly x, and the new root is the smaller of x and the old root. */
  lemma {:induction false} PushMinSpec(s: seq<nat>, x: nat)
    requires MinOrdered(s)
    ensures MinOrdered(PushMin(s, x))
    ensures multiset(PushMin(s, x)) == multiset(s) + multiset{x}
    ensures PushMin(s, x)[0] == if s == [] || x <= s[0] then x else s[0]
  {
    if s != [] && x > s[0] {
      var rest := PushMin(s[1..], x);
      assert PushMin(s, x) == [s[0]] + rest;
      assert s == [s[0]] + s[1..];
      PushMinSpec(s[1..], x);
      ConsMin(s[0], rest, s[1..], x);
    }
  }

  /**
   * A max-oriented low half and a min-oriented high half whose roots are in
   * order: then every element of low is at most every element of high.
   */
  predicate Straddles(low: seq<nat>, high: seq<nat>) {
    && MaxOrdered(low) && MinOrdered(high)
    && (low != [] && high != [] ==> low[0] <= high[0])
  }

  /** Moving the high root into the low half keeps the halves straddling and loses nothing. */
  lemma MoveRootToLow(low: seq<nat>, high: seq<nat>)
    requires Straddles(low, high) && high != []
    ensures Straddles(PushMax(low, high[0]), high[1..])
    ensures multiset(PushMax(low, high[0])) + multiset(high[1..]) == multiset(low) + multiset(high)
  {
    PushMaxSpec(low, high[0]);
    assert high == [high[0]] + high[1..];
    if |high| > 1 {
      assert high[0] <= high[1];
    }
  }

  /** Moving the low root into the high half keeps the halves straddling and loses nothing. */
  lemma MoveRootToHigh(low: seq<nat>, high: seq<nat>)
    requires Straddles(low, high) && low != []
    ensures Straddles(low[1..], PushMin(high, low[0]))
    ensures multiset(low[1..]) + multiset(PushMin(high, low[0])) == multiset(low) + multiset(high)
  {
    PushMinSpec(high, low[0]);
    assert low == [low[0]] + low[1..];
    if |low| > 1 {
      assert low[1] <= low[0];
    }
  }

  /** Putting h in front of t keeps max order when t holds the elements of an ordered h-headed list plus some x <= h. */
  lemma ConsMax(h: nat, t: seq<nat>, s: seq<nat>, x: nat)
    requires MaxOrdered(t) && MaxOrdered([h] + s) && x <= h
    requires multiset(t) == multiset(s) + multiset{x}
    ensures MaxOrdered([h] + t)
  {
    forall k | 0 <= k < |t| ensures t[k] <= h {
      assert t[k] in multiset(t);
      if t[k] != x {
        assert t[k] in multiset(s);
        var i :| 0 <= i < |s| && s[i] == t[k];
        assert ([h] + s)[0] >= ([h] + s)[i + 1] == s[i];
      }
    }
  }

  /** Putting h in front of t keeps min order when t holds the elements of an ordered h-headed list plus some x >= h. */
  lemma ConsMin(h: nat, t: seq<nat>, s: seq<nat>, x: nat)
    requires MinOrdered(t) && MinOrdered([h] + s) && h <= x
    requires multiset(t) == multiset(s) + multiset{x}
    ensures MinOrdered([h] + t)
  {
    forall k | 0 <= k < |t| ensures h <= t[k] {
      assert t[k] in multiset(t);
      if t[k] != x {
        assert t[k] in multiset(s);
        var i :| 0 <= i < |s| && s[i] == t[k];
        assert ([h] + s)[0] <= ([h] + s)[i + 1] == s[i];
      }
    }
  }

  /** The root of a max-ordered queue is at least every element in it. */
  lemma MaxRootBounds(s: seq<nat>)
    ensures MaxOrdered(s) ==> forall y :: y in s ==> y <= s[0]
  {
  }

  /** Every element of a min-oriented queue is at least its root. */
  lemma MinRootBounds(s: seq<nat>, y: nat)
    requires MinOrdered(s) && y in s
    ensures s[0] <= y
  {
  }
}

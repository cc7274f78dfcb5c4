/**
 * The streaming median of per-line distinct-token counts. Two priority
 * queues split everything seen so far: `low` holds the values at or below
 * the median (max-oriented, root = largest), `high` the values at or above
 * it (min-oriented, root = smallest), and two counters track their sizes.
 * Each pushed value is placed, the halves are rebalanced by moving at most
 * one root, and the median is read off the roots.
 */
module MedianUnique {
  import opened Heaps
  import opened MedianSpec
  import Tokens

  /** The observation for one line: how many distinct tokens it has. */
  function DistinctCount(tokens: seq<string>): (n: nat)
    ensures n <= |tokens|
    ensures n == 0 <==> tokens == []
  {
    DistinctBound(tokens);
    |set w | w in tokens|
  }

  lemma {:induction false} DistinctBound(tokens: seq<string>)
    ensures |set w | w in tokens| <= |tokens|
    ensures tokens != [] ==> |set w | w in tokens| >= 1
  {
    if tokens != [] {
      DistinctBound(tokens[1..]);
      var all := set w | w in tokens;
      assert all == {tokens[0]} + (set w | w in tokens[1..]);
      assert tokens[0] in all;
    }
  }

  /** The observation for one line of text. */
  function Observation(line: string): (n: nat)
    ensures n <= |Tokens.Split(line)|
  {
    DistinctCount(Tokens.Split(line))
  }

  /** The observations of a sequence of lines, one per line. */
  function Observations(lines: seq<string>): (obs: seq<nat>)
    ensures |obs| == |lines|
  {
    seq(|lines|, i requires 0 <= i < |lines| => Observation(lines[i]))
  }

  /**
   * Where placement sends a value: to `low` when `low` is empty or its root
   * is not smaller, that is, when some value already in `low` is at least v.
   */
  predicate GoesLow(low: seq<nat>, v: nat): (b: bool)
    ensures MaxOrdered(low) ==> (b <==> low == [] || exists x :: x in low && v <= x)
  {
    MaxRootBounds(low);
    assert low != [] ==> low[0] in low;
    low == [] || v <= low[0]
  }

  class Engine {
    var low: seq<nat>
    var high: seq<nat>
    var lowCount: int
    var highCount: int
    /** Every value pushed so far, in arrival order. */
    ghost var seen: seq<nat>

    /** Counters match the queues, the queues are ordered, the roots are ordered and nothing is lost. */
    ghost predicate Arranged()
      reads this
    {
      && lowCount == |low| && highCount == |high|
      && Straddles(low, high)
      && multiset(low) + multiset(high) == multiset(seen)
    }

    /** The balance invariant: `low` has as many elements as `high`, or one more. */
    ghost predicate Balanced()
      reads this
    {
      lowCount == highCount || lowCount == highCount + 1
    }

    ghost predicate Valid()
      reads this
    {
      Arranged() && Balanced()
    }

    constructor ()
      ensures Valid() && seen == []
      ensures low == [] && high == [] && lowCount == 0 && highCount == 0
    {
      low, high := [], [];
      lowCount, highCount := 0, 0;
      seen := [];
    }

    /** Step 1: insert v into `low` or `high` according to `GoesLow`. */
    method Place(v: nat)
      requires Valid()
      modifies this
      ensures Arranged() && seen == old(seen) + [v]
      ensures GoesLow(old(low), v) ==>
        low == PushMax(old(low), v) && high == old(high) && lowCount == old(lowCount) + 1 && highCount == old(highCount)
      ensures !GoesLow(old(low), v) ==>
        low == old(low) && high == PushMin(old(high), v) && lowCount == old(lowCount) && highCount == old(highCount) + 1
    {
      if GoesLow(low, v) {
        PushMaxSpec(low, v);
        low := PushMax(low, v);
        lowCount := lowCount + 1;
      } else {
        PushMinSpec(high, v);
        high := PushMin(high, v);
        highCount := highCount + 1;
      }
      seen := seen + [v];
    }

    /** Step 2: move at most one root so that the balance invariant holds again. */
    method Rebalance()
      requires Arranged()
      requires highCount <= lowCount + 1 && lowCount <= highCount + 2
      modifies this
      ensures Valid() && seen == old(seen)
      ensures old(lowCount) < old(highCount) ==>
        low == PushMax(old(low), old(high)[0]) && high == old(high)[1..]
      ensures old(lowCount) > old(highCount) + 1 ==>
        low == old(low)[1..] && high == PushMin(old(high), old(low)[0])
      ensures old(highCount) <= old(lowCount) <= old(highCount) + 1 ==>
        low == old(low) && high == old(high)
    {
      if lowCount < highCount {
        MoveRootToLow(low, high);
        low, high := PushMax(low, high[0]), high[1..];
        lowCount := lowCount + 1;
        highCount := highCount - 1;
      } else if lowCount > highCount + 1 {
        MoveRootToHigh(low, high);
        low, high := low[1..], PushMin(high, low[0]);
        lowCount := lowCount - 1;
        highCount := highCount + 1;
      }
    }

    /** Step 3: the median read off the roots; an even total reads both roots, an odd one only `low`'s. */
    function CurrentMedian(): (m: real)
      reads this
      requires Valid() && seen != []
      ensures m == Median(seen)
    {
      MedianOfHalves(low, high, seen);
      EvenTotal(lowCount, highCount);
      var even := (lowCount + highCount) % 2 == 0;
      assert even ==> low[0] + high[0] == DoubledMedian(seen);
      assert !even ==> 2 * low[0] == DoubledMedian(seen);
      RealHalf(low[0]);
      if even then (low[0] + high[0]) as real / 2.0
      else low[0] as real
    }

    /** One observation in, the median of everything seen so far out. */
    method Push(v: nat) returns (m: real)
      requires Valid()
      modifies this
      ensures Valid() && seen == old(seen) + [v]
      ensures m == Median(seen)
    {
      Place(v);
      Rebalance();
      m := CurrentMedian();
    }
  }

  lemma RealHalf(x: nat)
    ensures x as real == (2 * x) as real / 2.0
  {
  }

  /** With balanced counters the total is even exactly when the two counters are equal. */
  lemma EvenTotal(l: int, h: int)
    requires l == h || l == h + 1
    ensures (l + h) % 2 == 0 <==> l == h
  {
  }

  /**
   * The whole stream: one median per line, in line order, each the exact
   * median of the observations of the lines read so far.
   */
  method GetStreamingMedian(lines: seq<string>) returns (medians: seq<real>)
    ensures medians == RunningMedians(Observations(lines))
    ensures |medians| == |lines|
  {
    var engine := new Engine();
    ghost var obs := Observations(lines);
    ghost var expected := RunningMedians(obs);
    medians := [];
    for i := 0 to |lines|
      invariant engine.Valid() && engine.seen == obs[..i]
      invariant |medians| == i
      invariant forall k :: 0 <= k < i ==> medians[k] == expected[k]
    {
      var num := Observation(lines[i]);
      assert obs[..i + 1] == obs[..i] + [num];
      var m := engine.Push(num);
      RunningMediansAt(obs, i);
      medians := medians + [m];
    }
  }
}

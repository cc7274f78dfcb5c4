/**
 * The order in which the word report lists its keys: strings compared
 * lexicographically by character code, a proper prefix first, as Python
 * compares `str` values; and sorting a finite set of keys into that order.
 */
module KeyOrder {

  /** a comes strictly before b. */
  predicate Precedes(a: string, b: string) {
    if a == [] then b != []
    else if b == [] then false
    else if a[0] != b[0] then a[0] < b[0]
    else Precedes(a[1..], b[1..])
  }

  lemma {:induction false} PrecedesIrreflexive(a: string)
    ensures !Precedes(a, a)
  {
    if a != [] {
      PrecedesIrreflexive(a[1..]);
    }
  }

  lemma {:induction false} PrecedesTransitive(a: string, b: string, c: string)
    requires Precedes(a, b) && Precedes(b, c)
    ensures Precedes(a, c)
  {
    if a != [] && a[0] == b[0] && b[0] == c[0] {
      PrecedesTransitive(a[1..], b[1..], c[1..]);
    }
  }

  /** Any two different strings are ordered one way or the other. */
  lemma {:induction false} PrecedesTotal(a: string, b: string)
    requires a != b
    ensures Precedes(a, b) || Precedes(b, a)
  {
    if a != [] && b != [] && a[0] == b[0] {
      assert a == [a[0]] + a[1..] && b == [b[0]] + b[1..];
      PrecedesTotal(a[1..], b[1..]);
    }
  }

  /** No string comes both before and after another. */
  lemma PrecedesAsymmetric(a: string, b: string)
    requires Precedes(a, b)
    ensures !Precedes(b, a)
  {
  }

  predicate StrictlyAscending(ks: seq<string>) {
    forall i, j :: 0 <= i < j < |ks| ==> Precedes(ks[i], ks[j])
  }

  /** A list whose neighbours are in order is strictly ascending throughout. */
  lemma {:induction false} ChainAscending(ks: seq<string>)
    requires forall i :: 0 <= i < |ks| - 1 ==> Precedes(ks[i], ks[i + 1])
    ensures StrictlyAscending(ks)
  {
    if |ks| > 1 {
      var tail := ks[1..];
      forall i | 0 <= i < |tail| - 1 ensures Precedes(tail[i], tail[i + 1]) {
        assert tail[i] == ks[i + 1] && tail[i + 1] == ks[i + 2];
      }
      ChainAscending(tail);
      forall i, j | 0 <= i < j < |ks| ensures Precedes(ks[i], ks[j]) {
        if i > 0 {
          assert ks[i] == tail[i - 1] && ks[j] == tail[j - 1];
        } else if j > 1 {
          assert ks[1] == tail[0] && ks[j] == tail[j - 1];
          PrecedesTransitive(ks[0], ks[1], ks[j]);
        }
      }
    }
  }

  /** Insert k into an ascending list of keys before the first key it precedes. */
  function InsertKey(ks: seq<string>, k: string): (r: seq<string>)
    ensures |r| == |ks| + 1
  {
    if ks == [] || Precedes(k, ks[0]) then [k] + ks else [ks[0]] + InsertKey(ks[1..], k)
  }

  /** Inserting a new key keeps the list strictly ascending and adds exactly that key. */
  lemma {:induction false} InsertKeySpec(ks: seq<string>, k: string)
    requires StrictlyAscending(ks) && k !in ks
    ensures StrictlyAscending(InsertKey(ks, k))
    ensures forall x :: x in InsertKey(ks, k) <==> x in ks || x == k
  {
    var r := InsertKey(ks, k);
    if ks == [] {
    } else if Precedes(k, ks[0]) {
      forall j | 0 <= j < |ks| ensures Precedes(k, ks[j]) {
        if j > 0 {
          PrecedesTransitive(k, ks[0], ks[j]);
        }
      }
      assert r == [k] + ks;
    } else {
      assert ks == [ks[0]] + ks[1..];
      PrecedesTotal(k, ks[0]);
      var rest := InsertKey(ks[1..], k);
      InsertKeySpec(ks[1..], k);
      assert r == [ks[0]] + rest;
      forall j | 0 <= j < |rest| ensures Precedes(ks[0], rest[j]) {
        assert rest[j] in rest;
        if rest[j] != k {
          var i :| 0 <= i < |ks[1..]| && ks[1..][i] == rest[j];
          assert ks[i + 1] == rest[j];
        }
      }
    }
  }

  /** Two strictly ascending lists with the same keys are the same list. */
  lemma {:induction false} AscendingUnique(a: seq<string>, b: seq<string>)
    requires StrictlyAscending(a) && StrictlyAscending(b)
    requires forall x :: x in a <==> x in b
    ensures a == b
  {
    AscendingCardinality(a);
    AscendingCardinality(b);
    assert (set x | x in a) == (set x | x in b);
    if a != [] {
      assert a[0] in b && b[0] in a;
      if a[0] != b[0] {
        var i :| 0 <= i < |b| && b[i] == a[0];
        var j :| 0 <= j < |a| && a[j] == b[0];
        assert Precedes(b[0], a[0]) by { assert i > 0; }
        assert Precedes(a[0], b[0]) by { assert j > 0; }
        PrecedesAsymmetric(a[0], b[0]);
      }
      forall x ensures x in a[1..] <==> x in b[1..] {
        AscendingTail(a, x);
        AscendingTail(b, x);
      }
      AscendingUnique(a[1..], b[1..]);
      assert a == [a[0]] + a[1..] && b == [b[0]] + b[1..];
    }
  }

  /** The tail of an ascending list holds everything but its head. */
  lemma AscendingTail(a: seq<string>, x: string)
    requires StrictlyAscending(a) && a != []
    ensures x in a[1..] <==> x in a && x != a[0]
  {
    if x in a[1..] {
      var i :| 0 <= i < |a[1..]| && a[1..][i] == x;
      assert Precedes(a[0], a[i + 1]);
      if x == a[0] {
        PrecedesIrreflexive(x);
      }
    }
    if x in a && x != a[0] {
      var i :| 0 <= i < |a| && a[i] == x;
      assert a[1..][i - 1] == x;
    }
  }

  /** An ascending list has no repeated key, so it is as long as its set of keys. */
  lemma {:induction false} AscendingCardinality(ks: seq<string>)
    requires StrictlyAscending(ks)
    ensures |set x | x in ks| == |ks|
  {
    if ks != [] {
      AscendingCardinality(ks[1..]);
      AscendingTail(ks, ks[0]);
      assert (set x | x in ks) == {ks[0]} + (set x | x in ks[1..]);
    }
  }

  /** The keys of a finite set, in ascending order. */
  ghost function SortedKeys(keys: set<string>): (ks: seq<string>)
    ensures StrictlyAscending(ks)
    ensures forall x :: x in ks <==> x in keys
    ensures |ks| == |keys|
    decreases keys
  {
    if keys == {} then []
    else
      var k :| k in keys;
      var rest := SortedKeys(keys - {k});
      InsertKeySpec(rest, k);
      var ks := InsertKey(rest, k);
      AscendingCardinality(ks);
      assert (set x | x in ks) == keys;
      ks
  }

  /**
   * Python's `sorted` applied to the keys of a dictionary: take the keys one
   * at a time in any order and insert each into an ascending list.
   */
  method SortKeys(keys: set<string>) returns (ks: seq<string>)
    ensures StrictlyAscending(ks)
    ensures forall x :: x in ks <==> x in keys
  {
    ks := [];
    var rest := keys;
    while rest != {}
      invariant StrictlyAscending(ks)
      invariant rest <= keys
      invariant forall x :: x in ks <==> x in keys && x !in rest
      decreases rest
    {
      var k :| k in rest;
      InsertKeySpec(ks, k);
      ks := InsertKey(ks, k);
      rest := rest - {k};
    }
  }
}

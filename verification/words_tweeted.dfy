/**
 * The word frequency map of a stream of lines and its report: every
 * whitespace-separated token is counted, then one line per distinct token
 * is written in ascending token order, the token left-justified in a
 * column followed by its count.
 */
module WordsTweeted {
  import Tokens
  import opened KeyOrder
  import opened TextFormat

  /** The tokens of all lines, line after line. */
  function AllTokens(lines: seq<string>): seq<string> {
    if lines == [] then []
    else AllTokens(lines[..|lines| - 1]) + Tokens.Split(lines[|lines| - 1])
  }

  /** Counting one more occurrence of w: w's entry goes up by one, or appears with count 1. */
  function Tally(freq: map<string, nat>, w: string): (r: map<string, nat>)
    ensures r.Keys == freq.Keys + {w}
    ensures r[w] == if w in freq then freq[w] + 1 else 1
    ensures forall x :: x in freq && x != w ==> r[x] == freq[x]
  {
    if w in freq then freq[w := freq[w] + 1] else freq[w := 1]
  }

  /** The frequency map of a token sequence, counted one token at a time from the front. */
  function Frequencies(tokens: seq<string>): map<string, nat> {
    if tokens == [] then map[]
    else Tally(Frequencies(tokens[..|tokens| - 1]), tokens[|tokens| - 1])
  }

  /**
   * The frequency map holds exactly the tokens that occur, each mapped to
   * its number of occurrences, which is at least 1.
   */
  lemma {:induction false} FrequenciesCount(tokens: seq<string>)
    ensures forall w :: w in Frequencies(tokens) <==> w in tokens
    ensures forall w :: w in Frequencies(tokens) ==> Frequencies(tokens)[w] == multiset(tokens)[w] >= 1
  {
    if tokens != [] {
      var init, last := tokens[..|tokens| - 1], tokens[|tokens| - 1];
      FrequenciesCount(init);
      assert tokens == init + [last];
      assert multiset(tokens) == multiset(init) + multiset{last};
    }
  }

  /** Counting a sequence of tokens after another continues from the first one's map. */
  lemma FrequenciesSnoc(tokens: seq<string>, w: string)
    ensures Frequencies(tokens + [w]) == Tally(Frequencies(tokens), w)
  {
  }

  /**
   * The frequency map of all tokens of all lines, built one token at a time:
   * a token already present has its count raised by one, a new token is
   * entered with count 1.
   */
  method GetWordFreq(lines: seq<string>) returns (freq: map<string, nat>)
    ensures freq == Frequencies(AllTokens(lines))
    ensures forall w :: w in freq <==> w in AllTokens(lines)
    ensures forall w :: w in freq ==> freq[w] == multiset(AllTokens(lines))[w] >= 1
  {
    freq := map[];
    for i := 0 to |lines|
      invariant freq == Frequencies(AllTokens(lines[..i]))
    {
      var words := Tokens.Split(lines[i]);
      ghost var done := AllTokens(lines[..i]);
      assert done + words[..0] == done;
      for j := 0 to |words|
        invariant freq == Frequencies(done + words[..j])
      {
        var word := words[j];
        assert done + words[..j + 1] == (done + words[..j]) + [word];
        FrequenciesSnoc(done + words[..j], word);
        if word in freq {
          freq := freq[word := freq[word] + 1];
        } else {
          freq := freq[word := 1];
        }
      }
      assert lines[..i + 1][..i] == lines[..i];
      assert words[..|words|] == words;
    }
    assert lines[..|lines|] == lines;
    FrequenciesCount(AllTokens(lines));
  }

  /** The sum of the counts of a frequency map. */
  ghost function Total(freq: map<string, nat>): nat
    decreases freq.Keys
  {
    if freq == map[] then 0
    else
      var w :| w in freq;
      freq[w] + Total(freq - {w})
  }

  /** The total can be computed by removing any key first. */
  lemma {:induction false} TotalRemove(freq: map<string, nat>, w: string)
    requires w in freq
    ensures Total(freq) == freq[w] + Total(freq - {w})
    decreases freq.Keys
  {
    var v :| v in freq && Total(freq) == freq[v] + Total(freq - {v});
    if v != w {
      var rest := freq - {v};
      TotalRemove(rest, w);
      TotalRemove(freq - {w}, v);
      assert rest - {w} == (freq - {w}) - {v};
    }
  }

  /** Counting one token adds one to the total. */
  lemma TotalTally(freq: map<string, nat>, w: string)
    ensures Total(Tally(freq, w)) == Total(freq) + 1
  {
    var r := Tally(freq, w);
    TotalRemove(r, w);
    if w in freq {
      TotalRemove(freq, w);
      assert r - {w} == freq - {w};
    } else {
      assert r - {w} == freq;
    }
  }

  /** The counts of the frequency map add up to the number of tokens. */
  lemma {:induction false} TotalOfFrequencies(tokens: seq<string>)
    ensures Total(Frequencies(tokens)) == |tokens|
  {
    if tokens != [] {
      var init := tokens[..|tokens| - 1];
      TotalOfFrequencies(init);
      TotalTally(Frequencies(init), tokens[|tokens| - 1]);
    }
  }

  /** The report lines for the given keys of a frequency map, one per key, in the given order. */
  function Lines(dct: map<string, nat>, keys: seq<string>, tabSpace: int): (out: seq<string>)
    requires forall k :: k in keys ==> k in dct
    ensures |out| == |keys|
  {
    if keys == [] then []
    else
      var last := keys[|keys| - 1];
      Lines(dct, keys[..|keys| - 1], tabSpace) + [FormatLine(last, dct[last], tabSpace)]
  }

  /** Line i is the formatted line of key i. */
  lemma {:induction false} LinesAt(dct: map<string, nat>, keys: seq<string>, tabSpace: int, i: nat)
    requires forall k :: k in keys ==> k in dct
    requires i < |keys|
    ensures Lines(dct, keys, tabSpace)[i] == FormatLine(keys[i], dct[keys[i]], tabSpace)
  {
    if i < |keys| - 1 {
      LinesAt(dct, keys[..|keys| - 1], tabSpace, i);
    }
  }

  /** The report of a frequency map: one formatted line per key, in ascending key order. */
  ghost function Report(dct: map<string, nat>, tabSpace: int): (out: seq<string>)
    ensures |out| == |dct|
  {
    Lines(dct, SortedKeys(dct.Keys), tabSpace)
  }

  /**
   * Write the report of a frequency map: sort its keys, then emit one line
   * per key, the key padded to `tabSpace` columns, then its count.
   */
  method SortAndWriteDict(dct: map<string, nat>, tabSpace: int := DefaultTabSpace) returns (out: seq<string>)
    ensures out == Report(dct, tabSpace)
  {
    var keys := SortKeys(dct.Keys);
    AscendingUnique(keys, SortedKeys(dct.Keys));
    out := [];
    for i := 0 to |keys|
      invariant out == Lines(dct, keys[..i], tabSpace)
    {
      assert keys[..i + 1][..i] == keys[..i];
      out := out + [FormatLine(keys[i], dct[keys[i]], tabSpace)];
    }
    assert keys[..|keys|] == keys;
  }

  /**
   * The report holds exactly one line per key, in strictly ascending key
   * order: line i is key i of the ascending keys, padded, then its count.
   */
  lemma ReportLines(dct: map<string, nat>, tabSpace: int)
    ensures var out := Report(dct, tabSpace);
      var ks := SortedKeys(dct.Keys);
      && StrictlyAscending(ks)
      && (forall w :: w in ks <==> w in dct)
      && |out| == |dct|
      && (forall i :: 0 <= i < |out| ==> out[i] == FormatLine(ks[i], dct[ks[i]], tabSpace))
  {
    var ks := SortedKeys(dct.Keys);
    forall i | 0 <= i < |ks| ensures Report(dct, tabSpace)[i] == FormatLine(ks[i], dct[ks[i]], tabSpace) {
      LinesAt(dct, ks, tabSpace, i);
    }
  }
}

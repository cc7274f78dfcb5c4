/**
 * The repository's unit-test data, checked against the model: three lines
 * of tweets whose streaming medians are 4.0, 3.5, 3.0, and the word report
 * of their frequency map.
 */
module UnitCases {
  import Tokens
  import opened MedianSpec
  import opened MedianUnique
  import opened KeyOrder
  import opened TextFormat
  import opened WordsTweeted

  function PopTarts(): seq<string> {
    ["pop", "tarts", "i", "like", "pop", "tarts", "pop", "pop", "tarts"]
  }

  function Vitamins(): seq<string> {
    ["flintstones", "vitamins", "primeday", "flintstones", "vitamins", "primeday"]
  }

  function Deal(): seq<string> {
    ["deal", "deal", "deal", "deal"]
  }

  /** The test input read line by line: tokens separated by single spaces, every line but the last ending in a newline. */
  function TestLines(): seq<string> {
    [Tokens.Join(PopTarts()) + "\n", Tokens.Join(Vitamins()) + "\n", Tokens.Join(Deal())]
  }

  predicate Words(ws: seq<string>) {
    forall i :: 0 <= i < |ws| ==> ws[i] != [] && Tokens.NoSpace(ws[i])
  }

  lemma TestWords()
    ensures Words(PopTarts()) && Words(Vitamins()) && Words(Deal())
  {
    assert Tokens.NoSpace("pop") && Tokens.NoSpace("tarts") && Tokens.NoSpace("i") && Tokens.NoSpace("like");
    assert Tokens.NoSpace("flintstones") && Tokens.NoSpace("vitamins") && Tokens.NoSpace("primeday");
    assert Tokens.NoSpace("deal");
  }

  lemma TestDistinctCounts()
    ensures DistinctCount(PopTarts()) == 4
    ensures DistinctCount(Vitamins()) == 3
    ensures DistinctCount(Deal()) == 1
  {
    assert (set w | w in PopTarts()) == {"pop", "tarts", "i", "like"};
    assert (set w | w in Vitamins()) == {"flintstones", "vitamins", "primeday"};
    assert (set w | w in Deal()) == {"deal"};
  }

  /** Three lines of whitespace-free tokens with 4, 3 and 1 distinct tokens give the observations 4, 3, 1. */
  lemma ObservationsOfLines(p: seq<string>, v: seq<string>, d: seq<string>)
    requires Words(p) && Words(v) && Words(d)
    requires DistinctCount(p) == 4 && DistinctCount(v) == 3 && DistinctCount(d) == 1
    ensures Observations([Tokens.Join(p) + "\n", Tokens.Join(v) + "\n", Tokens.Join(d)]) == [4, 3, 1]
  {
    Tokens.SplitJoin(p, "\n");
    Tokens.SplitJoin(v, "\n");
    Tokens.SplitJoin(d, "");
    assert Tokens.Join(d) + "" == Tokens.Join(d);
  }

  /** The distinct-token counts of the test lines are 4, 3 and 1. */
  lemma TestObservations()
    ensures Observations(TestLines()) == [4, 3, 1]
  {
    TestWords();
    TestDistinctCounts();
    ObservationsOfLines(PopTarts(), Vitamins(), Deal());
  }

  lemma RunningMediansTest()
    ensures RunningMedians([4, 3, 1]) == [4.0, 3.5, 3.0]
  {
  }

  /** The streaming medians of the test input are 4.0, 3.5 and 3.0. */
  lemma StreamingMedianTest()
    ensures RunningMedians(Observations(TestLines())) == [4.0, 3.5, 3.0]
  {
    TestObservations();
    RunningMediansTest();
  }

  /** Three lines of whitespace-free tokens hold those tokens, line after line. */
  lemma AllTokensOfLines(p: seq<string>, v: seq<string>, d: seq<string>)
    requires Words(p) && Words(v) && Words(d)
    ensures AllTokens([Tokens.Join(p) + "\n", Tokens.Join(v) + "\n", Tokens.Join(d)]) == p + v + d
  {
    var lines := [Tokens.Join(p) + "\n", Tokens.Join(v) + "\n", Tokens.Join(d)];
    Tokens.SplitJoin(p, "\n");
    Tokens.SplitJoin(v, "\n");
    Tokens.SplitJoin(d, "");
    assert Tokens.Join(d) + "" == Tokens.Join(d);
    assert lines[..2][..1] == lines[..1];
    assert lines[..3][..2] == lines[..2];
    assert AllTokens(lines[..1]) == p;
    assert AllTokens(lines[..2]) == p + v;
    assert lines[..3] == lines;
  }

  /** All tokens of the test input, in order. */
  lemma TestAllTokens()
    ensures AllTokens(TestLines()) == PopTarts() + Vitamins() + Deal()
  {
    TestWords();
    AllTokensOfLines(PopTarts(), Vitamins(), Deal());
  }

  /** The frequency map the word test expects. */
  function OutputDict(): map<string, nat> {
    map["vitamins" := 2, "deal" := 4, "tarts" := 3, "i" := 1, "pop" := 4, "primeday" := 2, "flintstones" := 2, "like" := 1]
  }

  function ReportKeys(): seq<string> {
    ["deal", "flintstones", "i", "like", "pop", "primeday", "tarts", "vitamins"]
  }

  /** The report of the expected map lists its keys in this order. */
  lemma ReportOrderTest()
    ensures SortedKeys(OutputDict().Keys) == ReportKeys()
  {
    var ks := ReportKeys();
    assert forall i :: 0 <= i < |ks| - 1 ==> Precedes(ks[i], ks[i + 1]);
    ChainAscending(ks);
    AscendingUnique(ks, SortedKeys(OutputDict().Keys));
  }

  /** Report lines of the word test: a key, spaces up to column 28, its count. */
  lemma FormatLineTest()
    ensures FormatLine("deal", 4, DefaultTabSpace) == "deal                        4\n"
    ensures FormatLine("flintstones", 2, DefaultTabSpace) == "flintstones                 2\n"
    ensures FormatLine("i", 1, DefaultTabSpace) == "i                           1\n"
  {
  }
}

# tweet_ingestion in Dafny

This project models the two computations of the tweet_ingestion repository
and proves their properties.

- **Streaming median of unique words per tweet** (`src/median_unique.py`).
  Each line of input yields one observation: how many distinct
  whitespace-separated tokens the line holds. The observations feed a
  running median. The median is kept with two priority queues. The `low`
  queue holds the values at or below the median and has the largest of them
  at its root. The `high` queue holds the values at or above it and has the
  smallest at its root. Two counters track the sizes. Every observation is
  processed in three steps: placed, then rebalanced, then the median is read.
  - Placement: the value goes to `low` when `low` is empty or the value is at
    most its root; otherwise it goes to `high`.
  - Rebalancing: at most one root moves between the queues, so that `low`
    holds as many elements as `high`, or one more.
  - Reading: with an even total the median is the mean of both roots;
    otherwise it is the root of `low`.
- **Word frequencies** (`src/words_tweeted.py`).
  - Every token of every line is counted in a dictionary: a token already
    present has its count raised by one, and a new token enters with count 1.
  - The dictionary is then written as a report: one line per key, in
    ascending key order. Each line is the key left-justified to a column
    width (28 by default), then the count in decimal, then a newline.

The files:

- `heaps.dfy` (module `Heaps`): the two priority queues. Each is a sequence
  kept in priority order with its root first. Pushing is an ordered
  insertion and popping takes the head.
- `median_spec.dfy` (module `MedianSpec`): the reference median of a finite
  sequence. The sequence is sorted, then the middle element is taken, or the
  mean of the two middle ones. This module also holds the running medians of
  a stream.
- `median_unique.dfy` (module `MedianUnique`): the observation for a line,
  and the median engine as a class.
  - The engine's fields are the two queues and the two counters.
  - Its methods are the three steps and a `Push` that chains them.
  - `GetStreamingMedian` is the loop over the lines. Each median it yields
    is proved to be the exact median of all observations so far.
- `tokens.dfy` (module `Tokens`): splitting a line on whitespace.
- `key_order.dfy` (module `KeyOrder`): the string order used to sort the
  report, and sorting a set of keys into that order.
- `text_format.dfy` (module `TextFormat`): left-justification, decimal
  rendering and the report line.
- `words_tweeted.dfy` (module `WordsTweeted`): the frequency loop, the sum
  of counts, and the report writer.
- `unit_cases.dfy` (module `UnitCases`): the data of the repository's unit
  tests, with the expected medians and report order proved for it.

The code has no compaction or batch-size step for the queues, and none is
modelled.

## Model

| member | source | states |
|---|---|---|
| Heaps.PushMax | src/median_unique.py:50 | pushing onto the low queue lengthens it by one; the order and contents it then has are stated by PushMaxSpec |
| Heaps.PushMin | src/median_unique.py:53 | pushing onto the high queue lengthens it by one; the order and contents it then has are stated by PushMinSpec |
| Heaps.PushMaxSpec | src/median_unique.py:49-51 | pushing onto the low queue keeps it max-ordered, adds exactly the new value, and leaves the larger of the old root and the value at the root |
| Heaps.PushMinSpec | src/median_unique.py:52-54 | pushing onto the high queue keeps it min-ordered, adds exactly the new value, and leaves the smaller of the old root and the value at the root |
| Heaps.MinRootBounds | src/median_unique.py:3-5 | the root of a min-ordered queue is at most every element in it |
| Heaps.MaxRootBounds | src/median_unique.py:48 | the root of the low queue is at least every element in it |
| Heaps.MoveRootToLow | src/median_unique.py:58-61 | moving the high root into low keeps both queues ordered with low's root at most high's, and loses or adds no value |
| Heaps.MoveRootToHigh | src/median_unique.py:64-67 | moving the low root into high keeps both queues ordered with low's root at most high's, and loses or adds no value |
| MedianSpec.SortSpec | src/median_unique.py:10-13 | the reference sort is non-decreasing and a permutation of its input |
| MedianSpec.SortedUnique | src/median_unique.py:10-13 | two non-decreasing arrangements of the same multiset are equal, so the sorted order is unique |
| MedianSpec.MiddleSumAt | src/median_unique.py:10-13 | twice the median is twice the middle element for odd length, and the sum of the two middle elements for even length |
| MedianSpec.RunningMedians | src/median_unique.py:42-80 | the running medians have one entry per observation |
| MedianSpec.RunningMediansAt | src/median_unique.py:42-80 | entry k of the running medians is the median of the first k+1 observations |
| MedianSpec.RunningMediansPrefixes | src/median_unique.py:42-80 | every entry of the running medians is the median of its prefix |
| MedianSpec.MedianIgnoresOrder | src/median_unique.py:10-13 | the median depends only on the multiset of values, not on arrival order |
| MedianSpec.MiddleSumWithin | src/median_unique.py:10-13 | the middle of values within [lo, hi] stays within [lo, hi] |
| MedianSpec.MedianWithinRange | src/median_unique.py:10-13 | the median lies between any lower and upper bound of the values |
| MedianSpec.HalvesOrdered | src/median_unique.py:7-8 | low read backwards followed by high is non-decreasing whenever the roots are ordered |
| MedianSpec.MedianOfHalves | src/median_unique.py:72-77 | balanced, ordered halves of the values give the median from their roots: both roots for an even total (and high is then non-empty), low's root for an odd total |
| MedianUnique.DistinctCount | src/median_unique.py:44 | the number of distinct tokens is at most the number of tokens, and is zero exactly for an empty line |
| MedianUnique.DistinctBound | src/median_unique.py:44 | a token list has at most as many distinct tokens as tokens, and at least one when non-empty |
| MedianUnique.Observation | src/median_unique.py:43-44 | a line's observation never exceeds its token count |
| MedianUnique.Observations | src/median_unique.py:42-44 | there is one observation per line |
| MedianUnique.GoesLow | src/median_unique.py:49 | for an ordered low queue, a value is placed in low exactly when low is empty or holds some value at least as large |
| MedianUnique.Engine.constructor | src/median_unique.py:37-40 | the engine starts with empty queues, zero counters and its invariant established |
| MedianUnique.Engine.Place | src/median_unique.py:46-54 | a value goes to low (counter +1) when low is empty or the value is at most low's root, otherwise to high (counter +1); the order, counter and conservation invariants still hold |
| MedianUnique.Engine.Rebalance | src/median_unique.py:56-67 | when high outgrows low its root moves to low, when low outgrows high by two its root moves to high, otherwise nothing changes; afterwards low holds as many elements as high or one more |
| MedianUnique.Engine.CurrentMedian | src/median_unique.py:69-77 | reading the roots yields the exact median of every value pushed so far |
| MedianUnique.Engine.Push | src/median_unique.py:42-80 | one observation in keeps all invariants and returns the exact median of all observations so far |
| MedianUnique.EvenTotal | src/median_unique.py:72 | under the balance invariant the total is even exactly when the counters are equal |
| MedianUnique.GetStreamingMedian | src/median_unique.py:24-80 | one median per line, the k-th being the median of the observations of lines 0..k |
| Tokens.WordLength | src/median_unique.py:44 | the leading word is whitespace-free and is followed by whitespace or the end |
| Tokens.Split | src/words_tweeted.py:36 | every token is non-empty and whitespace-free |
| Tokens.SplitWordThen | src/words_tweeted.py:36 | a whitespace-free word followed by whitespace or the end is the first token |
| Tokens.SplitSpaces | src/words_tweeted.py:36 | whitespace alone yields no token |
| Tokens.SplitLeadingSpaces | src/words_tweeted.py:36 | leading whitespace of any kind and length is skipped and yields no token |
| Tokens.SplitWordSeparator | src/median_unique.py:44 | a word followed by any non-empty run of whitespace is one token, and the whole run is a single separator |
| Tokens.SplitJoin | src/median_unique.py:44 | splitting space-joined whitespace-free words, with any trailing whitespace, gives back the words |
| KeyOrder.PrecedesIrreflexive | src/words_tweeted.py:63 | no key sorts before itself |
| KeyOrder.PrecedesTransitive | src/words_tweeted.py:63 | the key order is transitive |
| KeyOrder.PrecedesTotal | src/words_tweeted.py:63 | any two different keys are ordered one way or the other |
| KeyOrder.PrecedesAsymmetric | src/words_tweeted.py:63 | no two keys are ordered both ways |
| KeyOrder.ChainAscending | src/words_tweeted.py:63 | a list whose neighbours are in order is strictly ascending |
| KeyOrder.InsertKey | src/words_tweeted.py:63 | inserting a key lengthens the list by one |
| KeyOrder.InsertKeySpec | src/words_tweeted.py:63 | inserting a new key into an ascending list keeps it strictly ascending and adds exactly that key |
| KeyOrder.AscendingUnique | src/words_tweeted.py:63 | two strictly ascending lists of the same keys are equal, so the sorted order is unique |
| KeyOrder.AscendingTail | src/words_tweeted.py:63 | the tail of an ascending list holds every key but the head |
| KeyOrder.AscendingCardinality | src/words_tweeted.py:63 | an ascending list repeats no key |
| KeyOrder.SortedKeys | src/words_tweeted.py:63 | the sorted keys of a set are strictly ascending, hold exactly the set's keys, and number as many as the set |
| KeyOrder.SortKeys | src/words_tweeted.py:63 | sorting a dictionary's keys gives a strictly ascending list holding exactly those keys |
| TextFormat.Spaces | src/words_tweeted.py:66 | n spaces |
| TextFormat.LJust | src/words_tweeted.py:66 | the string is kept as a prefix and padded with spaces to the width, or left unchanged when already at least that wide |
| TextFormat.Decimal | src/words_tweeted.py:66 | a count is written as a non-empty string of decimal digits with no leading zero |
| TextFormat.DecimalRoundTrip | src/words_tweeted.py:66 | reading the decimal form of a count back gives the count |
| TextFormat.DecimalInjective | src/words_tweeted.py:66 | different counts are written differently |
| TextFormat.FormatLine | src/words_tweeted.py:66 | a report line starts with the key, is as long as the key column plus the count's digits plus one, and ends in a newline |
| TextFormat.FormatLineShape | src/words_tweeted.py:66 | a report line is the key, spaces up to column max(len(key), tab_space), the decimal count, and a final newline, the only one when the key has none |
| WordsTweeted.Tally | src/words_tweeted.py:40-43 | counting a token raises its count by one or enters it with count 1, and no other entry changes |
| WordsTweeted.FrequenciesCount | src/words_tweeted.py:27-45 | the frequency map holds exactly the tokens that occur, each mapped to its number of occurrences, which is at least 1 |
| WordsTweeted.GetWordFreq | src/words_tweeted.py:27-45 | the returned map's keys are exactly the tokens of all lines, and each count is that token's number of occurrences |
| WordsTweeted.TotalRemove | src/words_tweeted.py:40-43 | the sum of counts may be taken by removing any key first |
| WordsTweeted.TotalTally | src/words_tweeted.py:40-43 | counting a token raises the sum of counts by one |
| WordsTweeted.TotalOfFrequencies | src/words_tweeted.py:33-43 | the counts add up to the total number of tokens |
| WordsTweeted.Lines | src/words_tweeted.py:63-66 | the report of a key list has one line per key |
| WordsTweeted.LinesAt | src/words_tweeted.py:63-66 | line i of the report is the formatted line of key i |
| WordsTweeted.Report | src/words_tweeted.py:63-66 | the report has one line per dictionary entry |
| WordsTweeted.SortAndWriteDict | src/words_tweeted.py:48-66 | the written lines are the report: one formatted line per key, in ascending key order; the column width defaults to 28 when not given |
| WordsTweeted.ReportLines | src/words_tweeted.py:63-66 | line i of the report is key i of the strictly ascending keys, padded, then its count, so each key appears exactly once |
| UnitCases.TestWords | src/tests/unit_median_unique.py:27 | the test tokens are non-empty and whitespace-free |
| UnitCases.TestDistinctCounts | src/tests/unit_median_unique.py:6-8 | the three test lines have 4, 3 and 1 distinct tokens |
| UnitCases.ObservationsOfLines | src/tests/unit_median_unique.py:27 | three lines of tokens with 4, 3 and 1 distinct tokens give the observations 4, 3, 1 |
| UnitCases.TestObservations | src/tests/unit_median_unique.py:6-8 | the observations of the test input are 4, 3, 1 |
| UnitCases.RunningMediansTest | src/tests/unit_median_unique.py:28 | the running medians of 4, 3, 1 are 4.0, 3.5, 3.0 |
| UnitCases.StreamingMedianTest | src/tests/unit_median_unique.py:38-45 | the streaming medians of the test input are 4.0, 3.5, 3.0 |
| UnitCases.AllTokensOfLines | src/test/unit_words_tweeted.py:36 | three lines of tokens hold those tokens, line after line |
| UnitCases.TestAllTokens | src/test/unit_words_tweeted.py:36 | the tokens of the word test input, in order |
| UnitCases.ReportOrderTest | src/test/unit_words_tweeted.py:37-45 | the keys of the expected map are reported as deal, flintstones, i, like, pop, primeday, tarts, vitamins |
| UnitCases.FormatLineTest | src/test/unit_words_tweeted.py:38-40 | the first three lines of the expected report |

## Left out

- File input and output are not modelled. Lines are given as a sequence of strings, and reports are returned as a sequence of lines. This covers the `open` calls, `write_streaming_values`, `main` and the console messages.
- Generators: `get_streaming_median` yields lazily, and the model returns the list of all medians.
- heapq internals: a queue is its contents kept in priority order. The negation trick that turns Python's min-heap into a max-heap is an encoding detail and is not modelled.
- Floating point: medians are exact reals. With counts this small, the source's float division is exact too. The sign of zero is not modelled: for an odd total with a median of 0 (a first line with no tokens, say), the source computes -0.0, which equals 0.0 but is written as "-0.0".
- Strings are sequences of Unicode characters, as a Python 3 `str` is. Read as Python 2 byte strings, a key with non-ASCII characters is padded by `ljust` to 28 bytes, not 28 characters. That byte-length padding, and the byte order `sorted` would then use, are not modelled. For ASCII text the two readings agree.
- Whitespace: `Tokens.IsSpace` holds for the six ASCII whitespace characters only (space, tab, line feed, vertical tab, form feed, carriage return). A Python 3 `str.split()` also splits on the separators \x1c-\x1f and on Unicode whitespace such as \x85 and \xa0; those are not modelled.
- String order: `sorted` is modelled as lexicographic order by character code. Python's locale-independent `str` comparison is that order.
- Dictionary values: `sort_and_write_dict` accepts any dictionary. The model takes string-to-count maps, as `get_word_freq` produces them.
- The word test's expected frequency map (src/test/unit_words_tweeted.py:37) is not restated as a concrete lemma. The contract of WordsTweeted.GetWordFreq covers every input, that one included.
- UnitCases.FormatLineTest: covers three lines of the expected report, not all eight. ReportOrderTest fixes the order of all eight keys.
- UnitCases.TestObservations: the test input is written as its tokens joined by single spaces, with the same characters as the test's string.
- MedianUnique.GetStreamingMedian: its contract ties the result to the running medians. The per-line meaning (line k gives the median of the first k+1 observations) is stated by MedianSpec.RunningMediansPrefixes.

/**
 * Splitting a line into whitespace-separated tokens, as Python's
 * `str.split()` with no argument does for ASCII text: runs of whitespace
 * separate tokens, and leading or trailing whitespace yields no empty token.
 */
module Tokens {

  /** Space, tab, line feed, vertical tab, form feed and carriage return. */
  predicate IsSpace(c: char) {
    c == ' ' || '\t' <= c <= '\r'
  }

  predicate NoSpace(w: string) {
    forall i :: 0 <= i < |w| ==> !IsSpace(w[i])
  }

  /** The length of the leading run of non-whitespace characters. */
  function WordLength(s: string): (k: nat)
    ensures k <= |s|
    ensures NoSpace(s[..k])
    ensures k < |s| ==> IsSpace(s[k])
  {
    if s == [] || IsSpace(s[0]) then 0 else 1 + WordLength(s[1..])
  }

  function Split(s: string): (tokens: seq<string>)
    ensures forall t :: t in tokens ==> t != [] && NoSpace(t)
    decreases |s|
  {
    if s == [] then []
    else if IsSpace(s[0]) then Split(s[1..])
    else
      var k := WordLength(s);
      [s[..k]] + Split(s[k..])
  }

  /** Tokens written out with one space between them. */
  function Join(words: seq<string>): string {
    if words == [] then ""
    else if |words| == 1 then words[0]
    else words[0] + " " + Join(words[1..])
  }

  /** A whitespace-free word followed by whitespace or the end is read whole. */
  lemma {:induction false} WordLengthOfWord(w: string, rest: string)
    requires NoSpace(w)
    requires rest == [] || IsSpace(rest[0])
    ensures WordLength(w + rest) == |w|
  {
    if w != [] {
      assert (w + rest)[1..] == w[1..] + rest;
      WordLengthOfWord(w[1..], rest);
    }
  }

  /** A non-empty whitespace-free word followed by whitespace or the end is the first token. */
  lemma SplitWordThen(w: string, rest: string)
    requires w != [] && NoSpace(w)
    requires rest == [] || IsSpace(rest[0])
    ensures Split(w + rest) == [w] + Split(rest)
  {
    var s := w + rest;
    WordLengthOfWord(w, rest);
    assert !IsSpace(s[0]);
    assert s[..|w|] == w;
    assert s[|w|..] == rest;
  }

  /** Whitespace alone holds no token. */
  lemma {:induction false} SplitSpaces(tail: string)
    requires forall i :: 0 <= i < |tail| ==> IsSpace(tail[i])
    ensures Split(tail) == []
    decreases |tail|
  {
    if tail != [] {
      SplitSpaces(tail[1..]);
    }
  }

  /** Leading whitespace is skipped: it never starts or forms a token. */
  lemma {:induction false} SplitLeadingSpaces(ws: string, s: string)
    requires forall i :: 0 <= i < |ws| ==> IsSpace(ws[i])
    ensures Split(ws + s) == Split(s)
    decreases |ws|
  {
    if ws != [] {
      assert (ws + s)[1..] == ws[1..] + s;
      SplitLeadingSpaces(ws[1..], s);
    } else {
      assert ws + s == s;
    }
  }

  /**
   * A word followed by any non-empty run of whitespace is one token, and
   * the run is one separator: splitting goes on after the whole run.
   */
  lemma SplitWordSeparator(w: string, ws: string, rest: string)
    requires w != [] && NoSpace(w)
    requires ws != [] && forall i :: 0 <= i < |ws| ==> IsSpace(ws[i])
    ensures Split(w + ws + rest) == [w] + Split(rest)
  {
    assert w + ws + rest == w + (ws + rest);
    SplitWordThen(w, ws + rest);
    SplitLeadingSpaces(ws, rest);
  }

  /**
   * Splitting undoes joining, for non-empty whitespace-free tokens, even
   * when the line ends in whitespace such as its newline.
   */
  lemma {:induction false} SplitJoin(words: seq<string>, tail: string)
    requires forall i :: 0 <= i < |words| ==> words[i] != [] && NoSpace(words[i])
    requires forall i :: 0 <= i < |tail| ==> IsSpace(tail[i])
    ensures Split(Join(words) + tail) == words
  {
    SplitSpaces(tail);
    if words == [] {
      assert Join(words) + tail == tail;
    } else if |words| == 1 {
      SplitWordThen(words[0], tail);
    } else {
      var rest := Join(words[1..]) + tail;
      assert Join(words) + tail == words[0] + (" " + rest);
      SplitWordThen(words[0], " " + rest);
      assert (" " + rest)[1..] == rest;
      SplitJoin(words[1..], tail);
    }
  }
}

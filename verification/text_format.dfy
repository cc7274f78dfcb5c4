/**
 * The pieces of one line of the word report: a key left-justified in a
 * column of spaces (Python's `str.ljust`) and a count written in decimal
 * (Python's `str` of a non-negative integer).
 */
module TextFormat {

  /** The default width of the key column of the word report. */
  const DefaultTabSpace: int := 28

  function Spaces(n: nat): (r: string)
    ensures |r| == n
    ensures forall i :: 0 <= i < n ==> r[i] == ' '
  {
    if n == 0 then [] else [' '] + Spaces(n - 1)
  }

  /**
   * s padded on the right with spaces up to the given width; a width at
   * most |s| (negative included) leaves s unchanged.
   */
  function LJust(s: string, width: int): (r: string)
    ensures |r| == if |s| >= width then |s| else width
    ensures r[..|s|] == s
    ensures forall i :: |s| <= i < |r| ==> r[i] == ' '
  {
    if |s| >= width then s else s + Spaces(width - |s|)
  }

  function DigitChar(d: nat): (c: char)
    requires d < 10
    ensures '0' <= c <= '9'
  {
    ['0', '1', '2', '3', '4', '5', '6', '7', '8', '9'][d]
  }

  predicate IsDigit(c: char) {
    '0' <= c <= '9'
  }

  function DigitValue(c: char): (d: nat)
    requires IsDigit(c)
    ensures d < 10
  {
    (c as int - '0' as int) as nat
  }

  /** The decimal digits of n, most significant first, with no leading zero. */
  function Decimal(n: nat): (r: string)
    ensures r != []
    ensures forall i :: 0 <= i < |r| ==> IsDigit(r[i])
    ensures |r| > 1 ==> r[0] != '0'
  {
    if n < 10 then [DigitChar(n)] else Decimal(n / 10) + [DigitChar(n % 10)]
  }

  /** The number a string of decimal digits denotes. */
  function ParseDecimal(s: string): nat
    requires forall i :: 0 <= i < |s| ==> IsDigit(s[i])
  {
    if s == [] then 0 else 10 * ParseDecimal(s[..|s| - 1]) + DigitValue(s[|s| - 1])
  }

  lemma DigitRoundTrip(d: nat)
    requires d < 10
    ensures DigitValue(DigitChar(d)) == d
  {
  }

  /** Reading back the decimal form of a count gives the count. */
  lemma {:induction false} DecimalRoundTrip(n: nat)
    ensures ParseDecimal(Decimal(n)) == n
  {
    DigitRoundTrip(n % 10);
    if n >= 10 {
      DecimalRoundTrip(n / 10);
      var r := Decimal(n);
      assert r[..|r| - 1] == Decimal(n / 10);
    }
  }

  /** Distinct counts are written differently. */
  lemma DecimalInjective(m: nat, n: nat)
    requires Decimal(m) == Decimal(n)
    ensures m == n
  {
    DecimalRoundTrip(m);
    DecimalRoundTrip(n);
  }

  /** One line of the word report: the key in its column, the count, a newline. */
  function FormatLine(key: string, count: nat, tabSpace: int): (line: string)
    ensures |line| == (if |key| >= tabSpace then |key| else tabSpace) + |Decimal(count)| + 1
    ensures line[..|key|] == key && line[|line| - 1] == '\n'
  {
    LJust(key, tabSpace) + Decimal(count) + "\n"
  }

  /**
   * A report line starts with the key, continues with spaces up to column
   * max(|key|, tabSpace), then holds exactly the decimal count, and ends
   * with a newline, the only one in the line when the key has none.
   */
  lemma FormatLineShape(key: string, count: nat, tabSpace: int)
    ensures var line := FormatLine(key, count, tabSpace);
      var col := if |key| >= tabSpace then |key| else tabSpace;
      && |line| == col + |Decimal(count)| + 1
      && line[..|key|] == key
      && (forall i :: |key| <= i < col ==> line[i] == ' ')
      && line[col..|line| - 1] == Decimal(count)
      && ParseDecimal(line[col..|line| - 1]) == count
      && line[|line| - 1] == '\n'
      && ((forall i :: 0 <= i < |key| ==> key[i] != '\n') ==>
            forall i :: 0 <= i < |line| - 1 ==> line[i] != '\n')
  {
    var line := FormatLine(key, count, tabSpace);
    var padded := LJust(key, tabSpace);
    assert line == padded + Decimal(count) + "\n";
    assert line[..|key|] == padded[..|key|];
    assert line[|padded|..|line| - 1] == Decimal(count);
    DecimalRoundTrip(count);
  }
}

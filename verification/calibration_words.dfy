/**
 * Calibration with spelled-out digits (1p2.py): the words "one" to "nine"
 * count as digits too, and matches may overlap ("twone" holds 2 then 1),
 * because the search is a lookahead tried at every position.
 */
module CalibrationWords {
  import opened Seqs
  import opened Outcomes
  import Calibration

  /** The spelled-out digits, in the order of the word table; "zero" is not one. */
  const Words: seq<string> := ["one", "two", "three", "four", "five", "six", "seven", "eight", "nine"]

  predicate StartsWithAt(line: string, i: nat, w: string)
  {
    i + |w| <= |line| && line[i..i + |w|] == w
  }

  /** The regex alternation tried at position `i`: the first word that starts
      there, else a digit character there (1p2.py:38, 40-44). */
  function MatchAt(line: string, i: nat): (r: Option<char>)
    requires i < |line|
    ensures r.Some? ==> IsDigit(r.value)
    ensures IsDigit(line[i]) ==> r == Some(line[i])
    ensures r.Some? && !IsDigit(line[i]) ==> exists k :: 0 <= k < 9 && StartsWithAt(line, i, Words[k])
  {
    if IsDigit(line[i]) then Some(line[i])
    else WordAt(line, i, 0)
  }

  function WordAt(line: string, i: nat, k: nat): (r: Option<char>)
    requires k <= 9
    ensures r.Some? ==> exists m :: k <= m < 9 && StartsWithAt(line, i, Words[m]) && r.value == ('1' as int + m) as char
    ensures r.None? ==> forall m :: k <= m < 9 ==> !StartsWithAt(line, i, Words[m])
    decreases 9 - k
  {
    if k == 9 then None
    else if StartsWithAt(line, i, Words[k]) then Some(('1' as int + k) as char)
    else WordAt(line, i, k + 1)
  }

  /** The digits found at positions `0 .. n - 1`, left to right (1p2.py:52). */
  function DigitsUpTo(line: string, n: nat): (r: string)
    requires n <= |line|
    ensures |r| <= n
    ensures forall j :: 0 <= j < |r| ==> IsDigit(r[j])
  {
    if n == 0 then []
    else
      var m := MatchAt(line, n - 1);
      DigitsUpTo(line, n - 1) + (if m.Some? then [m.value] else [])
  }

  function Digits(line: string): string
  {
    DigitsUpTo(line, |line|)
  }

  /** The value of one line (1p2.py:53). */
  function LineValue(line: string): Result<nat>
  {
    Calibration.TwoDigitValue(Digits(line))
  }

  /** The whole input (1p2.py:47-56). */
  function Total(lines: seq<string>): Result<int>
  {
    if |lines| == 0 then Ok(0)
    else
      var prefix :- Total(lines[..|lines| - 1]);
      var v :- LineValue(lines[|lines| - 1]);
      Ok(prefix + v)
  }

  /** Without a spelled-out word, the digits found are exactly the digit
      characters, as in the first part. */
  lemma {:induction false} DigitsWithoutWords(line: string, n: nat)
    requires n <= |line|
    requires forall i, k :: 0 <= i < n && 0 <= k < 9 ==> !StartsWithAt(line, i, Words[k])
    ensures DigitsUpTo(line, n) == Calibration.Digits(line[..n])
  {
    if n > 0 {
      DigitsWithoutWords(line, n - 1);
      assert line[..n][..n - 1] == line[..n - 1];
    }
  }

  /** On a line without spelled-out words both parts agree (1.py:11-12, 1p2.py:52-53). */
  lemma AgreesWithoutWords(line: string)
    requires forall i, k :: 0 <= i < |line| && 0 <= k < 9 ==> !StartsWithAt(line, i, Words[k])
    ensures LineValue(line) == Calibration.LineValue(line)
  {
    DigitsWithoutWords(line, |line|);
    assert line[..|line|] == line;
  }

  /** No spelled-out word starts at a position holding `c`, when no word
      begins with `c`. */
  lemma NoWordStartingWith(line: string, i: nat)
    requires i < |line| && line[i] !in "otfsen"
    ensures WordAt(line, i, 0) == None
  {
    forall m | 0 <= m < 9
      ensures !StartsWithAt(line, i, Words[m])
    {
      assert Words[m][0] in "otfsen";
      assert i + |Words[m]| <= |line| ==> line[i..i + |Words[m]|][0] == line[i];
    }
  }

  /** No spelled-out word fits in fewer than three characters. */
  lemma NoWordNearEnd(line: string, i: nat)
    requires i < |line| < i + 3
    ensures WordAt(line, i, 0) == None
  {
    forall m | 0 <= m < 9
      ensures !StartsWithAt(line, i, Words[m])
    {
      assert |Words[m]| >= 3;
    }
  }

  /** Where each digit of "twone" is found: "two" at 0, "one" at 2. */
  lemma TwoneMatches()
    ensures MatchAt("twone", 0) == Some('2') && MatchAt("twone", 1) == None
    ensures MatchAt("twone", 2) == Some('1')
    ensures MatchAt("twone", 3) == None && MatchAt("twone", 4) == None
  {
    var line := "twone";
    assert !StartsWithAt(line, 0, Words[0]) by { assert line[0] != Words[0][0]; }
    assert line[0..3] == Words[1];
    assert WordAt(line, 0, 0) == Some('2');
    NoWordStartingWith(line, 1);
    assert line[2..5] == Words[0];
    assert WordAt(line, 2, 0) == Some('1');
    NoWordNearEnd(line, 3);
    NoWordNearEnd(line, 4);
  }

  /** Overlapping words both count: "twone" reads 2 then 1, so its value is 21. */
  lemma OverlappingWords()
    ensures Digits("twone") == "21"
    ensures LineValue("twone") == Ok(21)
  {
    var line := "twone";
    TwoneMatches();
    assert DigitsUpTo(line, 1) == "2";
    assert DigitsUpTo(line, 2) == "2";
    assert DigitsUpTo(line, 3) == "21";
    assert DigitsUpTo(line, 4) == "21";
  }

  lemma {:induction false} NoMatchesAfter(line: string, from: nat, n: nat)
    requires from <= n <= |line|
    requires forall i :: from <= i < n ==> MatchAt(line, i) == None
    ensures DigitsUpTo(line, n) == DigitsUpTo(line, from)
    decreases n - from
  {
    if n > from {
      NoMatchesAfter(line, from, n - 1);
    }
  }
}

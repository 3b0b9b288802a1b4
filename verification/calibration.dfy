/**
 * Trebuchet calibration (1.py): the value of a line is the two-digit number
 * formed by its first and last digit characters, and the answer is the sum
 * of the line values.
 */
module Calibration {
  import opened Seqs
  import opened Outcomes

  /** The digit characters of a line, in order (1.py:11). */
  function Digits(line: string): (r: string)
    ensures |r| <= |line|
    ensures forall i :: 0 <= i < |r| ==> IsDigit(r[i])
  {
    if |line| == 0 then []
    else Digits(line[..|line| - 1]) + (if IsDigit(line[|line| - 1]) then [line[|line| - 1]] else [])
  }

  lemma {:induction false} DigitsAppend(a: string, b: string)
    ensures Digits(a + b) == Digits(a) + Digits(b)
    decreases |b|
  {
    if |b| == 0 {
      assert a + b == a;
    } else {
      assert (a + b)[..|a + b| - 1] == a + b[..|b| - 1];
      DigitsAppend(a, b[..|b| - 1]);
    }
  }

  /** `int(first + last)` of a string of digits: indexing an empty string is
      an IndexError (1.py:12). */
  function TwoDigitValue(digits: string): (r: Result<nat>)
    requires forall i :: 0 <= i < |digits| ==> IsDigit(digits[i])
    ensures r.Err? <==> |digits| == 0
    ensures r.Err? ==> r.error == IndexError
    ensures r.Ok? ==> r.value <= 99
  {
    if |digits| == 0 then Err(IndexError)
    else Ok(10 * DigitValue(digits[0]) + DigitValue(digits[|digits| - 1]))
  }

  /** The calibration value of one line (1.py:11-12). */
  function LineValue(line: string): Result<nat>
  {
    TwoDigitValue(Digits(line))
  }

  /** The whole input: the sum of the line values, or the first error (1.py:6-13). */
  function Total(lines: seq<string>): Result<int>
  {
    if |lines| == 0 then Ok(0)
    else
      var prefix :- Total(lines[..|lines| - 1]);
      var v :- LineValue(lines[|lines| - 1]);
      Ok(prefix + v)
  }

  /** The value reads the first and the last digit of the line: 10 x first + last. */
  lemma {:induction false} LineValueFirstLast(line: string, i: nat, j: nat)
    requires i <= j < |line| && IsDigit(line[i]) && IsDigit(line[j])
    requires forall k :: 0 <= k < i ==> !IsDigit(line[k])
    requires forall k :: j < k < |line| ==> !IsDigit(line[k])
    ensures LineValue(line) == Ok(10 * DigitValue(line[i]) + DigitValue(line[j]))
  {
    NoDigits(line[..i]);
    NoDigits(line[j + 1..]);
    if i == j {
      assert line == line[..i] + [line[i]] + line[j + 1..];
      DigitsAppend(line[..i] + [line[i]], line[j + 1..]);
      DigitsAppend(line[..i], [line[i]]);
      assert Digits([line[i]]) == [line[i]] by {
        assert [line[i]][..0] == [];
      }
    } else {
      var mid := line[i + 1..j];
      assert line == line[..i] + [line[i]] + mid + [line[j]] + line[j + 1..];
      DigitsAppend(line[..i] + [line[i]] + mid + [line[j]], line[j + 1..]);
      DigitsAppend(line[..i] + [line[i]] + mid, [line[j]]);
      DigitsAppend(line[..i] + [line[i]], mid);
      DigitsAppend(line[..i], [line[i]]);
      assert Digits([line[i]]) == [line[i]] by {
        assert [line[i]][..0] == [];
      }
      assert Digits([line[j]]) == [line[j]] by {
        assert [line[j]][..0] == [];
      }
    }
  }

  lemma {:induction false} NoDigits(s: string)
    requires forall k :: 0 <= k < |s| ==> !IsDigit(s[k])
    ensures Digits(s) == []
    decreases |s|
  {
    if |s| > 0 {
      NoDigits(s[..|s| - 1]);
    }
  }

  /** A line holding exactly one digit d is worth 11 x d (1.py:8-12). */
  lemma SingleDigitLine(line: string, i: nat)
    requires i < |line| && IsDigit(line[i])
    requires forall k :: 0 <= k < |line| && k != i ==> !IsDigit(line[k])
    ensures LineValue(line) == Ok(11 * DigitValue(line[i]))
  {
    LineValueFirstLast(line, i, i);
  }

  /** Inserting a non-digit character anywhere leaves the value unchanged (1.py:11). */
  lemma NonDigitIrrelevant(a: string, c: char, b: string)
    requires !IsDigit(c)
    ensures LineValue(a + [c] + b) == LineValue(a + b)
  {
    DigitsAppend(a + [c], b);
    DigitsAppend(a, [c]);
    DigitsAppend(a, b);
    assert Digits([c]) == [] by {
      assert [c][..0] == [];
    }
  }

  /** A line without digits is an error, not a zero (1.py:12). */
  lemma NoDigitLineFails(line: string)
    requires forall k :: 0 <= k < |line| ==> !IsDigit(line[k])
    ensures LineValue(line) == Err(IndexError)
  {
    NoDigits(line);
  }

  /** The total is additive over concatenated inputs (1.py:6-13). */
  lemma {:induction false} TotalAdditive(a: seq<string>, b: seq<string>)
    requires Total(a).Ok? && Total(b).Ok?
    ensures Total(a + b) == Ok(Total(a).value + Total(b).value)
    decreases |b|
  {
    if |b| == 0 {
      assert a + b == a;
    } else {
      assert (a + b)[..|a + b| - 1] == a + b[..|b| - 1];
      assert Total(b[..|b| - 1]).Ok?;
      TotalAdditive(a, b[..|b| - 1]);
    }
  }
}

/**
 * Lens Library, first part (15.py): the HASH of a string, and the sum of
 * the hashes of the comma-separated steps of the initialisation sequence.
 */
module Hashing {
  import opened Seqs

  /** One round of the loop in `hash` (15.py:20-24): add the character's
      code point, multiply by 17, keep the remainder modulo 256. */
  function Mix(value: nat, c: char): nat
  {
    ((value + c as int) * 17) % 256
  }

  /** The loop of `hash` from a running `value` over the remaining
      characters. */
  function HashFrom(value: nat, s: string): (r: nat)
    ensures |s| > 0 || value < 256 ==> r < 256
    decreases |s|
  {
    if |s| == 0 then value else HashFrom(Mix(value, s[0]), s[1..])
  }

  /** `hash` (15.py:12-25, repeated as 15p2.py:12-25). */
  function Hash(s: string): (r: nat)
    ensures r < 256
  {
    HashFrom(0, s)
  }

  lemma {:induction false} HashFromAppend(value: nat, s: string, c: char)
    ensures HashFrom(value, s + [c]) == Mix(HashFrom(value, s), c)
    decreases |s|
  {
    if |s| == 0 {
      assert (s + [c])[1..] == [];
    } else {
      assert (s + [c])[1..] == s[1..] + [c];
      HashFromAppend(Mix(value, s[0]), s[1..], c);
    }
  }

  /** The hash of the empty string is 0, and appending a character mixes it
      into the hash of the prefix. */
  lemma HashRecurrence(s: string, c: char)
    ensures Hash([]) == 0
    ensures Hash(s + [c]) == ((Hash(s) + c as int) * 17) % 256
  {
    HashFromAppend(0, s, c);
  }

  lemma HashOfThree(a: char, b: char, c: char)
    ensures Hash([a, b, c]) == Mix(Mix(Mix(0, a), b), c)
  {
    assert [a, b, c][1..] == [b, c];
    assert [b, c][1..] == [c];
    assert HashFrom(Mix(Mix(0, a), b), [c]) == Mix(Mix(Mix(0, a), b), c);
    assert HashFrom(Mix(0, a), [b, c]) == HashFrom(Mix(Mix(0, a), b), [c]);
  }

  lemma HashOfFour(a: char, b: char, c: char, d: char)
    ensures Hash([a, b, c, d]) == Mix(Mix(Mix(Mix(0, a), b), c), d)
  {
    assert [a, b, c, d][1..] == [b, c, d];
    HashOfThree(b, c, d);
    assert [b, c, d][1..] == [c, d];
    assert [c, d][1..] == [d];
    var v := Mix(0, a);
    assert HashFrom(Mix(Mix(v, b), c), [d]) == Mix(Mix(Mix(v, b), c), d);
    assert HashFrom(Mix(v, b), [c, d]) == HashFrom(Mix(Mix(v, b), c), [d]);
    assert HashFrom(v, [b, c, d]) == HashFrom(Mix(v, b), [c, d]);
  }

  /** The hash of three characters, given the running value after each. */
  lemma HashOfThreeIs(a: char, b: char, c: char, v1: nat, v2: nat, v3: nat)
    requires Mix(0, a) == v1 && Mix(v1, b) == v2 && Mix(v2, c) == v3
    ensures Hash([a, b, c]) == v3
  {
    HashOfThree(a, b, c);
  }

  /** The hash of four characters, given the running value after each. */
  lemma HashOfFourIs(a: char, b: char, c: char, d: char, v1: nat, v2: nat, v3: nat, v4: nat)
    requires Mix(0, a) == v1 && Mix(v1, b) == v2 && Mix(v2, c) == v3 && Mix(v3, d) == v4
    ensures Hash([a, b, c, d]) == v4
  {
    HashOfFour(a, b, c, d);
  }

  /** The hashes the test suite lists (15.py:49-65), one lemma each, with
      the running value after every character. */
  lemma HashH()
    ensures Hash("H") == 200
  {
    assert Mix(0, 'H') == 200;
  }

  lemma HashHA()
    ensures Hash("HA") == 153
  {
    assert Mix(0, 'H') == 200;
    assert Mix(200, 'A') == 153;
  }

  lemma HashHAS()
    ensures Hash("HAS") == 172
  {
    HashOfThreeIs('H', 'A', 'S', 200, 153, 172);
  }

  lemma HashHASH()
    ensures Hash("HASH") == 52
  {
    HashOfFourIs('H', 'A', 'S', 'H', 200, 153, 172, 52);
  }

  lemma HashRn1()
    ensures Hash("rn=1") == 30
  {
    HashOfFourIs('r', 'n', '=', '1', 146, 0, 13, 30);
  }

  lemma HashCmDash()
    ensures Hash("cm-") == 253
  {
    HashOfThreeIs('c', 'm', '-', 147, 0, 253);
  }

  lemma HashQp3()
    ensures Hash("qp=3") == 97
  {
    HashOfFourIs('q', 'p', '=', '3', 129, 1, 30, 97);
  }

  lemma HashCm2()
    ensures Hash("cm=2") == 47
  {
    HashOfFourIs('c', 'm', '=', '2', 147, 0, 13, 47);
  }

  lemma HashQpDash()
    ensures Hash("qp-") == 14
  {
    HashOfThreeIs('q', 'p', '-', 129, 1, 14);
  }

  lemma HashPc4()
    ensures Hash("pc=4") == 180
  {
    HashOfFourIs('p', 'c', '=', '4', 112, 3, 64, 180);
  }

  lemma HashOt9()
    ensures Hash("ot=9") == 9
  {
    HashOfFourIs('o', 't', '=', '9', 95, 3, 64, 9);
  }

  lemma HashAb5()
    ensures Hash("ab=5") == 197
  {
    HashOfFourIs('a', 'b', '=', '5', 113, 3, 64, 197);
  }

  lemma HashPcDash()
    ensures Hash("pc-") == 48
  {
    HashOfThreeIs('p', 'c', '-', 112, 3, 48);
  }

  lemma HashPc6()
    ensures Hash("pc=6") == 214
  {
    HashOfFourIs('p', 'c', '=', '6', 112, 3, 64, 214);
  }

  lemma HashOt7()
    ensures Hash("ot=7") == 231
  {
    HashOfFourIs('o', 't', '=', '7', 95, 3, 64, 231);
  }

  function HashSum(steps: seq<string>): int
  {
    if |steps| == 0 then 0 else HashSum(steps[..|steps| - 1]) + Hash(steps[|steps| - 1])
  }

  /** The steps of the initialisation sequence (15.py:33-34, 15p2.py:33-34):
      line breaks are dropped, then the text is split on commas. */
  function Steps(input: string): (steps: seq<string>)
    ensures |steps| >= 1
    ensures forall k :: 0 <= k < |steps| ==> ',' !in steps[k] && '\n' !in steps[k] && '\r' !in steps[k]
  {
    var text := Without(Without(input, '\n'), '\r');
    var steps := Split(text, ',');
    assert forall k :: 0 <= k < |steps| ==> '\n' !in steps[k] && '\r' !in steps[k] by {
      JoinSplit(text, ',');
      forall k | 0 <= k < |steps|
        ensures '\n' !in steps[k] && '\r' !in steps[k]
      {
        JoinHolds(steps, ',', k);
      }
    }
    steps
  }

  /** Every piece of a join appears in it. */
  lemma {:induction false} JoinHolds(parts: seq<string>, sep: char, k: nat)
    requires k < |parts|
    ensures forall i :: 0 <= i < |parts[k]| ==> parts[k][i] in Join(parts, sep)
    decreases |parts|
  {
    if k > 0 {
      JoinHolds(parts[1..], sep, k - 1);
      assert parts[1..][k - 1] == parts[k];
    }
  }

  /** `init_sequence` of 15.py (15.py:27-35). */
  function InitSequence(input: string): int
  {
    HashSum(Steps(input))
  }

  lemma {:induction false} WithoutAbsent(s: string, c: char)
    requires c !in s
    ensures Without(s, c) == s
    decreases |s|
  {
    if |s| > 0 {
      WithoutAbsent(s[..|s| - 1], c);
      assert s == s[..|s| - 1] + [s[|s| - 1]];
    }
  }

  lemma {:induction false} JoinAvoids(parts: seq<string>, sep: char, c: char)
    requires |parts| >= 1 && c != sep
    requires forall k :: 0 <= k < |parts| ==> c !in parts[k]
    ensures c !in Join(parts, sep)
    decreases |parts|
  {
    if |parts| > 1 {
      JoinAvoids(parts[1..], sep, c);
    }
  }

  /** Steps free of commas and line breaks, written out with commas, are
      read back as themselves. */
  lemma StepsJoin(steps: seq<string>)
    requires |steps| >= 1
    requires forall k :: 0 <= k < |steps| ==> ',' !in steps[k] && '\n' !in steps[k] && '\r' !in steps[k]
    ensures Steps(Join(steps, ',')) == steps
  {
    var text := Join(steps, ',');
    JoinAvoids(steps, ',', '\n');
    JoinAvoids(steps, ',', '\r');
    WithoutAbsent(text, '\n');
    WithoutAbsent(text, '\r');
    SplitJoin(steps, ',');
  }

  /** Writing steps out with commas and reading them back sums exactly
      their hashes. */
  lemma InitSequenceOfSteps(steps: seq<string>)
    requires |steps| >= 1
    requires forall k :: 0 <= k < |steps| ==> ',' !in steps[k] && '\n' !in steps[k] && '\r' !in steps[k]
    ensures InitSequence(Join(steps, ',')) == HashSum(steps)
  {
    StepsJoin(steps);
  }

  /** The steps of the example sequence (15.py:73). */
  const ExampleSteps: seq<string> := ["rn=1", "cm-", "qp=3", "cm=2", "qp-", "pc=4", "ot=9", "ab=5", "pc-", "pc=6", "ot=7"]

  /** `HashSum` of eleven steps, for any eleven strings. */
  lemma HashSumEleven(a0: string, a1: string, a2: string, a3: string, a4: string, a5: string,
                      a6: string, a7: string, a8: string, a9: string, a10: string)
    ensures HashSum([a0, a1, a2, a3, a4, a5, a6, a7, a8, a9, a10]) == Hash(a0) + Hash(a1) + Hash(a2) + Hash(a3) + Hash(a4) + Hash(a5) + Hash(a6) + Hash(a7) + Hash(a8) + Hash(a9) + Hash(a10)
  {
    assert [a0, a1, a2, a3, a4, a5, a6, a7, a8, a9, a10][..10] == [a0, a1, a2, a3, a4, a5, a6, a7, a8, a9];
    assert HashSum([a0, a1, a2, a3, a4, a5, a6, a7, a8, a9, a10]) == HashSum([a0, a1, a2, a3, a4, a5, a6, a7, a8, a9]) + Hash(a10);
    assert [a0, a1, a2, a3, a4, a5, a6, a7, a8, a9][..9] == [a0, a1, a2, a3, a4, a5, a6, a7, a8];
    assert HashSum([a0, a1, a2, a3, a4, a5, a6, a7, a8, a9]) == HashSum([a0, a1, a2, a3, a4, a5, a6, a7, a8]) + Hash(a9);
    assert [a0, a1, a2, a3, a4, a5, a6, a7, a8][..8] == [a0, a1, a2, a3, a4, a5, a6, a7];
    assert HashSum([a0, a1, a2, a3, a4, a5, a6, a7, a8]) == HashSum([a0, a1, a2, a3, a4, a5, a6, a7]) + Hash(a8);
    assert [a0, a1, a2, a3, a4, a5, a6, a7][..7] == [a0, a1, a2, a3, a4, a5, a6];
    assert HashSum([a0, a1, a2, a3, a4, a5, a6, a7]) == HashSum([a0, a1, a2, a3, a4, a5, a6]) + Hash(a7);
    assert [a0, a1, a2, a3, a4, a5, a6][..6] == [a0, a1, a2, a3, a4, a5];
    assert HashSum([a0, a1, a2, a3, a4, a5, a6]) == HashSum([a0, a1, a2, a3, a4, a5]) + Hash(a6);
    assert [a0, a1, a2, a3, a4, a5][..5] == [a0, a1, a2, a3, a4];
    assert HashSum([a0, a1, a2, a3, a4, a5]) == HashSum([a0, a1, a2, a3, a4]) + Hash(a5);
    assert [a0, a1, a2, a3, a4][..4] == [a0, a1, a2, a3];
    assert HashSum([a0, a1, a2, a3, a4]) == HashSum([a0, a1, a2, a3]) + Hash(a4);
    assert [a0, a1, a2, a3][..3] == [a0, a1, a2];
    assert HashSum([a0, a1, a2, a3]) == HashSum([a0, a1, a2]) + Hash(a3);
    assert [a0, a1, a2][..2] == [a0, a1];
    assert HashSum([a0, a1, a2]) == HashSum([a0, a1]) + Hash(a2);
    assert [a0, a1][..1] == [a0];
    assert HashSum([a0, a1]) == HashSum([a0]) + Hash(a1);
    assert [a0][..0] == [];
    assert HashSum([a0]) == HashSum([]) + Hash(a0);
  }

  /** The example sequence, written out with commas, totals 1320
      (15.py:71-75). */
  lemma ExampleTotal()
    ensures InitSequence(Join(ExampleSteps, ',')) == 1320
  {
    InitSequenceOfSteps(ExampleSteps);
    HashRn1(); HashCmDash(); HashQp3(); HashCm2(); HashQpDash(); HashPc4();
    HashOt9(); HashAb5(); HashPcDash(); HashPc6(); HashOt7();
    HashSumEleven("rn=1", "cm-", "qp=3", "cm=2", "qp-", "pc=4", "ot=9", "ab=5", "pc-", "pc=6", "ot=7");
  }
}

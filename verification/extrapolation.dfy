/**
 * Mirage Maintenance, second part (9p2.py): extrapolate each history by
 * repeated differences. The readings are reversed when parsed, so the
 * value predicted is the one before the first reading.
 */
module Extrapolation {
  import opened Seqs

  predicate AllZero(s: seq<int>)
  {
    forall i :: 0 <= i < |s| ==> s[i] == 0
  }

  /** `[r2 - r1 for r1, r2 in zip(seq, seq[1:])]` (9p2.py:30). */
  function Diffs(s: seq<int>): (r: seq<int>)
    ensures |s| > 0 ==> |r| == |s| - 1
    ensures |s| == 0 ==> |r| == 0
    ensures forall i :: 0 <= i < |r| ==> r[i] == s[i + 1] - s[i]
  {
    if |s| <= 1 then [] else seq(|s| - 1, i requires 0 <= i < |s| - 1 => s[i + 1] - s[i])
  }

  /** `predict_next` (9p2.py:21-35): an all-zero sequence, the empty one
      included, predicts 0; otherwise the prediction of the differences
      plus the last value. */
  function PredictNext(s: seq<int>): int
    decreases |s|
  {
    if AllZero(s) then 0 else PredictNext(Diffs(s)) + s[|s| - 1]
  }

  /** The recursion without the all-zero shortcut: it runs down to the
      empty sequence. */
  function Extrapolate(s: seq<int>): int
    decreases |s|
  {
    if |s| == 0 then 0 else Extrapolate(Diffs(s)) + s[|s| - 1]
  }

  lemma {:induction false} ExtrapolateZero(s: seq<int>)
    requires AllZero(s)
    ensures Extrapolate(s) == 0
    decreases |s|
  {
    if |s| > 0 {
      ExtrapolateZero(Diffs(s));
    }
  }

  /** The all-zero base case only cuts the recursion short: it changes no
      prediction (9p2.py:25-35). */
  lemma {:induction false} ShortcutAgrees(s: seq<int>)
    ensures PredictNext(s) == Extrapolate(s)
    decreases |s|
  {
    if AllZero(s) {
      ExtrapolateZero(s);
    } else {
      ShortcutAgrees(Diffs(s));
    }
  }

  function Add(s: seq<int>, t: seq<int>): (r: seq<int>)
    requires |s| == |t|
    ensures |r| == |s| && forall i :: 0 <= i < |r| ==> r[i] == s[i] + t[i]
  {
    seq(|s|, i requires 0 <= i < |s| => s[i] + t[i])
  }

  function Scale(c: int, s: seq<int>): (r: seq<int>)
    ensures |r| == |s| && forall i :: 0 <= i < |r| ==> r[i] == c * s[i]
  {
    seq(|s|, i requires 0 <= i < |s| => c * s[i])
  }

  /** Prediction is linear: the prediction of a sum of histories is the sum
      of their predictions, and scaling a history scales its prediction. */
  lemma {:induction false} PredictAdditive(s: seq<int>, t: seq<int>)
    requires |s| == |t|
    ensures PredictNext(Add(s, t)) == PredictNext(s) + PredictNext(t)
    decreases |s|
  {
    ShortcutAgrees(s);
    ShortcutAgrees(t);
    ShortcutAgrees(Add(s, t));
    ExtrapolateAdditive(s, t);
  }

  lemma {:induction false} ExtrapolateAdditive(s: seq<int>, t: seq<int>)
    requires |s| == |t|
    ensures Extrapolate(Add(s, t)) == Extrapolate(s) + Extrapolate(t)
    decreases |s|
  {
    if |s| > 0 {
      DiffsAdd(s, t);
      ExtrapolateAdditive(Diffs(s), Diffs(t));
    }
  }

  lemma DiffsAdd(s: seq<int>, t: seq<int>)
    requires |s| == |t|
    ensures Diffs(Add(s, t)) == Add(Diffs(s), Diffs(t))
  {
    var u := Add(s, t);
    forall i | 0 <= i < |s| - 1
      ensures u[i + 1] - u[i] == (s[i + 1] - s[i]) + (t[i + 1] - t[i])
    {
    }
  }

  lemma {:induction false} PredictScales(c: int, s: seq<int>)
    ensures PredictNext(Scale(c, s)) == c * PredictNext(s)
  {
    ShortcutAgrees(s);
    ShortcutAgrees(Scale(c, s));
    ExtrapolateScales(c, s);
  }

  lemma {:induction false} ExtrapolateScales(c: int, s: seq<int>)
    ensures Extrapolate(Scale(c, s)) == c * Extrapolate(s)
    decreases |s|
  {
    if |s| > 0 {
      DiffsScale(c, s);
      ExtrapolateScales(c, Diffs(s));
      var e := Extrapolate(Diffs(s));
      calc {
        Extrapolate(Scale(c, s));
        c * e + c * s[|s| - 1];
        { Distribute(c, e, -s[|s| - 1]); }
        c * (e + s[|s| - 1]);
      }
    }
  }

  lemma DiffsScale(c: int, s: seq<int>)
    ensures Diffs(Scale(c, s)) == Scale(c, Diffs(s))
  {
    var l := Diffs(Scale(c, s));
    var r := Scale(c, Diffs(s));
    forall i | 0 <= i < |l|
      ensures l[i] == r[i]
    {
      Distribute(c, s[i + 1], s[i]);
    }
  }

  lemma Distribute(c: int, x: int, y: int)
    ensures c * x - c * y == c * (x - y)
  {
  }

  /** A constant history predicts its constant. */
  lemma ConstantPredictsItself(c: int, n: nat)
    requires n > 0
    ensures PredictNext(Repeat(c, n)) == c
  {
    ConstantPredicts(Repeat(c, n), c);
  }

  lemma ConstantPredicts(s: seq<int>, c: int)
    requires |s| > 0 && forall i :: 0 <= i < |s| ==> s[i] == c
    ensures PredictNext(s) == c
  {
    if AllZero(s) {
      assert s[0] == c;
    } else {
      var t := Diffs(s);
      assert AllZero(t);
      assert PredictNext(t) == 0;
    }
  }

  /** The arithmetic progression `a, a + d, a + 2d, ...` of length `n`. */
  function Progression(a: int, d: int, n: nat): (r: seq<int>)
    ensures |r| == n && forall i :: 0 <= i < n ==> r[i] == a + d * i
  {
    seq(n, i requires 0 <= i < n => a + d * i)
  }

  /** Consecutive readings differ by `d`. */
  predicate StepsBy(s: seq<int>, d: int)
  {
    forall i :: 0 <= i < |s| - 1 ==> s[i + 1] - s[i] == d
  }

  /** A history of at least two readings with a constant step predicts its
      last reading plus the step. */
  lemma ConstantStepPredicts(s: seq<int>, d: int)
    requires |s| >= 2 && StepsBy(s, d)
    ensures PredictNext(s) == s[|s| - 1] + d
  {
    if !AllZero(s) {
      ConstantPredicts(Diffs(s), d);
    } else {
      assert s[1] - s[0] == d;
    }
  }

  /** Read backwards, a history steps by the opposite step. */
  lemma ReverseStepsBy(s: seq<int>, d: int)
    requires StepsBy(s, d)
    ensures StepsBy(Reverse(s), -d)
  {
    var r := Reverse(s);
    forall i | 0 <= i < |r| - 1
      ensures r[i + 1] - r[i] == -d
    {
      assert r[i + 1] == s[|s| - 2 - i] && r[i] == s[|s| - 2 - i + 1];
    }
  }

  /** The progression steps by `d`, starting from `a`. */
  lemma ProgressionSteps(a: int, d: int, n: nat)
    ensures StepsBy(Progression(a, d, n), d)
    ensures n > 0 ==> Progression(a, d, n)[0] == a
    ensures n > 0 ==> Progression(a, d, n)[n - 1] + d == a + d * n
  {
    var s := Progression(a, d, n);
    forall i | 0 <= i < n - 1
      ensures s[i + 1] - s[i] == d
    {
      assert a + d * (i + 1) == a + d * i + d;
    }
    if n > 0 {
      assert a + d * (n - 1) + d == a + d * n;
    }
  }

  /** An arithmetic progression of at least two terms predicts its next term. */
  lemma ProgressionPredictsNext(a: int, d: int, n: nat)
    requires n >= 2
    ensures PredictNext(Progression(a, d, n)) == a + d * n
  {
    ProgressionSteps(a, d, n);
    ConstantStepPredicts(Progression(a, d, n), d);
  }

  /** Readings are reversed when parsed (9p2.py:19): an arithmetic
      progression of readings yields the term before its first one. */
  lemma ReversedProgressionPredictsPrevious(a: int, d: int, n: nat)
    requires n >= 2
    ensures PredictNext(Reverse(Progression(a, d, n))) == a - d
  {
    var s := Progression(a, d, n);
    ProgressionSteps(a, d, n);
    ReverseStepsBy(s, d);
    ConstantStepPredicts(Reverse(s), -d);
    assert Reverse(s)[n - 1] == s[0];
  }

  /** The sum of the predictions over the reversed readings (9p2.py:19, 41). */
  function Total(readings: seq<seq<int>>): int
  {
    if |readings| == 0 then 0 else Total(readings[..|readings| - 1]) + PredictNext(Reverse(readings[|readings| - 1]))
  }
}

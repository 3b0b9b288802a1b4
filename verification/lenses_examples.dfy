/**
 * The worked example of the HASHMAP (15p2.py:108-112): the eleven steps
 * of the example sequence leave "rn1", "cm2" in box 0 and "ot7", "ab5",
 * "pc6" in box 3, for a focusing power of 145. Only boxes 0, 1 and 3 are
 * ever touched, so every state is a row of empty boxes with those three
 * replaced.
 */
module LensesExamples {
  import opened Outcomes
  import opened Seqs
  import opened Hashing
  import opened Lenses

  /** The row `e` with boxes 0, 1 and 3 replaced. */
  function State(e: seq<Box>, b0: Box, b1: Box, b3: Box): (r: seq<Box>)
    requires |e| == BoxCount
    ensures |r| == BoxCount && r[0] == b0 && r[1] == b1 && r[3] == b3
    ensures forall b :: 0 <= b < BoxCount && b != 0 && b != 1 && b != 3 ==> r[b] == e[b]
  {
    e[0 := b0][1 := b1][3 := b3]
  }

  /** A row of empty boxes. */
  predicate Empty(e: seq<Box>)
  {
    |e| == BoxCount && forall b :: 0 <= b < |e| ==> e[b] == []
  }

  lemma HashOfTwo(a: char, b: char)
    ensures Hash([a, b]) == Mix(Mix(0, a), b)
  {
    assert [a, b][1..] == [b];
    assert [b][1..] == [];
    assert HashFrom(Mix(Mix(0, a), b), []) == Mix(Mix(0, a), b);
    assert HashFrom(Mix(0, a), [b]) == HashFrom(Mix(Mix(0, a), b), []);
  }

  /** The labels of the example and the boxes they hash to. */
  lemma HashRn()
    ensures Hash("rn") == 0
  {
    HashOfTwo('r', 'n');
    assert Mix(0, 'r') == 146;
    assert Mix(146, 'n') == 0;
  }

  lemma HashCm()
    ensures Hash("cm") == 0
  {
    HashOfTwo('c', 'm');
    assert Mix(0, 'c') == 147;
    assert Mix(147, 'm') == 0;
  }

  lemma HashQp()
    ensures Hash("qp") == 1
  {
    HashOfTwo('q', 'p');
    assert Mix(0, 'q') == 129;
    assert Mix(129, 'p') == 1;
  }

  lemma HashPc()
    ensures Hash("pc") == 3
  {
    HashOfTwo('p', 'c');
    assert Mix(0, 'p') == 112;
    assert Mix(112, 'c') == 3;
  }

  lemma HashOt()
    ensures Hash("ot") == 3
  {
    HashOfTwo('o', 't');
    assert Mix(0, 'o') == 95;
    assert Mix(95, 't') == 3;
  }

  lemma HashAb()
    ensures Hash("ab") == 3
  {
    HashOfTwo('a', 'b');
    assert Mix(0, 'a') == 113;
    assert Mix(113, 'b') == 3;
  }

  // One lemma per step of the example: the step and the boxes it leaves.

  lemma Step1(e: seq<Box>)
    requires Empty(e)
    ensures Step(e, "rn=1")
      == Ok(State(e, ["rn1"], [], []))
  {
    var s := "rn=1";
    assert s[|s| - 1] == '1' && s[|s| - 2] == '=' && s[..|s| - 2] == "rn";
    HashRn();
    assert e[0] == [];
    assert Find([], "rn") == None;
    assert "rn" + ['1'] == "rn1";
    assert Put([], "rn", '1') == ["rn1"];
    assert e[0 := ["rn1"]] == State(e, ["rn1"], [], []);
  }

  lemma Step2(e: seq<Box>)
    requires |e| == BoxCount
    ensures Step(State(e, ["rn1"], [], []), "cm-")
      == Ok(State(e, ["rn1"], [], []))
  {
    var s := "cm-";
    assert s[|s| - 1] == '-' && s[..|s| - 1] == "cm";
    HashCm();
    assert Remove(["rn1"], "cm") == ["rn1"];
    assert State(e, ["rn1"], [], [])[0 := ["rn1"]] == State(e, ["rn1"], [], []);
  }

  lemma Step3(e: seq<Box>)
    requires |e| == BoxCount
    ensures Step(State(e, ["rn1"], [], []), "qp=3")
      == Ok(State(e, ["rn1"], ["qp3"], []))
  {
    var s := "qp=3";
    assert s[|s| - 1] == '3' && s[|s| - 2] == '=' && s[..|s| - 2] == "qp";
    HashQp();
    assert Find([], "qp") == None;
    assert "qp" + ['3'] == "qp3";
    assert Put([], "qp", '3') == ["qp3"];
    assert State(e, ["rn1"], [], [])[1 := ["qp3"]] == State(e, ["rn1"], ["qp3"], []);
  }

  lemma Step4(e: seq<Box>)
    requires |e| == BoxCount
    ensures Step(State(e, ["rn1"], ["qp3"], []), "cm=2")
      == Ok(State(e, ["rn1", "cm2"], ["qp3"], []))
  {
    var s := "cm=2";
    assert s[|s| - 1] == '2' && s[|s| - 2] == '=' && s[..|s| - 2] == "cm";
    HashCm();
    assert Find(["rn1"], "cm") == None;
    assert "cm" + ['2'] == "cm2";
    assert Put(["rn1"], "cm", '2') == ["rn1", "cm2"];
    assert State(e, ["rn1"], ["qp3"], [])[0 := ["rn1", "cm2"]] == State(e, ["rn1", "cm2"], ["qp3"], []);
  }

  lemma Step5(e: seq<Box>)
    requires |e| == BoxCount
    ensures Step(State(e, ["rn1", "cm2"], ["qp3"], []), "qp-")
      == Ok(State(e, ["rn1", "cm2"], [], []))
  {
    var s := "qp-";
    assert s[|s| - 1] == '-' && s[..|s| - 1] == "qp";
    HashQp();
    assert Remove(["qp3"], "qp") == [];
    assert State(e, ["rn1", "cm2"], ["qp3"], [])[1 := []] == State(e, ["rn1", "cm2"], [], []);
  }

  lemma Step6(e: seq<Box>)
    requires |e| == BoxCount
    ensures Step(State(e, ["rn1", "cm2"], [], []), "pc=4")
      == Ok(State(e, ["rn1", "cm2"], [], ["pc4"]))
  {
    var s := "pc=4";
    assert s[|s| - 1] == '4' && s[|s| - 2] == '=' && s[..|s| - 2] == "pc";
    HashPc();
    assert Find([], "pc") == None;
    assert "pc" + ['4'] == "pc4";
    assert Put([], "pc", '4') == ["pc4"];
    assert State(e, ["rn1", "cm2"], [], [])[3 := ["pc4"]] == State(e, ["rn1", "cm2"], [], ["pc4"]);
  }

  lemma Step7(e: seq<Box>)
    requires |e| == BoxCount
    ensures Step(State(e, ["rn1", "cm2"], [], ["pc4"]), "ot=9")
      == Ok(State(e, ["rn1", "cm2"], [], ["pc4", "ot9"]))
  {
    var s := "ot=9";
    assert s[|s| - 1] == '9' && s[|s| - 2] == '=' && s[..|s| - 2] == "ot";
    HashOt();
    assert Find(["pc4"], "ot") == None;
    assert "ot" + ['9'] == "ot9";
    assert Put(["pc4"], "ot", '9') == ["pc4", "ot9"];
    assert State(e, ["rn1", "cm2"], [], ["pc4"])[3 := ["pc4", "ot9"]] == State(e, ["rn1", "cm2"], [], ["pc4", "ot9"]);
  }

  lemma Step8(e: seq<Box>)
    requires |e| == BoxCount
    ensures Step(State(e, ["rn1", "cm2"], [], ["pc4", "ot9"]), "ab=5")
      == Ok(State(e, ["rn1", "cm2"], [], ["pc4", "ot9", "ab5"]))
  {
    var s := "ab=5";
    assert s[|s| - 1] == '5' && s[|s| - 2] == '=' && s[..|s| - 2] == "ab";
    HashAb();
    assert Find(["pc4", "ot9"], "ab") == None;
    assert "ab" + ['5'] == "ab5";
    assert Put(["pc4", "ot9"], "ab", '5') == ["pc4", "ot9", "ab5"];
    assert State(e, ["rn1", "cm2"], [], ["pc4", "ot9"])[3 := ["pc4", "ot9", "ab5"]] == State(e, ["rn1", "cm2"], [], ["pc4", "ot9", "ab5"]);
  }

  lemma Step9(e: seq<Box>)
    requires |e| == BoxCount
    ensures Step(State(e, ["rn1", "cm2"], [], ["pc4", "ot9", "ab5"]), "pc-")
      == Ok(State(e, ["rn1", "cm2"], [], ["ot9", "ab5"]))
  {
    var s := "pc-";
    assert s[|s| - 1] == '-' && s[..|s| - 1] == "pc";
    HashPc();
    assert Remove(["pc4", "ot9", "ab5"], "pc") == ["ot9", "ab5"];
    assert State(e, ["rn1", "cm2"], [], ["pc4", "ot9", "ab5"])[3 := ["ot9", "ab5"]] == State(e, ["rn1", "cm2"], [], ["ot9", "ab5"]);
  }

  lemma Step10(e: seq<Box>)
    requires |e| == BoxCount
    ensures Step(State(e, ["rn1", "cm2"], [], ["ot9", "ab5"]), "pc=6")
      == Ok(State(e, ["rn1", "cm2"], [], ["ot9", "ab5", "pc6"]))
  {
    var s := "pc=6";
    assert s[|s| - 1] == '6' && s[|s| - 2] == '=' && s[..|s| - 2] == "pc";
    HashPc();
    assert Find(["ot9", "ab5"], "pc") == None;
    assert "pc" + ['6'] == "pc6";
    assert Put(["ot9", "ab5"], "pc", '6') == ["ot9", "ab5", "pc6"];
    assert State(e, ["rn1", "cm2"], [], ["ot9", "ab5"])[3 := ["ot9", "ab5", "pc6"]] == State(e, ["rn1", "cm2"], [], ["ot9", "ab5", "pc6"]);
  }

  lemma Step11(e: seq<Box>)
    requires |e| == BoxCount
    ensures Step(State(e, ["rn1", "cm2"], [], ["ot9", "ab5", "pc6"]), "ot=7")
      == Ok(State(e, ["rn1", "cm2"], [], ["ot7", "ab5", "pc6"]))
  {
    var s := "ot=7";
    assert s[|s| - 1] == '7' && s[|s| - 2] == '=' && s[..|s| - 2] == "ot";
    HashOt();
    assert Find(["ot9", "ab5", "pc6"], "ot") == Some(0);
    assert "ot" + ['7'] == "ot7";
    assert Put(["ot9", "ab5", "pc6"], "ot", '7') == ["ot7", "ab5", "pc6"];
    assert State(e, ["rn1", "cm2"], [], ["ot9", "ab5", "pc6"])[3 := ["ot7", "ab5", "pc6"]] == State(e, ["rn1", "cm2"], [], ["ot7", "ab5", "pc6"]);
  }

  /** Arranging one more step continues from the boxes the earlier steps
      left. */
  lemma ArrangeSnoc(boxes: seq<Box>, done: seq<string>, s: string, mid: seq<Box>, next: seq<Box>)
    requires |boxes| == BoxCount
    requires Arrange(boxes, done) == Ok(mid)
    requires Step(mid, s) == Ok(next)
    ensures Arrange(boxes, done + [s]) == Ok(next)
  {
    assert (done + [s])[..|done|] == done;
  }

  /** The example's steps 1 to 3. */
  lemma ArrangedTo3(e: seq<Box>, done: seq<string>)
    requires Empty(e)
    requires Arrange(e, done) == Ok(e)
    ensures Arrange(e, ((done + ["rn=1"]) + ["cm-"]) + ["qp=3"]) == Ok(State(e, ["rn1"], ["qp3"], []))
  {
    Step1(e);
    ArrangeSnoc(e, done, "rn=1", e, State(e, ["rn1"], [], []));
    Step2(e);
    ArrangeSnoc(e, done + ["rn=1"], "cm-", State(e, ["rn1"], [], []), State(e, ["rn1"], [], []));
    Step3(e);
    ArrangeSnoc(e, (done + ["rn=1"]) + ["cm-"], "qp=3", State(e, ["rn1"], [], []), State(e, ["rn1"], ["qp3"], []));
  }

  /** The example's steps 4 to 6. */
  lemma ArrangedTo6(e: seq<Box>, done: seq<string>)
    requires Empty(e)
    requires Arrange(e, done) == Ok(State(e, ["rn1"], ["qp3"], []))
    ensures Arrange(e, ((done + ["cm=2"]) + ["qp-"]) + ["pc=4"]) == Ok(State(e, ["rn1", "cm2"], [], ["pc4"]))
  {
    Step4(e);
    ArrangeSnoc(e, done, "cm=2", State(e, ["rn1"], ["qp3"], []), State(e, ["rn1", "cm2"], ["qp3"], []));
    Step5(e);
    ArrangeSnoc(e, done + ["cm=2"], "qp-", State(e, ["rn1", "cm2"], ["qp3"], []), State(e, ["rn1", "cm2"], [], []));
    Step6(e);
    ArrangeSnoc(e, (done + ["cm=2"]) + ["qp-"], "pc=4", State(e, ["rn1", "cm2"], [], []), State(e, ["rn1", "cm2"], [], ["pc4"]));
  }

  /** The example's steps 7 to 9. */
  lemma ArrangedTo9(e: seq<Box>, done: seq<string>)
    requires Empty(e)
    requires Arrange(e, done) == Ok(State(e, ["rn1", "cm2"], [], ["pc4"]))
    ensures Arrange(e, ((done + ["ot=9"]) + ["ab=5"]) + ["pc-"]) == Ok(State(e, ["rn1", "cm2"], [], ["ot9", "ab5"]))
  {
    Step7(e);
    ArrangeSnoc(e, done, "ot=9", State(e, ["rn1", "cm2"], [], ["pc4"]), State(e, ["rn1", "cm2"], [], ["pc4", "ot9"]));
    Step8(e);
    ArrangeSnoc(e, done + ["ot=9"], "ab=5", State(e, ["rn1", "cm2"], [], ["pc4", "ot9"]), State(e, ["rn1", "cm2"], [], ["pc4", "ot9", "ab5"]));
    Step9(e);
    ArrangeSnoc(e, (done + ["ot=9"]) + ["ab=5"], "pc-", State(e, ["rn1", "cm2"], [], ["pc4", "ot9", "ab5"]), State(e, ["rn1", "cm2"], [], ["ot9", "ab5"]));
  }

  /** The example's steps 10 to 11. */
  lemma ArrangedTo11(e: seq<Box>, done: seq<string>)
    requires Empty(e)
    requires Arrange(e, done) == Ok(State(e, ["rn1", "cm2"], [], ["ot9", "ab5"]))
    ensures Arrange(e, (done + ["pc=6"]) + ["ot=7"]) == Ok(State(e, ["rn1", "cm2"], [], ["ot7", "ab5", "pc6"]))
  {
    Step10(e);
    ArrangeSnoc(e, done, "pc=6", State(e, ["rn1", "cm2"], [], ["ot9", "ab5"]), State(e, ["rn1", "cm2"], [], ["ot9", "ab5", "pc6"]));
    Step11(e);
    ArrangeSnoc(e, done + ["pc=6"], "ot=7", State(e, ["rn1", "cm2"], [], ["ot9", "ab5", "pc6"]), State(e, ["rn1", "cm2"], [], ["ot7", "ab5", "pc6"]));
  }

  /** The example's eleven steps, from empty boxes. */
  lemma ExampleArranged(e: seq<Box>)
    requires Empty(e)
    ensures Arrange(e, ExampleSteps) == Ok(State(e, ["rn1", "cm2"], [], ["ot7", "ab5", "pc6"]))
  {
    var d0: seq<string> := [];
    ArrangedTo3(e, d0);
    var d3 := ((d0 + ["rn=1"]) + ["cm-"]) + ["qp=3"];
    ArrangedTo6(e, d3);
    var d6 := ((d3 + ["cm=2"]) + ["qp-"]) + ["pc=4"];
    ArrangedTo9(e, d6);
    var d9 := ((d6 + ["ot=9"]) + ["ab=5"]) + ["pc-"];
    ArrangedTo11(e, d9);
    ExampleSpelled(d0);
  }

  /** The example's steps, appended one at a time. */
  lemma ExampleSpelled(d0: seq<string>)
    requires d0 == []
    ensures ((((((((((d0 + ["rn=1"]) + ["cm-"]) + ["qp=3"]) + ["cm=2"]) + ["qp-"]) + ["pc=4"]) + ["ot=9"]) + ["ab=5"]) + ["pc-"]) + ["pc=6"]) + ["ot=7"] == ExampleSteps
  {
    assert d0 + ["rn=1"] == ["rn=1"];
    assert ["rn=1"] + ["cm-"] == ["rn=1", "cm-"];
    assert ["rn=1", "cm-"] + ["qp=3"] == ["rn=1", "cm-", "qp=3"];
    assert ["rn=1", "cm-", "qp=3"] + ["cm=2"] == ["rn=1", "cm-", "qp=3", "cm=2"];
    assert ["rn=1", "cm-", "qp=3", "cm=2"] + ["qp-"] == ["rn=1", "cm-", "qp=3", "cm=2", "qp-"];
    assert ["rn=1", "cm-", "qp=3", "cm=2", "qp-"] + ["pc=4"] == ["rn=1", "cm-", "qp=3", "cm=2", "qp-", "pc=4"];
    assert ["rn=1", "cm-", "qp=3", "cm=2", "qp-", "pc=4"] + ["ot=9"] == ["rn=1", "cm-", "qp=3", "cm=2", "qp-", "pc=4", "ot=9"];
    assert ["rn=1", "cm-", "qp=3", "cm=2", "qp-", "pc=4", "ot=9"] + ["ab=5"] == ["rn=1", "cm-", "qp=3", "cm=2", "qp-", "pc=4", "ot=9", "ab=5"];
    assert ["rn=1", "cm-", "qp=3", "cm=2", "qp-", "pc=4", "ot=9", "ab=5"] + ["pc-"] == ["rn=1", "cm-", "qp=3", "cm=2", "qp-", "pc=4", "ot=9", "ab=5", "pc-"];
    assert ["rn=1", "cm-", "qp=3", "cm=2", "qp-", "pc=4", "ot=9", "ab=5", "pc-"] + ["pc=6"] == ["rn=1", "cm-", "qp=3", "cm=2", "qp-", "pc=4", "ot=9", "ab=5", "pc-", "pc=6"];
    assert ["rn=1", "cm-", "qp=3", "cm=2", "qp-", "pc=4", "ot=9", "ab=5", "pc-", "pc=6"] + ["ot=7"] == ["rn=1", "cm-", "qp=3", "cm=2", "qp-", "pc=4", "ot=9", "ab=5", "pc-", "pc=6", "ot=7"];
  }

  /** Empty boxes add nothing to the focusing power. */
  lemma {:induction false} PowerSkipsEmpty(boxes: seq<Box>, m: nat, n: nat)
    requires m <= n <= |boxes|
    requires forall b :: m <= b < n ==> boxes[b] == []
    ensures Power(boxes, n) == Power(boxes, m)
    decreases n
  {
    if n > m {
      PowerSkipsEmpty(boxes, m, n - 1);
      assert BoxPower(boxes[n - 1], n - 1, 0) == Ok(0);
    }
  }

  /** The focusing power of the arranged boxes: 1 + 4 from box 0 and
      28 + 40 + 72 from box 3. */
  lemma ExampleBoxesPower(e: seq<Box>)
    requires Empty(e)
    ensures Power(State(e, ["rn1", "cm2"], [], ["ot7", "ab5", "pc6"]), BoxCount) == Ok(145)
  {
    var f := State(e, ["rn1", "cm2"], [], ["ot7", "ab5", "pc6"]);
    PowerSkipsEmpty(f, 4, BoxCount);
    PowerSkipsEmpty(f, 1, 3);
    assert BoxPower(["rn1", "cm2"], 0, 2) == Ok(5);
    assert BoxPower(["ot7", "ab5", "pc6"], 3, 3) == Ok(140);
    assert Power(f, 1) == Ok(5);
    assert Power(f, 4) == Ok(145);
  }

  /** The example sequence of the test suite has focusing power 145
      (15p2.py:108-112). */
  lemma ExampleFocusingPower()
    ensures InitSequence2(Join(ExampleSteps, ',')) == Ok(145)
  {
    StepsJoin(ExampleSteps);
    var e := EmptyBoxes();
    ExampleArranged(e);
    ExampleBoxesPower(e);
  }
}

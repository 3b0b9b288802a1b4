/**
 * Four rows of the Hot Springs test suite (12.py:130-146), counted by the
 * solver of `Springs`. Each count is worked spring by spring from the end
 * of the row back to its start: one lemma per suffix of the row states
 * the solver's count for every state it can be reached in there.
 */
module SpringsExamples {
  import opened Springs

  /** What the solver does with head `h` after `prev`: whether it reads
      the head as operational, whether as damaged, and the group list the
      damaged reading hands on. */
  predicate Moves(prev: char, h: char, groups: seq<nat>, op: bool, dam: bool, next: seq<nat>)
  {
    && MayBeOperational(h, groups) == op
    && MayBeDamaged(prev, h, groups) == dam
    && (dam ==> Decrement(Owed(prev, groups)) == next)
  }

  /** One move of the solver on a row with head `h`. */
  lemma Step(prev: char, h: char, t: string, groups: seq<nat>, op: bool, dam: bool, next: seq<nat>)
    requires Moves(prev, h, groups, op, dam, next)
    ensures Arrangements(prev, [h] + t, groups)
      == (if op then Arrangements('.', t, groups) else 0) + (if dam then Arrangements('#', t, next) else 0)
  {
    assert ([h] + t)[1..] == t;
  }

  /** The count of a row is the solver's count on the row stripped of its
      operational springs at both ends. */
  lemma Stripped(s: string, t: string, groups: seq<nat>, full: seq<nat>)
    requires StripDots(s) == t
    requires full == [0] + groups
    ensures Permutations(s, groups) == Arrangements('.', t, full)
  {
    assert (['.'] + t)[1..] == t;
  }

  /** The row `????` with groups 2,1 has 1 arrangement (12.py:130-146). */
  lemma FourUnknowns(springs: string, groups: seq<nat>)
    requires springs == "????" && groups == [2, 1]
    ensures Permutations(springs, groups) == 1
  {
    var e := FourUnknownsEnd(springs);
    FourUnknownsCount(e);
    Stripped(springs, ['?'] + (['?'] + (['?'] + (['?'] + e))), groups, [0, 2, 1]);
  }

  /** The empty rest of the row, with the solver's counts there. */
  lemma FourUnknownsEnd(springs: string) returns (e: string)
    requires springs == "????"
    ensures Arrangements('.', e, [0, 2, 1]) == 0
    ensures Arrangements('#', e, [1, 1]) == 0
    ensures Arrangements('#', e, [0, 1]) == 0
    ensures Arrangements('.', e, [0, 1]) == 0
    ensures Arrangements('#', e, [0]) == 1
    ensures StripDots(springs) == ['?'] + (['?'] + (['?'] + (['?'] + e)))
  {
    e := "";
    FourUnknownsEnds(e);
    FourUnknownsSpelled(springs, e);
  }

  /** The solver's counts on the empty row. */
  lemma FourUnknownsEnds(e: string)
    requires e == ""
    ensures Arrangements('.', e, [0, 2, 1]) == 0
    ensures Arrangements('#', e, [1, 1]) == 0
    ensures Arrangements('#', e, [0, 1]) == 0
    ensures Arrangements('.', e, [0, 1]) == 0
    ensures Arrangements('#', e, [0]) == 1
  {
  }

  /** The row with its operational springs stripped at both ends. */
  lemma FourUnknownsSpelled(springs: string, e: string)
    requires springs == "????" && e == ""
    ensures StripDots(springs) == ['?'] + (['?'] + (['?'] + (['?'] + e)))
  {
    assert TrimStart(springs) == "????";
    assert TrimEnd("????") == "????";
  }

  /** The solver's count of the stripped row, from its end to its start. */
  lemma FourUnknownsCount(t: string)
    requires Arrangements('.', t, [0, 2, 1]) == 0
    requires Arrangements('#', t, [1, 1]) == 0
    requires Arrangements('#', t, [0, 1]) == 0
    requires Arrangements('.', t, [0, 1]) == 0
    requires Arrangements('#', t, [0]) == 1
    ensures Arrangements('.', ['?'] + (['?'] + (['?'] + (['?'] + t))), [0, 2, 1]) == 1
  {
    var t3 := ['?'] + t;
    var t2 := ['?'] + (['?'] + t);
    var t1 := ['?'] + (['?'] + (['?'] + t));
    FourUnknownsFrom3(t);
    FourUnknownsFrom2(t3);
    FourUnknownsFrom1(t2);
    FourUnknownsFrom0(t1);
  }

  /** The solver's counts from position 3 of the row, given those from position 4. */
  lemma FourUnknownsFrom3(t: string)
    requires Arrangements('.', t, [0, 2, 1]) == 0
    requires Arrangements('#', t, [1, 1]) == 0
    requires Arrangements('#', t, [0, 1]) == 0
    requires Arrangements('.', t, [0, 1]) == 0
    requires Arrangements('#', t, [0]) == 1
    ensures Arrangements('.', ['?'] + t, [0, 2, 1]) == 0
    ensures Arrangements('#', ['?'] + t, [1, 1]) == 0
    ensures Arrangements('#', ['?'] + t, [0, 1]) == 0
    ensures Arrangements('.', ['?'] + t, [0, 1]) == 1
  {
    var u3 := ['?'] + t;
    Move1(t);
    Move2(t);
    Move3(t);
    Move4(t);
  }

  /** The solver's counts from position 2 of the row, given those from position 3. */
  lemma FourUnknownsFrom2(t: string)
    requires Arrangements('.', t, [0, 2, 1]) == 0
    requires Arrangements('#', t, [1, 1]) == 0
    requires Arrangements('#', t, [0, 1]) == 0
    requires Arrangements('.', t, [0, 1]) == 1
    ensures Arrangements('.', ['?'] + t, [0, 2, 1]) == 0
    ensures Arrangements('#', ['?'] + t, [1, 1]) == 0
    ensures Arrangements('#', ['?'] + t, [0, 1]) == 1
  {
    var u2 := ['?'] + t;
    Move1(t);
    Move2(t);
    Move3(t);
  }

  /** The solver's counts from position 1 of the row, given those from position 2. */
  lemma FourUnknownsFrom1(t: string)
    requires Arrangements('.', t, [0, 2, 1]) == 0
    requires Arrangements('#', t, [1, 1]) == 0
    requires Arrangements('#', t, [0, 1]) == 1
    ensures Arrangements('.', ['?'] + t, [0, 2, 1]) == 0
    ensures Arrangements('#', ['?'] + t, [1, 1]) == 1
  {
    var u1 := ['?'] + t;
    Move1(t);
    Move2(t);
  }

  /** The solver's counts from position 0 of the row, given those from position 1. */
  lemma FourUnknownsFrom0(t: string)
    requires Arrangements('.', t, [0, 2, 1]) == 0
    requires Arrangements('#', t, [1, 1]) == 1
    ensures Arrangements('.', ['?'] + t, [0, 2, 1]) == 1
  {
    var u0 := ['?'] + t;
    Move1(t);
  }

  /** The row `?###????????` with groups 3,2,1 has 10 arrangements (12.py:130-146). */
  lemma LongRow(springs: string, groups: seq<nat>)
    requires springs == "?###????????" && groups == [3, 2, 1]
    ensures Permutations(springs, groups) == 10
  {
    var e := LongRowEnd(springs);
    LongRowCount(e);
    Stripped(springs, ['?'] + (['#'] + (['#'] + (['#'] + (['?'] + (['?'] + (['?'] + (['?'] + (['?'] + (['?'] + (['?'] + (['?'] + e))))))))))), groups, [0, 3, 2, 1]);
  }

  /** The empty rest of the row, with the solver's counts there. */
  lemma LongRowEnd(springs: string) returns (e: string)
    requires springs == "?###????????"
    ensures Arrangements('.', e, [0, 2, 1]) == 0
    ensures Arrangements('#', e, [1, 1]) == 0
    ensures Arrangements('#', e, [0, 1]) == 0
    ensures Arrangements('.', e, [0, 1]) == 0
    ensures Arrangements('#', e, [0]) == 1
    ensures Arrangements('.', e, [0]) == 1
    ensures StripDots(springs) == ['?'] + (['#'] + (['#'] + (['#'] + (['?'] + (['?'] + (['?'] + (['?'] + (['?'] + (['?'] + (['?'] + (['?'] + e)))))))))))
  {
    e := "";
    LongRowEnds(e);
    LongRowSpelled(springs, e);
  }

  /** The solver's counts on the empty row. */
  lemma LongRowEnds(e: string)
    requires e == ""
    ensures Arrangements('.', e, [0, 2, 1]) == 0
    ensures Arrangements('#', e, [1, 1]) == 0
    ensures Arrangements('#', e, [0, 1]) == 0
    ensures Arrangements('.', e, [0, 1]) == 0
    ensures Arrangements('#', e, [0]) == 1
    ensures Arrangements('.', e, [0]) == 1
  {
  }

  /** The row with its operational springs stripped at both ends. */
  lemma LongRowSpelled(springs: string, e: string)
    requires springs == "?###????????" && e == ""
    ensures StripDots(springs) == ['?'] + (['#'] + (['#'] + (['#'] + (['?'] + (['?'] + (['?'] + (['?'] + (['?'] + (['?'] + (['?'] + (['?'] + e)))))))))))
  {
    assert TrimStart(springs) == "?###????????";
    assert TrimEnd("?###????????") == "?###????????";
  }

  /** The solver's count of the stripped row, from its end to its start. */
  lemma LongRowCount(t: string)
    requires Arrangements('.', t, [0, 2, 1]) == 0
    requires Arrangements('#', t, [1, 1]) == 0
    requires Arrangements('#', t, [0, 1]) == 0
    requires Arrangements('.', t, [0, 1]) == 0
    requires Arrangements('#', t, [0]) == 1
    requires Arrangements('.', t, [0]) == 1
    ensures Arrangements('.', ['?'] + (['#'] + (['#'] + (['#'] + (['?'] + (['?'] + (['?'] + (['?'] + (['?'] + (['?'] + (['?'] + (['?'] + t))))))))))), [0, 3, 2, 1]) == 10
  {
    var t11 := ['?'] + t;
    var t10 := ['?'] + (['?'] + t);
    var t9 := ['?'] + (['?'] + (['?'] + t));
    var t8 := ['?'] + (['?'] + (['?'] + (['?'] + t)));
    var t7 := ['?'] + (['?'] + (['?'] + (['?'] + (['?'] + t))));
    var t6 := ['?'] + (['?'] + (['?'] + (['?'] + (['?'] + (['?'] + t)))));
    var t5 := ['?'] + (['?'] + (['?'] + (['?'] + (['?'] + (['?'] + (['?'] + t))))));
    var t4 := ['?'] + (['?'] + (['?'] + (['?'] + (['?'] + (['?'] + (['?'] + (['?'] + t)))))));
    var t3 := ['#'] + (['?'] + (['?'] + (['?'] + (['?'] + (['?'] + (['?'] + (['?'] + (['?'] + t))))))));
    var t2 := ['#'] + (['#'] + (['?'] + (['?'] + (['?'] + (['?'] + (['?'] + (['?'] + (['?'] + (['?'] + t)))))))));
    var t1 := ['#'] + (['#'] + (['#'] + (['?'] + (['?'] + (['?'] + (['?'] + (['?'] + (['?'] + (['?'] + (['?'] + t))))))))));
    LongRowFrom11(t);
    LongRowFrom10(t11);
    LongRowFrom9(t10);
    LongRowFrom8(t9);
    LongRowFrom7(t8);
    LongRowFrom6(t7);
    LongRowFrom5(t6);
    LongRowFrom4(t5);
    LongRowFrom3(t4);
    LongRowFrom2(t3);
    LongRowFrom1(t2);
    LongRowFrom0(t1);
  }

  /** The solver's counts from position 11 of the row, given those from position 12. */
  lemma LongRowFrom11(t: string)
    requires Arrangements('.', t, [0, 2, 1]) == 0
    requires Arrangements('#', t, [1, 1]) == 0
    requires Arrangements('#', t, [0, 1]) == 0
    requires Arrangements('.', t, [0, 1]) == 0
    requires Arrangements('#', t, [0]) == 1
    requires Arrangements('.', t, [0]) == 1
    ensures Arrangements('.', ['?'] + t, [0, 2, 1]) == 0
    ensures Arrangements('#', ['?'] + t, [1, 1]) == 0
    ensures Arrangements('#', ['?'] + t, [0, 1]) == 0
    ensures Arrangements('.', ['?'] + t, [0, 1]) == 1
    ensures Arrangements('#', ['?'] + t, [0]) == 1
    ensures Arrangements('.', ['?'] + t, [0]) == 1
  {
    var u11 := ['?'] + t;
    Move1(t);
    Move2(t);
    Move3(t);
    Move4(t);
    Move5(t);
    Move6(t);
  }

  /** The solver's counts from position 10 of the row, given those from position 11. */
  lemma LongRowFrom10(t: string)
    requires Arrangements('.', t, [0, 2, 1]) == 0
    requires Arrangements('#', t, [1, 1]) == 0
    requires Arrangements('#', t, [0, 1]) == 0
    requires Arrangements('.', t, [0, 1]) == 1
    requires Arrangements('#', t, [0]) == 1
    requires Arrangements('.', t, [0]) == 1
    ensures Arrangements('.', ['?'] + t, [0, 2, 1]) == 0
    ensures Arrangements('#', ['?'] + t, [1, 1]) == 0
    ensures Arrangements('#', ['?'] + t, [0, 1]) == 1
    ensures Arrangements('.', ['?'] + t, [0, 1]) == 2
    ensures Arrangements('#', ['?'] + t, [0]) == 1
    ensures Arrangements('.', ['?'] + t, [0]) == 1
  {
    var u10 := ['?'] + t;
    Move1(t);
    Move2(t);
    Move3(t);
    Move4(t);
    Move5(t);
    Move6(t);
  }

  /** The solver's counts from position 9 of the row, given those from position 10. */
  lemma LongRowFrom9(t: string)
    requires Arrangements('.', t, [0, 2, 1]) == 0
    requires Arrangements('#', t, [1, 1]) == 0
    requires Arrangements('#', t, [0, 1]) == 1
    requires Arrangements('.', t, [0, 1]) == 2
    requires Arrangements('#', t, [0]) == 1
    requires Arrangements('.', t, [0]) == 1
    ensures Arrangements('.', ['?'] + t, [0, 2, 1]) == 0
    ensures Arrangements('#', ['?'] + t, [1, 1]) == 1
    ensures Arrangements('#', ['?'] + t, [0, 1]) == 2
    ensures Arrangements('.', ['?'] + t, [0, 1]) == 3
    ensures Arrangements('#', ['?'] + t, [0]) == 1
  {
    var u9 := ['?'] + t;
    Move1(t);
    Move2(t);
    Move3(t);
    Move4(t);
    Move5(t);
  }

  /** The solver's counts from position 8 of the row, given those from position 9. */
  lemma LongRowFrom8(t: string)
    requires Arrangements('.', t, [0, 2, 1]) == 0
    requires Arrangements('#', t, [1, 1]) == 1
    requires Arrangements('#', t, [0, 1]) == 2
    requires Arrangements('.', t, [0, 1]) == 3
    requires Arrangements('#', t, [0]) == 1
    ensures Arrangements('.', ['?'] + t, [0, 2, 1]) == 1
    ensures Arrangements('#', ['?'] + t, [1, 1]) == 2
    ensures Arrangements('#', ['?'] + t, [0, 1]) == 3
    ensures Arrangements('.', ['?'] + t, [0, 1]) == 4
  {
    var u8 := ['?'] + t;
    Move1(t);
    Move2(t);
    Move3(t);
    Move4(t);
  }

  /** The solver's counts from position 7 of the row, given those from position 8. */
  lemma LongRowFrom7(t: string)
    requires Arrangements('.', t, [0, 2, 1]) == 1
    requires Arrangements('#', t, [1, 1]) == 2
    requires Arrangements('#', t, [0, 1]) == 3
    requires Arrangements('.', t, [0, 1]) == 4
    ensures Arrangements('.', ['?'] + t, [0, 2, 1]) == 3
    ensures Arrangements('#', ['?'] + t, [1, 1]) == 3
    ensures Arrangements('#', ['?'] + t, [0, 1]) == 4
  {
    var u7 := ['?'] + t;
    Move1(t);
    Move2(t);
    Move3(t);
  }

  /** The solver's counts from position 6 of the row, given those from position 7. */
  lemma LongRowFrom6(t: string)
    requires Arrangements('.', t, [0, 2, 1]) == 3
    requires Arrangements('#', t, [1, 1]) == 3
    requires Arrangements('#', t, [0, 1]) == 4
    ensures Arrangements('.', ['?'] + t, [0, 2, 1]) == 6
    ensures Arrangements('#', ['?'] + t, [1, 1]) == 4
  {
    var u6 := ['?'] + t;
    Move1(t);
    Move2(t);
  }

  /** The solver's counts from position 5 of the row, given those from position 6. */
  lemma LongRowFrom5(t: string)
    requires Arrangements('.', t, [0, 2, 1]) == 6
    requires Arrangements('#', t, [1, 1]) == 4
    ensures Arrangements('.', ['?'] + t, [0, 2, 1]) == 10
  {
    var u5 := ['?'] + t;
    Move1(t);
  }

  /** The solver's counts from position 4 of the row, given those from position 5. */
  lemma LongRowFrom4(t: string)
    requires Arrangements('.', t, [0, 2, 1]) == 10
    ensures Arrangements('#', ['?'] + t, [0, 2, 1]) == 10
  {
    var u4 := ['?'] + t;
    Move7(t);
  }

  /** The solver's counts from position 3 of the row, given those from position 4. */
  lemma LongRowFrom3(t: string)
    requires Arrangements('#', t, [0, 2, 1]) == 10
    ensures Arrangements('#', ['#'] + t, [1, 2, 1]) == 10
    ensures Arrangements('#', ['#'] + t, [0, 2, 1]) == 0
  {
    var u3 := ['#'] + t;
    Move8(t);
    Move9(t);
  }

  /** The solver's counts from position 2 of the row, given those from position 3. */
  lemma LongRowFrom2(t: string)
    requires Arrangements('#', t, [1, 2, 1]) == 10
    requires Arrangements('#', t, [0, 2, 1]) == 0
    ensures Arrangements('#', ['#'] + t, [2, 2, 1]) == 10
    ensures Arrangements('#', ['#'] + t, [1, 2, 1]) == 0
  {
    var u2 := ['#'] + t;
    Move10(t);
    Move8(t);
  }

  /** The solver's counts from position 1 of the row, given those from position 2. */
  lemma LongRowFrom1(t: string)
    requires Arrangements('#', t, [2, 2, 1]) == 10
    requires Arrangements('#', t, [1, 2, 1]) == 0
    ensures Arrangements('.', ['#'] + t, [0, 3, 2, 1]) == 10
    ensures Arrangements('#', ['#'] + t, [2, 2, 1]) == 0
  {
    var u1 := ['#'] + t;
    Move11(t);
    Move10(t);
  }

  /** The solver's counts from position 0 of the row, given those from position 1. */
  lemma LongRowFrom0(t: string)
    requires Arrangements('.', t, [0, 3, 2, 1]) == 10
    requires Arrangements('#', t, [2, 2, 1]) == 0
    ensures Arrangements('.', ['?'] + t, [0, 3, 2, 1]) == 10
  {
    var u0 := ['?'] + t;
    Move12(t);
  }

  /** The row `.??..??...?##.` with groups 1,1,3 has 4 arrangements (12.py:130-146). */
  lemma DottedRow(springs: string, groups: seq<nat>)
    requires springs == ".??..??...?##." && groups == [1, 1, 3]
    ensures Permutations(springs, groups) == 4
  {
    var e := DottedRowEnd(springs);
    DottedRowCount(e);
    Stripped(springs, ['?'] + (['?'] + (['.'] + (['.'] + (['?'] + (['?'] + (['.'] + (['.'] + (['.'] + (['?'] + (['#'] + (['#'] + e))))))))))), groups, [0, 1, 1, 3]);
  }

  /** The empty rest of the row, with the solver's counts there. */
  lemma DottedRowEnd(springs: string) returns (e: string)
    requires springs == ".??..??...?##."
    ensures Arrangements('#', e, [1]) == 0
    ensures Arrangements('#', e, [0]) == 1
    ensures StripDots(springs) == ['?'] + (['?'] + (['.'] + (['.'] + (['?'] + (['?'] + (['.'] + (['.'] + (['.'] + (['?'] + (['#'] + (['#'] + e)))))))))))
  {
    e := "";
    DottedRowEnds(e);
    DottedRowSpelled(springs, e);
  }

  /** The solver's counts on the empty row. */
  lemma DottedRowEnds(e: string)
    requires e == ""
    ensures Arrangements('#', e, [1]) == 0
    ensures Arrangements('#', e, [0]) == 1
  {
  }

  /** The row with its operational springs stripped at both ends. */
  lemma DottedRowSpelled(springs: string, e: string)
    requires springs == ".??..??...?##." && e == ""
    ensures StripDots(springs) == ['?'] + (['?'] + (['.'] + (['.'] + (['?'] + (['?'] + (['.'] + (['.'] + (['.'] + (['?'] + (['#'] + (['#'] + e)))))))))))
  {
    assert TrimStart(springs) == "??..??...?##.";
    assert TrimEnd("??..??...?##.") == "??..??...?##";
  }

  /** The solver's count of the stripped row, from its end to its start. */
  lemma DottedRowCount(t: string)
    requires Arrangements('#', t, [1]) == 0
    requires Arrangements('#', t, [0]) == 1
    ensures Arrangements('.', ['?'] + (['?'] + (['.'] + (['.'] + (['?'] + (['?'] + (['.'] + (['.'] + (['.'] + (['?'] + (['#'] + (['#'] + t))))))))))), [0, 1, 1, 3]) == 4
  {
    var t11 := ['#'] + t;
    var t10 := ['#'] + (['#'] + t);
    var t9 := ['?'] + (['#'] + (['#'] + t));
    var t8 := ['.'] + (['?'] + (['#'] + (['#'] + t)));
    var t7 := ['.'] + (['.'] + (['?'] + (['#'] + (['#'] + t))));
    var t6 := ['.'] + (['.'] + (['.'] + (['?'] + (['#'] + (['#'] + t)))));
    var t5 := ['?'] + (['.'] + (['.'] + (['.'] + (['?'] + (['#'] + (['#'] + t))))));
    var t4 := ['?'] + (['?'] + (['.'] + (['.'] + (['.'] + (['?'] + (['#'] + (['#'] + t)))))));
    var t3 := ['.'] + (['?'] + (['?'] + (['.'] + (['.'] + (['.'] + (['?'] + (['#'] + (['#'] + t))))))));
    var t2 := ['.'] + (['.'] + (['?'] + (['?'] + (['.'] + (['.'] + (['.'] + (['?'] + (['#'] + (['#'] + t)))))))));
    var t1 := ['?'] + (['.'] + (['.'] + (['?'] + (['?'] + (['.'] + (['.'] + (['.'] + (['?'] + (['#'] + (['#'] + t))))))))));
    DottedRowFrom11(t);
    DottedRowFrom10(t11);
    DottedRowFrom9(t10);
    DottedRowFrom8(t9);
    DottedRowFrom7(t8);
    DottedRowFrom6(t7);
    DottedRowFrom5(t6);
    DottedRowFrom4(t5);
    DottedRowFrom3(t4);
    DottedRowFrom2(t3);
    DottedRowFrom1(t2);
    DottedRowFrom0(t1);
  }

  /** The solver's counts from position 11 of the row, given those from position 12. */
  lemma DottedRowFrom11(t: string)
    requires Arrangements('#', t, [1]) == 0
    requires Arrangements('#', t, [0]) == 1
    ensures Arrangements('#', ['#'] + t, [0, 1, 3]) == 0
    ensures Arrangements('#', ['#'] + t, [0, 3]) == 0
    ensures Arrangements('#', ['#'] + t, [2]) == 0
    ensures Arrangements('#', ['#'] + t, [1]) == 1
  {
    var u11 := ['#'] + t;
    Move13(t);
    Move14(t);
    Move15(t);
    Move16(t);
  }

  /** The solver's counts from position 10 of the row, given those from position 11. */
  lemma DottedRowFrom10(t: string)
    requires Arrangements('#', t, [0, 1, 3]) == 0
    requires Arrangements('#', t, [0, 3]) == 0
    requires Arrangements('#', t, [2]) == 0
    requires Arrangements('#', t, [1]) == 1
    ensures Arrangements('.', ['#'] + t, [0, 1, 1, 3]) == 0
    ensures Arrangements('#', ['#'] + t, [0, 1, 3]) == 0
    ensures Arrangements('.', ['#'] + t, [0, 1, 3]) == 0
    ensures Arrangements('#', ['#'] + t, [0, 3]) == 0
    ensures Arrangements('.', ['#'] + t, [0, 3]) == 0
    ensures Arrangements('#', ['#'] + t, [2]) == 1
  {
    var u10 := ['#'] + t;
    Move17(t);
    Move13(t);
    Move18(t);
    Move14(t);
    Move19(t);
    Move15(t);
  }

  /** The solver's counts from position 9 of the row, given those from position 10. */
  lemma DottedRowFrom9(t: string)
    requires Arrangements('.', t, [0, 1, 1, 3]) == 0
    requires Arrangements('#', t, [0, 1, 3]) == 0
    requires Arrangements('.', t, [0, 1, 3]) == 0
    requires Arrangements('#', t, [0, 3]) == 0
    requires Arrangements('.', t, [0, 3]) == 0
    requires Arrangements('#', t, [2]) == 1
    ensures Arrangements('.', ['?'] + t, [0, 1, 1, 3]) == 0
    ensures Arrangements('.', ['?'] + t, [0, 1, 3]) == 0
    ensures Arrangements('.', ['?'] + t, [0, 3]) == 1
  {
    var u9 := ['?'] + t;
    Move20(t);
    Move21(t);
    Move22(t);
  }

  /** The solver's counts from position 8 of the row, given those from position 9. */
  lemma DottedRowFrom8(t: string)
    requires Arrangements('.', t, [0, 1, 1, 3]) == 0
    requires Arrangements('.', t, [0, 1, 3]) == 0
    requires Arrangements('.', t, [0, 3]) == 1
    ensures Arrangements('.', ['.'] + t, [0, 1, 1, 3]) == 0
    ensures Arrangements('.', ['.'] + t, [0, 1, 3]) == 0
    ensures Arrangements('.', ['.'] + t, [0, 3]) == 1
  {
    var u8 := ['.'] + t;
    Move23(t);
    Move24(t);
    Move25(t);
  }

  /** The solver's counts from position 7 of the row, given those from position 8. */
  lemma DottedRowFrom7(t: string)
    requires Arrangements('.', t, [0, 1, 1, 3]) == 0
    requires Arrangements('.', t, [0, 1, 3]) == 0
    requires Arrangements('.', t, [0, 3]) == 1
    ensures Arrangements('.', ['.'] + t, [0, 1, 1, 3]) == 0
    ensures Arrangements('.', ['.'] + t, [0, 1, 3]) == 0
    ensures Arrangements('.', ['.'] + t, [0, 3]) == 1
  {
    var u7 := ['.'] + t;
    Move23(t);
    Move24(t);
    Move25(t);
  }

  /** The solver's counts from position 6 of the row, given those from position 7. */
  lemma DottedRowFrom6(t: string)
    requires Arrangements('.', t, [0, 1, 1, 3]) == 0
    requires Arrangements('.', t, [0, 1, 3]) == 0
    requires Arrangements('.', t, [0, 3]) == 1
    ensures Arrangements('.', ['.'] + t, [0, 1, 1, 3]) == 0
    ensures Arrangements('#', ['.'] + t, [0, 1, 3]) == 0
    ensures Arrangements('.', ['.'] + t, [0, 1, 3]) == 0
    ensures Arrangements('#', ['.'] + t, [0, 3]) == 1
    ensures Arrangements('.', ['.'] + t, [0, 3]) == 1
  {
    var u6 := ['.'] + t;
    Move23(t);
    Move26(t);
    Move24(t);
    Move27(t);
    Move25(t);
  }

  /** The solver's counts from position 5 of the row, given those from position 6. */
  lemma DottedRowFrom5(t: string)
    requires Arrangements('.', t, [0, 1, 1, 3]) == 0
    requires Arrangements('#', t, [0, 1, 3]) == 0
    requires Arrangements('.', t, [0, 1, 3]) == 0
    requires Arrangements('#', t, [0, 3]) == 1
    requires Arrangements('.', t, [0, 3]) == 1
    ensures Arrangements('.', ['?'] + t, [0, 1, 1, 3]) == 0
    ensures Arrangements('#', ['?'] + t, [0, 1, 3]) == 0
    ensures Arrangements('.', ['?'] + t, [0, 1, 3]) == 1
    ensures Arrangements('#', ['?'] + t, [0, 3]) == 1
  {
    var u5 := ['?'] + t;
    Move20(t);
    Move28(t);
    Move21(t);
    Move29(t);
  }

  /** The solver's counts from position 4 of the row, given those from position 5. */
  lemma DottedRowFrom4(t: string)
    requires Arrangements('.', t, [0, 1, 1, 3]) == 0
    requires Arrangements('#', t, [0, 1, 3]) == 0
    requires Arrangements('.', t, [0, 1, 3]) == 1
    requires Arrangements('#', t, [0, 3]) == 1
    ensures Arrangements('.', ['?'] + t, [0, 1, 1, 3]) == 0
    ensures Arrangements('.', ['?'] + t, [0, 1, 3]) == 2
  {
    var u4 := ['?'] + t;
    Move20(t);
    Move21(t);
  }

  /** The solver's counts from position 3 of the row, given those from position 4. */
  lemma DottedRowFrom3(t: string)
    requires Arrangements('.', t, [0, 1, 1, 3]) == 0
    requires Arrangements('.', t, [0, 1, 3]) == 2
    ensures Arrangements('.', ['.'] + t, [0, 1, 1, 3]) == 0
    ensures Arrangements('.', ['.'] + t, [0, 1, 3]) == 2
  {
    var u3 := ['.'] + t;
    Move23(t);
    Move24(t);
  }

  /** The solver's counts from position 2 of the row, given those from position 3. */
  lemma DottedRowFrom2(t: string)
    requires Arrangements('.', t, [0, 1, 1, 3]) == 0
    requires Arrangements('.', t, [0, 1, 3]) == 2
    ensures Arrangements('.', ['.'] + t, [0, 1, 1, 3]) == 0
    ensures Arrangements('#', ['.'] + t, [0, 1, 3]) == 2
    ensures Arrangements('.', ['.'] + t, [0, 1, 3]) == 2
  {
    var u2 := ['.'] + t;
    Move23(t);
    Move26(t);
    Move24(t);
  }

  /** The solver's counts from position 1 of the row, given those from position 2. */
  lemma DottedRowFrom1(t: string)
    requires Arrangements('.', t, [0, 1, 1, 3]) == 0
    requires Arrangements('#', t, [0, 1, 3]) == 2
    requires Arrangements('.', t, [0, 1, 3]) == 2
    ensures Arrangements('.', ['?'] + t, [0, 1, 1, 3]) == 2
    ensures Arrangements('#', ['?'] + t, [0, 1, 3]) == 2
  {
    var u1 := ['?'] + t;
    Move20(t);
    Move28(t);
  }

  /** The solver's counts from position 0 of the row, given those from position 1. */
  lemma DottedRowFrom0(t: string)
    requires Arrangements('.', t, [0, 1, 1, 3]) == 2
    requires Arrangements('#', t, [0, 1, 3]) == 2
    ensures Arrangements('.', ['?'] + t, [0, 1, 1, 3]) == 4
  {
    var u0 := ['?'] + t;
    Move20(t);
  }

  /** The row `#.#.###` with groups 1,1,3 has 1 arrangement (12.py:130-146). */
  lemma KnownRow(springs: string, groups: seq<nat>)
    requires springs == "#.#.###" && groups == [1, 1, 3]
    ensures Permutations(springs, groups) == 1
  {
    var e := KnownRowEnd(springs);
    KnownRowCount(e);
    Stripped(springs, ['#'] + (['.'] + (['#'] + (['.'] + (['#'] + (['#'] + (['#'] + e)))))), groups, [0, 1, 1, 3]);
  }

  /** The empty rest of the row, with the solver's counts there. */
  lemma KnownRowEnd(springs: string) returns (e: string)
    requires springs == "#.#.###"
    ensures Arrangements('#', e, [0]) == 1
    ensures StripDots(springs) == ['#'] + (['.'] + (['#'] + (['.'] + (['#'] + (['#'] + (['#'] + e))))))
  {
    e := "";
    KnownRowEnds(e);
    KnownRowSpelled(springs, e);
  }

  /** The solver's counts on the empty row. */
  lemma KnownRowEnds(e: string)
    requires e == ""
    ensures Arrangements('#', e, [0]) == 1
  {
  }

  /** The row with its operational springs stripped at both ends. */
  lemma KnownRowSpelled(springs: string, e: string)
    requires springs == "#.#.###" && e == ""
    ensures StripDots(springs) == ['#'] + (['.'] + (['#'] + (['.'] + (['#'] + (['#'] + (['#'] + e))))))
  {
    assert TrimStart(springs) == "#.#.###";
    assert TrimEnd("#.#.###") == "#.#.###";
  }

  /** The solver's count of the stripped row, from its end to its start. */
  lemma KnownRowCount(t: string)
    requires Arrangements('#', t, [0]) == 1
    ensures Arrangements('.', ['#'] + (['.'] + (['#'] + (['.'] + (['#'] + (['#'] + (['#'] + t)))))), [0, 1, 1, 3]) == 1
  {
    var t6 := ['#'] + t;
    var t5 := ['#'] + (['#'] + t);
    var t4 := ['#'] + (['#'] + (['#'] + t));
    var t3 := ['.'] + (['#'] + (['#'] + (['#'] + t)));
    var t2 := ['#'] + (['.'] + (['#'] + (['#'] + (['#'] + t))));
    var t1 := ['.'] + (['#'] + (['.'] + (['#'] + (['#'] + (['#'] + t)))));
    KnownRowFrom6(t);
    KnownRowFrom5(t6);
    KnownRowFrom4(t5);
    KnownRowFrom3(t4);
    KnownRowFrom2(t3);
    KnownRowFrom1(t2);
    KnownRowFrom0(t1);
  }

  /** The solver's counts from position 6 of the row, given those from position 7. */
  lemma KnownRowFrom6(t: string)
    requires Arrangements('#', t, [0]) == 1
    ensures Arrangements('#', ['#'] + t, [1]) == 1
  {
    var u6 := ['#'] + t;
    Move16(t);
  }

  /** The solver's counts from position 5 of the row, given those from position 6. */
  lemma KnownRowFrom5(t: string)
    requires Arrangements('#', t, [1]) == 1
    ensures Arrangements('#', ['#'] + t, [2]) == 1
  {
    var u5 := ['#'] + t;
    Move15(t);
  }

  /** The solver's counts from position 4 of the row, given those from position 5. */
  lemma KnownRowFrom4(t: string)
    requires Arrangements('#', t, [2]) == 1
    ensures Arrangements('.', ['#'] + t, [0, 3]) == 1
  {
    var u4 := ['#'] + t;
    Move19(t);
  }

  /** The solver's counts from position 3 of the row, given those from position 4. */
  lemma KnownRowFrom3(t: string)
    requires Arrangements('.', t, [0, 3]) == 1
    ensures Arrangements('#', ['.'] + t, [0, 3]) == 1
  {
    var u3 := ['.'] + t;
    Move27(t);
  }

  /** The solver's counts from position 2 of the row, given those from position 3. */
  lemma KnownRowFrom2(t: string)
    requires Arrangements('#', t, [0, 3]) == 1
    ensures Arrangements('.', ['#'] + t, [0, 1, 3]) == 1
  {
    var u2 := ['#'] + t;
    Move18(t);
  }

  /** The solver's counts from position 1 of the row, given those from position 2. */
  lemma KnownRowFrom1(t: string)
    requires Arrangements('.', t, [0, 1, 3]) == 1
    ensures Arrangements('#', ['.'] + t, [0, 1, 3]) == 1
  {
    var u1 := ['.'] + t;
    Move26(t);
  }

  /** The solver's counts from position 0 of the row, given those from position 1. */
  lemma KnownRowFrom0(t: string)
    requires Arrangements('#', t, [0, 1, 3]) == 1
    ensures Arrangements('.', ['#'] + t, [0, 1, 1, 3]) == 1
  {
    var u0 := ['#'] + t;
    Move17(t);
  }

  /** The solver's move on head `?` after `.` with groups [0, 2, 1]. */
  lemma Move1(t: string)
    ensures Arrangements('.', ['?'] + t, [0, 2, 1]) == Arrangements('.', t, [0, 2, 1]) + Arrangements('#', t, [1, 1])
  {
    assert Moves('.', '?', [0, 2, 1], true, true, [1, 1]) by {
      assert [0, 2, 1][1..] == [2, 1];
      assert DropZeros([2, 1]) == [2, 1];
      assert Owed('.', [0, 2, 1]) == [2, 1];
    }
    Step('.', '?', t, [0, 2, 1], true, true, [1, 1]);
  }

  /** The solver's move on head `?` after `#` with groups [1, 1]. */
  lemma Move2(t: string)
    ensures Arrangements('#', ['?'] + t, [1, 1]) == Arrangements('#', t, [0, 1])
  {
    assert Moves('#', '?', [1, 1], false, true, [0, 1]) by {
      assert Owed('#', [1, 1]) == [1, 1];
    }
    Step('#', '?', t, [1, 1], false, true, [0, 1]);
  }

  /** The solver's move on head `?` after `#` with groups [0, 1]. */
  lemma Move3(t: string)
    ensures Arrangements('#', ['?'] + t, [0, 1]) == Arrangements('.', t, [0, 1])
  {
    assert Moves('#', '?', [0, 1], true, false, [0, 1]) by {
      assert Owed('#', [0, 1]) == [0, 1];
    }
    Step('#', '?', t, [0, 1], true, false, [0, 1]);
  }

  /** The solver's move on head `?` after `.` with groups [0, 1]. */
  lemma Move4(t: string)
    ensures Arrangements('.', ['?'] + t, [0, 1]) == Arrangements('.', t, [0, 1]) + Arrangements('#', t, [0])
  {
    assert Moves('.', '?', [0, 1], true, true, [0]) by {
      assert [0, 1][1..] == [1];
      assert DropZeros([1]) == [1];
      assert Owed('.', [0, 1]) == [1];
    }
    Step('.', '?', t, [0, 1], true, true, [0]);
  }

  /** The solver's move on head `?` after `#` with groups [0]. */
  lemma Move5(t: string)
    ensures Arrangements('#', ['?'] + t, [0]) == Arrangements('.', t, [0])
  {
    assert Moves('#', '?', [0], true, false, [0]) by {
      assert Owed('#', [0]) == [0];
    }
    Step('#', '?', t, [0], true, false, [0]);
  }

  /** The solver's move on head `?` after `.` with groups [0]. */
  lemma Move6(t: string)
    ensures Arrangements('.', ['?'] + t, [0]) == Arrangements('.', t, [0])
  {
    assert Moves('.', '?', [0], true, false, [0]) by {
      assert [0][1..] == [];
      assert DropZeros([]) == [];
      assert Owed('.', [0]) == [];
    }
    Step('.', '?', t, [0], true, false, [0]);
  }

  /** The solver's move on head `?` after `#` with groups [0, 2, 1]. */
  lemma Move7(t: string)
    ensures Arrangements('#', ['?'] + t, [0, 2, 1]) == Arrangements('.', t, [0, 2, 1])
  {
    assert Moves('#', '?', [0, 2, 1], true, false, [0, 2, 1]) by {
      assert Owed('#', [0, 2, 1]) == [0, 2, 1];
    }
    Step('#', '?', t, [0, 2, 1], true, false, [0, 2, 1]);
  }

  /** The solver's move on head `#` after `#` with groups [1, 2, 1]. */
  lemma Move8(t: string)
    ensures Arrangements('#', ['#'] + t, [1, 2, 1]) == Arrangements('#', t, [0, 2, 1])
  {
    assert Moves('#', '#', [1, 2, 1], false, true, [0, 2, 1]) by {
      assert Owed('#', [1, 2, 1]) == [1, 2, 1];
    }
    Step('#', '#', t, [1, 2, 1], false, true, [0, 2, 1]);
  }

  /** The solver's move on head `#` after `#` with groups [0, 2, 1]. */
  lemma Move9(t: string)
    ensures Arrangements('#', ['#'] + t, [0, 2, 1]) == 0
  {
    assert Moves('#', '#', [0, 2, 1], false, false, [0, 2, 1]) by {
      assert Owed('#', [0, 2, 1]) == [0, 2, 1];
    }
    Step('#', '#', t, [0, 2, 1], false, false, [0, 2, 1]);
  }

  /** The solver's move on head `#` after `#` with groups [2, 2, 1]. */
  lemma Move10(t: string)
    ensures Arrangements('#', ['#'] + t, [2, 2, 1]) == Arrangements('#', t, [1, 2, 1])
  {
    assert Moves('#', '#', [2, 2, 1], false, true, [1, 2, 1]) by {
      assert Owed('#', [2, 2, 1]) == [2, 2, 1];
    }
    Step('#', '#', t, [2, 2, 1], false, true, [1, 2, 1]);
  }

  /** The solver's move on head `#` after `.` with groups [0, 3, 2, 1]. */
  lemma Move11(t: string)
    ensures Arrangements('.', ['#'] + t, [0, 3, 2, 1]) == Arrangements('#', t, [2, 2, 1])
  {
    assert Moves('.', '#', [0, 3, 2, 1], false, true, [2, 2, 1]) by {
      assert [0, 3, 2, 1][1..] == [3, 2, 1];
      assert DropZeros([3, 2, 1]) == [3, 2, 1];
      assert Owed('.', [0, 3, 2, 1]) == [3, 2, 1];
    }
    Step('.', '#', t, [0, 3, 2, 1], false, true, [2, 2, 1]);
  }

  /** The solver's move on head `?` after `.` with groups [0, 3, 2, 1]. */
  lemma Move12(t: string)
    ensures Arrangements('.', ['?'] + t, [0, 3, 2, 1]) == Arrangements('.', t, [0, 3, 2, 1]) + Arrangements('#', t, [2, 2, 1])
  {
    assert Moves('.', '?', [0, 3, 2, 1], true, true, [2, 2, 1]) by {
      assert [0, 3, 2, 1][1..] == [3, 2, 1];
      assert DropZeros([3, 2, 1]) == [3, 2, 1];
      assert Owed('.', [0, 3, 2, 1]) == [3, 2, 1];
    }
    Step('.', '?', t, [0, 3, 2, 1], true, true, [2, 2, 1]);
  }

  /** The solver's move on head `#` after `#` with groups [0, 1, 3]. */
  lemma Move13(t: string)
    ensures Arrangements('#', ['#'] + t, [0, 1, 3]) == 0
  {
    assert Moves('#', '#', [0, 1, 3], false, false, [0, 1, 3]) by {
      assert Owed('#', [0, 1, 3]) == [0, 1, 3];
    }
    Step('#', '#', t, [0, 1, 3], false, false, [0, 1, 3]);
  }

  /** The solver's move on head `#` after `#` with groups [0, 3]. */
  lemma Move14(t: string)
    ensures Arrangements('#', ['#'] + t, [0, 3]) == 0
  {
    assert Moves('#', '#', [0, 3], false, false, [0, 3]) by {
      assert Owed('#', [0, 3]) == [0, 3];
    }
    Step('#', '#', t, [0, 3], false, false, [0, 3]);
  }

  /** The solver's move on head `#` after `#` with groups [2]. */
  lemma Move15(t: string)
    ensures Arrangements('#', ['#'] + t, [2]) == Arrangements('#', t, [1])
  {
    assert Moves('#', '#', [2], false, true, [1]) by {
      assert Owed('#', [2]) == [2];
    }
    Step('#', '#', t, [2], false, true, [1]);
  }

  /** The solver's move on head `#` after `#` with groups [1]. */
  lemma Move16(t: string)
    ensures Arrangements('#', ['#'] + t, [1]) == Arrangements('#', t, [0])
  {
    assert Moves('#', '#', [1], false, true, [0]) by {
      assert Owed('#', [1]) == [1];
    }
    Step('#', '#', t, [1], false, true, [0]);
  }

  /** The solver's move on head `#` after `.` with groups [0, 1, 1, 3]. */
  lemma Move17(t: string)
    ensures Arrangements('.', ['#'] + t, [0, 1, 1, 3]) == Arrangements('#', t, [0, 1, 3])
  {
    assert Moves('.', '#', [0, 1, 1, 3], false, true, [0, 1, 3]) by {
      assert [0, 1, 1, 3][1..] == [1, 1, 3];
      assert DropZeros([1, 1, 3]) == [1, 1, 3];
      assert Owed('.', [0, 1, 1, 3]) == [1, 1, 3];
    }
    Step('.', '#', t, [0, 1, 1, 3], false, true, [0, 1, 3]);
  }

  /** The solver's move on head `#` after `.` with groups [0, 1, 3]. */
  lemma Move18(t: string)
    ensures Arrangements('.', ['#'] + t, [0, 1, 3]) == Arrangements('#', t, [0, 3])
  {
    assert Moves('.', '#', [0, 1, 3], false, true, [0, 3]) by {
      assert [0, 1, 3][1..] == [1, 3];
      assert DropZeros([1, 3]) == [1, 3];
      assert Owed('.', [0, 1, 3]) == [1, 3];
    }
    Step('.', '#', t, [0, 1, 3], false, true, [0, 3]);
  }

  /** The solver's move on head `#` after `.` with groups [0, 3]. */
  lemma Move19(t: string)
    ensures Arrangements('.', ['#'] + t, [0, 3]) == Arrangements('#', t, [2])
  {
    assert Moves('.', '#', [0, 3], false, true, [2]) by {
      assert [0, 3][1..] == [3];
      assert DropZeros([3]) == [3];
      assert Owed('.', [0, 3]) == [3];
    }
    Step('.', '#', t, [0, 3], false, true, [2]);
  }

  /** The solver's move on head `?` after `.` with groups [0, 1, 1, 3]. */
  lemma Move20(t: string)
    ensures Arrangements('.', ['?'] + t, [0, 1, 1, 3]) == Arrangements('.', t, [0, 1, 1, 3]) + Arrangements('#', t, [0, 1, 3])
  {
    assert Moves('.', '?', [0, 1, 1, 3], true, true, [0, 1, 3]) by {
      assert [0, 1, 1, 3][1..] == [1, 1, 3];
      assert DropZeros([1, 1, 3]) == [1, 1, 3];
      assert Owed('.', [0, 1, 1, 3]) == [1, 1, 3];
    }
    Step('.', '?', t, [0, 1, 1, 3], true, true, [0, 1, 3]);
  }

  /** The solver's move on head `?` after `.` with groups [0, 1, 3]. */
  lemma Move21(t: string)
    ensures Arrangements('.', ['?'] + t, [0, 1, 3]) == Arrangements('.', t, [0, 1, 3]) + Arrangements('#', t, [0, 3])
  {
    assert Moves('.', '?', [0, 1, 3], true, true, [0, 3]) by {
      assert [0, 1, 3][1..] == [1, 3];
      assert DropZeros([1, 3]) == [1, 3];
      assert Owed('.', [0, 1, 3]) == [1, 3];
    }
    Step('.', '?', t, [0, 1, 3], true, true, [0, 3]);
  }

  /** The solver's move on head `?` after `.` with groups [0, 3]. */
  lemma Move22(t: string)
    ensures Arrangements('.', ['?'] + t, [0, 3]) == Arrangements('.', t, [0, 3]) + Arrangements('#', t, [2])
  {
    assert Moves('.', '?', [0, 3], true, true, [2]) by {
      assert [0, 3][1..] == [3];
      assert DropZeros([3]) == [3];
      assert Owed('.', [0, 3]) == [3];
    }
    Step('.', '?', t, [0, 3], true, true, [2]);
  }

  /** The solver's move on head `.` after `.` with groups [0, 1, 1, 3]. */
  lemma Move23(t: string)
    ensures Arrangements('.', ['.'] + t, [0, 1, 1, 3]) == Arrangements('.', t, [0, 1, 1, 3])
  {
    assert Moves('.', '.', [0, 1, 1, 3], true, false, [0, 1, 1, 3]) by {
    }
    Step('.', '.', t, [0, 1, 1, 3], true, false, [0, 1, 1, 3]);
  }

  /** The solver's move on head `.` after `.` with groups [0, 1, 3]. */
  lemma Move24(t: string)
    ensures Arrangements('.', ['.'] + t, [0, 1, 3]) == Arrangements('.', t, [0, 1, 3])
  {
    assert Moves('.', '.', [0, 1, 3], true, false, [0, 1, 3]) by {
    }
    Step('.', '.', t, [0, 1, 3], true, false, [0, 1, 3]);
  }

  /** The solver's move on head `.` after `.` with groups [0, 3]. */
  lemma Move25(t: string)
    ensures Arrangements('.', ['.'] + t, [0, 3]) == Arrangements('.', t, [0, 3])
  {
    assert Moves('.', '.', [0, 3], true, false, [0, 3]) by {
    }
    Step('.', '.', t, [0, 3], true, false, [0, 3]);
  }

  /** The solver's move on head `.` after `#` with groups [0, 1, 3]. */
  lemma Move26(t: string)
    ensures Arrangements('#', ['.'] + t, [0, 1, 3]) == Arrangements('.', t, [0, 1, 3])
  {
    assert Moves('#', '.', [0, 1, 3], true, false, [0, 1, 3]) by {
    }
    Step('#', '.', t, [0, 1, 3], true, false, [0, 1, 3]);
  }

  /** The solver's move on head `.` after `#` with groups [0, 3]. */
  lemma Move27(t: string)
    ensures Arrangements('#', ['.'] + t, [0, 3]) == Arrangements('.', t, [0, 3])
  {
    assert Moves('#', '.', [0, 3], true, false, [0, 3]) by {
    }
    Step('#', '.', t, [0, 3], true, false, [0, 3]);
  }

  /** The solver's move on head `?` after `#` with groups [0, 1, 3]. */
  lemma Move28(t: string)
    ensures Arrangements('#', ['?'] + t, [0, 1, 3]) == Arrangements('.', t, [0, 1, 3])
  {
    assert Moves('#', '?', [0, 1, 3], true, false, [0, 1, 3]) by {
      assert Owed('#', [0, 1, 3]) == [0, 1, 3];
    }
    Step('#', '?', t, [0, 1, 3], true, false, [0, 1, 3]);
  }

  /** The solver's move on head `?` after `#` with groups [0, 3]. */
  lemma Move29(t: string)
    ensures Arrangements('#', ['?'] + t, [0, 3]) == Arrangements('.', t, [0, 3])
  {
    assert Moves('#', '?', [0, 3], true, false, [0, 3]) by {
      assert Owed('#', [0, 3]) == [0, 3];
    }
    Step('#', '?', t, [0, 3], true, false, [0, 3]);
  }

  // ---------------------------------------------------------------------
  // Rows of unknowns only, groups 2,1: the first four test rows.
  // ---------------------------------------------------------------------

  /** A row of `n` unknown springs. */
  function Unknowns(n: nat): (r: string)
    ensures |r| == n && forall i :: 0 <= i < n ==> r[i] == '?'
  {
    if n == 0 then "" else ['?'] + Unknowns(n - 1)
  }

  /** Once the groups are finished, `n` unknowns leave one reading: all
      operational. */
  lemma {:induction false} UnknownsFinished(n: nat)
    ensures Arrangements('.', Unknowns(n), [0]) == 1
    ensures Arrangements('#', Unknowns(n), [0]) == 1
  {
    if n > 0 {
      var t := Unknowns(n - 1);
      assert Unknowns(n) == ['?'] + t;
      UnknownsFinished(n - 1);
      Move5(t);
      Move6(t);
    }
  }

  /** With one damaged spring still to place, `n` unknowns leave `n`
      readings after an operational spring, one fewer right after a damaged
      group has closed. */
  lemma {:induction false} UnknownsOneLeft(n: nat)
    ensures Arrangements('.', Unknowns(n), [0, 1]) == n
    ensures Arrangements('#', Unknowns(n), [0, 1]) == if n == 0 then 0 else n - 1
  {
    if n > 0 {
      var t := Unknowns(n - 1);
      assert Unknowns(n) == ['?'] + t;
      UnknownsOneLeft(n - 1);
      UnknownsFinished(n - 1);
      Move3(t);
      Move4(t);
    }
  }

  /** The solver's count on `n` unknowns for groups 2,1 is
      `(n - 2)(n - 3) / 2` once there are three of them: the ways to place
      a run of two and, at least one spring later, a run of one. */
  lemma {:induction false} UnknownsTwoOne(n: nat)
    ensures Arrangements('#', Unknowns(n), [1, 1]) == if n < 2 then 0 else n - 2
    ensures 2 * Arrangements('.', Unknowns(n), [0, 2, 1]) == if n < 3 then 0 else (n - 2) * (n - 3)
  {
    if n > 0 {
      var t := Unknowns(n - 1);
      assert Unknowns(n) == ['?'] + t;
      UnknownsTwoOne(n - 1);
      UnknownsOneLeft(n - 1);
      Move1(t);
      Move2(t);
      TwoOneStep(n, Arrangements('#', t, [0, 1]), Arrangements('#', t, [1, 1]), Arrangements('.', t, [0, 2, 1]));
    }
  }

  /** The arithmetic of one more unknown in front of the row. */
  lemma TwoOneStep(n: nat, d: nat, e: nat, f: nat)
    requires n > 0
    requires d == if n - 1 == 0 then 0 else n - 2
    requires e == if n - 1 < 2 then 0 else n - 3
    requires 2 * f == if n - 1 < 3 then 0 else (n - 3) * (n - 4)
    ensures d == if n < 2 then 0 else n - 2
    ensures 2 * (f + e) == if n < 3 then 0 else (n - 2) * (n - 3)
  {
    if n >= 4 {
      assert (n - 2) * (n - 3) == (n - 3) * (n - 4) + 2 * (n - 3);
    }
  }

  /** A row of unknowns has no operational spring to strip. */
  lemma UnknownsStripped(n: nat)
    ensures StripDots(Unknowns(n)) == Unknowns(n)
  {
  }

  /** A row of `n >= 3` unknowns with groups 2,1 has `(n - 2)(n - 3) / 2`
      arrangements. */
  lemma UnknownRowTwoOne(n: nat, springs: string, groups: seq<nat>)
    requires n >= 3 && springs == Unknowns(n) && groups == [2, 1]
    ensures 2 * Permutations(springs, groups) == (n - 2) * (n - 3)
  {
    UnknownsStripped(n);
    Stripped(springs, springs, groups, [0, 2, 1]);
    UnknownsTwoOne(n);
  }

  /** The rows "?????", "??????" and "???????" with groups 2,1 have 3, 6
      and 10 arrangements (12.py:132-134); "????" has 1, as `FourUnknowns`
      works out spring by spring. */
  lemma UnknownRows(springs: string, groups: seq<nat>)
    requires groups == [2, 1]
    requires springs == "?????" || springs == "??????" || springs == "???????"
    ensures springs == "?????" ==> Permutations(springs, groups) == 3
    ensures springs == "??????" ==> Permutations(springs, groups) == 6
    ensures springs == "???????" ==> Permutations(springs, groups) == 10
  {
    var n := |springs|;
    assert springs == Unknowns(n);
    UnknownRowTwoOne(n, springs, groups);
  }
}

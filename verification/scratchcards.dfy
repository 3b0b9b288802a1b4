/**
 * Scratchcards, first part (4.py): a card is worth nothing without a match
 * and 2^(m - 1) points for m matches; the answer is the total worth.
 */
module Scratchcards {
  import opened Seqs

  /** A parsed card. Numbers stay the strings the grammar produced (4.py:11-20). */
  datatype Card = Card(id: nat, winning: seq<string>, ours: seq<string>)

  function SetOf(s: seq<string>): set<string>
  {
    set i | 0 <= i < |s| :: s[i]
  }

  /** `our_winning_numbers` (4.py:23-27): our distinct numbers that also win. */
  function OurWinningNumbers(c: Card): (r: set<string>)
    ensures forall x :: x in r <==> x in c.ours && x in c.winning
  {
    SetOf(c.ours) * SetOf(c.winning)
  }

  /** The number of matches, `len(our_winning_numbers())`. */
  function Matches(c: Card): (r: nat)
    ensures r <= |c.ours| && r <= |c.winning|
  {
    SetBound(c.ours);
    SetBound(c.winning);
    assert OurWinningNumbers(c) <= SetOf(c.ours);
    assert OurWinningNumbers(c) <= SetOf(c.winning);
    SubsetCardinality(OurWinningNumbers(c), SetOf(c.ours));
    SubsetCardinality(OurWinningNumbers(c), SetOf(c.winning));
    |OurWinningNumbers(c)|
  }

  lemma {:induction false} SetBound(s: seq<string>)
    ensures |SetOf(s)| <= |s|
    decreases |s|
  {
    if |s| > 0 {
      var init := s[..|s| - 1];
      SetBound(init);
      assert SetOf(s) == SetOf(init) + {s[|s| - 1]} by {
        forall x | x in SetOf(s)
          ensures x in SetOf(init) + {s[|s| - 1]}
        {
          var i :| 0 <= i < |s| && s[i] == x;
          if i < |s| - 1 {
            assert init[i] == x;
          }
        }
      }
    }
  }

  lemma SubsetCardinality(a: set<string>, b: set<string>)
    requires a <= b
    ensures |a| <= |b|
  {
    assert b == a + (b - a);
  }

  function Pow2(e: nat): (r: nat)
    ensures r >= 1
  {
    if e == 0 then 1 else 2 * Pow2(e - 1)
  }

  /** `Card.value` (4.py:29-38). */
  function Value(c: Card): nat
  {
    var amount := Matches(c);
    if amount > 0 then Pow2(amount - 1) else 0
  }

  /** Worth is zero exactly without a match, and doubles with each further
      match: a card with m >= 1 matches is worth 2^(m - 1). */
  lemma ValueDoubles(c: Card, d: Card)
    requires Matches(d) == Matches(c) + 1
    ensures Matches(c) == 0 ==> Value(d) == 1
    ensures Matches(c) >= 1 ==> Value(d) == 2 * Value(c)
    ensures Value(c) == 0 <==> Matches(c) == 0
  {
  }

  /** Repeating one of our numbers changes nothing: the numbers are a set. */
  lemma {:induction false} DuplicateIrrelevant(c: Card, i: nat)
    requires i < |c.ours|
    ensures Matches(Card(c.id, c.winning, c.ours + [c.ours[i]])) == Matches(c)
  {
    var d := Card(c.id, c.winning, c.ours + [c.ours[i]]);
    assert SetOf(d.ours) == SetOf(c.ours) by {
      forall x | x in SetOf(d.ours)
        ensures x in SetOf(c.ours)
      {
        var j :| 0 <= j < |d.ours| && d.ours[j] == x;
        if j < |c.ours| {
          assert c.ours[j] == x;
        }
      }
      forall x | x in SetOf(c.ours)
        ensures x in SetOf(d.ours)
      {
        var j :| 0 <= j < |c.ours| && c.ours[j] == x;
        assert d.ours[j] == x;
      }
    }
  }

  /** Exchanging our numbers with the winning ones leaves the matches unchanged. */
  lemma MatchesSymmetric(c: Card)
    ensures Matches(Card(c.id, c.ours, c.winning)) == Matches(c)
  {
    assert SetOf(c.ours) * SetOf(c.winning) == SetOf(c.winning) * SetOf(c.ours);
  }

  /** The total worth of the pile (4.py:40-41). */
  function TotalValue(cards: seq<Card>): nat
  {
    if |cards| == 0 then 0 else TotalValue(cards[..|cards| - 1]) + Value(cards[|cards| - 1])
  }

  /** Example card 1 of the puzzle: four of our numbers win, so it is worth 8. */
  lemma ExampleCard()
    ensures Value(Card(1, ["41", "48", "83", "86", "17"], ["83", "86", "6", "31", "17", "9", "48", "53"])) == 8
  {
    var c := Card(1, ["41", "48", "83", "86", "17"], ["83", "86", "6", "31", "17", "9", "48", "53"]);
    ExampleWinning(c.winning);
    ExampleOurs(c.ours);
    assert OurWinningNumbers(c) == {"48", "83", "86", "17"};
    assert Matches(c) == 4;
  }

  lemma ExampleWinning(s: seq<string>)
    requires s == ["41", "48", "83", "86", "17"]
    ensures SetOf(s) == {"41", "48", "83", "86", "17"}
  {
    assert s[0] == "41" && s[1] == "48" && s[2] == "83" && s[3] == "86" && s[4] == "17";
  }

  lemma ExampleOurs(s: seq<string>)
    requires s == ["83", "86", "6", "31", "17", "9", "48", "53"]
    ensures SetOf(s) == {"83", "86", "6", "31", "17", "9", "48", "53"}
  {
    assert s[0] == "83" && s[1] == "86" && s[2] == "6" && s[3] == "31";
    assert s[4] == "17" && s[5] == "9" && s[6] == "48" && s[7] == "53";
  }
}

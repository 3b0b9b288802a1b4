/**
 * Camel Cards, second part (7p2.py): `J` is now a joker. It is the weakest
 * card when ties are broken card by card, and for the hand's type it joins
 * whichever group of cards gives the best type.
 */
module CamelCardsJokers {
  import opened Outcomes
  import opened Seqs
  import opened Sorting
  import opened CamelCards

  /** The card characters, weakest first, with the joker at the bottom (7p2.py:10). */
  const JokerOrder: string := "J23456789TQKA"

  type JokerHand = h: Hand | IsHand(h, JokerOrder) witness Hand("2", 0)

  /** `self.jokers = self.card_counts['J']` (7p2.py:37). */
  function Jokers(cards: string): nat
  {
    Count(cards, 'J')
  }

  /** The cards the counter still holds once `del self.card_counts['J']`
      has run (7p2.py:33-38): every card but the jokers, in order. */
  function NonJokers(cards: string): (r: string)
    ensures 'J' !in r
    ensures |r| + Jokers(cards) == |cards|
    ensures forall c :: c != 'J' ==> Count(r, c) == Count(cards, c)
  {
    if |cards| == 0 then []
    else
      var init, last := cards[..|cards| - 1], cards[|cards| - 1];
      var rest := NonJokers(init);
      var r := rest + (if last == 'J' then [] else [last]);
      assert forall c :: c != 'J' ==> Count(r, c) == Count(cards, c) by {
        forall c | c != 'J'
          ensures Count(r, c) == Count(cards, c)
        {
          CountAppend(rest, if last == 'J' then [] else [last], c);
          assert [last][..0] == [];
        }
      }
      r
  }

  /** Without jokers nothing is removed. */
  lemma {:induction false} NonJokersWithoutJokers(cards: string)
    requires 'J' !in cards
    ensures NonJokers(cards) == cards
    decreases |cards|
  {
    if |cards| > 0 {
      NonJokersWithoutJokers(cards[..|cards| - 1]);
      assert cards == cards[..|cards| - 1] + [cards[|cards| - 1]];
    }
  }

  /** `Hand.type` (7p2.py:40-76) on the sorted counts of the regular cards
      and the number of jokers. With no regular card, `counts[-1]` raises
      `IndexError` unless the five-joker special case caught it first. */
  function TypeOfCountsJ(counts: seq<nat>, jokers: nat): Result<HandType>
  {
    if jokers == 5 then Ok(FiveOfAKind)
    else if |counts| == 0 then Err(IndexError)
    else
      var highest := counts[|counts| - 1] + jokers;
      Ok(
        if highest == 5 then FiveOfAKind
        else if highest == 4 then FourOfAKind
        else if counts == [2, 3] then FullHouse
        else if jokers == 1 && LastTwo(counts) == [2, 2] then FullHouse
        else if highest == 3 then ThreeOfAKind
        else if LastTwo(counts) == [2, 2] then TwoPair
        else if counts[|counts| - 1] == 2 && jokers == 1 then TwoPair
        else if highest == 2 then Pair
        else HighCard)
  }

  function TypeJ(h: JokerHand): Result<HandType>
  {
    TypeOfCountsJ(CountsOf(NonJokers(h.cards)), Jokers(h.cards))
  }

  /** The type fails exactly for a hand of jokers only that is not five
      cards long, and then with `IndexError`. */
  lemma TypeJFails(h: JokerHand)
    ensures TypeJ(h).Err? <==> Jokers(h.cards) == |h.cards| && |h.cards| != 5
    ensures TypeJ(h).Err? ==> TypeJ(h).error == IndexError
  {
    var regular := NonJokers(h.cards);
    NoCountsIffEmpty(regular);
    CountsJFail(CountsOf(regular), Jokers(h.cards));
  }

  /** The typing fails only when no card but jokers is left and there
      are not five jokers. */
  lemma CountsJFail(counts: seq<nat>, jokers: nat)
    ensures TypeOfCountsJ(counts, jokers).Err? <==> jokers != 5 && |counts| == 0
    ensures TypeOfCountsJ(counts, jokers).Err? ==> TypeOfCountsJ(counts, jokers).error == IndexError
  {
  }

  /** A hand has no counts exactly when it has no cards. */
  lemma NoCountsIffEmpty(cards: string)
    ensures |CountsOf(cards)| == 0 <==> |cards| == 0
  {
  }

  /** A hand without jokers has the type the first part gives it. */
  lemma NoJokersAsBefore(h: JokerHand)
    requires Jokers(h.cards) == 0
    ensures TypeJ(h) == Ok(TypeOfCounts(CountsOf(h.cards)))
  {
    CountPositive(h.cards, 'J');
    NonJokersWithoutJokers(h.cards);
    NoJokersCounts(CountsOf(h.cards));
  }

  lemma NoJokersCounts(c: seq<nat>)
    requires |c| > 0
    ensures TypeOfCountsJ(c, 0) == Ok(TypeOfCounts(c))
  {
  }

  /** The counts once the jokers have joined the largest group. */
  function Boost(counts: seq<nat>, jokers: nat): (r: seq<nat>)
    requires |counts| > 0
  {
    counts[..|counts| - 1] + [counts[|counts| - 1] + jokers]
  }

  /** The last one or two counts bound the sum from below. */
  lemma SumOfLargest(c: seq<nat>)
    requires |c| > 0 && Positive(c)
    ensures Sum(c) >= c[|c| - 1] + |c| - 1
    ensures |c| >= 2 ==> Sum(c) >= c[|c| - 2] + c[|c| - 1] + |c| - 2
  {
    var n := |c|;
    var init := c[..n - 1];
    SumAtLeastLength(init);
    if n >= 2 {
      assert init[..n - 2] == c[..n - 2];
      SumAtLeastLength(c[..n - 2]);
    }
  }

  /** On a five-card hand the cascade of tests gives the type of the counts
      in which every joker joins the largest group of regular cards. */
  lemma BoostedCounts(c: seq<nat>, j: nat)
    requires |c| > 0 && Sorted(c, NatOrder) && Positive(c) && Sum(c) + j == 5
    ensures TypeOfCountsJ(c, j) == Ok(TypeOfCounts(Boost(c, j)))
  {
    SumOfLargest(c);
    if j == 0 {
      BoostNothing(c);
      NoJokersCounts(c);
    } else if |c| == 1 {
      BoostedSingle(c, j);
    } else {
      assert c[|c| - 2] <= c[|c| - 1];
      BoostedPairs(c, j);
    }
  }

  lemma BoostNothing(c: seq<nat>)
    requires |c| > 0
    ensures Boost(c, 0) == c
  {
    assert c == c[..|c| - 1] + [c[|c| - 1]];
  }

  lemma BoostedSingle(c: seq<nat>, j: nat)
    requires |c| == 1 && 0 < j && c[0] + j == 5
    ensures TypeOfCountsJ(c, j) == Ok(TypeOfCounts(Boost(c, j)))
  {
    assert Boost(c, j) == [c[0] + j];
  }

  lemma BoostedPairs(c: seq<nat>, j: nat)
    requires |c| >= 2 && Positive(c) && 0 < j && c[|c| - 2] <= c[|c| - 1]
    requires Sum(c) + j == 5 && Sum(c) >= c[|c| - 2] + c[|c| - 1] + |c| - 2
    ensures TypeOfCountsJ(c, j) == Ok(TypeOfCounts(Boost(c, j)))
  {
    var n := |c|;
    var b := Boost(c, j);
    var x, y := c[n - 2], c[n - 1];
    assert |b| == n && b[n - 1] == y + j && b[n - 2] == x;
    LastTwoIs(c, 2, 2);
    LastTwoIs(b, 2, 2);
    PairIs(c, 2, 3);
    PairIs(b, 2, 3);
    assert x >= 1;
  }

  lemma LastTwoIs(c: seq<nat>, x: nat, y: nat)
    requires |c| >= 2
    ensures LastTwo(c) == [x, y] <==> c[|c| - 2] == x && c[|c| - 1] == y
  {
    assert LastTwo(c) == [c[|c| - 2], c[|c| - 1]];
  }

  lemma PairIs(c: seq<nat>, x: nat, y: nat)
    ensures c == [x, y] <==> |c| == 2 && c[0] == x && c[1] == y
  {
    if |c| == 2 && c[0] == x && c[1] == y {
      assert c == [x, y];
    }
  }

  /** Adding the jokers to the largest count keeps the counts sorted and
      positive and makes them sum to the hand's length. */
  lemma BoostShape(c: seq<nat>, j: nat)
    requires |c| > 0 && Sorted(c, NatOrder) && Positive(c)
    ensures Sorted(Boost(c, j), NatOrder) && Positive(Boost(c, j))
    ensures Sum(Boost(c, j)) == Sum(c) + j
  {
    BoostSorted(c, j);
    BoostSum(c, j);
  }

  lemma BoostSorted(c: seq<nat>, j: nat)
    requires |c| > 0 && Sorted(c, NatOrder) && Positive(c)
    ensures Sorted(Boost(c, j), NatOrder) && Positive(Boost(c, j))
  {
    var b := Boost(c, j);
    forall p, q | 0 <= p < q < |c|
      ensures b[p] <= b[q]
    {
      assert c[p] <= c[q];
    }
  }

  lemma BoostSum(c: seq<nat>, j: nat)
    requires |c| > 0
    ensures Sum(Boost(c, j)) == Sum(c) + j
  {
    var n := |c|;
    assert Boost(c, j)[..n - 1] == c[..n - 1];
    assert c[..n - 1] == c[..n][..n - 1];
    assert c[..n] == c;
  }

  /** Five-card hands: jokers join the largest group of regular cards, and
      the result is the best type the puzzle's description allows for those
      counts (7p2.py:44-76). */
  lemma JokersJoinLargest(h: JokerHand)
    requires |h.cards| == 5 && Jokers(h.cards) < 5
    ensures var counts := CountsOf(NonJokers(h.cards));
      && |counts| > 0
      && TypeJ(h) == Ok(TypeOfCounts(Boost(counts, Jokers(h.cards))))
      && TypeJ(h) == Ok(PuzzleType(Boost(counts, Jokers(h.cards))))
  {
    var counts := CountsOf(NonJokers(h.cards));
    var j := Jokers(h.cards);
    CountsPositive(NonJokers(h.cards));
    BoostedCounts(counts, j);
    BoostShape(counts, j);
    TypeMatchesPuzzle(Boost(counts, j));
  }

  /** The type value the comparator sees. A hand whose type fails never
      reaches it: `sorted` raises before any comparison can use the value. */
  function TypeValueJ(h: JokerHand): int
  {
    match TypeJ(h)
    case Ok(t) => t.Value()
    case Err(_) => -1
  }

  /** The comparator of `update_ranks` with the joker order (7p2.py:90-97). */
  function CompareJ(l: JokerHand, r: JokerHand): int
  {
    CompareBy(JokerOrder, TypeValueJ(l), TypeValueJ(r), l.cards, r.cards)
  }

  /** The tie-break is decided by the first position where the hands differ. */
  lemma {:induction false} FirstDifferenceDecides(order: string, l: string, r: string, i: nat)
    requires forall k :: 0 <= k < |l| ==> l[k] in order
    requires forall k :: 0 <= k < |r| ==> r[k] in order
    requires i < |l| && i < |r| && l[..i] == r[..i] && l[i] != r[i]
    ensures CompareCards(order, l, r) == CardValue(order, l[i]) - CardValue(order, r[i])
    decreases i
  {
    if i > 0 {
      assert l[0] == l[..i][0] == r[..i][0] == r[0];
      assert l[1..][..i - 1] == l[..i][1..] && r[1..][..i - 1] == r[..i][1..];
      FirstDifferenceDecides(order, l[1..], r[1..], i - 1);
    }
  }

  /** Between hands of equal type, the one holding a joker where the other
      holds a regular card, at their first difference, ranks lower. */
  lemma JokerLosesTie(l: JokerHand, r: JokerHand, i: nat)
    requires TypeJ(l) == TypeJ(r)
    requires i < |l.cards| && i < |r.cards| && l.cards[..i] == r.cards[..i]
    requires l.cards[i] == 'J' && r.cards[i] != 'J'
    ensures CompareJ(l, r) < 0
  {
    FirstDifferenceDecides(JokerOrder, l.cards, r.cards, i);
    assert r.cards[i] in JokerOrder;
  }

  lemma JokerOrderDistinct()
    ensures forall i, j :: 0 <= i < j < |JokerOrder| ==> JokerOrder[i] != JokerOrder[j]
  {
  }

  function HandKeyJ(h: JokerHand): seq<int>
  {
    Key(JokerOrder, TypeValueJ(h), h.cards)
  }

  lemma CompareJIsLex(l: JokerHand, r: JokerHand)
    requires |l.cards| == |r.cards|
    ensures CompareJ(l, r) == Lex(HandKeyJ(l), HandKeyJ(r))
  {
    JokerOrderDistinct();
    CompareByIsLex(JokerOrder, TypeValueJ(l), TypeValueJ(r), l.cards, r.cards);
  }

  /** On hands of one length the comparator is antisymmetric and ties
      exactly identical cards. */
  lemma CompareJTotal(l: JokerHand, r: JokerHand)
    requires |l.cards| == |r.cards|
    ensures Sign(CompareJ(l, r)) == -Sign(CompareJ(r, l))
    ensures CompareJ(l, r) == 0 <==> l.cards == r.cards
  {
    CompareJIsLex(l, r);
    CompareJIsLex(r, l);
    LexAntisymmetric(HandKeyJ(l), HandKeyJ(r));
    if HandKeyJ(l) == HandKeyJ(r) {
      assert HandKeyJ(l)[1..] == Values(JokerOrder, l.cards);
      assert HandKeyJ(r)[1..] == Values(JokerOrder, r.cards);
      ValuesInjective(JokerOrder, l.cards, r.cards);
    }
  }

  lemma CompareJTransitive(a: JokerHand, b: JokerHand, c: JokerHand)
    requires |a.cards| == |b.cards| == |c.cards|
    requires CompareJ(a, b) <= 0 && CompareJ(b, c) <= 0
    ensures CompareJ(a, c) <= 0
  {
    CompareJIsLex(a, b);
    CompareJIsLex(b, c);
    CompareJIsLex(a, c);
    LexTransitive(HandKeyJ(a), HandKeyJ(b), HandKeyJ(c));
  }

  lemma CompareJConsistent(hands: seq<JokerHand>)
    requires SameLength(hands)
    ensures Consistent(hands, CompareJ)
    ensures (forall i, j :: 0 <= i < |hands| && 0 <= j < |hands| && hands[i].cards == hands[j].cards ==> hands[i] == hands[j])
      ==> Strict(hands, CompareJ)
  {
    forall a, b | a in hands && b in hands
      ensures Sign(CompareJ(a, b)) == -Sign(CompareJ(b, a))
      ensures CompareJ(a, b) == 0 <==> a.cards == b.cards
    {
      CompareJTotal(a, b);
    }
    forall a, b, c | a in hands && b in hands && c in hands && CompareJ(a, b) <= 0 && CompareJ(b, c) <= 0
      ensures CompareJ(a, c) <= 0
    {
      CompareJTransitive(a, b, c);
    }
  }

  /** Every hand of the input has a type. */
  predicate AllTyped(hands: seq<JokerHand>)
  {
    forall i :: 0 <= i < |hands| && TypeJ(hands[i]).Err? ==> false
  }

  /** `update_ranks` then the sum of winnings (7p2.py:85-102, 113). With at
      least two hands `sorted` asks every hand for its type, so one hand of
      jokers only, not five long, makes the whole run fail; a single hand is
      never compared. */
  function TotalWinningsJ(hands: seq<JokerHand>): (r: Result<int>)
    ensures r.Err? <==> |hands| >= 2 && exists i :: 0 <= i < |hands| && Jokers(hands[i].cards) == |hands[i].cards| && |hands[i].cards| != 5
    ensures r.Err? ==> r.error == IndexError
  {
    assert forall i :: 0 <= i < |hands| ==> (TypeJ(hands[i]).Err? <==> Jokers(hands[i].cards) == |hands[i].cards| && |hands[i].cards| != 5) by {
      forall i | 0 <= i < |hands| {
        TypeJFails(hands[i]);
      }
    }
    if |hands| >= 2 && !AllTyped(hands) then Err(IndexError)
    else Ok(RankedWinnings(RankedJ(hands), 1))
  }

  /** The hands in ascending order under the joker comparator. */
  function RankedJ(hands: seq<JokerHand>): (r: seq<JokerHand>)
    ensures multiset(r) == multiset(hands)
    ensures SameLength(hands) ==> Sorted(r, CompareJ)
  {
    assert SameLength(hands) ==> Sorted(Sort(hands, CompareJ), CompareJ) by {
      if SameLength(hands) {
        CompareJConsistent(hands);
        SortSorted(hands, CompareJ);
      }
    }
    Sort(hands, CompareJ)
  }

  /** When no two hands share their cards and all have one length, the
      total does not depend on the order of the input lines. */
  lemma WinningsJOrderIndependent(a: seq<JokerHand>, b: seq<JokerHand>)
    requires multiset(a) == multiset(b)
    requires SameLength(a)
    requires forall i, j :: 0 <= i < |a| && 0 <= j < |a| && a[i].cards == a[j].cards ==> a[i] == a[j]
    ensures TotalWinningsJ(a) == TotalWinningsJ(b)
  {
    CompareJConsistent(a);
    SortOrderIndependent(a, b, CompareJ);
    AllTypedPermutation(a, b);
  }

  lemma AllTypedPermutation(a: seq<JokerHand>, b: seq<JokerHand>)
    requires multiset(a) == multiset(b)
    ensures |a| == |b| && (AllTyped(a) <==> AllTyped(b))
  {
    assert |multiset(a)| == |multiset(b)|;
    forall i | 0 <= i < |a|
      ensures exists k :: 0 <= k < |b| && b[k] == a[i]
    {
      assert a[i] in multiset(b);
    }
    forall i | 0 <= i < |b|
      ensures exists k :: 0 <= k < |a| && a[k] == b[i]
    {
      assert b[i] in multiset(a);
    }
  }
}

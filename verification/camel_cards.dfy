/**
 * Camel Cards, first part (7.py): a hand's type comes from its sorted card
 * counts, hands are ranked by type and then card by card, and the answer
 * is the sum of bid times rank.
 */
module CamelCards {
  import opened Seqs
  import opened Dicts
  import opened Counters
  import opened Sorting

  /** `HandType` with its enum values 0 .. 6 (7.py:21-28). */
  datatype HandType = HighCard | Pair | TwoPair | ThreeOfAKind | FullHouse | FourOfAKind | FiveOfAKind
  {
    function Value(): nat
    {
      match this
      case HighCard => 0
      case Pair => 1
      case TwoPair => 2
      case ThreeOfAKind => 3
      case FullHouse => 4
      case FourOfAKind => 5
      case FiveOfAKind => 6
    }
  }

  /** The card characters, weakest first (7.py:10). */
  const Order: string := "23456789TJQKA"

  /** `card_values[c]` of the dictionary built by enumerating an order of
      distinct characters (7.py:16): the position of `c`. */
  function CardValue(order: string, c: char): (r: nat)
    requires c in order
    ensures r < |order| && order[r] == c
    ensures forall j :: 0 <= j < r ==> order[j] != c
  {
    if order[0] == c then 0 else 1 + CardValue(order[1..], c)
  }

  /** A parsed line: the grammar only admits a non-empty word of card
      characters followed by a number (7.py:12-14). */
  datatype Hand = Hand(cards: string, bid: nat)

  predicate IsHand(h: Hand, order: string)
  {
    |h.cards| > 0 && forall i :: 0 <= i < |h.cards| ==> h.cards[i] in order
  }

  type ValidHand = h: Hand | IsHand(h, Order) witness Hand("2", 0)

  function NatOrder(a: nat, b: nat): int
  {
    a - b
  }

  /** `sorted(self.card_counts.values())` (7.py:33-36, 42). */
  function CountsOf(cards: string): (r: seq<nat>)
    ensures Sorted(r, NatOrder)
    ensures Sum(r) == |cards|
    ensures forall x :: x in r <==> exists c :: c in cards && Count(cards, c) == x
    ensures |cards| > 0 ==> |r| > 0
  {
    var values := Counter(cards).Values();
    NatOrderTotal(values);
    SortSorted(values, NatOrder);
    CounterTotal(cards);
    SumPermutation(values, Sort(values, NatOrder));
    CounterValues(cards);
    Sort(values, NatOrder)
  }

  /** The values of the counter are the numbers of times the cards occur. */
  lemma CounterValues(cards: string)
    ensures var r := Sort(Counter(cards).Values(), NatOrder);
      && (forall x :: x in r <==> exists c :: c in cards && Count(cards, c) == x)
      && (|cards| > 0 ==> |r| > 0)
  {
    var counter := Counter(cards);
    var values := counter.Values();
    var r := Sort(values, NatOrder);
    CountingValues(counter, cards);
    forall x
      ensures x in r <==> x in values
    {
      assert x in r <==> x in multiset(values);
    }
    assert |cards| > 0 ==> cards[0] in counter.entries;
  }

  /** A dictionary from the cards to how often each occurs has those
      numbers, and only those, as its values. */
  lemma CountingValues(d: Dict<char, nat>, cards: string)
    requires d.Valid()
    requires forall k :: k in d.entries <==> k in cards
    requires forall k :: k in d.entries ==> d.entries[k] == Count(cards, k)
    ensures forall x :: x in d.Values() <==> exists c :: c in cards && Count(cards, c) == x
  {
    var values := d.Values();
    forall x
      ensures x in values <==> exists c :: c in cards && Count(cards, c) == x
    {
      if x in values {
        var i :| 0 <= i < |values| && values[i] == x;
        assert d.keys[i] in d.entries;
      }
      if exists c :: c in cards && Count(cards, c) == x {
        var c :| c in cards && Count(cards, c) == x;
        var i :| 0 <= i < |d.keys| && d.keys[i] == c;
        assert values[i] == x;
      }
    }
  }

  lemma NatOrderTotal(s: seq<nat>)
    ensures Consistent(s, NatOrder) && Strict(s, NatOrder)
  {
  }

  /** Sums do not depend on the order of the values. */
  lemma {:induction false} SumPermutation(a: seq<nat>, b: seq<nat>)
    requires multiset(a) == multiset(b)
    ensures Sum(a) == Sum(b)
    decreases |a|
  {
    if |a| > 0 {
      var x := a[|a| - 1];
      assert x in multiset(b);
      var i :| 0 <= i < |b| && b[i] == x;
      var b' := b[..i] + b[i + 1..];
      assert b == b[..i] + [x] + b[i + 1..];
      assert a == a[..|a| - 1] + [x];
      assert multiset(b') == multiset(b) - multiset{x} by {
        assert multiset(b) == multiset(b[..i]) + multiset{x} + multiset(b[i + 1..]);
      }
      assert multiset(a[..|a| - 1]) == multiset(a) - multiset{x};
      SumPermutation(a[..|a| - 1], b');
      SumAppend(b[..i] + [x], b[i + 1..]);
      SumAppend(b[..i], [x]);
      SumAppend(b[..i], b[i + 1..]);
    }
  }

  /** Python's `counts[-2:]`: the last two counts, or all of them if fewer. */
  function LastTwo(counts: seq<nat>): seq<nat>
  {
    if |counts| >= 2 then counts[|counts| - 2..] else counts
  }

  /** `Hand.type` on the sorted counts (7.py:42-57). */
  function TypeOfCounts(counts: seq<nat>): HandType
    requires |counts| > 0
  {
    var highest := counts[|counts| - 1];
    if highest == 5 then FiveOfAKind
    else if highest == 4 then FourOfAKind
    else if counts == [2, 3] then FullHouse
    else if highest == 3 then ThreeOfAKind
    else if LastTwo(counts) == [2, 2] then TwoPair
    else if highest == 2 then Pair
    else HighCard
  }

  function TypeOf(h: ValidHand): HandType
  {
    TypeOfCounts(CountsOf(h.cards))
  }

  /** The puzzle's description of the types, stated on how often cards repeat. */
  function PuzzleType(counts: seq<nat>): HandType
  {
    if 5 in counts then FiveOfAKind
    else if 4 in counts then FourOfAKind
    else if 3 in counts && 2 in counts then FullHouse
    else if 3 in counts then ThreeOfAKind
    else if Count(counts, 2) >= 2 then TwoPair
    else if 2 in counts then Pair
    else HighCard
  }

  predicate Positive(counts: seq<nat>)
  {
    forall i :: 0 <= i < |counts| ==> counts[i] >= 1
  }

  lemma {:induction false} SumAtLeastLength(counts: seq<nat>)
    requires Positive(counts)
    ensures Sum(counts) >= |counts|
    decreases |counts|
  {
    if |counts| > 0 {
      SumAtLeastLength(counts[..|counts| - 1]);
    }
  }

  lemma SumStep(c: seq<int>, k: nat)
    requires k < |c|
    ensures Sum(c[..k + 1]) == Sum(c[..k]) + c[k]
  {
    assert c[..k + 1][..k] == c[..k];
  }

  /** The partitions of five, smallest part first. */
  predicate PartitionOfFive(c: seq<nat>)
  {
    || c == [5] || c == [1, 4] || c == [2, 3] || c == [1, 1, 3] || c == [1, 2, 2]
    || c == [1, 1, 1, 2] || c == [1, 1, 1, 1, 1]
  }

  /** The sorted counts of a five-card hand are one of the seven partitions of five. */
  lemma FivePartitions(c: seq<nat>)
    requires Sorted(c, NatOrder) && Positive(c) && Sum(c) == 5
    ensures PartitionOfFive(c)
  {
    SumAtLeastLength(c);
    SmallSum(c);
    var n := |c|;
    var a, b, d, e, f := c[0], if n > 1 then c[1] else 0, if n > 2 then c[2] else 0,
      if n > 3 then c[3] else 0, if n > 4 then c[4] else 0;
    assert a >= 1 && (n > 1 ==> b >= 1) && (n > 2 ==> d >= 1) && (n > 3 ==> e >= 1) && (n > 4 ==> f >= 1);
    assert n > 1 ==> NatOrder(a, b) <= 0;
    assert n > 2 ==> NatOrder(b, d) <= 0;
    assert n > 3 ==> NatOrder(d, e) <= 0;
    PartitionsBySize(n, a, b, d, e, f);
    if n == 1 {
      assert c == [a];
    } else if n == 2 {
      assert c == [a, b];
    } else if n == 3 {
      assert c == [a, b, d];
    } else if n == 4 {
      assert c == [a, b, d, e];
    } else {
      assert c == [a, b, d, e, f];
    }
  }

  /** The same, on the counts written out one by one. */
  lemma PartitionsBySize(n: nat, a: nat, b: nat, d: nat, e: nat, f: nat)
    requires 1 <= n <= 5 && a + b + d + e + f == 5
    requires a >= 1 && (n > 1 ==> b >= 1) && (n > 2 ==> d >= 1) && (n > 3 ==> e >= 1) && (n > 4 ==> f >= 1)
    requires (n <= 1 ==> b == 0) && (n <= 2 ==> d == 0) && (n <= 3 ==> e == 0) && (n <= 4 ==> f == 0)
    requires (n > 1 ==> a <= b) && (n > 2 ==> b <= d) && (n > 3 ==> d <= e)
    ensures n == 1 ==> a == 5
    ensures n == 2 ==> (a, b) == (1, 4) || (a, b) == (2, 3)
    ensures n == 3 ==> (a, b, d) == (1, 1, 3) || (a, b, d) == (1, 2, 2)
    ensures n == 4 ==> (a, b, d, e) == (1, 1, 1, 2)
    ensures n == 5 ==> (a, b, d, e, f) == (1, 1, 1, 1, 1)
  {
  }

  /** The sum of one to five counts, written out. */
  lemma SmallSum(c: seq<nat>)
    requires 1 <= |c| <= 5
    ensures Sum(c) == c[0] + (if |c| > 1 then c[1] else 0) + (if |c| > 2 then c[2] else 0)
      + (if |c| > 3 then c[3] else 0) + (if |c| > 4 then c[4] else 0)
  {
    assert c[..|c|] == c;
    assert Sum(c[..0]) == 0;
    SumStep(c, 0);
    if |c| > 1 { SumStep(c, 1); }
    if |c| > 2 { SumStep(c, 2); }
    if |c| > 3 { SumStep(c, 3); }
    if |c| > 4 { SumStep(c, 4); }
  }

  /** For five-card hands the code's cascade of count tests agrees with the
      puzzle's description of the types. */
  lemma TypeMatchesPuzzle(counts: seq<nat>)
    requires Sorted(counts, NatOrder) && Positive(counts) && Sum(counts) == 5
    ensures TypeOfCounts(counts) == PuzzleType(counts)
  {
    FivePartitions(counts);
    PartitionTypes(counts);
  }

  lemma PartitionTypes(c: seq<nat>)
    requires PartitionOfFive(c)
    ensures TypeOfCounts(c) == PuzzleType(c)
  {
    if c == [1, 2, 2] {
      TwoPairType(c);
    } else if c == [1, 1, 1, 2] {
      PairType(c);
    } else if c == [1, 1, 1, 1, 1] {
      HighCardType(c);
    } else if c == [1, 1, 3] {
      assert PuzzleType(c) == ThreeOfAKind;
    } else if c == [2, 3] {
      assert PuzzleType(c) == FullHouse;
    } else if c == [1, 4] {
      assert PuzzleType(c) == FourOfAKind;
    } else {
      assert PuzzleType(c) == FiveOfAKind;
    }
  }

  lemma TwoPairType(c: seq<nat>)
    requires c == [1, 2, 2]
    ensures TypeOfCounts(c) == PuzzleType(c) == TwoPair
  {
    assert c[..2] == [1, 2];
    CountPositive(c[..2], 2);
    assert Count(c, 2) >= 2;
    assert LastTwo(c) == [2, 2];
  }

  lemma PairType(c: seq<nat>)
    requires c == [1, 1, 1, 2]
    ensures TypeOfCounts(c) == PuzzleType(c) == Pair
  {
    assert c[..3] == [1, 1, 1];
    CountPositive(c[..3], 2);
    assert Count(c, 2) == 1;
    assert LastTwo(c) == [1, 2];
    assert 5 !in c && 4 !in c && 3 !in c && c[3] == 2;
  }

  lemma HighCardType(c: seq<nat>)
    requires c == [1, 1, 1, 1, 1]
    ensures TypeOfCounts(c) == PuzzleType(c) == HighCard
  {
    CountPositive(c, 2);
    assert LastTwo(c) == [1, 1];
    assert 5 !in c && 4 !in c && 3 !in c && 2 !in c;
  }

  /** A five-card hand's type is fixed by how often its cards repeat, as the
      puzzle describes, whatever their order (7.py:38-57). */
  lemma HandTypeByRepeats(h: ValidHand)
    requires |h.cards| == 5
    ensures TypeOf(h) == PuzzleType(CountsOf(h.cards))
    ensures forall x :: x in CountsOf(h.cards) <==> exists c :: c in h.cards && Count(h.cards, c) == x
  {
    CountsPositive(h.cards);
    TypeMatchesPuzzle(CountsOf(h.cards));
  }

  /** Every card that is counted occurs at least once. */
  lemma CountsPositive(cards: string)
    ensures Positive(CountsOf(cards))
  {
    var counts := CountsOf(cards);
    forall i | 0 <= i < |counts|
      ensures counts[i] >= 1
    {
      assert counts[i] in counts;
      var c :| c in cards && Count(cards, c) == counts[i];
      CountPositive(cards, c);
    }
  }

  /** The tie-break of the comparator: the first differing card of the two
      hands decides, by card value; hands that agree as far as the shorter
      one reaches tie (7.py:75-78). */
  function CompareCards(order: string, l: string, r: string): int
    requires forall i :: 0 <= i < |l| ==> l[i] in order
    requires forall i :: 0 <= i < |r| ==> r[i] in order
  {
    if |l| == 0 || |r| == 0 then 0
    else if l[0] != r[0] then CardValue(order, l[0]) - CardValue(order, r[0])
    else CompareCards(order, l[1..], r[1..])
  }

  /** The comparator of `update_ranks` given the two hands' type values (7.py:71-78). */
  function CompareBy(order: string, lt: int, rt: int, l: string, r: string): int
    requires forall i :: 0 <= i < |l| ==> l[i] in order
    requires forall i :: 0 <= i < |r| ==> r[i] in order
  {
    if lt != rt then lt - rt else CompareCards(order, l, r)
  }

  function Compare(l: ValidHand, r: ValidHand): int
  {
    CompareBy(Order, TypeOf(l).Value(), TypeOf(r).Value(), l.cards, r.cards)
  }

  /** Lexicographic comparison of equally long integer sequences: the sign
      of the first difference. */
  function Lex(a: seq<int>, b: seq<int>): int
    requires |a| == |b|
  {
    if |a| == 0 then 0 else if a[0] != b[0] then a[0] - b[0] else Lex(a[1..], b[1..])
  }

  lemma {:induction false} LexAntisymmetric(a: seq<int>, b: seq<int>)
    requires |a| == |b|
    ensures Sign(Lex(a, b)) == -Sign(Lex(b, a))
    ensures Lex(a, b) == 0 <==> a == b
    decreases |a|
  {
    if |a| > 0 && a[0] == b[0] {
      LexAntisymmetric(a[1..], b[1..]);
      assert a == [a[0]] + a[1..] && b == [b[0]] + b[1..];
    }
  }

  lemma {:induction false} LexTransitive(a: seq<int>, b: seq<int>, c: seq<int>)
    requires |a| == |b| == |c|
    requires Lex(a, b) <= 0 && Lex(b, c) <= 0
    ensures Lex(a, c) <= 0
    decreases |a|
  {
    if |a| > 0 && a[0] == b[0] && b[0] == c[0] {
      LexTransitive(a[1..], b[1..], c[1..]);
    }
  }

  /** The card values of a hand, in order. */
  function Values(order: string, cards: string): (r: seq<int>)
    requires forall i :: 0 <= i < |cards| ==> cards[i] in order
    ensures |r| == |cards|
  {
    if |cards| == 0 then [] else [CardValue(order, cards[0]) as int] + Values(order, cards[1..])
  }

  /** With distinct card characters, the tie-break on equally long hands is
      the lexicographic order of their card values. */
  lemma {:induction false} CompareCardsIsLex(order: string, l: string, r: string)
    requires forall i, j :: 0 <= i < j < |order| ==> order[i] != order[j]
    requires forall i :: 0 <= i < |l| ==> l[i] in order
    requires forall i :: 0 <= i < |r| ==> r[i] in order
    requires |l| == |r|
    ensures CompareCards(order, l, r) == Lex(Values(order, l), Values(order, r))
    decreases |l|
  {
    if |l| > 0 {
      var vl, vr := Values(order, l), Values(order, r);
      if l[0] == r[0] {
        CompareCardsIsLex(order, l[1..], r[1..]);
        assert vl[1..] == Values(order, l[1..]) && vr[1..] == Values(order, r[1..]);
      } else {
        var a, b := CardValue(order, l[0]), CardValue(order, r[0]);
        assert order[a] == l[0] && order[b] == r[0];
      }
    }
  }

  /** The comparator's key: the type value, then the card values. */
  function Key(order: string, t: int, cards: string): seq<int>
    requires forall i :: 0 <= i < |cards| ==> cards[i] in order
  {
    [t] + Values(order, cards)
  }

  lemma CompareByIsLex(order: string, lt: int, rt: int, l: string, r: string)
    requires forall i, j :: 0 <= i < j < |order| ==> order[i] != order[j]
    requires forall i :: 0 <= i < |l| ==> l[i] in order
    requires forall i :: 0 <= i < |r| ==> r[i] in order
    requires |l| == |r|
    ensures CompareBy(order, lt, rt, l, r) == Lex(Key(order, lt, l), Key(order, rt, r))
  {
    CompareCardsIsLex(order, l, r);
    var kl, kr := Key(order, lt, l), Key(order, rt, r);
    assert kl[1..] == Values(order, l) && kr[1..] == Values(order, r);
  }

  lemma OrderDistinct()
    ensures forall i, j :: 0 <= i < j < |Order| ==> Order[i] != Order[j]
  {
  }

  predicate SameLength(hands: seq<Hand>)
  {
    forall i, j :: 0 <= i < |hands| && 0 <= j < |hands| ==> |hands[i].cards| == |hands[j].cards|
  }

  function HandKey(h: ValidHand): seq<int>
  {
    Key(Order, TypeOf(h).Value(), h.cards)
  }

  lemma CompareIsLex(l: ValidHand, r: ValidHand)
    requires |l.cards| == |r.cards|
    ensures Compare(l, r) == Lex(HandKey(l), HandKey(r))
  {
    OrderDistinct();
    CompareByIsLex(Order, TypeOf(l).Value(), TypeOf(r).Value(), l.cards, r.cards);
  }

  /** The comparator is antisymmetric on all hands of one length, ties
      exactly identical cards, and orders such hands totally (7.py:71-78). */
  lemma CompareTotal(l: ValidHand, r: ValidHand)
    requires |l.cards| == |r.cards|
    ensures Sign(Compare(l, r)) == -Sign(Compare(r, l))
    ensures Compare(l, r) == 0 <==> l.cards == r.cards
  {
    CompareIsLex(l, r);
    CompareIsLex(r, l);
    LexAntisymmetric(HandKey(l), HandKey(r));
    OrderDistinct();
    if HandKey(l) == HandKey(r) {
      ValuesInjective(Order, l.cards, r.cards);
    }
  }

  lemma {:induction false} ValuesInjective(order: string, a: string, b: string)
    requires forall i :: 0 <= i < |a| ==> a[i] in order
    requires forall i :: 0 <= i < |b| ==> b[i] in order
    requires Values(order, a) == Values(order, b)
    ensures a == b
    decreases |a|
  {
    if |a| > 0 {
      var va, vb := Values(order, a), Values(order, b);
      assert va[0] == vb[0];
      assert a[0] == order[va[0]] == b[0];
      assert va[1..] == Values(order, a[1..]) && vb[1..] == Values(order, b[1..]);
      ValuesInjective(order, a[1..], b[1..]);
      assert a == [a[0]] + a[1..] && b == [b[0]] + b[1..];
    }
  }

  lemma CompareTransitive(a: ValidHand, b: ValidHand, c: ValidHand)
    requires |a.cards| == |b.cards| == |c.cards|
    requires Compare(a, b) <= 0 && Compare(b, c) <= 0
    ensures Compare(a, c) <= 0
  {
    CompareIsLex(a, b);
    CompareIsLex(b, c);
    CompareIsLex(a, c);
    LexTransitive(HandKey(a), HandKey(b), HandKey(c));
  }

  /** On hands of one length the comparator is a total preorder; it is a
      total order when no two hands share their cards. */
  lemma CompareConsistent(hands: seq<ValidHand>)
    requires SameLength(hands)
    ensures Consistent(hands, Compare)
    ensures (forall i, j :: 0 <= i < |hands| && 0 <= j < |hands| && hands[i].cards == hands[j].cards ==> hands[i] == hands[j])
      ==> Strict(hands, Compare)
  {
    forall a, b | a in hands && b in hands
      ensures Sign(Compare(a, b)) == -Sign(Compare(b, a))
      ensures Compare(a, b) == 0 <==> a.cards == b.cards
    {
      CompareTotal(a, b);
    }
    forall a, b, c | a in hands && b in hands && c in hands && Compare(a, b) <= 0 && Compare(b, c) <= 0
      ensures Compare(a, c) <= 0
    {
      CompareTransitive(a, b, c);
    }
  }

  /** `update_ranks` (7.py:79-83): the hands in ascending order. */
  function Ranked(hands: seq<ValidHand>): (r: seq<ValidHand>)
    ensures multiset(r) == multiset(hands)
    ensures SameLength(hands) ==> Sorted(r, Compare)
  {
    assert SameLength(hands) ==> Sorted(Sort(hands, Compare), Compare) by {
      if SameLength(hands) {
        CompareConsistent(hands);
        SortSorted(hands, Compare);
      }
    }
    Sort(hands, Compare)
  }

  /** `hand.rank = i + 1` and `winnings` (7.py:59-60, 81-82) summed (7.py:94). */
  function TotalWinnings(hands: seq<ValidHand>): int
  {
    RankedWinnings(Ranked(hands), 1)
  }

  /** The winnings of `s` when its first hand has rank `rank`. */
  function RankedWinnings(s: seq<Hand>, rank: int): int
  {
    if |s| == 0 then 0 else s[0].bid * rank + RankedWinnings(s[1..], rank + 1)
  }

  /** The hand at position `i` of the ranking has rank `i + 1`: the total is
      the sum of bid times that rank. */
  lemma {:induction false} RankedWinningsIsSum(s: seq<Hand>, rank: int)
    ensures RankedWinnings(s, rank) == Sum(seq(|s|, i requires 0 <= i < |s| => s[i].bid * (rank + i)))
    decreases |s|
  {
    var terms := seq(|s|, i requires 0 <= i < |s| => s[i].bid * (rank + i));
    if |s| > 0 {
      RankedWinningsIsSum(s[1..], rank + 1);
      var rest := seq(|s| - 1, i requires 0 <= i < |s| - 1 => s[1..][i].bid * (rank + 1 + i));
      assert terms == [terms[0]] + rest;
      SumCons(terms[0], rest);
    }
  }

  lemma SumCons(x: int, s: seq<int>)
    ensures Sum([x] + s) == x + Sum(s)
  {
    SumAppend([x], s);
    assert [x][..0] == [];
  }

  /** When no two hands share their cards and all have one length, the
      total winnings do not depend on the order of the input lines. */
  lemma WinningsOrderIndependent(a: seq<ValidHand>, b: seq<ValidHand>)
    requires multiset(a) == multiset(b)
    requires SameLength(a)
    requires forall i, j :: 0 <= i < |a| && 0 <= j < |a| && a[i].cards == a[j].cards ==> a[i] == a[j]
    ensures TotalWinnings(a) == TotalWinnings(b)
  {
    CompareConsistent(a);
    SortOrderIndependent(a, b, Compare);
  }
}

/**
 * Scratchcards, second part (4p2.py): a card with m matches wins one more
 * copy of each of the next m cards per copy held; the answer is the number
 * of cards held in the end.
 */
module ScratchcardCopies {
  import opened Seqs
  import opened Scratchcards

  /** `copy_counter[id]` of a `defaultdict(lambda: 1)`: every card starts
      with its original (4p2.py:15). */
  function Copies(counter: map<int, nat>, id: int): (r: nat)
    ensures r >= 1 || (id in counter && counter[id] == 0)
  {
    if id in counter then counter[id] else 1
  }

  /** Every count in the table is at least one. */
  predicate AllPositive(counter: map<int, nat>)
  {
    forall t :: t in counter ==> counter[t] >= 1
  }

  /** `copy_counter[id + x + 1] += copies` for `x` in `range(k)` (4p2.py:30-31). */
  function Bump(counter: map<int, nat>, id: int, copies: nat, k: nat): (r: map<int, nat>)
    ensures forall t :: Copies(r, t) == Copies(counter, t) + (if id < t <= id + k then copies else 0)
    ensures AllPositive(counter) ==> AllPositive(r)
  {
    if k == 0 then counter
    else
      var prefix := Bump(counter, id, copies, k - 1);
      prefix[id + k := Copies(prefix, id + k) + copies]
  }

  /** Reading this card's count, then handing its copies to the next cards (4p2.py:17-31). */
  function Step(counter: map<int, nat>, c: Card): map<int, nat>
  {
    Bump(counter, c.id, Copies(counter, c.id), Matches(c))
  }

  /** The table after all cards were constructed, in input order (4p2.py:50). */
  function Process(cards: seq<Card>): (r: map<int, nat>)
    ensures AllPositive(r)
  {
    if |cards| == 0 then map[] else Step(Process(cards[..|cards| - 1]), cards[|cards| - 1])
  }

  /** The answer: the count of every card of the input (4p2.py:51). */
  function TotalCards(cards: seq<Card>): (r: nat)
    ensures r >= |cards|
  {
    var counter := Process(cards);
    CountsSum(counter, cards)
  }

  function CountsSum(counter: map<int, nat>, cards: seq<Card>): (r: nat)
    requires AllPositive(counter)
    ensures r >= |cards|
  {
    if |cards| == 0 then 0 else CountsSum(counter, cards[..|cards| - 1]) + Copies(counter, cards[|cards| - 1].id)
  }

  /** The cards are numbered 1, 2, ... in order, as in the puzzle input. */
  predicate Numbered(cards: seq<Card>)
  {
    forall k :: 0 <= k < |cards| ==> cards[k].id == k + 1
  }

  /** Reference recurrence: card `i` is held once, plus once per copy of
      each earlier card `j` whose winnings reach it (i - j <= matches of j). */
  function CopiesRef(cards: seq<Card>, i: nat): nat
    requires i < |cards|
    decreases i, 1
  {
    1 + WonFrom(cards, i, i)
  }

  /** The copies of card `i` won by cards `0 .. j - 1`. */
  function WonFrom(cards: seq<Card>, i: nat, j: nat): nat
    requires j <= i < |cards|
    decreases j, 0
  {
    if j == 0 then 0
    else WonFrom(cards, i, j - 1) + (if i - (j - 1) <= Matches(cards[j - 1]) then CopiesRef(cards, j - 1) else 0)
  }

  /** After the first `n` cards, card `i` holds its original plus what cards
      `0 .. min(n, i) - 1` won for it. */
  lemma {:induction false} ProcessPrefix(cards: seq<Card>, n: nat, i: nat)
    requires Numbered(cards) && n <= |cards| && i < |cards|
    ensures Copies(Process(cards[..n]), i + 1) == 1 + WonFrom(cards, i, Min(n, i))
    decreases n
  {
    if n > 0 {
      var m := n - 1;
      assert cards[..n][..m] == cards[..m];
      var before := Process(cards[..m]);
      var c := cards[m];
      assert Process(cards[..n]) == Step(before, c);
      ProcessPrefix(cards, m, i);
      ProcessPrefix(cards, m, m);
      assert Copies(before, c.id) == CopiesRef(cards, m);
      var after := Bump(before, c.id, CopiesRef(cards, m), Matches(c));
      assert Copies(after, i + 1) == Copies(before, i + 1) + (if c.id < i + 1 <= c.id + Matches(c) then CopiesRef(cards, m) else 0);
      if i > m {
        assert WonFrom(cards, i, n) == WonFrom(cards, i, m) + (if i - m <= Matches(cards[m]) then CopiesRef(cards, m) else 0);
      }
    }
  }

  /** With cards numbered in order, each final count satisfies the reference
      recurrence (4p2.py:25-31, 50-51). */
  lemma CountsFollowRecurrence(cards: seq<Card>, i: nat)
    requires Numbered(cards) && i < |cards|
    ensures Copies(Process(cards), i + 1) == CopiesRef(cards, i)
  {
    ProcessPrefix(cards, |cards|, i);
    assert cards[..|cards|] == cards;
  }

  /** Reference answer: the counts the recurrence gives the first `n` cards, added up. */
  function RefTotal(cards: seq<Card>, n: nat): nat
    requires n <= |cards|
  {
    if n == 0 then 0 else RefTotal(cards, n - 1) + CopiesRef(cards, n - 1)
  }

  /** Adding up the final table over the first `n` cards gives the reference total. */
  lemma {:induction false} CountsSumRef(cards: seq<Card>, n: nat)
    requires Numbered(cards) && n <= |cards|
    ensures CountsSum(Process(cards), cards[..n]) == RefTotal(cards, n)
    decreases n
  {
    if n > 0 {
      assert cards[..n][..n - 1] == cards[..n - 1];
      CountsSumRef(cards, n - 1);
      CountsFollowRecurrence(cards, n - 1);
    }
  }

  /** With cards numbered in order, the answer is the sum over the cards of
      the counts the reference recurrence gives them (4p2.py:50-51). */
  lemma TotalCardsIsRecurrenceSum(cards: seq<Card>)
    requires Numbered(cards)
    ensures TotalCards(cards) == RefTotal(cards, |cards|)
  {
    CountsSumRef(cards, |cards|);
    assert cards[..|cards|] == cards;
  }

  /** With increasing card ids a card's count is final once it has been
      read: later cards only hand copies to higher ids. */
  lemma {:induction false} CountSettled(cards: seq<Card>, k: nat)
    requires forall a, b :: 0 <= a < b < |cards| ==> cards[a].id < cards[b].id
    requires k < |cards|
    ensures Copies(Process(cards), cards[k].id) == Copies(Process(cards[..k]), cards[k].id)
    decreases |cards|
  {
    if k < |cards| - 1 {
      var init := cards[..|cards| - 1];
      assert init[..k] == cards[..k];
      CountSettled(init, k);
    } else {
      assert cards[..|cards| - 1] == cards[..k];
    }
  }

  /** Puzzle example: matches 4, 2, 2, 1, 0, 0 give 1, 2, 4, 8, 14, 1 copies. */
  lemma ExampleCounts(cards: seq<Card>)
    requires |cards| == 6 && Numbered(cards)
    requires Matches(cards[0]) == 4 && Matches(cards[1]) == 2 && Matches(cards[2]) == 2
    requires Matches(cards[3]) == 1 && Matches(cards[4]) == 0 && Matches(cards[5]) == 0
    ensures TotalCards(cards) == 30
  {
    var counter := Process(cards);
    ExampleRecurrence(cards);
    forall i | 0 <= i < 6
      ensures Copies(counter, i + 1) == CopiesRef(cards, i)
    {
      CountsFollowRecurrence(cards, i);
    }
    assert cards[..6] == cards;
    assert cards[..6][..5] == cards[..5] && cards[..5][..4] == cards[..4] && cards[..4][..3] == cards[..3];
    assert cards[..3][..2] == cards[..2] && cards[..2][..1] == cards[..1] && cards[..1][..0] == [];
    assert CountsSum(counter, cards[..1]) == 1;
    assert CountsSum(counter, cards[..2]) == 3;
    assert CountsSum(counter, cards[..3]) == 7;
    assert CountsSum(counter, cards[..4]) == 15;
    assert CountsSum(counter, cards[..5]) == 29;
  }

  /** The recurrence on the example's matches. */
  lemma ExampleRecurrence(cards: seq<Card>)
    requires |cards| == 6
    requires Matches(cards[0]) == 4 && Matches(cards[1]) == 2 && Matches(cards[2]) == 2
    requires Matches(cards[3]) == 1 && Matches(cards[4]) == 0 && Matches(cards[5]) == 0
    ensures CopiesRef(cards, 0) == 1 && CopiesRef(cards, 1) == 2 && CopiesRef(cards, 2) == 4
    ensures CopiesRef(cards, 3) == 8 && CopiesRef(cards, 4) == 14 && CopiesRef(cards, 5) == 1
  {
    assert CopiesRef(cards, 0) == 1;
    assert CopiesRef(cards, 1) == 2;
    assert WonFrom(cards, 2, 2) == 3;
    assert CopiesRef(cards, 2) == 4;
    assert WonFrom(cards, 3, 2) == 3;
    assert CopiesRef(cards, 3) == 8;
    assert WonFrom(cards, 4, 2) == 1;
    assert WonFrom(cards, 4, 3) == 5;
    assert CopiesRef(cards, 4) == 14;
    assert WonFrom(cards, 5, 3) == 0;
    assert WonFrom(cards, 5, 5) == 0;
    assert CopiesRef(cards, 5) == 1;
  }
}

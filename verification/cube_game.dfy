/**
 * Cube Conundrum (2.py): each game shows several handfuls of coloured cubes;
 * a game is possible when no handful shows more than 12 red, 13 green or
 * 14 blue cubes, and the answer is the sum of the possible games' numbers.
 */
module CubeGame {
  import opened Seqs
  import opened Dicts

  /** One `count colour` entry of a handful. */
  datatype Cubes = Cubes(count: nat, color: string)

  /** A parsed game line: its number and its handfuls, in order. */
  datatype Game = Game(number: nat, handfuls: seq<seq<Cubes>>)

  /** Reference count: the total of the entries of colour `c` in a handful. */
  function CountOf(cubes: seq<Cubes>, c: string): nat
  {
    if |cubes| == 0 then 0
    else CountOf(cubes[..|cubes| - 1], c) + (if cubes[|cubes| - 1].color == c then cubes[|cubes| - 1].count else 0)
  }

  /** Some entry of the handful has colour `c`. */
  predicate Appears(cubes: seq<Cubes>, c: string)
  {
    exists i :: 0 <= i < |cubes| && cubes[i].color == c
  }

  /** The `defaultdict(int)` a handful is tallied into (2.py:32-37): every
      colour that appears is a key, in order of first appearance, and maps to
      its total count. */
  function Tally(cubes: seq<Cubes>): (r: Dict<string, nat>)
    ensures r.Valid()
    ensures forall c :: c in r.entries <==> Appears(cubes, c)
    ensures forall c :: r.Get(c, 0) == CountOf(cubes, c)
  {
    if |cubes| == 0 then Empty()
    else
      var prefix := Tally(cubes[..|cubes| - 1]);
      var last := cubes[|cubes| - 1];
      var r := prefix.Put(last.color, prefix.Get(last.color, 0) + last.count);
      forall c | Appears(cubes, c) && c != last.color
        ensures Appears(cubes[..|cubes| - 1], c)
      {
        var i :| 0 <= i < |cubes| && cubes[i].color == c;
        assert cubes[..|cubes| - 1][i].color == c;
      }
      r
  }

  const RedLimit: nat := 12
  const GreenLimit: nat := 13
  const BlueLimit: nat := 14

  /** A tally within the bag's contents; a missing colour reads as 0 (2.py:40-48). */
  predicate WithinBag(tally: Dict<string, nat>)
  {
    tally.Get("red", 0) <= RedLimit && tally.Get("green", 0) <= GreenLimit && tally.Get("blue", 0) <= BlueLimit
  }

  /** `CubeSet.check_possible` (2.py:40-48), stated on the reference counts. */
  function HandfulPossible(cubes: seq<Cubes>): (r: bool)
    ensures r <==> CountOf(cubes, "red") <= 12 && CountOf(cubes, "green") <= 13 && CountOf(cubes, "blue") <= 14
  {
    WithinBag(Tally(cubes))
  }

  /** `Game.check_possible` (2.py:58-62): every handful is possible. */
  predicate GamePossible(g: Game)
  {
    forall i :: 0 <= i < |g.handfuls| ==> HandfulPossible(g.handfuls[i])
  }

  /** The sum of the numbers of the possible games (2.py:65-69). */
  function PossibleIdSum(games: seq<Game>): (r: nat)
    ensures r <= Sum(NumbersOf(games))
    ensures (forall i :: 0 <= i < |games| ==> GamePossible(games[i])) ==> r == Sum(NumbersOf(games))
  {
    if |games| == 0 then 0
    else
      var last := games[|games| - 1];
      assert NumbersOf(games) == NumbersOf(games[..|games| - 1]) + [last.number];
      SumAppend(NumbersOf(games[..|games| - 1]), [last.number]);
      assert Sum([last.number]) == last.number by {
        assert [last.number][..0] == [];
      }
      PossibleIdSum(games[..|games| - 1]) + (if GamePossible(last) then last.number else 0)
  }

  /** The answer over two lists of games is the sum of their answers. */
  lemma {:induction false} PossibleIdSumAppend(a: seq<Game>, b: seq<Game>)
    ensures PossibleIdSum(a + b) == PossibleIdSum(a) + PossibleIdSum(b)
    decreases |b|
  {
    if |b| == 0 {
      assert a + b == a;
    } else {
      var init := b[..|b| - 1];
      assert (a + b)[..|a + b| - 1] == a + init;
      assert (a + b)[|a + b| - 1] == b[|b| - 1];
      PossibleIdSumAppend(a, init);
    }
  }

  /** A single game adds its id exactly when it is possible. */
  lemma PossibleIdSumSingle(g: Game)
    ensures PossibleIdSum([g]) == (if GamePossible(g) then g.number else 0)
  {
    assert [g][..0] == [];
  }

  function NumbersOf(games: seq<Game>): (r: seq<int>)
    ensures |r| == |games|
    ensures forall i :: 0 <= i < |games| ==> r[i] == games[i].number
  {
    if |games| == 0 then [] else NumbersOf(games[..|games| - 1]) + [games[|games| - 1].number]
  }
}

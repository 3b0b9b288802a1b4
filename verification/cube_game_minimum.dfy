/**
 * Cube Conundrum, second part (2p2.py): the fewest cubes of each colour that
 * make a game possible, and the game's power, the product of those counts.
 */
module CubeGameMinimum {
  import opened Seqs
  import opened Outcomes
  import opened Dicts
  import opened CubeGame

  /** `CubeSet.update_minimum_set` (2p2.py:51-56): raise each colour of the
      handful's tally to at least the handful's count, visiting the colours
      in the tally's key order. */
  function UpdateMinimum(tally: Dict<string, nat>, colors: seq<string>, minimum: Dict<string, nat>): (r: Dict<string, nat>)
    requires forall i :: 0 <= i < |colors| ==> colors[i] in tally.entries
    requires minimum.Valid()
    ensures r.Valid()
    ensures forall c :: c in r.entries <==> c in minimum.entries || c in colors
    ensures forall c :: c in colors ==> r.Get(c, 0) == Max(minimum.Get(c, 0), tally.Get(c, 0))
    ensures forall c :: c !in colors ==> r.Get(c, 0) == minimum.Get(c, 0)
  {
    if |colors| == 0 then minimum
    else
      var c := colors[|colors| - 1];
      var prefix := UpdateMinimum(tally, colors[..|colors| - 1], minimum);
      assert forall d :: d in colors <==> d in colors[..|colors| - 1] || d == c;
      prefix.Put(c, Max(prefix.Get(c, 0), tally.Get(c, 0)))
  }

  /** `Game.get_minimum_set` (2p2.py:72-79): fold every handful into a
      `defaultdict(int)` that starts empty. */
  function MinimumSet(handfuls: seq<seq<Cubes>>): (r: Dict<string, nat>)
    ensures r.Valid()
  {
    if |handfuls| == 0 then Empty()
    else
      var tally := Tally(handfuls[|handfuls| - 1]);
      UpdateMinimum(tally, tally.keys, MinimumSet(handfuls[..|handfuls| - 1]))
  }

  /** One handful more raises each colour's minimum to that handful's count. */
  lemma MinimumStep(handfuls: seq<seq<Cubes>>, c: string)
    requires |handfuls| > 0
    ensures var init := MinimumSet(handfuls[..|handfuls| - 1]);
      var last := handfuls[|handfuls| - 1];
      && MinimumSet(handfuls).Get(c, 0) == Max(init.Get(c, 0), CountOf(last, c))
      && (c in MinimumSet(handfuls).entries <==> c in init.entries || Appears(last, c))
  {
    var tally := Tally(handfuls[|handfuls| - 1]);
    assert c in tally.keys <==> c in tally.entries;
  }

  /** Every handful's count is within the minimum set. */
  lemma {:induction false} MinimumSetBounds(handfuls: seq<seq<Cubes>>, c: string, i: nat)
    requires i < |handfuls|
    ensures CountOf(handfuls[i], c) <= MinimumSet(handfuls).Get(c, 0)
  {
    var init := handfuls[..|handfuls| - 1];
    MinimumStep(handfuls, c);
    if i < |handfuls| - 1 {
      MinimumSetBounds(init, c, i);
      assert handfuls[i] == init[i];
    }
  }

  /** The colours of the minimum set are those that appear in some handful,
      and each one's minimum is the count shown by some handful. */
  lemma {:induction false} MinimumSetAttained(handfuls: seq<seq<Cubes>>, c: string)
    ensures c in MinimumSet(handfuls).entries <==> exists i :: 0 <= i < |handfuls| && Appears(handfuls[i], c)
    ensures c in MinimumSet(handfuls).entries ==>
      exists i :: 0 <= i < |handfuls| && CountOf(handfuls[i], c) == MinimumSet(handfuls).Get(c, 0)
    ensures c !in MinimumSet(handfuls).entries ==> MinimumSet(handfuls).Get(c, 0) == 0
  {
    if |handfuls| > 0 {
      var init := handfuls[..|handfuls| - 1];
      var n := |handfuls| - 1;
      MinimumSetAttained(init, c);
      MinimumStep(handfuls, c);
      if c in MinimumSet(handfuls).entries {
        if CountOf(handfuls[n], c) >= MinimumSet(init).Get(c, 0) {
          assert CountOf(handfuls[n], c) == MinimumSet(handfuls).Get(c, 0);
        } else {
          var i :| 0 <= i < |init| && CountOf(init[i], c) == MinimumSet(init).Get(c, 0);
          assert handfuls[i] == init[i];
        }
      }
      if exists i :: 0 <= i < |handfuls| && Appears(handfuls[i], c) {
        var i :| 0 <= i < |handfuls| && Appears(handfuls[i], c);
        if i < n {
          assert handfuls[i] == init[i];
        }
      }
      if c in MinimumSet(init).entries {
        var i :| 0 <= i < |init| && Appears(init[i], c);
        assert handfuls[i] == init[i];
      }
    }
  }

  /** Partner of the first part: a game is possible exactly when its minimum
      set fits in the bag (2.py:58-62, 2p2.py:72-79). */
  lemma PossibleIffMinimumWithinBag(g: Game)
    ensures GamePossible(g) <==> WithinBag(MinimumSet(g.handfuls))
  {
    if GamePossible(g) {
      forall i | 0 <= i < |g.handfuls| ensures HandfulPossible(g.handfuls[i]) { }
      MinimumSetAttained(g.handfuls, "red");
      MinimumSetAttained(g.handfuls, "green");
      MinimumSetAttained(g.handfuls, "blue");
    } else {
      var i :| 0 <= i < |g.handfuls| && !HandfulPossible(g.handfuls[i]);
      MinimumSetBounds(g.handfuls, "red", i);
      MinimumSetBounds(g.handfuls, "green", i);
      MinimumSetBounds(g.handfuls, "blue", i);
    }
  }

  /** `Game.power` (2p2.py:81-87): `reduce` of the minimum counts in key
      order; with no initial value, an empty minimum set is a TypeError. */
  function Power(g: Game): (r: Result<int>)
    ensures r.Err? <==> forall i :: 0 <= i < |g.handfuls| ==> |g.handfuls[i]| == 0
    ensures r.Ok? ==> r.value == Product(MinimumSet(g.handfuls).Values())
  {
    var minimum := MinimumSet(g.handfuls);
    if |minimum.keys| == 0 then
      assert forall i :: 0 <= i < |g.handfuls| ==> |g.handfuls[i]| == 0 by {
        forall i | 0 <= i < |g.handfuls|
          ensures |g.handfuls[i]| == 0
        {
          if |g.handfuls[i]| > 0 {
            MinimumSetAttained(g.handfuls, g.handfuls[i][0].color);
          }
        }
      }
      Err(TypeError)
    else
      assert exists i :: 0 <= i < |g.handfuls| && |g.handfuls[i]| > 0 by {
        MinimumSetAttained(g.handfuls, minimum.keys[0]);
      }
      Ok(Product(minimum.Values()))
  }

  /** The sum of the powers of all games (2p2.py:90-94). */
  function PowerSum(games: seq<Game>): Result<int>
  {
    if |games| == 0 then Ok(0)
    else
      var prefix :- PowerSum(games[..|games| - 1]);
      var p :- Power(games[|games| - 1]);
      Ok(prefix + p)
  }
}

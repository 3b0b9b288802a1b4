/**
 * The Floor Will Be Lava (16.py, 16p2.py): a beam crosses a grid of empty
 * cells '.', mirrors '/' and '\', and splitters '-' and '|'. This module
 * holds the tile rules, the beam graph they define, and a trace that
 * remembers every (cell, direction) it has covered, so it always ends and
 * energises exactly the cells the beam reaches. The trace as the source
 * writes it, which only remembers where beams were split off, is in
 * `BeamTrace`.
 */
module Beams {
  import opened Outcomes
  import opened Rectangles

  /** A beam at cell `(x, y)` moving by `(dx, dy)`; `y` grows downwards. */
  datatype Beam = Beam(x: int, y: int, dx: int, dy: int)

  /** What a tile does to a beam: it goes on in a direction, or splits
      into two beams that start in the neighbouring cells. */
  datatype Turn = Onward(dx: int, dy: int) | Fork(first: Beam, second: Beam)

  /** The tile rules of `trace` (16.py:31-48, the same in 16p2.py:33-50). */
  function Deflect(tile: char, b: Beam): (r: Result<Turn>)
    ensures r.Err? <==> tile !in {'/', '\\', '-', '|', '.'}
    ensures r.Err? ==> r.error == AssertionError
  {
    if tile == '/' then Ok(Onward(-b.dy, -b.dx))
    else if tile == '\\' then Ok(Onward(b.dy, b.dx))
    else if tile == '-' then
      if b.dx == 0 then Ok(Fork(Beam(b.x - 1, b.y, -1, 0), Beam(b.x + 1, b.y, 1, 0)))
      else Ok(Onward(b.dx, b.dy))
    else if tile == '|' then
      if b.dy == 0 then Ok(Fork(Beam(b.x, b.y - 1, 0, -1), Beam(b.x, b.y + 1, 0, 1)))
      else Ok(Onward(b.dx, b.dy))
    else if tile == '.' then Ok(Onward(b.dx, b.dy))
    else Err(AssertionError)
  }

  /** The four directions a beam moves in. */
  predicate Unit(dx: int, dy: int)
  {
    (dx == 0 && (dy == 1 || dy == -1)) || (dy == 0 && (dx == 1 || dx == -1))
  }

  /** Each mirror undoes itself, turns a beam through a right angle and
      sends it the way the mirror's slope says: '/' turns east-bound beams
      north and south-bound beams west, '\' turns east-bound beams south
      and north-bound beams west. */
  lemma MirrorRules(b: Beam)
    requires Unit(b.dx, b.dy)
    ensures var t := Deflect('/', b).value;
      && t.Onward? && Unit(t.dx, t.dy) && t.dx * b.dx + t.dy * b.dy == 0
      && Deflect('/', b.(dx := t.dx, dy := t.dy)) == Ok(Onward(b.dx, b.dy))
    ensures var t := Deflect('\\', b).value;
      && t.Onward? && Unit(t.dx, t.dy) && t.dx * b.dx + t.dy * b.dy == 0
      && Deflect('\\', b.(dx := t.dx, dy := t.dy)) == Ok(Onward(b.dx, b.dy))
    ensures (b.dx, b.dy) == (1, 0) ==> Deflect('/', b) == Ok(Onward(0, -1)) && Deflect('\\', b) == Ok(Onward(0, 1))
    ensures (b.dx, b.dy) == (0, 1) ==> Deflect('/', b) == Ok(Onward(-1, 0)) && Deflect('\\', b) == Ok(Onward(1, 0))
    ensures (b.dx, b.dy) == (0, -1) ==> Deflect('/', b) == Ok(Onward(1, 0)) && Deflect('\\', b) == Ok(Onward(-1, 0))
    ensures (b.dx, b.dy) == (-1, 0) ==> Deflect('/', b) == Ok(Onward(0, 1)) && Deflect('\\', b) == Ok(Onward(0, -1))
  {
  }

  /** A splitter splits exactly the beams that hit its flat side, into the
      two cells beside it along its length; a beam along its length and an
      empty cell let the beam pass unchanged. */
  lemma SplitterRules(b: Beam)
    requires Unit(b.dx, b.dy)
    ensures Deflect('-', b).value.Fork? <==> b.dy != 0
    ensures Deflect('|', b).value.Fork? <==> b.dx != 0
    ensures Deflect('-', b).value.Fork? ==> Deflect('-', b).value == Fork(Beam(b.x - 1, b.y, -1, 0), Beam(b.x + 1, b.y, 1, 0))
    ensures Deflect('|', b).value.Fork? ==> Deflect('|', b).value == Fork(Beam(b.x, b.y - 1, 0, -1), Beam(b.x, b.y + 1, 0, 1))
    ensures Deflect('-', b).value.Onward? ==> Deflect('-', b).value == Onward(b.dx, b.dy)
    ensures Deflect('|', b).value.Onward? ==> Deflect('|', b).value == Onward(b.dx, b.dy)
    ensures Deflect('.', b) == Ok(Onward(b.dx, b.dy))
  {
  }

  // ------------------------------------------------------------ the grid

  /** `self.width` and `self.height` (16.py:15-19): the first row's length
      and the number of rows. */
  function Width(grid: seq<string>): nat
  {
    if |grid| == 0 then 0 else |grid[0]|
  }

  predicate InGrid(grid: seq<string>, x: int, y: int)
  {
    0 <= x < Width(grid) && 0 <= y < |grid|
  }

  /** `self.grid[y][x]`, which fails on a row shorter than the first. */
  function Tile(grid: seq<string>, x: int, y: int): (r: Result<char>)
    requires InGrid(grid, x, y)
    ensures r.Err? <==> x >= |grid[y]|
  {
    if x < |grid[y]| then Ok(grid[y][x]) else Err(IndexError)
  }

  /** The beams a beam in the grid turns into one step later (some may
      have left the grid). */
  function Next(grid: seq<string>, b: Beam): (r: Result<seq<Beam>>)
    requires InGrid(grid, b.x, b.y)
    ensures r.Ok? ==> 1 <= |r.value| <= 2
    ensures r.Ok? && Unit(b.dx, b.dy) ==> forall n :: n in r.value ==> Unit(n.dx, n.dy) && n.x == b.x + n.dx && n.y == b.y + n.dy
  {
    var tile :- Tile(grid, b.x, b.y);
    var turn :- Deflect(tile, b);
    match turn
    case Onward(dx, dy) => Ok([Beam(b.x + dx, b.y + dy, dx, dy)])
    case Fork(first, second) => Ok([first, second])
  }

  /** A run of beams inside the grid, each one step after the last. */
  ghost predicate Path(grid: seq<string>, p: seq<Beam>)
  {
    && |p| > 0
    && (forall i :: 0 <= i < |p| ==> InGrid(grid, p[i].x, p[i].y))
    && (forall i :: 0 <= i < |p| - 1 ==> Next(grid, p[i]).Ok? && p[i + 1] in Next(grid, p[i]).value)
  }

  ghost predicate Reaches(grid: seq<string>, start: Beam, b: Beam)
  {
    exists p :: Path(grid, p) && p[0] == start && p[|p| - 1] == b
  }

  /** The cells the beam from `start` reaches. */
  ghost function Reached(grid: seq<string>, start: Beam): set<Cell>
  {
    set x, y | 0 <= x < Width(grid) && 0 <= y < |grid| && (exists b :: Reaches(grid, start, b) && (x, y) == (b.x, b.y)) :: (x, y)
  }

  lemma ReachedHas(grid: seq<string>, start: Beam)
    ensures forall c :: c in Reached(grid, start) <==> exists b :: Reaches(grid, start, b) && c == (b.x, b.y)
  {
    forall c | exists b :: Reaches(grid, start, b) && c == (b.x, b.y)
      ensures c in Reached(grid, start)
    {
      var b :| Reaches(grid, start, b) && c == (b.x, b.y);
      ReachesInGrid(grid, start, b);
    }
  }

  /** A trace energises at most every cell of the grid. */
  lemma ReachedBound(grid: seq<string>, start: Beam)
    ensures |Reached(grid, start)| <= Width(grid) * |grid|
  {
    RectangleBounds(Reached(grid, start), Width(grid), |grid|);
  }

  /** A beam the trace cannot get past: one it reaches on a tile that is
      missing or that `Deflect` rejects. */
  ghost predicate Blocked(grid: seq<string>, start: Beam)
  {
    exists b :: Reaches(grid, start, b) && Next(grid, b).Err?
  }

  // ------------------------------------------------------------ reachability

  lemma ReachesItself(grid: seq<string>, start: Beam)
    requires InGrid(grid, start.x, start.y)
    ensures Reaches(grid, start, start)
  {
    assert Path(grid, [start]);
  }

  lemma ReachesNext(grid: seq<string>, start: Beam, b: Beam, n: Beam)
    requires Reaches(grid, start, b) && Next(grid, b).Ok? && n in Next(grid, b).value
    requires InGrid(grid, n.x, n.y)
    ensures Reaches(grid, start, n)
  {
    var p: seq<Beam> :| Path(grid, p) && p[0] == start && p[|p| - 1] == b;
    var q := p + [n];
    assert forall i :: 0 <= i < |p| ==> q[i] == p[i];
    assert q[|p|] == n;
    forall i | 0 <= i < |q|
      ensures InGrid(grid, q[i].x, q[i].y)
    {
      if i < |p| {
        assert q[i] == p[i];
      }
    }
    forall i | 0 <= i < |q| - 1
      ensures Next(grid, q[i]).Ok? && q[i + 1] in Next(grid, q[i]).value
    {
      if i < |p| - 1 {
        assert q[i] == p[i] && q[i + 1] == p[i + 1];
      } else {
        assert q[i] == b && q[i + 1] == n;
      }
    }
    assert Path(grid, q);
  }

  /** A set of beams that holds `start` and every in-grid successor of
      its members holds every beam on a path from `start`. */
  lemma {:induction false} ClosedHoldsPath(grid: seq<string>, seen: set<Beam>, p: seq<Beam>)
    requires Path(grid, p) && p[0] in seen
    requires Expanded(grid, seen, {})
    ensures p[|p| - 1] in seen
  {
    if |p| > 1 {
      var q := p[..|p| - 1];
      assert forall i :: 0 <= i < |q| ==> q[i] == p[i];
      assert Path(grid, q);
      ClosedHoldsPath(grid, seen, q);
      assert p[|p| - 1] in Succs(grid, p[|p| - 2]);
    }
  }

  lemma ClosedHoldsReached(grid: seq<string>, start: Beam, seen: set<Beam>)
    requires start in seen
    requires Expanded(grid, seen, {})
    ensures forall b :: Reaches(grid, start, b) ==> b in seen
  {
    forall b | Reaches(grid, start, b)
      ensures b in seen
    {
      var p: seq<Beam> :| Path(grid, p) && p[0] == start && p[|p| - 1] == b;
      ClosedHoldsPath(grid, seen, p);
    }
  }

  /** Only beams in the grid reach or are reached. */
  lemma ReachesInGrid(grid: seq<string>, start: Beam, b: Beam)
    requires Reaches(grid, start, b)
    ensures InGrid(grid, start.x, start.y) && InGrid(grid, b.x, b.y)
  {
    var p: seq<Beam> :| Path(grid, p) && p[0] == start && p[|p| - 1] == b;
    assert InGrid(grid, p[0].x, p[0].y);
    assert InGrid(grid, p[|p| - 1].x, p[|p| - 1].y);
  }

  lemma InBeams(grid: seq<string>, n: Beam)
    requires InGrid(grid, n.x, n.y) && Unit(n.dx, n.dy)
    ensures n in Beams(grid)
  {
    assert -1 <= n.dx <= 1 && -1 <= n.dy <= 1;
  }

  lemma Shrinks<T>(all: set<T>, seen: set<T>, b: T)
    requires b in all && b !in seen
    ensures |all - (seen + {b})| < |all - seen|
  {
    assert all - seen == (all - (seen + {b})) + {b};
  }

  /** The in-grid beams a beam can be: finitely many. */
  function Beams(grid: seq<string>): set<Beam>
  {
    set x, y, dx, dy | 0 <= x < Width(grid) && 0 <= y < |grid| && -1 <= dx <= 1 && -1 <= dy <= 1 && Unit(dx, dy) :: Beam(x, y, dx, dy)
  }

  /** The beams in the grid one step after `b`. */
  function Succs(grid: seq<string>, b: Beam): (r: set<Beam>)
    requires InGrid(grid, b.x, b.y)
    ensures forall n :: n in r <==> Next(grid, b).Ok? && n in Next(grid, b).value && InGrid(grid, n.x, n.y)
  {
    match Next(grid, b)
    case Ok(next) => set n | n in next && InGrid(grid, n.x, n.y)
    case Err(_) => {}
  }

  /** Every beam in `s` is reached from `start`. */
  ghost predicate Sound(grid: seq<string>, start: Beam, s: set<Beam>)
  {
    forall v :: v in s ==> Reaches(grid, start, v)
  }

  /** Every beam in `seen` has been followed one step: its successors in
      the grid are seen or waiting in `work`. */
  ghost predicate Expanded(grid: seq<string>, seen: set<Beam>, work: set<Beam>)
  {
    forall v :: v in seen ==> InGrid(grid, v.x, v.y) && Next(grid, v).Ok? && Succs(grid, v) <= seen + work
  }

  /** Following beam `b` one step keeps the trace's invariant. */
  lemma ExpandStep(grid: seq<string>, start: Beam, seen: set<Beam>, work: set<Beam>, b: Beam)
    requires Sound(grid, start, seen) && Sound(grid, start, work) && Expanded(grid, seen, work)
    requires b in work && b !in seen && Unit(b.dx, b.dy) && InGrid(grid, b.x, b.y) && Next(grid, b).Ok?
    ensures var inside := Succs(grid, b);
      && Sound(grid, start, seen + {b})
      && Sound(grid, start, work - {b} + inside)
      && Expanded(grid, seen + {b}, work - {b} + inside)
      && inside <= Beams(grid)
  {
    var inside := Succs(grid, b);
    forall n | n in inside
      ensures Reaches(grid, start, n) && n in Beams(grid)
    {
      ReachesNext(grid, start, b, n);
      InBeams(grid, n);
    }
  }

  /** A finished trace, holding `start` and closed under following the
      beam, has seen exactly the reached beams and so covers exactly the
      reached cells. */
  lemma FinishedCovers(grid: seq<string>, start: Beam, seen: set<Beam>)
    requires Sound(grid, start, seen) && Expanded(grid, seen, {})
    requires InGrid(grid, start.x, start.y) ==> start in seen
    ensures (set v | v in seen :: (v.x, v.y)) == Reached(grid, start)
    ensures !Blocked(grid, start)
  {
    forall b | Reaches(grid, start, b)
      ensures InGrid(grid, start.x, start.y)
    {
      ReachesInGrid(grid, start, b);
    }
    if InGrid(grid, start.x, start.y) {
      ClosedHoldsReached(grid, start, seen);
    }
    ReachedHas(grid, start);
  }

  /** The trace with a record of every beam it has followed: a beam it has
      seen before is dropped, so the trace always ends. It fails exactly
      when the beam reaches a tile it cannot handle, and otherwise
      energises exactly the reached cells. */
  method Energize(grid: seq<string>, start: Beam) returns (r: Result<set<Cell>>)
    requires Unit(start.dx, start.dy)
    ensures r.Err? <==> Blocked(grid, start)
    ensures r.Ok? ==> r.value == Reached(grid, start)
  {
    var seen: set<Beam> := {};
    var work: set<Beam> := if InGrid(grid, start.x, start.y) then {start} else {};
    if InGrid(grid, start.x, start.y) {
      ReachesItself(grid, start);
      InBeams(grid, start);
    }
    while work != {}
      invariant seen <= Beams(grid) && work <= Beams(grid)
      invariant Sound(grid, start, seen) && Sound(grid, start, work) && Expanded(grid, seen, work)
      invariant InGrid(grid, start.x, start.y) ==> start in seen || start in work
      decreases |Beams(grid) - seen|, |work|
    {
      var b :| b in work;
      if b in seen {
        work := work - {b};
        continue;
      }
      var next := Next(grid, b);
      if next.Err? {
        return Err(next.error);
      }
      ExpandStep(grid, start, seen, work, b);
      Shrinks(Beams(grid), seen, b);
      seen := seen + {b};
      work := work - {b} + Succs(grid, b);
    }
    FinishedCovers(grid, start, seen);
    return Ok(set v | v in seen :: (v.x, v.y));
  }

  // ------------------------------------------------------------ 16.py and 16p2.py

  /** 16.py's answer: the cells energised by a beam entering the top left
      cell heading east (16.py:61-68). An empty grid has no first row. */
  method EnergizedCount(grid: seq<string>) returns (r: Result<nat>)
    ensures |grid| == 0 ==> r == Err(IndexError)
    ensures |grid| > 0 ==> (r.Err? <==> Blocked(grid, Beam(0, 0, 1, 0)))
    ensures r.Ok? ==> r.value == |Reached(grid, Beam(0, 0, 1, 0))| <= Width(grid) * |grid|
  {
    if |grid| == 0 {
      return Err(IndexError);
    }
    var cells :- Energize(grid, Beam(0, 0, 1, 0));
    ReachedBound(grid, Beam(0, 0, 1, 0));
    return Ok(|cells|);
  }

  /** The two starts of each of the first `n` columns: downwards from the
      top edge, then upwards from the bottom edge (16p2.py:55-57). */
  function ColumnStarts(h: int, n: nat): (r: seq<Beam>)
    ensures |r| == 2 * n
    ensures forall b :: b in r <==> (0 <= b.x < n && b.dx == 0
      && ((b.y == 0 && b.dy == 1) || (b.y == h - 1 && b.dy == -1)))
  {
    if n == 0 then [] else ColumnStarts(h, n - 1) + [Beam(n - 1, 0, 0, 1), Beam(n - 1, h - 1, 0, -1)]
  }

  /** The two starts of each of the first `n` rows: rightwards from the
      left edge, then leftwards from the right edge (16p2.py:58-60). */
  function RowStarts(w: int, n: nat): (r: seq<Beam>)
    ensures |r| == 2 * n
    ensures forall b :: b in r <==> (0 <= b.y < n && b.dy == 0
      && ((b.x == 0 && b.dx == 1) || (b.x == w - 1 && b.dx == -1)))
  {
    if n == 0 then [] else RowStarts(w, n - 1) + [Beam(0, n - 1, 1, 0), Beam(w - 1, n - 1, -1, 0)]
  }

  /** `try_traces` in the order it yields (16p2.py:54-60). */
  function EdgeStarts(w: nat, h: nat): (r: seq<Beam>)
    ensures |r| == 2 * w + 2 * h
  {
    ColumnStarts(h, w) + RowStarts(w, h)
  }

  /** The starts are exactly the beams that enter a non-empty grid from
      outside: each sits on the border, heading in from the cell behind it,
      and each such beam is among them. */
  lemma EdgeStartsEnter(w: nat, h: nat, b: Beam)
    requires w > 0 && h > 0
    ensures b in EdgeStarts(w, h) <==>
      && 0 <= b.x < w && 0 <= b.y < h && Unit(b.dx, b.dy)
      && !(0 <= b.x - b.dx < w && 0 <= b.y - b.dy < h)
  {
    assert b in EdgeStarts(w, h) <==> b in ColumnStarts(h, w) || b in RowStarts(w, h);
  }

  /** What taking the maximum over the traces from `starts` yields, one start
      at a time: None once some trace fails, else the largest count so far
      (0 for no starts). */
  ghost function Tally(grid: seq<string>, starts: seq<Beam>): Option<nat>
  {
    if |starts| == 0 then Some(0)
    else
      var prev := Tally(grid, starts[..|starts| - 1]);
      var b := starts[|starts| - 1];
      if prev.None? || Blocked(grid, b) then None
      else if |starts| == 1 || |Reached(grid, b)| > prev.value then Some(|Reached(grid, b)|)
      else prev
  }

  /** The tally fails exactly when some start's trace fails. */
  lemma {:induction false} TallyFails(grid: seq<string>, starts: seq<Beam>)
    ensures Tally(grid, starts).None? <==> exists b :: b in starts && Blocked(grid, b)
  {
    if |starts| > 0 {
      var init := starts[..|starts| - 1];
      TallyFails(grid, init);
      assert starts == init + [starts[|starts| - 1]];
      forall b | b in init ensures b in starts { }
    }
  }

  /** A successful tally is the count of one of the starts and bounds the
      counts of all of them. */
  lemma {:induction false} TallyMax(grid: seq<string>, starts: seq<Beam>)
    requires Tally(grid, starts).Some?
    ensures |starts| > 0 ==> exists b :: b in starts && Tally(grid, starts).value == |Reached(grid, b)|
    ensures forall b :: b in starts ==> |Reached(grid, b)| <= Tally(grid, starts).value
  {
    if |starts| > 0 {
      var init := starts[..|starts| - 1];
      var last := starts[|starts| - 1];
      TallyMax(grid, init);
      assert starts == init + [last];
      if |starts| > 1 {
        assert init[0] in init;
      }
      assert last in starts;
    }
  }

  /** A successful tally is at most the grid's area. */
  lemma {:induction false} TallyBound(grid: seq<string>, starts: seq<Beam>)
    requires Tally(grid, starts).Some?
    ensures Tally(grid, starts).value <= Width(grid) * |grid|
  {
    if |starts| > 0 {
      var last := starts[|starts| - 1];
      TallyBound(grid, starts[..|starts| - 1]);
      ReachedBound(grid, last);
    }
  }

  /** The loop of 16p2.py:71 over the traces of a list of starts. */
  method MostEnergized(grid: seq<string>, starts: seq<Beam>) returns (r: Result<nat>)
    requires forall b | b in starts :: Unit(b.dx, b.dy)
    ensures r.Err? <==> Tally(grid, starts).None?
    ensures r.Ok? ==> Tally(grid, starts) == Some(r.value)
  {
    var best: nat := 0;
    var k := 0;
    while k < |starts|
      invariant k <= |starts|
      invariant Tally(grid, starts[..k]) == Some(best)
    {
      assert starts[..k + 1][..k] == starts[..k];
      var result := Energize(grid, starts[k]);
      if result.Err? {
        TallyFails(grid, starts[..k + 1]);
        assert starts[k] in starts[..k + 1];
        TallyFails(grid, starts);
        return Err(result.error);
      }
      var count := |result.value|;
      if count > best || k == 0 {
        best := count;
      }
      k := k + 1;
    }
    assert starts[..k] == starts;
    return Ok(best);
  }

  /** 16p2.py's answer: the most cells any edge start energises
      (16p2.py:54-71). It fails with the first start the trace fails on. */
  method BestEnergy(grid: seq<string>) returns (r: Result<nat>)
    ensures |grid| == 0 ==> r == Err(IndexError)
    ensures |grid| > 0 ==> (r.Err? <==> exists b :: b in EdgeStarts(Width(grid), |grid|) && Blocked(grid, b))
    ensures r.Ok? ==> exists b :: b in EdgeStarts(Width(grid), |grid|) && r.value == |Reached(grid, b)|
    ensures r.Ok? ==> forall b :: b in EdgeStarts(Width(grid), |grid|) ==> |Reached(grid, b)| <= r.value
    ensures r.Ok? ==> r.value <= Width(grid) * |grid|
  {
    if |grid| == 0 {
      return Err(IndexError);
    }
    var starts := EdgeStarts(Width(grid), |grid|);
    forall b | b in starts
      ensures Unit(b.dx, b.dy)
    {
      assert b in ColumnStarts(|grid|, Width(grid)) || b in RowStarts(Width(grid), |grid|);
    }
    r := MostEnergized(grid, starts);
    TallyFails(grid, starts);
    if r.Ok? {
      TallyMax(grid, starts);
      TallyBound(grid, starts);
    }
  }
}

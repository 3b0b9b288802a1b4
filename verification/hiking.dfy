/**
 * The hiking trails of 23.py: a map of paths `.`, forest `#` and steep
 * slopes `> < ^ v` that may only be walked downhill, searched breadth
 * first over every simple path from the gap in the top row; the answer is
 * the length of the last path found to reach the gap in the bottom row,
 * which the queue's order makes the longest.
 */
module Hiking {
  import opened Outcomes

  /** A cell as (column, row). */
  datatype Pos = Pos(x: int, y: int)

  /** A step (dx, dy). */
  datatype Dir = Dir(dx: int, dy: int)

  /** The map, row by row. */
  type Grid = seq<seq<char>>

  const East := Dir(1, 0)
  const West := Dir(-1, 0)
  const South := Dir(0, 1)
  const North := Dir(0, -1)

  /** `valid_next_directions` (23.py:11-17, 23p2.py:12-18): the steps a cell
      lets the hiker take, in the table's order, or `None` for a character
      the table lacks, where the lookup raises KeyError. */
  function NextDirections(c: char): Option<seq<Dir>>
  {
    if c == '>' then Some([East])
    else if c == '<' then Some([West])
    else if c == '^' then Some([North])
    else if c == 'v' then Some([South])
    else if c == '.' then Some([East, West, South, North])
    else None
  }

  predicate IsUnit(d: Dir)
  {
    d == East || d == West || d == South || d == North
  }

  /** The slope that points along a unit step. */
  function Arrow(d: Dir): char
    requires IsUnit(d)
  {
    if d == East then '>' else if d == West then '<' else if d == South then 'v' else '^'
  }

  /** The characters the table knows. */
  predicate Walkable(c: char)
  {
    c == '.' || c == '>' || c == '<' || c == '^' || c == 'v'
  }

  /** The table knows the path and the four slopes; a cell lets the hiker
      step along a unit step exactly when it is a path or the slope pointing
      that way, and it lists no step twice. */
  lemma NextDirectionsAllow(c: char, d: Dir)
    requires IsUnit(d)
    ensures NextDirections(c).Some? <==> Walkable(c)
    ensures NextDirections(c).Some? ==> (d in NextDirections(c).value <==> c == '.' || c == Arrow(d))
    ensures NextDirections(c).Some? ==>
      var ds := NextDirections(c).value;
      forall i, j :: 0 <= i < j < |ds| ==> ds[i] != ds[j]
  {
  }

  /** `row.index('.')`: the first path cell of a row. */
  function FirstGap(row: seq<char>): (r: Option<nat>)
    ensures r.None? <==> forall i :: 0 <= i < |row| ==> row[i] != '.'
    ensures r.Some? ==> r.value < |row| && row[r.value] == '.' && forall i :: 0 <= i < r.value ==> row[i] != '.'
  {
    if |row| == 0 then None
    else if row[0] == '.' then Some(0)
    else
      match FirstGap(row[1..])
      case None => None
      case Some(i) => Some(i + 1)
  }

  /** The gap of row `y`; `index` raises ValueError when there is none, so
      the `x != -1` assertion after it never fails. */
  function GapIn(grid: Grid, y: nat): (r: Result<Pos>)
    requires y < |grid|
    ensures r.Err? <==> FirstGap(grid[y]).None?
    ensures r.Err? ==> r.error == ValueError
    ensures r.Ok? ==> r.value == Pos(FirstGap(grid[y]).value, y)
  {
    match FirstGap(grid[y])
    case None => Err(ValueError)
    case Some(x) => Ok(Pos(x, y))
  }

  /** `Grid.find_start` (23.py:23-27): the first `.` of the top row; an
      empty map has no row 0 (IndexError). */
  function FindStart(grid: Grid): (r: Result<Pos>)
    ensures |grid| == 0 ==> r == Err(IndexError)
    ensures |grid| > 0 ==> r == GapIn(grid, 0)
  {
    if |grid| == 0 then Err(IndexError) else GapIn(grid, 0)
  }

  /** `Grid.find_end` (23.py:29-33): the first `.` of the bottom row. */
  function FindEnd(grid: Grid): (r: Result<Pos>)
    ensures |grid| == 0 ==> r == Err(IndexError)
    ensures |grid| > 0 ==> r == GapIn(grid, |grid| - 1)
  {
    if |grid| == 0 then Err(IndexError) else GapIn(grid, |grid| - 1)
  }

  /** One entry of the search queue: where the path is, its length, and
      the cells it has already passed. The source shares the set object
      with the first branch and copies it for the others before anything
      mutates it, so every entry behaves as if it had its own set. */
  datatype Walker = Walker(pos: Pos, dist: nat, visited: set<Pos>)

  /** Inside the map. */
  predicate InBounds(grid: Grid, p: Pos)
  {
    0 <= p.y < |grid| && 0 <= p.x < |grid[p.y]|
  }

  /** The steps out of cell `w.pos` along `dirs` (the inner loop of
      `longest_path`, 23.py:47-58): off the map (measured by the first
      row's width), back onto the path itself, or into the forest is
      skipped; each other step is queued one longer, its visited set
      holding the current cell. A row shorter than the first raises
      IndexError. */
  function Moves(grid: Grid, w: Walker, dirs: seq<Dir>): (r: Result<seq<Walker>>)
    ensures r.Err? ==> r.error == IndexError
    ensures r.Ok? ==> forall i :: 0 <= i < |r.value| ==>
      && InBounds(grid, r.value[i].pos) && grid[r.value[i].pos.y][r.value[i].pos.x] != '#'
      && r.value[i].pos !in r.value[i].visited
      && r.value[i].visited == w.visited + {w.pos}
      && r.value[i].dist == w.dist + 1
  {
    if |dirs| == 0 then Ok([])
    else if |grid| == 0 then Err(IndexError)
    else
      var n := Pos(w.pos.x + dirs[0].dx, w.pos.y + dirs[0].dy);
      var seen := w.visited + {w.pos};
      if n.x < 0 || n.x >= |grid[0]| || n.y < 0 || n.y >= |grid| || n in seen then Moves(grid, w, dirs[1..])
      else if n.x >= |grid[n.y]| then Err(IndexError)
      else if grid[n.y][n.x] == '#' then Moves(grid, w, dirs[1..])
      else
        var rest :- Moves(grid, w, dirs[1..]);
        Ok([Walker(n, w.dist + 1, seen)] + rest)
  }

  /** The later of two answers: `None` is no answer yet. */
  function MaxOpt(a: Option<nat>, b: Option<nat>): (r: Option<nat>)
    ensures r.None? <==> a.None? && b.None?
    ensures a.Some? ==> r.Some? && a.value <= r.value
    ensures b.Some? ==> r.Some? && b.value <= r.value
    ensures r.Some? ==> r == a || r == b
  {
    if a.None? then b
    else if b.None? then a
    else if a.value >= b.value then a else b
  }

  /** The `while to_visit` loop of `longest_path` (23.py:37-59) under a
      bound on the entries handled: take the front entry, assert it is not
      on its own path, record its length when it is the end, and queue its
      moves at the back. A negative position, which the search never
      creates, reads as IndexError here where Python would wrap around. */
  function Explore(grid: Grid, end: Pos, queue: seq<Walker>, total: Option<nat>, fuel: nat): Run<Option<nat>>
    decreases fuel
  {
    if |queue| == 0 then Ended(Ok(total))
    else if fuel == 0 then Unfinished
    else
      var w := queue[0];
      if w.pos in w.visited then Ended(Err(AssertionError))
      else
        var t := if w.pos == end then Some(w.dist) else total;
        if !InBounds(grid, w.pos) then Ended(Err(IndexError))
        else
          match NextDirections(grid[w.pos.y][w.pos.x])
          case None => Ended(Err(KeyError))
          case Some(dirs) =>
            match Moves(grid, w, dirs)
            case Err(e) => Ended(Err(e))
            case Ok(next) => Explore(grid, end, queue[1..] + next, t, fuel - 1)
  }

  /** `Grid.longest_path(find_start(), find_end())` as `main` runs it
      (23.py:61-67), with `None` when the end is never reached. */
  function LongestPath(grid: Grid, fuel: nat): Run<Option<nat>>
  {
    match FindStart(grid)
    case Err(e) => Ended(Err(e))
    case Ok(start) =>
      match FindEnd(grid)
      case Err(e) => Ended(Err(e))
      case Ok(end) => Explore(grid, end, [Walker(start, 0, {})], None, fuel)
  }

  // ---------------------------------------------------------------------
  // The reference: the longest simple path, by recursion over paths.

  /** Every row as wide as the first, and every cell forest or a
      character the table knows. */
  predicate WellFormed(grid: Grid)
  {
    && |grid| > 0
    && (forall y :: 0 <= y < |grid| ==> |grid[y]| == |grid[0]|)
    && (forall y, x :: 0 <= y < |grid| && 0 <= x < |grid[y]| ==> grid[y][x] == '#' || Walkable(grid[y][x]))
  }

  /** A queue entry the search can be on: on the map, out of the forest,
      not yet on its own path. */
  predicate Valid(grid: Grid, w: Walker)
  {
    InBounds(grid, w.pos) && grid[w.pos.y][w.pos.x] != '#' && w.pos !in w.visited
  }

  /** The cells of the map. */
  function Cells(grid: Grid): set<Pos>
  {
    set y, x | 0 <= y < |grid| && 0 <= x < |grid[y]| :: Pos(x, y)
  }

  /** The steps the cell under a valid entry allows. */
  function DirsAt(grid: Grid, w: Walker): seq<Dir>
    requires WellFormed(grid) && Valid(grid, w)
  {
    NextDirections(grid[w.pos.y][w.pos.x]).value
  }

  /** On a well-formed map the moves never fail. */
  lemma MovesOk(grid: Grid, w: Walker, dirs: seq<Dir>)
    requires WellFormed(grid)
    ensures Moves(grid, w, dirs).Ok?
    decreases |dirs|
  {
    if |dirs| > 0 {
      MovesOk(grid, w, dirs[1..]);
    }
  }

  /** A valid entry's cell leaves fewer unvisited cells to its moves. */
  lemma Shrinks(grid: Grid, w: Walker)
    requires Valid(grid, w)
    ensures |Cells(grid) - (w.visited + {w.pos})| < |Cells(grid) - w.visited|
  {
    assert w.pos in Cells(grid) - w.visited;
    assert Cells(grid) - (w.visited + {w.pos}) == (Cells(grid) - w.visited) - {w.pos};
  }

  /** The length of the longest simple path on from entry `w` that ends at
      `end`, counting the steps already taken, or `None` when no path on
      from `w` reaches it. */
  function LongestFrom(grid: Grid, end: Pos, w: Walker): Option<nat>
    requires WellFormed(grid) && Valid(grid, w)
    decreases |Cells(grid) - w.visited|, 0
  {
    MovesOk(grid, w, DirsAt(grid, w));
    Shrinks(grid, w);
    var next := Moves(grid, w, DirsAt(grid, w)).value;
    MaxOpt(if w.pos == end then Some(w.dist) else None, LongestAll(grid, end, next, w.visited + {w.pos}))
  }

  /** The longest over sibling entries sharing the visited set `seen`. */
  function LongestAll(grid: Grid, end: Pos, ws: seq<Walker>, seen: set<Pos>): Option<nat>
    requires WellFormed(grid)
    requires forall i :: 0 <= i < |ws| ==> Valid(grid, ws[i]) && ws[i].visited == seen
    decreases |Cells(grid) - seen|, 1, |ws|
  {
    if |ws| == 0 then None
    else MaxOpt(LongestFrom(grid, end, ws[0]), LongestAll(grid, end, ws[1..], seen))
  }

  /** The longest over every entry of a queue. */
  function LongestQueue(grid: Grid, end: Pos, queue: seq<Walker>): Option<nat>
    requires WellFormed(grid)
    requires forall i :: 0 <= i < |queue| ==> Valid(grid, queue[i])
  {
    if |queue| == 0 then None
    else MaxOpt(LongestFrom(grid, end, queue[0]), LongestQueue(grid, end, queue[1..]))
  }

  lemma {:induction false} AllIsQueue(grid: Grid, end: Pos, ws: seq<Walker>, seen: set<Pos>)
    requires WellFormed(grid)
    requires forall i :: 0 <= i < |ws| ==> Valid(grid, ws[i]) && ws[i].visited == seen
    ensures LongestAll(grid, end, ws, seen) == LongestQueue(grid, end, ws)
    decreases |ws|
  {
    if |ws| > 0 {
      AllIsQueue(grid, end, ws[1..], seen);
    }
  }

  lemma {:induction false} QueueAppend(grid: Grid, end: Pos, a: seq<Walker>, b: seq<Walker>)
    requires WellFormed(grid)
    requires forall i :: 0 <= i < |a| ==> Valid(grid, a[i])
    requires forall i :: 0 <= i < |b| ==> Valid(grid, b[i])
    ensures LongestQueue(grid, end, a + b) == MaxOpt(LongestQueue(grid, end, a), LongestQueue(grid, end, b))
    decreases |a|
  {
    if |a| > 0 {
      assert (a + b)[1..] == a[1..] + b;
      QueueAppend(grid, end, a[1..], b);
      MaxOptAssoc(LongestFrom(grid, end, a[0]), LongestQueue(grid, end, a[1..]), LongestQueue(grid, end, b));
    } else {
      assert a + b == b;
    }
  }

  /** Recording a length no shorter than the answer so far replaces it;
      recording nothing keeps it. */
  lemma RecordEnd(total: Option<nat>, d: nat)
    ensures total.Some? && total.value <= d ==> MaxOpt(total, Some(d)) == Some(d)
    ensures total.None? ==> MaxOpt(total, Some(d)) == Some(d)
    ensures MaxOpt(total, None) == total
  {
  }

  lemma MaxOptAssoc(a: Option<nat>, b: Option<nat>, c: Option<nat>)
    ensures MaxOpt(a, MaxOpt(b, c)) == MaxOpt(MaxOpt(a, b), c)
  {
  }

  /** The breadth-first order: lengths never fall along the queue, and the
      back is at most one longer than the front. */
  predicate FifoOrder(queue: seq<Walker>)
  {
    && (forall i, j :: 0 <= i <= j < |queue| ==> queue[i].dist <= queue[j].dist)
    && (|queue| > 0 ==> queue[|queue| - 1].dist <= queue[0].dist + 1)
  }

  /** Every queued path is at least as long as the answer so far. */
  predicate NotShorter(queue: seq<Walker>, total: Option<nat>)
  {
    total.Some? ==> forall i :: 0 <= i < |queue| ==> total.value <= queue[i].dist
  }

  /** Handling the front entry keeps the queue in breadth-first order. */
  lemma StepKeepsOrder(queue: seq<Walker>, next: seq<Walker>, total: Option<nat>, t: Option<nat>)
    requires |queue| > 0 && FifoOrder(queue) && NotShorter(queue, total)
    requires forall i :: 0 <= i < |next| ==> next[i].dist == queue[0].dist + 1
    requires t == total || t == Some(queue[0].dist)
    ensures FifoOrder(queue[1..] + next) && NotShorter(queue[1..] + next, t)
  {
    var q := queue[1..] + next;
    forall i | 0 <= i < |q|
      ensures queue[0].dist <= q[i].dist <= queue[0].dist + 1
    {
      if i < |queue| - 1 {
        assert q[i] == queue[i + 1];
      } else {
        assert q[i] == next[i - (|queue| - 1)];
      }
    }
  }

  /** Two answers, folded three ways, agree. */
  lemma MaxOptShuffle(t: Option<nat>, h: Option<nat>, a: Option<nat>, b: Option<nat>)
    ensures MaxOpt(t, MaxOpt(MaxOpt(h, a), b)) == MaxOpt(MaxOpt(t, h), MaxOpt(b, a))
  {
  }

  /** The search computes the reference: on a well-formed map, with the
      queue in breadth-first order, when the loop ends it ends without an
      error and with the longer of the answer so far and the longest path
      on from any queued entry. Breadth-first order is what makes keeping
      the last length found the same as keeping the longest. */
  lemma {:induction false} ExploreIsLongest(grid: Grid, end: Pos, queue: seq<Walker>, total: Option<nat>, fuel: nat)
    requires WellFormed(grid)
    requires forall i :: 0 <= i < |queue| ==> Valid(grid, queue[i])
    requires FifoOrder(queue) && NotShorter(queue, total)
    requires Explore(grid, end, queue, total, fuel).Ended?
    ensures Explore(grid, end, queue, total, fuel) == Ended(Ok(MaxOpt(total, LongestQueue(grid, end, queue))))
    decreases fuel
  {
    if |queue| > 0 {
      var w := queue[0];
      MovesOk(grid, w, DirsAt(grid, w));
      var next := Moves(grid, w, DirsAt(grid, w)).value;
      var t := if w.pos == end then Some(w.dist) else total;
      assert Explore(grid, end, queue, total, fuel) == Explore(grid, end, queue[1..] + next, t, fuel - 1);
      StepKeepsOrder(queue, next, total, t);
      ExploreIsLongest(grid, end, queue[1..] + next, t, fuel - 1);
      FrontStep(grid, end, queue, total);
    }
  }

  /** Replacing the front entry by its moves, and recording it when it is
      the end, leaves the combined answer unchanged. */
  lemma FrontStep(grid: Grid, end: Pos, queue: seq<Walker>, total: Option<nat>)
    requires WellFormed(grid) && |queue| > 0
    requires forall i :: 0 <= i < |queue| ==> Valid(grid, queue[i])
    requires NotShorter(queue, total)
    ensures Moves(grid, queue[0], DirsAt(grid, queue[0])).Ok?
    ensures var w := queue[0];
      var next := Moves(grid, w, DirsAt(grid, w)).value;
      var t := if w.pos == end then Some(w.dist) else total;
      && (forall i :: 0 <= i < |queue[1..] + next| ==> Valid(grid, (queue[1..] + next)[i]))
      && MaxOpt(t, LongestQueue(grid, end, queue[1..] + next)) == MaxOpt(total, LongestQueue(grid, end, queue))
  {
    var w := queue[0];
    MovesOk(grid, w, DirsAt(grid, w));
    var next := Moves(grid, w, DirsAt(grid, w)).value;
    var t := if w.pos == end then Some(w.dist) else total;
    var rest := LongestQueue(grid, end, queue[1..]);
    var more := LongestQueue(grid, end, next);
    QueueAppend(grid, end, queue[1..], next);
    AllIsQueue(grid, end, next, w.visited + {w.pos});
    var here := if w.pos == end then Some(w.dist) else None;
    assert LongestFrom(grid, end, w) == MaxOpt(here, more);
    assert MaxOpt(total, here) == t by {
      if w.pos == end {
        assert total.Some? ==> total.value <= queue[0].dist;
        RecordEnd(total, w.dist);
      } else {
        RecordEnd(total, 0);
      }
    }
    MaxOptShuffle(total, here, more, rest);
  }

  /** End to end: on a well-formed map whose top and bottom rows have a
      gap, `longest_path` answers the length of the longest simple path
      from the start gap to the end gap (`None` when there is none) once
      its loop ends; without a gap it raises ValueError. */
  lemma LongestPathIsLongest(grid: Grid, fuel: nat)
    requires WellFormed(grid)
    requires LongestPath(grid, fuel).Ended?
    ensures FindStart(grid).Err? || FindEnd(grid).Err? <==> LongestPath(grid, fuel) == Ended(Err(ValueError))
    ensures FindStart(grid).Ok? && FindEnd(grid).Ok? ==>
      var start := Walker(FindStart(grid).value, 0, {});
      && Valid(grid, start)
      && LongestPath(grid, fuel) == Ended(Ok(LongestFrom(grid, FindEnd(grid).value, start)))
  {
    if FindStart(grid).Ok? && FindEnd(grid).Ok? {
      var start := Walker(FindStart(grid).value, 0, {});
      var end := FindEnd(grid).value;
      ExploreIsLongest(grid, end, [start], None, fuel);
      assert LongestQueue(grid, end, [start]) == MaxOpt(LongestFrom(grid, end, start), None);
    }
  }

  /** Whatever the map, the search's assertion (23.py:42) never fires: no
      queued path stands on a cell it has already passed. */
  lemma {:induction false} NeverRevisits(grid: Grid, end: Pos, queue: seq<Walker>, total: Option<nat>, fuel: nat)
    requires forall i :: 0 <= i < |queue| ==> queue[i].pos !in queue[i].visited
    ensures Explore(grid, end, queue, total, fuel) != Ended(Err(AssertionError))
    decreases fuel
  {
    if |queue| > 0 && fuel > 0 && InBounds(grid, queue[0].pos) {
      var w := queue[0];
      var t := if w.pos == end then Some(w.dist) else total;
      var dirs := NextDirections(grid[w.pos.y][w.pos.x]);
      if dirs.Some? && Moves(grid, w, dirs.value).Ok? {
        var q := queue[1..] + Moves(grid, w, dirs.value).value;
        assert forall i :: 0 <= i < |q| ==> q[i].pos !in q[i].visited by {
          forall i | 0 <= i < |q|
            ensures q[i].pos !in q[i].visited
          {
            if i < |queue| - 1 {
              assert q[i] == queue[i + 1];
            }
          }
        }
        NeverRevisits(grid, end, q, t, fuel - 1);
      }
    }
  }

  /** The reference counts the path itself: any answer is at least the
      length already walked, and an entry at the end is an answer. */
  lemma {:induction false} LongestAtLeast(grid: Grid, end: Pos, w: Walker)
    requires WellFormed(grid) && Valid(grid, w)
    ensures w.pos == end ==> LongestFrom(grid, end, w).Some?
    ensures LongestFrom(grid, end, w).Some? ==> LongestFrom(grid, end, w).value >= w.dist
    decreases |Cells(grid) - w.visited|, 0
  {
    MovesOk(grid, w, DirsAt(grid, w));
    Shrinks(grid, w);
    var next := Moves(grid, w, DirsAt(grid, w)).value;
    AllAtLeast(grid, end, next, w.visited + {w.pos}, w.dist + 1);
  }

  lemma {:induction false} AllAtLeast(grid: Grid, end: Pos, ws: seq<Walker>, seen: set<Pos>, d: nat)
    requires WellFormed(grid)
    requires forall i :: 0 <= i < |ws| ==> Valid(grid, ws[i]) && ws[i].visited == seen && ws[i].dist == d
    ensures LongestAll(grid, end, ws, seen).Some? ==> LongestAll(grid, end, ws, seen).value >= d
    decreases |Cells(grid) - seen|, 1, |ws|
  {
    if |ws| > 0 {
      LongestAtLeast(grid, end, ws[0]);
      AllAtLeast(grid, end, ws[1..], seen, d);
    }
  }
}

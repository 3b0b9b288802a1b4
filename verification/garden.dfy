/**
 * The step counter's garden (21.py, and the searches 21p2.py shares with
 * it): a breadth-first search from a start cell that hands each visited
 * cell its remaining step budget and counts the cells whose budget is even,
 * the cells the walker can stand on after exactly the full number of steps.
 *
 * The search comes in two layouts: bounded by the map (21.py and
 * `_count_reachable_plots` of 21p2.py) and repeated endlessly in every
 * direction (`_count_reachable_plots_wrap` and its `_items` twin).
 */
module Garden {
  import opened Outcomes

  /** A cell as (column, row). */
  datatype Pos = Pos(x: int, y: int)

  /** The map, row by row, as `[[c for c in line] ...]` reads it. */
  type Grid = seq<seq<char>>

  /** Every row as long as the first. */
  predicate Rectangular(grid: Grid)
  {
    |grid| > 0 && forall y :: 0 <= y < |grid| ==> |grid[y]| == |grid[0]|
  }

  /** The first `S` of one row from column `x` on. */
  function FindInRow(row: seq<char>, x: nat): (r: Option<nat>)
    requires x <= |row|
    ensures r.None? <==> forall i :: x <= i < |row| ==> row[i] != 'S'
    ensures r.Some? ==> (x <= r.value < |row| && row[r.value] == 'S'
                         && forall i :: x <= i < r.value ==> row[i] != 'S')
    decreases |row| - x
  {
    if x == |row| then None
    else if row[x] == 'S' then Some(x)
    else FindInRow(row, x + 1)
  }

  /** The nested search loop of `count_reachable_plots` (and
      `find_labelled_start` of 21p2.py), from row `y` on: the first `S` in
      reading order. */
  function FindStartFrom(grid: Grid, y: nat): (r: Option<Pos>)
    requires y <= |grid|
    ensures r.None? <==> forall j, i :: y <= j < |grid| && 0 <= i < |grid[j]| ==> grid[j][i] != 'S'
    ensures r.Some? ==> (y <= r.value.y < |grid| && 0 <= r.value.x < |grid[r.value.y]|
                         && grid[r.value.y][r.value.x] == 'S')
    ensures r.Some? ==> forall j, i :: y <= j < |grid| && 0 <= i < |grid[j]| && grid[j][i] == 'S' ==>
      j > r.value.y || (j == r.value.y && i >= r.value.x)
    decreases |grid| - y
  {
    if y == |grid| then None
    else
      match FindInRow(grid[y], 0)
      case Some(x) => Some(Pos(x, y))
      case None => FindStartFrom(grid, y + 1)
  }

  /** The first `S` in reading order, or `None` where the source raises
      `ValueError('No starting position found')`. */
  function FindStart(grid: Grid): (r: Option<Pos>)
    ensures r.None? <==> forall j, i :: 0 <= j < |grid| && 0 <= i < |grid[j]| ==> grid[j][i] != 'S'
    ensures r.Some? ==> (0 <= r.value.y < |grid| && 0 <= r.value.x < |grid[r.value.y]|
                         && grid[r.value.y][r.value.x] == 'S')
    ensures r.Some? ==> forall j, i :: 0 <= j < |grid| && 0 <= i < |grid[j]| && grid[j][i] == 'S' ==>
      j > r.value.y || (j == r.value.y && i >= r.value.x)
  {
    FindStartFrom(grid, 0)
  }

  /** Confined to the map, or the map repeated in every direction. */
  datatype Layout = Bounded | Wrapped

  /** The cells of the map that are not rock. */
  function Open(grid: Grid): set<Pos>
  {
    set y, x | 0 <= y < |grid| && 0 <= x < |grid[y]| && grid[y][x] != '#' :: Pos(x, y)
  }

  /** A cell the search may step onto: inside the map (inside the first
      row's width, and inside its own row) and not rock; in the repeated
      layout, the map cell it repeats (Python's `%` with a positive divisor
      is never negative, as Dafny's is) is not rock. */
  predicate Enterable(layout: Layout, grid: Grid, p: Pos)
  {
    match layout
    case Bounded =>
      |grid| > 0 && 0 <= p.x < |grid[0]| && 0 <= p.y < |grid| && p.x < |grid[p.y]| && grid[p.y][p.x] != '#'
    case Wrapped =>
      |grid| > 0 && |grid[0]| > 0 && p.x % |grid[0]| < |grid[p.y % |grid|]|
      && grid[p.y % |grid|][p.x % |grid[0]|] != '#'
  }

  /** The checks on one neighbour, in the source's order: whether it is
      queued, or the exception reading the map raises. Bounded: the width
      is `len(grid[0])`, then the bounds, the visited set, and the cell.
      Repeated: the visited set, then the cell at the wrapped position. */
  function Probe(layout: Layout, grid: Grid, visited: map<Pos, int>, q: Pos): (r: Result<bool>)
    ensures r.Err? ==> r.error == IndexError || (layout == Wrapped && r.error == ZeroDivisionError)
    ensures r == Ok(true) <==> q !in visited && Enterable(layout, grid, q)
    ensures Rectangular(grid) && (layout == Wrapped ==> |grid[0]| > 0) ==> r.Ok?
  {
    match layout
    case Bounded =>
      if |grid| == 0 then Err(IndexError)
      else if q.x < 0 || q.x >= |grid[0]| then Ok(false)
      else if q.y < 0 || q.y >= |grid| then Ok(false)
      else if q in visited then Ok(false)
      else if q.x >= |grid[q.y]| then Err(IndexError)
      else Ok(grid[q.y][q.x] != '#')
    case Wrapped =>
      if q in visited then Ok(false)
      else if |grid| == 0 then Err(IndexError)
      else if |grid[0]| == 0 then Err(ZeroDivisionError)
      else
        var row := grid[q.y % |grid|];
        if q.x % |grid[0]| >= |row| then Err(IndexError)
        else Ok(row[q.x % |grid[0]|] != '#')
  }

  /** The four moves, in the source's order: east, west, south, north. */
  const Moves: seq<(int, int)> := [(1, 0), (-1, 0), (0, 1), (0, -1)]

  /** The neighbour loop over `moves`: each neighbour that passes the
      checks is queued with one step less; the first failing check aborts. */
  function Expand(layout: Layout, grid: Grid, visited: map<Pos, int>, pos: Pos, dist: int,
                  moves: seq<(int, int)>): (r: Result<seq<(Pos, int)>>)
    ensures r.Err? ==> r.error == IndexError || (layout == Wrapped && r.error == ZeroDivisionError)
    ensures r.Ok? ==> |r.value| <= |moves|
    ensures r.Ok? ==> forall i :: 0 <= i < |r.value| ==>
      r.value[i].1 == dist - 1 && r.value[i].0 !in visited && Enterable(layout, grid, r.value[i].0)
    ensures r.Ok? ==> forall i :: 0 <= i < |moves| ==>
      var q := Pos(pos.x + moves[i].0, pos.y + moves[i].1);
      q !in visited && Enterable(layout, grid, q) ==> (q, dist - 1) in r.value
    ensures Rectangular(grid) && (layout == Wrapped ==> |grid[0]| > 0) ==> r.Ok?
  {
    if |moves| == 0 then Ok([])
    else
      var q := Pos(pos.x + moves[0].0, pos.y + moves[0].1);
      var take :- Probe(layout, grid, visited, q);
      var rest :- Expand(layout, grid, visited, pos, dist, moves[1..]);
      assert forall i :: 1 <= i < |moves| ==> moves[i] == moves[1..][i - 1];
      Ok((if take then [(q, dist - 1)] else []) + rest)
  }

  /** The cells counted so far: those whose budget was even when first reached. */
  function Counted(reached: map<Pos, int>): set<Pos>
  {
    set p | p in reached && reached[p] % 2 == 0
  }

  /** The budget a cell had when it was first dequeued, if ever. */
  function First(popped: seq<(Pos, int)>, p: Pos): (r: Option<int>)
    ensures r.None? <==> forall i :: 0 <= i < |popped| ==> popped[i].0 != p
  {
    if |popped| == 0 then None
    else if popped[0].0 == p then Some(popped[0].1)
    else First(popped[1..], p)
  }

  lemma {:induction false} FirstAppend(popped: seq<(Pos, int)>, e: (Pos, int), p: Pos)
    ensures First(popped + [e], p) == if First(popped, p).Some? then First(popped, p)
                                     else if e.0 == p then Some(e.1) else None
  {
    if |popped| > 0 {
      assert (popped + [e])[1..] == popped[1..] + [e];
      FirstAppend(popped[1..], e, p);
    }
  }

  /** The budgets in dequeue order never go up. */
  predicate NonIncreasing(popped: seq<(Pos, int)>)
  {
    forall i, j :: 0 <= i < j < |popped| ==> popped[i].1 >= popped[j].1
  }

  /** A pulse budget large enough for a bounded search to finish. */
  function Budget(grid: Grid, start: Pos): nat
  {
    4 * |Open(grid) + {start}| + 1
  }

  lemma SubsetSize<T>(a: set<T>, b: set<T>)
    requires a <= b
    ensures |a| <= |b|
  {
    assert b == a + (b - a);
  }

  /** The state of the breadth-first search between dequeues: the queue,
      each visited cell with its budget, the number of cells counted, the
      counted cells themselves (the `_items` twin's set), and the dequeued
      entries in order. */
  datatype Walk = Walk(queue: seq<(Pos, int)>, visited: map<Pos, int>, count: nat, plots: set<Pos>,
                       popped: seq<(Pos, int)>)

  /** The search before its first dequeue. */
  function Begin(start: Pos, maxDistance: int): Walk
  {
    Walk([(start, maxDistance)], map[], 0, {}, [])
  }

  /** One turn of the search loop shared by 21.py and 21p2.py: take the
      front of the queue, skip it if already visited, else mark it visited
      with its budget, count it when that budget is even, and unless the
      budget is spent queue its neighbours with one step less. */
  function Step(layout: Layout, grid: Grid, w: Walk): (r: Result<Walk>)
    requires |w.queue| > 0
    ensures r.Err? ==> r.error == IndexError || (layout == Wrapped && r.error == ZeroDivisionError)
    ensures Rectangular(grid) && (layout == Wrapped ==> |grid[0]| > 0) ==> r.Ok?
    ensures r.Ok? ==> r.value.popped == w.popped + [w.queue[0]]
  {
    var (pos, dist) := w.queue[0];
    var popped := w.popped + [w.queue[0]];
    if pos in w.visited then Ok(Walk(w.queue[1..], w.visited, w.count, w.plots, popped))
    else
      var visited := w.visited[pos := dist];
      var count := if dist % 2 == 0 then w.count + 1 else w.count;
      var plots := if dist % 2 == 0 then w.plots + {pos} else w.plots;
      if dist == 0 then Ok(Walk(w.queue[1..], visited, count, plots, popped))
      else
        var children :- Expand(layout, grid, visited, pos, dist, Moves);
        Ok(Walk(w.queue[1..] + children, visited, count, plots, popped))
  }

  /** A turn function, defined wherever the queue is not empty. */
  ghost predicate Turns(step: Walk --> Result<Walk>)
  {
    forall v: Walk :: |v.queue| > 0 ==> step.requires(v)
  }

  /** The search loop under a bound of `fuel` more turns: it ends when the
      queue is empty, and fails with the first exception a turn raises. */
  function Iterate(step: Walk --> Result<Walk>, w: Walk, fuel: nat): (r: Run<Walk>)
    requires Turns(step)
    ensures r.Ended? && r.outcome.Ok? ==> |r.outcome.value.queue| == 0
    decreases fuel
  {
    if |w.queue| == 0 then Ended(Ok(w))
    else if fuel == 0 then Unfinished
    else
      match step(w)
      case Err(e) => Ended(Err(e))
      case Ok(next) => Iterate(step, next, fuel - 1)
  }

  /** The turn of the search loop in a given layout and map. */
  function Turn(layout: Layout, grid: Grid): (r: Walk --> Result<Walk>)
    ensures Turns(r)
  {
    (v: Walk) requires |v.queue| > 0 => Step(layout, grid, v)
  }

  /** The loop fails only with exceptions its turns raise. */
  lemma {:induction false} IterateFails(step: Walk --> Result<Walk>, w: Walk, fuel: nat, allowed: Error -> bool)
    requires Turns(step)
    requires forall v: Walk :: |v.queue| > 0 && step(v).Err? ==> allowed(step(v).error)
    ensures var r := Iterate(step, w, fuel); r.Ended? && r.outcome.Err? ==> allowed(r.outcome.error)
    decreases fuel
  {
    if |w.queue| > 0 && fuel > 0 && step(w).Ok? {
      IterateFails(step, step(w).value, fuel - 1, allowed);
    }
  }

  /** Whatever one turn keeps, the whole loop keeps. */
  lemma {:induction false} IterateKeeps(step: Walk --> Result<Walk>, w: Walk, fuel: nat, keep: Walk -> bool)
    requires Turns(step) && keep(w)
    requires forall v: Walk :: |v.queue| > 0 && step(v).Ok? && keep(v) ==> keep(step(v).value)
    ensures var r := Iterate(step, w, fuel); r.Ended? && r.outcome.Ok? ==> keep(r.outcome.value)
    decreases fuel
  {
    if |w.queue| > 0 && fuel > 0 && step(w).Ok? {
      IterateKeeps(step, step(w).value, fuel - 1, keep);
    }
  }

  /** A loop whose turns each dequeue one entry and keep `inv`, under
      which dequeued and queued entries together never exceed `cap`, runs
      to the end within `cap` turns in all. */
  lemma {:induction false} IterateEnds(step: Walk --> Result<Walk>, w: Walk, fuel: nat, inv: Walk -> bool, cap: nat)
    requires Turns(step) && inv(w)
    requires forall v: Walk :: |v.queue| > 0 && step(v).Ok? && inv(v) ==>
      inv(step(v).value) && |step(v).value.popped| == |v.popped| + 1
    requires forall v: Walk :: inv(v) ==> |v.popped| + |v.queue| <= cap
    ensures |w.popped| + fuel >= cap ==> Iterate(step, w, fuel).Ended?
    decreases fuel
  {
    if |w.queue| > 0 && fuel > 0 && step(w).Ok? {
      IterateEnds(step, step(w).value, fuel - 1, inv, cap);
    }
  }

  /** The budget of the last dequeued entry, or the full budget before any. */
  function Last(w: Walk, maxDistance: int): int
  {
    if |w.popped| == 0 then maxDistance else w.popped[|w.popped| - 1].1
  }

  /** The counter and the counted set agree, and hold the visited cells
      with an even budget. */
  predicate Tallied(w: Walk)
  {
    w.count == |w.plots| && w.plots == Counted(w.visited)
  }

  /** Breadth-first order: the search starts from the start cell with the
      full budget, dequeues budgets that never go up, and holds in its
      queue, in non-increasing order, budgets at most one below the last
      dequeued. */
  predicate Ordered(w: Walk, start: Pos, maxDistance: int)
  {
    var last := Last(w, maxDistance);
    (|w.popped| == 0 ==> w.queue == [(start, maxDistance)])
    && (|w.popped| > 0 ==> w.popped[0] == (start, maxDistance))
    && NonIncreasing(w.popped)
    && last <= maxDistance
    && (forall i :: 0 <= i < |w.queue| ==> last - 1 <= w.queue[i].1 <= last)
    && (forall i, j :: 0 <= i < j < |w.queue| ==> w.queue[i].1 >= w.queue[j].1)
  }

  /** Every queued and visited budget is within the full budget, and not
      below zero when the full budget is not. */
  predicate Within(w: Walk, maxDistance: int)
  {
    (forall i :: 0 <= i < |w.queue| ==> w.queue[i].1 <= maxDistance && (maxDistance >= 0 ==> w.queue[i].1 >= 0))
    && (forall p :: p in w.visited ==> w.visited[p] <= maxDistance && (maxDistance >= 0 ==> w.visited[p] >= 0))
  }

  /** Each visited cell keeps the budget it was first dequeued with. */
  ghost predicate Recorded(w: Walk)
  {
    forall p :: First(w.popped, p) == if p in w.visited then Some(w.visited[p]) else None
  }

  /** Every cell visited or queued, but the start, may be stepped onto. */
  ghost predicate Placed(layout: Layout, grid: Grid, start: Pos, w: Walk)
  {
    (forall p :: p in w.visited && p != start ==> Enterable(layout, grid, p))
    && (forall i :: 0 <= i < |w.queue| && w.queue[i].0 != start ==> Enterable(layout, grid, w.queue[i].0))
  }

  /** Each visited cell queues at most four neighbours, once. */
  predicate Sized(w: Walk)
  {
    |w.popped| + |w.queue| <= 4 * |w.visited| + 1
  }

  lemma StepTallied(layout: Layout, grid: Grid, w: Walk)
    requires |w.queue| > 0 && Step(layout, grid, w).Ok? && Tallied(w)
    ensures Tallied(Step(layout, grid, w).value)
  {
    var (pos, dist) := w.queue[0];
    if pos !in w.visited {
      var visited := w.visited[pos := dist];
      if dist % 2 == 0 {
        assert pos !in w.plots;
        assert Counted(visited) == Counted(w.visited) + {pos};
      } else {
        assert Counted(visited) == Counted(w.visited);
      }
    }
  }

  lemma StepOrdered(layout: Layout, grid: Grid, start: Pos, maxDistance: int, w: Walk)
    requires |w.queue| > 0 && Step(layout, grid, w).Ok? && Ordered(w, start, maxDistance)
    ensures Ordered(Step(layout, grid, w).value, start, maxDistance)
  {
    var next := Step(layout, grid, w).value;
    var dist := w.queue[0].1;
    assert Last(next, maxDistance) == dist;
    assert NonIncreasing(next.popped) by {
      if |w.popped| > 0 {
        assert w.popped[|w.popped| - 1].1 >= dist;
      }
    }
    assert forall i :: 0 <= i < |next.queue| ==> dist - 1 <= next.queue[i].1 <= dist by {
      forall i | 0 <= i < |w.queue| - 1
        ensures dist - 1 <= w.queue[1..][i].1 <= dist
      {
        assert w.queue[1..][i] == w.queue[i + 1];
      }
    }
  }

  lemma StepWithin(layout: Layout, grid: Grid, maxDistance: int, w: Walk)
    requires |w.queue| > 0 && Step(layout, grid, w).Ok? && Within(w, maxDistance)
    ensures Within(Step(layout, grid, w).value, maxDistance)
  {
    var next := Step(layout, grid, w).value;
    var (pos, dist) := w.queue[0];
    assert dist <= maxDistance && (maxDistance >= 0 ==> dist >= 0);
    forall i | 0 <= i < |next.queue|
      ensures next.queue[i].1 <= maxDistance && (maxDistance >= 0 ==> next.queue[i].1 >= 0)
    {
      if i < |w.queue| - 1 {
        assert next.queue[i] == w.queue[i + 1];
      }
    }
    if pos !in w.visited {
      assert next.visited == w.visited[pos := dist];
    }
  }

  lemma StepRecorded(layout: Layout, grid: Grid, w: Walk)
    requires |w.queue| > 0 && Step(layout, grid, w).Ok? && Recorded(w)
    ensures Recorded(Step(layout, grid, w).value)
  {
    var next := Step(layout, grid, w).value;
    var (pos, dist) := w.queue[0];
    FirstAppendAll(w.popped, w.queue[0]);
    if pos in w.visited {
      assert next.visited == w.visited;
    } else {
      assert next.visited == w.visited[pos := dist];
    }
  }

  lemma StepPlaced(layout: Layout, grid: Grid, start: Pos, w: Walk)
    requires |w.queue| > 0 && Step(layout, grid, w).Ok? && Placed(layout, grid, start, w)
    ensures Placed(layout, grid, start, Step(layout, grid, w).value)
  {
    var next := Step(layout, grid, w).value;
    forall i | 0 <= i < |next.queue| && next.queue[i].0 != start
      ensures Enterable(layout, grid, next.queue[i].0)
    {
      if i < |w.queue| - 1 {
        assert next.queue[i] == w.queue[i + 1];
      }
    }
  }

  lemma StepSized(layout: Layout, grid: Grid, w: Walk)
    requires |w.queue| > 0 && Step(layout, grid, w).Ok? && Sized(w)
    ensures Sized(Step(layout, grid, w).value)
  {
    var pos := w.queue[0].0;
    if pos !in w.visited {
      assert (w.visited[pos := w.queue[0].1]).Keys == w.visited.Keys + {pos};
    }
  }

  /** The search loop fails only with the exceptions a probe raises, and
      never on a rectangular map (of positive width, when repeated). */
  lemma ExploreFails(layout: Layout, grid: Grid, w: Walk, fuel: nat)
    ensures var r := Iterate(Turn(layout, grid), w, fuel); r.Ended? && r.outcome.Err? ==>
      r.outcome.error == IndexError || (layout == Wrapped && r.outcome.error == ZeroDivisionError)
    ensures Rectangular(grid) && (layout == Wrapped ==> |grid[0]| > 0) ==>
      var r := Iterate(Turn(layout, grid), w, fuel); !(r.Ended? && r.outcome.Err?)
  {
    IterateFails(Turn(layout, grid), w, fuel, e => e == IndexError || (layout == Wrapped && e == ZeroDivisionError));
    if Rectangular(grid) && (layout == Wrapped ==> |grid[0]| > 0) {
      IterateFails(Turn(layout, grid), w, fuel, e => false);
    }
  }

  /** The loop keeps the counter and the counted cells in step. */
  lemma ExploreTallied(layout: Layout, grid: Grid, w: Walk, fuel: nat)
    requires Tallied(w)
    ensures var r := Iterate(Turn(layout, grid), w, fuel);
      r.Ended? && r.outcome.Ok? ==> Tallied(r.outcome.value)
  {
    forall v: Walk | |v.queue| > 0 && Step(layout, grid, v).Ok? && Tallied(v)
      ensures Tallied(Step(layout, grid, v).value)
    {
      StepTallied(layout, grid, v);
    }
    IterateKeeps(Turn(layout, grid), w, fuel, v => Tallied(v));
  }

  /** The loop keeps breadth-first order. */
  lemma ExploreOrdered(layout: Layout, grid: Grid, start: Pos, maxDistance: int, w: Walk, fuel: nat)
    requires Ordered(w, start, maxDistance)
    ensures var r := Iterate(Turn(layout, grid), w, fuel);
      r.Ended? && r.outcome.Ok? ==> Ordered(r.outcome.value, start, maxDistance)
  {
    forall v: Walk | |v.queue| > 0 && Step(layout, grid, v).Ok? && Ordered(v, start, maxDistance)
      ensures Ordered(Step(layout, grid, v).value, start, maxDistance)
    {
      StepOrdered(layout, grid, start, maxDistance, v);
    }
    IterateKeeps(Turn(layout, grid), w, fuel, v => Ordered(v, start, maxDistance));
  }

  /** The loop keeps every budget within the full budget. */
  lemma ExploreWithin(layout: Layout, grid: Grid, maxDistance: int, w: Walk, fuel: nat)
    requires Within(w, maxDistance)
    ensures var r := Iterate(Turn(layout, grid), w, fuel);
      r.Ended? && r.outcome.Ok? ==> Within(r.outcome.value, maxDistance)
  {
    forall v: Walk | |v.queue| > 0 && Step(layout, grid, v).Ok? && Within(v, maxDistance)
      ensures Within(Step(layout, grid, v).value, maxDistance)
    {
      StepWithin(layout, grid, maxDistance, v);
    }
    IterateKeeps(Turn(layout, grid), w, fuel, v => Within(v, maxDistance));
  }

  /** The loop keeps each visited cell's first budget. */
  lemma ExploreRecorded(layout: Layout, grid: Grid, w: Walk, fuel: nat)
    requires Recorded(w)
    ensures var r := Iterate(Turn(layout, grid), w, fuel);
      r.Ended? && r.outcome.Ok? ==> Recorded(r.outcome.value)
  {
    forall v: Walk | |v.queue| > 0 && Step(layout, grid, v).Ok? && Recorded(v)
      ensures Recorded(Step(layout, grid, v).value)
    {
      StepRecorded(layout, grid, v);
    }
    IterateKeeps(Turn(layout, grid), w, fuel, v => Recorded(v));
  }

  /** The loop only ever visits or queues the start and cells it may step onto. */
  lemma ExplorePlaced(layout: Layout, grid: Grid, start: Pos, w: Walk, fuel: nat)
    requires Placed(layout, grid, start, w)
    ensures var r := Iterate(Turn(layout, grid), w, fuel);
      r.Ended? && r.outcome.Ok? ==> Placed(layout, grid, start, r.outcome.value)
  {
    forall v: Walk | |v.queue| > 0 && Step(layout, grid, v).Ok? && Placed(layout, grid, start, v)
      ensures Placed(layout, grid, start, Step(layout, grid, v).value)
    {
      StepPlaced(layout, grid, start, v);
    }
    IterateKeeps(Turn(layout, grid), w, fuel, v => Placed(layout, grid, start, v));
  }

  /** In the bounded layout the search visits and queues only the start
      and open cells. */
  ghost predicate Inside(grid: Grid, start: Pos, w: Walk)
  {
    w.visited.Keys <= Open(grid) + {start}
    && forall i :: 0 <= i < |w.queue| ==> w.queue[i].0 in Open(grid) + {start}
  }

  /** A cell the bounded search may step onto is an open cell. */
  lemma EnterableOpen(grid: Grid, p: Pos)
    requires Enterable(Bounded, grid, p)
    ensures p in Open(grid)
  {
  }

  lemma StepInside(grid: Grid, start: Pos, w: Walk)
    requires |w.queue| > 0 && Step(Bounded, grid, w).Ok? && Inside(grid, start, w)
    ensures Inside(grid, start, Step(Bounded, grid, w).value)
  {
    var next := Step(Bounded, grid, w).value;
    forall i | 0 <= i < |next.queue|
      ensures next.queue[i].0 in Open(grid) + {start}
    {
      if i < |w.queue| - 1 {
        assert next.queue[i] == w.queue[i + 1];
      } else {
        EnterableOpen(grid, next.queue[i].0);
      }
    }
  }

  /** A budget of `Budget` dequeues in all lets the bounded loop run to the
      end: only the start and open cells are ever visited, and each visit
      queues at most four entries. */
  lemma ExploreEnds(grid: Grid, start: Pos, w: Walk, fuel: nat)
    requires Inside(grid, start, w) && Sized(w)
    ensures |w.popped| + fuel >= Budget(grid, start) ==> Iterate(Turn(Bounded, grid), w, fuel).Ended?
  {
    forall v: Walk | |v.queue| > 0 && Step(Bounded, grid, v).Ok? && Inside(grid, start, v) && Sized(v)
      ensures Inside(grid, start, Step(Bounded, grid, v).value) && Sized(Step(Bounded, grid, v).value)
    {
      StepInside(grid, start, v);
      StepSized(Bounded, grid, v);
    }
    forall v: Walk | Inside(grid, start, v) && Sized(v)
      ensures |v.popped| + |v.queue| <= Budget(grid, start)
    {
      SubsetSize(v.visited.Keys, Open(grid) + {start});
    }
    IterateEnds(Turn(Bounded, grid), w, fuel, v => Inside(grid, start, v) && Sized(v), Budget(grid, start));
  }

  /** The breadth-first search shared by 21.py and 21p2.py from `start`
      with `maxDistance` steps, under a bound of `fuel` dequeues. */
  function Search(layout: Layout, grid: Grid, start: Pos, maxDistance: int, fuel: nat): Run<Walk>
  {
    Iterate(Turn(layout, grid), Begin(start, maxDistance), fuel)
  }

  /** The search fails only with the exceptions a probe raises, and never
      on a rectangular map (of positive width, when repeated). */
  lemma SearchFails(layout: Layout, grid: Grid, start: Pos, maxDistance: int, fuel: nat)
    ensures var r := Search(layout, grid, start, maxDistance, fuel);
      r.Ended? && r.outcome.Err? ==>
        r.outcome.error == IndexError || (layout == Wrapped && r.outcome.error == ZeroDivisionError)
    ensures var r := Search(layout, grid, start, maxDistance, fuel);
      Rectangular(grid) && (layout == Wrapped ==> |grid[0]| > 0) ==> !(r.Ended? && r.outcome.Err?)
  {
    ExploreFails(layout, grid, Begin(start, maxDistance), fuel);
  }

  /** The bounded search always ends within its dequeue budget. */
  lemma SearchEnds(grid: Grid, start: Pos, maxDistance: int, fuel: nat)
    requires fuel >= Budget(grid, start)
    ensures Search(Bounded, grid, start, maxDistance, fuel).Ended?
  {
    ExploreEnds(grid, start, Begin(start, maxDistance), fuel);
  }

  /** The counter matches the counted cells, which are the visited cells
      reached with an even budget. */
  lemma SearchTallied(layout: Layout, grid: Grid, start: Pos, maxDistance: int, fuel: nat)
    ensures var r := Search(layout, grid, start, maxDistance, fuel);
      r.Ended? && r.outcome.Ok? ==>
        r.outcome.value.count == |r.outcome.value.plots| && r.outcome.value.plots == Counted(r.outcome.value.visited)
  {
    var w := Begin(start, maxDistance);
    assert Counted(w.visited) == {};
    ExploreTallied(layout, grid, w, fuel);
  }

  /** Breadth-first order: the start is dequeued first with the full
      budget, and the budgets dequeued never go up. */
  lemma SearchOrdered(layout: Layout, grid: Grid, start: Pos, maxDistance: int, fuel: nat)
    ensures var r := Search(layout, grid, start, maxDistance, fuel);
      r.Ended? && r.outcome.Ok? ==>
        var popped := r.outcome.value.popped;
        |popped| > 0 && popped[0] == (start, maxDistance) && NonIncreasing(popped)
  {
    ExploreOrdered(layout, grid, start, maxDistance, Begin(start, maxDistance), fuel);
  }

  /** Each visited cell carries the budget it was first dequeued with, and
      a cell is visited exactly when it was dequeued at all. */
  lemma SearchRecorded(layout: Layout, grid: Grid, start: Pos, maxDistance: int, fuel: nat)
    ensures var r := Search(layout, grid, start, maxDistance, fuel);
      r.Ended? && r.outcome.Ok? ==> var w := r.outcome.value;
        forall p :: First(w.popped, p) == if p in w.visited then Some(w.visited[p]) else None
  {
    ExploreRecorded(layout, grid, Begin(start, maxDistance), fuel);
  }

  /** Every budget stays within the full budget, and is never negative
      when the full budget is not: a spent budget stops the walk. */
  lemma SearchWithin(layout: Layout, grid: Grid, start: Pos, maxDistance: int, fuel: nat)
    ensures var r := Search(layout, grid, start, maxDistance, fuel);
      r.Ended? && r.outcome.Ok? ==> var w := r.outcome.value;
        forall p :: p in w.visited ==> w.visited[p] <= maxDistance && (maxDistance >= 0 ==> w.visited[p] >= 0)
  {
    ExploreWithin(layout, grid, maxDistance, Begin(start, maxDistance), fuel);
  }

  /** The search never steps outside the map (bounded) or onto rock:
      every visited cell but the start may be stepped onto. */
  lemma SearchPlaced(layout: Layout, grid: Grid, start: Pos, maxDistance: int, fuel: nat)
    ensures var r := Search(layout, grid, start, maxDistance, fuel);
      r.Ended? && r.outcome.Ok? ==> var w := r.outcome.value;
        forall p :: p in w.visited && p != start ==> Enterable(layout, grid, p)
  {
    ExplorePlaced(layout, grid, start, Begin(start, maxDistance), fuel);
  }

  /** `FirstAppend` for every cell at once. */
  lemma FirstAppendAll(popped: seq<(Pos, int)>, e: (Pos, int))
    ensures forall p :: First(popped + [e], p) == if First(popped, p).Some? then First(popped, p)
                                                  else if e.0 == p then Some(e.1) else None
  {
    forall p {
      FirstAppend(popped, e, p);
    }
  }

  /** `_count_reachable_plots` of 21p2.py: the bounded search from any
      cell, with a dequeue budget it never exhausts, so it always ends; the
      count is at most the number of open cells and the start. */
  function BoundedCount(grid: Grid, start: Pos, maxDistance: int): (r: Result<nat>)
    ensures r.Err? ==> r.error == IndexError
    ensures Rectangular(grid) ==> r.Ok?
    ensures r.Ok? ==> r.value <= |Open(grid) + {start}|
  {
    SearchEnds(grid, start, maxDistance, Budget(grid, start));
    SearchFails(Bounded, grid, start, maxDistance, Budget(grid, start));
    match Search(Bounded, grid, start, maxDistance, Budget(grid, start)).outcome
    case Ok(w) =>
      SearchTallied(Bounded, grid, start, maxDistance, Budget(grid, start));
      SearchPlaced(Bounded, grid, start, maxDistance, Budget(grid, start));
      assert w.plots <= Open(grid) + {start};
      SubsetSize(w.plots, Open(grid) + {start});
      Ok(w.count)
    case Err(e) => Err(e)
  }

  /** `_count_reachable_plots_wrap_items` of 21p2.py under a bound of
      `fuel` dequeues: the counted cells of the search over the map
      repeated in every direction. Reading the width first fails on an
      empty map. Every counted cell but the start repeats an open map cell. */
  function WrapItems(grid: Grid, start: Pos, maxDistance: int, fuel: nat): (r: Run<set<Pos>>)
    ensures r.Ended? && r.outcome.Err? ==> r.outcome.error == IndexError || r.outcome.error == ZeroDivisionError
    ensures Rectangular(grid) && |grid[0]| > 0 ==> !(r.Ended? && r.outcome.Err?)
    ensures r.Ended? && r.outcome.Ok? ==> forall p :: p in r.outcome.value && p != start ==> Enterable(Wrapped, grid, p)
  {
    if |grid| == 0 then Ended(Err(IndexError))
    else
      SearchFails(Wrapped, grid, start, maxDistance, fuel);
      SearchTallied(Wrapped, grid, start, maxDistance, fuel);
      SearchPlaced(Wrapped, grid, start, maxDistance, fuel);
      match Search(Wrapped, grid, start, maxDistance, fuel)
      case Ended(Ok(w)) => Ended(Ok(w.plots))
      case Ended(Err(e)) => Ended(Err(e))
      case Unfinished => Unfinished
  }

  /** `_count_reachable_plots_wrap` of 21p2.py under a bound of `fuel`
      dequeues: it counts with a counter where its twin collects a set,
      and the two agree: they end, fail and run out alike, and the count
      is the size of the set. */
  function WrapCount(grid: Grid, start: Pos, maxDistance: int, fuel: nat): (r: Run<nat>)
    ensures r.Ended? <==> WrapItems(grid, start, maxDistance, fuel).Ended?
    ensures r.Ended? && r.outcome.Err? ==> WrapItems(grid, start, maxDistance, fuel).outcome == Err(r.outcome.error)
    ensures r.Ended? && r.outcome.Ok? ==>
      WrapItems(grid, start, maxDistance, fuel).outcome.Ok?
      && r.outcome.value == |WrapItems(grid, start, maxDistance, fuel).outcome.value|
  {
    if |grid| == 0 then Ended(Err(IndexError))
    else
      SearchTallied(Wrapped, grid, start, maxDistance, fuel);
      match Search(Wrapped, grid, start, maxDistance, fuel)
      case Ended(Ok(w)) => Ended(Ok(w.count))
      case Ended(Err(e)) => Ended(Err(e))
      case Unfinished => Unfinished
  }

  /** The map with every cell of `plots` overwritten by `O`, as 21.py
      marks each counted cell. */
  function Mark(grid: Grid, plots: set<Pos>): (r: Grid)
    ensures |r| == |grid| && forall y :: 0 <= y < |grid| ==> |r[y]| == |grid[y]|
    ensures forall y, x :: 0 <= y < |grid| && 0 <= x < |grid[y]| ==>
      r[y][x] == if Pos(x, y) in plots then 'O' else grid[y][x]
  {
    seq(|grid|, y requires 0 <= y < |grid| =>
      seq(|grid[y]|, x requires 0 <= x < |grid[y]| => if Pos(x, y) in plots then 'O' else grid[y][x]))
  }

  /** Marking cells `O` never turns a cell into rock or out of rock, so the
      search reading the marked map probes every neighbour as it would on
      the original: marking while searching, as 21.py does, is marking
      after it. */
  lemma MarkInvisible(layout: Layout, grid: Grid, plots: set<Pos>, visited: map<Pos, int>, q: Pos)
    requires plots <= Open(grid)
    ensures Probe(layout, Mark(grid, plots), visited, q) == Probe(layout, grid, visited, q)
  {
  }

  /** `count_reachable_plots` of 21.py with its step budget: find the
      start, search the bounded map from it, and mark the counted cells.
      The search ends within its dequeue budget, so no bound is needed. */
  method CountReachablePlots(grid: Grid, maxDistance: int)
    returns (r: Result<nat>, marked: Grid, reached: map<Pos, int>)
    ensures r == Err(ValueError) <==> FindStart(grid).None?
    ensures r.Err? ==> r.error == ValueError || r.error == IndexError
    ensures Rectangular(grid) && FindStart(grid).Some? ==> r.Ok?
    ensures r.Ok? ==> reached.Keys <= Open(grid) && FindStart(grid).value in reached
    ensures r.Ok? ==> r.value == |Counted(reached)| <= |Open(grid)|
    ensures r.Ok? && maxDistance >= 0 ==> forall p :: p in reached ==> 0 <= reached[p] <= maxDistance
    ensures r.Ok? ==> marked == Mark(grid, Counted(reached))
    ensures FindStart(grid).Some? ==> r == BoundedCount(grid, FindStart(grid).value, maxDistance)
  {
    var start := FindStart(grid);
    if start.None? {
      return Err(ValueError), grid, map[];
    }
    var s := start.value;
    var run := Search(Bounded, grid, s, maxDistance, Budget(grid, s));
    SearchEnds(grid, s, maxDistance, Budget(grid, s));
    SearchFails(Bounded, grid, s, maxDistance, Budget(grid, s));
    marked := grid;
    if run.outcome.Err? {
      return Err(run.outcome.error), marked, map[];
    }
    var w := run.outcome.value;
    SearchTallied(Bounded, grid, s, maxDistance, Budget(grid, s));
    SearchOrdered(Bounded, grid, s, maxDistance, Budget(grid, s));
    SearchRecorded(Bounded, grid, s, maxDistance, Budget(grid, s));
    SearchWithin(Bounded, grid, s, maxDistance, Budget(grid, s));
    SearchPlaced(Bounded, grid, s, maxDistance, Budget(grid, s));
    reached := w.visited;
    assert s in Open(grid);
    assert reached.Keys <= Open(grid);
    assert First(w.popped, s) == Some(maxDistance);
    SubsetSize(Counted(reached), Open(grid));
    marked := Mark(grid, w.plots);
    r := Ok(w.count);
  }
}

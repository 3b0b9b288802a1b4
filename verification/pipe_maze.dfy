/**
 * Pipe Maze, first part (10.py): find the start `S`, then leave it in each
 * direction in turn and follow the pipes until the probe either comes back
 * to the start, leaves the grid, or meets something it cannot enter.
 */
module PipeMaze {
  import opened Outcomes
  import opened Pipes

  /** A position `(x, y)`: column, then row. */
  type Point = (int, int)

  /** Row-major order, as `enumerate` walks the rows and then each row's
      cells (10.py:48-49). */
  predicate Earlier(a: (nat, nat), b: (nat, nat))
  {
    a.1 < b.1 || (a.1 == b.1 && a.0 < b.0)
  }

  predicate HoldsAt(cells: seq<string>, p: (nat, nat), c: char)
  {
    p.1 < |cells| && p.0 < |cells[p.1]| && cells[p.1][p.0] == c
  }

  /** The scan of `find_source` from cell `x` of row `y` on. */
  function FindFrom(cells: seq<string>, y: nat, x: nat): Option<(nat, nat)>
    requires y <= |cells|
    decreases |cells| - y, if y < |cells| && x <= |cells[y]| then |cells[y]| - x else 0
  {
    if y == |cells| then None
    else if x >= |cells[y]| then FindFrom(cells, y + 1, 0)
    else if cells[y][x] == 'S' then Some((x, y))
    else FindFrom(cells, y, x + 1)
  }

  /** `find_source` (10.py:44-52); `None` when there is no `S`. */
  function FindSource(cells: seq<string>): Option<(nat, nat)>
  {
    FindFrom(cells, 0, 0)
  }

  lemma {:induction false} FindFromFirst(cells: seq<string>, y: nat, x: nat)
    requires y <= |cells|
    ensures FindFrom(cells, y, x).Some? ==>
      && HoldsAt(cells, FindFrom(cells, y, x).value, 'S')
      && !Earlier(FindFrom(cells, y, x).value, (x, y))
    ensures forall q: (nat, nat) :: !Earlier(q, (x, y)) && (FindFrom(cells, y, x).Some? ==> Earlier(q, FindFrom(cells, y, x).value)) ==> !HoldsAt(cells, q, 'S')
    decreases |cells| - y, if y < |cells| && x <= |cells[y]| then |cells[y]| - x else 0
  {
    if y == |cells| {
    } else if x >= |cells[y]| {
      FindFromFirst(cells, y + 1, 0);
    } else if cells[y][x] == 'S' {
    } else {
      FindFromFirst(cells, y, x + 1);
    }
  }

  /** `find_source` returns the first `S` in row-major order, and `None`
      exactly when there is none (10.py:44-52). */
  lemma FindSourceFirst(cells: seq<string>)
    ensures FindSource(cells).Some? ==> HoldsAt(cells, FindSource(cells).value, 'S')
    ensures forall q: (nat, nat) :: (FindSource(cells).Some? ==> Earlier(q, FindSource(cells).value)) ==> !HoldsAt(cells, q, 'S')
  {
    FindFromFirst(cells, 0, 0);
  }

  /** A probe: where it stands and where it heads next. */
  datatype Probe = Probe(x: int, y: int, heading: Direction)

  /** How one iteration of the trace loop ends. */
  datatype Step = OffGrid | Closed | Blocked | Onward(probe: Probe)

  /** One iteration of the trace loop (10.py:68-87): the probe moves; it
      stops on leaving the `len(cells[0])` by `len(cells)` box, closes the
      loop on re-entering the start, stops at `.` or at a symbol the turn
      table refuses, and otherwise turns. A row shorter than the first
      raises `IndexError` when the probe steps past its end. */
  function Advance(cells: seq<string>, start: Point, p: Probe): (r: Result<Step>)
    requires |cells| > 0
    ensures r.Ok? && r.value.Onward? ==>
      && 0 <= r.value.probe.y < |cells| && 0 <= r.value.probe.x < |cells[r.value.probe.y]|
      && (r.value.probe.x, r.value.probe.y) != start
      && p.heading.Turn(cells[r.value.probe.y][r.value.probe.x]) == Some(r.value.probe.heading)
      && r.value.probe.x == p.x + p.heading.Dx() && r.value.probe.y == p.y + p.heading.Dy()
    ensures r.Err? ==> r.error == IndexError
  {
    var x, y := p.x + p.heading.Dx(), p.y + p.heading.Dy();
    if !(0 <= x < |cells[0]| && 0 <= y < |cells|) then Ok(OffGrid)
    else if (x, y) == start then Ok(Closed)
    else if x >= |cells[y]| then Err(IndexError)
    else if cells[y][x] == '.' then Ok(Blocked)
    else
      match p.heading.Turn(cells[y][x])
      case None => Ok(Blocked)
      case Some(d) => Ok(Onward(Probe(x, y, d)))
  }

  /** The trace loop from probe `p` after `distance` moves (10.py:64-87):
      `Some(n)` when the `n`-th move re-enters the start, `None` when the
      trace breaks off. */
  function Trace(cells: seq<string>, start: Point, p: Probe, distance: nat, fuel: nat): (r: Run<Option<nat>>)
    requires |cells| > 0
    ensures r.Ended? && r.outcome.Ok? && r.outcome.value.Some? ==> r.outcome.value.value > distance
    ensures r.Ended? && r.outcome.Err? ==> r.outcome.error == IndexError
    decreases fuel
  {
    if fuel == 0 then Unfinished
    else
      match Advance(cells, start, p)
      case Err(e) => Ended(Err(e))
      case Ok(OffGrid) => Ended(Ok(None))
      case Ok(Blocked) => Ended(Ok(None))
      case Ok(Closed) => Ended(Ok(Some(distance + 1)))
      case Ok(Onward(q)) => Trace(cells, start, q, distance + 1, fuel - 1)
  }

  /** Where the probe that left `start` heading `out` is after `k` moves,
      or how it stopped. */
  function ProbeAfter(cells: seq<string>, start: Point, out: Direction, k: nat): Result<Step>
    requires |cells| > 0
  {
    if k == 0 then Ok(Onward(Probe(start.0, start.1, out)))
    else
      var prev :- ProbeAfter(cells, start, out, k - 1);
      if prev.Onward? then Advance(cells, start, prev.probe) else Ok(prev)
  }

  predicate OnwardAt(cells: seq<string>, start: Point, out: Direction, k: nat)
    requires |cells| > 0
  {
    ProbeAfter(cells, start, out, k).Ok? && ProbeAfter(cells, start, out, k).value.Onward?
  }

  /** A probe that stopped stays stopped. */
  lemma {:induction false} StopPersists(cells: seq<string>, start: Point, out: Direction, j: nat, k: nat)
    requires |cells| > 0 && j <= k && !OnwardAt(cells, start, out, j)
    ensures ProbeAfter(cells, start, out, k) == ProbeAfter(cells, start, out, j)
    decreases k - j
  {
    if j < k {
      StopPersists(cells, start, out, j, k - 1);
    }
  }

  lemma {:induction false} TraceFromFirstClose(cells: seq<string>, start: Point, out: Direction, p: Probe, j: nat, fuel: nat, n: nat)
    requires |cells| > 0
    requires ProbeAfter(cells, start, out, j) == Ok(Onward(p))
    ensures Trace(cells, start, p, j, fuel) == Ended(Ok(Some(n))) <==>
      j < n <= j + fuel && OnwardAt(cells, start, out, n - 1) && ProbeAfter(cells, start, out, n) == Ok(Closed)
    decreases fuel
  {
    if fuel > 0 {
      var a := Advance(cells, start, p);
      assert ProbeAfter(cells, start, out, j + 1) == a;
      if a.Ok? && a.value.Onward? {
        TraceFromFirstClose(cells, start, out, a.value.probe, j + 1, fuel - 1, n);
      } else if j + 1 < n {
        StopPersists(cells, start, out, j + 1, n - 1);
      }
    }
  }

  /** The distance a trace returns is the number of moves after which the
      probe first re-enters the start (10.py:74-77). */
  lemma TraceFirstClose(cells: seq<string>, start: Point, out: Direction, fuel: nat, n: nat)
    requires |cells| > 0
    ensures Trace(cells, start, Probe(start.0, start.1, out), 0, fuel) == Ended(Ok(Some(n))) <==>
      0 < n <= fuel && OnwardAt(cells, start, out, n - 1) && ProbeAfter(cells, start, out, n) == Ok(Closed)
  {
    TraceFromFirstClose(cells, start, out, Probe(start.0, start.1, out), 0, fuel, n);
  }

  lemma {:induction false} TraceFromBreaks(cells: seq<string>, start: Point, out: Direction, p: Probe, j: nat, fuel: nat, k: nat)
    requires |cells| > 0
    requires ProbeAfter(cells, start, out, j) == Ok(Onward(p))
    requires j < k <= j + fuel && OnwardAt(cells, start, out, k - 1)
    requires ProbeAfter(cells, start, out, k) == Ok(OffGrid) || ProbeAfter(cells, start, out, k) == Ok(Blocked)
    ensures Trace(cells, start, p, j, fuel) == Ended(Ok(None))
    decreases fuel
  {
    var a := Advance(cells, start, p);
    assert ProbeAfter(cells, start, out, j + 1) == a;
    if j + 1 < k {
      if !(a.Ok? && a.value.Onward?) {
        StopPersists(cells, start, out, j + 1, k - 1);
      }
      TraceFromBreaks(cells, start, out, a.value.probe, j + 1, fuel - 1, k);
    }
  }

  /** A probe that leaves the grid or is blocked ends its trace with no
      distance (10.py:71-73, 79-87). */
  lemma TraceBreaks(cells: seq<string>, start: Point, out: Direction, fuel: nat, k: nat)
    requires |cells| > 0
    requires 0 < k <= fuel && OnwardAt(cells, start, out, k - 1)
    requires ProbeAfter(cells, start, out, k) == Ok(OffGrid) || ProbeAfter(cells, start, out, k) == Ok(Blocked)
    ensures Trace(cells, start, Probe(start.0, start.1, out), 0, fuel) == Ended(Ok(None))
  {
    TraceFromBreaks(cells, start, out, Probe(start.0, start.1, out), 0, fuel, k);
  }

  /** More fuel does not change a trace that has ended. */
  lemma {:induction false} TraceOnFuel(cells: seq<string>, start: Point, p: Probe, distance: nat, fuel: nat, more: nat)
    requires |cells| > 0
    requires fuel <= more && Trace(cells, start, p, distance, fuel).Ended?
    ensures Trace(cells, start, p, distance, more) == Trace(cells, start, p, distance, fuel)
    decreases fuel
  {
    var a := Advance(cells, start, p);
    if a.Ok? && a.value.Onward? {
      TraceOnFuel(cells, start, a.value.probe, distance + 1, fuel - 1, more - 1);
    }
  }

  /** The candidate first moves, in the order tried (10.py:62). */
  const Candidates: seq<Direction> := [North, South, East, West]

  /** The candidates from index `i` on. */
  function TryFrom(cells: seq<string>, start: Point, i: nat, fuel: nat): Run<nat>
    requires |cells| > 0 && i <= |Candidates|
    decreases |Candidates| - i
  {
    if i == |Candidates| then Ended(Err(ValueError))
    else
      match Trace(cells, start, Probe(start.0, start.1, Candidates[i]), 0, fuel)
      case Unfinished => Unfinished
      case Ended(Err(e)) => Ended(Err(e))
      case Ended(Ok(Some(n))) => Ended(Ok(n))
      case Ended(Ok(None)) => TryFrom(cells, start, i + 1, fuel)
  }

  /** `find_main_loop(start)` (10.py:54-88), each trace allowed `fuel`
      moves: `IndexError` without rows, `TypeError` when there is no start
      to unpack. */
  function FindMainLoop(cells: seq<string>, start: Option<(nat, nat)>, fuel: nat): Run<nat>
  {
    if |cells| == 0 then Ended(Err(IndexError))
    else if start.None? then Ended(Err(TypeError))
    else TryFrom(cells, (start.value.0 as int, start.value.1 as int), 0, fuel)
  }

  /** The trace for candidate `i` broke off. */
  predicate Broke(cells: seq<string>, start: Point, i: nat, fuel: nat)
    requires |cells| > 0 && i < |Candidates|
  {
    Trace(cells, start, Probe(start.0, start.1, Candidates[i]), 0, fuel) == Ended(Ok(None))
  }

  /** Candidate `k` closes the loop after `n` moves, and every candidate
      from `i` up to it broke off. */
  predicate FirstClosing(cells: seq<string>, start: Point, i: nat, k: nat, fuel: nat, n: nat)
    requires |cells| > 0
  {
    && i <= k < |Candidates|
    && Trace(cells, start, Probe(start.0, start.1, Candidates[k]), 0, fuel) == Ended(Ok(Some(n)))
    && forall j :: i <= j < k ==> Broke(cells, start, j, fuel)
  }

  lemma {:induction false} TryFromFirst(cells: seq<string>, start: Point, i: nat, fuel: nat, n: nat)
    requires |cells| > 0 && i <= |Candidates|
    ensures TryFrom(cells, start, i, fuel) == Ended(Ok(n)) <==> exists k :: FirstClosing(cells, start, i, k, fuel, n)
    decreases |Candidates| - i
  {
    if i < |Candidates| {
      TryFromFirst(cells, start, i + 1, fuel, n);
      var t := Trace(cells, start, Probe(start.0, start.1, Candidates[i]), 0, fuel);
      if t == Ended(Ok(None)) {
        assert Broke(cells, start, i, fuel);
        assert TryFrom(cells, start, i, fuel) == TryFrom(cells, start, i + 1, fuel);
        var next := i + 1;
        if k :| FirstClosing(cells, start, next, k, fuel, n) {
          assert FirstClosing(cells, start, i, k, fuel, n);
        }
        if k :| FirstClosing(cells, start, i, k, fuel, n) {
          assert k != i;
          assert FirstClosing(cells, start, next, k, fuel, n);
        }
      } else if t == Ended(Ok(Some(n))) {
        assert FirstClosing(cells, start, i, i, fuel, n);
      } else {
        assert !Broke(cells, start, i, fuel);
        if k :| FirstClosing(cells, start, i, k, fuel, n) {
          assert k == i;
        }
      }
    }
  }

  lemma {:induction false} TryFromNoLoop(cells: seq<string>, start: Point, i: nat, fuel: nat)
    requires |cells| > 0 && i <= |Candidates|
    ensures TryFrom(cells, start, i, fuel) == Ended(Err(ValueError)) <==>
      forall j :: i <= j < |Candidates| ==> Broke(cells, start, j, fuel)
    decreases |Candidates| - i
  {
    if i < |Candidates| {
      TryFromNoLoop(cells, start, i + 1, fuel);
      var t := Trace(cells, start, Probe(start.0, start.1, Candidates[i]), 0, fuel);
      if t == Ended(Ok(None)) {
        assert TryFrom(cells, start, i, fuel) == TryFrom(cells, start, i + 1, fuel);
      } else {
        assert !Broke(cells, start, i, fuel);
      }
    }
  }

  /** The first candidate whose trace closes decides the loop length; when
      every trace breaks off, `ValueError('No loop found')` (10.py:62-88). */
  lemma FindMainLoopFirst(cells: seq<string>, start: (nat, nat), fuel: nat, n: nat)
    requires |cells| > 0
    ensures var s := (start.0 as int, start.1 as int);
      FindMainLoop(cells, Some(start), fuel) == Ended(Ok(n)) <==> exists k :: FirstClosing(cells, s, 0, k, fuel, n)
    ensures var s := (start.0 as int, start.1 as int);
      FindMainLoop(cells, Some(start), fuel) == Ended(Err(ValueError)) <==> forall j :: 0 <= j < |Candidates| ==> Broke(cells, s, j, fuel)
  {
    TryFromFirst(cells, (start.0 as int, start.1 as int), 0, fuel, n);
    TryFromNoLoop(cells, (start.0 as int, start.1 as int), 0, fuel);
  }

  /** The printed answer: half the loop length, the distance to the
      farthest point of the loop (10.py:94-98). */
  function Farthest(cells: seq<string>, fuel: nat): (r: Run<nat>)
    ensures r.Ended? && r.outcome.Ok? ==>
      && FindMainLoop(cells, FindSource(cells), fuel).Ended?
      && FindMainLoop(cells, FindSource(cells), fuel).outcome.Ok?
      && 2 * r.outcome.value <= FindMainLoop(cells, FindSource(cells), fuel).outcome.value <= 2 * r.outcome.value + 1
  {
    match FindMainLoop(cells, FindSource(cells), fuel)
    case Unfinished => Unfinished
    case Ended(Err(e)) => Ended(Err(e))
    case Ended(Ok(n)) => Ended(Ok(n / 2))
  }
}

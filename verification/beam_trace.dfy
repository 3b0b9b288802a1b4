/**
 * The trace of 16.py and 16p2.py as written: a beam walks straight on
 * through mirrors and along splitters, and only the beams a splitter
 * starts are remembered (`spawned`). A beam that a splitter sends onto a
 * loop of mirrors and pass-through splitters is never remembered and walks
 * the loop forever, so the trace is modelled with fuel: one unit per step
 * and per split, `Unfinished` when it runs out.
 */
module BeamTrace {
  import opened Outcomes
  import opened Rectangles
  import opened Beams

  /** The trace's two pieces of state: the beams started so far and the
      energised cells (the `energized` grid as the set of its true cells). */
  datatype Marks = Marks(spawned: set<Beam>, energized: set<Cell>)

  /** `after` extends `before`: nothing is forgotten. */
  predicate Grows(before: Marks, after: Marks)
  {
    before.spawned <= after.spawned && before.energized <= after.energized
  }

  /** Every cell in `cells` is a cell of the grid. */
  predicate Inside(grid: seq<string>, cells: set<Cell>)
  {
    forall c :: c in cells ==> InGrid(grid, c.0, c.1)
  }

  /** `trace(coordinates, direction, spawned)` (16.py:21-50, 16p2.py:23-52):
      a beam already started returns at once; any other is remembered and
      walked. */
  function Trace(grid: seq<string>, b: Beam, m: Marks, fuel: nat): (r: Run<Marks>)
    ensures b in m.spawned ==> r == Ended(Ok(m))
    ensures r.Ended? && r.outcome.Ok? ==> Grows(m, r.outcome.value) && b in r.outcome.value.spawned
    ensures r.Ended? && r.outcome.Ok? && Inside(grid, m.energized) ==> Inside(grid, r.outcome.value.energized)
    ensures r.Ended? && r.outcome.Err? ==> r.outcome.error in {IndexError, AssertionError}
    decreases fuel, 1
  {
    if b in m.spawned then Ended(Ok(m))
    else Walk(grid, b, m.(spawned := m.spawned + {b}), fuel)
  }

  /** The `while` loop of `trace`: energise the cell, turn on its tile, and
      step; on a splitter hit flat-on, trace the two new beams one after the
      other and stop. */
  function Walk(grid: seq<string>, b: Beam, m: Marks, fuel: nat): (r: Run<Marks>)
    ensures r.Ended? && r.outcome.Ok? ==> Grows(m, r.outcome.value)
    ensures r.Ended? && r.outcome.Ok? && InGrid(grid, b.x, b.y) ==> (b.x, b.y) in r.outcome.value.energized
    ensures r.Ended? && r.outcome.Ok? && Inside(grid, m.energized) ==> Inside(grid, r.outcome.value.energized)
    ensures r.Ended? && r.outcome.Err? ==> r.outcome.error in {IndexError, AssertionError}
    decreases fuel, 0
  {
    if !InGrid(grid, b.x, b.y) then Ended(Ok(m))
    else if fuel == 0 then Unfinished
    else
      var lit := m.(energized := m.energized + {(b.x, b.y)});
      match Tile(grid, b.x, b.y)
      case Err(e) => Ended(Err(e))
      case Ok(tile) =>
        match Deflect(tile, b)
        case Err(e) => Ended(Err(e))
        case Ok(Onward(dx, dy)) => Walk(grid, Beam(b.x + dx, b.y + dy, dx, dy), lit, fuel - 1)
        case Ok(Fork(first, second)) =>
          match Trace(grid, first, lit, fuel - 1)
          case Ended(Ok(after)) => Trace(grid, second, after, fuel - 1)
          case other => other
  }

  /** Whatever the trace from `b` energises is reached from `origin`, as
      long as `b` itself is (when it is in the grid). */
  lemma {:induction false} TraceSound(grid: seq<string>, origin: Beam, b: Beam, m: Marks, fuel: nat)
    requires InGrid(grid, b.x, b.y) ==> Reaches(grid, origin, b)
    requires m.energized <= Reached(grid, origin)
    ensures var r := Trace(grid, b, m, fuel);
      r.Ended? && r.outcome.Ok? ==> r.outcome.value.energized <= Reached(grid, origin)
    decreases fuel, 1
  {
    if b !in m.spawned {
      WalkSound(grid, origin, b, m.(spawned := m.spawned + {b}), fuel);
    }
  }

  lemma {:induction false} WalkSound(grid: seq<string>, origin: Beam, b: Beam, m: Marks, fuel: nat)
    requires InGrid(grid, b.x, b.y) ==> Reaches(grid, origin, b)
    requires m.energized <= Reached(grid, origin)
    ensures var r := Walk(grid, b, m, fuel);
      r.Ended? && r.outcome.Ok? ==> r.outcome.value.energized <= Reached(grid, origin)
    decreases fuel, 0
  {
    if InGrid(grid, b.x, b.y) && fuel > 0 {
      var lit := m.(energized := m.energized + {(b.x, b.y)});
      ReachedCell(grid, origin, b);
      if Next(grid, b).Ok? {
        var tile := Tile(grid, b.x, b.y).value;
        match Deflect(tile, b).value
        case Onward(dx, dy) =>
          var n := Beam(b.x + dx, b.y + dy, dx, dy);
          StepReached(grid, origin, b, n);
          WalkSound(grid, origin, n, lit, fuel - 1);
        case Fork(first, second) =>
          StepReached(grid, origin, b, first);
          StepReached(grid, origin, b, second);
          TraceSound(grid, origin, first, lit, fuel - 1);
          match Trace(grid, first, lit, fuel - 1)
          case Ended(Ok(after)) =>
            TraceSound(grid, origin, second, after, fuel - 1);
          case _ =>
      }
    }
  }

  /** A successor of a reached beam is reached when it is in the grid. */
  lemma StepReached(grid: seq<string>, origin: Beam, b: Beam, n: Beam)
    requires Reaches(grid, origin, b) && Next(grid, b).Ok? && n in Next(grid, b).value
    ensures InGrid(grid, n.x, n.y) ==> Reaches(grid, origin, n)
  {
    if InGrid(grid, n.x, n.y) {
      ReachesNext(grid, origin, b, n);
    }
  }

  lemma ReachedCell(grid: seq<string>, origin: Beam, b: Beam)
    requires Reaches(grid, origin, b)
    ensures (b.x, b.y) in Reached(grid, origin)
  {
    ReachesInGrid(grid, origin, b);
  }

  // ------------------------------------------------------------ 16.py

  /** 16.py's answer as written (16.py:61-68): one trace from the top left
      cell heading east, then the number of energised cells. */
  function EnergizedCountAsWritten(grid: seq<string>, fuel: nat): (r: Run<nat>)
    ensures |grid| == 0 ==> r == Ended(Err(IndexError))
  {
    if |grid| == 0 then Ended(Err(IndexError))
    else
      match Trace(grid, Beam(0, 0, 1, 0), Marks({}, {}), fuel)
      case Ended(Ok(m)) => Ended(Ok(|m.energized|))
      case Ended(Err(e)) => Ended(Err(e))
      case Unfinished => Unfinished
  }

  /** When the trace as written ends, it counts no more cells than the beam
      reaches, and so no more than the grid holds. */
  lemma CountAsWrittenSound(grid: seq<string>, fuel: nat)
    ensures var r := EnergizedCountAsWritten(grid, fuel);
      r.Ended? && r.outcome.Ok? ==>
        r.outcome.value <= |Reached(grid, Beam(0, 0, 1, 0))| <= Width(grid) * |grid|
  {
    if |grid| > 0 {
      ReachesItselfIfInside(grid, Beam(0, 0, 1, 0));
      TraceSound(grid, Beam(0, 0, 1, 0), Beam(0, 0, 1, 0), Marks({}, {}), fuel);
      match Trace(grid, Beam(0, 0, 1, 0), Marks({}, {}), fuel)
      case Ended(Ok(m)) =>
        SubsetSize(m.energized, Reached(grid, Beam(0, 0, 1, 0)));
      case _ =>
    }
    ReachedBound(grid, Beam(0, 0, 1, 0));
  }

  lemma ReachesItselfIfInside(grid: seq<string>, b: Beam)
    ensures InGrid(grid, b.x, b.y) ==> Reaches(grid, b, b)
  {
    if InGrid(grid, b.x, b.y) {
      ReachesItself(grid, b);
    }
  }

  // ------------------------------------------------------------ 16p2.py

  /** `Document.trace` of 16p2.py (16p2.py:18-21): a fresh trace and the
      number of cells it energises. */
  function TraceCount(grid: seq<string>, b: Beam, fuel: nat): (r: Run<nat>)
  {
    match Trace(grid, b, Marks({}, {}), fuel)
    case Ended(Ok(m)) => Ended(Ok(|m.energized|))
    case Ended(Err(e)) => Ended(Err(e))
    case Unfinished => Unfinished
  }

  /** A finished fresh trace counts no more cells than its beam reaches. */
  lemma TraceCountSound(grid: seq<string>, b: Beam, fuel: nat)
    ensures var r := TraceCount(grid, b, fuel);
      r.Ended? && r.outcome.Ok? ==> r.outcome.value <= |Reached(grid, b)| <= Width(grid) * |grid|
  {
    ReachesItselfIfInside(grid, b);
    TraceSound(grid, b, b, Marks({}, {}), fuel);
    ReachedBound(grid, b);
    match Trace(grid, b, Marks({}, {}), fuel)
    case Ended(Ok(m)) =>
      SubsetSize(m.energized, Reached(grid, b));
    case _ =>
  }

  /** `max(data.try_traces())` as written (16p2.py:67-71): the traces run in
      order, the first that fails or never ends decides the outcome, and
      `max` of no traces is a ValueError. */
  function MaxTraces(grid: seq<string>, starts: seq<Beam>, fuel: nat): (r: Run<nat>)
    ensures |starts| == 0 ==> r == Ended(Err(ValueError))
  {
    if |starts| == 0 then Ended(Err(ValueError))
    else
      match TraceCount(grid, starts[0], fuel)
      case Ended(Ok(c)) =>
        if |starts| == 1 then Ended(Ok(c))
        else
          (match MaxTraces(grid, starts[1..], fuel)
           case Ended(Ok(v)) => Ended(Ok(if c > v then c else v))
           case other => other)
      case Ended(Err(e)) => Ended(Err(e))
      case Unfinished => Unfinished
  }

  /** A finished maximum is one start's count and bounds every start's
      count, and no count exceeds the grid's area. */
  lemma {:induction false} MaxTracesSound(grid: seq<string>, starts: seq<Beam>, fuel: nat)
    ensures var r := MaxTraces(grid, starts, fuel);
      r.Ended? && r.outcome.Ok? ==>
        && (exists b :: b in starts && TraceCount(grid, b, fuel) == Ended(Ok(r.outcome.value)))
        && (forall b :: b in starts ==> CountsAtMost(grid, b, fuel, r.outcome.value))
        && r.outcome.value <= Width(grid) * |grid|
  {
    if |starts| > 0 {
      TraceCountSound(grid, starts[0], fuel);
      if |starts| > 1 {
        MaxTracesSound(grid, starts[1..], fuel);
        assert starts == [starts[0]] + starts[1..];
        forall b | b in starts[1..] ensures b in starts { }
      }
    }
  }

  /** The fresh trace from `b` ends well, counting at most `bound` cells. */
  predicate CountsAtMost(grid: seq<string>, b: Beam, fuel: nat, bound: nat)
  {
    var r := TraceCount(grid, b, fuel);
    r.Ended? && r.outcome.Ok? && r.outcome.value <= bound
  }

  /** 16p2.py's answer as written: the maximum over the edge starts in the
      order `try_traces` yields them (16p2.py:54-71). */
  function BestEnergyAsWritten(grid: seq<string>, fuel: nat): (r: Run<nat>)
    ensures |grid| == 0 ==> r == Ended(Err(IndexError))
  {
    if |grid| == 0 then Ended(Err(IndexError))
    else MaxTraces(grid, EdgeStarts(Width(grid), |grid|), fuel)
  }

  // ------------------------------------------------------------ the loop

  /** A three by three grid whose bottom splitter sends a beam west onto a
      loop of four mirrors and the splitter itself, crossed lengthwise. */
  const LoopGrid: seq<string> := [".\\.", "/.\\", "\\-/"]

  /** The six beams of the loop, in the order the beam walks them. */
  function Cycle(i: nat): Beam
    requires i < 6
  {
    [Beam(0, 2, -1, 0), Beam(0, 1, 0, -1), Beam(1, 1, 1, 0),
     Beam(2, 1, 1, 0), Beam(2, 2, 0, 1), Beam(1, 2, -1, 0)][i]
  }

  /** `b`'s tile sends it on, without splitting, as `n` into the
      neighbouring cell. */
  predicate Moves(grid: seq<string>, b: Beam, n: Beam)
  {
    && InGrid(grid, b.x, b.y)
    && Tile(grid, b.x, b.y).Ok?
    && Deflect(Tile(grid, b.x, b.y).value, b) == Ok(Onward(n.dx, n.dy))
    && n.x == b.x + n.dx && n.y == b.y + n.dy
  }

  /** A beam sent on walks on as its successor, with its cell lit. */
  lemma WalkOnward(grid: seq<string>, b: Beam, n: Beam, m: Marks, fuel: nat)
    requires Moves(grid, b, n) && fuel > 0
    ensures Walk(grid, b, m, fuel) == Walk(grid, n, m.(energized := m.energized + {(b.x, b.y)}), fuel - 1)
  {
  }

  /** Each beam of the loop is sent on to the next. */
  lemma LoopMoves(i: nat)
    requires i < 6
    ensures Moves(LoopGrid, Cycle(i), Cycle((i + 1) % 6))
  {
    if i == 0 {
      assert LoopGrid[2][0] == '\\';
    } else if i == 1 {
      assert LoopGrid[1][0] == '/';
    } else if i == 2 {
      assert LoopGrid[1][1] == '.';
    } else if i == 3 {
      assert LoopGrid[1][2] == '\\';
    } else if i == 4 {
      assert LoopGrid[2][2] == '/';
    } else {
      assert LoopGrid[2][1] == '-';
    }
  }

  /** The `k`-th beam of `cycle` is sent on to the next, the last to the
      first. */
  predicate Follows(grid: seq<string>, cycle: seq<Beam>, k: nat)
    requires k < |cycle|
  {
    Moves(grid, cycle[k], cycle[(k + 1) % |cycle|])
  }

  /** A walk round a cycle of beams, each sent on to the next, never ends,
      whatever has been remembered. */
  lemma {:induction false} CycleNeverEnds(grid: seq<string>, cycle: seq<Beam>, i: nat, m: Marks, fuel: nat)
    requires i < |cycle|
    requires forall k: nat :: k < |cycle| ==> Follows(grid, cycle, k)
    ensures Walk(grid, cycle[i], m, fuel) == Unfinished
    decreases fuel
  {
    if fuel > 0 {
      var b := cycle[i];
      var j := (i + 1) % |cycle|;
      assert Follows(grid, cycle, i);
      WalkOnward(grid, b, cycle[j], m, fuel);
      CycleNeverEnds(grid, cycle, j, m.(energized := m.energized + {(b.x, b.y)}), fuel - 1);
    }
  }

  /** A walk on the loop never ends. */
  lemma LoopNeverEnds(i: nat, m: Marks, fuel: nat)
    requires i < 6
    ensures Walk(LoopGrid, Cycle(i), m, fuel) == Unfinished
  {
    var cycle := seq(6, k requires 0 <= k < 6 => Cycle(k));
    forall k: nat | k < 6
      ensures Follows(LoopGrid, cycle, k)
    {
      LoopMoves(k);
    }
    CycleNeverEnds(LoopGrid, cycle, i, m, fuel);
  }

  /** 16.py on `LoopGrid` never finishes, however much fuel it is given:
      the beam from the top left turns south at (1, 0), hits the splitter
      at (1, 2) flat-on, and its western half enters the loop. */
  lemma AsWrittenLoopNeverEnds(fuel: nat)
    ensures EnergizedCountAsWritten(LoopGrid, fuel) == Unfinished
  {
    var none := Marks({}, {});
    var m0 := none.(spawned := none.spawned + {Beam(0, 0, 1, 0)});
    var m1 := m0.(energized := m0.energized + {(0, 0)});
    var m2 := m1.(energized := m1.energized + {(1, 0)});
    var m3 := m2.(energized := m2.energized + {(1, 1)});
    var m4 := m3.(energized := m3.energized + {(1, 2)});
    assert Trace(LoopGrid, Beam(0, 0, 1, 0), Marks({}, {}), fuel) == Walk(LoopGrid, Beam(0, 0, 1, 0), m0, fuel);
    if fuel > 0 {
      assert Walk(LoopGrid, Beam(0, 0, 1, 0), m0, fuel) == Walk(LoopGrid, Beam(1, 0, 1, 0), m1, fuel - 1);
    }
    if fuel > 1 {
      assert Walk(LoopGrid, Beam(1, 0, 1, 0), m1, fuel - 1) == Walk(LoopGrid, Beam(1, 1, 0, 1), m2, fuel - 2);
    }
    if fuel > 2 {
      assert Walk(LoopGrid, Beam(1, 1, 0, 1), m2, fuel - 2) == Walk(LoopGrid, Beam(1, 2, 0, 1), m3, fuel - 3);
    }
    if fuel > 3 {
      LoopNeverEnds(0, m4.(spawned := m4.spawned + {Cycle(0)}), fuel - 4);
      assert Trace(LoopGrid, Cycle(0), m4, fuel - 4) == Unfinished;
    }
  }

  /** 16p2.py on `LoopGrid` never finishes either: the start heading north
      from (1, 2) hits the same splitter flat-on. */
  lemma AsWrittenEdgeLoopNeverEnds(fuel: nat)
    ensures TraceCount(LoopGrid, Beam(1, 2, 0, -1), fuel) == Unfinished
  {
    if fuel > 0 {
      var none := Marks({}, {});
      var m0 := none.(spawned := none.spawned + {Beam(1, 2, 0, -1)});
      var lit := m0.(energized := m0.energized + {(1, 2)});
      assert Trace(LoopGrid, Beam(1, 2, 0, -1), none, fuel) == Walk(LoopGrid, Beam(1, 2, 0, -1), m0, fuel);
      LoopNeverEnds(0, lit.(spawned := lit.spawned + {Cycle(0)}), fuel - 1);
      assert Trace(LoopGrid, Cycle(0), lit, fuel - 1) == Unfinished;
    }
  }

  /** Every tile of `LoopGrid` is one the trace handles, so no beam is
      blocked there and the trace that remembers every beam followed
      (`Beams.Energize`) ends with the reached cells. */
  lemma LoopGridClear(start: Beam)
    ensures !Blocked(LoopGrid, start)
  {
    forall b: Beam | InGrid(LoopGrid, b.x, b.y)
      ensures Next(LoopGrid, b).Ok?
    {
      assert 0 <= b.x < 3 && 0 <= b.y < 3;
      assert LoopGrid[b.y][b.x] in {'/', '\\', '-', '|', '.'};
    }
  }
}

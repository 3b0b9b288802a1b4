/**
 * Pipe Maze, second part (10p2.py): trace the main loop as the first part
 * does, but record the loop's cells, with the start replaced by the pipe
 * symbol its two used sides call for, then count the enclosed cells with
 * the scanline ray.
 */
module PipeLoop {
  import opened Outcomes
  import opened Pipes
  import opened Scanline
  import opened PipeMaze

  /** The start symbol rule: the symbol for a start left heading `out` and
      re-entered heading `back` is `join(out, back.Opposite())`. */
  type Join = (Direction, Direction) -> Result<char>

  /** One iteration of the trace loop in 10p2.py:96-122: the same moves as
      the first part, except that the cell is read, and checked for `.`,
      before the probe asks whether it is back at the start. */
  function Advance2(cells: seq<string>, source: Point, p: Probe): Result<Step>
    requires |cells| > 0
  {
    var x, y := p.x + p.heading.Dx(), p.y + p.heading.Dy();
    if !(0 <= x < |cells[0]| && 0 <= y < |cells|) then Ok(OffGrid)
    else if x >= |cells[y]| then Err(IndexError)
    else if cells[y][x] == '.' then Ok(Blocked)
    else if (x, y) == source then Ok(Closed)
    else
      match p.heading.Turn(cells[y][x])
      case None => Ok(Blocked)
      case Some(d) => Ok(Onward(Probe(x, y, d)))
  }

  /** The start holds `S`, as `find_source` guarantees. */
  predicate IsSource(cells: seq<string>, source: Point)
  {
    source.0 >= 0 && source.1 >= 0 && HoldsAt(cells, (source.0 as nat, source.1 as nat), 'S')
  }

  /** At a real start the reordering changes nothing. */
  lemma Advance2AsBefore(cells: seq<string>, source: Point, p: Probe)
    requires |cells| > 0 && IsSource(cells, source)
    ensures Advance2(cells, source, p) == Advance(cells, source, p)
  {
  }

  /** The trace of 10p2.py:89-122 from probe `p` after `distance` moves,
      `written` holding the loop cells written so far: `Some((n, cells))`
      when the `n`-th move re-enters the start. */
  function Trace2(cells: seq<string>, source: Point, out: Direction, join: Join, p: Probe, distance: nat, written: map<Point, char>, fuel: nat): Run<Option<(nat, map<Point, char>)>>
    requires |cells| > 0
    decreases fuel
  {
    if fuel == 0 then Unfinished
    else
      match Advance2(cells, source, p)
      case Err(e) => Ended(Err(e))
      case Ok(OffGrid) => Ended(Ok(None))
      case Ok(Blocked) => Ended(Ok(None))
      case Ok(Closed) =>
        (match join(out, p.heading.Opposite())
         case Err(e) => Ended(Err(e))
         case Ok(c) => Ended(Ok(Some((distance + 1, written[source := c])))))
      case Ok(Onward(q)) =>
        if 0 <= q.y < |cells| && 0 <= q.x < |cells[q.y]| then
          Trace2(cells, source, out, join, q, distance + 1, written[(q.x, q.y) := cells[q.y][q.x]], fuel - 1)
        else Unfinished
  }

  /** Where the probe stands after `k` moves, when it is still under way. */
  function Spot(cells: seq<string>, source: Point, out: Direction, k: nat): Point
    requires |cells| > 0 && OnwardAt(cells, source, out, k)
  {
    var p := ProbeAfter(cells, source, out, k).value.probe;
    (p.x, p.y)
  }

  /** Every onward probe after the first move stands on a cell of the grid. */
  lemma {:induction false} OnwardInGrid(cells: seq<string>, source: Point, out: Direction, k: nat)
    requires |cells| > 0 && 0 < k && OnwardAt(cells, source, out, k)
    ensures var p := ProbeAfter(cells, source, out, k).value.probe;
      0 <= p.y < |cells| && 0 <= p.x < |cells[p.y]|
  {
    var prev := ProbeAfter(cells, source, out, k - 1);
    assert prev.Ok? && prev.value.Onward?;
  }

  /** The cells the first `k` moves write: each cell the probe passes on its
      way, holding the grid's own symbol. */
  function WrittenUpTo(cells: seq<string>, source: Point, out: Direction, k: nat): map<Point, char>
    requires |cells| > 0
  {
    if k == 0 then map[]
    else if OnwardAt(cells, source, out, k) then
      OnwardInGrid(cells, source, out, k);
      var q := Spot(cells, source, out, k);
      WrittenUpTo(cells, source, out, k - 1)[q := cells[q.1][q.0]]
    else WrittenUpTo(cells, source, out, k - 1)
  }

  /** Each written cell holds the grid's own symbol. */
  lemma {:induction false} WrittenHoldsGrid(cells: seq<string>, source: Point, out: Direction, k: nat, q: Point)
    requires |cells| > 0 && q in WrittenUpTo(cells, source, out, k)
    ensures 0 <= q.1 < |cells| && 0 <= q.0 < |cells[q.1]|
    ensures WrittenUpTo(cells, source, out, k)[q] == cells[q.1][q.0]
  {
    if k > 0 && OnwardAt(cells, source, out, k) && q == Spot(cells, source, out, k) {
      OnwardInGrid(cells, source, out, k);
    } else {
      WrittenHoldsGrid(cells, source, out, k - 1, q);
    }
  }

  /** Every place the probe passed is written. */
  lemma {:induction false} WrittenHasSpots(cells: seq<string>, source: Point, out: Direction, k: nat, i: nat)
    requires |cells| > 0 && 1 <= i <= k && OnwardAt(cells, source, out, i)
    ensures Spot(cells, source, out, i) in WrittenUpTo(cells, source, out, k)
  {
    if i < k {
      WrittenHasSpots(cells, source, out, k - 1, i);
    }
  }

  /** Only places the probe passed are written. */
  lemma {:induction false} WrittenOnlySpots(cells: seq<string>, source: Point, out: Direction, k: nat, q: Point)
    requires |cells| > 0 && q in WrittenUpTo(cells, source, out, k)
    ensures exists i :: 1 <= i <= k && OnwardAt(cells, source, out, i) && Spot(cells, source, out, i) == q
  {
    if q !in WrittenUpTo(cells, source, out, k - 1) {
      assert 1 <= k && OnwardAt(cells, source, out, k) && Spot(cells, source, out, k) == q;
    } else {
      WrittenOnlySpots(cells, source, out, k - 1, q);
    }
  }

  /** What the second part's trace yields, read off the first part's trace:
      the same outcome and distance, with the start symbol decided by the
      heading of the last move, and the written cells those passed. */
  function Expected(cells: seq<string>, source: Point, out: Direction, join: Join, p: Probe, j: nat, fuel: nat): Run<Option<(nat, map<Point, char>)>>
    requires |cells| > 0
  {
    match Trace(cells, source, p, j, fuel)
    case Unfinished => Unfinished
    case Ended(Err(e)) => Ended(Err(e))
    case Ended(Ok(None)) => Ended(Ok(None))
    case Ended(Ok(Some(n))) =>
      if OnwardAt(cells, source, out, n - 1) then
        var back := ProbeAfter(cells, source, out, n - 1).value.probe.heading;
        match join(out, back.Opposite())
        case Err(e) => Ended(Err(e))
        case Ok(c) => Ended(Ok(Some((n, WrittenUpTo(cells, source, out, n - 1)[source := c]))))
      else Unfinished
  }

  lemma {:induction false} Trace2FromExpected(cells: seq<string>, source: Point, out: Direction, join: Join, p: Probe, j: nat, fuel: nat)
    requires |cells| > 0 && IsSource(cells, source)
    requires ProbeAfter(cells, source, out, j) == Ok(Onward(p))
    ensures Trace2(cells, source, out, join, p, j, WrittenUpTo(cells, source, out, j), fuel) == Expected(cells, source, out, join, p, j, fuel)
    decreases fuel
  {
    if fuel > 0 {
      var a := Advance(cells, source, p);
      if a.Ok? && a.value.Onward? {
        OnwardStep(cells, source, out, join, p, j, fuel);
        Trace2FromExpected(cells, source, out, join, a.value.probe, j + 1, fuel - 1);
      } else if a == Ok(Closed) {
        ClosedStep(cells, source, out, join, p, j, fuel);
      } else {
        StopStep(cells, source, out, join, p, j, fuel);
      }
    }
  }

  lemma StopStep(cells: seq<string>, source: Point, out: Direction, join: Join, p: Probe, j: nat, fuel: nat)
    requires |cells| > 0 && IsSource(cells, source) && fuel > 0
    requires Advance(cells, source, p).Err? || Advance(cells, source, p) == Ok(OffGrid) || Advance(cells, source, p) == Ok(Blocked)
    ensures Trace2(cells, source, out, join, p, j, WrittenUpTo(cells, source, out, j), fuel) == Expected(cells, source, out, join, p, j, fuel)
  {
    Advance2AsBefore(cells, source, p);
    var a := Advance(cells, source, p);
    if a.Err? {
      assert Trace(cells, source, p, j, fuel) == Ended(Err(a.error));
    } else {
      assert Trace(cells, source, p, j, fuel) == Ended(Ok(None));
    }
  }

  lemma ClosedStep(cells: seq<string>, source: Point, out: Direction, join: Join, p: Probe, j: nat, fuel: nat)
    requires |cells| > 0 && IsSource(cells, source) && fuel > 0
    requires ProbeAfter(cells, source, out, j) == Ok(Onward(p))
    requires Advance(cells, source, p) == Ok(Closed)
    ensures Trace2(cells, source, out, join, p, j, WrittenUpTo(cells, source, out, j), fuel) == Expected(cells, source, out, join, p, j, fuel)
  {
    Advance2AsBefore(cells, source, p);
    assert Trace(cells, source, p, j, fuel) == Ended(Ok(Some(j + 1)));
    assert OnwardAt(cells, source, out, j);
  }

  lemma OnwardStep(cells: seq<string>, source: Point, out: Direction, join: Join, p: Probe, j: nat, fuel: nat)
    requires |cells| > 0 && IsSource(cells, source) && fuel > 0
    requires ProbeAfter(cells, source, out, j) == Ok(Onward(p))
    requires Advance(cells, source, p).Ok? && Advance(cells, source, p).value.Onward?
    ensures var q := Advance(cells, source, p).value.probe;
      && ProbeAfter(cells, source, out, j + 1) == Ok(Onward(q))
      && Expected(cells, source, out, join, p, j, fuel) == Expected(cells, source, out, join, q, j + 1, fuel - 1)
      && Trace2(cells, source, out, join, p, j, WrittenUpTo(cells, source, out, j), fuel)
        == Trace2(cells, source, out, join, q, j + 1, WrittenUpTo(cells, source, out, j + 1), fuel - 1)
  {
    OnwardWritten(cells, source, out, p, j);
    OnwardExpected(cells, source, out, join, p, j, fuel);
    OnwardTrace2(cells, source, out, join, p, j, fuel);
  }

  lemma OnwardExpected(cells: seq<string>, source: Point, out: Direction, join: Join, p: Probe, j: nat, fuel: nat)
    requires |cells| > 0 && fuel > 0
    requires Advance(cells, source, p).Ok? && Advance(cells, source, p).value.Onward?
    ensures var q := Advance(cells, source, p).value.probe;
      Expected(cells, source, out, join, p, j, fuel) == Expected(cells, source, out, join, q, j + 1, fuel - 1)
  {
    var q := Advance(cells, source, p).value.probe;
    assert Trace(cells, source, p, j, fuel) == Trace(cells, source, q, j + 1, fuel - 1);
  }

  lemma OnwardTrace2(cells: seq<string>, source: Point, out: Direction, join: Join, p: Probe, j: nat, fuel: nat)
    requires |cells| > 0 && IsSource(cells, source) && fuel > 0
    requires ProbeAfter(cells, source, out, j) == Ok(Onward(p))
    requires Advance(cells, source, p).Ok? && Advance(cells, source, p).value.Onward?
    ensures var q := Advance(cells, source, p).value.probe;
      Trace2(cells, source, out, join, p, j, WrittenUpTo(cells, source, out, j), fuel)
        == Trace2(cells, source, out, join, q, j + 1, WrittenUpTo(cells, source, out, j + 1), fuel - 1)
  {
    OnwardWritten(cells, source, out, p, j);
    Advance2AsBefore(cells, source, p);
  }

  lemma OnwardWritten(cells: seq<string>, source: Point, out: Direction, p: Probe, j: nat)
    requires |cells| > 0
    requires ProbeAfter(cells, source, out, j) == Ok(Onward(p))
    requires Advance(cells, source, p).Ok? && Advance(cells, source, p).value.Onward?
    ensures var q := Advance(cells, source, p).value.probe;
      && ProbeAfter(cells, source, out, j + 1) == Ok(Onward(q))
      && 0 <= q.y < |cells| && 0 <= q.x < |cells[q.y]|
      && WrittenUpTo(cells, source, out, j + 1) == WrittenUpTo(cells, source, out, j)[(q.x, q.y) := cells[q.y][q.x]]
  {
    var q := Advance(cells, source, p).value.probe;
    OnwardNextProbe(cells, source, out, p, j);
    SpotWritten(cells, source, out, q, j + 1);
  }

  /** One more move of an onward probe gives the probe `Advance` returns. */
  lemma OnwardNextProbe(cells: seq<string>, source: Point, out: Direction, p: Probe, j: nat)
    requires |cells| > 0
    requires ProbeAfter(cells, source, out, j) == Ok(Onward(p))
    requires Advance(cells, source, p).Ok? && Advance(cells, source, p).value.Onward?
    ensures ProbeAfter(cells, source, out, j + 1) == Ok(Onward(Advance(cells, source, p).value.probe))
  {
  }

  /** The `k`th move writes the cell the probe then stands on. */
  lemma SpotWritten(cells: seq<string>, source: Point, out: Direction, q: Probe, k: nat)
    requires |cells| > 0 && 0 < k
    requires ProbeAfter(cells, source, out, k) == Ok(Onward(q))
    ensures 0 <= q.y < |cells| && 0 <= q.x < |cells[q.y]|
    ensures WrittenUpTo(cells, source, out, k) == WrittenUpTo(cells, source, out, k - 1)[(q.x, q.y) := cells[q.y][q.x]]
  {
    assert OnwardAt(cells, source, out, k);
    OnwardInGrid(cells, source, out, k);
    assert Spot(cells, source, out, k) == (q.x, q.y);
  }

  /** The second part traces exactly the loop the first part finds: the
      same outcome and distance, the written cells are the ones the probe
      passed, and the start gets `join` of the side it was left by and the
      side it was re-entered by (10p2.py:89-123). */
  lemma Trace2AsTrace(cells: seq<string>, source: Point, out: Direction, join: Join, fuel: nat)
    requires |cells| > 0 && IsSource(cells, source)
    ensures Trace2(cells, source, out, join, Probe(source.0, source.1, out), 0, map[], fuel)
      == Expected(cells, source, out, join, Probe(source.0, source.1, out), 0, fuel)
  {
    Trace2FromExpected(cells, source, out, join, Probe(source.0, source.1, out), 0, fuel);
  }

  /** `loop_cells` (10p2.py:94, 113): blank except at the written cells. */
  function LoopGrid(w: nat, h: nat, written: map<Point, char>): (g: seq<string>)
    ensures |g| == h && forall y :: 0 <= y < h ==> |g[y]| == w
    ensures forall y, x :: 0 <= y < h && 0 <= x < w ==>
      g[y][x] == (if (x, y) in written then written[(x, y)] else ' ')
  {
    seq(h, y requires 0 <= y < h => seq(w, x requires 0 <= x < w => if (x, y) in written then written[(x, y)] else ' '))
  }

  /** The candidates from index `i` on, each with a fresh `loop_cells`. */
  function TryFrom2(cells: seq<string>, source: Point, join: Join, i: nat, fuel: nat): Run<(nat, seq<string>)>
    requires |cells| > 0 && i <= |Candidates|
    decreases |Candidates| - i
  {
    if i == |Candidates| then Ended(Err(ValueError))
    else
      match Trace2(cells, source, Candidates[i], join, Probe(source.0, source.1, Candidates[i]), 0, map[], fuel)
      case Unfinished => Unfinished
      case Ended(Err(e)) => Ended(Err(e))
      case Ended(Ok(Some((n, written)))) => Ended(Ok((n, LoopGrid(|cells[0]|, |cells|, written))))
      case Ended(Ok(None)) => TryFrom2(cells, source, join, i + 1, fuel)
  }

  /** `find_main_loop` (10p2.py:81-123) with the start symbol rule `join`:
      the loop length and `loop_cells`. `IndexError` without rows, and
      `AttributeError` when `find_source` found no start. */
  function FindMainLoop2(cells: seq<string>, source: Option<(nat, nat)>, join: Join, fuel: nat): Run<(nat, seq<string>)>
  {
    if |cells| == 0 then Ended(Err(IndexError))
    else if source.None? then Ended(Err(AttributeError))
    else TryFrom2(cells, (source.value.0 as int, source.value.1 as int), join, 0, fuel)
  }

  /** The start symbol as written: `cell_from_direcctions` (10p2.py:112). */
  function AsWrittenJoin(d1: Direction, d2: Direction): Result<char>
  {
    CellFromDirections(d1, d2)
  }

  /** The start symbol as intended: the pipe joining the two sides. */
  function CorrectedJoin(d1: Direction, d2: Direction): Result<char>
  {
    PipeJoining(d1, d2)
  }

  /** A loop through a straight start: the start is entered from the south
      and left to the north. */
  const StraightStart: seq<string> := ["F-7", "S.|", "L-J"]

  /** As written, the loop through a straight start raises `ValueError`:
      the first candidate, north, closes the loop after eight moves
      heading north again, and `cell_from_direcctions(north, south)` is an
      opposite pair. */
  lemma AsWrittenStraightStartFails()
    ensures FindSource(StraightStart) == Some((0, 1))
    ensures FindMainLoop2(StraightStart, FindSource(StraightStart), AsWrittenJoin, 8) == Ended(Err(ValueError))
  {
    ClosesHeadingNorth(AsWrittenJoin);
    AsWrittenStraightStartRaises(North);
  }

  /** With the corrected symbol the same loop is found, its start a `|`. */
  lemma CorrectedStraightStartCloses()
    ensures FindMainLoop2(StraightStart, FindSource(StraightStart), CorrectedJoin, 8).Ended?
    ensures var r := FindMainLoop2(StraightStart, FindSource(StraightStart), CorrectedJoin, 8).outcome;
      r.Ok? && r.value.0 == 8 && r.value.1[1][0] == '|'
  {
    ClosesHeadingNorth(CorrectedJoin);
    AsWrittenStraightStartRaises(North);
  }

  /** One onward move of the second part's trace. */
  lemma Trace2Onward(cells: seq<string>, source: Point, out: Direction, join: Join, p: Probe, q: Probe, distance: nat, written: map<Point, char>, fuel: nat)
    requires |cells| > 0 && fuel > 0
    requires Advance2(cells, source, p) == Ok(Onward(q)) && 0 <= q.y < |cells| && 0 <= q.x < |cells[q.y]|
    ensures Trace2(cells, source, out, join, p, distance, written, fuel)
      == Trace2(cells, source, out, join, q, distance + 1, written[(q.x, q.y) := cells[q.y][q.x]], fuel - 1)
  {
  }

  lemma ClosesHeadingNorth(join: Join)
    ensures FindSource(StraightStart) == Some((0, 1))
    ensures join(North, South).Err? ==>
      FindMainLoop2(StraightStart, FindSource(StraightStart), join, 8) == Ended(Err(join(North, South).error))
    ensures join(North, South).Ok? ==>
      && FindMainLoop2(StraightStart, FindSource(StraightStart), join, 8).Ended?
      && FindMainLoop2(StraightStart, FindSource(StraightStart), join, 8).outcome.Ok?
      && FindMainLoop2(StraightStart, FindSource(StraightStart), join, 8).outcome.value.0 == 8
      && FindMainLoop2(StraightStart, FindSource(StraightStart), join, 8).outcome.value.1[1][0] == join(North, South).value
  {
    var g := StraightStart;
    assert FindFrom(g, 0, 0) == FindFrom(g, 1, 0);
    var s: Point := (0, 1);
    var ps := [Probe(0, 1, North), Probe(0, 0, East), Probe(1, 0, East), Probe(2, 0, South),
               Probe(2, 1, South), Probe(2, 2, West), Probe(1, 2, West), Probe(0, 2, North)];
    var w: map<Point, char> := map[];
    var k := 0;
    while k < 7
      invariant 0 <= k <= 7
      invariant Trace2(g, s, North, join, ps[0], 0, map[], 8) == Trace2(g, s, North, join, ps[k], k, w, 8 - k)
      invariant (0, 1) !in w
    {
      StepOf(k);
      Trace2Onward(g, s, North, join, ps[k], ps[k + 1], k, w, 8 - k);
      w := w[(ps[k + 1].x, ps[k + 1].y) := g[ps[k + 1].y][ps[k + 1].x]];
      k := k + 1;
    }
    assert Advance2(g, s, ps[7]) == Ok(Closed);
    var t := Trace2(g, s, North, join, ps[0], 0, map[], 8);
    assert t == match join(North, South) case Err(e) => Ended(Err(e)) case Ok(c) => Ended(Ok(Some((8, w[s := c]))));
    if join(North, South).Ok? {
      var c := join(North, South).value;
      assert LoopGrid(3, 3, w[s := c])[1][0] == c;
    }
  }

  /** The eight moves around the straight-start loop. */
  lemma StepOf(k: nat)
    requires k < 7
    ensures var ps := [Probe(0, 1, North), Probe(0, 0, East), Probe(1, 0, East), Probe(2, 0, South),
                       Probe(2, 1, South), Probe(2, 2, West), Probe(1, 2, West), Probe(0, 2, North)];
      && Advance2(StraightStart, (0, 1), ps[k]) == Ok(Onward(ps[k + 1]))
      && 0 <= ps[k + 1].y < 3 && 0 <= ps[k + 1].x < 3 && (ps[k + 1].x, ps[k + 1].y) != (0, 1)
  {
  }

  /** Wherever the first part's trace closes a loop through a straight
      start, the second part as written raises `ValueError`, and with the
      corrected symbol it yields the loop with the straight symbol there. */
  lemma StraightStartRaises(cells: seq<string>, source: Point, out: Direction, fuel: nat, n: nat)
    requires |cells| > 0 && IsSource(cells, source)
    requires Trace(cells, source, Probe(source.0, source.1, out), 0, fuel) == Ended(Ok(Some(n)))
    requires OnwardAt(cells, source, out, n - 1) && ProbeAfter(cells, source, out, n - 1).value.probe.heading == out
    ensures Trace2(cells, source, out, AsWrittenJoin, Probe(source.0, source.1, out), 0, map[], fuel) == Ended(Err(ValueError))
    ensures Trace2(cells, source, out, CorrectedJoin, Probe(source.0, source.1, out), 0, map[], fuel)
      == Ended(Ok(Some((n, WrittenUpTo(cells, source, out, n - 1)[source := out.StraightRepr()]))))
  {
    Trace2AsTrace(cells, source, out, AsWrittenJoin, fuel);
    Trace2AsTrace(cells, source, out, CorrectedJoin, fuel);
    AsWrittenStraightStartRaises(out);
  }

  /** The enclosed-cell count of 10p2.py:190-197, with the corrected start
      symbol: find the start and the main loop, then cast the rays. */
  method Enclosed(cells: seq<string>, fuel: nat) returns (r: Run<nat>)
    ensures var found := FindMainLoop2(cells, FindSource(cells), CorrectedJoin, fuel);
      && (r.Ended? <==> found.Ended?)
      && (r.Ended? && r.outcome.Ok? <==> found.Ended? && found.outcome.Ok? && Contained(found.outcome.value.1).Ok?)
      && (r.Ended? && r.outcome.Ok? ==> r.outcome.value == GridOnes(Contained(found.outcome.value.1).value))
  {
    var found := FindMainLoop2(cells, FindSource(cells), CorrectedJoin, fuel);
    match found
    case Unfinished =>
      r := Unfinished;
    case Ended(Err(e)) =>
      r := Ended(Err(e));
    case Ended(Ok((n, grid))) =>
      var count, contained := CountContained(grid);
      r := Ended(count);
  }
}

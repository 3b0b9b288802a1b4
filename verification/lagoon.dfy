/**
 * Lavaduct Lagoon, part 1 (18.py): a dig plan of legs (a heading letter and
 * a length) traces the outline of a lagoon. `find_bounds` frames the
 * corners the plan visits; `build_loop` draws the outline into a blank grid
 * with the pipe symbols of the maze (10.py), and the maze's ray count, which
 * also counts the outline, gives the lagoon's size.
 */
module Lagoon {
  import opened Outcomes
  import opened Pipes
  import opened Scanline

  type Pos = (int, int)

  /** One line of the dig plan: a heading letter and a distance. The
      colour in the plan is not used by this part. */
  datatype Dig = Dig(letter: char, distance: nat)

  /** A plan line with its heading decoded. */
  datatype Leg = Leg(heading: Direction, length: nat)

  /** The grid's size and where the plan's starting point sits in it. */
  datatype Frame = Frame(w: int, h: int, ox: int, oy: int)

  /** `direction_from_dig_instruction` (18.py:74-84). */
  function DigDirection(c: char): (r: Result<Direction>)
    ensures r.Ok? <==> c in "UDLR"
    ensures r.Err? ==> r.error == ValueError
  {
    if c == 'U' then Ok(North)
    else if c == 'D' then Ok(South)
    else if c == 'L' then Ok(West)
    else if c == 'R' then Ok(East)
    else Err(ValueError)
  }

  /** The letter the plan uses for a heading. */
  function Letter(d: Direction): char
  {
    match d
    case North => 'U'
    case South => 'D'
    case West => 'L'
    case East => 'R'
  }

  /** Decoding is the inverse of the plan's lettering: up is north, down
      south, left west and right east, and no two letters share a heading. */
  lemma DigDirectionDecodes(c: char, d: Direction)
    ensures DigDirection(Letter(d)) == Ok(d)
    ensures DigDirection(c) == Ok(d) ==> c == Letter(d)
  {
  }

  /** The plan with every heading decoded, or ValueError for an unknown
      letter. */
  function Legs(plan: seq<Dig>): (r: Result<seq<Leg>>)
    ensures r.Ok? ==> |r.value| == |plan|
    ensures r.Ok? ==> forall i :: 0 <= i < |plan| ==>
      DigDirection(plan[i].letter) == Ok(r.value[i].heading) && r.value[i].length == plan[i].distance
    ensures r.Err? <==> exists i :: 0 <= i < |plan| && plan[i].letter !in "UDLR"
    ensures r.Err? ==> r.error == ValueError
  {
    if |plan| == 0 then Ok([])
    else
      var init :- Legs(plan[..|plan| - 1]);
      var last := plan[|plan| - 1];
      var heading :- DigDirection(last.letter);
      Ok(init + [Leg(heading, last.distance)])
  }

  // ------------------------------------------------------------ geometry

  /** `j` steps from `p` heading `d`. */
  function Shift(p: Pos, d: Direction, j: int): Pos
  {
    match d
    case North => (p.0, p.1 - j)
    case South => (p.0, p.1 + j)
    case East => (p.0 + j, p.1)
    case West => (p.0 - j, p.1)
  }

  lemma ShiftUnits(p: Pos, d: Direction, j: int)
    ensures Shift(p, d, j) == (p.0 + j * d.Dx(), p.1 + j * d.Dy())
  {
  }

  /** The corner the plan reaches after its first `k` legs, from `(0, 0)`. */
  function Vertex(legs: seq<Leg>, k: nat): Pos
    requires k <= |legs|
  {
    if k == 0 then (0, 0) else Shift(Vertex(legs, k - 1), legs[k - 1].heading, legs[k - 1].length)
  }

  predicate InFrame(f: Frame, p: Pos)
  {
    0 <= p.0 + f.ox < f.w && 0 <= p.1 + f.oy < f.h
  }

  /** `find_bounds` (18.py:164-190): the smallest frame holding the start
      and every corner. */
  method FindBounds(legs: seq<Leg>) returns (f: Frame)
    ensures forall k :: 0 <= k <= |legs| ==> InFrame(f, Vertex(legs, k))
    ensures exists k :: 0 <= k <= |legs| && Vertex(legs, k).0 == -f.ox
    ensures exists k :: 0 <= k <= |legs| && Vertex(legs, k).0 == f.w - 1 - f.ox
    ensures exists k :: 0 <= k <= |legs| && Vertex(legs, k).1 == -f.oy
    ensures exists k :: 0 <= k <= |legs| && Vertex(legs, k).1 == f.h - 1 - f.oy
  {
    var xMin, xMax, yMin, yMax := 0, 0, 0, 0;
    var x, y := 0, 0;
    ghost var kx0, kx1, ky0, ky1 := 0, 0, 0, 0;
    var k := 0;
    while k < |legs|
      invariant k <= |legs|
      invariant (x, y) == Vertex(legs, k)
      invariant forall i :: 0 <= i <= k ==> xMin <= Vertex(legs, i).0 <= xMax && yMin <= Vertex(legs, i).1 <= yMax
      invariant kx0 <= k && Vertex(legs, kx0).0 == xMin
      invariant kx1 <= k && Vertex(legs, kx1).0 == xMax
      invariant ky0 <= k && Vertex(legs, ky0).1 == yMin
      invariant ky1 <= k && Vertex(legs, ky1).1 == yMax
    {
      var leg := legs[k];
      ShiftUnits((x, y), leg.heading, leg.length);
      x := x + leg.heading.Dx() * leg.length;
      y := y + leg.heading.Dy() * leg.length;
      k := k + 1;
      if x < xMin {
        xMin, kx0 := x, k;
      }
      if x > xMax {
        xMax, kx1 := x, k;
      }
      if y < yMin {
        yMin, ky0 := y, k;
      }
      if y > yMax {
        yMax, ky1 := y, k;
      }
    }
    xMax := xMax + 1;
    yMax := yMax + 1;
    f := Frame(-xMin + xMax, -yMin + yMax, -xMin, -yMin);
  }

  /** A straight run between two cells of the frame stays in it. */
  lemma RunInFrame(f: Frame, p: Pos, d: Direction, n: nat, j: nat)
    requires InFrame(f, p) && InFrame(f, Shift(p, d, n))
    requires j <= n
    ensures InFrame(f, Shift(p, d, j))
  {
  }

  // ------------------------------------------------------------ the outline

  /** One write of `build_loop`: a cell and the symbol computed for it. */
  datatype Paint = Paint(at: Pos, symbol: Result<char>)

  /** `last_dir` as leg `k` starts (18.py:96, 105, 108): the reverse of the
      last leg's heading at first, and after each leg its heading reversed,
      or, after a leg of length zero, the previous value reversed. */
  function LastDir(legs: seq<Leg>, k: nat): Direction
    requires 0 < |legs| && k <= |legs|
  {
    if k == 0 then legs[|legs| - 1].heading.Opposite()
    else if legs[k - 1].length > 0 then legs[k - 1].heading.Opposite()
    else LastDir(legs, k - 1).Opposite()
  }

  /** The writes of leg `k` (18.py:100-107): its first cell joins the side
      `last_dir` names to its heading, and the rest are straight. */
  function LegPaints(legs: seq<Leg>, k: nat): (r: seq<Paint>)
    requires k < |legs|
    ensures |r| == legs[k].length
  {
    var leg := legs[k];
    seq(leg.length, j requires 0 <= j < leg.length =>
      Paint(Shift(Vertex(legs, k), leg.heading, j),
            if j == 0 then CellFromDirections(LastDir(legs, k), leg.heading)
            else CellFromDirections(leg.heading, leg.heading)))
  }

  /** The writes of the first `k` legs, in order. */
  function PaintsUpTo(legs: seq<Leg>, k: nat): seq<Paint>
    requires 0 < |legs| && k <= |legs|
  {
    if k == 0 then [] else PaintsUpTo(legs, k - 1) + LegPaints(legs, k - 1)
  }

  /** Every cell the outline writes lies in the frame of the corners. */
  lemma {:induction false} PaintsInFrame(legs: seq<Leg>, f: Frame, k: nat)
    requires 0 < |legs| && k <= |legs|
    requires forall i :: 0 <= i <= |legs| ==> InFrame(f, Vertex(legs, i))
    ensures forall q :: q in PaintsUpTo(legs, k) ==> InFrame(f, q.at)
  {
    if k > 0 {
      PaintsInFrame(legs, f, k - 1);
      var leg := legs[k - 1];
      forall q | q in LegPaints(legs, k - 1)
        ensures InFrame(f, q.at)
      {
        var j :| 0 <= j < leg.length && LegPaints(legs, k - 1)[j] == q;
        assert InFrame(f, Vertex(legs, k - 1)) && InFrame(f, Vertex(legs, k));
        RunInFrame(f, Vertex(legs, k - 1), leg.heading, leg.length, j);
      }
    }
  }

  /** Two legs in a row with the same heading make `build_loop` join a side
      to itself, which raises (18.py:56-72, 101, 108). */
  lemma RepeatedHeadingRaises(legs: seq<Leg>, k: nat)
    requires 0 < k < |legs|
    requires legs[k - 1].length > 0 && legs[k].length > 0
    requires legs[k - 1].heading == legs[k].heading
    ensures Paint(Vertex(legs, k), Err(ValueError)) in PaintsUpTo(legs, k + 1)
  {
    assert LegPaints(legs, k)[0] == Paint(Vertex(legs, k), Err(ValueError));
  }

  /** Every symbol `cell_from_directions` yields is a pipe, never a blank,
      and its only failure is ValueError. */
  predicate PipeOrValueError(symbol: Result<char>)
  {
    match symbol
    case Ok(c) => IsPipe(c)
    case Err(e) => e == ValueError
  }

  /** Every write of the outline is a pipe symbol or a ValueError. */
  lemma {:induction false} PaintsArePipes(legs: seq<Leg>, k: nat)
    requires 0 < |legs| && k <= |legs|
    ensures forall q :: q in PaintsUpTo(legs, k) ==> PipeOrValueError(q.symbol)
  {
    if k > 0 {
      PaintsArePipes(legs, k - 1);
      forall q | q in LegPaints(legs, k - 1)
        ensures PipeOrValueError(q.symbol)
      {
        var j :| 0 <= j < legs[k - 1].length && LegPaints(legs, k - 1)[j] == q;
      }
    }
  }

  // ------------------------------------------------------------ drawing

  /** Python's `seq[i]` for a row or column of length `n`: negative indices
      count from the end. */
  function PyIndex(i: int, n: nat): (r: Result<nat>)
    ensures r.Ok? ==> r.value < n
    ensures 0 <= i < n ==> r == Ok(i)
  {
    if 0 <= i < n then Ok(i)
    else if i < 0 && 0 <= i + n then Ok(i + n)
    else Err(IndexError)
  }

  /** One write (18.py:101-104): compute the symbol, assert the cell is
      blank, write it. */
  function Put(grid: seq<string>, f: Frame, q: Paint): Result<seq<string>>
  {
    var symbol :- q.symbol;
    var y :- PyIndex(q.at.1 + f.oy, |grid|);
    var x :- PyIndex(q.at.0 + f.ox, |grid[y]|);
    :- Need(grid[y][x] == ' ', AssertionError);
    Ok(grid[y := grid[y][x := symbol]])
  }

  /** The writes `qs` in order, stopping at the first that fails. */
  function Draw(grid: seq<string>, f: Frame, qs: seq<Paint>): Result<seq<string>>
  {
    if |qs| == 0 then Ok(grid)
    else
      var before :- Draw(grid, f, qs[..|qs| - 1]);
      Put(before, f, qs[|qs| - 1])
  }

  /** The blank `h` by `w` grid (18.py:95). */
  function Blank(f: Frame): seq<string>
    requires f.w >= 0 && f.h >= 0
  {
    seq(f.h, _ => seq(f.w, _ => ' '))
  }

  predicate Shaped(grid: seq<string>, f: Frame)
  {
    |grid| == f.h && forall y :: 0 <= y < |grid| ==> |grid[y]| == f.w
  }

  /** The cell of `grid` at plan position `p`. */
  function At(grid: seq<string>, f: Frame, p: Pos): char
    requires Shaped(grid, f) && InFrame(f, p)
  {
    grid[p.1 + f.oy][p.0 + f.ox]
  }

  predicate Distinct(qs: seq<Paint>)
  {
    forall i, j :: 0 <= i < j < |qs| ==> qs[i].at != qs[j].at
  }

  /** One write in the frame succeeds exactly when its symbol is defined
      and its cell is blank, and changes only that cell. */
  lemma PutSpec(grid: seq<string>, f: Frame, q: Paint)
    requires Shaped(grid, f) && InFrame(f, q.at)
    ensures Put(grid, f, q).Ok? <==> q.symbol.Ok? && At(grid, f, q.at) == ' '
    ensures Put(grid, f, q).Err? ==> Put(grid, f, q).error == if q.symbol.Err? then q.symbol.error else AssertionError
    ensures Put(grid, f, q).Ok? ==>
      var g := Put(grid, f, q).value;
      && Shaped(g, f)
      && At(g, f, q.at) == q.symbol.value
      && forall p :: InFrame(f, p) && p != q.at ==> At(g, f, p) == At(grid, f, p)
  {
  }

  /** A successful drawing in the frame keeps the grid's shape, holds each
      symbol at its cell, and leaves every other cell as it was. */
  lemma {:induction false} DrawWrites(grid: seq<string>, f: Frame, qs: seq<Paint>)
    requires Shaped(grid, f)
    requires forall q :: q in qs ==> InFrame(f, q.at)
    ensures var r := Draw(grid, f, qs);
      r.Ok? ==>
        && Shaped(r.value, f)
        && (forall q :: q in qs ==> q.symbol.Ok?)
        && (forall p :: InFrame(f, p) && (forall q :: q in qs ==> q.at != p) ==> At(r.value, f, p) == At(grid, f, p))
  {
    if |qs| > 0 {
      var init := qs[..|qs| - 1];
      var last := qs[|qs| - 1];
      assert forall q :: q in qs <==> q in init || q == last;
      DrawWrites(grid, f, init);
      var before := Draw(grid, f, init);
      if before.Ok? {
        PutSpec(before.value, f, last);
      }
    }
  }

  /** A cell list stays distinct under one more write exactly when the new
      cell is not among the earlier ones. */
  lemma DistinctSnoc(qs: seq<Paint>, q: Paint)
    ensures Distinct(qs + [q]) <==> Distinct(qs) && forall p :: p in qs ==> p.at != q.at
  {
    var s := qs + [q];
    assert forall i :: 0 <= i < |qs| ==> s[i] == qs[i];
    assert s[|qs|] == q;
    if Distinct(s) {
      forall p | p in qs
        ensures p.at != q.at
      {
        var i :| 0 <= i < |qs| && qs[i] == p;
        assert s[i].at != s[|qs|].at;
      }
    }
  }

  /** After a successful drawing each written cell holds its symbol. */
  lemma {:induction false} DrawHolds(grid: seq<string>, f: Frame, qs: seq<Paint>)
    requires Shaped(grid, f)
    requires forall q :: q in qs ==> InFrame(f, q.at)
    requires forall q :: q in qs && q.symbol.Ok? ==> IsPipe(q.symbol.value)
    ensures var r := Draw(grid, f, qs);
      r.Ok? ==>
        && Shaped(r.value, f)
        && (forall q :: q in qs ==> q.symbol.Ok?)
        && Distinct(qs)
        && (forall q :: q in qs ==> At(grid, f, q.at) == ' ')
        && forall q :: q in qs ==> At(r.value, f, q.at) == q.symbol.value
  {
    DrawWrites(grid, f, qs);
    if |qs| > 0 {
      var init := qs[..|qs| - 1];
      var last := qs[|qs| - 1];
      assert qs == init + [last];
      assert forall q :: q in qs <==> q in init || q == last;
      DrawHolds(grid, f, init);
      DrawWrites(grid, f, init);
      DistinctSnoc(init, last);
      var before := Draw(grid, f, init);
      if before.Ok? && Put(before.value, f, last).Ok? {
        var g := before.value;
        PutSpec(g, f, last);
        forall q | q in init
          ensures q.at != last.at
        {
          assert IsPipe(At(g, f, q.at));
        }
        if forall q :: q in init ==> q.at != last.at {
          assert At(g, f, last.at) == At(grid, f, last.at);
        }
      }
    }
  }

  /** A drawing of distinct, defined symbols onto blank cells succeeds. */
  lemma {:induction false} DrawSucceeds(grid: seq<string>, f: Frame, qs: seq<Paint>)
    requires Shaped(grid, f)
    requires forall q :: q in qs ==> InFrame(f, q.at)
    requires forall q :: q in qs ==> q.symbol.Ok?
    requires Distinct(qs)
    requires forall q :: q in qs ==> At(grid, f, q.at) == ' '
    ensures Draw(grid, f, qs).Ok?
  {
    if |qs| > 0 {
      var init := qs[..|qs| - 1];
      var last := qs[|qs| - 1];
      assert qs == init + [last];
      assert forall q :: q in qs <==> q in init || q == last;
      DistinctSnoc(init, last);
      DrawSucceeds(grid, f, init);
      DrawWrites(grid, f, init);
      PutSpec(Draw(grid, f, init).value, f, last);
    }
  }

  /** Drawing in the frame succeeds exactly when every symbol is a defined
      pipe, no cell is written twice and every written cell starts blank;
      each written cell then holds its symbol. */
  lemma DrawSpec(grid: seq<string>, f: Frame, qs: seq<Paint>)
    requires Shaped(grid, f)
    requires forall q :: q in qs ==> InFrame(f, q.at)
    requires forall q :: q in qs && q.symbol.Ok? ==> IsPipe(q.symbol.value)
    ensures var r := Draw(grid, f, qs);
      r.Ok? <==>
        && (forall q :: q in qs ==> q.symbol.Ok?)
        && Distinct(qs)
        && (forall q :: q in qs ==> At(grid, f, q.at) == ' ')
    ensures var r := Draw(grid, f, qs);
      r.Ok? ==> Shaped(r.value, f) && forall q :: q in qs ==> At(r.value, f, q.at) == q.symbol.value
  {
    DrawWrites(grid, f, qs);
    DrawHolds(grid, f, qs);
    if (forall q :: q in qs ==> q.symbol.Ok?) && Distinct(qs) && (forall q :: q in qs ==> At(grid, f, q.at) == ' ') {
      DrawSucceeds(grid, f, qs);
    }
  }

  /** A blank grid has the frame's shape and a blank at every cell. */
  lemma BlankIsBlank(f: Frame)
    requires f.w >= 0 && f.h >= 0
    ensures Shaped(Blank(f), f)
    ensures forall p :: InFrame(f, p) ==> At(Blank(f), f, p) == ' '
  {
  }

  /** The writes of the first `k` legs begin the writes of the first `n`. */
  lemma {:induction false} PaintsPrefix(legs: seq<Leg>, k: nat, n: nat)
    requires 0 < |legs| && k <= n <= |legs|
    ensures |PaintsUpTo(legs, k)| <= |PaintsUpTo(legs, n)|
    ensures PaintsUpTo(legs, n)[..|PaintsUpTo(legs, k)|] == PaintsUpTo(legs, k)
    decreases n - k
  {
    if k < n {
      PaintsPrefix(legs, k + 1, n);
      PrefixOfPrefix(PaintsUpTo(legs, n), PaintsUpTo(legs, k), LegPaints(legs, k));
    }
  }

  /** A list that begins with `a + l` begins with `a`. */
  lemma PrefixOfPrefix(s: seq<Paint>, a: seq<Paint>, l: seq<Paint>)
    requires |a + l| <= |s| && s[..|a + l|] == a + l
    ensures s[..|a|] == a
  {
    assert forall i :: 0 <= i < |a| ==> s[..|a|][i] == (a + l)[i];
  }

  /** Any stretch at the start of a distinct list is distinct. */
  lemma DistinctPrefix(qs: seq<Paint>, m: nat)
    requires m <= |qs| && Distinct(qs)
    ensures Distinct(qs[..m])
  {
  }

  /** Taking one more element of `b` after `a`. */
  lemma TakeOneMore(a: seq<Paint>, b: seq<Paint>, j: nat)
    requires j < |b|
    ensures a + b[..j + 1] == (a + b[..j]) + [b[j]]
    ensures (a + b)[..|a| + j + 1] == a + b[..j + 1]
  {
    assert b[..j + 1] == b[..j] + [b[j]];
  }

  /** One more write after a successful prefix. */
  lemma DrawSnoc(grid: seq<string>, f: Frame, qs: seq<Paint>, q: Paint)
    requires Draw(grid, f, qs).Ok?
    ensures Draw(grid, f, qs + [q]) == Put(Draw(grid, f, qs).value, f, q)
  {
    assert (qs + [q])[..|qs|] == qs;
  }

  /** Stepping once more along a run (`x += dir.dx; y += dir.dy`). */
  lemma ShiftStep(p: Pos, d: Direction, j: int)
    ensures Shift(p, d, j + 1) == Shift(Shift(p, d, j), d, 1)
    ensures Shift(p, d, 1) == (p.0 + d.Dx(), p.1 + d.Dy())
  {
  }

  /** Once a prefix of the writes fails, the whole drawing fails the same
      way. */
  lemma {:induction false} DrawExtends(grid: seq<string>, f: Frame, qs: seq<Paint>, m: nat)
    requires m <= |qs|
    requires Draw(grid, f, qs[..m]).Err?
    ensures Draw(grid, f, qs) == Draw(grid, f, qs[..m])
    decreases |qs| - m
  {
    if m < |qs| {
      assert qs[..m + 1][..m] == qs[..m];
      DrawExtends(grid, f, qs, m + 1);
    } else {
      assert qs[..m] == qs;
    }
  }

  /** The `j`th write of leg `k`. */
  lemma LegPaintAt(legs: seq<Leg>, k: nat, j: nat)
    requires k < |legs| && j < legs[k].length
    ensures LegPaints(legs, k)[j] == Paint(Shift(Vertex(legs, k), legs[k].heading, j),
      CellFromDirections(if j == 0 then LastDir(legs, k) else legs[k].heading, legs[k].heading))
  {
  }

  /** One more of the writes `paints` after `before`: it succeeds as `Put`
      does, and when it fails, all of `paints` fails with it. */
  lemma DrawStep(base: seq<string>, f: Frame, before: seq<Paint>, paints: seq<Paint>, j: nat, grid: seq<string>)
    requires j < |paints|
    requires Draw(base, f, before + paints[..j]) == Ok(grid)
    ensures Draw(base, f, before + paints[..j + 1]) == Put(grid, f, paints[j])
    ensures Put(grid, f, paints[j]).Err? ==> Draw(base, f, before + paints) == Put(grid, f, paints[j])
  {
    TakeOneMore(before, paints, j);
    DrawSnoc(base, f, before + paints[..j], paints[j]);
    if Draw(base, f, before + paints[..j + 1]).Err? {
      DrawExtends(base, f, before + paints, |before| + j + 1);
    }
  }

  /** The inner loop of `build_loop` (18.py:98-107): walk leg `k` from its
      first corner, writing each cell with the symbol that joins `last_dir`
      to the heading. It performs exactly the leg's writes after those of
      the legs before it, and ends at the next corner. */
  method DrawLeg(ghost base: seq<string>, legs: seq<Leg>, f: Frame, k: nat, grid: seq<string>, start: Pos, lastDir: Direction)
    returns (r: Result<seq<string>>, end: Pos, nextDir: Direction)
    requires k < |legs|
    requires Draw(base, f, PaintsUpTo(legs, k)) == Ok(grid)
    requires start == Vertex(legs, k) && lastDir == LastDir(legs, k)
    ensures r == Draw(base, f, PaintsUpTo(legs, k + 1))
    ensures r.Ok? ==> end == Shift(start, legs[k].heading, legs[k].length)
    ensures r.Ok? && k + 1 < |legs| ==> nextDir == LastDir(legs, k + 1)
  {
    var leg := legs[k];
    var corner := CellFromDirections(lastDir, leg.heading);
    var straight := CellFromDirections(leg.heading, leg.heading);
    ghost var paints := LegPaints(legs, k);
    forall j | 0 <= j < leg.length
      ensures paints[j] == Paint(Shift(start, leg.heading, j), if j == 0 then corner else straight)
    {
      LegPaintAt(legs, k, j);
    }
    r, end := DrawRun(base, PaintsUpTo(legs, k), paints, f, grid, start, leg.heading, corner, straight, leg.length);
    PaintsUpToNext(legs, k);
    nextDir := if leg.length == 0 then lastDir.Opposite() else leg.heading.Opposite();
  }

  /** Walking one straight run of `length` cells from `start`, writing
      `corner` in the first and `straight` in the rest: exactly the writes
      `paints`, after those that made `grid`. */
  method DrawRun(ghost base: seq<string>, ghost before: seq<Paint>, ghost paints: seq<Paint>, f: Frame, grid: seq<string>,
                 start: Pos, heading: Direction, corner: Result<char>, straight: Result<char>, length: nat)
    returns (r: Result<seq<string>>, end: Pos)
    requires |paints| == length
    requires forall j :: 0 <= j < length ==> paints[j] == Paint(Shift(start, heading, j), if j == 0 then corner else straight)
    requires Draw(base, f, before) == Ok(grid)
    ensures r == Draw(base, f, before + paints)
    ensures r.Ok? ==> end == Shift(start, heading, length)
  {
    var at := start;
    var g := grid;
    var j := 0;
    assert before + paints[..0] == before;
    while j < length
      invariant j <= length
      invariant Draw(base, f, before + paints[..j]) == Ok(g)
      invariant at == Shift(start, heading, j)
    {
      var cell := if j == 0 then corner else straight;
      DrawStep(base, f, before, paints, j, g);
      var next := Put(g, f, Paint(at, cell));
      if next.Err? {
        return next, at;
      }
      g := next.value;
      ShiftStep(start, heading, j);
      at := Shift(at, heading, 1);
      j := j + 1;
    }
    assert paints[..j] == paints;
    return Ok(g), at;
  }

  /** The writes of the first `k + 1` legs: those of the first `k`, then
      leg `k`'s. */
  lemma PaintsUpToNext(legs: seq<Leg>, k: nat)
    requires k < |legs|
    ensures PaintsUpTo(legs, k + 1) == PaintsUpTo(legs, k) + LegPaints(legs, k)
  {
  }

  /** Once the first `k` legs fail to draw, the whole outline fails the
      same way. */
  lemma OutlineFails(base: seq<string>, legs: seq<Leg>, f: Frame, k: nat)
    requires 0 < |legs| && k <= |legs|
    requires Draw(base, f, PaintsUpTo(legs, k)).Err?
    ensures Draw(base, f, PaintsUpTo(legs, |legs|)) == Draw(base, f, PaintsUpTo(legs, k))
  {
    PaintsPrefix(legs, k, |legs|);
    DrawExtends(base, f, PaintsUpTo(legs, |legs|), |PaintsUpTo(legs, k)|);
  }

  /** The outer loop of `build_loop` (18.py:96-108): `last_dir` starts as
      the reverse of the last leg's heading, each leg is drawn in turn, and
      `last_dir` is reversed after each. The loop performs exactly the
      outline's writes, in order, stopping at the first that fails. */
  method DrawOutline(legs: seq<Leg>, f: Frame) returns (r: Result<seq<string>>)
    requires 0 < |legs| && InFrame(f, (0, 0))
    ensures r == Draw(Blank(f), f, PaintsUpTo(legs, |legs|))
  {
    var grid := Blank(f);
    ghost var base := grid;
    var at: Pos := (0, 0);
    var lastDir := legs[|legs| - 1].heading.Opposite();
    var k := 0;
    while k < |legs|
      invariant k <= |legs|
      invariant Draw(base, f, PaintsUpTo(legs, k)) == Ok(grid)
      invariant at == Vertex(legs, k)
      invariant k < |legs| ==> lastDir == LastDir(legs, k)
    {
      var drawn, end, nextDir := DrawLeg(base, legs, f, k, grid, at, lastDir);
      if drawn.Err? {
        OutlineFails(base, legs, f, k + 1);
        return drawn;
      }
      grid, at, lastDir := drawn.value, end, nextDir;
      k := k + 1;
    }
    r := Ok(grid);
  }


  /** `build_loop` (18.py:89-108): decode the plan, frame its corners, and
      draw the outline into a blank grid. An unknown letter raises
      ValueError, an empty plan IndexError (`edges[-1]`); otherwise the
      drawing succeeds exactly when every symbol is defined and no cell is
      written twice, and the grid then holds each written symbol at its
      cell and a blank everywhere else. */
  method BuildLoop(plan: seq<Dig>) returns (r: Result<(Frame, seq<string>)>)
    ensures Legs(plan).Err? ==> r == Err(ValueError)
    ensures Legs(plan).Ok? && |plan| == 0 ==> r == Err(IndexError)
    ensures Legs(plan).Ok? && |plan| > 0 ==>
      var legs := Legs(plan).value;
      var all := PaintsUpTo(legs, |legs|);
      && (r.Ok? <==> (forall q :: q in all ==> q.symbol.Ok?) && Distinct(all))
      && (r.Err? && (forall q :: q in all ==> q.symbol.Ok?) ==> r.error == AssertionError)
      && (r.Err? && Distinct(all) ==> r.error == ValueError)
    ensures Legs(plan).Ok? && r.Ok? ==>
      var legs := Legs(plan).value;
      var all := PaintsUpTo(legs, |legs|);
      var (f, grid) := r.value;
      && (forall k :: 0 <= k <= |legs| ==> InFrame(f, Vertex(legs, k)))
      && Shaped(grid, f)
      && (forall q :: q in all ==> InFrame(f, q.at) && At(grid, f, q.at) == q.symbol.value)
      && (forall p :: InFrame(f, p) && (forall q :: q in all ==> q.at != p) ==> At(grid, f, p) == ' ')
  {
    var decoded := Legs(plan);
    if decoded.Err? {
      return Err(decoded.error);
    }
    var legs := decoded.value;
    var f := FindBounds(legs);
    assert InFrame(f, Vertex(legs, 0));
    if |legs| == 0 {
      return Err(IndexError);
    }
    ghost var all := PaintsUpTo(legs, |legs|);
    var drawn := DrawOutline(legs, f);
    PaintsInFrame(legs, f, |legs|);
    PaintsArePipes(legs, |legs|);
    BlankIsBlank(f);
    DrawSpec(Blank(f), f, all);
    if drawn.Err? {
      DrawFails(f, all);
      return Err(drawn.error);
    }
    DrawWrites(Blank(f), f, all);
    r := Ok((f, drawn.value));
  }

  /** The first write of the outline that fails shows which condition of
      the drawing is broken: an undefined symbol raises ValueError, and a
      cell written twice AssertionError. */
  lemma DrawFailure(f: Frame, all: seq<Paint>, m: nat)
    requires f.w >= 0 && f.h >= 0 && m < |all|
    requires forall q :: q in all ==> InFrame(f, q.at) && PipeOrValueError(q.symbol)
    requires Draw(Blank(f), f, all[..m]).Ok?
    requires Draw(Blank(f), f, all[..m + 1]).Err?
    ensures var e := Draw(Blank(f), f, all[..m + 1]).error;
      && ((forall q :: q in all ==> q.symbol.Ok?) ==> e == AssertionError && !Distinct(all))
      && (Distinct(all) ==> e == ValueError)
  {
    BlankIsBlank(f);
    var init := all[..m];
    assert all[..m + 1][..m] == init;
    assert all[m] in all;
    DrawWrites(Blank(f), f, init);
    var g := Draw(Blank(f), f, init).value;
    PutSpec(g, f, all[m]);
    if all[m].symbol.Ok? {
      assert exists q :: q in init && q.at == all[m].at;
      var q :| q in init && q.at == all[m].at;
      var i :| 0 <= i < m && init[i] == q;
      assert all[i].at == all[m].at;
    }
  }

  /** A failed drawing of the outline shows which condition is broken. */
  lemma {:induction false} DrawFails(f: Frame, all: seq<Paint>)
    requires f.w >= 0 && f.h >= 0
    requires forall q :: q in all ==> InFrame(f, q.at) && PipeOrValueError(q.symbol)
    requires Draw(Blank(f), f, all).Err?
    ensures var e := Draw(Blank(f), f, all).error;
      && ((forall q :: q in all ==> q.symbol.Ok?) ==> e == AssertionError && !Distinct(all))
      && (Distinct(all) ==> e == ValueError)
  {
    var m := |all| - 1;
    var init := all[..m];
    assert all[..m + 1] == all;
    assert forall q :: q in init ==> q in all;
    if Draw(Blank(f), f, init).Err? {
      DrawFails(f, init);
      if Distinct(all) {
        DistinctPrefix(all, m);
      }
    } else {
      DrawFailure(f, all, m);
    }
  }

  /** A drawn outline holds only pipes and blanks, so the count knows every
      cell of it. */
  lemma OutlineKnown(grid: seq<string>, f: Frame, all: seq<Paint>)
    requires Shaped(grid, f)
    requires forall q :: q in all ==> InFrame(f, q.at) && q.symbol.Ok? && IsPipe(q.symbol.value) && At(grid, f, q.at) == q.symbol.value
    requires forall p :: InFrame(f, p) && (forall q :: q in all ==> q.at != p) ==> At(grid, f, p) == ' '
    ensures AllKnown(grid)
  {
    forall y, x | 0 <= y < |grid| && 0 <= x < |grid[y]|
      ensures Known(grid[y][x])
    {
      var p := (x - f.ox, y - f.oy);
      assert InFrame(f, p) && At(grid, f, p) == grid[y][x];
      if q :| q in all && q.at == p {
        assert IsPipe(grid[y][x]);
      }
    }
  }

  /** 18.py's `main`: build the outline, then count it and the cells it
      encloses. The errors of `build_loop` come first; a drawn outline
      always counts, as the pipe cells of the grid drawn plus its enclosed
      blanks. */
  method DugArea(plan: seq<Dig>) returns (r: Result<nat>, ghost drawn: seq<string>)
    ensures Legs(plan).Err? ==> r == Err(ValueError)
    ensures Legs(plan).Ok? && |plan| == 0 ==> r == Err(IndexError)
    ensures Legs(plan).Ok? && |plan| > 0 ==>
      var legs := Legs(plan).value;
      var all := PaintsUpTo(legs, |legs|);
      && (r.Ok? <==> (forall q :: q in all ==> q.symbol.Ok?) && Distinct(all))
      && (r.Err? && (forall q :: q in all ==> q.symbol.Ok?) ==> r.error == AssertionError)
      && (r.Err? && Distinct(all) ==> r.error == ValueError)
    ensures Legs(plan).Ok? && r.Ok? ==>
      var legs := Legs(plan).value;
      var all := PaintsUpTo(legs, |legs|);
      && (exists f :: Shaped(drawn, f) && forall q :: q in all ==> InFrame(f, q.at) && At(drawn, f, q.at) == q.symbol.value)
      && Contained(drawn).Ok?
      && r.value == GridPipeCells(drawn) + GridOnes(Contained(drawn).value)
  {
    var built := BuildLoop(plan);
    drawn := [];
    if built.Err? {
      return Err(built.error), drawn;
    }
    var (f, grid) := built.value;
    drawn := grid;
    var legs := Legs(plan).value;
    PaintsArePipes(legs, |legs|);
    OutlineKnown(grid, f, PaintsUpTo(legs, |legs|));
    assert InFrame(f, Vertex(legs, 0));
    r := CountDug(grid);
  }
}


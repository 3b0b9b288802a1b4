/**
 * Counting the cells a loop encloses by casting a ray along each row
 * (10p2.py:136-184, and 18.py:110-162, which also counts the loop itself).
 *
 * A `|` is a full crossing of the loop. A bend is half a crossing: `F` and
 * `J` count one way, `L` and `7` the other. Two halves that turn back the
 * same way (`F-7`, `L-J`) cancel out, and two that carry on (`F-J`, `L-7`)
 * make one crossing.
 */
module Scanline {
  import opened Outcomes

  /** The ray's state: whether it is inside the loop, and the unmatched half
      crossing, -1 after an `F` or `J`, +1 after an `L` or `7`
      (10p2.py:153-154). */
  datatype Ray = Ray(inside: bool, half: int)

  /** The symbols the counter knows (10p2.py:156-178). */
  predicate Known(cell: char)
  {
    cell == '|' || cell == 'F' || cell == 'J' || cell == 'L' || cell == '7' || cell == '-' || cell == ' '
  }

  predicate IsBlank(cell: char)
  {
    cell == ' '
  }

  /** The ray passing one known cell (10p2.py:156-174); blanks, `-` and
      unknown symbols leave it as it was. */
  function Pass(r: Ray, cell: char): Ray
  {
    if cell == '|' then Ray(!r.inside, r.half)
    else if cell == 'F' || cell == 'J' then
      if r.half - 1 <= -2 then Ray(!r.inside, r.half - 1 + 2) else Ray(r.inside, r.half - 1)
    else if cell == 'L' || cell == '7' then
      if r.half + 1 >= 2 then Ray(!r.inside, r.half + 1 - 2) else Ray(r.inside, r.half + 1)
    else r
  }

  /** The ray as it reaches cell `i` of `row`. */
  function RayAt(row: string, i: nat): Ray
    requires i <= |row|
  {
    if i == 0 then Ray(false, 0) else Pass(RayAt(row, i - 1), row[i - 1])
  }

  /** Full crossings: the `|` cells among the first `i`. */
  function Bars(row: string, i: nat): nat
    requires i <= |row|
  {
    if i == 0 then 0 else Bars(row, i - 1) + (if row[i - 1] == '|' then 1 else 0)
  }

  /** Signed half crossings among the first `i` cells: `L` and `7` up,
      `F` and `J` down. */
  function Tilt(row: string, i: nat): int
    requires i <= |row|
  {
    if i == 0 then 0
    else Tilt(row, i - 1) + (if row[i - 1] == 'L' || row[i - 1] == '7' then 1 else if row[i - 1] == 'F' || row[i - 1] == 'J' then -1 else 0)
  }

  /** The counter never holds more than one unmatched half crossing
      (10p2.py:154-170). */
  lemma {:induction false} HalfBounded(row: string, i: nat)
    requires i <= |row|
    ensures -1 <= RayAt(row, i).half <= 1
  {
    if i > 0 {
      HalfBounded(row, i - 1);
    }
  }

  /** The ray is inside exactly when it has made an odd number of
      crossings, where the half crossings completed so far pair up into
      whole ones and the unmatched remainder is the counter. */
  lemma {:induction false} RayParity(row: string, i: nat)
    requires i <= |row|
    ensures (Tilt(row, i) - RayAt(row, i).half) % 2 == 0
    ensures RayAt(row, i).inside <==> (Bars(row, i) + (Tilt(row, i) - RayAt(row, i).half) / 2) % 2 == 1
  {
    if i > 0 {
      RayParity(row, i - 1);
      HalfBounded(row, i - 1);
      var r := RayAt(row, i - 1);
      var k := (Tilt(row, i - 1) - r.half) / 2;
      assert Tilt(row, i - 1) - r.half == 2 * k;
      var c := row[i - 1];
      if c == 'F' || c == 'J' {
        if r.half - 1 <= -2 {
          assert Tilt(row, i) - RayAt(row, i).half == 2 * (k - 1);
        } else {
          assert Tilt(row, i) - RayAt(row, i).half == 2 * k;
        }
      } else if c == 'L' || c == '7' {
        if r.half + 1 >= 2 {
          assert Tilt(row, i) - RayAt(row, i).half == 2 * (k + 1);
        } else {
          assert Tilt(row, i) - RayAt(row, i).half == 2 * k;
        }
      } else {
        assert Tilt(row, i) - RayAt(row, i).half == 2 * k;
      }
    }
  }

  /** `contained_cells` for one row: a cell is marked when it is blank and
      the ray reaches it inside (10p2.py:175-183). */
  function Marks(row: string): (m: seq<bool>)
    ensures |m| == |row|
  {
    seq(|row|, i requires 0 <= i < |row| => IsBlank(row[i]) && RayAt(row, i).inside)
  }

  /** The number of marked cells. */
  function Ones(m: seq<bool>): nat
  {
    if |m| == 0 then 0 else Ones(m[..|m| - 1]) + (if m[|m| - 1] then 1 else 0)
  }

  function GridOnes(g: seq<seq<bool>>): nat
  {
    if |g| == 0 then 0 else GridOnes(g[..|g| - 1]) + Ones(g[|g| - 1])
  }

  /** The number of pipe cells in a row. */
  function PipeCells(row: string): nat
  {
    if |row| == 0 then 0 else PipeCells(row[..|row| - 1]) + (if Known(row[|row| - 1]) && !IsBlank(row[|row| - 1]) then 1 else 0)
  }

  function GridPipeCells(grid: seq<string>): nat
  {
    if |grid| == 0 then 0 else GridPipeCells(grid[..|grid| - 1]) + PipeCells(grid[|grid| - 1])
  }

  /** Every symbol of the row is one the counter knows. */
  predicate RowKnown(row: string)
  {
    forall x :: 0 <= x < |row| ==> Known(row[x])
  }

  predicate AllKnown(grid: seq<string>)
  {
    forall y :: 0 <= y < |grid| ==> RowKnown(grid[y])
  }

  /** The marks of every row, or the error the count raises: `IndexError`
      for a grid without rows (`self.cells[0]`), `ValueError` for an
      unknown symbol. */
  function Contained(grid: seq<string>): Result<seq<seq<bool>>>
  {
    if |grid| == 0 then Err(IndexError)
    else if !AllKnown(grid) then Err(ValueError)
    else Ok(seq(|grid|, y requires 0 <= y < |grid| => Marks(grid[y])))
  }

  lemma OnesStep(m: seq<bool>, x: nat)
    requires x < |m|
    ensures Ones(m[..x + 1]) == Ones(m[..x]) + (if m[x] then 1 else 0)
  {
    assert m[..x + 1][..x] == m[..x];
  }

  /** The marks grow by one cell at a time, that cell judged by the ray
      just past it. */
  lemma MarksStep(row: string, x: nat)
    requires x < |row|
    ensures var mark := row[x] == ' ' && RayAt(row, x + 1).inside;
      && Marks(row)[..x + 1] == Marks(row)[..x] + [mark]
      && Ones(Marks(row)[..x + 1]) == Ones(Marks(row)[..x]) + (if mark then 1 else 0)
  {
    OnesStep(Marks(row), x);
    assert Marks(row)[..x + 1] == Marks(row)[..x] + [Marks(row)[x]];
  }

  lemma PipeCellsStep(row: string, x: nat)
    requires x < |row|
    ensures PipeCells(row[..x + 1]) == PipeCells(row[..x]) + (if Known(row[x]) && !IsBlank(row[x]) then 1 else 0)
  {
    assert row[..x + 1][..x] == row[..x];
  }

  lemma GridStep(grid: seq<string>, g: seq<seq<bool>>, y: nat)
    requires y < |grid| && y < |g|
    ensures GridOnes(g[..y + 1]) == GridOnes(g[..y]) + Ones(g[y])
    ensures GridPipeCells(grid[..y + 1]) == GridPipeCells(grid[..y]) + PipeCells(grid[y])
  {
    assert g[..y + 1][..y] == g[..y];
    assert grid[..y + 1][..y] == grid[..y];
  }

  lemma RayAtPrefix(row: string, x: nat)
    requires x < |row|
    ensures RayAt(row, x + 1) == Pass(RayAt(row, x), row[x])
  {
  }

  /** The rows' marks, once every row is known, are the grid's marks. */
  lemma ContainedRows(grid: seq<string>, rows: seq<seq<bool>>)
    requires |grid| > 0 && |rows| == |grid|
    requires forall j :: 0 <= j < |grid| ==> rows[j] == Marks(grid[j])
    requires AllKnown(grid)
    ensures Contained(grid) == Ok(rows)
  {
    assert seq(|grid|, y requires 0 <= y < |grid| => Marks(grid[y])) == rows;
  }

  /** One row with an unknown symbol makes the whole count fail. */
  lemma UnknownRow(grid: seq<string>, y: nat)
    requires y < |grid|
    requires !RowKnown(grid[y])
    ensures Contained(grid) == Err(ValueError)
  {
  }

  /** One row of the ray in 10p2.py:150-183: the marks and their number,
      or the first unknown symbol. */
  method ScanRow(row: string) returns (ok: bool, marks: seq<bool>, count: nat)
    ensures ok <==> RowKnown(row)
    ensures ok ==> marks == Marks(row) && count == Ones(marks)
  {
    var inLoop := false;
    var halfPipe := 0;
    marks := [];
    count := 0;
    var x := 0;
    while x < |row|
      invariant 0 <= x <= |row|
      invariant Ray(inLoop, halfPipe) == RayAt(row, x)
      invariant forall k :: 0 <= k < x ==> Known(row[k])
      invariant marks == Marks(row)[..x]
      invariant count == Ones(marks)
    {
      var cell := row[x];
      if cell == '|' {
        inLoop := !inLoop;
      } else if cell == 'F' || cell == 'J' {
        halfPipe := halfPipe - 1;
        if halfPipe <= -2 {
          inLoop := !inLoop;
          halfPipe := halfPipe + 2;
        }
      } else if cell == 'L' || cell == '7' {
        halfPipe := halfPipe + 1;
        if halfPipe >= 2 {
          inLoop := !inLoop;
          halfPipe := halfPipe - 2;
        }
      } else if cell != '-' && cell != ' ' {
        return false, marks, count;
      }
      RayAtPrefix(row, x);
      assert Ray(inLoop, halfPipe) == RayAt(row, x + 1);
      var mark := cell == ' ' && inLoop;
      MarksStep(row, x);
      marks := marks + [mark];
      if mark {
        count := count + 1;
      }
      x := x + 1;
    }
    assert marks == Marks(row);
    return true, marks, count;
  }

  /** `count_contained_cells` of the maze (10p2.py:136-184): the number of
      blank cells the ray finds inside, with the marked grid. */
  method CountContained(grid: seq<string>) returns (r: Result<nat>, contained: seq<seq<bool>>)
    ensures r.Ok? <==> Contained(grid).Ok?
    ensures r.Err? ==> r.error == Contained(grid).error
    ensures r.Ok? ==> contained == Contained(grid).value && r.value == GridOnes(contained)
  {
    contained := [];
    if |grid| == 0 {
      return Err(IndexError), contained;
    }
    var count := 0;
    var y := 0;
    while y < |grid|
      invariant 0 <= y <= |grid|
      invariant AllKnown(grid[..y])
      invariant |contained| == y
      invariant forall j :: 0 <= j < y ==> contained[j] == Marks(grid[j])
      invariant count == GridOnes(contained)
    {
      var ok, marks, rowCount := ScanRow(grid[y]);
      if !ok {
        UnknownRow(grid, y);
        return Err(ValueError), contained;
      }
      GridStep(grid, contained + [marks], y);
      assert (contained + [marks])[..y] == contained;
      contained := contained + [marks];
      count := count + rowCount;
      y := y + 1;
    }
    ContainedRows(grid, contained);
    r := Ok(count);
  }

  /** One row of the lagoon's ray in 18.py:124-161: every pipe cell counts,
      as does every blank cell the ray finds inside. */
  method DugRow(row: string) returns (ok: bool, count: nat)
    ensures ok <==> RowKnown(row)
    ensures ok ==> count == PipeCells(row) + Ones(Marks(row))
  {
    var inLoop := false;
    var halfPipe := 0;
    count := 0;
    var x := 0;
    while x < |row|
      invariant 0 <= x <= |row|
      invariant Ray(inLoop, halfPipe) == RayAt(row, x)
      invariant forall k :: 0 <= k < x ==> Known(row[k])
      invariant count == PipeCells(row[..x]) + Ones(Marks(row)[..x])
    {
      var cell := row[x];
      OnesStep(Marks(row), x);
      PipeCellsStep(row, x);
      if cell == '|' {
        count := count + 1;
        inLoop := !inLoop;
      } else if cell == 'F' || cell == 'J' {
        count := count + 1;
        halfPipe := halfPipe - 1;
        if halfPipe <= -2 {
          inLoop := !inLoop;
          halfPipe := halfPipe + 2;
        }
      } else if cell == 'L' || cell == '7' {
        count := count + 1;
        halfPipe := halfPipe + 1;
        if halfPipe >= 2 {
          inLoop := !inLoop;
          halfPipe := halfPipe - 2;
        }
      } else if cell == '-' {
        count := count + 1;
      } else if cell != ' ' {
        return false, count;
      } else if inLoop {
        count := count + 1;
      }
      x := x + 1;
    }
    assert row[..x] == row;
    assert Marks(row)[..x] == Marks(row);
    return true, count;
  }

  /** `count_contained_cells` of the lagoon (18.py:110-162): the pipe cells
      of the outline plus the blank cells the maze's count would find. */
  method CountDug(grid: seq<string>) returns (r: Result<nat>)
    ensures r.Ok? <==> Contained(grid).Ok?
    ensures r.Err? ==> r.error == Contained(grid).error
    ensures r.Ok? ==> r.value == GridPipeCells(grid) + GridOnes(Contained(grid).value)
  {
    if |grid| == 0 {
      return Err(IndexError);
    }
    var count := 0;
    var y := 0;
    ghost var marks: seq<seq<bool>> := [];
    while y < |grid|
      invariant 0 <= y <= |grid|
      invariant AllKnown(grid[..y])
      invariant |marks| == y
      invariant forall j :: 0 <= j < y ==> marks[j] == Marks(grid[j])
      invariant count == GridPipeCells(grid[..y]) + GridOnes(marks)
    {
      var ok, rowCount := DugRow(grid[y]);
      if !ok {
        UnknownRow(grid, y);
        return Err(ValueError);
      }
      GridStep(grid, marks + [Marks(grid[y])], y);
      assert (marks + [Marks(grid[y])])[..y] == marks;
      marks := marks + [Marks(grid[y])];
      count := count + rowCount;
      y := y + 1;
    }
    assert grid[..y] == grid;
    ContainedRows(grid, marks);
    r := Ok(count);
  }
}

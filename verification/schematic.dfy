/**
 * Gear Ratios, first part (3.py): the numbers of an engine schematic that
 * touch a symbol, diagonals included, are part numbers; the answer is their
 * sum.
 */
module Schematic {
  import opened Seqs
  import opened Outcomes

  type Grid = seq<string>

  /** A number found in row `y`; `xStart` is inclusive, `xEnd` exclusive (3.py:7-17). */
  datatype Number = Number(y: nat, xStart: nat, xEnd: nat, value: nat)

  /** A symbol found next to a number: its character and position. */
  datatype Symbol = Symbol(kind: char, y: nat, x: nat)

  /** The character class `[^.\d]` (3.py:21). */
  predicate IsSymbol(c: char)
  {
    c != '.' && !IsDigit(c)
  }

  /** The end of the digit run starting at `i`. */
  function RunEnd(row: string, i: nat): (e: nat)
    requires i <= |row|
    ensures i <= e <= |row|
    ensures forall k :: i <= k < e ==> IsDigit(row[k])
    ensures e == |row| || !IsDigit(row[e])
    decreases |row| - i
  {
    if i == |row| || !IsDigit(row[i]) then i else RunEnd(row, i + 1)
  }

  /** A digit run: `start` inclusive, `end` exclusive. */
  datatype Run = Run(start: nat, end: nat)

  /** The maximal digit runs of `row[i..]`, left to right, as `re.finditer(r'\d+')`
      finds them (3.py:20, 35-37); the scan resumes after each run. */
  function RunsFrom(row: string, i: nat): (r: seq<Run>)
    requires i <= |row|
    ensures forall j :: 0 <= j < |r| ==> i <= r[j].start < r[j].end <= |row|
    ensures forall j :: 0 < j < |r| ==> r[j - 1].end < r[j].start
    ensures forall j, k :: 0 <= j < |r| && r[j].start <= k < r[j].end ==> IsDigit(row[k])
    decreases |row| - i
  {
    if i == |row| then []
    else if IsDigit(row[i]) then
      var e := RunEnd(row, i);
      [Run(i, e)] + RunsFrom(row, e)
    else
      RunsFrom(row, i + 1)
  }

  /** Each run found is a maximal run of digits. */
  lemma {:induction false} RunsAreMaximal(row: string, i: nat, j: nat)
    requires i <= |row| && j < |RunsFrom(row, i)|
    ensures var run := RunsFrom(row, i)[j];
      && (run.end == |row| || !IsDigit(row[run.end]))
      && (run.start == i || !IsDigit(row[run.start - 1]))
    decreases |row| - i
  {
    if IsDigit(row[i]) {
      var e := RunEnd(row, i);
      if j > 0 {
        RunsAreMaximal(row, e, j - 1);
      }
    } else {
      RunsAreMaximal(row, i + 1, j);
    }
  }

  /** Every digit of the row lies in some run found. */
  lemma {:induction false} RunsCoverDigits(row: string, i: nat, k: nat)
    requires i <= k < |row| && IsDigit(row[k])
    ensures exists j :: 0 <= j < |RunsFrom(row, i)| && RunsFrom(row, i)[j].start <= k < RunsFrom(row, i)[j].end
    decreases |row| - i
  {
    var r := RunsFrom(row, i);
    if IsDigit(row[i]) {
      var e := RunEnd(row, i);
      if k < e {
        assert r[0].start <= k < r[0].end;
      } else {
        RunsCoverDigits(row, e, k);
        var j :| 0 <= j < |RunsFrom(row, e)| && RunsFrom(row, e)[j].start <= k < RunsFrom(row, e)[j].end;
        assert r[j + 1] == RunsFrom(row, e)[j];
      }
    } else {
      RunsCoverDigits(row, i + 1, k);
    }
  }

  /** The numbers of row `y`, each carrying the decimal value of its digits. */
  function RowNumbers(row: string, y: nat): (r: seq<Number>)
    ensures forall j :: 0 <= j < |r| ==> r[j].y == y && r[j].xStart < r[j].xEnd <= |row|
  {
    var runs := RunsFrom(row, 0);
    seq(|runs|, j requires 0 <= j < |runs| => Number(y, runs[j].start, runs[j].end, DecimalValue(row[runs[j].start..runs[j].end])))
  }

  /** Every number of the schematic, row by row (3.py:33-37). */
  function Numbers(grid: Grid): (r: seq<Number>)
    ensures forall j :: 0 <= j < |r| ==> r[j].y < |grid| && r[j].xStart < r[j].xEnd <= |grid[r[j].y]|
  {
    if |grid| == 0 then []
    else
      var r := Numbers(grid[..|grid| - 1]) + RowNumbers(grid[|grid| - 1], |grid| - 1);
      assert forall j :: 0 <= j < |r| ==> grid[r[j].y] == if r[j].y < |grid| - 1 then grid[..|grid| - 1][r[j].y] else grid[|grid| - 1];
      r
  }

  /** `symbol_finder.search`: the leftmost symbol of a string. */
  function FirstSymbol(s: string): (r: Option<nat>)
    ensures r.Some? ==> r.value < |s| && IsSymbol(s[r.value])
    ensures r.Some? ==> forall k :: 0 <= k < r.value ==> !IsSymbol(s[k])
    ensures r.None? ==> forall k :: 0 <= k < |s| ==> !IsSymbol(s[k])
  {
    if |s| == 0 then None
    else if IsSymbol(s[0]) then Some(0)
    else
      match FirstSymbol(s[1..])
      case None => None
      case Some(k) => Some(k + 1)
  }

  /** The first column of the window around a number, `max(0, x_start - 1)` (3.py:45). */
  function WindowStart(n: Number): nat
  {
    if n.xStart == 0 then 0 else n.xStart - 1
  }

  /** The leftmost symbol of row `y` in the window `[start, x_end + 1)`;
      rows outside the grid are skipped (3.py:49-54). */
  function RowSymbol(grid: Grid, n: Number, y: int): (r: Option<Symbol>)
    ensures r.Some? ==> 0 <= y < |grid| && r.value.y == y
    ensures r.Some? ==> WindowStart(n) <= r.value.x <= n.xEnd && r.value.x < |grid[y]|
    ensures r.Some? ==> r.value.kind == grid[y][r.value.x] && IsSymbol(r.value.kind)
    ensures r.Some? ==> forall x :: WindowStart(n) <= x < r.value.x ==> !IsSymbol(grid[y][x])
    ensures r.None? && 0 <= y < |grid| ==>
      forall x :: WindowStart(n) <= x <= n.xEnd && x < |grid[y]| ==> !IsSymbol(grid[y][x])
  {
    if y < 0 || y >= |grid| then None
    else
      var start := WindowStart(n);
      var sub := Slice(grid[y], start, n.xEnd + 1);
      match FirstSymbol(sub)
      case None =>
        assert forall x :: start <= x <= n.xEnd && x < |grid[y]| ==> grid[y][x] == sub[x - start];
        None
      case Some(k) => Some(Symbol(sub[k], y, k + start))
  }

  /** Reference definition: some symbol touches one of the number's digits,
      diagonals included. */
  predicate TouchesSymbol(grid: Grid, n: Number)
  {
    exists y: int, x: nat :: n.y - 1 <= y <= n.y + 1 && 0 <= y < |grid| && WindowStart(n) <= x <= n.xEnd
      && x < |grid[y]| && IsSymbol(grid[y][x])
  }

  /** `Schematic.is_part_number` (3.py:39-59): the rows above, on and below
      are searched in turn and the first symbol found answers true. */
  function IsPartNumber(grid: Grid, n: Number): (r: bool)
    ensures r <==> TouchesSymbol(grid, n)
  {
    TouchesIffRowSymbol(grid, n);
    RowSymbol(grid, n, n.y - 1).Some? || RowSymbol(grid, n, n.y).Some? || RowSymbol(grid, n, n.y + 1).Some?
  }

  lemma TouchesIffRowSymbol(grid: Grid, n: Number)
    ensures TouchesSymbol(grid, n) <==>
      RowSymbol(grid, n, n.y - 1).Some? || RowSymbol(grid, n, n.y).Some? || RowSymbol(grid, n, n.y + 1).Some?
  {
    TouchesByRow(grid, n);
    RowSymbolIff(grid, n, n.y - 1);
    RowSymbolIff(grid, n, n.y);
    RowSymbolIff(grid, n, n.y + 1);
  }

  /** Some symbol of row `y` lies in the number's window. */
  predicate TouchesRow(grid: Grid, n: Number, y: int)
  {
    0 <= y < |grid| && exists x: nat :: WindowStart(n) <= x <= n.xEnd && x < |grid[y]| && IsSymbol(grid[y][x])
  }

  lemma RowSymbolIff(grid: Grid, n: Number, y: int)
    requires n.y - 1 <= y <= n.y + 1
    ensures RowSymbol(grid, n, y).Some? <==> TouchesRow(grid, n, y)
  {
    if RowSymbol(grid, n, y).Some? {
      var s := RowSymbol(grid, n, y).value;
      assert IsSymbol(grid[y][s.x]);
    }
  }

  lemma TouchesByRow(grid: Grid, n: Number)
    ensures TouchesSymbol(grid, n) <==> TouchesRow(grid, n, n.y - 1) || TouchesRow(grid, n, n.y) || TouchesRow(grid, n, n.y + 1)
  {
    if TouchesSymbol(grid, n) {
      var y: int, x: nat :| n.y - 1 <= y <= n.y + 1 && 0 <= y < |grid| && WindowStart(n) <= x <= n.xEnd
        && x < |grid[y]| && IsSymbol(grid[y][x]);
      assert TouchesRow(grid, n, y);
    }
    if TouchesRow(grid, n, n.y - 1) {
      var x: nat :| WindowStart(n) <= x <= n.xEnd && x < |grid[n.y - 1]| && IsSymbol(grid[n.y - 1][x]);
    }
    if TouchesRow(grid, n, n.y) {
      var x: nat :| WindowStart(n) <= x <= n.xEnd && x < |grid[n.y]| && IsSymbol(grid[n.y][x]);
    }
    if TouchesRow(grid, n, n.y + 1) {
      var x: nat :| WindowStart(n) <= x <= n.xEnd && x < |grid[n.y + 1]| && IsSymbol(grid[n.y + 1][x]);
    }
  }

  /** The part numbers, in the order the numbers were found (3.py:61-65). */
  function PartNumbers(grid: Grid, numbers: seq<Number>): (r: seq<Number>)
    ensures |r| <= |numbers|
  {
    if |numbers| == 0 then []
    else
      var last := numbers[|numbers| - 1];
      PartNumbers(grid, numbers[..|numbers| - 1]) + (if IsPartNumber(grid, last) then [last] else [])
  }

  /** The part numbers are exactly the numbers touching a symbol. */
  lemma PartNumbersTouch(grid: Grid, numbers: seq<Number>)
    ensures var r := PartNumbers(grid, numbers);
      && (forall j :: 0 <= j < |r| ==> r[j] in numbers && TouchesSymbol(grid, r[j]))
      && (forall j :: 0 <= j < |numbers| && TouchesSymbol(grid, numbers[j]) ==> numbers[j] in r)
  {
    var r := PartNumbers(grid, numbers);
    forall j | 0 <= j < |r|
      ensures r[j] in numbers && IsPartNumber(grid, r[j])
    {
      PartNumberKept(grid, numbers, j);
    }
    forall j | 0 <= j < |numbers| && IsPartNumber(grid, numbers[j])
      ensures numbers[j] in r
    {
      PartNumberFound(grid, numbers, j);
    }
  }

  /** Each number the filter keeps is one `is_part_number` accepts. */
  lemma {:induction false} PartNumberKept(grid: Grid, numbers: seq<Number>, j: nat)
    requires j < |PartNumbers(grid, numbers)|
    ensures PartNumbers(grid, numbers)[j] in numbers && IsPartNumber(grid, PartNumbers(grid, numbers)[j])
    decreases |numbers|
  {
    var init := numbers[..|numbers| - 1];
    var prev := PartNumbers(grid, init);
    if j < |prev| {
      PartNumberKept(grid, init, j);
      var k :| 0 <= k < |init| && init[k] == prev[j];
      assert numbers[k] == prev[j];
    }
  }

  /** Each number `is_part_number` accepts is kept. */
  lemma {:induction false} PartNumberFound(grid: Grid, numbers: seq<Number>, j: nat)
    requires j < |numbers| && IsPartNumber(grid, numbers[j])
    ensures numbers[j] in PartNumbers(grid, numbers)
    decreases |numbers|
  {
    var init := numbers[..|numbers| - 1];
    if j < |init| {
      assert init[j] == numbers[j];
      PartNumberFound(grid, init, j);
    }
  }

  /** The filter distributes over concatenation: the part numbers of `a + b`
      are those of `a` followed by those of `b`, order and repeats kept. */
  lemma {:induction false} PartNumbersAppend(grid: Grid, a: seq<Number>, b: seq<Number>)
    ensures PartNumbers(grid, a + b) == PartNumbers(grid, a) + PartNumbers(grid, b)
    decreases |b|
  {
    if |b| == 0 {
      assert a + b == a;
    } else {
      var init := b[..|b| - 1];
      assert (a + b)[..|a + b| - 1] == a + init;
      assert (a + b)[|a + b| - 1] == b[|b| - 1];
      PartNumbersAppend(grid, a, init);
    }
  }

  /** A single number is kept exactly when a symbol touches it. */
  lemma PartNumbersSingle(grid: Grid, n: Number)
    ensures PartNumbers(grid, [n]) == if TouchesSymbol(grid, n) then [n] else []
  {
    assert [n][..0] == [];
  }

  /** Reference total: every number adds its value when a symbol touches it. */
  function TouchingTotal(grid: Grid, numbers: seq<Number>): int
  {
    if |numbers| == 0 then 0
    else
      var last := numbers[|numbers| - 1];
      TouchingTotal(grid, numbers[..|numbers| - 1]) + (if TouchesSymbol(grid, last) then last.value else 0)
  }

  /** The values of the part numbers add up to the reference total. */
  lemma {:induction false} PartValuesTotal(grid: Grid, numbers: seq<Number>)
    ensures Sum(ValuesOf(PartNumbers(grid, numbers))) == TouchingTotal(grid, numbers)
    decreases |numbers|
  {
    if |numbers| > 0 {
      var init := numbers[..|numbers| - 1];
      var last := numbers[|numbers| - 1];
      var keep := IsPartNumber(grid, last);
      var kept := if keep then [last] else [];
      var prev := PartNumbers(grid, init);
      assert PartNumbers(grid, numbers) == prev + kept;
      assert TouchingTotal(grid, numbers) == TouchingTotal(grid, init) + (if keep then last.value else 0);
      PartValuesTotal(grid, init);
      ValuesAppend(prev, kept);
      SumAppend(ValuesOf(prev), ValuesOf(kept));
      KeptValue(last, keep);
    }
  }

  lemma ValuesAppend(a: seq<Number>, b: seq<Number>)
    ensures ValuesOf(a + b) == ValuesOf(a) + ValuesOf(b)
  {
  }

  lemma KeptValue(n: Number, keep: bool)
    ensures Sum(ValuesOf(if keep then [n] else [])) == if keep then n.value else 0
  {
    if keep {
      assert ValuesOf([n]) == [n.value];
      assert [n.value][..0] == [];
    }
  }

  /** The answer of a non-empty schematic is the total of the values of the
      numbers a symbol touches. */
  lemma PartNumberSumValue(grid: Grid)
    requires |grid| > 0
    ensures PartNumberSum(grid) == Ok(TouchingTotal(grid, Numbers(grid)))
  {
    PartValuesTotal(grid, Numbers(grid));
  }

  function ValuesOf(numbers: seq<Number>): (r: seq<int>)
    ensures |r| == |numbers|
    ensures forall j :: 0 <= j < |numbers| ==> r[j] == numbers[j].value
  {
    if |numbers| == 0 then [] else ValuesOf(numbers[..|numbers| - 1]) + [numbers[|numbers| - 1].value]
  }

  /** The answer: the sum of the part numbers (3.py:67-71). `len(grid[0])`
      fails on an empty schematic. */
  function PartNumberSum(grid: Grid): (r: Result<int>)
    ensures r.Err? <==> |grid| == 0
  {
    if |grid| == 0 then Err(IndexError)
    else Ok(Sum(ValuesOf(PartNumbers(grid, Numbers(grid)))))
  }

  /** The runs of digits found in "467..114.." are 467 and 114. */
  lemma ExampleRow()
    ensures RunsFrom("467..114..", 0) == [Run(0, 3), Run(5, 8)]
  {
    var row := "467..114..";
    assert RunEnd(row, 0) == 3;
    assert RunEnd(row, 5) == 8;
    assert RunsFrom(row, 8) == [];
    assert RunsFrom(row, 3) == [Run(5, 8)];
  }
}

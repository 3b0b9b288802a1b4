/**
 * Gear Ratios, second part (3p2.py): every symbol collects the values of the
 * numbers that report it; a `*` that collects exactly two values is a gear,
 * and the answer is the sum of the gears' value products.
 *
 * The source reports, for each of the three rows around a number, only the
 * leftmost symbol of that row's window. A second symbol in the same row
 * never hears of the number, so a `*` touched by two numbers can be missed.
 * Both the reporting as written and a corrected reporting that lists every
 * touching symbol are modelled; the accumulation is shared.
 */
module SchematicGears {
  import opened Seqs
  import opened Dicts
  import opened Schematic

  /** A grid position, the key of the `parts` table (3p2.py:45, 54). */
  datatype Pos = Pos(y: nat, x: nat)

  /** A symbol's record: its kind and the values of the numbers that reported it (3p2.py:20-30). */
  datatype Part = Part(kind: char, values: seq<nat>)

  function PosOf(s: Symbol): Pos
  {
    Pos(s.y, s.x)
  }

  /** The symbols a number reports, as written (3p2.py:57-78): the leftmost
      symbol of each row's window, rows above, on and below in turn. */
  function AdjacentSymbols(grid: Grid, n: Number): (r: seq<Symbol>)
    ensures |r| <= 3
    ensures forall j :: 0 <= j < |r| ==> Reports(grid, n, r[j])
    ensures forall i, j :: 0 <= i < j < |r| ==> r[i].y < r[j].y
    ensures forall j :: 0 <= j < |r| ==> RowSymbol(grid, n, r[j].y) == Outcomes.Some(r[j])
  {
    var above := RowReport(grid, n, n.y - 1);
    var on := RowReport(grid, n, n.y);
    var below := RowReport(grid, n, n.y + 1);
    var r := above + on + below;
    forall j | 0 <= j < |r|
      ensures Reports(grid, n, r[j]) && r[j].y == n.y - 1 + Level(|above|, |on|, j)
      ensures RowSymbol(grid, n, r[j].y) == Outcomes.Some(r[j])
    {
      if j < |above| {
        assert r[j] == above[j];
      } else if j < |above| + |on| {
        assert r[j] == on[j - |above|];
      } else {
        assert r[j] == below[j - |above| - |on|];
      }
    }
    r
  }

  /** Which of the three rows the `j`-th report comes from. */
  function Level(above: nat, on: nat, j: nat): nat
    requires above <= 1 && on <= 1
    ensures j < above ==> Level(above, on, j) == 0
  {
    if j < above then 0 else if j < above + on then 1 else 2
  }

  /** The leftmost symbol of one row, as a list of at most one. */
  function RowReport(grid: Grid, n: Number, y: int): (r: seq<Symbol>)
    requires n.y - 1 <= y <= n.y + 1
    ensures |r| <= 1
    ensures |r| == 1 <==> RowSymbol(grid, n, y).Some?
    ensures forall j :: 0 <= j < |r| ==> r[j].y == y && Reports(grid, n, r[j])
    ensures forall j :: 0 <= j < |r| ==> RowSymbol(grid, n, y) == Outcomes.Some(r[j])
  {
    OptionList(RowSymbol(grid, n, y))
  }

  /** A number reports some symbol exactly when it is a part number of the
      first part (3.py:39-59, 3p2.py:57-78). */
  lemma AdjacentNonEmptyIffPart(grid: Grid, n: Number)
    ensures |AdjacentSymbols(grid, n)| > 0 <==> IsPartNumber(grid, n)
  {
    TouchesIffRowSymbol(grid, n);
    AdjacentLength(grid, n);
  }

  /** One symbol at most is reported per row. */
  lemma AdjacentLength(grid: Grid, n: Number)
    ensures |AdjacentSymbols(grid, n)| == |RowReport(grid, n, n.y - 1)| + |RowReport(grid, n, n.y)| + |RowReport(grid, n, n.y + 1)|
  {
  }

  function OptionList(o: Outcomes.Option<Symbol>): (r: seq<Symbol>)
    ensures |r| <= 1
    ensures o.Some? <==> |r| == 1
    ensures o.Some? ==> r == [o.value]
  {
    if o.Some? then [o.value] else []
  }

  /** The symbol sits in the window around the number and the grid holds its kind there. */
  predicate Reports(grid: Grid, n: Number, s: Symbol)
  {
    n.y - 1 <= s.y <= n.y + 1 && s.y < |grid| && WindowStart(n) <= s.x <= n.xEnd && s.x < |grid[s.y]|
    && s.kind == grid[s.y][s.x] && IsSymbol(s.kind)
  }

  /** The symbols of row `y` in columns `[lo, hi)`, left to right. */
  function SymbolsIn(grid: Grid, y: nat, lo: nat, hi: nat): (r: seq<Symbol>)
    requires y < |grid|
    ensures forall j :: 0 <= j < |r| ==>
      (r[j].y == y && lo <= r[j].x < hi && r[j].x < |grid[y]| && r[j].kind == grid[y][r[j].x] && IsSymbol(r[j].kind))
    ensures forall x :: lo <= x < hi && x < |grid[y]| && IsSymbol(grid[y][x]) ==> Symbol(grid[y][x], y, x) in r
    ensures forall i, j :: 0 <= i < j < |r| ==> r[i].x < r[j].x
    decreases hi - lo
  {
    if hi <= lo then []
    else
      var rest := SymbolsIn(grid, y, lo, hi - 1);
      var x := hi - 1;
      if x < |grid[y]| && IsSymbol(grid[y][x]) then rest + [Symbol(grid[y][x], y, x)] else rest
  }

  function RowSymbols(grid: Grid, n: Number, y: int): (r: seq<Symbol>)
    requires n.y - 1 <= y <= n.y + 1
    ensures forall j :: 0 <= j < |r| ==> r[j].y == y && Reports(grid, n, r[j])
    ensures forall i, j :: 0 <= i < j < |r| ==> r[i].x < r[j].x
    ensures 0 <= y < |grid| ==> forall x :: WindowStart(n) <= x <= n.xEnd && x < |grid[y]| && IsSymbol(grid[y][x]) ==>
      Symbol(grid[y][x], y, x) in r
  {
    if 0 <= y < |grid| then SymbolsIn(grid, y, WindowStart(n), n.xEnd + 1) else []
  }

  /** Corrected reporting: every symbol touching the number, row by row and
      left to right within a row. */
  function AllAdjacentSymbols(grid: Grid, n: Number): (r: seq<Symbol>)
    ensures forall j :: 0 <= j < |r| ==> Reports(grid, n, r[j])
    ensures DistinctPositions(r)
  {
    var above := RowSymbols(grid, n, n.y - 1);
    var on := RowSymbols(grid, n, n.y);
    var below := RowSymbols(grid, n, n.y + 1);
    RowsDistinct(above, on, below, n.y);
    above + on + below
  }

  /** A row's symbols left to right. */
  predicate RowRun(syms: seq<Symbol>, y: int)
  {
    (forall j :: 0 <= j < |syms| ==> syms[j].y == y)
    && forall i, j :: 0 <= i < j < |syms| ==> syms[i].x < syms[j].x
  }

  /** Three rows' symbols, each left to right, name no position twice. */
  lemma RowsDistinct(above: seq<Symbol>, on: seq<Symbol>, below: seq<Symbol>, y: int)
    requires RowRun(above, y - 1) && RowRun(on, y) && RowRun(below, y + 1)
    ensures DistinctPositions(above + on + below)
  {
    var r := above + on + below;
    forall i, j | 0 <= i < j < |r|
      ensures PosOf(r[i]) != PosOf(r[j])
    {
      if i < |above| && j < |above| {
        assert r[i] == above[i] && r[j] == above[j];
      } else if |above| <= i && j < |above| + |on| {
        assert r[i] == on[i - |above|] && r[j] == on[j - |above|];
      } else if |above| + |on| <= i {
        assert r[i] == below[i - |above| - |on|] && r[j] == below[j - |above| - |on|];
      }
    }
  }

  /** The corrected list misses no touching symbol. */
  lemma AllAdjacentComplete(grid: Grid, n: Number, s: Symbol)
    requires Reports(grid, n, s)
    ensures s in AllAdjacentSymbols(grid, n)
  {
    assert s == Symbol(grid[s.y][s.x], s.y, s.x);
    if s.y == n.y - 1 {
      assert s in RowSymbols(grid, n, n.y - 1);
    } else if s.y == n.y {
      assert s in RowSymbols(grid, n, n.y);
    } else {
      assert s in RowSymbols(grid, n, n.y + 1);
    }
  }

  /** The corrected list is non-empty exactly for the part numbers of the first part. */
  lemma AllAdjacentNonEmptyIffPart(grid: Grid, n: Number)
    ensures |AllAdjacentSymbols(grid, n)| > 0 <==> IsPartNumber(grid, n)
  {
    var r := AllAdjacentSymbols(grid, n);
    if TouchesSymbol(grid, n) {
      TouchedIsReported(grid, n);
    }
    if |r| > 0 {
      ReportedTouches(grid, n, r[0]);
    }
  }

  /** A number touching a symbol has that symbol on the corrected list. */
  lemma TouchedIsReported(grid: Grid, n: Number)
    requires TouchesSymbol(grid, n)
    ensures |AllAdjacentSymbols(grid, n)| > 0
  {
    var y: int, x: nat :| n.y - 1 <= y <= n.y + 1 && 0 <= y < |grid| && WindowStart(n) <= x <= n.xEnd
      && x < |grid[y]| && IsSymbol(grid[y][x]);
    AllAdjacentComplete(grid, n, Symbol(grid[y][x], y, x));
  }

  /** A reported symbol is a symbol the number touches. */
  lemma ReportedTouches(grid: Grid, n: Number, s: Symbol)
    requires Reports(grid, n, s)
    ensures TouchesSymbol(grid, n)
  {
    assert IsSymbol(grid[s.y][s.x]);
  }

  /** The character at a position, or a blank off the grid. */
  function CharAt(grid: Grid, p: Pos): char
  {
    if p.y < |grid| && p.x < |grid[p.y]| then grid[p.y][p.x] else ' '
  }

  /** The number touches a symbol at the position. */
  predicate TouchesAt(grid: Grid, n: Number, p: Pos)
  {
    Reports(grid, n, Symbol(CharAt(grid, p), p.y, p.x))
  }

  /** The corrected list names each touched position once and nothing else. */
  lemma AllAdjacentMentions(grid: Grid, n: Number, p: Pos)
    ensures Mentions(AllAdjacentSymbols(grid, n), p) == if TouchesAt(grid, n, p) then 1 else 0
  {
    var syms := AllAdjacentSymbols(grid, n);
    MentionsDistinct(syms, p);
    if TouchesAt(grid, n, p) {
      var s := Symbol(CharAt(grid, p), p.y, p.x);
      AllAdjacentComplete(grid, n, s);
      var j :| 0 <= j < |syms| && syms[j] == s;
      assert PosOf(syms[j]) == p;
    } else {
      forall j | 0 <= j < |syms|
        ensures PosOf(syms[j]) != p
      {
        assert Reports(grid, n, syms[j]);
      }
    }
  }

  predicate DistinctPositions(syms: seq<Symbol>)
  {
    forall i, j :: 0 <= i < j < |syms| ==> PosOf(syms[i]) != PosOf(syms[j])
  }

  /** How often a list names a position. */
  function Mentions(syms: seq<Symbol>, p: Pos): nat
  {
    if |syms| == 0 then 0 else Mentions(syms[..|syms| - 1], p) + (if PosOf(syms[|syms| - 1]) == p then 1 else 0)
  }

  lemma {:induction false} MentionsDistinct(syms: seq<Symbol>, p: Pos)
    requires DistinctPositions(syms)
    ensures Mentions(syms, p) == (if exists j :: 0 <= j < |syms| && PosOf(syms[j]) == p then 1 else 0)
    decreases |syms|
  {
    if |syms| > 0 {
      var init := syms[..|syms| - 1];
      MentionsDistinct(init, p);
      if exists j :: 0 <= j < |init| && PosOf(init[j]) == p {
        var j :| 0 <= j < |init| && PosOf(init[j]) == p;
        assert syms[j] == init[j];
      }
      if exists j :: 0 <= j < |syms| && PosOf(syms[j]) == p {
        var j :| 0 <= j < |syms| && PosOf(syms[j]) == p;
        if j < |syms| - 1 {
          assert init[j] == syms[j];
        }
      }
    }
  }

  /** `Part.update` for each symbol a number reports (3p2.py:23-30, 53-54):
      the part at that position takes the symbol's kind and appends the value. */
  function Report(parts: Dict<Pos, Part>, syms: seq<Symbol>, value: nat): (r: Dict<Pos, Part>)
    requires parts.Valid()
    ensures r.Valid()
    ensures forall p :: r.Get(p, NoPart).values == parts.Get(p, NoPart).values + Repeat(value, Mentions(syms, p))
  {
    if |syms| == 0 then parts
    else
      var s := syms[|syms| - 1];
      var prefix := Report(parts, syms[..|syms| - 1], value);
      var prior := prefix.Get(PosOf(s), NoPart);
      ReportLast(parts, prefix, syms, value);
      prefix.Put(PosOf(s), Part(s.kind, prior.values + [value]))
  }

  /** `ReportLast` at one position. */
  lemma ReportLastAt(parts: Dict<Pos, Part>, prefix: Dict<Pos, Part>, syms: seq<Symbol>, value: nat, p: Pos)
    requires |syms| > 0
    requires prefix.Get(p, NoPart).values == parts.Get(p, NoPart).values + Repeat(value, Mentions(syms[..|syms| - 1], p))
    ensures var s := syms[|syms| - 1];
      var r := prefix.Put(PosOf(s), Part(s.kind, prefix.Get(PosOf(s), NoPart).values + [value]));
      r.Get(p, NoPart).values == parts.Get(p, NoPart).values + Repeat(value, Mentions(syms, p))
  {
    var s := syms[|syms| - 1];
    var r := prefix.Put(PosOf(s), Part(s.kind, prefix.Get(PosOf(s), NoPart).values + [value]));
    var init := syms[..|syms| - 1];
    var before := Repeat(value, Mentions(init, p));
    var base := parts.Get(p, NoPart).values;
    assert Mentions(syms, p) == Mentions(init, p) + (if PosOf(s) == p then 1 else 0);
    if p == PosOf(s) {
      assert r.Get(p, NoPart).values == (base + before) + [value];
      assert Repeat(value, Mentions(syms, p)) == before + [value];
      AppendOne(base, before, value);
    } else {
      assert r.Get(p, NoPart) == prefix.Get(p, NoPart);
    }
  }

  lemma AppendOne(a: seq<nat>, b: seq<nat>, x: nat)
    ensures (a + b) + [x] == a + (b + [x])
  {
  }

  /** The last symbol's report adds one more value at its position only. */
  lemma ReportLast(parts: Dict<Pos, Part>, prefix: Dict<Pos, Part>, syms: seq<Symbol>, value: nat)
    requires |syms| > 0
    requires forall p :: prefix.Get(p, NoPart).values == parts.Get(p, NoPart).values + Repeat(value, Mentions(syms[..|syms| - 1], p))
    ensures var s := syms[|syms| - 1];
      var r := prefix.Put(PosOf(s), Part(s.kind, prefix.Get(PosOf(s), NoPart).values + [value]));
      forall p :: r.Get(p, NoPart).values == parts.Get(p, NoPart).values + Repeat(value, Mentions(syms, p))
  {
    var s := syms[|syms| - 1];
    var r := prefix.Put(PosOf(s), Part(s.kind, prefix.Get(PosOf(s), NoPart).values + [value]));
    forall p
      ensures r.Get(p, NoPart).values == parts.Get(p, NoPart).values + Repeat(value, Mentions(syms, p))
    {
      ReportLastAt(parts, prefix, syms, value, p);
    }
  }

  /** A part that has not been reported yet: `Part()` has no values (3p2.py:21-22). */
  const NoPart := Part(' ', [])

  /** Every part's kind is the character at its position. */
  predicate KindsMatch(grid: Grid, parts: Dict<Pos, Part>)
  {
    forall p :: p in parts.entries ==> parts.entries[p].kind == CharAt(grid, p)
  }

  predicate FromGrid(grid: Grid, syms: seq<Symbol>)
  {
    forall j :: 0 <= j < |syms| ==> syms[j].kind == CharAt(grid, PosOf(syms[j]))
  }

  lemma {:induction false} ReportKeepsKinds(grid: Grid, parts: Dict<Pos, Part>, syms: seq<Symbol>, value: nat)
    requires parts.Valid() && KindsMatch(grid, parts) && FromGrid(grid, syms)
    ensures KindsMatch(grid, Report(parts, syms, value))
    decreases |syms|
  {
    if |syms| > 0 {
      ReportKeepsKinds(grid, parts, syms[..|syms| - 1], value);
    }
  }

  /** The parts table after every number has reported, given each number's
      list of reported symbols (3p2.py:48-55). */
  function Accumulate(numbers: seq<Number>, lists: seq<seq<Symbol>>): (r: Dict<Pos, Part>)
    requires |lists| == |numbers|
    ensures r.Valid()
    ensures forall p :: r.Get(p, NoPart).values == Contributions(numbers, lists, p)
  {
    if |numbers| == 0 then Empty()
    else
      var n := |numbers| - 1;
      Report(Accumulate(numbers[..n], lists[..n]), lists[n], numbers[n].value)
  }

  /** Reference: the values of the numbers, in order, once per time the
      number's list names the position. */
  function Contributions(numbers: seq<Number>, lists: seq<seq<Symbol>>, p: Pos): seq<nat>
    requires |lists| == |numbers|
  {
    if |numbers| == 0 then []
    else
      var n := |numbers| - 1;
      Contributions(numbers[..n], lists[..n], p) + Repeat(numbers[n].value, Mentions(lists[n], p))
  }

  /** `Schematic.is_gear` (3p2.py:86-91). */
  predicate IsGear(part: Part)
  {
    part.kind == '*' && |part.values| == 2
  }

  /** The sum of `values[0] * values[1]` over the gears, in key order (3p2.py:93-103). */
  function GearRatios(parts: Dict<Pos, Part>, keys: seq<Pos>): (r: int)
    requires forall j :: 0 <= j < |keys| ==> keys[j] in parts.entries
  {
    if |keys| == 0 then 0
    else
      var part := parts.entries[keys[|keys| - 1]];
      GearRatios(parts, keys[..|keys| - 1]) + (if IsGear(part) then part.values[0] * part.values[1] else 0)
  }

  function ReportedAsWritten(grid: Grid, numbers: seq<Number>): seq<seq<Symbol>>
  {
    seq(|numbers|, j requires 0 <= j < |numbers| => AdjacentSymbols(grid, numbers[j]))
  }

  function ReportedAll(grid: Grid, numbers: seq<Number>): seq<seq<Symbol>>
  {
    seq(|numbers|, j requires 0 <= j < |numbers| => AllAdjacentSymbols(grid, numbers[j]))
  }

  /** The answer as the source computes it (3p2.py:99-103). */
  function GearRatioSumAsWritten(grid: Grid): int
  {
    var numbers := Numbers(grid);
    var parts := Accumulate(numbers, ReportedAsWritten(grid, numbers));
    GearRatios(parts, parts.keys)
  }

  /** The answer with every touching symbol reported. */
  function GearRatioSum(grid: Grid): int
  {
    var numbers := Numbers(grid);
    var parts := Accumulate(numbers, ReportedAll(grid, numbers));
    GearRatios(parts, parts.keys)
  }

  /** Reference: the values of the numbers that touch a position, in order. */
  function TouchingValues(grid: Grid, numbers: seq<Number>, p: Pos): seq<nat>
  {
    if |numbers| == 0 then []
    else
      var n := numbers[|numbers| - 1];
      TouchingValues(grid, numbers[..|numbers| - 1], p) + (if TouchesAt(grid, n, p) then [n.value] else [])
  }

  /** With corrected reporting, each symbol collects exactly the values of
      the numbers that touch it, in order. */
  lemma CorrectedPartsCollectTouching(grid: Grid, numbers: seq<Number>, p: Pos)
    ensures Accumulate(numbers, ReportedAll(grid, numbers)).Get(p, NoPart).values == TouchingValues(grid, numbers, p)
  {
    CorrectedContributions(grid, numbers, p);
  }

  /** The reference contributions of the corrected lists are the touching values. */
  lemma {:induction false} CorrectedContributions(grid: Grid, numbers: seq<Number>, p: Pos)
    ensures Contributions(numbers, ReportedAll(grid, numbers), p) == TouchingValues(grid, numbers, p)
    decreases |numbers|
  {
    if |numbers| > 0 {
      var k := |numbers| - 1;
      assert ReportedAll(grid, numbers)[..k] == ReportedAll(grid, numbers[..k]);
      CorrectedContributions(grid, numbers[..k], p);
      AllAdjacentMentions(grid, numbers[k], p);
      assert Repeat(numbers[k].value, 1) == [numbers[k].value];
    }
  }

  /** Consequently a star is a gear exactly when two numbers touch it. */
  lemma CorrectedGearIffTwoTouching(grid: Grid, numbers: seq<Number>, p: Pos)
    requires p in Accumulate(numbers, ReportedAll(grid, numbers)).entries
    ensures var parts := Accumulate(numbers, ReportedAll(grid, numbers));
      IsGear(parts.entries[p]) <==> CharAt(grid, p) == '*' && |TouchingValues(grid, numbers, p)| == 2
  {
    var lists := ReportedAll(grid, numbers);
    CorrectedPartsCollectTouching(grid, numbers, p);
    forall j | 0 <= j < |lists|
      ensures FromGrid(grid, lists[j])
    {
      var syms := lists[j];
      assert forall i :: 0 <= i < |syms| ==> Reports(grid, numbers[j], syms[i]);
    }
    AccumulateKeepsKinds(grid, numbers, lists);
  }

  lemma {:induction false} AccumulateKeepsKinds(grid: Grid, numbers: seq<Number>, lists: seq<seq<Symbol>>)
    requires |lists| == |numbers|
    requires forall j :: 0 <= j < |lists| ==> FromGrid(grid, lists[j])
    ensures KindsMatch(grid, Accumulate(numbers, lists))
    decreases |numbers|
  {
    if |numbers| > 0 {
      var k := |numbers| - 1;
      AccumulateKeepsKinds(grid, numbers[..k], lists[..k]);
      ReportKeepsKinds(grid, Accumulate(numbers[..k], lists[..k]), lists[k], numbers[k].value);
    }
  }

  /** The leftmost-symbol reporting misses a gear: in the row "2*3*4" the
      number 3 touches both stars, yet only the first star hears of it, so the
      second star collects [4] instead of [3, 4]. */
  lemma AsWrittenMissesSecondStar()
    ensures AdjacentSymbols(["2*3*4"], Number(0, 2, 3, 3)) == [Symbol('*', 0, 1)]
    ensures Reports(["2*3*4"], Number(0, 2, 3, 3), Symbol('*', 0, 3))
    ensures Symbol('*', 0, 3) in AllAdjacentSymbols(["2*3*4"], Number(0, 2, 3, 3))
  {
    var grid := ["2*3*4"];
    var n := Number(0, 2, 3, 3);
    assert Slice(grid[0], 1, 4) == "*3*";
    assert FirstSymbol("*3*") == Outcomes.Some(0);
    assert Reports(grid, n, Symbol('*', 0, 3));
  }

  /** As written, a number reports no symbol to the right of another symbol
      of the same row of its window, although the corrected list names it. */
  lemma AsWrittenReportsOnlyLeftmost(grid: Grid, n: Number, y: nat, x1: nat, x2: nat)
    requires x1 < x2
    requires Reports(grid, n, Symbol(CharAt(grid, Pos(y, x1)), y, x1))
    requires Reports(grid, n, Symbol(CharAt(grid, Pos(y, x2)), y, x2))
    ensures Mentions(AdjacentSymbols(grid, n), Pos(y, x2)) == 0
    ensures Mentions(AllAdjacentSymbols(grid, n), Pos(y, x2)) == 1
  {
    var r := AdjacentSymbols(grid, n);
    assert DistinctPositions(r) by {
      forall i, j | 0 <= i < j < |r|
        ensures PosOf(r[i]) != PosOf(r[j])
      {
        assert r[i].y < r[j].y;
      }
    }
    MentionsDistinct(r, Pos(y, x2));
    forall j | 0 <= j < |r|
      ensures PosOf(r[j]) != Pos(y, x2)
    {
      if r[j].y == y {
        assert RowSymbol(grid, n, y) == Outcomes.Some(r[j]);
        assert r[j].x <= x1;
      }
    }
    AllAdjacentMentions(grid, n, Pos(y, x2));
  }
}

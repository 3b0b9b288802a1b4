/**
 * Parabolic Reflector Dish (14.py, 14p2.py): a platform of rounded rocks
 * 'O', which roll, cube rocks '#', which stay put, and empty cells '.'.
 * Tilting slides every rounded rock of a row towards its start until it
 * meets a cube rock, another rounded rock or the edge.
 */
module Boulders {
  import opened Outcomes
  import opened Seqs
  import Mirrors

  predicate IsCell(c: char)
  {
    c == 'O' || c == '.' || c == '#'
  }

  /** A row made only of the three cell kinds the puzzle uses. */
  predicate Platform(row: string)
  {
    forall i :: 0 <= i < |row| ==> IsCell(row[i])
  }

  // ---------------------------------------------------------------- sliding

  /** The loop of `slide` (14.py:32-59, 14p2.py:55-82) from the remaining
      cells on, with `mobile` rounded rocks and `empty` cells not yet
      committed: a cube rock commits the rocks, then the empty cells, then
      itself; any other character is skipped. */
  function Settle(row: string, mobile: nat, empty: nat): string
    decreases |row|
  {
    if |row| == 0 then Repeat('O', mobile) + Repeat('.', empty)
    else if row[0] == 'O' then Settle(row[1..], mobile + 1, empty)
    else if row[0] == '.' then Settle(row[1..], mobile, empty + 1)
    else if row[0] == '#' then Repeat('O', mobile) + Repeat('.', empty) + "#" + Settle(row[1..], 0, 0)
    else Settle(row[1..], mobile, empty)
  }

  /** `slide`: every rounded rock rolls to the start of its row. */
  function Slide(row: string): string
  {
    Settle(row, 0, 0)
  }

  /** The cells before the first cube rock. */
  function Segment(row: string): (seg: string)
    ensures |seg| <= |row| && seg == row[..|seg|]
    ensures forall i :: 0 <= i < |seg| ==> seg[i] != '#'
    ensures |seg| < |row| ==> row[|seg|] == '#'
  {
    if |row| == 0 || row[0] == '#' then [] else [row[0]] + Segment(row[1..])
  }

  /** A segment with its rounded rocks gathered at the start. */
  function Block(seg: string): (b: string)
    ensures |b| == Count(seg, 'O') + Count(seg, '.')
    ensures forall i :: 0 <= i < |b| ==> (b[i] == 'O' <==> i < Count(seg, 'O'))
    ensures forall i :: 0 <= i < |b| ==> (b[i] == '.' <==> Count(seg, 'O') <= i)
  {
    Repeat('O', Count(seg, 'O')) + Repeat('.', Count(seg, '.'))
  }

  /** Reference tilt, segment by segment: each stretch between cube rocks
      becomes its rounded rocks followed by its empty cells. */
  function Tilt(row: string): string
    decreases |row|
  {
    var seg := Segment(row);
    if |seg| == |row| then Block(seg) else Block(seg) + "#" + Tilt(row[|seg| + 1..])
  }

  /** No empty cell directly before a rounded rock: nothing can roll. */
  predicate Settled(row: string)
  {
    forall i :: 0 <= i < |row| - 1 && row[i] == '.' ==> row[i + 1] != 'O'
  }

  lemma {:induction false} CountRepeat(c: char, n: nat, d: char)
    ensures Count(Repeat(c, n), d) == if c == d then n else 0
  {
    if n > 0 {
      assert Repeat(c, n)[..n - 1] == Repeat(c, n - 1);
      CountRepeat(c, n - 1, d);
    }
  }

  lemma {:induction false} CountFront(s: string, d: char)
    requires |s| > 0
    ensures Count(s, d) == (if s[0] == d then 1 else 0) + Count(s[1..], d)
  {
    assert s == [s[0]] + s[1..];
    CountAppend([s[0]], s[1..], d);
  }

  lemma {:induction false} CountSegment(row: string, d: char)
    requires |Segment(row)| > 0
    ensures Count(Segment(row), d) == (if row[0] == d then 1 else 0) + Count(Segment(row[1..]), d)
  {
    CountFront(Segment(row), d);
    assert Segment(row)[1..] == Segment(row[1..]);
  }

  /** What follows the first segment of a row in its tilt. */
  function TiltTail(row: string): string
  {
    var seg := Segment(row);
    if |seg| == |row| then "" else "#" + Tilt(row[|seg| + 1..])
  }

  lemma TiltByTail(row: string)
    ensures Tilt(row) == Block(Segment(row)) + TiltTail(row)
  {
  }

  /** The loop's output is the segment-by-segment tilt, with the pending
      rocks and empty cells added to the first segment. */
  lemma {:induction false} SettleTilt(row: string, mobile: nat, empty: nat)
    ensures Settle(row, mobile, empty)
      == Repeat('O', mobile + Count(Segment(row), 'O')) + Repeat('.', empty + Count(Segment(row), '.')) + TiltTail(row)
    decreases |row|
  {
    if |row| == 0 {
      SettleTiltAtEnd(row, mobile, empty);
    } else if row[0] == '#' {
      SettleTilt(row[1..], 0, 0);
      SettleTiltAtRock(row, mobile, empty);
    } else {
      var m := if row[0] == 'O' then mobile + 1 else mobile;
      var e := if row[0] == '.' then empty + 1 else empty;
      SettleTilt(row[1..], m, e);
      SettleTiltStep(row, mobile, empty);
    }
  }

  lemma SettleTiltAtEnd(row: string, mobile: nat, empty: nat)
    requires |row| == 0
    ensures Settle(row, mobile, empty)
      == Repeat('O', mobile + Count(Segment(row), 'O')) + Repeat('.', empty + Count(Segment(row), '.')) + TiltTail(row)
  {
    assert Segment(row) == [] && TiltTail(row) == [];
    assert Count(Segment(row), 'O') == 0 && Count(Segment(row), '.') == 0;
  }

  lemma SettleTiltAtRock(row: string, mobile: nat, empty: nat)
    requires |row| > 0 && row[0] == '#'
    requires Settle(row[1..], 0, 0)
      == Repeat('O', Count(Segment(row[1..]), 'O')) + Repeat('.', Count(Segment(row[1..]), '.')) + TiltTail(row[1..])
    ensures Settle(row, mobile, empty)
      == Repeat('O', mobile + Count(Segment(row), 'O')) + Repeat('.', empty + Count(Segment(row), '.')) + TiltTail(row)
  {
    TiltByTail(row[1..]);
    SettleAtRock(row, mobile, empty);
    TailAtRock(row);
  }

  /** A cube rock commits what is pending and starts afresh after it. */
  lemma SettleAtRock(row: string, mobile: nat, empty: nat)
    requires |row| > 0 && row[0] == '#'
    ensures Settle(row, mobile, empty) == Repeat('O', mobile) + Repeat('.', empty) + ("#" + Settle(row[1..], 0, 0))
  {
    var front := Repeat('O', mobile) + Repeat('.', empty);
    var rest := Settle(row[1..], 0, 0);
    assert Settle(row, mobile, empty) == front + "#" + rest;
    Associate(front, "#", rest);
  }

  lemma Associate(a: string, b: string, c: string)
    ensures a + b + c == a + (b + c)
  {
  }

  /** A row starting with a cube rock has an empty first segment. */
  lemma TailAtRock(row: string)
    requires |row| > 0 && row[0] == '#'
    ensures Count(Segment(row), 'O') == 0 && Count(Segment(row), '.') == 0
    ensures TiltTail(row) == "#" + Tilt(row[1..])
  {
    var seg := Segment(row);
    assert seg == [];
    assert row[|seg| + 1..] == row[1..];
    assert TiltTail(row) == "#" + Tilt(row[|seg| + 1..]);
  }

  lemma SettleTiltStep(row: string, mobile: nat, empty: nat)
    requires |row| > 0 && row[0] != '#'
    requires var m := if row[0] == 'O' then mobile + 1 else mobile;
      var e := if row[0] == '.' then empty + 1 else empty;
      Settle(row[1..], m, e)
      == Repeat('O', m + Count(Segment(row[1..]), 'O')) + Repeat('.', e + Count(Segment(row[1..]), '.')) + TiltTail(row[1..])
    ensures Settle(row, mobile, empty)
      == Repeat('O', mobile + Count(Segment(row), 'O')) + Repeat('.', empty + Count(Segment(row), '.')) + TiltTail(row)
  {
    var m := if row[0] == 'O' then mobile + 1 else mobile;
    var e := if row[0] == '.' then empty + 1 else empty;
    assert Settle(row, mobile, empty) == Settle(row[1..], m, e);
    CountSegment(row, 'O');
    CountSegment(row, '.');
    var seg := Segment(row);
    var rest := Segment(row[1..]);
    assert |seg| == |rest| + 1;
    assert |seg| < |row| ==> row[|seg| + 1..] == row[1..][|rest| + 1..];
    assert TiltTail(row[1..]) == TiltTail(row);
  }

  /** The loop as written computes the reference tilt. */
  lemma SlideIsTilt(row: string)
    ensures Slide(row) == Tilt(row)
  {
    SettleTilt(row, 0, 0);
    TiltByTail(row);
  }

  lemma {:induction false} CellCounts(s: string)
    requires forall i :: 0 <= i < |s| ==> s[i] == 'O' || s[i] == '.'
    ensures Count(s, 'O') + Count(s, '.') == |s|
  {
    if |s| > 0 {
      CellCounts(s[..|s| - 1]);
    }
  }

  lemma {:induction false} SplitAtSegment(row: string)
    requires |Segment(row)| < |row|
    ensures var seg := Segment(row);
      row == seg + "#" + row[|seg| + 1..]
  {
    var seg := Segment(row);
    assert row == row[..|seg|] + [row[|seg|]] + row[|seg| + 1..];
  }

  /** Tilting keeps the length of a row of the three cell kinds. */
  lemma {:induction false} TiltLength(row: string)
    requires Platform(row)
    ensures |Tilt(row)| == |row|
    decreases |row|
  {
    var seg := Segment(row);
    CellCounts(seg);
    if |seg| < |row| {
      TiltLength(row[|seg| + 1..]);
    }
  }

  /** Tilting keeps every cube rock where it was, and puts none elsewhere. */
  lemma {:induction false} TiltHashes(row: string)
    requires Platform(row)
    ensures |Tilt(row)| == |row|
    ensures forall i :: 0 <= i < |row| ==> (Tilt(row)[i] == '#' <==> row[i] == '#')
    decreases |row|
  {
    TiltLength(row);
    var seg := Segment(row);
    if |seg| < |row| {
      TiltHashes(row[|seg| + 1..]);
      TiltHashesJoin(row);
    } else {
      TiltHashesNone(row);
    }
  }

  /** A row without cube rocks tilts to one without. */
  lemma TiltHashesNone(row: string)
    requires Platform(row) && |Segment(row)| == |row|
    ensures |Tilt(row)| == |row|
    ensures forall i :: 0 <= i < |row| ==> (Tilt(row)[i] == '#' <==> row[i] == '#')
  {
    TiltLength(row);
    var seg := Segment(row);
    CellCounts(seg);
    var b := Block(seg);
    assert Tilt(row) == b;
    forall i | 0 <= i < |row|
      ensures b[i] != '#' && row[i] != '#'
    {
      assert seg[i] == row[i];
    }
  }

  lemma TiltHashesJoin(row: string)
    requires Platform(row) && |Segment(row)| < |row|
    requires var after := row[|Segment(row)| + 1..];
      && |Tilt(after)| == |after|
      && forall i :: 0 <= i < |after| ==> (Tilt(after)[i] == '#' <==> after[i] == '#')
    ensures |Tilt(row)| == |row|
    ensures forall i :: 0 <= i < |row| ==> (Tilt(row)[i] == '#' <==> row[i] == '#')
  {
    TiltLength(row);
    var seg := Segment(row);
    CellCounts(seg);
    var after := row[|seg| + 1..];
    var b := Block(seg);
    assert Tilt(row) == b + "#" + Tilt(after);
    SplitAtSegment(row);
    assert forall i :: 0 <= i < |b| ==> b[i] != '#';
    JoinHashes(b, seg, Tilt(after), after);
  }

  /** Joining, at a cube rock, pieces whose cube rocks sit in the same
      places keeps them in the same places. */
  lemma JoinHashes(b: string, seg: string, t: string, after: string)
    requires |b| == |seg| && |t| == |after|
    requires forall i :: 0 <= i < |b| ==> b[i] != '#' && seg[i] != '#'
    requires forall i :: 0 <= i < |t| ==> (t[i] == '#' <==> after[i] == '#')
    ensures var x, y := b + "#" + t, seg + "#" + after;
      forall i :: 0 <= i < |x| ==> (x[i] == '#' <==> y[i] == '#')
  {
    var x, y := b + "#" + t, seg + "#" + after;
    forall i | 0 <= i < |x|
      ensures x[i] == '#' <==> y[i] == '#'
    {
      if i < |b| {
        assert x[i] == b[i] && y[i] == seg[i];
      } else if i > |b| {
        assert x[i] == t[i - |b| - 1] && y[i] == after[i - |b| - 1];
      }
    }
  }


  /** Tilting keeps the number of rounded rocks and of empty cells. */
  lemma {:induction false} TiltCounts(row: string, d: char)
    requires d == 'O' || d == '.'
    ensures Count(Tilt(row), d) == Count(row, d)
    decreases |row|
  {
    var seg := Segment(row);
    BlockCount(seg, d);
    if |seg| == |row| {
      assert seg == row;
    } else {
      TiltCounts(row[|seg| + 1..], d);
      TiltCountsJoin(row, d);
    }
  }

  /** A block counts the rounded rocks and empty cells of its segment. */
  lemma BlockCount(seg: string, d: char)
    requires d == 'O' || d == '.'
    ensures Count(Block(seg), d) == Count(seg, d)
  {
    CountRepeat('O', Count(seg, 'O'), d);
    CountRepeat('.', Count(seg, '.'), d);
    CountAppend(Repeat('O', Count(seg, 'O')), Repeat('.', Count(seg, '.')), d);
  }

  lemma TiltCountsJoin(row: string, d: char)
    requires d == 'O' || d == '.'
    requires |Segment(row)| < |row|
    requires Count(Block(Segment(row)), d) == Count(Segment(row), d)
    requires Count(Tilt(row[|Segment(row)| + 1..]), d) == Count(row[|Segment(row)| + 1..], d)
    ensures Count(Tilt(row), d) == Count(row, d)
  {
    var seg := Segment(row);
    var after := row[|seg| + 1..];
    SplitAtSegment(row);
    CountAppend(seg + "#", after, d);
    CountAppend(seg, "#", d);
    assert Tilt(row) == Block(seg) + "#" + Tilt(after);
    CountAppend(Block(seg) + "#", Tilt(after), d);
    CountAppend(Block(seg), "#", d);
  }

  /** Whatever the input, the tilted row holds only the three cell kinds. */
  lemma {:induction false} TiltPlatform(row: string)
    ensures Platform(Tilt(row))
    decreases |row|
  {
    var seg := Segment(row);
    if |seg| < |row| {
      TiltPlatform(row[|seg| + 1..]);
    }
  }

  /** Nothing can roll any further in a tilted row. */
  lemma {:induction false} TiltSettled(row: string)
    ensures Settled(Tilt(row))
    decreases |row|
  {
    var seg := Segment(row);
    var b := Block(seg);
    BlockSettled(seg);
    if |seg| < |row| {
      var after := row[|seg| + 1..];
      TiltSettled(after);
      assert Tilt(row) == b + "#" + Tilt(after);
      JoinSettled(b, Tilt(after));
    }
  }

  /** A block has every rounded rock before every empty cell. */
  lemma BlockSettled(seg: string)
    ensures Settled(Block(seg))
  {
  }

  /** Settled pieces joined at a cube rock stay settled. */
  lemma JoinSettled(b: string, t: string)
    requires Settled(b) && Settled(t)
    ensures Settled(b + "#" + t)
  {
    var x := b + "#" + t;
    forall i | 0 <= i < |x| - 1 && x[i] == '.'
      ensures x[i + 1] != 'O'
    {
      if i < |b| - 1 {
        assert x[i] == b[i] && x[i + 1] == b[i + 1];
      } else if i > |b| {
        assert x[i] == t[i - |b| - 1] && x[i + 1] == t[i - |b|];
      }
    }
  }

  /** In a settled row of the three cell kinds, every empty cell before a
      rounded rock is separated from it by a cube rock. */
  lemma {:induction false} SettledSeparates(row: string, i: nat, j: nat)
    requires Platform(row) && Settled(row)
    requires i < j < |row| && row[i] == '.' && row[j] == 'O'
    ensures exists k :: i < k < j && row[k] == '#'
    decreases j - i
  {
    assert row[i + 1] != 'O';
    if row[i + 1] != '#' {
      SettledSeparates(row, i + 1, j);
    }
  }

  /** The segment before a cube rock that follows a rock-free stretch. */
  lemma {:induction false} SegmentOf(a: string, b: string)
    requires forall i :: 0 <= i < |a| ==> a[i] != '#'
    ensures Segment(a + "#" + b) == a
    ensures Segment(a) == a
    decreases |a|
  {
    if |a| > 0 {
      assert (a + "#" + b)[1..] == a[1..] + "#" + b;
      SegmentOf(a[1..], b);
    }
  }

  lemma BlockFixed(seg: string)
    ensures Segment(Block(seg)) == Block(seg)
    ensures Block(Block(seg)) == Block(seg)
  {
    var b := Block(seg);
    SegmentOf(b, "");
    CountRepeat('O', Count(seg, 'O'), 'O');
    CountRepeat('.', Count(seg, '.'), 'O');
    CountRepeat('O', Count(seg, 'O'), '.');
    CountRepeat('.', Count(seg, '.'), '.');
    CountAppend(Repeat('O', Count(seg, 'O')), Repeat('.', Count(seg, '.')), 'O');
    CountAppend(Repeat('O', Count(seg, 'O')), Repeat('.', Count(seg, '.')), '.');
  }

  /** Tilting a tilted row changes nothing. */
  lemma {:induction false} TiltIdempotent(row: string)
    ensures Tilt(Tilt(row)) == Tilt(row)
    decreases |row|
  {
    var seg := Segment(row);
    var b := Block(seg);
    BlockFixed(seg);
    if |seg| < |row| {
      var after := row[|seg| + 1..];
      TiltIdempotent(after);
      var t := Tilt(row);
      assert t == b + "#" + Tilt(after);
      SegmentOf(b, Tilt(after));
      assert t[|b| + 1..] == Tilt(after);
    }
  }

  /** `slide` on a row of the three cell kinds keeps its length, its cube
      rocks and its number of rounded rocks, leaves every rounded rock of a
      stretch before its empty cells, and is idempotent. */
  lemma SlideProperties(row: string)
    requires Platform(row)
    ensures |Slide(row)| == |row|
    ensures forall i :: 0 <= i < |row| ==> (Slide(row)[i] == '#' <==> row[i] == '#')
    ensures Count(Slide(row), 'O') == Count(row, 'O')
    ensures Platform(Slide(row))
    ensures Settled(Slide(row))
    ensures forall i, j :: 0 <= i < j < |row| && Slide(row)[i] == '.' && Slide(row)[j] == 'O' ==>
      exists k :: i < k < j && Slide(row)[k] == '#'
    ensures Slide(Slide(row)) == Slide(row)
  {
    SlideIsTilt(row);
    TiltHashes(row);
    TiltCounts(row, 'O');
    TiltPlatform(row);
    TiltSettled(row);
    var t := Slide(row);
    forall i, j | 0 <= i < j < |row| && t[i] == '.' && t[j] == 'O'
      ensures exists k :: i < k < j && t[k] == '#'
    {
      SettledSeparates(t, i, j);
    }
    SlideIsTilt(t);
    TiltIdempotent(row);
  }

  // ------------------------------------------------------------------ grids

  /** A non-empty rectangular platform of the three cell kinds. */
  predicate Grid(rows: seq<string>)
  {
    && |rows| > 0 && |rows[0]| > 0 && Rectangular(rows)
    && forall y :: 0 <= y < |rows| ==> Platform(rows[y])
  }

  /** `transpose` (14p2.py:14-18): `zip(*rows)` runs as far as the shortest
      row, so a grid with an empty row has no columns at all. */
  function Transpose(rows: seq<string>): (t: seq<string>)
    ensures |t| == Mirrors.MinWidth(rows)
    ensures forall x :: 0 <= x < |t| ==> |t[x]| == |rows|
    ensures forall x, y :: 0 <= x < |t| && 0 <= y < |rows| ==> t[x][y] == rows[y][x]
  {
    var w := Mirrors.MinWidth(rows);
    seq(w, x requires 0 <= x < w => seq(|rows|, y requires 0 <= y < |rows| => rows[y][x]))
  }

  lemma RectangularWidth(rows: seq<string>)
    requires Rectangular(rows) && |rows| > 0
    ensures Mirrors.MinWidth(rows) == |rows[0]|
  {
  }

  /** `flip` of 14.py (joining and splitting again) is `transpose` as soon
      as there is at least one column. */
  lemma FlipIsTranspose(rows: seq<string>)
    requires Mirrors.MinWidth(rows) > 0
    ensures Mirrors.Flip(rows) == Transpose(rows)
  {
  }

  /** Transposing a non-empty rectangular grid gives a rectangular grid of
      the swapped size, and transposing twice gives the grid back. */
  lemma TransposeTwice(rows: seq<string>)
    requires Rectangular(rows) && |rows| > 0 && |rows[0]| > 0
    ensures |Transpose(rows)| == |rows[0]| && Rectangular(Transpose(rows))
    ensures Transpose(Transpose(rows)) == rows
  {
    RectangularWidth(rows);
    var t := Transpose(rows);
    RectangularWidth(t);
    var u := Transpose(t);
    assert |u| == |rows|;
    forall y | 0 <= y < |rows|
      ensures u[y] == rows[y]
    {
      assert |u[y]| == |t| == |rows[y]|;
    }
  }

  /** `flip` of 14p2.py (14p2.py:20-24) reverses a row, and is its own
      inverse. */
  lemma FlipRowTwice(row: string)
    ensures |Reverse(row)| == |row|
    ensures forall i :: 0 <= i < |row| ==> Reverse(row)[i] == row[|row| - 1 - i]
    ensures Reverse(Reverse(row)) == row
  {
    ReverseInvolution(row);
  }

  /** A tilt direction of 14p2.py:26-40: whether the grid is transposed
      so that columns become rows, and whether each row is reversed so
      that its far end becomes its start. */
  datatype Direction = Direction(transposed: bool, reversed: bool)

  const West := Direction(false, false)
  const North := Direction(true, false)
  const East := Direction(false, true)
  const South := Direction(true, true)

  function ApplyRows(d: Direction, rows: seq<string>): seq<string>
  {
    if d.transposed then Transpose(rows) else rows
  }

  function ApplyCells(d: Direction, row: string): string
  {
    if d.reversed then Reverse(row) else row
  }

  /** One line tilted towards `d`: turned, slid to its start, turned back. */
  function TiltLine(d: Direction, line: string): string
  {
    ApplyCells(d, Slide(ApplyCells(d, line)))
  }

  /** `slide_all(dir)` (14p2.py:84-90). */
  function SlideAll(rows: seq<string>, d: Direction): seq<string>
  {
    var lines := ApplyRows(d, rows);
    ApplyRows(d, seq(|lines|, k requires 0 <= k < |lines| => TiltLine(d, lines[k])))
  }

  /** `do_cycle` (14p2.py:92-99): tilt north, west, south, then east. */
  function Cycle(rows: seq<string>): seq<string>
  {
    SlideAll(SlideAll(SlideAll(SlideAll(rows, North), West), South), East)
  }

  /** Nothing can roll any further towards `d`. */
  predicate Tilted(rows: seq<string>, d: Direction)
  {
    var lines := ApplyRows(d, rows);
    forall k :: 0 <= k < |lines| ==> Settled(ApplyCells(d, lines[k]))
  }

  // ----------------------------------------------------------------- counts

  /** Weighted count of `c` over the first `k` rows: row `y` weighs `ws[y]`
      per cell holding `c`. */
  function Tally(g: seq<string>, ws: seq<int>, c: char, k: nat): int
    requires k <= |g| && k <= |ws|
  {
    if k == 0 then 0 else Tally(g, ws, c, k - 1) + ws[k - 1] * Count(g[k - 1], c)
  }

  /** Weighted count of `c` along one line: cell `i` weighs `ws[i]`. */
  function Weigh(line: string, ws: seq<int>, c: char): int
    requires |line| <= |ws|
  {
    if |line| == 0 then 0
    else Weigh(line[..|line| - 1], ws, c) + (if line[|line| - 1] == c then ws[|line| - 1] else 0)
  }

  /** Sum of `Weigh` over the first `k` lines. */
  function WeighAll(lines: seq<string>, ws: seq<int>, c: char, k: nat): int
    requires k <= |lines|
    requires forall x :: 0 <= x < |lines| ==> |lines[x]| <= |ws|
  {
    if k == 0 then 0 else WeighAll(lines, ws, c, k - 1) + Weigh(lines[k - 1], ws, c)
  }

  function Ones(n: nat): (r: seq<int>)
    ensures |r| == n && forall i :: 0 <= i < n ==> r[i] == 1
  {
    Repeat(1, n)
  }

  /** The weight of each row in 14p2.py: its distance from the south edge. */
  function Heights(n: nat): (r: seq<int>)
    ensures |r| == n && forall i :: 0 <= i < n ==> r[i] == n - i
  {
    seq(n, i requires 0 <= i < n => n - i)
  }

  /** How many cells of the grid hold `c`. */
  function GridCount(g: seq<string>, c: char): int
  {
    Tally(g, Ones(|g|), c, |g|)
  }

  /** The rows cut to their first `w` cells. */
  function Clip(g: seq<string>, w: nat): (r: seq<string>)
    requires forall y :: 0 <= y < |g| ==> w <= |g[y]|
    ensures |r| == |g| && forall y :: 0 <= y < |g| ==> r[y] == g[y][..w]
  {
    seq(|g|, y requires 0 <= y < |g| => g[y][..w])
  }

  lemma {:induction false} TallyEmptyRows(g: seq<string>, ws: seq<int>, c: char, k: nat)
    requires k <= |g| && k <= |ws|
    requires forall y :: 0 <= y < |g| ==> g[y] == ""
    ensures Tally(g, ws, c, k) == 0
  {
    if k > 0 {
      TallyEmptyRows(g, ws, c, k - 1);
    }
  }

  lemma Distribute(a: int, b: int, h: int)
    ensures a * (b + h) == a * b + a * h
  {
  }

  /** Widening the clip by one column adds that column's weight. */
  lemma {:induction false} PeelColumn(g: seq<string>, ws: seq<int>, c: char, w: nat, col: string, k: nat)
    requires forall y :: 0 <= y < |g| ==> w < |g[y]|
    requires |col| == |g| && forall y :: 0 <= y < |g| ==> col[y] == g[y][w]
    requires k <= |g| <= |ws|
    ensures Tally(Clip(g, w + 1), ws, c, k) == Tally(Clip(g, w), ws, c, k) + Weigh(col[..k], ws, c)
  {
    if k > 0 {
      PeelColumn(g, ws, c, w, col, k - 1);
      var row := g[k - 1];
      assert row[..w + 1][..w] == row[..w];
      var hit := if row[w] == c then 1 else 0;
      assert Count(row[..w + 1], c) == Count(row[..w], c) + hit;
      assert col[..k][..k - 1] == col[..k - 1];
      assert Weigh(col[..k], ws, c) == Weigh(col[..k - 1], ws, c) + ws[k - 1] * hit;
      Distribute(ws[k - 1], Count(row[..w], c), hit);
    }
  }

  lemma {:induction false} ExchangeUpTo(g: seq<string>, ws: seq<int>, c: char, w: nat)
    requires Rectangular(g) && |g| > 0 && w <= |g[0]|
    requires |g| == |ws|
    ensures WeighAll(Transpose(g), ws, c, Min(w, |Transpose(g)|)) == Tally(Clip(g, w), ws, c, |g|)
  {
    RectangularWidth(g);
    if w == 0 {
      TallyEmptyRows(Clip(g, 0), ws, c, |g|);
    } else {
      ExchangeUpTo(g, ws, c, w - 1);
      var col := Transpose(g)[w - 1];
      PeelColumn(g, ws, c, w - 1, col, |g|);
      assert col[..|g|] == col;
    }
  }

  /** Summing a rectangular grid's weighted cells column by column gives
      the same as summing them row by row. */
  lemma Exchange(g: seq<string>, ws: seq<int>, c: char)
    requires Rectangular(g) && |g| > 0 && |g[0]| > 0
    requires |g| == |ws|
    ensures WeighAll(Transpose(g), ws, c, |Transpose(g)|) == Tally(g, ws, c, |g|)
  {
    RectangularWidth(g);
    ExchangeUpTo(g, ws, c, |g[0]|);
    var clipped := Clip(g, |g[0]|);
    forall y | 0 <= y < |g|
      ensures clipped[y] == g[y]
    {
      assert g[y][..|g[y]|] == g[y];
    }
    assert clipped == g;
  }

  lemma {:induction false} WeighOnes(line: string, n: nat, c: char)
    requires |line| <= n
    ensures Weigh(line, Ones(n), c) == Count(line, c)
  {
    if |line| > 0 {
      WeighOnes(line[..|line| - 1], n, c);
    }
  }

  lemma {:induction false} WeighAllOnes(lines: seq<string>, n: nat, c: char, k: nat)
    requires k <= |lines|
    requires forall x :: 0 <= x < |lines| ==> |lines[x]| <= n
    ensures WeighAll(lines, Ones(n), c, k) == Tally(lines, Ones(|lines|), c, k)
  {
    if k > 0 {
      WeighAllOnes(lines, n, c, k - 1);
      WeighOnes(lines[k - 1], n, c);
    }
  }

  /** Transposing keeps the number of cells holding `c`. */
  lemma TransposeCount(g: seq<string>, c: char)
    requires Rectangular(g) && |g| > 0 && |g[0]| > 0
    ensures GridCount(Transpose(g), c) == GridCount(g, c)
  {
    var t := Transpose(g);
    Exchange(g, Ones(|g|), c);
    WeighAllOnes(t, |g|, c, |t|);
  }

  lemma {:induction false} TallyRowwise(a: seq<string>, b: seq<string>, ws: seq<int>, c: char, k: nat)
    requires k <= |a| == |b| && k <= |ws|
    requires forall y :: 0 <= y < |a| ==> Count(a[y], c) == Count(b[y], c)
    ensures Tally(a, ws, c, k) == Tally(b, ws, c, k)
  {
    if k > 0 {
      TallyRowwise(a, b, ws, c, k - 1);
    }
  }

  lemma {:induction false} CountReverse(s: string, c: char)
    ensures Count(Reverse(s), c) == Count(s, c)
  {
    if |s| > 0 {
      var last := s[|s| - 1];
      assert Reverse(s) == [last] + Reverse(s[..|s| - 1]);
      CountAppend([last], Reverse(s[..|s| - 1]), c);
      CountReverse(s[..|s| - 1], c);
    }
  }

  // ----------------------------------------------------------------- tilting

  /** A line tilted towards any direction keeps its length, its cube rocks
      and its number of rounded rocks, and nothing in it can roll further
      towards that direction. */
  lemma TiltLineKeeps(d: Direction, line: string)
    requires Platform(line)
    ensures var t := TiltLine(d, line);
      && |t| == |line| && Platform(t)
      && (forall i :: 0 <= i < |line| ==> (t[i] == '#' <==> line[i] == '#'))
      && Count(t, 'O') == Count(line, 'O')
      && Settled(ApplyCells(d, t))
  {
    var a := ApplyCells(d, line);
    var t := TiltLine(d, line);
    assert Platform(a);
    SlideProperties(a);
    if d.reversed {
      ReverseInvolution(Slide(a));
      CountReverse(Slide(a), 'O');
      CountReverse(line, 'O');
    }
  }

  /** The transpose of a grid is a grid of the swapped size. */
  lemma TransposeGrid(g: seq<string>)
    requires Grid(g)
    ensures var t := Transpose(g);
      && Grid(t) && |t| == |g[0]| && |t[0]| == |g|
  {
    TransposeTwice(g);
    var t := Transpose(g);
    forall x | 0 <= x < |t|
      ensures Platform(t[x])
    {
      forall y | 0 <= y < |t[x]|
        ensures IsCell(t[x][y])
      {
        assert t[x][y] == g[y][x];
      }
    }
  }

  /** The lines of a transposed tilt, before being transposed back. */
  function TiltedLines(lines: seq<string>, d: Direction): (s: seq<string>)
    ensures |s| == |lines| && forall k :: 0 <= k < |lines| ==> s[k] == TiltLine(d, lines[k])
  {
    seq(|lines|, k requires 0 <= k < |lines| => TiltLine(d, lines[k]))
  }

  lemma TiltedLinesKeep(lines: seq<string>, d: Direction)
    requires Grid(lines)
    ensures var s := TiltedLines(lines, d);
      && Grid(s) && |s[0]| == |lines[0]|
      && (forall k, i :: 0 <= k < |lines| && 0 <= i < |lines[k]| ==> (s[k][i] == '#' <==> lines[k][i] == '#'))
      && GridCount(s, 'O') == GridCount(lines, 'O')
      && (forall k :: 0 <= k < |s| ==> Settled(ApplyCells(d, s[k])))
  {
    var s := TiltedLines(lines, d);
    forall k | 0 <= k < |lines|
      ensures |s[k]| == |lines[k]| && Platform(s[k]) && Count(s[k], 'O') == Count(lines[k], 'O')
      ensures forall i :: 0 <= i < |lines[k]| ==> (s[k][i] == '#' <==> lines[k][i] == '#')
      ensures Settled(ApplyCells(d, s[k]))
    {
      TiltLineKeeps(d, lines[k]);
    }
    TallyRowwise(s, lines, Ones(|lines|), 'O', |lines|);
  }

  lemma SlideAllAlong(rows: seq<string>, d: Direction)
    requires Grid(rows) && !d.transposed
    ensures var r := SlideAll(rows, d);
      && Grid(r) && |r| == |rows| && |r[0]| == |rows[0]|
      && (forall y, x :: 0 <= y < |rows| && 0 <= x < |rows[y]| ==> (r[y][x] == '#' <==> rows[y][x] == '#'))
      && GridCount(r, 'O') == GridCount(rows, 'O')
      && Tilted(r, d)
  {
    assert SlideAll(rows, d) == TiltedLines(rows, d);
    TiltedLinesKeep(rows, d);
  }

  lemma SlideAllAcross(rows: seq<string>, d: Direction)
    requires Grid(rows) && d.transposed
    ensures var r := SlideAll(rows, d);
      && Grid(r) && |r| == |rows| && |r[0]| == |rows[0]|
      && (forall y, x :: 0 <= y < |rows| && 0 <= x < |rows[y]| ==> (r[y][x] == '#' <==> rows[y][x] == '#'))
      && GridCount(r, 'O') == GridCount(rows, 'O')
      && Tilted(r, d)
  {
    var t := Transpose(rows);
    TransposeGrid(rows);
    var s := TiltedLines(t, d);
    TiltedLinesKeep(t, d);
    var r := Transpose(s);
    assert r == SlideAll(rows, d);
    TransposeGrid(s);
    TransposeTwice(s);
    assert Transpose(r) == s;
    forall y, x | 0 <= y < |rows| && 0 <= x < |rows[y]|
      ensures r[y][x] == '#' <==> rows[y][x] == '#'
    {
      assert r[y][x] == s[x][y];
      assert t[x][y] == rows[y][x];
    }
    TransposeCount(s, 'O');
    TransposeCount(rows, 'O');
  }

  /** `slide_all(dir)` keeps the grid's size, its cube rocks and its number
      of rounded rocks, whatever the direction, and leaves nothing that can
      roll further towards that direction. */
  lemma SlideAllKeeps(rows: seq<string>, d: Direction)
    requires Grid(rows)
    ensures var r := SlideAll(rows, d);
      && Grid(r) && |r| == |rows| && |r[0]| == |rows[0]|
      && (forall y, x :: 0 <= y < |rows| && 0 <= x < |rows[y]| ==> (r[y][x] == '#' <==> rows[y][x] == '#'))
      && GridCount(r, 'O') == GridCount(rows, 'O')
      && Tilted(r, d)
  {
    if d.transposed {
      SlideAllAcross(rows, d);
    } else {
      SlideAllAlong(rows, d);
    }
  }

  lemma TiltLineTwice(d: Direction, line: string)
    ensures TiltLine(d, TiltLine(d, line)) == TiltLine(d, line)
  {
    var a := Slide(ApplyCells(d, line));
    ReverseInvolution(a);
    assert ApplyCells(d, ApplyCells(d, a)) == a;
    SlideIsTilt(a);
    SlideIsTilt(ApplyCells(d, line));
    TiltIdempotent(ApplyCells(d, line));
  }

  lemma TiltedLinesTwice(lines: seq<string>, d: Direction)
    ensures TiltedLines(TiltedLines(lines, d), d) == TiltedLines(lines, d)
  {
    var s := TiltedLines(lines, d);
    forall k | 0 <= k < |s|
      ensures TiltLine(d, s[k]) == s[k]
    {
      TiltLineTwice(d, lines[k]);
    }
  }

  /** Tilting twice towards the same direction is tilting once. */
  lemma SlideAllTwice(rows: seq<string>, d: Direction)
    requires Grid(rows)
    ensures SlideAll(SlideAll(rows, d), d) == SlideAll(rows, d)
  {
    var lines := ApplyRows(d, rows);
    var s := TiltedLines(lines, d);
    TiltedLinesTwice(lines, d);
    if d.transposed {
      TransposeGrid(rows);
      TiltedLinesKeep(lines, d);
      TransposeTwice(s);
      var r := Transpose(s);
      assert SlideAll(rows, d) == r;
      assert SlideAll(r, d) == Transpose(TiltedLines(s, d));
    } else {
      assert SlideAll(rows, d) == s;
      assert SlideAll(s, d) == TiltedLines(s, d);
    }
  }

  /** A full cycle keeps the grid's size, cube rocks and rounded-rock
      count, and ends tilted east. */
  lemma CycleKeeps(rows: seq<string>)
    requires Grid(rows)
    ensures var r := Cycle(rows);
      && Grid(r) && |r| == |rows| && |r[0]| == |rows[0]|
      && (forall y, x :: 0 <= y < |rows| && 0 <= x < |rows[y]| ==> (r[y][x] == '#' <==> rows[y][x] == '#'))
      && GridCount(r, 'O') == GridCount(rows, 'O')
      && Tilted(r, East)
  {
    var a := SlideAll(rows, North);
    var b := SlideAll(a, West);
    var c := SlideAll(b, South);
    var r := SlideAll(c, East);
    StageKeeps(rows, North);
    StageKeeps(a, West);
    StageKeeps(b, South);
    StageKeeps(c, East);
    KeepsTrans(rows, a, b);
    KeepsTrans(rows, b, c);
    KeepsTrans(rows, c, r);
  }

  /** `after` is a grid of the same size as `before`, with the cube rocks
      in the same places and as many rounded rocks. */
  predicate Keeps(before: seq<string>, after: seq<string>)
    requires Grid(before)
  {
    && Grid(after) && |after| == |before| && |after[0]| == |before[0]|
    && (forall y, x :: 0 <= y < |before| && 0 <= x < |before[y]| ==> (after[y][x] == '#' <==> before[y][x] == '#'))
    && GridCount(after, 'O') == GridCount(before, 'O')
  }

  lemma StageKeeps(rows: seq<string>, d: Direction)
    requires Grid(rows)
    ensures Keeps(rows, SlideAll(rows, d)) && Tilted(SlideAll(rows, d), d)
  {
    SlideAllKeeps(rows, d);
  }

  lemma KeepsTrans(a: seq<string>, b: seq<string>, c: seq<string>)
    requires Grid(a) && Grid(b) && Keeps(a, b) && Keeps(b, c)
    ensures Keeps(a, c)
  {
    forall y, x | 0 <= y < |a| && 0 <= x < |a[y]|
      ensures c[y][x] == '#' <==> a[y][x] == '#'
    {
      assert |b[y]| == |b[0]| == |a[0]| == |a[y]|;
    }
  }

  // ----------------------------------------------------------------- weights

  /** One row's weight in 14.py (14.py:67-74): each rounded rock at index
      `i` weighs `length - i`. */
  function Load(row: string, length: int): int
  {
    if |row| == 0 then 0
    else Load(row[..|row| - 1], length) + (if row[|row| - 1] == 'O' then length - (|row| - 1) else 0)
  }

  function Loads(rows: seq<string>, length: int, k: nat): int
    requires k <= |rows|
  {
    if k == 0 then 0 else Loads(rows, length, k - 1) + Load(rows[k - 1], length)
  }

  /** `row_weight` of 14.py: the distance of every rounded rock from the
      far end, measured with the first row's length; there is no first row
      in an empty document. */
  function RowWeight(rows: seq<string>): (r: Result<int>)
    ensures r.Err? <==> |rows| == 0
    ensures r.Err? ==> r.error == IndexError
  {
    if |rows| == 0 then Err(IndexError) else Ok(Loads(rows, |rows[0]|, |rows|))
  }

  /** 14.py: transpose the platform so that north is the start of each row,
      slide every row, and weigh it. */
  function NorthBeamLoad(grid: seq<string>): Result<int>
  {
    var rows := Mirrors.Flip(grid);
    RowWeight(seq(|rows|, k requires 0 <= k < |rows| => Slide(rows[k])))
  }

  /** `row_weight` of 14p2.py (14p2.py:101-108): each rounded rock in row
      `y` weighs `height - y`. */
  function NorthLoad(rows: seq<string>): int
  {
    Tally(rows, Heights(|rows|), 'O', |rows|)
  }

  lemma {:induction false} LoadWeigh(row: string, length: nat)
    requires |row| <= length
    ensures Load(row, length) == Weigh(row, Heights(length), 'O')
  {
    if |row| > 0 {
      LoadWeigh(row[..|row| - 1], length);
    }
  }

  lemma {:induction false} LoadsWeigh(rows: seq<string>, length: nat, k: nat)
    requires k <= |rows|
    requires forall x :: 0 <= x < |rows| ==> |rows[x]| <= length
    ensures Loads(rows, length, k) == WeighAll(rows, Heights(length), 'O', k)
  {
    if k > 0 {
      LoadsWeigh(rows, length, k - 1);
      LoadWeigh(rows[k - 1], length);
    }
  }

  /** The first part's answer, read row by row on the transposed platform
      in 14.py, is the second part's weight of the platform tilted north. */
  lemma NorthBeamLoadIsNorthLoad(grid: seq<string>)
    requires Grid(grid)
    ensures NorthBeamLoad(grid) == Ok(NorthLoad(SlideAll(grid, North)))
  {
    RectangularWidth(grid);
    FlipIsTranspose(grid);
    var t := Transpose(grid);
    TransposeGrid(grid);
    var s := TiltedLines(t, North);
    TiltedLinesKeep(t, North);
    assert seq(|t|, k requires 0 <= k < |t| => Slide(t[k])) == s;
    var g := Transpose(s);
    assert g == SlideAll(grid, North);
    TransposeGrid(s);
    TransposeTwice(s);
    LoadsWeigh(s, |grid|, |s|);
    Exchange(g, Heights(|g|), 'O');
  }

  // ----------------------------------------------------------------- spinning

  /** The state after `n` applications of `step`. */
  function Iterate<T>(step: T -> T, start: T, n: nat): T
  {
    if n == 0 then start else step(Iterate(step, start, n - 1))
  }

  lemma {:induction false} IterateAdd<T>(step: T -> T, start: T, a: nat, b: nat)
    ensures Iterate(step, Iterate(step, start, a), b) == Iterate(step, start, a + b)
  {
    if b > 0 {
      IterateAdd(step, start, a, b - 1);
    }
  }

  /** Once a state reappears `p` steps later, every later state repeats
      with period `p`. */
  lemma {:induction false} IteratePeriodic<T>(step: T -> T, start: T, j: nat, p: nat, q: nat, r: nat)
    requires Iterate(step, start, j + p) == Iterate(step, start, j)
    ensures Iterate(step, start, j + q * p + r) == Iterate(step, start, j + r)
  {
    if q > 0 {
      var rest := (q - 1) * p + r;
      assert j + q * p + r == (j + p) + rest;
      IterateAdd(step, start, j + p, rest);
      IterateAdd(step, start, j, rest);
      IteratePeriodic(step, start, j, p, q - 1, r);
    }
  }

  /** Skipping whole loops: from a state first seen `p` steps earlier, the
      remaining `(target - i) % p` steps reach the same state as all
      `target - i`. */
  lemma SkipLoops<T>(step: T -> T, start: T, i: nat, p: nat, target: nat)
    requires 0 < p <= i <= target
    requires Iterate(step, start, i - p) == Iterate(step, start, i)
    ensures Iterate(step, Iterate(step, start, i), (target - i) % p) == Iterate(step, start, target)
  {
    var j := i - p;
    var q := (target - i) / p;
    var r := (target - i) % p;
    assert target == j + (q + 1) * p + r;
    IteratePeriodic(step, start, j, p, q + 1, r);
    IteratePeriodic(step, start, j, p, 1, r);
    IterateAdd(step, start, i, r);
  }

  /** The spin loop of 14p2.py:122-139: step until a state repeats, then
      run only the steps left over after whole loops. The source keys its
      dictionary by the newline-joined grid, which identifies the grid. */
  method Spin<T(==)>(step: T -> T, start: T, target: nat) returns (state: T)
    requires target > 0
    ensures state == Iterate(step, start, target)
  {
    var seen: map<T, nat> := map[];
    var loopLength: int := target;
    var remaining: int := target;
    var found := false;
    state := start;
    var i := 0;
    while i < target && !found
      invariant i <= target
      invariant state == Iterate(step, start, i)
      invariant forall s :: s in seen ==> seen[s] < i && Iterate(step, start, seen[s]) == s
      invariant !found ==> loopLength == target && remaining == target
      invariant found ==> 0 < loopLength <= i && remaining == target - i && Iterate(step, start, i - loopLength) == state
      decreases target - i, if found then 0 else 1
    {
      if state in seen {
        loopLength := i - seen[state];
        remaining := remaining - i;
        found := true;
      } else {
        seen := seen[state := i];
        state := step(state);
        i := i + 1;
      }
    }
    if !found {
      remaining := 0;
    }
    remaining := remaining % loopLength;
    ghost var middle := state;
    var k := 0;
    while k < remaining
      invariant k <= remaining
      invariant state == Iterate(step, middle, k)
    {
      state := step(state);
      k := k + 1;
    }
    if found {
      SkipLoops(step, start, i, loopLength, target);
    }
  }

  const Cycles := 1000000000

  /** The second part's answer: the north load after a billion cycles. */
  method SpunLoad(rows: seq<string>) returns (load: int)
    ensures load == NorthLoad(Iterate(Cycle, rows, Cycles))
  {
    var state := Spin(Cycle, rows, Cycles);
    load := NorthLoad(state);
  }
}

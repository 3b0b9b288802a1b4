/**
 * The falling sand bricks of 22.py: straight sticks of cubes in a 3D
 * grid fall until they rest on the floor (z = 0) or on another stick;
 * the answer counts the sticks that could be taken away without any
 * stick they hold up falling. The grid, a nested list of stick
 * references, is modelled as a map from cells to the index of the stick
 * in the document's list; a missing cell is `None`.
 */
module Bricks {
  import opened Outcomes
  import Sorting
  import Seqs

  // ---------------------------------------------------------------------
  // Coordinates and sticks (22.py:24-91).

  datatype Coord = Coord(x: int, y: int, z: int)

  /** `down`: one cube lower. */
  const Down := Coord(0, 0, -1)

  function Plus(a: Coord, d: Coord): Coord
  {
    Coord(a.x + d.x, a.y + d.y, a.z + d.z)
  }

  /** The cell under `c`. */
  function Below(c: Coord): Coord
  {
    Plus(c, Down)
  }

  /** The cell over `c`. */
  function Above(c: Coord): Coord
  {
    Coord(c.x, c.y, c.z + 1)
  }

  /** `k` steps of a unit step with sign `d`. */
  function Steps(d: int, k: int): int
  {
    if d > 0 then k else if d < 0 then -k else 0
  }

  /** A stick: its two end cubes and the unit step from `start` to `end`. */
  datatype Stick = Stick(start: Coord, end: Coord, dir: Coord)

  /** How many axes the two ends differ on. */
  function Axes(a: Coord, b: Coord): nat
  {
    (if a.x != b.x then 1 else 0) + (if a.y != b.y then 1 else 0) + (if a.z != b.z then 1 else 0)
  }

  /** `v // abs(v) if v else 0`: the sign of `v` (the division is exact). */
  function Sign(v: int): int
  {
    Sorting.Sign(v)
  }

  /** The unit step from `a` towards `b`, axis by axis. */
  function Direction(a: Coord, b: Coord): Coord
  {
    Coord(Sign(b.x - a.x), Sign(b.y - a.y), Sign(b.z - a.z))
  }

  /** A stick as the constructor leaves it: its ends differ on at most one
      axis and its step points from `start` to `end`. */
  predicate Valid(s: Stick)
  {
    Axes(s.start, s.end) <= 1 && s.dir == Direction(s.start, s.end)
  }

  /** The number of steps from one end to the other. */
  function Length(s: Stick): nat
  {
    Seqs.Abs(s.end.x - s.start.x) + Seqs.Abs(s.end.y - s.start.y) + Seqs.Abs(s.end.z - s.start.z)
  }

  /** The cube `k` steps from `start`. */
  function At(s: Stick, k: int): Coord
  {
    Coord(s.start.x + Steps(s.dir.x, k), s.start.y + Steps(s.dir.y, k), s.start.z + Steps(s.dir.z, k))
  }

  /** `Stick.__init__` (22.py:29-45): ends that differ on more than one
      axis fail the assertion; otherwise the step is the sign of the
      difference on each axis, and `Length` such steps lead from `start`
      to `end`. */
  function MakeStick(start: Coord, end: Coord): (r: Result<Stick>)
    ensures r.Ok? <==> Axes(start, end) <= 1
    ensures r.Err? ==> r.error == AssertionError
    ensures r.Ok? ==> r.value.start == start && r.value.end == end && Valid(r.value)
    ensures r.Ok? ==> var d := r.value.dir;
      && -1 <= d.x <= 1 && -1 <= d.y <= 1 && -1 <= d.z <= 1
      && Axes(Coord(0, 0, 0), d) == Axes(start, end)
      && At(r.value, Length(r.value)) == end
  {
    if Axes(start, end) > 1 then Err(AssertionError)
    else Ok(Stick(start, end, Direction(start, end)))
  }

  /** Between two bounds given in either order. */
  predicate Between(v: int, a: int, b: int)
  {
    (a <= v <= b) || (b <= v <= a)
  }

  /** The cubes of a stick: the box spanned by its ends, which for a valid
      stick is a segment along at most one axis. */
  predicate Occupies(s: Stick, c: Coord)
  {
    Between(c.x, s.start.x, s.end.x) && Between(c.y, s.start.y, s.end.y) && Between(c.z, s.start.z, s.end.z)
  }

  /** Walking a valid stick reaches `end` after exactly `Length` steps,
      and every cube on the way is one of the stick's. */
  lemma AtEnd(s: Stick, k: int)
    requires Valid(s) && 0 <= k <= Length(s)
    ensures At(s, k) == s.end <==> k == Length(s)
    ensures Occupies(s, At(s, k))
    ensures k < Length(s) ==> At(s, k + 1) == Plus(At(s, k), s.dir)
  {
  }

  /** `Stick.all_coords` (22.py:59-64): from `start`, a step at a time,
      to `end` inclusive. */
  function AllCoords(s: Stick): seq<Coord>
  {
    seq(Length(s) + 1, k => At(s, k))
  }

  /** The cubes listed are exactly the stick's cubes. */
  lemma AllCoordsOccupied(s: Stick, c: Coord)
    requires Valid(s)
    ensures c in AllCoords(s) <==> Occupies(s, c)
  {
    if c in AllCoords(s) {
      var k :| 0 <= k < |AllCoords(s)| && AllCoords(s)[k] == c;
      AtEnd(s, k);
    }
    if Occupies(s, c) {
      var k := Seqs.Abs(c.x - s.start.x) + Seqs.Abs(c.y - s.start.y) + Seqs.Abs(c.z - s.start.z);
      assert At(s, k) == c;
      assert AllCoords(s)[k] == c;
    }
  }

  /** The generator loop of `all_coords` itself: step until `end`. */
  method WalkCoords(s: Stick) returns (r: seq<Coord>)
    requires Valid(s)
    ensures r == AllCoords(s)
    ensures r[0] == s.start && r[|r| - 1] == s.end
    ensures forall k :: 0 <= k < |r| - 1 ==> r[k + 1] == Plus(r[k], s.dir)
  {
    var pos := s.start;
    r := [pos];
    while pos != s.end
      invariant 1 <= |r| <= Length(s) + 1
      invariant pos == At(s, |r| - 1)
      invariant r == AllCoords(s)[..|r|]
      decreases Length(s) + 1 - |r|
    {
      AtEnd(s, |r| - 1);
      pos := Plus(pos, s.dir);
      r := r + [pos];
    }
    AtEnd(s, |r| - 1);
    forall k | 0 <= k < |r| - 1
      ensures r[k + 1] == Plus(r[k], s.dir)
    {
      AtEnd(s, k);
    }
  }

  /** Python's order on coordinate tuples: by x, then y, then z. */
  predicate LexLess(a: Coord, b: Coord)
  {
    a.x < b.x || (a.x == b.x && (a.y < b.y || (a.y == b.y && a.z < b.z)))
  }

  /** `max(a, b)`: `b` only when it is strictly greater. */
  function PyMax(a: Coord, b: Coord): Coord
  {
    if LexLess(a, b) then b else a
  }

  /** `min(a, b)`: `b` only when it is strictly smaller. */
  function PyMin(a: Coord, b: Coord): Coord
  {
    if LexLess(b, a) then b else a
  }

  /** The lowest and highest level of a stick. */
  function Low(s: Stick): int
  {
    if s.start.z <= s.end.z then s.start.z else s.end.z
  }

  function High(s: Stick): int
  {
    if s.start.z <= s.end.z then s.end.z else s.start.z
  }

  /** `Stick.top_coords` (22.py:47-51): the upper end of an upright
      stick, every cube of a lying one. */
  function TopCoords(s: Stick): seq<Coord>
  {
    if s.dir.z != 0 then [PyMax(s.start, s.end)] else AllCoords(s)
  }

  /** `Stick.bottom_coords` (22.py:53-57): the lower end of an upright
      stick, every cube of a lying one. */
  function BottomCoords(s: Stick): seq<Coord>
  {
    if s.dir.z != 0 then [PyMin(s.start, s.end)] else AllCoords(s)
  }

  /** The tuple order picks the right ends: an upright stick's ends share
      x and y, so `max` is the top cube and `min` the bottom one; a lying
      stick is level. */
  lemma Ends(s: Stick)
    requires Valid(s)
    ensures s.dir.z != 0 ==>
      && s.start.x == s.end.x && s.start.y == s.end.y && Low(s) < High(s)
      && TopCoords(s) == [Coord(s.start.x, s.start.y, High(s))]
      && BottomCoords(s) == [Coord(s.start.x, s.start.y, Low(s))]
    ensures s.dir.z == 0 ==> s.start.z == s.end.z && TopCoords(s) == AllCoords(s) == BottomCoords(s)
  {
  }

  /** `Stick._drop` (22.py:86-88): both ends one cube lower. */
  function Lower(s: Stick): (r: Stick)
    ensures r.start.x == s.start.x && r.start.y == s.start.y && r.start.z == s.start.z - 1
    ensures r.end.x == s.end.x && r.end.y == s.end.y && r.end.z == s.end.z - 1
    ensures r.dir == s.dir
    ensures Valid(s) ==> Valid(r)
    ensures forall c :: Occupies(r, c) <==> Occupies(s, Above(c))
  {
    Stick(Plus(s.start, Down), Plus(s.end, Down), s.dir)
  }

  // ---------------------------------------------------------------------
  // The grid and the document (22.py:66-84, 22.py:94-109).

  /** The occupied cells, each mapped to the index of its stick. */
  type Cells = map<Coord, nat>

  /** `Stick.register` (22.py:66-68): point the cells at stick `i`. */
  function Register(grid: Cells, cs: seq<Coord>, i: nat): (r: Cells)
    ensures forall c :: c in r <==> c in grid || c in cs
    ensures forall c :: c in r ==> r[c] == if c in cs then i else grid[c]
    decreases |cs|
  {
    if |cs| == 0 then grid else Register(grid[cs[0] := i], cs[1..], i)
  }

  /** `Stick.unregister` (22.py:70-72): empty the cells. */
  function Unregister(grid: Cells, cs: seq<Coord>): (r: Cells)
    ensures forall c :: c in r <==> c in grid && c !in cs
    ensures forall c :: c in r ==> r[c] == grid[c]
    decreases |cs|
  {
    if |cs| == 0 then grid else Unregister(grid - {cs[0]}, cs[1..])
  }

  /** A `Document`: the sticks in their sorted order, the grid, and the
      grid's top level `max_z`. */
  datatype Document = Document(sticks: seq<Stick>, grid: Cells, maxZ: int)

  /** Every stick as its constructor left it. */
  ghost predicate AllValid(sticks: seq<Stick>)
  {
    forall j :: 0 <= j < |sticks| ==> Valid(sticks[j])
  }

  /** Every occupied cell is a cube of the stick it names, which is not
      the `hidden` stick. */
  ghost predicate CellsOwned(doc: Document, hidden: Option<nat>)
  {
    forall c :: c in doc.grid ==>
      doc.grid[c] < |doc.sticks| && Some(doc.grid[c]) != hidden && Occupies(doc.sticks[doc.grid[c]], c)
  }

  /** Every cube of every stick but the `hidden` one names that stick. */
  ghost predicate CubesCovered(doc: Document, hidden: Option<nat>)
  {
    forall j, c :: 0 <= j < |doc.sticks| && Some(j) != hidden && Occupies(doc.sticks[j], c) ==>
      c in doc.grid && doc.grid[c] == j
  }

  /** The grid agrees with the sticks both ways; sticks therefore do not
      overlap. The `hidden` stick, when there is one, is in the list but
      not on the grid, as the stick 22p2.py's `main` unregisters before
      settling the others (22p2.py:232-235). */
  ghost predicate Consistent(doc: Document, hidden: Option<nat>)
  {
    CellsOwned(doc, hidden) && CubesCovered(doc, hidden)
  }

  /** The loop of `Document.can_drop` (22.py:111-118) over the cubes
      `cs`: false at the floor or above a stick outside `ignore`. */
  function CanDropOver(grid: Cells, cs: seq<Coord>, ignore: set<nat>): (r: bool)
    ensures r <==> forall k :: 0 <= k < |cs| ==>
      cs[k].z != 0 && (Below(cs[k]) !in grid || grid[Below(cs[k])] in ignore)
  {
    if |cs| == 0 then true
    else if cs[0].z == 0 then false
    else if Below(cs[0]) in grid && grid[Below(cs[0])] !in ignore then false
    else CanDropOver(grid, cs[1..], ignore)
  }

  /** `Document.can_drop(stick, ignore)` for the stick at index `i`. */
  function CanDrop(doc: Document, i: nat, ignore: set<nat>): bool
    requires i < |doc.sticks|
  {
    CanDropOver(doc.grid, BottomCoords(doc.sticks[i]), ignore)
  }

  /** `Stick.drop` (22.py:74-84): an upright stick moves its top cube
      under its bottom one; a lying stick is unregistered, lowered and
      registered again. */
  function Drop(doc: Document, i: nat): (r: Document)
    requires i < |doc.sticks|
    ensures r.sticks == doc.sticks[i := Lower(doc.sticks[i])] && r.maxZ == doc.maxZ
  {
    var s := doc.sticks[i];
    var t := Lower(s);
    if s.dir.z != 0 then
      var g := doc.grid - {PyMax(s.start, s.end)};
      doc.(sticks := doc.sticks[i := t], grid := g[PyMin(t.start, t.end) := i])
    else
      var g := Unregister(doc.grid, AllCoords(s));
      doc.(sticks := doc.sticks[i := t], grid := Register(g, AllCoords(t), i))
  }

  /** Dropping a stick that can drop keeps the grid in agreement with the
      sticks: the cells naming it are exactly its new cubes. */
  lemma DropConsistent(doc: Document, i: nat, hidden: Option<nat>)
    requires i < |doc.sticks| && AllValid(doc.sticks) && Consistent(doc, hidden) && hidden != Some(i)
    requires CanDrop(doc, i, {})
    ensures AllValid(Drop(doc, i).sticks) && Consistent(Drop(doc, i), hidden)
  {
    var s := doc.sticks[i];
    Ends(s);
    if s.dir.z != 0 {
      UprightOwned(doc, i, hidden);
      UprightCovered(doc, i, hidden);
    } else {
      LyingFree(doc, i);
      LyingOwned(doc, i, hidden);
      LyingCovered(doc, i, hidden);
    }
  }

  /** An upright stick one lower loses its top cube and gains the cube
      under its bottom. */
  lemma UprightShift(s: Stick, c: Coord)
    requires Valid(s) && s.dir.z != 0
    ensures Occupies(Lower(s), c) <==>
      c == Coord(s.start.x, s.start.y, Low(s) - 1) || (Occupies(s, c) && c != Coord(s.start.x, s.start.y, High(s)))
  {
    Ends(s);
  }

  /** The grid after dropping an upright stick. */
  lemma UprightGrid(doc: Document, i: nat, hidden: Option<nat>)
    requires i < |doc.sticks| && AllValid(doc.sticks) && Consistent(doc, hidden) && hidden != Some(i)
    requires doc.sticks[i].dir.z != 0 && CanDrop(doc, i, {})
    ensures var s := doc.sticks[i];
      var top := Coord(s.start.x, s.start.y, High(s));
      var nb := Coord(s.start.x, s.start.y, Low(s) - 1);
      && nb !in doc.grid && top in doc.grid && doc.grid[top] == i
      && Drop(doc, i).grid == (doc.grid - {top})[nb := i]
  {
    var s := doc.sticks[i];
    Ends(s);
    Ends(Lower(s));
    assert BottomCoords(s)[0] == Coord(s.start.x, s.start.y, Low(s));
    assert Occupies(s, Coord(s.start.x, s.start.y, High(s)));
  }

  lemma UprightOwned(doc: Document, i: nat, hidden: Option<nat>)
    requires i < |doc.sticks| && AllValid(doc.sticks) && Consistent(doc, hidden) && hidden != Some(i)
    requires doc.sticks[i].dir.z != 0 && CanDrop(doc, i, {})
    ensures AllValid(Drop(doc, i).sticks) && CellsOwned(Drop(doc, i), hidden)
  {
    var s := doc.sticks[i];
    var r := Drop(doc, i);
    UprightGrid(doc, i, hidden);
    forall c | c in r.grid
      ensures r.grid[c] < |r.sticks| && Occupies(r.sticks[r.grid[c]], c)
    {
      UprightShift(s, c);
    }
  }

  lemma UprightCovered(doc: Document, i: nat, hidden: Option<nat>)
    requires i < |doc.sticks| && AllValid(doc.sticks) && Consistent(doc, hidden) && hidden != Some(i)
    requires doc.sticks[i].dir.z != 0 && CanDrop(doc, i, {})
    ensures CubesCovered(Drop(doc, i), hidden)
  {
    var s := doc.sticks[i];
    var r := Drop(doc, i);
    UprightGrid(doc, i, hidden);
    forall j, c | 0 <= j < |r.sticks| && Some(j) != hidden && Occupies(r.sticks[j], c)
      ensures c in r.grid && r.grid[c] == j
    {
      if j != i {
        assert Occupies(doc.sticks[j], c);
      } else {
        UprightShift(s, c);
      }
    }
  }

  /** The cells under a lying stick that can drop are empty, and its
      cubes are listed by `all_coords`. */
  lemma LyingFree(doc: Document, i: nat)
    requires i < |doc.sticks| && AllValid(doc.sticks)
    requires doc.sticks[i].dir.z == 0 && CanDrop(doc, i, {})
    ensures forall c :: Occupies(Lower(doc.sticks[i]), c) ==> c !in doc.grid
  {
    var s := doc.sticks[i];
    Ends(s);
    forall c | Occupies(Lower(s), c)
      ensures c !in doc.grid
    {
      AllCoordsOccupied(s, Above(c));
      var k :| 0 <= k < |AllCoords(s)| && AllCoords(s)[k] == Above(c);
      assert Below(Above(c)) == c;
    }
  }

  /** The grid after dropping a lying stick. */
  lemma LyingGrid(doc: Document, i: nat, c: Coord)
    requires i < |doc.sticks| && AllValid(doc.sticks)
    requires doc.sticks[i].dir.z == 0
    ensures var s := doc.sticks[i];
      var g := Drop(doc, i).grid;
      && (c in g <==> (c in doc.grid && !Occupies(s, c)) || Occupies(Lower(s), c))
      && (c in g ==> g[c] == if Occupies(Lower(s), c) then i else doc.grid[c])
  {
    var s := doc.sticks[i];
    AllCoordsOccupied(s, c);
    AllCoordsOccupied(Lower(s), c);
  }

  lemma LyingOwned(doc: Document, i: nat, hidden: Option<nat>)
    requires i < |doc.sticks| && AllValid(doc.sticks) && Consistent(doc, hidden) && hidden != Some(i)
    requires doc.sticks[i].dir.z == 0
    requires forall c :: Occupies(Lower(doc.sticks[i]), c) ==> c !in doc.grid
    ensures AllValid(Drop(doc, i).sticks) && CellsOwned(Drop(doc, i), hidden)
  {
    var r := Drop(doc, i);
    forall c | c in r.grid
      ensures r.grid[c] < |r.sticks| && Occupies(r.sticks[r.grid[c]], c)
    {
      LyingGrid(doc, i, c);
    }
  }

  lemma LyingCovered(doc: Document, i: nat, hidden: Option<nat>)
    requires i < |doc.sticks| && AllValid(doc.sticks) && Consistent(doc, hidden) && hidden != Some(i)
    requires doc.sticks[i].dir.z == 0
    requires forall c :: Occupies(Lower(doc.sticks[i]), c) ==> c !in doc.grid
    ensures CubesCovered(Drop(doc, i), hidden)
  {
    var r := Drop(doc, i);
    var s := doc.sticks[i];
    forall j, c | 0 <= j < |r.sticks| && Some(j) != hidden && Occupies(r.sticks[j], c)
      ensures c in r.grid && r.grid[c] == j
    {
      LyingGrid(doc, i, c);
      if j != i {
        assert r.sticks[j] == doc.sticks[j];
        assert c in doc.grid && doc.grid[c] == j;
        assert !Occupies(s, c);
        assert !Occupies(Lower(s), c);
      }
    }
  }

  // ---------------------------------------------------------------------
  // Settling (22.py:133-140; 22p2.py:177-189 adds `skip` and the count).

  /** No stick reaches below the floor. */
  ghost predicate Grounded(sticks: seq<Stick>)
  {
    forall j :: 0 <= j < |sticks| ==> Low(sticks[j]) >= 0
  }

  /** The bottom levels of all sticks added up: each drop lowers it by one. */
  function SumLow(sticks: seq<Stick>): int
  {
    if |sticks| == 0 then 0 else SumLow(sticks[..|sticks| - 1]) + Low(sticks[|sticks| - 1])
  }

  lemma {:induction false} SumLowGrounded(sticks: seq<Stick>)
    requires Grounded(sticks)
    ensures SumLow(sticks) >= 0
  {
    if |sticks| > 0 {
      SumLowGrounded(sticks[..|sticks| - 1]);
    }
  }

  lemma {:induction false} SumLowUpdate(sticks: seq<Stick>, i: nat, t: Stick)
    requires i < |sticks|
    ensures SumLow(sticks[i := t]) == SumLow(sticks) - Low(sticks[i]) + Low(t)
  {
    var n := |sticks| - 1;
    if i < n {
      assert sticks[i := t][..n] == sticks[..n][i := t];
      SumLowUpdate(sticks[..n], i, t);
    } else {
      assert sticks[i := t][..n] == sticks[..n];
    }
  }

  /** A stick that can drop is above the floor. */
  lemma CanDropAboveFloor(grid: Cells, s: Stick, ignore: set<nat>)
    requires Valid(s) && CanDropOver(grid, BottomCoords(s), ignore)
    ensures Low(s) != 0
  {
    Ends(s);
    if s.dir.z == 0 {
      assert BottomCoords(s)[0] == At(s, 0);
    }
  }

  /** `s` lowered by `n` cubes. */
  function LoweredBy(s: Stick, n: int): Stick
  {
    Stick(Coord(s.start.x, s.start.y, s.start.z - n), Coord(s.end.x, s.end.y, s.end.z - n), s.dir)
  }

  /** Every stick of `cur` is the same stick of `init`, no higher. */
  ghost predicate Descended(init: seq<Stick>, cur: seq<Stick>)
  {
    && |init| == |cur|
    && forall j :: 0 <= j < |cur| ==>
      cur[j].start.z <= init[j].start.z && cur[j] == LoweredBy(init[j], init[j].start.z - cur[j].start.z)
  }

  /** The sticks moved between `init` and `cur`, by index. */
  function MovedBetween(init: seq<Stick>, cur: seq<Stick>): set<nat>
    requires |init| == |cur|
  {
    set j | 0 <= j < |cur| && cur[j].start.z < init[j].start.z
  }

  lemma DescendedTrans(a: seq<Stick>, b: seq<Stick>, c: seq<Stick>)
    requires Descended(a, b) && Descended(b, c)
    ensures Descended(a, c)
    ensures MovedBetween(a, c) == MovedBetween(a, b) + MovedBetween(b, c)
  {
  }

  /** A well-kept document: valid sticks, in agreement with the grid
      but for the `hidden` stick, none below the floor. */
  ghost predicate Kept(doc: Document, hidden: Option<nat>)
  {
    AllValid(doc.sticks) && Consistent(doc, hidden) && Grounded(doc.sticks)
  }

  /** `r` is `doc` with only stick `i` lowered, by `doc`'s level minus
      `r`'s. */
  ghost predicate OnlyLowered(doc: Document, r: Document, i: nat)
  {
    && |r.sticks| == |doc.sticks| && i < |doc.sticks| && r.maxZ == doc.maxZ
    && Descended(doc.sticks, r.sticks)
    && (forall j :: 0 <= j < |r.sticks| && j != i ==> r.sticks[j] == doc.sticks[j])
    && SumLow(r.sticks) == SumLow(doc.sticks) - (doc.sticks[i].start.z - r.sticks[i].start.z)
  }

  /** One more drop of stick `i` keeps the document well kept and only
      stick `i` lowered, one cube further. */
  lemma DropStep(doc: Document, r: Document, i: nat, hidden: Option<nat>)
    requires Kept(r, hidden) && hidden != Some(i) && OnlyLowered(doc, r, i) && CanDrop(r, i, {})
    ensures Kept(Drop(r, i), hidden) && OnlyLowered(doc, Drop(r, i), i)
    ensures Drop(r, i).sticks[i].start.z == r.sticks[i].start.z - 1
    ensures Low(Drop(r, i).sticks[i]) == Low(r.sticks[i]) - 1
  {
    CanDropAboveFloor(r.grid, r.sticks[i], {});
    DropConsistent(r, i, hidden);
    var t := Drop(r, i);
    LoweredStep(doc, r, t, i);
    GroundedUpdate(r.sticks, i, t.sticks[i]);
  }

  /** Lowering stick `i` once more keeps it the only one lowered. */
  lemma LoweredStep(doc: Document, r: Document, t: Document, i: nat)
    requires OnlyLowered(doc, r, i)
    requires t.sticks == r.sticks[i := Lower(r.sticks[i])] && t.maxZ == r.maxZ
    ensures OnlyLowered(doc, t, i)
  {
    SumLowUpdate(r.sticks, i, Lower(r.sticks[i]));
    assert t.sticks[i] == LoweredBy(doc.sticks[i], doc.sticks[i].start.z - t.sticks[i].start.z);
  }

  /** Replacing a stick by one still above the floor keeps all sticks
      above the floor. */
  lemma GroundedUpdate(sticks: seq<Stick>, i: nat, t: Stick)
    requires Grounded(sticks) && i < |sticks| && Low(t) >= 0
    ensures Grounded(sticks[i := t])
  {
  }

  /** The inner `while self.can_drop(stick)` loop: drop stick `i` until it
      rests, reporting whether it moved. */
  method DropAll(doc: Document, i: nat, hidden: Option<nat>) returns (r: Document, moved: bool)
    requires i < |doc.sticks| && Kept(doc, hidden) && hidden != Some(i)
    ensures Kept(r, hidden) && OnlyLowered(doc, r, i)
    ensures moved <==> r.sticks[i].start.z < doc.sticks[i].start.z
    ensures !moved ==> r == doc
    ensures !CanDrop(r, i, {})
  {
    r := doc;
    moved := false;
    while CanDrop(r, i, {})
      invariant Kept(r, hidden) && OnlyLowered(doc, r, i)
      invariant moved <==> r.sticks[i].start.z < doc.sticks[i].start.z
      invariant !moved ==> r == doc
      decreases Low(r.sticks[i])
    {
      DropStep(doc, r, i, hidden);
      r := Drop(r, i);
      moved := true;
    }
  }

  /** Dropping one stick moves that stick alone. */
  lemma MovedOnly(doc: Document, r: Document, i: nat)
    requires OnlyLowered(doc, r, i)
    ensures MovedBetween(doc.sticks, r.sticks) == if r.sticks[i].start.z < doc.sticks[i].start.z then {i} else {}
  {
  }

  /** What holds of a pass after its first `i` sticks. */
  ghost predicate Passed(doc: Document, r: Document, i: nat, skip: Option<nat>, dropped: set<nat>, out: set<nat>, dirty: bool)
  {
    && i <= |doc.sticks|
    && Kept(r, skip) && |r.sticks| == |doc.sticks| && r.maxZ == doc.maxZ
    && Descended(doc.sticks, r.sticks)
    && (forall j :: i <= j < |r.sticks| ==> r.sticks[j] == doc.sticks[j])
    && out == dropped + MovedBetween(doc.sticks, r.sticks)
    && (skip.Some? && skip.value < |doc.sticks| ==> r.sticks[skip.value] == doc.sticks[skip.value])
    && (dirty ==> SumLow(r.sticks) < SumLow(doc.sticks))
    && (!dirty ==> r == doc && forall j :: 0 <= j < i && skip != Some(j) ==> !CanDrop(r, j, {}))
  }

  lemma PassStep(doc: Document, r: Document, next: Document, i: nat, skip: Option<nat>, dropped: set<nat>, out: set<nat>, dirty: bool, moved: bool)
    requires Passed(doc, r, i, skip, dropped, out, dirty) && i < |doc.sticks| && skip != Some(i)
    requires Kept(next, skip) && OnlyLowered(r, next, i) && !CanDrop(next, i, {})
    requires moved <==> next.sticks[i].start.z < r.sticks[i].start.z
    requires !moved ==> next == r
    ensures Passed(doc, next, i + 1, skip, dropped, if moved then out + {i} else out, dirty || moved)
  {
    MovedOnly(r, next, i);
    DescendedTrans(doc.sticks, r.sticks, next.sticks);
  }

  /** One pass of the `for` loop of `settle` (22.py:137-140, with the
      `skip` of 22p2.py:182-188): every stick but `skip` is dropped until
      it rests, the dropped ones are added to `dropped`, and `dirty`
      records whether any moved. A pass that moves nothing leaves every
      stick but `skip` unable to drop. */
  method Pass(doc: Document, skip: Option<nat>, dropped: set<nat>) returns (r: Document, dirty: bool, out: set<nat>)
    requires Kept(doc, skip)
    ensures Kept(r, skip) && |r.sticks| == |doc.sticks| && r.maxZ == doc.maxZ
    ensures Descended(doc.sticks, r.sticks)
    ensures out == dropped + MovedBetween(doc.sticks, r.sticks)
    ensures skip.Some? && skip.value < |doc.sticks| ==> r.sticks[skip.value] == doc.sticks[skip.value]
    ensures dirty ==> SumLow(r.sticks) < SumLow(doc.sticks)
    ensures !dirty ==> r == doc && forall j :: 0 <= j < |r.sticks| && skip != Some(j) ==> !CanDrop(r, j, {})
  {
    r := doc;
    dirty := false;
    out := dropped;
    var i := 0;
    while i < |doc.sticks|
      invariant Passed(doc, r, i, skip, dropped, out, dirty)
    {
      r, out, dirty := PassOne(doc, r, i, skip, dropped, out, dirty);
      i := i + 1;
    }
  }

  /** The body of the pass for stick `i`. */
  method PassOne(doc: Document, r: Document, i: nat, skip: Option<nat>, dropped: set<nat>, out: set<nat>, dirty: bool)
    returns (r': Document, out': set<nat>, dirty': bool)
    requires Passed(doc, r, i, skip, dropped, out, dirty) && i < |doc.sticks|
    ensures Passed(doc, r', i + 1, skip, dropped, out', dirty')
  {
    r', out', dirty' := r, out, dirty;
    if skip != Some(i) {
      var next, moved := DropAll(r, i, skip);
      PassStep(doc, r, next, i, skip, dropped, out, dirty, moved);
      if moved {
        out' := out + {i};
        dirty' := true;
      }
      r' := next;
    }
  }

  /** `Document.settle(skip)`: passes until one moves nothing. Every
      stick but `skip` then rests, `skip` has not moved, and the count is
      the number of distinct sticks that moved. 22.py's `settle` is the
      same loop with no stick skipped and the count unused. */
  method Settle(doc: Document, skip: Option<nat>) returns (r: Document, count: nat)
    requires Kept(doc, skip)
    ensures Kept(r, skip) && r.maxZ == doc.maxZ && Descended(doc.sticks, r.sticks)
    ensures forall j :: 0 <= j < |r.sticks| && skip != Some(j) ==> !CanDrop(r, j, {})
    ensures skip.Some? && skip.value < |doc.sticks| ==> r.sticks[skip.value] == doc.sticks[skip.value]
    ensures count == |MovedBetween(doc.sticks, r.sticks)|
  {
    r := doc;
    var dirty := true;
    var dropped: set<nat> := {};
    while dirty
      invariant Kept(r, skip) && |r.sticks| == |doc.sticks| && r.maxZ == doc.maxZ
      invariant Descended(doc.sticks, r.sticks)
      invariant dropped == MovedBetween(doc.sticks, r.sticks)
      invariant skip.Some? && skip.value < |doc.sticks| ==> r.sticks[skip.value] == doc.sticks[skip.value]
      invariant !dirty ==> forall j :: 0 <= j < |r.sticks| && skip != Some(j) ==> !CanDrop(r, j, {})
      decreases SumLow(r.sticks), if dirty then 1 else 0
    {
      SumLowGrounded(r.sticks);
      var next;
      next, dirty, dropped := Pass(r, skip, dropped);
      SumLowGrounded(next.sticks);
      DescendedTrans(doc.sticks, r.sticks, next.sticks);
      r := next;
    }
    count := |dropped|;
  }

  /** The sticks counted as moved are exactly the ones no longer where
      they were. */
  lemma MovedChanged(init: seq<Stick>, cur: seq<Stick>, j: nat)
    requires Descended(init, cur) && j < |cur|
    ensures j in MovedBetween(init, cur) <==> cur[j] != init[j]
  {
  }

  // ---------------------------------------------------------------------
  // Support and disintegration (22.py:120-131, 22.py:142-148).

  /** The loop of `Document.supporting` over the cubes `cs`: the stick
      just above each cube below the top level, each one once, in the
      order first met; `seen` are the ones already yielded. */
  function SupportFrom(grid: Cells, cs: seq<Coord>, maxZ: int, seen: set<nat>): (r: seq<nat>)
    ensures forall k :: 0 <= k < |r| ==> r[k] in grid.Values
    decreases |cs|
  {
    if |cs| == 0 then []
    else if cs[0].z == maxZ || Above(cs[0]) !in grid || grid[Above(cs[0])] in seen then
      SupportFrom(grid, cs[1..], maxZ, seen)
    else
      var a := grid[Above(cs[0])];
      [a] + SupportFrom(grid, cs[1..], maxZ, seen + {a})
  }

  /** The sticks found above the cubes `cs`, as a set. */
  ghost function Held(grid: Cells, cs: seq<Coord>, maxZ: int): set<nat>
  {
    set k | 0 <= k < |cs| && cs[k].z != maxZ && Above(cs[k]) in grid :: grid[Above(cs[k])]
  }

  lemma HeldCons(grid: Cells, cs: seq<Coord>, maxZ: int)
    requires |cs| > 0
    ensures Held(grid, cs, maxZ) ==
      Held(grid, cs[1..], maxZ) + if cs[0].z != maxZ && Above(cs[0]) in grid then {grid[Above(cs[0])]} else {}
  {
    var head := if cs[0].z != maxZ && Above(cs[0]) in grid then {grid[Above(cs[0])]} else {};
    forall a | a in Held(grid, cs, maxZ)
      ensures a in Held(grid, cs[1..], maxZ) + head
    {
      var k :| 0 <= k < |cs| && cs[k].z != maxZ && Above(cs[k]) in grid && grid[Above(cs[k])] == a;
      if k > 0 {
        assert cs[1..][k - 1] == cs[k];
      }
    }
    forall a | a in Held(grid, cs[1..], maxZ)
      ensures a in Held(grid, cs, maxZ)
    {
      var k :| 0 <= k < |cs[1..]| && cs[1..][k].z != maxZ && Above(cs[1..][k]) in grid && grid[Above(cs[1..][k])] == a;
      assert cs[k + 1] == cs[1..][k];
    }
  }

  /** Each supporting stick is yielded once, and the ones yielded are
      exactly the unseen sticks above the cubes. */
  lemma {:induction false} SupportFromHeld(grid: Cells, cs: seq<Coord>, maxZ: int, seen: set<nat>)
    ensures forall p, q :: 0 <= p < q < |SupportFrom(grid, cs, maxZ, seen)| ==>
      SupportFrom(grid, cs, maxZ, seen)[p] != SupportFrom(grid, cs, maxZ, seen)[q]
    ensures forall a :: a in SupportFrom(grid, cs, maxZ, seen) <==> a !in seen && a in Held(grid, cs, maxZ)
    decreases |cs|
  {
    if |cs| > 0 {
      HeldCons(grid, cs, maxZ);
      if cs[0].z == maxZ || Above(cs[0]) !in grid || grid[Above(cs[0])] in seen {
        SupportFromHeld(grid, cs[1..], maxZ, seen);
      } else {
        var a := grid[Above(cs[0])];
        SupportFromHeld(grid, cs[1..], maxZ, seen + {a});
      }
    }
  }

  /** `Document.supporting(stick)` for the stick at index `i`: the sticks
      resting on its top cubes, skipping the grid's top level. */
  function Supporting(doc: Document, i: nat): (r: seq<nat>)
    requires i < |doc.sticks|
    ensures forall k :: 0 <= k < |r| ==> r[k] in doc.grid.Values
  {
    SupportFrom(doc.grid, TopCoords(doc.sticks[i]), doc.maxZ, {})
  }

  /** Stick `j` sits on stick `i`: some cube of `i` below the top level
      has a cube of `j` right above it. */
  ghost predicate RestsOn(doc: Document, j: nat, i: nat)
    requires i < |doc.sticks| && j < |doc.sticks|
  {
    exists c :: Occupies(doc.sticks[i], c) && c.z != doc.maxZ && Occupies(doc.sticks[j], Above(c))
  }

  /** The listed ends are cubes of the stick at its top or bottom level. */
  lemma TopCube(s: Stick, c: Coord)
    requires Valid(s) && c in TopCoords(s)
    ensures Occupies(s, c) && c.z == High(s)
  {
    Ends(s);
    if s.dir.z == 0 {
      AllCoordsOccupied(s, c);
    }
  }

  lemma BottomCube(s: Stick, c: Coord)
    requires Valid(s) && c in BottomCoords(s)
    ensures Occupies(s, c) && c.z == Low(s)
  {
    Ends(s);
    if s.dir.z == 0 {
      AllCoordsOccupied(s, c);
    }
  }

  /** A cube of a stick with nothing of that stick above it is listed
      among its top cubes. */
  lemma TopListed(s: Stick, c: Coord)
    requires Valid(s) && Occupies(s, c) && !Occupies(s, Above(c))
    ensures c in TopCoords(s)
  {
    Ends(s);
    if s.dir.z == 0 {
      AllCoordsOccupied(s, c);
    } else {
      assert c == TopCoords(s)[0];
    }
  }

  /** What `supporting` lists rests on the stick. */
  lemma SupportedRests(doc: Document, i: nat, j: nat)
    requires Kept(doc, None) && i < |doc.sticks| && j < |doc.sticks| && j in Supporting(doc, i)
    ensures j != i && RestsOn(doc, j, i)
  {
    var s := doc.sticks[i];
    var cs := TopCoords(s);
    SupportFromHeld(doc.grid, cs, doc.maxZ, {});
    var k :| 0 <= k < |cs| && cs[k].z != doc.maxZ && Above(cs[k]) in doc.grid && doc.grid[Above(cs[k])] == j;
    TopCube(s, cs[k]);
    assert Occupies(doc.sticks[j], Above(cs[k]));
  }

  /** Every other stick resting on the stick is listed. */
  lemma RestingSupported(doc: Document, i: nat, j: nat)
    requires Kept(doc, None) && i < |doc.sticks| && j < |doc.sticks| && j != i && RestsOn(doc, j, i)
    ensures j in Supporting(doc, i)
  {
    var s := doc.sticks[i];
    var cs := TopCoords(s);
    SupportFromHeld(doc.grid, cs, doc.maxZ, {});
    var c :| Occupies(s, c) && c.z != doc.maxZ && Occupies(doc.sticks[j], Above(c));
    assert doc.grid[Above(c)] == j;
    TopListed(s, c);
    var k :| 0 <= k < |cs| && cs[k] == c;
    assert j in Held(doc.grid, cs, doc.maxZ);
  }

  /** In a well-kept document, `supporting` lists exactly the other
      sticks resting on the stick. */
  lemma SupportingRests(doc: Document, i: nat, j: nat)
    requires Kept(doc, None) && i < |doc.sticks| && j < |doc.sticks|
    ensures j in Supporting(doc, i) <==> j != i && RestsOn(doc, j, i)
  {
    if j in Supporting(doc, i) {
      SupportedRests(doc, i, j);
    }
    if j != i && RestsOn(doc, j, i) {
      RestingSupported(doc, i, j);
    }
  }

  /** Every cell names a stick of the document. */
  predicate InRange(doc: Document)
  {
    forall c | c in doc.grid :: doc.grid[c] < |doc.sticks|
  }

  /** The inner `for ... else` of `disintegratable_sticks`: true when no
      stick of `sups` could drop with stick `i` gone. */
  function NoneFall(doc: Document, sups: seq<nat>, i: nat): (r: bool)
    requires forall k :: 0 <= k < |sups| ==> sups[k] < |doc.sticks|
    ensures r <==> forall k :: 0 <= k < |sups| ==> !CanDrop(doc, sups[k], {i})
  {
    if |sups| == 0 then true
    else if CanDrop(doc, sups[0], {i}) then false
    else NoneFall(doc, sups[1..], i)
  }

  /** Stick `i` may go: none of the sticks it supports would drop. */
  function Safe(doc: Document, i: nat): bool
    requires InRange(doc) && i < |doc.sticks|
  {
    NoneFall(doc, Supporting(doc, i), i)
  }

  /** `Document.disintegratable_sticks` from stick `i` on, by index, in
      order. */
  function DisintegratableFrom(doc: Document, i: nat): seq<nat>
    requires InRange(doc) && i <= |doc.sticks|
    decreases |doc.sticks| - i
  {
    if i == |doc.sticks| then []
    else if Safe(doc, i) then [i] + DisintegratableFrom(doc, i + 1)
    else DisintegratableFrom(doc, i + 1)
  }

  /** Stick `j` is listed from `i` on exactly when it is safe and not
      before `i`. */
  lemma {:induction false} ListedSafe(doc: Document, i: nat, j: nat)
    requires InRange(doc) && i <= |doc.sticks|
    ensures j in DisintegratableFrom(doc, i) <==> i <= j < |doc.sticks| && Safe(doc, j)
    decreases |doc.sticks| - i
  {
    if i < |doc.sticks| {
      ListedSafe(doc, i + 1, j);
    }
  }

  /** The sticks listed are the safe ones from `i` on. */
  lemma DisintegratableFromSafe(doc: Document, i: nat)
    requires InRange(doc) && i <= |doc.sticks|
    ensures forall j: nat :: j in DisintegratableFrom(doc, i) <==> i <= j < |doc.sticks| && Safe(doc, j)
  {
    forall j: nat
      ensures j in DisintegratableFrom(doc, i) <==> i <= j < |doc.sticks| && Safe(doc, j)
    {
      ListedSafe(doc, i, j);
    }
  }

  /** The sticks are listed from `i` on, each once, in increasing order. */
  lemma {:induction false} DisintegratableFromIncreasing(doc: Document, i: nat)
    requires InRange(doc) && i <= |doc.sticks|
    ensures forall k :: 0 <= k < |DisintegratableFrom(doc, i)| ==> i <= DisintegratableFrom(doc, i)[k]
    ensures forall p, q :: 0 <= p < q < |DisintegratableFrom(doc, i)| ==>
      DisintegratableFrom(doc, i)[p] < DisintegratableFrom(doc, i)[q]
    decreases |doc.sticks| - i
  {
    if i < |doc.sticks| {
      DisintegratableFromIncreasing(doc, i + 1);
    }
  }

  function Disintegratable(doc: Document): seq<nat>
    requires InRange(doc)
  {
    DisintegratableFrom(doc, 0)
  }

  /** No stick could drop. */
  ghost predicate Settled(doc: Document)
  {
    forall j :: 0 <= j < |doc.sticks| ==> !CanDrop(doc, j, {})
  }

  /** Every stick lies within the grid's levels. */
  ghost predicate Fits(doc: Document)
  {
    forall j :: 0 <= j < |doc.sticks| ==> High(doc.sticks[j]) <= doc.maxZ
  }

  lemma KeptInRange(doc: Document)
    requires Kept(doc, None)
    ensures InRange(doc)
  {
  }

  /** A stick that could drop once stick `i` is gone, but not before,
      rests on stick `i`. */
  lemma FreedRests(doc: Document, i: nat, j: nat)
    requires Kept(doc, None) && Fits(doc) && i < |doc.sticks| && j < |doc.sticks|
    requires CanDrop(doc, j, {i}) && !CanDrop(doc, j, {})
    ensures RestsOn(doc, j, i)
  {
    var cs := BottomCoords(doc.sticks[j]);
    var k :| 0 <= k < |cs| && Below(cs[k]) in doc.grid && doc.grid[Below(cs[k])] == i;
    var c := Below(cs[k]);
    BottomCube(doc.sticks[j], cs[k]);
    assert Above(c) == cs[k];
    assert Occupies(doc.sticks[i], c);
  }

  /** After settling, a stick is counted exactly when taking it away
      lets no other stick drop. */
  lemma DisintegratableIsSafe(doc: Document, i: nat)
    requires Kept(doc, None) && Fits(doc) && Settled(doc) && i < |doc.sticks|
    ensures InRange(doc)
    ensures i in Disintegratable(doc) <==> forall j :: 0 <= j < |doc.sticks| && j != i ==> !CanDrop(doc, j, {i})
  {
    var sups := Supporting(doc, i);
    DisintegratableFromSafe(doc, 0);
    if i in Disintegratable(doc) {
      forall j | 0 <= j < |doc.sticks| && j != i
        ensures !CanDrop(doc, j, {i})
      {
        if CanDrop(doc, j, {i}) {
          FreedRests(doc, i, j);
          SupportingRests(doc, i, j);
        }
      }
    }
    if forall j :: 0 <= j < |doc.sticks| && j != i ==> !CanDrop(doc, j, {i}) {
      forall k | 0 <= k < |sups|
        ensures !CanDrop(doc, sups[k], {i})
      {
        SupportingRests(doc, i, sups[k]);
      }
    }
  }

  // ---------------------------------------------------------------------
  // Building the document (22.py:95-109) and the answer (22.py:150-156).

  /** The parsed input: the two end cubes of each stick, in input order. */
  type Input = seq<(Coord, Coord)>

  /** The constructor's loop building each `Stick`. */
  function MakeSticks(input: Input): (r: Result<seq<Stick>>)
    ensures r.Ok? <==> forall k :: 0 <= k < |input| ==> Axes(input[k].0, input[k].1) <= 1
    ensures r.Err? ==> r.error == AssertionError
    ensures r.Ok? ==> |r.value| == |input| && forall k :: 0 <= k < |input| ==>
      r.value[k].start == input[k].0 && r.value[k].end == input[k].1 && Valid(r.value[k])
  {
    if |input| == 0 then Ok([])
    else
      var s :- MakeStick(input[0].0, input[0].1);
      var rest :- MakeSticks(input[1..]);
      Ok([s] + rest)
  }

  /** The running `max_z` of the constructor, from `acc`. */
  function TopLevelFrom(input: Input, acc: int): (r: int)
    ensures r >= acc
    ensures forall k :: 0 <= k < |input| ==> input[k].0.z <= r && input[k].1.z <= r
    ensures r == acc || exists k :: 0 <= k < |input| && (r == input[k].0.z || r == input[k].1.z)
  {
    if |input| == 0 then acc
    else
      var z := if input[0].0.z > input[0].1.z then input[0].0.z else input[0].1.z;
      var r := TopLevelFrom(input[1..], if z > acc then z else acc);
      assert forall k :: 1 <= k < |input| ==> input[k] == input[1..][k - 1];
      r
  }

  /** The grid's top level: 0 or the highest `z` of any end. */
  function TopLevel(input: Input): int
  {
    TopLevelFrom(input, 0)
  }

  /** Python's three-way comparison of two coordinate tuples. */
  function CoordCmp(a: Coord, b: Coord): int
  {
    if LexLess(a, b) then -1 else if LexLess(b, a) then 1 else 0
  }

  /** Python's comparison of two tuples of coordinates: the first
      differing element decides, and a proper prefix comes first. */
  function KeyCmp(a: seq<Coord>, b: seq<Coord>): int
    decreases |a|
  {
    if |a| == 0 then (if |b| == 0 then 0 else -1)
    else if |b| == 0 then 1
    else if CoordCmp(a[0], b[0]) != 0 then CoordCmp(a[0], b[0])
    else KeyCmp(a[1..], b[1..])
  }

  /** The sort key of 22.py:106, `tuple(s.bottom_coords())`. */
  function StickCmp(a: Stick, b: Stick): int
  {
    KeyCmp(BottomCoords(a), BottomCoords(b))
  }

  lemma {:induction false} KeyCmpAntisym(a: seq<Coord>, b: seq<Coord>)
    ensures KeyCmp(a, b) == -KeyCmp(b, a)
    ensures KeyCmp(a, b) == 0 <==> a == b
    decreases |a|
  {
    if |a| > 0 && |b| > 0 && CoordCmp(a[0], b[0]) == 0 {
      KeyCmpAntisym(a[1..], b[1..]);
      if a[1..] == b[1..] {
        assert a == [a[0]] + a[1..] && b == [b[0]] + b[1..];
      }
    }
  }

  lemma {:induction false} KeyCmpTrans(a: seq<Coord>, b: seq<Coord>, c: seq<Coord>)
    requires KeyCmp(a, b) <= 0 && KeyCmp(b, c) <= 0
    ensures KeyCmp(a, c) <= 0
    decreases |a|
  {
    if |a| > 0 && |b| > 0 && |c| > 0 && CoordCmp(a[0], b[0]) == 0 && CoordCmp(b[0], c[0]) == 0 {
      KeyCmpTrans(a[1..], b[1..], c[1..]);
    }
  }

  /** The key order is a total preorder on any sticks. */
  lemma StickCmpConsistent(s: seq<Stick>)
    ensures Sorting.Consistent(s, StickCmp)
  {
    forall a, b | a in s && b in s
      ensures Sorting.Sign(StickCmp(a, b)) == -Sorting.Sign(StickCmp(b, a))
    {
      KeyCmpAntisym(BottomCoords(a), BottomCoords(b));
    }
    forall a, b, c | a in s && b in s && c in s && StickCmp(a, b) <= 0 && StickCmp(b, c) <= 0
      ensures StickCmp(a, c) <= 0
    {
      KeyCmpTrans(BottomCoords(a), BottomCoords(b), BottomCoords(c));
    }
  }

  /** The constructor's registration loop: the cubes of the first `n`
      sticks, each list registered to its stick in turn. */
  function RegisterLists(lists: seq<seq<Coord>>, n: nat): Cells
    requires n <= |lists|
  {
    if n == 0 then map[] else Register(RegisterLists(lists, n - 1), lists[n - 1], n - 1)
  }

  /** The cubes of every stick, in order. */
  function CubeLists(sticks: seq<Stick>): (r: seq<seq<Coord>>)
    ensures |r| == |sticks| && forall k :: 0 <= k < |r| ==> r[k] == AllCoords(sticks[k])
  {
    seq(|sticks|, k requires 0 <= k < |sticks| => AllCoords(sticks[k]))
  }

  function RegisterAll(sticks: seq<Stick>): Cells
  {
    RegisterLists(CubeLists(sticks), |sticks|)
  }

  /** No two sticks share a cube. */
  ghost predicate Apart(sticks: seq<Stick>)
  {
    forall p, q, c :: 0 <= p < |sticks| && 0 <= q < |sticks| && p != q && Occupies(sticks[p], c) ==> !Occupies(sticks[q], c)
  }

  /** A registered cell names one of the first `n` lists, which holds
      it. */
  lemma {:induction false} RegisteredOwned(lists: seq<seq<Coord>>, n: nat, c: Coord)
    requires n <= |lists| && c in RegisterLists(lists, n)
    ensures RegisterLists(lists, n)[c] < n && c in lists[RegisterLists(lists, n)[c]]
  {
    if c !in lists[n - 1] {
      RegisteredOwned(lists, n - 1, c);
    }
  }

  /** A cell of one of the first `n` lists is registered to it when no
      later list holds it too. */
  lemma {:induction false} RegisteredCovered(lists: seq<seq<Coord>>, n: nat, j: nat, c: Coord)
    requires j < n <= |lists| && c in lists[j]
    requires forall q :: j < q < n ==> c !in lists[q]
    ensures c in RegisterLists(lists, n) && RegisterLists(lists, n)[c] == j
  {
    if j < n - 1 {
      RegisteredCovered(lists, n - 1, j, c);
    }
  }

  /** Every cell of `grid` names a stick occupying it. */
  ghost predicate Owned(sticks: seq<Stick>, grid: Cells)
  {
    forall c :: c in grid ==> grid[c] < |sticks| && Occupies(sticks[grid[c]], c)
  }

  /** Every cube of every stick names its stick in `grid`. */
  ghost predicate Covered(sticks: seq<Stick>, grid: Cells)
  {
    forall j, c :: 0 <= j < |sticks| && Occupies(sticks[j], c) ==> c in grid && grid[c] == j
  }

  lemma RegisterAllOwned(sticks: seq<Stick>)
    requires AllValid(sticks)
    ensures Owned(sticks, RegisterAll(sticks))
  {
    forall c | c in RegisterAll(sticks)
      ensures RegisterAll(sticks)[c] < |sticks| && Occupies(sticks[RegisterAll(sticks)[c]], c)
    {
      RegisteredOwned(CubeLists(sticks), |sticks|, c);
      AllCoordsOccupied(sticks[RegisterAll(sticks)[c]], c);
    }
  }

  lemma RegisterAllCovered(sticks: seq<Stick>)
    requires AllValid(sticks) && Apart(sticks)
    ensures Covered(sticks, RegisterAll(sticks))
  {
    forall j, c | 0 <= j < |sticks| && Occupies(sticks[j], c)
      ensures c in RegisterAll(sticks) && RegisterAll(sticks)[c] == j
    {
      AllCoordsOccupied(sticks[j], c);
      forall q | j < q < |sticks|
        ensures c !in CubeLists(sticks)[q]
      {
        AllCoordsOccupied(sticks[q], c);
      }
      RegisteredCovered(CubeLists(sticks), |sticks|, j, c);
    }
  }

  /** A value at two places of a sequence is there twice. */
  lemma Repeated<T>(r: seq<T>, a: nat, b: nat)
    requires a < b < |r| && r[a] == r[b]
    ensures multiset(r)[r[a]] >= 2
  {
    assert r == r[..a] + [r[a]] + r[a + 1..b] + [r[b]] + r[b + 1..];
  }

  /** A value there twice is at two places. */
  lemma TwoPlaces<T>(s: seq<T>, x: T)
    requires multiset(s)[x] >= 2
    ensures exists p, q :: 0 <= p < q < |s| && s[p] == x && s[q] == x
  {
    assert x in multiset(s);
    var p :| 0 <= p < |s| && s[p] == x;
    assert s == s[..p] + [s[p]] + s[p + 1..];
    var rest := s[..p] + s[p + 1..];
    assert x in multiset(rest);
    var t :| 0 <= t < |rest| && rest[t] == x;
    if t < p {
      assert s[t] == x;
    } else {
      assert s[t + 1] == x;
    }
  }

  /** Sorting keeps the sticks valid and apart. */
  lemma ApartPermutation(s: seq<Stick>, r: seq<Stick>)
    requires multiset(s) == multiset(r) && AllValid(s) && Apart(s)
    ensures AllValid(r) && Apart(r)
  {
    forall k | 0 <= k < |r|
      ensures Valid(r[k])
    {
      assert r[k] in multiset(s);
    }
    forall p, q, c | 0 <= p < |r| && 0 <= q < |r| && p != q && Occupies(r[p], c)
      ensures !Occupies(r[q], c)
    {
      if r[p] == r[q] {
        if p < q { Repeated(r, p, q); } else { Repeated(r, q, p); }
        TwoPlaces(s, r[p]);
      } else {
        assert r[p] in multiset(s) && r[q] in multiset(s);
      }
    }
  }

  /** The input's sticks do not overlap. */
  ghost predicate InputApart(input: Input)
  {
    forall p, q, c ::
      (0 <= p < |input| && 0 <= q < |input| && p != q && Occupies(Stick(input[p].0, input[p].1, Down), c)) ==>
      !Occupies(Stick(input[q].0, input[q].1, Down), c)
  }

  /** No end lies below the floor, as the parser only reads digits. */
  predicate Natural(input: Input)
  {
    forall k :: 0 <= k < |input| ==> input[k].0.z >= 0 && input[k].1.z >= 0
  }

  /** `Document.__init__`: the sticks, sorted by their bottom cubes, each
      registered in turn; the top level is the highest `z` read. */
  function MakeDocument(input: Input): (r: Result<Document>)
    ensures r.Ok? <==> forall k :: 0 <= k < |input| ==> Axes(input[k].0, input[k].1) <= 1
    ensures r.Err? ==> r.error == AssertionError
  {
    var sticks :- MakeSticks(input);
    var sorted := Sorting.Sort(sticks, StickCmp);
    Ok(Document(sorted, RegisterAll(sorted), TopLevel(input)))
  }

  /** The new document holds the input's sticks, in key order. */
  lemma MakeDocumentSorted(input: Input)
    requires MakeDocument(input).Ok?
    ensures multiset(MakeDocument(input).value.sticks) == multiset(MakeSticks(input).value)
    ensures Sorting.Sorted(MakeDocument(input).value.sticks, StickCmp)
  {
    var sticks := MakeSticks(input).value;
    StickCmpConsistent(sticks);
    Sorting.SortSorted(sticks, StickCmp);
  }

  /** Sticks built from the input, in any order, are valid and within
      the levels read; on or above the floor when the input is. */
  lemma MadeBounds(input: Input, sorted: seq<Stick>)
    requires MakeSticks(input).Ok?
    requires multiset(sorted) == multiset(MakeSticks(input).value)
    ensures AllValid(sorted)
    ensures forall k :: 0 <= k < |sorted| ==> High(sorted[k]) <= TopLevel(input)
    ensures Natural(input) ==> Grounded(sorted)
  {
    var sticks := MakeSticks(input).value;
    forall k | 0 <= k < |sorted|
      ensures Valid(sorted[k]) && High(sorted[k]) <= TopLevel(input)
      ensures Natural(input) ==> Low(sorted[k]) >= 0
    {
      assert sorted[k] in multiset(sticks);
      var t :| 0 <= t < |sticks| && sticks[t] == sorted[k];
    }
  }

  /** The new document's sticks are valid and within its levels, and
      each cell names a stick occupying it. */
  lemma MakeDocumentOwned(input: Input)
    requires MakeDocument(input).Ok?
    ensures AllValid(MakeDocument(input).value.sticks)
    ensures Fits(MakeDocument(input).value) && CellsOwned(MakeDocument(input).value, None)
  {
    var doc := MakeDocument(input).value;
    MadeBounds(input, doc.sticks);
    RegisterAllOwned(doc.sticks);
  }

  /** Sticks built from non-overlapping ends do not overlap. */
  lemma MadeApart(input: Input)
    requires MakeSticks(input).Ok? && InputApart(input)
    ensures Apart(MakeSticks(input).value)
  {
    var sticks := MakeSticks(input).value;
    forall p, q, c | 0 <= p < |sticks| && 0 <= q < |sticks| && p != q && Occupies(sticks[p], c)
      ensures !Occupies(sticks[q], c)
    {
      assert Occupies(Stick(input[p].0, input[p].1, Down), c);
    }
  }

  /** Sticks that do not overlap and stand on or above the floor make a
      well-kept document. */
  lemma MakeDocumentKept(input: Input)
    requires MakeDocument(input).Ok? && InputApart(input) && Natural(input)
    ensures Kept(MakeDocument(input).value, None) && Fits(MakeDocument(input).value)
  {
    var sticks := MakeSticks(input).value;
    var doc := MakeDocument(input).value;
    MakeDocumentOwned(input);
    MadeBounds(input, doc.sticks);
    MadeApart(input);
    ApartPermutation(sticks, doc.sticks);
    RegisterAllCovered(doc.sticks);
  }

  /** Lowering sticks keeps them within the grid's levels. */
  lemma FitsDescended(doc: Document, r: Document)
    requires Fits(doc) && Descended(doc.sticks, r.sticks) && r.maxZ == doc.maxZ
    ensures Fits(r)
  {
  }

  /** A strictly increasing sequence has as many elements as the set of
      its elements. */
  lemma {:induction false} IncreasingCount(r: seq<nat>, set_: set<nat>)
    requires forall p, q :: 0 <= p < q < |r| ==> r[p] < r[q]
    requires forall x :: x in r <==> x in set_
    ensures |r| == |set_|
  {
    if |r| > 0 {
      IncreasingCount(r[1..], set_ - {r[0]});
    }
  }

  /** The sticks whose removal lets no other stick drop. */
  ghost function Removable(doc: Document): set<nat>
  {
    set i | 0 <= i < |doc.sticks| && forall j :: 0 <= j < |doc.sticks| && j != i ==> !CanDrop(doc, j, {i})
  }

  /** After settling, the sticks listed are as many as the removable
      ones. */
  lemma CountsRemovable(doc: Document)
    requires Kept(doc, None) && Fits(doc) && Settled(doc)
    ensures InRange(doc) && |Disintegratable(doc)| == |Removable(doc)|
  {
    KeptInRange(doc);
    DisintegratableFromSafe(doc, 0);
    DisintegratableFromIncreasing(doc, 0);
    forall i | 0 <= i < |doc.sticks|
      ensures i in Disintegratable(doc) <==> i in Removable(doc)
    {
      DisintegratableIsSafe(doc, i);
    }
    IncreasingCount(Disintegratable(doc), Removable(doc));
  }

  /** 22.py's `main`: build, settle, count the sticks that could go. The
      count is that of the settled sticks whose removal lets no other
      stick drop. */
  method CountDisintegratable(input: Input) returns (r: Result<nat>, settled: Document)
    requires InputApart(input) && Natural(input)
    ensures r.Err? <==> exists k :: 0 <= k < |input| && Axes(input[k].0, input[k].1) > 1
    ensures r.Err? ==> r.error == AssertionError
    ensures r.Ok? ==> MakeDocument(input).Ok? && Descended(MakeDocument(input).value.sticks, settled.sticks)
    ensures r.Ok? ==> Kept(settled, None) && Settled(settled)
    ensures r.Ok? ==> r.value == |Removable(settled)|
  {
    var made := MakeDocument(input);
    if made.Err? {
      return Err(made.error), Document([], map[], 0);
    }
    MakeDocumentKept(input);
    var count;
    settled, count := Settle(made.value, None);
    FitsDescended(made.value, settled);
    CountsRemovable(settled);
    r := Ok(|Disintegratable(settled)|);
  }
}

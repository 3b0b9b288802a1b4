/**
 * Part two of the step counter's garden (21p2.py): the map repeats in
 * every direction and the step count is far too large to search, so the
 * answer is assembled from bounded searches of single copies of the map.
 * Starting from the copy holding the start, four rays run along the axes
 * and four triangular quadrants fill the diagonals; each ray or quadrant
 * splits into a partly covered outer ring, a partly covered inner ring
 * and fully covered copies, which alternate between two checkerboard
 * parities. Every term of the sum is one bounded search times the number
 * of copies it stands for.
 */
module GardenBlocks {
  import opened Outcomes
  import opened Garden

  /** `triangle` of 21p2.py: n(n+1) halved with Python's floor division,
      which is exact since one of two neighbours is even. */
  function Triangle(n: int): (r: int)
    ensures 2 * r == n * (n + 1)
  {
    EvenProduct(n);
    n * (n + 1) / 2
  }

  lemma EvenProduct(n: int)
    ensures (n * (n + 1)) % 2 == 0
  {
    var k := n / 2;
    var m := n * (n + 1);
    if n % 2 == 0 {
      assert n == 2 * k;
      assert m == 2 * (k * (n + 1)) by {
        assert m == (2 * k) * (n + 1);
      }
    } else {
      assert n + 1 == 2 * (k + 1);
      assert m == 2 * (n * (k + 1)) by {
        assert m == n * (2 * (k + 1));
      }
    }
  }

  /** 1 + 2 + ... + n. */
  function SumTo(n: nat): nat
  {
    if n == 0 then 0 else SumTo(n - 1) + n
  }

  /** The triangle number is the sum of the first n positive integers. */
  lemma {:induction false} TriangleSum(n: nat)
    ensures Triangle(n) == SumTo(n)
  {
    if n > 0 {
      TriangleSum(n - 1);
      TriangleStep(n);
    }
  }

  /** Consecutive triangle numbers differ by the larger index. */
  lemma TriangleStep(n: int)
    ensures Triangle(n) - Triangle(n - 1) == n
  {
    assert 2 * Triangle(n) == n * (n + 1);
    assert 2 * Triangle(n - 1) == (n - 1) * n;
    assert n * (n + 1) - (n - 1) * n == 2 * n;
  }

  /** Python's `(n + 1) // 2` and `n // 2` (floor division, as Dafny's
      with a positive divisor) always add up to n. */
  lemma HalvesSum(n: int)
    ensures (n + 1) / 2 + n / 2 == n
  {
    if n % 2 == 0 {
      assert n == 2 * (n / 2);
      assert (n + 1) / 2 == n / 2;
    } else {
      assert n == 2 * (n / 2) + 1;
      assert (n + 1) / 2 == n / 2 + 1;
    }
  }

  /** `first_blocks_count` of `diagonal` for a quadrant `n` copies deep
      (`dlen` after its decrement): the fully covered copies of the first
      parity. */
  function FirstBlocks(n: int): nat
  {
    var half := (n + 1) / 2;
    if half * half < 0 then 0 else half * half
  }

  /** `second_blocks_count` of `diagonal`: the fully covered copies of the
      second parity. */
  function SecondBlocks(n: int): nat
  {
    var pairs := 2 * Triangle(n / 2);
    if pairs < 0 then 0 else pairs
  }

  /** The closed forms behind the comment's sequence (1,0), (1,2), (4,2),
      (4,6), (9,6), ...: an odd depth 2k+1 gives a square of k+1 and twice
      the triangle of k, an even depth 2k+2 a square of k+1 and twice the
      triangle of k+1. */
  lemma BlockCountsPattern(k: nat)
    ensures FirstBlocks(2 * k + 1) == (k + 1) * (k + 1) && SecondBlocks(2 * k + 1) == k * (k + 1)
    ensures FirstBlocks(2 * k + 2) == (k + 1) * (k + 1) && SecondBlocks(2 * k + 2) == (k + 1) * (k + 2)
  {
    assert (2 * k + 2) / 2 == k + 1;
    assert (2 * k + 3) / 2 == k + 1;
    assert (2 * k + 1) / 2 == k;
    assert 2 * Triangle(k) == k * (k + 1);
    assert 2 * Triangle(k + 1) == (k + 1) * (k + 2);
  }

  /** One copy deeper adds a diagonal row of n + 1 copies, all of one
      parity: the first kind when the new depth is odd, the second when
      it is even. */
  lemma BlockCountsGrow(n: nat)
    ensures n % 2 == 0 ==> FirstBlocks(n + 1) == FirstBlocks(n) + n + 1 && SecondBlocks(n + 1) == SecondBlocks(n)
    ensures n % 2 == 1 ==> SecondBlocks(n + 1) == SecondBlocks(n) + n + 1 && FirstBlocks(n + 1) == FirstBlocks(n)
  {
    var k := n / 2;
    if n % 2 == 0 {
      assert n == 2 * k;
      GrowEven(k);
    } else {
      assert n == 2 * k + 1;
      GrowOdd(k);
    }
  }

  /** From the even depth 2k to 2k+1: k+1 more copies of the first kind. */
  lemma GrowEven(k: nat)
    ensures FirstBlocks(2 * k + 1) == FirstBlocks(2 * k) + 2 * k + 1
    ensures SecondBlocks(2 * k + 1) == SecondBlocks(2 * k)
  {
    BlockCountsPattern(k);
    if k > 0 {
      BlockCountsPattern(k - 1);
      assert 2 * (k - 1) + 2 == 2 * k;
    } else {
      assert FirstBlocks(0) == 0 && SecondBlocks(0) == 0;
    }
    assert (k + 1) * (k + 1) == k * k + 2 * k + 1;
  }

  /** From the odd depth 2k+1 to 2k+2: k+1 more copies of the second kind. */
  lemma GrowOdd(k: nat)
    ensures SecondBlocks(2 * k + 2) == SecondBlocks(2 * k + 1) + 2 * k + 2
    ensures FirstBlocks(2 * k + 2) == FirstBlocks(2 * k + 1)
  {
    BlockCountsPattern(k);
    assert (k + 1) * (k + 2) == k * (k + 1) + 2 * k + 2;
  }

  /** The two kinds of fully covered copies together fill the triangle of
      the quadrant's depth: n rows holding 1, 2, ..., n copies. */
  lemma {:induction false} BlockCountsTotal(n: int)
    requires n >= -1
    ensures FirstBlocks(n) + SecondBlocks(n) == Triangle(n)
    decreases n + 1
  {
    if n >= 0 {
      BlockCountsTotal(n - 1);
      TriangleStep(n);
      if n > 0 {
        BlockCountsGrow(n - 1);
      }
    }
  }

  /** The `dlen //= w; drem = dist - dlen * w` split of a distance into
      whole copies of the map and a remainder. */
  function Split(dist: int, w: int): (r: (int, int))
    requires dist >= 0 && w > 0
    ensures r.0 >= 0 && r.0 * w + r.1 == dist && 0 <= r.1 < w
  {
    var dlen := dist / w;
    (dlen, dist - dlen * w)
  }

  /** One term of the sum: the bounded search from `from` with `budget`
      steps, counted `times` times. */
  datatype Term = Term(from: Pos, budget: int, times: nat)

  /** How many copies of the map the terms stand for. */
  function TotalTimes(terms: seq<Term>): nat
  {
    if |terms| == 0 then 0 else terms[0].times + TotalTimes(terms[1..])
  }

  lemma {:induction false} TotalTimesAppend(a: seq<Term>, b: seq<Term>)
    ensures TotalTimes(a + b) == TotalTimes(a) + TotalTimes(b)
    decreases |a|
  {
    if |a| == 0 {
      assert a + b == b;
    } else {
      assert (a + b)[0] == a[0];
      assert (a + b)[1..] == a[1..] + b;
      TotalTimesAppend(a[1..], b);
    }
  }

  /** The copies four terms stand for. */
  lemma TotalTimesFour(a: Term, b: Term, c: Term, d: Term)
    ensures TotalTimes([a, b, c, d]) == a.times + b.times + c.times + d.times
  {
    assert [d][1..] == [];
    assert TotalTimes([d]) == d.times;
    assert [c, d][1..] == [d];
    assert TotalTimes([c, d]) == c.times + d.times;
    assert [b, c, d][1..] == [c, d];
    assert TotalTimes([b, c, d]) == b.times + c.times + d.times;
    assert [a, b, c, d][1..] == [b, c, d];
  }

  /** `cardinal_ray` of 21p2.py for `dist` steps left on entering the ray
      at `from` (`w` the width): nothing when the ray is not reached; the
      outer ring alone when it is less than one copy long; else the outer
      and inner rings once each and the full copies of the two parities.
      The ray stands for as many copies as it touches, `dist / w + 1`, and
      the outer ring's budget is the remainder of the split. */
  function Ray(dist: int, from: Pos, w: int): (r: seq<Term>)
    requires w > 0
    ensures forall i :: 0 <= i < |r| ==> r[i].from == from
    ensures TotalTimes(r) == if dist < 0 then 0 else dist / w + 1
    ensures dist >= 0 ==> |r| > 0 && r[0].times == 1 && r[0].budget == Split(dist, w).1
  {
    if dist < 0 then []
    else
      var (dlen, drem) := Split(dist, w);
      if dlen < 1 then [Term(from, drem, 1)]
      else
        var n := dlen - 1;
        var r := [Term(from, drem, 1), Term(from, drem + w, 1), Term(from, dist, (n + 1) / 2), Term(from, dist - w, n / 2)];
        HalvesSum(n);
        TotalTimesFour(r[0], r[1], r[2], r[3]);
        r
  }

  /** `diagonal` of 21p2.py for `dist` steps left on entering the quadrant
      at the corner `from`: the outer ring's n + 2 copies, the inner ring's
      n + 1 and the full copies of the two parities, for a quadrant n
      copies deep. The quadrant stands for the triangle of copies it
      touches, those whose two offsets add up to at most `dist / w`. */
  function Diagonal(dist: int, from: Pos, w: int): (r: seq<Term>)
    requires w > 0
    ensures forall i :: 0 <= i < |r| ==> r[i].from == from
    ensures TotalTimes(r) == if dist < 0 then 0 else Triangle(dist / w + 1)
  {
    if dist < 0 then []
    else
      var (dlen, drem) := Split(dist, w);
      var n := dlen - 1;
      var r := [Term(from, drem, n + 2), Term(from, drem + w, n + 1),
                Term(from, dist, FirstBlocks(n)), Term(from, dist - w, SecondBlocks(n))];
      BlockCountsTotal(n);
      TriangleStep(n + 1);
      TriangleStep(n + 2);
      TotalTimesFour(r[0], r[1], r[2], r[3]);
      r
  }

  /** The four rays (west, east, north, south) and four quadrants
      (north-west, north-east, south-west, south-east) of
      `count_reachable_plots` for a `w` by `h` map with the start at `s`,
      each entered at the map cell nearest the start; every distance is
      divided by the width. */
  function Plan(w: int, h: int, s: Pos, maxDistance: int): (r: seq<Term>)
    requires w > 0
    ensures TotalTimes(r) ==
      Reach(maxDistance - s.x - 1, w) + Reach(maxDistance - (w - s.x), w)
      + Reach(maxDistance - s.y - 1, w) + Reach(maxDistance - (h - s.y), w)
      + Fill(maxDistance - s.x - s.y - 2, w) + Fill(maxDistance - (w - s.x) - s.y - 1, w)
      + Fill(maxDistance - s.x - (h - s.y) - 1, w) + Fill(maxDistance - (w - s.x) - (h - s.y), w)
  {
    var rays := Ray(maxDistance - s.x - 1, Pos(w - 1, s.y), w)
      + Ray(maxDistance - (w - s.x), Pos(0, s.y), w)
      + Ray(maxDistance - s.y - 1, Pos(s.x, h - 1), w)
      + Ray(maxDistance - (h - s.y), Pos(s.x, 0), w);
    var quadrants := Diagonal(maxDistance - s.x - s.y - 2, Pos(w - 1, h - 1), w)
      + Diagonal(maxDistance - (w - s.x) - s.y - 1, Pos(0, h - 1), w)
      + Diagonal(maxDistance - s.x - (h - s.y) - 1, Pos(w - 1, 0), w)
      + Diagonal(maxDistance - (w - s.x) - (h - s.y), Pos(0, 0), w);
    PlanTimes(w, h, s, maxDistance);
    rays + quadrants
  }

  /** The copies a ray entered with `dist` steps touches. */
  function Reach(dist: int, w: int): nat
    requires w > 0
  {
    if dist < 0 then 0 else dist / w + 1
  }

  /** The copies a quadrant entered with `dist` steps touches. */
  function Fill(dist: int, w: int): nat
    requires w > 0
  {
    if dist < 0 then 0 else
      assert 2 * Triangle(dist / w + 1) == (dist / w + 1) * (dist / w + 2);
      Triangle(dist / w + 1)
  }

  lemma PlanTimes(w: int, h: int, s: Pos, maxDistance: int)
    requires w > 0
    ensures var rays := Ray(maxDistance - s.x - 1, Pos(w - 1, s.y), w)
      + Ray(maxDistance - (w - s.x), Pos(0, s.y), w)
      + Ray(maxDistance - s.y - 1, Pos(s.x, h - 1), w)
      + Ray(maxDistance - (h - s.y), Pos(s.x, 0), w);
    var quadrants := Diagonal(maxDistance - s.x - s.y - 2, Pos(w - 1, h - 1), w)
      + Diagonal(maxDistance - (w - s.x) - s.y - 1, Pos(0, h - 1), w)
      + Diagonal(maxDistance - s.x - (h - s.y) - 1, Pos(w - 1, 0), w)
      + Diagonal(maxDistance - (w - s.x) - (h - s.y), Pos(0, 0), w);
    TotalTimes(rays + quadrants) ==
      Reach(maxDistance - s.x - 1, w) + Reach(maxDistance - (w - s.x), w)
      + Reach(maxDistance - s.y - 1, w) + Reach(maxDistance - (h - s.y), w)
      + Fill(maxDistance - s.x - s.y - 2, w) + Fill(maxDistance - (w - s.x) - s.y - 1, w)
      + Fill(maxDistance - s.x - (h - s.y) - 1, w) + Fill(maxDistance - (w - s.x) - (h - s.y), w)
  {
    var r1 := Ray(maxDistance - s.x - 1, Pos(w - 1, s.y), w);
    var r2 := Ray(maxDistance - (w - s.x), Pos(0, s.y), w);
    var r3 := Ray(maxDistance - s.y - 1, Pos(s.x, h - 1), w);
    var r4 := Ray(maxDistance - (h - s.y), Pos(s.x, 0), w);
    var d1 := Diagonal(maxDistance - s.x - s.y - 2, Pos(w - 1, h - 1), w);
    var d2 := Diagonal(maxDistance - (w - s.x) - s.y - 1, Pos(0, h - 1), w);
    var d3 := Diagonal(maxDistance - s.x - (h - s.y) - 1, Pos(w - 1, 0), w);
    var d4 := Diagonal(maxDistance - (w - s.x) - (h - s.y), Pos(0, 0), w);
    TotalTimesAppend(r1, r2);
    TotalTimesAppend(r1 + r2, r3);
    TotalTimesAppend(r1 + r2 + r3, r4);
    TotalTimesAppend(d1, d2);
    TotalTimesAppend(d1 + d2, d3);
    TotalTimesAppend(d1 + d2 + d3, d4);
    TotalTimesAppend(r1 + r2 + r3 + r4, d1 + d2 + d3 + d4);
  }

  /** The sum of the terms, each a search (`count`) times the copies it
      stands for; the first failing search aborts. */
  function Evaluate(count: (Pos, int) -> Result<nat>, terms: seq<Term>): (r: Result<nat>)
    ensures r.Ok? <==> forall i :: 0 <= i < |terms| ==> count(terms[i].from, terms[i].budget).Ok?
    ensures r.Err? ==> exists i :: 0 <= i < |terms| && count(terms[i].from, terms[i].budget) == Err(r.error)
  {
    if |terms| == 0 then Ok(0)
    else
      var here :- count(terms[0].from, terms[0].budget);
      var rest :- Evaluate(count, terms[1..]);
      assert forall i :: 1 <= i < |terms| ==> terms[i] == terms[1..][i - 1];
      Ok(here * terms[0].times + rest)
  }

  /** When no search counts more than `cap` cells, the sum is at most
      `cap` cells in each of the copies the terms stand for. */
  lemma {:induction false} EvaluateBound(count: (Pos, int) -> Result<nat>, terms: seq<Term>, cap: nat)
    requires forall i :: 0 <= i < |terms| && count(terms[i].from, terms[i].budget).Ok? ==>
      count(terms[i].from, terms[i].budget).value <= cap
    ensures Evaluate(count, terms).Ok? ==> Evaluate(count, terms).value <= cap * TotalTimes(terms)
    decreases |terms|
  {
    if |terms| > 0 && Evaluate(count, terms).Ok? {
      var here := count(terms[0].from, terms[0].budget).value;
      assert forall i :: 1 <= i < |terms[1..]| ==> terms[1..][i] == terms[i + 1];
      EvaluateBound(count, terms[1..], cap);
      assert here * terms[0].times <= cap * terms[0].times by {
        MulMono(here, cap, terms[0].times);
      }
    }
  }

  lemma MulMono(a: nat, b: nat, c: nat)
    requires a <= b
    ensures a * c <= b * c
  {
  }

  /** `full_blocks`: never incremented, its updates being commented out. */
  const FullBlocks: nat := 0

  /** `count_reachable_plots` of 21p2.py with the single-copy search
      `count` (`_count_reachable_plots`) as a parameter: the map must not
      be empty (the constructor reads its first row), must hold a start,
      must count the same from the start with one stride (width plus
      height) of steps as with twenty more, and must be square; the answer
      is then the plan's terms plus the centre copy's own search. */
  function Tiled(count: (Pos, int) -> Result<nat>, grid: Grid, maxDistance: int): (r: Result<nat>)
    ensures |grid| == 0 ==> r == Err(IndexError)
    ensures |grid| > 0 && FindStart(grid).None? ==> r == Err(ValueError)
    ensures r.Err? ==> r.error in {IndexError, ValueError, AssertionError} || exists p, d :: count(p, d) == Err(r.error)
    ensures |grid| > 0 && FindStart(grid).Some? ==>
      var s := FindStart(grid).value;
      var stride := |grid[0]| + |grid|;
      (count(s, stride).Ok? && count(s, stride + 20).Ok?
       && (count(s, stride) != count(s, stride + 20) || |grid[0]| != |grid|)) ==> r == Err(AssertionError)
    ensures r.Ok? ==> (|grid| > 0 && FindStart(grid).Some? &&
      var s := FindStart(grid).value;
      var stride := |grid[0]| + |grid|;
      |grid[0]| == |grid| && count(s, stride).Ok? && count(s, stride) == count(s, stride + 20)
      && count(s, maxDistance).Ok? && r.value >= count(s, maxDistance).value)
    ensures (forall p, d :: count(p, d).Ok?) && |grid| > 0 && FindStart(grid).Some? ==>
      var s := FindStart(grid).value;
      var stride := |grid[0]| + |grid|;
      count(s, stride) == count(s, stride + 20) && |grid[0]| == |grid| ==> r.Ok?
  {
    if |grid| == 0 then Err(IndexError)
    else
      var stride := |grid[0]| + |grid|;
      match FindStart(grid)
      case None => Err(ValueError)
      case Some(s) =>
        var full :- count(s, stride);
        var wider :- count(s, stride + 20);
        if full != wider then Err(AssertionError)
        else if |grid[0]| != |grid| then Err(AssertionError)
        else
          var parts :- Evaluate(count, Plan(|grid[0]|, |grid|, s, maxDistance));
          var center :- count(s, maxDistance);
          Ok(parts + full * FullBlocks + center)
  }

  /** When no single-copy search counts more than `cap` cells, the answer
      is at most `cap` cells in each copy the plan stands for and the
      centre. */
  lemma TiledBound(count: (Pos, int) -> Result<nat>, grid: Grid, maxDistance: int, cap: nat)
    requires forall p, d :: count(p, d).Ok? ==> count(p, d).value <= cap
    ensures var r := Tiled(count, grid, maxDistance);
      r.Ok? ==> r.value <= cap * (TotalTimes(Plan(|grid[0]|, |grid|, FindStart(grid).value, maxDistance)) + 1)
  {
    var r := Tiled(count, grid, maxDistance);
    if r.Ok? {
      var s := FindStart(grid).value;
      var plan := Plan(|grid[0]|, |grid|, s, maxDistance);
      EvaluateBound(count, plan, cap);
      assert r.value == Evaluate(count, plan).value + count(s, maxDistance).value;
    }
  }

  /** `count_reachable_plots` of 21p2.py: the tiled sum over the bounded
      single-copy search. */
  function CountReachablePlotsTiled(grid: Grid, maxDistance: int): Result<nat>
  {
    Tiled((p: Pos, d: int) => BoundedCount(grid, p, d), grid, maxDistance)
  }

  /** With the bounded search the only errors are an empty map, a missing
      start and a failed assertion. */
  lemma TiledErrors(grid: Grid, maxDistance: int)
    ensures var r := CountReachablePlotsTiled(grid, maxDistance);
      r.Err? ==> r.error in {IndexError, ValueError, AssertionError}
  {
  }

  /** On a rectangular map with a start the bounded search never fails, so
      the assertions alone decide whether there is an answer. */
  lemma TiledDecided(grid: Grid, maxDistance: int)
    requires Rectangular(grid) && |grid| > 0 && FindStart(grid).Some?
    ensures var r := CountReachablePlotsTiled(grid, maxDistance);
      var s := FindStart(grid).value;
      var stride := |grid[0]| + |grid|;
      (r.Ok? <==> BoundedCount(grid, s, stride) == BoundedCount(grid, s, stride + 20) && |grid[0]| == |grid|)
      && (r.Err? ==> r.error == AssertionError)
  {
  }

  /** Every bounded search counts at most the open cells and its entry, so
      the answer is at most that many per copy the plan stands for and the
      centre. */
  lemma TiledAtMost(grid: Grid, maxDistance: int)
    ensures var r := CountReachablePlotsTiled(grid, maxDistance);
      r.Ok? ==> r.value <= (|Open(grid)| + 1) * (TotalTimes(Plan(|grid[0]|, |grid|, FindStart(grid).value, maxDistance)) + 1)
  {
    var count := (p: Pos, d: int) => BoundedCount(grid, p, d);
    var cap := |Open(grid)| + 1;
    forall p, d | count(p, d).Ok?
      ensures count(p, d).value <= cap
    {
      assert |Open(grid) + {p}| <= |Open(grid)| + |{p}|;
    }
    TiledBound(count, grid, maxDistance, cap);
  }
}

/**
 * Cosmic Expansion (11.py): every blank row and column of the image doubles,
 * and the answer is the sum of the taxicab distances between the expanded
 * galaxy positions, each galaxy paired with itself and every later one.
 */
module Galaxies {
  import opened Outcomes
  import opened Seqs

  type Pos = (int, int)

  predicate BlankRow(row: string)
  {
    forall x :: 0 <= x < |row| ==> row[x] == '.'
  }

  predicate BlankColumn(cells: seq<string>, x: nat)
    requires Rectangular(cells) && |cells| > 0 && x < |cells[0]|
  {
    forall y :: 0 <= y < |cells| ==> cells[y][x] == '.'
  }

  /** `i in empty_rows` for each row index (11.py:14). */
  function RowFlags(cells: seq<string>): (r: seq<bool>)
    ensures |r| == |cells| && forall y :: 0 <= y < |cells| ==> r[y] == BlankRow(cells[y])
  {
    seq(|cells|, y requires 0 <= y < |cells| => BlankRow(cells[y]))
  }

  /** `i in empty_columns` for each column index (11.py:15). */
  function ColumnFlags(cells: seq<string>): (r: seq<bool>)
    requires Rectangular(cells) && |cells| > 0
    ensures |r| == |cells[0]| && forall x :: 0 <= x < |cells[0]| ==> r[x] == BlankColumn(cells, x)
  {
    seq(|cells[0]|, x requires 0 <= x < |cells[0]| => BlankColumn(cells, x))
  }

  /** Where raw index `i` lands once every flagged index up to and including
      `i` has been doubled. */
  function Shifted(flags: seq<bool>, i: nat): nat
    requires i < |flags|
  {
    i + Count(flags[..i + 1], true)
  }

  /** The mapping loop of 11.py:17-28: the offset grows at each blank index
      before it is added, so entry `i` is `i` plus the blank indices up to
      and including `i`. */
  method BuildMapping(flags: seq<bool>) returns (m: seq<nat>)
    ensures |m| == |flags|
    ensures forall i :: 0 <= i < |m| ==> m[i] == Shifted(flags, i)
  {
    m := [];
    var offset := 0;
    var i := 0;
    while i < |flags|
      invariant 0 <= i <= |flags| && |m| == i
      invariant offset == Count(flags[..i], true)
      invariant forall k :: 0 <= k < i ==> m[k] == Shifted(flags, k)
    {
      assert flags[..i + 1][..i] == flags[..i];
      if flags[i] {
        offset := offset + 1;
      }
      m := m + [i + offset];
      i := i + 1;
    }
  }

  /** The distance between two expanded indices is the raw distance plus
      the number of blank indices passed on the way. */
  lemma ShiftedGap(flags: seq<bool>, i: nat, j: nat)
    requires i <= j < |flags|
    ensures Shifted(flags, j) - Shifted(flags, i) == (j - i) + Count(flags[i + 1..j + 1], true)
  {
    assert flags[..j + 1] == flags[..i + 1] + flags[i + 1..j + 1];
    CountAppend(flags[..i + 1], flags[i + 1..j + 1], true);
  }

  /** Both mappings are strictly increasing and stay inside the expanded
      size, which is the raw size plus the number of blank indices
      (11.py:17-31). */
  lemma ShiftedIncreasing(flags: seq<bool>, i: nat, j: nat)
    requires i < j < |flags|
    ensures i <= Shifted(flags, i) < Shifted(flags, j) < |flags| + Count(flags, true)
  {
    ShiftedMono(flags, i, j);
    ShiftedMono(flags, j, |flags| - 1);
    ShiftedLast(flags);
  }

  /** Expanded indices are at least as far apart as the raw ones. */
  lemma ShiftedMono(flags: seq<bool>, i: nat, j: nat)
    requires i <= j < |flags|
    ensures i <= Shifted(flags, i) && Shifted(flags, j) - Shifted(flags, i) >= j - i
  {
    ShiftedGap(flags, i, j);
  }

  lemma ShiftedLast(flags: seq<bool>)
    requires |flags| > 0
    ensures Shifted(flags, |flags| - 1) == |flags| + Count(flags, true) - 1
  {
    assert flags[..|flags|] == flags;
  }

  /** Only the blank indices strictly between `i` and `j`. */
  function BlanksBetween(flags: seq<bool>, i: nat, j: nat): nat
    requires i < |flags| && j < |flags|
  {
    if i == j then 0
    else if i < j then Count(flags[i + 1..j], true)
    else Count(flags[j + 1..i], true)
  }

  /** Two unflagged indices end up their raw distance plus the blanks
      strictly between them apart. */
  lemma ShiftedDistance(flags: seq<bool>, i: nat, j: nat)
    requires i < |flags| && j < |flags| && !flags[i] && !flags[j]
    ensures Abs(Shifted(flags, j) - Shifted(flags, i)) == Abs(j - i) + BlanksBetween(flags, i, j)
  {
    if i < j {
      ShiftedGap(flags, i, j);
      assert flags[i + 1..j + 1] == flags[i + 1..j] + [flags[j]];
      CountAppend(flags[i + 1..j], [flags[j]], true);
    } else if j < i {
      ShiftedGap(flags, j, i);
      assert flags[j + 1..i + 1] == flags[j + 1..i] + [flags[i]];
      CountAppend(flags[j + 1..i], [flags[i]], true);
    }
  }

  /** The expanded image: the two mappings and the effective size. */
  datatype Expansion = Expansion(rowMap: seq<nat>, columnMap: seq<nat>, width: nat, height: nat)

  /** `Grid.__init__` (11.py:11-31): an image with no rows raises IndexError
      at `cells[0]`. */
  method Expand(cells: seq<string>) returns (r: Result<Expansion>)
    requires Rectangular(cells)
    ensures |cells| == 0 <==> r == Err(IndexError)
    ensures r.Ok? ==>
      && |cells| > 0
      && |r.value.rowMap| == |cells| && |r.value.columnMap| == |cells[0]|
      && (forall y :: 0 <= y < |cells| ==> r.value.rowMap[y] == Shifted(RowFlags(cells), y))
      && (forall x :: 0 <= x < |cells[0]| ==> r.value.columnMap[x] == Shifted(ColumnFlags(cells), x))
      && r.value.width == |cells[0]| + Count(ColumnFlags(cells), true)
      && r.value.height == |cells| + Count(RowFlags(cells), true)
  {
    if |cells| == 0 {
      return Err(IndexError);
    }
    var rows := BuildMapping(RowFlags(cells));
    var columns := BuildMapping(ColumnFlags(cells));
    r := Ok(Expansion(rows, columns, |cells[0]| + Count(ColumnFlags(cells), true), |cells| + Count(RowFlags(cells), true)));
  }

  /** Row-major order: by row, then by column. */
  predicate Before(p: Pos, q: Pos)
  {
    p.1 < q.1 || (p.1 == q.1 && p.0 < q.0)
  }

  predicate RowMajor(s: seq<Pos>)
  {
    forall i, j :: 0 <= i < j < |s| ==> Before(s[i], s[j])
  }

  /** The raw `(x, y)` of every '#' among the first `n` cells of row `y`. */
  function RowStars(row: string, y: nat, n: nat): seq<Pos>
    requires n <= |row|
  {
    if n == 0 then [] else RowStars(row, y, n - 1) + (if row[n - 1] == '#' then [(n - 1, y)] else [])
  }

  /** The raw `(x, y)` of every '#' in the first `n` rows, row by row. */
  function RawStars(cells: seq<string>, n: nat): seq<Pos>
    requires n <= |cells|
  {
    if n == 0 then [] else RawStars(cells, n - 1) + RowStars(cells[n - 1], n - 1, |cells[n - 1]|)
  }

  predicate StarAt(cells: seq<string>, p: Pos)
  {
    0 <= p.1 < |cells| && 0 <= p.0 < |cells[p.1]| && cells[p.1][p.0] == '#'
  }

  lemma {:induction false} RowStarsSpec(row: string, y: nat, n: nat)
    requires n <= |row|
    ensures forall p :: p in RowStars(row, y, n) <==> p.1 == y && 0 <= p.0 < n && row[p.0] == '#'
    ensures RowMajor(RowStars(row, y, n))
    ensures |RowStars(row, y, n)| == Count(row[..n], '#')
  {
    if n > 0 {
      RowStarsSpec(row, y, n - 1);
      assert row[..n][..n - 1] == row[..n - 1];
    }
  }

  /** `find_galaxies` before mapping (11.py:38-43): exactly the stars of the
      image, listed in row-major order and so without repeats. */
  lemma {:induction false} RawStarsSpec(cells: seq<string>, n: nat)
    requires n <= |cells|
    ensures forall p :: p in RawStars(cells, n) <==> StarAt(cells, p) && p.1 < n
    ensures RowMajor(RawStars(cells, n))
  {
    if n > 0 {
      RawStarsSpec(cells, n - 1);
      RowStarsSpec(cells[n - 1], n - 1, |cells[n - 1]|);
      var a := RawStars(cells, n - 1);
      var b := RowStars(cells[n - 1], n - 1, |cells[n - 1]|);
      forall i, j | 0 <= i < j < |a + b|
        ensures Before((a + b)[i], (a + b)[j])
      {
        if j >= |a| && i < |a| {
          assert (a + b)[i] in a && (a + b)[j] in b;
        }
      }
    }
  }

  /** `find_galaxies` (11.py:33-44): the stars in row-major order, each at
      its expanded column and row. */
  function Galaxies(cells: seq<string>): (r: seq<Pos>)
    requires Rectangular(cells) && |cells| > 0
  {
    var raw := RawStars(cells, |cells|);
    RawStarsSpec(cells, |cells|);
    seq(|raw|, k requires 0 <= k < |raw| =>
      (Shifted(ColumnFlags(cells), raw[k].0) as int, Shifted(RowFlags(cells), raw[k].1) as int))
  }

  /** The expanded galaxies are exactly the stars moved by the two
      mappings, still in row-major order. */
  lemma GalaxiesSpec(cells: seq<string>)
    requires Rectangular(cells) && |cells| > 0
    ensures |Galaxies(cells)| == |RawStars(cells, |cells|)|
    ensures forall k :: 0 <= k < |Galaxies(cells)| ==>
      && StarAt(cells, RawStars(cells, |cells|)[k])
      && Galaxies(cells)[k] == (Shifted(ColumnFlags(cells), RawStars(cells, |cells|)[k].0) as int,
                                Shifted(RowFlags(cells), RawStars(cells, |cells|)[k].1) as int)
    ensures forall p :: StarAt(cells, p) ==> exists k :: 0 <= k < |Galaxies(cells)| && RawStars(cells, |cells|)[k] == p
    ensures RowMajor(Galaxies(cells))
  {
    var raw := RawStars(cells, |cells|);
    RawStarsSpec(cells, |cells|);
    var g := Galaxies(cells);
    forall p | StarAt(cells, p)
      ensures exists k :: 0 <= k < |g| && raw[k] == p
    {
      assert p in raw;
    }
    forall i, j | 0 <= i < j < |g|
      ensures Before(g[i], g[j])
    {
      assert raw[i] in raw && raw[j] in raw;
      if raw[i].1 < raw[j].1 {
        ShiftedIncreasing(RowFlags(cells), raw[i].1, raw[j].1);
      } else {
        ShiftedIncreasing(ColumnFlags(cells), raw[i].0, raw[j].0);
      }
    }
  }

  function Taxicab(p: Pos, q: Pos): nat
  {
    Abs(p.0 - q.0) + Abs(p.1 - q.1)
  }

  /** Taxicab distance is a metric-like length: symmetric, and zero exactly
      between equal points (11.py:55). */
  lemma TaxicabSymmetric(p: Pos, q: Pos)
    ensures Taxicab(p, q) == Taxicab(q, p)
    ensures Taxicab(p, q) == 0 <==> p == q
  {
  }

  /** A star's row and column are not blank. */
  lemma StarNotBlank(cells: seq<string>, p: Pos)
    requires Rectangular(cells) && StarAt(cells, p)
    ensures !RowFlags(cells)[p.1] && !ColumnFlags(cells)[p.0]
  {
    assert !BlankColumn(cells, p.0) by {
      assert cells[p.1][p.0] != '.';
    }
  }

  /** The expanded distance between two stars is their raw distance plus
      one for every blank row and every blank column strictly between
      them: the expansion that 11.py:13-28 implements. */
  lemma ExpandedDistance(cells: seq<string>, a: Pos, b: Pos)
    requires Rectangular(cells) && StarAt(cells, a) && StarAt(cells, b)
    ensures
      var cf := ColumnFlags(cells);
      var rf := RowFlags(cells);
      Taxicab((Shifted(cf, a.0) as int, Shifted(rf, a.1) as int), (Shifted(cf, b.0) as int, Shifted(rf, b.1) as int))
        == Taxicab(a, b) + BlanksBetween(cf, a.0, b.0) + BlanksBetween(rf, a.1, b.1)
  {
    StarNotBlank(cells, a);
    StarNotBlank(cells, b);
    ShiftedDistance(ColumnFlags(cells), a.0, b.0);
    ShiftedDistance(RowFlags(cells), a.1, b.1);
  }

  /** Distances from `p` to every position of `g`. */
  function DistancesFrom(p: Pos, g: seq<Pos>): (r: seq<int>)
    ensures |r| == |g| && forall k :: 0 <= k < |g| ==> r[k] == Taxicab(p, g[k])
  {
    seq(|g|, k requires 0 <= k < |g| => Taxicab(p, g[k]) as int)
  }

  /** `find_complete_graph_lengths` (11.py:46-55): each galaxy with itself
      and every later one. */
  function PairLengths(g: seq<Pos>): seq<int>
  {
    if |g| == 0 then [] else DistancesFrom(g[0], g) + PairLengths(g[1..])
  }

  /** The same pairs without a galaxy paired with itself. */
  function DistinctPairLengths(g: seq<Pos>): seq<int>
  {
    if |g| == 0 then [] else DistancesFrom(g[0], g[1..]) + DistinctPairLengths(g[1..])
  }

  /** `n` galaxies give `n(n+1)/2` lengths, `n(n-1)/2` of them between
      different galaxies. */
  lemma {:induction false} PairLengthsCount(g: seq<Pos>)
    ensures 2 * |PairLengths(g)| == |g| * (|g| + 1)
    ensures 2 * |DistinctPairLengths(g)| == |g| * (|g| - 1)
  {
    if |g| > 0 {
      PairLengthsCount(g[1..]);
      Triangle(|g| - 1);
    }
  }

  lemma Triangle(m: nat)
    ensures (m + 1) * (m + 2) == m * (m + 1) + 2 * (m + 1)
    ensures (m + 1) * m == m * (m - 1) + 2 * m
  {
  }

  /** The self-pairs add nothing: the sum is the sum over pairs of
      different galaxies. */
  lemma {:induction false} SelfPairsAddNothing(g: seq<Pos>)
    ensures Sum(PairLengths(g)) == Sum(DistinctPairLengths(g))
  {
    if |g| > 0 {
      SelfPairsAddNothing(g[1..]);
      var rest := DistancesFrom(g[0], g[1..]);
      var d := DistancesFrom(g[0], g);
      assert d == [0] + rest;
      SumAppend([0], rest);
      assert Sum([0]) == 0 by {
        assert [0][..0] == [];
      }
      SumAppend(d, PairLengths(g[1..]));
      SumAppend(rest, DistinctPairLengths(g[1..]));
    }
  }

  /** Every length is non-negative, so the total is too. */
  lemma {:induction false} PairLengthsNonNegative(g: seq<Pos>)
    ensures forall k :: 0 <= k < |PairLengths(g)| ==> PairLengths(g)[k] >= 0
    ensures Sum(PairLengths(g)) >= 0
  {
    if |g| > 0 {
      PairLengthsNonNegative(g[1..]);
    }
    SumNonNegative(PairLengths(g));
  }

  /** The printed answer (11.py:58-62). */
  function TotalLength(cells: seq<string>): (r: Result<int>)
    requires Rectangular(cells)
    ensures r.Err? <==> |cells| == 0
    ensures r.Ok? ==> r.value >= 0 && r.value == Sum(DistinctPairLengths(Galaxies(cells)))
  {
    if |cells| == 0 then Err(IndexError)
    else
      PairLengthsNonNegative(Galaxies(cells));
      SelfPairsAddNothing(Galaxies(cells));
      Ok(Sum(PairLengths(Galaxies(cells))))
  }
}

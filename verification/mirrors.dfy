/**
 * Point of Incidence (13.py, 13p2.py): a pattern is a list of lines, and a
 * mirror at row `r` sits between lines `r - 1` and `r`, reflecting each line
 * above it onto the line as far below it, as far as the shorter side goes.
 * Vertical mirrors are searched for in the transposed pattern.
 */
module Mirrors {
  import opened Outcomes
  import opened Seqs

  /** `zip(a, b)`: pairs up to the shorter length. */
  function Zip<T>(a: seq<T>, b: seq<T>): (r: seq<(T, T)>)
    ensures |r| == Min(|a|, |b|)
    ensures forall k :: 0 <= k < |r| ==> r[k] == (a[k], b[k])
  {
    seq(Min(|a|, |b|), k requires 0 <= k < Min(|a|, |b|) => (a[k], b[k]))
  }

  /** The lines a mirror at `r` pairs up: `lines[r - 1 - k]` with
      `lines[r + k]`, as far as the shorter side goes. */
  function ReflectedPairs(lines: seq<string>, r: nat): (p: seq<(string, string)>)
    requires 1 <= r < |lines|
    ensures |p| == Min(r, |lines| - r)
    ensures forall k :: 0 <= k < |p| ==> p[k] == (lines[r - 1 - k], lines[r + k])
  {
    seq(Min(r, |lines| - r), k requires 0 <= k < Min(r, |lines| - r) => (lines[r - 1 - k], lines[r + k]))
  }

  /** A clean mirror at `r`: every reflected pair is equal. */
  predicate Reflects(lines: seq<string>, r: nat)
    requires 1 <= r < |lines|
  {
    AllPairsEqual(ReflectedPairs(lines, r))
  }

  /** The pairs `find_mirror` checks once `lines[index] == lines[index + 1]`
      (13.py:27). */
  function OuterPairs(lines: seq<string>, index: nat): seq<(string, string)>
    requires index + 1 < |lines|
  {
    Zip(Reverse(lines[..index]), lines[index + 2..])
  }

  predicate AllPairsEqual(pairs: seq<(string, string)>)
  {
    forall k :: 0 <= k < |pairs| ==> pairs[k].0 == pairs[k].1
  }

  /** The search loop of `find_mirror` (13.py:23-35) from `index` on. */
  function FindMirrorFrom(lines: seq<string>, index: nat): Option<nat>
    decreases |lines| - index
  {
    if index + 1 >= |lines| then None
    else if lines[index] == lines[index + 1] && AllPairsEqual(OuterPairs(lines, index)) then Some(index + 1)
    else FindMirrorFrom(lines, index + 1)
  }

  /** `find_mirror` (13.py:12-35, repeated as 13p2.py:53-76). */
  function FindMirror(lines: seq<string>): Option<nat>
  {
    FindMirrorFrom(lines, 0)
  }

  /** The check at one index is a clean mirror at `index + 1`: the pair at
      the index itself, then the outer pairs zipped from both sides. */
  lemma CheckIsReflection(lines: seq<string>, index: nat)
    requires index + 1 < |lines|
    ensures (lines[index] == lines[index + 1] && AllPairsEqual(OuterPairs(lines, index))) <==> Reflects(lines, index + 1)
  {
    var outer := OuterPairs(lines, index);
    var pairs := ReflectedPairs(lines, index + 1);
    OuterPairsAt(lines, index);
    assert pairs == [(lines[index], lines[index + 1])] + outer;
    AllPairsEqualCons((lines[index], lines[index + 1]), outer);
  }

  lemma AllPairsEqualCons(p: (string, string), rest: seq<(string, string)>)
    ensures AllPairsEqual([p] + rest) <==> p.0 == p.1 && AllPairsEqual(rest)
  {
    if p.0 == p.1 && AllPairsEqual(rest) {
      forall k | 0 <= k < |[p] + rest|
        ensures ([p] + rest)[k].0 == ([p] + rest)[k].1
      {
        if k > 0 {
          assert ([p] + rest)[k] == rest[k - 1];
        }
      }
    }
    if AllPairsEqual([p] + rest) {
      assert ([p] + rest)[0] == p;
      forall k | 0 <= k < |rest|
        ensures rest[k].0 == rest[k].1
      {
        assert ([p] + rest)[k + 1] == rest[k];
      }
    }
  }

  /** The outer pairs are the reflected pairs beyond the innermost one. */
  lemma OuterPairsAt(lines: seq<string>, index: nat)
    requires index + 1 < |lines|
    ensures |OuterPairs(lines, index)| == Min(index, |lines| - index - 2)
    ensures forall k :: 0 <= k < |OuterPairs(lines, index)| ==>
      OuterPairs(lines, index)[k] == (lines[index - 1 - k], lines[index + 2 + k])
  {
    var up := Reverse(lines[..index]);
    var down := lines[index + 2..];
    forall k | 0 <= k < Min(|up|, |down|)
      ensures (up[k], down[k]) == (lines[index - 1 - k], lines[index + 2 + k])
    {
      assert up[k] == lines[..index][index - 1 - k];
    }
  }

  lemma {:induction false} FindMirrorFromFirst(lines: seq<string>, index: nat)
    ensures forall r :: FindMirrorFrom(lines, index) == Some(r) <==>
      (index < r < |lines| && Reflects(lines, r) && forall q :: index < q < r ==> !Reflects(lines, q))
    ensures FindMirrorFrom(lines, index) == None <==> forall q :: index < q < |lines| ==> !Reflects(lines, q)
    decreases |lines| - index
  {
    if index + 1 < |lines| {
      CheckIsReflection(lines, index);
      FindMirrorFromFirst(lines, index + 1);
    }
  }

  /** `find_mirror` returns the first clean mirror, which lies strictly
      inside the pattern, and None exactly when there is none. */
  lemma FindMirrorFirst(lines: seq<string>)
    ensures forall r :: FindMirror(lines) == Some(r) <==>
      (1 <= r < |lines| && Reflects(lines, r) && forall q :: 1 <= q < r ==> !Reflects(lines, q))
    ensures FindMirror(lines) == None <==> forall q :: 1 <= q < |lines| ==> !Reflects(lines, q)
  {
    FindMirrorFromFirst(lines, 0);
  }

  /** The length of the shortest line: how far `zip(*lines)` runs. */
  function MinWidth(lines: seq<string>): (w: nat)
    ensures forall y :: 0 <= y < |lines| ==> w <= |lines[y]|
    ensures |lines| > 0 ==> exists y :: 0 <= y < |lines| && w == |lines[y]|
    ensures |lines| == 0 ==> w == 0
  {
    if |lines| == 0 then 0
    else if |lines| == 1 then |lines[0]|
    else
      var w := MinWidth(lines[..|lines| - 1]);
      assert forall y :: 0 <= y < |lines| - 1 ==> lines[..|lines| - 1][y] == lines[y];
      Min(w, |lines[|lines| - 1]|)
  }

  /** `flip` (13p2.py:13-17, inline at 13.py:51): the transposed pattern,
      joined and split again, so a pattern of width 0 becomes one empty
      line. */
  function Flip(lines: seq<string>): (r: seq<string>)
    ensures MinWidth(lines) == 0 ==> r == [""]
    ensures MinWidth(lines) > 0 ==>
      && |r| == MinWidth(lines)
      && (forall x :: 0 <= x < |r| ==> |r[x]| == |lines|)
      && (forall x, y :: 0 <= x < |r| && 0 <= y < |lines| ==> r[x][y] == lines[y][x])
  {
    var w := MinWidth(lines);
    if w == 0 then [""]
    else seq(w, x requires 0 <= x < w => seq(|lines|, y requires 0 <= y < |lines| => lines[y][x]))
  }

  /** The transpose is rectangular, and transposing a non-empty rectangular
      pattern twice gives it back. */
  lemma FlipFlip(lines: seq<string>)
    requires Rectangular(lines) && |lines| > 0 && |lines[0]| > 0
    ensures Rectangular(Flip(lines))
    ensures Flip(Flip(lines)) == lines
  {
    var f := Flip(lines);
    assert MinWidth(lines) == |lines[0]|;
    assert MinWidth(f) == |lines| by {
      assert |f[0]| == |lines|;
    }
    var g := Flip(f);
    assert |g| == |lines|;
    forall y | 0 <= y < |lines|
      ensures g[y] == lines[y]
    {
      assert |g[y]| == |f| == |lines[y]|;
    }
  }

  /** The value of one pattern in the first part (13.py:46-56): 100 per row
      above a horizontal mirror, else the columns left of a vertical one;
      the `assert` fails when there is neither. */
  function PatternValue(lines: seq<string>): (r: Result<nat>)
    ensures r.Ok? && FindMirror(lines).Some? ==> r.value == 100 * FindMirror(lines).value
    ensures r.Ok? && FindMirror(lines).None? ==> FindMirror(Flip(lines)) == Some(r.value)
    ensures r.Err? <==> FindMirror(lines).None? && FindMirror(Flip(lines)).None?
    ensures r.Err? ==> r.error == AssertionError
  {
    match FindMirror(lines)
    case Some(row) => Ok(100 * row)
    case None =>
      match FindMirror(Flip(lines))
      case Some(column) => Ok(column)
      case None => Err(AssertionError)
  }

  /** A clean mirror scores 100 times its row, or its column when only the
      transposed pattern has one. */
  lemma PatternValueMirror(lines: seq<string>)
    ensures PatternValue(lines).Ok? <==>
      (exists r :: 1 <= r < |lines| && Reflects(lines, r)) || (exists c :: 1 <= c < |Flip(lines)| && Reflects(Flip(lines), c))
    ensures forall r :: 1 <= r < |lines| && Reflects(lines, r) && (forall q :: 1 <= q < r ==> !Reflects(lines, q)) ==>
      PatternValue(lines) == Ok(100 * r)
  {
    FindMirrorFirst(lines);
    FindMirrorFirst(Flip(lines));
  }

  /** The printed sum of the first part (13.py:58-64); the first failing
      pattern's error is raised. */
  function Summarize(patterns: seq<seq<string>>): (r: Result<int>)
    ensures r.Ok? <==> forall i :: 0 <= i < |patterns| ==> PatternValue(patterns[i]).Ok?
  {
    if |patterns| == 0 then Ok(0)
    else
      var rest := Summarize(patterns[..|patterns| - 1]);
      assert forall i :: 0 <= i < |patterns| - 1 ==> patterns[..|patterns| - 1][i] == patterns[i];
      if rest.Err? then rest
      else
        var v :- PatternValue(patterns[|patterns| - 1]);
        Ok(rest.value + v)
  }

  /** The sum over two lists of patterns: an error of the first list, else
      one of the second, else the sum of the two sums. */
  lemma {:induction false} SummarizeAppend(a: seq<seq<string>>, b: seq<seq<string>>)
    ensures Summarize(a + b) ==
      if Summarize(a).Err? then Summarize(a)
      else if Summarize(b).Err? then Summarize(b)
      else Ok(Summarize(a).value + Summarize(b).value)
    decreases |b|
  {
    if |b| == 0 {
      assert a + b == a;
    } else {
      var init := b[..|b| - 1];
      var last := b[|b| - 1];
      assert a + b == (a + init) + [last];
      assert b == init + [last];
      SummarizeAppend(a, init);
      SummarizeSnoc(a + init, last);
      SummarizeSnoc(init, last);
    }
  }

  /** One more pattern at the end adds its value to the sum, or raises. */
  lemma SummarizeSnoc(patterns: seq<seq<string>>, p: seq<string>)
    ensures Summarize(patterns + [p]) ==
      if Summarize(patterns).Err? then Summarize(patterns)
      else match PatternValue(p)
        case Ok(v) => Ok(Summarize(patterns).value + v)
        case Err(e) => Err(e)
  {
    assert (patterns + [p])[..|patterns|] == patterns;
  }

  /** A single pattern contributes its value, or raises its error. */
  lemma SummarizeSingle(p: seq<string>)
    ensures Summarize([p]) == match PatternValue(p)
      case Ok(v) => Ok(v as int)
      case Err(e) => Err(e)
  {
    assert [p][..0] == [];
  }

  // ---------------------------------------------------------------------
  // Smudged mirrors (13p2.py).
  // ---------------------------------------------------------------------

  /** `line_deltas` (13p2.py:19-23): the positions, up to the shorter
      length, where the lines differ. */
  function LineDeltas(l: string, r: string): nat
  {
    if |l| == 0 || |r| == 0 then 0
    else (if l[0] != r[0] then 1 else 0) + LineDeltas(l[1..], r[1..])
  }

  /** The delta is symmetric, at most the shorter length, and zero for two
      lines of the same length exactly when they are equal. */
  lemma {:induction false} LineDeltasSpec(l: string, r: string)
    ensures LineDeltas(l, r) == LineDeltas(r, l)
    ensures LineDeltas(l, r) <= Min(|l|, |r|)
    ensures |l| == |r| ==> (LineDeltas(l, r) == 0 <==> l == r)
    decreases |l|
  {
    if |l| > 0 && |r| > 0 {
      LineDeltasSpec(l[1..], r[1..]);
      if |l| == |r| && l[0] == r[0] && l[1..] == r[1..] {
        assert l == [l[0]] + l[1..] && r == [r[0]] + r[1..];
      }
    }
  }

  lemma {:induction false} LineDeltasSelf(l: string)
    ensures LineDeltas(l, l) == 0
    decreases |l|
  {
    if |l| > 0 {
      LineDeltasSelf(l[1..]);
    }
  }

  /** The total delta over a list of pairs. */
  function SumDeltas(pairs: seq<(string, string)>): nat
  {
    if |pairs| == 0 then 0 else LineDeltas(pairs[0].0, pairs[0].1) + SumDeltas(pairs[1..])
  }

  /** The inner loop of 13p2.py:38-45: add each pair's delta, giving up as
      soon as the running total passes 1. */
  function ScanDeltas(pairs: seq<(string, string)>, delta: nat): Option<nat>
  {
    if |pairs| == 0 then Some(delta)
    else
      var next := delta + LineDeltas(pairs[0].0, pairs[0].1);
      if next > 1 then None else ScanDeltas(pairs[1..], next)
  }

  /** Breaking off early loses nothing: the scan finishes exactly when the
      total stays at most 1, and then yields the total. */
  lemma {:induction false} ScanDeltasTotal(pairs: seq<(string, string)>, delta: nat)
    requires delta <= 1
    ensures ScanDeltas(pairs, delta).Some? <==> delta + SumDeltas(pairs) <= 1
    ensures ScanDeltas(pairs, delta).Some? ==> ScanDeltas(pairs, delta).value == delta + SumDeltas(pairs)
  {
    if |pairs| > 0 {
      var d := LineDeltas(pairs[0].0, pairs[0].1);
      assert SumDeltas(pairs) == d + SumDeltas(pairs[1..]);
      if delta + d > 1 {
        assert ScanDeltas(pairs, delta) == None;
      } else {
        assert ScanDeltas(pairs, delta) == ScanDeltas(pairs[1..], delta + d);
        ScanDeltasTotal(pairs[1..], delta + d);
      }
    }
  }

  /** The pairs 13p2.py:40 zips for a mirror after `index`. */
  function MirrorPairs(lines: seq<string>, index: nat): seq<(string, string)>
    requires index + 1 < |lines|
  {
    Zip(Reverse(lines[..index + 1]), lines[index + 1..])
  }

  lemma MirrorPairsReflected(lines: seq<string>, index: nat)
    requires index + 1 < |lines|
    ensures MirrorPairs(lines, index) == ReflectedPairs(lines, index + 1)
  {
  }

  /** A smudged mirror: the reflected pairs differ in exactly one place. */
  predicate Smudge(lines: seq<string>, r: nat)
    requires 1 <= r < |lines|
  {
    SumDeltas(ReflectedPairs(lines, r)) == 1
  }

  /** The indices `find_smudged_mirrors` yields from `index` on
      (13p2.py:37-51). */
  function SmudgedFrom(lines: seq<string>, index: nat): seq<nat>
    decreases |lines| - index
  {
    if index + 1 >= |lines| then []
    else
      (if ScanDeltas(MirrorPairs(lines, index), 0) == Some(1) then [index + 1] else [])
      + SmudgedFrom(lines, index + 1)
  }

  function FindSmudgedMirrors(lines: seq<string>): seq<nat>
  {
    SmudgedFrom(lines, 0)
  }

  predicate Increasing(s: seq<nat>)
  {
    forall i, j :: 0 <= i < j < |s| ==> s[i] < s[j]
  }

  lemma {:induction false} SmudgedFromSpec(lines: seq<string>, index: nat)
    ensures forall r :: r in SmudgedFrom(lines, index) <==> index < r < |lines| && Smudge(lines, r)
    decreases |lines| - index
  {
    if index + 1 < |lines| {
      SmudgedFromSpec(lines, index + 1);
      ScanDeltasTotal(MirrorPairs(lines, index), 0);
      MirrorPairsReflected(lines, index);
    }
  }

  lemma {:induction false} SmudgedFromIncreasing(lines: seq<string>, index: nat)
    ensures forall r :: r in SmudgedFrom(lines, index) ==> index < r
    ensures Increasing(SmudgedFrom(lines, index))
    decreases |lines| - index
  {
    if index + 1 < |lines| {
      SmudgedFromIncreasing(lines, index + 1);
      var head: seq<nat> := if ScanDeltas(MirrorPairs(lines, index), 0) == Some(1) then [index + 1] else [];
      var rest := SmudgedFrom(lines, index + 1);
      assert SmudgedFrom(lines, index) == head + rest;
      forall i, j | 0 <= i < j < |head + rest|
        ensures (head + rest)[i] < (head + rest)[j]
      {
        if i < |head| {
          assert (head + rest)[j] in rest;
        }
      }
    }
  }

  /** `find_smudged_mirrors` yields, in increasing order, exactly the rows
      whose reflected pairs differ in a single place. */
  lemma FindSmudgedMirrorsSpec(lines: seq<string>)
    ensures forall r :: r in FindSmudgedMirrors(lines) <==> 1 <= r < |lines| && Smudge(lines, r)
    ensures Increasing(FindSmudgedMirrors(lines))
  {
    SmudgedFromSpec(lines, 0);
    SmudgedFromIncreasing(lines, 0);
  }

  lemma {:induction false} SumDeltasZero(pairs: seq<(string, string)>)
    ensures (forall k :: 0 <= k < |pairs| ==> pairs[k].0 == pairs[k].1) ==> SumDeltas(pairs) == 0
    ensures (forall k :: 0 <= k < |pairs| ==> |pairs[k].0| == |pairs[k].1|) && SumDeltas(pairs) == 0 ==>
      forall k :: 0 <= k < |pairs| ==> pairs[k].0 == pairs[k].1
  {
    if |pairs| > 0 {
      SumDeltasZero(pairs[1..]);
      LineDeltasSelf(pairs[0].0);
      LineDeltasSpec(pairs[0].0, pairs[0].1);
    }
  }

  /** A clean mirror has no differing place, so it is never smudged; for a
      rectangular pattern, no differing place means a clean mirror. */
  lemma CleanIsNotSmudged(lines: seq<string>, r: nat)
    requires 1 <= r < |lines|
    ensures Reflects(lines, r) ==> !Smudge(lines, r)
    ensures Rectangular(lines) ==> (Reflects(lines, r) <==> SumDeltas(ReflectedPairs(lines, r)) == 0)
  {
    var pairs := ReflectedPairs(lines, r);
    SumDeltasZero(pairs);
    if Rectangular(lines) {
      assert forall k :: 0 <= k < |pairs| ==> |pairs[k].0| == |lines[0]| == |pairs[k].1|;
    }
  }

  /** The yielded values with those equal to `skip` left out: the
      `continue` of 13p2.py:96-97 and 106-107. */
  function Scored(indices: seq<nat>, scale: nat, skip: Option<int>): seq<int>
  {
    if |indices| == 0 then []
    else (if skip == Some(scale * indices[0]) then [] else [scale * indices[0]]) + Scored(indices[1..], scale, skip)
  }

  function Scale(indices: seq<nat>, scale: nat): (r: seq<int>)
    ensures |r| == |indices| && forall i :: 0 <= i < |r| ==> r[i] == scale * indices[i]
  {
    seq(|indices|, i requires 0 <= i < |indices| => scale * indices[i])
  }

  /** The original mirror's value (13p2.py:89-93); None when neither
      orientation has one, which no yielded value then equals. */
  function OriginalValue(lines: seq<string>): Option<int>
  {
    match FindMirror(lines)
    case Some(row) => Some(100 * row)
    case None => match FindMirror(Flip(lines))
      case Some(column) => Some(column)
      case None => None
  }

  /** `find_all_pattern_values` for one pattern (13p2.py:88-111): every
      smudged horizontal mirror at 100 per row, then every smudged vertical
      one, skipping the original mirror's value. */
  function SmudgedValues(lines: seq<string>): seq<int>
  {
    var og := OriginalValue(lines);
    Scored(FindSmudgedMirrors(lines), 100, og) + Scored(FindSmudgedMirrors(Flip(lines)), 1, og)
  }

  lemma {:induction false} ScoredKeepsAll(indices: seq<nat>, scale: nat, skip: Option<int>)
    requires forall i :: 0 <= i < |indices| ==> skip != Some(scale * indices[i])
    ensures Scored(indices, scale, skip) == Scale(indices, scale)
  {
    if |indices| > 0 {
      ScoredKeepsAll(indices[1..], scale, skip);
    }
  }

  /** The skip never fires on a pattern at most 100 wide: a smudged mirror
      is never the clean one in the same orientation, and a vertical value
      (below the width) never equals a multiple of 100. So the pattern
      yields all its smudged mirrors. */
  lemma SkipNeverFires(lines: seq<string>)
    requires MinWidth(lines) <= 100
    ensures SmudgedValues(lines) == Scale(FindSmudgedMirrors(lines), 100) + Scale(FindSmudgedMirrors(Flip(lines)), 1)
  {
    var og := OriginalValue(lines);
    var h := FindSmudgedMirrors(lines);
    var v := FindSmudgedMirrors(Flip(lines));
    FindSmudgedMirrorsSpec(lines);
    FindSmudgedMirrorsSpec(Flip(lines));
    forall i | 0 <= i < |h|
      ensures og != Some(100 * h[i])
    {
      assert h[i] in h;
      HorizontalNotSkipped(lines, h[i]);
    }
    forall i | 0 <= i < |v|
      ensures og != Some(1 * v[i])
    {
      assert v[i] in v;
      VerticalNotSkipped(lines, v[i]);
    }
    ScoredKeepsAll(h, 100, og);
    ScoredKeepsAll(v, 1, og);
  }

  /** The columns of a pattern at most 100 wide number at most 100. */
  lemma FlipNarrow(lines: seq<string>)
    requires MinWidth(lines) <= 100
    ensures |Flip(lines)| <= 100
  {
  }

  /** A mirror found is a clean mirror of the pattern. */
  lemma MirrorFound(lines: seq<string>)
    ensures FindMirror(lines).Some? ==>
      1 <= FindMirror(lines).value < |lines| && Reflects(lines, FindMirror(lines).value)
  {
    FindMirrorFirst(lines);
  }

  /** A smudged mirror is not the clean mirror found. */
  lemma SmudgedNotFound(lines: seq<string>, r: nat)
    requires 1 <= r < |lines| && Smudge(lines, r)
    ensures FindMirror(lines) != Some(r)
  {
    MirrorFound(lines);
    if FindMirror(lines) == Some(r) {
      CleanIsNotSmudged(lines, r);
    }
  }

  /** A smudged horizontal mirror's value is not the original mirror's. */
  lemma HorizontalNotSkipped(lines: seq<string>, r: nat)
    requires MinWidth(lines) <= 100 && 1 <= r < |lines| && Smudge(lines, r)
    ensures OriginalValue(lines) != Some(100 * r)
  {
    MirrorFound(lines);
    match FindMirror(lines)
    case Some(row) =>
      CleanIsNotSmudged(lines, row);
      assert row != r;
    case None =>
      MirrorFound(Flip(lines));
      FlipNarrow(lines);
  }

  /** A smudged vertical mirror's value is not the original mirror's. */
  lemma VerticalNotSkipped(lines: seq<string>, c: nat)
    requires MinWidth(lines) <= 100 && 1 <= c < |Flip(lines)| && Smudge(Flip(lines), c)
    ensures OriginalValue(lines) != Some(1 * c)
  {
    FlipNarrow(lines);
    match FindMirror(lines)
    case Some(row) =>
      MirrorFound(lines);
    case None =>
      SmudgedNotFound(Flip(lines), c);
  }
}

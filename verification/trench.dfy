/**
 * Lavaduct Lagoon, part 2 (18p2.py): the plan's real distances are five hex
 * digits and its real headings a digit of the colour field. The lagoon is too
 * large for a grid, so `build_polygon` walks the corners of the trench's
 * centre line, grows every edge by one metre and shrinks it by one for each
 * reflex corner it touches, and `area` applies the shoelace formula to the
 * grown corners.
 */
module Trench {
  import opened Outcomes
  import opened Pipes
  import opened Lagoon

  /** One plan line as part 2 reads it: the five distance digits and the
      heading digit of the colour field (18p2.py:13). */
  datatype Instruction = Instruction(distance: string, code: char)

  // ------------------------------------------------------------ decoding

  /** `direction_from_dig_instruction` (18p2.py:79-89): the colour digits
      0 to 3 and the part 1 letters. */
  function Heading(c: char): (r: Result<Direction>)
    ensures r.Ok? <==> c in "0123RDLU"
    ensures r.Err? ==> r.error == ValueError
  {
    if c in "3U" then Ok(North)
    else if c in "1D" then Ok(South)
    else if c in "2L" then Ok(West)
    else if c in "0R" then Ok(East)
    else Err(ValueError)
  }

  /** The colour digit for a heading. */
  function Code(d: Direction): char
  {
    match d
    case East => '0'
    case South => '1'
    case West => '2'
    case North => '3'
  }

  /** Both spellings decode to the heading they name, and every letter part 1
      accepts keeps its part 1 meaning. */
  lemma HeadingDecodes(d: Direction, c: char)
    ensures Heading(Code(d)) == Ok(d) && Heading(Letter(d)) == Ok(d)
    ensures DigDirection(c).Ok? ==> Heading(c) == DigDirection(c)
    ensures Heading(c) == Ok(d) ==> c == Code(d) || c == Letter(d)
  {
  }

  /** The value of one hex digit, in either case. */
  function HexDigit(c: char): Option<nat>
  {
    if '0' <= c <= '9' then Some(c as int - '0' as int)
    else if 'a' <= c <= 'f' then Some(c as int - 'a' as int + 10)
    else if 'A' <= c <= 'F' then Some(c as int - 'A' as int + 10)
    else None
  }

  predicate AllHex(s: string)
  {
    forall i :: 0 <= i < |s| ==> HexDigit(s[i]).Some?
  }

  function Pow16(k: nat): nat
  {
    if k == 0 then 1 else 16 * Pow16(k - 1)
  }

  /** The base-16 reading of a string of hex digits. */
  function Hex(s: string): nat
    requires AllHex(s)
  {
    if |s| == 0 then 0 else 16 * Hex(s[..|s| - 1]) + HexDigit(s[|s| - 1]).value
  }

  /** `int(s, base=16)` on the distance field (18p2.py:130, 162): an empty
      string or a character that is no hex digit raises ValueError. The
      grammar passes only hex digits, so the signs, blanks, underscores and
      `0x` prefix Python would also accept never reach it. */
  function HexValue(s: string): (r: Result<nat>)
    ensures r.Err? <==> |s| == 0 || !AllHex(s)
    ensures r.Ok? ==> r.value < Pow16(|s|)
    ensures r.Err? ==> r.error == ValueError
  {
    if |s| > 0 && AllHex(s) then HexBound(s); Ok(Hex(s)) else Err(ValueError)
  }

  /** `k` digits read in base 16 stay below `16^k`; five digits, the most
      the plan holds, stay below 1048576. */
  lemma {:induction false} HexBound(s: string)
    requires AllHex(s)
    ensures Hex(s) < Pow16(|s|)
  {
    if |s| > 0 {
      var init := s[..|s| - 1];
      assert AllHex(init) by {
        forall i | 0 <= i < |init|
          ensures HexDigit(init[i]).Some?
        {
          assert init[i] == s[i];
        }
      }
      HexBound(init);
      var v := Hex(init);
      var p := Pow16(|init|);
      assert v + 1 <= p;
      assert 16 * v + 16 <= 16 * p;
    }
  }

  /** `n` as `k` lower-case hex digits, most significant first. */
  function ToHex(n: nat, k: nat): (r: string)
    ensures |r| == k
  {
    if k == 0 then "" else ToHex(n / 16, k - 1) + ["0123456789abcdef"[n % 16]]
  }

  /** Reading back `k` digits written for a number below `16^k` gives the
      number. */
  lemma {:induction false} HexRoundTrip(n: nat, k: nat)
    requires n < Pow16(k)
    ensures AllHex(ToHex(n, k)) && Hex(ToHex(n, k)) == n
    ensures k > 0 ==> HexValue(ToHex(n, k)) == Ok(n)
  {
    if k > 0 {
      var q := n / 16;
      var s := ToHex(n, k);
      assert q < Pow16(k - 1);
      HexRoundTrip(q, k - 1);
      assert s[..k - 1] == ToHex(q, k - 1);
      assert HexDigit(s[k - 1]) == Some(n % 16);
      forall i | 0 <= i < k
        ensures HexDigit(s[i]).Some?
      {
        if i < k - 1 {
          assert s[i] == ToHex(q, k - 1)[i];
        }
      }
    }
  }

  /** One edge decoded as the loops of `build_polygon` read it: the
      distance first, then the heading (18p2.py:130-131). */
  function DecodeEdge(e: Instruction): (r: Result<Leg>)
    ensures r.Ok? <==> HexValue(e.distance).Ok? && Heading(e.code).Ok?
    ensures r.Ok? ==> r.value == Leg(Heading(e.code).value, HexValue(e.distance).value)
    ensures r.Err? ==> r.error == ValueError
  {
    var length :- HexValue(e.distance);
    var heading :- Heading(e.code);
    Ok(Leg(heading, length))
  }

  /** Every distance and heading of the plan decoded, or ValueError. */
  function Decode(edges: seq<Instruction>): (r: Result<seq<Leg>>)
    ensures r.Ok? <==> forall i :: 0 <= i < |edges| ==> DecodeEdge(edges[i]).Ok?
    ensures r.Ok? ==> Decodes(edges, r.value)
    ensures r.Err? ==> r.error == ValueError
  {
    if |edges| == 0 then Ok([])
    else
      var init :- Decode(edges[..|edges| - 1]);
      var leg :- DecodeEdge(edges[|edges| - 1]);
      Ok(init + [leg])
  }

  /** `legs` is what the edges decode to. */
  predicate Decodes(edges: seq<Instruction>, legs: seq<Leg>)
  {
    && |legs| == |edges|
    && forall i :: 0 <= i < |edges| ==> DecodeEdge(edges[i]) == Ok(legs[i])
  }

  // ------------------------------------------------------------ corners

  /** `is_reflex` (18p2.py:93-97): the cross product of the two headings is
      negative. */
  predicate IsReflex(a: Direction, b: Direction)
  {
    a.Dx() * b.Dy() - a.Dy() * b.Dx() < 0
  }

  /** A quarter turn clockwise as the grid is drawn (y grows downwards). */
  function Right(d: Direction): Direction
  {
    match d
    case North => East
    case East => South
    case South => West
    case West => North
  }

  predicate Perpendicular(a: Direction, b: Direction)
  {
    a != b && a != b.Opposite()
  }

  /** A corner is reflex exactly when the walk turns left (anticlockwise)
      there; going straight or reversing is never reflex, and of the two
      orders of a right angle exactly one is reflex. */
  lemma ReflexIsLeftTurn(a: Direction, b: Direction)
    ensures IsReflex(a, b) <==> Right(b) == a
    ensures !Perpendicular(a, b) ==> !IsReflex(a, b)
    ensures Perpendicular(a, b) ==> (IsReflex(a, b) <==> !IsReflex(b, a))
  {
  }

  /** Leg `j` goes the same way as the leg before it. */
  predicate Repeats(legs: seq<Leg>, j: nat)
    requires 0 < j < |legs|
  {
    legs[j - 1].heading == legs[j].heading
  }

  /** No heading repeats the one before it from leg `i` on. */
  predicate NoRepeatFrom(legs: seq<Leg>, i: nat)
  {
    forall j :: i < j < |legs| ==> !Repeats(legs, j)
  }

  /** What the first loop of `build_polygon` asserts (18p2.py:128-138):
      no two consecutive headings are equal, and, because `last_dir` starts
      as the reverse of the last heading, the first heading does not undo
      the last. */
  predicate Turns(legs: seq<Leg>)
  {
    && |legs| > 0
    && legs[0].heading != legs[|legs| - 1].heading.Opposite()
    && NoRepeatFrom(legs, 0)
  }

  /** The loop over the edges building the basic polygon's corners from
      edge `i` on (18p2.py:129-138). */
  function BasicWalk(edges: seq<Instruction>, i: nat, at: Pos, last: Direction): Result<seq<Pos>>
    requires i <= |edges|
    decreases |edges| - i
  {
    if i == |edges| then Ok([])
    else
      var leg :- DecodeEdge(edges[i]);
      :- Need(last != leg.heading, AssertionError);
      var next := Shift(at, leg.heading, leg.length);
      var rest :- BasicWalk(edges, i + 1, next, leg.heading);
      Ok([next] + rest)
  }

  /** The basic polygon (18p2.py:125-138): the corners of the centre line,
      starting at the origin. The last heading is read first, so an empty
      plan raises IndexError. */
  function BasicPolygon(edges: seq<Instruction>): Result<seq<Pos>>
  {
    if |edges| == 0 then Err(IndexError)
    else
      var lastHeading :- Heading(edges[|edges| - 1].code);
      var rest :- BasicWalk(edges, 0, (0, 0), lastHeading.Opposite());
      Ok([(0, 0)] + rest)
  }

  /** A walk over undecodable edges fails, and no walk raises
      IndexError. */
  lemma {:induction false} BasicWalkFails(edges: seq<Instruction>, i: nat, at: Pos, last: Direction)
    requires i <= |edges|
    ensures BasicWalk(edges, i, at, last).Err? ==> BasicWalk(edges, i, at, last).error != IndexError
    ensures (exists j :: i <= j < |edges| && DecodeEdge(edges[j]).Err?) ==> BasicWalk(edges, i, at, last).Err?
    decreases |edges| - i
  {
    if i < |edges| {
      var leg := DecodeEdge(edges[i]);
      if leg.Ok? && last != leg.value.heading {
        BasicWalkFails(edges, i + 1, Shift(at, leg.value.heading, leg.value.length), leg.value.heading);
      }
    }
  }

  /** The corners reached by walking the legs from `i` on, starting
      at `at`. */
  function WalkCorners(legs: seq<Leg>, i: nat, at: Pos): (r: seq<Pos>)
    requires i <= |legs|
    ensures |r| == |legs| - i
    decreases |legs| - i
  {
    if i == |legs| then []
    else
      var next := Shift(at, legs[i].heading, legs[i].length);
      [next] + WalkCorners(legs, i + 1, next)
  }

  /** Walking from the corner after `i` legs visits the later corners. */
  lemma {:induction false} WalkCornersAreVertices(legs: seq<Leg>, i: nat)
    requires i <= |legs|
    ensures forall j :: 0 <= j < |legs| - i ==> WalkCorners(legs, i, Vertex(legs, i))[j] == Vertex(legs, i + j + 1)
    decreases |legs| - i
  {
    if i < |legs| {
      WalkCornersAreVertices(legs, i + 1);
      var w := WalkCorners(legs, i, Vertex(legs, i));
      assert w == [Vertex(legs, i + 1)] + WalkCorners(legs, i + 1, Vertex(legs, i + 1));
      forall j | 0 <= j < |legs| - i
        ensures w[j] == Vertex(legs, i + j + 1)
      {
        if j > 0 {
          assert w[j] == WalkCorners(legs, i + 1, Vertex(legs, i + 1))[j - 1];
        }
      }
    }
  }

  /** One step of the walk over decodable edges. */
  lemma BasicWalkStep(edges: seq<Instruction>, legs: seq<Leg>, i: nat, at: Pos, last: Direction)
    requires Decodes(edges, legs) && i < |edges|
    ensures var leg := legs[i];
      var next := Shift(at, leg.heading, leg.length);
      BasicWalk(edges, i, at, last) ==
        if last == leg.heading then Err(AssertionError)
        else match BasicWalk(edges, i + 1, next, leg.heading)
          case Ok(rest) => Ok([next] + rest)
          case Err(e) => Err(e)
  {
    assert DecodeEdge(edges[i]) == Ok(legs[i]);
  }

  /** Over decodable edges the walk succeeds exactly when no heading
      repeats the one before it, and its only failure is the assertion. */
  lemma {:induction false} BasicWalkOk(edges: seq<Instruction>, legs: seq<Leg>, i: nat, at: Pos, last: Direction)
    requires Decodes(edges, legs) && i <= |edges|
    ensures var r := BasicWalk(edges, i, at, last);
      && (r.Ok? <==> (i < |legs| ==> last != legs[i].heading) && NoRepeatFrom(legs, i))
      && (r.Err? ==> r.error == AssertionError)
    decreases |edges| - i
  {
    if i < |edges| {
      var leg := legs[i];
      var rest := BasicWalk(edges, i + 1, Shift(at, leg.heading, leg.length), leg.heading);
      BasicWalkStep(edges, legs, i, at, last);
      assert BasicWalk(edges, i, at, last).Ok? <==> last != leg.heading && rest.Ok?;
      BasicWalkOk(edges, legs, i + 1, Shift(at, leg.heading, leg.length), leg.heading);
      NoRepeatStep(legs, i);
    }
  }

  /** Headings repeat nowhere from leg `i` on exactly when the next leg
      does not repeat and none repeats from it on. */
  lemma NoRepeatStep(legs: seq<Leg>, i: nat)
    requires i < |legs|
    ensures NoRepeatFrom(legs, i) <==> (i + 1 < |legs| ==> !Repeats(legs, i + 1)) && NoRepeatFrom(legs, i + 1)
  {
  }

  /** A successful walk over decodable edges yields the corners of the
      legs. */
  lemma {:induction false} BasicWalkCorners(edges: seq<Instruction>, legs: seq<Leg>, i: nat, at: Pos, last: Direction)
    requires Decodes(edges, legs) && i <= |edges|
    requires BasicWalk(edges, i, at, last).Ok?
    ensures BasicWalk(edges, i, at, last).value == WalkCorners(legs, i, at)
    decreases |edges| - i
  {
    if i < |edges| {
      var leg := legs[i];
      BasicWalkStep(edges, legs, i, at, last);
      BasicWalkCorners(edges, legs, i + 1, Shift(at, leg.heading, leg.length), leg.heading);
    }
  }

  /** The basic polygon exists exactly when the plan decodes and its
      headings pass the assertion. An empty plan raises IndexError, and a
      decodable one can only fail the assertion. */
  lemma BasicPolygonSpec(edges: seq<Instruction>)
    ensures var r := BasicPolygon(edges);
      && (r.Ok? <==> Decode(edges).Ok? && Turns(Decode(edges).value))
      && (r.Err? ==> (r.error == IndexError <==> |edges| == 0))
      && (r.Err? && |edges| > 0 && Decode(edges).Ok? ==> r.error == AssertionError)
  {
    if |edges| > 0 {
      var lastCode := Heading(edges[|edges| - 1].code);
      if Decode(edges).Ok? {
        var legs := Decode(edges).value;
        assert DecodeEdge(edges[|edges| - 1]) == Ok(legs[|legs| - 1]);
        BasicWalkOk(edges, legs, 0, (0, 0), lastCode.value.Opposite());
      } else if lastCode.Ok? {
        BasicWalkFails(edges, 0, (0, 0), lastCode.value.Opposite());
      }
    }
  }

  /** The basic polygon's corners are those of the decoded legs, starting
      at the origin. */
  lemma BasicPolygonCorners(edges: seq<Instruction>)
    requires BasicPolygon(edges).Ok?
    ensures Decode(edges).Ok?
    ensures var r := BasicPolygon(edges).value; var legs := Decode(edges).value;
      |r| == |legs| + 1 && forall k :: 0 <= k <= |legs| ==> r[k] == Vertex(legs, k)
  {
    BasicPolygonSpec(edges);
    var legs := Decode(edges).value;
    var last := Heading(edges[|edges| - 1].code).value.Opposite();
    BasicWalkCorners(edges, legs, 0, (0, 0), last);
    WalkCornersAreVertices(legs, 0);
    var r := BasicPolygon(edges).value;
    assert r == [(0, 0)] + WalkCorners(legs, 0, (0, 0));
    forall k | 0 < k <= |legs|
      ensures r[k] == Vertex(legs, k)
    {
      assert r[k] == WalkCorners(legs, 0, Vertex(legs, 0))[k - 1];
    }
  }

  // ------------------------------------------------------------ growing

  /** The length of an edge of the grown polygon (18p2.py:167-180): one
      more than the distance, less one for each reflex corner at its
      ends. */
  function Grown(prev: Direction, d: Direction, next: Direction, distance: int): int
  {
    distance + 1 - (if IsReflex(prev, d) then 1 else 0) - (if IsReflex(d, next) then 1 else 0)
  }

  /** The heading after leg `i`, wrapping to the first. */
  function NextHeading(legs: seq<Leg>, i: nat): Direction
    requires i < |legs|
  {
    if i + 1 < |legs| then legs[i + 1].heading else legs[0].heading
  }

  /** The corner of the grown polygon after its first `k` edges. `first`
      is the heading the loop reads as the one before edge 0. */
  function GrownCorner(legs: seq<Leg>, first: Direction, k: nat): Pos
    requires 0 < |legs| && k <= |legs|
  {
    if k == 0 then (0, 0)
    else
      var i := k - 1;
      var prev := if i == 0 then first else legs[i - 1].heading;
      Shift(GrownCorner(legs, first, i), legs[i].heading, Grown(prev, legs[i].heading, NextHeading(legs, i), legs[i].length))
  }

  /** Where the loop starts (18p2.py:163): `clockwise_edges[i - 1]` for
      `i = 0` is the copy of the first edge appended at 18p2.py:159, so the
      edge before the first is taken to be the first edge itself. */
  function AsWrittenFirst(legs: seq<Leg>): Direction
    requires 0 < |legs|
  {
    legs[0].heading
  }

  /** The edge before the first, as the growth rule means it: the last. */
  function CorrectedFirst(legs: seq<Leg>): Direction
    requires 0 < |legs|
  {
    legs[|legs| - 1].heading
  }

  /** The polygon is closed when its last corner returns to the origin
      (18p2.py:187-188). */
  function Grow(legs: seq<Leg>, first: Direction): (r: Result<seq<Pos>>)
    requires 0 < |legs|
    ensures r.Ok? ==> |r.value| == |legs| + 1 && r.value[0] == r.value[|legs|] == (0, 0)
    ensures r.Ok? ==> forall k :: 0 <= k <= |legs| ==> r.value[k] == GrownCorner(legs, first, k)
    ensures r.Err? ==> r.error == AssertionError && GrownCorner(legs, first, |legs|) != (0, 0)
  {
    var corners := seq(|legs| + 1, k requires 0 <= k <= |legs| => GrownCorner(legs, first, k));
    if corners[0] == corners[|legs|] then Ok(corners) else Err(AssertionError)
  }

  /** `build_polygon` (18p2.py:103-190) as written. `inside` is the verdict
      of the ray test on the point half a metre inside the first edge
      (18p2.py:147-150); when it fails, `list.reverse()` has returned None
      and appending to it raises AttributeError (18p2.py:151, 159). */
  function BuildPolygon(edges: seq<Instruction>, inside: bool): Result<seq<Pos>>
  {
    var basic :- BasicPolygon(edges);
    if !inside then Err(AttributeError)
    else
      BasicPolygonSpec(edges);
      var legs := Decode(edges).value;
      Grow(legs, AsWrittenFirst(legs))
  }

  /** `build_polygon` with the edge before the first read as the last. */
  function CorrectedBuildPolygon(edges: seq<Instruction>, inside: bool): Result<seq<Pos>>
  {
    var basic :- BasicPolygon(edges);
    if !inside then Err(AttributeError)
    else
      BasicPolygonSpec(edges);
      var legs := Decode(edges).value;
      Grow(legs, CorrectedFirst(legs))
  }

  // ------------------------------------------------------------ closure

  /** Twice the offset a corner adds to the grown polygon: the heading
      leaving it, negated at a reflex corner, plus that heading turned
      right. */
  function Weight(a: Direction, b: Direction): Pos
  {
    if IsReflex(a, b) then (Right(b).Dx() - b.Dx(), Right(b).Dy() - b.Dy())
    else (Right(b).Dx() + b.Dx(), Right(b).Dy() + b.Dy())
  }

  /** The corner at the start of grown edge `k` (edge `k` wraps to 0). */
  function Corner(legs: seq<Leg>, first: Direction, k: nat): (Direction, Direction)
    requires 0 < |legs| && k <= |legs|
  {
    if k == 0 then (first, legs[0].heading)
    else (legs[k - 1].heading, if k < |legs| then legs[k].heading else legs[0].heading)
  }

  /** Growing one edge by `1 - reflex(start) - reflex(end)` moves its end
      by half the difference of its corners' weights, when the edge turns a
      right angle at its end. */
  lemma EdgeGrowth(p: Direction, d: Direction, n: Direction, distance: int)
    requires Perpendicular(d, n)
    ensures var g := Shift((0, 0), d, Grown(p, d, n, distance) - distance);
      && 2 * g.0 == Weight(p, d).0 - Weight(d, n).0
      && 2 * g.1 == Weight(p, d).1 - Weight(d, n).1
  {
  }

  /** Two points shifted along the same heading move apart by the
      difference of the distances. */
  lemma ShiftDiff(a: Pos, v: Pos, d: Direction, g: int, n: int)
    ensures Shift(a, d, g).0 - Shift(v, d, n).0 == a.0 - v.0 + Shift((0, 0), d, g - n).0
    ensures Shift(a, d, g).1 - Shift(v, d, n).1 == a.1 - v.1 + Shift((0, 0), d, g - n).1
  {
  }

  /** Every corner of the plan is a right angle, the one at the origin
      included. */
  predicate RightAngled(legs: seq<Leg>)
    requires 0 < |legs|
  {
    forall i {:trigger NextHeading(legs, i)} :: 0 <= i < |legs| ==> Perpendicular(legs[i].heading, NextHeading(legs, i))
  }

  /** After `k` edges, twice the gap between the grown and the basic
      corner is the weight of the origin's corner less that of the current
      one: the growth telescopes. */
  lemma {:induction false} GrowthGap(legs: seq<Leg>, first: Direction, k: nat)
    requires 0 < |legs| && k <= |legs| && RightAngled(legs)
    ensures var c := Corner(legs, first, k);
      2 * (GrownCorner(legs, first, k).0 - Vertex(legs, k).0) == Weight(first, legs[0].heading).0 - Weight(c.0, c.1).0
    ensures var c := Corner(legs, first, k);
      2 * (GrownCorner(legs, first, k).1 - Vertex(legs, k).1) == Weight(first, legs[0].heading).1 - Weight(c.0, c.1).1
  {
    if k > 0 {
      var i := k - 1;
      GrowthGap(legs, first, i);
      var d := legs[i].heading;
      var next := NextHeading(legs, i);
      var prev := if i == 0 then first else legs[i - 1].heading;
      assert Corner(legs, first, i) == (prev, d);
      assert Corner(legs, first, k) == (d, next);
      var n := legs[i].length;
      var g := Grown(prev, d, next, n);
      var a := GrownCorner(legs, first, i);
      var v := Vertex(legs, i);
      assert Perpendicular(d, next);
      EdgeGrowth(prev, d, next, n);
      assert GrownCorner(legs, first, k) == Shift(a, d, g);
      assert Vertex(legs, k) == Shift(v, d, n);
      ShiftDiff(a, v, d, g, n);
    }
  }

  /** With the edge before the first read as the last, the grown polygon
      ends where the basic one does: it closes exactly when the centre line
      does, provided every corner is a right angle. */
  lemma CorrectedGrowthCloses(legs: seq<Leg>)
    requires 0 < |legs| && RightAngled(legs)
    ensures GrownCorner(legs, CorrectedFirst(legs), |legs|) == Vertex(legs, |legs|)
  {
    GrowthGap(legs, CorrectedFirst(legs), |legs|);
  }

  /** As written, the first edge never shrinks at the origin, so the grown
      polygon overshoots by one step along the first heading exactly when
      the origin's corner is reflex. */
  lemma AsWrittenGrowthGap(legs: seq<Leg>)
    requires 0 < |legs| && RightAngled(legs)
    ensures GrownCorner(legs, AsWrittenFirst(legs), |legs|)
      == Shift(Vertex(legs, |legs|), legs[0].heading, if IsReflex(CorrectedFirst(legs), legs[0].heading) then 1 else 0)
  {
    GrowthGap(legs, AsWrittenFirst(legs), |legs|);
  }

  /** A plan with a right angle at every corner passes the basic
      polygon's assertion. */
  lemma RightAngledTurns(legs: seq<Leg>)
    requires 0 < |legs| && RightAngled(legs)
    ensures Turns(legs)
  {
    forall i | 0 < i < |legs|
      ensures !Repeats(legs, i)
    {
      assert Perpendicular(legs[i - 1].heading, NextHeading(legs, i - 1));
    }
    assert Perpendicular(legs[|legs| - 1].heading, NextHeading(legs, |legs| - 1));
  }

  /** The corrected growth of a closed, right-angled centre line closes. */
  lemma CorrectedGrowOk(legs: seq<Leg>)
    requires 0 < |legs| && RightAngled(legs) && Vertex(legs, |legs|) == (0, 0)
    ensures Grow(legs, CorrectedFirst(legs)).Ok?
  {
    CorrectedGrowthCloses(legs);
  }

  /** The growth as written of a closed, right-angled centre line closes
      exactly when the origin's corner is convex. */
  lemma AsWrittenGrowOk(legs: seq<Leg>)
    requires 0 < |legs| && RightAngled(legs) && Vertex(legs, |legs|) == (0, 0)
    ensures Grow(legs, AsWrittenFirst(legs)).Ok? <==> !IsReflex(CorrectedFirst(legs), legs[0].heading)
  {
    AsWrittenGrowthGap(legs);
    assert Shift((0, 0), legs[0].heading, 1) != (0, 0);
  }

  /** Both constructions first build the basic polygon and then consult
      the ray test; only after both succeed do they grow the edges. */
  lemma BuildPolygonSteps(edges: seq<Instruction>, inside: bool)
    ensures BasicPolygon(edges).Err? ==>
      BuildPolygon(edges, inside) == CorrectedBuildPolygon(edges, inside) == Err(BasicPolygon(edges).error)
    ensures BasicPolygon(edges).Ok? && !inside ==>
      BuildPolygon(edges, inside) == CorrectedBuildPolygon(edges, inside) == Err(AttributeError)
    ensures BasicPolygon(edges).Ok? && inside ==> Decode(edges).Ok? && 0 < |Decode(edges).value|
    ensures BasicPolygon(edges).Ok? && inside ==>
      && BuildPolygon(edges, inside) == Grow(Decode(edges).value, AsWrittenFirst(Decode(edges).value))
      && CorrectedBuildPolygon(edges, inside) == Grow(Decode(edges).value, CorrectedFirst(Decode(edges).value))
  {
    BasicPolygonSpec(edges);
  }

  /** For a plan whose centre line closes with right angles at every
      corner, the corrected construction succeeds exactly when the ray test
      does, while the construction as written also raises AssertionError
      exactly when the origin's corner is reflex. A failed ray test raises
      AttributeError in both. */
  lemma BuildPolygonCloses(edges: seq<Instruction>, inside: bool)
    requires Decode(edges).Ok? && 0 < |edges|
    requires RightAngled(Decode(edges).value)
    requires Vertex(Decode(edges).value, |edges|) == (0, 0)
    ensures CorrectedBuildPolygon(edges, inside).Ok? <==> inside
    ensures BuildPolygon(edges, inside).Ok? <==> inside && !IsReflex(CorrectedFirst(Decode(edges).value), Decode(edges).value[0].heading)
    ensures !inside ==> BuildPolygon(edges, inside) == CorrectedBuildPolygon(edges, inside) == Err(AttributeError)
    ensures BuildPolygon(edges, inside).Err? && inside ==> BuildPolygon(edges, inside).error == AssertionError
  {
    var legs := Decode(edges).value;
    RightAngledTurns(legs);
    BasicPolygonSpec(edges);
    BuildPolygonSteps(edges, inside);
    CorrectedGrowOk(legs);
    AsWrittenGrowOk(legs);
  }

  // ------------------------------------------------------------ area

  /** The sum of `x1 * y2 - x2 * y1` over consecutive corners. */
  function Shoelace(corners: seq<Pos>): int
  {
    if |corners| < 2 then 0
    else
      var a := corners[|corners| - 2];
      var b := corners[|corners| - 1];
      Shoelace(corners[..|corners| - 1]) + (a.0 * b.1 - b.0 * a.1)
  }

  /** `area` (18p2.py:222-233): half the shoelace sum, rounded down as
      Python's `//` does; Dafny's `/` by a positive divisor rounds down
      too. That this is the enclosed area for every simple right-angled
      polygon (the shoelace formula) is not proved here: it is shown only
      for the rectangles and L-shapes of `RectangleArea` and
      `LShapeAreas`. */
  function Area(corners: seq<Pos>): int
  {
    Shoelace(corners) / 2
  }

  /** The program's answer: the area of the polygon as written. */
  function LagoonArea(edges: seq<Instruction>, inside: bool): Result<int>
  {
    var corners :- BuildPolygon(edges, inside);
    Ok(Area(corners))
  }

  /** The corrected answer. */
  function CorrectedLagoonArea(edges: seq<Instruction>, inside: bool): Result<int>
  {
    var corners :- CorrectedBuildPolygon(edges, inside);
    Ok(Area(corners))
  }

  /** Corners that match the grown corners one by one and return to the
      origin are the grown polygon. */
  lemma GrowsTo(legs: seq<Leg>, first: Direction, corners: seq<Pos>)
    requires 0 < |legs| && |corners| == |legs| + 1 && corners[|legs|] == (0, 0)
    requires forall k :: 0 <= k <= |legs| ==> GrownCorner(legs, first, k) == corners[k]
    ensures Grow(legs, first) == Ok(corners)
  {
    var r := Grow(legs, first);
    assert GrownCorner(legs, first, |legs|) == (0, 0);
    assert r.value == corners;
  }

  /** Edges whose every entry decodes to the matching leg decode to the
      legs. */
  lemma DecodesUnique(edges: seq<Instruction>, legs: seq<Leg>)
    requires Decodes(edges, legs)
    ensures Decode(edges) == Ok(legs)
  {
    var r := Decode(edges);
    assert r.Ok? by {
      forall i | 0 <= i < |edges|
        ensures DecodeEdge(edges[i]).Ok?
      {
        assert DecodeEdge(edges[i]) == Ok(legs[i]);
      }
    }
    forall i | 0 <= i < |legs|
      ensures r.value[i] == legs[i]
    {
      assert DecodeEdge(edges[i]) == Ok(r.value[i]);
      assert DecodeEdge(edges[i]) == Ok(legs[i]);
    }
    assert |r.value| == |legs|;
    assert r.value == legs;
  }

  /** The five hex digits written for a distance decode back to it. */
  lemma DistanceDecodes(n: nat, c: char, d: Direction)
    requires n < 1048576 && Heading(c) == Ok(d)
    ensures DecodeEdge(Instruction(ToHex(n, 5), c)) == Ok(Leg(d, n))
  {
    assert Pow16(5) == 1048576;
    HexRoundTrip(n, 5);
  }

  /** A rectangular trench dug right `w`, down `h`, left `w` and up `h`
      from its top-left cell. */
  function Rectangle(w: nat, h: nat): seq<Instruction>
  {
    [Instruction(ToHex(w, 5), '0'), Instruction(ToHex(h, 5), '1'),
     Instruction(ToHex(w, 5), '2'), Instruction(ToHex(h, 5), '3')]
  }

  function RectangleLegs(w: nat, h: nat): seq<Leg>
  {
    [Leg(East, w), Leg(South, h), Leg(West, w), Leg(North, h)]
  }

  function RectangleCorners(w: nat, h: nat): seq<Pos>
  {
    [(0, 0), (w + 1, 0), (w + 1, h + 1), (0, h + 1), (0, 0)]
  }

  lemma RectangleDecodes(w: nat, h: nat)
    requires w < 1048576 && h < 1048576
    ensures Decode(Rectangle(w, h)) == Ok(RectangleLegs(w, h))
  {
    var edges := Rectangle(w, h);
    var legs := RectangleLegs(w, h);
    forall i | 0 <= i < 4
      ensures DecodeEdge(edges[i]) == Ok(legs[i])
    {
      if i == 0 {
        DistanceDecodes(w, '0', East);
      } else if i == 1 {
        DistanceDecodes(h, '1', South);
      } else if i == 2 {
        DistanceDecodes(w, '2', West);
      } else {
        DistanceDecodes(h, '3', North);
      }
    }
    DecodesUnique(edges, legs);
  }

  /** Both readings of the edge before the first grow the rectangle round
      the outside of its edge cells. */
  lemma RectangleGrows(w: nat, h: nat, first: Direction)
    requires first == East || first == North
    ensures Grow(RectangleLegs(w, h), first) == Ok(RectangleCorners(w, h))
  {
    var legs := RectangleLegs(w, h);
    var c := RectangleCorners(w, h);
    assert GrownCorner(legs, first, 1) == c[1];
    assert GrownCorner(legs, first, 2) == c[2];
    assert GrownCorner(legs, first, 3) == c[3];
    assert GrownCorner(legs, first, 4) == c[4];
    forall k | 0 <= k <= 4
      ensures GrownCorner(legs, first, k) == c[k]
    {
      if k == 0 {
      } else if k == 1 {
      } else if k == 2 {
      } else if k == 3 {
      }
    }
    GrowsTo(legs, first, c);
  }

  lemma RectangleShoelace(w: nat, h: nat)
    ensures Area(RectangleCorners(w, h)) == (w + 1) * (h + 1)
  {
    var c := RectangleCorners(w, h);
    assert c[..1] == [(0, 0)];
    assert Shoelace(c[..2]) == 0 by { assert c[..2][..1] == c[..1]; }
    assert Shoelace(c[..3]) == (w + 1) * (h + 1) by { assert c[..3][..2] == c[..2]; }
    assert Shoelace(c[..4]) == 2 * ((w + 1) * (h + 1)) by { assert c[..4][..3] == c[..3]; }
    assert c[..5] == c;
    assert c[..5][..4] == c[..4];
    var p := (w + 1) * (h + 1);
    assert Shoelace(c) == 2 * p;
  }

  lemma RectangleShape(w: nat, h: nat)
    ensures RightAngled(RectangleLegs(w, h)) && Vertex(RectangleLegs(w, h), 4) == (0, 0)
  {
    var legs := RectangleLegs(w, h);
    forall i | 0 <= i < |legs|
      ensures Perpendicular(legs[i].heading, NextHeading(legs, i))
    {
      if i == 0 {
      } else if i == 1 {
      } else if i == 2 {
      }
    }
    assert Vertex(legs, 1) == (w, 0);
    assert Vertex(legs, 2) == (w, h);
    assert Vertex(legs, 3) == (0, h);
  }

  /** A rectangular trench holds `(w + 1) * (h + 1)` cubic metres: the
      grown polygon runs round the outside of its edge cells, and both
      constructions agree on it, since its origin's corner is convex. */
  lemma RectangleArea(w: nat, h: nat)
    requires w < 1048576 && h < 1048576
    ensures LagoonArea(Rectangle(w, h), true) == Ok((w + 1) * (h + 1))
    ensures CorrectedLagoonArea(Rectangle(w, h), true) == Ok((w + 1) * (h + 1))
  {
    var edges := Rectangle(w, h);
    var legs := RectangleLegs(w, h);
    RectangleDecodes(w, h);
    RectangleShape(w, h);
    BuildPolygonCloses(edges, true);
    BuildPolygonSteps(edges, true);
    RectangleGrows(w, h, East);
    RectangleGrows(w, h, North);
    RectangleShoelace(w, h);
  }

  /** An L-shaped trench dug from its inner, reflex corner: right `a`,
      down `a`, left `2a`, up `2a`, right `a`, down `a`. It is a square of
      side `2a + 1` less an `a` by `a` corner. */
  function LShape(a: nat): seq<Instruction>
  {
    [Instruction(ToHex(a, 5), '0'), Instruction(ToHex(a, 5), '1'), Instruction(ToHex(2 * a, 5), '2'),
     Instruction(ToHex(2 * a, 5), '3'), Instruction(ToHex(a, 5), '0'), Instruction(ToHex(a, 5), '1')]
  }

  function LShapeLegs(a: nat): seq<Leg>
  {
    [Leg(East, a), Leg(South, a), Leg(West, 2 * a), Leg(North, 2 * a), Leg(East, a), Leg(South, a)]
  }

  function LShapeCorners(a: nat): seq<Pos>
  {
    var b: int := a;
    [(0, 0), (b, 0), (b, b + 1), (-b - 1, b + 1), (-b - 1, -b), (0, -b), (0, 0)]
  }

  lemma LShapeDecodes(a: nat)
    requires 2 * a < 1048576
    ensures Decode(LShape(a)) == Ok(LShapeLegs(a))
  {
    var edges := LShape(a);
    var legs := LShapeLegs(a);
    forall i | 0 <= i < 6
      ensures DecodeEdge(edges[i]) == Ok(legs[i])
    {
      if i == 0 || i == 4 {
        DistanceDecodes(a, '0', East);
      } else if i == 1 || i == 5 {
        DistanceDecodes(a, '1', South);
      } else if i == 2 {
        DistanceDecodes(2 * a, '2', West);
      } else {
        DistanceDecodes(2 * a, '3', North);
      }
    }
    DecodesUnique(edges, legs);
  }

  lemma LShapeShape(a: nat)
    ensures RightAngled(LShapeLegs(a)) && Vertex(LShapeLegs(a), 6) == (0, 0)
  {
    var legs := LShapeLegs(a);
    forall i | 0 <= i < |legs|
      ensures Perpendicular(legs[i].heading, NextHeading(legs, i))
    {
      if i == 0 {
      } else if i == 1 {
      } else if i == 2 {
      } else if i == 3 {
      } else if i == 4 {
      }
    }
    assert Vertex(legs, 1) == (a, 0);
    assert Vertex(legs, 2) == (a, a);
    var b: int := a;
    assert Vertex(legs, 3) == (-b, b);
    assert Vertex(legs, 4) == (-b, -b);
    assert Vertex(legs, 5) == (0, -b);
  }

  /** Read correctly, the edge before the first turns into it at a reflex
      corner, so the first edge does not grow. */
  lemma LShapeGrows(a: nat)
    ensures Grow(LShapeLegs(a), South) == Ok(LShapeCorners(a))
  {
    var legs := LShapeLegs(a);
    var c := LShapeCorners(a);
    assert GrownCorner(legs, South, 1) == c[1];
    assert GrownCorner(legs, South, 2) == c[2];
    assert GrownCorner(legs, South, 3) == c[3];
    assert GrownCorner(legs, South, 4) == c[4];
    assert GrownCorner(legs, South, 5) == c[5];
    assert GrownCorner(legs, South, 6) == c[6];
    forall k | 0 <= k <= 6
      ensures GrownCorner(legs, South, k) == c[k]
    {
      if k == 0 {
      } else if k == 1 {
      } else if k == 2 {
      } else if k == 3 {
      } else if k == 4 {
      } else if k == 5 {
      }
    }
    GrowsTo(legs, South, c);
  }

  lemma LShapeShoelace(a: nat)
    ensures Area(LShapeCorners(a)) == (a + 1) * (3 * a + 1)
  {
    var c := LShapeCorners(a);
    assert c[..1] == [(0, 0)];
    assert Shoelace(c[..2]) == 0 by { assert c[..2][..1] == c[..1]; }
    assert Shoelace(c[..3]) == a * (a + 1) by { assert c[..3][..2] == c[..2]; }
    assert Shoelace(c[..4]) == a * (a + 1) + (a + 1) * (2 * a + 1) by { assert c[..4][..3] == c[..3]; }
    assert Shoelace(c[..5]) == a * (a + 1) + 2 * ((a + 1) * (2 * a + 1)) by { assert c[..5][..4] == c[..4]; }
    assert Shoelace(c[..6]) == 2 * (a * (a + 1)) + 2 * ((a + 1) * (2 * a + 1)) by { assert c[..6][..5] == c[..5]; }
    assert c[..7] == c;
    assert c[..7][..6] == c[..6];
    var p := (a + 1) * (3 * a + 1);
    assert Shoelace(c) == 2 * p;
  }

  /** The L-shaped plan passes the basic polygon's checks, so both
      constructions grow its decoded legs. */
  lemma LShapeBuilds(a: nat)
    requires 2 * a < 1048576
    ensures BuildPolygon(LShape(a), true) == Grow(LShapeLegs(a), East)
    ensures CorrectedBuildPolygon(LShape(a), true) == Grow(LShapeLegs(a), South)
  {
    LShapeDecodes(a);
    LShapeShape(a);
    RightAngledTurns(LShapeLegs(a));
    BasicPolygonSpec(LShape(a));
    BuildPolygonSteps(LShape(a), true);
  }

  /** As written an L-shaped trench dug from its reflex corner fails the
      closing assertion; corrected, its area is the `(2a + 1)^2 - a^2`
      cells it covers (21 for `a = 2`). */
  lemma LShapeAreas(a: nat)
    requires 2 * a < 1048576
    ensures LagoonArea(LShape(a), true) == Err(AssertionError)
    ensures CorrectedLagoonArea(LShape(a), true) == Ok((a + 1) * (3 * a + 1))
  {
    var legs := LShapeLegs(a);
    LShapeBuilds(a);
    LShapeShape(a);
    AsWrittenGrowOk(legs);
    assert IsReflex(CorrectedFirst(legs), legs[0].heading);
    LShapeGrows(a);
    LShapeShoelace(a);
  }
}

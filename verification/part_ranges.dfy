/**
 * Day 19, part 2: classifying whole boxes of parts at once (19p2.py).
 *
 * A `PartRange` is a box: one half-open span per rating, in the order
 * `x`, `m`, `a`, `s`, plus the workflow the box currently sits at. A
 * conditional cuts a box along one rating into the piece that passes it
 * (sent on to the conditional's destination) and the pieces that do not
 * (tried against the next conditional). Boxes are pushed through the
 * workflows with a stack until each sits at an end state; the answer adds
 * up the sizes of the accepted boxes.
 *
 * The central property proved here is that this agrees with part 1 point
 * by point: every part of the starting box lies in exactly one output
 * box, and that box sits where `Workflows.Classify` sends the part.
 */
module PartRanges {
  import opened Outcomes
  import opened Seqs
  import opened Workflows

  /** A half-open span `[start, end)` of rating values. */
  type Span = (int, int)

  predicate InSpan(span: Span, value: int)
  {
    span.0 <= value < span.1
  }

  /** A box of parts and the workflow it sits at (`None` before one is
      assigned). */
  datatype PartRange = PartRange(spans: seq<Span>, location: Option<string>)

  /** The constructor's check: exactly four spans. */
  predicate Valid(pr: PartRange)
  {
    |pr.spans| == 4
  }

  predicate AllValid(ps: seq<PartRange>)
  {
    forall k :: 0 <= k < |ps| ==> Valid(ps[k])
  }

  /** `PartRange.__init__`: a box is built only from four spans. */
  function MakePartRange(spans: seq<Span>, location: Option<string>): (r: Result<PartRange>)
    ensures r.Ok? <==> |spans| == 4
    ensures r.Ok? ==> r.value.spans == spans && r.value.location == location
    ensures r.Err? ==> r.error == AssertionError
  {
    if |spans| == 4 then Ok(PartRange(spans, location)) else Err(AssertionError)
  }

  /** `property_to_index`: the position of a rating letter in `xmas`. */
  function PropertyIndex(letter: char): (r: Result<nat>)
    ensures r.Ok? <==> letter in Letters
    ensures r.Ok? ==> r.value < 4 && Letters[r.value] == letter
    ensures r.Err? ==> r.error == ValueError
  {
    if letter == 'x' then Ok(0)
    else if letter == 'm' then Ok(1)
    else if letter == 'a' then Ok(2)
    else if letter == 's' then Ok(3)
    else Err(ValueError)
  }

  /** `update`: the tuple with position `i` replaced. Python slicing clamps
      out-of-range bounds, so an index past the end appends instead, and
      the length check then fails. */
  function Update<T>(t: seq<T>, i: nat, v: T): (r: Result<seq<T>>)
    ensures r.Ok? <==> i < |t|
    ensures r.Ok? ==> (|r.value| == |t| && r.value[i] == v
                       && forall j :: 0 <= j < |t| && j != i ==> r.value[j] == t[j])
    ensures r.Err? ==> r.error == AssertionError
  {
    var result := t[..Min(i, |t|)] + [v] + t[Min(i + 1, |t|)..];
    if |result| == |t| then Ok(result) else Err(AssertionError)
  }

  /** The rating of a part at a position of `xmas`. */
  function Coordinate(q: Part, i: nat): int
    requires i < 4
  {
    if i == 0 then q.x else if i == 1 then q.m else if i == 2 then q.a else q.s
  }

  /** The part lies in the box. */
  predicate Contains(pr: PartRange, q: Part)
  {
    Valid(pr) && forall k :: 0 <= k < 4 ==> InSpan(pr.spans[k], Coordinate(q, k))
  }

  /** The part lies in the box on every rating but `i`. */
  predicate Others(pr: PartRange, i: nat, q: Part)
    requires Valid(pr)
  {
    forall k :: 0 <= k < 4 && k != i ==> InSpan(pr.spans[k], Coordinate(q, k))
  }

  /** The box with the span of rating `i` replaced and a new location. */
  function Piece(pr: PartRange, i: nat, span: Span, location: Option<string>): (r: PartRange)
    requires Valid(pr) && i < 4
    ensures Valid(r) && r.location == location
  {
    PartRange(Update(pr.spans, i, span).value, location)
  }

  lemma PieceContains(pr: PartRange, i: nat, span: Span, location: Option<string>, q: Part)
    requires Valid(pr) && i < 4
    ensures Contains(Piece(pr, i, span, location), q) <==> InSpan(span, Coordinate(q, i)) && Others(pr, i, q)
    ensures Contains(pr, q) <==> InSpan(pr.spans[i], Coordinate(q, i)) && Others(pr, i, q)
  {
    var spans := Piece(pr, i, span, location).spans;
    assert forall k :: 0 <= k < 4 && k != i ==> spans[k] == pr.spans[k];
  }

  /** `multi_split` of the three comparators: the pieces of a box cut
      along rating `i` at threshold `v`, the passing piece tagged with
      `destination` and the others untagged, in the order they are
      yielded (19p2.py:57-69, 79-89, 98-105). */
  function Split(cmp: Comparator, pr: PartRange, i: nat, v: int, destination: string): seq<PartRange>
    requires Valid(pr) && i < 4
  {
    var start := pr.spans[i].0;
    var end := pr.spans[i].1;
    match cmp
    case Equals =>
      (if start <= v < end then [Piece(pr, i, (v, v + 1), Some(destination))] else [])
      + (if start < v then [Piece(pr, i, (start, Min(v, end)), None)] else [])
      + (if v + 1 < end then [Piece(pr, i, (Max(start, v + 1), end), None)] else [])
    case LessThan =>
      (if start < v then [Piece(pr, i, (start, Min(end, v)), Some(destination))] else [])
      + (if v < end then [Piece(pr, i, (Max(v, start), end), None)] else [])
    case GreaterThan =>
      (if v + 1 < end then [Piece(pr, i, (Max(v + 1, start), end), Some(destination))] else [])
      + (if start < v + 1 then [Piece(pr, i, (start, Min(v + 1, end)), None)] else [])
  }

  /** Number of boxes of `ps` that hold the part. */
  function Count(ps: seq<PartRange>, q: Part): nat
  {
    if |ps| == 0 then 0 else (if Contains(ps[0], q) then 1 else 0) + Count(ps[1..], q)
  }

  lemma {:induction false} CountAppend(a: seq<PartRange>, b: seq<PartRange>, q: Part)
    ensures Count(a + b, q) == Count(a, q) + Count(b, q)
    decreases |a|
  {
    if |a| == 0 {
      assert a + b == b;
    } else {
      assert (a + b)[1..] == a[1..] + b;
      CountAppend(a[1..], b, q);
    }
  }

  lemma {:induction false} CountZero(ps: seq<PartRange>, q: Part)
    requires Count(ps, q) == 0
    ensures forall k :: 0 <= k < |ps| ==> !Contains(ps[k], q)
    decreases |ps|
  {
    if |ps| > 0 {
      CountZero(ps[1..], q);
      assert forall k :: 1 <= k < |ps| ==> ps[k] == ps[1..][k - 1];
    }
  }

  /** Every box of `ps` that holds the part sits at `location`. */
  predicate AllAt(ps: seq<PartRange>, q: Part, location: Option<string>)
  {
    forall k :: 0 <= k < |ps| && Contains(ps[k], q) ==> ps[k].location == location
  }

  lemma AllAtAppend(a: seq<PartRange>, b: seq<PartRange>, q: Part, location: Option<string>)
    requires AllAt(a, q, location) && AllAt(b, q, location)
    ensures AllAt(a + b, q, location)
  {
    assert forall k :: |a| <= k < |a + b| ==> (a + b)[k] == b[k - |a|];
  }

  /** The one-piece-or-none lists `Split` concatenates. */
  function Maybe(present: bool, piece: PartRange): seq<PartRange>
  {
    if present then [piece] else []
  }

  lemma MaybeCount(present: bool, piece: PartRange, q: Part, location: Option<string>)
    requires present && Contains(piece, q) ==> piece.location == location
    ensures Count(Maybe(present, piece), q) == if present && Contains(piece, q) then 1 else 0
    ensures AllAt(Maybe(present, piece), q, location)
  {
    if present {
      assert [piece][1..] == [];
    }
  }

  lemma EqualsPartition(pr: PartRange, i: nat, v: int, destination: string, q: Part)
    requires Valid(pr) && i < 4
    ensures Count(Split(Equals, pr, i, v, destination), q) == if Contains(pr, q) then 1 else 0
    ensures AllAt(Split(Equals, pr, i, v, destination), q,
                  if Coordinate(q, i) == v then Some(destination) else None)
  {
    var start := pr.spans[i].0;
    var end := pr.spans[i].1;
    var loc := if Coordinate(q, i) == v then Some(destination) else None;
    var p1 := Piece(pr, i, (v, v + 1), Some(destination));
    var p2 := Piece(pr, i, (start, Min(v, end)), None);
    var p3 := Piece(pr, i, (Max(start, v + 1), end), None);
    PieceContains(pr, i, (start, end), None, q);
    PieceContains(pr, i, (v, v + 1), Some(destination), q);
    PieceContains(pr, i, (start, Min(v, end)), None, q);
    PieceContains(pr, i, (Max(start, v + 1), end), None, q);
    var a := Maybe(start <= v < end, p1);
    var b := Maybe(start < v, p2);
    var c := Maybe(v + 1 < end, p3);
    MaybeCount(start <= v < end, p1, q, loc);
    MaybeCount(start < v, p2, q, loc);
    MaybeCount(v + 1 < end, p3, q, loc);
    CountAppend(a, b, q);
    CountAppend(a + b, c, q);
    AllAtAppend(a, b, q, loc);
    AllAtAppend(a + b, c, q, loc);
    assert Split(Equals, pr, i, v, destination) == a + b + c;
  }

  lemma LessThanPartition(pr: PartRange, i: nat, v: int, destination: string, q: Part)
    requires Valid(pr) && i < 4
    ensures Count(Split(LessThan, pr, i, v, destination), q) == if Contains(pr, q) then 1 else 0
    ensures AllAt(Split(LessThan, pr, i, v, destination), q,
                  if Coordinate(q, i) < v then Some(destination) else None)
  {
    var start := pr.spans[i].0;
    var end := pr.spans[i].1;
    var loc := if Coordinate(q, i) < v then Some(destination) else None;
    var p1 := Piece(pr, i, (start, Min(end, v)), Some(destination));
    var p2 := Piece(pr, i, (Max(v, start), end), None);
    PieceContains(pr, i, (start, end), None, q);
    PieceContains(pr, i, (start, Min(end, v)), Some(destination), q);
    PieceContains(pr, i, (Max(v, start), end), None, q);
    var a := Maybe(start < v, p1);
    var b := Maybe(v < end, p2);
    MaybeCount(start < v, p1, q, loc);
    MaybeCount(v < end, p2, q, loc);
    CountAppend(a, b, q);
    AllAtAppend(a, b, q, loc);
    assert Split(LessThan, pr, i, v, destination) == a + b;
  }

  lemma GreaterThanPartition(pr: PartRange, i: nat, v: int, destination: string, q: Part)
    requires Valid(pr) && i < 4
    ensures Count(Split(GreaterThan, pr, i, v, destination), q) == if Contains(pr, q) then 1 else 0
    ensures AllAt(Split(GreaterThan, pr, i, v, destination), q,
                  if Coordinate(q, i) > v then Some(destination) else None)
  {
    var start := pr.spans[i].0;
    var end := pr.spans[i].1;
    var loc := if Coordinate(q, i) > v then Some(destination) else None;
    var p1 := Piece(pr, i, (Max(v + 1, start), end), Some(destination));
    var p2 := Piece(pr, i, (start, Min(v + 1, end)), None);
    PieceContains(pr, i, (start, end), None, q);
    PieceContains(pr, i, (Max(v + 1, start), end), Some(destination), q);
    PieceContains(pr, i, (start, Min(v + 1, end)), None, q);
    var a := Maybe(v + 1 < end, p1);
    var b := Maybe(start < v + 1, p2);
    MaybeCount(v + 1 < end, p1, q, loc);
    MaybeCount(start < v + 1, p2, q, loc);
    CountAppend(a, b, q);
    AllAtAppend(a, b, q, loc);
    assert Split(GreaterThan, pr, i, v, destination) == a + b;
  }

  /** The cut keeps every part of the box in exactly one piece (and adds
      none), and the piece holding a part is tagged with the destination
      exactly when the part passes the comparison. */
  lemma SplitPartition(cmp: Comparator, pr: PartRange, i: nat, v: int, destination: string, q: Part)
    requires Valid(pr) && i < 4
    ensures Count(Split(cmp, pr, i, v, destination), q) == if Contains(pr, q) then 1 else 0
    ensures AllAt(Split(cmp, pr, i, v, destination), q,
                  if cmp.Holds(Coordinate(q, i), v) then Some(destination) else None)
  {
    match cmp
    case Equals => EqualsPartition(pr, i, v, destination, q);
    case LessThan => LessThanPartition(pr, i, v, destination, q);
    case GreaterThan => GreaterThanPartition(pr, i, v, destination, q);
  }

  /** The position of a conditional's rating (computed once, when the
      conditional is built). */
  function Index(c: Conditional): (i: nat)
    requires c.property in Letters
    ensures i < 4
  {
    PropertyIndex(c.property).value
  }

  /** On a part, a conditional's test compares the rating at its index. */
  lemma TestCoordinate(c: Conditional, q: Part)
    requires c.property in Letters
    ensures Test(c, q) == Ok(c.comparator.Holds(Coordinate(q, Index(c)), c.value))
  {
  }

  /** `Conditional.multi_split`: the conditional's cut of a box. */
  function CutBy(c: Conditional, pr: PartRange): (r: seq<PartRange>)
    requires c.property in Letters && Valid(pr)
    ensures AllValid(r)
  {
    Split(c.comparator, pr, Index(c), c.value, c.destination)
  }

  /** The two ways boxes are sorted: by whether a conditional tagged them
      with a destination, and by whether they sit at an end state. */
  datatype Sieve = Tagged | AtEnd(end: set<string>) {
    predicate Keeps(location: Option<string>)
    {
      match this
      case Tagged => location.Some?
      case AtEnd(end) => location.Some? && location.value in end
    }
  }

  /** The boxes of `ps`, in order, that the sieve keeps (`keep`) or passes on (`!keep`). */
  function Filter(ps: seq<PartRange>, sieve: Sieve, keep: bool): (r: seq<PartRange>)
    ensures AllValid(ps) ==> AllValid(r)
    ensures forall k :: 0 <= k < |r| ==> sieve.Keeps(r[k].location) == keep
  {
    if |ps| == 0 then []
    else (if sieve.Keeps(ps[0].location) == keep then [ps[0]] else []) + Filter(ps[1..], sieve, keep)
  }

  /** Sorting neither loses nor duplicates a part. */
  lemma {:induction false} FilterCount(ps: seq<PartRange>, sieve: Sieve, q: Part)
    ensures Count(Filter(ps, sieve, true), q) + Count(Filter(ps, sieve, false), q) == Count(ps, q)
    decreases |ps|
  {
    if |ps| > 0 {
      var head := ps[0];
      FilterCount(ps[1..], sieve, q);
      var t: seq<PartRange> := if sieve.Keeps(head.location) then [head] else [];
      var f: seq<PartRange> := if sieve.Keeps(head.location) then [] else [head];
      CountAppend(t, Filter(ps[1..], sieve, true), q);
      CountAppend(f, Filter(ps[1..], sieve, false), q);
      assert [head][1..] == [];
    }
  }

  /** Sorting keeps each box's location; when every box holding the part
      sits at `location`, the part goes wholly to the side the sieve
      sends that location. */
  lemma {:induction false} FilterAllAt(ps: seq<PartRange>, sieve: Sieve, keep: bool, q: Part, location: Option<string>)
    requires AllAt(ps, q, location)
    ensures AllAt(Filter(ps, sieve, keep), q, location)
    ensures sieve.Keeps(location) != keep ==> Count(Filter(ps, sieve, keep), q) == 0
    decreases |ps|
  {
    if |ps| > 0 {
      var head := ps[0];
      assert forall k :: 1 <= k < |ps| ==> ps[k] == ps[1..][k - 1];
      FilterAllAt(ps[1..], sieve, keep, q, location);
      var t: seq<PartRange> := if sieve.Keeps(head.location) == keep then [head] else [];
      assert [head][1..] == [];
      CountAppend(t, Filter(ps[1..], sieve, keep), q);
      AllAtAppend(t, Filter(ps[1..], sieve, keep), q, location);
    }
  }

  /** Every conditional of the list names a rating. */
  predicate Named(cs: seq<Conditional>)
  {
    forall k :: 0 <= k < |cs| ==> cs[k].property in Letters
  }

  /** One round of the outer loop of `Rule.multi_process`: each current
      box is cut by the conditional; tagged pieces are yielded, in order,
      and untagged ones are kept for the next conditional. */
  function SplitAll(c: Conditional, current: seq<PartRange>): (r: (seq<PartRange>, seq<PartRange>))
    requires c.property in Letters && AllValid(current)
    ensures AllValid(r.0) && AllValid(r.1)
  {
    if |current| == 0 then ([], [])
    else
      var pieces := CutBy(c, current[0]);
      var rest := SplitAll(c, current[1..]);
      (Filter(pieces, Tagged, true) + rest.0, Filter(pieces, Tagged, false) + rest.1)
  }

  /** Every part of the current boxes goes to exactly one side: the
      yielded side, at the conditional's destination, when it passes the
      test, and the kept side otherwise. */
  lemma {:induction false} SplitAllPartition(c: Conditional, current: seq<PartRange>, q: Part)
    requires c.property in Letters && AllValid(current)
    ensures Count(SplitAll(c, current).0, q) + Count(SplitAll(c, current).1, q) == Count(current, q)
    ensures Test(c, q) == Ok(true) ==> Count(SplitAll(c, current).1, q) == 0
    ensures Test(c, q) == Ok(false) ==> Count(SplitAll(c, current).0, q) == 0
    ensures AllAt(SplitAll(c, current).0, q, Some(c.destination))
    decreases |current|
  {
    TestCoordinate(c, q);
    if |current| > 0 {
      var pieces := CutBy(c, current[0]);
      var rest := SplitAll(c, current[1..]);
      SplitAllPartition(c, current[1..], q);
      var passes := c.comparator.Holds(Coordinate(q, Index(c)), c.value);
      var location := if passes then Some(c.destination) else None;
      SplitPartition(c.comparator, current[0], Index(c), c.value, c.destination, q);
      FilterCount(pieces, Tagged, q);
      FilterAllAt(pieces, Tagged, true, q, location);
      FilterAllAt(pieces, Tagged, false, q, location);
      CountAppend(Filter(pieces, Tagged, true), rest.0, q);
      CountAppend(Filter(pieces, Tagged, false), rest.1, q);
      if !passes {
        CountZero(Filter(pieces, Tagged, true), q);
      }
      AllAtAppend(Filter(pieces, Tagged, true), rest.0, q, Some(c.destination));
    }
  }

  /** The boxes left after the last conditional, moved to the fallback. */
  function Relocate(ps: seq<PartRange>, fallback: string): (r: seq<PartRange>)
    ensures |r| == |ps|
    ensures forall k :: 0 <= k < |r| ==> r[k] == ps[k].(location := Some(fallback))
  {
    if |ps| == 0 then [] else [ps[0].(location := Some(fallback))] + Relocate(ps[1..], fallback)
  }

  lemma {:induction false} RelocateCount(ps: seq<PartRange>, fallback: string, q: Part)
    ensures Count(Relocate(ps, fallback), q) == Count(ps, q)
    ensures AllAt(Relocate(ps, fallback), q, Some(fallback))
    decreases |ps|
  {
    if |ps| > 0 {
      RelocateCount(ps[1..], fallback, q);
      assert Relocate(ps, fallback)[1..] == Relocate(ps[1..], fallback);
    }
  }

  /** The conditionals of a rule applied in turn to the boxes still
      untagged, ending with the fallback (19p2.py:192-204). */
  function Cascade(cs: seq<Conditional>, current: seq<PartRange>, fallback: string): (r: seq<PartRange>)
    requires Named(cs) && AllValid(current)
    ensures AllValid(r)
  {
    if |cs| == 0 then Relocate(current, fallback)
    else
      var (yielded, kept) := SplitAll(cs[0], current);
      yielded + Cascade(cs[1..], kept, fallback)
  }

  /** Each part of the boxes ends in exactly one output box, which sits
      where `Rule.process` would send that part. */
  lemma {:induction false} CascadeRoutes(cs: seq<Conditional>, current: seq<PartRange>, fallback: string, q: Part)
    requires Named(cs) && AllValid(current)
    ensures Route(cs, q, fallback).Ok?
    ensures Count(Cascade(cs, current, fallback), q) == Count(current, q)
    ensures AllAt(Cascade(cs, current, fallback), q, Some(Route(cs, q, fallback).value))
    decreases |cs|
  {
    if |cs| == 0 {
      RelocateCount(current, fallback, q);
    } else {
      var c := cs[0];
      var (yielded, kept) := SplitAll(c, current);
      var rest := Cascade(cs[1..], kept, fallback);
      TestCoordinate(c, q);
      SplitAllPartition(c, current, q);
      CascadeRoutes(cs[1..], kept, fallback, q);
      CountAppend(yielded, rest, q);
      var target := Some(Route(cs, q, fallback).value);
      if Test(c, q) == Ok(true) {
        CountZero(rest, q);
        AllAtAppend(yielded, rest, q, target);
      } else {
        CountZero(yielded, q);
        AllAtAppend(yielded, rest, q, target);
      }
    }
  }

  /** `Rule.multi_process`. The loop variable holding the last round's
      boxes is bound only inside the loop, so a rule without conditionals
      (which the grammar never produces) raises NameError. */
  function MultiProcess(rule: Rule, pr: PartRange): (r: Result<seq<PartRange>>)
    requires Named(rule.conditionals) && Valid(pr)
    ensures r.Ok? <==> |rule.conditionals| > 0
    ensures r.Err? ==> r.error == NameError
    ensures r.Ok? ==> AllValid(r.value)
  {
    if |rule.conditionals| == 0 then Err(NameError)
    else Ok(Cascade(rule.conditionals, [pr], rule.fallback))
  }

  /** Processing a box with a rule puts each of its parts in exactly one
      output box (and no other part in any), at the destination
      `Rule.process` gives that part. */
  lemma MultiProcessAgrees(rule: Rule, pr: PartRange, q: Part)
    requires Named(rule.conditionals) && Valid(pr) && |rule.conditionals| > 0
    ensures Process(rule, q).Ok?
    ensures Count(MultiProcess(rule, pr).value, q) == if Contains(pr, q) then 1 else 0
    ensures AllAt(MultiProcess(rule, pr).value, q, Some(Process(rule, q).value))
  {
    CascadeRoutes(rule.conditionals, [pr], rule.fallback, q);
    assert [pr][1..] == [];
  }

  /** Every workflow of the table has conditionals that all name a rating. */
  predicate WellFormed(table: map<string, Rule>)
  {
    forall name :: name in table ==> Named(table[name].conditionals)
  }

  /** `Document.__init__` of part 2: building a conditional looks up the
      index of its rating, so a conditional naming any other letter raises
      ValueError; otherwise the table is that of part 1. */
  function Load(rules: seq<Rule>): (r: Result<map<string, Rule>>)
    ensures r.Ok? <==> forall k :: 0 <= k < |rules| ==> Named(rules[k].conditionals)
    ensures r.Err? ==> r.error == ValueError
    ensures r.Ok? ==> r.value == Table(rules) && WellFormed(r.value)
  {
    if forall k :: 0 <= k < |rules| ==> Named(rules[k].conditionals) then
      assert WellFormed(Table(rules)) by {
        forall name | name in Table(rules)
          ensures Named(Table(rules)[name].conditionals)
        {
          TableLookup(rules, name);
        }
      }
      Ok(Table(rules))
    else Err(ValueError)
  }

  /** The last box of the stack sits at a known workflow with conditionals. */
  predicate Ready(table: map<string, Rule>, stack: seq<PartRange>)
  {
    |stack| > 0 && stack[|stack| - 1].location.Some? && stack[|stack| - 1].location.value in table
    && |table[stack[|stack| - 1].location.value].conditionals| > 0
  }

  /** One round of `multi_classify`'s loop: the stack after popping the
      last box and pushing its pieces not at an end state, and the pieces
      yielded. */
  function Round(table: map<string, Rule>, stack: seq<PartRange>, end: set<string>): (r: (seq<PartRange>, seq<PartRange>))
    requires WellFormed(table) && AllValid(stack) && Ready(table, stack)
    ensures AllValid(r.0)
  {
    var part := stack[|stack| - 1];
    var pieces := MultiProcess(table[part.location.value], part).value;
    (stack[..|stack| - 1] + Filter(pieces, AtEnd(end), false), Filter(pieces, AtEnd(end), true))
  }

  /** The part's walk from `start` arrives at `at`, passing no end state before. */
  ghost predicate Reached(table: map<string, Rule>, q: Part, start: string, end: set<string>, at: string)
  {
    exists k: nat :: Travels(table, q, start, end, k) && Walk(table, q, start, k) == Ok(at)
  }

  /** Every box of `ps` holding the part sits at a state its walk reaches;
      that state is an end state exactly when `arrived`. */
  ghost predicate Located(table: map<string, Rule>, q: Part, start: string, end: set<string>, ps: seq<PartRange>, arrived: bool)
  {
    forall k :: 0 <= k < |ps| && Contains(ps[k], q) ==>
      ps[k].location.Some? && (ps[k].location.value in end) == arrived
      && Reached(table, q, start, end, ps[k].location.value)
  }

  lemma LocatedAppend(table: map<string, Rule>, q: Part, start: string, end: set<string>, a: seq<PartRange>, b: seq<PartRange>, arrived: bool)
    requires Located(table, q, start, end, a, arrived) && Located(table, q, start, end, b, arrived)
    ensures Located(table, q, start, end, a + b, arrived)
  {
    assert forall k :: |a| <= k < |a + b| ==> (a + b)[k] == b[k - |a|];
  }

  lemma LocatedAt(table: map<string, Rule>, q: Part, start: string, end: set<string>, ps: seq<PartRange>, at: string, arrived: bool)
    requires AllAt(ps, q, Some(at)) && (at in end) == arrived && Reached(table, q, start, end, at)
    ensures Located(table, q, start, end, ps, arrived)
  {
  }

  lemma LocatedNone(table: map<string, Rule>, q: Part, start: string, end: set<string>, ps: seq<PartRange>, arrived: bool)
    requires Count(ps, q) == 0
    ensures Located(table, q, start, end, ps, arrived)
  {
    CountZero(ps, q);
  }

  /** One more round of the loop moves a part on by one workflow. */
  lemma ReachedNext(table: map<string, Rule>, q: Part, start: string, end: set<string>, at: string)
    requires Reached(table, q, start, end, at) && at !in end && Next(table, q, at).Ok?
    ensures Reached(table, q, start, end, Next(table, q, at).value)
  {
    var k: nat :| Travels(table, q, start, end, k) && Walk(table, q, start, k) == Ok(at);
    assert Travels(table, q, start, end, k + 1);
    assert Walk(table, q, start, k + 1) == Next(table, q, at);
  }

  /** What holds of one part throughout `multi_classify`: it lies in one
      box of the stack or the output when it lies in the starting box (and
      in none otherwise), and each box holding it sits where its walk has
      reached. */
  ghost predicate Tracked(table: map<string, Rule>, pr: PartRange, q: Part, start: string, end: set<string>,
                    stack: seq<PartRange>, out: seq<PartRange>)
  {
    Count(stack, q) + Count(out, q) == (if Contains(pr, q) then 1 else 0)
    && Located(table, q, start, end, stack, false)
    && Located(table, q, start, end, out, true)
  }

  /** One round of `multi_classify` keeps every part tracked. */
  lemma MultiClassifyStep(table: map<string, Rule>, pr: PartRange, q: Part, start: string, end: set<string>,
                          stack: seq<PartRange>, out: seq<PartRange>)
    requires WellFormed(table) && AllValid(stack) && Ready(table, stack)
    requires Tracked(table, pr, q, start, end, stack, out)
    ensures Tracked(table, pr, q, start, end, Round(table, stack, end).0, out + Round(table, stack, end).1)
  {
    var part := stack[|stack| - 1];
    var rest := stack[..|stack| - 1];
    var at := part.location.value;
    var rule := table[at];
    var pieces := MultiProcess(rule, part).value;
    var pending := Filter(pieces, AtEnd(end), false);
    var done := Filter(pieces, AtEnd(end), true);
    assert stack == rest + [part];
    assert [part][1..] == [];
    CountAppend(rest, [part], q);
    assert Located(table, q, start, end, rest, false) by {
      assert forall k :: 0 <= k < |rest| ==> rest[k] == stack[k];
    }
    MultiProcessAgrees(rule, part, q);
    var next := Process(rule, q).value;
    FilterCount(pieces, AtEnd(end), q);
    FilterAllAt(pieces, AtEnd(end), false, q, Some(next));
    FilterAllAt(pieces, AtEnd(end), true, q, Some(next));
    CountAppend(rest, pending, q);
    CountAppend(out, done, q);
    if Contains(part, q) {
      assert Contains(stack[|stack| - 1], q);
      assert at !in end && Reached(table, q, start, end, at);
      ReachedNext(table, q, start, end, at);
      if next in end {
        LocatedNone(table, q, start, end, pending, false);
        LocatedAt(table, q, start, end, done, next, true);
      } else {
        LocatedAt(table, q, start, end, pending, next, false);
        LocatedNone(table, q, start, end, done, true);
      }
    } else {
      LocatedNone(table, q, start, end, pending, false);
      LocatedNone(table, q, start, end, done, true);
    }
    LocatedAppend(table, q, start, end, rest, pending, false);
    LocatedAppend(table, q, start, end, out, done, true);
  }

  /** `PartRange.combinations`: the product of the span widths, taken in order. */
  function Combinations(spans: seq<Span>): int
  {
    if |spans| == 0 then 1
    else Combinations(spans[..|spans| - 1]) * (spans[|spans| - 1].1 - spans[|spans| - 1].0)
  }

  function Width(span: Span): int
  {
    span.1 - span.0
  }

  /** The product of the widths of the spans other than `i`. */
  function Rest(spans: seq<Span>, i: nat): int
    requires |spans| == 4 && i < 4
  {
    if i == 0 then Width(spans[1]) * Width(spans[2]) * Width(spans[3])
    else if i == 1 then Width(spans[0]) * Width(spans[2]) * Width(spans[3])
    else if i == 2 then Width(spans[0]) * Width(spans[1]) * Width(spans[3])
    else Width(spans[0]) * Width(spans[1]) * Width(spans[2])
  }

  lemma CombinationsAt(spans: seq<Span>, i: nat)
    requires |spans| == 4 && i < 4
    ensures Combinations(spans) == Width(spans[i]) * Rest(spans, i)
  {
    var w0, w1, w2, w3 := Width(spans[0]), Width(spans[1]), Width(spans[2]), Width(spans[3]);
    assert spans[..1][..0] == [];
    assert Combinations(spans[..1]) == w0 by {
      assert spans[..1][0] == spans[0];
    }
    assert spans[..2][..1] == spans[..1] && spans[..2][1] == spans[1];
    assert Combinations(spans[..2]) == w0 * w1;
    assert spans[..3][..2] == spans[..2] && spans[..3][2] == spans[2];
    assert Combinations(spans[..3]) == w0 * w1 * w2;
    assert spans[..3] == spans[..|spans| - 1];
    assert Combinations(spans) == w0 * w1 * w2 * w3;
    if i == 1 {
      assert w0 * w1 * w2 * w3 == w1 * (w0 * w2 * w3);
    } else if i == 2 {
      assert w0 * w1 * w2 * w3 == w2 * (w0 * w1 * w3);
    } else if i == 3 {
      assert w0 * w1 * w2 * w3 == w3 * (w0 * w1 * w2);
    }
  }

  /** The size of the box with span `i` replaced, in terms of the new span. */
  lemma PieceSize(pr: PartRange, i: nat, span: Span, location: Option<string>)
    requires Valid(pr) && i < 4
    ensures Combinations(Piece(pr, i, span, location).spans) == Width(span) * Rest(pr.spans, i)
    ensures Combinations(pr.spans) == Width(pr.spans[i]) * Rest(pr.spans, i)
  {
    var spans := Piece(pr, i, span, location).spans;
    assert forall k :: 0 <= k < 4 && k != i ==> spans[k] == pr.spans[k];
    assert Rest(spans, i) == Rest(pr.spans, i);
    CombinationsAt(spans, i);
    CombinationsAt(pr.spans, i);
  }

  /** Each span runs forwards. */
  predicate Ordered(pr: PartRange)
  {
    forall k :: 0 <= k < |pr.spans| ==> pr.spans[k].0 <= pr.spans[k].1
  }

  predicate AllOrdered(ps: seq<PartRange>)
  {
    forall k :: 0 <= k < |ps| ==> Ordered(ps[k])
  }

  /** Total number of parts the boxes hold, counted as `combinations` does. */
  function Volume(ps: seq<PartRange>): int
  {
    if |ps| == 0 then 0 else Combinations(ps[0].spans) + Volume(ps[1..])
  }

  lemma {:induction false} VolumeAppend(a: seq<PartRange>, b: seq<PartRange>)
    ensures Volume(a + b) == Volume(a) + Volume(b)
    decreases |a|
  {
    if |a| == 0 {
      assert a + b == b;
    } else {
      assert (a + b)[1..] == a[1..] + b;
      VolumeAppend(a[1..], b);
    }
  }

  lemma MaybeVolume(present: bool, piece: PartRange)
    requires present ==> Ordered(piece)
    ensures Volume(Maybe(present, piece)) == if present then Combinations(piece.spans) else 0
    ensures AllOrdered(Maybe(present, piece))
  {
    if present {
      assert [piece][1..] == [];
    }
  }

  lemma PieceOrdered(pr: PartRange, i: nat, span: Span, location: Option<string>)
    requires Valid(pr) && i < 4 && Ordered(pr) && span.0 <= span.1
    ensures Ordered(Piece(pr, i, span, location))
  {
    var spans := Piece(pr, i, span, location).spans;
    assert forall k :: 0 <= k < 4 && k != i ==> spans[k] == pr.spans[k];
  }

  lemma AllOrderedAppend(a: seq<PartRange>, b: seq<PartRange>)
    requires AllOrdered(a) && AllOrdered(b)
    ensures AllOrdered(a + b)
  {
    assert forall k :: |a| <= k < |a + b| ==> (a + b)[k] == b[k - |a|];
  }

  /** Sizes of pieces sharing all spans but one add up as their widths do. */
  lemma Distribute(w1: int, w2: int, w3: int, total: int, r: int)
    requires w1 + w2 + w3 == total
    ensures w1 * r + w2 * r + w3 * r == total * r
  {
  }

  /** The size of a piece that may be missing. */
  lemma MaybeSize(pr: PartRange, i: nat, present: bool, span: Span, location: Option<string>)
    requires Valid(pr) && i < 4 && Ordered(pr) && (present ==> span.0 <= span.1)
    ensures Volume(Maybe(present, Piece(pr, i, span, location)))
            == (if present then Width(span) else 0) * Rest(pr.spans, i)
    ensures AllOrdered(Maybe(present, Piece(pr, i, span, location)))
  {
    PieceSize(pr, i, span, location);
    if present {
      PieceOrdered(pr, i, span, location);
    }
    MaybeVolume(present, Piece(pr, i, span, location));
  }

  lemma LessThanVolume(pr: PartRange, i: nat, v: int, destination: string)
    requires Valid(pr) && i < 4 && Ordered(pr)
    ensures Volume(Split(LessThan, pr, i, v, destination)) == Combinations(pr.spans)
    ensures AllOrdered(Split(LessThan, pr, i, v, destination))
  {
    var start := pr.spans[i].0;
    var end := pr.spans[i].1;
    var r := Rest(pr.spans, i);
    var s1, s2 := (start, Min(end, v)), (Max(v, start), end);
    var a := Maybe(start < v, Piece(pr, i, s1, Some(destination)));
    var b := Maybe(v < end, Piece(pr, i, s2, None));
    MaybeSize(pr, i, start < v, s1, Some(destination));
    MaybeSize(pr, i, v < end, s2, None);
    VolumeAppend(a, b);
    AllOrderedAppend(a, b);
    assert Split(LessThan, pr, i, v, destination) == a + b;
    var w1 := if start < v then Width(s1) else 0;
    var w2 := if v < end then Width(s2) else 0;
    assert Volume(a + b) == w1 * r + w2 * r + 0 * r;
    Distribute(w1, w2, 0, Width(pr.spans[i]), r);
    CombinationsAt(pr.spans, i);
  }

  lemma GreaterThanVolume(pr: PartRange, i: nat, v: int, destination: string)
    requires Valid(pr) && i < 4 && Ordered(pr)
    ensures Volume(Split(GreaterThan, pr, i, v, destination)) == Combinations(pr.spans)
    ensures AllOrdered(Split(GreaterThan, pr, i, v, destination))
  {
    var start := pr.spans[i].0;
    var end := pr.spans[i].1;
    var r := Rest(pr.spans, i);
    var s1, s2 := (Max(v + 1, start), end), (start, Min(v + 1, end));
    var a := Maybe(v + 1 < end, Piece(pr, i, s1, Some(destination)));
    var b := Maybe(start < v + 1, Piece(pr, i, s2, None));
    MaybeSize(pr, i, v + 1 < end, s1, Some(destination));
    MaybeSize(pr, i, start < v + 1, s2, None);
    VolumeAppend(a, b);
    AllOrderedAppend(a, b);
    assert Split(GreaterThan, pr, i, v, destination) == a + b;
    var w1 := if v + 1 < end then Width(s1) else 0;
    var w2 := if start < v + 1 then Width(s2) else 0;
    assert Volume(a + b) == w1 * r + w2 * r + 0 * r;
    Distribute(w1, w2, 0, Width(pr.spans[i]), r);
    CombinationsAt(pr.spans, i);
  }

  lemma EqualsVolume(pr: PartRange, i: nat, v: int, destination: string)
    requires Valid(pr) && i < 4 && Ordered(pr)
    ensures Volume(Split(Equals, pr, i, v, destination)) == Combinations(pr.spans)
    ensures AllOrdered(Split(Equals, pr, i, v, destination))
  {
    var start := pr.spans[i].0;
    var end := pr.spans[i].1;
    var r := Rest(pr.spans, i);
    var s1, s2, s3 := (v, v + 1), (start, Min(v, end)), (Max(start, v + 1), end);
    var a := Maybe(start <= v < end, Piece(pr, i, s1, Some(destination)));
    var b := Maybe(start < v, Piece(pr, i, s2, None));
    var c := Maybe(v + 1 < end, Piece(pr, i, s3, None));
    MaybeSize(pr, i, start <= v < end, s1, Some(destination));
    MaybeSize(pr, i, start < v, s2, None);
    MaybeSize(pr, i, v + 1 < end, s3, None);
    VolumeAppend(a, b);
    VolumeAppend(a + b, c);
    AllOrderedAppend(a, b);
    AllOrderedAppend(a + b, c);
    assert Split(Equals, pr, i, v, destination) == a + b + c;
    var w1 := if start <= v < end then Width(s1) else 0;
    var w2 := if start < v then Width(s2) else 0;
    var w3 := if v + 1 < end then Width(s3) else 0;
    assert Volume(a + b + c) == w1 * r + w2 * r + w3 * r;
    Distribute(w1, w2, w3, Width(pr.spans[i]), r);
    CombinationsAt(pr.spans, i);
  }

  /** A cut neither creates nor loses parts by the count `combinations`
      makes, and its pieces of an ordered box are ordered. */
  lemma SplitVolume(cmp: Comparator, pr: PartRange, i: nat, v: int, destination: string)
    requires Valid(pr) && i < 4 && Ordered(pr)
    ensures Volume(Split(cmp, pr, i, v, destination)) == Combinations(pr.spans)
    ensures AllOrdered(Split(cmp, pr, i, v, destination))
  {
    match cmp
    case Equals => EqualsVolume(pr, i, v, destination);
    case LessThan => LessThanVolume(pr, i, v, destination);
    case GreaterThan => GreaterThanVolume(pr, i, v, destination);
  }

  lemma {:induction false} CombinationsNonNegative(spans: seq<Span>)
    requires forall k :: 0 <= k < |spans| ==> spans[k].0 <= spans[k].1
    ensures Combinations(spans) >= 0
    decreases |spans|
  {
    if |spans| > 0 {
      var init := spans[..|spans| - 1];
      assert forall k :: 0 <= k < |init| ==> init[k] == spans[k];
      CombinationsNonNegative(init);
      var w := Width(spans[|spans| - 1]);
      assert Combinations(spans) == Combinations(init) * w;
    }
  }

  /** Ordered boxes hold a non-negative number of parts. */
  lemma {:induction false} VolumeNonNegative(ps: seq<PartRange>)
    requires AllOrdered(ps)
    ensures Volume(ps) >= 0
    decreases |ps|
  {
    if |ps| > 0 {
      CombinationsNonNegative(ps[0].spans);
      assert forall k :: 0 <= k < |ps[1..]| ==> ps[1..][k] == ps[k + 1];
      VolumeNonNegative(ps[1..]);
    }
  }

  /** Sorting boxes moves parts between the two sides without changing their total. */
  lemma {:induction false} FilterVolume(ps: seq<PartRange>, sieve: Sieve)
    requires AllOrdered(ps)
    ensures Volume(Filter(ps, sieve, true)) + Volume(Filter(ps, sieve, false)) == Volume(ps)
    ensures AllOrdered(Filter(ps, sieve, true)) && AllOrdered(Filter(ps, sieve, false))
    decreases |ps|
  {
    if |ps| > 0 {
      var head := ps[0];
      assert forall k :: 0 <= k < |ps[1..]| ==> ps[1..][k] == ps[k + 1];
      FilterVolume(ps[1..], sieve);
      var t: seq<PartRange> := if sieve.Keeps(head.location) then [head] else [];
      var f: seq<PartRange> := if sieve.Keeps(head.location) then [] else [head];
      assert [head][1..] == [];
      VolumeAppend(t, Filter(ps[1..], sieve, true));
      VolumeAppend(f, Filter(ps[1..], sieve, false));
      AllOrderedAppend(t, Filter(ps[1..], sieve, true));
      AllOrderedAppend(f, Filter(ps[1..], sieve, false));
    }
  }

  /** Cutting every current box by a conditional keeps the total size. */
  lemma {:induction false} SplitAllVolume(c: Conditional, current: seq<PartRange>)
    requires c.property in Letters && AllValid(current) && AllOrdered(current)
    ensures Volume(SplitAll(c, current).0) + Volume(SplitAll(c, current).1) == Volume(current)
    ensures AllOrdered(SplitAll(c, current).0) && AllOrdered(SplitAll(c, current).1)
    decreases |current|
  {
    if |current| > 0 {
      var pieces := CutBy(c, current[0]);
      var rest := SplitAll(c, current[1..]);
      assert forall k :: 0 <= k < |current[1..]| ==> current[1..][k] == current[k + 1];
      SplitAllVolume(c, current[1..]);
      SplitVolume(c.comparator, current[0], Index(c), c.value, c.destination);
      FilterVolume(pieces, Tagged);
      VolumeAppend(Filter(pieces, Tagged, true), rest.0);
      VolumeAppend(Filter(pieces, Tagged, false), rest.1);
      AllOrderedAppend(Filter(pieces, Tagged, true), rest.0);
      AllOrderedAppend(Filter(pieces, Tagged, false), rest.1);
    }
  }

  lemma {:induction false} RelocateVolume(ps: seq<PartRange>, fallback: string)
    requires AllOrdered(ps)
    ensures Volume(Relocate(ps, fallback)) == Volume(ps)
    ensures AllOrdered(Relocate(ps, fallback))
    decreases |ps|
  {
    if |ps| > 0 {
      assert forall k :: 0 <= k < |ps[1..]| ==> ps[1..][k] == ps[k + 1];
      RelocateVolume(ps[1..], fallback);
      assert Relocate(ps, fallback)[1..] == Relocate(ps[1..], fallback);
    }
  }

  /** Running a rule's conditionals over the boxes keeps the total size. */
  lemma {:induction false} CascadeVolume(cs: seq<Conditional>, current: seq<PartRange>, fallback: string)
    requires Named(cs) && AllValid(current) && AllOrdered(current)
    ensures Volume(Cascade(cs, current, fallback)) == Volume(current)
    ensures AllOrdered(Cascade(cs, current, fallback))
    decreases |cs|
  {
    if |cs| == 0 {
      RelocateVolume(current, fallback);
    } else {
      var (yielded, kept) := SplitAll(cs[0], current);
      SplitAllVolume(cs[0], current);
      CascadeVolume(cs[1..], kept, fallback);
      VolumeAppend(yielded, Cascade(cs[1..], kept, fallback));
      AllOrderedAppend(yielded, Cascade(cs[1..], kept, fallback));
    }
  }

  /** The pieces a rule makes of an ordered box are ordered and hold, by
      `combinations`, exactly as many parts as the box. */
  lemma MultiProcessVolume(rule: Rule, pr: PartRange)
    requires Named(rule.conditionals) && Valid(pr) && Ordered(pr) && |rule.conditionals| > 0
    ensures Volume(MultiProcess(rule, pr).value) == Combinations(pr.spans)
    ensures AllOrdered(MultiProcess(rule, pr).value)
  {
    assert [pr][1..] == [];
    CascadeVolume(rule.conditionals, [pr], rule.fallback);
  }

  /** One round of `multi_classify` keeps the parts of the stack and the
      output together. */
  lemma RoundVolume(table: map<string, Rule>, stack: seq<PartRange>, end: set<string>)
    requires WellFormed(table) && AllValid(stack) && Ready(table, stack) && AllOrdered(stack)
    ensures Volume(Round(table, stack, end).0) + Volume(Round(table, stack, end).1) == Volume(stack)
    ensures AllOrdered(Round(table, stack, end).0) && AllOrdered(Round(table, stack, end).1)
  {
    var part := stack[|stack| - 1];
    var rest := stack[..|stack| - 1];
    var pieces := MultiProcess(table[part.location.value], part).value;
    assert stack == rest + [part];
    assert [part][1..] == [];
    assert AllOrdered(rest) by {
      assert forall k :: 0 <= k < |rest| ==> rest[k] == stack[k];
    }
    VolumeAppend(rest, [part]);
    MultiProcessVolume(table[part.location.value], part);
    FilterVolume(pieces, AtEnd(end));
    VolumeAppend(rest, Filter(pieces, AtEnd(end), false));
    AllOrderedAppend(rest, Filter(pieces, AtEnd(end), false));
  }

  /** Classification of the part from `start` ends at `t` under some bound. */
  ghost predicate ClassifiedAs(table: map<string, Rule>, q: Part, start: string, end: set<string>, t: string)
  {
    exists f: nat :: Classify(table, q, start, end, f) == Ended(Ok(t))
  }

  /** The yielded boxes agree with `classify` on the part: it lies in exactly
      one of them when it lies in the starting box (and in none otherwise),
      and any box holding it sits at the end state its own classification
      ends in. */
  ghost predicate Agrees(table: map<string, Rule>, pr: PartRange, q: Part, start: string, end: set<string>, out: seq<PartRange>)
  {
    Count(out, q) == (if Contains(pr, q) then 1 else 0)
    && forall k :: 0 <= k < |out| && Contains(out[k], q) ==>
         out[k].location.Some? && out[k].location.value in end
         && ClassifiedAs(table, q, start, end, out[k].location.value)
  }

  /** Before the loop, every part of the box sits at `start`, which its walk reaches at once. */
  lemma TrackedStart(table: map<string, Rule>, pr: PartRange, q: Part, start: string, end: set<string>)
    requires start !in end
    ensures Tracked(table, pr, q, start, end, [pr.(location := Some(start))], [])
  {
    var first := pr.(location := Some(start));
    assert [first][1..] == [];
    assert Contains(first, q) == Contains(pr, q);
    assert Travels(table, q, start, end, 0) && Walk(table, q, start, 0) == Ok(start);
    assert Reached(table, q, start, end, start);
  }

  /** Once the stack is empty, tracking is agreement. */
  lemma TrackedAgrees(table: map<string, Rule>, pr: PartRange, q: Part, start: string, end: set<string>, out: seq<PartRange>)
    requires Tracked(table, pr, q, start, end, [], out)
    ensures Agrees(table, pr, q, start, end, out)
  {
    forall k | 0 <= k < |out| && Contains(out[k], q)
      ensures ClassifiedAs(table, q, start, end, out[k].location.value)
    {
      var t := out[k].location.value;
      var n: nat :| Travels(table, q, start, end, n) && Walk(table, q, start, n) == Ok(t);
      ClassifyReaches(table, q, start, end, n, n);
    }
  }

  /** `Document.multi_classify`, with at most `fuel` rounds: the box is
      placed at `start`; then the last box of the stack is popped and
      processed by the workflow it sits at, its pieces at an end state are
      yielded and the others pushed, in order, until the stack is empty. A
      box at no workflow or an unknown one is a missing dictionary key.
      When it ends, the yielded boxes agree part by part with `classify`,
      and hold as many parts as the starting box. */
  method MultiClassify(table: map<string, Rule>, pr: PartRange, start: string, end: set<string>, fuel: nat)
    returns (r: Run<seq<PartRange>>)
    requires WellFormed(table) && Valid(pr)
    ensures r.Ended? && r.outcome.Err? ==> r.outcome.error in {KeyError, NameError}
    ensures r.Ended? && r.outcome.Ok? ==> AllValid(r.outcome.value)
    ensures r.Ended? && r.outcome.Ok? && start !in end ==>
      forall q :: Agrees(table, pr, q, start, end, r.outcome.value)
    ensures r.Ended? && r.outcome.Ok? && Ordered(pr) ==>
      AllOrdered(r.outcome.value) && Volume(r.outcome.value) == Combinations(pr.spans)
  {
    var first := pr.(location := Some(start));
    var stack := [first];
    var out: seq<PartRange> := [];
    if start !in end {
      forall q
        ensures Tracked(table, pr, q, start, end, stack, out)
      {
        TrackedStart(table, pr, q, start, end);
      }
    }
    assert Volume(stack) == Combinations(pr.spans) by {
      assert [first][1..] == [];
    }
    var rounds := 0;
    while |stack| > 0
      invariant AllValid(stack) && AllValid(out) && rounds <= fuel
      invariant start !in end ==> forall q :: Tracked(table, pr, q, start, end, stack, out)
      invariant Ordered(pr) ==> AllOrdered(stack) && AllOrdered(out) && Volume(stack) + Volume(out) == Combinations(pr.spans)
      decreases fuel - rounds
    {
      if rounds == fuel {
        return Unfinished;
      }
      var part := stack[|stack| - 1];
      if part.location.None? || part.location.value !in table {
        return Ended(Err(KeyError));
      }
      if !Ready(table, stack) {
        return Ended(Err(NameError));
      }
      var next := Round(table, stack, end);
      if start !in end {
        forall q
          ensures Tracked(table, pr, q, start, end, next.0, out + next.1)
        {
          MultiClassifyStep(table, pr, q, start, end, stack, out);
        }
      }
      if Ordered(pr) {
        RoundVolume(table, stack, end);
        VolumeAppend(out, next.1);
        AllOrderedAppend(out, next.1);
      }
      stack, out := next.0, out + next.1;
      rounds := rounds + 1;
    }
    if start !in end {
      forall q
        ensures Agrees(table, pr, q, start, end, out)
      {
        TrackedAgrees(table, pr, q, start, end, out);
      }
    }
    return Ended(Ok(out));
  }

  /** A part's classification, when it ends, ends in one state whatever the bound. */
  lemma ClassifiedUnique(table: map<string, Rule>, q: Part, start: string, end: set<string>, t: string, u: string)
    requires ClassifiedAs(table, q, start, end, t) && ClassifiedAs(table, q, start, end, u)
    ensures t == u
  {
    var f: nat :| Classify(table, q, start, end, f) == Ended(Ok(t));
    var g: nat :| Classify(table, q, start, end, g) == Ended(Ok(u));
    if f <= g {
      ClassifyMoreFuel(table, q, start, end, f, g);
    } else {
      ClassifyMoreFuel(table, q, start, end, g, f);
    }
  }

  /** When no box holding the part is sent to one side, that side holds it nowhere. */
  lemma {:induction false} FilterNone(ps: seq<PartRange>, sieve: Sieve, keep: bool, q: Part)
    requires forall k :: 0 <= k < |ps| && Contains(ps[k], q) ==> sieve.Keeps(ps[k].location) != keep
    ensures Count(Filter(ps, sieve, keep), q) == 0
    decreases |ps|
  {
    if |ps| > 0 {
      var head := ps[0];
      assert forall k :: 0 <= k < |ps[1..]| ==> ps[1..][k] == ps[k + 1];
      FilterNone(ps[1..], sieve, keep, q);
      var t: seq<PartRange> := if sieve.Keeps(head.location) == keep then [head] else [];
      assert [head][1..] == [];
      CountAppend(t, Filter(ps[1..], sieve, keep), q);
    }
  }

  /** The boxes `main` sums: those yielded at the accepting state. */
  function AcceptedBoxes(out: seq<PartRange>): seq<PartRange>
  {
    Filter(out, AtEnd({Accepted}), true)
  }

  /** From boxes that agree with `classify`, the boxes at an end state `t`
      hold exactly the parts of the starting box whose classification ends
      at `t`, each once. */
  lemma BoxesAt(table: map<string, Rule>, pr: PartRange, q: Part, start: string, end: set<string>,
                out: seq<PartRange>, t: string)
    requires Agrees(table, pr, q, start, end, out)
    ensures Count(Filter(out, AtEnd({t}), true), q) ==
      if Contains(pr, q) && ClassifiedAs(table, q, start, end, t) then 1 else 0
  {
    FilterCount(out, AtEnd({t}), q);
    if Contains(pr, q) && ClassifiedAs(table, q, start, end, t) {
      forall k | 0 <= k < |out| && Contains(out[k], q)
        ensures AtEnd({t}).Keeps(out[k].location)
      {
        ClassifiedUnique(table, q, start, end, t, out[k].location.value);
      }
      FilterNone(out, AtEnd({t}), false, q);
    } else if Contains(pr, q) {
      FilterNone(out, AtEnd({t}), true, q);
    }
  }

  /** The box `main` starts from: every rating from 1 to 4000. */
  const FullRange: PartRange := PartRange([(1, 4001), (1, 4001), (1, 4001), (1, 4001)], None)

  /** `main` of part 2: classify the full box from "in" to "A" or "R" and
      sum the sizes of the boxes at "A". When it ends, the summed boxes hold
      exactly the parts whose own classification is accepted, each once, so
      the answer is a count of parts between 0 and 4000 to the fourth. */
  method Solve(table: map<string, Rule>, fuel: nat) returns (r: Run<int>, accepted: seq<PartRange>)
    requires WellFormed(table)
    ensures r.Ended? && r.outcome.Err? ==> r.outcome.error in {KeyError, NameError}
    ensures r.Ended? && r.outcome.Ok? ==>
      r.outcome.value == Volume(accepted) && AllOrdered(accepted)
      && 0 <= r.outcome.value <= 4000 * 4000 * 4000 * 4000
    ensures r.Ended? && r.outcome.Ok? ==>
      forall q :: Count(accepted, q) ==
        if Contains(FullRange, q) && ClassifiedAs(table, q, Start, {Accepted, Rejected}, Accepted) then 1 else 0
  {
    var end := {Accepted, Rejected};
    var run := MultiClassify(table, FullRange, Start, end, fuel);
    if run.Unfinished? {
      return Unfinished, [];
    }
    if run.outcome.Err? {
      return Ended(Err(run.outcome.error)), [];
    }
    var out := run.outcome.value;
    accepted := AcceptedBoxes(out);
    forall q
      ensures Count(accepted, q) ==
        if Contains(FullRange, q) && ClassifiedAs(table, q, Start, end, Accepted) then 1 else 0
    {
      BoxesAt(table, FullRange, q, Start, end, out, Accepted);
    }
    CombinationsAt(FullRange.spans, 0);
    FilterVolume(out, AtEnd({Accepted}));
    VolumeNonNegative(accepted);
    VolumeNonNegative(Filter(out, AtEnd({Accepted}), false));
    r := Ended(Ok(Volume(accepted)));
  }
}

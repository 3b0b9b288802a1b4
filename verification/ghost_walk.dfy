/**
 * Haunted Wasteland, second part (8p2.py): walk from every node the start
 * criterion accepts until the end criterion accepts a node, check that each
 * end node cycles back to itself in as many steps, and combine the step
 * counts with an lcm fold.
 *
 * These walks have no step limit in the source, so each takes a bound on
 * its iterations and reports `Unfinished` when the bound runs out.
 */
module GhostWalk {
  import opened Outcomes
  import opened Dicts
  import opened NumberTheory
  import opened Network

  /** `self.vertices` (8p2.py:28-30): the pair of the first two targets per
      source, keys in first-insertion order, a later line replacing the
      pair. A line with fewer than two targets raises `IndexError`. */
  function PairVertices(graph: seq<Line>): (r: Result<Dict<string, seq<string>>>)
    ensures r.Ok? <==> forall i :: 0 <= i < |graph| ==> |graph[i].targets| >= 2
    ensures r.Err? ==> r.error == IndexError
    ensures r.Ok? ==> r.value.Valid()
  {
    if |graph| == 0 then Ok(Empty())
    else
      var line := graph[|graph| - 1];
      match PairVertices(graph[..|graph| - 1])
      case Err(e) => Err(e)
      case Ok(prev) =>
        if |line.targets| < 2 then Err(IndexError)
        else Ok(prev.Put(line.source, line.targets[..2]))
  }

  /** The pairs have the sources of the first part's vertices, each paired
      with the first two of the targets the first part keeps for it. */
  lemma {:induction false} PairVerticesAgree(graph: seq<Line>)
    ensures var r := PairVertices(graph);
      r.Ok? ==> r.value.entries.Keys == Vertices(graph).Keys
    ensures var r := PairVertices(graph);
      r.Ok? ==> forall k :: k in r.value.entries ==>
        && |Vertices(graph)[k]| >= 2
        && r.value.entries[k] == Vertices(graph)[k][..2]
  {
    if |graph| > 0 && PairVertices(graph).Ok? {
      var line := graph[|graph| - 1];
      PairVerticesAgree(graph[..|graph| - 1]);
      assert Vertices(graph) == Vertices(graph[..|graph| - 1])[line.source := line.targets];
    }
  }

  /** The node after `j` moves is accepted by `end`. */
  predicate EndsAt(vertices: map<string, seq<string>>, dirs: Directions, end: string -> bool, start: string, j: nat)
  {
    var p := Position(vertices, dirs, start, j);
    p.Ok? && end(p.value)
  }

  /** The loop of `walk` from iteration `step` on, standing on `node`
      (8p2.py:38-48): test first, then move. */
  function WalkUntil(vertices: map<string, seq<string>>, dirs: Directions, end: string -> bool, node: string, step: nat, fuel: nat): Run<nat>
    decreases fuel
  {
    if fuel == 0 then Unfinished
    else if end(node) then Ended(Ok(step))
    else
      match Move(vertices, dirs, node, step)
      case Err(e) => Ended(Err(e))
      case Ok(next) => WalkUntil(vertices, dirs, end, next, step + 1, fuel - 1)
  }

  lemma {:induction false} WalkUntilFirst(vertices: map<string, seq<string>>, dirs: Directions, end: string -> bool, start: string, node: string, step: nat, fuel: nat, k: nat)
    requires Position(vertices, dirs, start, step) == Ok(node)
    ensures WalkUntil(vertices, dirs, end, node, step, fuel) == Ended(Ok(k)) <==>
      step <= k < step + fuel && EndsAt(vertices, dirs, end, start, k)
      && forall j :: step <= j < k ==> !EndsAt(vertices, dirs, end, start, j)
    decreases fuel
  {
    if fuel > 0 {
      if end(node) {
        assert EndsAt(vertices, dirs, end, start, step);
      } else {
        var moved := Move(vertices, dirs, node, step);
        assert Position(vertices, dirs, start, step + 1) == moved;
        assert !EndsAt(vertices, dirs, end, start, step);
        if moved.Err? {
          if step < k {
            FailurePersists(vertices, dirs, start, step + 1, k);
          }
        } else {
          WalkUntilFirst(vertices, dirs, end, start, moved.value, step + 1, fuel - 1, k);
        }
      }
    }
  }

  /** `walk(start, end_criteria)` (8p2.py:32-48) returns the first step at
      which the walk stands on an accepted node, 0 if `start` is one. */
  lemma WalkFirstAccepted(vertices: map<string, seq<string>>, dirs: Directions, end: string -> bool, start: string, fuel: nat, k: nat)
    ensures WalkUntil(vertices, dirs, end, start, 0, fuel) == Ended(Ok(k)) <==>
      k < fuel && EndsAt(vertices, dirs, end, start, k) && forall j :: 0 <= j < k ==> !EndsAt(vertices, dirs, end, start, j)
  {
    WalkUntilFirst(vertices, dirs, end, start, start, 0, fuel, k);
  }

  /** The loop of `walk_from` from iteration `step` on (8p2.py:72-84):
      move first, then test, so at least one step is taken. */
  function WalkOn(vertices: map<string, seq<string>>, dirs: Directions, end: string -> bool, node: string, step: nat, fuel: nat): (r: Run<(nat, string)>)
    ensures r.Ended? && r.outcome.Ok? ==> r.outcome.value.0 > step
    ensures r.Ended? && r.outcome.Err? ==> r.outcome.error != TypeError
    decreases fuel
  {
    if fuel == 0 then Unfinished
    else
      match Move(vertices, dirs, node, step)
      case Err(e) => Ended(Err(e))
      case Ok(next) =>
        if end(next) then Ended(Ok((step + 1, next)))
        else WalkOn(vertices, dirs, end, next, step + 1, fuel - 1)
  }

  /** `walk_from(start)`, without the cache, which only remembers results
      this function recomputes identically (8p2.py:63-84). */
  function WalkFrom(vertices: map<string, seq<string>>, dirs: Directions, end: string -> bool, start: string, fuel: nat): Run<(nat, string)>
  {
    WalkOn(vertices, dirs, end, start, 0, fuel)
  }

  lemma {:induction false} WalkOnFirst(vertices: map<string, seq<string>>, dirs: Directions, end: string -> bool, start: string, node: string, step: nat, fuel: nat, n: nat, v: string)
    requires Position(vertices, dirs, start, step) == Ok(node)
    ensures WalkOn(vertices, dirs, end, node, step, fuel) == Ended(Ok((n, v))) <==>
      step < n <= step + fuel && Position(vertices, dirs, start, n) == Ok(v) && end(v)
      && forall j :: step < j < n ==> !EndsAt(vertices, dirs, end, start, j)
    decreases fuel
  {
    if fuel > 0 {
      var moved := Move(vertices, dirs, node, step);
      assert Position(vertices, dirs, start, step + 1) == moved;
      if moved.Err? {
        if step < n {
          FailurePersists(vertices, dirs, start, step + 1, n);
        }
      } else if end(moved.value) {
        if step + 1 < n {
          assert EndsAt(vertices, dirs, end, start, step + 1);
        }
      } else {
        WalkOnFirst(vertices, dirs, end, start, moved.value, step + 1, fuel - 1, n, v);
      }
    }
  }

  /** `walk_from` takes at least one step and returns the first later step
      at which the walk stands on an accepted node, with that node. */
  lemma WalkFromFirstAccepted(vertices: map<string, seq<string>>, dirs: Directions, end: string -> bool, start: string, fuel: nat, n: nat, v: string)
    ensures WalkFrom(vertices, dirs, end, start, fuel) == Ended(Ok((n, v))) <==>
      1 <= n <= fuel && Position(vertices, dirs, start, n) == Ok(v) && end(v)
      && forall j :: 0 < j < n ==> !EndsAt(vertices, dirs, end, start, j)
  {
    WalkOnFirst(vertices, dirs, end, start, start, 0, fuel, n, v);
  }

  /** A larger bound changes nothing about a run that ended. */
  lemma {:induction false} WalkOnFuel(vertices: map<string, seq<string>>, dirs: Directions, end: string -> bool, node: string, step: nat, fuel: nat, more: nat)
    requires fuel <= more && WalkOn(vertices, dirs, end, node, step, fuel).Ended?
    ensures WalkOn(vertices, dirs, end, node, step, more) == WalkOn(vertices, dirs, end, node, step, fuel)
    decreases fuel
  {
    var moved := Move(vertices, dirs, node, step);
    if moved.Ok? && !end(moved.value) {
      WalkOnFuel(vertices, dirs, end, moved.value, step + 1, fuel - 1, more - 1);
    }
  }

  /** `[k for k in self.vertices.keys() if start_criteria(k)]` (8p2.py:86). */
  function Starts(keys: seq<string>, start: string -> bool): (r: seq<string>)
    ensures forall k :: k in r <==> k in keys && start(k)
    ensures |r| <= |keys|
  {
    if |keys| == 0 then []
    else (if start(keys[0]) then [keys[0]] else []) + Starts(keys[1..], start)
  }

  /** `[walk_from(start) for start in current_names]` (8p2.py:89): the first
      failing or unfinished walk stops the list. */
  function WalkEach(vertices: map<string, seq<string>>, dirs: Directions, end: string -> bool, starts: seq<string>, fuel: nat): (r: Run<seq<(nat, string)>>)
    ensures r.Ended? && r.outcome.Ok? ==>
      && |r.outcome.value| == |starts|
      && (forall i :: 0 <= i < |starts| ==> WalkFrom(vertices, dirs, end, starts[i], fuel) == Ended(Ok(r.outcome.value[i])))
    ensures r.Ended? && r.outcome.Err? ==> r.outcome.error != TypeError
  {
    if |starts| == 0 then Ended(Ok([]))
    else
      match WalkFrom(vertices, dirs, end, starts[0], fuel)
      case Unfinished => Unfinished
      case Ended(Err(e)) => Ended(Err(e))
      case Ended(Ok(first)) =>
        match WalkEach(vertices, dirs, end, starts[1..], fuel)
        case Unfinished => Unfinished
        case Ended(Err(e)) => Ended(Err(e))
        case Ended(Ok(rest)) => Ended(Ok([first] + rest))
  }

  /** `all((s, n) == walk_from(n) for s, n in results)` (8p2.py:100),
      stopping at the first mismatch. */
  function CyclesBack(vertices: map<string, seq<string>>, dirs: Directions, end: string -> bool, results: seq<(nat, string)>, fuel: nat): (r: Run<bool>)
    ensures r == Ended(Ok(true)) ==> forall i :: 0 <= i < |results| ==> WalkFrom(vertices, dirs, end, results[i].1, fuel) == Ended(Ok(results[i]))
    ensures r.Ended? && r.outcome.Err? ==> r.outcome.error != TypeError
  {
    if |results| == 0 then Ended(Ok(true))
    else
      match WalkFrom(vertices, dirs, end, results[0].1, fuel)
      case Unfinished => Unfinished
      case Ended(Err(e)) => Ended(Err(e))
      case Ended(Ok(again)) =>
        if again != results[0] then Ended(Ok(false))
        else CyclesBack(vertices, dirs, end, results[1..], fuel)
  }

  function StepsOf(results: seq<(nat, string)>): (r: seq<nat>)
    ensures |r| == |results| && forall i :: 0 <= i < |r| ==> r[i] == results[i].0
  {
    if |results| == 0 then [] else [results[0].0] + StepsOf(results[1..])
  }

  /** `walk_all(start_criteria, end_criteria)` (8p2.py:50-109). */
  function WalkAll(vertices: Dict<string, seq<string>>, dirs: Directions, start: string -> bool, end: string -> bool, fuel: nat): Run<nat>
  {
    var starts := Starts(vertices.keys, start);
    match WalkEach(vertices.entries, dirs, end, starts, fuel)
    case Unfinished => Unfinished
    case Ended(Err(e)) => Ended(Err(e))
    case Ended(Ok(results)) =>
      match CyclesBack(vertices.entries, dirs, end, results, fuel)
      case Unfinished => Unfinished
      case Ended(Err(e)) => Ended(Err(e))
      case Ended(Ok(ok)) =>
        if !ok then Ended(Err(AssertionError))
        else if |results| == 0 then Ended(Err(TypeError))
        else
          var steps := StepsOf(results);
          assert forall i :: 0 <= i < |steps| ==> steps[i] > 0 by {
            forall i | 0 <= i < |steps|
              ensures steps[i] > 0
            {
              assert WalkFrom(vertices.entries, dirs, end, starts[i], fuel) == Ended(Ok(results[i]));
            }
          }
          Ended(Ok(LcmAll(steps)))
  }

  /** An answer is a common multiple of the step counts of all start nodes'
      walks, each of which ends on a node that walks back to itself in the
      same number of steps; with no start node the fold fails with
      `TypeError` (8p2.py:86-109). */
  lemma WalkAllAnswer(vertices: Dict<string, seq<string>>, dirs: Directions, start: string -> bool, end: string -> bool, fuel: nat)
    requires WalkAll(vertices, dirs, start, end, fuel).Ended?
    ensures var starts := Starts(vertices.keys, start);
      var r := WalkAll(vertices, dirs, start, end, fuel).outcome;
      && (r == Err(TypeError) <==> |starts| == 0)
      && (r.Ok? ==> forall i :: 0 <= i < |starts| ==>
            exists n: nat, v: string ::
              && WalkFrom(vertices.entries, dirs, end, starts[i], fuel) == Ended(Ok((n, v)))
              && WalkFrom(vertices.entries, dirs, end, v, fuel) == Ended(Ok((n, v)))
              && Divides(n, r.value))
  {
    var starts := Starts(vertices.keys, start);
    var each := WalkEach(vertices.entries, dirs, end, starts, fuel);
    if each.Ended? && each.outcome.Ok? {
      var results := each.outcome.value;
      var r := WalkAll(vertices, dirs, start, end, fuel).outcome;
      if r.Ok? {
        forall i | 0 <= i < |starts|
          ensures exists n: nat, v: string ::
            && WalkFrom(vertices.entries, dirs, end, starts[i], fuel) == Ended(Ok((n, v)))
            && WalkFrom(vertices.entries, dirs, end, v, fuel) == Ended(Ok((n, v)))
            && Divides(n, r.value)
        {
          StartDivides(vertices.entries, dirs, end, starts, results, fuel, r.value, i);
        }
      }
    }
  }

  /** One start of a successful fold: its walk ends on a node that walks
      back to itself, in a number of steps dividing the answer. */
  lemma StartDivides(vertices: map<string, seq<string>>, dirs: Directions, end: string -> bool,
                     starts: seq<string>, results: seq<(nat, string)>, fuel: nat, total: nat, i: nat)
    requires |results| == |starts| && i < |starts|
    requires forall k :: 0 <= k < |starts| ==> WalkFrom(vertices, dirs, end, starts[k], fuel) == Ended(Ok(results[k]))
    requires forall k :: 0 <= k < |results| ==> WalkFrom(vertices, dirs, end, results[k].1, fuel) == Ended(Ok(results[k]))
    requires forall k :: 0 <= k < |results| ==> results[k].0 > 0
    requires total == LcmAll(StepsOf(results))
    ensures exists n: nat, v: string ::
      && WalkFrom(vertices, dirs, end, starts[i], fuel) == Ended(Ok((n, v)))
      && WalkFrom(vertices, dirs, end, v, fuel) == Ended(Ok((n, v)))
      && Divides(n, total)
  {
    var x := results[i];
    LcmAllMultipleOfEach(StepsOf(results), i);
    assert WalkFrom(vertices, dirs, end, x.1, fuel) == Ended(Ok((x.0, x.1)));
  }

  /** `x.endswith(c)`, the two criteria of the puzzle (8p2.py:118). */
  function EndsWith(c: char): string -> bool
  {
    s => |s| > 0 && s[|s| - 1] == c
  }
}

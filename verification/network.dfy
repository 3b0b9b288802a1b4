/**
 * Haunted Wasteland, first part (8.py): follow the left/right instructions,
 * repeating them as often as needed, from one node to another, and count
 * the steps; the walk gives up after a million steps.
 */
module Network {
  import opened Outcomes
  import opened NumberTheory

  /** A parsed line `source = (target, target, ...)` (8.py:11). */
  datatype Line = Line(source: string, targets: seq<string>)

  /** The instruction word: the grammar admits only non-empty words (8.py:9). */
  type Directions = s: string | |s| > 0 witness "L"

  /** `self.vertices` (8.py:26-28): one entry per source, a later line for
      the same source replacing an earlier one. */
  function Vertices(graph: seq<Line>): map<string, seq<string>>
  {
    if |graph| == 0 then map[]
    else Vertices(graph[..|graph| - 1])[graph[|graph| - 1].source := graph[|graph| - 1].targets]
  }

  /** Exactly the sources of the lines are vertices. */
  lemma {:induction false} VerticesKeys(graph: seq<Line>)
    ensures Vertices(graph).Keys == set i | 0 <= i < |graph| :: graph[i].source
    decreases |graph|
  {
    if |graph| > 0 {
      var n := |graph|;
      var init := graph[..n - 1];
      VerticesKeys(init);
      var sources := set i | 0 <= i < n :: graph[i].source;
      forall k | k in sources
        ensures k in (set i | 0 <= i < n - 1 :: init[i].source) + {graph[n - 1].source}
      {
        var i :| 0 <= i < n && graph[i].source == k;
        if i < n - 1 {
          assert init[i].source == k;
        }
      }
      assert forall i :: 0 <= i < n - 1 ==> init[i].source == graph[i].source;
    }
  }

  /** A source's targets are those of its last line. */
  lemma {:induction false} VerticesLast(graph: seq<Line>, i: nat)
    requires i < |graph| && LastFor(graph, i)
    ensures graph[i].source in Vertices(graph)
    ensures Vertices(graph)[graph[i].source] == graph[i].targets
    decreases |graph|
  {
    var n := |graph|;
    if i < n - 1 {
      var init := graph[..n - 1];
      assert graph[n - 1].source != graph[i].source;
      assert LastFor(init, i);
      VerticesLast(init, i);
    }
  }

  /** No later line has the same source as line `i`. */
  predicate LastFor(graph: seq<Line>, i: nat)
    requires i < |graph|
  {
    forall j :: i < j < |graph| ==> graph[j].source != graph[i].source
  }

  /** One move from `node` during iteration `step` of the walk: the
      instruction `step mod len(directions)` chooses the first (L) or the
      second (R) target (8.py:37, 40-46). */
  function Move(vertices: map<string, seq<string>>, dirs: Directions, node: string, step: nat): (r: Result<string>)
    ensures r.Ok? <==> node in vertices && ((dirs[step % |dirs|] == 'L' && |vertices[node]| > 0) || (dirs[step % |dirs|] == 'R' && |vertices[node]| > 1))
    ensures r.Ok? ==> r.value == vertices[node][if dirs[step % |dirs|] == 'L' then 0 else 1]
    ensures node !in vertices ==> r == Err(KeyError)
    ensures r.Err? ==> r.error == KeyError || r.error == IndexError || r.error == ValueError
  {
    if node !in vertices then Err(KeyError)
    else
      var edges := vertices[node];
      var d := dirs[step % |dirs|];
      if d == 'L' then (if |edges| > 0 then Ok(edges[0]) else Err(IndexError))
      else if d == 'R' then (if |edges| > 1 then Ok(edges[1]) else Err(IndexError))
      else Err(ValueError)
  }

  /** The instructions repeat: a move depends only on the step modulo
      their length. */
  lemma MovePeriodic(vertices: map<string, seq<string>>, dirs: Directions, node: string, step: nat)
    ensures Move(vertices, dirs, node, step + |dirs|) == Move(vertices, dirs, node, step)
  {
    ModShift(step, |dirs|);
  }

  /** Where the walk from `start` is after `k` moves, if it got that far. */
  function Position(vertices: map<string, seq<string>>, dirs: Directions, start: string, k: nat): Result<string>
  {
    if k == 0 then Ok(start)
    else
      var prev :- Position(vertices, dirs, start, k - 1);
      Move(vertices, dirs, prev, k - 1)
  }

  /** A failed move ends every later position too. */
  lemma {:induction false} FailurePersists(vertices: map<string, seq<string>>, dirs: Directions, start: string, j: nat, k: nat)
    requires j <= k && Position(vertices, dirs, start, j).Err?
    ensures Position(vertices, dirs, start, k).Err?
    decreases k - j
  {
    if j < k {
      FailurePersists(vertices, dirs, start, j, k - 1);
    }
  }

  /** The last iteration whose step passes the `step > 1000000` guard (8.py:48-49). */
  const StepLimit: nat := 1000000

  /** The loop of `walk` from iteration `step` on, standing on `node` (8.py:36-49). */
  function WalkFrom(vertices: map<string, seq<string>>, dirs: Directions, end: string, node: string, step: nat): Result<nat>
    requires step <= StepLimit + 1
    decreases StepLimit + 1 - step
  {
    if node == end then Ok(step)
    else
      var next :- Move(vertices, dirs, node, step);
      if step > StepLimit then Err(ValueError)
      else WalkFrom(vertices, dirs, end, next, step + 1)
  }

  /** `walk(start, end)` (8.py:30-49). */
  function Walk(vertices: map<string, seq<string>>, dirs: Directions, start: string, end: string): Result<nat>
  {
    WalkFrom(vertices, dirs, end, start, 0)
  }

  /** The walk has not reached `end` at any of the first `k` positions. */
  predicate NotYet(vertices: map<string, seq<string>>, dirs: Directions, start: string, end: string, from: nat, k: nat)
  {
    forall j :: from <= j < k ==> Position(vertices, dirs, start, j) != Ok(end)
  }

  lemma {:induction false} WalkFromFirstArrival(vertices: map<string, seq<string>>, dirs: Directions, start: string, end: string, node: string, step: nat, k: nat)
    requires step <= StepLimit + 1
    requires Position(vertices, dirs, start, step) == Ok(node)
    ensures WalkFrom(vertices, dirs, end, node, step) == Ok(k) <==>
      step <= k <= StepLimit + 1 && Position(vertices, dirs, start, k) == Ok(end) && NotYet(vertices, dirs, start, end, step, k)
    decreases StepLimit + 1 - step
  {
    if node == end {
      if step < k {
        assert Position(vertices, dirs, start, step) == Ok(end);
      }
    } else {
      var moved := Move(vertices, dirs, node, step);
      assert Position(vertices, dirs, start, step + 1) == moved;
      if moved.Err? {
        if step < k {
          FailurePersists(vertices, dirs, start, step + 1, k);
        }
      } else if step <= StepLimit {
        WalkFromFirstArrival(vertices, dirs, start, end, moved.value, step + 1, k);
        if NotYet(vertices, dirs, start, end, step + 1, k) && step < k {
          assert NotYet(vertices, dirs, start, end, step, k);
        }
      }
    }
  }

  /** The walk returns the first step at which it stands on `end`, if that
      is at most one past the step limit; in particular 0 when it starts
      there (8.py:37-39). */
  lemma WalkFirstArrival(vertices: map<string, seq<string>>, dirs: Directions, start: string, end: string, k: nat)
    ensures Walk(vertices, dirs, start, end) == Ok(k) <==>
      k <= StepLimit + 1 && Position(vertices, dirs, start, k) == Ok(end) && NotYet(vertices, dirs, start, end, 0, k)
  {
    WalkFromFirstArrival(vertices, dirs, start, end, start, 0, k);
  }

  lemma {:induction false} WalkFromTooLong(vertices: map<string, seq<string>>, dirs: Directions, start: string, end: string, node: string, step: nat)
    requires step <= StepLimit + 1
    requires Position(vertices, dirs, start, step) == Ok(node)
    requires NotYet(vertices, dirs, start, end, step, StepLimit + 2)
    requires Position(vertices, dirs, start, StepLimit + 2).Ok?
    ensures WalkFrom(vertices, dirs, end, node, step) == Err(ValueError)
    decreases StepLimit + 1 - step
  {
    var moved := Move(vertices, dirs, node, step);
    assert Position(vertices, dirs, start, step + 1) == moved;
    if moved.Err? {
      FailurePersists(vertices, dirs, start, step + 1, StepLimit + 2);
    } else if step <= StepLimit {
      WalkFromTooLong(vertices, dirs, start, end, moved.value, step + 1);
    }
  }

  /** A walk that can keep moving but does not reach `end` within the
      limit fails with `ValueError('Too many steps')` (8.py:48-49). */
  lemma WalkTooLong(vertices: map<string, seq<string>>, dirs: Directions, start: string, end: string)
    requires NotYet(vertices, dirs, start, end, 0, StepLimit + 2)
    requires Position(vertices, dirs, start, StepLimit + 2).Ok?
    ensures Walk(vertices, dirs, start, end) == Err(ValueError)
  {
    WalkFromTooLong(vertices, dirs, start, end, start, 0);
  }
}

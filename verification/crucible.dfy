/**
 * Clumsy Crucible (17.py): a best-first search over a grid of heat-loss
 * digits, where a crucible may not reverse and may not go more than
 * `limit` cells in a straight line. A search node carries its position,
 * heading and straight run (`SearchCoord`), its accumulated heat loss, its
 * distance estimate and its parent.
 */
module Crucible {
  import opened Outcomes

  type Dir = (int, int)
  type Pos = (int, int)

  /** `SearchCoord`: what the search remembers as visited. */
  datatype Coord = Coord(pos: Pos, dir: Dir, straight: nat)

  /** `SearchNode`. */
  datatype Node = Node(coord: Coord, weight: int, heuristic: int, parent: Option<Node>)

  /** `ordinals`, in the order `_expand` tries them (17.py:42). */
  const Ordinals: seq<Dir> := [(0, 1), (0, -1), (1, 0), (-1, 0)]

  /** The root's heading (17.py:55), which no move continues or reverses. */
  const FakeDir: Dir := (314, 314)

  function Abs(n: int): nat
  {
    if n < 0 then -n else n
  }

  /** `_heuristic`: the taxicab distance to the goal (17.py:115-121). */
  function Heuristic(p: Pos, goal: Pos): (r: int)
    ensures r >= 0
    ensures r == 0 <==> p == goal
  {
    Abs(p.0 - goal.0) + Abs(p.1 - goal.1)
  }

  /** The estimate never drops by more than one per step, so with heat
      losses of at least one per cell it never overestimates the rest of the
      path. */
  lemma HeuristicConsistent(p: Pos, d: Dir, goal: Pos)
    requires d in Ordinals
    ensures Heuristic(p, goal) <= 1 + Heuristic((p.0 + d.0, p.1 + d.1), goal)
    ensures Heuristic((p.0 + d.0, p.1 + d.1), goal) <= 1 + Heuristic(p, goal)
  {
  }

  /** `SearchNode.__lt__` (17.py:36-37): ordered by weight plus estimate. */
  predicate Less(a: Node, b: Node)
  {
    a.weight + a.heuristic < b.weight + b.heuristic
  }

  // ------------------------------------------------------------ expanding

  /** `self.width`, `self.height` (17.py:47-48). */
  function Width(grid: seq<seq<int>>): nat
  {
    if |grid| == 0 then 0 else |grid[0]|
  }

  predicate InGrid(grid: seq<seq<int>>, p: Pos)
  {
    0 <= p.0 < Width(grid) && 0 <= p.1 < |grid|
  }

  /** `self.grid[y][x]` for a cell in the grid, which fails on a row shorter
      than the first. */
  function Cost(grid: seq<seq<int>>, p: Pos): (r: Result<int>)
    requires InGrid(grid, p)
    ensures r.Ok? <==> p.0 < |grid[p.1]|
    ensures r.Ok? ==> r.value == grid[p.1][p.0]
  {
    if p.0 < |grid[p.1]| then Ok(grid[p.1][p.0]) else Err(IndexError)
  }

  function Move(p: Pos, d: Dir): Pos
  {
    (p.0 + d.0, p.1 + d.1)
  }

  /** The three checks of `_expand` (17.py:93-104): not a further step
      straight on after `limit` of them, not backwards, not off the grid. */
  predicate Allowed(grid: seq<seq<int>>, node: Node, limit: int, d: Dir)
  {
    && !(d == node.coord.dir && node.coord.straight == limit)
    && !(node.coord.dir.0 == -d.0 && node.coord.dir.1 == -d.1)
    && InGrid(grid, Move(node.coord.pos, d))
  }

  /** The node `_expand` builds for heading `d` (17.py:105-112), given the
      entered cell's cost. */
  function Successor(node: Node, d: Dir, cost: int, goal: Pos): Node
  {
    var p := Move(node.coord.pos, d);
    var run := if d == node.coord.dir then node.coord.straight + 1 else 1;
    Node(Coord(p, d, run), node.weight + cost, Heuristic(p, goal), Some(node))
  }

  /** `_expand` over the headings `dirs`, in order. */
  function ExpandFrom(grid: seq<seq<int>>, node: Node, limit: int, goal: Pos, dirs: seq<Dir>): Result<seq<Node>>
  {
    if |dirs| == 0 then Ok([])
    else
      var d := dirs[0];
      if !Allowed(grid, node, limit, d) then ExpandFrom(grid, node, limit, goal, dirs[1..])
      else
        var cost :- Cost(grid, Move(node.coord.pos, d));
        var rest :- ExpandFrom(grid, node, limit, goal, dirs[1..]);
        Ok([Successor(node, d, cost, goal)] + rest)
  }

  /** An expansion over `dirs` yields, for each allowed heading and nothing
      else, the successor that enters that heading's cell; it fails exactly
      when an allowed heading enters a cell missing from its row. */
  lemma {:induction false} ExpandFromSpec(grid: seq<seq<int>>, node: Node, limit: int, goal: Pos, dirs: seq<Dir>)
    ensures var r := ExpandFrom(grid, node, limit, goal, dirs);
      r.Ok? ==> forall n :: n in r.value ==>
        && n.coord.dir in dirs
        && Allowed(grid, node, limit, n.coord.dir)
        && n.coord.pos == Move(node.coord.pos, n.coord.dir)
        && Cost(grid, n.coord.pos).Ok?
        && n == Successor(node, n.coord.dir, Cost(grid, n.coord.pos).value, goal)
    ensures var r := ExpandFrom(grid, node, limit, goal, dirs);
      r.Ok? ==> forall d :: d in dirs && Allowed(grid, node, limit, d) ==>
        exists n :: n in r.value && n.coord.dir == d
    ensures ExpandFrom(grid, node, limit, goal, dirs).Err? <==>
      exists d :: d in dirs && Allowed(grid, node, limit, d) && Cost(grid, Move(node.coord.pos, d)).Err?
  {
    if |dirs| > 0 {
      ExpandFromSpec(grid, node, limit, goal, dirs[1..]);
      assert forall d :: d in dirs <==> d == dirs[0] || d in dirs[1..];
    }
  }

  /** `_expand` (17.py:84-113). */
  function Expand(grid: seq<seq<int>>, node: Node, limit: int, goal: Pos): Result<seq<Node>>
  {
    ExpandFrom(grid, node, limit, goal, Ordinals)
  }

  /** The properties of one expansion: a successor is one step away in the
      grid in one of the four headings, never backwards, never past the
      straight limit; its run grows by one going straight on and restarts
      at one after a turn; its weight adds the entered cell's cost; its
      estimate is the distance left; and its parent is the expanded node. */
  lemma ExpandSteps(grid: seq<seq<int>>, node: Node, limit: int, goal: Pos, n: Node)
    requires Expand(grid, node, limit, goal).Ok? && n in Expand(grid, node, limit, goal).value
    ensures n.coord.dir in Ordinals && n.coord.pos == Move(node.coord.pos, n.coord.dir)
    ensures OnRow(grid, n.coord.pos)
    ensures !(n.coord.dir.0 == -node.coord.dir.0 && n.coord.dir.1 == -node.coord.dir.1)
    ensures n.coord.dir == node.coord.dir ==> node.coord.straight != limit && n.coord.straight == node.coord.straight + 1
    ensures n.coord.dir != node.coord.dir ==> n.coord.straight == 1
    ensures n.weight == node.weight + grid[n.coord.pos.1][n.coord.pos.0]
    ensures n.heuristic == Heuristic(n.coord.pos, goal)
    ensures n.parent == Some(node)
  {
    ExpandFromSpec(grid, node, limit, goal, Ordinals);
  }

  /** The root's made-up heading forbids no first move: every heading that
      stays in the grid is expanded. */
  lemma RootMovesFreely(grid: seq<seq<int>>, start: Pos, limit: int, goal: Pos, d: Dir)
    requires d in Ordinals
    ensures Allowed(grid, Root(start, goal), limit, d) <==> InGrid(grid, Move(start, d))
  {
  }

  /** The straight limit never stops a turn: a heading other than the
      current one and its reverse is allowed exactly when it stays in the
      grid. */
  lemma TurnsIgnoreLimit(grid: seq<seq<int>>, node: Node, limit: int, d: Dir)
    requires d != node.coord.dir
    requires !(node.coord.dir.0 == -d.0 && node.coord.dir.1 == -d.1)
    ensures Allowed(grid, node, limit, d) <==> InGrid(grid, Move(node.coord.pos, d))
  {
  }

  // ------------------------------------------------------------ paths

  /** The root node (17.py:55-56). */
  function Root(start: Pos, goal: Pos): Node
  {
    Node(Coord(start, FakeDir, 0), 0, 0, None)
  }

  /** A node the search builds from `root` by repeated expansion. */
  predicate Derived(grid: seq<seq<int>>, limit: int, goal: Pos, root: Node, n: Node)
    decreases n
  {
    n == root
    || (n.parent.Some?
        && Derived(grid, limit, goal, root, n.parent.value)
        && Expand(grid, n.parent.value, limit, goal).Ok?
        && n in Expand(grid, n.parent.value, limit, goal).value)
  }

  /** The path-rebuilding loop (17.py:63-68): parents back to a node
      without one, reversed. */
  function PathTo(n: Node): (r: seq<Node>)
    ensures |r| > 0 && r[|r| - 1] == n && r[0].parent.None?
    decreases n
  {
    if n.parent.None? then [n] else PathTo(n.parent.value) + [n]
  }

  /** Each node after the first is an expansion of the one before it. */
  predicate IsPath(grid: seq<seq<int>>, limit: int, goal: Pos, root: Node, path: seq<Node>)
  {
    && |path| > 0 && path[0] == root
    && forall i :: 0 <= i < |path| - 1 ==>
         Expand(grid, path[i], limit, goal).Ok? && path[i + 1] in Expand(grid, path[i], limit, goal).value
  }

  /** The path rebuilt from a derived node runs from the root to it through
      expansions. */
  lemma {:induction false} DerivedPath(grid: seq<seq<int>>, limit: int, goal: Pos, root: Node, n: Node)
    requires root.parent.None?
    requires Derived(grid, limit, goal, root, n)
    ensures IsPath(grid, limit, goal, root, PathTo(n))
    decreases n
  {
    if n != root {
      var p := n.parent.value;
      ExpandSteps(grid, p, limit, goal, n);
      DerivedPath(grid, limit, goal, root, p);
      var q := PathTo(p);
      assert PathTo(n) == q + [n];
      forall i | 0 <= i < |q + [n]| - 1
        ensures Expand(grid, (q + [n])[i], limit, goal).Ok? && (q + [n])[i + 1] in Expand(grid, (q + [n])[i], limit, goal).value
      {
        if i < |q| - 1 {
          assert (q + [n])[i] == q[i] && (q + [n])[i + 1] == q[i + 1];
        }
      }
    }
  }

  /** A cell of the grid that its row holds. */
  predicate OnRow(grid: seq<seq<int>>, p: Pos)
  {
    InGrid(grid, p) && p.0 < |grid[p.1]|
  }

  /** The heat lost entering the cells of `path` after its first. */
  function Entered(grid: seq<seq<int>>, path: seq<Node>): int
    requires forall i :: 0 <= i < |path| ==> OnRow(grid, path[i].coord.pos)
  {
    if |path| <= 1 then 0
    else
      var last := path[|path| - 1].coord.pos;
      assert OnRow(grid, last);
      Entered(grid, path[..|path| - 1]) + grid[last.1][last.0]
  }

  /** `path_cost` (17.py:78-82): the last node's weight, which fails on no
      path (`None`, a TypeError) and on an empty one. */
  function PathCost(path: Option<seq<Node>>): (r: Result<int>)
    ensures r.Ok? <==> path.Some? && |path.value| > 0
  {
    match path
    case None => Err(TypeError)
    case Some(p) => if |p| == 0 then Err(IndexError) else Ok(p[|p| - 1].weight)
  }

  /** Along a path of expansions, the last node's weight is the root's plus
      the heat lost in every cell entered, so `path_cost` of a path from the
      root is that heat loss. */
  lemma {:induction false} PathCostIsHeatLoss(grid: seq<seq<int>>, limit: int, goal: Pos, root: Node, path: seq<Node>)
    requires IsPath(grid, limit, goal, root, path)
    requires OnRow(grid, root.coord.pos)
    ensures forall i :: 0 <= i < |path| ==> OnRow(grid, path[i].coord.pos)
    ensures PathCost(Some(path)) == Ok(root.weight + Entered(grid, path))
  {
    if |path| > 1 {
      var init := path[..|path| - 1];
      assert IsPath(grid, limit, goal, root, init) by {
        forall i | 0 <= i < |init| - 1
          ensures Expand(grid, init[i], limit, goal).Ok? && init[i + 1] in Expand(grid, init[i], limit, goal).value
        {
          assert init[i] == path[i] && init[i + 1] == path[i + 1];
        }
      }
      PathCostIsHeatLoss(grid, limit, goal, root, init);
      var k := |path| - 2;
      ExpandSteps(grid, path[k], limit, goal, path[k + 1]);
      assert path[k] == init[|init| - 1];
      forall i | 0 <= i < |path|
        ensures OnRow(grid, path[i].coord.pos)
      {
        if i < |init| {
          assert path[i] == init[i];
        }
      }
    }
  }

  // ------------------------------------------------------------ the search

  /** The estimate-plus-weight of a node, the key `heappop` orders by. */
  function Key(n: Node): int
  {
    n.weight + n.heuristic
  }

  /** The position of the first node with the smallest key: the node
      `heappop` returns (17.py:60), with ties broken by queue order. */
  function MinIndex(queue: seq<Node>): (i: nat)
    requires |queue| > 0
    ensures i < |queue|
  {
    if |queue| == 1 then 0
    else
      var k := MinIndex(queue[1..]);
      if Less(queue[k + 1], queue[0]) then k + 1 else 0
  }

  /** No queued node has a smaller key than the popped one, and every
      node queued before it has a larger key. */
  lemma {:induction false} MinIndexLeast(queue: seq<Node>)
    requires |queue| > 0
    ensures forall j :: 0 <= j < |queue| ==> !Less(queue[j], queue[MinIndex(queue)])
    ensures forall j :: 0 <= j < MinIndex(queue) ==> Less(queue[MinIndex(queue)], queue[j])
    decreases |queue|
  {
    if |queue| > 1 {
      MinIndexLeast(queue[1..]);
      assert forall j :: 1 <= j < |queue| ==> queue[j] == queue[1..][j - 1];
    }
  }

  /** The successors not yet visited, pushed in order (17.py:73-76). */
  function Unvisited(next: seq<Node>, visited: set<Coord>): (r: seq<Node>)
    ensures forall n :: n in r <==> n in next && n.coord !in visited
  {
    if |next| == 0 then []
    else (if next[0].coord in visited then [] else [next[0]]) + Unvisited(next[1..], visited)
  }

  /** The search's state: the priority queue and the visited coordinates. */
  datatype Frontier = Frontier(queue: seq<Node>, visited: set<Coord>)

  /** What one turn of the loop does: find a path, or go on. */
  datatype Popped = Found(path: seq<Node>) | Continue(next: Frontier)

  /** One turn of the `while queue` loop (17.py:60-76): pop the best node;
      at the goal, rebuild its path; if visited, drop it; otherwise mark it
      visited and push its unvisited successors. */
  function Pop(grid: seq<seq<int>>, limit: int, goal: Pos, f: Frontier): Result<Popped>
    requires |f.queue| > 0
  {
    var i := MinIndex(f.queue);
    var node := f.queue[i];
    var rest := f.queue[..i] + f.queue[i + 1..];
    if node.coord.pos == goal then Ok(Found(PathTo(node)))
    else if node.coord in f.visited then Ok(Continue(Frontier(rest, f.visited)))
    else
      var seen := f.visited + {node.coord};
      var next :- Expand(grid, node, limit, goal);
      Ok(Continue(Frontier(rest + Unvisited(next, seen), seen)))
  }

  /** Every node queued was built from `root`. */
  predicate AllDerived(grid: seq<seq<int>>, limit: int, goal: Pos, root: Node, queue: seq<Node>)
  {
    forall n :: n in queue ==> Derived(grid, limit, goal, root, n)
  }

  /** A turn of the loop keeps every queued node built from the root, and a
      path it finds runs from the root through expansions to the goal. */
  lemma PopKeepsDerived(grid: seq<seq<int>>, limit: int, goal: Pos, root: Node, f: Frontier)
    requires root.parent.None? && |f.queue| > 0
    requires AllDerived(grid, limit, goal, root, f.queue)
    ensures var r := Pop(grid, limit, goal, f);
      && (r.Ok? && r.value.Found? ==>
            IsPath(grid, limit, goal, root, r.value.path) && r.value.path[|r.value.path| - 1].coord.pos == goal)
      && (r.Ok? && r.value.Continue? ==> AllDerived(grid, limit, goal, root, r.value.next.queue))
  {
    var i := MinIndex(f.queue);
    var node := f.queue[i];
    RestDerived(grid, limit, goal, root, f.queue, i);
    if node.coord.pos == goal {
      DerivedPath(grid, limit, goal, root, node);
    } else if node.coord !in f.visited {
      var expanded := Expand(grid, node, limit, goal);
      if expanded.Ok? {
        PushDerived(grid, limit, goal, root, node, f.queue[..i] + f.queue[i + 1..], expanded.value, f.visited + {node.coord});
      }
    }
  }

  lemma RestDerived(grid: seq<seq<int>>, limit: int, goal: Pos, root: Node, queue: seq<Node>, i: nat)
    requires i < |queue|
    requires AllDerived(grid, limit, goal, root, queue)
    ensures AllDerived(grid, limit, goal, root, queue[..i] + queue[i + 1..])
  {
    forall n | n in queue[..i] + queue[i + 1..]
      ensures n in queue
    {
      if n in queue[..i] {
        var j :| 0 <= j < i && queue[..i][j] == n;
        assert queue[j] == n;
      } else {
        var j :| 0 <= j < |queue[i + 1..]| && queue[i + 1..][j] == n;
        assert queue[i + 1 + j] == n;
      }
    }
  }

  /** Pushing the unvisited successors of a node built from the root keeps
      every queued node built from the root. */
  lemma PushDerived(grid: seq<seq<int>>, limit: int, goal: Pos, root: Node, node: Node, rest: seq<Node>, next: seq<Node>, seen: set<Coord>)
    requires Derived(grid, limit, goal, root, node)
    requires Expand(grid, node, limit, goal) == Ok(next)
    requires AllDerived(grid, limit, goal, root, rest)
    ensures AllDerived(grid, limit, goal, root, rest + Unvisited(next, seen))
  {
    forall n | n in Unvisited(next, seen)
      ensures Derived(grid, limit, goal, root, n)
    {
      ExpandSteps(grid, node, limit, goal, n);
    }
  }

  /** The `while queue` loop of `path_find` (17.py:59-76), one turn per unit
      of fuel: `Some(path)` when a node at the goal is popped, `None` when
      the queue runs dry. */
  function Search(grid: seq<seq<int>>, limit: int, goal: Pos, f: Frontier, fuel: nat): Run<Option<seq<Node>>>
    decreases fuel
  {
    if |f.queue| == 0 then Ended(Ok(None))
    else if fuel == 0 then Unfinished
    else
      match Pop(grid, limit, goal, f)
      case Err(e) => Ended(Err(e))
      case Ok(Found(path)) => Ended(Ok(Some(path)))
      case Ok(Continue(next)) => Search(grid, limit, goal, next, fuel - 1)
  }

  /** A path the search returns, if any, runs from `root` through
      expansions to a node at the goal. */
  predicate Finds(grid: seq<seq<int>>, limit: int, goal: Pos, root: Node, r: Run<Option<seq<Node>>>)
  {
    r.Ended? && r.outcome.Ok? && r.outcome.value.Some? ==>
      var path := r.outcome.value.value;
      IsPath(grid, limit, goal, root, path) && path[|path| - 1].coord.pos == goal
  }

  /** One turn of the search from a queue of nodes built from the root:
      either the search ends here, with no path or a path from the root to
      the goal, or it goes on from a frontier whose queue still holds only
      nodes built from the root, and a path found from there is the path
      found from here. */
  lemma SearchTurn(grid: seq<seq<int>>, limit: int, goal: Pos, root: Node, f: Frontier, fuel: nat)
      returns (goesOn: bool, next: Frontier)
    requires root.parent.None? && |f.queue| > 0 && fuel > 0
    requires AllDerived(grid, limit, goal, root, f.queue)
    ensures !goesOn ==> Finds(grid, limit, goal, root, Search(grid, limit, goal, f, fuel))
    ensures goesOn ==> AllDerived(grid, limit, goal, root, next.queue)
    ensures goesOn && Finds(grid, limit, goal, root, Search(grid, limit, goal, next, fuel - 1)) ==>
      Finds(grid, limit, goal, root, Search(grid, limit, goal, f, fuel))
  {
    PopKeepsDerived(grid, limit, goal, root, f);
    var r := Pop(grid, limit, goal, f);
    goesOn := r.Ok? && r.value.Continue?;
    next := if goesOn then r.value.next else f;
  }

  /** Every path the search returns runs from the root through expansions
      to a node at the goal, as long as the queue only ever holds nodes
      built from the root. */
  lemma {:induction false} SearchFindsPaths(grid: seq<seq<int>>, limit: int, goal: Pos, root: Node, f: Frontier, fuel: nat)
    requires root.parent.None?
    requires AllDerived(grid, limit, goal, root, f.queue)
    ensures Finds(grid, limit, goal, root, Search(grid, limit, goal, f, fuel))
    decreases fuel
  {
    if |f.queue| > 0 && fuel > 0 {
      var goesOn, next := SearchTurn(grid, limit, goal, root, f, fuel);
      if goesOn {
        SearchFindsPaths(grid, limit, goal, root, next, fuel - 1);
      }
    } else {
      SearchFindsNothing(grid, limit, goal, root, f, fuel);
    }
  }

  /** A search with an empty queue or no fuel left returns no path. */
  lemma SearchFindsNothing(grid: seq<seq<int>>, limit: int, goal: Pos, root: Node, f: Frontier, fuel: nat)
    requires |f.queue| == 0 || fuel == 0
    ensures Finds(grid, limit, goal, root, Search(grid, limit, goal, f, fuel))
  {
  }

  /** `path_find(start, goal, straight_limit)` (17.py:50-76). */
  function PathFind(grid: seq<seq<int>>, start: Pos, goal: Pos, limit: int, fuel: nat): Run<Option<seq<Node>>>
  {
    Search(grid, limit, goal, Frontier([Root(start, goal)], {}), fuel)
  }

  /** 17.py's answer (17.py:135-144): the heat lost on the path found from
      the top left to the bottom right with a straight limit of three. An
      empty grid has no first row. */
  function LeastHeatLoss(grid: seq<seq<int>>, fuel: nat): (r: Run<int>)
    ensures |grid| == 0 ==> r == Ended(Err(IndexError))
  {
    if |grid| == 0 then Ended(Err(IndexError))
    else
      match PathFind(grid, (0, 0), (Width(grid) - 1, |grid| - 1), 3, fuel)
      case Ended(Ok(path)) => Ended(PathCost(path))
      case Ended(Err(e)) => Ended(Err(e))
      case Unfinished => Unfinished
  }

  /** When the search ends with a path, the answer is the heat lost in the
      cells the path enters after the top left, and the path ends at the
      bottom right. */
  lemma LeastHeatLossIsPathCost(grid: seq<seq<int>>, fuel: nat)
    requires |grid| > 0 && Width(grid) > 0
    ensures var goal := (Width(grid) - 1, |grid| - 1);
      var found := PathFind(grid, (0, 0), goal, 3, fuel);
      found.Ended? && found.outcome.Ok? && found.outcome.value.Some? ==>
        var path := found.outcome.value.value;
        && IsPath(grid, 3, goal, Root((0, 0), goal), path)
        && path[|path| - 1].coord.pos == goal
        && (forall i :: 0 <= i < |path| ==> OnRow(grid, path[i].coord.pos))
        && LeastHeatLoss(grid, fuel) == Ended(Ok(Entered(grid, path)))
  {
    var goal := (Width(grid) - 1, |grid| - 1);
    var root := Root((0, 0), goal);
    SearchFindsPaths(grid, 3, goal, root, Frontier([root], {}), fuel);
    var found := PathFind(grid, (0, 0), goal, 3, fuel);
    if found.Ended? && found.outcome.Ok? && found.outcome.value.Some? {
      PathCostIsHeatLoss(grid, 3, goal, root, found.outcome.value.value);
    }
  }
}

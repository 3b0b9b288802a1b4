/**
 * Part two of the hiking trails (23p2.py): the same map and the same
 * start and end gaps, but the trails are first compressed into a graph
 * whose nodes are the start, the junctions and the end, and whose edges
 * carry the number of steps between them; duplicate edges keep the
 * longest; the longest simple path is then found by a depth-first search
 * that stops one node early, at the end's only neighbour, having started
 * with the weight of that last edge.
 */
module HikingGraph {
  import opened Outcomes
  import opened Dicts
  import opened Hiking

  // ---------------------------------------------------------------------
  // Nodes (23p2.py:20-30): identified by their position alone.

  /** An edge: the node at the other end and the steps to it. */
  type Edge = (Pos, nat)

  /** `Node`: a position and a list of edges. */
  datatype Node = Node(x: int, y: int, edges: seq<Edge>)

  /** `Node.__eq__`: the same coordinates, whatever the edges. */
  predicate NodeEq(a: Node, b: Node)
  {
    a.x == b.x && a.y == b.y
  }

  /** `Node.__hash__`: the hash of the coordinate pair; Python's tuple
      hash is a parameter. */
  function NodeHash(hash: (int, int) -> int, n: Node): int
  {
    hash(n.x, n.y)
  }

  /** Equality is equality of positions, so it is an equivalence that
      ignores the edges, and equal nodes hash alike. */
  lemma NodeIdentity(hash: (int, int) -> int, a: Node, b: Node, c: Node)
    ensures NodeEq(a, b) <==> Pos(a.x, a.y) == Pos(b.x, b.y)
    ensures NodeEq(a, Node(a.x, a.y, []))
    ensures NodeEq(a, b) ==> NodeEq(b, a)
    ensures NodeEq(a, b) && NodeEq(b, c) ==> NodeEq(a, c)
    ensures NodeEq(a, b) ==> NodeHash(hash, a) == NodeHash(hash, b)
  {
  }

  // ---------------------------------------------------------------------
  // The graph: a `defaultdict(list)` from positions to edge lists.

  type Graph = Dict<Pos, seq<Edge>>

  /** `nodes[a]` read without inserting: a missing key has no edges. */
  function Edges(nodes: Graph, a: Pos): seq<Edge>
  {
    nodes.Get(a, [])
  }

  /** How often `a` lists the edge to `b` of weight `w`. */
  function Count(nodes: Graph, a: Pos, b: Pos, w: nat): nat
  {
    multiset(Edges(nodes, a))[(b, w)]
  }

  /** Every edge is listed as often at both of its ends. */
  ghost predicate Paired(nodes: Graph)
  {
    forall a, b, w :: Count(nodes, a, b, w) == Count(nodes, b, a, w)
  }

  /** Every edge leads to a key of the graph. */
  ghost predicate Closed(nodes: Graph)
  {
    forall a, i :: 0 <= i < |Edges(nodes, a)| ==> Edges(nodes, a)[i].0 in nodes.entries
  }

  /** The two appends of 23p2.py:62-63 and 23p2.py:86-87: the edge goes on
      the list of `a`, then on the list of `b`, each list created when
      missing, `a` first. */
  function Connect(nodes: Graph, a: Pos, b: Pos, w: nat): (r: Graph)
    ensures nodes.Valid() ==> r.Valid()
    ensures r.entries.Keys == nodes.entries.Keys + {a, b}
    ensures forall c :: c != a && c != b ==> Edges(r, c) == Edges(nodes, c)
  {
    var first := nodes.Put(a, Edges(nodes, a) + [(b, w)]);
    first.Put(b, Edges(first, b) + [(a, w)])
  }

  /** Connecting adds one listing at each end, and nothing else. */
  lemma ConnectCount(nodes: Graph, a: Pos, b: Pos, w: nat, x: Pos, y: Pos, v: nat)
    ensures Count(Connect(nodes, a, b, w), x, y, v) ==
      Count(nodes, x, y, v)
      + (if x == a && y == b && v == w then 1 else 0)
      + (if x == b && y == a && v == w then 1 else 0)
  {
    var first := nodes.Put(a, Edges(nodes, a) + [(b, w)]);
    assert Edges(first, a) == Edges(nodes, a) + [(b, w)];
    assert multiset(Edges(first, a)) == multiset(Edges(nodes, a)) + multiset{(b, w)};
    assert multiset(Edges(Connect(nodes, a, b, w), b)) == multiset(Edges(first, b)) + multiset{(a, w)};
    if x != a && x != b {
      assert Edges(Connect(nodes, a, b, w), x) == Edges(nodes, x);
    } else if x == a && a != b {
      assert Edges(Connect(nodes, a, b, w), x) == Edges(first, a);
    } else if x == b && a != b {
      assert Edges(first, b) == Edges(nodes, b);
    }
  }

  /** Connecting keeps every edge listed at both ends. */
  lemma ConnectPaired(nodes: Graph, a: Pos, b: Pos, w: nat)
    requires Paired(nodes)
    ensures Paired(Connect(nodes, a, b, w))
  {
    forall x, y, v
      ensures Count(Connect(nodes, a, b, w), x, y, v) == Count(Connect(nodes, a, b, w), y, x, v)
    {
      ConnectCount(nodes, a, b, w, x, y, v);
      ConnectCount(nodes, a, b, w, y, x, v);
    }
  }

  /** An edge listed at both ends leads to a key. */
  lemma PairedClosed(nodes: Graph)
    requires Paired(nodes)
    ensures Closed(nodes)
  {
    forall a, i | 0 <= i < |Edges(nodes, a)|
      ensures Edges(nodes, a)[i].0 in nodes.entries
    {
      var e := Edges(nodes, a)[i];
      assert Count(nodes, a, e.0, e.1) > 0;
      assert Count(nodes, e.0, a, e.1) > 0;
    }
  }

  // ---------------------------------------------------------------------
  // The compression pass (23p2.py:51-95).

  /** A queue entry of the compression pass: where it is, the steps since
      the last node, the cells on its path, and that last node. As in
      23.py every entry behaves as if it had its own visited set. */
  datatype Seeker = Seeker(pos: Pos, dist: nat, visited: set<Pos>, prev: Pos)

  /** The queue, the graph and `outbound_count` while a cell's steps are
      tried. */
  datatype Branching = Branching(queue: seq<Seeker>, nodes: Graph, outbound: nat)

  /** No entry stands on a cell of its own path. */
  predicate Fresh(queue: seq<Seeker>)
  {
    forall i :: 0 <= i < |queue| ==> queue[i].pos !in queue[i].visited
  }

  /** Queueing the open step to `n` from seeker `s` (23p2.py:79-95): the
      first open step continues the trail; the second makes `s`'s cell a
      junction, so the first step's entry, the last one queued, is taken
      back and restarted from the junction, the trail so far becomes an
      edge, and the step starts a new trail; later steps start new trails
      too. Popping an empty queue raises IndexError. */
  function Divert(s: Seeker, n: Pos, st: Branching): (r: Result<Branching>)
    ensures r.Err? ==> r.error == IndexError
    ensures r.Ok? ==> |r.value.queue| == |st.queue| + 1
    ensures r.Ok? ==> r.value.queue[|r.value.queue| - 1].pos == n
    ensures r.Ok? && st.outbound != 1 ==> r.value.nodes == st.nodes
    ensures r.Ok? ==> r.value.outbound == if st.outbound < 2 then st.outbound + 1 else st.outbound
  {
    var seen := s.visited + {s.pos};
    if st.outbound == 1 then
      if |st.queue| == 0 then Err(IndexError)
      else
        var o := st.queue[|st.queue| - 1];
        var back := st.queue[..|st.queue| - 1] + [Seeker(o.pos, 1, o.visited, s.pos)];
        Ok(Branching(back + [Seeker(n, 1, seen, s.pos)], Connect(st.nodes, s.pos, s.prev, s.dist), 2))
    else if st.outbound == 0 then
      Ok(Branching(st.queue + [Seeker(n, s.dist + 1, seen, s.prev)], st.nodes, 1))
    else
      Ok(Branching(st.queue + [Seeker(n, 1, seen, s.pos)], st.nodes, st.outbound))
  }

  /** The inner loop of the compression pass (23p2.py:69-95) over the
      steps `dirs` the cell allows: steps off the map (measured by the
      first row's width), onto the path itself or into the forest are
      skipped; a row shorter than the first raises IndexError. */
  function Branch(grid: Grid, s: Seeker, dirs: seq<Dir>, st: Branching): (r: Result<Branching>)
    ensures r.Err? ==> r.error == IndexError
    ensures r.Ok? ==> r.value.outbound >= st.outbound
    decreases |dirs|
  {
    if |dirs| == 0 then Ok(st)
    else if |grid| == 0 then Err(IndexError)
    else
      var n := Pos(s.pos.x + dirs[0].dx, s.pos.y + dirs[0].dy);
      if n.x < 0 || n.x >= |grid[0]| || n.y < 0 || n.y >= |grid| || n in s.visited + {s.pos} then
        Branch(grid, s, dirs[1..], st)
      else if n.x >= |grid[n.y]| then Err(IndexError)
      else if grid[n.y][n.x] == '#' then Branch(grid, s, dirs[1..], st)
      else
        var next :- Divert(s, n, st);
        Branch(grid, s, dirs[1..], next)
  }

  /** One round of the outer loop of the compression pass
      (23p2.py:58-95) on a non-empty queue: the front entry at the end
      becomes an edge and stops; otherwise it must not be on its own
      path, and its cell's steps are queued. A negative position, which
      the pass never creates, reads as IndexError here where Python
      would wrap around. */
  function Round(grid: Grid, end: Pos, queue: seq<Seeker>, nodes: Graph): (r: Result<Branching>)
    requires |queue| > 0
    ensures r.Err? ==> r.error == AssertionError || r.error == IndexError || r.error == KeyError
    ensures r.Err? && r.error == AssertionError <==> queue[0].pos != end && queue[0].pos in queue[0].visited
  {
    var s := queue[0];
    if s.pos == end then Ok(Branching(queue[1..], Connect(nodes, s.pos, s.prev, s.dist), 0))
    else if s.pos in s.visited then Err(AssertionError)
    else if !InBounds(grid, s.pos) then Err(IndexError)
    else
      match NextDirections(grid[s.pos.y][s.pos.x])
      case None => Err(KeyError)
      case Some(dirs) => Branch(grid, s, dirs, Branching(queue[1..], nodes, 0))
  }

  /** The outer loop of the compression pass (23p2.py:57-95) under a
      bound on the entries handled. */
  function Compress(grid: Grid, end: Pos, queue: seq<Seeker>, nodes: Graph, fuel: nat): Run<Graph>
    decreases fuel
  {
    if |queue| == 0 then Ended(Ok(nodes))
    else if fuel == 0 then Unfinished
    else
      match Round(grid, end, queue, nodes)
      case Err(e) => Ended(Err(e))
      case Ok(st) => Compress(grid, end, st.queue, st.nodes, fuel - 1)
  }

  /** Queueing a step keeps the graph paired and no entry on its own path. */
  lemma DivertKeeps(s: Seeker, n: Pos, st: Branching)
    requires st.nodes.Valid() && Paired(st.nodes) && Fresh(st.queue)
    requires n !in s.visited + {s.pos}
    ensures Divert(s, n, st).Ok? ==>
      var r := Divert(s, n, st).value;
      r.nodes.Valid() && Paired(r.nodes) && Fresh(r.queue)
  {
    if st.outbound == 1 && |st.queue| > 0 {
      ConnectPaired(st.nodes, s.pos, s.prev, s.dist);
      var r := Divert(s, n, st).value;
      forall i | 0 <= i < |r.queue|
        ensures r.queue[i].pos !in r.queue[i].visited
      {
        if i < |st.queue| - 1 {
          assert r.queue[i] == st.queue[i];
        }
      }
    } else if st.outbound != 1 {
      var r := Divert(s, n, st).value;
      forall i | 0 <= i < |r.queue|
        ensures r.queue[i].pos !in r.queue[i].visited
      {
        if i < |st.queue| {
          assert r.queue[i] == st.queue[i];
        }
      }
    }
  }

  lemma {:induction false} BranchKeeps(grid: Grid, s: Seeker, dirs: seq<Dir>, st: Branching)
    requires st.nodes.Valid() && Paired(st.nodes) && Fresh(st.queue)
    ensures Branch(grid, s, dirs, st).Ok? ==>
      var r := Branch(grid, s, dirs, st).value;
      r.nodes.Valid() && Paired(r.nodes) && Fresh(r.queue)
    decreases |dirs|
  {
    if |dirs| > 0 && |grid| > 0 {
      var n := Pos(s.pos.x + dirs[0].dx, s.pos.y + dirs[0].dy);
      if n.x < 0 || n.x >= |grid[0]| || n.y < 0 || n.y >= |grid| || n in s.visited + {s.pos} {
        BranchKeeps(grid, s, dirs[1..], st);
      } else if n.x < |grid[n.y]| {
        if grid[n.y][n.x] == '#' {
          BranchKeeps(grid, s, dirs[1..], st);
        } else if Divert(s, n, st).Ok? {
          DivertKeeps(s, n, st);
          BranchKeeps(grid, s, dirs[1..], Divert(s, n, st).value);
        }
      }
    }
  }

  lemma FreshTail(queue: seq<Seeker>)
    requires |queue| > 0 && Fresh(queue)
    ensures Fresh(queue[1..])
  {
    forall i | 0 <= i < |queue| - 1
      ensures queue[1..][i].pos !in queue[1..][i].visited
    {
      assert queue[1..][i] == queue[i + 1];
    }
  }

  /** A round keeps the graph paired and no entry on its own path. */
  lemma RoundKeeps(grid: Grid, end: Pos, queue: seq<Seeker>, nodes: Graph)
    requires |queue| > 0 && nodes.Valid() && Paired(nodes) && Fresh(queue)
    ensures Round(grid, end, queue, nodes).Ok? ==>
      var r := Round(grid, end, queue, nodes).value;
      r.nodes.Valid() && Paired(r.nodes) && Fresh(r.queue)
  {
    var s := queue[0];
    FreshTail(queue);
    if s.pos == end {
      ConnectPaired(nodes, s.pos, s.prev, s.dist);
    } else if s.pos !in s.visited && InBounds(grid, s.pos) {
      var dirs := NextDirections(grid[s.pos.y][s.pos.x]);
      if dirs.Some? {
        BranchKeeps(grid, s, dirs.value, Branching(queue[1..], nodes, 0));
      }
    }
  }

  /** The compression pass lists every edge at both of its ends, and its
      assertion (23p2.py:66) never fires: from a paired graph and a queue
      with no entry on its own path it builds a paired graph, so every
      edge leads to a key. */
  lemma {:induction false} CompressPaired(grid: Grid, end: Pos, queue: seq<Seeker>, nodes: Graph, fuel: nat)
    requires nodes.Valid() && Paired(nodes) && Fresh(queue)
    ensures Compress(grid, end, queue, nodes, fuel) != Ended(Err(AssertionError))
    ensures Compress(grid, end, queue, nodes, fuel).Ended? && Compress(grid, end, queue, nodes, fuel).outcome.Ok? ==>
      var r := Compress(grid, end, queue, nodes, fuel).outcome.value;
      r.Valid() && Paired(r) && Closed(r)
    decreases fuel
  {
    if |queue| == 0 {
      PairedClosed(nodes);
    } else if fuel > 0 {
      RoundKeeps(grid, end, queue, nodes);
      if Round(grid, end, queue, nodes).Ok? {
        var r := Round(grid, end, queue, nodes).value;
        CompressPaired(grid, end, r.queue, r.nodes, fuel - 1);
      }
    }
  }

  // ---------------------------------------------------------------------
  // Merging duplicate edges (23p2.py:102-109).

  /** The nodes an edge list leads to. */
  function Neighbours(edges: seq<Edge>): set<Pos>
  {
    set e | e in edges :: e.0
  }

  /** No node is reached twice. */
  predicate DistinctNeighbours(edges: seq<Edge>)
  {
    forall i, j :: 0 <= i < j < |edges| ==> edges[i].0 != edges[j].0
  }

  /** `e` is at least as long as every edge of `edges` to the same node. */
  predicate Heaviest(edges: seq<Edge>, e: Edge)
  {
    forall f :: f in edges && f.0 == e.0 ==> f.1 <= e.1
  }

  /** `merged` keeps one edge per node of `edges`, the longest. */
  predicate Merges(merged: seq<Edge>, edges: seq<Edge>)
  {
    && DistinctNeighbours(merged)
    && Neighbours(merged) == Neighbours(edges)
    && (forall e :: e in merged ==> e in edges && Heaviest(edges, e))
  }

  /** Where the edge to `b` sits in `edges`, if anywhere. */
  function IndexOf(edges: seq<Edge>, b: Pos): (r: Option<nat>)
    ensures r.None? <==> b !in Neighbours(edges)
    ensures r.Some? ==> r.value < |edges| && edges[r.value].0 == b
  {
    if |edges| == 0 then None
    else if edges[0].0 == b then Some(0)
    else
      match IndexOf(edges[1..], b)
      case None =>
        assert Neighbours(edges) == {edges[0].0} + Neighbours(edges[1..]) by {
          assert edges == [edges[0]] + edges[1..];
        }
        None
      case Some(i) => Some(i + 1)
  }

  /** One step of the merge: a new node is added at the back, a known one
      keeps its place and the longer weight. */
  function Absorb(merged: seq<Edge>, e: Edge): seq<Edge>
  {
    match IndexOf(merged, e.0)
    case None => merged + [e]
    case Some(i) => merged[i := (e.0, if merged[i].1 >= e.1 then merged[i].1 else e.1)]
  }

  /** The merge of one edge list, in order of first appearance. */
  function MergeInto(merged: seq<Edge>, edges: seq<Edge>): seq<Edge>
    decreases |edges|
  {
    if |edges| == 0 then merged else MergeInto(Absorb(merged, edges[0]), edges[1..])
  }

  function Merge(edges: seq<Edge>): seq<Edge>
  {
    MergeInto([], edges)
  }

  lemma NeighboursAppend(a: seq<Edge>, e: Edge)
    ensures Neighbours(a + [e]) == Neighbours(a) + {e.0}
  {
    assert forall f :: f in a + [e] <==> f in a || f == e;
  }

  /** Absorbing an edge merges one more edge. */
  lemma AbsorbMerges(merged: seq<Edge>, seen: seq<Edge>, e: Edge)
    requires Merges(merged, seen)
    ensures Merges(Absorb(merged, e), seen + [e])
  {
    NeighboursAppend(seen, e);
    match IndexOf(merged, e.0)
    case None => AbsorbNew(merged, seen, e);
    case Some(i) => AbsorbKnown(merged, seen, e, i);
  }

  /** An edge to a new neighbour is added. */
  lemma AbsorbNew(merged: seq<Edge>, seen: seq<Edge>, e: Edge)
    requires Merges(merged, seen) && e.0 !in Neighbours(merged)
    ensures Merges(merged + [e], seen + [e])
  {
    var all := seen + [e];
    NeighboursAppend(seen, e);
    NeighboursAppend(merged, e);
    assert forall f :: f in all <==> f in seen || f == e;
    var r := merged + [e];
    forall f | f in r
      ensures f in all && Heaviest(all, f)
    {
      if f != e {
        assert f in merged;
      }
    }
  }

  /** Replacing the weight of an edge leaves the neighbours as they are. */
  lemma ReweighNeighbours(merged: seq<Edge>, i: nat, w: nat)
    requires i < |merged|
    ensures Neighbours(merged[i := (merged[i].0, w)]) == Neighbours(merged)
  {
    var r := merged[i := (merged[i].0, w)];
    forall b
      ensures b in Neighbours(r) <==> b in Neighbours(merged)
    {
      if b in Neighbours(r) {
        var f :| f in r && f.0 == b;
        var j :| 0 <= j < |r| && r[j] == f;
        assert merged[j] in merged;
      }
      if b in Neighbours(merged) {
        var f :| f in merged && f.0 == b;
        var j :| 0 <= j < |merged| && merged[j] == f;
        assert r[j] in r;
      }
    }
  }

  /** An edge to a known neighbour keeps the longer weight in place. */
  lemma AbsorbKnown(merged: seq<Edge>, seen: seq<Edge>, e: Edge, i: nat)
    requires Merges(merged, seen) && i < |merged| && merged[i].0 == e.0
    ensures var w := if merged[i].1 >= e.1 then merged[i].1 else e.1;
      Merges(merged[i := (e.0, w)], seen + [e])
  {
    var all := seen + [e];
    NeighboursAppend(seen, e);
    assert forall f :: f in all <==> f in seen || f == e;
    var w := if merged[i].1 >= e.1 then merged[i].1 else e.1;
    var r := merged[i := (e.0, w)];
    ReweighNeighbours(merged, i, w);
    assert merged[i] in merged;
    forall f | f in r
      ensures f in all && Heaviest(all, f)
    {
      var j :| 0 <= j < |r| && r[j] == f;
      if j != i {
        assert merged[j] in merged;
      }
    }
  }

  lemma {:induction false} MergeIntoMerges(merged: seq<Edge>, seen: seq<Edge>, edges: seq<Edge>)
    requires Merges(merged, seen)
    ensures Merges(MergeInto(merged, edges), seen + edges)
    decreases |edges|
  {
    if |edges| == 0 {
      assert seen + edges == seen;
    } else {
      AbsorbMerges(merged, seen, edges[0]);
      MergeIntoMerges(Absorb(merged, edges[0]), seen + [edges[0]], edges[1..]);
      assert seen + [edges[0]] + edges[1..] == seen + edges;
    }
  }

  /** The merge of 23p2.py:103-109: one edge per neighbour, the same
      neighbours, each edge kept being the longest of its duplicates. */
  lemma MergeMerges(edges: seq<Edge>)
    ensures Merges(Merge(edges), edges)
  {
    assert Merges([], []);
    MergeIntoMerges([], [], edges);
    assert [] + edges == edges;
  }

  /** So an edge survives the merge exactly when it is the longest to its
      neighbour. */
  lemma MergeKeeps(edges: seq<Edge>, e: Edge)
    ensures e in Merge(edges) <==> e in edges && Heaviest(edges, e)
  {
    MergeMerges(edges);
    var m := Merge(edges);
    if e in edges && Heaviest(edges, e) {
      assert e.0 in Neighbours(m);
      var f :| f in m && f.0 == e.0;
      assert f.1 <= e.1 && e.1 <= f.1;
    }
  }

  /** The merge pass over every node: the keys stay as they are, in their
      order, and each edge list is merged. */
  function MergeAll(nodes: Graph): (r: Graph)
    ensures r.keys == nodes.keys && r.entries.Keys == nodes.entries.Keys
    ensures nodes.Valid() ==> r.Valid()
    ensures forall a :: Edges(r, a) == Merge(Edges(nodes, a))
  {
    Dict(nodes.keys, map a | a in nodes.entries :: Merge(nodes.entries[a]))
  }

  /** Merging keeps every edge leading to a key. */
  lemma MergeAllClosed(nodes: Graph)
    requires Closed(nodes)
    ensures Closed(MergeAll(nodes))
  {
    var r := MergeAll(nodes);
    forall a, i | 0 <= i < |Edges(r, a)|
      ensures Edges(r, a)[i].0 in r.entries
    {
      MergeMerges(Edges(nodes, a));
      var e := Edges(r, a)[i];
      assert e in Edges(nodes, a);
    }
  }

  /** A paired graph, merged, lists each edge at both ends with the same
      weight: the longest of the trails between the two nodes. */
  lemma MergeAllSymmetric(nodes: Graph, a: Pos, b: Pos, w: nat)
    requires Paired(nodes)
    ensures (b, w) in Edges(MergeAll(nodes), a) <==> (a, w) in Edges(MergeAll(nodes), b)
  {
    var ea := Edges(nodes, a);
    var eb := Edges(nodes, b);
    forall v: nat
      ensures (b, v) in ea <==> (a, v) in eb
    {
      assert Count(nodes, a, b, v) == Count(nodes, b, a, v);
    }
    MergeKeeps(ea, (b, w));
    MergeKeeps(eb, (a, w));
    assert Heaviest(ea, (b, w)) <==> Heaviest(eb, (a, w)) by {
      assert forall f :: f in ea && f.0 == b <==> (f.0 == b && (a, f.1) in eb);
      assert forall f :: f in eb && f.0 == a <==> (f.0 == a && (b, f.1) in ea);
    }
  }

  // ---------------------------------------------------------------------
  // The search over the merged graph (23p2.py:121-146).

  /** `end, weight = nodes[end][0]`: the end's first neighbour and the
      edge to it; an end without edges raises IndexError. */
  function Penultimate(nodes: Graph, end: Pos): (r: Result<Edge>)
    ensures r.Err? <==> |Edges(nodes, end)| == 0
    ensures r.Err? ==> r.error == IndexError
    ensures r.Ok? ==> r.value in Edges(nodes, end)
  {
    if |Edges(nodes, end)| == 0 then Err(IndexError) else Ok(Edges(nodes, end)[0])
  }

  /** `bit_index` (23p2.py:125-127): each key's place in the key order. */
  function BitIndex(keys: seq<Pos>): (r: map<Pos, nat>)
    ensures r.Keys == set k | k in keys
    ensures forall k :: k in r ==> r[k] < |keys| && keys[r[k]] == k
  {
    if |keys| == 0 then map[]
    else
      var r := BitIndex(keys[..|keys| - 1]);
      assert keys == keys[..|keys| - 1] + [keys[|keys| - 1]];
      r[keys[|keys| - 1] := |keys| - 1]
  }

  /** Distinct nodes get distinct bits, and a graph's keys get their own
      places. */
  lemma BitIndexDistinct(nodes: Graph, a: Pos, b: Pos)
    requires nodes.Valid()
    ensures a in nodes.entries <==> a in BitIndex(nodes.keys)
    ensures a in BitIndex(nodes.keys) && b in BitIndex(nodes.keys) && a != b ==>
      BitIndex(nodes.keys)[a] != BitIndex(nodes.keys)[b]
  {
  }

  /** The keys of a graph whose edges lead to keys are numbered, so every
      edge leads to a numbered node. */
  lemma ClosedIndexed(nodes: Graph)
    requires nodes.Valid() && Closed(nodes)
    ensures Indexed(nodes, BitIndex(nodes.keys))
  {
    forall a, i | 0 <= i < |Edges(nodes, a)|
      ensures Edges(nodes, a)[i].0 in BitIndex(nodes.keys)
    {
      BitIndexDistinct(nodes, Edges(nodes, a)[i].0, a);
    }
  }

  /** A search entry: a node, the length so far, and the bits of the
      nodes on the path. The bit mask is modelled as the set of its bits:
      `visited & (1 << i)` tests membership of `i` and `|=` adds it. */
  datatype Frame = Frame(pos: Pos, dist: nat, visited: set<nat>)

  /** Every edge leads to a node with a bit. */
  ghost predicate Indexed(nodes: Graph, bits: map<Pos, nat>)
  {
    forall a, i :: 0 <= i < |Edges(nodes, a)| ==> Edges(nodes, a)[i].0 in bits
  }

  /** An entry the search can take without failing: its node has a bit
      that is not yet on its path. */
  predicate Open(bits: map<Pos, nat>, f: Frame)
  {
    f.pos in bits && bits[f.pos] !in f.visited
  }

  /** The inner loop of the search (23p2.py:142-145): every edge to a node
      not on the path `v` becomes an entry, in edge order; a node without
      a bit raises KeyError. */
  function Push(edges: seq<Edge>, bits: map<Pos, nat>, dist: nat, v: set<nat>): (r: Result<seq<Frame>>)
    ensures r.Err? <==> exists i :: 0 <= i < |edges| && edges[i].0 !in bits
    ensures r.Err? ==> r.error == KeyError
    ensures r.Ok? ==> forall i :: 0 <= i < |r.value| ==>
      Open(bits, r.value[i]) && r.value[i].visited == v
    ensures r.Ok? ==> forall i :: 0 <= i < |edges| ==>
      (bits[edges[i].0] !in v <==> Frame(edges[i].0, dist + edges[i].1, v) in r.value)
  {
    if |edges| == 0 then Ok([])
    else if edges[0].0 !in bits then Err(KeyError)
    else
      match Push(edges[1..], bits, dist, v)
      case Err(e) => Err(e)
      case Ok(rest) =>
        assert forall i :: 1 <= i < |edges| ==> edges[i] == edges[1..][i - 1];
        if bits[edges[0].0] in v then Ok(rest)
        else Ok([Frame(edges[0].0, dist + edges[0].1, v)] + rest)
  }

  /** The `while to_visit` loop of the search (23p2.py:132-145) under a
      bound on the entries handled: take the last entry, assert its node
      is not on its path, record its length at the penultimate node, and
      otherwise push its edges. */
  function Search(nodes: Graph, bits: map<Pos, nat>, pen: Pos, stack: seq<Frame>, total: nat, fuel: nat): Run<nat>
    decreases fuel
  {
    if |stack| == 0 then Ended(Ok(total))
    else if fuel == 0 then Unfinished
    else
      var f := stack[|stack| - 1];
      var rest := stack[..|stack| - 1];
      if f.pos !in bits then Ended(Err(KeyError))
      else if bits[f.pos] in f.visited then Ended(Err(AssertionError))
      else
        var v := f.visited + {bits[f.pos]};
        if f.pos == pen then Search(nodes, bits, pen, rest, if total >= f.dist then total else f.dist, fuel - 1)
        else
          match Push(Edges(nodes, f.pos), bits, f.dist, v)
          case Err(e) => Ended(Err(e))
          case Ok(next) => Search(nodes, bits, pen, rest + next, total, fuel - 1)
  }

  /** The search after compression (23p2.py:102-146): merge, find the
      penultimate node, number the keys, and search from the start. */
  function Solve(raw: Graph, start: Pos, end: Pos, fuel: nat): Run<nat>
  {
    var nodes := MergeAll(raw);
    match Penultimate(nodes, end)
    case Err(e) => Ended(Err(e))
    case Ok(last) => Search(nodes, BitIndex(nodes.keys), last.0, [Frame(start, last.1, {})], 0, fuel)
  }

  /** `Grid.longest_path(find_start(), find_end())` of 23p2.py as `main`
      runs it (23p2.py:161-167), one bound shared by both loops. */
  function LongestPathCompressed(grid: Grid, fuel: nat): Run<nat>
  {
    match FindStart(grid)
    case Err(e) => Ended(Err(e))
    case Ok(start) =>
      match FindEnd(grid)
      case Err(e) => Ended(Err(e))
      case Ok(end) =>
        match Compress(grid, end, [Seeker(start, 0, {}, start)], Empty(), fuel)
        case Unfinished => Unfinished
        case Ended(Err(e)) => Ended(Err(e))
        case Ended(Ok(raw)) => Solve(raw, start, end, fuel)
  }

  // ---------------------------------------------------------------------
  // The reference: the longest simple path to the penultimate node.

  function Max(a: nat, b: nat): nat
  {
    if a >= b then a else b
  }

  /** The longest length with which a simple path on from entry `f`
      reaches `pen`, 0 when none does. */
  function BestFrom(nodes: Graph, bits: map<Pos, nat>, pen: Pos, f: Frame): nat
    requires Indexed(nodes, bits) && Open(bits, f)
    decreases |bits.Values - f.visited|, 0
  {
    if f.pos == pen then f.dist
    else
      var v := f.visited + {bits[f.pos]};
      assert |bits.Values - v| < |bits.Values - f.visited| by {
        assert bits[f.pos] in bits.Values - f.visited;
        assert bits.Values - v == (bits.Values - f.visited) - {bits[f.pos]};
      }
      var next := Push(Edges(nodes, f.pos), bits, f.dist, v).value;
      BestAll(nodes, bits, pen, next, v)
  }

  /** The longest over sibling entries sharing the path `seen`. */
  function BestAll(nodes: Graph, bits: map<Pos, nat>, pen: Pos, fs: seq<Frame>, seen: set<nat>): nat
    requires Indexed(nodes, bits)
    requires forall i :: 0 <= i < |fs| ==> Open(bits, fs[i]) && fs[i].visited == seen
    decreases |bits.Values - seen|, 1, |fs|
  {
    if |fs| == 0 then 0
    else Max(BestFrom(nodes, bits, pen, fs[0]), BestAll(nodes, bits, pen, fs[1..], seen))
  }

  /** The longest over every entry of a stack. */
  function BestStack(nodes: Graph, bits: map<Pos, nat>, pen: Pos, fs: seq<Frame>): nat
    requires Indexed(nodes, bits)
    requires forall i :: 0 <= i < |fs| ==> Open(bits, fs[i])
  {
    if |fs| == 0 then 0
    else Max(BestFrom(nodes, bits, pen, fs[0]), BestStack(nodes, bits, pen, fs[1..]))
  }

  lemma {:induction false} AllIsStack(nodes: Graph, bits: map<Pos, nat>, pen: Pos, fs: seq<Frame>, seen: set<nat>)
    requires Indexed(nodes, bits)
    requires forall i :: 0 <= i < |fs| ==> Open(bits, fs[i]) && fs[i].visited == seen
    ensures BestAll(nodes, bits, pen, fs, seen) == BestStack(nodes, bits, pen, fs)
    decreases |fs|
  {
    if |fs| > 0 {
      AllIsStack(nodes, bits, pen, fs[1..], seen);
    }
  }

  lemma {:induction false} StackAppend(nodes: Graph, bits: map<Pos, nat>, pen: Pos, a: seq<Frame>, b: seq<Frame>)
    requires Indexed(nodes, bits)
    requires forall i :: 0 <= i < |a| ==> Open(bits, a[i])
    requires forall i :: 0 <= i < |b| ==> Open(bits, b[i])
    ensures BestStack(nodes, bits, pen, a + b) == Max(BestStack(nodes, bits, pen, a), BestStack(nodes, bits, pen, b))
    decreases |a|
  {
    if |a| > 0 {
      assert (a + b)[1..] == a[1..] + b;
      StackAppend(nodes, bits, pen, a[1..], b);
    } else {
      assert a + b == b;
    }
  }

  /** Replacing the last entry by its pushes, and recording it when it is
      at the penultimate node, leaves the combined answer unchanged. */
  lemma TopStep(nodes: Graph, bits: map<Pos, nat>, pen: Pos, stack: seq<Frame>, total: nat)
    requires Indexed(nodes, bits) && |stack| > 0
    requires forall i :: 0 <= i < |stack| ==> Open(bits, stack[i])
    ensures var f := stack[|stack| - 1];
      Open(bits, f) && Push(Edges(nodes, f.pos), bits, f.dist, f.visited + {bits[f.pos]}).Ok?
    ensures var f := stack[|stack| - 1];
      var rest := stack[..|stack| - 1];
      var v := f.visited + {bits[f.pos]};
      var next := Push(Edges(nodes, f.pos), bits, f.dist, v).value;
      && (forall i :: 0 <= i < |rest| ==> Open(bits, rest[i]))
      && (f.pos == pen ==>
            Max(Max(total, f.dist), BestStack(nodes, bits, pen, rest)) == Max(total, BestStack(nodes, bits, pen, stack)))
      && (f.pos != pen ==>
            && (forall i :: 0 <= i < |rest + next| ==> Open(bits, (rest + next)[i]))
            && Max(total, BestStack(nodes, bits, pen, rest + next)) == Max(total, BestStack(nodes, bits, pen, stack)))
  {
    var f := stack[|stack| - 1];
    var rest := stack[..|stack| - 1];
    var v := f.visited + {bits[f.pos]};
    var next := Push(Edges(nodes, f.pos), bits, f.dist, v).value;
    assert stack == rest + [f];
    StackAppend(nodes, bits, pen, rest, [f]);
    assert BestStack(nodes, bits, pen, [f]) == BestFrom(nodes, bits, pen, f);
    if f.pos != pen {
      StackAppend(nodes, bits, pen, rest, next);
      AllIsStack(nodes, bits, pen, next, v);
    }
  }

  /** The search computes the reference: over a graph whose edges all
      lead to numbered nodes, from a stack of entries that can be taken,
      when the loop ends it ends without an error and with the larger of
      the answer so far and the longest path on from any entry. The order
      in which the stack is worked does not matter. */
  lemma {:induction false} SearchIsBest(nodes: Graph, bits: map<Pos, nat>, pen: Pos, stack: seq<Frame>, total: nat, fuel: nat)
    requires Indexed(nodes, bits)
    requires forall i :: 0 <= i < |stack| ==> Open(bits, stack[i])
    requires Search(nodes, bits, pen, stack, total, fuel).Ended?
    ensures Search(nodes, bits, pen, stack, total, fuel) == Ended(Ok(Max(total, BestStack(nodes, bits, pen, stack))))
    decreases fuel
  {
    if |stack| > 0 {
      var f := stack[|stack| - 1];
      var rest := stack[..|stack| - 1];
      var v := f.visited + {bits[f.pos]};
      TopStep(nodes, bits, pen, stack, total);
      if f.pos == pen {
        SearchIsBest(nodes, bits, pen, rest, Max(total, f.dist), fuel - 1);
      } else {
        var next := Push(Edges(nodes, f.pos), bits, f.dist, v).value;
        SearchIsBest(nodes, bits, pen, rest + next, total, fuel - 1);
      }
    }
  }

  /** After a compression that ends, the search answers the longest path
      from the start to the penultimate node, seeded with the last edge's
      weight; an end without edges raises IndexError and a start that no
      edge touches raises KeyError. */
  lemma SolveIsBest(raw: Graph, start: Pos, end: Pos, fuel: nat)
    requires raw.Valid() && Closed(raw)
    requires Solve(raw, start, end, fuel).Ended?
    ensures Penultimate(MergeAll(raw), end).Err? ==> Solve(raw, start, end, fuel) == Ended(Err(IndexError))
    ensures Penultimate(MergeAll(raw), end).Ok? && start !in raw.entries ==>
      Solve(raw, start, end, fuel) == Ended(Err(KeyError))
    ensures Penultimate(MergeAll(raw), end).Ok? && start in raw.entries ==>
      var nodes := MergeAll(raw);
      var last := Penultimate(nodes, end).value;
      && Indexed(nodes, BitIndex(nodes.keys))
      && Solve(raw, start, end, fuel) == Ended(Ok(BestFrom(nodes, BitIndex(nodes.keys), last.0, Frame(start, last.1, {}))))
  {
    var nodes := MergeAll(raw);
    MergeAllClosed(raw);
    var bits := BitIndex(nodes.keys);
    ClosedIndexed(nodes);
    BitIndexDistinct(nodes, start, start);
    if Penultimate(nodes, end).Ok? {
      var last := Penultimate(nodes, end).value;
      assert Solve(raw, start, end, fuel) == Search(nodes, bits, last.0, [Frame(start, last.1, {})], 0, fuel);
      if start in raw.entries {
        SearchFromStart(nodes, last.0, last.1, start, fuel);
      }
    }
  }

  /** The search from the start alone answers the reference from it. */
  lemma SearchFromStart(nodes: Graph, pen: Pos, weight: nat, start: Pos, fuel: nat)
    requires Indexed(nodes, BitIndex(nodes.keys)) && start in BitIndex(nodes.keys)
    requires Search(nodes, BitIndex(nodes.keys), pen, [Frame(start, weight, {})], 0, fuel).Ended?
    ensures Search(nodes, BitIndex(nodes.keys), pen, [Frame(start, weight, {})], 0, fuel)
      == Ended(Ok(BestFrom(nodes, BitIndex(nodes.keys), pen, Frame(start, weight, {}))))
  {
    var bits := BitIndex(nodes.keys);
    var first := Frame(start, weight, {});
    SearchIsBest(nodes, bits, pen, [first], 0, fuel);
    assert BestStack(nodes, bits, pen, [first]) == Max(BestFrom(nodes, bits, pen, first), 0);
  }

  /** End to end: the compression pass builds a graph whose edges all lead
      to its keys, so once both loops end the answer is the longest path
      on the merged graph, as `SolveIsBest` states; the pass itself never
      asserts. */
  lemma LongestPathCompressedIsBest(grid: Grid, fuel: nat)
    requires FindStart(grid).Ok? && FindEnd(grid).Ok?
    ensures var start := FindStart(grid).value;
      var pass := Compress(grid, FindEnd(grid).value, [Seeker(start, 0, {}, start)], Empty(), fuel);
      && pass != Ended(Err(AssertionError))
      && (pass.Ended? && pass.outcome.Ok? ==>
            && pass.outcome.value.Valid() && Closed(pass.outcome.value)
            && LongestPathCompressed(grid, fuel) == Solve(pass.outcome.value, start, FindEnd(grid).value, fuel))
  {
    var start := FindStart(grid).value;
    var end := FindEnd(grid).value;
    var nodes: Graph := Empty();
    assert Paired(nodes) by {
      forall a, b, w
        ensures Count(nodes, a, b, w) == Count(nodes, b, a, w)
      {
        assert Edges(nodes, a) == [] && Edges(nodes, b) == [];
      }
    }
    CompressPaired(grid, end, [Seeker(start, 0, {}, start)], nodes, fuel);
  }
}

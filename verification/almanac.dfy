/**
 * If You Give A Seed A Fertilizer (5.py): each `source-to-target` map of
 * the almanac becomes a segment tree over its source ranges, ids move along
 * the maps from "seed" to "location", and the answer is the lowest location
 * reached from the listed seeds.
 */
module Almanac {
  import opened Outcomes
  import opened Seqs
  import opened Dicts
  import opened SegmentTrees

  /** One line of a map: `target_start source_start length` (5.py:21). */
  datatype Range = Range(targetStart: int, sourceStart: int, length: nat)

  /** A `source-to-target map:` block with one or more lines (5.py:22-23). */
  datatype NamedMap = NamedMap(source: string, target: string, ranges: seq<Range>)

  /** A leaf's user data, the tuple `(target_start, length, target)` (5.py:238). */
  datatype Mapping = Mapping(targetStart: int, length: nat, target: string)

  /** `AlmanacVertex`: an id of some kind (5.py:197-203). */
  datatype Vertex = Vertex(kind: string, id: int)

  /** Source kind, then target kind, to the segment tree of that map (5.py:231-241). */
  type Edges = Dict<string, Dict<string, Tree<Mapping>>>

  predicate EdgesValid(edges: Edges)
  {
    edges.Valid() && forall k :: k in edges.entries ==> edges.entries[k].Valid()
  }

  datatype Almanac = Almanac(seeds: seq<int>, edges: Edges)

  /** The segments handed to `SegmentTree` for one map (5.py:234-240). */
  function SegmentsOf(m: NamedMap): (r: seq<Segment<Mapping>>)
    ensures |r| == |m.ranges|
    ensures forall i :: 0 <= i < |r| ==> r[i] == Segment(m.ranges[i].sourceStart,
      m.ranges[i].sourceStart + m.ranges[i].length, Some(Mapping(m.ranges[i].targetStart, m.ranges[i].length, m.target)))
  {
    seq(|m.ranges|, i requires 0 <= i < |m.ranges| => Segment(m.ranges[i].sourceStart,
      m.ranges[i].sourceStart + m.ranges[i].length, Some(Mapping(m.ranges[i].targetStart, m.ranges[i].length, m.target))))
  }

  predicate PositiveLengths(m: NamedMap)
  {
    forall j :: 0 <= j < |m.ranges| ==> m.ranges[j].length > 0
  }

  /** A map's tree is built exactly when none of its ranges is empty; a map
      has at least one range, so a tree then exists. */
  lemma MapTreeOutcome(m: NamedMap)
    requires |m.ranges| > 0
    ensures Build(SegmentsOf(m)).Ok? <==> PositiveLengths(m)
    ensures Build(SegmentsOf(m)).Ok? ==> Build(SegmentsOf(m)).value.Some?
  {
    BuildOutcome(SegmentsOf(m));
  }

  /** The tree of a map whose ranges are all non-empty. */
  function TreeOf(m: NamedMap): (t: Tree<Mapping>)
    requires |m.ranges| > 0 && PositiveLengths(m)
    ensures Build(SegmentsOf(m)) == Ok(Some(t))
  {
    MapTreeOutcome(m);
    Build(SegmentsOf(m)).value.value
  }

  /** Every map has at least one range line, as the grammar demands (5.py:22). */
  predicate WellFormed(maps: seq<NamedMap>)
  {
    forall i :: 0 <= i < |maps| ==> |maps[i].ranges| > 0
  }

  /** `self.out_edges[m.source][m.target] = st` (5.py:241). */
  function Insert(edges: Edges, m: NamedMap): (r: Edges)
    requires |m.ranges| > 0 && PositiveLengths(m)
    requires EdgesValid(edges)
    ensures EdgesValid(r)
  {
    edges.Put(m.source, edges.Get(m.source, Empty()).Put(m.target, TreeOf(m)))
  }

  /** No map holds an empty range. */
  predicate AllPositive(maps: seq<NamedMap>)
  {
    forall i :: 0 <= i < |maps| ==> PositiveLengths(maps[i])
  }

  /** What the maps before the last one, and the last one, inherit. */
  lemma DropLast(maps: seq<NamedMap>)
    requires |maps| > 0 && WellFormed(maps)
    ensures WellFormed(maps[..|maps| - 1]) && |maps[|maps| - 1].ranges| > 0
    ensures AllPositive(maps) <==> AllPositive(maps[..|maps| - 1]) && PositiveLengths(maps[|maps| - 1])
  {
    var init := maps[..|maps| - 1];
    assert forall i :: 0 <= i < |init| ==> init[i] == maps[i];
  }

  /** The map table of `Almanac.__init__`, map by map (5.py:232-241): a later
      map with the same source and target replaces the earlier tree. */
  function BuildEdges(maps: seq<NamedMap>): (r: Result<Edges>)
    requires WellFormed(maps)
    ensures r.Ok? <==> AllPositive(maps)
    ensures r.Ok? ==> EdgesValid(r.value)
  {
    if |maps| == 0 then Ok(Empty())
    else
      var init := maps[..|maps| - 1];
      var m := maps[|maps| - 1];
      DropLast(maps);
      var edges :- BuildEdges(init);
      MapTreeOutcome(m);
      var _ :- Build(SegmentsOf(m));
      Ok(Insert(edges, m))
  }

  /** `Almanac(input_data)` on the parsed seeds and maps (5.py:228-241). */
  function BuildAlmanac(seeds: seq<int>, maps: seq<NamedMap>): (r: Result<Almanac>)
    requires WellFormed(maps)
    ensures r.Ok? <==> forall i :: 0 <= i < |maps| ==> PositiveLengths(maps[i])
    ensures r.Ok? ==> EdgesValid(r.value.edges) && r.value.seeds == seeds
  {
    var edges :- BuildEdges(maps);
    Ok(Almanac(seeds, edges))
  }

  /** Where one map sends `id` by its `map`-ranges: the first range
      containing it shifts it by `target_start - source_start`, and an id in
      no range stays. This is the mapping the puzzle describes. */
  function RangeMap(ranges: seq<Range>, id: int): int
  {
    if |ranges| == 0 then id
    else if ranges[0].sourceStart <= id < ranges[0].sourceStart + ranges[0].length then
      id - ranges[0].sourceStart + ranges[0].targetStart
    else RangeMap(ranges[1..], id)
  }

  predicate Covers(r: Range, id: int)
  {
    r.sourceStart <= id < r.sourceStart + r.length
  }

  lemma {:induction false} RangeMapCovered(ranges: seq<Range>, id: int, k: nat)
    requires k < |ranges| && Covers(ranges[k], id)
    requires forall j :: 0 <= j < k ==> !Covers(ranges[j], id)
    ensures RangeMap(ranges, id) == id - ranges[k].sourceStart + ranges[k].targetStart
  {
    if k > 0 {
      assert !Covers(ranges[0], id);
      RangeMapCovered(ranges[1..], id, k - 1);
    }
  }

  lemma {:induction false} RangeMapUncovered(ranges: seq<Range>, id: int)
    requires forall j :: 0 <= j < |ranges| ==> !Covers(ranges[j], id)
    ensures RangeMap(ranges, id) == id
  {
    if |ranges| > 0 {
      assert !Covers(ranges[0], id);
      RangeMapUncovered(ranges[1..], id);
    }
  }

  /** No two ranges of a map share a source id, as in the puzzle's input. */
  predicate Disjoint(ranges: seq<Range>)
  {
    forall i, j :: 0 <= i < |ranges| && 0 <= j < |ranges| && i != j ==>
      ranges[i].sourceStart + ranges[i].length <= ranges[j].sourceStart
      || ranges[j].sourceStart + ranges[j].length <= ranges[i].sourceStart
  }

  /** One target kind's successors of `v` (5.py:215-224): each leaf covering
      the id shifts it from the leaf's start, and without one the id stays. */
  function Targets(t: Tree<Mapping>, target: string, v: Vertex): (r: seq<Vertex>)
    ensures |r| >= 1
    ensures forall j :: 0 <= j < |r| ==> r[j].kind == target
  {
    var hits := QueryPoint(t, v.id);
    if |hits| == 0 then [Vertex(target, v.id)]
    else
      seq(|hits|, i requires 0 <= i < |hits| => Vertex(target, v.id - hits[i].start + hits[i].data.value.targetStart))
  }

  /** No endpoint of a disjoint map lies strictly inside one of its ranges. */
  lemma EndpointOutside(m: NamedMap, x: int, k: nat)
    requires Disjoint(m.ranges) && PositiveLengths(m) && k < |m.ranges|
    requires x in Bounds(SegmentsOf(m))
    ensures x <= m.ranges[k].sourceStart || x >= m.ranges[k].sourceStart + m.ranges[k].length
  {
    var segs := SegmentsOf(m);
    var j :| 0 <= j < |segs| && (x == segs[j].start || x == segs[j].end);
    if j != k {
      assert m.ranges[j].sourceStart + m.ranges[j].length <= m.ranges[k].sourceStart
        || m.ranges[k].sourceStart + m.ranges[k].length <= m.ranges[j].sourceStart;
    }
  }

  /** The data a leaf of a built tree holds came from a segment containing it. */
  lemma {:induction false} LastDataSource<D>(segments: seq<Segment<D>>, leaf: Segment<D>)
    ensures LastData(segments, leaf) == leaf.data ||
      exists k :: 0 <= k < |segments| && ContainedIn(leaf, segments[k].start, segments[k].end) && LastData(segments, leaf) == segments[k].data
    decreases |segments|
  {
    if |segments| > 0 {
      var init := segments[..|segments| - 1];
      LastDataSource(init, leaf);
      if LastData(segments, leaf) != leaf.data && !ContainedIn(leaf, segments[|segments| - 1].start, segments[|segments| - 1].end) {
        var k :| 0 <= k < |init| && ContainedIn(leaf, init[k].start, init[k].end) && LastData(init, leaf) == init[k].data;
        assert segments[k] == init[k];
      }
    }
  }

  /** A leaf contained in just one segment holds that segment's data. */
  lemma {:induction false} LastDataUnique<D>(segments: seq<Segment<D>>, leaf: Segment<D>, k: nat)
    requires k < |segments| && ContainedIn(leaf, segments[k].start, segments[k].end)
    requires forall j :: 0 <= j < |segments| && j != k ==> !ContainedIn(leaf, segments[j].start, segments[j].end)
    ensures LastData(segments, leaf) == segments[k].data
    decreases |segments|
  {
    if k < |segments| - 1 {
      var init := segments[..|segments| - 1];
      LastDataUnique(init, leaf, k);
    }
  }

  /** What the built tree of a map looks like: ordered leaves over its
      endpoints, each holding the data of the last range containing it. */
  lemma TreeShape(m: NamedMap)
    requires |m.ranges| > 0 && PositiveLengths(m)
    ensures var e := Endpoints(SegmentsOf(m));
      var t := TreeOf(m);
      && |e| >= 2 && t.Ordered() && SameBoundsAll(t.Leaves(), Pairs(e))
      && forall i :: 0 <= i < |t.Leaves()| ==> t.Leaves()[i].data == LastData(SegmentsOf(m), Pairs(e)[i])
  {
    BuildOutcome(SegmentsOf(m));
  }

  /** Range `k` of a disjoint map is exactly one leaf, between consecutive endpoints. */
  lemma RangeIsLeaf(m: NamedMap, k: nat) returns (i: nat)
    requires PositiveLengths(m) && Disjoint(m.ranges) && k < |m.ranges|
    ensures var e := Endpoints(SegmentsOf(m));
      i + 1 < |e| && e[i] == m.ranges[k].sourceStart && e[i + 1] == m.ranges[k].sourceStart + m.ranges[k].length
  {
    var segs := SegmentsOf(m);
    var e := Endpoints(segs);
    var s := m.ranges[k].sourceStart;
    var f := m.ranges[k].sourceStart + m.ranges[k].length;
    assert segs[k].start == s && segs[k].end == f;
    assert s in Bounds(segs) && f in Bounds(segs);
    i := IndexIn(e, s);
    var j := IndexIn(e, f);
    NextBetween(e, i, j);
    assert e[i + 1] in Bounds(segs);
    EndpointOutside(m, e[i + 1], k);
  }

  /** Where `x` sits in `e`. */
  lemma IndexIn(e: seq<int>, x: int) returns (i: nat)
    requires x in e
    ensures i < |e| && e[i] == x
  {
    i :| 0 <= i < |e| && e[i] == x;
  }

  /** In an increasing list, the successor of a smaller entry lies between it and the larger. */
  lemma NextBetween(e: seq<int>, i: nat, j: nat)
    requires Increasing(e) && i < |e| && j < |e| && e[i] < e[j]
    ensures i < j && e[i] < e[i + 1] <= e[j]
  {
  }

  /** An id inside range `k` hits one leaf: the range itself, with its data. */
  lemma HitCovered(m: NamedMap, id: int, k: nat)
    requires |m.ranges| > 0 && PositiveLengths(m) && Disjoint(m.ranges)
    requires k < |m.ranges| && Covers(m.ranges[k], id)
    ensures var hits := QueryPoint(TreeOf(m), id);
      && |hits| == 1 && hits[0].start == m.ranges[k].sourceStart
      && hits[0].data == Some(Mapping(m.ranges[k].targetStart, m.ranges[k].length, m.target))
  {
    var segs := SegmentsOf(m);
    var t := TreeOf(m);
    var e := Endpoints(segs);
    TreeShape(m);
    var i := RangeIsLeaf(m, k);
    var leaves := t.Leaves();
    var leaf: Segment<Mapping> := Pairs(e)[i];
    forall q | 0 <= q < |segs| && q != k
      ensures !ContainedIn(leaf, segs[q].start, segs[q].end)
    {
      assert segs[q].end <= segs[k].start || segs[k].end <= segs[q].start;
    }
    LastDataUnique(segs, leaf, k);
    assert SameBounds(leaves[i], leaf);
    assert leaves[i].data == segs[k].data;
    PointHit(t, e, id, i);
  }

  /** An id in no range hits no leaf: every leaf with data lies in a range. */
  lemma HitUncovered(m: NamedMap, id: int)
    requires |m.ranges| > 0 && PositiveLengths(m) && Disjoint(m.ranges)
    requires forall k :: 0 <= k < |m.ranges| ==> !Covers(m.ranges[k], id)
    ensures QueryPoint(TreeOf(m), id) == []
  {
    var segs := SegmentsOf(m);
    var t := TreeOf(m);
    var e := Endpoints(segs);
    TreeShape(m);
    if |QueryPoint(t, id)| > 0 {
      var j := PointHitAt(t, e, id);
      var leaf: Segment<Mapping> := Pairs(e)[j];
      assert QueryPoint(t, id)[0] == t.Leaves()[j];
      assert QueryOverlap(t, id, id + 1)[0].data.Some?;
      assert LastData(segs, leaf) != leaf.data;
      LastDataSource(segs, leaf);
      assert false;
    }
  }

  /** Partner of the tree lookup: for a map of disjoint ranges, the
      successors through its tree are exactly the one vertex the range
      mapping gives (5.py:211-224). */
  lemma TargetsFollowRanges(m: NamedMap, v: Vertex)
    requires |m.ranges| > 0 && PositiveLengths(m) && Disjoint(m.ranges)
    ensures Targets(TreeOf(m), m.target, v) == [Vertex(m.target, RangeMap(m.ranges, v.id))]
  {
    if k :| 0 <= k < |m.ranges| && Covers(m.ranges[k], v.id) {
      HitCovered(m, v.id, k);
      forall q | 0 <= q < k
        ensures !Covers(m.ranges[q], v.id)
      {
        assert m.ranges[q].sourceStart + m.ranges[q].length <= m.ranges[k].sourceStart
          || m.ranges[k].sourceStart + m.ranges[k].length <= m.ranges[q].sourceStart;
      }
      RangeMapCovered(m.ranges, v.id, k);
    } else {
      HitUncovered(m, v.id);
      RangeMapUncovered(m.ranges, v.id);
    }
  }

  /** The successors of `v` over the target kinds of its kind, in the
      order the maps were read (5.py:211-224); a kind that is no source
      has none. */
  function Adjacent(edges: Edges, v: Vertex): (r: seq<Vertex>)
    requires EdgesValid(edges)
  {
    var out := edges.Get(v.kind, Empty());
    AdjacentVia(out, out.keys, v)
  }

  function AdjacentVia(out: Dict<string, Tree<Mapping>>, kinds: seq<string>, v: Vertex): (r: seq<Vertex>)
    requires forall k :: k in kinds ==> k in out.entries
    ensures |r| >= |kinds|
  {
    if |kinds| == 0 then []
    else
      var target := kinds[|kinds| - 1];
      AdjacentVia(out, kinds[..|kinds| - 1], v) + Targets(out.entries[target], target, v)
  }

  /** The vertices `search` yields below `v` (5.py:243-257). The stack pops
      the last path pushed, so the successors are explored last first; the
      identity-based `visited` set never holds a popped vertex again, as
      every successor is a new object. `fuel` bounds the depth. */
  function Visit(edges: Edges, v: Vertex, fuel: nat): (r: seq<Vertex>)
    requires EdgesValid(edges)
    ensures forall j :: 0 <= j < |r| ==> r[j].kind == "location"
    decreases fuel, 0, 0
  {
    (if v.kind == "location" then [v] else [])
    + (if fuel == 0 then [] else VisitAll(edges, Reverse(Adjacent(edges, v)), fuel - 1))
  }

  function VisitAll(edges: Edges, vs: seq<Vertex>, fuel: nat): (r: seq<Vertex>)
    requires EdgesValid(edges)
    ensures forall j :: 0 <= j < |r| ==> r[j].kind == "location"
    decreases fuel, 1, |vs|
  {
    if |vs| == 0 then [] else Visit(edges, vs[0], fuel) + VisitAll(edges, vs[1..], fuel)
  }

  /** `search` from the seed vertices with `f` testing for "location"
      (5.py:263-266); the last source is explored first. */
  function Search(a: Almanac, fuel: nat): (r: seq<Vertex>)
    requires EdgesValid(a.edges)
    ensures forall j :: 0 <= j < |r| ==> r[j].kind == "location"
  {
    VisitAll(a.edges, Reverse(SeedVertices(a.seeds)), fuel)
  }

  function SeedVertices(seeds: seq<int>): (r: seq<Vertex>)
    ensures |r| == |seeds|
    ensures forall i :: 0 <= i < |seeds| ==> r[i] == Vertex("seed", seeds[i])
  {
    seq(|seeds|, i requires 0 <= i < |seeds| => Vertex("seed", seeds[i]))
  }

  /** `min(reachable_locations, key=...).id` (5.py:268); `min` of nothing is
      a ValueError. */
  function LowestId(vs: seq<Vertex>): (r: Result<int>)
    ensures r.Ok? <==> |vs| > 0
    ensures r.Ok? ==> exists i :: 0 <= i < |vs| && vs[i].id == r.value
    ensures r.Ok? ==> forall i :: 0 <= i < |vs| ==> r.value <= vs[i].id
  {
    if |vs| == 0 then Err(ValueError)
    else if |vs| == 1 then Ok(vs[0].id)
    else
      var rest := LowestId(vs[1..]).value;
      assert forall i :: 1 <= i < |vs| ==> vs[i] == vs[1..][i - 1];
      Ok(Min(vs[0].id, rest))
  }

  /** The whole of 5.py: build the almanac, search, take the lowest id. */
  function LowestLocation(seeds: seq<int>, maps: seq<NamedMap>): Result<int>
    requires WellFormed(maps)
  {
    var a :- BuildAlmanac(seeds, maps);
    LowestId(Search(a, |maps|))
  }

  /** The kind before map `i` (for `i == |maps|`, after the last map). */
  function KindAt(maps: seq<NamedMap>, i: nat): string
    requires 0 < |maps| && i <= |maps|
  {
    if i == 0 then maps[0].source else maps[i - 1].target
  }

  /** The maps of the puzzle's almanac: each has disjoint non-empty ranges. */
  predicate GoodMaps(maps: seq<NamedMap>)
  {
    forall i :: 0 <= i < |maps| ==> |maps[i].ranges| > 0 && PositiveLengths(maps[i]) && Disjoint(maps[i].ranges)
  }

  /** The kinds of the puzzle's almanac: maps chained from "seed" to
      "location" through distinct kinds. */
  predicate ChainKinds(maps: seq<NamedMap>)
  {
    && |maps| > 0
    && (forall i :: 0 < i < |maps| ==> maps[i].source == maps[i - 1].target)
    && KindAt(maps, 0) == "seed" && KindAt(maps, |maps|) == "location"
    && forall i, j :: 0 <= i < j <= |maps| ==> KindAt(maps, i) != KindAt(maps, j)
  }

  predicate IsChain(maps: seq<NamedMap>)
  {
    GoodMaps(maps) && ChainKinds(maps)
  }

  /** Reference answer for one seed: the id after every map from `i` on. */
  function Compose(maps: seq<NamedMap>, i: nat, id: int): int
    requires i <= |maps|
    decreases |maps| - i
  {
    if i == |maps| then id else Compose(maps, i + 1, RangeMap(maps[i].ranges, id))
  }

  /** After the first `n` maps of a chain, each of their source kinds maps
      to its one target kind, and no other kind of the chain is a source. */
  predicate TableAfter(maps: seq<NamedMap>, n: nat, edges: Edges)
    requires GoodMaps(maps) && ChainKinds(maps) && n <= |maps|
  {
    && (forall i :: 0 <= i <= |maps| ==> (KindAt(maps, i) in edges.entries <==> i < n))
    && (forall i :: 0 <= i < n ==>
          edges.entries[KindAt(maps, i)] == Dict([KindAt(maps, i + 1)], map[KindAt(maps, i + 1) := TreeOf(maps[i])]))
  }

  lemma TableStep(maps: seq<NamedMap>, n: nat, before: Edges, after: Edges)
    requires GoodMaps(maps) && ChainKinds(maps) && 0 < n <= |maps|
    requires TableAfter(maps, n - 1, before)
    requires after.entries ==
      before.entries[KindAt(maps, n - 1) := Dict([KindAt(maps, n)], map[KindAt(maps, n) := TreeOf(maps[n - 1])])]
    ensures TableAfter(maps, n, after)
  {
    forall i | 0 <= i <= |maps|
      ensures KindAt(maps, i) in after.entries <==> i < n
    {
      if i != n - 1 {
        assert KindAt(maps, i) != KindAt(maps, n - 1);
      }
    }
    forall i | 0 <= i < n - 1
      ensures after.entries[KindAt(maps, i)] == before.entries[KindAt(maps, i)]
    {
      assert KindAt(maps, i) != KindAt(maps, n - 1);
    }
  }

  /** The table after the first `n` maps of a chain. */
  lemma {:induction false} ChainEdges(maps: seq<NamedMap>, n: nat)
    requires IsChain(maps) && n <= |maps|
    ensures WellFormed(maps[..n]) && BuildEdges(maps[..n]).Ok?
    ensures TableAfter(maps, n, BuildEdges(maps[..n]).value)
    decreases n
  {
    assert WellFormed(maps[..n]) by {
      forall i | 0 <= i < n
        ensures |maps[..n][i].ranges| > 0
      {
        assert maps[..n][i] == maps[i];
      }
    }
    if n > 0 {
      ChainEdges(maps, n - 1);
      var prefix := maps[..n];
      assert prefix[..n - 1] == maps[..n - 1];
      var m := maps[n - 1];
      assert prefix[n - 1] == m;
      assert m.source == KindAt(maps, n - 1);
      assert m.target == KindAt(maps, n);
      var before := BuildEdges(maps[..n - 1]).value;
      assert BuildEdges(prefix) == Ok(Insert(before, m));
      InsertFresh(before, m);
      TableStep(maps, n, before, Insert(before, m));
    }
  }

  /** Inserting a map whose source kind has no out-edges yet gives that kind
      exactly the one target. */
  lemma InsertFresh(edges: Edges, m: NamedMap)
    requires |m.ranges| > 0 && PositiveLengths(m) && EdgesValid(edges)
    requires m.source !in edges.entries
    ensures Insert(edges, m).entries == edges.entries[m.source := Dict([m.target], map[m.target := TreeOf(m)])]
  {
    var e: Dict<string, Tree<Mapping>> := Empty();
    assert edges.Get(m.source, Empty()) == e;
    assert e.Put(m.target, TreeOf(m)) == Dict([m.target], map[m.target := TreeOf(m)]);
  }

  /** The table built from a chain. */
  lemma ChainTable(maps: seq<NamedMap>)
    requires IsChain(maps)
    ensures WellFormed(maps) && BuildEdges(maps).Ok?
    ensures TableAfter(maps, |maps|, BuildEdges(maps).value)
  {
    ChainEdges(maps, |maps|);
    assert maps[..|maps|] == maps;
  }

  /** In a chain, a kind's successors are the one vertex its map gives. */
  lemma AdjacentInChain(maps: seq<NamedMap>, i: nat, id: int)
    requires IsChain(maps) && i <= |maps|
    ensures WellFormed(maps) && BuildEdges(maps).Ok?
    ensures Adjacent(BuildEdges(maps).value, Vertex(KindAt(maps, i), id)) ==
      if i < |maps| then [Vertex(KindAt(maps, i + 1), RangeMap(maps[i].ranges, id))] else []
  {
    ChainTable(maps);
    var edges := BuildEdges(maps).value;
    var v := Vertex(KindAt(maps, i), id);
    if i < |maps| {
      var target := KindAt(maps, i + 1);
      var out := Dict([target], map[target := TreeOf(maps[i])]);
      assert edges.Get(v.kind, Empty()) == out;
      assert out.keys[..0] == [];
      assert AdjacentVia(out, out.keys, v) == AdjacentVia(out, [], v) + Targets(TreeOf(maps[i]), target, v);
      assert maps[i].target == target;
      TargetsFollowRanges(maps[i], v);
    } else {
      assert edges.Get(v.kind, Empty()) == Empty();
    }
  }

  /** In a chain, the search below a vertex of kind `i` yields the one
      location its id is carried to. */
  /** A vertex that is no location and has one successor yields what the successor yields. */
  lemma VisitOnward(edges: Edges, v: Vertex, w: Vertex, fuel: nat)
    requires EdgesValid(edges) && Adjacent(edges, v) == [w] && v.kind != "location" && fuel > 0
    ensures Visit(edges, v, fuel) == Visit(edges, w, fuel - 1)
  {
    assert Reverse([w]) == [w];
    assert [w][1..] == [];
    assert VisitAll(edges, [w], fuel - 1) == Visit(edges, w, fuel - 1) + VisitAll(edges, [], fuel - 1);
  }

  /** A location without successors yields itself. */
  lemma VisitLocation(edges: Edges, v: Vertex, fuel: nat)
    requires EdgesValid(edges) && Adjacent(edges, v) == [] && v.kind == "location"
    ensures Visit(edges, v, fuel) == [v]
  {
    assert Reverse<Vertex>([]) == [];
  }

  /** The successors of every vertex along a chain of kinds. */
  ghost predicate ChainAdjacency(edges: Edges, maps: seq<NamedMap>)
    requires EdgesValid(edges) && 0 < |maps|
  {
    forall j: nat, x: int {:trigger Adjacent(edges, Vertex(KindAt(maps, j), x))} :: j <= |maps| ==>
      Adjacent(edges, Vertex(KindAt(maps, j), x)) == (if j < |maps| then [Vertex(KindAt(maps, j + 1), RangeMap(maps[j].ranges, x))] else [])
  }

  /** Only the last kind of a chain is "location". */
  ghost predicate LocationLast(maps: seq<NamedMap>)
    requires 0 < |maps|
  {
    && KindAt(maps, |maps|) == "location"
    && forall j :: 0 <= j < |maps| ==> KindAt(maps, j) != "location"
  }

  lemma ChainLocationLast(maps: seq<NamedMap>)
    requires ChainKinds(maps)
    ensures LocationLast(maps)
  {
  }

  /** Along a path of vertices, each the one successor of the one before
      and ending at a location without successors, the search below a
      vertex yields the path's end. */
  lemma {:induction false} VisitAlong(edges: Edges, kinds: seq<string>, ids: seq<int>, i: nat, fuel: nat)
    requires EdgesValid(edges) && |kinds| == |ids| && i < |kinds| && fuel >= |kinds| - 1 - i
    requires forall j :: 0 <= j < |kinds| - 1 ==>
      Adjacent(edges, Vertex(kinds[j], ids[j])) == [Vertex(kinds[j + 1], ids[j + 1])] && kinds[j] != "location"
    requires Adjacent(edges, Vertex(kinds[|kinds| - 1], ids[|kinds| - 1])) == [] && kinds[|kinds| - 1] == "location"
    ensures Visit(edges, Vertex(kinds[i], ids[i]), fuel) == [Vertex("location", ids[|kinds| - 1])]
    decreases |kinds| - i
  {
    if i < |kinds| - 1 {
      VisitAlong(edges, kinds, ids, i + 1, fuel - 1);
      VisitOnward(edges, Vertex(kinds[i], ids[i]), Vertex(kinds[i + 1], ids[i + 1]), fuel);
    } else {
      VisitLocation(edges, Vertex(kinds[i], ids[i]), fuel);
    }
  }

  /** The id `x` after the first `j` maps. */
  function Carried(maps: seq<NamedMap>, j: nat, x: int): int
    requires j <= |maps|
  {
    if j == 0 then x else RangeMap(maps[j - 1].ranges, Carried(maps, j - 1, x))
  }

  /** Carrying through the first `j` maps, then the rest, is carrying
      through all. */
  lemma {:induction false} ComposeCarried(maps: seq<NamedMap>, j: nat, x: int)
    requires j <= |maps|
    ensures Compose(maps, j, Carried(maps, j, x)) == Compose(maps, 0, x)
  {
    if j > 0 {
      ComposeCarried(maps, j - 1, x);
    }
  }

  function Kinds(maps: seq<NamedMap>): (r: seq<string>)
    requires 0 < |maps|
    ensures |r| == |maps| + 1 && forall j :: 0 <= j <= |maps| ==> r[j] == KindAt(maps, j)
  {
    seq(|maps| + 1, j requires 0 <= j <= |maps| => KindAt(maps, j))
  }

  function Ids(maps: seq<NamedMap>, x: int): (r: seq<int>)
    ensures |r| == |maps| + 1 && forall j :: 0 <= j <= |maps| ==> r[j] == Carried(maps, j, x)
  {
    seq(|maps| + 1, j requires 0 <= j <= |maps| => Carried(maps, j, x))
  }

  /** Along a chain, a seed's kinds and ids form such a path. */
  lemma ChainSteps(edges: Edges, maps: seq<NamedMap>, x: int, kinds: seq<string>, ids: seq<int>)
    requires EdgesValid(edges) && 0 < |maps| && LocationLast(maps) && ChainAdjacency(edges, maps)
    requires kinds == Kinds(maps) && ids == Ids(maps, x)
    ensures forall j :: 0 <= j < |kinds| - 1 ==>
      Adjacent(edges, Vertex(kinds[j], ids[j])) == [Vertex(kinds[j + 1], ids[j + 1])] && kinds[j] != "location"
    ensures Adjacent(edges, Vertex(kinds[|kinds| - 1], ids[|kinds| - 1])) == [] && kinds[|kinds| - 1] == "location"
  {
    forall j | 0 <= j < |kinds| - 1
      ensures Adjacent(edges, Vertex(kinds[j], ids[j])) == [Vertex(kinds[j + 1], ids[j + 1])]
    {
      assert Adjacent(edges, Vertex(KindAt(maps, j), ids[j])) ==
        [Vertex(KindAt(maps, j + 1), RangeMap(maps[j].ranges, ids[j]))];
    }
    assert Adjacent(edges, Vertex(KindAt(maps, |maps|), ids[|maps|])) == [];
  }

  lemma ChainHasAdjacency(maps: seq<NamedMap>)
    requires IsChain(maps)
    ensures WellFormed(maps) && BuildEdges(maps).Ok?
    ensures ChainAdjacency(BuildEdges(maps).value, maps)
  {
    ChainTable(maps);
    forall j: nat, x: int | j <= |maps|
      ensures Adjacent(BuildEdges(maps).value, Vertex(KindAt(maps, j), x)) ==
        if j < |maps| then [Vertex(KindAt(maps, j + 1), RangeMap(maps[j].ranges, x))] else []
    {
      AdjacentInChain(maps, j, x);
    }
  }

  /** Every seed vertex yields the one location its id is carried to. */
  ghost predicate SeedsReach(edges: Edges, maps: seq<NamedMap>, fuel: nat)
    requires EdgesValid(edges)
  {
    forall x: int {:trigger Visit(edges, Vertex("seed", x), fuel)} ::
      0 < |maps| ==> Visit(edges, Vertex("seed", x), fuel) == [Vertex("location", Compose(maps, 0, x))]
  }

  /** `VisitAll` of a non-empty list, unfolded once. */
  lemma VisitAllHead(edges: Edges, vs: seq<Vertex>, fuel: nat)
    requires EdgesValid(edges) && |vs| > 0
    ensures VisitAll(edges, vs, fuel) == Visit(edges, vs[0], fuel) + VisitAll(edges, vs[1..], fuel)
  {
  }

  lemma {:induction false} VisitSeeds(edges: Edges, maps: seq<NamedMap>, seeds: seq<int>, fuel: nat)
    requires EdgesValid(edges) && 0 < |maps| && SeedsReach(edges, maps, fuel)
    ensures var r := VisitAll(edges, SeedVertices(seeds), fuel);
      && |r| == |seeds|
      && forall i :: 0 <= i < |seeds| ==> r[i] == Vertex("location", Compose(maps, 0, seeds[i]))
    decreases |seeds|
  {
    if |seeds| > 0 {
      var vs := SeedVertices(seeds);
      var x := seeds[0];
      assert vs[0] == Vertex("seed", x);
      var head := Visit(edges, Vertex("seed", x), fuel);
      assert head == [Vertex("location", Compose(maps, 0, x))];
      VisitSeeds(edges, maps, seeds[1..], fuel);
      assert vs[1..] == SeedVertices(seeds[1..]);
      VisitAllHead(edges, vs, fuel);
      var rest := VisitAll(edges, SeedVertices(seeds[1..]), fuel);
      var r := VisitAll(edges, vs, fuel);
      assert r == head + rest;
      forall i | 0 < i < |seeds|
        ensures r[i] == Vertex("location", Compose(maps, 0, seeds[i]))
      {
        assert r[i] == rest[i - 1];
        assert seeds[1..][i - 1] == seeds[i];
      }
    }
  }

  /** In a chain, the search below a seed yields the one location its id
      is carried to. */
  lemma SeedReaches(edges: Edges, maps: seq<NamedMap>, x: int)
    requires EdgesValid(edges) && 0 < |maps| && LocationLast(maps) && ChainAdjacency(edges, maps)
    ensures Visit(edges, Vertex(KindAt(maps, 0), x), |maps|) == [Vertex("location", Compose(maps, 0, x))]
  {
    var kinds, ids := Kinds(maps), Ids(maps, x);
    ChainSteps(edges, maps, x, kinds, ids);
    VisitAlong(edges, kinds, ids, 0, |maps|);
    ComposeCarried(maps, |maps|, x);
  }

  lemma ChainSeedsReach(maps: seq<NamedMap>)
    requires IsChain(maps)
    ensures WellFormed(maps) && BuildEdges(maps).Ok?
    ensures SeedsReach(BuildEdges(maps).value, maps, |maps|)
  {
    ChainHasAdjacency(maps);
    ChainLocationLast(maps);
    var edges := BuildEdges(maps).value;
    forall x: int
      ensures Visit(edges, Vertex("seed", x), |maps|) == [Vertex("location", Compose(maps, 0, x))]
    {
      SeedReaches(edges, maps, x);
    }
  }

  lemma ReverseSeeds(seeds: seq<int>)
    ensures Reverse(SeedVertices(seeds)) == SeedVertices(Reverse(seeds))
  {
  }

  /** In a chain, the search from the seeds finds, in reverse seed order,
      the location each seed is carried to (5.py:243-257, 263-266). */
  lemma SearchChain(seeds: seq<int>, maps: seq<NamedMap>)
    requires IsChain(maps)
    ensures WellFormed(maps) && BuildAlmanac(seeds, maps).Ok?
    ensures var r := Search(BuildAlmanac(seeds, maps).value, |maps|);
      && |r| == |seeds|
      && forall i :: 0 <= i < |seeds| ==> r[|seeds| - 1 - i] == Vertex("location", Compose(maps, 0, seeds[i]))
  {
    ChainSeedsReach(maps);
    var edges := BuildEdges(maps).value;
    var rev := Reverse(seeds);
    VisitSeeds(edges, maps, rev, |maps|);
    ReverseSeeds(seeds);
    var a := BuildAlmanac(seeds, maps).value;
    assert a.edges == edges && a.seeds == seeds;
    var r := Search(a, |maps|);
    assert r == VisitAll(edges, SeedVertices(rev), |maps|);
    forall i | 0 <= i < |seeds|
      ensures r[|seeds| - 1 - i] == Vertex("location", Compose(maps, 0, seeds[i]))
    {
      assert rev[|seeds| - 1 - i] == seeds[i];
    }
  }

  /** End to end, for the puzzle's kind of almanac: the answer is the lowest
      location any seed is carried to by the range maps, and a ValueError
      without seeds (5.py:259-268). */
  lemma LowestLocationIsLowestComposed(seeds: seq<int>, maps: seq<NamedMap>)
    requires IsChain(maps)
    ensures WellFormed(maps)
    ensures LowestLocation(seeds, maps).Ok? <==> |seeds| > 0
    ensures LowestLocation(seeds, maps).Ok? ==>
      exists i :: 0 <= i < |seeds| && LowestLocation(seeds, maps).value == Compose(maps, 0, seeds[i])
    ensures LowestLocation(seeds, maps).Ok? ==>
      forall i :: 0 <= i < |seeds| ==> LowestLocation(seeds, maps).value <= Compose(maps, 0, seeds[i])
  {
    SearchChain(seeds, maps);
    var r := Search(BuildAlmanac(seeds, maps).value, |maps|);
    assert LowestLocation(seeds, maps) == LowestId(r);
    LowestOfReversed(seeds, maps, r);
  }

  /** The lowest id among the vertices the search reaches, seed by seed in
      reverse, is the lowest composed location. */
  lemma LowestOfReversed(seeds: seq<int>, maps: seq<NamedMap>, r: seq<Vertex>)
    requires |r| == |seeds|
    requires forall i :: 0 <= i < |seeds| ==> r[|seeds| - 1 - i] == Vertex("location", Compose(maps, 0, seeds[i]))
    ensures LowestId(r).Ok? ==>
      exists i :: 0 <= i < |seeds| && LowestId(r).value == Compose(maps, 0, seeds[i])
    ensures LowestId(r).Ok? ==>
      forall i :: 0 <= i < |seeds| ==> LowestId(r).value <= Compose(maps, 0, seeds[i])
  {
    if |seeds| > 0 {
      var low := LowestId(r).value;
      var j :| 0 <= j < |r| && r[j].id == low;
      var i := |seeds| - 1 - j;
      assert r[j] == r[|seeds| - 1 - i];
      assert low == Compose(maps, 0, seeds[i]);
      forall k | 0 <= k < |seeds|
        ensures low <= Compose(maps, 0, seeds[k])
      {
        assert r[|seeds| - 1 - k].id == Compose(maps, 0, seeds[k]);
      }
    }
  }
}

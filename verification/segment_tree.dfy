/**
 * The segment tree of 5.py: a binary tree over the sorted, de-duplicated
 * endpoints of a list of half-open segments, whose leaves are the intervals
 * between consecutive endpoints and carry the user data of the segments that
 * contain them.
 */
module SegmentTrees {
  import opened Outcomes

  /** A half-open interval `[start, end)` with optional user data (5.py:27-37). */
  datatype Segment<D> = Segment(start: int, end: int, data: Option<D>)

  /** `Segment.__eq__`: segments compare by their bounds only (5.py:44-48). */
  predicate SameBounds<D>(a: Segment<D>, b: Segment<D>)
  {
    a.start == b.start && a.end == b.end
  }

  /** `[a.start, a.end)` meets `[start, end)`. */
  predicate Overlaps<D>(a: Segment<D>, start: int, end: int)
  {
    a.start < end && a.end > start
  }

  /** `[a.start, a.end)` lies within `[start, end)`. */
  predicate ContainedIn<D>(a: Segment<D>, start: int, end: int)
  {
    a.start >= start && a.end <= end
  }

  /** `SegmentLeaf` and `SegmentNode`; a node spans `[left.start, right.end)`
      (5.py:62-92). */
  datatype Tree<D> = Leaf(seg: Segment<D>) | Node(left: Tree<D>, right: Tree<D>)
  {
    function Start(): int
    {
      if Leaf? then seg.start else left.Start()
    }

    function End(): int
    {
      if Leaf? then seg.end else right.End()
    }

    /** The leaves, left to right. */
    function Leaves(): (r: seq<Segment<D>>)
      ensures |r| >= 1
    {
      if Leaf? then [seg] else left.Leaves() + right.Leaves()
    }

    /** Non-empty leaves, and each left subtree ends before its right sibling starts. */
    predicate Ordered()
    {
      if Leaf? then seg.start < seg.end
      else left.Ordered() && right.Ordered() && left.End() <= right.Start()
    }
  }

  /** An ordered tree spans all its leaves, and every leaf is non-empty. */
  lemma {:induction false} Hull<D>(t: Tree<D>)
    requires t.Ordered()
    ensures t.Start() < t.End()
    ensures forall i :: 0 <= i < |t.Leaves()| ==>
      t.Start() <= t.Leaves()[i].start < t.Leaves()[i].end <= t.End()
  {
    match t
    case Leaf(_) =>
    case Node(left, right) =>
      Hull(left);
      Hull(right);
      var leaves := t.Leaves();
      forall i | 0 <= i < |leaves|
        ensures t.Start() <= leaves[i].start < leaves[i].end <= t.End()
      {
        if i < |left.Leaves()| {
          assert leaves[i] == left.Leaves()[i];
        } else {
          assert leaves[i] == right.Leaves()[i - |left.Leaves()|];
        }
      }
  }

  predicate Increasing(e: seq<int>)
  {
    forall i, j :: 0 <= i < j < |e| ==> e[i] < e[j]
  }

  /** The leaves over `e`: one segment per pair of consecutive endpoints. */
  function Pairs<D>(e: seq<int>): (r: seq<Segment<D>>)
    requires |e| >= 1
    ensures |r| == |e| - 1
    ensures forall i :: 0 <= i < |r| ==> r[i] == Segment(e[i], e[i + 1], None)
  {
    seq(|e| - 1, i requires 0 <= i < |e| - 1 => Segment(e[i], e[i + 1], None))
  }

  /** `SegmentTree._construct` for two or more endpoints: the halves share
      the middle endpoint, so the leaves are exactly the consecutive pairs
      (5.py:160-177). */
  function ConstructTree<D>(e: seq<int>): (t: Tree<D>)
    requires |e| >= 2
    ensures t.Start() == e[0] && t.End() == e[|e| - 1]
    decreases |e|
  {
    if |e| == 2 then Leaf(Segment(e[0], e[1], None))
    else
      var mid := |e| / 2;
      Node(ConstructTree(e[..mid + 1]), ConstructTree(e[mid..]))
  }

  /** The constructed tree's leaves are the consecutive endpoint pairs. */
  lemma {:induction false} ConstructLeaves<D>(e: seq<int>)
    requires |e| >= 2
    ensures ConstructTree<D>(e).Leaves() == Pairs(e)
    decreases |e|
  {
    if |e| > 2 {
      var mid := |e| / 2;
      var left: Tree<D> := ConstructTree(e[..mid + 1]);
      var right: Tree<D> := ConstructTree(e[mid..]);
      assert ConstructTree<D>(e) == Node(left, right);
      ConstructLeaves<D>(e[..mid + 1]);
      ConstructLeaves<D>(e[mid..]);
      PairsSplit<D>(e, mid);
      assert Node(left, right).Leaves() == left.Leaves() + right.Leaves();
    } else {
      assert Pairs<D>(e)[0] == Segment(e[0], e[1], None);
    }
  }

  /** Over increasing endpoints the constructed tree is ordered. */
  lemma {:induction false} ConstructOrdered<D>(e: seq<int>)
    requires |e| >= 2 && Increasing(e)
    ensures ConstructTree<D>(e).Ordered()
    decreases |e|
  {
    if |e| > 2 {
      var mid := |e| / 2;
      IncreasingHalves(e, mid);
      ConstructOrdered<D>(e[..mid + 1]);
      ConstructOrdered<D>(e[mid..]);
    }
  }

  /** The two halves `ConstructTree` recurses on are increasing and meet
      at the middle endpoint. */
  lemma IncreasingHalves(e: seq<int>, mid: nat)
    requires 0 < mid < |e| - 1 && Increasing(e)
    ensures Increasing(e[..mid + 1]) && Increasing(e[mid..])
    ensures e[..mid + 1][mid] == e[mid..][0]
  {
  }

  lemma PairsSplit<D>(e: seq<int>, mid: nat)
    requires 0 < mid < |e| - 1
    ensures Pairs<D>(e[..mid + 1]) + Pairs<D>(e[mid..]) == Pairs<D>(e)
  {
    var a: seq<Segment<D>> := Pairs(e[..mid + 1]);
    var b: seq<Segment<D>> := Pairs(e[mid..]);
    var p: seq<Segment<D>> := Pairs(e);
    forall i | 0 <= i < |p|
      ensures (a + b)[i] == p[i]
    {
      if i < mid {
        assert (a + b)[i] == a[i];
      } else {
        assert (a + b)[i] == b[i - mid];
      }
    }
  }

  /** `_construct` on any endpoint list: nothing for fewer than two. */
  function Construct<D>(e: seq<int>): (r: Option<Tree<D>>)
    ensures r.None? <==> |e| <= 1
    ensures r.Some? ==> r.value.Leaves() == Pairs(e)
    ensures r.Some? && Increasing(e) ==> r.value.Ordered()
  {
    if |e| <= 1 then None
    else
      ConstructLeaves<D>(e);
      assert Increasing(e) ==> ConstructTree<D>(e).Ordered() by {
        if Increasing(e) {
          ConstructOrdered<D>(e);
        }
      }
      Some(ConstructTree(e))
  }

  /** The leaves that overlap `[start, end)` and carry data. */
  function Overlapping<D>(leaves: seq<Segment<D>>, start: int, end: int): seq<Segment<D>>
  {
    if |leaves| == 0 then []
    else
      var last := leaves[|leaves| - 1];
      Overlapping(leaves[..|leaves| - 1], start, end)
      + (if Overlaps(last, start, end) && last.data.Some? then [last] else [])
  }

  /** The leaves inside `[start, end)` that carry data, or all of them with `allowNone`. */
  function Contained<D>(leaves: seq<Segment<D>>, start: int, end: int, allowNone: bool): seq<Segment<D>>
  {
    if |leaves| == 0 then []
    else
      var last := leaves[|leaves| - 1];
      Contained(leaves[..|leaves| - 1], start, end, allowNone)
      + (if ContainedIn(last, start, end) && (allowNone || last.data.Some?) then [last] else [])
  }

  lemma {:induction false} OverlappingAppend<D>(a: seq<Segment<D>>, b: seq<Segment<D>>, start: int, end: int)
    ensures Overlapping(a + b, start, end) == Overlapping(a, start, end) + Overlapping(b, start, end)
    decreases |b|
  {
    if |b| == 0 {
      assert a + b == a;
    } else {
      assert (a + b)[..|a + b| - 1] == a + b[..|b| - 1];
      OverlappingAppend(a, b[..|b| - 1], start, end);
    }
  }

  lemma {:induction false} ContainedAppend<D>(a: seq<Segment<D>>, b: seq<Segment<D>>, start: int, end: int, allowNone: bool)
    ensures Contained(a + b, start, end, allowNone) == Contained(a, start, end, allowNone) + Contained(b, start, end, allowNone)
    decreases |b|
  {
    if |b| == 0 {
      assert a + b == a;
    } else {
      assert (a + b)[..|a + b| - 1] == a + b[..|b| - 1];
      ContainedAppend(a, b[..|b| - 1], start, end, allowNone);
    }
  }

  /** The filters keep exactly the leaves that pass their test. */
  lemma {:induction false} OverlappingMembers<D>(leaves: seq<Segment<D>>, start: int, end: int)
    ensures var r := Overlapping(leaves, start, end);
      && |r| <= |leaves|
      && (forall j :: 0 <= j < |r| ==> Overlaps(r[j], start, end) && r[j].data.Some? && r[j] in leaves)
      && (|r| > 0 <==> exists i :: 0 <= i < |leaves| && Overlaps(leaves[i], start, end) && leaves[i].data.Some?)
    decreases |leaves|
  {
    if |leaves| > 0 {
      var init := leaves[..|leaves| - 1];
      OverlappingMembers(init, start, end);
      var r := Overlapping(leaves, start, end);
      forall j | 0 <= j < |r|
        ensures r[j] in leaves
      {
        if j < |Overlapping(init, start, end)| {
          assert r[j] in init;
        }
      }
      if exists i :: 0 <= i < |leaves| && Overlaps(leaves[i], start, end) && leaves[i].data.Some? {
        var i :| 0 <= i < |leaves| && Overlaps(leaves[i], start, end) && leaves[i].data.Some?;
        if i < |leaves| - 1 {
          assert init[i] == leaves[i];
        }
      }
      if |Overlapping(init, start, end)| > 0 {
        var i :| 0 <= i < |init| && Overlaps(init[i], start, end) && init[i].data.Some?;
        assert leaves[i] == init[i];
      }
    }
  }

  lemma {:induction false} ContainedMembers<D>(leaves: seq<Segment<D>>, start: int, end: int, allowNone: bool)
    ensures var r := Contained(leaves, start, end, allowNone);
      && (|r| > 0 <==> exists i :: 0 <= i < |leaves| && ContainedIn(leaves[i], start, end) && (allowNone || leaves[i].data.Some?))
    decreases |leaves|
  {
    if |leaves| > 0 {
      var init := leaves[..|leaves| - 1];
      ContainedMembers(init, start, end, allowNone);
      if exists i :: 0 <= i < |leaves| && ContainedIn(leaves[i], start, end) && (allowNone || leaves[i].data.Some?) {
        var i :| 0 <= i < |leaves| && ContainedIn(leaves[i], start, end) && (allowNone || leaves[i].data.Some?);
        if i < |leaves| - 1 {
          assert init[i] == leaves[i];
        }
      }
      if |Contained(init, start, end, allowNone)| > 0 {
        var i :| 0 <= i < |init| && ContainedIn(init[i], start, end) && (allowNone || init[i].data.Some?);
        assert leaves[i] == init[i];
      }
    }
  }

  lemma {:induction false} OverlappingNone<D>(leaves: seq<Segment<D>>, start: int, end: int)
    requires forall i :: 0 <= i < |leaves| ==> !Overlaps(leaves[i], start, end)
    ensures Overlapping(leaves, start, end) == []
    decreases |leaves|
  {
    if |leaves| > 0 {
      OverlappingNone(leaves[..|leaves| - 1], start, end);
    }
  }

  lemma {:induction false} ContainedNone<D>(leaves: seq<Segment<D>>, start: int, end: int, allowNone: bool)
    requires forall i :: 0 <= i < |leaves| ==> !ContainedIn(leaves[i], start, end)
    ensures Contained(leaves, start, end, allowNone) == []
    decreases |leaves|
  {
    if |leaves| > 0 {
      ContainedNone(leaves[..|leaves| - 1], start, end, allowNone);
    }
  }

  /** `query_overlap` (5.py:74-79, 100-106): a node descends only into the
      children that meet the query. */
  function QueryOverlap<D>(t: Tree<D>, start: int, end: int): (r: seq<Segment<D>>)
    ensures forall j :: 0 <= j < |r| ==> Overlaps(r[j], start, end) && r[j].data.Some?
  {
    match t
    case Leaf(seg) => if Overlaps(seg, start, end) && seg.data.Some? then [seg] else []
    case Node(left, right) =>
      (if left.Start() < end && left.End() > start then QueryOverlap(left, start, end) else [])
      + (if right.Start() < end && right.End() > start then QueryOverlap(right, start, end) else [])
  }

  /** Pruning loses nothing: on an ordered tree the query yields, in order,
      the leaves that overlap `[start, end)` and carry data. */
  lemma {:induction false} QueryOverlapIsFilter<D>(t: Tree<D>, start: int, end: int)
    requires t.Ordered()
    ensures QueryOverlap(t, start, end) == Overlapping(t.Leaves(), start, end)
  {
    match t
    case Leaf(seg) =>
      assert t.Leaves() == [seg];
      assert t.Leaves()[..0] == [];
    case Node(left, right) =>
      QueryOverlapIsFilter(left, start, end);
      QueryOverlapIsFilter(right, start, end);
      OverlappingAppend(left.Leaves(), right.Leaves(), start, end);
      Hull(left);
      Hull(right);
      if !(left.Start() < end && left.End() > start) {
        OverlappingNone(left.Leaves(), start, end);
      }
      if !(right.Start() < end && right.End() > start) {
        OverlappingNone(right.Leaves(), start, end);
      }
  }

  /** `query_contained` (5.py:81-83, 108-116): children are entered when they
      merely overlap, and the leaves test containment. */
  function QueryContained<D>(t: Tree<D>, start: int, end: int, allowNone: bool): (r: seq<Segment<D>>)
  {
    match t
    case Leaf(seg) => if ContainedIn(seg, start, end) && (allowNone || seg.data.Some?) then [seg] else []
    case Node(left, right) =>
      (if left.Start() < end && left.End() > start then QueryContained(left, start, end, allowNone) else [])
      + (if right.Start() < end && right.End() > start then QueryContained(right, start, end, allowNone) else [])
  }

  /** On an ordered tree the query yields the leaves inside `[start, end)`
      (that carry data, unless `allowNone`). */
  lemma {:induction false} QueryContainedIsFilter<D>(t: Tree<D>, start: int, end: int, allowNone: bool)
    requires t.Ordered()
    ensures QueryContained(t, start, end, allowNone) == Contained(t.Leaves(), start, end, allowNone)
  {
    match t
    case Leaf(seg) =>
      assert t.Leaves() == [seg];
      assert t.Leaves()[..0] == [];
    case Node(left, right) =>
      QueryContainedIsFilter(left, start, end, allowNone);
      QueryContainedIsFilter(right, start, end, allowNone);
      ContainedAppend(left.Leaves(), right.Leaves(), start, end, allowNone);
      Hull(left);
      Hull(right);
      if !(left.Start() < end && left.End() > start) {
        ContainedNone(left.Leaves(), start, end, allowNone);
      }
      if !(right.Start() < end && right.End() > start) {
        ContainedNone(right.Leaves(), start, end, allowNone);
      }
  }

  /** The tree's `query_point(p)`, which is `query_overlap(p, p + 1)` (5.py:185-189). */
  function QueryPoint<D>(t: Tree<D>, point: int): (r: seq<Segment<D>>)
  {
    QueryOverlap(t, point, point + 1)
  }

  /** A leaf meets `[p, p + 1)` exactly when it covers `p`; on the leaves
      over increasing endpoints at most one does. */
  lemma QueryPointCovers<D>(t: Tree<D>, e: seq<int>, point: int)
    requires t.Ordered() && |e| >= 2 && Increasing(e) && SameBoundsAll(t.Leaves(), Pairs(e))
    ensures var r := QueryPoint(t, point);
      && |r| <= 1
      && (|r| == 1 <==> exists i :: 0 <= i < |t.Leaves()| && t.Leaves()[i].start <= point < t.Leaves()[i].end && t.Leaves()[i].data.Some?)
  {
    var leaves := t.Leaves();
    QueryOverlapIsFilter(t, point, point + 1);
    OverlappingMembers(leaves, point, point + 1);
    AtMostOneCovering(leaves, e, point);
  }

  /** A non-empty point query is a single leaf covering the point. */
  lemma PointHitAt<D>(t: Tree<D>, e: seq<int>, point: int) returns (j: nat)
    requires t.Ordered() && |e| >= 2 && Increasing(e) && SameBoundsAll(t.Leaves(), Pairs(e))
    requires |QueryPoint(t, point)| > 0
    ensures j < |t.Leaves()| && QueryPoint(t, point) == [t.Leaves()[j]]
    ensures t.Leaves()[j].start <= point < t.Leaves()[j].end
  {
    var r := QueryPoint(t, point);
    QueryPointCovers(t, e, point);
    QueryOverlapIsFilter(t, point, point + 1);
    j := OverlapIndex(t.Leaves(), point, point + 1);
    assert r == [r[0]];
  }

  /** The first leaf of a non-empty overlap query, found among the leaves. */
  lemma OverlapIndex<D>(leaves: seq<Segment<D>>, start: int, end: int) returns (j: nat)
    requires |Overlapping(leaves, start, end)| > 0
    ensures j < |leaves| && leaves[j] == Overlapping(leaves, start, end)[0]
    ensures Overlaps(leaves[j], start, end)
  {
    var r := Overlapping(leaves, start, end);
    OverlappingMembers(leaves, start, end);
    assert r[0] in leaves;
    j :| 0 <= j < |leaves| && leaves[j] == r[0];
  }

  /** The point query returns the one leaf covering the point, when that
      leaf carries data. */
  lemma PointHit<D>(t: Tree<D>, e: seq<int>, point: int, i: nat)
    requires t.Ordered() && |e| >= 2 && Increasing(e) && SameBoundsAll(t.Leaves(), Pairs(e))
    requires i < |t.Leaves()| && t.Leaves()[i].start <= point < t.Leaves()[i].end && t.Leaves()[i].data.Some?
    ensures QueryPoint(t, point) == [t.Leaves()[i]]
  {
    QueryPointCovers(t, e, point);
    var j := PointHitAt(t, e, point);
    CoveringLeafUnique(t.Leaves(), e, i, j, point);
  }

  lemma {:induction false} AtMostOneCovering<D>(leaves: seq<Segment<D>>, e: seq<int>, point: int)
    requires |e| >= 2 && Increasing(e) && SameBoundsAll(leaves, Pairs(e))
    ensures |Overlapping(leaves, point, point + 1)| <= 1
    decreases |leaves|
  {
    if |leaves| > 1 {
      var init := leaves[..|leaves| - 1];
      var last := leaves[|leaves| - 1];
      var f := e[..|e| - 1];
      assert SameBoundsAll(init, Pairs(f)) by {
        forall i | 0 <= i < |init|
          ensures SameBounds(init[i], Pairs<D>(f)[i])
        {
          assert SameBounds(leaves[i], Pairs<D>(e)[i]);
        }
      }
      AtMostOneCovering(init, f, point);
      if Overlaps(last, point, point + 1) && last.data.Some? {
        OverlappingMembers(init, point, point + 1);
        if |Overlapping(init, point, point + 1)| > 0 {
          assert false;
        }
      }
    } else if |leaves| == 1 {
      assert leaves[..0] == [];
    }
  }

  /** Over increasing endpoints, one leaf at most covers a point. */
  lemma CoveringLeafUnique<D>(leaves: seq<Segment<D>>, e: seq<int>, i: nat, j: nat, point: int)
    requires |e| >= 2 && Increasing(e) && SameBoundsAll(leaves, Pairs(e))
    requires i < |leaves| && leaves[i].start <= point < leaves[i].end
    requires j < |leaves| && leaves[j].start <= point < leaves[j].end
    ensures i == j
  {
    assert SameBounds(leaves[i], Pairs<D>(e)[i]);
    assert SameBounds(leaves[j], Pairs<D>(e)[j]);
  }

  /** `a` and `b` have the same length and their entries the same bounds. */
  predicate SameBoundsAll<D>(a: seq<Segment<D>>, b: seq<Segment<D>>)
  {
    |a| == |b| && forall i :: 0 <= i < |a| ==> SameBounds(a[i], b[i])
  }

  /** One pass of the construction loop (5.py:152-154): every leaf inside
      `[start, end)` takes the data; the traversal is `query_contained`'s. */
  function SetData<D>(t: Tree<D>, start: int, end: int, data: Option<D>): (r: Tree<D>)
    ensures r.Start() == t.Start() && r.End() == t.End()
    ensures SameBoundsAll(r.Leaves(), t.Leaves())
    ensures t.Ordered() ==> r.Ordered()
  {
    match t
    case Leaf(seg) => if ContainedIn(seg, start, end) then Leaf(Segment(seg.start, seg.end, data)) else t
    case Node(left, right) =>
      var l := if left.Start() < end && left.End() > start then SetData(left, start, end, data) else left;
      var r := if right.Start() < end && right.End() > start then SetData(right, start, end, data) else right;
      assert forall i :: 0 <= i < |l.Leaves()| + |r.Leaves()| ==>
        (l.Leaves() + r.Leaves())[i] == if i < |l.Leaves()| then l.Leaves()[i] else r.Leaves()[i - |l.Leaves()|];
      assert forall i :: 0 <= i < |t.Leaves()| ==>
        t.Leaves()[i] == if i < |left.Leaves()| then left.Leaves()[i] else right.Leaves()[i - |left.Leaves()|];
      Node(l, r)
  }

  /** On an ordered tree exactly the leaves inside `[start, end)` change,
      and only in their data. */
  lemma {:induction false} SetDataLeaves<D>(t: Tree<D>, start: int, end: int, data: Option<D>)
    requires t.Ordered()
    ensures forall i :: 0 <= i < |t.Leaves()| ==>
      SetData(t, start, end, data).Leaves()[i].data == (if ContainedIn(t.Leaves()[i], start, end) then data else t.Leaves()[i].data)
  {
    match t
    case Leaf(seg) =>
    case Node(left, right) =>
      SetDataLeaves(left, start, end, data);
      SetDataLeaves(right, start, end, data);
      Hull(left);
      Hull(right);
      var r := SetData(t, start, end, data);
      var n := |left.Leaves()|;
      forall i | 0 <= i < |t.Leaves()|
        ensures r.Leaves()[i].data == if ContainedIn(t.Leaves()[i], start, end) then data else t.Leaves()[i].data
      {
        if i < n {
          assert t.Leaves()[i] == left.Leaves()[i];
          assert r.Leaves()[i] == r.left.Leaves()[i];
        } else {
          assert t.Leaves()[i] == right.Leaves()[i - n];
          assert r.Leaves()[i] == r.right.Leaves()[i - n];
        }
      }
  }

  /** Every start and end point of the segments, in order. */
  function Bounds<D>(segments: seq<Segment<D>>): (r: seq<int>)
    ensures forall x :: x in r <==> exists i :: 0 <= i < |segments| && (x == segments[i].start || x == segments[i].end)
  {
    if |segments| == 0 then []
    else
      var init := segments[..|segments| - 1];
      var r := Bounds(init) + [segments[|segments| - 1].start, segments[|segments| - 1].end];
      assert forall i :: 0 <= i < |init| ==> init[i] == segments[i];
      r
  }

  /** `x` added to a strictly increasing list, keeping it so. */
  function InsertSorted(s: seq<int>, x: int): (r: seq<int>)
    requires Increasing(s)
    ensures Increasing(r)
    ensures forall y :: y in r <==> y in s || y == x
  {
    if |s| == 0 then [x]
    else if x < s[0] then [x] + s
    else if x == s[0] then s
    else
      var rest := InsertSorted(s[1..], x);
      assert forall i :: 0 <= i < |rest| ==> rest[i] > s[0] by {
        forall i | 0 <= i < |rest|
          ensures rest[i] > s[0]
        {
          assert rest[i] in rest;
        }
      }
      var r := [s[0]] + rest;
      assert forall i :: 0 < i < |r| ==> r[i] == rest[i - 1];
      r
  }

  /** `sorted(set(xs))`. */
  function SortedUnique(xs: seq<int>): (r: seq<int>)
    ensures Increasing(r)
    ensures forall y :: y in r <==> y in xs
  {
    if |xs| == 0 then []
    else
      var init := xs[..|xs| - 1];
      assert forall y :: y in xs <==> y in init || y == xs[|xs| - 1];
      InsertSorted(SortedUnique(init), xs[|xs| - 1])
  }

  /** The endpoints the tree is built over (5.py:144). */
  function Endpoints<D>(segments: seq<Segment<D>>): (r: seq<int>)
    ensures Increasing(r)
    ensures forall x :: x in r <==> x in Bounds(segments)
  {
    SortedUnique(Bounds(segments))
  }

  /** The data a leaf ends up with: that of the last segment containing it,
      or the leaf's own when none does. */
  function LastData<D>(segments: seq<Segment<D>>, leaf: Segment<D>): Option<D>
  {
    if |segments| == 0 then leaf.data
    else
      var last := segments[|segments| - 1];
      if ContainedIn(leaf, last.start, last.end) then last.data else LastData(segments[..|segments| - 1], leaf)
  }

  /** The loop of `SegmentTree.__init__` (5.py:150-158): each segment in turn
      hands its data to the leaves it contains, and one containing no leaf
      is a RuntimeError; with no tree, the first segment's query is an
      AttributeError on `None`. */
  function Fill<D>(root: Option<Tree<D>>, segments: seq<Segment<D>>): Result<Option<Tree<D>>>
  {
    if |segments| == 0 then Ok(root)
    else
      var prior :- Fill(root, segments[..|segments| - 1]);
      var seg := segments[|segments| - 1];
      if prior.None? then Err(AttributeError)
      else if |QueryContained(prior.value, seg.start, seg.end, true)| == 0 then Err(RuntimeError)
      else Ok(Some(SetData(prior.value, seg.start, seg.end, seg.data)))
  }

  /** `SegmentTree(segments)` (5.py:128-158). */
  function Build<D>(segments: seq<Segment<D>>): Result<Option<Tree<D>>>
  {
    Fill(Construct(Endpoints(segments)), segments)
  }

  /** Over increasing endpoints, `[start, end)` with both bounds among them
      holds one of the pairs exactly when it is non-empty. */
  lemma PairWithin<D>(leaves: seq<Segment<D>>, e: seq<int>, start: int, end: int)
    requires |e| >= 2 && Increasing(e) && SameBoundsAll(leaves, Pairs(e))
    requires start in e && end in e
    ensures (exists i :: 0 <= i < |leaves| && ContainedIn(leaves[i], start, end)) <==> start < end
  {
    if start < end {
      var i :| 0 <= i < |e| && e[i] == start;
      var j :| 0 <= j < |e| && e[j] == end;
      assert i < j;
      assert SameBounds(leaves[i], Pairs<D>(e)[i]);
      assert ContainedIn(leaves[i], start, end);
    }
    if exists i :: 0 <= i < |leaves| && ContainedIn(leaves[i], start, end) {
      var i :| 0 <= i < |leaves| && ContainedIn(leaves[i], start, end);
      assert SameBounds(leaves[i], Pairs<D>(e)[i]);
    }
  }

  /** With increasing endpoints, a segment whose bounds are both endpoints
      contains a leaf exactly when it is non-empty. */
  lemma ContainsLeafIffNonEmpty<D>(t: Tree<D>, e: seq<int>, seg: Segment<D>)
    requires t.Ordered() && |e| >= 2 && Increasing(e) && SameBoundsAll(t.Leaves(), Pairs(e))
    requires seg.start in e && seg.end in e
    ensures |QueryContained(t, seg.start, seg.end, true)| > 0 <==> seg.start < seg.end
  {
    QueryContainedIsFilter(t, seg.start, seg.end, true);
    ContainedMembers(t.Leaves(), seg.start, seg.end, true);
    PairWithin(t.Leaves(), e, seg.start, seg.end);
  }

  /** Every segment is non-empty. */
  predicate NonEmptyAll<D>(segments: seq<Segment<D>>)
  {
    forall i :: 0 <= i < |segments| ==> segments[i].start < segments[i].end
  }

  /** Every segment's bounds are among the endpoints `e`. */
  predicate BoundsIn<D>(segments: seq<Segment<D>>, e: seq<int>)
  {
    forall i :: 0 <= i < |segments| ==> segments[i].start in e && segments[i].end in e
  }

  /** Both predicates split at the last segment. */
  lemma SplitLast<D>(segments: seq<Segment<D>>, e: seq<int>)
    requires |segments| > 0
    ensures var init := segments[..|segments| - 1];
      var seg := segments[|segments| - 1];
      && (NonEmptyAll(segments) <==> NonEmptyAll(init) && seg.start < seg.end)
      && (BoundsIn(segments, e) ==> BoundsIn(init, e) && seg.start in e && seg.end in e)
  {
    var init := segments[..|segments| - 1];
    assert forall i :: 0 <= i < |init| ==> init[i] == segments[i];
  }

  /** What the loop of the construction leaves behind on an ordered tree over
      `e`: it fails exactly when some segment is empty, and otherwise each
      leaf holds the data of the last segment containing it. */
  lemma {:induction false} FillOutcome<D>(t: Tree<D>, e: seq<int>, segments: seq<Segment<D>>)
    requires t.Ordered() && |e| >= 2 && Increasing(e) && SameBoundsAll(t.Leaves(), Pairs(e))
    requires BoundsIn(segments, e)
    ensures Fill(Some(t), segments).Ok? <==> NonEmptyAll(segments)
    ensures Fill(Some(t), segments).Ok? ==> Fill(Some(t), segments).value.Some?
    ensures Fill(Some(t), segments).Ok? ==>
      var u := Fill(Some(t), segments).value.value;
      && u.Ordered() && SameBoundsAll(u.Leaves(), t.Leaves())
      && forall i :: 0 <= i < |t.Leaves()| ==> u.Leaves()[i].data == LastData(segments, t.Leaves()[i])
    decreases |segments|
  {
    if |segments| > 0 {
      var init := segments[..|segments| - 1];
      var seg := segments[|segments| - 1];
      SplitLast(segments, e);
      FillOutcome(t, e, init);
      if Fill(Some(t), init).Ok? {
        var prior := Fill(Some(t), init).value.value;
        assert SameBoundsAll(prior.Leaves(), Pairs(e));
        ContainsLeafIffNonEmpty(prior, e, seg);
        if seg.start < seg.end {
          FillStep(t, prior, segments);
        }
      }
    }
  }

  /** One more segment handed to the leaves keeps them the tree's leaves
      and gives each the data of the last segment now containing it. */
  lemma FillStep<D>(t: Tree<D>, prior: Tree<D>, segments: seq<Segment<D>>)
    requires |segments| > 0
    requires prior.Ordered() && SameBoundsAll(prior.Leaves(), t.Leaves())
    requires forall i :: 0 <= i < |t.Leaves()| ==>
      prior.Leaves()[i].data == LastData(segments[..|segments| - 1], t.Leaves()[i])
    ensures var seg := segments[|segments| - 1];
      var u := SetData(prior, seg.start, seg.end, seg.data);
      && u.Ordered() && SameBoundsAll(u.Leaves(), t.Leaves())
      && forall i :: 0 <= i < |t.Leaves()| ==> u.Leaves()[i].data == LastData(segments, t.Leaves()[i])
  {
    var seg := segments[|segments| - 1];
    var u := SetData(prior, seg.start, seg.end, seg.data);
    SetDataLeaves(prior, seg.start, seg.end, seg.data);
    forall i | 0 <= i < |t.Leaves()|
      ensures u.Leaves()[i].data == LastData(segments, t.Leaves()[i])
    {
      assert SameBounds(prior.Leaves()[i], t.Leaves()[i]);
    }
  }

  /** The construction fails with AttributeError when some segment exists
      but there are fewer than two endpoints, which needs an empty segment. */
  lemma {:induction false} FillWithoutTree<D>(segments: seq<Segment<D>>)
    requires |segments| > 0
    ensures Fill(None, segments) == Err(AttributeError)
    decreases |segments|
  {
    if |segments| > 1 {
      FillWithoutTree(segments[..|segments| - 1]);
    }
  }

  /** `SegmentTree(segments)` succeeds exactly when every segment is
      non-empty; then, given at least one segment, there is a tree whose
      leaves are the consecutive endpoint pairs, each holding the data of the
      last segment that contains it (5.py:143-158). */
  lemma BuildOutcome<D>(segments: seq<Segment<D>>)
    ensures Build(segments).Ok? <==> forall i :: 0 <= i < |segments| ==> segments[i].start < segments[i].end
    ensures Build(segments).Ok? && |segments| > 0 ==>
      var e := Endpoints(segments);
      && Build(segments).value.Some?
      && var t := Build(segments).value.value;
      && |e| >= 2 && t.Ordered() && SameBoundsAll(t.Leaves(), Pairs(e))
      && forall i :: 0 <= i < |t.Leaves()| ==> t.Leaves()[i].data == LastData(segments, Pairs(e)[i])
  {
    var e := Endpoints(segments);
    forall i | 0 <= i < |segments|
      ensures segments[i].start in e && segments[i].end in e
    {
      assert segments[i].start in Bounds(segments);
      assert segments[i].end in Bounds(segments);
    }
    if |segments| > 0 {
      if |e| <= 1 {
        FillWithoutTree(segments);
        assert segments[0].start == segments[0].end;
      } else {
        var t: Tree<D> := ConstructTree(e);
        ConstructLeaves<D>(e);
        ConstructOrdered<D>(e);
        FillOutcome(t, e, segments);
      }
    }
  }
}

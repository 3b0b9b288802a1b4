/**
 * The chain reaction of 22p2.py: after the sticks settle, each stick in
 * turn is taken away and the sticks that would then fall are counted
 * twice, once by `fake_disintegrate`, which grows the set of falling
 * sticks without moving any, and once by taking the stick off the grid
 * and settling the rest around the gap. The two counts must agree; the
 * answer sums them. Between two sticks the document is put back as it
 * was saved after settling.
 */
module BricksChain {
  import opened Outcomes
  import opened Bricks
  import opened Seqs

  /** The indices of `n` sticks. */
  function Indices(n: nat): (r: set<nat>)
    ensures forall j: nat :: j in r <==> j < n
  {
    if n == 0 then {} else Indices(n - 1) + {n - 1}
  }

  // ---------------------------------------------------------------------
  // The sticks a removal brings down, as a least fixpoint.

  /** One round of growth: every stick that could drop with all of `gone`
      taken away joins `gone`. */
  function Grow(doc: Document, gone: set<nat>): (r: set<nat>)
    ensures gone <= r
  {
    gone + set j: nat | j < |doc.sticks| && CanDrop(doc, j, gone)
  }

  /** Taking more sticks away lets no fewer drop. */
  lemma GrowMonotone(doc: Document, a: set<nat>, b: set<nat>)
    requires a <= b
    ensures Grow(doc, a) <= Grow(doc, b)
  {
    forall j | j in Grow(doc, a) && j !in a
      ensures j in Grow(doc, b)
    {
      assert CanDropOver(doc.grid, BottomCoords(doc.sticks[j]), b);
    }
  }

  /** Grow `gone` round by round until a round adds nothing. The result
      contains `gone` and stays within the sticks. */
  function ClosureFrom(doc: Document, gone: set<nat>): (r: set<nat>)
    requires gone <= Indices(|doc.sticks|)
    ensures gone <= r
    decreases Indices(|doc.sticks|) - gone
  {
    var next := Grow(doc, gone);
    if next == gone then gone else ClosureFrom(doc, next)
  }

  /** The closure is closed: no stick outside it could drop with all of
      it gone. */
  lemma {:induction false} ClosureClosed(doc: Document, gone: set<nat>)
    requires gone <= Indices(|doc.sticks|)
    ensures Grow(doc, ClosureFrom(doc, gone)) == ClosureFrom(doc, gone)
    decreases Indices(|doc.sticks|) - gone
  {
    var next := Grow(doc, gone);
    if next != gone {
      ClosureClosed(doc, next);
    }
  }

  /** The sticks that come down when stick `i` is taken away, `i`
      included. */
  function Closure(doc: Document, i: nat): (r: set<nat>)
    requires i < |doc.sticks|
    ensures i in r
  {
    ClosureFrom(doc, {i})
  }

  /** The closure is the least closed set containing `gone`: every set
      that contains `gone` and that no further stick could drop out of
      contains it. */
  lemma {:induction false} ClosureLeast(doc: Document, gone: set<nat>, p: set<nat>)
    requires gone <= Indices(|doc.sticks|) && gone <= p && Grow(doc, p) <= p
    ensures ClosureFrom(doc, gone) <= p
    decreases Indices(|doc.sticks|) - gone
  {
    var next := Grow(doc, gone);
    if next != gone {
      GrowMonotone(doc, gone, p);
      ClosureLeast(doc, next, p);
    }
  }

  /** The count of 22.py and the count of 22p2.py agree on what a safe
      removal is: a stick counts as removable exactly when taking it away
      brings down no other stick. */
  lemma RemovableIffAlone(doc: Document, i: nat)
    requires i < |doc.sticks|
    ensures i in Removable(doc) <==> Closure(doc, i) == {i}
  {
    if i in Removable(doc) {
      assert Grow(doc, {i}) <= {i};
      ClosureLeast(doc, {i}, {i});
    }
    if Closure(doc, i) == {i} {
      ClosureClosed(doc, {i});
      forall j | 0 <= j < |doc.sticks| && j != i
        ensures !CanDrop(doc, j, {i})
      {
        assert j !in Grow(doc, Closure(doc, i));
      }
    }
  }

  // ---------------------------------------------------------------------
  // `fake_disintegrate` (22p2.py:191-204).

  /** `rank` lists the `n` sticks: the order in which a set of all of
      them is walked. A set of objects is walked in the order of its hash
      table, which removing elements does not change, so every pass meets
      the sticks still remaining in this one order. Python lists each
      stick once; nothing here needs that, so a list that repeats a stick
      is allowed too. */
  predicate Ranks(rank: seq<nat>, n: nat)
  {
    && (forall k :: 0 <= k < |rank| ==> rank[k] < n)
    && (forall j: nat :: j < n ==> j in rank)
  }

  /** One pass of the `while dirty` loop: walk the remaining sticks in
      `rank` order, adding each one that could drop with all of `dropped`
      gone (including those added earlier in the pass) to `dropped` and
      to `to_remove`. Nothing outside a closed set `bound` holding
      `dropped` is added, and a pass that adds nothing has met no stick
      that could drop. */
  method Sweep(doc: Document, rank: seq<nat>, remaining: set<nat>, dropped: set<nat>, ghost bound: set<nat>)
    returns (grown: set<nat>, removed: set<nat>, dirty: bool)
    requires forall k :: 0 <= k < |rank| ==> rank[k] < |doc.sticks|
    requires dropped <= bound && Grow(doc, bound) <= bound
    ensures grown == dropped + removed && removed <= remaining && grown <= bound
    ensures dirty <==> removed != {}
    ensures !dirty ==> forall k :: 0 <= k < |rank| && rank[k] in remaining ==> !CanDrop(doc, rank[k], dropped)
  {
    grown, removed, dirty := dropped, {}, false;
    var k := 0;
    while k < |rank|
      invariant 0 <= k <= |rank|
      invariant grown == dropped + removed && removed <= remaining && grown <= bound
      invariant dirty <==> removed != {}
      invariant !dirty ==> forall p :: 0 <= p < k && rank[p] in remaining ==> !CanDrop(doc, rank[p], dropped)
    {
      var j := rank[k];
      if j in remaining && CanDrop(doc, j, grown) {
        GrowMonotone(doc, grown, bound);
        grown := grown + {j};
        removed := removed + {j};
        dirty := true;
      }
      k := k + 1;
    }
  }

  /** When a pass adds nothing, `dropped` is closed. */
  lemma SweepClosed(doc: Document, rank: seq<nat>, remaining: set<nat>, dropped: set<nat>)
    requires Ranks(rank, |doc.sticks|)
    requires forall j: nat :: j < |doc.sticks| ==> j in remaining || j in dropped
    requires forall k :: 0 <= k < |rank| && rank[k] in remaining ==> !CanDrop(doc, rank[k], dropped)
    ensures Grow(doc, dropped) <= dropped
  {
    forall j: nat | j < |doc.sticks| && j !in dropped
      ensures !CanDrop(doc, j, dropped)
    {
      assert j in rank;
      var k :| 0 <= k < |rank| && rank[k] == j;
      assert rank[k] in remaining;
    }
  }

  /** `Document.fake_disintegrate(start)`: the number of other sticks
      that come down when `start` is taken away, whatever order the sets
      are walked in. */
  method FakeDisintegrate(doc: Document, start: nat, rank: seq<nat>) returns (count: nat)
    requires start < |doc.sticks| && Ranks(rank, |doc.sticks|)
    ensures count == |Closure(doc, start)| - 1
  {
    var n := |doc.sticks|;
    ghost var closure := Closure(doc, start);
    ClosureClosed(doc, {start});
    var remaining := Indices(n);
    var dropped: set<nat> := {start};
    var dirty := true;
    while dirty
      invariant start in dropped && dropped <= closure && remaining <= Indices(n)
      invariant forall j: nat :: j < n ==> j in remaining || j in dropped
      invariant !dirty ==> forall k :: 0 <= k < |rank| && rank[k] in remaining ==> !CanDrop(doc, rank[k], dropped)
      decreases |remaining| + (if dirty then 1 else 0)
    {
      var removed;
      dropped, removed, dirty := Sweep(doc, rank, remaining, dropped, closure);
      if dirty {
        assert remaining - removed < remaining;
      }
      remaining := remaining - removed;
    }
    SweepClosed(doc, rank, remaining, dropped);
    ClosureLeast(doc, {start}, dropped);
    assert dropped == closure;
    count := |dropped| - 1;
  }

  // ---------------------------------------------------------------------
  // `check_sanity` (22p2.py:132-153).

  /** The first loop of `check_sanity`: every occupied cell is a cube of
      the stick it names, and that stick is not the one ignored. */
  predicate GridSane(doc: Document, ignore: Option<nat>)
  {
    forall c | c in doc.grid ::
      doc.grid[c] < |doc.sticks| && c in AllCoords(doc.sticks[doc.grid[c]]) && Some(doc.grid[c]) != ignore
  }

  /** The second loop: every cube of every stick but the ignored one names
      that stick. */
  predicate SticksSane(doc: Document, ignore: Option<nat>)
  {
    forall j, k | 0 <= j < |doc.sticks| && Some(j) != ignore && 0 <= k < |AllCoords(doc.sticks[j])| ::
      AllCoords(doc.sticks[j])[k] in doc.grid && doc.grid[AllCoords(doc.sticks[j])[k]] == j
  }

  /** `Document.check_sanity(ignore)`: an index past the sticks fails
      when the ignored stick is looked up, and a failed check is an
      `AssertionError`. */
  function CheckSanity(doc: Document, ignore: Option<nat>): (r: Result<()>)
    ensures r.Err? <==> (ignore.Some? && ignore.value >= |doc.sticks|) || !GridSane(doc, ignore) || !SticksSane(doc, ignore)
    ensures r.Err? ==> r.error == if ignore.Some? && ignore.value >= |doc.sticks| then IndexError else AssertionError
  {
    if ignore.Some? && ignore.value >= |doc.sticks| then Err(IndexError)
    else if GridSane(doc, ignore) && SticksSane(doc, ignore) then Ok(())
    else Err(AssertionError)
  }

  /** The first loop of the check holds exactly when every cell is owned. */
  lemma GridSaneOwned(doc: Document, ignore: Option<nat>)
    requires AllValid(doc.sticks)
    ensures GridSane(doc, ignore) <==> CellsOwned(doc, ignore)
  {
    if GridSane(doc, ignore) {
      forall c | c in doc.grid
        ensures Occupies(doc.sticks[doc.grid[c]], c)
      {
        AllCoordsOccupied(doc.sticks[doc.grid[c]], c);
      }
    }
    if CellsOwned(doc, ignore) {
      forall c | c in doc.grid
        ensures c in AllCoords(doc.sticks[doc.grid[c]])
      {
        AllCoordsOccupied(doc.sticks[doc.grid[c]], c);
      }
    }
  }

  /** The second loop of the check holds exactly when every cube is
      covered. */
  lemma SticksSaneCovered(doc: Document, ignore: Option<nat>)
    requires AllValid(doc.sticks)
    ensures SticksSane(doc, ignore) <==> CubesCovered(doc, ignore)
  {
    if SticksSane(doc, ignore) {
      forall j, c | 0 <= j < |doc.sticks| && Some(j) != ignore && Occupies(doc.sticks[j], c)
        ensures c in doc.grid && doc.grid[c] == j
      {
        AllCoordsOccupied(doc.sticks[j], c);
        var k :| 0 <= k < |AllCoords(doc.sticks[j])| && AllCoords(doc.sticks[j])[k] == c;
      }
    }
    if CubesCovered(doc, ignore) {
      forall j, k | 0 <= j < |doc.sticks| && Some(j) != ignore && 0 <= k < |AllCoords(doc.sticks[j])|
        ensures AllCoords(doc.sticks[j])[k] in doc.grid && doc.grid[AllCoords(doc.sticks[j])[k]] == j
      {
        AllCoordsOccupied(doc.sticks[j], AllCoords(doc.sticks[j])[k]);
      }
    }
  }

  /** For sticks as the constructor makes them, the check passes exactly
      when the grid agrees with every stick but the ignored one. */
  lemma CheckSanityConsistent(doc: Document, ignore: Option<nat>)
    requires AllValid(doc.sticks)
    ensures CheckSanity(doc, ignore).Ok? <==>
      (ignore.Some? ==> ignore.value < |doc.sticks|) && Consistent(doc, ignore)
  {
    GridSaneOwned(doc, ignore);
    SticksSaneCovered(doc, ignore);
  }

  // ---------------------------------------------------------------------
  // Taking a stick off the grid, and putting the document back
  // (22p2.py:97-105, 22p2.py:214-224).

  /** `sticks[i].unregister(document)`: the stick stays in the list but
      its cubes are emptied. */
  function Hide(doc: Document, i: nat): Document
    requires i < |doc.sticks|
  {
    doc.(grid := Unregister(doc.grid, AllCoords(doc.sticks[i])))
  }

  /** Unregistering a stick of a well-kept document leaves it well kept
      with that stick hidden. */
  lemma HideKept(doc: Document, i: nat)
    requires i < |doc.sticks| && Kept(doc, None)
    ensures Hide(doc, i).sticks == doc.sticks && Hide(doc, i).maxZ == doc.maxZ
    ensures Kept(Hide(doc, i), Some(i))
  {
    HideOwned(doc, i);
    HideCovered(doc, i);
  }

  lemma HideOwned(doc: Document, i: nat)
    requires i < |doc.sticks| && Kept(doc, None)
    ensures CellsOwned(Hide(doc, i), Some(i))
  {
    var s := doc.sticks[i];
    var h := Hide(doc, i);
    forall c | c in h.grid
      ensures h.grid[c] < |h.sticks| && Some(h.grid[c]) != Some(i) && Occupies(h.sticks[h.grid[c]], c)
    {
      assert c in doc.grid && h.grid[c] == doc.grid[c];
      if h.grid[c] == i {
        AllCoordsOccupied(s, c);
      }
    }
  }

  lemma HideCovered(doc: Document, i: nat)
    requires i < |doc.sticks| && Valid(doc.sticks[i]) && CubesCovered(doc, None)
    ensures CubesCovered(Hide(doc, i), Some(i))
  {
    var s := doc.sticks[i];
    var h := Hide(doc, i);
    forall j, c | 0 <= j < |h.sticks| && Some(j) != Some(i) && Occupies(h.sticks[j], c)
      ensures c in h.grid && h.grid[c] == j
    {
      assert c in doc.grid && doc.grid[c] == j;
      UnregisterKeeps(doc, i, c);
    }
  }

  /** A cell naming another stick survives unregistering stick `i`. */
  lemma UnregisterKeeps(doc: Document, i: nat, c: Coord)
    requires i < |doc.sticks| && Valid(doc.sticks[i]) && CubesCovered(doc, None)
    requires c in doc.grid && doc.grid[c] != i
    ensures c in Hide(doc, i).grid && Hide(doc, i).grid[c] == doc.grid[c]
  {
    AllCoordsOccupied(doc.sticks[i], c);
  }

  /** Each stick in turn unregistered where it now is. */
  function UnregisterAll(grid: Cells, sticks: seq<Stick>): (r: Cells)
    ensures forall c :: c in r ==> c in grid && r[c] == grid[c]
    ensures forall c :: c in r ==> forall k :: 0 <= k < |sticks| ==> c !in AllCoords(sticks[k])
    decreases |sticks|
  {
    if |sticks| == 0 then grid
    else UnregisterAll(Unregister(grid, AllCoords(sticks[0])), sticks[1..])
  }

  /** The lists of cubes registered in turn onto `base`, the first `n`
      of them. */
  function RegisterFrom(base: Cells, lists: seq<seq<Coord>>, n: nat): Cells
    requires n <= |lists|
  {
    if n == 0 then base else Register(RegisterFrom(base, lists, n - 1), lists[n - 1], n - 1)
  }

  /** Registering onto an empty grid is the constructor's registration. */
  lemma {:induction false} RegisterFromEmpty(lists: seq<seq<Coord>>, n: nat)
    requires n <= |lists|
    ensures RegisterFrom(map[], lists, n) == RegisterLists(lists, n)
  {
    if n > 0 {
      RegisterFromEmpty(lists, n - 1);
    }
  }

  /** `Document.restore`: every stick unregistered where it now is, then
      every stick moved back to its saved ends, then every stick registered
      again, in list order. */
  function Restore(doc: Document, saved: seq<Stick>): (r: Document)
    requires |saved| == |doc.sticks|
    ensures r.sticks == saved && r.maxZ == doc.maxZ
  {
    var cleared := UnregisterAll(doc.grid, doc.sticks);
    Document(saved, RegisterFrom(cleared, CubeLists(saved), |saved|), doc.maxZ)
  }

  /** When every cell names a stick occupying it, unregistering all the
      sticks empties the grid. */
  lemma UnregisterAllEmpty(doc: Document, hidden: Option<nat>)
    requires AllValid(doc.sticks) && CellsOwned(doc, hidden)
    ensures UnregisterAll(doc.grid, doc.sticks) == map[]
  {
    var r := UnregisterAll(doc.grid, doc.sticks);
    forall c | c in r
      ensures false
    {
      AllCoordsOccupied(doc.sticks[doc.grid[c]], c);
    }
  }

  /** Sticks whose cubes all name them do not overlap. */
  lemma CoveredApart(doc: Document)
    requires CubesCovered(doc, None)
    ensures Apart(doc.sticks)
  {
    forall p, q, c | 0 <= p < |doc.sticks| && 0 <= q < |doc.sticks| && p != q && Occupies(doc.sticks[p], c)
      ensures !Occupies(doc.sticks[q], c)
    {
      assert doc.grid[c] == p;
    }
  }

  /** A grid that agrees with the sticks both ways is determined by
      them. */
  lemma SameGrid(sticks: seq<Stick>, a: Cells, b: Cells)
    requires Owned(sticks, a) && Covered(sticks, a) && Owned(sticks, b) && Covered(sticks, b)
    ensures a == b
  {
    forall c | c in a
      ensures c in b && b[c] == a[c]
    {
      assert Occupies(sticks[a[c]], c);
    }
    forall c | c in b
      ensures c in a
    {
      assert Occupies(sticks[b[c]], c);
    }
  }

  /** A grid that agrees with sticks that do not overlap is what
      registering them in turn onto an empty grid gives. */
  lemma RegisteredGrid(sticks: seq<Stick>, grid: Cells)
    requires AllValid(sticks) && Apart(sticks) && Owned(sticks, grid) && Covered(sticks, grid)
    ensures RegisterAll(sticks) == grid
  {
    RegisterAllOwned(sticks);
    RegisterAllCovered(sticks);
    SameGrid(sticks, RegisterAll(sticks), grid);
  }

  /** A well-kept grid is the constructor's registration of its sticks. */
  lemma ConsistentRegistered(doc: Document)
    requires AllValid(doc.sticks) && Consistent(doc, None)
    ensures RegisterAll(doc.sticks) == doc.grid
  {
    CoveredApart(doc);
    RegisteredGrid(doc.sticks, doc.grid);
  }

  /** Restoring a document that agrees with its grid, but for a hidden
      stick, to the sticks of a well-kept saved document gives back the
      saved document. */
  lemma RestoreSaved(doc: Document, hidden: Option<nat>, saved: Document)
    requires AllValid(doc.sticks) && Consistent(doc, hidden)
    requires Kept(saved, None) && |saved.sticks| == |doc.sticks| && saved.maxZ == doc.maxZ
    ensures Restore(doc, saved.sticks) == saved
  {
    UnregisterAllEmpty(doc, hidden);
    RegisterFromEmpty(CubeLists(saved.sticks), |saved.sticks|);
    ConsistentRegistered(saved);
  }

  /** Registering cubes that already name the stick changes nothing. */
  lemma RegisterAgain(grid: Cells, cs: seq<Coord>, i: nat)
    requires forall k :: 0 <= k < |cs| ==> cs[k] in grid && grid[cs[k]] == i
    ensures Register(grid, cs, i) == grid
  {
    var r := Register(grid, cs, i);
    forall c | c in r
      ensures c in grid && r[c] == grid[c]
    {
      if c in cs {
        var k :| 0 <= k < |cs| && cs[k] == c;
      }
    }
  }

  // ---------------------------------------------------------------------
  // The answer (22p2.py:226-249).

  /** The fake counts of the first `k` sticks added up. */
  function FallSum(doc: Document, k: nat): nat
    requires k <= |doc.sticks|
  {
    if k == 0 then 0 else FallSum(doc, k - 1) + (|Closure(doc, k - 1)| - 1)
  }

  /** One round of `main`'s loop for stick `i` of the settled document:
      the fake count, then the real count with the stick off the grid,
      and the document put back. The sanity checks pass, and when the
      two counts agree the document is back as it was. */
  method ChainStep(settled: Document, i: nat, rank: seq<nat>) returns (r: Result<nat>, back: Document)
    requires Kept(settled, None) && i < |settled.sticks| && Ranks(rank, |settled.sticks|)
    ensures r.Ok? ==> back == settled
    ensures r.Err? ==> r.error == AssertionError
    ensures r.Ok? ==> r.value == |Closure(settled, i)| - 1
  {
    var expected := FakeDisintegrate(settled, i, rank);
    var hidden := Hide(settled, i);
    HideKept(settled, i);
    CheckSanityConsistent(hidden, Some(i));
    assert CheckSanity(hidden, Some(i)).Ok?;
    var after, dropped := Settle(hidden, Some(i));
    CheckSanityConsistent(after, Some(i));
    assert CheckSanity(after, Some(i)).Ok?;
    if dropped != expected {
      return Err(AssertionError), after;
    }
    RestoreSaved(after, Some(i), settled);
    back := Restore(after, settled.sticks);
    AllCoordsCovered(settled, i);
    RegisterAgain(back.grid, AllCoords(back.sticks[i]), i);
    back := back.(grid := Register(back.grid, AllCoords(back.sticks[i]), i));
    CheckSanityConsistent(back, None);
    assert CheckSanity(back, None).Ok?;
    r := Ok(dropped);
  }

  /** The listed cubes of a stick of a well-kept document name it. */
  lemma AllCoordsCovered(doc: Document, i: nat)
    requires Kept(doc, None) && i < |doc.sticks|
    ensures forall k :: 0 <= k < |AllCoords(doc.sticks[i])| ==>
      AllCoords(doc.sticks[i])[k] in doc.grid && doc.grid[AllCoords(doc.sticks[i])[k]] == i
  {
    forall k | 0 <= k < |AllCoords(doc.sticks[i])|
      ensures AllCoords(doc.sticks[i])[k] in doc.grid && doc.grid[AllCoords(doc.sticks[i])[k]] == i
    {
      AllCoordsOccupied(doc.sticks[i], AllCoords(doc.sticks[i])[k]);
    }
  }

  /** `counts` lists the fake counts of the first `|counts|` sticks. */
  ghost predicate Counted(doc: Document, counts: seq<nat>)
  {
    |counts| <= |doc.sticks| &&
    forall j :: 0 <= j < |counts| ==> counts[j] == |Closure(doc, j)| - 1
  }

  lemma CountedAppend(doc: Document, counts: seq<nat>, v: nat)
    requires Counted(doc, counts) && |counts| < |doc.sticks|
    requires v == |Closure(doc, |counts|)| - 1
    ensures Counted(doc, counts + [v])
  {
  }

  /** Listed fake counts add up to `FallSum`. */
  lemma {:induction false} CountedSum(doc: Document, counts: seq<nat>)
    requires Counted(doc, counts)
    ensures Sum(counts) == FallSum(doc, |counts|)
    decreases |counts|
  {
    if |counts| > 0 {
      var front := counts[..|counts| - 1];
      assert Counted(doc, front);
      CountedSum(doc, front);
    }
  }

  /** The loop of 22p2.py's `main` over every stick of the settled
      document. A round that passes puts the document back as it was, so
      every round starts from the settled document. */
  method ChainLoop(settled: Document, rank: seq<nat>) returns (r: Result<nat>)
    requires Kept(settled, None) && Ranks(rank, |settled.sticks|)
    ensures r.Err? ==> r.error == AssertionError
    ensures r.Ok? ==> r.value == FallSum(settled, |settled.sticks|)
  {
    var i := 0;
    r := Ok(0);
    ghost var counts: seq<nat> := [];
    while i < |settled.sticks| && r.Ok?
      invariant 0 <= i <= |settled.sticks| && |counts| == i
      invariant r.Err? ==> r.error == AssertionError
      invariant r.Ok? ==> r.value == Sum(counts)
      invariant Counted(settled, counts)
      decreases |settled.sticks| - i, if r.Ok? then 1 else 0
    {
      var step, back := ChainStep(settled, i, rank);
      if step.Ok? {
        CountedAppend(settled, counts, step.value);
        SumAppend(counts, [step.value]);
        r := Ok(r.value + step.value);
        counts := counts + [step.value];
        i := i + 1;
      } else {
        r := step;
      }
    }
    CountedSum(settled, counts);
  }

  /** 22p2.py's `main`: build and settle the document, then for every
      stick compare the fake count with the real one. A mismatch fails
      the assertion; otherwise the answer is the number of sticks each
      removal brings down, added up over all sticks. */
  method ChainReactions(input: Input, rank: seq<nat>) returns (r: Result<nat>, settled: Document)
    requires InputApart(input) && Natural(input) && Ranks(rank, |input|)
    ensures MakeDocument(input).Err? ==> r == Err(AssertionError)
    ensures r.Err? ==> r.error == AssertionError
    ensures r.Ok? ==> MakeDocument(input).Ok? && Descended(MakeDocument(input).value.sticks, settled.sticks)
    ensures r.Ok? ==> Kept(settled, None) && Settled(settled)
    ensures r.Ok? ==> r.value == FallSum(settled, |settled.sticks|)
  {
    var made := MakeDocument(input);
    if made.Err? {
      return Err(made.error), Document([], map[], 0);
    }
    MakeDocumentKept(input);
    MakeDocumentSorted(input);
    var count;
    settled, count := Settle(made.value, None);
    assert |settled.sticks| == |input|;
    r := ChainLoop(settled, rank);
  }
}

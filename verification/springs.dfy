/**
 * Hot Springs (12.py): count the ways of reading each unknown spring ('?')
 * as operational ('.') or damaged ('#') so that the runs of damaged springs
 * have the listed lengths. The solver walks the row one spring at a time,
 * carrying the previous spring and the group list, whose head is the number
 * of damaged springs still owed to the current group.
 */
module Springs {
  import opened Seqs

  /** Rows as the grammar accepts them (12.py:12). */
  predicate SpringRow(s: string)
  {
    forall i :: 0 <= i < |s| ==> s[i] in ".?#"
  }

  /** A row without unknowns. */
  predicate Concrete(s: string)
  {
    forall i :: 0 <= i < |s| ==> s[i] == '.' || s[i] == '#'
  }

  predicate Positive(g: seq<nat>)
  {
    forall i :: 0 <= i < |g| ==> g[i] > 0
  }

  /** `groups_done` (12.py:78). */
  predicate Done(groups: seq<nat>)
  {
    |groups| == 0 || groups == [0]
  }

  /** The `while` of 12.py:105-106: drop the finished groups at the head. */
  function DropZeros(groups: seq<nat>): (r: seq<nat>)
    ensures |r| > 0 ==> r[0] > 0
    ensures |r| <= |groups| && r == groups[|groups| - |r|..]
  {
    if |groups| > 0 && groups[0] == 0 then DropZeros(groups[1..]) else groups
  }

  /** The head may be read as operational when no damaged spring is owed
      to the current group (12.py:93-99). */
  predicate MayBeOperational(head: char, groups: seq<nat>)
  {
    (head == '.' || head == '?') && (Done(groups) || groups[0] == 0)
  }

  /** The groups as the damaged branch sees them: after an operational
      spring the finished groups are dropped first (12.py:104-106). */
  function Owed(prev: char, groups: seq<nat>): seq<nat>
  {
    if prev == '.' then DropZeros(groups) else groups
  }

  /** The head may be read as damaged when the current group still owes a
      damaged spring (12.py:101-109). */
  predicate MayBeDamaged(prev: char, head: char, groups: seq<nat>)
  {
    (head == '#' || head == '?') && |Owed(prev, groups)| > 0 && Owed(prev, groups)[0] > 0
  }

  /** The group list after one more damaged spring of the head group
      (12.py:110). */
  function Decrement(groups: seq<nat>): seq<nat>
    requires |groups| > 0 && groups[0] > 0
  {
    [groups[0] - 1] + groups[1..]
  }

  /** `_find_permutation` (12.py:73-115) on the state `prev + springs`. */
  function Arrangements(prev: char, springs: string, groups: seq<nat>): nat
    decreases |springs|
  {
    if |springs| == 0 then (if Done(groups) then 1 else 0)
    else
      (if MayBeOperational(springs[0], groups) then Arrangements('.', springs[1..], groups) else 0)
      + (if MayBeDamaged(prev, springs[0], groups) then Arrangements('#', springs[1..], Decrement(Owed(prev, groups))) else 0)
  }

  /** `line_setup` (12.py:31-44): one operational spring in front of the
      row with its operational springs at both ends removed. */
  function LineSetup(springs: string): (r: string)
    ensures |r| > 0 && r[0] == '.'
    ensures |r| > 1 ==> r[1] != '.' && r[|r| - 1] != '.'
  {
    ['.'] + StripDots(springs)
  }

  /** `str.strip('.')`. */
  function StripDots(s: string): (r: string)
    ensures |r| > 0 ==> r[0] != '.' && r[|r| - 1] != '.'
  {
    TrimEndPrefix(TrimStart(s));
    TrimEnd(TrimStart(s))
  }

  lemma {:induction false} TrimEndPrefix(s: string)
    ensures |TrimEnd(s)| <= |s| && TrimEnd(s) == s[..|TrimEnd(s)|]
    decreases |s|
  {
    if |s| > 0 && s[|s| - 1] == '.' {
      var t := s[..|s| - 1];
      TrimEndPrefix(t);
      assert t[..|TrimEnd(t)|] == s[..|TrimEnd(t)|];
    }
  }

  function TrimStart(s: string): (r: string)
    ensures |r| > 0 ==> r[0] != '.'
  {
    if |s| > 0 && s[0] == '.' then TrimStart(s[1..]) else s
  }

  function TrimEnd(s: string): (r: string)
    ensures |r| > 0 ==> r[|r| - 1] != '.'
  {
    if |s| > 0 && s[|s| - 1] == '.' then TrimEnd(s[..|s| - 1]) else s
  }

  /** One row's count, as `find_all_permutation_counts` starts it
      (12.py:23-26, 50-53): the set-up row and the groups behind a 0. */
  function Permutations(springs: string, groups: seq<nat>): nat
  {
    var state := LineSetup(springs);
    Arrangements(state[0], state[1..], [0] + groups)
  }

  // ---------------------------------------------------------------------
  // The reference count: the damaged runs of a concrete row, and the number
  // of fillings of a row whose runs are the groups.
  // ---------------------------------------------------------------------

  /** Number of damaged springs at the front of `s`. */
  function Lead(s: string): (r: nat)
    ensures r <= |s|
    ensures |s| > 0 && s[0] == '#' ==> r >= 1
    ensures forall k :: 0 <= k < r ==> s[k] == '#'
    ensures r < |s| ==> s[r] != '#'
  {
    if |s| > 0 && s[0] == '#' then 1 + Lead(s[1..]) else 0
  }

  /** The lengths of the maximal runs of damaged springs, left to right. */
  function Runs(s: string): seq<nat>
    decreases |s|
  {
    if |s| == 0 then []
    else if s[0] != '#' then Runs(s[1..])
    else [Lead(s)] + Runs(s[Lead(s)..])
  }

  lemma {:induction false} RunsPositive(s: string)
    ensures Positive(Runs(s))
    decreases |s|
  {
    if |s| > 0 {
      if s[0] != '#' {
        RunsPositive(s[1..]);
      } else {
        RunsPositive(s[Lead(s)..]);
      }
    }
  }

  /** The number of ways to fill the unknowns of `s` from position `i` on,
      each either way, so that the damaged runs are `groups`. */
  function Fillings(s: string, i: nat, groups: seq<nat>): nat
    requires i <= |s|
    decreases |s| - i
  {
    if i == |s| then (if Runs(s) == groups then 1 else 0)
    else if s[i] == '?' then Fillings(s[i := '.'], i + 1, groups) + Fillings(s[i := '#'], i + 1, groups)
    else Fillings(s, i + 1, groups)
  }

  // ---------------------------------------------------------------------
  // The solver agrees with the reference.
  // ---------------------------------------------------------------------

  lemma DropLeadingZero(groups: seq<nat>)
    requires Positive(groups)
    ensures DropZeros([0] + groups) == groups
    ensures DropZeros(groups) == groups
  {
    assert ([0] + groups)[1..] == groups;
  }

  /** On a concrete row the solver is the indicator of a match. After an
      operational spring (head group finished, or no groups) the runs of the
      rest must be the remaining groups; after a damaged one the row must
      first finish the current group of `groups[0]` more damaged springs. */
  predicate Matches(s: string, groups: seq<nat>)
  {
    && (|groups| == 0 ==>
         Arrangements('.', s, groups) == (if Runs(s) == [] then 1 else 0))
    && (|groups| > 0 && groups[0] == 0 ==>
         Arrangements('.', s, groups) == (if Runs(s) == groups[1..] then 1 else 0))
    && (|groups| > 0 ==>
         Arrangements('#', s, groups) == (if Lead(s) == groups[0] && Runs(s[Lead(s)..]) == groups[1..] then 1 else 0))
  }

  lemma {:induction false} ConcreteMatches(s: string, groups: seq<nat>)
    requires Concrete(s)
    requires |groups| > 0 ==> Positive(groups[1..])
    ensures Matches(s, groups)
    decreases |s|
  {
    if |s| == 0 {
      EndOfRow(groups);
    } else if s[0] == '.' {
      ConcreteMatches(s[1..], groups);
      OperationalHead(s, groups);
    } else if |groups| == 0 {
      DamagedHead(s, groups);
    } else if groups[0] > 0 {
      ConcreteMatches(s[1..], Decrement(groups));
      DamagedHead(s, groups);
    } else if |groups| > 1 {
      ConcreteMatches(s[1..], Decrement(groups[1..]));
      DamagedHead(s, groups);
    } else {
      DamagedHead(s, groups);
    }
  }

  lemma EndOfRow(groups: seq<nat>)
    requires |groups| > 0 ==> Positive(groups[1..])
    ensures Matches("", groups)
  {
  }

  lemma OperationalHead(s: string, groups: seq<nat>)
    requires |s| > 0 && s[0] == '.'
    requires Matches(s[1..], groups)
    ensures Matches(s, groups)
  {
  }

  lemma DamagedHead(s: string, groups: seq<nat>)
    requires |s| > 0 && s[0] == '#'
    requires |groups| > 0 ==> Positive(groups[1..])
    requires |groups| > 0 && groups[0] == 0 && |groups| > 1 ==> Matches(s[1..], Decrement(groups[1..]))
    requires |groups| > 0 && groups[0] > 0 ==> Matches(s[1..], Decrement(groups))
    ensures Matches(s, groups)
  {
    var tail := s[1..];
    assert Lead(s) == 1 + Lead(tail);
    assert s[Lead(s)..] == tail[Lead(tail)..];
    if |groups| > 0 {
      DropLeadingZero(groups[1..]);
      if groups[0] == 0 {
        ClosedGroupThenDamaged(s, groups);
        assert Arrangements('#', s, groups) == 0;
      } else {
        OpenGroupThenDamaged(s, groups);
      }
    }
  }

  /** After an operational spring, a damaged one opens the next group. */
  lemma ClosedGroupThenDamaged(s: string, groups: seq<nat>)
    requires |s| > 0 && s[0] == '#'
    requires |groups| > 0 && groups[0] == 0 && Positive(groups[1..])
    requires |groups| > 1 ==> Matches(s[1..], Decrement(groups[1..]))
    ensures Arrangements('.', s, groups) == (if Runs(s) == groups[1..] then 1 else 0)
  {
    var tail := s[1..];
    var g := groups[1..];
    assert groups == [0] + g;
    var lead := Lead(tail);
    RunsAfterDamaged(s);
    if |g| > 0 {
      ClosedStep(s, g);
      assert Decrement(g)[1..] == g[1..];
      ConsEquals(lead + 1, Runs(tail[lead..]), g);
    } else {
      DropLeadingZero(g);
      assert Arrangements('.', s, groups) == 0;
    }
  }

  /** A run that starts at the head is the head and the run the tail
      starts with. */
  lemma RunsAfterDamaged(s: string)
    requires |s| > 0 && s[0] == '#'
    ensures Runs(s) == [Lead(s[1..]) + 1] + Runs(s[1..][Lead(s[1..])..])
  {
    assert Lead(s) == 1 + Lead(s[1..]);
    assert s[Lead(s)..] == s[1..][Lead(s[1..])..];
  }

  /** With the head group finished, a damaged head opens the next group. */
  lemma ClosedStep(s: string, g: seq<nat>)
    requires |s| > 0 && s[0] == '#' && |g| > 0 && Positive(g)
    ensures Arrangements('.', s, [0] + g) == Arrangements('#', s[1..], Decrement(g))
  {
    DropLeadingZero(g);
  }

  lemma ConsEquals(a: nat, b: seq<nat>, g: seq<nat>)
    requires |g| > 0
    ensures [a] + b == g <==> a == g[0] && b == g[1..]
  {
    if a == g[0] && b == g[1..] {
      assert g == [g[0]] + g[1..];
    }
  }

  /** After a damaged spring, another one continues the open group. */
  lemma OpenGroupThenDamaged(s: string, groups: seq<nat>)
    requires |s| > 0 && s[0] == '#'
    requires |groups| > 0 && groups[0] > 0
    requires Matches(s[1..], Decrement(groups))
    ensures Arrangements('#', s, groups) == (if Lead(s) == groups[0] && Runs(s[Lead(s)..]) == groups[1..] then 1 else 0)
  {
    var tail := s[1..];
    assert Lead(s) == 1 + Lead(tail);
    assert s[Lead(s)..] == tail[Lead(tail)..];
    assert Decrement(groups)[1..] == groups[1..];
  }

  /** The solver is additive in every unknown: an unknown counts its
      operational and its damaged reading. */
  lemma {:induction false} UnknownSplits(prev: char, s: string, i: nat, groups: seq<nat>)
    requires i < |s|
    ensures Arrangements(prev, s[i := '?'], groups) == Arrangements(prev, s[i := '.'], groups) + Arrangements(prev, s[i := '#'], groups)
    decreases i
  {
    if i == 0 {
      UnknownAtHead(prev, s[1..], groups);
      UpdateHead(s, '?');
      UpdateHead(s, '.');
      UpdateHead(s, '#');
    } else {
      var tail := s[1..];
      UnknownSplits('.', tail, i - 1, groups);
      if MayBeDamaged(prev, s[0], groups) {
        UnknownSplits('#', tail, i - 1, Decrement(Owed(prev, groups)));
      }
      KnownHead(prev, s[0], tail[i - 1 := '?'], tail[i - 1 := '.'], tail[i - 1 := '#'], groups);
      UpdateTail(s, i, '?');
      UpdateTail(s, i, '.');
      UpdateTail(s, i, '#');
    }
  }

  /** Replacing the first symbol. */
  lemma UpdateHead(s: string, c: char)
    requires 0 < |s|
    ensures s[0 := c] == [c] + s[1..]
  {
    var t := s[0 := c];
    var u := [c] + s[1..];
    assert forall k :: 0 <= k < |t| ==> t[k] == u[k];
  }

  /** Replacing a later symbol replaces it in the tail. */
  lemma UpdateTail(s: string, i: nat, c: char)
    requires 0 < i < |s|
    ensures s[i := c] == [s[0]] + s[1..][i - 1 := c]
  {
    var t := s[i := c];
    var u := [s[0]] + s[1..][i - 1 := c];
    assert forall k :: 0 <= k < |t| ==> t[k] == u[k];
  }

  lemma UnknownAtHead(prev: char, tail: string, groups: seq<nat>)
    ensures Arrangements(prev, ['?'] + tail, groups) == Arrangements(prev, ['.'] + tail, groups) + Arrangements(prev, ['#'] + tail, groups)
  {
    assert (['?'] + tail)[1..] == (['.'] + tail)[1..] == (['#'] + tail)[1..] == tail;
  }

  /** A known head passes the split of the rest through. */
  lemma KnownHead(prev: char, head: char, t: string, t1: string, t2: string, groups: seq<nat>)
    requires Arrangements('.', t, groups) == Arrangements('.', t1, groups) + Arrangements('.', t2, groups)
    requires MayBeDamaged(prev, head, groups) ==>
      var g := Decrement(Owed(prev, groups));
      Arrangements('#', t, g) == Arrangements('#', t1, g) + Arrangements('#', t2, g)
    ensures Arrangements(prev, [head] + t, groups) == Arrangements(prev, [head] + t1, groups) + Arrangements(prev, [head] + t2, groups)
  {
    assert ([head] + t)[1..] == t;
    assert ([head] + t1)[1..] == t1;
    assert ([head] + t2)[1..] == t2;
  }

  /** The solver counts the fillings of the unknowns from position `i` on. */
  lemma {:induction false} SolverCountsFillings(s: string, i: nat, groups: seq<nat>)
    requires SpringRow(s) && Positive(groups) && i <= |s|
    requires forall k :: 0 <= k < i ==> s[k] != '?'
    ensures Arrangements('.', s, [0] + groups) == Fillings(s, i, groups)
    decreases |s| - i
  {
    if i == |s| {
      assert ([0] + groups)[1..] == groups;
      ConcreteMatches(s, [0] + groups);
      assert Matches(s, [0] + groups);
    } else if s[i] == '?' {
      UnknownSplits('.', s, i, [0] + groups);
      assert s[i := '?'] == s;
      SolverCountsFillings(s[i := '.'], i + 1, groups);
      SolverCountsFillings(s[i := '#'], i + 1, groups);
    } else {
      SolverCountsFillings(s, i + 1, groups);
    }
  }

  function Dots(n: nat): (r: string)
    ensures |r| == n && forall k :: 0 <= k < n ==> r[k] == '.'
  {
    if n == 0 then [] else ['.'] + Dots(n - 1)
  }

  lemma DotsBothEnds(n: nat)
    ensures Dots(n + 1) == ['.'] + Dots(n) == Dots(n) + ['.']
  {
  }

  lemma {:induction false} RunsAfterDots(n: nat, s: string)
    ensures Runs(Dots(n) + s) == Runs(s)
    decreases n
  {
    if n > 0 {
      assert (Dots(n) + s)[1..] == Dots(n - 1) + s;
      RunsAfterDots(n - 1, s);
    } else {
      assert Dots(n) + s == s;
    }
  }

  lemma {:induction false} LeadBeforeDots(s: string, n: nat)
    ensures Lead(s + Dots(n)) == Lead(s)
    decreases |s|
  {
    if |s| > 0 && s[0] == '#' {
      assert (s + Dots(n))[1..] == s[1..] + Dots(n);
      LeadBeforeDots(s[1..], n);
    }
  }

  lemma {:induction false} RunsBeforeDots(s: string, n: nat)
    ensures Runs(s + Dots(n)) == Runs(s)
    decreases |s|
  {
    if |s| == 0 {
      assert s + Dots(n) == Dots(n) + s;
      RunsAfterDots(n, s);
      assert Runs(Dots(n) + s) == Runs(s);
    } else if s[0] != '#' {
      assert (s + Dots(n))[1..] == s[1..] + Dots(n);
      RunsBeforeDots(s[1..], n);
    } else {
      LeadBeforeDots(s, n);
      var k := Lead(s);
      assert (s + Dots(n))[k..] == s[k..] + Dots(n);
      RunsBeforeDots(s[k..], n);
    }
  }

  /** Operational springs around a row change no filling count. */
  lemma {:induction false} FillingsPadded(a: nat, x: string, b: nat, j: nat, groups: seq<nat>)
    requires j <= |x|
    ensures Fillings(Dots(a) + x + Dots(b), a + j, groups) == Fillings(x, j, groups)
    decreases |x| - j
  {
    var s := Dots(a) + x + Dots(b);
    if j == |x| {
      assert Fillings(s, a + j, groups) == Fillings(s, |s|, groups) by {
        FillingsSkip(s, a + j, |s|, groups);
      }
      RunsAfterDots(a, x + Dots(b));
      RunsBeforeDots(x, b);
      assert s == Dots(a) + (x + Dots(b));
    } else if x[j] == '?' {
      assert s[a + j := '.'] == Dots(a) + x[j := '.'] + Dots(b);
      assert s[a + j := '#'] == Dots(a) + x[j := '#'] + Dots(b);
      FillingsPadded(a, x[j := '.'], b, j + 1, groups);
      FillingsPadded(a, x[j := '#'], b, j + 1, groups);
    } else {
      FillingsPadded(a, x, b, j + 1, groups);
    }
  }

  /** Positions without unknowns are passed over. */
  lemma {:induction false} FillingsSkip(s: string, i: nat, k: nat, groups: seq<nat>)
    requires i <= k <= |s|
    requires forall m :: i <= m < k ==> s[m] != '?'
    ensures Fillings(s, i, groups) == Fillings(s, k, groups)
    decreases k - i
  {
    if i < k {
      FillingsSkip(s, i + 1, k, groups);
    }
  }

  /** `str.strip('.')` only removes operational springs at the two ends. */
  lemma StripSplit(s: string) returns (a: nat, b: nat)
    ensures s == Dots(a) + StripDots(s) + Dots(b)
  {
    var t := TrimStart(s);
    a := TrimStartSplit(s);
    b := TrimEndSplit(t);
  }

  lemma {:induction false} TrimStartSplit(s: string) returns (a: nat)
    ensures s == Dots(a) + TrimStart(s)
    decreases |s|
  {
    if |s| > 0 && s[0] == '.' {
      var k := TrimStartSplit(s[1..]);
      a := k + 1;
      assert s == [s[0]] + s[1..];
    } else {
      a := 0;
      assert Dots(0) + s == s;
    }
  }

  lemma {:induction false} TrimEndSplit(s: string) returns (b: nat)
    ensures s == TrimEnd(s) + Dots(b)
    decreases |s|
  {
    if |s| > 0 && s[|s| - 1] == '.' {
      var k := TrimEndSplit(s[..|s| - 1]);
      b := k + 1;
      DotsBothEnds(k);
      assert s == s[..|s| - 1] + [s[|s| - 1]];
    } else {
      b := 0;
      assert s + Dots(0) == s;
    }
  }

  lemma RowInside(a: nat, r: string, b: nat)
    requires SpringRow(Dots(a) + r + Dots(b))
    ensures SpringRow(r)
  {
    forall i | 0 <= i < |r|
      ensures r[i] in ".?#"
    {
      assert r[i] == (Dots(a) + r + Dots(b))[a + i];
    }
  }

  /** The count of a row is the number of ways of filling its unknowns so
      that the damaged runs are exactly the groups (12.py:20-115). */
  lemma PermutationsCountFillings(springs: string, groups: seq<nat>)
    requires SpringRow(springs) && Positive(groups)
    ensures Permutations(springs, groups) == Fillings(springs, 0, groups)
  {
    var r := StripDots(springs);
    var a, b := StripSplit(springs);
    RowInside(a, r, b);
    SolverCountsFillings(r, 0, groups);
    FillingsPadded(a, r, b, 0, groups);
    FillingsSkip(springs, 0, a, groups);
  }

  // ---------------------------------------------------------------------
  // The cache (12.py:29, 55-71).
  // ---------------------------------------------------------------------

  /** A cache entry: the state `prev + springs` and the group list. */
  type Key = (char, string, seq<nat>)

  /** Every cached count is the solver's count for its key. */
  predicate Sound(cache: map<Key, nat>)
  {
    forall k :: k in cache ==> cache[k] == Arrangements(k.0, k.1, k.2)
  }

  /** `find_permutation` (12.py:55-71): a cached key returns its entry;
      otherwise the count is computed, with every subproblem going through
      the cache, and stored. */
  function FindPermutation(cache: map<Key, nat>, prev: char, springs: string, groups: seq<nat>): (r: (nat, map<Key, nat>))
    ensures Sound(cache) ==> r.0 == Arrangements(prev, springs, groups) && Sound(r.1)
    ensures cache.Keys <= r.1.Keys && (prev, springs, groups) in r.1
    decreases |springs|, 1
  {
    var key := (prev, springs, groups);
    if key in cache then (cache[key], cache)
    else
      var (v, c) := Explore(cache, prev, springs, groups);
      (v, c[key := v])
  }

  /** `_find_permutation` with its two recursive calls made through the
      cache, which each call may grow. */
  function Explore(cache: map<Key, nat>, prev: char, springs: string, groups: seq<nat>): (r: (nat, map<Key, nat>))
    ensures Sound(cache) ==> r.0 == Arrangements(prev, springs, groups) && Sound(r.1)
    ensures cache.Keys <= r.1.Keys
    decreases |springs|, 0
  {
    if |springs| == 0 then (if Done(groups) then 1 else 0, cache)
    else
      var (asEmpty, c1) :=
        if MayBeOperational(springs[0], groups) then FindPermutation(cache, '.', springs[1..], groups) else (0, cache);
      var (asSpring, c2) :=
        if MayBeDamaged(prev, springs[0], groups) then FindPermutation(c1, '#', springs[1..], Decrement(Owed(prev, groups))) else (0, c1);
      (asEmpty + asSpring, c2)
  }

  /** `find_all_permutation_counts` (12.py:46-53) with one cache shared by
      all rows: each count is the uncached count of its row. */
  method FindAllPermutationCounts(rows: seq<(string, seq<nat>)>) returns (counts: seq<nat>)
    ensures |counts| == |rows|
    ensures forall i :: 0 <= i < |rows| ==> counts[i] == Permutations(rows[i].0, rows[i].1)
  {
    var cache: map<Key, nat> := map[];
    counts := [];
    var i := 0;
    while i < |rows|
      invariant 0 <= i <= |rows| && |counts| == i
      invariant Sound(cache)
      invariant forall k :: 0 <= k < i ==> counts[k] == Permutations(rows[k].0, rows[k].1)
    {
      var state := LineSetup(rows[i].0);
      var r := FindPermutation(cache, state[0], state[1..], [0] + rows[i].1);
      cache := r.1;
      counts := counts + [r.0];
      i := i + 1;
    }
  }

  /** The printed answer (12.py:117-122). */
  function TotalPermutations(rows: seq<(string, seq<nat>)>): nat
  {
    if |rows| == 0 then 0 else TotalPermutations(rows[..|rows| - 1]) + Permutations(rows[|rows| - 1].0, rows[|rows| - 1].1)
  }

  /** The total counts, row by row, the fillings of the unknowns. */
  lemma {:induction false} TotalCountsFillings(rows: seq<(string, seq<nat>)>)
    requires forall i :: 0 <= i < |rows| ==> SpringRow(rows[i].0) && Positive(rows[i].1)
    ensures TotalPermutations(rows) == TotalFillings(rows)
  {
    if |rows| > 0 {
      TotalCountsFillings(rows[..|rows| - 1]);
      PermutationsCountFillings(rows[|rows| - 1].0, rows[|rows| - 1].1);
    }
  }

  function TotalFillings(rows: seq<(string, seq<nat>)>): nat
  {
    if |rows| == 0 then 0 else TotalFillings(rows[..|rows| - 1]) + Fillings(rows[|rows| - 1].0, 0, rows[|rows| - 1].1)
  }
}

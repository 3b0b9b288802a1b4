/**
 * Python's `sorted(xs, key=cmp_to_key(cmp))`: a stable sort driven by a
 * three-way comparator, where `cmp(a, b) < 0` puts `a` first and `0` is a
 * tie. The model is an insertion sort that, like Python's, only ever asks
 * whether `cmp(x, y) < 0`.
 */
module Sorting {

  function Sign(x: int): int
  {
    if x < 0 then -1 else if x > 0 then 1 else 0
  }

  /** `s` is in comparator order: no element is placed after one that should follow it. */
  predicate Sorted<T>(s: seq<T>, cmp: (T, T) -> int)
  {
    forall i, j :: 0 <= i < j < |s| ==> cmp(s[i], s[j]) <= 0
  }

  /** On the values of `s`, the comparator is antisymmetric in sign and its
      "goes no later" relation is transitive: a total preorder. */
  ghost predicate Consistent<T>(s: seq<T>, cmp: (T, T) -> int)
  {
    && (forall a, b :: a in s && b in s ==> Sign(cmp(a, b)) == -Sign(cmp(b, a)))
    && (forall a, b, c :: a in s && b in s && c in s && cmp(a, b) <= 0 && cmp(b, c) <= 0 ==> cmp(a, c) <= 0)
  }

  /** Ties only between equal values: a total order on the values of `s`. */
  ghost predicate Strict<T>(s: seq<T>, cmp: (T, T) -> int)
  {
    forall a, b :: a in s && b in s && cmp(a, b) == 0 ==> a == b
  }

  /** Places `x` before the first element it goes strictly before, so that
      `x` follows every element it ties with. */
  function Insert<T>(s: seq<T>, x: T, cmp: (T, T) -> int): (r: seq<T>)
    ensures multiset(r) == multiset(s) + multiset{x}
    ensures |r| == |s| + 1
  {
    if |s| == 0 then [x]
    else if cmp(x, s[0]) < 0 then [x] + s
    else
      assert s == [s[0]] + s[1..];
      [s[0]] + Insert(s[1..], x, cmp)
  }

  /** The stable sort: each element in turn is inserted into the sorted prefix. */
  function Sort<T>(s: seq<T>, cmp: (T, T) -> int): (r: seq<T>)
    ensures multiset(r) == multiset(s)
    ensures |r| == |s|
  {
    if |s| == 0 then []
    else
      assert s == s[..|s| - 1] + [s[|s| - 1]];
      Insert(Sort(s[..|s| - 1], cmp), s[|s| - 1], cmp)
  }

  /** A head that goes no later than anything of a sorted tail keeps it sorted. */
  lemma ConsSorted<T>(h: T, r: seq<T>, cmp: (T, T) -> int)
    requires Sorted(r, cmp) && forall k :: 0 <= k < |r| ==> cmp(h, r[k]) <= 0
    ensures Sorted([h] + r, cmp)
  {
    var t := [h] + r;
    forall i, j | 0 <= i < j < |t|
      ensures cmp(t[i], t[j]) <= 0
    {
      if i > 0 {
        assert t[i] == r[i - 1] && t[j] == r[j - 1];
      } else {
        assert t[j] == r[j - 1];
      }
    }
  }

  /** What `Insert` places after the head of `s` all comes no earlier than it. */
  lemma HeadFirst<T>(s: seq<T>, x: T, cmp: (T, T) -> int, all: seq<T>)
    requires Consistent(all, cmp)
    requires x in all && forall i :: 0 <= i < |s| ==> s[i] in all
    requires Sorted(s, cmp) && |s| > 0 && cmp(x, s[0]) >= 0
    ensures forall k :: 0 <= k < |Insert(s[1..], x, cmp)| ==> cmp(s[0], Insert(s[1..], x, cmp)[k]) <= 0
  {
    var rest := s[1..];
    var r := Insert(rest, x, cmp);
    assert Sign(cmp(s[0], x)) == -Sign(cmp(x, s[0]));
    forall k | 0 <= k < |r|
      ensures cmp(s[0], r[k]) <= 0
    {
      assert r[k] in multiset(rest) + multiset{x};
      if r[k] != x {
        assert r[k] in rest;
        var m :| 0 <= m < |rest| && rest[m] == r[k];
        assert s[m + 1] == r[k];
      }
    }
  }

  lemma {:induction false} InsertSorted<T>(s: seq<T>, x: T, cmp: (T, T) -> int, all: seq<T>)
    requires Consistent(all, cmp)
    requires x in all && forall i :: 0 <= i < |s| ==> s[i] in all
    requires Sorted(s, cmp)
    ensures Sorted(Insert(s, x, cmp), cmp)
    decreases |s|
  {
    if |s| > 0 && cmp(x, s[0]) >= 0 {
      assert Sorted(s[1..], cmp);
      InsertSorted(s[1..], x, cmp, all);
      HeadFirst(s, x, cmp, all);
      ConsSorted(s[0], Insert(s[1..], x, cmp), cmp);
    } else if |s| > 0 {
      forall j | 0 <= j < |s|
        ensures cmp(x, s[j]) <= 0
      {
        if j > 0 {
          assert cmp(s[0], s[j]) <= 0;
        }
      }
      ConsSorted(x, s, cmp);
    }
  }

  /** Sorting a sequence on whose values the comparator is a total preorder
      yields its values in comparator order. */
  lemma {:induction false} SortSorted<T>(s: seq<T>, cmp: (T, T) -> int)
    requires Consistent(s, cmp)
    ensures Sorted(Sort(s, cmp), cmp)
    decreases |s|
  {
    if |s| > 0 {
      var init := s[..|s| - 1];
      assert Consistent(init, cmp) by {
        assert forall a :: a in init ==> a in s;
      }
      SortSorted(init, cmp);
      var sorted := Sort(init, cmp);
      forall i | 0 <= i < |sorted|
        ensures sorted[i] in s
      {
        assert sorted[i] in multiset(init);
      }
      InsertSorted(sorted, s[|s| - 1], cmp, s);
    }
  }

  /** What holds of the comparator on the values of `s` holds on any of them. */
  lemma Within<T>(sub: seq<T>, s: seq<T>, cmp: (T, T) -> int)
    requires forall x :: x in sub ==> x in s
    ensures Consistent(s, cmp) ==> Consistent(sub, cmp)
    ensures Strict(s, cmp) ==> Strict(sub, cmp)
  {
  }

  lemma SortedTail<T>(s: seq<T>, cmp: (T, T) -> int)
    requires |s| > 0 && Sorted(s, cmp)
    ensures Sorted(s[1..], cmp)
  {
    assert forall i :: 0 <= i < |s| - 1 ==> s[1..][i] == s[i + 1];
  }

  /** Two sorted arrangements of the same values start with the same value
      under a total order. */
  lemma HeadsEqual<T>(a: seq<T>, b: seq<T>, cmp: (T, T) -> int)
    requires |a| > 0 && |b| > 0 && multiset(a) == multiset(b)
    requires Consistent(a, cmp) && Strict(a, cmp)
    requires Sorted(a, cmp) && Sorted(b, cmp)
    ensures a[0] == b[0]
  {
    assert a[0] in multiset(b) && b[0] in multiset(a);
    var i :| 0 <= i < |b| && b[i] == a[0];
    var j :| 0 <= j < |a| && a[j] == b[0];
    assert cmp(b[0], a[0]) <= 0 by {
      if i > 0 { assert cmp(b[0], b[i]) <= 0; }
    }
    assert cmp(a[0], b[0]) <= 0 by {
      if j > 0 { assert cmp(a[0], a[j]) <= 0; }
    }
    assert a[0] in a && b[0] in a;
  }

  /** Under a total order there is only one sorted arrangement of a multiset
      of values. */
  lemma {:induction false} SortedUnique<T>(a: seq<T>, b: seq<T>, cmp: (T, T) -> int)
    requires multiset(a) == multiset(b)
    requires Consistent(a, cmp) && Strict(a, cmp)
    requires Sorted(a, cmp) && Sorted(b, cmp)
    ensures a == b
    decreases |a|
  {
    assert |a| == |multiset(a)| == |b|;
    if |a| > 0 {
      HeadsEqual(a, b, cmp);
      TailMultiset(a, b);
      TailOrdered(a, cmp);
      SortedTail(b, cmp);
      SortedUnique(a[1..], b[1..], cmp);
      SameHeadTail(a, b);
    }
  }

  /** The tail of a sorted sequence under a total order is one too. */
  lemma TailOrdered<T>(a: seq<T>, cmp: (T, T) -> int)
    requires |a| > 0 && Consistent(a, cmp) && Strict(a, cmp) && Sorted(a, cmp)
    ensures Consistent(a[1..], cmp) && Strict(a[1..], cmp) && Sorted(a[1..], cmp)
  {
    Within(a[1..], a, cmp);
    SortedTail(a, cmp);
  }

  lemma SameHeadTail<T>(a: seq<T>, b: seq<T>)
    requires |a| > 0 && |b| > 0 && a[0] == b[0] && a[1..] == b[1..]
    ensures a == b
  {
    assert a == [a[0]] + a[1..] && b == [b[0]] + b[1..];
  }

  lemma TailMultiset<T>(a: seq<T>, b: seq<T>)
    requires |a| > 0 && |b| > 0 && a[0] == b[0] && multiset(a) == multiset(b)
    ensures multiset(a[1..]) == multiset(b[1..])
  {
    assert a == [a[0]] + a[1..];
    assert b == [b[0]] + b[1..];
    assert multiset(a[1..]) == multiset(a) - multiset{a[0]};
    assert multiset(b[1..]) == multiset(b) - multiset{a[0]};
  }

  /** Under a total order, the sort result depends only on the multiset of
      values, not on their input order. */
  lemma SortOrderIndependent<T>(s: seq<T>, t: seq<T>, cmp: (T, T) -> int)
    requires multiset(s) == multiset(t)
    requires Consistent(s, cmp) && Strict(s, cmp)
    ensures Sort(s, cmp) == Sort(t, cmp)
  {
    forall x | x in t
      ensures x in s
    {
      assert x in multiset(t);
    }
    assert Consistent(t, cmp);
    SortSorted(s, cmp);
    SortSorted(t, cmp);
    var a := Sort(s, cmp);
    forall x | x in a
      ensures x in s
    {
      assert x in multiset(a);
    }
    SortedUnique(a, Sort(t, cmp), cmp);
  }
}

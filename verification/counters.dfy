/**
 * `defaultdict(int)` used as a counter: `d[x] += 1` for each element in
 * turn (7.py:33-36 and 7p2.py:33-36).
 */
module Counters {
  import opened Seqs
  import opened Dicts

  /** A `defaultdict(int)` after `d[x] += 1` for each `x` of `s` in turn:
      the keys are the distinct values in order of first appearance. */
  function Counter<K(==,!new)>(s: seq<K>): (r: Dict<K, nat>)
    ensures r.Valid()
    ensures forall k :: k in r.entries <==> k in s
    ensures forall k :: k in r.entries ==> r.entries[k] == Count(s, k) && r.entries[k] >= 1
  {
    if |s| == 0 then Empty()
    else
      var init := s[..|s| - 1];
      var c := s[|s| - 1];
      var prev := Counter(init);
      var r := Increment(prev, c);
      assert s == init + [c];
      assert forall k :: k in s <==> k in init || k == c;
      assert forall k :: k in r.entries ==> r.entries[k] == Count(s, k) && r.entries[k] >= 1 by {
        forall k | k in r.entries
          ensures r.entries[k] == Count(s, k) && r.entries[k] >= 1
        {
          assert Count(s, k) == Count(init, k) + (if k == c then 1 else 0);
          CountPositive(init, k);
        }
      }
      r
  }

  /** `d[c] += 1` on a `defaultdict(int)`. */
  function Increment<K(==)>(d: Dict<K, nat>, c: K): (r: Dict<K, nat>)
    ensures r == d.Put(c, d.Get(c, 0) + 1)
  {
    d.Put(c, d.Get(c, 0) + 1)
  }

  lemma IncrementTotal<K>(d: Dict<K, nat>, c: K)
    requires d.Valid()
    ensures Sum(Increment(d, c).Values()) == Sum(d.Values()) + 1
  {
    var before := d.Values();
    if c in d.entries {
      var p :| 0 <= p < |d.keys| && d.keys[p] == c;
      var v := before[p] + 1;
      assert d.Get(c, 0) + 1 == v;
      ValuesPut(d, c, p, v);
      assert Increment(d, c) == d.Put(c, v);
      assert Increment(d, c).Values() == before[p := v];
      SumUpdate(before, p, v);
      assert Sum(before[p := v]) == Sum(before) + 1;
    } else {
      assert d.Get(c, 0) + 1 == 1;
      ValuesPutNew(d, c, 1);
      assert Increment(d, c).Values() == before + [1];
      SumAppend(before, [1]);
      assert Sum(before + [1]) == Sum(before) + 1;
    }
  }

  /** The counts add up to the length: every position is counted once. */
  lemma {:induction false} CounterTotal<K(!new)>(s: seq<K>)
    ensures Sum(Counter(s).Values()) == |s|
    decreases |s|
  {
    if |s| > 0 {
      var init := s[..|s| - 1];
      CounterTotal(init);
      IncrementTotal(Counter(init), s[|s| - 1]);
    }
  }

  /** Overwriting the value of the key at position `p` changes that one value. */
  lemma ValuesPut<K, V>(d: Dict<K, V>, k: K, p: nat, v: V)
    requires d.Valid() && p < |d.keys| && d.keys[p] == k
    ensures d.Put(k, v).Values() == d.Values()[p := v]
  {
    var r := d.Put(k, v);
    assert r.keys == d.keys;
    forall i | 0 <= i < |d.keys|
      ensures r.Values()[i] == d.Values()[p := v][i]
    {
      if i != p {
        assert d.keys[i] != d.keys[p];
      }
    }
  }

  /** A new key adds its value at the end. */
  lemma ValuesPutNew<K, V>(d: Dict<K, V>, k: K, v: V)
    requires d.Valid() && k !in d.entries
    ensures d.Put(k, v).Values() == d.Values() + [v]
  {
    var r := d.Put(k, v);
    assert r.keys == d.keys + [k];
    forall i | 0 <= i < |r.keys|
      ensures r.Values()[i] == (d.Values() + [v])[i]
    {
      if i < |d.keys| {
        assert d.keys[i] in d.entries;
      }
    }
  }

  lemma {:induction false} SumUpdate(s: seq<int>, p: nat, v: int)
    requires p < |s|
    ensures Sum(s[p := v]) == Sum(s) - s[p] + v
    decreases |s|
  {
    var n := |s| - 1;
    if p < n {
      assert s[p := v][..n] == s[..n][p := v];
      SumUpdate(s[..n], p, v);
    } else {
      assert s[p := v][..n] == s[..n];
    }
  }

}

/** The park panel's ranking in src/components/park.js: the parsed 2021 counts of
    every row are copied, the copy is sorted in place from largest to smallest,
    and the value at index `floor(n * 0.5)` is the threshold a district must beat. */
module Ranking {
  import opened Rows

  /** From largest to smallest. */
  predicate Descending(s: seq<real>)
  {
    forall i, j :: 0 <= i < j < |s| ==> s[i] >= s[j]
  }

  /** `sort((a, b) => b - a)`: sorts the array in place, largest first, keeping its
      values. The comparator fixes the order only; any sorting algorithm does, and
      this one brings the largest remaining value to the front at each step. */
  method SortDescending(a: array<real>)
    modifies a
    ensures Descending(a[..])
    ensures multiset(a[..]) == multiset(old(a[..]))
  {
    for i := 0 to a.Length
      invariant SortedUpTo(a[..], i)
      invariant multiset(a[..]) == multiset(old(a[..]))
    {
      PlaceMax(a, i);
    }
  }

  /** The first `i` values are in place: descending, and none below a later one. */
  predicate SortedUpTo(s: seq<real>, i: nat)
  {
    && (forall p, q :: 0 <= p < q < i && q < |s| ==> s[p] >= s[q])
    && (forall p, q :: 0 <= p < i <= q < |s| ==> s[p] >= s[q])
  }

  /** One step: a largest value of `a[i..]` is swapped to index `i`. */
  method PlaceMax(a: array<real>, i: nat)
    requires i < a.Length && SortedUpTo(a[..], i)
    modifies a
    ensures SortedUpTo(a[..], i + 1)
    ensures multiset(a[..]) == multiset(old(a[..]))
  {
    var m := MaxIndex(a, i);
    ghost var b := a[..];
    a[i], a[m] := a[m], a[i];
    assert a[..] == b[i := b[m]][m := b[i]];
    forall q | i < q < a.Length
      ensures a[q] <= a[i] && forall p :: 0 <= p < i ==> a[p] >= a[q]
    {
      var r := if q == m then i else q;
      assert a[q] == b[r] && i <= r;
    }
  }

  /** The index of a largest value of `a[from..]`. */
  method MaxIndex(a: array<real>, from: nat) returns (m: nat)
    requires from < a.Length
    ensures from <= m < a.Length
    ensures forall k :: from <= k < a.Length ==> a[k] <= a[m]
  {
    m := from;
    for k := from + 1 to a.Length
      invariant from <= m < k
      invariant forall t :: from <= t < k ==> a[t] <= a[m]
    {
      if a[k] > a[m] {
        m := k;
      }
    }
  }

  /** How many values exceed `t`. */
  function CountAbove(s: seq<real>, t: real): (n: nat)
    ensures n <= |s|
  {
    if |s| == 0 then 0 else (if s[0] > t then 1 else 0) + CountAbove(s[1..], t)
  }

  /** How many values reach `t`. */
  function CountAtLeast(s: seq<real>, t: real): (n: nat)
    ensures n <= |s|
  {
    if |s| == 0 then 0 else (if s[0] >= t then 1 else 0) + CountAtLeast(s[1..], t)
  }

  /** `t` is the value at index `k` of the values sorted largest first: fewer than
      `k + 1` values exceed it and more than `k` reach it. */
  predicate IsRankValue(s: seq<real>, k: nat, t: real)
  {
    t in s && CountAbove(s, t) <= k < CountAtLeast(s, t)
  }

  lemma {:induction false} CountAppend(s: seq<real>, u: seq<real>, t: real)
    ensures CountAbove(s + u, t) == CountAbove(s, t) + CountAbove(u, t)
    ensures CountAtLeast(s + u, t) == CountAtLeast(s, t) + CountAtLeast(u, t)
  {
    if |s| > 0 {
      assert (s + u)[1..] == s[1..] + u;
      CountAppend(s[1..], u, t);
    } else {
      assert s + u == u;
    }
  }

  /** Counts see only the multiset of the values: reordering changes no count. */
  lemma {:induction false} CountPermutation(s: seq<real>, u: seq<real>, t: real)
    requires multiset(s) == multiset(u)
    ensures CountAbove(s, t) == CountAbove(u, t)
    ensures CountAtLeast(s, t) == CountAtLeast(u, t)
    decreases |s|
  {
    if |s| > 0 {
      assert s[0] in multiset(u);
      var i :| 0 <= i < |u| && u[i] == s[0];
      var rest := u[..i] + u[i + 1..];
      RemoveAt(u, i);
      assert s == [s[0]] + s[1..];
      assert multiset(s[1..]) == multiset(s) - multiset{s[0]};
      CountPermutation(s[1..], rest, t);
      CountRemoveAt(u, i, t);
    } else {
      assert |multiset(u)| == 0;
    }
  }

  /** Dropping the entry at `i` drops one copy of its value. */
  lemma RemoveAt(u: seq<real>, i: nat)
    requires i < |u|
    ensures multiset(u[..i] + u[i + 1..]) == multiset(u) - multiset{u[i]}
  {
    assert u == u[..i] + ([u[i]] + u[i + 1..]);
  }

  /** Dropping the entry at `i` drops its share of each count. */
  lemma CountRemoveAt(u: seq<real>, i: nat, t: real)
    requires i < |u|
    ensures CountAbove(u, t) == (if u[i] > t then 1 else 0) + CountAbove(u[..i] + u[i + 1..], t)
    ensures CountAtLeast(u, t) == (if u[i] >= t then 1 else 0) + CountAtLeast(u[..i] + u[i + 1..], t)
  {
    assert u == u[..i] + ([u[i]] + u[i + 1..]);
    CountAppend(u[..i], [u[i]] + u[i + 1..], t);
    CountAppend([u[i]], u[i + 1..], t);
    CountAppend(u[..i], u[i + 1..], t);
    assert [u[i]][1..] == [];
  }

  /** In a descending sequence, the value at index `k` is its rank-`k` value. */
  lemma {:induction false} DescendingRank(d: seq<real>, k: nat)
    requires Descending(d) && k < |d|
    ensures IsRankValue(d, k, d[k])
  {
    AboveBefore(d, d[k], k);
    AtLeastThrough(d, d[k], k);
  }

  /** Only values before index `k` can exceed `d[k]`. */
  lemma {:induction false} AboveBefore(d: seq<real>, t: real, k: nat)
    requires Descending(d) && k < |d| && t == d[k]
    ensures CountAbove(d, t) <= k
    decreases k
  {
    if k > 0 {
      assert Descending(d[1..]);
      AboveBefore(d[1..], t, k - 1);
    } else {
      AboveNone(d, t);
    }
  }

  lemma {:induction false} AboveNone(d: seq<real>, t: real)
    requires forall i :: 0 <= i < |d| ==> d[i] <= t
    ensures CountAbove(d, t) == 0
  {
    if |d| > 0 {
      AboveNone(d[1..], t);
    }
  }

  /** Every value up to index `k` reaches `d[k]`. */
  lemma {:induction false} AtLeastThrough(d: seq<real>, t: real, k: nat)
    requires Descending(d) && k < |d| && t == d[k]
    ensures CountAtLeast(d, t) >= k + 1
    decreases k
  {
    if k > 0 {
      assert Descending(d[1..]);
      AtLeastThrough(d[1..], t, k - 1);
    }
  }

  /** Fewer values reach a larger threshold than exceed a smaller one. */
  lemma {:induction false} CountsOrdered(s: seq<real>, t: real, t': real)
    requires t < t'
    ensures CountAtLeast(s, t') <= CountAbove(s, t)
  {
    if |s| > 0 {
      CountsOrdered(s[1..], t, t');
    }
  }

  /** The rank-`k` value is unique: it depends on the values only, not on their order. */
  lemma RankValueUnique(s: seq<real>, k: nat, t: real, t': real)
    requires IsRankValue(s, k, t) && IsRankValue(s, k, t')
    ensures t == t'
  {
    if t < t' {
      CountsOrdered(s, t, t');
    } else if t' < t {
      CountsOrdered(s, t', t);
    }
  }

  /** `sortedData[Math.floor(sortedData.length * 0.5)]`: the median-rank value of the
      values sorted largest first, undefined when there are none. The values
      themselves are left as they were; only a copy is sorted. */
  method RankThreshold(values: seq<real>) returns (t: Option<real>)
    ensures t.None? <==> |values| == 0
    ensures t.Some? ==> IsRankValue(values, |values| / 2, t.value)
  {
    var a := new real[|values|](i requires 0 <= i < |values| => values[i]);
    assert a[..] == values;
    SortDescending(a);
    var k := a.Length / 2;
    if k < a.Length {
      DescendingRank(a[..], k);
      CountPermutation(a[..], values, a[k]);
      assert a[k] in multiset(values);
      t := Some(a[k]);
    } else {
      t := None;
    }
  }

  /** Four districts with 10, 20, 30 and 40 parks: the threshold is 20. */
  lemma RankExample(t: real)
    requires IsRankValue([10.0, 20.0, 30.0, 40.0], 2, t)
    ensures t == 20.0
  {
    var s := [10.0, 20.0, 30.0, 40.0];
    assert CountAbove(s, 20.0) == 2 && CountAtLeast(s, 20.0) == 3;
    RankValueUnique(s, 2, t, 20.0);
  }
}

/** pandas' `median()` of a group of present values: the middle value of the
    sorted group, or the mean of the two middle values when the group has an
    even number of values. */
module Statistics {

  predicate Sorted(s: seq<real>)
  {
    forall i, j :: 0 <= i < j < |s| ==> s[i] <= s[j]
  }

  /** A value no larger than the head of a sorted sequence can go in
      front of it. */
  lemma SortedCons(a: real, t: seq<real>)
    requires Sorted(t) && (|t| > 0 ==> a <= t[0])
    ensures Sorted([a] + t)
  {
    var r := [a] + t;
    forall i, j | 0 <= i < j < |r| ensures r[i] <= r[j] {
      assert r[j] == t[j - 1];
      if i == 0 {
        assert t[0] <= t[j - 1];
      } else {
        assert r[i] == t[i - 1];
      }
    }
  }

  lemma SortedTail(s: seq<real>)
    requires Sorted(s) && |s| > 0
    ensures Sorted(s[1..])
  {
    forall i, j | 0 <= i < j < |s| - 1 ensures s[1..][i] <= s[1..][j] {
      assert s[1..][i] == s[i + 1] && s[1..][j] == s[j + 1];
    }
  }

  /** Insert `x` into a sorted sequence before the first larger value. */
  function Insert(x: real, s: seq<real>): (r: seq<real>)
    requires Sorted(s)
    ensures Sorted(r)
    ensures multiset(r) == multiset(s) + multiset{x}
    ensures |r| == |s| + 1
    ensures r[0] == x || (|s| > 0 && r[0] == s[0])
  {
    if s == [] then [x]
    else if x <= s[0] then
      SortedCons(x, s);
      [x] + s
    else
      SortedTail(s);
      var tail := Insert(x, s[1..]);
      assert s == [s[0]] + s[1..];
      assert |s| > 1 ==> s[0] <= s[1];
      SortedCons(s[0], tail);
      [s[0]] + tail
  }

  /** The values in ascending order. */
  function Sort(s: seq<real>): (r: seq<real>)
    ensures Sorted(r)
    ensures multiset(r) == multiset(s)
    ensures |r| == |s|
  {
    if s == [] then []
    else
      assert s == [s[0]] + s[1..];
      Insert(s[0], Sort(s[1..]))
  }

  /** The middle value of a sorted sequence, or the mean of its two
      middle values. */
  function Middle(t: seq<real>): real
    requires |t| > 0
  {
    var n := |t|;
    if n % 2 == 1 then t[n / 2] else (t[n / 2 - 1] + t[n / 2]) / 2.0
  }

  function Median(s: seq<real>): real
    requires |s| > 0
  {
    Middle(Sort(s))
  }

  /** Number of values strictly below `m`. */
  function CountBelow(s: seq<real>, m: real): (c: nat)
    ensures c <= |s|
  {
    if s == [] then 0 else (if s[0] < m then 1 else 0) + CountBelow(s[1..], m)
  }

  /** Number of values strictly above `m`. */
  function CountAbove(s: seq<real>, m: real): (c: nat)
    ensures c <= |s|
  {
    if s == [] then 0 else (if s[0] > m then 1 else 0) + CountAbove(s[1..], m)
  }

  lemma {:induction false} CountInsert(x: real, s: seq<real>, m: real)
    requires Sorted(s)
    ensures CountBelow(Insert(x, s), m) == (if x < m then 1 else 0) + CountBelow(s, m)
    ensures CountAbove(Insert(x, s), m) == (if x > m then 1 else 0) + CountAbove(s, m)
    decreases |s|
  {
    var r := Insert(x, s);
    if s == [] {
      assert r[1..] == [];
    } else if x <= s[0] {
      assert r[1..] == s;
    } else {
      SortedTail(s);
      var tail := Insert(x, s[1..]);
      CountInsert(x, s[1..], m);
      assert r[0] == s[0] && r[1..] == tail;
    }
  }

  /** Sorting does not change how many values lie below or above `m`. */
  lemma {:induction false} CountSort(s: seq<real>, m: real)
    ensures CountBelow(Sort(s), m) == CountBelow(s, m)
    ensures CountAbove(Sort(s), m) == CountAbove(s, m)
  {
    if s != [] {
      CountSort(s[1..], m);
      CountInsert(s[0], Sort(s[1..]), m);
    }
  }

  /** In a sorted sequence, values below `m` all sit before position `p`
      when the value at `p` is at least `m`; likewise above. */
  lemma {:induction false} CountSortedBelow(t: seq<real>, p: nat, m: real)
    requires Sorted(t) && p < |t| && t[p] >= m
    ensures CountBelow(t, m) <= p
    decreases p
  {
    if p > 0 {
      CountSortedBelow(t[1..], p - 1, m);
    } else {
      CountNoneBelow(t, m);
    }
  }

  lemma {:induction false} CountNoneBelow(t: seq<real>, m: real)
    requires forall i :: 0 <= i < |t| ==> t[i] >= m
    ensures CountBelow(t, m) == 0
  {
    if t != [] {
      CountNoneBelow(t[1..], m);
    }
  }

  lemma {:induction false} CountSortedAbove(t: seq<real>, p: nat, m: real)
    requires Sorted(t) && p < |t| && t[p] <= m
    ensures CountAbove(t, m) <= |t| - 1 - p
    decreases p
  {
    if p > 0 {
      CountSortedAbove(t[1..], p - 1, m);
    } else {
      assert t[0] <= m;
    }
  }

  /** The defining property of a median: at most half of the values lie
      strictly below it, and at most half strictly above. */
  lemma MedianSplitsInHalves(s: seq<real>)
    requires |s| > 0
    ensures CountBelow(s, Median(s)) <= |s| / 2
    ensures CountAbove(s, Median(s)) <= |s| / 2
  {
    CountSort(s, Median(s));
    MiddleSplitsInHalves(Sort(s));
  }

  lemma MiddleSplitsInHalves(t: seq<real>)
    requires |t| > 0 && Sorted(t)
    ensures CountBelow(t, Middle(t)) <= |t| / 2
    ensures CountAbove(t, Middle(t)) <= |t| / 2
  {
    var n, m := |t|, Middle(t);
    if n % 2 == 1 {
      CountSortedBelow(t, n / 2, m);
      CountSortedAbove(t, n / 2, m);
    } else {
      assert t[n / 2 - 1] <= t[n / 2];
      CountSortedBelow(t, n / 2, m);
      CountSortedAbove(t, n / 2 - 1, m);
    }
  }

  /** The median lies between the smallest and the largest value. */
  lemma MedianWithinRange(s: seq<real>)
    requires |s| > 0
    ensures exists i :: 0 <= i < |s| && s[i] <= Median(s)
    ensures exists j :: 0 <= j < |s| && Median(s) <= s[j]
  {
    var t, n := Sort(s), |s|;
    var lo, hi := if n % 2 == 1 then n / 2 else n / 2 - 1, n / 2;
    assert t[lo] <= Median(s) <= t[hi];
    assert t[lo] in multiset(s) && t[hi] in multiset(s);
    var i :| 0 <= i < |s| && s[i] == t[lo];
    var j :| 0 <= j < |s| && s[j] == t[hi];
  }

  /** A group whose values are all equal has that value as median. */
  lemma MedianOfConstant(s: seq<real>, c: real)
    requires |s| > 0 && forall i :: 0 <= i < |s| ==> s[i] == c
    ensures Median(s) == c
  {
    var t := Sort(s);
    forall k | 0 <= k < |t| ensures t[k] == c {
      assert t[k] in multiset(s);
    }
  }
}

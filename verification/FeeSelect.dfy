/** The order statistic behind getNextFeeCap (baseFeeAuto/baseFeeController.go): sort a copy of the
    window and index it, against a definition that only counts. */
module FeeSelect {
  import opened Prelude

  // ---------- sort.Sort on a copy ----------

  function Insert(x: int, s: seq<int>): seq<int> {
    if s == [] then [x]
    else if x <= s[0] then [x] + s
    else [s[0]] + Insert(x, s[1..])
  }

  function Sort(s: seq<int>): seq<int> {
    if s == [] then [] else Insert(s[0], Sort(s[1..]))
  }

  predicate Ordered(s: seq<int>) {
    forall j, k :: 0 <= j < k < |s| ==> s[j] <= s[k]
  }

  lemma {:induction false} InsertKeepsElements(x: int, s: seq<int>)
    ensures multiset(Insert(x, s)) == multiset(s) + multiset{x} && |Insert(x, s)| == |s| + 1
  {
    if s != [] && x > s[0] {
      InsertKeepsElements(x, s[1..]);
      assert s == [s[0]] + s[1..];
    }
  }

  lemma {:induction false} InsertKeepsOrder(x: int, s: seq<int>)
    requires Ordered(s)
    ensures Ordered(Insert(x, s))
  {
    if s != [] && x > s[0] {
      var r := Insert(x, s[1..]);
      InsertKeepsOrder(x, s[1..]);
      InsertKeepsElements(x, s[1..]);
      forall k | 0 <= k < |r|
        ensures s[0] <= r[k]
      {
        assert r[k] in multiset(r);
        assert r[k] in s[1..] || r[k] == x;
      }
    }
  }

  lemma {:induction false} SortKeepsElements(s: seq<int>)
    ensures multiset(Sort(s)) == multiset(s) && |Sort(s)| == |s|
  {
    if s == [] {
    } else {
      SortKeepsElements(s[1..]);
      InsertKeepsElements(s[0], Sort(s[1..]));
      assert s == [s[0]] + s[1..];
    }
  }

  lemma {:induction false} SortOrders(s: seq<int>)
    ensures Ordered(Sort(s))
  {
    if s == [] {
    } else {
      SortOrders(s[1..]);
      InsertKeepsOrder(s[0], Sort(s[1..]));
    }
  }

  lemma {:induction false} SortSpec(s: seq<int>)
    ensures Ordered(Sort(s)) && multiset(Sort(s)) == multiset(s) && |Sort(s)| == |s|
  {
    SortKeepsElements(s);
    SortOrders(s);
  }

  // ---------- Counting ----------

  /** How many elements are below `v`. */
  function CountBelow(s: seq<int>, v: int): nat {
    if s == [] then 0 else CountBelow(s[1..], v) + if s[0] < v then 1 else 0
  }

  /** How many elements are at most `v`. */
  function CountUpTo(s: seq<int>, v: int): nat {
    CountBelow(s, v + 1)
  }

  /** `v` is the k-th smallest element, counted from one. */
  predicate IsKth(s: seq<int>, k: int, v: int) {
    v in s && CountBelow(s, v) < k <= CountUpTo(s, v)
  }

  predicate IsMaximum(s: seq<int>, v: int) {
    v in s && forall k :: 0 <= k < |s| ==> s[k] <= v
  }

  lemma {:induction false} CountMonotone(s: seq<int>, v: int, w: int)
    requires v <= w
    ensures CountBelow(s, v) <= CountBelow(s, w) <= |s|
  {
    if s == [] {
    } else {
      CountMonotone(s[1..], v, w);
    }
  }

  lemma {:induction false} CountInsert(x: int, s: seq<int>, v: int)
    ensures CountBelow(Insert(x, s), v) == CountBelow(s, v) + if x < v then 1 else 0
  {
    if s != [] && x > s[0] {
      CountInsert(x, s[1..], v);
    }
  }

  /** Sorting does not change counts. */
  lemma {:induction false} CountSort(s: seq<int>, v: int)
    ensures CountBelow(Sort(s), v) == CountBelow(s, v)
  {
    if s == [] {
    } else {
      CountSort(s[1..], v);
      CountInsert(s[0], Sort(s[1..]), v);
    }
  }

  /** In an ordered sequence the elements below `v` come first. */
  lemma {:induction false} CountOrdered(s: seq<int>, v: int)
    requires Ordered(s)
    ensures forall j :: 0 <= j < |s| ==> (j < CountBelow(s, v) <==> s[j] < v)
    ensures CountBelow(s, v) <= |s|
  {
    if s == [] {
    } else {
      CountOrdered(s[1..], v);
      var c := CountBelow(s[1..], v);
      if s[0] >= v {
        assert |s| > 1 ==> s[1..][0] >= v;
        assert c == 0;
      }
      forall j | 0 <= j < |s|
        ensures j < CountBelow(s, v) <==> s[j] < v
      {
        if j > 0 {
          assert s[j] == s[1..][j - 1];
        }
      }
    }
  }

  lemma {:induction false} SortedIsElement(s: seq<int>, k: int)
    requires 0 < k <= |s|
    ensures |Sort(s)| == |s| && Ordered(Sort(s)) && Sort(s)[k - 1] in s
  {
    SortSpec(s);
    assert Sort(s)[k - 1] in multiset(Sort(s));
  }

  lemma {:induction false} SortedElement(s: seq<int>, k: int)
    requires 0 < k <= |s|
    ensures |Sort(s)| == |s| && IsKth(s, k, Sort(s)[k - 1])
  {
    SortedIsElement(s, k);
    RankInOrdered(Sort(s), k);
    CountSort(s, Sort(s)[k - 1]);
    CountSort(s, Sort(s)[k - 1] + 1);
  }

  lemma {:induction false} RankInOrdered(t: seq<int>, k: int)
    requires Ordered(t) && 0 < k <= |t|
    ensures CountBelow(t, t[k - 1]) < k <= CountUpTo(t, t[k - 1])
  {
    CountOrdered(t, t[k - 1]);
    CountOrdered(t, t[k - 1] + 1);
  }

  /** Counting determines the element, and the element grows with the rank. */
  lemma {:induction false} KthIsMonotone(s: seq<int>, j: int, v: int, k: int, w: int)
    requires IsKth(s, j, v) && IsKth(s, k, w) && j <= k
    ensures v <= w
  {
    if w < v {
      CountMonotone(s, w + 1, v);
    }
  }

  lemma {:induction false} CountAll(s: seq<int>, v: int)
    ensures CountBelow(s, v) == |s| <==> forall k :: 0 <= k < |s| ==> s[k] < v
  {
    CountMonotone(s, v, v);
    if s != [] {
      CountAll(s[1..], v);
      CountMonotone(s[1..], v, v);
      assert s == [s[0]] + s[1..];
      if CountBelow(s, v) == |s| {
        forall k | 0 <= k < |s|
          ensures s[k] < v
        {
          if k > 0 {
            assert s[k] == s[1..][k - 1];
          }
        }
      }
      if forall k :: 0 <= k < |s| ==> s[k] < v {
        assert forall k :: 0 <= k < |s[1..]| ==> s[1..][k] == s[k + 1];
      }
    }
  }

  /** The last rank is the maximum. */
  lemma {:induction false} LastIsMaximum(s: seq<int>, v: int)
    requires s != []
    ensures IsKth(s, |s|, v) <==> IsMaximum(s, v)
  {
    CountAll(s, v + 1);
    CountAll(s, v);
    CountMonotone(s, v, v + 1);
  }

  // ---------- The selector ----------

  /** Percentages above 100 count as 100. */
  function Clip(percent: int): int {
    if percent > 100 then 100 else percent
  }

  /** The rank asked for, counted from one: Go's len*percent/100. */
  function Rank(n: nat, percent: int): int {
    TruncDiv(n * Clip(percent), 100)
  }

  /** `getNextFeeCap`; Err is the index that is out of range. */
  function NextFeeCap(queue: seq<int>, feecap: int, percent: int, needmax: bool): Result<int> {
    if |queue| < 10 then Ok(feecap)
    else
      SortSpec(queue);
      if needmax then Ok(Sort(queue)[|queue| - 1])
      else
        var index := Rank(|queue|, percent) - 1;
        if 0 <= index < |queue| then Ok(Sort(queue)[index]) else Err
  }

  lemma {:induction false} RankMonotone(n: nat, p: int, q: int)
    requires p <= q
    ensures Rank(n, p) <= Rank(n, q)
  {
    Scale(n, Clip(p), Clip(q));
  }

  /** With ten samples or more the selector answers exactly when the rank is positive, and its answer is
      the sample with that rank; the maximum is asked for without a rank. */
  lemma {:induction false} NextFeeCapCounts(queue: seq<int>, feecap: int, percent: int)
    requires |queue| >= 10
    ensures NextFeeCap(queue, feecap, percent, false).Ok? <==> |queue| * Clip(percent) >= 100
    ensures NextFeeCap(queue, feecap, percent, false).Ok? ==>
              IsKth(queue, Rank(|queue|, percent), NextFeeCap(queue, feecap, percent, false).value)
    ensures IsHundredth(|queue| * Min(percent, 100), Rank(|queue|, percent))
    ensures NextFeeCap(queue, feecap, percent, true).Ok?
    ensures IsMaximum(queue, NextFeeCap(queue, feecap, percent, true).value)
    ensures percent >= 100 ==> NextFeeCap(queue, feecap, percent, false) == NextFeeCap(queue, feecap, percent, true)
  {
    var n, p := |queue|, Clip(percent);
    Scale(n, p, 100);
    HundredthIs(n * p, Rank(n, percent));
    SortedElement(queue, n);
    LastIsMaximum(queue, Sort(queue)[n - 1]);
    if n * p >= 100 {
      SortedElement(queue, Rank(n, percent));
    }
  }

  /** A percentage is safe for every window that is long enough exactly from 10 on. */
  lemma {:induction false} SafePercentIff(percent: int)
    ensures (forall queue, feecap :: NextFeeCap(queue, feecap, percent, false).Ok?) <==> percent >= 10
  {
    if percent >= 10 {
      forall queue, feecap
        ensures NextFeeCap(queue, feecap, percent, false).Ok?
      {
        if |queue| >= 10 {
          NextFeeCapCounts(queue, feecap, percent);
          Scale(Clip(percent), 10, |queue|);
        }
      }
    } else {
      var queue := [0, 0, 0, 0, 0, 0, 0, 0, 0, 0];
      NextFeeCapCounts(queue, 0, percent);
      assert !NextFeeCap(queue, 0, percent, false).Ok?;
    }
  }

  /** The answer grows with the percentage. */
  lemma {:induction false} NextFeeCapMonotone(queue: seq<int>, feecap: int, p: int, q: int)
    requires p <= q
    requires NextFeeCap(queue, feecap, p, false).Ok? && NextFeeCap(queue, feecap, q, false).Ok?
    ensures NextFeeCap(queue, feecap, p, false).value <= NextFeeCap(queue, feecap, q, false).value
    ensures NextFeeCap(queue, feecap, q, false).value <= NextFeeCap(queue, feecap, q, true).value
  {
    if |queue| >= 10 {
      var n := |queue|;
      NextFeeCapCounts(queue, feecap, p);
      NextFeeCapCounts(queue, feecap, q);
      RankMonotone(n, p, q);
      KthIsMonotone(queue, Rank(n, p), NextFeeCap(queue, feecap, p, false).value,
                    Rank(n, q), NextFeeCap(queue, feecap, q, false).value);
    }
  }

  /** Two ordered sequences with the same elements are equal, so the answer depends on the window only
      through its multiset. */
  lemma {:induction false} OrderedUnique(s: seq<int>, t: seq<int>)
    requires Ordered(s) && Ordered(t) && multiset(s) == multiset(t)
    ensures s == t
  {
    SameLength(s, t);
    if s == [] {
    } else {
      SameFirst(s, t);
      RestOf(s);
      RestOf(t);
      OrderedUnique(s[1..], t[1..]);
    }
  }

  lemma {:induction false} SameLength(s: seq<int>, t: seq<int>)
    requires multiset(s) == multiset(t)
    ensures |s| == |t|
  {
    assert |s| == |multiset(s)| == |multiset(t)| == |t|;
  }

  lemma {:induction false} SameFirst(s: seq<int>, t: seq<int>)
    requires Ordered(s) && Ordered(t) && s != [] && t != [] && multiset(s) == multiset(t)
    ensures s[0] == t[0]
  {
    assert s[0] in multiset(t) && t[0] in multiset(s);
    var i, j :| 0 <= i < |t| && t[i] == s[0] && 0 <= j < |s| && s[j] == t[0];
  }

  lemma {:induction false} RestOf(s: seq<int>)
    requires s != []
    ensures s == [s[0]] + s[1..] && multiset(s[1..]) == multiset(s) - multiset{s[0]}
  {
    assert s == [s[0]] + s[1..];
  }

  lemma {:induction false} NextFeeCapIgnoresOrder(s: seq<int>, t: seq<int>, feecap: int, percent: int, needmax: bool)
    requires multiset(s) == multiset(t)
    ensures NextFeeCap(s, feecap, percent, needmax) == NextFeeCap(t, feecap, percent, needmax)
  {
    assert |s| == |multiset(s)| == |multiset(t)| == |t|;
    SortSpec(s);
    SortSpec(t);
    OrderedUnique(Sort(s), Sort(t));
  }
}

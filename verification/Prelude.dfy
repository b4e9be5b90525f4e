/** Small shared vocabulary: optional values, integer arithmetic with Go's truncated division, suffixes of
    sequences, and chains of steps. */
module Prelude {

  datatype Option<+T> = None | Some(value: T)

  datatype Result<+T> = Ok(value: T) | Err

  /** Go's `/` on signed integers: the quotient is truncated toward zero. */
  function TruncDiv(a: int, b: int): (q: int)
    requires b > 0
    ensures a >= 0 ==> q == a / b
    ensures a < 0 ==> q == -((-a) / b)
    ensures q * b <= a < q * b + b || q * b - b < a <= q * b
  {
    if a >= 0 then a / b else -((-a) / b)
  }

  /** `q` is a hundredth of `x`, truncated toward zero. */
  predicate IsHundredth(x: int, q: int) {
    if x >= 0 then 100 * q <= x < 100 * q + 100 else 100 * q - 100 < x <= 100 * q
  }

  lemma {:induction false} HundredthIs(x: int, q: int)
    ensures IsHundredth(x, q) <==> q == TruncDiv(x, 100)
  {
  }

  function Max(a: int, b: int): int {
    if a < b then b else a
  }

  function Min(a: int, b: int): int {
    if a < b then a else b
  }

  /** The quotient rounded up. */
  function CeilDiv(a: nat, b: nat): nat
    requires b > 0
  {
    (a + b - 1) / b
  }

  lemma {:induction false} Scale(k: nat, a: int, b: int)
    requires a <= b
    ensures k * a <= k * b
  {
    assert k * (b - a) >= 0;
  }

  lemma {:induction false} DivBounds(x: int, b: nat)
    requires b > 0
    ensures b * (x / b) <= x < b * (x / b) + b
  {
  }

  lemma {:induction false} CeilDivSpec(a: nat, b: nat, n: int)
    requires b > 0
    ensures a <= n * b <==> CeilDiv(a, b) <= n
  {
    var q := CeilDiv(a, b);
    DivBounds(a + b - 1, b);
    if q <= n {
      Scale(b, q, n);
    } else {
      Scale(b, n + 1, q);
    }
  }

  /** The last `n` elements of `s`, or all of `s` when it is shorter. */
  function LastN<T>(s: seq<T>, n: nat): seq<T> {
    if |s| <= n then s else s[|s| - n..]
  }

  /** The elements that satisfy `p`. */
  function FilterBy<T>(p: T -> bool, s: seq<T>): seq<T> {
    if s == [] then []
    else FilterBy(p, s[..|s| - 1]) + if p(s[|s| - 1]) then [s[|s| - 1]] else []
  }

  lemma {:induction false} FilterNext<T>(p: T -> bool, s: seq<T>, n: nat)
    requires n < |s|
    ensures FilterBy(p, s[..n + 1]) == FilterBy(p, s[..n]) + if p(s[n]) then [s[n]] else []
  {
    assert s[..n + 1][..n] == s[..n];
  }

  lemma {:induction false} FilterPrefix<T>(p: T -> bool, s: seq<T>, n: nat)
    requires n <= |s|
    ensures FilterBy(p, s[..n]) <= FilterBy(p, s)
    decreases |s|
  {
    if n == |s| {
      assert s[..n] == s;
    } else {
      FilterPrefix(p, s[..|s| - 1], n);
      assert s[..|s| - 1][..n] == s[..n];
    }
  }

  /** `at` are the indices of the elements that satisfy `p`, in order, and `fs` are these elements. */
  predicate Picks<T(==)>(p: T -> bool, s: seq<T>, at: seq<nat>, fs: seq<T>) {
    && |fs| == |at|
    && (forall j, k :: 0 <= j < k < |at| ==> at[j] < at[k])
    && (forall j :: 0 <= j < |at| ==> at[j] < |s| && p(s[at[j]]) && fs[j] == s[at[j]])
    && (forall i :: 0 <= i < |s| && p(s[i]) ==> i in at)
  }

  lemma {:induction false} PicksSkip<T>(p: T -> bool, s: seq<T>, x: T, at: seq<nat>, fs: seq<T>)
    requires Picks(p, s, at, fs) && !p(x)
    ensures Picks(p, s + [x], at, fs)
  {
    forall i | 0 <= i < |s + [x]| && p((s + [x])[i])
      ensures i in at
    {
      assert i < |s| && p(s[i]);
    }
  }

  lemma {:induction false} PicksTake<T>(p: T -> bool, s: seq<T>, x: T, at: seq<nat>, fs: seq<T>)
    requires Picks(p, s, at, fs) && p(x)
    ensures Picks(p, s + [x], at + [|s|], fs + [x])
  {
    forall i | 0 <= i < |s + [x]| && p((s + [x])[i])
      ensures i in at + [|s|]
    {
      if i < |s| {
        assert p(s[i]) && i in at;
      } else {
        assert (at + [|s|])[|at|] == i;
      }
    }
  }

  /** Filtering keeps exactly the elements that satisfy `p`, in order. */
  lemma {:induction false} FilterPicks<T>(p: T -> bool, s: seq<T>) returns (at: seq<nat>)
    ensures Picks(p, s, at, FilterBy(p, s))
    decreases |s|
  {
    if s == [] {
      at := [];
    } else {
      var before, x := s[..|s| - 1], s[|s| - 1];
      var fs := FilterBy(p, before);
      at := FilterPicks(p, before);
      assert s == before + [x];
      if p(x) {
        PicksTake(p, before, x, at, fs);
        at := at + [|before|];
      } else {
        PicksSkip(p, before, x, at, fs);
        assert FilterBy(p, s) == fs;
      }
    }
  }

  /** Filtering keeps all copies of an element or none. */
  lemma {:induction false} FilterCounts<T>(p: T -> bool, s: seq<T>, x: T)
    ensures multiset(FilterBy(p, s))[x] == if p(x) then multiset(s)[x] else 0
    decreases |s|
  {
    if s == [] {
    } else {
      FilterCounts(p, s[..|s| - 1], x);
      assert s == s[..|s| - 1] + [s[|s| - 1]];
    }
  }

  /** One more index. */
  lemma {:induction false} CountNext(below: set<int>, all: set<int>, n: int, more: bool)
    requires n !in below && forall k :: k in all <==> k in below || (k == n && more)
    ensures |all| == |below| + if more then 1 else 0
  {
    forall k
      ensures k in all <==> k in below + if more then {n} else {}
    {
      assert k in all <==> k in below || (k == n && more);
    }
    assert all == below + if more then {n} else {};
  }

  /** The indices of the elements that satisfy `p`. */
  function IndicesOf<T>(p: T -> bool, s: seq<T>): set<int> {
    set i | 0 <= i < |s| && p(s[i])
  }

  lemma {:induction false} IndicesNext<T>(p: T -> bool, s: seq<T>)
    requires s != []
    ensures var n := |s| - 1;
            && n !in IndicesOf(p, s[..n])
            && IndicesOf(p, s) == IndicesOf(p, s[..n]) + if p(s[n]) then {n} else {}
  {
    var n := |s| - 1;
    forall i
      ensures i in IndicesOf(p, s) <==> i in IndicesOf(p, s[..n]) + if p(s[n]) then {n} else {}
    {
      if 0 <= i < n {
        assert s[..n][i] == s[i];
      }
    }
  }

  lemma {:induction false} FilterSize<T>(p: T -> bool, s: seq<T>)
    ensures |FilterBy(p, s)| == |IndicesOf(p, s)|
    decreases |s|
  {
    if s == [] {
      assert IndicesOf(p, s) == {};
    } else {
      FilterSize(p, s[..|s| - 1]);
      IndicesNext(p, s);
    }
  }

  predicate Distinct<T(==)>(s: seq<T>) {
    forall i, j :: 0 <= i < j < |s| ==> s[i] != s[j]
  }

  lemma {:induction false} EmptyWithoutElements(s: set<int>)
    ensures (forall y :: y !in s) ==> s == {}
  {
    if forall y :: y !in s {
      assert s == {};
    }
  }

  /** Some element of a set; which one is left open. */
  method AnyOf(s: set<int>) returns (x: int)
    requires s != {}
    ensures x in s
  {
    EmptyWithoutElements(s);
    x :| x in s;
  }

  /** Steps of the kinds `es`, taken in this order, lead from `a` to `b`; `r(e, y, x)` says that a step of kind
      `e` leads from `x` to `y`. */
  ghost predicate Chain<E, S(!new)>(r: (E, S, S) -> bool, a: S, es: seq<E>, b: S)
    decreases |es|
  {
    if es == [] then a == b
    else exists mid :: r(es[0], mid, a) && Chain(r, mid, es[1..], b)
  }

  lemma {:induction false} ChainFirst<E, S(!new)>(r: (E, S, S) -> bool, e: E, a: S, mid: S, es: seq<E>, b: S)
    requires r(e, mid, a) && Chain(r, mid, es, b)
    ensures Chain(r, a, [e] + es, b)
  {
    assert ([e] + es)[1..] == es;
  }

  /** At most one step in front of a chain. */
  lemma {:induction false} ChainPrepend<E, S(!new)>(r: (E, S, S) -> bool, e: seq<E>, a: S, mid: S, es: seq<E>,
                                             tail: seq<E>, b: S)
    requires Chain(r, mid, es + tail, b)
    requires if e == [] then mid == a else |e| == 1 && r(e[0], mid, a)
    ensures Chain(r, a, (e + es) + tail, b)
  {
    if e == [] {
      assert (e + es) + tail == es + tail;
    } else {
      assert (e + es) + tail == [e[0]] + (es + tail);
      ChainFirst(r, e[0], a, mid, es + tail, b);
    }
  }
}

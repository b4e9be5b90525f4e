/** How far one tick of the scan gets (synchain/parseMessage.go, the loop of DoSync), said without
    the loop: the heights that are missing above the cursor, and the greatest height up to which no
    more of them are missing than one batch may hold. */
module Frontier {
  import opened Prelude

  /** The heights in (lo, hi] that are not stored, in ascending order. */
  function Missing(stored: set<int>, lo: int, hi: int): seq<int>
    decreases hi - lo
  {
    if hi <= lo then []
    else Missing(stored, lo, hi - 1) + if hi in stored then [] else [hi]
  }

  lemma {:induction false} MissingLast(stored: set<int>, lo: int, hi: int)
    requires lo < hi
    ensures Missing(stored, lo, hi) == Missing(stored, lo, hi - 1) + if hi in stored then [] else [hi]
  {
  }

  lemma {:induction false} MissingOnly(stored: set<int>, lo: int, hi: int)
    ensures forall k :: 0 <= k < |Missing(stored, lo, hi)| ==>
              lo < Missing(stored, lo, hi)[k] <= hi && Missing(stored, lo, hi)[k] !in stored
    decreases hi - lo
  {
    if hi <= lo {
    } else {
      MissingOnly(stored, lo, hi - 1);
      MissingLast(stored, lo, hi);
    }
  }

  lemma {:induction false} MissingAll(stored: set<int>, lo: int, hi: int, h: int)
    requires lo < h <= hi && h !in stored
    ensures h in Missing(stored, lo, hi)
    decreases hi - lo
  {
    if h == hi {
      var r := Missing(stored, lo, hi);
      assert r[|r| - 1] == hi;
    } else {
      MissingAll(stored, lo, hi - 1, h);
    }
  }

  lemma {:induction false} MissingAscends(stored: set<int>, lo: int, hi: int)
    ensures var r := Missing(stored, lo, hi); forall j, k :: 0 <= j < k < |r| ==> r[j] < r[k]
    decreases hi - lo
  {
    if hi <= lo {
    } else {
      MissingAscends(stored, lo, hi - 1);
      MissingOnly(stored, lo, hi - 1);
      MissingLast(stored, lo, hi);
    }
  }

  lemma {:induction false} MissingSpec(stored: set<int>, lo: int, hi: int)
    ensures var r := Missing(stored, lo, hi);
            && (forall h :: h in r <==> lo < h <= hi && h !in stored)
            && (forall j, k :: 0 <= j < k < |r| ==> r[j] < r[k])
  {
    MissingOnly(stored, lo, hi);
    MissingAscends(stored, lo, hi);
    forall h | lo < h <= hi && h !in stored
      ensures h in Missing(stored, lo, hi)
    {
      MissingAll(stored, lo, hi, h);
    }
  }

  /** The test `syncTODO > MaxOnce` comes before the increment, so a batch holds one more. */
  function BatchLimit(maxOnce: int): nat {
    if maxOnce < 0 then 0 else maxOnce + 1
  }

  /** `last` is the greatest height from the cursor `start` up to `top` with at most `limit` heights
      missing on the way; a head below the cursor leaves the cursor where it is. */
  ghost predicate IsFrontier(stored: set<int>, start: int, top: int, limit: nat, last: int) {
    && start <= last <= Max(start, top)
    && |Missing(stored, start, last)| <= limit
    && forall d :: last < d <= top ==> |Missing(stored, start, d)| > limit
  }

  lemma {:induction false} MissingSplits(stored: set<int>, lo: int, mid: int, hi: int)
    requires lo <= mid <= hi
    ensures Missing(stored, lo, hi) == Missing(stored, lo, mid) + Missing(stored, mid, hi)
    decreases hi - mid
  {
    if hi <= mid {
    } else {
      MissingSplits(stored, lo, mid, hi - 1);
    }
  }

  lemma {:induction false} FrontierIsUnique(stored: set<int>, start: int, top: int, limit: nat, a: int, b: int)
    requires IsFrontier(stored, start, top, limit, a) && IsFrontier(stored, start, top, limit, b)
    ensures a == b
  {
  }

  /** What the loop has to check to know that it stopped at the frontier: it ran out of heights, or
      its batch is full and the next height is missing. */
  lemma {:induction false} StoppedAtFrontier(stored: set<int>, start: int, top: int, limit: nat, last: int)
    requires start <= last <= Max(start, top) && |Missing(stored, start, last)| <= limit
    requires last < top ==> |Missing(stored, start, last)| == limit && last + 1 !in stored
    ensures IsFrontier(stored, start, top, limit, last)
  {
    forall d | last < d <= top
      ensures |Missing(stored, start, d)| > limit
    {
      MissingSplits(stored, start, last, last + 1);
      MissingSplits(stored, start, last + 1, d);
      assert Missing(stored, last, last + 1) == [last + 1];
    }
  }

  lemma {:induction false} MissingAgree(a: set<int>, b: set<int>, lo: int, hi: int)
    requires forall h :: lo < h <= hi ==> (h in a <==> h in b)
    ensures Missing(a, lo, hi) == Missing(b, lo, hi)
    decreases hi - lo
  {
    if hi <= lo {
    } else {
      MissingAgree(a, b, lo, hi - 1);
    }
  }

  // ---------- Ticks one after another ----------

  /** One tick without errors, as the cursor and the stored heights see it: workers only add heights at
      or below the new cursor. `top` is its scan bound. */
  datatype Tick = Tick(stored: set<int>, start: int, top: int, last: int)

  ghost predicate IsTick(t: Tick, limit: nat) {
    IsFrontier(t.stored, t.start, t.top, limit, t.last)
  }

  ghost predicate Follows(t: Tick, u: Tick) {
    && u.start == t.last
    && forall h :: h > t.last ==> (h in u.stored <==> h in t.stored)
  }

  ghost predicate IsTickRun(ts: seq<Tick>, limit: nat) {
    ts == [] ||
    (IsTick(ts[0], limit) && (|ts| > 1 ==> Follows(ts[0], ts[1])) && IsTickRun(ts[1..], limit))
  }

  /** Every tick has the same scan bound. */
  predicate FixedTop(ts: seq<Tick>, top: int) {
    ts == [] || (ts[0].top == top && FixedTop(ts[1..], top))
  }

  /** What a tick dispatches. */
  function Dispatched(t: Tick): seq<int> {
    Missing(t.stored, t.start, t.last)
  }

  /** How many heights up to `top` are still missing above `cursor`. */
  function Left(stored: set<int>, cursor: int, top: int): nat {
    |Missing(stored, cursor, top)|
  }

  /** One tick takes min(limit, remaining) heights off the list, whatever becomes of its workers. */
  lemma {:induction false} TickProgress(t: Tick, u: set<int>, limit: nat)
    requires IsTick(t, limit)
    requires forall h :: h > t.last ==> (h in u <==> h in t.stored)
    ensures |Dispatched(t)| == Min(limit, Left(t.stored, t.start, t.top))
    ensures Left(u, t.last, t.top) == Left(t.stored, t.start, t.top) - |Dispatched(t)|
    ensures Left(t.stored, t.start, t.top) <= limit ==> t.last == Max(t.start, t.top)
    ensures t.start < t.top && t.last == t.top ==> Left(t.stored, t.start, t.top) <= limit
  {
    MissingAgree(u, t.stored, t.last, t.top);
    if t.start <= t.top {
      MissingSplits(t.stored, t.start, t.last, t.top);
      if t.last < t.top {
        MissingSplits(t.stored, t.start, t.last, t.last + 1);
        MissingSplits(t.stored, t.last, t.last + 1, t.top);
        assert |Missing(t.stored, t.start, t.last + 1)| > limit;
        assert |Missing(t.stored, t.last, t.last + 1)| <= 1;
      }
    }
  }

  lemma {:induction false} FewerBatches(total: nat, limit: nat, n: nat)
    requires n > 0
    ensures n * limit <= total <==> limit <= total && (n - 1) * limit <= total - limit
    ensures limit <= total ==> total - limit - (n - 1) * limit == total - n * limit
    ensures (if (n - 1) * limit <= total then total - (n - 1) * limit else 0) <= limit <==> total <= n * limit
  {
    assert n * limit == (n - 1) * limit + limit;
    assert (n - 1) * limit >= 0;
  }

  /** With a fixed head every tick takes min(limit, remaining) heights off the list. */
  lemma {:induction false} LeftAfter(ts: seq<Tick>, top: int, limit: nat, n: nat)
    requires n < |ts| && IsTickRun(ts, limit) && FixedTop(ts, top)
    ensures Left(ts[n].stored, ts[n].start, top)
         == Max(0, Left(ts[0].stored, ts[0].start, top) - n * limit)
    decreases n
  {
    if n == 0 {
    } else {
      TickProgress(ts[0], ts[1].stored, limit);
      LeftAfter(ts[1..], top, limit, n - 1);
      FewerBatches(Left(ts[0].stored, ts[0].start, top), limit, n);
      if Left(ts[0].stored, ts[0].start, top) < limit {
        assert (n - 1) * limit >= 0;
      }
    }
  }

  lemma {:induction false} CursorBelowTop(ts: seq<Tick>, top: int, limit: nat, n: nat)
    requires n < |ts| && IsTickRun(ts, limit) && FixedTop(ts, top) && ts[0].start <= top
    ensures ts[0].start <= ts[n].start <= ts[n].last <= top && ts[n].top == top && IsTick(ts[n], limit)
    decreases n
  {
    if n == 0 {
    } else {
      CursorBelowTop(ts[1..], top, limit, n - 1);
    }
  }

  /** With a fixed head above the cursor, the cursor is at the head after the n-th tick (counted from
      one) exactly when n is at least the number of batches, and at least one. */
  lemma {:induction false} HeadReachedIff(ts: seq<Tick>, top: int, limit: nat, n: nat)
    requires 0 < n <= |ts| && limit > 0 && IsTickRun(ts, limit) && FixedTop(ts, top) && ts[0].start < top
    ensures ts[n - 1].last == top <==> Max(1, CeilDiv(Left(ts[0].stored, ts[0].start, top), limit)) <= n
  {
    var t, total := ts[n - 1], Left(ts[0].stored, ts[0].start, top);
    LeftAfter(ts, top, limit, n - 1);
    CursorBelowTop(ts, top, limit, n - 1);
    TickProgress(t, t.stored, limit);
    FewerBatches(total, limit, n);
    CeilDivSpec(total, limit, n);
  }

  /** With an empty batch the cursor never passes the first missing height. */
  lemma {:induction false} StuckWithoutBatch(ts: seq<Tick>, n: nat, h: int)
    requires n < |ts| && IsTickRun(ts, 0)
    requires ts[0].start < h && h !in ts[0].stored
    ensures ts[n].last < h && h !in ts[n].stored
    decreases n
  {
    MissingSpec(ts[0].stored, ts[0].start, ts[0].last);
    if n > 0 {
      StuckWithoutBatch(ts[1..], n - 1, h);
    }
  }

  // ---------- The configured stop height ----------

  /** One tick as the stop height sees it, with or without failed lookups: where the cursor was and is, and the
      heights it dispatched in between. */
  datatype Round = Round(start: int, last: int, dispatched: seq<int>)

  ghost predicate IsRound(r: Round, limit: nat) {
    && r.start <= r.last && |r.dispatched| <= limit
    && forall k :: 0 <= k < |r.dispatched| ==> r.start < r.dispatched[k] <= r.last
  }

  /** Rounds one after another, each begun while the cursor was not above the stop height. */
  ghost predicate IsRoundRun(rs: seq<Round>, limit: nat, stop: int) {
    rs == [] ||
    (&& IsRound(rs[0], limit) && rs[0].start <= stop
     && (|rs| > 1 ==> rs[1].start == rs[0].last) && IsRoundRun(rs[1..], limit, stop))
  }

  function CountAbove(hs: seq<int>, stop: int): nat {
    if hs == [] then 0 else CountAbove(hs[1..], stop) + if hs[0] > stop then 1 else 0
  }

  function TotalAbove(rs: seq<Round>, stop: int): nat {
    if rs == [] then 0 else CountAbove(rs[0].dispatched, stop) + TotalAbove(rs[1..], stop)
  }

  lemma {:induction false} CountAboveBounds(hs: seq<int>, stop: int)
    ensures CountAbove(hs, stop) <= |hs|
    ensures (forall k :: 0 <= k < |hs| ==> hs[k] <= stop) ==> CountAbove(hs, stop) == 0
  {
    if hs == [] {
    } else {
      CountAboveBounds(hs[1..], stop);
    }
  }

  /** Over any number of ticks, whatever heads they see and whatever lookups fail, no more than one batch of
      heights above the stop height is ever dispatched. */
  lemma {:induction false} AtMostOneBatchAboveStop(rs: seq<Round>, limit: nat, stop: int)
    requires IsRoundRun(rs, limit, stop)
    ensures TotalAbove(rs, stop) <= limit
    decreases |rs|
  {
    if rs == [] {
    } else {
      AtMostOneBatchAboveStop(rs[1..], limit, stop);
      CountAboveBounds(rs[0].dispatched, stop);
      assert |rs| > 1 ==> rs[0].last <= stop;
    }
  }
}

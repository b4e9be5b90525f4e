/** The MpoolQueue object (baseFeeAuto/mpoolQueue.go, baseFeeAuto/baseFeeController.go): its fields are
    updated in place by two loops; each method is proved against the functions of FeeControl and MpoolLabels. */
module MpoolQueues {
  import opened Prelude
  import opened FeeSelect
  import opened FeeControl
  import opened MpoolLabels

  class MpoolQueue {
    const setting: Setting
    var feecap: int
    var feeQueue: seq<int>
    var localpools: Pools

    function State(): Control
      reads this
    {
      Control(feecap, feeQueue)
    }

    /** NewLocalPool. */
    constructor (setting: Setting)
      ensures this.setting == setting && localpools == map[]
      ensures State() == Control(setting.baseFee, [])
    {
      this.setting := setting;
      feecap := setting.baseFee;
      feeQueue := [];
      localpools := map[];
    }

    method AddFee(fee: int)
      requires setting.refreshBaseFee > 0
      modifies this`feeQueue
      ensures State() == Step(setting, old(State()), Sample(fee))
      ensures feeQueue == LastN(old(feeQueue) + [fee], QueueTop(setting) + 1)
      ensures |feeQueue| == Min(|old(feeQueue)|, QueueTop(setting)) + 1
      ensures feeQueue == (old(feeQueue) + [fee])[|old(feeQueue)| + 1 - |feeQueue|..]
    {
      ghost var q, i := feeQueue, 0;
      while |feeQueue| > QueueTop(setting)
        invariant 0 <= i <= |q| && feeQueue == q[i..] && (i > 0 ==> |feeQueue| >= QueueTop(setting))
      {
        feeQueue := feeQueue[1..];
        i := i + 1;
      }
      feeQueue := feeQueue + [fee];
    }

    /** The window itself is not sorted: the method changes nothing. */
    method GetNextFeeCap(percent: int, needmax: bool) returns (r: Result<int>)
      ensures r == NextFeeCap(feeQueue, feecap, percent, needmax)
      ensures |feeQueue| < 10 ==> r == Ok(feecap)
      ensures |feeQueue| >= 10 && needmax ==> r.Ok? && IsMaximum(feeQueue, r.value)
      ensures |feeQueue| >= 10 && !needmax ==> (r.Ok? <==> |feeQueue| * Min(percent, 100) >= 100)
      ensures |feeQueue| >= 10 && !needmax && r.Ok? ==>
                exists k :: 100 * k <= |feeQueue| * Min(percent, 100) < 100 * k + 100 && IsKth(feeQueue, k, r.value)
    {
      if |feeQueue| < 10 {
        return Ok(feecap);
      }
      var p := percent;
      NextFeeCapCounts(feeQueue, feecap, percent);
      SortSpec(feeQueue);
      var sortcap := feeQueue;
      sortcap := Sort(sortcap);
      if p > 100 {
        p := 100;
      }
      if needmax {
        return Ok(sortcap[|sortcap| - 1]);
      }
      var index := TruncDiv(|sortcap| * p, 100) - 1;
      if index < 0 || index >= |sortcap| {
        return Err;
      }
      return Ok(sortcap[index]);
    }

    method ResetBaseFeeCap(cap: int)
      modifies this`feecap
      ensures feecap == ResetCap(setting, old(feecap), cap)
      ensures setting.baseFee <= cap <= setting.baseFeeMax ==> feecap == cap
      ensures cap < setting.baseFee <= setting.baseFeeMax ==> feecap == setting.baseFee
      ensures cap > setting.baseFeeMax || setting.baseFee > setting.baseFeeMax ==> feecap == old(feecap)
    {
      var c := cap;
      if c < setting.baseFee {
        c := setting.baseFee;
      }
      if setting.baseFeeMax < c {
        return;
      }
      feecap := c;
    }

    method CheckMsgTooMore(mpoolTotal: int) returns (r: bool)
      ensures r <==> TooMany(setting, mpoolTotal)
      ensures r <==> ManyMessages(setting, mpoolTotal)
    {
      TooManyIs(setting, mpoolTotal);
      if mpoolTotal < setting.mpoolThresholdLow {
        return false;
      }
      var maxFree := setting.onceMax * 120;
      var actualFree := TruncDiv(maxFree * setting.baseFeePercent, 100);
      var extraFree := maxFree - actualFree;
      if setting.mpoolThresholdHigh > 0 && mpoolTotal > setting.mpoolThresholdHigh {
        return true;
      }
      if mpoolTotal > extraFree * setting.timeKeep {
        return true;
      }
      return false;
    }

    method CheckMsgTooLow(mpoolTotal: int) returns (r: bool)
      ensures r <==> TooFew(setting, mpoolTotal)
    {
      if mpoolTotal < setting.mpoolThresholdLow {
        return true;
      }
      return false;
    }

    /** One sync; `head` is None when the pool or the chain head cannot be read. The result is false when the
        selector's index is out of range. */
    method SyncMsg(msgs: seq<PoolMessage>, head: Option<int>) returns (ok: bool)
      requires setting.refreshBaseFee > 0
      modifies this
      ensures head.None? ==> ok && State() == old(State()) && localpools == old(localpools)
      ensures feeQueue == old(feeQueue) && (!ok ==> feecap == old(feecap))
      ensures localpools
           == PoolsStep(old(localpools),
                        if head.None? then SyncFailed else Synced(Filtered(setting.addresses, msgs), head.value))
      ensures head.Some? ==>
                var total := WalletCount(setting.addresses, msgs);
                && (ok <==> Sync(setting, old(State()), total).Ok?)
                && State() == Step(setting, old(State()), SyncOf(total))
      ensures head.Some? ==> LabelsAfter(old(localpools), setting.addresses, msgs, head.value, localpools)
      ensures head.Some? ==>
                var total := WalletCount(setting.addresses, msgs);
                && (ok <==> !RankMissing(setting, old(State()), total))
                && (ok ==> SyncedTo(setting, old(State()), total, feecap))
    {
      if head.None? {
        return true;
      }
      var thislocalpools: Pools := map[];
      var msgtotal := 0;
      for n := 0 to |msgs|
        invariant msgtotal == |Filtered(setting.addresses, msgs[..n])|
        invariant thislocalpools == NextPools(localpools, Filtered(setting.addresses, msgs[..n]), head.value)
        invariant localpools == old(localpools) && State() == old(State())
      {
        var msg := msgs[n];
        PassNext(localpools, setting.addresses, msgs, n, head.value);
        if msg.from !in setting.addresses {
          continue;
        }
        msgtotal := msgtotal + 1;
        if msg.sector in localpools {
          thislocalpools := thislocalpools[msg.sector := localpools[msg.sector]];
        } else {
          thislocalpools := thislocalpools[msg.sector := Build(msg, head.value)];
        }
      }
      assert msgs[..|msgs|] == msgs;
      localpools := thislocalpools;
      FilteredSize(setting.addresses, msgs);
      LabelsAfterSync(old(localpools), setting.addresses, msgs, head.value);
      SyncIs(setting, old(State()), msgtotal);
      Bands(setting, msgtotal, msgtotal);
      ok := true;
      var tooMore := CheckMsgTooMore(msgtotal);
      if tooMore {
        var cap := GetNextFeeCap(setting.baseFeePercent, true);
        if cap.Err? {
          return false;
        }
        ResetBaseFeeCap(cap.value);
      }
      var tooLow := CheckMsgTooLow(msgtotal);
      if tooLow {
        var cap := GetNextFeeCap(setting.baseFeePercent, false);
        if cap.Err? {
          return false;
        }
        ResetBaseFeeCap(cap.value);
      }
    }
  }
}

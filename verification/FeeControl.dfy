/** The fee-cap controller (baseFeeAuto/baseFeeController.go and the end of syncMsg): a sliding window of
    base-fee samples and a register that follows it by mempool size. */
module FeeControl {
  import opened Prelude
  import opened FeeSelect

  datatype Setting = Setting(
    refreshBaseFee: int, baseFee: int, baseFeeMax: int, baseFeePercent: int, timeKeep: int,
    mpoolThresholdHigh: int, mpoolThresholdLow: int, onceMax: int,
    proLimit: int, preLimit: int, preBreakLimit: int,
    limitAdjustSeed: int, limitEstimateSeed: int, limitMaxPremium: int, premiumSeed: int,
    addresses: set<string>)

  /** One hour's worth of samples at the configured interval, which a ticker requires to be positive. */
  function QueueTop(c: Setting): nat
    requires c.refreshBaseFee > 0
  {
    3600 / c.refreshBaseFee
  }

  /** As many samples as fit into an hour, and no more. */
  lemma {:induction false} QueueTopIsAnHour(c: Setting)
    requires c.refreshBaseFee > 0
    ensures QueueTop(c) * c.refreshBaseFee <= 3600 < (QueueTop(c) + 1) * c.refreshBaseFee
  {
    DivBounds(3600, c.refreshBaseFee);
  }

  // ---------- The window ----------

  /** `addFee`: the newest QueueTop()+1 samples. */
  function AddFee(c: Setting, queue: seq<int>, fee: int): seq<int>
    requires c.refreshBaseFee > 0
  {
    LastN(queue + [fee], QueueTop(c) + 1)
  }

  function AddAll(c: Setting, queue: seq<int>, fees: seq<int>): seq<int>
    requires c.refreshBaseFee > 0
  {
    if fees == [] then queue
    else AddFee(c, AddAll(c, queue, fees[..|fees| - 1]), fees[|fees| - 1])
  }

  /** After any number of calls from an empty queue, the window is the newest QueueTop()+1 samples in the
      order in which they came. */
  lemma {:induction false} WindowIsLatest(c: Setting, fees: seq<int>)
    requires c.refreshBaseFee > 0
    ensures AddAll(c, [], fees) == LastN(fees, QueueTop(c) + 1)
  {
    if fees == [] {
    } else {
      var n, top := |fees| - 1, QueueTop(c) + 1;
      WindowIsLatest(c, fees[..n]);
      assert fees == fees[..n] + [fees[n]];
      assert LastN(LastN(fees[..n], top) + [fees[n]], top) == LastN(fees, top);
    }
  }

  // ---------- The register ----------

  /** `ResetBaseFeeCap`: raised to the floor, refused above the ceiling. */
  function ResetCap(c: Setting, feecap: int, cap: int): int {
    var floored := Max(cap, c.baseFee);
    if c.baseFeeMax < floored then feecap else floored
  }

  /** What a proposed cap makes of the register: a cap between floor and ceiling becomes the register, one below the
      floor gives the floor, and one above the ceiling changes nothing; nothing does if the floor is above the
      ceiling. */
  predicate RegisterAfter(c: Setting, before: int, cap: int, after: int) {
    if c.baseFee > c.baseFeeMax || cap > c.baseFeeMax then after == before
    else if cap < c.baseFee then after == c.baseFee
    else after == cap
  }

  lemma {:induction false} ResetCapIs(c: Setting, before: int, cap: int, after: int)
    ensures RegisterAfter(c, before, cap, after) <==> after == ResetCap(c, before, cap)
  {
  }

  predicate TooMany(c: Setting, total: int) {
    var maxFree := c.onceMax * 120;
    var extraFree := maxFree - TruncDiv(maxFree * c.baseFeePercent, 100);
    total >= c.mpoolThresholdLow &&
    ((c.mpoolThresholdHigh > 0 && total > c.mpoolThresholdHigh) || total > extraFree * c.timeKeep)
  }

  predicate TooFew(c: Setting, total: int) {
    total < c.mpoolThresholdLow
  }

  /** More messages than the configured bound, or more than can leave the pool in the configured time: 120 batches an
      hour, less the configured percentage of them. */
  ghost predicate ManyMessages(c: Setting, total: int) {
    && total >= c.mpoolThresholdLow
    && ((c.mpoolThresholdHigh > 0 && total > c.mpoolThresholdHigh)
        || exists used :: IsHundredth(120 * c.onceMax * c.baseFeePercent, used)
                          && total > (120 * c.onceMax - used) * c.timeKeep)
  }

  lemma {:induction false} TooManyIs(c: Setting, total: int)
    ensures TooMany(c, total) <==> ManyMessages(c, total)
  {
    var used := TruncDiv(c.onceMax * 120 * c.baseFeePercent, 100);
    HundredthIs(120 * c.onceMax * c.baseFeePercent, used);
    assert c.onceMax * 120 - used == 120 * c.onceMax - used;
    forall u | IsHundredth(120 * c.onceMax * c.baseFeePercent, u)
      ensures u == used
    {
      HundredthIs(120 * c.onceMax * c.baseFeePercent, u);
    }
  }

  /** The two bands are disjoint, and "too many" is closed upwards. */
  lemma {:induction false} Bands(c: Setting, total: int, more: int)
    requires total <= more
    ensures !(TooMany(c, total) && TooFew(c, total))
    ensures TooMany(c, total) ==> TooMany(c, more)
    ensures TooFew(c, more) ==> TooFew(c, total)
  {
  }

  /** The register and the window. */
  datatype Control = Control(feecap: int, queue: seq<int>)

  /** The fee cap after a sync that counted `total` messages; Err is a selector index out of range. */
  function Sync(c: Setting, s: Control, total: int): Result<int> {
    if TooMany(c, total) then
      match NextFeeCap(s.queue, s.feecap, c.baseFeePercent, true)
      case Ok(cap) => Ok(ResetCap(c, s.feecap, cap))
      case Err => Err
    else if TooFew(c, total) then
      match NextFeeCap(s.queue, s.feecap, c.baseFeePercent, false)
      case Ok(cap) => Ok(ResetCap(c, s.feecap, cap))
      case Err => Err
    else Ok(s.feecap)
  }

  /** The cap that a sync proposes: the register itself while there are fewer than ten samples; in the high band the
      greatest sample; in the low band the sample whose rank is the configured percentage of the window. */
  ghost predicate Proposed(c: Setting, s: Control, high: bool, cap: int) {
    if |s.queue| < 10 then cap == s.feecap
    else if high then IsMaximum(s.queue, cap)
    else exists k :: IsHundredth(|s.queue| * Min(c.baseFeePercent, 100), k) && IsKth(s.queue, k, cap)
  }

  /** The register after a whole sync. */
  ghost predicate SyncedTo(c: Setting, s: Control, total: int, after: int) {
    if ManyMessages(c, total) then exists cap :: Proposed(c, s, true, cap) && RegisterAfter(c, s.feecap, cap, after)
    else if total < c.mpoolThresholdLow then
      exists cap :: Proposed(c, s, false, cap) && RegisterAfter(c, s.feecap, cap, after)
    else after == s.feecap
  }

  /** The low band asks for a rank that does not exist. */
  predicate RankMissing(c: Setting, s: Control, total: int) {
    total < c.mpoolThresholdLow && |s.queue| >= 10 && |s.queue| * Min(c.baseFeePercent, 100) < 100
  }

  lemma {:induction false} ProposedIs(c: Setting, s: Control, high: bool)
    ensures NextFeeCap(s.queue, s.feecap, c.baseFeePercent, high).Ok? ==>
              Proposed(c, s, high, NextFeeCap(s.queue, s.feecap, c.baseFeePercent, high).value)
    ensures NextFeeCap(s.queue, s.feecap, c.baseFeePercent, high).Err? <==>
              !high && |s.queue| >= 10 && |s.queue| * Min(c.baseFeePercent, 100) < 100
  {
    if |s.queue| >= 10 {
      NextFeeCapCounts(s.queue, s.feecap, c.baseFeePercent);
    }
  }

  /** What a sync does to the register, said by counting; in the low band it ends at exactly the selected sample
      wherever that lies between floor and ceiling. */
  lemma {:induction false} SyncIs(c: Setting, s: Control, total: int)
    ensures Sync(c, s, total).Ok? <==> !RankMissing(c, s, total)
    ensures Sync(c, s, total).Ok? ==> SyncedTo(c, s, total, Sync(c, s, total).value)
  {
    TooManyIs(c, total);
    if TooMany(c, total) || TooFew(c, total) {
      var high := TooMany(c, total);
      var r := NextFeeCap(s.queue, s.feecap, c.baseFeePercent, high);
      ProposedIs(c, s, high);
      if r.Ok? {
        ResetCapIs(c, s.feecap, r.value, ResetCap(c, s.feecap, r.value));
      }
    }
  }

  predicate SameBand(c: Setting, a: int, b: int) {
    TooMany(c, a) == TooMany(c, b) && TooFew(c, a) == TooFew(c, b)
  }

  /** A sync that follows another one in the same band, with no sample in between, changes nothing. */
  lemma {:induction false} SyncIsIdempotent(c: Setting, s: Control, a: int, b: int)
    requires SameBand(c, a, b) && Sync(c, s, a).Ok?
    ensures Sync(c, s.(feecap := Sync(c, s, a).value), b) == Sync(c, s, a)
  {
  }

  /** From one state, the band for too many messages never ends below the band for too few, provided the
      window and the floor are within the ceiling. */
  lemma {:induction false} HighBandIsHigher(c: Setting, s: Control, many: int, few: int)
    requires TooMany(c, many) && TooFew(c, few) && Sync(c, s, few).Ok? && Sync(c, s, many).Ok?
    requires c.baseFee <= c.baseFeeMax
    requires forall k :: 0 <= k < |s.queue| ==> s.queue[k] <= c.baseFeeMax
    ensures Sync(c, s, few).value <= Sync(c, s, many).value
  {
    Bands(c, few, few);
    if |s.queue| >= 10 {
      NextFeeCapCounts(s.queue, s.feecap, c.baseFeePercent);
      NextFeeCapMonotone(s.queue, s.feecap, c.baseFeePercent, c.baseFeePercent);
    }
  }

  // ---------- Whole runs ----------

  datatype Event = Sample(fee: int) | SyncOf(total: int)

  /** A sync whose selector fails ends the process; the register keeps its value. */
  function Step(c: Setting, s: Control, e: Event): Control
    requires c.refreshBaseFee > 0
  {
    match e
    case Sample(fee) => s.(queue := AddFee(c, s.queue, fee))
    case SyncOf(total) => s.(feecap := match Sync(c, s, total) case Ok(cap) => cap case Err => s.feecap)
  }

  function RunOf(c: Setting, es: seq<Event>): Control
    requires c.refreshBaseFee > 0
  {
    if es == [] then Control(c.baseFee, []) else Step(c, RunOf(c, es[..|es| - 1]), es[|es| - 1])
  }

  function Samples(es: seq<Event>): seq<int> {
    if es == [] then []
    else Samples(es[..|es| - 1]) + if es[|es| - 1].Sample? then [es[|es| - 1].fee] else []
  }

  lemma {:induction false} SamplesConcat(a: seq<Event>, b: seq<Event>)
    ensures Samples(a + b) == Samples(a) + Samples(b)
  {
    if b == [] {
      assert a + b == a;
    } else {
      assert (a + b)[..|a + b| - 1] == a + b[..|b| - 1];
      SamplesConcat(a, b[..|b| - 1]);
    }
  }

  lemma {:induction false} RunWindow(c: Setting, es: seq<Event>)
    requires c.refreshBaseFee > 0
    ensures RunOf(c, es).queue == LastN(Samples(es), QueueTop(c) + 1)
  {
    if es == [] {
    } else {
      var n := |es| - 1;
      RunWindow(c, es[..n]);
      if es[n].Sample? {
        var fees := Samples(es[..n]);
        WindowIsLatest(c, fees);
        WindowIsLatest(c, fees + [es[n].fee]);
        assert (fees + [es[n].fee])[..|fees|] == fees;
      }
    }
  }

  predicate InEnvelope(c: Setting, feecap: int, fees: seq<int>) {
    && c.baseFee <= feecap <= Max(c.baseFee, c.baseFeeMax)
    && (feecap == c.baseFee || feecap in fees)
  }

  lemma {:induction false} SelectedIsSample(queue: seq<int>, feecap: int, percent: int, needmax: bool)
    requires |queue| >= 10 && NextFeeCap(queue, feecap, percent, needmax).Ok?
    ensures NextFeeCap(queue, feecap, percent, needmax).value in queue
  {
    NextFeeCapCounts(queue, feecap, percent);
  }

  lemma {:induction false} ResetKeepsEnvelope(c: Setting, feecap: int, cap: int, fees: seq<int>)
    requires InEnvelope(c, feecap, fees) && (cap == feecap || cap in fees)
    ensures InEnvelope(c, ResetCap(c, feecap, cap), fees)
  {
  }

  lemma {:induction false} StepKeepsEnvelope(c: Setting, s: Control, total: int, fees: seq<int>)
    requires InEnvelope(c, s.feecap, fees) && (forall x :: x in s.queue ==> x in fees)
    requires Sync(c, s, total).Ok?
    ensures InEnvelope(c, Sync(c, s, total).value, fees)
  {
    if TooMany(c, total) || TooFew(c, total) {
      var r := NextFeeCap(s.queue, s.feecap, c.baseFeePercent, TooMany(c, total));
      if |s.queue| >= 10 {
        SelectedIsSample(s.queue, s.feecap, c.baseFeePercent, TooMany(c, total));
      }
      ResetKeepsEnvelope(c, s.feecap, r.value, fees);
    }
  }

  /** Over every run the fee cap stays between the floor and the ceiling (or the floor alone, when it is
      above the ceiling), and it is the floor or a sample seen before. */
  lemma {:induction false} FeeCapEnvelope(c: Setting, es: seq<Event>)
    requires c.refreshBaseFee > 0
    ensures InEnvelope(c, RunOf(c, es).feecap, Samples(es))
  {
    if es == [] {
    } else {
      var n := |es| - 1;
      var s := RunOf(c, es[..n]);
      FeeCapEnvelope(c, es[..n]);
      RunWindow(c, es[..n]);
      if es[n].SyncOf? && Sync(c, s, es[n].total).Ok? {
        StepKeepsEnvelope(c, s, es[n].total, Samples(es[..n]));
      }
    }
  }

  /** A sample above the ceiling blocks the upward band while it is in the window, that is until QueueTop()+1
      further samples have come in. */
  lemma {:induction false} SpikeBlocksRaises(c: Setting, before: seq<Event>, spike: int, after: seq<Event>, total: int)
    requires c.refreshBaseFee > 0 && spike > c.baseFeeMax && TooMany(c, total)
    requires |Samples(after)| <= QueueTop(c)
    ensures var s := RunOf(c, before + [Sample(spike)] + after);
            spike in s.queue && Step(c, s, SyncOf(total)) == s
  {
    var es := before + [Sample(spike)];
    var s := RunOf(c, es + after);
    SamplesConcat(es, after);
    assert es[..|before|] == before;
    RunWindow(c, es + after);
    var fees, top := Samples(es + after), QueueTop(c) + 1;
    var at := |Samples(before)|;
    assert fees[at] == spike;
    assert at >= |fees| - top;
    assert spike in s.queue;
    FeeCapEnvelope(c, es + after);
    if |s.queue| >= 10 {
      NextFeeCapCounts(s.queue, s.feecap, c.baseFeePercent);
    }
  }

  lemma {:induction false} LastNOfConcat(a: seq<int>, b: seq<int>, n: nat)
    requires n <= |b|
    ensures LastN(a + b, n) == LastN(b, n)
  {
    assert |a + b| - n >= |a|;
  }

  /** After QueueTop()+1 further samples the window holds these samples and nothing else. */
  lemma {:induction false} SpikeLeaves(c: Setting, before: seq<Event>, spike: int, after: seq<Event>)
    requires c.refreshBaseFee > 0 && |Samples(after)| > QueueTop(c)
    ensures RunOf(c, before + [Sample(spike)] + after).queue == LastN(Samples(after), QueueTop(c) + 1)
  {
    var es := before + [Sample(spike)];
    SamplesConcat(es, after);
    RunWindow(c, es + after);
    LastNOfConcat(Samples(es), Samples(after), QueueTop(c) + 1);
  }
}

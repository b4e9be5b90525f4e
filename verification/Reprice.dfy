/** Re-pricing one stuck message (baseFeeAuto/mpool.go): limit choice, scaling and clamps, the dead band,
    and the premium's growth. */
module Reprice {
  import opened Prelude
  import opened FeeControl

  /** `rest` stands for the fields that re-pricing never touches besides the ones named here. */
  datatype Message = Message(from: string, to: string, nonce: nat, method_: int, gasLimit: int, gasFeeCap: int,
                             gasPremium: int, rest: string)

  // builtin.MethodsMiner
  const PRE_COMMIT_SECTOR := 6
  const PROVE_COMMIT_SECTOR := 7

  const TEN_NANO := 10000000000
  const MAX_LIMIT := 1000000000

  // ---------- The limit handed to doImprove ----------

  /** What GasEstimateGasLimit came to: a limit, the error of a sector that is not pre-committed, or any
      other error, whose limit is zero. */
  datatype Estimate = Estimated(limit: int) | NoPreCommitted | Failed

  /** `remain` is the number of epochs until the sector's deadline, where that is known. */
  function ChooseLimit(c: Setting, e: Estimate, remain: Option<int>): int {
    var limit := match e
      case Estimated(limit) => limit
      case NoPreCommitted => c.preBreakLimit
      case Failed => 0;
    if remain.Some? && remain.value < 0 then c.preBreakLimit else TruncDiv(limit * 105, 100)
  }

  /** An expired sector's message gets the break limit exactly. On the "no pre-committed" error the break
      limit is scaled like an estimate, and it survives that exactly when it is below 20. */
  lemma {:induction false} BreakLimitReachesWorkerIff(c: Setting, e: Estimate, remain: Option<int>)
    requires c.preBreakLimit >= 0
    ensures remain.Some? && remain.value < 0 ==> ChooseLimit(c, e, remain) == c.preBreakLimit
    ensures remain.None? || remain.value >= 0 ==>
              (ChooseLimit(c, NoPreCommitted, remain) == c.preBreakLimit <==> c.preBreakLimit < 20)
  {
  }

  /** A pending message with what the node answers about it. */
  datatype PendingMessage = PendingMessage(message: Message, estimate: Estimate, remain: Option<int>)

  datatype Job = Job(message: Message, limit: int)

  function FromAddresses(c: Setting): PendingMessage -> bool {
    (p: PendingMessage) => p.message.from in c.addresses
  }

  function Selected(c: Setting, ps: seq<PendingMessage>): seq<PendingMessage> {
    FilterBy(FromAddresses(c), ps)
  }

  function JobsFor(c: Setting, ps: seq<PendingMessage>): seq<Job> {
    seq(|ps|, i requires 0 <= i < |ps| => Job(ps[i].message, ChooseLimit(c, ps[i].estimate, ps[i].remain)))
  }

  function Take<T>(s: seq<T>, n: int): seq<T> {
    if n <= 0 then [] else if n < |s| then s[..n] else s
  }

  predicate OfAddress(c: Setting, ps: seq<PendingMessage>, i: int) {
    0 <= i < |ps| && ps[i].message.from in c.addresses
  }

  /** `at` are the indices of the configured wallets' messages, in order. */
  ghost predicate AddressedAt(c: Setting, ps: seq<PendingMessage>, at: seq<nat>) {
    && (forall j, k :: 0 <= j < k < |at| ==> at[j] < at[k])
    && (forall j :: 0 <= j < |at| ==> OfAddress(c, ps, at[j]))
    && (forall i :: OfAddress(c, ps, i) ==> i in at)
  }

  /** The limit handed over for `p`: the break limit for an expired sector, and otherwise 105 percent of the
      estimate, or of the break limit when the sector is not pre-committed, or nothing when the estimate failed. */
  predicate HandedLimit(c: Setting, p: PendingMessage, limit: int) {
    if p.remain.Some? && p.remain.value < 0 then limit == c.preBreakLimit
    else
      match p.estimate
      case Estimated(l) => IsHundredth(105 * l, limit)
      case NoPreCommitted => IsHundredth(105 * c.preBreakLimit, limit)
      case Failed => limit == 0
  }

  /** The jobs are those of the first messages of the configured wallets, `OnceMax` of them or all, in order. */
  ghost predicate CleanJobs(c: Setting, ps: seq<PendingMessage>, jobs: seq<Job>) {
    exists at :: AddressedAt(c, ps, at) && JobsAt(c, ps, at, jobs)
  }

  ghost predicate JobsAt(c: Setting, ps: seq<PendingMessage>, at: seq<nat>, jobs: seq<Job>) {
    && |jobs| == Min(Max(c.onceMax, 0), |at|)
    && (forall j :: 0 <= j < |jobs| && OfAddress(c, ps, at[j]) ==>
                      jobs[j].message == ps[at[j]].message && HandedLimit(c, ps[at[j]], jobs[j].limit))
  }

  lemma {:induction false} ChosenIsHanded(c: Setting, p: PendingMessage)
    ensures HandedLimit(c, p, ChooseLimit(c, p.estimate, p.remain))
  {
  }

  lemma {:induction false} JobsAreClean(c: Setting, ps: seq<PendingMessage>)
    ensures CleanJobs(c, ps, JobsFor(c, Take(Selected(c, ps), c.onceMax)))
  {
    var at := FilterPicks(FromAddresses(c), ps);
    var chosen := Take(Selected(c, ps), c.onceMax);
    var jobs := JobsFor(c, chosen);
    assert AddressedAt(c, ps, at);
    forall j | 0 <= j < |jobs|
      ensures jobs[j].message == ps[at[j]].message && HandedLimit(c, ps[at[j]], jobs[j].limit)
    {
      assert chosen[j] == ps[at[j]];
      ChosenIsHanded(c, chosen[j]);
    }
    assert JobsAt(c, ps, at, jobs);
  }

  /** One cleaning pass starts a worker for each of the first `OnceMax` messages of the configured wallets. */
  method MpoolClean(c: Setting, msgs: seq<PendingMessage>) returns (jobs: seq<Job>)
    ensures jobs == JobsFor(c, Take(Selected(c, msgs), c.onceMax))
    ensures CleanJobs(c, msgs, jobs)
  {
    JobsAreClean(c, msgs);
    jobs := [];
    var count := 0;
    for idx := 0 to |msgs|
      invariant count == |Selected(c, msgs[..idx])|
      invariant count == |jobs| && (count == 0 || count <= c.onceMax)
      invariant jobs == JobsFor(c, Selected(c, msgs[..idx]))
    {
      var msg := msgs[idx];
      FilterNext(FromAddresses(c), msgs, idx);
      if msg.message.from !in c.addresses {
        continue;
      }
      count := count + 1;
      if count > c.onceMax {
        FilterPrefix(FromAddresses(c), msgs, idx);
        return;
      }
      var limit := match msg.estimate
        case Estimated(limit) => limit
        case NoPreCommitted => c.preBreakLimit
        case Failed => 0;
      limit := TruncDiv(limit * 105, 100);
      if msg.remain.Some? && msg.remain.value < 0 {
        limit := c.preBreakLimit;
      }
      JobsForAppend(c, Selected(c, msgs[..idx]), msg);
      jobs := jobs + [Job(msg.message, limit)];
    }
    assert msgs[..|msgs|] == msgs;
  }

  lemma {:induction false} JobsForAppend(c: Setting, ps: seq<PendingMessage>, p: PendingMessage)
    ensures JobsFor(c, ps + [p]) == JobsFor(c, ps) + [Job(p.message, ChooseLimit(c, p.estimate, p.remain))]
  {
  }

  // ---------- One re-pricing ----------

  /** The limit after the estimate seed and the method's clamp; the break limit is not scaled. */
  function ScaledLimit(c: Setting, m: Message, limit: int): int {
    var l := if limit == 0 then m.gasLimit else limit;
    var scaled := if l == c.preBreakLimit then l else TruncDiv(l * c.limitEstimateSeed, 100);
    if m.method_ == PROVE_COMMIT_SECTOR then Min(scaled, c.proLimit)
    else if m.method_ == PRE_COMMIT_SECTOR then Min(scaled, c.preLimit)
    else l
  }

  /** What becomes of an incoming limit, where zero stands for the message's own: the clamped methods take a hundredth
      of it times the estimate seed, or the clamp where that is smaller, but the break limit is not scaled; the other
      methods take it as it is. */
  predicate LimitIs(c: Setting, m: Message, limit: int, g: int) {
    var l := if limit == 0 then m.gasLimit else limit;
    if m.method_ == PROVE_COMMIT_SECTOR then ClampedTo(c, l, c.proLimit, g)
    else if m.method_ == PRE_COMMIT_SECTOR then ClampedTo(c, l, c.preLimit, g)
    else g == l
  }

  predicate ClampedTo(c: Setting, l: int, clamp: int, g: int) {
    var x := l * c.limitEstimateSeed;
    if l == c.preBreakLimit then g == Min(l, clamp)
    else g <= clamp && (|| IsHundredth(x, g)
                        || (g == clamp && if x >= 0 then 100 * clamp <= x else 100 * clamp - 100 < x))
  }

  lemma {:induction false} ClampedHundredth(x: int, clamp: int, g: int)
    ensures g == Min(TruncDiv(x, 100), clamp)
       <==> g <= clamp && (|| IsHundredth(x, g)
                           || (g == clamp && if x >= 0 then 100 * clamp <= x else 100 * clamp - 100 < x))
  {
    HundredthIs(x, g);
    TruncBand(x, clamp);
  }

  lemma {:induction false} ScaledLimitIs(c: Setting, m: Message, limit: int, g: int)
    ensures g == ScaledLimit(c, m, limit) <==> LimitIs(c, m, limit, g)
  {
    var l := if limit == 0 then m.gasLimit else limit;
    ClampedHundredth(l * c.limitEstimateSeed, c.proLimit, g);
    ClampedHundredth(l * c.limitEstimateSeed, c.preLimit, g);
  }

  predicate InHundred(q: int, x: int) {
    100 * q <= x < 100 * q + 100
  }

  /** The new premium is the seed for every full hundred of the old one. */
  ghost predicate PremiumIs(c: Setting, premium: int, next: int) {
    exists q :: InHundred(q, premium) && next == q * c.premiumSeed
  }

  lemma {:induction false} NextPremiumIs(c: Setting, premium: int, next: int)
    ensures next == NextPremium(c, premium) <==> PremiumIs(c, premium, next)
    ensures PremiumIs(c, premium, next) && c.premiumSeed >= 0 ==>
              100 * next <= c.premiumSeed * premium <= 100 * next + 99 * c.premiumSeed
  {
    var h := premium / 100;
    DivBounds(premium, 100);
    assert InHundred(h, premium);
    assert forall q :: InHundred(q, premium) ==> q == h;
    if c.premiumSeed >= 0 {
      Scale(c.premiumSeed, 100 * h, premium);
      Scale(c.premiumSeed, premium, 100 * h + 99);
    }
  }

  /** Near enough to the current limit to leave the message alone, at an unchanged fee cap. */
  predicate InDeadBand(c: Setting, m: Message, limit: int) {
    if limit != c.preBreakLimit then
      TruncDiv(m.gasLimit * (100 - c.limitAdjustSeed), 100) <= limit
      <= TruncDiv(m.gasLimit * (100 + c.limitAdjustSeed), 100)
    else limit == m.gasLimit
  }

  /** The premium of the replacement; big.Div is Euclidean. */
  function NextPremium(c: Setting, premium: int): int {
    premium / 100 * c.premiumSeed
  }

  /** The replacement that doImprove offers to the node, if any. */
  function Improve(c: Setting, m: Message, limit: int, nextFee: int): Option<Message> {
    var l := ScaledLimit(c, m, limit);
    if nextFee >= TEN_NANO || l > MAX_LIMIT then None
    else if nextFee == m.gasFeeCap && InDeadBand(c, m, l) then None
    else if NextPremium(c, m.gasPremium) > c.limitMaxPremium then None
    else Some(m.(gasLimit := l, gasPremium := NextPremium(c, m.gasPremium), gasFeeCap := nextFee))
  }

  /** doImprove, with the node's verdict on signing and pushing. */
  method DoImprove(c: Setting, localmsg: Message, limit0: int, nextFee: int, accepted: bool)
      returns (pushed: Option<Message>)
    ensures pushed == if accepted then Improve(c, localmsg, limit0, nextFee) else None
    ensures pushed.Some? ==> LimitIs(c, localmsg, limit0, pushed.value.gasLimit)
    ensures pushed.Some? ==> PremiumIs(c, localmsg.gasPremium, pushed.value.gasPremium)
    ensures pushed.Some? && c.premiumSeed >= 0 ==>
              var r, seed := pushed.value.gasPremium, c.premiumSeed;
              100 * r <= seed * localmsg.gasPremium <= 100 * r + 99 * seed
    ensures pushed.Some? ==> pushed.value.gasFeeCap == nextFee
    ensures pushed.Some? <==> accepted && OfferedAt(c, localmsg, limit0, nextFee)
  {
    OfferedIff(c, localmsg, limit0, nextFee);
    ScaledLimitIs(c, localmsg, limit0, ScaledLimit(c, localmsg, limit0));
    NextPremiumIs(c, localmsg.gasPremium, NextPremium(c, localmsg.gasPremium));
    var message := localmsg;
    var limit := limit0;
    if limit == 0 {
      limit := message.gasLimit;
    }
    if message.method_ == PROVE_COMMIT_SECTOR {
      if limit != c.preBreakLimit {
        limit := TruncDiv(limit * c.limitEstimateSeed, 100);
      }
      if limit > c.proLimit {
        limit := c.proLimit;
      }
    } else if message.method_ == PRE_COMMIT_SECTOR {
      if limit != c.preBreakLimit {
        limit := TruncDiv(limit * c.limitEstimateSeed, 100);
      }
      if limit > c.preLimit {
        limit := c.preLimit;
      }
    }
    assert limit == ScaledLimit(c, localmsg, limit0);
    if nextFee >= TEN_NANO {
      return None;
    }
    if limit > MAX_LIMIT {
      return None;
    }
    var seed := c.limitAdjustSeed;
    if nextFee == message.gasFeeCap {
      if limit != c.preBreakLimit {
        if limit >= TruncDiv(message.gasLimit * (100 - seed), 100)
          && limit <= TruncDiv(message.gasLimit * (100 + seed), 100) {
          return None;
        }
      } else {
        if limit == message.gasLimit {
          return None;
        }
      }
    }
    message := message.(gasLimit := limit);
    message := message.(gasPremium := message.gasPremium / 100);
    message := message.(gasPremium := message.gasPremium * c.premiumSeed);
    message := message.(gasFeeCap := nextFee);
    if message.gasPremium > c.limitMaxPremium {
      return None;
    }
    if !accepted {
      return None;
    }
    pushed := Some(message);
  }

  /** What a pushed message can look like. */
  lemma {:induction false} ImproveEnvelope(c: Setting, m: Message, limit: int, nextFee: int)
    requires Improve(c, m, limit, nextFee).Some?
    ensures var r := Improve(c, m, limit, nextFee).value;
            && r == m.(gasLimit := r.gasLimit, gasFeeCap := r.gasFeeCap, gasPremium := r.gasPremium)
            && r.gasFeeCap == nextFee < TEN_NANO
            && r.gasLimit <= MAX_LIMIT
            && (m.method_ == PROVE_COMMIT_SECTOR ==> r.gasLimit <= c.proLimit)
            && (m.method_ == PRE_COMMIT_SECTOR ==> r.gasLimit <= c.preLimit)
            && r.gasPremium <= c.limitMaxPremium
  {
  }

  lemma {:induction false} TruncBand(x: int, l: int)
    ensures TruncDiv(x, 100) <= l <==> if x >= 0 then x - 100 < 100 * l else x <= 100 * l
    ensures l <= TruncDiv(x, 100) <==> if x >= 0 then 100 * l <= x else 100 * l - 100 < x
  {
  }

  /** The limit `l` is no more than `k` percent away from `g`, up to the truncation of the two bounds toward
      zero. */
  predicate NearLimit(g: int, k: int, l: int) {
    var lower, upper := g * (100 - k), g * (100 + k);
    && (if lower >= 0 then lower - 100 < 100 * l else lower <= 100 * l)
    && (if upper >= 0 then 100 * l <= upper else 100 * l - 100 < upper)
  }

  /** When a replacement is offered, without truncated division: no guard is in the way, and the fee cap changes,
      or the limit leaves the band around the current one; the break limit only has to differ. */
  ghost predicate OfferedAt(c: Setting, m: Message, limit: int, nextFee: int) {
    exists l, p :: LimitIs(c, m, limit, l) && PremiumIs(c, m.gasPremium, p) && Offers(c, m, nextFee, l, p)
  }

  predicate Offers(c: Setting, m: Message, nextFee: int, l: int, p: int) {
    && nextFee < TEN_NANO && l <= MAX_LIMIT && p <= c.limitMaxPremium
    && (|| nextFee != m.gasFeeCap
        || (if l == c.preBreakLimit then l != m.gasLimit else !NearLimit(m.gasLimit, c.limitAdjustSeed, l)))
  }

  lemma {:induction false} OfferedIff(c: Setting, m: Message, limit: int, nextFee: int)
    ensures Improve(c, m, limit, nextFee).Some? <==> OfferedAt(c, m, limit, nextFee)
  {
    var l, p := ScaledLimit(c, m, limit), NextPremium(c, m.gasPremium);
    ImproveIff(c, m, limit, nextFee);
    ScaledLimitIs(c, m, limit, l);
    NextPremiumIs(c, m.gasPremium, p);
    forall l', p' | LimitIs(c, m, limit, l') && PremiumIs(c, m.gasPremium, p')
      ensures l' == l && p' == p
    {
      ScaledLimitIs(c, m, limit, l');
      NextPremiumIs(c, m.gasPremium, p');
    }
  }

  lemma {:induction false} ImproveIff(c: Setting, m: Message, limit: int, nextFee: int)
    ensures Improve(c, m, limit, nextFee).Some?
       <==> Offers(c, m, nextFee, ScaledLimit(c, m, limit), NextPremium(c, m.gasPremium))
  {
    var l := ScaledLimit(c, m, limit);
    TruncBand(m.gasLimit * (100 - c.limitAdjustSeed), l);
    TruncBand(m.gasLimit * (100 + c.limitAdjustSeed), l);
  }

  // ---------- Evaluating one nonce again and again ----------

  /** The inputs of one call and the node's verdict on its push. */
  datatype Input = Input(fee: int, limit: int, accepted: bool)

  /** The message in the pool after one call, and whether it was replaced. */
  function Eval(c: Setting, m: Message, i: Input): (Message, bool) {
    match Improve(c, m, i.limit, i.fee)
    case Some(r) => if i.accepted then (r, true) else (m, false)
    case None => (m, false)
  }

  /** How many replacements a sequence of calls makes, each call seeing the previous one's message. */
  function Pushes(c: Setting, m: Message, ins: seq<Input>): nat
    decreases |ins|
  {
    if ins == [] then 0
    else
      var r := Eval(c, m, ins[0]);
      (if r.1 then 1 else 0) + Pushes(c, r.0, ins[1..])
  }

  function Final(c: Setting, m: Message, ins: seq<Input>): Message
    decreases |ins|
  {
    if ins == [] then m else Final(c, Eval(c, m, ins[0]).0, ins[1..])
  }

  predicate SameKey(a: Input, b: Input) {
    a.fee == b.fee && a.limit == b.limit
  }

  /** The number of maximal stretches of calls with constant fee cap and limit. */
  function Segments(ins: seq<Input>): nat {
    if ins == [] then 0
    else if |ins| == 1 then 1
    else (if SameKey(ins[0], ins[1]) then 0 else 1) + Segments(ins[1..])
  }

  predicate StartsSegment(ins: seq<Input>, k: int) {
    0 <= k < |ins| && (k == 0 || !SameKey(ins[k - 1], ins[k]))
  }

  function Starts(ins: seq<Input>): set<int> {
    set k | 0 <= k < |ins| && StartsSegment(ins, k)
  }

  lemma {:induction false} SegmentsAppend(ins: seq<Input>, i: Input)
    ensures Segments(ins + [i]) == Segments(ins) + if ins == [] || !SameKey(ins[|ins| - 1], i) then 1 else 0
  {
    if |ins| <= 1 {
      assert ins + [i] == if ins == [] then [i] else [ins[0], i];
    } else {
      SegmentsAppend(ins[1..], i);
      assert (ins + [i])[1..] == ins[1..] + [i];
    }
  }

  /** The stretches are counted by the calls that open one. */
  lemma {:induction false} SegmentsCount(ins: seq<Input>)
    ensures Segments(ins) == |Starts(ins)|
    decreases |ins|
  {
    if ins == [] {
      assert Starts(ins) == {};
    } else {
      var n := |ins| - 1;
      SegmentsCount(ins[..n]);
      SegmentsAppend(ins[..n], ins[n]);
      assert ins == ins[..n] + [ins[n]];
      CountNext(Starts(ins[..n]), Starts(ins), n, StartsSegment(ins, n));
    }
  }

  /** Call `k` replaces the message that the calls before it have left. */
  predicate Replaces(c: Setting, m: Message, ins: seq<Input>, k: int) {
    && 0 <= k < |ins| && ins[k].accepted
    && Improve(c, Final(c, m, ins[..k]), ins[k].limit, ins[k].fee).Some?
  }

  function Replacing(c: Setting, m: Message, ins: seq<Input>): set<int> {
    set k | 0 <= k < |ins| && Replaces(c, m, ins, k)
  }

  lemma {:induction false} RunAppend(c: Setting, m: Message, ins: seq<Input>, i: Input)
    ensures var was := Final(c, m, ins);
            && Final(c, m, ins + [i]) == Eval(c, was, i).0
            && Pushes(c, m, ins + [i]) == Pushes(c, m, ins) + if Eval(c, was, i).1 then 1 else 0
    decreases |ins|
  {
    if ins == [] {
      assert [] + [i] == [i] && [i][1..] == [];
    } else {
      RunAppend(c, Eval(c, m, ins[0]).0, ins[1..], i);
      assert (ins + [i])[1..] == ins[1..] + [i];
    }
  }

  lemma {:induction false} ReplacesOfPrefix(c: Setting, m: Message, ins: seq<Input>, n: nat, k: nat)
    requires k < n <= |ins|
    ensures Replaces(c, m, ins[..n], k) == Replaces(c, m, ins, k)
  {
    assert ins[..n][..k] == ins[..k];
  }

  lemma {:induction false} ReplacingNext(c: Setting, m: Message, ins: seq<Input>)
    requires ins != []
    ensures var n := |ins| - 1;
            |Replacing(c, m, ins)| == |Replacing(c, m, ins[..n])| + if Replaces(c, m, ins, n) then 1 else 0
  {
    var n := |ins| - 1;
    forall k | 0 <= k < n
      ensures Replaces(c, m, ins[..n], k) == Replaces(c, m, ins, k)
    {
      ReplacesOfPrefix(c, m, ins, n, k);
    }
    CountNext(Replacing(c, m, ins[..n]), Replacing(c, m, ins), n, Replaces(c, m, ins, n));
  }

  lemma {:induction false} LastCall(c: Setting, m: Message, ins: seq<Input>)
    requires ins != []
    ensures var n, i, was := |ins| - 1, ins[|ins| - 1], Final(c, m, ins[..|ins| - 1]);
            && Pushes(c, m, ins) == Pushes(c, m, ins[..n]) + (if Replaces(c, m, ins, n) then 1 else 0)
            && Final(c, m, ins) == if Replaces(c, m, ins, n) then Improve(c, was, i.limit, i.fee).value else was
  {
    var n := |ins| - 1;
    RunAppend(c, m, ins[..n], ins[n]);
    assert ins == ins[..n] + [ins[n]];
  }

  /** The pushes are the calls that replace the message left by the calls before; the message at the end is the one
      that the last of them offered. */
  lemma {:induction false} PushesCount(c: Setting, m: Message, ins: seq<Input>)
    ensures Pushes(c, m, ins) == |Replacing(c, m, ins)|
    ensures ins != [] ==>
              var i, was := ins[|ins| - 1], Final(c, m, ins[..|ins| - 1]);
              Final(c, m, ins)
              == if Replaces(c, m, ins, |ins| - 1) then Improve(c, was, i.limit, i.fee).value else was
    decreases |ins|
  {
    if ins == [] {
      assert Replacing(c, m, ins) == {};
    } else {
      PushesCount(c, m, ins[..|ins| - 1]);
      ReplacingNext(c, m, ins);
      LastCall(c, m, ins);
    }
  }

  predicate Quiet(c: Setting, m: Message, i: Input) {
    Improve(c, m, i.limit, i.fee).None?
  }

  predicate SaneLimits(c: Setting) {
    c.limitAdjustSeed >= 0 && c.limitEstimateSeed >= 0 && c.proLimit >= 0 && c.preLimit >= 0
  }

  lemma {:induction false} TruncScale(l: int, k: int)
    requires l >= 0 && k >= 0
    ensures TruncDiv(l * (100 - k), 100) <= l <= TruncDiv(l * (100 + k), 100)
    ensures TruncDiv(l * k, 100) >= 0
  {
    assert l * k >= 0;
    assert l * (100 - k) == 100 * l - l * k;
    assert l * (100 + k) == 100 * l + l * k;
  }

  lemma {:induction false} ScaledIsSane(c: Setting, m: Message, limit: int)
    requires SaneLimits(c) && limit >= 0 && m.gasLimit >= 0
    ensures ScaledLimit(c, m, limit) >= 0
    ensures Clamped(m) ==> ScaledLimit(c, m, limit) <= ClampOf(c, m)
  {
    TruncScale(if limit == 0 then m.gasLimit else limit, c.limitEstimateSeed);
  }

  // ---------- Calls without an estimate ----------

  /** The two methods whose limits are scaled and clamped. */
  predicate Clamped(m: Message) {
    m.method_ == PROVE_COMMIT_SECTOR || m.method_ == PRE_COMMIT_SECTOR
  }

  function ClampOf(c: Setting, m: Message): int
    requires Clamped(m)
  {
    if m.method_ == PROVE_COMMIT_SECTOR then c.proLimit else c.preLimit
  }

  /** A failed estimate (limit 0) stands for the message's own limit, which is scaled again on every call. The
      message stays as it is exactly if its premium is at the ceiling; or its limit is the break limit; or the
      scaled limit is too large; or the scaled limit is not the break limit and is near the current one, because
      the estimate seed is within the adjust seed of 100, the clamp is near, or truncation evens it out. */
  predicate QuietAtZero(c: Setting, m: Message)
    requires Clamped(m) && c.limitEstimateSeed >= 0 && m.gasLimit >= 0
  {
    var g, e, k, clamp := m.gasLimit, c.limitEstimateSeed, c.limitAdjustSeed, ClampOf(c, m);
    var scaled := g * e / 100;
    || NextPremium(c, m.gasPremium) > c.limitMaxPremium
    || g == c.preBreakLimit
    || Min(scaled, clamp) > MAX_LIMIT
    || (&& Min(scaled, clamp) != c.preBreakLimit
        && (e >= 100 - k || scaled == TruncDiv(g * (100 - k), 100))
        && (e <= 100 + k || 100 * clamp <= g * (100 + k) || scaled == TruncDiv(g * (100 + k), 100)))
  }

  lemma {:induction false} TruncMonotone(x: int, y: int)
    requires x <= y
    ensures TruncDiv(x, 100) <= TruncDiv(y, 100)
  {
  }

  /** Scaling by two factors, one not above the other. */
  lemma {:induction false} ScaleOrder(g: int, e: int, f: int)
    requires g >= 0 && e <= f
    ensures TruncDiv(g * e, 100) <= TruncDiv(g * f, 100)
  {
    Scale(g, e, f);
    TruncMonotone(g * e, g * f);
  }

  lemma {:induction false} NearIff(g: int, e: int, k: int, clamp: int)
    requires 0 <= g <= clamp && e >= 0 && k >= 0
    ensures TruncDiv(g * (100 - k), 100) <= Min(TruncDiv(g * e, 100), clamp) <= TruncDiv(g * (100 + k), 100)
       <==> && (e >= 100 - k || TruncDiv(g * e, 100) == TruncDiv(g * (100 - k), 100))
            && (e <= 100 + k || 100 * clamp <= g * (100 + k) || TruncDiv(g * e, 100) == TruncDiv(g * (100 + k), 100))
  {
    TruncScale(g, k);
    TruncBand(g * (100 + k), clamp);
    assert g * (100 + k) >= 0;
    if e >= 100 - k {
      ScaleOrder(g, 100 - k, e);
    } else {
      ScaleOrder(g, e, 100 - k);
    }
    if e <= 100 + k {
      ScaleOrder(g, e, 100 + k);
    } else {
      ScaleOrder(g, 100 + k, e);
    }
  }

  lemma {:induction false} RescaledAtZero(c: Setting, r: Message)
    requires c.limitEstimateSeed >= 0 && Clamped(r) && 0 <= r.gasLimit <= ClampOf(c, r)
    ensures ScaledLimit(c, r, 0)
         == if r.gasLimit == c.preBreakLimit then r.gasLimit
            else Min(TruncDiv(r.gasLimit * c.limitEstimateSeed, 100), ClampOf(c, r))
    ensures TruncDiv(r.gasLimit * c.limitEstimateSeed, 100) == r.gasLimit * c.limitEstimateSeed / 100
  {
    assert r.gasLimit * c.limitEstimateSeed >= 0;
  }

  /** Exactly when a message of a clamped method that was just pushed is left alone by a further call without an
      estimate. */
  lemma {:induction false} ZeroLimitQuietIff(c: Setting, m: Message, i: Input)
    requires SaneLimits(c) && Clamped(m) && m.gasLimit >= 0 && i.limit == 0 && Improve(c, m, 0, i.fee).Some?
    ensures var r := Improve(c, m, 0, i.fee).value;
            r.gasLimit >= 0 && (Quiet(c, r, i) <==> QuietAtZero(c, r))
  {
    var r := Improve(c, m, 0, i.fee).value;
    ScaledIsSane(c, m, 0);
    RescaledAtZero(c, r);
    NearIff(r.gasLimit, c.limitEstimateSeed, c.limitAdjustSeed, ClampOf(c, r));
  }

  /** The call leaves a message alone that it has just pushed: always so with an estimate, or for the methods that
      are not scaled. */
  predicate Steady(c: Setting, m: Message, i: Input)
    requires SaneLimits(c)
  {
    || i.limit > 0
    || (&& i.limit == 0 && m.gasLimit >= 0
        && (Clamped(m) && Improve(c, m, 0, i.fee).Some? ==>
              var r := Improve(c, m, 0, i.fee).value; r.gasLimit >= 0 && QuietAtZero(c, r)))
  }

  predicate SteadyRun(c: Setting, m: Message, ins: seq<Input>)
    requires SaneLimits(c)
    decreases |ins|
  {
    ins == [] || (Steady(c, m, ins[0]) && SteadyRun(c, Eval(c, m, ins[0]).0, ins[1..]))
  }

  lemma {:induction false} QuietWithEstimate(c: Setting, m: Message, i: Input)
    requires SaneLimits(c) && (i.limit > 0 || (i.limit == 0 && m.gasLimit >= 0 && !Clamped(m)))
    requires Improve(c, m, i.limit, i.fee).Some?
    ensures Quiet(c, Improve(c, m, i.limit, i.fee).value, i)
  {
    var r := Improve(c, m, i.limit, i.fee).value;
    TruncScale(if i.limit == 0 then m.gasLimit else i.limit, c.limitEstimateSeed);
    assert r.gasLimit == ScaledLimit(c, m, i.limit) == ScaledLimit(c, r, i.limit) >= 0;
    TruncScale(r.gasLimit, c.limitAdjustSeed);
  }

  /** A message that has just been pushed is left alone when it is evaluated with the same inputs. */
  lemma {:induction false} QuietAfterPush(c: Setting, m: Message, i: Input)
    requires SaneLimits(c) && Steady(c, m, i) && Improve(c, m, i.limit, i.fee).Some?
    ensures Quiet(c, Improve(c, m, i.limit, i.fee).value, i)
  {
    if i.limit == 0 && Clamped(m) {
      ZeroLimitQuietIff(c, m, i);
    } else {
      QuietWithEstimate(c, m, i);
    }
  }

  lemma {:induction false} PushesBounded(c: Setting, m: Message, ins: seq<Input>)
    requires SaneLimits(c) && SteadyRun(c, m, ins)
    ensures Pushes(c, m, ins) <= Segments(ins)
    ensures ins != [] && Quiet(c, m, ins[0]) ==> Pushes(c, m, ins) < Segments(ins)
    decreases |ins|
  {
    if ins == [] {
    } else {
      var r := Eval(c, m, ins[0]);
      if r.1 {
        QuietAfterPush(c, m, ins[0]);
      }
      PushesBounded(c, r.0, ins[1..]);
      if |ins| > 1 && SameKey(ins[0], ins[1]) {
        assert Quiet(c, r.0, ins[1]) == Quiet(c, r.0, ins[0]);
      }
    }
  }

  /** No churn: calls on one nonce, one after another, replace its message at most once for every change of
      the fee cap or of the incoming limit. */
  lemma {:induction false} NoChurn(c: Setting, m: Message, ins: seq<Input>)
    requires SaneLimits(c) && SteadyRun(c, m, ins)
    ensures Pushes(c, m, ins) <= Segments(ins)
  {
    PushesBounded(c, m, ins);
  }

  /** The condition on the run is met when every call has an estimate, or the method is not scaled. */
  lemma {:induction false} SteadyWithEstimates(c: Setting, m: Message, ins: seq<Input>)
    requires SaneLimits(c) && m.gasLimit >= 0
    requires forall k :: 0 <= k < |ins| ==> ins[k].limit > 0 || (ins[k].limit == 0 && !Clamped(m))
    ensures SteadyRun(c, m, ins)
    decreases |ins|
  {
    if ins == [] {
    } else {
      ScaledIsSane(c, m, ins[0].limit);
      SteadyWithEstimates(c, Eval(c, m, ins[0]).0, ins[1..]);
    }
  }

  // ---------- The estimate seed within the adjust seed of 100 ----------

  predicate SeedsAgree(c: Setting) {
    100 - c.limitAdjustSeed <= c.limitEstimateSeed <= 100 + c.limitAdjustSeed
  }

  /** How many more replacements the same inputs can make. */
  function Slack(c: Setting, m: Message, i: Input): nat {
    match Improve(c, m, i.limit, i.fee)
    case None => 0
    case Some(r) => if Quiet(c, r, i) then 1 else 2
  }

  /** What is not left alone then is scaled to the break limit. */
  lemma {:induction false} OnlyBreakLimitIsLeft(c: Setting, r: Message, i: Input)
    requires SaneLimits(c) && SeedsAgree(c) && Clamped(r) && 0 <= r.gasLimit <= ClampOf(c, r)
    requires i.limit == 0 && r.gasFeeCap == i.fee && !Quiet(c, r, i)
    ensures ScaledLimit(c, r, 0) == c.preBreakLimit
  {
    RescaledAtZero(c, r);
    NearIff(r.gasLimit, c.limitEstimateSeed, c.limitAdjustSeed, ClampOf(c, r));
  }

  /** And a push at the break limit is the last one. */
  lemma {:induction false} QuietAtBreakLimit(c: Setting, r: Message, i: Input)
    requires Clamped(r) && i.limit == 0 && ScaledLimit(c, r, 0) == c.preBreakLimit && !Quiet(c, r, i)
    ensures Quiet(c, Improve(c, r, 0, i.fee).value, i)
  {
    var r' := Improve(c, r, 0, i.fee).value;
    assert r'.gasLimit == c.preBreakLimit && r'.gasFeeCap == i.fee;
    assert ScaledLimit(c, r', 0) == c.preBreakLimit;
  }

  /** Then a second push at the same inputs can only happen because the scaled limit hits the break limit, and it is
      the last one. */
  lemma {:induction false} SecondPushIsLast(c: Setting, m: Message, i: Input)
    requires SaneLimits(c) && SeedsAgree(c) && m.gasLimit >= 0 && i.limit >= 0 && Improve(c, m, i.limit, i.fee).Some?
    ensures var r := Improve(c, m, i.limit, i.fee).value;
            r.gasLimit >= 0 && Slack(c, r, i) < Slack(c, m, i)
  {
    var r := Improve(c, m, i.limit, i.fee).value;
    ScaledIsSane(c, m, i.limit);
    if i.limit > 0 || !Clamped(m) {
      QuietWithEstimate(c, m, i);
    } else if !Quiet(c, r, i) {
      OnlyBreakLimitIsLeft(c, r, i);
      QuietAtBreakLimit(c, r, i);
    }
  }

  lemma {:induction false} PushesWithSlack(c: Setting, m: Message, ins: seq<Input>)
    requires SaneLimits(c) && SeedsAgree(c) && m.gasLimit >= 0 && forall k :: 0 <= k < |ins| ==> ins[k].limit >= 0
    ensures Pushes(c, m, ins) <= 2 * Segments(ins)
    ensures ins != [] ==> Pushes(c, m, ins) <= 2 * (Segments(ins) - 1) + Slack(c, m, ins[0])
    decreases |ins|
  {
    if ins == [] {
    } else {
      var r := Eval(c, m, ins[0]);
      if r.1 {
        SecondPushIsLast(c, m, ins[0]);
      }
      PushesWithSlack(c, r.0, ins[1..]);
      if |ins| > 1 && SameKey(ins[0], ins[1]) {
        assert Slack(c, r.0, ins[1]) == Slack(c, r.0, ins[0]);
      }
    }
  }

  /** With such seeds, the default ones among them, calls with and without estimates replace a message at most twice
      for every change of the fee cap or of the incoming limit. */
  lemma {:induction false} AtMostTwoPushesEach(c: Setting, m: Message, ins: seq<Input>)
    requires SaneLimits(c) && SeedsAgree(c) && m.gasLimit >= 0 && forall k :: 0 <= k < |ins| ==> ins[k].limit >= 0
    ensures Pushes(c, m, ins) <= 2 * Segments(ins)
  {
    PushesWithSlack(c, m, ins);
  }

  /** With other seeds there is churn: a ProveCommit message is scaled again at the same inputs. */
  lemma {:induction false} ZeroLimitChurns(c: Setting, m: Message, i: Input)
    requires m.method_ == PROVE_COMMIT_SECTOR && m.gasLimit == 1000 && m.gasPremium == 100000
    requires c.limitEstimateSeed == 130 && c.limitAdjustSeed == 10 && c.proLimit >= 2000 && c.preBreakLimit == 1
    requires c.premiumSeed == 126 && c.limitMaxPremium == 1900000
    requires i == Input(1, 0, true)
    ensures Pushes(c, m, [i, i]) == 2 && Segments([i, i]) == 1
  {
    var m1 := Improve(c, m, 0, 1).value;
    assert m1.gasLimit == 1300 && m1.gasPremium == 126000;
    assert Improve(c, m1, 0, 1).Some?;
    assert [i, i][1..] == [i];
    assert Pushes(c, m1, [i]) == 1;
  }
}

/** The labels that syncMsg keeps for the sectors with a pending message (baseFeeAuto/mpoolQueue.go). */
module MpoolLabels {
  import opened Prelude

  /** What getTickerEpoch answers about a message; all zero when it fails. */
  datatype Ticker = Ticker(sealEpoch: int, seedEpoch: int, expireEpoch: int, expireTime: int)

  /** A pending message: its sender, the sector its parameters name, its converted form, and its ticker. */
  datatype PoolMessage = PoolMessage(from: string, sector: int, converted: string, ticker: Ticker)

  datatype Labels = Labels(message: string, sealRandEpoch: int, seedEpoch: int, expireEpoch: int, remainEpoch: int,
                           expireTimeStamp: int)

  type Pools = map<int, Labels>

  /** The label of a message seen at chain height `head`. */
  function Build(m: PoolMessage, head: int): Labels {
    Labels(m.converted, m.ticker.sealEpoch, m.ticker.seedEpoch, m.ticker.expireEpoch,
           if m.ticker.expireEpoch > 0 then m.ticker.expireEpoch - head else 0, m.ticker.expireTime)
  }

  /** `l` is the label of `m` at chain height `head`; the remaining epochs are those to a known expiry. */
  predicate IsLabelOf(l: Labels, m: PoolMessage, head: int) {
    && l.message == m.converted
    && l.sealRandEpoch == m.ticker.sealEpoch && l.seedEpoch == m.ticker.seedEpoch
    && l.expireEpoch == m.ticker.expireEpoch && l.expireTimeStamp == m.ticker.expireTime
    && (if l.expireEpoch > 0 then l.remainEpoch + head == l.expireEpoch else l.remainEpoch == 0)
  }

  function FromWallet(wallets: set<string>): PoolMessage -> bool {
    (m: PoolMessage) => m.from in wallets
  }

  /** The messages of the configured wallets. */
  function Filtered(wallets: set<string>, ms: seq<PoolMessage>): seq<PoolMessage> {
    FilterBy(FromWallet(wallets), ms)
  }

  lemma {:induction false} FilteredNext(wallets: set<string>, ms: seq<PoolMessage>, n: nat)
    requires n < |ms|
    ensures Filtered(wallets, ms[..n + 1])
         == Filtered(wallets, ms[..n]) + if ms[n].from in wallets then [ms[n]] else []
  {
    FilterNext(FromWallet(wallets), ms, n);
  }

  predicate OfWallet(wallets: set<string>, ms: seq<PoolMessage>, i: int) {
    0 <= i < |ms| && ms[i].from in wallets
  }

  /** How many messages are those of configured wallets. */
  function WalletCount(wallets: set<string>, ms: seq<PoolMessage>): nat {
    |set i | 0 <= i < |ms| && ms[i].from in wallets|
  }

  lemma {:induction false} FilteredSize(wallets: set<string>, ms: seq<PoolMessage>)
    ensures |Filtered(wallets, ms)| == WalletCount(wallets, ms)
  {
    FilterSize(FromWallet(wallets), ms);
    assert IndicesOf(FromWallet(wallets), ms) == set i | 0 <= i < |ms| && ms[i].from in wallets;
  }

  lemma {:induction false} FilteredCounts(wallets: set<string>, ms: seq<PoolMessage>, m: PoolMessage)
    ensures multiset(Filtered(wallets, ms))[m] == if m.from in wallets then multiset(ms)[m] else 0
  {
    FilterCounts(FromWallet(wallets), ms, m);
  }

  /** `at` are the indices of the wallets' messages in order, and `fs` are these messages. */
  ghost predicate KeepsWallets(wallets: set<string>, ms: seq<PoolMessage>, at: seq<nat>, fs: seq<PoolMessage>) {
    && |fs| == |at|
    && (forall j, k :: 0 <= j < k < |at| ==> at[j] < at[k])
    && (forall j :: 0 <= j < |at| ==> OfWallet(wallets, ms, at[j]) && fs[j] == ms[at[j]])
    && (forall i :: OfWallet(wallets, ms, i) ==> i in at)
  }

  lemma {:induction false} FilteredPicks(wallets: set<string>, ms: seq<PoolMessage>) returns (at: seq<nat>)
    ensures KeepsWallets(wallets, ms, at, Filtered(wallets, ms))
  {
    at := FilterPicks(FromWallet(wallets), ms);
  }

  /** Filtering keeps exactly the messages of the wallets, with multiplicity and in order. */
  lemma {:induction false} FilteredSpec(wallets: set<string>, ms: seq<PoolMessage>) returns (at: seq<nat>)
    ensures |Filtered(wallets, ms)| == WalletCount(wallets, ms)
    ensures KeepsWallets(wallets, ms, at, Filtered(wallets, ms))
    ensures forall m :: multiset(Filtered(wallets, ms))[m] == if m.from in wallets then multiset(ms)[m] else 0
  {
    at := FilteredPicks(wallets, ms);
    FilteredSize(wallets, ms);
    forall m
      ensures multiset(Filtered(wallets, ms))[m] == if m.from in wallets then multiset(ms)[m] else 0
    {
      FilteredCounts(wallets, ms, m);
    }
  }

  predicate HasSector(fs: seq<PoolMessage>, k: int) {
    exists i :: 0 <= i < |fs| && fs[i].sector == k
  }

  /** The last message with sector `k`. */
  function LastWith(fs: seq<PoolMessage>, k: int): PoolMessage
    requires HasSector(fs, k)
  {
    if fs[|fs| - 1].sector == k then fs[|fs| - 1] else LastWith(fs[..|fs| - 1], k)
  }

  lemma {:induction false} LastWithIs(fs: seq<PoolMessage>, k: int, i: int)
    requires 0 <= i < |fs| && fs[i].sector == k && forall j :: i < j < |fs| ==> fs[j].sector != k
    ensures HasSector(fs, k) && LastWith(fs, k) == fs[i]
    decreases |fs|
  {
    if i == |fs| - 1 {
    } else {
      LastWithIs(fs[..|fs| - 1], k, i);
    }
  }

  /** One pass over the filtered messages: a sector that had a label keeps it, another one gets the label of
      the message at hand, replacing that of an earlier message. */
  function NextPools(old_: Pools, fs: seq<PoolMessage>, head: int): Pools {
    if fs == [] then map[]
    else
      var m := fs[|fs| - 1];
      NextPools(old_, fs[..|fs| - 1], head)[m.sector := if m.sector in old_ then old_[m.sector] else Build(m, head)]
  }

  lemma {:induction false} NextPoolsAppend(old_: Pools, fs: seq<PoolMessage>, m: PoolMessage, head: int)
    ensures NextPools(old_, fs + [m], head)
         == NextPools(old_, fs, head)[m.sector := if m.sector in old_ then old_[m.sector] else Build(m, head)]
  {
    assert (fs + [m])[..|fs|] == fs;
  }

  /** One round of the loop over the pool. */
  lemma {:induction false} PassNext(old_: Pools, wallets: set<string>, ms: seq<PoolMessage>, n: nat, head: int)
    requires n < |ms|
    ensures var fs, next, m := Filtered(wallets, ms[..n]), Filtered(wallets, ms[..n + 1]), ms[n];
            if m.from in wallets then
              && |next| == |fs| + 1
              && NextPools(old_, next, head)
              == NextPools(old_, fs, head)[m.sector := if m.sector in old_ then old_[m.sector] else Build(m, head)]
            else next == fs
  {
    FilteredNext(wallets, ms, n);
    NextPoolsAppend(old_, Filtered(wallets, ms[..n]), ms[n], head);
    assert Filtered(wallets, ms[..n]) + [] == Filtered(wallets, ms[..n]);
  }

  lemma {:induction false} NextPoolsSpec(old_: Pools, fs: seq<PoolMessage>, head: int, k: int)
    ensures k in NextPools(old_, fs, head) <==> HasSector(fs, k)
    ensures HasSector(fs, k) ==>
              NextPools(old_, fs, head)[k] == if k in old_ then old_[k] else Build(LastWith(fs, k), head)
  {
    if fs == [] {
    } else {
      var n := |fs| - 1;
      NextPoolsSpec(old_, fs[..n], head, k);
      assert HasSector(fs, k) <==> fs[n].sector == k || HasSector(fs[..n], k) by {
        if HasSector(fs[..n], k) {
          var i :| 0 <= i < n && fs[..n][i].sector == k;
          assert fs[i].sector == k;
        }
        if HasSector(fs, k) && fs[n].sector != k {
          var i :| 0 <= i < |fs| && fs[i].sector == k;
          assert fs[..n][i].sector == k;
        }
      }
    }
  }

  /** The labels after a sync that saw the pool `ms` at `head`, said of the pool itself: the sectors named by a message
      of a wallet have one; an old label is kept, and a new one is that of the last such message. */
  ghost predicate LabelsAfter(old_: Pools, wallets: set<string>, ms: seq<PoolMessage>, head: int, new_: Pools) {
    && (forall k :: k in new_ <==> exists i :: OfWallet(wallets, ms, i) && ms[i].sector == k)
    && (forall k :: k in new_ && k in old_ ==> new_[k] == old_[k])
    && (forall i :: IsLast(wallets, ms, i) && ms[i].sector in new_ && ms[i].sector !in old_ ==>
                      IsLabelOf(new_[ms[i].sector], ms[i], head))
  }

  /** No later message of a wallet names the same sector. */
  ghost predicate IsLast(wallets: set<string>, ms: seq<PoolMessage>, i: int) {
    OfWallet(wallets, ms, i) && forall j :: i < j && OfWallet(wallets, ms, j) ==> ms[j].sector != ms[i].sector
  }

  lemma {:induction false} FilteredSectors(wallets: set<string>, ms: seq<PoolMessage>, k: int)
    ensures HasSector(Filtered(wallets, ms), k) <==> exists i :: OfWallet(wallets, ms, i) && ms[i].sector == k
  {
    var fs := Filtered(wallets, ms);
    var at := FilteredPicks(wallets, ms);
    if j :| 0 <= j < |fs| && fs[j].sector == k {
      assert OfWallet(wallets, ms, at[j]) && ms[at[j]].sector == k;
    }
    if i :| OfWallet(wallets, ms, i) && ms[i].sector == k {
      var j :| 0 <= j < |at| && at[j] == i;
      assert fs[j].sector == k;
    }
  }

  lemma {:induction false} FilteredLast(wallets: set<string>, ms: seq<PoolMessage>, i: int)
    requires IsLast(wallets, ms, i)
    ensures var fs := Filtered(wallets, ms);
            HasSector(fs, ms[i].sector) && LastWith(fs, ms[i].sector) == ms[i]
  {
    var fs := Filtered(wallets, ms);
    var at := FilteredPicks(wallets, ms);
    var j :| 0 <= j < |at| && at[j] == i;
    assert forall l :: j < l < |fs| ==> OfWallet(wallets, ms, at[l]) && at[l] > i;
    LastWithIs(fs, ms[i].sector, j);
  }

  lemma {:induction false} LabelsAfterSync(old_: Pools, wallets: set<string>, ms: seq<PoolMessage>, head: int)
    ensures LabelsAfter(old_, wallets, ms, head, NextPools(old_, Filtered(wallets, ms), head))
  {
    var fs := Filtered(wallets, ms);
    var new_ := NextPools(old_, fs, head);
    forall k
      ensures k in new_ <==> exists i :: OfWallet(wallets, ms, i) && ms[i].sector == k
      ensures k in new_ && k in old_ ==> new_[k] == old_[k]
    {
      NextPoolsSpec(old_, fs, head, k);
      FilteredSectors(wallets, ms, k);
    }
    forall i | IsLast(wallets, ms, i) && ms[i].sector !in old_
      ensures ms[i].sector in new_ ==> IsLabelOf(new_[ms[i].sector], ms[i], head)
    {
      FilteredLast(wallets, ms, i);
      NextPoolsSpec(old_, fs, head, ms[i].sector);
    }
  }

  // ---------- Runs of syncs ----------

  /** A sync that could not read the pool or the head, or one that saw these filtered messages at `head`. */
  datatype PoolSync = SyncFailed | Synced(fs: seq<PoolMessage>, head: int)

  function PoolsStep(old_: Pools, s: PoolSync): Pools {
    match s
    case SyncFailed => old_
    case Synced(fs, head) => NextPools(old_, fs, head)
  }

  function PoolsAfter(ss: seq<PoolSync>): Pools {
    if ss == [] then map[] else PoolsStep(PoolsAfter(ss[..|ss| - 1]), ss[|ss| - 1])
  }

  predicate Present(s: PoolSync, k: int) {
    s.Synced? && HasSector(s.fs, k)
  }

  predicate Absent(s: PoolSync, k: int) {
    s.Synced? && !HasSector(s.fs, k)
  }

  /** Sync `j` is the first of the streak of presence of `k` that is unbroken up to now; failed syncs do not
      break a streak. */
  ghost predicate StartsStreak(ss: seq<PoolSync>, k: int, j: int) {
    && 0 <= j < |ss| && Present(ss[j], k)
    && (forall i :: j < i < |ss| ==> !Absent(ss[i], k))
    && (forall i :: 0 <= i < j && Present(ss[i], k) ==> exists a :: i < a < j && Absent(ss[a], k))
  }

  /** A sector without a label has been absent since it was last present. */
  lemma {:induction false} MissingWasAbsent(ss: seq<PoolSync>, k: int, i: int)
    requires k !in PoolsAfter(ss) && 0 <= i < |ss| && Present(ss[i], k)
    ensures exists a :: i < a < |ss| && Absent(ss[a], k)
  {
    var n := |ss| - 1;
    if ss[n].Synced? {
      NextPoolsSpec(PoolsAfter(ss[..n]), ss[n].fs, ss[n].head, k);
      assert Absent(ss[n], k);
    } else {
      MissingWasAbsent(ss[..n], k, i);
      var a :| i < a < n && Absent(ss[..n][a], k);
      assert Absent(ss[a], k);
    }
  }

  /** A sector with a label has not been absent since it was last present. */
  lemma {:induction false} LabelledWasPresent(ss: seq<PoolSync>, n: nat, k: int) returns (i: int)
    requires n <= |ss| && k in PoolsAfter(ss[..n])
    ensures 0 <= i < n && Present(ss[i], k) && forall a :: i < a < n ==> ss[a].SyncFailed?
    decreases n
  {
    var ps := ss[..n];
    assert ps[..n - 1] == ss[..n - 1];
    if ps[n - 1].Synced? {
      NextPoolsSpec(PoolsAfter(ps[..n - 1]), ps[n - 1].fs, ps[n - 1].head, k);
      i := n - 1;
    } else {
      i := LabelledWasPresent(ss, n - 1, k);
    }
  }

  lemma {:induction false} PresentWithoutGap(ss: seq<PoolSync>, n: nat, k: int)
    requires n <= |ss|
    ensures k in PoolsAfter(ss[..n]) ==>
              exists i :: 0 <= i < n && Present(ss[i], k) && !(exists a :: i < a < n && Absent(ss[a], k))
  {
    if k in PoolsAfter(ss[..n]) {
      var i := LabelledWasPresent(ss, n, k);
    }
  }

  lemma {:induction false} StreakOfPrefix(ss: seq<PoolSync>, k: int, j: int)
    requires StartsStreak(ss, k, j) && j < |ss| - 1
    ensures StartsStreak(ss[..|ss| - 1], k, j)
  {
    var n := |ss| - 1;
    var ps := ss[..n];
    forall i | 0 <= i < j && Present(ps[i], k)
      ensures exists a :: i < a < j && Absent(ps[a], k)
    {
      assert Present(ss[i], k);
      var a :| i < a < j && Absent(ss[a], k);
      assert Absent(ps[a], k);
    }
    forall i | j < i < n
      ensures !Absent(ps[i], k)
    {
      assert !Absent(ss[i], k);
    }
    assert ps[j] == ss[j];
  }

  /** The label of a sector is the one built at the first sync of its current streak, from the last message
      with that sector in that sync. */
  lemma {:induction false} LabelIsFromStreakStart(ss: seq<PoolSync>, k: int, j: int)
    requires StartsStreak(ss, k, j)
    ensures k in PoolsAfter(ss) && PoolsAfter(ss)[k] == Build(LastWith(ss[j].fs, k), ss[j].head)
  {
    var n := |ss| - 1;
    if j == n {
      PresentWithoutGap(ss, n, k);
      NextPoolsSpec(PoolsAfter(ss[..n]), ss[n].fs, ss[n].head, k);
    } else {
      StreakOfPrefix(ss, k, j);
      LabelIsFromStreakStart(ss[..n], k, j);
      assert !Absent(ss[n], k);
      if ss[n].Synced? {
        NextPoolsSpec(PoolsAfter(ss[..n]), ss[n].fs, ss[n].head, k);
      }
    }
  }

  /** Every label belongs to a streak. */
  lemma {:induction false} LabelHasStreak(ss: seq<PoolSync>, k: int) returns (j: int)
    requires k in PoolsAfter(ss)
    ensures StartsStreak(ss, k, j)
  {
    var n := |ss| - 1;
    var ps := ss[..n];
    if k in PoolsAfter(ps) {
      j := LabelHasStreak(ps, k);
      if ss[n].Synced? {
        NextPoolsSpec(PoolsAfter(ps), ss[n].fs, ss[n].head, k);
      }
      forall i | 0 <= i < j && Present(ss[i], k)
        ensures exists a :: i < a < j && Absent(ss[a], k)
      {
        assert Present(ps[i], k);
        var a :| i < a < j && Absent(ps[a], k);
        assert Absent(ss[a], k);
      }
      forall i | j < i < |ss|
        ensures !Absent(ss[i], k)
      {
        if i < n {
          assert !Absent(ps[i], k);
        }
      }
      assert ps[j] == ss[j];
    } else {
      j := n;
      NextPoolsSpec(PoolsAfter(ps), ss[n].fs, ss[n].head, k);
      forall i | 0 <= i < j && Present(ss[i], k)
        ensures exists a :: i < a < j && Absent(ss[a], k)
      {
        assert Present(ps[i], k);
        MissingWasAbsent(ps, k, i);
        var a :| i < a < n && Absent(ps[a], k);
        assert Absent(ss[a], k);
      }
    }
  }

  /** After a successful sync the labels are exactly those of the sectors it saw, and over runs of any length
      each of them was built at the start of that sector's current streak. */
  lemma {:induction false} LabelStreaks(ss: seq<PoolSync>, k: int)
    ensures ss != [] && ss[|ss| - 1].Synced? ==> (k in PoolsAfter(ss) <==> HasSector(ss[|ss| - 1].fs, k))
    ensures k in PoolsAfter(ss) <==> exists j :: StartsStreak(ss, k, j)
    ensures forall j :: StartsStreak(ss, k, j) ==>
              k in PoolsAfter(ss) && PoolsAfter(ss)[k] == Build(LastWith(ss[j].fs, k), ss[j].head)
  {
    if ss != [] && ss[|ss| - 1].Synced? {
      NextPoolsSpec(PoolsAfter(ss[..|ss| - 1]), ss[|ss| - 1].fs, ss[|ss| - 1].head, k);
    }
    if k in PoolsAfter(ss) {
      var j := LabelHasStreak(ss, k);
    }
    forall j | StartsStreak(ss, k, j)
      ensures k in PoolsAfter(ss) && PoolsAfter(ss)[k] == Build(LastWith(ss[j].fs, k), ss[j].head)
    {
      LabelIsFromStreakStart(ss, k, j);
    }
  }
}

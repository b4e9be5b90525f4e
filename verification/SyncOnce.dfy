/** How often a block is stored (synchain/height.go, db/mongo/mongo.go): there is no unique index, so it is up to
    the scan to look before it leaps. */
module SyncOnce {
  import opened Prelude
  import opened Frontier
  import opened EpochTrace
  import opened SyncMachine
  import opened SyncTheorems
  import opened SyncScan

  /** No two records share a height. */
  predicate Once(blocks: seq<Record>) {
    forall j, k :: 0 <= j < k < |blocks| ==> blocks[j].height != blocks[k].height
  }

  /** Every height the scan can reach has its own tipset. */
  ghost predicate NoNullRounds(chain: Chain) {
    forall h :: h >= 2 ==> chain.tip(h) == h
  }

  ghost predicate OnceInv(env: Env, s: State) {
    Inv(env, s) && OnceData(s)
  }

  predicate OnceData(s: State) {
    && Once(s.blocks)
    && forall h :: h in s.workers && !s.workers[h].Finished? ==> h >= 2 && h !in Heights(s.blocks)
  }

  lemma {:induction false} DeleteKeepsOnce(blocks: seq<Record>, lo: int, hi: int)
    requires Once(blocks)
    ensures Once(DeleteWindow(blocks, lo, hi))
  {
    if blocks == [] {
    } else {
      var n := |blocks| - 1;
      var rest := DeleteWindow(blocks[..n], lo, hi);
      DeleteKeepsOnce(blocks[..n], lo, hi);
      DeletedHeights(blocks[..n], lo, hi);
      assert blocks[n].height !in Heights(blocks[..n]);
      OnceAppend(rest, blocks[n]);
      assert rest + [] == rest;
    }
  }

  lemma {:induction false} OnceAppend(blocks: seq<Record>, r: Record)
    requires Once(blocks) && r.height !in Heights(blocks)
    ensures Once(blocks + [r])
  {
    forall k | 0 <= k < |blocks|
      ensures blocks[k].height != r.height
    {
      assert blocks[k].height in Heights(blocks);
    }
  }

  lemma {:induction false} OnceStore(env: Env, s: State, h: int, ok: bool)
    requires NoNullRounds(env.chain) && OnceData(s) && Enabled(env, s, Store(h, ok))
    ensures OnceData(Apply(env, s, Store(h, ok)))
  {
    var r := Record(env.chain.tip(h), s.workers[h].outcome);
    HeightsAppend(s.blocks, r);
    OnceAppend(s.blocks, r);
  }

  lemma {:induction false} OnceDataStep(env: Env, s: State, l: Label)
    requires NoNullRounds(env.chain) && Inv(env, s) && OnceData(s) && Enabled(env, s, l) && !IsMiss(l)
    ensures OnceData(Apply(env, s, l))
  {
    match l
    case Restart(height, _) => DeleteKeepsOnce(s.blocks, height - 20, height + 20);
    case Store(h, ok) => OnceStore(env, s, h, ok);
    case _ =>
  }

  lemma {:induction false} OnceStep(env: Env, s: State, l: Label)
    requires ValidChain(env.chain) && NoNullRounds(env.chain) && OnceInv(env, s) && Enabled(env, s, l) && !IsMiss(l)
    ensures OnceInv(env, Apply(env, s, l))
  {
    KeepStep(env, s, l);
    OnceDataStep(env, s, l);
  }

  lemma {:induction false} OnceRun(env: Env, s: State, ls: seq<Label>, s': State)
    requires ValidChain(env.chain) && NoNullRounds(env.chain) && OnceInv(env, s) && Runs(env, s, ls, s') && Reliable(ls)
    ensures OnceInv(env, s')
    decreases |ls|
  {
    if ls == [] {
    } else {
      OnceStep(env, s, ls[0]);
      OnceRun(env, Apply(env, s, ls[0]), ls[1..], s');
    }
  }

  // ---------- A null round is stored twice ----------

  const EMPTY_DATABASE := State([], multiset{}, None, 0, {}, Down, map[])

  /** Started on an empty database, and with no failed lookup, the program never stores two records for
      one height. */
  ghost predicate StoresOnce(env: Env) {
    forall ls, s :: Runs(env, EMPTY_DATABASE, ls, s) && Reliable(ls) ==> Once(s.blocks)
  }

  /** A worker for `h` runs through, and the process dies. */
  lemma {:induction false} WorkerPass(env: Env, h: int, s: State) returns (ls: seq<Label>, s': State)
    requires InTick(s) && h in s.workers && s.workers[h].Started?
    ensures Runs(env, s, ls, s') && Fair(ls, true) && s'.phase.Down?
    ensures s'.blocks == s.blocks + [Record(env.chain.tip(h), ComputeFailed)]
  {
    var s1 := Apply(env, s, Trace(h, ComputeFailed));
    var s2 := Apply(env, s1, Store(h, true));
    s' := Apply(env, s2, Crash);
    ls := [Crash] + [];
    Prepend(env, s2, Crash, [], s');
    Prepend(env, s1, Store(h, true), ls, s');
    ls := [Store(h, true)] + ls;
    Prepend(env, s, Trace(h, ComputeFailed), ls, s');
    ls := [Trace(h, ComputeFailed)] + ls;
  }

  lemma {:induction false} NoneMissing(stored: set<int>, lo: int, hi: int)
    requires forall h :: lo < h <= hi ==> h in stored
    ensures Missing(stored, lo, hi) == []
    decreases hi - lo
  {
    if hi <= lo {
    } else {
      NoneMissing(stored, lo, hi - 1);
    }
  }

  /** No deletion at start-up fails. */
  predicate DeletesWork(ls: seq<Label>) {
    forall k :: 0 <= k < |ls| ==> ls[k].Restart? ==> ls[k].deleteOk
  }

  /** The lookups of a run are answered, and its deletions work where that is asked for. */
  predicate Fair(ls: seq<Label>, deleteOk: bool) {
    Reliable(ls) && (deleteOk ==> DeletesWork(ls))
  }

  lemma {:induction false} FairConcat(a: seq<Label>, b: seq<Label>, deleteOk: bool)
    requires Fair(a, deleteOk) && Fair(b, deleteOk)
    ensures Fair(a + b, deleteOk)
  {
  }

  lemma {:induction false} DeleteNothing(blocks: seq<Record>, lo: int, hi: int)
    requires forall k :: 0 <= k < |blocks| ==> blocks[k].height <= lo
    ensures DeleteWindow(blocks, lo, hi) == blocks
  {
    if blocks == [] {
    } else {
      DeleteNothing(blocks[..|blocks| - 1], lo, hi);
    }
  }

  /** A start-up at base `c` that deletes nothing: its deletion fails, or there is nothing above the base. */
  predicate NothingToDelete(s: State, c: int, deleteOk: bool) {
    deleteOk ==> forall k :: 0 <= k < |s.blocks| ==> s.blocks[k].height <= c
  }

  lemma {:induction false} StartAt(env: Env, s: State, c: int, deleteOk: bool) returns (s': State)
    requires s.phase.Down? && c > 0 && NothingToDelete(s, c, deleteOk)
    ensures Enabled(env, s, Restart(c + 20, deleteOk)) && s' == Apply(env, s, Restart(c + 20, deleteOk))
    ensures s'.phase.Idle? && s'.cursor == Some(c) && s'.blocks == s.blocks
  {
    if deleteOk {
      DeleteNothing(s.blocks, c, c + 40);
    }
    s' := Apply(env, s, Restart(c + 20, deleteOk));
  }

  /** A tick that gets to the missing height `k` with all heights before it stored. */
  lemma {:induction false} TickTo(env: Env, s: State, c: int, k: int) returns (ls: seq<Label>, s': State)
    requires s.phase.Idle? && s.cursor == Some(c) && !StopReached(env, c) && env.maxOnce >= 0
    requires c < k && StoredBetween(s, c, k) && k !in Heights(s.blocks)
    ensures Runs(env, s, ls, s') && Fair(ls, true) && s'.blocks == s.blocks
    ensures InTick(s') && k in s'.workers && s'.workers[k].Started?
  {
    NoneMissing(Heights(s.blocks), c, k - 1);
    var s1 := Apply(env, s, Begin(k + 2));
    var mid;
    ls, mid := ScanFromBegin(env, s, k + 2, k - 1);
    s' := Apply(env, mid, Dispatch(false));
    assert [Dispatch(false)][1..] == [];
    RunsConcat(env, s1, ls, mid, [Dispatch(false)], s');
    NoRestartInTick(env, s1, ls + [Dispatch(false)], s');
    ls := ls + [Dispatch(false)];
    Prepend(env, s, Begin(k + 2), ls, s');
    ls := [Begin(k + 2)] + ls;
  }

  /** A process that is up does not start up without a crash. */
  lemma {:induction false} NoRestartInTick(env: Env, s: State, ls: seq<Label>, s': State)
    requires Runs(env, s, ls, s') && WithinTick(ls) && InTick(s)
    ensures DeletesWork(ls)
    decreases |ls|
  {
    if ls == [] {
    } else {
      var rest := ls[1..];
      assert WithinTick(rest);
      NoRestartInTick(env, Apply(env, s, ls[0]), rest, s');
      assert forall k :: 0 < k < |ls| ==> ls[k] == rest[k - 1];
    }
  }

  /** The process starts at base `c`, dispatches the first missing height `k`, stores a block for it, and dies. */
  lemma {:induction false} Pass(env: Env, s: State, c: int, k: int, deleteOk: bool) returns (ls: seq<Label>, s': State)
    requires s.phase.Down? && 0 < c < k && !StopReached(env, c) && env.maxOnce >= 0
    requires StoredBetween(s, c, k) && k !in Heights(s.blocks) && NothingToDelete(s, c, deleteOk)
    ensures Runs(env, s, ls, s') && Fair(ls, deleteOk) && s'.phase.Down?
    ensures s'.blocks == s.blocks + [Record(env.chain.tip(k), ComputeFailed)]
  {
    var s1 := StartAt(env, s, c, deleteOk);
    var s2, ms;
    ls, s2 := TickTo(env, s1, c, k);
    ms, s' := WorkerPass(env, k, s2);
    RunsConcat(env, s1, ls, s2, ms, s');
    FairConcat(ls, ms, deleteOk);
    ls := ls + ms;
    Prepend(env, s, Restart(c + 20, deleteOk), ls, s');
    FairConcat([Restart(c + 20, deleteOk)], ls, deleteOk);
    ls := [Restart(c + 20, deleteOk)] + ls;
  }

  predicate StoredBetween(s: State, c: int, k: int) {
    forall h :: c < h < k ==> h in Heights(s.blocks)
  }

  ghost predicate OwnHeights(chain: Chain, s: State) {
    forall h :: h in Heights(s.blocks) ==> chain.tip(h) == h
  }

  /** Passes store the heights between the base and a null round `m`, one at a time. */
  lemma {:induction false} FillTo(env: Env, s: State, c: int, k: int, m: int) returns (ls: seq<Label>, s': State)
    requires s.phase.Down? && 0 < c < k <= m && !StopReached(env, c) && env.maxOnce >= 0
    requires StoredBetween(s, c, k) && OwnHeights(env.chain, s) && forall h :: c < h < m ==> env.chain.tip(h) == h
    ensures Runs(env, s, ls, s') && Fair(ls, false) && s'.phase.Down?
    ensures StoredBetween(s', c, m) && OwnHeights(env.chain, s')
    decreases m - k
  {
    if k == m {
      ls, s' := [], s;
    } else if k in Heights(s.blocks) {
      ls, s' := FillTo(env, s, c, k + 1, m);
    } else {
      var s1, ms;
      ls, s1 := Pass(env, s, c, k, false);
      HeightsAppend(s.blocks, Record(k, ComputeFailed));
      ms, s' := FillTo(env, s1, c, k + 1, m);
      RunsConcat(env, s, ls, s1, ms, s');
      FairConcat(ls, ms, false);
      ls := ls + ms;
    }
  }

  /** Two passes over a null round `m`: both store the earlier tipset, and `m` itself stays missing. */
  lemma {:induction false} PassTwice(env: Env, s: State, c: int, m: int, deleteOk: bool)
      returns (ls: seq<Label>, s': State)
    requires ValidChain(env.chain) && env.chain.tip(m) != m
    requires s.phase.Down? && 0 < c < m && !StopReached(env, c) && env.maxOnce >= 0
    requires StoredBetween(s, c, m) && OwnHeights(env.chain, s)
    requires NothingToDelete(s, c, deleteOk) && (deleteOk ==> c == m - 1)
    ensures Runs(env, s, ls, s') && Fair(ls, deleteOk) && !Once(s'.blocks)
  {
    var s1, ms;
    var r := Record(env.chain.tip(m), ComputeFailed);
    ls, s1 := Pass(env, s, c, m, deleteOk);
    HeightsAppend(s.blocks, r);
    ms, s' := Pass(env, s1, c, m, deleteOk);
    RunsConcat(env, s, ls, s1, ms, s');
    FairConcat(ls, ms, deleteOk);
    ls := ls + ms;
    assert s'.blocks[|s.blocks|] == r && s'.blocks[|s.blocks| + 1] == r;
  }

  lemma {:induction false} FirstNullRound(chain: Chain, from: int, h: int) returns (m: int)
    requires from <= h && chain.tip(h) != h
    ensures from <= m <= h && chain.tip(m) != m && forall k :: from <= k < m ==> chain.tip(k) == k
    decreases h - from
  {
    if chain.tip(from) != from {
      m := from;
    } else {
      m := FirstNullRound(chain, from + 1, h);
    }
  }

  /** A null round that the scan can reach is enough for a duplicate, whatever the stop height is. */
  lemma {:induction false} NullRoundDuplicates(env: Env, h: int)
    requires ValidChain(env.chain) && env.maxOnce >= 0 && h >= 2 && env.chain.tip(h) != h
    ensures !StoresOnce(env)
  {
    var m := FirstNullRound(env.chain, 2, h);
    var c := if 0 < env.stopHeight < m - 1 then env.stopHeight else m - 1;
    var ls, s := FillTo(env, EMPTY_DATABASE, c, c + 1, m);
    var ms, s' := PassTwice(env, s, c, m, false);
    RunsConcat(env, EMPTY_DATABASE, ls, s, ms, s');
    FairConcat(ls, ms, false);
  }

  /** It takes no fault at all, unless the stop height keeps the cursor away from the null round: two starts just
      below it, whose deletions work, are enough. */
  lemma {:induction false} CleanDuplicate(env: Env, h: int) returns (ls: seq<Label>, s: State)
    requires ValidChain(env.chain) && env.maxOnce >= 0 && h >= 2 && env.chain.tip(h) != h
    requires env.stopHeight <= 0 || env.stopHeight >= h - 1
    ensures Runs(env, EMPTY_DATABASE, ls, s) && Reliable(ls) && DeletesWork(ls) && !Once(s.blocks)
  {
    ls, s := PassTwice(env, EMPTY_DATABASE, h - 1, h, true);
  }

  // ---------- Without a batch nothing is stored ----------

  predicate NothingDone(s: State) {
    s.blocks == [] && s.workers == map[] && (s.phase.Scan? ==> s.phase.syncTODO == 0)
  }

  lemma {:induction false} NothingStored(env: Env, s: State, ls: seq<Label>, s': State)
    requires env.maxOnce < 0 && NothingDone(s) && Runs(env, s, ls, s')
    ensures s'.blocks == []
    decreases |ls|
  {
    if ls == [] {
    } else {
      NothingDoneStep(env, s, ls[0]);
      NothingStored(env, Apply(env, s, ls[0]), ls[1..], s');
    }
  }

  lemma {:induction false} NothingDoneStep(env: Env, s: State, l: Label)
    requires env.maxOnce < 0 && NothingDone(s) && Enabled(env, s, l)
    ensures NothingDone(Apply(env, s, l))
  {
  }

  /** Blocks are stored at most once, without the unique index and over all runs with roll-backs, crashes and
      restarts, exactly where the batch is empty or the chain has no null round within reach of the scan. */
  lemma {:induction false} AtMostOnceIff(env: Env)
    requires ValidChain(env.chain)
    ensures StoresOnce(env) <==> env.maxOnce < 0 || NoNullRounds(env.chain)
  {
    if env.maxOnce < 0 {
      forall ls, s | Runs(env, EMPTY_DATABASE, ls, s) && Reliable(ls)
        ensures Once(s.blocks)
      {
        NothingStored(env, EMPTY_DATABASE, ls, s);
      }
    } else if NoNullRounds(env.chain) {
      forall ls, s | Runs(env, EMPTY_DATABASE, ls, s) && Reliable(ls)
        ensures Once(s.blocks)
      {
        OnceRun(env, EMPTY_DATABASE, ls, s);
      }
    } else {
      var h :| h >= 2 && env.chain.tip(h) != h;
      NullRoundDuplicates(env, h);
    }
  }

  /** The same of the runs in which deletions at start-up never fail. */
  ghost predicate StoresOnceCleanly(env: Env) {
    forall ls, s :: Runs(env, EMPTY_DATABASE, ls, s) && Reliable(ls) && DeletesWork(ls) ==> Once(s.blocks)
  }

  /** Without a stop height failed deletions make no difference. */
  lemma {:induction false} CleanAtMostOnceIff(env: Env)
    requires ValidChain(env.chain) && env.stopHeight <= 0
    ensures StoresOnceCleanly(env) <==> env.maxOnce < 0 || NoNullRounds(env.chain)
  {
    AtMostOnceIff(env);
    if env.maxOnce >= 0 && !NoNullRounds(env.chain) {
      var h :| h >= 2 && env.chain.tip(h) != h;
      var ls, s := CleanDuplicate(env, h);
    }
  }
}

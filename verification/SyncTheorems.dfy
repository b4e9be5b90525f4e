/** What the chain synchroniser guarantees over whole runs, with workers, roll-backs, crashes and
    restarts interleaved in any way. */
module SyncTheorems {
  import opened Prelude
  import opened Bags
  import opened ConfigCell
  import opened Frontier
  import opened EpochTrace
  import opened SyncMachine

  lemma {:induction false} ReachableInv(env: Env, s0: State, ls: seq<Label>, s: State)
    requires ValidChain(env.chain) && Init(env, s0) && Runs(env, s0, ls, s)
    ensures Inv(env, s)
  {
    KeepRun(env, s0, ls, s);
  }

  // ---------- Coverage ----------

  predicate InFlight(s: State, h: int) {
    h in s.workers && !s.workers[h].Finished?
  }

  /** While the process is up, every height above the start-up base and at or below the persisted cursor
      is settled or has a worker in flight, although the cursor moves during the scan; and between ticks
      no worker is in flight. */
  lemma {:induction false} CursorCoverage(env: Env, s0: State, ls: seq<Label>, s: State)
    requires ValidChain(env.chain) && Init(env, s0) && Runs(env, s0, ls, s)
    ensures !s.phase.Down? && s.cursor.Some? ==>
              forall h :: s.base < h <= s.cursor.value ==> Settled(env, s, h) || InFlight(s, h)
    ensures !InTick(s) ==> s.workers == map[]
  {
    ReachableInv(env, s0, ls, s);
  }

  lemma {:induction false} Prepend(env: Env, s: State, l: Label, ls: seq<Label>, s': State)
    requires Enabled(env, s, l) && Runs(env, Apply(env, s, l), ls, s')
    ensures Runs(env, s, [l] + ls, s')
  {
    assert ([l] + ls)[1..] == ls;
  }

  // ---------- A block record implies its messages ----------

  lemma {:induction false} RecordDocsGrow(blocks: seq<Record>, r: Record)
    ensures RecordDocs(blocks) <= RecordDocs(blocks + [r])
    ensures Inserted(r.outcome) <= RecordDocs(blocks + [r])
  {
    RecordDocsAppend(blocks, r);
  }

  lemma {:induction false} RecordDocsContain(blocks: seq<Record>, k: nat, n: nat)
    requires k < n <= |blocks|
    ensures Inserted(blocks[k].outcome) <= RecordDocs(blocks[..n])
    decreases n
  {
    assert blocks[..n] == blocks[..n - 1] + [blocks[n - 1]];
    RecordDocsGrow(blocks[..n - 1], blocks[n - 1]);
    if k < n - 1 {
      RecordDocsContain(blocks, k, n - 1);
    }
  }

  /** In every reachable state, also after a crash between two steps of a worker, the block records together account
      for messages that are all there, each record for its own copy: for what its worker inserted; where that insert
      succeeded, for everything its goroutines collected, whatever lookups failed and contexts were found done; and
      where nothing failed, for exactly what the tipset calls for. */
  lemma {:induction false} RecordsImplyMessages(env: Env, s0: State, ls: seq<Label>, s: State)
    requires ValidChain(env.chain) && Init(env, s0) && Runs(env, s0, ls, s)
    ensures RecordDocs(s.blocks) <= s.messages
    ensures forall k :: 0 <= k < |s.blocks| ==> RecordBacked(env.chain, s.blocks[k], s.messages)
  {
    ReachableInv(env, s0, ls, s);
    KeepOutcomesRun(env, s0, ls, s);
    forall k | 0 <= k < |s.blocks|
      ensures RecordBacked(env.chain, s.blocks[k], s.messages)
    {
      assert s.blocks[..|s.blocks|] == s.blocks;
      RecordDocsContain(s.blocks, k, |s.blocks|);
      if Succeeded(env.chain, s.blocks[k].height, s.blocks[k].outcome) {
        SuccessInsertsAll(env.chain, s.blocks[k].height, s.blocks[k].outcome);
      }
    }
  }

  ghost predicate RecordBacked(chain: Chain, r: Record, messages: multiset<Doc>) {
    && Possible(chain, r.height, r.outcome)
    && Inserted(r.outcome) <= messages
    && (r.outcome.Ran? && r.outcome.insertOk ==> Collected(chain, r.height, r.outcome.fs) <= messages)
    && (Succeeded(chain, r.height, r.outcome) ==> Expected(chain, r.height) <= messages)
  }

  // ---------- One tick ----------

  /** The steps of one tick: neither its end nor a crash. */
  predicate WithinTick(ls: seq<Label>) {
    forall k :: 0 <= k < |ls| ==> !ls[k].Crash? && !ls[k].Joined?
  }

  predicate IsMiss(l: Label) {
    (l.Dispatch? || l.Break?) && l.missed
  }

  /** No lookup of the scan fails. */
  predicate Reliable(ls: seq<Label>) {
    forall k :: 0 <= k < |ls| ==> !IsMiss(ls[k])
  }

  /** What a tick does not change: where it started and on which database, and the base of the guarantee. */
  lemma {:induction false} TickHistory(env: Env, s: State, ls: seq<Label>, s': State)
    requires InTick(s) && Runs(env, s, ls, s') && WithinTick(ls)
    ensures InTick(s') && s'.base == s.base && s.lost <= s'.lost
    ensures s'.phase.b == s.phase.b.(dispatched := s'.phase.b.dispatched, reliable := s'.phase.b.reliable)
    ensures Reliable(ls) && s.phase.b.reliable ==> s'.phase.b.reliable
    decreases |ls|
  {
    if ls == [] {
    } else {
      TickHistory(env, Apply(env, s, ls[0]), ls[1..], s');
      assert Reliable(ls) ==> !IsMiss(ls[0]) && Reliable(ls[1..]);
    }
  }

  /** The workers of a tick one after another, in the order of their heights, with the given outcomes. */
  function SyncAll(chain: Chain, blocks: seq<Record>, messages: multiset<Doc>, hs: seq<int>, ws: map<int, Pc>)
    : (seq<Record>, multiset<Doc>)
  {
    if hs == [] then (blocks, messages)
    else
      var h := hs[|hs| - 1];
      var before := SyncAll(chain, blocks, messages, hs[..|hs| - 1], ws);
      var pc := PcOf(ws, h);
      (before.0 + if pc.Finished? && pc.stored then [Record(chain.tip(h), pc.outcome)] else [],
       before.1 + DocsOf(pc, false))
  }

  lemma {:induction false} SyncAllAdds(chain: Chain, blocks: seq<Record>, messages: multiset<Doc>, hs: seq<int>,
                                       ws: map<int, Pc>)
    ensures var r := SyncAll(chain, blocks, messages, hs, ws);
            && multiset(r.0) == multiset(blocks) + BlocksAdded(chain, hs, ws)
            && r.1 == messages + DocsAdded(hs, ws, false)
  {
    if hs == [] {
    } else {
      var n := |hs| - 1;
      SyncAllAdds(chain, blocks, messages, hs[..n], ws);
      Regroup(multiset(blocks), BlocksAdded(chain, hs[..n], ws), BlockOf(chain, hs[n], PcOf(ws, hs[n])));
      Regroup(messages, DocsAdded(hs[..n], ws, false), DocsOf(PcOf(ws, hs[n]), false));
    }
  }

  /** What a tick from `s` may dispatch before it ends at `last`: no more than a batch, and nothing that is missing
      on the way is left out. Where no lookup fails it is exactly what is missing, and `last` is the frontier. */
  ghost predicate Dispatchable(env: Env, s: State, head: int, last: int, hs: seq<int>, reliable: bool) {
    && s.cursor.Some?
    && var c, stored := s.cursor.value, Heights(s.blocks);
       && c <= last <= Max(c, head - 2) && Ascending(hs, c, last) && |hs| <= BatchLimit(env.maxOnce)
       && (forall h :: c < h <= last && h !in stored ==> h in hs)
       && (reliable ==>
             hs == Missing(stored, c, last) && IsFrontier(stored, c, head - 2, BatchLimit(env.maxOnce), last))
  }

  /** The collections of `s'` are those of `s` after the workers for `hs` one by one, with these outcomes. */
  ghost predicate WorkersRan(env: Env, s: State, hs: seq<int>, outcomes: map<int, Pc>, s': State) {
    var seqResult := SyncAll(env.chain, s.blocks, s.messages, hs, outcomes);
    && outcomes.Keys == (set h | h in hs)
    && (forall h :: h in outcomes ==> outcomes[h].Finished?)
    && multiset(s'.blocks) == multiset(seqResult.0)
    && s'.messages == seqResult.1
  }

  /** `s'` is `s` after a whole tick: the cursor is where the scan ended, and the collections are those of the scan
      followed by the workers it dispatched, with some outcomes. */
  ghost predicate TickEffect(env: Env, s: State, head: int, last: int, reliable: bool, s': State) {
    && s'.cursor == Pos(last)
    && exists hs: seq<int>, outcomes: map<int, Pc> ::
         Dispatchable(env, s, head, last, hs, reliable) && WorkersRan(env, s, hs, outcomes, s')
  }

  lemma {:induction false} JoinDispatches(env: Env, s: State, head: int, last: int, s': State, b: Batch, reliable: bool)
    requires ScanOk(env, s', b, last) && JoinOk(env, b, last)
    requires s.cursor == Some(b.start) && b.top == head - 2 && b.blocks0 == s.blocks && (reliable ==> b.reliable)
    ensures Dispatchable(env, s, head, last, b.dispatched, reliable)
  {
  }

  lemma {:induction false} TickDispatches(env: Env, s: State, head: int, ls: seq<Label>, s': State)
    requires ValidChain(env.chain) && Inv(env, s) && Enabled(env, s, Begin(head))
    requires Runs(env, Apply(env, s, Begin(head)), ls, s') && WithinTick(ls) && s'.phase.Join?
    ensures Dispatchable(env, s, head, s'.phase.lastHeight, s'.phase.b.dispatched, Reliable(ls))
  {
    var s1 := Apply(env, s, Begin(head));
    KeepStep(env, s, Begin(head));
    KeepRun(env, s1, ls, s');
    TickHistory(env, s1, ls, s');
    JoinDispatches(env, s, head, s'.phase.lastHeight, s', s'.phase.b, Reliable(ls));
  }

  lemma {:induction false} TickWorkersRan(env: Env, s: State, head: int, ls: seq<Label>, s': State)
    requires ValidChain(env.chain) && Inv(env, s) && Enabled(env, s, Begin(head))
    requires Runs(env, Apply(env, s, Begin(head)), ls, s') && WithinTick(ls) && Enabled(env, s', Joined)
    ensures WorkersRan(env, s, s'.phase.b.dispatched, s'.workers, s')
  {
    var s1 := Apply(env, s, Begin(head));
    KeepStep(env, s, Begin(head));
    KeepRun(env, s1, ls, s');
    TickHistory(env, s1, ls, s');
    SyncAllAdds(env.chain, s.blocks, s.messages, s'.phase.b.dispatched, s'.workers);
  }

  /** A tick that begins in `s` and has all its workers finished in `s'`, by whatever interleaving of scan
      and workers: the cursor is about to be set to the end of the scan, and both collections are what the scan
      followed by its workers one by one, with the same outcomes, would have left. Without a failed lookup it
      dispatched exactly the heights missing up to the frontier. */
  lemma {:induction false} TickIsScanThenSync(env: Env, s: State, head: int, ls: seq<Label>, s': State)
    requires ValidChain(env.chain) && Inv(env, s) && Enabled(env, s, Begin(head))
    requires Runs(env, Apply(env, s, Begin(head)), ls, s') && WithinTick(ls)
    requires Enabled(env, s', Joined)
    ensures Dispatchable(env, s, head, s'.phase.lastHeight, s'.phase.b.dispatched, Reliable(ls))
    ensures WorkersRan(env, s, s'.phase.b.dispatched, s'.workers, s')
    ensures TickEffect(env, s, head, s'.phase.lastHeight, Reliable(ls), Apply(env, s', Joined))
  {
    TickDispatches(env, s, head, ls, s');
    TickWorkersRan(env, s, head, ls, s');
    assert WorkersRan(env, s, s'.phase.b.dispatched, s'.workers, Apply(env, s', Joined));
  }

  /** Confluence: two runs of a tick from the same state and head dispatch the same heights and end with
      the same cursor; and where their workers end alike, with the same blocks and messages. */
  lemma {:induction false} TicksAreConfluent(env: Env, s: State, head: int, ls1: seq<Label>, s1: State,
                                             ls2: seq<Label>, s2: State)
    requires ValidChain(env.chain) && Inv(env, s) && Enabled(env, s, Begin(head))
    requires Runs(env, Apply(env, s, Begin(head)), ls1, s1) && WithinTick(ls1) && Reliable(ls1)
    requires Enabled(env, s1, Joined)
    requires Runs(env, Apply(env, s, Begin(head)), ls2, s2) && WithinTick(ls2) && Reliable(ls2)
    requires Enabled(env, s2, Joined)
    ensures s1.workers.Keys == s2.workers.Keys
    ensures Apply(env, s1, Joined).cursor == Apply(env, s2, Joined).cursor
    ensures s1.workers == s2.workers ==> multiset(s1.blocks) == multiset(s2.blocks) && s1.messages == s2.messages
  {
    TickIsScanThenSync(env, s, head, ls1, s1);
    TickIsScanThenSync(env, s, head, ls2, s2);
    FrontierIsUnique(Heights(s.blocks), s.cursor.value, head - 2, BatchLimit(env.maxOnce),
                     s1.phase.lastHeight, s2.phase.lastHeight);
  }

  /** In the terms of `Frontier`, so that its results about runs of ticks apply: a tick is a tick there,
      and it leaves the heights above its last one alone. */
  lemma {:induction false} TickIsFrontierTick(env: Env, s: State, head: int, ls: seq<Label>, s': State)
    requires ValidChain(env.chain) && Inv(env, s) && Enabled(env, s, Begin(head))
    requires Runs(env, Apply(env, s, Begin(head)), ls, s') && WithinTick(ls) && Reliable(ls)
    requires Enabled(env, s', Joined)
    ensures IsTick(Tick(Heights(s.blocks), s.cursor.value, head - 2, s'.phase.lastHeight), BatchLimit(env.maxOnce))
    ensures forall h :: h > s'.phase.lastHeight ==> (h in Heights(s'.blocks) <==> h in Heights(s.blocks))
    ensures env.stopHeight > 0 ==> s.cursor.value <= env.stopHeight
  {
    TickIsScanThenSync(env, s, head, ls, s');
    KeepStep(env, s, Begin(head));
    KeepRun(env, Apply(env, s, Begin(head)), ls, s');
    TickHistory(env, Apply(env, s, Begin(head)), ls, s');
    forall h | h > s'.phase.lastHeight
      ensures h in Heights(s'.blocks) <==> h in Heights(s.blocks)
    {
      LookupIsStable(s', s'.phase.b, s'.phase.lastHeight, h);
    }
  }

  // ---------- The end of a process ----------

  /** No new process is started. */
  predicate WithoutRestart(ls: seq<Label>) {
    forall k :: 0 <= k < |ls| ==> !ls[k].Restart?
  }

  lemma {:induction false} HaltedStays(env: Env, s: State, ls: seq<Label>, s': State)
    requires (s.phase.Stopped? || s.phase.Down?) && Runs(env, s, ls, s') && WithoutRestart(ls)
    ensures s'.blocks == s.blocks && s'.messages == s.messages && s'.cursor == s.cursor
    decreases |ls|
  {
    if ls == [] {
    } else {
      HaltedStays(env, Apply(env, s, ls[0]), ls[1..], s');
    }
  }

  /** After a crash, or when DoSync has returned above the stop height, nothing changes the collections or the cursor
      until a new process is started; neither does the crash or the return itself. */
  lemma {:induction false} HaltIsFinal(env: Env, s: State, l: Label, ls: seq<Label>, s': State)
    requires (l.Crash? || l.Stop?) && Enabled(env, s, l) && Runs(env, Apply(env, s, l), ls, s') && WithoutRestart(ls)
    ensures s'.blocks == s.blocks && s'.messages == s.messages && s'.cursor == s.cursor
    ensures l.Stop? ==> s.cursor.Some? && 0 < env.stopHeight < s.cursor.value
  {
    HaltedStays(env, Apply(env, s, l), ls, s');
  }
}

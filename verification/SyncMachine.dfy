/** The chain synchroniser as a machine whose steps are the atomic actions of the process: start-up,
    the ticks of DoSync with their scan, the workers beside it, and crashes between any two of them
    (synchain/parseMessage.go, synchain/sync.go). */
module SyncMachine {
  import opened Prelude
  import opened ConfigCell
  import opened Frontier
  import opened EpochTrace
  import opened Bags

  datatype Env = Env(chain: Chain, maxOnce: int, stopHeight: int)

  /** A worker has just been started, has written its messages, or has also tried to store its block. */
  datatype Pc = Started | Traced(outcome: TraceOutcome) | Finished(outcome: TraceOutcome, stored: bool)

  /** History of a tick: where it started, on which database, and what it dispatched so far.
      `reliable` says that no lookup of the scan has failed. */
  datatype Batch = Batch(start: int, top: int, blocks0: seq<Record>, messages0: multiset<Doc>,
                         dispatched: seq<int>, reliable: bool)

  /** `Scan` holds the loop's locals: the next height `i`, `lastHeight` and `syncTODO`. */
  datatype Phase =
    | Down
    | Idle
    | Scan(b: Batch, i: int, lastHeight: int, syncTODO: int)
    | Join(b: Batch, lastHeight: int)
    | Stopped

  /** `cursor` is the config collection as its readers see it. `base` (the configured height less 20) and
      `lost` (heights whose block insert failed) are history since the last start-up. */
  datatype State = State(blocks: seq<Record>, messages: multiset<Doc>, cursor: Option<int>, base: int,
                         lost: set<int>, phase: Phase, workers: map<int, Pc>)

  datatype Label =
    | Crash
    | Restart(height: int, deleteOk: bool)
    | ReadError
    | HeadError
    | Begin(head: int)
    | Stop(head: int)
    | Skip
    | Dispatch(missed: bool)
    | Break(missed: bool)
    | EndScan
    | Trace(h: int, outcome: TraceOutcome)
    | Store(h: int, ok: bool)
    | Joined

  // ---------- The database ----------

  function Heights(blocks: seq<Record>): set<int> {
    set k | 0 <= k < |blocks| :: blocks[k].height
  }

  /** DeleteMany with the filter lo < height < hi. */
  function DeleteWindow(blocks: seq<Record>, lo: int, hi: int): seq<Record> {
    if blocks == [] then []
    else
      var n := |blocks| - 1;
      DeleteWindow(blocks[..n], lo, hi) + if lo < blocks[n].height < hi then [] else [blocks[n]]
  }

  // ---------- The steps ----------

  predicate Finds(s: State, h: int, missed: bool) {
    !missed && h in Heights(s.blocks)
  }

  predicate AllFinished(s: State) {
    forall h :: h in s.workers ==> s.workers[h].Finished?
  }

  predicate StopReached(env: Env, c: int) {
    env.stopHeight > 0 && c > env.stopHeight
  }

  predicate InTick(s: State) {
    s.phase.Scan? || s.phase.Join?
  }

  predicate Enabled(env: Env, s: State, l: Label) {
    match l
    case Crash => !s.phase.Down?
    case Restart(_, _) => s.phase.Down?
    case ReadError => s.phase.Idle?
    case HeadError => s.phase.Idle? && s.cursor.Some?
    case Begin(_) => s.phase.Idle? && s.cursor.Some? && !StopReached(env, s.cursor.value)
    case Stop(_) => s.phase.Idle? && s.cursor.Some? && StopReached(env, s.cursor.value)
    case Skip => s.phase.Scan? && s.phase.i <= s.phase.b.top && Finds(s, s.phase.i, false)
    case Dispatch(missed) =>
      s.phase.Scan? && s.phase.i <= s.phase.b.top && !Finds(s, s.phase.i, missed) && !(s.phase.syncTODO > env.maxOnce)
    case Break(missed) =>
      s.phase.Scan? && s.phase.i <= s.phase.b.top && !Finds(s, s.phase.i, missed) && s.phase.syncTODO > env.maxOnce
    case EndScan => s.phase.Scan? && s.phase.i > s.phase.b.top
    case Trace(h, o) => InTick(s) && h in s.workers && s.workers[h].Started? && Possible(env.chain, env.chain.tip(h), o)
    case Store(h, _) => InTick(s) && h in s.workers && s.workers[h].Traced?
    case Joined => s.phase.Join? && AllFinished(s)
  }

  function DoRestart(s: State, height: int, deleteOk: bool): State {
    State(if deleteOk then DeleteWindow(s.blocks, height - 20, height + 20) else s.blocks,
          s.messages, Pos(height - 20), height - 20, {}, Idle, map[])
  }

  function DoBegin(s: State, head: int): State
    requires s.cursor.Some?
  {
    var c := s.cursor.value;
    s.(phase := Scan(Batch(c, head - 2, s.blocks, s.messages, [], true), c + 1, c, 0), workers := map[])
  }

  function DoSkip(s: State): State
    requires s.phase.Scan?
  {
    var p := s.phase;
    s.(cursor := Pos(p.i), phase := Scan(p.b, p.i + 1, p.i, p.syncTODO))
  }

  function DoDispatch(s: State, missed: bool): State
    requires s.phase.Scan?
  {
    var p := s.phase;
    var b := p.b.(dispatched := p.b.dispatched + [p.i], reliable := p.b.reliable && !missed);
    s.(phase := Scan(b, p.i + 1, p.i, p.syncTODO + 1), workers := s.workers[p.i := Started])
  }

  function DoEnd(s: State, missed: bool): State
    requires s.phase.Scan?
  {
    s.(phase := Join(s.phase.b.(reliable := s.phase.b.reliable && !missed), s.phase.lastHeight))
  }

  function DoTrace(s: State, h: int, o: TraceOutcome): State {
    s.(messages := s.messages + Inserted(o), workers := s.workers[h := Traced(o)])
  }

  function DoStore(env: Env, s: State, h: int, ok: bool): State
    requires h in s.workers && s.workers[h].Traced?
  {
    var o := s.workers[h].outcome;
    var s' := s.(workers := s.workers[h := Finished(o, ok)]);
    if ok then s'.(blocks := s.blocks + [Record(env.chain.tip(h), o)]) else s'.(lost := s.lost + {h})
  }

  function DoJoined(s: State): State
    requires s.phase.Join?
  {
    s.(cursor := Pos(s.phase.lastHeight), phase := Idle, workers := map[])
  }

  function Apply(env: Env, s: State, l: Label): State
    requires Enabled(env, s, l)
  {
    match l
    case Crash => s.(phase := Down, workers := map[])
    case Restart(height, deleteOk) => DoRestart(s, height, deleteOk)
    case ReadError => s
    case HeadError => s.(cursor := Pos(s.cursor.value - 10))
    case Begin(head) => DoBegin(s, head)
    case Stop(_) => s.(phase := Stopped)
    case Skip => DoSkip(s)
    case Dispatch(missed) => DoDispatch(s, missed)
    case Break(missed) => DoEnd(s, missed)
    case EndScan => DoEnd(s, false)
    case Trace(h, o) => DoTrace(s, h, o)
    case Store(h, ok) => DoStore(env, s, h, ok)
    case Joined => DoJoined(s)
  }

  /** The process can take the steps `ls` from `s`, and they lead to `s'`. */
  predicate Runs(env: Env, s: State, ls: seq<Label>, s': State)
    decreases |ls|
  {
    if ls == [] then s == s'
    else Enabled(env, s, ls[0]) && Runs(env, Apply(env, s, ls[0]), ls[1..], s')
  }

  lemma {:induction false} RunsConcat(env: Env, s: State, ls: seq<Label>, mid: State, ms: seq<Label>, s': State)
    requires Runs(env, s, ls, mid) && Runs(env, mid, ms, s')
    ensures Runs(env, s, ls + ms, s')
    decreases |ls|
  {
    if ls == [] {
      assert ls + ms == ms;
    } else {
      assert (ls + ms)[1..] == ls[1..] + ms;
      RunsConcat(env, Apply(env, s, ls[0]), ls[1..], mid, ms, s');
    }
  }

  /** A process that is not running, over a database as this program leaves it. */
  ghost predicate Init(env: Env, s: State) {
    && s.phase.Down? && s.workers == map[] && DatabaseOk(env, s) && PossibleRecords(env.chain, s.blocks)
    && (s.cursor.Some? ==> s.cursor.value > 0)
  }

  // ---------- What workers have added, summed over the dispatched heights ----------

  function PcOf(ws: map<int, Pc>, h: int): Pc {
    if h in ws then ws[h] else Started
  }

  function BlockOf(chain: Chain, h: int, pc: Pc): multiset<Record> {
    if pc.Finished? && pc.stored then multiset{Record(chain.tip(h), pc.outcome)} else multiset{}
  }

  /** The documents that a worker has inserted; only while it has not tried to store its block, if so asked. */
  function DocsOf(pc: Pc, pending: bool): multiset<Doc> {
    if pc.Started? || (pending && pc.Finished?) then multiset{} else Inserted(pc.outcome)
  }

  function BlocksAdded(chain: Chain, hs: seq<int>, ws: map<int, Pc>): multiset<Record> {
    if hs == [] then multiset{}
    else BlocksAdded(chain, hs[..|hs| - 1], ws) + BlockOf(chain, hs[|hs| - 1], PcOf(ws, hs[|hs| - 1]))
  }

  function DocsAdded(hs: seq<int>, ws: map<int, Pc>, pending: bool): multiset<Doc> {
    if hs == [] then multiset{}
    else DocsAdded(hs[..|hs| - 1], ws, pending) + DocsOf(PcOf(ws, hs[|hs| - 1]), pending)
  }

  // A worker that is not among the heights does not count.

  lemma {:induction false} BlocksAddedAgree(chain: Chain, hs: seq<int>, ws: map<int, Pc>, h: int, pc: Pc)
    requires h !in hs
    ensures BlocksAdded(chain, hs, ws[h := pc]) == BlocksAdded(chain, hs, ws)
  {
    if hs == [] {
    } else {
      assert hs[|hs| - 1] != h;
      BlocksAddedAgree(chain, hs[..|hs| - 1], ws, h, pc);
    }
  }

  lemma {:induction false} DocsAddedAgree(hs: seq<int>, ws: map<int, Pc>, h: int, pc: Pc, pending: bool)
    requires h !in hs
    ensures DocsAdded(hs, ws[h := pc], pending) == DocsAdded(hs, ws, pending)
  {
    if hs == [] {
    } else {
      assert hs[|hs| - 1] != h;
      DocsAddedAgree(hs[..|hs| - 1], ws, h, pc, pending);
    }
  }

  // A new worker has added nothing.

  lemma {:induction false} BlocksAddedAppend(chain: Chain, hs: seq<int>, h: int, ws: map<int, Pc>)
    requires h !in hs
    ensures BlocksAdded(chain, hs + [h], ws[h := Started]) == BlocksAdded(chain, hs, ws)
  {
    var more, ws' := hs + [h], ws[h := Started];
    BlocksAddedAgree(chain, hs, ws, h, Started);
    assert more[..|hs|] == hs && more[|hs|] == h && PcOf(ws', h) == Started;
    assert BlocksAdded(chain, more, ws') == BlocksAdded(chain, hs, ws') + multiset{};
  }

  lemma {:induction false} DocsAddedAppend(hs: seq<int>, h: int, ws: map<int, Pc>, pending: bool)
    requires h !in hs
    ensures DocsAdded(hs + [h], ws[h := Started], pending) == DocsAdded(hs, ws, pending)
  {
    var more, ws' := hs + [h], ws[h := Started];
    DocsAddedAgree(hs, ws, h, Started, pending);
    assert more[..|hs|] == hs && more[|hs|] == h && PcOf(ws', h) == Started;
    assert DocsAdded(more, ws', pending) == DocsAdded(hs, ws', pending) + multiset{};
  }

  // One worker moves: its own contribution is exchanged and no other one is.

  lemma {:induction false} BlocksAddedChange(chain: Chain, hs: seq<int>, h: int, ws: map<int, Pc>, pc: Pc)
    requires h in hs && Distinct(hs) && h in ws
    ensures BlocksAdded(chain, hs, ws[h := pc]) + BlockOf(chain, h, ws[h])
         == BlocksAdded(chain, hs, ws) + BlockOf(chain, h, pc)
  {
    var n, ws' := |hs| - 1, ws[h := pc];
    var last, before := BlockOf(chain, hs[n], PcOf(ws, hs[n])), BlocksAdded(chain, hs[..n], ws);
    if hs[n] == h {
      assert h !in hs[..n];
      BlocksAddedAgree(chain, hs[..n], ws, h, pc);
      Exchange(before, last, BlockOf(chain, h, pc));
    } else {
      assert h in hs[..n];
      BlocksAddedChange(chain, hs[..n], h, ws, pc);
      Carry(BlocksAdded(chain, hs[..n], ws'), before, BlockOf(chain, h, ws[h]), BlockOf(chain, h, pc), last);
    }
  }

  lemma {:induction false} DocsAddedChange(hs: seq<int>, h: int, ws: map<int, Pc>, pc: Pc, pending: bool)
    requires h in hs && Distinct(hs) && h in ws
    ensures DocsAdded(hs, ws[h := pc], pending) + DocsOf(ws[h], pending)
         == DocsAdded(hs, ws, pending) + DocsOf(pc, pending)
  {
    var n, ws' := |hs| - 1, ws[h := pc];
    var last, before := DocsOf(PcOf(ws, hs[n]), pending), DocsAdded(hs[..n], ws, pending);
    if hs[n] == h {
      assert h !in hs[..n];
      DocsAddedAgree(hs[..n], ws, h, pc, pending);
      Exchange(before, last, DocsOf(pc, pending));
    } else {
      assert h in hs[..n];
      DocsAddedChange(hs[..n], h, ws, pc, pending);
      Carry(DocsAdded(hs[..n], ws', pending), before, DocsOf(ws[h], pending), DocsOf(pc, pending), last);
    }
  }

  // ---------- The invariant ----------

  /** Every stored height is the height of a tipset, and every record is backed by its own copy of what its worker
      inserted. */
  ghost predicate DatabaseOk(env: Env, s: State) {
    && (forall h :: h in Heights(s.blocks) ==> env.chain.tip(h) == h)
    && RecordDocs(s.blocks) <= s.messages
  }

  /** The block in force at `h` is stored, or the insert for `h` failed. */
  predicate Settled(env: Env, s: State, h: int) {
    env.chain.tip(h) in Heights(s.blocks) || h in s.lost
  }

  ghost predicate CoveredTo(env: Env, s: State, top: int) {
    forall h :: s.base < h <= top ==> Settled(env, s, h) || h in s.workers
  }

  predicate Ascending(hs: seq<int>, lo: int, hi: int) {
    && (forall k :: 0 <= k < |hs| ==> lo < hs[k] <= hi)
    && (forall j, k :: 0 <= j < k < |hs| ==> hs[j] < hs[k])
  }

  /** Whatever lookups fail, no missing height that the scan has passed was left out. */
  ghost predicate CoversMissing(b: Batch, last: int) {
    && |Missing(Heights(b.blocks0), b.start, last)| <= |b.dispatched|
    && forall h :: b.start < h <= last && h !in Heights(b.blocks0) ==> h in b.dispatched
  }

  /** The scan's bookkeeping. */
  ghost predicate ScanOk(env: Env, s: State, b: Batch, last: int) {
    && 0 < b.start <= last <= Max(b.start, b.top)
    && Ascending(b.dispatched, b.start, last)
    && |b.dispatched| <= BatchLimit(env.maxOnce)
    && s.workers.Keys == (set h | h in b.dispatched)
    && (s.cursor.Some? ==> s.cursor.value <= last)
    && CoversMissing(b, last)
    && (b.reliable ==> b.dispatched == Missing(Heights(b.blocks0), b.start, last))
  }

  /** Workers only write at or below the heights already looked up. */
  ghost predicate WritesBelow(s: State, b: Batch, last: int) {
    && b.blocks0 <= s.blocks
    && forall k :: |b.blocks0| <= k < |s.blocks| ==> s.blocks[k].height <= last
  }

  /** Both collections are what the tick found plus what its workers have added, and nothing else. */
  ghost predicate Accounted(env: Env, s: State, b: Batch) {
    && multiset(s.blocks) == multiset(b.blocks0) + BlocksAdded(env.chain, b.dispatched, s.workers)
    && s.messages == b.messages0 + DocsAdded(b.dispatched, s.workers, false)
    && RecordDocs(s.blocks) + DocsAdded(b.dispatched, s.workers, true) <= s.messages
  }

  ghost predicate WorkersHonest(env: Env, s: State) {
    forall h :: h in s.workers && s.workers[h].Finished? ==> Settled(env, s, h)
  }

  ghost predicate BatchOk(env: Env, s: State, b: Batch, last: int) {
    && ScanOk(env, s, b, last)
    && WritesBelow(s, b, last)
    && Accounted(env, s, b)
    && WorkersHonest(env, s)
    && CoveredTo(env, s, last)
  }

  ghost predicate JoinOk(env: Env, b: Batch, last: int) {
    b.reliable ==> IsFrontier(Heights(b.blocks0), b.start, b.top, BatchLimit(env.maxOnce), last)
  }

  ghost predicate Inv(env: Env, s: State) {
    && DatabaseOk(env, s)
    && (s.cursor.Some? ==> s.cursor.value > 0)
    && match s.phase
       case Down => s.workers == map[]
       case Idle => s.workers == map[] && (s.cursor.Some? ==> CoveredTo(env, s, s.cursor.value))
       case Scan(b, i, last, todo) => BatchOk(env, s, b, last) && i == last + 1 && todo == |b.dispatched|
       case Join(b, last) => BatchOk(env, s, b, last) && JoinOk(env, b, last)
       case Stopped => s.workers == map[] && (s.cursor.Some? ==> CoveredTo(env, s, s.cursor.value))
  }

  // ---------- The invariant is kept ----------

  lemma {:induction false} HeightsAppend(blocks: seq<Record>, r: Record)
    ensures Heights(blocks + [r]) == Heights(blocks) + {r.height}
  {
    var more := blocks + [r];
    forall h | h in Heights(blocks) + {r.height}
      ensures h in Heights(more)
    {
      if h == r.height {
        assert more[|blocks|].height == h;
      } else {
        var k :| 0 <= k < |blocks| && blocks[k].height == h;
        assert more[k].height == h;
      }
    }
  }

  lemma {:induction false} DeleteShrinks(blocks: seq<Record>, lo: int, hi: int)
    ensures RecordDocs(DeleteWindow(blocks, lo, hi)) <= RecordDocs(blocks)
  {
    if blocks == [] {
    } else {
      var n := |blocks| - 1;
      var rest := DeleteWindow(blocks[..n], lo, hi);
      DeleteShrinks(blocks[..n], lo, hi);
      RecordDocsAppend(rest, blocks[n]);
      assert rest + [] == rest;
    }
  }

  function Outside(lo: int, hi: int): Record -> bool {
    (r: Record) => !(lo < r.height < hi)
  }

  lemma {:induction false} DeletedByFilter(blocks: seq<Record>, lo: int, hi: int)
    ensures DeleteWindow(blocks, lo, hi) == FilterBy(Outside(lo, hi), blocks)
  {
    if blocks == [] {
    } else {
      DeletedByFilter(blocks[..|blocks| - 1], lo, hi);
    }
  }

  /** The deletion keeps every copy of a record outside the window and none inside. */
  lemma {:induction false} DeletedRecords(blocks: seq<Record>, lo: int, hi: int, r: Record)
    ensures multiset(DeleteWindow(blocks, lo, hi))[r] == if lo < r.height < hi then 0 else multiset(blocks)[r]
  {
    DeletedByFilter(blocks, lo, hi);
    FilterCounts(Outside(lo, hi), blocks, r);
  }

  lemma {:induction false} DeletedHeights(blocks: seq<Record>, lo: int, hi: int)
    ensures Heights(DeleteWindow(blocks, lo, hi)) == set h | h in Heights(blocks) && !(lo < h < hi)
  {
    if blocks == [] {
    } else {
      var n := |blocks| - 1;
      var rest := DeleteWindow(blocks[..n], lo, hi);
      DeletedHeights(blocks[..n], lo, hi);
      assert blocks == blocks[..n] + [blocks[n]];
      HeightsAppend(blocks[..n], blocks[n]);
      HeightsAppend(rest, blocks[n]);
      assert rest + [] == rest;
    }
  }

  lemma {:induction false} KeepRestart(env: Env, s: State, height: int, deleteOk: bool)
    requires Inv(env, s) && Enabled(env, s, Restart(height, deleteOk))
    ensures Inv(env, DoRestart(s, height, deleteOk))
  {
    DeleteShrinks(s.blocks, height - 20, height + 20);
    DeletedHeights(s.blocks, height - 20, height + 20);
  }

  lemma {:induction false} KeepBegin(env: Env, s: State, head: int)
    requires Inv(env, s) && Enabled(env, s, Begin(head))
    ensures Inv(env, DoBegin(s, head))
  {
  }

  /** Looking up height `i` now answers as it would have at the start of the tick. */
  lemma {:induction false} LookupIsStable(s: State, b: Batch, last: int, i: int)
    requires WritesBelow(s, b, last) && last < i
    ensures i in Heights(s.blocks) <==> i in Heights(b.blocks0)
  {
    if i in Heights(b.blocks0) {
      var k :| 0 <= k < |b.blocks0| && b.blocks0[k].height == i;
      assert s.blocks[k].height == i;
    }
    if i in Heights(s.blocks) {
      var k :| 0 <= k < |s.blocks| && s.blocks[k].height == i;
      assert b.blocks0[k].height == i;
    }
  }

  lemma {:induction false} MissingNext(stored: set<int>, lo: int, hi: int)
    requires lo <= hi
    ensures Missing(stored, lo, hi + 1) == Missing(stored, lo, hi) + if hi + 1 in stored then [] else [hi + 1]
  {
  }

  lemma {:induction false} ScanSkip(env: Env, s: State)
    requires Enabled(env, s, Skip) && s.phase.i == s.phase.lastHeight + 1
    requires ScanOk(env, s, s.phase.b, s.phase.lastHeight) && WritesBelow(s, s.phase.b, s.phase.lastHeight)
    ensures ScanOk(env, DoSkip(s), s.phase.b, s.phase.i)
  {
    var b := s.phase.b;
    LookupIsStable(s, b, s.phase.lastHeight, s.phase.i);
    MissingNext(Heights(b.blocks0), b.start, s.phase.lastHeight);
  }

  lemma {:induction false} AscendingAppend(hs: seq<int>, lo: int, hi: int)
    requires Ascending(hs, lo, hi) && lo <= hi
    ensures Ascending(hs + [hi + 1], lo, hi + 1) && hi + 1 !in hs && Distinct(hs)
  {
  }

  lemma {:induction false} DispatchCovers(b: Batch, b': Batch, last: int)
    requires CoversMissing(b, last) && b.start <= last
    requires b' == b.(dispatched := b.dispatched + [last + 1], reliable := b'.reliable)
    ensures CoversMissing(b', last + 1)
    ensures last + 1 !in Heights(b.blocks0) && b.dispatched == Missing(Heights(b.blocks0), b.start, last) ==>
              b'.dispatched == Missing(Heights(b.blocks0), b.start, last + 1)
  {
    MissingNext(Heights(b.blocks0), b.start, last);
    assert last + 1 in b'.dispatched;
  }

  lemma {:induction false} ScanDispatch(env: Env, s: State, missed: bool)
    requires Enabled(env, s, Dispatch(missed)) && s.phase.i == s.phase.lastHeight + 1
    requires s.phase.syncTODO == |s.phase.b.dispatched|
    requires ScanOk(env, s, s.phase.b, s.phase.lastHeight) && WritesBelow(s, s.phase.b, s.phase.lastHeight)
    ensures ScanOk(env, DoDispatch(s, missed), DoDispatch(s, missed).phase.b, s.phase.i)
    ensures s.phase.i !in s.phase.b.dispatched
  {
    var b, last := s.phase.b, s.phase.lastHeight;
    var s' := DoDispatch(s, missed);
    LookupIsStable(s, b, last, last + 1);
    DispatchCovers(b, s'.phase.b, last);
    AscendingAppend(b.dispatched, b.start, last);
    assert s'.workers.Keys == s.workers.Keys + {last + 1};
  }

  /** Steps of the scan that touch neither the database nor the workers. */
  predicate SameData(s: State, s': State) {
    && s'.blocks == s.blocks && s'.messages == s.messages && s'.lost == s.lost && s'.base == s.base
    && s'.workers == s.workers
  }

  lemma {:induction false} SameSettled(env: Env, s: State, s': State, last: int)
    requires SameData(s, s')
    ensures WorkersHonest(env, s) ==> WorkersHonest(env, s')
    ensures CoveredTo(env, s, last) ==> CoveredTo(env, s', last)
  {
    assert forall h :: Settled(env, s', h) == Settled(env, s, h);
  }

  lemma {:induction false} SameAccounts(env: Env, s: State, s': State, b: Batch, b': Batch, last: int)
    requires SameData(s, s') && b' == b.(reliable := b'.reliable)
    ensures Accounted(env, s, b) ==> Accounted(env, s', b')
    ensures WritesBelow(s, b, last) ==> WritesBelow(s', b', last)
  {
  }

  lemma {:induction false} FoundIsSettled(env: Env, s: State, last: int)
    requires DatabaseOk(env, s) && last + 1 in Heights(s.blocks) && CoveredTo(env, s, last)
    ensures CoveredTo(env, s, last + 1)
  {
    assert Settled(env, s, last + 1);
  }

  lemma {:induction false} SkipKeepsBatch(env: Env, s: State)
    requires Enabled(env, s, Skip) && s.phase.i == s.phase.lastHeight + 1
    requires DatabaseOk(env, s) && BatchOk(env, s, s.phase.b, s.phase.lastHeight)
    ensures BatchOk(env, DoSkip(s), s.phase.b, s.phase.i)
  {
    var b, last, s' := s.phase.b, s.phase.lastHeight, DoSkip(s);
    ScanSkip(env, s);
    FoundIsSettled(env, s, last);
    SameSettled(env, s, s', last + 1);
    SameAccounts(env, s, s', b, b, last);
  }

  lemma {:induction false} KeepSkip(env: Env, s: State)
    requires Enabled(env, s, Skip) && Inv(env, s)
    ensures Inv(env, Apply(env, s, Skip))
  {
    SkipKeepsBatch(env, s);
  }

  lemma {:induction false} AccountedDispatch(env: Env, s: State, missed: bool)
    requires Enabled(env, s, Dispatch(missed)) && s.phase.i !in s.phase.b.dispatched
    requires Accounted(env, s, s.phase.b)
    ensures Accounted(env, DoDispatch(s, missed), DoDispatch(s, missed).phase.b)
  {
    var hs, h, ws := s.phase.b.dispatched, s.phase.i, s.workers;
    BlocksAddedAppend(env.chain, hs, h, ws);
    DocsAddedAppend(hs, h, ws, false);
    DocsAddedAppend(hs, h, ws, true);
  }

  lemma {:induction false} SettledDispatch(env: Env, s: State, missed: bool)
    requires Enabled(env, s, Dispatch(missed)) && s.phase.i == s.phase.lastHeight + 1
    requires WritesBelow(s, s.phase.b, s.phase.lastHeight) && WorkersHonest(env, s)
    requires CoveredTo(env, s, s.phase.lastHeight)
    ensures var s' := DoDispatch(s, missed);
            WritesBelow(s', s'.phase.b, s.phase.i) && WorkersHonest(env, s') && CoveredTo(env, s', s.phase.i)
  {
    var s' := DoDispatch(s, missed);
    assert forall h :: Settled(env, s', h) == Settled(env, s, h);
  }

  lemma {:induction false} KeepDispatch(env: Env, s: State, missed: bool)
    requires Inv(env, s) && Enabled(env, s, Dispatch(missed))
    ensures Inv(env, Apply(env, s, Dispatch(missed)))
  {
    var s' := DoDispatch(s, missed);
    ScanDispatch(env, s, missed);
    AccountedDispatch(env, s, missed);
    SettledDispatch(env, s, missed);
    assert BatchOk(env, s', s'.phase.b, s.phase.i);
    assert |s'.phase.b.dispatched| == |s.phase.b.dispatched| + 1;
  }

  lemma {:induction false} JoinAtFrontier(env: Env, s: State, missed: bool)
    requires Enabled(env, s, Break(missed)) || (Enabled(env, s, EndScan) && !missed)
    requires s.phase.i == s.phase.lastHeight + 1 && s.phase.syncTODO == |s.phase.b.dispatched|
    requires ScanOk(env, s, s.phase.b, s.phase.lastHeight) && WritesBelow(s, s.phase.b, s.phase.lastHeight)
    ensures JoinOk(env, DoEnd(s, missed).phase.b, s.phase.lastHeight)
  {
    var b, last := s.phase.b, s.phase.lastHeight;
    LookupIsStable(s, b, last, s.phase.i);
    if b.reliable && !missed {
      StoppedAtFrontier(Heights(b.blocks0), b.start, b.top, BatchLimit(env.maxOnce), last);
    }
  }

  lemma {:induction false} EndKeepsBatch(env: Env, s: State, missed: bool)
    requires s.phase.Scan? && BatchOk(env, s, s.phase.b, s.phase.lastHeight)
    ensures BatchOk(env, DoEnd(s, missed), DoEnd(s, missed).phase.b, s.phase.lastHeight)
  {
    var b, last, s' := s.phase.b, s.phase.lastHeight, DoEnd(s, missed);
    SameSettled(env, s, s', last);
    SameAccounts(env, s, s', b, s'.phase.b, last);
  }

  lemma {:induction false} KeepEnd(env: Env, s: State, missed: bool)
    requires Enabled(env, s, Break(missed)) || (Enabled(env, s, EndScan) && !missed)
    requires Inv(env, s)
    ensures Inv(env, DoEnd(s, missed))
  {
    JoinAtFrontier(env, s, missed);
    EndKeepsBatch(env, s, missed);
  }

  lemma {:induction false} ScanWorker(env: Env, s: State, s': State, h: int, pc: Pc, b: Batch, last: int)
    requires ScanOk(env, s, b, last) && h in s.workers
    requires s'.workers == s.workers[h := pc] && s'.cursor == s.cursor
    ensures ScanOk(env, s', b, last) && h in b.dispatched && Distinct(b.dispatched)
    ensures b.start < h <= last
  {
    assert h in s.workers.Keys;
    assert s'.workers.Keys == s.workers.Keys;
  }

  lemma {:induction false} TraceAdds(chain: Chain, hs: seq<int>, ws: map<int, Pc>, h: int, o: TraceOutcome)
    requires h in hs && Distinct(hs) && h in ws && ws[h].Started?
    ensures BlocksAdded(chain, hs, ws[h := Traced(o)]) == BlocksAdded(chain, hs, ws)
    ensures DocsAdded(hs, ws[h := Traced(o)], false) == DocsAdded(hs, ws, false) + Inserted(o)
    ensures DocsAdded(hs, ws[h := Traced(o)], true) == DocsAdded(hs, ws, true) + Inserted(o)
  {
    BlocksAddedChange(chain, hs, h, ws, Traced(o));
    DocsAddedChange(hs, h, ws, Traced(o), false);
    DocsAddedChange(hs, h, ws, Traced(o), true);
    Cancelled(BlocksAdded(chain, hs, ws[h := Traced(o)]), BlocksAdded(chain, hs, ws), multiset{});
  }

  lemma {:induction false} AccountedTrace(env: Env, s: State, h: int, o: TraceOutcome, b: Batch)
    requires Accounted(env, s, b) && h in s.workers && s.workers[h].Started?
    requires h in b.dispatched && Distinct(b.dispatched)
    ensures Accounted(env, DoTrace(s, h, o), b)
  {
    var hs, ws := b.dispatched, s.workers;
    TraceAdds(env.chain, hs, ws, h, o);
    Regroup(b.messages0, DocsAdded(hs, ws, false), Inserted(o));
    Regroup(RecordDocs(s.blocks), DocsAdded(hs, ws, true), Inserted(o));
    Below(RecordDocs(s.blocks) + DocsAdded(hs, ws, true), s.messages, Inserted(o), Inserted(o));
  }

  lemma {:induction false} SettledTrace(env: Env, s: State, h: int, o: TraceOutcome, b: Batch, last: int)
    requires WritesBelow(s, b, last) && WorkersHonest(env, s) && CoveredTo(env, s, last)
    requires h in s.workers && s.workers[h].Started?
    ensures var s' := DoTrace(s, h, o);
            WritesBelow(s', b, last) && WorkersHonest(env, s') && CoveredTo(env, s', last)
  {
    var s' := DoTrace(s, h, o);
    assert forall x :: Settled(env, s', x) == Settled(env, s, x);
  }

  lemma {:induction false} KeepTrace(env: Env, s: State, h: int, o: TraceOutcome)
    requires Inv(env, s) && Enabled(env, s, Trace(h, o))
    ensures Inv(env, DoTrace(s, h, o))
  {
    var s' := DoTrace(s, h, o);
    var b, last := s.phase.b, s.phase.lastHeight;
    ScanWorker(env, s, s', h, Traced(o), b, last);
    AccountedTrace(env, s, h, o, b);
    SettledTrace(env, s, h, o, b, last);
  }

  lemma {:induction false} StoreAdds(chain: Chain, hs: seq<int>, ws: map<int, Pc>, h: int, ok: bool)
    requires h in hs && Distinct(hs) && h in ws && ws[h].Traced?
    ensures var o, ws' := ws[h].outcome, ws[h := Finished(ws[h].outcome, ok)];
            && BlocksAdded(chain, hs, ws')
            == BlocksAdded(chain, hs, ws) + (if ok then multiset{Record(chain.tip(h), o)} else multiset{})
            && DocsAdded(hs, ws', false) == DocsAdded(hs, ws, false)
            && DocsAdded(hs, ws', true) + Inserted(o) == DocsAdded(hs, ws, true)
  {
    var o, pc := ws[h].outcome, Finished(ws[h].outcome, ok);
    BlocksAddedChange(chain, hs, h, ws, pc);
    DocsAddedChange(hs, h, ws, pc, false);
    DocsAddedChange(hs, h, ws, pc, true);
    Cancelled(DocsAdded(hs, ws[h := pc], false), DocsAdded(hs, ws, false), Inserted(o));
  }

  lemma {:induction false} AccountedStore(env: Env, s: State, h: int, ok: bool, b: Batch)
    requires Accounted(env, s, b) && h in s.workers && s.workers[h].Traced?
    requires h in b.dispatched && Distinct(b.dispatched)
    ensures Accounted(env, DoStore(env, s, h, ok), b)
  {
    var hs, ws, o := b.dispatched, s.workers, s.workers[h].outcome;
    var ws', r := ws[h := Finished(o, ok)], Record(env.chain.tip(h), o);
    StoreAdds(env.chain, hs, ws, h, ok);
    RecordDocsAppend(s.blocks, r);
    Regroup(multiset(b.blocks0), BlocksAdded(env.chain, hs, ws), multiset{r});
    Exchange(RecordDocs(s.blocks), DocsAdded(hs, ws', true), Inserted(o));
    Regroup(RecordDocs(s.blocks), DocsAdded(hs, ws', true), Inserted(o));
  }

  lemma {:induction false} SettledStore(env: Env, s: State, h: int, ok: bool, b: Batch, last: int)
    requires ValidChain(env.chain) && h <= last
    requires WritesBelow(s, b, last) && WorkersHonest(env, s) && CoveredTo(env, s, last)
    requires h in s.workers && s.workers[h].Traced?
    ensures var s' := DoStore(env, s, h, ok);
            WritesBelow(s', b, last) && WorkersHonest(env, s') && CoveredTo(env, s', last)
  {
    var s' := DoStore(env, s, h, ok);
    HeightsAppend(s.blocks, Record(env.chain.tip(h), s.workers[h].outcome));
    assert forall x :: Settled(env, s, x) ==> Settled(env, s', x);
    assert Settled(env, s', h);
  }

  lemma {:induction false} DatabaseStore(env: Env, s: State, h: int, ok: bool, b: Batch)
    requires ValidChain(env.chain) && DatabaseOk(env, s) && h in s.workers && s.workers[h].Traced?
    requires Accounted(env, DoStore(env, s, h, ok), b)
    ensures DatabaseOk(env, DoStore(env, s, h, ok))
  {
    HeightsAppend(s.blocks, Record(env.chain.tip(h), s.workers[h].outcome));
  }

  lemma {:induction false} KeepStore(env: Env, s: State, h: int, ok: bool)
    requires ValidChain(env.chain) && Inv(env, s) && Enabled(env, s, Store(h, ok))
    ensures Inv(env, Apply(env, s, Store(h, ok)))
  {
    var s' := DoStore(env, s, h, ok);
    var b, last := s.phase.b, s.phase.lastHeight;
    ScanWorker(env, s, s', h, Finished(s.workers[h].outcome, ok), b, last);
    AccountedStore(env, s, h, ok, b);
    SettledStore(env, s, h, ok, b, last);
    DatabaseStore(env, s, h, ok, b);
  }

  /** Once all workers are finished, what was covered is settled. */
  lemma {:induction false} JoinedIsCovered(env: Env, s: State, s': State, last: int)
    requires AllFinished(s) && WorkersHonest(env, s) && CoveredTo(env, s, last)
    requires s'.blocks == s.blocks && s'.lost == s.lost && s'.base == s.base
    ensures CoveredTo(env, s', last)
  {
    assert forall h :: Settled(env, s', h) == Settled(env, s, h);
  }

  lemma {:induction false} KeepJoined(env: Env, s: State)
    requires s.phase.Join? && AllFinished(s) && Inv(env, s)
    ensures Inv(env, DoJoined(s))
  {
    JoinedIsCovered(env, s, DoJoined(s), s.phase.lastHeight);
  }

  lemma {:induction false} KeepStep(env: Env, s: State, l: Label)
    requires ValidChain(env.chain) && Inv(env, s) && Enabled(env, s, l)
    ensures Inv(env, Apply(env, s, l))
  {
    match l
    case Crash =>
    case Restart(height, deleteOk) => KeepRestart(env, s, height, deleteOk);
    case ReadError =>
    case HeadError =>
    case Begin(head) => KeepBegin(env, s, head);
    case Stop(_) =>
    case Skip => KeepSkip(env, s);
    case Dispatch(missed) => KeepDispatch(env, s, missed);
    case Break(missed) => KeepEnd(env, s, missed);
    case EndScan => KeepEnd(env, s, false);
    case Trace(h, o) => KeepTrace(env, s, h, o);
    case Store(h, ok) => KeepStore(env, s, h, ok);
    case Joined => KeepJoined(env, s);
  }

  lemma {:induction false} KeepRun(env: Env, s: State, ls: seq<Label>, s': State)
    requires ValidChain(env.chain) && Inv(env, s) && Runs(env, s, ls, s')
    ensures Inv(env, s')
    decreases |ls|
  {
    if ls == [] {
    } else {
      KeepStep(env, s, ls[0]);
      KeepRun(env, Apply(env, s, ls[0]), ls[1..], s');
    }
  }

  // ---------- Outcomes stay possible ----------

  /** Every outcome that is recorded, in a block or by a worker, can be that of its tipset. */
  predicate OutcomesPossible(env: Env, s: State) {
    && PossibleRecords(env.chain, s.blocks)
    && forall h :: h in s.workers && !s.workers[h].Started? ==>
                     Possible(env.chain, env.chain.tip(h), s.workers[h].outcome)
  }

  lemma {:induction false} DeletedPossible(chain: Chain, blocks: seq<Record>, lo: int, hi: int)
    requires PossibleRecords(chain, blocks)
    ensures PossibleRecords(chain, DeleteWindow(blocks, lo, hi))
  {
    if blocks == [] {
    } else {
      DeletedPossible(chain, blocks[..|blocks| - 1], lo, hi);
    }
  }

  lemma {:induction false} KeepOutcomes(env: Env, s: State, l: Label)
    requires OutcomesPossible(env, s) && Enabled(env, s, l)
    ensures OutcomesPossible(env, Apply(env, s, l))
  {
    if l.Restart? {
      DeletedPossible(env.chain, s.blocks, l.height - 20, l.height + 20);
    }
  }

  lemma {:induction false} KeepOutcomesRun(env: Env, s: State, ls: seq<Label>, s': State)
    requires OutcomesPossible(env, s) && Runs(env, s, ls, s')
    ensures OutcomesPossible(env, s')
    decreases |ls|
  {
    if ls == [] {
    } else {
      KeepOutcomes(env, s, ls[0]);
      KeepOutcomesRun(env, Apply(env, s, ls[0]), ls[1..], s');
    }
  }
}

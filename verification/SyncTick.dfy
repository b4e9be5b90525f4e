/** DoSync as a program over the collections, with the workers running beside the scan loop: one tick
    of it is one tick of the machine, whatever the workers do in between. */
module SyncTick {
  import opened Prelude
  import opened ConfigCell
  import opened EpochTrace
  import opened SyncMachine
  import opened SyncTheorems

  datatype TickResult = ReadFailed | RolledBack | AtStopHeight | Advanced(last: int)

  lemma {:induction false} Extend(env: Env, s0: State, ls: seq<Label>, s: State, l: Label)
    requires Runs(env, s0, ls, s) && WithinTick(ls)
    requires Enabled(env, s, l) && !l.Crash? && !l.Joined?
    ensures Runs(env, s0, ls + [l], Apply(env, s, l)) && WithinTick(ls + [l])
    ensures Reliable(ls + [l]) <==> Reliable(ls) && !IsMiss(l)
  {
    assert [l] + [] == [l];
    Prepend(env, s, l, [], Apply(env, s, l));
    RunsConcat(env, s0, ls, s, [l], Apply(env, s, l));
    var more := ls + [l];
    assert more[|ls|] == l;
    assert forall k :: 0 <= k < |ls| ==> more[k] == ls[k];
  }

  lemma {:induction false} ExtendMany(env: Env, s0: State, ls: seq<Label>, s: State, ms: seq<Label>, s': State)
    requires Runs(env, s0, ls, s) && WithinTick(ls)
    requires Runs(env, s, ms, s') && WithinTick(ms)
    ensures Runs(env, s0, ls + ms, s') && WithinTick(ls + ms)
    ensures Reliable(ls + ms) <==> Reliable(ls) && Reliable(ms)
  {
    RunsConcat(env, s0, ls, s, ms, s');
    var more := ls + ms;
    assert forall k :: 0 <= k < |ls| ==> more[k] == ls[k];
    assert forall k :: 0 <= k < |ms| ==> more[|ls| + k] == ms[k];
  }

  /** The scan is over, and the goroutines run to their ends. */
  lemma {:induction false} WholeTick(env: Env, s: State, head: int, ls: seq<Label>, mid: State, ms: seq<Label>,
                                     s': State)
    requires ValidChain(env.chain) && Inv(env, s) && Enabled(env, s, Begin(head))
    requires Runs(env, Apply(env, s, Begin(head)), ls, mid) && WithinTick(ls)
    requires Runs(env, mid, ms, s') && WithinTick(ms) && Reliable(ms) && Enabled(env, s', Joined)
    ensures Inv(env, Apply(env, s', Joined))
    ensures TickEffect(env, s, head, s'.phase.lastHeight, Reliable(ls), Apply(env, s', Joined))
  {
    ExtendMany(env, Apply(env, s, Begin(head)), ls, mid, ms, s');
    TickIsScanThenSync(env, s, head, ls + ms, s');
    KeepTick(env, s, head, ls + ms, s');
  }

  lemma {:induction false} KeepTick(env: Env, s: State, head: int, ls: seq<Label>, s': State)
    requires ValidChain(env.chain) && Inv(env, s) && Enabled(env, s, Begin(head))
    requires Runs(env, Apply(env, s, Begin(head)), ls, s') && Enabled(env, s', Joined)
    ensures Inv(env, Apply(env, s', Joined))
  {
    KeepStep(env, s, Begin(head));
    KeepRun(env, Apply(env, s, Begin(head)), ls, s');
    KeepStep(env, s', Joined);
  }

  function UnfinishedIn(ws: map<int, Pc>): set<int> {
    set h | h in ws && !ws[h].Finished?
  }

  function StartedIn(ws: map<int, Pc>): set<int> {
    set h | h in ws && ws[h].Started?
  }

  /** A step of a worker brings the join nearer. */
  lemma {:induction false} WorkerProgress(ws: map<int, Pc>, h: int, pc: Pc)
    requires h in ws && ((ws[h].Started? && pc.Traced?) || (ws[h].Traced? && pc.Finished?))
    ensures |UnfinishedIn(ws[h := pc])| + |StartedIn(ws[h := pc])| < |UnfinishedIn(ws)| + |StartedIn(ws)|
  {
    var ws' := ws[h := pc];
    if pc.Traced? {
      assert UnfinishedIn(ws') == UnfinishedIn(ws);
      assert StartedIn(ws') == StartedIn(ws) - {h};
    } else {
      assert UnfinishedIn(ws') == UnfinishedIn(ws) - {h};
      assert StartedIn(ws') == StartedIn(ws);
    }
  }

  class Synchronizer {
    const env: Env
    const db: Database
    const config: ConfigCollection
    /** The goroutines of the current tick and how far each of them is. */
    var workers: map<int, Pc>
    ghost var base: int
    ghost var lost: set<int>

    ghost function Abs(phase: Phase): State
      reads this, db, config
    {
      State(db.blocks, db.messages, config.Cell(), base, lost, phase, workers)
    }

    ghost predicate Valid()
      reads this, db, config
    {
      ValidChain(env.chain) && config.Valid() && Inv(env, Abs(Idle))
    }

    /** main: delete the window around the configured height and set the cursor below it. */
    constructor (env: Env, db: Database, config: ConfigCollection, height: int, deleteOk: bool)
      requires ValidChain(env.chain) && config.Valid() && db.Backed(env.chain)
      requires forall h :: h in Heights(db.blocks) ==> env.chain.tip(h) == h
      modifies db, config
      ensures this.env == env && this.db == db && this.config == config && Valid()
      ensures config.Cell() == Pos(height - 20) && base == height - 20
      ensures db.blocks == if deleteOk then DeleteWindow(old(db.blocks), height - 20, height + 20) else old(db.blocks)
      ensures forall r :: multiset(db.blocks)[r]
                       == if deleteOk && height - 20 < r.height < height + 20 then 0 else multiset(old(db.blocks))[r]
      ensures db.messages == old(db.messages)
    {
      this.env := env;
      this.db := db;
      this.config := config;
      workers := map[];
      base := height - 20;
      lost := {};
      new;
      ghost var before := Abs(Down);
      KeepRestart(env, before, height, deleteOk);
      if deleteOk {
        ghost var all := db.blocks;
        db.blocks := DeleteWindow(db.blocks, height - 20, height + 20);
        forall r
          ensures multiset(db.blocks)[r] == if height - 20 < r.height < height + 20 then 0 else multiset(all)[r]
        {
          DeletedRecords(all, height - 20, height + 20, r);
        }
      }
      config.SetSyncHeight(height - 20, true);
      assert Abs(Idle) == DoRestart(before, height, deleteOk);
    }

    /** Some goroutine that has work left takes its next step; its calls may fail in any way. */
    method WorkerStep(h: int, ghost phase: Phase) returns (ghost l: Label)
      requires h in workers && !workers[h].Finished? && InTick(Abs(phase))
      modifies this`workers, this`lost, db
      ensures old(Enabled(env, Abs(phase), l)) && (l.Trace? || l.Store?)
      ensures Abs(phase) == Apply(env, old(Abs(phase)), l)
      ensures l.Trace? && Succeeded(env.chain, env.chain.tip(h), l.outcome) ==>
                db.messages == old(db.messages) + Expected(env.chain, env.chain.tip(h))
      ensures workers.Keys == old(workers.Keys) && workers == old(workers)[h := workers[h]]
      ensures (old(workers[h]).Started? && workers[h].Traced?) || (old(workers[h]).Traced? && workers[h].Finished?)
    {
      var t := env.chain.tip(h);
      if workers[h].Started? {
        var computeFails: bool, insertFails: bool, kept: multiset<Doc> := *, *, *;
        var o := db.GetEpochTrace(env.chain, t, computeFails, insertFails, kept);
        workers := workers[h := Traced(o)];
        l := Trace(h, o);
        if Succeeded(env.chain, t, o) {
          SuccessInsertsAll(env.chain, t, o);
        }
      } else {
        var storeFails: bool := *;
        var o := workers[h].outcome;
        var ok := db.InsertOneTipSet(Record(t, o), storeFails);
        workers := workers[h := Finished(o, ok)];
        if !ok {
          lost := lost + {h};
        }
        l := Store(h, ok);
      }
    }

    /** The other goroutines run for a while. */
    method Others(ghost phase: Phase) returns (ghost ls: seq<Label>)
      requires InTick(Abs(phase))
      modifies this`workers, this`lost, db
      ensures Runs(env, old(Abs(phase)), ls, Abs(phase)) && WithinTick(ls) && Reliable(ls)
      ensures workers.Keys == old(workers.Keys)
    {
      ls := [];
      var steps: nat := *;
      while steps > 0
        invariant Runs(env, old(Abs(phase)), ls, Abs(phase)) && WithinTick(ls) && Reliable(ls)
        invariant workers.Keys == old(workers.Keys)
      {
        var h: int := *;
        if h in workers && !workers[h].Finished? {
          ghost var before := Abs(phase);
          ghost var l := WorkerStep(h, phase);
          Extend(env, old(Abs(phase)), ls, before, l);
          ls := ls + [l];
        }
        steps := steps - 1;
      }
    }

    /** wg.Wait(): the scan loop is over, and the remaining workers run to their ends in any order. */
    method Wait(ghost phase: Phase) returns (ghost ls: seq<Label>)
      requires InTick(Abs(phase))
      modifies this`workers, this`lost, db
      ensures Runs(env, old(Abs(phase)), ls, Abs(phase)) && WithinTick(ls) && Reliable(ls)
      ensures AllFinished(Abs(phase)) && workers.Keys == old(workers.Keys)
    {
      ls := [];
      var left := UnfinishedIn(workers);
      while left != {}
        invariant Runs(env, old(Abs(phase)), ls, Abs(phase)) && WithinTick(ls) && Reliable(ls)
        invariant workers.Keys == old(workers.Keys) && left == UnfinishedIn(workers)
        decreases |UnfinishedIn(workers)| + |StartedIn(workers)|
      {
        var h := AnyOf(left);
        ghost var before := Abs(phase);
        ghost var l := WorkerStep(h, phase);
        Extend(env, old(Abs(phase)), ls, before, l);
        ls := ls + [l];
        WorkerProgress(before.workers, h, workers[h]);
        left := UnfinishedIn(workers);
      }
      assert forall h :: h in workers && !workers[h].Finished? ==> h in left;
    }

    /** One height of the scan, after the other goroutines have run for a while: it is skipped if it is found, handed to
        a new worker if the batch has room, and otherwise ends the scan. A lookup that fails passes for a missing
        height. */
    method ScanHeight(i: int, syncTODO: int, ghost phase: Phase)
        returns (found: bool, missed: bool, ghost ls: seq<Label>, ghost phase': Phase)
      requires phase.Scan? && phase.i == i <= phase.b.top && phase.syncTODO == syncTODO && config.Valid()
      modifies this, db, config
      ensures config.Valid() && Runs(env, old(Abs(phase)), ls, Abs(phase')) && WithinTick(ls)
      ensures (missed <==> !Reliable(ls))
      ensures if !found && syncTODO > env.maxOnce then phase'.Join? && phase'.lastHeight == phase.lastHeight
              else
                && phase'.Scan? && phase'.i == i + 1 && phase'.lastHeight == i && phase'.b.top == phase.b.top
                && phase'.syncTODO == if found then syncTODO else syncTODO + 1
    {
      ghost var before := Abs(phase);
      ls := Others(phase);
      ghost var s := Abs(phase);
      ghost var l := Skip;
      missed := *;
      found := !missed && i in Heights(db.blocks);
      if found {
        config.SetSyncHeight(i, true);
      } else if syncTODO > env.maxOnce {
        l := Break(missed);
      } else {
        workers := workers[i := Started];
        l := Dispatch(missed);
      }
      Extend(env, before, ls, s, l);
      ls, phase' := ls + [l], Apply(env, s, l).phase;
      assert Abs(phase') == Apply(env, s, l);
    }

    /** The scan loop, above the cursor `c`. `ls` are the steps taken since the tick began in `s0`; `answered` tells
        whether all lookups were answered. */
    method ScanHeights(ghost s0: State, c: int, head: int)
        returns (lastHeight: int, answered: bool, ghost phase: Phase, ghost ls: seq<Label>)
      requires config.Valid() && config.Cell() == Some(c) && Abs(Idle) == s0 && Enabled(env, s0, Begin(head))
      modifies this, db, config
      ensures config.Valid() && phase.Join? && phase.lastHeight == lastHeight
      ensures Runs(env, Apply(env, s0, Begin(head)), ls, Abs(phase)) && WithinTick(ls) && (answered <==> Reliable(ls))
    {
      var heightHead := head - 2;
      var syncTODO, i := 0, c + 1;
      lastHeight := c;
      workers := map[];
      answered := true;
      ghost var s1 := Apply(env, s0, Begin(head));
      phase, ls := s1.phase, [];
      while i <= heightHead
        invariant phase.Scan? && phase.i == i && phase.lastHeight == lastHeight && phase.syncTODO == syncTODO
        invariant phase.b.top == heightHead && config.Valid()
        invariant Runs(env, s1, ls, Abs(phase)) && WithinTick(ls) && (answered <==> Reliable(ls))
        decreases heightHead + 1 - i
      {
        ghost var s := Abs(phase);
        var found, missed;
        ghost var more;
        found, missed, more, phase := ScanHeight(i, syncTODO, phase);
        ExtendMany(env, s1, ls, s, more, Abs(phase));
        ls := ls + more;
        answered := answered && !missed;
        if !found {
          if syncTODO > env.maxOnce {
            return;
          }
          syncTODO := syncTODO + 1;
        }
        lastHeight := i;
        i := i + 1;
      }
      ghost var s := Abs(phase);
      Extend(env, s1, ls, s, EndScan);
      ls, phase := ls + [EndScan], DoEnd(s, false).phase;
    }

    /** The scan from the cursor `c`, the join, and the write of the last height. */
    method Advance(c: int, head: int) returns (lastHeight: int, answered: bool)
      requires Valid() && config.Cell() == Some(c) && !StopReached(env, c)
      modifies this, db, config
      ensures Valid() && TickEffect(env, old(Abs(Idle)), head, lastHeight, answered, Abs(Idle))
    {
      ghost var s0 := Abs(Idle);
      ghost var phase, ls;
      lastHeight, answered, phase, ls := ScanHeights(s0, c, head);
      ghost var mid := Abs(phase);
      ghost var more := Wait(phase);
      ghost var s := Abs(phase);
      WholeTick(env, s0, head, ls, mid, more, s);
      config.SetSyncHeight(lastHeight, true);
      workers := map[];
      assert Abs(Idle) == Apply(env, s, Joined);
    }

    /** One firing of the timer. `readOk` is whether the cursor can be read, `head` the chain head if the
        node answers; the lookups of the scan may fail, and `answered` tells whether none did. */
    method DoSyncTick(readOk: bool, head: Option<int>) returns (r: TickResult, answered: bool)
      requires Valid()
      modifies this, db, config
      ensures Valid()
      ensures !readOk || old(config.Cell()).None? ==> r.ReadFailed? && Abs(Idle) == old(Abs(Idle))
      ensures readOk && old(config.Cell()).Some? ==>
                var c := old(config.Cell()).value;
                && (head.None? ==> r.RolledBack? && Abs(Idle) == old(Abs(Idle)).(cursor := Pos(c - 10)))
                && (head.None? ==> Abs(Idle) == old(Apply(env, Abs(Idle), HeadError)))
                && (head.Some? && 0 < env.stopHeight < c ==>
                      Abs(Stopped) == old(Apply(env, Abs(Idle), Stop(head.value))))
                && (head.Some? && 0 < env.stopHeight < c ==> r.AtStopHeight? && Abs(Idle) == old(Abs(Idle)))
                && (head.Some? && !(0 < env.stopHeight < c) ==>
                      r.Advanced? && TickEffect(env, old(Abs(Idle)), head.value, r.last, answered, Abs(Idle)))
    {
      ghost var s0 := Abs(Idle);
      answered := true;
      var heightSynced := config.GetSyncHeight(readOk);
      if heightSynced.None? {
        return ReadFailed, true;
      }
      var c := heightSynced.value;
      if head.None? {
        KeepStep(env, s0, HeadError);
        config.SetSyncHeight(c - 10, true);
        return RolledBack, true;
      }
      if env.stopHeight > 0 && c > env.stopHeight {
        return AtStopHeight, true;
      }
      var lastHeight;
      lastHeight, answered := Advance(c, head.value);
      r := Advanced(lastHeight);
    }
  }
}

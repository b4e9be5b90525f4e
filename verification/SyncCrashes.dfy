/** What a crash inside a tick leaves behind: exactly when there may be a hole below the persisted cursor
    (synchain/parseMessage.go, the scan moves the cursor while workers are running). */
module SyncCrashes {
  import opened Frontier
  import opened ConfigCell
  import opened EpochTrace
  import opened SyncMachine
  import opened SyncTheorems
  import opened SyncScan

  /** Some height above the base and at or below the persisted cursor is neither stored nor recorded as failed. */
  ghost predicate Hole(env: Env, s: State) {
    s.cursor.Some? && exists h :: s.base < h <= s.cursor.value && !Settled(env, s, h)
  }

  /** A tick that begins in `s` and dies after the steps `ls`, in `s'`. */
  predicate CrashesIn(env: Env, s: State, head: int, ls: seq<Label>, s': State)
    requires Enabled(env, s, Begin(head))
  {
    Runs(env, Apply(env, s, Begin(head)), ls, s') && WithinTick(ls) && Enabled(env, s', Crash)
  }

  /** What can be read off the database before the tick: `h` is missing and not recorded as failed, a greater
      height `h'` is stored, and one batch is enough to get there. */
  ghost predicate AtRisk(env: Env, s: State, head: int, h: int, h': int) {
    && s.cursor.Some? && s.cursor.value < h < h' <= head - 2 && s.base < h
    && !Settled(env, s, h) && h' in Heights(s.blocks)
    && |Missing(Heights(s.blocks), s.cursor.value, h')| <= BatchLimit(env.maxOnce)
  }

  // ---------- A tick that is not at risk leaves no hole ----------

  /** During a tick the persisted cursor is where the tick began, or at a stored height already looked up. */
  ghost predicate CursorInTick(s: State, c: int) {
    && InTick(s) && s.cursor.Some?
    && (s.cursor.value == c ||
        (c < s.cursor.value <= s.phase.lastHeight && s.cursor.value in Heights(s.phase.b.blocks0)))
  }

  lemma {:induction false} KeepCursorInTick(env: Env, s: State, l: Label, c: int)
    requires Inv(env, s) && CursorInTick(s, c) && s.phase.b.start == c
    requires Enabled(env, s, l) && !l.Crash? && !l.Joined?
    ensures CursorInTick(Apply(env, s, l), c) && Apply(env, s, l).phase.b.start == c
  {
    if l.Skip? {
      LookupIsStable(s, s.phase.b, s.phase.lastHeight, s.phase.i);
    }
  }

  ghost predicate TickInv(env: Env, s: State, c: int) {
    Inv(env, s) && CursorInTick(s, c) && s.phase.b.start == c
  }

  lemma {:induction false} KeepTickInv(env: Env, s: State, l: Label, c: int)
    requires ValidChain(env.chain) && TickInv(env, s, c) && Enabled(env, s, l) && !l.Crash? && !l.Joined?
    ensures TickInv(env, Apply(env, s, l), c)
  {
    KeepStep(env, s, l);
    KeepCursorInTick(env, s, l, c);
  }

  lemma {:induction false} CursorOverTick(env: Env, s: State, ls: seq<Label>, s': State, c: int)
    requires ValidChain(env.chain) && TickInv(env, s, c) && Runs(env, s, ls, s') && WithinTick(ls)
    ensures TickInv(env, s', c)
    decreases |ls|
  {
    if ls == [] {
    } else {
      var rest := ls[1..];
      assert WithinTick(rest);
      KeepTickInv(env, s, ls[0], c);
      CursorOverTick(env, Apply(env, s, ls[0]), rest, s', c);
    }
  }

  /** What is settled stays settled during a tick. */
  lemma {:induction false} SettledStays(env: Env, s: State, b: Batch, s': State, last: int, h: int)
    requires b.blocks0 == s.blocks && WritesBelow(s', b, last) && s.lost <= s'.lost && Settled(env, s, h)
    ensures Settled(env, s', h)
  {
    var t := env.chain.tip(h);
    if t in Heights(s.blocks) {
      var k :| 0 <= k < |s.blocks| && s.blocks[k].height == t;
      assert s'.blocks[k].height == t;
    }
  }

  /** A cursor that has reached a stored height took no more than a batch to get there. */
  lemma {:induction false} OneBatchToCursor(env: Env, s: State, b: Batch, last: int, x: int)
    requires ScanOk(env, s, b, last) && b.start <= x <= last
    ensures |Missing(Heights(b.blocks0), b.start, x)| <= BatchLimit(env.maxOnce)
  {
    MissingShorter(Heights(b.blocks0), b.start, x, last);
  }

  lemma {:induction false} HoleWasMissing(env: Env, s: State, head: int, s': State, b: Batch, last: int)
    requires DatabaseOk(env, s) && s.cursor.Some? && s.cursor.value == b.start && CoveredTo(env, s, b.start)
    requires s.workers == map[]
    requires b.blocks0 == s.blocks && b.top == head - 2 && s.base == s'.base && s.lost <= s'.lost
    requires ScanOk(env, s', b, last) && WritesBelow(s', b, last) && Hole(env, s')
    requires s'.cursor.value != b.start ==> b.start < s'.cursor.value && s'.cursor.value in Heights(b.blocks0)
    ensures exists h, h' :: AtRisk(env, s, head, h, h')
  {
    var x := s'.cursor.value;
    var h :| s'.base < h <= x && !Settled(env, s', h);
    if Settled(env, s, h) {
      SettledStays(env, s, b, s', last, h);
    }
    assert b.start < h;
    OneBatchToCursor(env, s', b, last, x);
    assert h != x;
    assert AtRisk(env, s, head, h, x);
  }

  lemma {:induction false} HoleWasAtRisk(env: Env, s: State, head: int, ls: seq<Label>, s': State)
    requires ValidChain(env.chain) && Inv(env, s) && Enabled(env, s, Begin(head))
    requires CrashesIn(env, s, head, ls, s') && Hole(env, s')
    ensures exists h, h' :: AtRisk(env, s, head, h, h')
  {
    var c, s1 := s.cursor.value, Apply(env, s, Begin(head));
    KeepStep(env, s, Begin(head));
    CursorOverTick(env, s1, ls, s', c);
    TickHistory(env, s1, ls, s');
    HoleWasMissing(env, s, head, s', s'.phase.b, s'.phase.lastHeight);
  }

  // ---------- A tick at risk may leave one ----------

  /** The scan moves the cursor to a stored height, and nothing else. */
  lemma {:induction false} SkipStored(env: Env, s: State, b: Batch, n: int)
    requires ScannedTo(s, b, n) && n < b.top && n + 1 in Heights(s.blocks)
    ensures Enabled(env, s, Skip) && SameDatabase(s, Apply(env, s, Skip))
    ensures Apply(env, s, Skip).cursor == Pos(n + 1) && Apply(env, s, Skip).phase.Scan?
  {
  }

  lemma {:induction false} HoleBelow(env: Env, s: State, s': State, h: int, h': int)
    requires SameDatabase(s, s') && s'.cursor == Pos(h') && s.base < h < h' && h' > 0 && !Settled(env, s, h)
    ensures Hole(env, s')
  {
    assert !Settled(env, s', h);
  }

  /** The crash itself changes neither the collections nor the cursor. */
  lemma {:induction false} CrashKeepsHole(env: Env, s: State)
    requires Enabled(env, s, Crash)
    ensures Hole(env, Apply(env, s, Crash)) <==> Hole(env, s)
  {
    assert forall h :: Settled(env, Apply(env, s, Crash), h) == Settled(env, s, h);
  }

  lemma {:induction false} OneSkip(env: Env, s: State)
    requires Enabled(env, s, Skip)
    ensures Runs(env, s, [Skip], Apply(env, s, Skip))
  {
    assert [Skip][1..] == [];
  }

  /** The scan runs ahead to a stored height and moves the cursor there. */
  lemma {:induction false} ScanThenSkip(env: Env, s: State, head: int, n: int) returns (ls: seq<Label>, s': State)
    requires Enabled(env, s, Begin(head)) && s.cursor.value < n <= head - 2 && n in Heights(s.blocks)
    requires |Missing(Heights(s.blocks), s.cursor.value, n)| <= BatchLimit(env.maxOnce)
    ensures CrashesIn(env, s, head, ls, s') && SameDatabase(s, s') && s'.cursor == Pos(n)
  {
    MissingShorter(Heights(s.blocks), s.cursor.value, n - 1, n);
    var mid;
    ls, mid := ScanFromBegin(env, s, head, n - 1);
    SkipStored(env, mid, Apply(env, s, Begin(head)).phase.b, n - 1);
    s' := Apply(env, mid, Skip);
    OneSkip(env, mid);
    RunsConcat(env, Apply(env, s, Begin(head)), ls, mid, [Skip], s');
    ls := ls + [Skip];
  }

  lemma {:induction false} RiskMakesHole(env: Env, s: State, head: int, h: int, h': int)
      returns (ls: seq<Label>, s': State)
    requires Enabled(env, s, Begin(head)) && s.cursor.value > 0 && AtRisk(env, s, head, h, h')
    ensures CrashesIn(env, s, head, ls, s') && Hole(env, s')
  {
    ls, s' := ScanThenSkip(env, s, head, h');
    HoleBelow(env, s, s', h, h');
  }

  /** A crash inside a tick can leave a hole below the persisted cursor exactly when, before the tick, some height
      was missing and a greater one stored within reach of one batch; whether lookups fail or not. What keeps the
      next run safe is that start-up resets the cursor to the configured base. */
  lemma {:induction false} CrashLeavesHoleIff(env: Env, s: State, head: int)
    requires ValidChain(env.chain) && Inv(env, s) && Enabled(env, s, Begin(head))
    ensures (exists ls, s' :: CrashesIn(env, s, head, ls, s') && Hole(env, Apply(env, s', Crash)))
       <==> (exists h, h' :: AtRisk(env, s, head, h, h'))
  {
    if ls, s' :| CrashesIn(env, s, head, ls, s') && Hole(env, Apply(env, s', Crash)) {
      CrashKeepsHole(env, s');
      HoleWasAtRisk(env, s, head, ls, s');
    }
    if h, h' :| AtRisk(env, s, head, h, h') {
      var ls, s' := RiskMakesHole(env, s, head, h, h');
      CrashKeepsHole(env, s');
    }
  }

  // ---------- Such states are reached by an ordinary start ----------

  lemma {:induction false} MissingAtMost(stored: set<int>, lo: int, hi: int)
    requires lo <= hi
    ensures |Missing(stored, lo, hi)| <= hi - lo
    decreases hi - lo
  {
    if lo == hi {
    } else {
      MissingAtMost(stored, lo, hi - 1);
    }
  }

  /** Start-up at base `c`, with a deletion that works, below a missing height and in reach of a stored one. */
  lemma {:induction false} StartIsAtRisk(env: Env, s: State, c: int, h': int)
    requires s.phase.Down? && c > 0 && !StopReached(env, c)
    requires h' in Heights(s.blocks) && c + 40 <= h' && h' - c <= BatchLimit(env.maxOnce)
    requires env.chain.tip(c + 1) !in Heights(s.blocks)
    ensures Enabled(env, s, Restart(c + 20, true))
    ensures var s1 := Apply(env, s, Restart(c + 20, true));
            Enabled(env, s1, Begin(h' + 2)) && s1.cursor.value == c && AtRisk(env, s1, h' + 2, c + 1, h')
  {
    var s1 := DoRestart(s, c + 20, true);
    DeletedHeights(s.blocks, c, c + 40);
    MissingAtMost(Heights(s1.blocks), c, h');
  }

  /** And a run from there leaves a hole when it crashes. */
  lemma {:induction false} StartLeavesHole(env: Env, s: State, c: int, h': int) returns (ls: seq<Label>, s': State)
    requires s.phase.Down? && c > 0 && !StopReached(env, c)
    requires h' in Heights(s.blocks) && c + 40 <= h' && h' - c <= BatchLimit(env.maxOnce)
    requires env.chain.tip(c + 1) !in Heights(s.blocks)
    ensures Runs(env, s, [Restart(c + 20, true), Begin(h' + 2)] + ls, s')
    ensures Enabled(env, s', Crash) && Hole(env, Apply(env, s', Crash))
  {
    StartIsAtRisk(env, s, c, h');
    var s1 := Apply(env, s, Restart(c + 20, true));
    ls, s' := RiskMakesHole(env, s1, h' + 2, c + 1, h');
    CrashKeepsHole(env, s');
    Prepend(env, s1, Begin(h' + 2), ls, s');
    Prepend(env, s, Restart(c + 20, true), [Begin(h' + 2)] + ls, s');
    assert [Restart(c + 20, true)] + ([Begin(h' + 2)] + ls) == [Restart(c + 20, true), Begin(h' + 2)] + ls;
  }

  /** For example on a chain without null rounds, with one block in the database. */
  lemma {:induction false} ReachableHole(env: Env) returns (s0: State, ls: seq<Label>, s': State)
    requires (forall h :: env.chain.tip(h) == h) && env.maxOnce >= 100 && env.stopHeight <= 0
    ensures Init(env, s0) && Runs(env, s0, ls, s') && Enabled(env, s', Crash) && Hole(env, Apply(env, s', Crash))
  {
    s0 := State([Record(60, ComputeFailed)], multiset{}, Pos(0), 0, {}, Down, map[]);
    assert RecordDocs(s0.blocks) == multiset{};
    assert s0.blocks[0].height == 60;
    ls, s' := StartLeavesHole(env, s0, 10, 60);
    ls := [Restart(30, true), Begin(62)] + ls;
  }
}

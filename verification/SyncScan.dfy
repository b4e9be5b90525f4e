/** Runs in which the scan goes on by itself while the workers stand still: what the constructions of bad runs
    are made of. */
module SyncScan {
  import opened Frontier
  import opened SyncMachine
  import opened SyncTheorems

  lemma {:induction false} PrependInTick(env: Env, s: State, l: Label, ls: seq<Label>, s': State)
    requires Enabled(env, s, l) && Runs(env, Apply(env, s, l), ls, s') && WithinTick(ls) && Reliable(ls)
    requires !l.Crash? && !l.Joined? && !IsMiss(l)
    ensures Runs(env, s, [l] + ls, s') && WithinTick([l] + ls) && Reliable([l] + ls)
  {
    Prepend(env, s, l, ls, s');
  }

  /** The scan has looked up every height up to `n` and no worker has written anything since it began. */
  ghost predicate ScannedTo(s: State, b: Batch, n: int) {
    && s.phase.Scan? && s.phase.i == n + 1 && s.phase.lastHeight == n
    && s.phase.b.start == b.start && s.phase.b.top == b.top && s.phase.b.blocks0 == s.blocks
    && b.start <= n && s.phase.syncTODO == |Missing(Heights(s.blocks), b.start, n)|
  }

  predicate SameDatabase(s: State, s': State) {
    s'.blocks == s.blocks && s'.messages == s.messages && s'.lost == s.lost && s'.base == s.base
  }

  lemma {:induction false} MissingShorter(stored: set<int>, lo: int, mid: int, hi: int)
    requires lo <= mid <= hi
    ensures |Missing(stored, lo, mid)| <= |Missing(stored, lo, hi)|
  {
    MissingSplits(stored, lo, mid, hi);
  }

  /** One more height, which one batch still has room for. */
  lemma {:induction false} ScanOne(env: Env, s: State, b: Batch, n: int) returns (l: Label, s': State)
    requires ScannedTo(s, b, n) && n < b.top
    requires |Missing(Heights(s.blocks), b.start, n + 1)| <= BatchLimit(env.maxOnce)
    ensures Enabled(env, s, l) && s' == Apply(env, s, l) && !l.Crash? && !l.Joined? && !IsMiss(l)
    ensures ScannedTo(s', b, n + 1) && SameDatabase(s, s')
  {
    MissingNext(Heights(s.blocks), b.start, n);
    l := if n + 1 in Heights(s.blocks) then Skip else Dispatch(false);
    s' := Apply(env, s, l);
  }

  /** The scan reaches every height below the end of its batch. */
  lemma {:induction false} ScanAlone(env: Env, s: State, b: Batch, m: int, n: int) returns (ls: seq<Label>, s': State)
    requires ScannedTo(s, b, m) && m <= n <= b.top
    requires |Missing(Heights(s.blocks), b.start, n)| <= BatchLimit(env.maxOnce)
    ensures Runs(env, s, ls, s') && WithinTick(ls) && Reliable(ls)
    ensures ScannedTo(s', b, n) && SameDatabase(s, s')
    decreases n - m
  {
    if m == n {
      ls, s' := [], s;
    } else {
      MissingShorter(Heights(s.blocks), b.start, m + 1, n);
      var l, next := ScanOne(env, s, b, m);
      ls, s' := ScanAlone(env, next, b, m + 1, n);
      PrependInTick(env, s, l, ls, s');
      ls := [l] + ls;
    }
  }

  /** The same from the beginning of a tick. */
  lemma {:induction false} ScanFromBegin(env: Env, s: State, head: int, n: int) returns (ls: seq<Label>, s': State)
    requires Enabled(env, s, Begin(head)) && s.cursor.value <= n <= head - 2
    requires |Missing(Heights(s.blocks), s.cursor.value, n)| <= BatchLimit(env.maxOnce)
    ensures Runs(env, Apply(env, s, Begin(head)), ls, s') && WithinTick(ls) && Reliable(ls) && SameDatabase(s, s')
    ensures ScannedTo(s', Apply(env, s, Begin(head)).phase.b, n)
  {
    var s1 := Apply(env, s, Begin(head));
    ls, s' := ScanAlone(env, s1, s1.phase.b, s.cursor.value, n);
  }
}

/** How fast the synchroniser gets to the head of the chain: the results of `Frontier` about ticks one after
    another, carried over to whole ticks of the machine. */
module SyncProgress {
  import opened Prelude
  import opened Frontier
  import opened EpochTrace
  import opened SyncMachine
  import opened SyncTheorems

  /** What a tick saw and did: the head, whether all lookups of its scan were answered, and the heights it
      dispatched. */
  datatype Leg = Leg(head: int, reliable: bool, dispatched: seq<int>)

  /** From `s` to `s'` by one tick, with any interleaving of scan and workers. */
  ghost predicate OneTick(env: Env, s: State, leg: Leg, s': State) {
    && Enabled(env, s, Begin(leg.head))
    && exists ls, e :: TickEndsIn(env, s, leg, ls, e) && s' == Apply(env, e, Joined)
  }

  ghost predicate TickEndsIn(env: Env, s: State, leg: Leg, ls: seq<Label>, e: State)
    requires Enabled(env, s, Begin(leg.head))
  {
    && Runs(env, Apply(env, s, Begin(leg.head)), ls, e) && WithinTick(ls) && (leg.reliable ==> Reliable(ls))
    && Enabled(env, e, Joined) && e.phase.b.dispatched == leg.dispatched
  }

  /** From `s`, consecutive ticks lead through the states `ss`. */
  ghost predicate Ticking(env: Env, s: State, legs: seq<Leg>, ss: seq<State>)
    decreases |legs|
  {
    if legs == [] then ss == []
    else ss != [] && OneTick(env, s, legs[0], ss[0]) && Ticking(env, ss[0], legs[1..], ss[1..])
  }

  function CursorOf(s: State): int {
    if s.cursor.Some? then s.cursor.value else 0
  }

  function TickOf(s: State, head: int, s': State): Tick {
    Tick(Heights(s.blocks), CursorOf(s), head - 2, CursorOf(s'))
  }

  function TicksOf(s: State, head: int, ss: seq<State>): (ts: seq<Tick>)
    ensures |ts| == |ss|
    decreases |ss|
  {
    if ss == [] then [] else [TickOf(s, head, ss[0])] + TicksOf(ss[0], head, ss[1..])
  }

  function RoundsOf(s: State, legs: seq<Leg>, ss: seq<State>): seq<Round>
    decreases |ss|
  {
    if ss == [] || legs == [] then []
    else [Round(CursorOf(s), CursorOf(ss[0]), legs[0].dispatched)] + RoundsOf(ss[0], legs[1..], ss[1..])
  }

  lemma {:induction false} TickEndKeepsInv(env: Env, s: State, leg: Leg, ls: seq<Label>, e: State)
    requires ValidChain(env.chain) && Inv(env, s) && Enabled(env, s, Begin(leg.head)) && TickEndsIn(env, s, leg, ls, e)
    ensures Inv(env, Apply(env, e, Joined))
  {
    KeepStep(env, s, Begin(leg.head));
    KeepRun(env, Apply(env, s, Begin(leg.head)), ls, e);
    KeepStep(env, e, Joined);
  }

  lemma {:induction false} TickEndIsRound(env: Env, s: State, leg: Leg, ls: seq<Label>, e: State)
    requires ValidChain(env.chain) && Inv(env, s) && Enabled(env, s, Begin(leg.head)) && TickEndsIn(env, s, leg, ls, e)
    ensures Apply(env, e, Joined).cursor == Some(e.phase.lastHeight)
    ensures IsRound(Round(CursorOf(s), e.phase.lastHeight, leg.dispatched), BatchLimit(env.maxOnce))
  {
    TickDispatches(env, s, leg.head, ls, e);
  }

  /** A tick keeps the invariant, moves the cursor up, and dispatches no more than one batch in between. */
  lemma {:induction false} OneTickIsRound(env: Env, s: State, leg: Leg, s': State)
    requires ValidChain(env.chain) && Inv(env, s) && OneTick(env, s, leg, s')
    ensures Inv(env, s') && s'.cursor == Some(CursorOf(s'))
    ensures IsRound(Round(CursorOf(s), CursorOf(s'), leg.dispatched), BatchLimit(env.maxOnce))
    ensures env.stopHeight > 0 ==> CursorOf(s) <= env.stopHeight
  {
    var ls, e :| TickEndsIn(env, s, leg, ls, e) && s' == Apply(env, e, Joined);
    TickEndKeepsInv(env, s, leg, ls, e);
    TickEndIsRound(env, s, leg, ls, e);
  }

  /** A tick whose lookups are all answered ends at the frontier. */
  lemma {:induction false} OneTickIsTick(env: Env, s: State, leg: Leg, s': State)
    requires ValidChain(env.chain) && Inv(env, s) && OneTick(env, s, leg, s') && leg.reliable
    ensures Inv(env, s') && s'.cursor == Some(CursorOf(s'))
    ensures IsTick(TickOf(s, leg.head, s'), BatchLimit(env.maxOnce))
    ensures leg.dispatched == Dispatched(TickOf(s, leg.head, s'))
    ensures forall h :: h > CursorOf(s') ==> (h in Heights(s'.blocks) <==> h in Heights(s.blocks))
  {
    OneTickIsRound(env, s, leg, s');
    var ls, e :| TickEndsIn(env, s, leg, ls, e) && s' == Apply(env, e, Joined);
    TickDispatches(env, s, leg.head, ls, e);
    TickIsFrontierTick(env, s, leg.head, ls, e);
  }

  /** All ticks see the same head, and all their lookups are answered. */
  predicate SteadyHead(legs: seq<Leg>, head: int) {
    legs == [] || (legs[0].head == head && legs[0].reliable && SteadyHead(legs[1..], head))
  }

  /** Consecutive ticks of the machine are consecutive ticks of the frontier. */
  lemma {:induction false} MachineTicksAreTicks(env: Env, s: State, head: int, legs: seq<Leg>, ss: seq<State>)
    requires ValidChain(env.chain) && Inv(env, s) && Ticking(env, s, legs, ss) && SteadyHead(legs, head)
    ensures IsTickRun(TicksOf(s, head, ss), BatchLimit(env.maxOnce)) && FixedTop(TicksOf(s, head, ss), head - 2)
    decreases |legs|
  {
    if legs == [] {
    } else {
      OneTickIsTick(env, s, legs[0], ss[0]);
      MachineTicksAreTicks(env, ss[0], head, legs[1..], ss[1..]);
      TickRunBefore(TickOf(s, head, ss[0]), TicksOf(ss[0], head, ss[1..]), head - 2, BatchLimit(env.maxOnce));
    }
  }

  lemma {:induction false} TickRunBefore(t: Tick, ts: seq<Tick>, top: int, limit: nat)
    requires IsTick(t, limit) && IsTickRun(ts, limit) && FixedTop(ts, top) && t.top == top
    requires ts != [] ==> Follows(t, ts[0])
    ensures IsTickRun([t] + ts, limit) && FixedTop([t] + ts, top)
  {
    assert ([t] + ts)[1..] == ts;
  }

  /** The last tick ends at the persisted cursor. */
  lemma {:induction false} CursorAfter(env: Env, s: State, head: int, legs: seq<Leg>, ss: seq<State>)
    requires ValidChain(env.chain) && Inv(env, s) && Ticking(env, s, legs, ss) && ss != []
    ensures ss[|ss| - 1].cursor == Some(TicksOf(s, head, ss)[|ss| - 1].last)
    decreases |legs|
  {
    OneTickIsRound(env, s, legs[0], ss[0]);
    if |ss| > 1 {
      CursorAfter(env, ss[0], head, legs[1..], ss[1..]);
    }
  }

  /** With a fixed head above the cursor, the persisted cursor has reached the scan bound after these ticks exactly
      when they are at least as many as the batches that the missing heights make, and at least one; whatever the
      workers do, and however they are scheduled. */
  lemma {:induction false} HeadReachedAfter(env: Env, s: State, head: int, legs: seq<Leg>, ss: seq<State>)
    requires ValidChain(env.chain) && Inv(env, s) && env.maxOnce >= 0 && ss != []
    requires Ticking(env, s, legs, ss) && SteadyHead(legs, head) && CursorOf(s) < head - 2
    ensures ss[|ss| - 1].cursor == Some(head - 2)
       <==> Max(1, CeilDiv(Left(Heights(s.blocks), CursorOf(s), head - 2), env.maxOnce + 1)) <= |ss|
  {
    MachineTicksAreTicks(env, s, head, legs, ss);
    CursorAfter(env, s, head, legs, ss);
    HeadReachedIff(TicksOf(s, head, ss), head - 2, env.maxOnce + 1, |ss|);
  }

  lemma {:induction false} MachineTicksAreRounds(env: Env, s: State, legs: seq<Leg>, ss: seq<State>)
    requires ValidChain(env.chain) && Inv(env, s) && Ticking(env, s, legs, ss) && env.stopHeight > 0
    ensures IsRoundRun(RoundsOf(s, legs, ss), BatchLimit(env.maxOnce), env.stopHeight)
    decreases |legs|
  {
    if legs == [] {
    } else {
      OneTickIsRound(env, s, legs[0], ss[0]);
      MachineTicksAreRounds(env, ss[0], legs[1..], ss[1..]);
      var r, rs := Round(CursorOf(s), CursorOf(ss[0]), legs[0].dispatched), RoundsOf(ss[0], legs[1..], ss[1..]);
      assert ([r] + rs)[1..] == rs;
    }
  }

  predicate NoneAbove(hs: seq<int>, stop: int) {
    forall k :: 0 <= k < |hs| ==> hs[k] <= stop
  }

  lemma {:induction false} OnlyTheLastIsAbove(env: Env, s: State, legs: seq<Leg>, ss: seq<State>, k: int)
    requires ValidChain(env.chain) && Inv(env, s) && Ticking(env, s, legs, ss) && env.stopHeight > 0 && 0 <= k < |legs|
    ensures k < |legs| - 1 ==> NoneAbove(legs[k].dispatched, env.stopHeight)
    ensures |legs[k].dispatched| <= BatchLimit(env.maxOnce)
    decreases |legs|
  {
    OneTickIsRound(env, s, legs[0], ss[0]);
    if k > 0 {
      OnlyTheLastIsAbove(env, ss[0], legs[1..], ss[1..], k - 1);
    } else if |legs| > 1 {
      OneTickIsRound(env, ss[0], legs[1], ss[1]);
    }
  }

  /** With a stop height configured, however the head moves and whatever lookups fail, at most one batch of heights
      above it is ever dispatched as long as the cursor is not rolled back. */
  lemma {:induction false} StopHeightHolds(env: Env, s: State, legs: seq<Leg>, ss: seq<State>)
    requires ValidChain(env.chain) && Inv(env, s) && Ticking(env, s, legs, ss) && env.stopHeight > 0
    ensures forall k :: 0 <= k < |legs| - 1 ==> NoneAbove(legs[k].dispatched, env.stopHeight)
    ensures forall k :: 0 <= k < |legs| ==> |legs[k].dispatched| <= BatchLimit(env.maxOnce)
    ensures TotalAbove(RoundsOf(s, legs, ss), env.stopHeight) <= BatchLimit(env.maxOnce)
  {
    forall k | 0 <= k < |legs|
      ensures k < |legs| - 1 ==> NoneAbove(legs[k].dispatched, env.stopHeight)
      ensures |legs[k].dispatched| <= BatchLimit(env.maxOnce)
    {
      OnlyTheLastIsAbove(env, s, legs, ss, k);
    }
    MachineTicksAreRounds(env, s, legs, ss);
    AtMostOneBatchAboveStop(RoundsOf(s, legs, ss), BatchLimit(env.maxOnce), env.stopHeight);
  }
}

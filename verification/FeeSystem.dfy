/** The two loops of the fee tool and the re-pricing goroutines they start, interleaved in any way
    (baseFeeAuto/mpool.go, baseFeeAuto/mpoolQueue.go). */
module FeeSystem {
  import opened FeeControl
  import opened Reprice

  /** A started doImprove: its arguments are evaluated when it is started. */
  datatype Worker = Worker(message: Message, limit: int, fee: int)

  datatype Push = Push(worker: Worker, message: Message)

  /** `events` is what the controller has seen since NewLocalPool; `cleaning` says that the last sample was
      below the fee cap, so that MpoolClean is running. */
  datatype State = State(events: seq<Event>, control: Control, cleaning: bool, workers: seq<Worker>, pushed: seq<Push>)

  datatype Label =
    | Observe(fee: int)
    | SyncMsg(total: int)
    | Spawn(message: Message, limit: int)
    | Finish(k: nat, accepted: bool)

  function Begin(c: Setting): State {
    State([], Control(c.baseFee, []), false, [], [])
  }

  predicate Enabled(s: State, l: Label) {
    match l
    case Observe(_) => true
    case SyncMsg(_) => true
    case Spawn(_, _) => s.cleaning
    case Finish(k, _) => k < |s.workers|
  }

  function Apply(c: Setting, s: State, l: Label): State
    requires c.refreshBaseFee > 0 && Enabled(s, l)
  {
    match l
    case Observe(fee) =>
      s.(events := s.events + [Sample(fee)], control := Step(c, s.control, Sample(fee)),
         cleaning := fee < s.control.feecap)
    case SyncMsg(total) =>
      s.(events := s.events + [SyncOf(total)], control := Step(c, s.control, SyncOf(total)))
    case Spawn(message, limit) => s.(workers := s.workers + [Worker(message, limit, s.control.feecap)])
    case Finish(k, accepted) =>
      var w := s.workers[k];
      var r := Improve(c, w.message, w.limit, w.fee);
      s.(workers := s.workers[..k] + s.workers[k + 1..],
         pushed := s.pushed + if accepted && r.Some? then [Push(w, r.value)] else [])
  }

  predicate Runs(c: Setting, s: State, ls: seq<Label>, s': State)
    requires c.refreshBaseFee > 0
    decreases |ls|
  {
    if ls == [] then s == s' else Enabled(s, ls[0]) && Runs(c, Apply(c, s, ls[0]), ls[1..], s')
  }

  /** A push of `m` for the pending message `p.worker.message`, after the samples `fees`. */
  predicate PushOk(c: Setting, p: Push, fees: seq<int>) {
    var m, was := p.message, p.worker.message;
    && m.gasFeeCap == p.worker.fee
    && InEnvelope(c, m.gasFeeCap, fees) && m.gasFeeCap < TEN_NANO
    && m.gasLimit <= MAX_LIMIT
    && (m.method_ == PROVE_COMMIT_SECTOR ==> m.gasLimit <= c.proLimit)
    && (m.method_ == PRE_COMMIT_SECTOR ==> m.gasLimit <= c.preLimit)
    && m.gasPremium <= c.limitMaxPremium
    && m == was.(gasLimit := m.gasLimit, gasFeeCap := m.gasFeeCap, gasPremium := m.gasPremium)
  }

  /** The last sample of the controller's history. */
  ghost predicate NewestSample(es: seq<Event>, k: int) {
    0 <= k < |es| && es[k].Sample? && forall j :: k < j < |es| ==> !es[j].Sample?
  }

  /** That sample was below the fee cap in force when it came in. */
  ghost predicate GateOpen(c: Setting, es: seq<Event>)
    requires c.refreshBaseFee > 0
  {
    exists k :: NewestSample(es, k) && es[k].fee < RunOf(c, es[..k]).feecap
  }

  /** The worker was started after the first `n` events: the gate was open then, and it was given the fee cap in force
      then. */
  ghost predicate StartedAt(c: Setting, es: seq<Event>, w: Worker, n: int)
    requires c.refreshBaseFee > 0
  {
    0 <= n <= |es| && GateOpen(c, es[..n]) && w.fee == RunOf(c, es[..n]).feecap
  }

  ghost predicate Started(c: Setting, es: seq<Event>, w: Worker)
    requires c.refreshBaseFee > 0
  {
    exists n :: StartedAt(c, es, w, n)
  }

  ghost predicate Gated(c: Setting, s: State)
    requires c.refreshBaseFee > 0
  {
    && s.control == RunOf(c, s.events)
    && (s.cleaning <==> GateOpen(c, s.events))
    && (forall k :: 0 <= k < |s.workers| ==> Started(c, s.events, s.workers[k]))
    && (forall k :: 0 <= k < |s.pushed| ==> Started(c, s.events, s.pushed[k].worker))
  }

  lemma {:induction false} GateOfSample(c: Setting, es: seq<Event>, fee: int)
    requires c.refreshBaseFee > 0
    ensures GateOpen(c, es + [Sample(fee)]) <==> fee < RunOf(c, es).feecap
  {
    var more := es + [Sample(fee)];
    assert more[..|es|] == es && more[|es|].Sample? && NewestSample(more, |es|);
    assert forall k :: NewestSample(more, k) ==> k == |es|;
  }

  lemma {:induction false} GateOfSync(c: Setting, es: seq<Event>, total: int)
    requires c.refreshBaseFee > 0
    ensures GateOpen(c, es + [SyncOf(total)]) <==> GateOpen(c, es)
  {
    var more := es + [SyncOf(total)];
    forall k
      ensures NewestSample(more, k) <==> NewestSample(es, k)
    {
      assert more[|es|] == SyncOf(total);
      if NewestSample(more, k) {
        assert forall j :: k < j < |es| ==> more[j] == es[j];
      }
    }
    forall k | NewestSample(es, k)
      ensures more[..k] == es[..k]
    {
    }
  }

  lemma {:induction false} StartedEarlier(c: Setting, es: seq<Event>, e: Event, w: Worker)
    requires c.refreshBaseFee > 0 && Started(c, es, w)
    ensures Started(c, es + [e], w)
  {
    var n :| StartedAt(c, es, w, n);
    assert (es + [e])[..n] == es[..n];
    assert StartedAt(c, es + [e], w, n);
  }

  lemma {:induction false} KeepGateEvent(c: Setting, s: State, s': State, e: Event)
    requires c.refreshBaseFee > 0 && Gated(c, s)
    requires s'.events == s.events + [e] && s'.control == Step(c, s.control, e)
    requires s'.cleaning == if e.Sample? then e.fee < s.control.feecap else s.cleaning
    requires s'.workers == s.workers && s'.pushed == s.pushed
    ensures Gated(c, s')
  {
    EventAdded(c, s.events, e);
    if e.Sample? {
      GateOfSample(c, s.events, e.fee);
    } else {
      GateOfSync(c, s.events, e.total);
    }
    forall w | Started(c, s.events, w)
      ensures Started(c, s'.events, w)
    {
      StartedEarlier(c, s.events, e, w);
    }
  }

  lemma {:induction false} StartsNow(c: Setting, es: seq<Event>, w: Worker)
    requires c.refreshBaseFee > 0 && GateOpen(c, es) && w.fee == RunOf(c, es).feecap
    ensures Started(c, es, w)
  {
    assert es[..|es|] == es;
    assert StartedAt(c, es, w, |es|);
  }

  lemma {:induction false} KeepGate(c: Setting, s: State, l: Label)
    requires c.refreshBaseFee > 0 && Gated(c, s) && Enabled(s, l)
    ensures Gated(c, Apply(c, s, l))
  {
    var s' := Apply(c, s, l);
    match l
    case Observe(fee) => KeepGateEvent(c, s, s', Sample(fee));
    case SyncMsg(total) => KeepGateEvent(c, s, s', SyncOf(total));
    case Spawn(message, limit) => StartsNow(c, s.events, Worker(message, limit, s.control.feecap));
    case Finish(k, _) =>
  }

  lemma {:induction false} KeepGateRun(c: Setting, s: State, ls: seq<Label>, s': State)
    requires c.refreshBaseFee > 0 && Gated(c, s) && Runs(c, s, ls, s')
    ensures Gated(c, s')
    decreases |ls|
  {
    if ls == [] {
    } else {
      KeepGate(c, s, ls[0]);
      KeepGateRun(c, Apply(c, s, ls[0]), ls[1..], s');
    }
  }

  /** Over every interleaving a worker can be started exactly while the newest sample is one that came in below the fee
      cap of its moment; and every worker that runs, or has pushed, was started at such a moment, with the fee cap that
      was in force then. */
  lemma {:induction false} GateHolds(c: Setting, ls: seq<Label>, s: State, message: Message, limit: int)
    requires c.refreshBaseFee > 0 && Runs(c, Begin(c), ls, s)
    ensures Enabled(s, Spawn(message, limit)) <==> GateOpen(c, s.events)
    ensures forall k :: 0 <= k < |s.workers| ==> Started(c, s.events, s.workers[k])
    ensures forall k :: 0 <= k < |s.pushed| ==> Started(c, s.events, s.pushed[k].worker)
  {
    KeepGateRun(c, Begin(c), ls, s);
  }

  predicate Inv(c: Setting, s: State)
    requires c.refreshBaseFee > 0
  {
    && s.control == RunOf(c, s.events)
    && (forall k :: 0 <= k < |s.workers| ==> InEnvelope(c, s.workers[k].fee, Samples(s.events)))
    && (forall k :: 0 <= k < |s.pushed| ==> PushOk(c, s.pushed[k], Samples(s.events)))
  }

  lemma {:induction false} EventAdded(c: Setting, es: seq<Event>, e: Event)
    requires c.refreshBaseFee > 0
    ensures RunOf(c, es + [e]) == Step(c, RunOf(c, es), e)
    ensures forall x :: x in Samples(es) ==> x in Samples(es + [e])
  {
    assert (es + [e])[..|es|] == es;
  }

  lemma {:induction false} KeepStep(c: Setting, s: State, l: Label)
    requires c.refreshBaseFee > 0 && Inv(c, s) && Enabled(s, l)
    ensures Inv(c, Apply(c, s, l))
  {
    match l
    case Observe(fee) => EventAdded(c, s.events, Sample(fee));
    case SyncMsg(total) => EventAdded(c, s.events, SyncOf(total));
    case Spawn(_, _) => FeeCapEnvelope(c, s.events);
    case Finish(k, accepted) =>
      var w := s.workers[k];
      if Improve(c, w.message, w.limit, w.fee).Some? {
        ImproveEnvelope(c, w.message, w.limit, w.fee);
      }
  }

  lemma {:induction false} KeepRun(c: Setting, s: State, ls: seq<Label>, s': State)
    requires c.refreshBaseFee > 0 && Inv(c, s) && Runs(c, s, ls, s')
    ensures Inv(c, s')
    decreases |ls|
  {
    if ls == [] {
    } else {
      KeepStep(c, s, ls[0]);
      KeepRun(c, Apply(c, s, ls[0]), ls[1..], s');
    }
  }

  /** Over every interleaving of samples, syncs, started and finishing workers, every pushed message has a fee
      cap between the floor and the ceiling that is the floor or a sample observed before, a limit and a
      premium under their clamps, and every other field as in the pending message. */
  lemma {:induction false} PushEnvelope(c: Setting, ls: seq<Label>, s: State)
    requires c.refreshBaseFee > 0 && Runs(c, Begin(c), ls, s)
    ensures forall k :: 0 <= k < |s.pushed| ==> PushOk(c, s.pushed[k], Samples(s.events))
    ensures s.control == RunOf(c, s.events)
  {
    KeepRun(c, Begin(c), ls, s);
  }
}

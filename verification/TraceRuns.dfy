/** Whole runs of the concurrent trace conversion (types/message.go, LotusExecutionTraceConvert): any schedule,
    with goroutines that find their context done and lookups that the node does not answer. */
module TraceRuns {
  import opened Prelude
  import opened TraceTree
  import opened Bags

  /** One scheduling decision: which goroutine moves, how, and whether the node is `down` for it. */
  datatype Move = Move(p: Path, a: Action, down: bool)

  datatype System = System(root: Task, cache: Cache)

  predicate Enabled(s: System, m: Move) {
    Can(s.root, m.p, m.a)
  }

  function Next(actors: Actors, s: System, m: Move): System
    requires Enabled(s, m)
  {
    if m.a == Finish then
      var r := GetCode(actors, s.cache, Mover(s.root, m.p, m.a).src.to, m.down);
      System(Act(s.root, m.p, m.a, r.0), r.1)
    else
      System(Act(s.root, m.p, m.a, NO_CODE), s.cache)
  }

  /** The scheduler can make the decisions `ms` from `s`, and they lead to `s'`. */
  predicate Runs(actors: Actors, s: System, ms: seq<Move>, s': System)
    decreases |ms|
  {
    if ms == [] then s == s'
    else Enabled(s, ms[0]) && Runs(actors, Next(actors, s, ms[0]), ms[1..], s')
  }

  lemma {:induction false} RunsThen(actors: Actors, s: System, ms: seq<Move>, s': System, m: Move)
    requires Runs(actors, s, ms, s') && Enabled(s', m)
    ensures Runs(actors, s, ms + [m], Next(actors, s', m))
    decreases |ms|
  {
    if ms == [] {
      assert [m][1..] == [];
    } else {
      assert (ms + [m])[1..] == ms[1..] + [m];
      RunsThen(actors, Next(actors, s, ms[0]), ms[1..], s', m);
    }
  }

  /** The outermost call, entered with what the cache already holds. */
  function Begin(src: Call, cache: Cache): System {
    System(Enter(src), cache)
  }

  /** `wg.Wait()` returns at the root. */
  predicate Joined(s: System) {
    s.root.Running? && s.root.live == []
  }

  /** What the outermost call returns after the join; its own lookup comes last. */
  function ResultOf(actors: Actors, s: System, down: bool): Converted
    requires Joined(s)
  {
    Built(s.root, GetCode(actors, s.cache, s.root.src.to, down).0)
  }

  // ---------- What went wrong in a run ----------

  /** The lookup of an actor that exists is not answered. */
  predicate LookupFails(actors: Actors, cache: Cache, a: Address, down: bool) {
    down && a !in cache.codes && CodeOf(actors, a) != NO_CODE
  }

  function EditOf(actors: Actors, s: System, m: Move): seq<Edit>
    requires Enabled(s, m)
  {
    if m.a == Cancel then [Prune]
    else if m.a == Finish && LookupFails(actors, s.cache, Mover(s.root, m.p, m.a).src.to, m.down) then [Blank]
    else []
  }

  /** One edit for every goroutine that found its context done and for every failed lookup. */
  function EditsOf(actors: Actors, s: System, ms: seq<Move>): seq<Edit>
    decreases |ms|
  {
    if ms == [] || !Enabled(s, ms[0]) then []
    else EditOf(actors, s, ms[0]) + EditsOf(actors, Next(actors, s, ms[0]), ms[1..])
  }

  /** The same for a conversion as a whole, with the outermost lookup. */
  function AllEdits(actors: Actors, src: Call, cache: Cache, ms: seq<Move>, s: System, down: bool): seq<Edit> {
    EditsOf(actors, Begin(src, cache), ms) + if LookupFails(actors, s.cache, src.to, down) then [Blank] else []
  }

  lemma {:induction false} AnswerOf(actors: Actors, cache: Cache, a: Address, down: bool)
    requires CacheOk(actors, cache)
    ensures GetCode(actors, cache, a, down).0
         == if LookupFails(actors, cache, a, down) then NO_CODE else CodeOf(actors, a)
    ensures CacheOk(actors, GetCode(actors, cache, a, down).1)
  {
    GetCodeKeepsCache(actors, cache, a, down);
  }

  /** One step either keeps the promised tree or makes its one edit to it. */
  lemma {:induction false} MoveEdits(actors: Actors, w: nat, s: System, m: Move)
    requires Enabled(s, m) && CacheOk(actors, s.cache)
    ensures var s', es := Next(actors, s, m), EditOf(actors, s, m);
            && CacheOk(actors, s'.cache) && s'.root.Running? && s'.root.src == s.root.src
            && (if es == [] then Goal(actors, s'.root) == Goal(actors, s.root)
                else |es| == 1 && EditedOnce(es[0], Goal(actors, s'.root), Goal(actors, s.root)))
            && (es == [] ==> Weight(actors, w, s'.root) == Weight(actors, w, s.root))
            && (es == [Blank] ==> Weight(actors, w, s'.root) == Weight(actors, w, s.root) - w)
            && (es == [Prune] ==> Weight(actors, w, s'.root) < Weight(actors, w, s.root))
            && (if m.a == Cancel then Work(s'.root) < Work(s.root) else Work(s'.root) == Work(s.root) - 1)
  {
    match m.a
    case Start => StepKeepsGoal(actors, w, s.root, m.p, m.a, NO_CODE);
    case Cancel => CancelPrunes(actors, w, s.root, m.p, NO_CODE);
    case Finish =>
      var to := Mover(s.root, m.p, m.a).src.to;
      AnswerOf(actors, s.cache, to, m.down);
      if LookupFails(actors, s.cache, to, m.down) {
        FailureBlanks(actors, w, s.root, m.p);
      } else {
        StepKeepsGoal(actors, w, s.root, m.p, m.a, CodeOf(actors, to));
      }
  }

  /** The edits of a run, in order, lead from the tree it promised to the tree it promises; `tail` are
      edits that come later. */
  lemma {:induction false} RunEdits(actors: Actors, s: System, ms: seq<Move>, s': System, tail: seq<Edit>, m: Shape)
    requires Runs(actors, s, ms, s') && CacheOk(actors, s.cache) && s.root.Running?
    requires Edited(Goal(actors, s'.root), tail, m)
    ensures CacheOk(actors, s'.cache) && s'.root.Running? && s'.root.src == s.root.src
    ensures Edited(Goal(actors, s.root), EditsOf(actors, s, ms) + tail, m)
    decreases |ms|
  {
    if ms == [] {
      assert EditsOf(actors, s, ms) + tail == tail;
    } else {
      var next := Next(actors, s, ms[0]);
      var e, es := EditOf(actors, s, ms[0]), EditsOf(actors, next, ms[1..]);
      MoveEdits(actors, 0, s, ms[0]);
      RunEdits(actors, next, ms[1..], s', tail, m);
      ChainPrepend(EditRelation(), e, Goal(actors, s.root), Goal(actors, next.root), es, tail, m);
    }
  }

  predicate NoCancel(ms: seq<Move>) {
    forall k :: 0 <= k < |ms| ==> ms[k].a != Cancel
  }

  /** Every edit makes the tree lighter; without cancellation the number of nodes stays, and every step is
      one of the steps there were to take. */
  lemma {:induction false} RunWeight(actors: Actors, s: System, ms: seq<Move>, s': System)
    requires Runs(actors, s, ms, s') && CacheOk(actors, s.cache) && s.root.Running?
    ensures Weight(actors, 1, s'.root) + |EditsOf(actors, s, ms)| <= Weight(actors, 1, s.root)
    ensures NoCancel(ms) ==> Weight(actors, 0, s'.root) == Weight(actors, 0, s.root)
    ensures if NoCancel(ms) then Work(s'.root) + |ms| == Work(s.root) else Work(s'.root) + |ms| <= Work(s.root)
    decreases |ms|
  {
    if ms == [] {
    } else {
      var next := Next(actors, s, ms[0]);
      MoveEdits(actors, 0, s, ms[0]);
      MoveEdits(actors, 1, s, ms[0]);
      RunWeight(actors, next, ms[1..], s');
      assert NoCancel(ms) ==> ms[0].a != Cancel && NoCancel(ms[1..]);
    }
  }

  /** The cache's promise holds over every run, cancelled goroutines and failed lookups included. */
  lemma {:induction false} CacheOverRuns(actors: Actors, s: System, ms: seq<Move>, s': System)
    requires Runs(actors, s, ms, s') && CacheOk(actors, s.cache)
    ensures CacheOk(actors, s'.cache)
    decreases |ms|
  {
    if ms == [] {
    } else {
      if ms[0].a == Finish {
        GetCodeKeepsCache(actors, s.cache, Mover(s.root, ms[0].p, ms[0].a).src.to, ms[0].down);
      }
      CacheOverRuns(actors, Next(actors, s, ms[0]), ms[1..], s');
    }
  }

  // ---------- The conversion as a whole ----------

  /** Whatever the schedule, the cancelled goroutines and the failed lookups, the outermost one included: the
      result is the per-node conversion of the source, up to the order of children, after exactly one pruning
      for each goroutine that found its context done and one blanked code for each failed lookup. */
  lemma {:induction false} ConversionEdits(actors: Actors, src: Call, cache: Cache, ms: seq<Move>, s: System,
                                           down: bool)
    requires CacheOk(actors, cache) && Runs(actors, Begin(src, cache), ms, s) && Joined(s)
    ensures CacheOk(actors, s.cache) && s.root.src == src
    ensures Edited(ShapeOf(Convert(actors, src)), AllEdits(actors, src, cache, ms, s, down),
                   ShapeOf(ResultOf(actors, s, down)))
  {
    EnterKeepsGoal(actors, 0, src);
    var g := Goal(actors, s.root);
    assert Edited(g, [], g);
    RunEdits(actors, Begin(src, cache), ms, s, [], g);
    RootEdits(actors, s, down);
    RunEdits(actors, Begin(src, cache), ms, s,
             if LookupFails(actors, s.cache, src.to, down) then [Blank] else [], ShapeOf(ResultOf(actors, s, down)));
  }

  lemma {:induction false} RootEdits(actors: Actors, s: System, down: bool)
    requires Joined(s) && CacheOk(actors, s.cache)
    ensures Edited(Goal(actors, s.root), if LookupFails(actors, s.cache, s.root.src.to, down) then [Blank] else [],
                   ShapeOf(ResultOf(actors, s, down)))
    ensures ConvertedWeight(1, ResultOf(actors, s, down))
            + (if LookupFails(actors, s.cache, s.root.src.to, down) then 1 else 0)
         == Weight(actors, 1, s.root)
    ensures ConvertedNodes(ResultOf(actors, s, down)) == Weight(actors, 0, s.root) && Work(s.root) == 1
  {
    AnswerOf(actors, s.cache, s.root.src.to, down);
    if LookupFails(actors, s.cache, s.root.src.to, down) {
      BuiltBlank(actors, 0, s.root);
      BuiltBlank(actors, 1, s.root);
      var m := ShapeOf(ResultOf(actors, s, down));
      ChainFirst(EditRelation(), Blank, Goal(actors, s.root), m, [], m);
      assert [Blank] + [] == [Blank];
    } else {
      BuiltKeepsGoal(actors, 0, s.root);
      BuiltKeepsGoal(actors, 1, s.root);
    }
  }

  // Trees of one shape weigh the same.

  lemma {:induction false} FirstShape(cs: seq<Converted>)
    ensures cs != [] ==> ShapeOf(cs[0]) in ShapesOf(cs)
  {
  }

  lemma {:induction false} ShapeAt(cs: seq<Converted>, m: Shape) returns (j: nat)
    requires m in ShapesOf(cs)
    ensures j < |cs| && ShapeOf(cs[j]) == m
  {
    if ShapeOf(cs[0]) == m {
      j := 0;
    } else {
      j := ShapeAt(cs[1..], m);
      j := j + 1;
    }
  }

  lemma {:induction false} ShapesSplit(w: nat, cs: seq<Converted>, j: nat)
    requires j < |cs|
    ensures ShapesOf(cs) == ShapesOf(Without(cs, j)) + multiset{ShapeOf(cs[j])}
    ensures ConvertedWeights(w, cs) == ConvertedWeights(w, Without(cs, j)) + ConvertedWeight(w, cs[j])
  {
    assert cs == cs[..j] + cs[j..];
    ShapesAppend(w, cs[..j], cs[j..]);
    ShapesAppend(w, cs[..j], cs[j + 1..]);
    assert cs[j..][0] == cs[j] && cs[j..][1..] == cs[j + 1..];
  }

  lemma {:induction false} SameShapeSameWeight(w: nat, a: Converted, b: Converted)
    requires ShapeOf(a) == ShapeOf(b)
    ensures ConvertedWeight(w, a) == ConvertedWeight(w, b)
    decreases a
  {
    SameShapesSameWeight(w, a.subcalls, b.subcalls);
  }

  lemma {:induction false} SameShapesSameWeight(w: nat, a: seq<Converted>, b: seq<Converted>)
    requires ShapesOf(a) == ShapesOf(b)
    ensures ConvertedWeights(w, a) == ConvertedWeights(w, b)
    decreases a
  {
    if a == [] {
      FirstShape(b);
    } else {
      FirstShape(a);
      var j := ShapeAt(b, ShapeOf(a[0]));
      RestAgrees(w, a, b, j);
      SameShapeSameWeight(w, a[0], b[j]);
      SameShapesSameWeight(w, a[1..], Without(b, j));
    }
  }

  lemma {:induction false} RestAgrees(w: nat, a: seq<Converted>, b: seq<Converted>, j: nat)
    requires a != [] && j < |b| && ShapeOf(a[0]) == ShapeOf(b[j]) && ShapesOf(a) == ShapesOf(b)
    ensures ShapesOf(a[1..]) == ShapesOf(Without(b, j))
    ensures ConvertedWeights(w, a) == ConvertedWeight(w, a[0]) + ConvertedWeights(w, a[1..])
    ensures ConvertedWeights(w, b) == ConvertedWeight(w, b[j]) + ConvertedWeights(w, Without(b, j))
  {
    assert Without(a, 0) == a[1..];
    ShapesSplit(w, a, 0);
    ShapesSplit(w, b, j);
    Cancelled(ShapesOf(a[1..]), ShapesOf(Without(b, j)), multiset{ShapeOf(a[0])});
  }

  /** The result is the per-node conversion of the source exactly when no goroutine found its context done and
      no lookup failed: then every completion order yields the same tree up to the order of children. */
  lemma {:induction false} ConversionIsConfluentIff(actors: Actors, src: Call, cache: Cache, ms: seq<Move>, s: System,
                                                    down: bool)
    requires CacheOk(actors, cache) && Runs(actors, Begin(src, cache), ms, s) && Joined(s)
    ensures ShapeOf(ResultOf(actors, s, down)) == ShapeOf(Convert(actors, src))
       <==> AllEdits(actors, src, cache, ms, s, down) == []
  {
    ConversionEdits(actors, src, cache, ms, s, down);
    RunWeight(actors, Begin(src, cache), ms, s);
    EnterKeepsGoal(actors, 1, src);
    RootEdits(actors, s, down);
    if ShapeOf(ResultOf(actors, s, down)) == ShapeOf(Convert(actors, src)) {
      SameShapeSameWeight(1, ResultOf(actors, s, down), Convert(actors, src));
    }
  }

  // ---------- Without cancellation ----------

  /** A chain that knows no actors: every code is the zero code. */
  function Nobody(): Actors {
    a => None
  }

  function Erase(c: Converted): Converted {
    Converted(c.payload, NO_CODE, EraseAll(c.subcalls))
  }

  function EraseAll(cs: seq<Converted>): (es: seq<Converted>)
    ensures |es| == |cs| && forall i :: 0 <= i < |cs| ==> es[i] == Erase(cs[i])
  {
    if cs == [] then [] else [Erase(cs[0])] + EraseAll(cs[1..])
  }

  /** A goroutine with all codes it has received so far replaced by the zero code. */
  function EraseTask(t: Task): Task {
    match t
    case Waiting(src) => t
    case Running(src, live, done) => Running(src, EraseTasks(live), EraseAll(done))
  }

  function EraseTasks(ts: seq<Task>): (es: seq<Task>)
    ensures |es| == |ts| && forall i :: 0 <= i < |ts| ==> es[i] == EraseTask(ts[i])
  {
    if ts == [] then [] else [EraseTask(ts[0])] + EraseTasks(ts[1..])
  }

  lemma {:induction false} SpawnIsErased(cs: seq<Call>)
    ensures EraseTasks(Spawn(cs)) == Spawn(cs)
  {
    if cs == [] {
    } else {
      SpawnIsErased(cs[1..]);
      assert Spawn(cs)[0] == Waiting(cs[0]) && Spawn(cs)[1..] == Spawn(cs[1..]);
    }
  }

  lemma {:induction false} ConvertErased(actors: Actors, c: Call)
    ensures Erase(Convert(actors, c)) == Convert(Nobody(), c)
    ensures ConvertedNodes(Convert(actors, c)) == Nodes(c)
    decreases c
  {
    ConvertAllErased(actors, c.subcalls);
  }

  lemma {:induction false} ConvertAllErased(actors: Actors, cs: seq<Call>)
    ensures EraseAll(ConvertAll(actors, cs)) == ConvertAll(Nobody(), cs)
    ensures ConvertedWeights(0, ConvertAll(actors, cs)) == NodesAll(cs)
    decreases cs
  {
    if cs == [] {
    } else {
      ConvertErased(actors, cs[0]);
      ConvertAllErased(actors, cs[1..]);
      assert ConvertAll(actors, cs)[0] == Convert(actors, cs[0]);
      assert ConvertAll(actors, cs)[1..] == ConvertAll(actors, cs[1..]);
    }
  }

  lemma {:induction false} EraseWithout(ts: seq<Task>, i: nat)
    requires i < |ts|
    ensures EraseTasks(Without(ts, i)) == Without(EraseTasks(ts), i)
  {
  }

  lemma {:induction false} EraseReplaced(ts: seq<Task>, i: nat, t: Task)
    requires i < |ts|
    ensures EraseTasks(ts[i := t]) == EraseTasks(ts)[i := EraseTask(t)]
  {
  }

  lemma {:induction false} EraseAppended(cs: seq<Converted>, c: Converted)
    ensures EraseAll(cs + [c]) == EraseAll(cs) + [Erase(c)]
  {
  }

  lemma {:induction false} EraseHere(t: Task, i: nat, a: Action, code: Code)
    requires t.Running? && CanHere(t.live, i, a)
    ensures CanHere(EraseTask(t).live, i, a)
    ensures ActHere(EraseTask(t), i, a, NO_CODE) == EraseTask(ActHere(t, i, a, code))
  {
    match a
    case Start =>
      SpawnIsErased(t.live[i].src.subcalls);
      EraseReplaced(t.live, i, Enter(t.live[i].src));
    case Cancel => EraseWithout(t.live, i);
    case Finish =>
      EraseWithout(t.live, i);
      EraseAppended(t.done, Built(t.live[i], code));
  }

  /** A step does to the erased goroutines what it does to the goroutines, whatever the lookup answered. */
  lemma {:induction false} EraseAct(t: Task, p: Path, a: Action, code: Code)
    requires Can(t, p, a)
    ensures Can(EraseTask(t), p, a)
    ensures Act(EraseTask(t), p, a, NO_CODE) == EraseTask(Act(t, p, a, code))
    decreases p
  {
    match p
    case Child(i) => EraseHere(t, i, a, code);
    case Below(i, rest) =>
      var child' := Act(t.live[i], rest, a, code);
      EraseAct(t.live[i], rest, a, code);
      EraseReplaced(t.live, i, child');
  }

  lemma {:induction false} ErasedRun(actors: Actors, s: System, ms: seq<Move>, s': System)
    requires Runs(actors, s, ms, s') && s.root.Running? && NoCancel(ms)
    ensures s'.root.Running? && Goal(Nobody(), EraseTask(s'.root)) == Goal(Nobody(), EraseTask(s.root))
    decreases |ms|
  {
    if ms == [] {
    } else {
      var m, next := ms[0], Next(actors, s, ms[0]);
      var code := if m.a == Finish then GetCode(actors, s.cache, Mover(s.root, m.p, m.a).src.to, m.down).0 else NO_CODE;
      EraseAct(s.root, m.p, m.a, code);
      StepKeepsGoal(Nobody(), 0, EraseTask(s.root), m.p, m.a, NO_CODE);
      ErasedRun(actors, next, ms[1..], s');
    }
  }

  /** Without cancellation, whatever lookups fail: the result has the tree of the source and all its payloads, so
      only codes can be missing; and it takes exactly two steps for every node below the root. */
  lemma {:induction false} UncancelledKeepsTree(actors: Actors, src: Call, cache: Cache, ms: seq<Move>, s: System,
                                                down: bool)
    requires CacheOk(actors, cache) && Runs(actors, Begin(src, cache), ms, s) && Joined(s) && NoCancel(ms)
    ensures ShapeOf(Erase(ResultOf(actors, s, down))) == ShapeOf(Erase(Convert(actors, src)))
    ensures ConvertedNodes(ResultOf(actors, s, down)) == Nodes(src)
    ensures |ms| == 2 * (Nodes(src) - 1)
  {
    var r := ResultOf(actors, s, down);
    ConvertErased(actors, src);
    EnterKeepsGoal(Nobody(), 0, src);
    SpawnIsErased(src.subcalls);
    ErasedRun(actors, Begin(src, cache), ms, s);
    BuiltKeepsGoal(Nobody(), 0, EraseTask(s.root));
    assert Built(EraseTask(s.root), NO_CODE) == Erase(r);
    ConversionEdits(actors, src, cache, ms, s, down);
    EnterKeepsGoal(actors, 0, src);
    RunWeight(actors, Begin(src, cache), ms, s);
    RootEdits(actors, s, down);
  }

  // ---------- The program ----------

  /** The join cannot hang: as long as a goroutine is live, one of them can start or finish. */
  method FindMove(t: Task) returns (p: Path, a: Action)
    requires t.Running? && t.live != []
    ensures a != Cancel && Can(t, p, a)
    decreases t
  {
    var child := t.live[0];
    if child.Waiting? {
      p, a := Child(0), Start;
    } else if child.live == [] {
      p, a := Child(0), Finish;
    } else {
      p, a := FindMove(child);
      p := Below(0, p);
    }
  }

  /** The conversion on a shared cache, its goroutines scheduled in any way. What happened is reported as the run
      `ms` to `end` and the answer to the outermost lookup. */
  method ConvertTrace(cache: CodeCache, src: Call)
      returns (r: Converted, ms: seq<Move>, end: System, down: bool)
    requires CacheOk(cache.actors, cache.Abs())
    modifies cache
    ensures CacheOk(cache.actors, cache.Abs())
    ensures Runs(cache.actors, Begin(src, old(cache.Abs())), ms, end) && Joined(end) && end.root.src == src
    ensures r == ResultOf(cache.actors, end, down)
    ensures Edited(ShapeOf(Convert(cache.actors, src)),
                   AllEdits(cache.actors, src, old(cache.Abs()), ms, end, down), ShapeOf(r))
  {
    var root := Enter(src);
    ms := [];
    ghost var before := cache.Abs();
    while root.live != []
      invariant root.Running? && root.src == src && CacheOk(cache.actors, cache.Abs())
      invariant Runs(cache.actors, Begin(src, before), ms, System(root, cache.Abs()))
      decreases Work(root)
    {
      ghost var s := System(root, cache.Abs());
      var p: Path, a: Action, answered: bool := *, *, *;
      if !Can(root, p, a) {
        p, a := FindMove(root);
      }
      var m := Move(p, a, !answered);
      MoveEdits(cache.actors, 0, s, m);
      RunsThen(cache.actors, Begin(src, before), ms, s, m);
      var code := NO_CODE;
      if a == Finish {
        var ok;
        code, ok := cache.Get(Mover(root, p, a).src.to, !answered);
      }
      root := Act(root, p, a, code);
      ms := ms + [m];
      assert System(root, cache.Abs()) == Next(cache.actors, s, m);
    }
    end := System(root, cache.Abs());
    var answered: bool := *;
    down := !answered;
    var code, ok := cache.Get(src.to, !answered);
    r := Built(root, code);
    ConversionEdits(cache.actors, src, before, ms, end, down);
  }
}

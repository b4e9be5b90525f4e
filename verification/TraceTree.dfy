/** The concurrent conversion of one execution trace (types/message.go, LotusExecutionTraceConvert)
    together with the locked actor-code cache it reads through (synchain/sync.go, getCode).

    Every call of the recursive function starts one goroutine per sub-call, each goroutine either
    returns at once because the context is done or converts its sub-call and appends the result to
    its parent's list under a lock, and the parent builds its own node once all of them are done.
    The goroutines form a tree of tasks; a step of the machine advances one of them. */
module TraceTree {
  import opened Prelude

  type Address = string
  type Code = string

  /** The zero `cid.Cid` that `getCode` returns beside an error. */
  const NO_CODE: Code := ""

  /** What the chain knows: the code of an actor, or no such actor. */
  type Actors = Address -> Option<Code>

  /** A node of the source trace: the callee, everything else the node carries, and its sub-calls. */
  datatype Call = Call(to: Address, payload: string, subcalls: seq<Call>)

  /** A converted node. Its fields are a deterministic function of the payload and the actor code,
      so the node keeps that pair. */
  datatype Converted = Converted(payload: string, code: Code, subcalls: seq<Converted>)

  /** A converted tree with the order of children forgotten at every node. */
  datatype Shape = Shape(payload: string, code: Code, kids: multiset<Shape>)

  function CodeOf(actors: Actors, a: Address): Code {
    match actors(a)
    case Some(c) => c
    case None => NO_CODE
  }

  // ---------- The sequential meaning of a conversion ----------

  function Convert(actors: Actors, c: Call): Converted {
    Converted(c.payload, CodeOf(actors, c.to), ConvertAll(actors, c.subcalls))
  }

  function ConvertAll(actors: Actors, cs: seq<Call>): seq<Converted> {
    if cs == [] then [] else [Convert(actors, cs[0])] + ConvertAll(actors, cs[1..])
  }

  function ShapeOf(c: Converted): Shape {
    Shape(c.payload, c.code, ShapesOf(c.subcalls))
  }

  function ShapesOf(cs: seq<Converted>): multiset<Shape> {
    if cs == [] then multiset{} else multiset{ShapeOf(cs[0])} + ShapesOf(cs[1..])
  }

  function Nodes(c: Call): nat {
    1 + NodesAll(c.subcalls)
  }

  function NodesAll(cs: seq<Call>): nat {
    if cs == [] then 0 else Nodes(cs[0]) + NodesAll(cs[1..])
  }

  /** The weight of a tree: one for each node, and `w` more for each node with an actor code. */
  function ConvertedWeight(w: nat, c: Converted): nat {
    NodeWeight(w, c.code) + ConvertedWeights(w, c.subcalls)
  }

  function ConvertedWeights(w: nat, cs: seq<Converted>): nat {
    if cs == [] then 0 else ConvertedWeight(w, cs[0]) + ConvertedWeights(w, cs[1..])
  }

  function NodeWeight(w: nat, code: Code): nat {
    1 + if code == NO_CODE then 0 else w
  }

  function ConvertedNodes(c: Converted): nat {
    ConvertedWeight(0, c)
  }

  // ---------- The goroutines ----------

  /** A goroutine that has not looked at its context yet, or one that is inside the conversion of
      `src` with some children still `live` and the results `done` appended so far. */
  datatype Task = Waiting(src: Call) | Running(src: Call, live: seq<Task>, done: seq<Converted>)

  datatype Action = Start | Cancel | Finish

  function Spawn(cs: seq<Call>): (ts: seq<Task>)
    ensures |ts| == |cs|
  {
    if cs == [] then [] else [Waiting(cs[0])] + Spawn(cs[1..])
  }

  function Enter(src: Call): Task {
    Running(src, Spawn(src.subcalls), [])
  }

  /** The way from the root to the parent of the goroutine that moves, and its index there. */
  datatype Path = Child(i: nat) | Below(i: nat, rest: Path)

  predicate CanHere(live: seq<Task>, i: nat, a: Action) {
    i < |live| && if a == Finish then live[i].Running? && live[i].live == [] else live[i].Waiting?
  }

  predicate Can(t: Task, p: Path, a: Action) {
    t.Running? &&
    match p
    case Child(i) => CanHere(t.live, i, a)
    case Below(i, rest) => i < |t.live| && Can(t.live[i], rest, a)
  }

  /** The goroutine that moves. */
  function Mover(t: Task, p: Path, a: Action): Task
    requires Can(t, p, a)
  {
    match p
    case Child(i) => t.live[i]
    case Below(i, rest) => Mover(t.live[i], rest, a)
  }

  function Without<T>(s: seq<T>, i: nat): seq<T>
    requires i < |s|
  {
    s[..i] + s[i + 1..]
  }

  /** What a goroutine appends to its parent's list; `code` is what `getCode` returned to it. */
  function Built(t: Task, code: Code): Converted
    requires t.Running?
  {
    Converted(t.src.payload, code, t.done)
  }

  function ActHere(t: Task, i: nat, a: Action, code: Code): Task
    requires t.Running? && CanHere(t.live, i, a)
  {
    match a
    case Start => Running(t.src, t.live[i := Enter(t.live[i].src)], t.done)
    case Cancel => Running(t.src, Without(t.live, i), t.done)
    case Finish => Running(t.src, Without(t.live, i), t.done + [Built(t.live[i], code)])
  }

  /** The tree of goroutines after one step. */
  function Act(t: Task, p: Path, a: Action, code: Code): (t': Task)
    requires Can(t, p, a)
    ensures t'.Running? && t'.src == t.src
  {
    match p
    case Child(i) => ActHere(t, i, a, code)
    case Below(i, rest) => Running(t.src, t.live[i := Act(t.live[i], rest, a, code)], t.done)
  }

  // ---------- What a tree of goroutines is going to produce ----------

  function Goal(actors: Actors, t: Task): Shape {
    match t
    case Waiting(src) => ShapeOf(Convert(actors, src))
    case Running(src, live, done) =>
      Shape(src.payload, CodeOf(actors, src.to), ShapesOf(done) + Goals(actors, live))
  }

  function Goals(actors: Actors, ts: seq<Task>): multiset<Shape> {
    if ts == [] then multiset{} else multiset{Goal(actors, ts[0])} + Goals(actors, ts[1..])
  }

  function Weight(actors: Actors, w: nat, t: Task): nat {
    match t
    case Waiting(src) => ConvertedWeight(w, Convert(actors, src))
    case Running(src, live, done) =>
      NodeWeight(w, CodeOf(actors, src.to)) + ConvertedWeights(w, done) + Weights(actors, w, live)
  }

  function Weights(actors: Actors, w: nat, ts: seq<Task>): nat {
    if ts == [] then 0 else Weight(actors, w, ts[0]) + Weights(actors, w, ts[1..])
  }

  /** Steps still to be taken below `t`: two for a node that has not started, one for a running one. */
  function Work(t: Task): nat {
    match t
    case Waiting(src) => 2 * Nodes(src)
    case Running(src, live, done) => 1 + Works(live)
  }

  function Works(ts: seq<Task>): nat {
    if ts == [] then 0 else Work(ts[0]) + Works(ts[1..])
  }

  lemma {:induction false} ShapesAppend(w: nat, a: seq<Converted>, b: seq<Converted>)
    ensures ShapesOf(a + b) == ShapesOf(a) + ShapesOf(b)
    ensures ConvertedWeights(w, a + b) == ConvertedWeights(w, a) + ConvertedWeights(w, b)
  {
    if a == [] {
      assert a + b == b;
    } else {
      assert (a + b)[1..] == a[1..] + b;
      ShapesAppend(w, a[1..], b);
    }
  }

  lemma {:induction false} GoalsAppend(actors: Actors, w: nat, a: seq<Task>, b: seq<Task>)
    ensures Goals(actors, a + b) == Goals(actors, a) + Goals(actors, b)
    ensures Weights(actors, w, a + b) == Weights(actors, w, a) + Weights(actors, w, b)
    ensures Works(a + b) == Works(a) + Works(b)
  {
    if a == [] {
      assert a + b == b;
    } else {
      assert (a + b)[1..] == a[1..] + b;
      GoalsAppend(actors, w, a[1..], b);
    }
  }

  /** Singling out child `i` of a list of goroutines. */
  lemma {:induction false} GoalsSplit(actors: Actors, w: nat, ts: seq<Task>, i: nat)
    requires i < |ts|
    ensures Goals(actors, ts) == Goals(actors, Without(ts, i)) + multiset{Goal(actors, ts[i])}
    ensures Weights(actors, w, ts) == Weights(actors, w, Without(ts, i)) + Weight(actors, w, ts[i])
    ensures Works(ts) == Works(Without(ts, i)) + Work(ts[i])
  {
    assert ts == ts[..i] + ts[i..];
    GoalsAppend(actors, w, ts[..i], ts[i..]);
    GoalsAppend(actors, w, ts[..i], ts[i + 1..]);
    assert ts[i..][0] == ts[i] && ts[i..][1..] == ts[i + 1..];
  }

  /** A goroutine that enters its conversion promises what it promised while waiting. */
  lemma {:induction false} SpawnGoals(actors: Actors, w: nat, cs: seq<Call>)
    ensures Goals(actors, Spawn(cs)) == ShapesOf(ConvertAll(actors, cs))
    ensures Weights(actors, w, Spawn(cs)) == ConvertedWeights(w, ConvertAll(actors, cs))
    ensures Works(Spawn(cs)) == 2 * NodesAll(cs)
  {
    if cs == [] {
    } else {
      SpawnGoals(actors, w, cs[1..]);
      assert Spawn(cs)[0] == Waiting(cs[0]) && Spawn(cs)[1..] == Spawn(cs[1..]);
      assert ConvertAll(actors, cs)[0] == Convert(actors, cs[0]);
      assert ConvertAll(actors, cs)[1..] == ConvertAll(actors, cs[1..]);
    }
  }

  lemma {:induction false} GoalsReplace(actors: Actors, w: nat, ts: seq<Task>, i: nat, t: Task)
    requires i < |ts|
    ensures Goals(actors, ts[i := t]) == Goals(actors, ts) - multiset{Goal(actors, ts[i])} + multiset{Goal(actors, t)}
    ensures Goal(actors, ts[i]) in Goals(actors, ts)
    ensures Goal(actors, t) == Goal(actors, ts[i]) ==> Goals(actors, ts[i := t]) == Goals(actors, ts)
    ensures Weights(actors, w, ts[i := t]) == Weights(actors, w, ts) - Weight(actors, w, ts[i]) + Weight(actors, w, t)
    ensures Works(ts[i := t]) == Works(ts) - Work(ts[i]) + Work(t)
  {
    GoalsSplit(actors, w, ts, i);
    GoalsSplit(actors, w, ts[i := t], i);
    assert Without(ts[i := t], i) == Without(ts, i);
  }

  /** A child that keeps its promise keeps its parent's. */
  lemma {:induction false} ChildKeepsGoal(actors: Actors, w: nat, t: Task, i: nat, child: Task)
    requires t.Running? && i < |t.live|
    requires Goal(actors, child) == Goal(actors, t.live[i])
    requires Weight(actors, w, child) == Weight(actors, w, t.live[i]) && Work(child) == Work(t.live[i]) - 1
    ensures var t' := Running(t.src, t.live[i := child], t.done);
            && Goal(actors, t') == Goal(actors, t) && Weight(actors, w, t') == Weight(actors, w, t)
            && Work(t') == Work(t) - 1
  {
    var live' := t.live[i := child];
    GoalsReplace(actors, w, t.live, i, child);
    assert Goals(actors, live') == Goals(actors, t.live);
    assert Weights(actors, w, live') == Weights(actors, w, t.live) && Works(live') == Works(t.live) - 1;
  }

  lemma {:induction false} EnterKeepsGoal(actors: Actors, w: nat, src: Call)
    ensures Goal(actors, Enter(src)) == Goal(actors, Waiting(src))
    ensures Weight(actors, w, Enter(src)) == Weight(actors, w, Waiting(src))
    ensures Work(Enter(src)) == Work(Waiting(src)) - 1
  {
    SpawnGoals(actors, w, src.subcalls);
  }

  lemma {:induction false} BuiltKeepsGoal(actors: Actors, w: nat, t: Task)
    requires t.Running? && t.live == []
    ensures ShapeOf(Built(t, CodeOf(actors, t.src.to))) == Goal(actors, t)
    ensures ConvertedWeight(w, Built(t, CodeOf(actors, t.src.to))) == Weight(actors, w, t) && Work(t) == 1
  {
  }

  lemma {:induction false} AppendResult(w: nat, done: seq<Converted>, r: Converted)
    ensures ShapesOf(done + [r]) == ShapesOf(done) + multiset{ShapeOf(r)}
    ensures ConvertedWeights(w, done + [r]) == ConvertedWeights(w, done) + ConvertedWeight(w, r)
  {
    ShapesAppend(w, done, [r]);
    assert [r][1..] == [];
  }

  lemma {:induction false} StartKeepsGoal(actors: Actors, w: nat, t: Task, i: nat, code: Code)
    requires t.Running? && CanHere(t.live, i, Start)
    ensures Goal(actors, ActHere(t, i, Start, code)) == Goal(actors, t)
    ensures Weight(actors, w, ActHere(t, i, Start, code)) == Weight(actors, w, t)
    ensures Work(ActHere(t, i, Start, code)) == Work(t) - 1
  {
    EnterKeepsGoal(actors, w, t.live[i].src);
    ChildKeepsGoal(actors, w, t, i, Enter(t.live[i].src));
  }

  /** A result of the promised shape takes the place of its goroutine. */
  lemma {:induction false} ResultKeepsGoal(actors: Actors, w: nat, t: Task, i: nat, r: Converted)
    requires t.Running? && i < |t.live| && ShapeOf(r) == Goal(actors, t.live[i])
    ensures var t' := Running(t.src, Without(t.live, i), t.done + [r]);
            && Goal(actors, t') == Goal(actors, t)
            && Weight(actors, w, t') == Weight(actors, w, t) - Weight(actors, w, t.live[i]) + ConvertedWeight(w, r)
            && Work(t') == Work(t) - Work(t.live[i])
  {
    var g := Goal(actors, t.live[i]);
    AppendResult(w, t.done, r);
    GoalsSplit(actors, w, t.live, i);
    assert ShapesOf(t.done + [r]) + Goals(actors, Without(t.live, i)) == ShapesOf(t.done) + Goals(actors, t.live);
  }

  lemma {:induction false} FinishKeepsGoal(actors: Actors, w: nat, t: Task, i: nat, code: Code)
    requires t.Running? && CanHere(t.live, i, Finish) && code == CodeOf(actors, t.live[i].src.to)
    ensures Goal(actors, ActHere(t, i, Finish, code)) == Goal(actors, t)
    ensures Weight(actors, w, ActHere(t, i, Finish, code)) == Weight(actors, w, t)
    ensures Work(ActHere(t, i, Finish, code)) == Work(t) - 1
  {
    BuiltKeepsGoal(actors, w, t.live[i]);
    ResultKeepsGoal(actors, w, t, i, Built(t.live[i], code));
  }

  /** No step that is neither a cancellation nor a failed lookup changes the promised tree, and each
      of them uses up one unit of work. */
  lemma {:induction false} StepKeepsGoal(actors: Actors, w: nat, t: Task, p: Path, a: Action, code: Code)
    requires Can(t, p, a) && a != Cancel
    requires a == Finish ==> code == CodeOf(actors, Mover(t, p, a).src.to)
    ensures Goal(actors, Act(t, p, a, code)) == Goal(actors, t)
    ensures Weight(actors, w, Act(t, p, a, code)) == Weight(actors, w, t)
    ensures Work(Act(t, p, a, code)) == Work(t) - 1
    decreases p
  {
    match p
    case Child(i) =>
      if a == Start {
        StartKeepsGoal(actors, w, t, i, code);
      } else {
        FinishKeepsGoal(actors, w, t, i, code);
      }
    case Below(i, rest) =>
      StepKeepsGoal(actors, w, t.live[i], rest, a, code);
      ChildKeepsGoal(actors, w, t, i, Act(t.live[i], rest, a, code));
  }

  // ---------- What a cancellation or a failed lookup does to the promise ----------

  datatype Edit = Prune | Blank

  /** `m'` is `m` with one whole sub-tree, somewhere below the root, taken out. */
  ghost predicate PrunedOnce(m': Shape, m: Shape)
    decreases m
  {
    m'.payload == m.payload && m'.code == m.code &&
    exists k :: k in m.kids &&
      (m'.kids == m.kids - multiset{k} ||
       exists k' :: PrunedOnce(k', k) && m'.kids == m.kids - multiset{k} + multiset{k'})
  }

  /** `m'` is `m` with the actor code of one node, the root or any other, replaced by the zero code. */
  ghost predicate BlankedOnce(m': Shape, m: Shape)
    decreases m
  {
    m'.payload == m.payload &&
    ((m.code != NO_CODE && m'.code == NO_CODE && m'.kids == m.kids) ||
     (m'.code == m.code &&
      exists k :: k in m.kids &&
        exists k' :: BlankedOnce(k', k) && m'.kids == m.kids - multiset{k} + multiset{k'}))
  }

  ghost predicate EditedOnce(e: Edit, m': Shape, m: Shape) {
    if e.Prune? then PrunedOnce(m', m) else BlankedOnce(m', m)
  }

  ghost function EditRelation(): (Edit, Shape, Shape) -> bool {
    (e, m', m) => EditedOnce(e, m', m)
  }

  /** The edits lead from `m` to `m'`, one after another. */
  ghost predicate Edited(m: Shape, edits: seq<Edit>, m': Shape) {
    Chain(EditRelation(), m, edits, m')
  }

  lemma {:induction false} PrunedAtRoot(m': Shape, m: Shape, k: Shape)
    requires m'.payload == m.payload && m'.code == m.code && k in m.kids && m'.kids == m.kids - multiset{k}
    ensures PrunedOnce(m', m)
  {
  }

  lemma {:induction false} PrunedBelow(m': Shape, m: Shape, k: Shape, k': Shape)
    requires m'.payload == m.payload && m'.code == m.code && k in m.kids && PrunedOnce(k', k)
    requires m'.kids == m.kids - multiset{k} + multiset{k'}
    ensures PrunedOnce(m', m)
  {
  }

  lemma {:induction false} BlankedBelow(m': Shape, m: Shape, k: Shape, k': Shape)
    requires m'.payload == m.payload && m'.code == m.code && k in m.kids && BlankedOnce(k', k)
    requires m'.kids == m.kids - multiset{k} + multiset{k'}
    ensures BlankedOnce(m', m)
  {
  }

  lemma {:induction false} SwapKid(done: multiset<Shape>, live: multiset<Shape>, k: Shape, k': Shape)
    requires k in live
    ensures done + (live - multiset{k} + multiset{k'}) == done + live - multiset{k} + multiset{k'}
    ensures done + (live - multiset{k}) == done + live - multiset{k}
  {
  }

  lemma {:induction false} MoveKid(done: multiset<Shape>, live: multiset<Shape>, k: Shape, k': Shape)
    requires k in live
    ensures (done + multiset{k'}) + (live - multiset{k}) == done + live - multiset{k} + multiset{k'}
  {
  }

  lemma {:induction false} WithoutGoal(actors: Actors, w: nat, t: Task, i: nat)
    requires t.Running? && i < |t.live|
    ensures var t', g := Running(t.src, Without(t.live, i), t.done), Goal(actors, t.live[i]);
            && Goal(actors, t').payload == Goal(actors, t).payload && Goal(actors, t').code == Goal(actors, t).code
            && g in Goal(actors, t).kids && Goal(actors, t').kids == Goal(actors, t).kids - multiset{g}
            && Weight(actors, w, t') == Weight(actors, w, t) - Weight(actors, w, t.live[i])
            && Work(t') == Work(t) - Work(t.live[i])
  {
    var g := Goal(actors, t.live[i]);
    GoalsSplit(actors, w, t.live, i);
    SwapKid(ShapesOf(t.done), Goals(actors, t.live), g, g);
  }

  lemma {:induction false} CancelHere(actors: Actors, w: nat, t: Task, i: nat, code: Code)
    requires t.Running? && CanHere(t.live, i, Cancel)
    ensures PrunedOnce(Goal(actors, ActHere(t, i, Cancel, code)), Goal(actors, t))
    ensures Weight(actors, w, ActHere(t, i, Cancel, code)) < Weight(actors, w, t)
    ensures Work(ActHere(t, i, Cancel, code)) < Work(t)
  {
    WithoutGoal(actors, w, t, i);
    PrunedAtRoot(Goal(actors, ActHere(t, i, Cancel, code)), Goal(actors, t), Goal(actors, t.live[i]));
  }

  /** A child's new promise takes the place of its old one in its parent's. */
  lemma {:induction false} ChildChangesGoal(actors: Actors, w: nat, t: Task, i: nat, child: Task)
    requires t.Running? && i < |t.live|
    ensures var t', g, g' := Running(t.src, t.live[i := child], t.done), Goal(actors, t.live[i]), Goal(actors, child);
            && Goal(actors, t').payload == Goal(actors, t).payload && Goal(actors, t').code == Goal(actors, t).code
            && g in Goal(actors, t).kids && Goal(actors, t').kids == Goal(actors, t).kids - multiset{g} + multiset{g'}
            && Weight(actors, w, t') == Weight(actors, w, t) - Weight(actors, w, t.live[i]) + Weight(actors, w, child)
            && Work(t') == Work(t) - Work(t.live[i]) + Work(child)
  {
    GoalsReplace(actors, w, t.live, i, child);
    SwapKid(ShapesOf(t.done), Goals(actors, t.live), Goal(actors, t.live[i]), Goal(actors, child));
  }

  /** A cancelled goroutine takes exactly its own sub-tree out of the promise. */
  lemma {:induction false} CancelPrunes(actors: Actors, w: nat, t: Task, p: Path, code: Code)
    requires Can(t, p, Cancel)
    ensures PrunedOnce(Goal(actors, Act(t, p, Cancel, code)), Goal(actors, t))
    ensures Weight(actors, w, Act(t, p, Cancel, code)) < Weight(actors, w, t)
    ensures Work(Act(t, p, Cancel, code)) < Work(t)
    decreases p
  {
    match p
    case Child(i) => CancelHere(actors, w, t, i, code);
    case Below(i, rest) =>
      var child' := Act(t.live[i], rest, Cancel, code);
      CancelPrunes(actors, w, t.live[i], rest, code);
      ChildChangesGoal(actors, w, t, i, child');
      PrunedBelow(Goal(actors, Act(t, p, Cancel, code)), Goal(actors, t), Goal(actors, t.live[i]),
                  Goal(actors, child'));
  }

  lemma {:induction false} BuiltBlank(actors: Actors, w: nat, t: Task)
    requires t.Running? && t.live == [] && CodeOf(actors, t.src.to) != NO_CODE
    ensures BlankedOnce(ShapeOf(Built(t, NO_CODE)), Goal(actors, t))
    ensures ConvertedWeight(w, Built(t, NO_CODE)) == Weight(actors, w, t) - w && Work(t) == 1
  {
  }

  lemma {:induction false} FinishBlanks(actors: Actors, w: nat, t: Task, i: nat)
    requires t.Running? && CanHere(t.live, i, Finish) && CodeOf(actors, t.live[i].src.to) != NO_CODE
    ensures BlankedOnce(Goal(actors, ActHere(t, i, Finish, NO_CODE)), Goal(actors, t))
    ensures Weight(actors, w, ActHere(t, i, Finish, NO_CODE)) == Weight(actors, w, t) - w
    ensures Work(ActHere(t, i, Finish, NO_CODE)) == Work(t) - 1
  {
    var r := Built(t.live[i], NO_CODE);
    var g := Goal(actors, t.live[i]);
    BuiltBlank(actors, w, t.live[i]);
    AppendResult(w, t.done, r);
    GoalsSplit(actors, w, t.live, i);
    MoveKid(ShapesOf(t.done), Goals(actors, t.live), g, ShapeOf(r));
    BlankedBelow(Goal(actors, ActHere(t, i, Finish, NO_CODE)), Goal(actors, t), g, ShapeOf(r));
  }

  /** A goroutine whose lookup failed replaces exactly its own node's code in the promise. */
  lemma {:induction false} FailureBlanks(actors: Actors, w: nat, t: Task, p: Path)
    requires Can(t, p, Finish) && CodeOf(actors, Mover(t, p, Finish).src.to) != NO_CODE
    ensures BlankedOnce(Goal(actors, Act(t, p, Finish, NO_CODE)), Goal(actors, t))
    ensures Weight(actors, w, Act(t, p, Finish, NO_CODE)) == Weight(actors, w, t) - w
    ensures Work(Act(t, p, Finish, NO_CODE)) == Work(t) - 1
    decreases p
  {
    match p
    case Child(i) => FinishBlanks(actors, w, t, i);
    case Below(i, rest) =>
      var child' := Act(t.live[i], rest, Finish, NO_CODE);
      FailureBlanks(actors, w, t.live[i], rest);
      ChildChangesGoal(actors, w, t, i, child');
      BlankedBelow(Goal(actors, Act(t, p, Finish, NO_CODE)), Goal(actors, t), Goal(actors, t.live[i]),
                   Goal(actors, child'));
  }

  // ---------- The locked memo cache ----------

  /** `codeCache` and the addresses of the lookups that succeeded, oldest first. */
  datatype Cache = Cache(codes: map<Address, Code>, lookups: seq<Address>)

  const EMPTY_CACHE := Cache(map[], [])

  /** `getCode` under its lock: `down` says that the node does not answer this lookup. */
  function GetCode(actors: Actors, cache: Cache, a: Address, down: bool): (r: (Code, Cache)) {
    if a in cache.codes then (cache.codes[a], cache)
    else if down || actors(a).None? then (NO_CODE, cache)
    else (actors(a).value, Cache(cache.codes[a := actors(a).value], cache.lookups + [a]))
  }

  /** What the cache promises: it agrees with the chain, it holds exactly the addresses looked up
      with success, and no address was looked up with success twice. */
  ghost predicate CacheOk(actors: Actors, cache: Cache) {
    && (forall a :: a in cache.codes ==> actors(a) == Some(cache.codes[a]))
    && (forall a :: a in cache.codes <==> a in cache.lookups)
    && Distinct(cache.lookups)
  }

  lemma {:induction false} GetCodeKeepsCache(actors: Actors, cache: Cache, a: Address, down: bool)
    requires CacheOk(actors, cache)
    ensures CacheOk(actors, GetCode(actors, cache, a, down).1)
    ensures GetCode(actors, cache, a, down).0 == CodeOf(actors, a)
            || (down && GetCode(actors, cache, a, down) == (NO_CODE, cache))
    ensures !down ==> GetCode(actors, cache, a, down).0 == CodeOf(actors, a)
  {
  }

  /** The closure `getCode` with the map it fills. */
  class CodeCache {
    const actors: Actors
    var codes: map<Address, Code>
    /** History: the lookups that succeeded. */
    var lookups: seq<Address>

    function Abs(): Cache
      reads this
    {
      Cache(codes, lookups)
    }

    constructor (actors: Actors)
      ensures this.actors == actors && Abs() == EMPTY_CACHE && CacheOk(actors, Abs())
    {
      this.actors := actors;
      codes := map[];
      lookups := [];
    }

    method Get(a: Address, down: bool) returns (code: Code, ok: bool)
      requires CacheOk(actors, Abs())
      modifies this
      ensures CacheOk(actors, Abs())
      ensures (code, Abs()) == GetCode(actors, old(Abs()), a, down)
      ensures ok <==> a in codes
      ensures ok ==> actors(a) == Some(code)
      ensures !ok ==> code == NO_CODE && Abs() == old(Abs())
    {
      GetCodeKeepsCache(actors, Abs(), a, down);
      if a in codes {
        return codes[a], true;
      }
      if down || actors(a).None? {
        return NO_CODE, false;
      }
      code := actors(a).value;
      codes := codes[a := code];
      lookups := lookups + [a];
      ok := true;
    }
  }
}

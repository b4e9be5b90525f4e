/** What one worker of the chain synchroniser writes: the messages of a tipset, then its block record
    (synchain/sync.go). The chain itself is fixed and only looked at. */
module EpochTrace {
  import opened Prelude
  import opened TraceTree
  import opened TraceRuns

  /** One element of `invocRes.Trace`. A nil element is skipped and a conversion that panics is
      recovered; neither leaves a document. */
  datatype Invocation = NilResult | Panicking | Invocation(to: Address, payload: string, trace: Call)

  /** A document of the messages collection, read up to the order of sub-calls at each node. */
  datatype Doc = Doc(height: int, payload: string, code: Code, trace: Shape)

  /** The chain: the height of the tipset in force at a height, and by tipset height the traces that
      computing its state yields and the actors its state knows. */
  datatype Chain = Chain(tip: int -> int, trace: int -> seq<Invocation>, actors: int -> Actors)

  /** Asking for the tipset at a null round answers an earlier one, and a tipset answers for itself. */
  ghost predicate ValidChain(chain: Chain) {
    forall h :: chain.tip(h) <= h && chain.tip(chain.tip(h)) == chain.tip(h)
  }

  function DocOf(chain: Chain, t: int, inv: Invocation): Option<Doc> {
    match inv
    case NilResult => None
    case Panicking => None
    case Invocation(to, payload, trace) =>
      Some(Doc(t, payload, CodeOf(chain.actors(t), to), ShapeOf(Convert(chain.actors(t), trace))))
  }

  // ---------- One goroutine ----------

  /** What became of a goroutine: it found its context done, or it converted its invocation, with the answer to
      its first lookup, the run of its nested goroutines, and the answer to the lookup of the outermost call. */
  datatype Flight = ContextDone | Flight(codeDown: bool, ms: seq<Move>, end: System, rootDown: bool)

  function FirstLookup(chain: Chain, t: int, to: Address, down: bool): (Code, Cache) {
    GetCode(chain.actors(t), EMPTY_CACHE, to, down)
  }

  predicate ValidFlight(chain: Chain, t: int, inv: Invocation, f: Flight) {
    inv.Invocation? && f.Flight? ==>
      && Runs(chain.actors(t), Begin(inv.trace, FirstLookup(chain, t, inv.to, f.codeDown).1), f.ms, f.end)
      && Joined(f.end)
  }

  /** The document that a goroutine appends. */
  function DocBy(chain: Chain, t: int, inv: Invocation, f: Flight): Option<Doc>
    requires ValidFlight(chain, t, inv, f)
  {
    if !inv.Invocation? || f.ContextDone? then None
    else
      Some(Doc(t, inv.payload, FirstLookup(chain, t, inv.to, f.codeDown).0,
               ShapeOf(ResultOf(chain.actors(t), f.end, f.rootDown))))
  }

  function FlightEdits(chain: Chain, t: int, inv: Invocation, f: Flight): seq<Edit>
    requires inv.Invocation? && f.Flight?
  {
    AllEdits(chain.actors(t), inv.trace, FirstLookup(chain, t, inv.to, f.codeDown).1, f.ms, f.end, f.rootDown)
  }

  /** No context found done and no lookup failed, neither here nor in a nested goroutine. */
  predicate Faultless(chain: Chain, t: int, inv: Invocation, f: Flight) {
    inv.Invocation? ==>
      && f.Flight?
      && !LookupFails(chain.actors(t), EMPTY_CACHE, inv.to, f.codeDown)
      && FlightEdits(chain, t, inv, f) == []
  }

  /** How far a document is from the one it should be: its own code may be blank, and its trace has one sub-tree
      less or one code less for each fault. */
  lemma {:induction false} DocByEdits(chain: Chain, t: int, inv: Invocation, f: Flight)
    requires ValidFlight(chain, t, inv, f) && inv.Invocation? && f.Flight?
    ensures var doc, full := DocBy(chain, t, inv, f).value, DocOf(chain, t, inv).value;
            && doc == full.(code := doc.code, trace := doc.trace)
            && doc.code
            == (if LookupFails(chain.actors(t), EMPTY_CACHE, inv.to, f.codeDown) then NO_CODE else full.code)
            && Edited(full.trace, FlightEdits(chain, t, inv, f), doc.trace)
  {
    AnswerOf(chain.actors(t), EMPTY_CACHE, inv.to, f.codeDown);
    ConversionEdits(chain.actors(t), inv.trace, FirstLookup(chain, t, inv.to, f.codeDown).1, f.ms, f.end, f.rootDown);
  }

  /** A goroutine appends the document it should exactly when nothing went wrong in it. */
  lemma {:induction false} DocByIff(chain: Chain, t: int, inv: Invocation, f: Flight)
    requires ValidFlight(chain, t, inv, f)
    ensures DocBy(chain, t, inv, f) == DocOf(chain, t, inv) <==> Faultless(chain, t, inv, f)
  {
    if inv.Invocation? && f.Flight? {
      AnswerOf(chain.actors(t), EMPTY_CACHE, inv.to, f.codeDown);
      ConversionIsConfluentIff(chain.actors(t), inv.trace, FirstLookup(chain, t, inv.to, f.codeDown).1,
                               f.ms, f.end, f.rootDown);
    }
  }

  /** One goroutine, on a cache of its own. */
  method RunGoroutine(chain: Chain, t: int, inv: Invocation) returns (d: Option<Doc>, f: Flight)
    ensures ValidFlight(chain, t, inv, f) && d == DocBy(chain, t, inv, f)
    ensures d.Some? <==> inv.Invocation? && f.Flight?
    ensures d.Some? ==>
              && d.value.height == t && d.value.payload == inv.payload
              && (d.value.code == CodeOf(chain.actors(t), inv.to) || (f.codeDown && d.value.code == NO_CODE))
              && Edited(ShapeOf(Convert(chain.actors(t), inv.trace)), FlightEdits(chain, t, inv, f), d.value.trace)
  {
    d, f := None, ContextDone;
    if inv.NilResult? {
      return;
    }
    var contextDone: bool := *;
    if contextDone || inv.Panicking? {
      return;
    }
    var cache := new CodeCache(chain.actors(t));
    var answered: bool := *;
    var code, ok := cache.Get(inv.to, !answered);
    var trace, ms, end, down := ConvertTrace(cache, inv.trace);
    d := Some(Doc(t, inv.payload, code, ShapeOf(trace)));
    f := Flight(!answered, ms, end, down);
    AnswerOf(chain.actors(t), EMPTY_CACHE, inv.to, !answered);
    DocByEdits(chain, t, inv, f);
  }

  // ---------- All goroutines ----------

  function One(d: Option<Doc>): multiset<Doc> {
    if d.Some? then multiset{d.value} else multiset{}
  }

  /** What the conversions of a tipset's invocations come to, invocation by invocation. */
  function Results(chain: Chain, t: int): seq<Option<Doc>> {
    seq(|chain.trace(t)|, i requires 0 <= i < |chain.trace(t)| => DocOf(chain, t, chain.trace(t)[i]))
  }

  /** The documents among the results whose index is in `picked`. */
  function DocsAt(rs: seq<Option<Doc>>, picked: set<int>): multiset<Doc> {
    if rs == [] then multiset{}
    else
      var n := |rs| - 1;
      DocsAt(rs[..n], picked) + if n in picked then One(rs[n]) else multiset{}
  }

  function IndicesBelow(n: nat): (s: set<int>)
    ensures forall i :: i in s <==> 0 <= i < n
  {
    if n == 0 then {} else IndicesBelow(n - 1) + {n - 1}
  }

  function Indices(chain: Chain, t: int): set<int> {
    IndicesBelow(|chain.trace(t)|)
  }

  /** Everything a complete worker inserts for the tipset at height `t`. */
  function Expected(chain: Chain, t: int): multiset<Doc> {
    DocsAt(Results(chain, t), Indices(chain, t))
  }

  predicate ValidFlights(chain: Chain, t: int, fs: seq<Flight>) {
    |fs| == |chain.trace(t)| && forall i :: 0 <= i < |fs| ==> ValidFlight(chain, t, chain.trace(t)[i], fs[i])
  }

  predicate AllFaultless(chain: Chain, t: int, fs: seq<Flight>) {
    |fs| == |chain.trace(t)| && forall i :: 0 <= i < |fs| ==> Faultless(chain, t, chain.trace(t)[i], fs[i])
  }

  function Yielded(chain: Chain, t: int, fs: seq<Flight>): seq<Option<Doc>>
    requires ValidFlights(chain, t, fs)
  {
    seq(|fs|, i requires 0 <= i < |fs| => DocBy(chain, t, chain.trace(t)[i], fs[i]))
  }

  /** What the goroutines of a tipset append between them. */
  function Collected(chain: Chain, t: int, fs: seq<Flight>): multiset<Doc>
    requires ValidFlights(chain, t, fs)
  {
    DocsAt(Yielded(chain, t, fs), Indices(chain, t))
  }

  lemma {:induction false} FaultlessCollects(chain: Chain, t: int, fs: seq<Flight>)
    requires ValidFlights(chain, t, fs) && AllFaultless(chain, t, fs)
    ensures Collected(chain, t, fs) == Expected(chain, t)
  {
    forall i | 0 <= i < |fs|
      ensures DocBy(chain, t, chain.trace(t)[i], fs[i]) == DocOf(chain, t, chain.trace(t)[i])
    {
      DocByIff(chain, t, chain.trace(t)[i], fs[i]);
    }
    assert Yielded(chain, t, fs) == Results(chain, t);
  }

  // ---------- What a worker leaves in the database ----------

  /** What became of the message part of a worker: StateCompute failed, or its goroutines ran, with these flights;
      then the documents were inserted, all of them if the insert succeeded and any part of them otherwise. */
  datatype TraceOutcome = ComputeFailed | Ran(fs: seq<Flight>, insertOk: bool, inserted: multiset<Doc>)

  /** A document of the blocks collection. The outcome of the worker that wrote it is history. */
  datatype Record = Record(height: int, outcome: TraceOutcome)

  function Inserted(o: TraceOutcome): multiset<Doc> {
    if o.ComputeFailed? then multiset{} else o.inserted
  }

  /** What can become of a worker for the tipset at height `t`. An insert of nothing is refused. */
  predicate Possible(chain: Chain, t: int, o: TraceOutcome) {
    o.Ran? ==>
      && ValidFlights(chain, t, o.fs)
      && var docs := Collected(chain, t, o.fs);
         if o.insertOk then o.inserted == docs != multiset{} else o.inserted <= docs
  }

  predicate PossibleRecords(chain: Chain, blocks: seq<Record>) {
    forall k :: 0 <= k < |blocks| ==> Possible(chain, blocks[k].height, blocks[k].outcome)
  }

  /** No call failed, no context was found done, and there was something to insert. */
  predicate Succeeded(chain: Chain, t: int, o: TraceOutcome) {
    o.Ran? && o.insertOk && AllFaultless(chain, t, o.fs)
  }

  lemma {:induction false} SuccessInsertsAll(chain: Chain, t: int, o: TraceOutcome)
    requires Possible(chain, t, o) && Succeeded(chain, t, o)
    ensures Inserted(o) == Expected(chain, t)
  {
    FaultlessCollects(chain, t, o.fs);
  }

  /** The documents that the workers of these records inserted, with multiplicity. */
  function RecordDocs(blocks: seq<Record>): multiset<Doc> {
    if blocks == [] then multiset{}
    else RecordDocs(blocks[..|blocks| - 1]) + Inserted(blocks[|blocks| - 1].outcome)
  }

  lemma {:induction false} RecordDocsAppend(blocks: seq<Record>, r: Record)
    ensures RecordDocs(blocks + [r]) == RecordDocs(blocks) + Inserted(r.outcome)
  {
    assert (blocks + [r])[..|blocks|] == blocks;
  }

  // ---------- The program ----------

  /** Counting in one more goroutine adds its document, if it has one. */
  lemma {:induction false} DocsAtAdd(rs: seq<Option<Doc>>, picked: set<int>, i: int)
    requires i !in picked && 0 <= i
    ensures DocsAt(rs, picked + {i}) == DocsAt(rs, picked) + if i < |rs| then One(rs[i]) else multiset{}
  {
    if rs == [] {
    } else {
      var n := |rs| - 1;
      DocsAtAdd(rs[..n], picked, i);
      var more := picked + {i};
      assert n != i ==> (n in more <==> n in picked);
      if i == n {
        assert DocsAt(rs, more) == DocsAt(rs[..n], more) + One(rs[n]);
        assert DocsAt(rs, picked) == DocsAt(rs[..n], picked);
      } else if n in picked {
        assert DocsAt(rs, more) == DocsAt(rs[..n], more) + One(rs[n]);
        assert DocsAt(rs, picked) == DocsAt(rs[..n], picked) + One(rs[n]);
      } else {
        assert DocsAt(rs, more) == DocsAt(rs[..n], more);
        assert DocsAt(rs, picked) == DocsAt(rs[..n], picked);
      }
    }
  }

  lemma {:induction false} DocsAtNone(rs: seq<Option<Doc>>)
    ensures DocsAt(rs, {}) == multiset{}
  {
    if rs == [] {
    } else {
      DocsAtNone(rs[..|rs| - 1]);
    }
  }

  lemma {:induction false} DocsAtAgree(rs: seq<Option<Doc>>, rs': seq<Option<Doc>>, picked: set<int>)
    requires |rs| == |rs'| && forall i :: 0 <= i < |rs| && i in picked ==> rs[i] == rs'[i]
    ensures DocsAt(rs, picked) == DocsAt(rs', picked)
  {
    if rs == [] {
    } else {
      DocsAtAgree(rs[..|rs| - 1], rs'[..|rs| - 1], picked);
    }
  }

  /** How often a document is among the results. */
  function Occurrences(rs: seq<Option<Doc>>, picked: set<int>, d: Doc): set<int> {
    set i | 0 <= i < |rs| && i in picked && rs[i] == Some(d)
  }

  lemma {:induction false} DocsAtCounts(rs: seq<Option<Doc>>, picked: set<int>, d: Doc)
    ensures DocsAt(rs, picked)[d] == |Occurrences(rs, picked, d)|
  {
    if rs == [] {
      assert Occurrences(rs, picked, d) == {};
    } else {
      var n := |rs| - 1;
      DocsAtCounts(rs[..n], picked, d);
      CountNext(Occurrences(rs[..n], picked, d), Occurrences(rs, picked, d), n, n in picked && rs[n] == Some(d));
    }
  }

  /** What a complete worker inserts, document by document: one for each invocation that converts to it. */
  lemma {:induction false} ExpectedCounts(chain: Chain, t: int, d: Doc)
    ensures Expected(chain, t)[d]
         == |set i | 0 <= i < |chain.trace(t)| && DocOf(chain, t, chain.trace(t)[i]) == Some(d)|
  {
    DocsAtCounts(Results(chain, t), Indices(chain, t), d);
    assert Occurrences(Results(chain, t), Indices(chain, t), d)
        == set i | 0 <= i < |chain.trace(t)| && DocOf(chain, t, chain.trace(t)[i]) == Some(d);
  }

  /** One more goroutine is done: its flight is now known, and its document counts. */
  lemma {:induction false} OneMoreDone(chain: Chain, t: int, fs: seq<Flight>, i: int, f: Flight, all: set<int>,
                                       pending: set<int>)
    requires ValidFlights(chain, t, fs) && 0 <= i < |fs| && ValidFlight(chain, t, chain.trace(t)[i], f)
    requires i in pending && pending <= all
    ensures ValidFlights(chain, t, fs[i := f])
    ensures DocsAt(Yielded(chain, t, fs[i := f]), all - (pending - {i}))
         == DocsAt(Yielded(chain, t, fs), all - pending) + One(DocBy(chain, t, chain.trace(t)[i], f))
  {
    var picked := all - pending;
    assert all - (pending - {i}) == picked + {i};
    var rs, rs' := Yielded(chain, t, fs), Yielded(chain, t, fs[i := f]);
    DocsAtAdd(rs', picked, i);
    DocsAtAgree(rs, rs', picked);
  }

  /** One goroutine's append, under the lock. */
  method TraceAppend(allTrace: seq<Doc>, doc: Option<Doc>) returns (longer: seq<Doc>)
    ensures multiset(longer) == multiset(allTrace) + One(doc)
    ensures forall d :: multiset(longer)[d] == multiset(allTrace)[d] + if doc == Some(d) then 1 else 0
  {
    longer := if doc.Some? then allTrace + [doc.value] else allTrace;
  }

  /** The parallel collection: one goroutine per invocation, finishing in any order. `fs` reports what became
      of each of them. */
  method CollectTrace(chain: Chain, t: int) returns (allTrace: seq<Doc>, fs: seq<Flight>)
    ensures ValidFlights(chain, t, fs) && multiset(allTrace) == Collected(chain, t, fs)
    ensures AllFaultless(chain, t, fs) ==> multiset(allTrace) == Expected(chain, t)
  {
    var all := Indices(chain, t);
    var pending := all;
    allTrace, fs := [], seq(|chain.trace(t)|, i => ContextDone);
    DocsAtNone(Yielded(chain, t, fs));
    assert all - pending == {};
    while pending != {}
      invariant pending <= all && ValidFlights(chain, t, fs)
      invariant multiset(allTrace) == DocsAt(Yielded(chain, t, fs), all - pending)
      decreases |pending|
    {
      var i := AnyOf(pending);
      var d, f := RunGoroutine(chain, t, chain.trace(t)[i]);
      OneMoreDone(chain, t, fs, i, f, all, pending);
      allTrace := TraceAppend(allTrace, d);
      fs := fs[i := f];
      pending := pending - {i};
    }
    assert all - pending == all;
    if AllFaultless(chain, t, fs) {
      FaultlessCollects(chain, t, fs);
    }
  }

  /** The two collections a worker writes. Neither has a unique index. */
  class Database {
    var blocks: seq<Record>
    var messages: multiset<Doc>

    constructor ()
      ensures blocks == [] && messages == multiset{}
    {
      blocks := [];
      messages := multiset{};
    }

    /** Every block record is backed by its own copy of what its worker inserted. */
    ghost predicate Backed(chain: Chain)
      reads this
    {
      PossibleRecords(chain, blocks) && RecordDocs(blocks) <= messages
    }

    /** An unordered bulk insert. An empty list is refused by the driver; a failing insert may keep
        any part `kept` of the documents. */
    method InsertMany(docs: seq<Doc>, fails: bool, kept: multiset<Doc>) returns (ok: bool)
      modifies this`messages
      ensures ok <==> docs != [] && !fails
      ensures messages == old(messages) + if ok then multiset(docs) else multiset(docs) * kept
    {
      ok := docs != [] && !fails;
      if ok {
        messages := messages + multiset(docs);
      } else {
        messages := messages + multiset(docs) * kept;
      }
    }

    method InsertOneTipSet(r: Record, fails: bool) returns (ok: bool)
      modifies this`blocks
      ensures ok == !fails
      ensures blocks == if ok then old(blocks) + [r] else old(blocks)
    {
      ok := !fails;
      if ok {
        blocks := blocks + [r];
      }
    }

    /** The message part of a worker. */
    method GetEpochTrace(chain: Chain, t: int, computeFails: bool, insertFails: bool, kept: multiset<Doc>)
        returns (o: TraceOutcome)
      modifies this`messages
      ensures messages == old(messages) + Inserted(o)
      ensures Possible(chain, t, o) && (computeFails <==> o == ComputeFailed)
      ensures o.Ran? ==> (o.insertOk <==> !insertFails && Collected(chain, t, o.fs) != multiset{})
      ensures o.Ran? && !insertFails ==> Inserted(o) == Collected(chain, t, o.fs)
      ensures o.Ran? && !insertFails && AllFaultless(chain, t, o.fs) ==> Inserted(o) == Expected(chain, t)
    {
      if computeFails {
        return ComputeFailed;
      }
      var allTrace, fs := CollectTrace(chain, t);
      var ok := InsertMany(allTrace, insertFails, kept);
      o := Ran(fs, ok, if ok then multiset(allTrace) else multiset(allTrace) * kept);
    }

    /** A whole worker: messages first, block record second, whatever became of the messages. */
    method SyncHeightBlocks(chain: Chain, t: int, computeFails: bool, insertFails: bool, kept: multiset<Doc>,
                            storeFails: bool)
        returns (o: TraceOutcome, stored: bool)
      requires Backed(chain)
      modifies this
      ensures Backed(chain)
      ensures messages == old(messages) + Inserted(o)
      ensures blocks == if stored then old(blocks) + [Record(t, o)] else old(blocks)
      ensures stored == !storeFails
      ensures Possible(chain, t, o) && (computeFails <==> o == ComputeFailed)
      ensures o.Ran? ==> (o.insertOk <==> !insertFails && Collected(chain, t, o.fs) != multiset{})
    {
      o := GetEpochTrace(chain, t, computeFails, insertFails, kept);
      RecordDocsAppend(blocks, Record(t, o));
      stored := InsertOneTipSet(Record(t, o), storeFails);
    }
  }
}

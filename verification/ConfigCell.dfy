/** The persisted cursor (synchain/height.go): a collection of documents that stands for one cell.
    A read takes the first document with a positive height; a write updates that document, or inserts
    a new one when the read came back with an error. */
module ConfigCell {
  import opened Prelude

  /** The first positive height in natural order. */
  function FindPositive(docs: seq<int>): (r: Option<int>)
    ensures r.Some? ==> r.value > 0 && r.value in docs
    ensures r.None? ==> forall k :: 0 <= k < |docs| ==> docs[k] <= 0
  {
    if docs == [] then None
    else if docs[0] > 0 then Some(docs[0])
    else FindPositive(docs[1..])
  }

  /** The first document at `height` set to `next`. */
  function Update(docs: seq<int>, height: int, next: int): (r: seq<int>)
    ensures |r| == |docs|
  {
    if docs == [] then []
    else if docs[0] == height then [next] + docs[1..]
    else [docs[0]] + Update(docs[1..], height, next)
  }

  function Positives(docs: seq<int>): nat {
    if docs == [] then 0 else (if docs[0] > 0 then 1 else 0) + Positives(docs[1..])
  }

  /** A height as the cell can hold it: the filter on reads hides everything that is not positive. */
  function Pos(height: int): Option<int> {
    if height > 0 then Some(height) else None
  }

  /** One write; `readOk` says that the read inside it was answered. */
  function Write(docs: seq<int>, next: int, readOk: bool): seq<int> {
    var current := if readOk then FindPositive(docs) else None;
    if current.None? then docs + [next] else Update(docs, current.value, next)
  }

  lemma {:induction false} UpdateCounts(docs: seq<int>, next: int)
    requires FindPositive(docs).Some?
    ensures var r := Update(docs, FindPositive(docs).value, next);
            && Positives(r) == Positives(docs) - 1 + (if next > 0 then 1 else 0)
            && (Positives(docs) == 1 ==> FindPositive(r) == Pos(next))
  {
    var v := FindPositive(docs).value;
    var r := Update(docs, v, next);
    if docs[0] == v {
      assert r[1..] == docs[1..];
      NoPositive(docs[1..]);
    } else {
      UpdateCounts(docs[1..], next);
      assert r[1..] == Update(docs[1..], v, next);
    }
  }

  lemma {:induction false} NoPositive(docs: seq<int>)
    ensures Positives(docs) == 0 <==> FindPositive(docs) == None
  {
    if docs == [] {
    } else {
      NoPositive(docs[1..]);
    }
  }

  lemma {:induction false} AppendCounts(docs: seq<int>, next: int)
    ensures Positives(docs + [next]) == Positives(docs) + (if next > 0 then 1 else 0)
    ensures FindPositive(docs) == None ==> FindPositive(docs + [next]) == Pos(next)
  {
    if docs == [] {
      assert docs + [next] == [next];
    } else {
      assert (docs + [next])[1..] == docs[1..] + [next];
      AppendCounts(docs[1..], next);
    }
  }

  /** Document `k` is the one that reads see. */
  predicate IsFirstPositive(docs: seq<int>, k: int) {
    0 <= k < |docs| && docs[k] > 0 && forall j :: 0 <= j < k ==> docs[j] <= 0
  }

  /** An answered write replaces the document that reads see, and no other one; without such a document, or an answer,
      it appends. */
  lemma {:induction false} WriteIs(docs: seq<int>, next: int, k: int)
    ensures IsFirstPositive(docs, k) ==> FindPositive(docs) == Some(docs[k])
    ensures IsFirstPositive(docs, k) ==> Write(docs, next, true) == docs[k := next]
    ensures FindPositive(docs) == None ==> Write(docs, next, true) == docs + [next]
    ensures Write(docs, next, false) == docs + [next]
  {
    if IsFirstPositive(docs, k) && k > 0 {
      assert IsFirstPositive(docs[1..], k - 1);
      WriteIs(docs[1..], next, k - 1);
      assert docs[k := next] == [docs[0]] + docs[1..][k - 1 := next];
    }
  }

  /** A write whose read is answered acts on the cell: it keeps the collection at one positive
      document at most, and the next read sees what was written if that is positive, else nothing. */
  lemma {:induction false} WriteRefinesCell(docs: seq<int>, next: int)
    requires Positives(docs) <= 1
    ensures Positives(Write(docs, next, true)) <= 1
    ensures FindPositive(Write(docs, next, true)) == Pos(next)
  {
    NoPositive(docs);
    if FindPositive(docs).None? {
      AppendCounts(docs, next);
    } else {
      UpdateCounts(docs, next);
    }
  }

  /** Exactly when a write may leave two cursors behind: its read failed, there was a cursor, and the
      new one is positive. */
  lemma {:induction false} WriteKeepsOneCursorIff(docs: seq<int>, next: int, readOk: bool)
    requires Positives(docs) <= 1
    ensures Positives(Write(docs, next, readOk)) <= 1 <==> readOk || FindPositive(docs).None? || next <= 0
  {
    NoPositive(docs);
    AppendCounts(docs, next);
    if readOk {
      WriteRefinesCell(docs, next);
    }
  }

  function WriteAll(docs: seq<int>, nexts: seq<int>): seq<int> {
    if nexts == [] then docs else Write(WriteAll(docs, nexts[..|nexts| - 1]), nexts[|nexts| - 1], true)
  }

  /** Over any number of writes the collection is a cell: a read sees the last write. */
  lemma {:induction false} WritesRefineCell(docs: seq<int>, nexts: seq<int>)
    requires Positives(docs) <= 1
    ensures Positives(WriteAll(docs, nexts)) <= 1
    ensures FindPositive(WriteAll(docs, nexts))
         == if nexts == [] then FindPositive(docs) else Pos(nexts[|nexts| - 1])
  {
    if nexts == [] {
    } else {
      WritesRefineCell(docs, nexts[..|nexts| - 1]);
      WriteRefinesCell(WriteAll(docs, nexts[..|nexts| - 1]), nexts[|nexts| - 1]);
    }
  }

  /** The config collection, read and written in place. */
  class ConfigCollection {
    var docs: seq<int>

    constructor (docs: seq<int>)
      ensures this.docs == docs
    {
      this.docs := docs;
    }

    ghost predicate Valid()
      reads this
    {
      Positives(docs) <= 1
    }

    function Cell(): Option<int>
      reads this
    {
      FindPositive(docs)
    }

    /** getSyncConfig / getSyncHeight: the answer is None when the read fails or finds nothing. */
    method GetSyncHeight(readOk: bool) returns (r: Option<int>)
      ensures r == if readOk then Cell() else None
    {
      r := None;
      var i := 0;
      while readOk && i < |docs|
        invariant 0 <= i <= |docs| && r == None
        invariant readOk ==> FindPositive(docs) == FindPositive(docs[i..])
      {
        if docs[i] > 0 {
          return Some(docs[i]);
        }
        assert docs[i..][1..] == docs[i + 1..];
        i := i + 1;
      }
    }

    method SetSyncHeight(next: int, readOk: bool)
      modifies this
      ensures docs == Write(old(docs), next, readOk)
      ensures old(Valid()) && readOk ==> Valid() && Cell() == Pos(next)
      ensures forall k :: readOk && IsFirstPositive(old(docs), k) ==> docs == old(docs)[k := next]
      ensures !readOk || old(Cell()).None? ==> docs == old(docs) + [next]
    {
      forall k
        ensures IsFirstPositive(docs, k) ==> Write(docs, next, true) == docs[k := next]
      {
        WriteIs(docs, next, k);
      }
      if old(Valid()) {
        WriteRefinesCell(docs, next);
      }
      var current := GetSyncHeight(readOk);
      if current.None? {
        docs := docs + [next];
      } else {
        docs := Update(docs, current.value, next);
      }
    }
  }
}

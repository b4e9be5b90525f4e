/** How many sectors a packed message carries (types/message.go, getSectorLength). Aggregated proofs name
    their sectors as run lengths: so many absent, so many present, so many absent, and so on. */
module SectorRuns {
  import opened Prelude

  // actorsv5.MethodsMiner
  const PRE_COMMIT_SECTOR_BATCH := 25
  const PROVE_COMMIT_AGGREGATE := 26

  /** Sums of JSON numbers are exact below this. */
  const EXACT_FLOAT := 0x20_0000_0000_0000

  function Interval(lo: int, hi: int): (s: set<int>)
    ensures forall i :: i in s <==> lo <= i < hi
    decreases hi - lo
  {
    if hi <= lo then {} else Interval(lo, hi - 1) + {hi - 1}
  }

  /** The sector numbers that the runs stand for, from `start` on; `present` tells what the first run is. */
  function Decode(runs: seq<nat>, start: nat, present: bool): set<int> {
    if runs == [] then {}
    else (if present then Interval(start, start + runs[0]) else {}) + Decode(runs[1..], start + runs[0], !present)
  }

  /** The sum of every second entry. */
  function PresentSum(runs: seq<nat>, present: bool): nat {
    if runs == [] then 0 else (if present then runs[0] else 0) + PresentSum(runs[1..], !present)
  }

  function Total(runs: seq<nat>): nat {
    if runs == [] then 0 else runs[0] + Total(runs[1..])
  }

  lemma {:induction false} DecodeBounds(runs: seq<nat>, start: nat, present: bool)
    ensures forall i :: i in Decode(runs, start, present) ==> start <= i < start + Total(runs)
  {
    if runs == [] {
    } else {
      DecodeBounds(runs[1..], start + runs[0], !present);
    }
  }

  /** Sector `i` lies in the k-th run, and that one is a run of present sectors. */
  predicate InRun(runs: seq<nat>, start: nat, present: bool, i: int, k: int) {
    && 0 <= k < |runs| && (k % 2 == 0) == present
    && start + Total(runs[..k]) <= i < start + Total(runs[..k + 1])
  }

  lemma {:induction false} InLaterRun(runs: seq<nat>, start: nat, present: bool, i: int, k: int)
    requires 0 < k < |runs|
    ensures InRun(runs, start, present, i, k) == InRun(runs[1..], start + runs[0], !present, i, k - 1)
  {
    assert runs[..k][1..] == runs[1..][..k - 1] && runs[..k + 1][1..] == runs[1..][..k];
  }

  /** The sectors are those of the runs at every second position. */
  lemma {:induction false} DecodeSpec(runs: seq<nat>, start: nat, present: bool, i: int)
    ensures i in Decode(runs, start, present) <==> exists k :: InRun(runs, start, present, i, k)
    decreases |runs|
  {
    if runs == [] {
    } else {
      DecodeSpec(runs[1..], start + runs[0], !present, i);
      assert runs[..0] == [] && runs[..1] == [runs[0]] && [runs[0]][1..] == [];
      assert InRun(runs, start, present, i, 0) <==> present && start <= i < start + runs[0];
      var lo, rest, other := start + runs[0], runs[1..], !present;
      if k :| InRun(rest, lo, other, i, k) {
        InLaterRun(runs, start, present, i, k + 1);
        assert InRun(runs, start, present, i, k + 1);
      }
      if k :| InRun(runs, start, present, i, k) {
        if k > 0 {
          InLaterRun(runs, start, present, i, k);
        }
      }
    }
  }

  /** A run in front of sectors that all lie after it adds its whole length. */
  lemma {:induction false} RunInFront(lo: int, hi: int, rest: set<int>)
    requires lo <= hi && forall i :: i in rest ==> hi <= i
    ensures |Interval(lo, hi) + rest| == hi - lo + |rest|
    decreases hi - lo
  {
    if lo == hi {
      assert Interval(lo, hi) + rest == rest;
    } else {
      RunInFront(lo, hi - 1, {hi - 1} + rest);
      assert Interval(lo, hi) + rest == Interval(lo, hi - 1) + ({hi - 1} + rest);
    }
  }

  lemma {:induction false} DecodeRuns(runs: seq<nat>, start: nat)
    requires runs != []
    ensures Decode(runs, start, false) == Decode(runs[1..], start + runs[0], true)
    ensures Decode(runs, start, true)
         == Interval(start, start + runs[0]) + Decode(runs[1..], start + runs[0], false)
  {
  }

  lemma {:induction false} AddPresentRun(runs: seq<nat>, start: nat)
    requires runs != []
    ensures |Decode(runs, start, true)| == runs[0] + |Decode(runs[1..], start + runs[0], false)|
  {
    DecodeBounds(runs[1..], start + runs[0], false);
    RunInFront(start, start + runs[0], Decode(runs[1..], start + runs[0], false));
    DecodeRuns(runs, start);
  }

  /** The runs of sectors do not overlap, so the sum is the number of sectors. */
  lemma {:induction false} SumIsCardinality(runs: seq<nat>, start: nat, present: bool)
    ensures PresentSum(runs, present) == |Decode(runs, start, present)|
    decreases |runs|
  {
    if runs == [] {
    } else {
      SumIsCardinality(runs[1..], start + runs[0], !present);
      if present {
        AddPresentRun(runs, start);
      } else {
        DecodeRuns(runs, start);
      }
    }
  }

  lemma {:induction false} PresentSumAppend(runs: seq<nat>, r: nat, present: bool)
    ensures PresentSum(runs + [r], present)
         == PresentSum(runs, present) + if (|runs| % 2 == 0) == present then r else 0
  {
    if runs == [] {
      assert runs + [r] == [r];
    } else {
      assert (runs + [r])[1..] == runs[1..] + [r];
      PresentSumAppend(runs[1..], r, !present);
    }
  }

  /** The parameters after decoding: not an object, or an object with or without the two fields. */
  datatype Params = Malformed | Params(sectors: Option<nat>, sectorNumbers: Option<seq<nat>>)

  /** A batch has as many sectors as its list is long; an aggregate has as many as its runs decode to. */
  method GetSectorLength(method_: int, p: Params) returns (n: nat)
    requires p.Params? && p.sectorNumbers.Some? ==> Total(p.sectorNumbers.value) < EXACT_FLOAT
    ensures p.Params? && method_ == PRE_COMMIT_SECTOR_BATCH && p.sectors.Some? ==> n == p.sectors.value
    ensures p.Params? && method_ == PROVE_COMMIT_AGGREGATE && p.sectorNumbers.Some? ==>
              n == |Decode(p.sectorNumbers.value, 0, false)|
    ensures p.Malformed? || (method_ != PRE_COMMIT_SECTOR_BATCH && method_ != PROVE_COMMIT_AGGREGATE) ==> n == 0
    ensures p.Params? && method_ == PRE_COMMIT_SECTOR_BATCH && p.sectors.None? ==> n == 0
    ensures p.Params? && method_ == PROVE_COMMIT_AGGREGATE && p.sectorNumbers.None? ==> n == 0
  {
    if p.Malformed? {
      return 0;
    }
    if method_ == PRE_COMMIT_SECTOR_BATCH {
      if p.sectors.Some? {
        return p.sectors.value;
      }
    }
    if method_ == PROVE_COMMIT_AGGREGATE {
      if p.sectorNumbers.Some? {
        var vl := p.sectorNumbers.value;
        var sum: nat := 0;
        for i := 0 to |vl|
          invariant sum == PresentSum(vl[..i], false)
        {
          PresentSumAppend(vl[..i], vl[i], false);
          assert vl[..i + 1] == vl[..i] + [vl[i]];
          if i % 2 == 1 {
            sum := sum + vl[i];
          }
        }
        assert vl[..|vl|] == vl;
        SumIsCardinality(vl, 0, false);
        return sum;
      }
    }
    return 0;
  }
}

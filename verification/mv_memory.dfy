/** `MvMemory`: the shared multi-version memory, updated in place. The entry
    operations `Put` and `Drop` are the ones the protocol interleaves. */
module MvMemoryClass {
  import opened Collections
  import opened MemoryModel
  import opened Protocol

  /** The value a write set gives to a location: the last write wins. */
  function WriteMap(ws: seq<(Loc, MemoryValue)>): map<Loc, MemoryValue> {
    if ws == [] then map[]
    else WriteMap(ws[..|ws| - 1])[ws[|ws| - 1].0 := ws[|ws| - 1].1]
  }

  lemma {:induction false} WriteMapKeys(ws: seq<(Loc, MemoryValue)>, l: Loc)
    ensures l in WriteMap(ws) <==> exists k :: 0 <= k < |ws| && ws[k].0 == l
  {
    if ws != [] {
      WriteMapKeys(ws[..|ws| - 1], l);
      assert forall k :: 0 <= k < |ws| - 1 ==> ws[..|ws| - 1][k] == ws[k];
    }
  }

  ghost function Locations(q: seq<Loc>): set<Loc> {
    set l | l in q
  }

  /** What `record` leaves at location `l`: the new version where it writes, nothing of `tx` where only
      the previous incarnation wrote, and the old entries elsewhere. */
  ghost predicate RecordedAt(old_: Versions, new_: Versions, l: Loc, tx: nat, inc: nat, ws: map<Loc, MemoryValue>,
                             last: set<Loc>) {
    && (forall k: nat :: k != tx ==> (k in new_ <==> k in old_) && (k in old_ ==> new_[k] == old_[k]))
    && (l in ws ==> tx in new_ && new_[tx] == Data(inc, ws[l]))
    && (l !in ws && l in last ==> tx !in new_)
    && (l !in ws && l !in last ==> new_ == old_)
  }

  /** The highest key below `hi`, as `range(..hi).next_back()` finds it. */
  method NextBack(m: Versions, hi: nat) returns (found: bool, idx: nat)
    ensures found ==> idx < hi && idx in m && forall k: nat :: idx < k < hi ==> k !in m
    ensures !found ==> forall k: nat :: k < hi ==> k !in m
  {
    idx := hi;
    while idx > 0
      invariant idx <= hi
      invariant forall k: nat :: idx <= k < hi ==> k !in m
    {
      idx := idx - 1;
      if idx in m {
        return true, idx;
      }
    }
    return false, 0;
  }

  lemma {:induction false} MatchesSkips(m: Versions, i: nat, i': nat, os: seq<ReadOrigin>)
    requires i' <= i && forall k: nat :: i' <= k < i ==> k !in m
    ensures Matches(m, i, os) == Matches(m, i', os)
    decreases i
  {
    if i' < i && os != [] {
      MatchesSkips(m, i - 1, i', os);
    }
  }

  class MvMemory {
    var data: map<Loc, Versions>
    var lastReads: seq<ReadSet>
    var lastWrites: seq<seq<Loc>>

    constructor (blockSize: nat, estimated: map<Loc, set<nat>>)
      ensures |lastReads| == |lastWrites| == blockSize
      ensures forall i :: 0 <= i < blockSize ==> lastReads[i] == map[] && lastWrites[i] == []
      ensures forall l, i: nat :: i in At(data, l) <==> l in estimated && i in estimated[l]
      ensures forall l, i: nat :: i in At(data, l) ==> At(data, l)[i] == Estimate
    {
      data := map l | l in estimated :: map i | i in estimated[l] :: Estimate;
      lastReads := seq(blockSize, _ => map[]);
      lastWrites := seq(blockSize, _ => []);
    }

    /** Store the read set, remove entries the new incarnation does not write, write the rest. */
    method Record(tx: nat, inc: nat, readSet: ReadSet, writeSet: seq<(Loc, MemoryValue)>) returns (wroteNew: bool)
      requires tx < |lastReads| == |lastWrites| && Distinct(lastWrites[tx])
      modifies this
      ensures lastReads == old(lastReads)[tx := readSet]
      ensures |lastWrites| == old(|lastWrites|) && forall i :: 0 <= i < |lastWrites| && i != tx ==>
        lastWrites[i] == old(lastWrites[i])
      ensures Distinct(lastWrites[tx]) && Locations(lastWrites[tx]) == WriteMap(writeSet).Keys
      ensures wroteNew <==> !(WriteMap(writeSet).Keys <= Locations(old(lastWrites[tx])))
      ensures forall l :: RecordedAt(At(old(data), l), At(data, l), l, tx, inc, WriteMap(writeSet),
        Locations(old(lastWrites[tx])))
    {
      lastReads := lastReads[tx := readSet];
      var last := ForgetStale(tx, inc, writeSet);
      label forgotten:
      last, wroteNew := WriteAll(tx, inc, writeSet, last);
      lastWrites := lastWrites[tx := last];
      forall l ensures RecordedAt(At(old(data), l), At(data, l), l, tx, inc, WriteMap(writeSet),
        Locations(old(lastWrites[tx]))) {
        assert RecordedAt(At(old(data), l), At(old@forgotten(data), l), l, tx, inc, map[],
          Locations(old(lastWrites[tx])) - WriteMap(writeSet).Keys);
        assert RecordedAt(At(old@forgotten(data), l), At(data, l), l, tx, inc, WriteMap(writeSet), {});
      }
    }

    /** The first loop of `record`: drop the entries at locations the write set no longer contains. */
    method ForgetStale(tx: nat, ghost inc: nat, writeSet: seq<(Loc, MemoryValue)>) returns (last: seq<Loc>)
      requires tx < |lastWrites| && Distinct(lastWrites[tx])
      modifies this`data
      ensures Distinct(last) && Locations(last) == Locations(lastWrites[tx]) * WriteMap(writeSet).Keys
      ensures forall l :: RecordedAt(At(old(data), l), At(data, l), l, tx, inc, map[],
        Locations(lastWrites[tx]) - WriteMap(writeSet).Keys)
    {
      last := lastWrites[tx];
      var idx := 0;
      while idx < |last|
        invariant 0 <= idx <= |last| && Distinct(last)
        invariant forall k :: 0 <= k < idx ==> last[k] in WriteMap(writeSet)
        invariant Locations(last) <= Locations(lastWrites[tx])
        invariant Locations(lastWrites[tx]) * WriteMap(writeSet).Keys <= Locations(last)
        invariant forall l :: RecordedAt(At(old(data), l), At(data, l), l, tx, inc, map[],
          Locations(lastWrites[tx]) - Locations(last))
        decreases |last| - idx
      {
        var prev := last[idx];
        WriteMapKeys(writeSet, prev);
        if forall k :: 0 <= k < |writeSet| ==> writeSet[k].0 != prev {
          data := Drop(data, prev, tx);
          ghost var before := last;
          last := last[idx := last[|last| - 1]][..|last| - 1];
          SwapRemoved(before, last, idx);
        } else {
          idx := idx + 1;
        }
      }
      assert Locations(last) == Locations(lastWrites[tx]) * WriteMap(writeSet).Keys;
      assert Locations(lastWrites[tx]) - Locations(last) == Locations(lastWrites[tx]) - WriteMap(writeSet).Keys;
    }

    /** The second loop of `record`: write every location and notice new ones. */
    method WriteAll(tx: nat, inc: nat, writeSet: seq<(Loc, MemoryValue)>, kept: seq<Loc>)
        returns (last: seq<Loc>, wroteNew: bool)
      requires Distinct(kept) && Locations(kept) <= WriteMap(writeSet).Keys
      modifies this`data
      ensures Distinct(last) && Locations(last) == WriteMap(writeSet).Keys
      ensures wroteNew <==> !(WriteMap(writeSet).Keys <= Locations(kept))
      ensures forall l :: RecordedAt(At(old(data), l), At(data, l), l, tx, inc, WriteMap(writeSet), {})
    {
      last, wroteNew := kept, false;
      var k := 0;
      while k < |writeSet|
        invariant 0 <= k <= |writeSet| && Distinct(last)
        invariant Locations(last) == Locations(kept) + WriteMap(writeSet[..k]).Keys
        invariant wroteNew <==> !(WriteMap(writeSet[..k]).Keys <= Locations(kept))
        invariant forall l :: RecordedAt(At(old(data), l), At(data, l), l, tx, inc, WriteMap(writeSet[..k]), {})
      {
        var (location, value) := writeSet[k];
        assert writeSet[..k + 1][..k] == writeSet[..k];
        ghost var before, done := data, WriteMap(writeSet[..k]);
        assert WriteMap(writeSet[..k + 1]) == done[location := value];
        data := Put(data, location, tx, Data(inc, value));
        forall l ensures RecordedAt(At(old(data), l), At(data, l), l, tx, inc, done[location := value], {}) {
          WrittenAt(old(data), before, l, tx, inc, done, location, value);
        }
        if location !in last {
          Appended(last, location);
          last := last + [location];
          wroteNew := true;
        } else {
          assert location in Locations(last);
        }
        k := k + 1;
      }
      assert writeSet[..k] == writeSet;
    }

    /** Every recorded read of `tx` still has its origins. */
    method ValidateReadLocations(tx: nat) returns (valid: bool)
      requires tx < |lastReads|
      ensures valid <==> forall l :: l in lastReads[tx] ==> ReadHolds(data, tx, l, lastReads[tx][l])
    {
      var todo := lastReads[tx].Keys;
      while todo != {}
        invariant todo <= lastReads[tx].Keys
        invariant forall l :: l in lastReads[tx] && l !in todo ==> ReadHolds(data, tx, l, lastReads[tx][l])
        decreases todo
      {
        var l :| l in todo;
        var priorOrigins := lastReads[tx][l];
        if l in data {
          var k, hi := 0, tx;
          while k < |priorOrigins|
            invariant 0 <= k <= |priorOrigins|
            invariant Matches(data[l], tx, priorOrigins) == Matches(data[l], hi, priorOrigins[k..])
          {
            var found, closest := NextBack(data[l], hi);
            MatchesSkips(data[l], hi, if found then closest + 1 else 0, priorOrigins[k..]);
            assert priorOrigins[k..][1..] == priorOrigins[k + 1..];
            if priorOrigins[k].FromTx? {
              if found && data[l][closest].Data? {
                if closest != priorOrigins[k].tx || data[l][closest].incarnation != priorOrigins[k].incarnation {
                  return false;
                }
              } else {
                return false;
              }
            } else if found {
              return false;
            }
            hi := if found then closest else 0;
            k := k + 1;
          }
        } else if |priorOrigins| != 1 || priorOrigins[|priorOrigins| - 1] != FromStorage {
          return false;
        }
        todo := todo - {l};
      }
      return true;
    }

    /** Every location the last incarnation wrote becomes an estimate. */
    method ConvertWritesToEstimates(tx: nat)
      requires tx < |lastWrites|
      modifies this`data
      ensures forall l, k: nat :: k != tx || l !in lastWrites[tx] || l !in old(data) ==>
        (k in At(data, l) <==> k in At(old(data), l)) && (k in At(data, l) ==> At(data, l)[k] == At(old(data), l)[k])
      ensures forall l :: l in lastWrites[tx] && l in old(data) ==> tx in At(data, l) && At(data, l)[tx] == Estimate
    {
      var k := 0;
      while k < |lastWrites[tx]|
        invariant 0 <= k <= |lastWrites[tx]| && data.Keys == old(data).Keys
        invariant forall l, j: nat :: j != tx || l !in lastWrites[tx][..k] || l !in old(data) ==>
          (j in At(data, l) <==> j in At(old(data), l)) && (j in At(data, l) ==> At(data, l)[j] == At(old(data), l)[j])
        invariant forall l :: l in lastWrites[tx][..k] && l in old(data) ==>
          tx in At(data, l) && At(data, l)[tx] == Estimate
      {
        var location := lastWrites[tx][k];
        assert lastWrites[tx][..k + 1] == lastWrites[tx][..k] + [location];
        if location in data {
          data := Put(data, location, tx, Estimate);
        }
        k := k + 1;
      }
      assert lastWrites[tx][..k] == lastWrites[tx];
    }
  }

  lemma WrittenAt(was: map<Loc, Versions>, data: map<Loc, Versions>, l: Loc, tx: nat, inc: nat, ws: map<Loc,
                  MemoryValue>, location: Loc, value: MemoryValue)
    requires RecordedAt(At(was, l), At(data, l), l, tx, inc, ws, {})
    ensures RecordedAt(At(was, l), At(Put(data, location, tx, Data(inc, value)), l), l, tx, inc, ws[location := value],
      {})
  {
  }

  lemma Appended(q: seq<Loc>, l: Loc)
    requires Distinct(q) && l !in q
    ensures Distinct(q + [l]) && Locations(q + [l]) == Locations(q) + {l} && l !in Locations(q)
  {
  }

  /** `swap_remove` removes one element and keeps the prefix before it. */
  lemma SwapRemoved(q: seq<Loc>, q': seq<Loc>, idx: nat)
    requires idx < |q| && Distinct(q) && q' == q[idx := q[|q| - 1]][..|q| - 1]
    ensures forall k :: 0 <= k < idx && k < |q'| ==> q'[k] == q[k]
    ensures Distinct(q') && Locations(q') == Locations(q) - {q[idx]}
  {
    forall l | l in q && l != q[idx] ensures l in q' {
      var k :| 0 <= k < |q| && q[k] == l;
      if k == |q| - 1 {
        assert q'[idx] == l;
      } else {
        assert q'[k] == l;
      }
    }
  }
}

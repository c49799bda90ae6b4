/** `RangeMap`: keys with equal values are stored as one interval; `mutate_range` splits
    intervals so that the mutation sees each sub-range with one value. */
module RangeMaps {
  import opened Collections

  /** An interval, filed under its start. */
  datatype RangeItem<V> = RangeItem(end: nat, v: Option<V>)

  type Intervals<V> = map<nat, RangeItem<V>>

  ghost predicate Covers<V>(m: Intervals<V>, s: nat, k: nat) {
    s in m && s <= k < m[s].end
  }

  /** Intervals are not empty and do not overlap. */
  ghost predicate Disjoint<V>(m: Intervals<V>) {
    && (forall s :: s in m ==> s < m[s].end)
    && forall s, t :: s in m && t in m && s < t ==> m[s].end <= t
  }

  ghost predicate NeverNone<V>(m: Intervals<V>) {
    forall s :: s in m ==> m[s].v.Some?
  }

  /** The value of a key, read pointwise. */
  ghost function At<V>(m: Intervals<V>, k: nat): Option<V> {
    if exists s :: Covers(m, s, k) then
      var s :| Covers(m, s, k);
      m[s].v
    else None
  }

  lemma AtCovered<V>(m: Intervals<V>, s: nat, k: nat)
    requires Disjoint(m) && Covers(m, s, k)
    ensures At(m, k) == m[s].v
  {
    forall t | Covers(m, t, k) ensures t == s {
    }
  }

  ghost predicate Covered<V>(m: Intervals<V>, k: nat) {
    exists s :: Covers(m, s, k)
  }

  // ---------------------------------------------------------------- splitting and filling

  /** Cut the interval at `s` in two at `k`. */
  function Split<V>(m: Intervals<V>, s: nat, k: nat): Intervals<V>
    requires s in m
  {
    m[s := RangeItem(k, m[s].v)][k := m[s]]
  }

  lemma SplitDisjoint<V>(m: Intervals<V>, s: nat, k: nat)
    requires Disjoint(m) && s in m && s < k < m[s].end
    ensures k !in m && Disjoint(Split(m, s, k)) && (NeverNone(m) ==> NeverNone(Split(m, s, k)))
  {
  }

  lemma SplitAt<V>(m: Intervals<V>, s: nat, k: nat, x: nat)
    requires Disjoint(m) && s in m && s < k < m[s].end && k !in m && Disjoint(Split(m, s, k))
    ensures At(Split(m, s, k), x) == At(m, x)
  {
    var m' := Split(m, s, k);
    if t: nat :| Covers(m, t, x) {
      AtCovered(m, t, x);
      AtCovered(m', if t == s && x >= k then k else t, x);
    } else {
      forall t: nat ensures !Covers(m', t, x) {
        if Covers(m', t, x) {
          assert Covers(m, if t == k then s else t, x);
        }
      }
    }
  }

  lemma SplitKeeps<V>(m: Intervals<V>, s: nat, k: nat)
    requires Disjoint(m) && s in m && s < k < m[s].end
    ensures k !in m && Disjoint(Split(m, s, k)) && (NeverNone(m) ==> NeverNone(Split(m, s, k)))
    ensures forall x: nat :: At(Split(m, s, k), x) == At(m, x)
  {
    hide Disjoint, NeverNone, At, Split;
    SplitDisjoint(m, s, k);
    forall x: nat ensures At(Split(m, s, k), x) == At(m, x) {
      SplitAt(m, s, k, x);
    }
  }

  /** A gap filled with an interval that holds nothing. */
  lemma FillKeeps<V>(m: Intervals<V>, lo: nat, hi: nat)
    requires Disjoint(m) && lo < hi && forall x: nat, s: nat :: lo <= x < hi ==> !Covers(m, s, x)
    ensures lo !in m && Disjoint(m[lo := RangeItem(hi, None)])
    ensures forall x: nat :: At(m[lo := RangeItem(hi, None)], x) == At(m, x)
  {
    var m' := m[lo := RangeItem(hi, None)];
    assert lo in m ==> Covers(m, lo, lo);
    forall s | s in m ensures m[s].end <= lo || hi <= s {
      assert !Covers(m, s, lo) && (lo <= s < hi ==> !Covers(m, s, s));
    }
    forall x: nat ensures At(m', x) == At(m, x) {
      if t: nat :| Covers(m, t, x) {
        AtCovered(m, t, x);
        AtCovered(m', t, x);
      } else if lo <= x < hi {
        AtCovered(m', lo, x);
      } else {
        forall t: nat ensures !Covers(m', t, x) {
          if Covers(m', t, x) {
            assert Covers(m, t, x);
          }
        }
      }
    }
  }

  /** The interval at `lo` with a new value, or without it. */
  function Store<V>(m: Intervals<V>, lo: nat, hi: nat, v: Option<V>): Intervals<V> {
    if v.None? then m - {lo} else m[lo := RangeItem(hi, v)]
  }

  ghost predicate NoneOnlyAt<V>(m: Intervals<V>, lo: nat) {
    forall s :: s in m && s != lo ==> m[s].v.Some?
  }

  /** Replacing the value of one interval, or removing it, changes exactly its keys. */
  lemma StoreAt<V>(m: Intervals<V>, lo: nat, hi: nat, v: Option<V>, x: nat)
    requires Disjoint(m) && lo in m && m[lo].end == hi && Disjoint(Store(m, lo, hi, v))
    ensures At(Store(m, lo, hi, v), x) == if lo <= x < hi then v else At(m, x)
  {
    var m' := Store(m, lo, hi, v);
    if lo <= x < hi {
      assert Covers(m, lo, x);
      if v.Some? {
        AtCovered(m', lo, x);
      } else {
        forall t: nat ensures !Covers(m', t, x) {
        }
      }
    } else if t: nat :| Covers(m, t, x) {
      AtCovered(m, t, x);
      AtCovered(m', t, x);
    } else {
      forall t: nat ensures !Covers(m', t, x) {
        if Covers(m', t, x) {
          assert Covers(m, t, x);
        }
      }
    }
  }

  lemma StoreKeeps<V>(m: Intervals<V>, lo: nat, hi: nat, v: Option<V>)
    requires Disjoint(m) && NoneOnlyAt(m, lo) && lo in m && m[lo].end == hi
    ensures Disjoint(Store(m, lo, hi, v)) && NeverNone(Store(m, lo, hi, v))
    ensures forall x: nat :: At(Store(m, lo, hi, v), x) == if lo <= x < hi then v else At(m, x)
  {
    forall x: nat ensures At(Store(m, lo, hi, v), x) == if lo <= x < hi then v else At(m, x) {
      StoreAt(m, lo, hi, v, x);
    }
  }

  // ---------------------------------------------------------------- the calls of the mutation

  /** One call of the mutation function: a sub-range and the value it held. */
  datatype Call<V> = Call(lo: nat, hi: nat, value: Option<V>)

  /** The calls cover `[lo, hi)` one after the other, without gaps or overlaps. */
  ghost predicate Partition<V>(calls: seq<Call<V>>, lo: nat, hi: nat) {
    if calls == [] then lo == hi
    else
      var last := calls[|calls| - 1];
      last.lo < last.hi == hi && Partition(calls[..|calls| - 1], lo, last.lo)
  }

  /** Each call saw one uniform value, and its keys now hold what the function made of it. */
  ghost predicate Applied<V>(calls: seq<Call<V>>, before: Intervals<V>, after: Intervals<V>,
                             f: (nat, nat, Option<V>) -> Option<V>) {
    forall x, k: nat :: 0 <= x < |calls| && calls[x].lo <= k < calls[x].hi ==>
      At(before, k) == calls[x].value && At(after, k) == f(calls[x].lo, calls[x].hi, calls[x].value)
  }

  /** How far a call that starts at `lo` reaches: to the end of the interval around it, or to the next interval if there
      is none, and not beyond `end` unless nothing is left of the range. */
  ghost predicate Stretch<V>(m: Intervals<V>, lo: nat, end: nat, hi: nat) {
    && (forall s: nat :: Covers(m, s, lo) ==> hi == if lo < end < m[s].end then end else m[s].end)
    && (!Covered(m, lo) ==>
          lo <= hi <= end && (hi < end ==> hi in m) && forall t: nat :: t in m && lo <= t < end ==> hi <= t)
  }

  /** Every call reaches as far as it can, and what it leaves is one interval. */
  ghost predicate Cutting<V>(calls: seq<Call<V>>, end: nat, before: Intervals<V>, after: Intervals<V>,
                             f: (nat, nat, Option<V>) -> Option<V>) {
    forall x :: 0 <= x < |calls| ==>
      && Stretch(before, calls[x].lo, end, calls[x].hi)
      && (f(calls[x].lo, calls[x].hi, calls[x].value).Some? ==>
            && calls[x].lo in after
            && after[calls[x].lo] == RangeItem(calls[x].hi, f(calls[x].lo, calls[x].hi, calls[x].value)))
  }

  /** No interval reaches across `k`. */
  ghost predicate NoneAcross<V>(m: Intervals<V>, k: nat) {
    forall s :: s in m && s < k ==> m[s].end <= k
  }

  ghost predicate SameFrom<V>(m: Intervals<V>, m': Intervals<V>, k: nat) {
    forall t: nat :: t >= k ==> (t in m <==> t in m') && (t in m ==> m[t] == m'[t])
  }

  /** Intervals that end at or before `k` stay. */
  ghost predicate KeepsBelow<V>(m: Intervals<V>, m': Intervals<V>, k: nat) {
    forall t :: t in m && m[t].end <= k ==> t in m' && m'[t] == m[t]
  }

  /** Behind a call that ends inside the range, everything is as it was. */
  ghost predicate Resumes<V>(before: Intervals<V>, m: Intervals<V>, k: nat) {
    SameFrom(before, m, k) && NoneAcross(before, k) && NoneAcross(m, k)
  }

  lemma ResumesStretch<V>(before: Intervals<V>, m: Intervals<V>, lo: nat, end: nat, hi: nat)
    requires Resumes(before, m, lo) && Stretch(m, lo, end, hi)
    ensures Stretch(before, lo, end, hi)
  {
    forall s: nat ensures Covers(before, s, lo) <==> Covers(m, s, lo) {
    }
  }

  /** A call that ends inside the range ends where an interval ends or begins. */
  lemma StretchEnds<V>(m: Intervals<V>, lo: nat, end: nat, hi: nat)
    requires Disjoint(m) && Stretch(m, lo, end, hi) && lo < hi < end
    ensures NoneAcross(m, hi)
  {
    forall s: nat | s in m && s < hi ensures m[s].end <= hi {
      if s <= lo {
        assert Covers(m, s, lo) || m[s].end <= lo;
      }
    }
  }

  lemma CuttingOne<V>(calls: seq<Call<V>>, call: Call<V>, end: nat, before: Intervals<V>, m: Intervals<V>,
                      m': Intervals<V>,
                      f: (nat, nat, Option<V>) -> Option<V>)
    requires Cutting(calls, end, before, m, f) && KeepsBelow(m, m', call.lo)
    requires forall x :: 0 <= x < |calls| ==> calls[x].hi <= call.lo
    requires Stretch(before, call.lo, end, call.hi)
    requires f(call.lo, call.hi, call.value).Some? ==>
      call.lo in m' && m'[call.lo] == RangeItem(call.hi, f(call.lo, call.hi, call.value))
    ensures Cutting(calls + [call], end, before, m', f)
  {
  }

  lemma {:induction false} PartitionInside<V>(calls: seq<Call<V>>, lo: nat, hi: nat)
    requires Partition(calls, lo, hi)
    ensures lo <= hi && forall x :: 0 <= x < |calls| ==> lo <= calls[x].lo < calls[x].hi <= hi
    ensures forall x, y :: 0 <= x < y < |calls| ==> calls[x].hi <= calls[y].lo
  {
    if calls != [] {
      PartitionInside(calls[..|calls| - 1], lo, calls[|calls| - 1].lo);
      assert forall x :: 0 <= x < |calls| - 1 ==> calls[..|calls| - 1][x] == calls[x];
    }
  }

  /** Every key of the range is in exactly one call. */
  lemma {:induction false} PartitionCovers<V>(calls: seq<Call<V>>, lo: nat, hi: nat, k: nat)
    requires Partition(calls, lo, hi) && lo <= k < hi
    ensures exists x :: 0 <= x < |calls| && calls[x].lo <= k < calls[x].hi
    ensures forall x, y ::
      0 <= x < |calls| && 0 <= y < |calls| && calls[x].lo <= k < calls[x].hi && calls[y].lo <= k < calls[y].hi ==>
      x == y
  {
    var front, last := calls[..|calls| - 1], calls[|calls| - 1];
    assert forall x :: 0 <= x < |front| ==> front[x] == calls[x];
    PartitionInside(front, lo, last.lo);
    if k < last.lo {
      PartitionCovers(front, lo, last.lo, k);
      var x :| 0 <= x < |front| && front[x].lo <= k < front[x].hi;
      assert calls[x].lo <= k < calls[x].hi;
    }
  }

  class RangeMap<V> {
    var map_: Intervals<V>

    ghost predicate Valid()
      reads this
    {
      Disjoint(map_) && NeverNone(map_)
    }

    constructor ()
      ensures map_ == map[] && Valid()
    {
      map_ := map[];
    }

    /** Apply `f` to every sub-range of `[start, end)` with a uniform value; keys outside keep theirs. On an empty
        range `f` is called for the rest of the interval around `start`, and if there is none, on nothing at all:
        then an empty interval is left behind unless `f` makes nothing of nothing. */
    method MutateRange(start: nat, end: nat, f: (nat, nat, Option<V>) -> Option<V>) returns (calls: seq<Call<V>>)
      requires Valid() && start <= end
      modifies this
      ensures calls != [] && calls[0].lo == start && Cutting(calls, end, old(map_), map_, f)
      ensures var hi := calls[|calls| - 1].hi;
        && (start < end || Covered(old(map_), start) ==>
              Partition(calls, start, hi) && Applied(calls, old(map_), map_, f) && if start < end then hi == end
                else |calls| == 1)
        && (start == end && !Covered(old(map_), start) ==>
              calls == [Call(start, start, None)] && map_ == Store(old(map_), start, start, f(start, start, None)))
        && forall k: nat :: !(start <= k < hi) ==> At(map_, k) == At(old(map_), k)
      ensures OnlyInside(start, end, old(map_), map_) <==>
        start < end || forall s: nat :: Covers(old(map_), s, start) ==>
          f(start, old(map_)[s].end, old(map_)[s].v) == old(map_)[s].v
      ensures Valid() <==> start < end || Covered(old(map_), start) || f(start, start, None).None?
    {
      hide Disjoint, NeverNone, NoneOnlyAt, Partition, Applied, At, Covered, Store, Cutting, Stretch, Resumes,
        KeepsBelow;
      ghost var was := map_;
      NothingApplied(map_, start, end, f);
      SameOutside(map_, start);
      var call := Step(start, end, f, start, [], was);
      calls := [] + [call];
      if start == end {
        EmptyRange(start, calls[0], was, map_, f);
        return;
      }
      while calls[|calls| - 1].hi < end
        invariant calls != [] && calls[0].lo == start < calls[|calls| - 1].hi <= end && Valid()
        invariant Applies(calls, start, calls[|calls| - 1].hi, was, map_, f) && Cutting(calls, end, was, map_, f)
        invariant calls[|calls| - 1].hi < end ==> Resumes(was, map_, calls[|calls| - 1].hi)
        decreases end - calls[|calls| - 1].hi
      {
        call := Step(calls[|calls| - 1].hi, end, f, start, calls, was);
        calls := calls + [call];
      }
      WholeRange(calls, start, end, was, map_, f);
    }

    /** One turn of the loop: apply `f` to the next sub-range. */
    method Step(lo: nat, end: nat, f: (nat, nat, Option<V>) -> Option<V>, ghost start: nat, ghost calls: seq<Call<V>>,
                ghost was: Intervals<V>)
      returns (call: Call<V>)
      requires Valid() && Disjoint(was) && lo <= end && start <= lo && Applies(calls, start, lo, was, map_, f)
      requires Cutting(calls, end, was, map_, f) && (map_ == was || Resumes(was, map_, lo))
      modifies this
      ensures call.lo == lo && (lo < end ==> lo < call.hi <= end) && Cutting(calls + [call], end, was, map_, f)
      ensures lo < end || Covered(old(map_), lo) ==>
        Valid() && lo < call.hi && Applies(calls + [call], start, call.hi, was, map_, f)
      ensures lo == end && !Covered(old(map_), lo) ==>
        call == Call(lo, lo, None) && lo !in old(map_) && map_ == Store(old(map_), lo, lo, f(lo, lo, None))
      ensures lo < call.hi < end ==> Resumes(was, map_, call.hi)
    {
      hide Disjoint, NeverNone, NoneOnlyAt, Partition, Applied, At, Covered, Applies, Cutting, Stretch, Resumes,
        KeepsBelow,
        SameFrom;
      ghost var before := map_;
      var hi := Isolate(lo, end);
      var old_ := map_[lo].v;
      var v := f(lo, hi, old_);
      ghost var isolated := map_;
      if lo < hi {
        StoreKeeps(map_, lo, hi, v);
      } else {
        StoreNothing(before, lo, v);
      }
      if v.None? {
        map_ := map_ - {lo};
      } else {
        map_ := map_[lo := RangeItem(hi, v)];
      }
      if lo < hi {
        StepApplied(calls, start, lo, hi, was, before, isolated, map_, f);
      }
      call := Call(lo, hi, old_);
      StepCuts(calls, start, lo, end, call, was, before, isolated, map_, f);
    }

    /** Make one interval start at `lo`, and end no later than `end` unless the range is empty, without changing any
        value. */
    method Isolate(lo: nat, end: nat) returns (hi: nat)
      requires Valid() && lo <= end
      modifies this
      ensures lo in map_ && map_[lo].end == hi && lo <= hi && (lo < end ==> lo < hi <= end)
      ensures lo < hi <==> lo < end || Covered(old(map_), lo)
      ensures lo < hi ==> Disjoint(map_) && NoneOnlyAt(map_, lo) && forall k: nat :: At(map_, k) == At(old(map_), k)
      ensures lo == hi ==> lo !in old(map_) && map_ == old(map_)[lo := RangeItem(lo, None)]
      ensures Stretch(old(map_), lo, end, hi) && KeepsBelow(old(map_), map_, lo)
      ensures hi < end ==> SameFrom(old(map_), map_, hi)
    {
      var found, s := Floor(map_, lo);
      FloorCovers(map_, lo, found, s);
      ghost var before := map_;
      if found && s != lo && map_[s].end > lo {
        SplitKeeps(map_, s, lo);
        map_ := map_[s := RangeItem(lo, map_[s].v)][lo := map_[s]];
      }
      if found && lo in map_ {
        hi := Cut(lo, end);
        CutStretches(before, s, lo, end, hi);
      } else {
        hi := Fill(lo, end, found, s);
        FillStretches(before, lo, end, hi);
      }
    }

    /** The interval at `lo` ends behind the range: cut it there. On an empty range this puts it back as it was. */
    method Cut(lo: nat, end: nat) returns (hi: nat)
      requires Valid() && lo <= end && lo in map_
      modifies this
      ensures lo in map_ && map_[lo].end == hi && lo < hi && (lo < end ==> hi <= end)
      ensures Disjoint(map_) && NoneOnlyAt(map_, lo) && forall k: nat :: At(map_, k) == At(old(map_), k)
      ensures hi == if lo < end < old(map_)[lo].end then end else old(map_)[lo].end
      ensures forall t: nat :: t != lo && t != end ==>
        (t in map_ <==> t in old(map_)) && (t in map_ ==> map_[t] == old(map_)[t])
      ensures hi < end ==> map_ == old(map_)
    {
      hide At;
      if map_[lo].end > end {
        if lo < end {
          SplitKeeps(map_, lo, end);
        } else {
          assert map_[lo := RangeItem(end, map_[lo].v)][end := map_[lo]] == map_;
        }
        map_ := map_[lo := RangeItem(end, map_[lo].v)][end := map_[lo]];
      }
      hi := map_[lo].end;
    }

    /** Nothing covers `lo`: an interval that holds nothing, up to the next one or to `end`. */
    method Fill(lo: nat, end: nat, ghost found: bool, ghost s: nat) returns (hi: nat)
      requires Valid() && lo <= end && lo !in map_
      requires if found then s in map_ && s < lo && map_[s].end <= lo && forall t :: t in map_ && t <= lo ==>
        t <= s else forall t :: t in map_ ==> t > lo
      modifies this
      ensures lo in map_ && map_[lo].end == hi && lo <= hi <= end && (lo < hi <==> lo < end)
      ensures lo < hi ==> Disjoint(map_) && NoneOnlyAt(map_, lo) && forall k: nat :: At(map_, k) == At(old(map_), k)
      ensures map_ == old(map_)[lo := RangeItem(hi, None)]
      ensures (hi < end ==> hi in old(map_)) && forall t :: t in old(map_) && lo <= t < end ==> hi <= t
    {
      hide At;
      hi := FirstIn(map_, lo, end);
      if lo < end {
        GapBefore(map_, lo, hi, end, found, s);
        FillKeeps(map_, lo, hi);
      }
      map_ := map_[lo := RangeItem(hi, None)];
    }
  }

  lemma CutStretches<V>(m: Intervals<V>, s: nat, lo: nat, end: nat, hi: nat)
    requires Disjoint(m) && Covers(m, s, lo) && hi == if lo < end < m[s].end then end else m[s].end
    ensures Stretch(m, lo, end, hi)
  {
    assert Covered(m, lo);
  }

  lemma FillStretches<V>(m: Intervals<V>, lo: nat, end: nat, hi: nat)
    requires !Covered(m, lo) && lo <= hi <= end && (hi < end ==> hi in m)
    requires forall t :: t in m && lo <= t < end ==> hi <= t
    ensures Stretch(m, lo, end, hi)
  {
    forall s: nat ensures !Covers(m, s, lo) {
    }
  }

  /** One more call reaches as far as it can. */
  lemma StepCuts<V>(calls: seq<Call<V>>, start: nat, lo: nat, end: nat, call: Call<V>, was: Intervals<V>,
                    before: Intervals<V>, isolated: Intervals<V>, after: Intervals<V>,
                    f: (nat, nat, Option<V>) -> Option<V>)
    requires Disjoint(was) && Disjoint(before) && Cutting(calls, end, was, before, f)
    requires Applies(calls, start, lo, was, before, f) && call.lo == lo
    requires before == was || Resumes(was, before, lo)
    requires Stretch(before, lo, end, call.hi) && KeepsBelow(before, isolated, lo) && lo in isolated
    requires call.hi < end ==> SameFrom(before, isolated, call.hi)
    requires lo < call.hi ==> Disjoint(isolated) && isolated[lo].end == call.hi
    requires after == Store(isolated, lo, call.hi, f(lo, call.hi, call.value))
    ensures Cutting(calls + [call], end, was, after, f)
    ensures lo < call.hi < end ==> Resumes(was, after, call.hi)
  {
    hide Disjoint, Cutting, Stretch, Resumes, KeepsBelow, SameFrom, Applied, OnlyInside;
    PartitionInside(calls, start, lo);
    if before != was {
      ResumesStretch(was, before, lo, end, call.hi);
    }
    StoreBelow(before, isolated, lo, call.hi, f(lo, call.hi, call.value));
    CuttingOne(calls, call, end, was, before, after, f);
    if lo < call.hi < end {
      StretchEnds(was, lo, end, call.hi);
      StoreResumes(was, before, isolated, lo, call.hi, f(lo, call.hi, call.value));
    }
  }

  lemma StoreBelow<V>(before: Intervals<V>, isolated: Intervals<V>, lo: nat, hi: nat, v: Option<V>)
    requires Disjoint(before) && KeepsBelow(before, isolated, lo)
    ensures KeepsBelow(before, Store(isolated, lo, hi, v), lo)
    ensures v.Some? ==> lo in Store(isolated, lo, hi, v) && Store(isolated, lo, hi, v)[lo] == RangeItem(hi, v)
  {
  }

  lemma StoreResumes<V>(was: Intervals<V>, before: Intervals<V>, isolated: Intervals<V>, lo: nat, hi: nat, v: Option<V>)
    requires before == was || Resumes(was, before, lo)
    requires SameFrom(before, isolated, hi) && NoneAcross(was, hi) && lo < hi
    requires Disjoint(isolated) && lo in isolated && isolated[lo].end == hi
    ensures Resumes(was, Store(isolated, lo, hi, v), hi)
  {
  }

  /** Something covers `lo` exactly when the last interval that starts at or before it does. */
  lemma FloorCovers<V>(m: Intervals<V>, lo: nat, found: bool, s: nat)
    requires Disjoint(m)
    requires if found then s in m && s <= lo && forall t :: t in m && t <= lo ==>
      t <= s else forall t :: t in m ==> t > lo
    ensures Covered(m, lo) <==> found && lo < m[s].end
    ensures !Covered(m, lo) ==> lo !in m
  {
    if found && lo < m[s].end {
      assert Covers(m, s, lo);
    }
    if t: nat :| Covers(m, t, lo) {
      assert t <= s;
    }
    assert lo in m ==> Covers(m, lo, lo);
  }

  /** The keys outside the range have their old values. */
  ghost predicate OnlyInside<V>(start: nat, end: nat, before: Intervals<V>, after: Intervals<V>) {
    forall k: nat :: !(start <= k < end) ==> At(after, k) == At(before, k)
  }

  /** The calls made so far, from `start` to `lo`, and nothing else. */
  ghost predicate Applies<V>(calls: seq<Call<V>>, start: nat, lo: nat, before: Intervals<V>, after: Intervals<V>,
                             f: (nat, nat, Option<V>) -> Option<V>) {
    Partition(calls, start, lo) && Applied(calls, before, after, f) && OnlyInside(start, lo, before, after)
  }

  lemma SameOutside<V>(m: Intervals<V>, start: nat)
    ensures OnlyInside(start, start, m, m)
  {
  }

  lemma WholeRange<V>(calls: seq<Call<V>>, start: nat, end: nat, before: Intervals<V>, after: Intervals<V>,
                      f: (nat, nat, Option<V>) -> Option<V>)
    requires Applies(calls, start, end, before, after, f)
    ensures Partition(calls, start, end) && Applied(calls, before, after, f) && OnlyInside(start, end, before, after)
    ensures forall k: nat :: !(start <= k < end) ==> At(after, k) == At(before, k)
  {
  }

  /** What a call with an empty range did. */
  lemma EmptyRange<V>(start: nat, call: Call<V>, before: Intervals<V>, after: Intervals<V>,
                      f: (nat, nat, Option<V>) -> Option<V>)
    requires Disjoint(before) && NeverNone(before) && call.lo == start
    requires Covered(before, start) ==>
      start < call.hi && Disjoint(after) && NeverNone(after) && Applies([] + [call], start, call.hi, before, after, f)
    requires Cutting([] + [call], start, before, after, f)
    requires !Covered(before, start) ==>
      call == Call(start, start, None) && start !in before
      && after == Store(before, start, start, f(start, start, None))
    ensures Covered(before, start) ==> Partition([call], start, call.hi) && Applied([call], before, after, f)
    ensures OnlyInside(start, start, before, after) <==>
      forall s: nat :: Covers(before, s, start) ==> f(start, before[s].end, before[s].v) == before[s].v
    ensures Disjoint(after) && NeverNone(after) <==> Covered(before, start) || f(start, start, None).None?
    ensures forall k: nat :: !(start <= k < call.hi) ==> At(after, k) == At(before, k)
  {
    assert ([] + [call])[0] == call;
    assert Stretch(before, start, start, call.hi);
    if Covered(before, start) {
      assert [] + [call] == [call];
      assert At(before, start) == call.value && At(after, start) == f(start, call.hi, call.value);
      var s: nat :| Covers(before, s, start);
      AtCovered(before, s, start);
      forall t: nat | Covers(before, t, start) ensures t == s {
      }
      if f(start, call.hi, call.value) == call.value {
        forall k: nat ensures At(after, k) == At(before, k) {
          assert start <= k < call.hi ==> At(before, k) == call.value;
        }
      }
    } else {
      forall k: nat ensures At(after, k) == At(before, k) {
        EmptyAt(before, start, f(start, start, None), k);
      }
      if f(start, start, None).None? {
        assert after == before;
      } else {
        assert start in after && after[start].end == start;
      }
    }
  }

  /** An empty interval holds no key. */
  lemma EmptyAt<V>(m: Intervals<V>, lo: nat, v: Option<V>, k: nat)
    requires Disjoint(m) && lo !in m
    ensures At(Store(m, lo, lo, v), k) == At(m, k)
  {
    var m' := Store(m, lo, lo, v);
    forall t: nat ensures Covers(m', t, k) <==> Covers(m, t, k) {
    }
    if t: nat :| Covers(m, t, k) {
      AtCovered(m, t, k);
      forall t': nat | Covers(m', t', k) ensures t' == t {
        assert Covers(m, t', k);
      }
    }
  }

  lemma StoreNothing<V>(m: Intervals<V>, lo: nat, v: Option<V>)
    requires lo !in m
    ensures Store(m[lo := RangeItem(lo, None)], lo, lo, v) == Store(m, lo, lo, v)
  {
  }

  /** The last key at or below `k`. */
  method Floor<V>(m: Intervals<V>, k: nat) returns (found: bool, s: nat)
    ensures found ==> s in m && s <= k && forall t :: t in m && t <= k ==> t <= s
    ensures !found ==> forall t :: t in m ==> t > k
  {
    s := k;
    while true
      invariant s <= k && forall t :: t in m && t <= k ==> t <= s
      decreases s
    {
      if s in m {
        return true, s;
      }
      if s == 0 {
        return false, 0;
      }
      s := s - 1;
    }
  }

  /** The first key in `[lo, end)`, or `end`. */
  method FirstIn<V>(m: Intervals<V>, lo: nat, end: nat) returns (hi: nat)
    requires lo <= end
    ensures lo <= hi <= end && (hi < end ==> hi in m) && forall t :: t in m && lo <= t < end ==> hi <= t
  {
    hi := lo;
    while hi < end && hi !in m
      invariant lo <= hi <= end && forall t :: t in m && lo <= t < end ==> hi <= t
    {
      hi := hi + 1;
    }
  }

  lemma GapBefore<V>(m: Intervals<V>, lo: nat, hi: nat, end: nat, found: bool, s: nat)
    requires Disjoint(m) && lo <= hi <= end && lo < end && forall t :: t in m && lo <= t < end ==> hi <= t
    requires if found then s in m && s < lo && m[s].end <= lo && forall t :: t in m && t <= lo ==>
      t <= s else forall t :: t in m ==> t > lo
    requires hi < end ==> hi in m
    ensures lo < hi && forall x: nat, t: nat :: lo <= x < hi ==> !Covers(m, t, x)
  {
    forall x: nat, t: nat | lo <= x < hi ensures !Covers(m, t, x) {
      if found && t in m && t < s {
        assert m[t].end <= s;
      }
    }
  }

  lemma NothingApplied<V>(m: Intervals<V>, lo: nat, end: nat, f: (nat, nat, Option<V>) -> Option<V>)
    ensures Applies([], lo, lo, m, m, f) && Cutting([], end, m, m, f)
  {
  }

  lemma StepApplied<V>(calls: seq<Call<V>>, start: nat, lo: nat, hi: nat, was: Intervals<V>, before: Intervals<V>,
                       isolated: Intervals<V>, after: Intervals<V>,
                       f: (nat, nat, Option<V>) -> Option<V>)
    requires Applies(calls, start, lo, was, before, f) && start <= lo < hi
    requires Disjoint(isolated) && lo in isolated && isolated[lo].end == hi && forall k: nat ::
      At(isolated, k) == At(before, k)
    requires forall k: nat :: At(after, k) == if lo <= k < hi then f(lo, hi, isolated[lo].v) else At(isolated, k)
    ensures Applies(calls + [Call(lo, hi, isolated[lo].v)], start, hi, was, after, f)
  {
    var calls' := calls + [Call(lo, hi, isolated[lo].v)];
    assert calls'[..|calls|] == calls;
    PartitionInside(calls, start, lo);
    forall x, k: nat | 0 <= x < |calls'| && calls'[x].lo <= k < calls'[x].hi
      ensures At(was, k) == calls'[x].value && At(after, k) == f(calls'[x].lo, calls'[x].hi, calls'[x].value)
    {
      if x < |calls| {
        assert calls'[x] == calls[x];
      } else {
        assert Covers(isolated, lo, k);
        AtCovered(isolated, lo, k);
      }
    }
  }
}

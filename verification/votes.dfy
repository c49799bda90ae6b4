/** `TransactionAggregator` for the transactions of one block: offsets are registered, collect votes
    and are reported once a quorum has voted. */
module Votes {
  import opened Collections
  import opened CommitteeStake
  import opened RangeMaps

  /** One call of `register` or `vote`, with the offsets it counts for. */
  datatype Op = Register(lo: nat, hi: nat, author: nat) | Vote(lo: nat, hi: nat, author: nat)

  ghost predicate OpOk(c: Committee, op: Op) {
    op.lo < op.hi && op.author < |c.stakes|
  }

  ghost predicate OpsOk(c: Committee, ops: seq<Op>) {
    forall op :: op in ops ==> OpOk(c, op)
  }

  predicate Touches(op: Op, k: nat) {
    op.lo <= k < op.hi
  }

  // ---------------------------------------------------------------- one offset

  /** `register`: the first registration starts with the author's vote, a later one changes nothing. */
  function Registered(c: Committee, v: Option<Aggregate>, author: nat): Option<Aggregate>
    requires author < |c.stakes|
  {
    if v.Some? then v else Some(AddVote(c, EMPTY, author))
  }

  predicate Completes(c: Committee, v: Option<Aggregate>, author: nat)
    requires author < |c.stakes|
  {
    v.Some? && IsQuorum(c, AddVote(c, v.value, author).stake)
  }

  /** `vote`: a known offset gains a vote, and is forgotten once it is complete. */
  function Voted(c: Committee, v: Option<Aggregate>, author: nat): Option<Aggregate>
    requires author < |c.stakes|
  {
    if v.None? || Completes(c, v, author) then None else Some(AddVote(c, v.value, author))
  }

  /** The state of offset `k` after some calls. */
  ghost function Track(c: Committee, ops: seq<Op>, k: nat): Option<Aggregate>
    requires OpsOk(c, ops)
  {
    if ops == [] then None
    else
      var v, op := Track(c, ops[..|ops| - 1], k), ops[|ops| - 1];
      assert OpOk(c, op);
      if !Touches(op, k) then v
      else if op.Register? then Registered(c, v, op.author)
      else Voted(c, v, op.author)
  }

  /** Call `i` reports offset `k` as processed. */
  ghost predicate Processed(c: Committee, ops: seq<Op>, k: nat, i: nat)
    requires OpsOk(c, ops)
  {
    i < |ops| && OpOk(c, ops[i]) && ops[i].Vote? && Touches(ops[i], k)
      && Completes(c, Track(c, ops[..i], k), ops[i].author)
  }

  // ---------------------------------------------------------------- all calls

  /** The distinct voters for `k` since its registration by call `j`: its author, and the authors of later votes. */
  ghost function Voters(ops: seq<Op>, k: nat, j: nat): set<nat>
    requires j < |ops|
  {
    set x | j <= x < |ops| && Touches(ops[x], k) && (x == j || ops[x].Vote?) :: ops[x].author
  }

  /** Offset `k` is being tracked since its registration by call `j`. */
  ghost predicate Since(c: Committee, ops: seq<Op>, k: nat, j: nat)
    requires OpsOk(c, ops)
  {
    && j < |ops| && ops[j].Register? && Touches(ops[j], k) && Track(c, ops[..j], k) == None
    && forall i :: j < i < |ops| ==> !Processed(c, ops, k, i)
  }

  lemma VotersNext(ops: seq<Op>, op: Op, k: nat, j: nat)
    requires j < |ops|
    ensures Voters(ops + [op], k, j) == Voters(ops, k, j) + if Touches(op, k) && op.Vote? then {op.author} else {}
  {
    var q := ops + [op];
    forall a ensures a in Voters(q, k, j) <==>
      a in Voters(ops, k, j) || (Touches(op, k) && op.Vote? && a == op.author) {
      if a in Voters(ops, k, j) {
        var x :| j <= x < |ops| && Touches(ops[x], k) && (x == j || ops[x].Vote?) && ops[x].author == a;
        assert q[x] == ops[x];
      }
      if Touches(op, k) && op.Vote? && a == op.author {
        assert q[|ops|] == op;
      }
    }
  }

  lemma VotersFirst(ops: seq<Op>, op: Op, k: nat)
    requires Touches(op, k)
    ensures Voters(ops + [op], k, |ops|) == {op.author}
  {
    assert (ops + [op])[|ops|] == op;
  }

  lemma PrefixProcessed(c: Committee, ops: seq<Op>, op: Op, k: nat, i: nat)
    requires OpsOk(c, ops) && OpOk(c, op) && i < |ops|
    ensures Processed(c, ops + [op], k, i) == Processed(c, ops, k, i)
  {
    assert (ops + [op])[..i] == ops[..i];
  }

  /** A tracked offset has a registration, and its votes are exactly the voters since then. */
  lemma {:induction false} TrackedSince(c: Committee, ops: seq<Op>, k: nat) returns (j: nat)
    requires OpsOk(c, ops) && Track(c, ops, k).Some?
    ensures Since(c, ops, k, j) && AggregateOk(c, Track(c, ops, k).value)
      && Track(c, ops, k).value.votes == Voters(ops, k, j)
  {
    var front, op := ops[..|ops| - 1], ops[|ops| - 1];
    assert ops == front + [op];
    if Track(c, front, k).None? {
      j := |front|;
      EmptyOk(c);
      AddVoteOk(c, EMPTY, op.author);
      VotersFirst(front, op, k);
    } else {
      j := TrackedSince(c, front, k);
      VotersNext(front, op, k, j);
      assert ops[..j] == front[..j];
      forall i | j < i < |ops| ensures !Processed(c, ops, k, i) {
        if i < |front| {
          PrefixProcessed(c, front, op, k, i);
        }
      }
      if Touches(op, k) && op.Vote? {
        AddVoteOk(c, Track(c, front, k).value, op.author);
      }
    }
  }

  /** An offset stays tracked from its registration until a vote reports it. */
  lemma {:induction false} SinceIsTracked(c: Committee, ops: seq<Op>, k: nat, j: nat)
    requires OpsOk(c, ops) && Since(c, ops, k, j)
    ensures Track(c, ops, k).Some?
  {
    var front, op := ops[..|ops| - 1], ops[|ops| - 1];
    assert ops == front + [op] && OpOk(c, op);
    if j == |front| {
      assert ops[..j] == front;
    } else {
      assert ops[..j] == front[..j] && front[j] == ops[j];
      forall i | j < i < |front| ensures !Processed(c, front, k, i) {
        PrefixProcessed(c, front, op, k, i);
      }
      SinceIsTracked(c, front, k, j);
      assert !Processed(c, ops, k, |front|) && ops[..|front|] == front;
    }
  }

  /** An offset is reported only by a vote after which its distinct voters, since a registration, exceed the quorum. */
  lemma ProcessedHasQuorum(c: Committee, ops: seq<Op>, k: nat, i: nat) returns (j: nat)
    requires OpsOk(c, ops) && Processed(c, ops, k, i)
    ensures j < i && Since(c, ops[..i], k, j) && IsQuorum(c, StakeOf(c, Voters(ops[..i + 1], k, j)))
  {
    j := TrackedSince(c, ops[..i], k);
    AddVoteOk(c, Track(c, ops[..i], k).value, ops[i].author);
    assert ops[..i + 1] == ops[..i] + [ops[i]];
    VotersNext(ops[..i], ops[i], k, j);
  }

  /** Conversely, a vote that lifts the voters of a tracked offset above the quorum reports it. */
  lemma QuorumIsProcessed(c: Committee, ops: seq<Op>, k: nat, i: nat)
    requires OpsOk(c, ops) && i < |ops| && ops[i].Vote? && Touches(ops[i], k) && Track(c, ops[..i], k).Some?
    ensures exists j: nat ::
      j < i && Since(c, ops[..i], k, j) && (Processed(c, ops, k, i) <==>
      IsQuorum(c, StakeOf(c, Voters(ops[..i + 1], k, j))))
  {
    var j' := TrackedSince(c, ops[..i], k);
    assert OpOk(c, ops[i]);
    AddVoteOk(c, Track(c, ops[..i], k).value, ops[i].author);
    assert ops[..i + 1] == ops[..i] + [ops[i]];
    VotersNext(ops[..i], ops[i], k, j');
  }

  /** Between two reports of an offset lies a new registration. */
  lemma ProcessedOncePerRegistration(c: Committee, ops: seq<Op>, k: nat, i: nat, i': nat)
    requires OpsOk(c, ops) && Processed(c, ops, k, i) && Processed(c, ops, k, i') && i < i'
    ensures exists j :: i < j < i' && ops[j].Register? && Touches(ops[j], k)
  {
    var j := ProcessedHasQuorum(c, ops, k, i');
    var front := ops[..i'];
    assert front[j] == ops[j];
    if j < i {
      assert front[..i] == ops[..i] && Processed(c, front, k, i);
    }
    assert j != i;
  }

  /** Any two reports, of whatever offsets, share voters with stake above the validity threshold. */
  lemma ReportsOverlap(c: Committee, ops: seq<Op>, k: nat, i: nat, ops': seq<Op>, k': nat, i': nat)
      returns (j: nat, j': nat)
    requires OpsOk(c, ops) && OpsOk(c, ops')
    requires Processed(c, ops, k, i) && Processed(c, ops', k', i')
    ensures j < i && j' < i' && IsValid(c, StakeOf(c, Voters(ops[..i + 1], k, j) * Voters(ops'[..i' + 1], k', j')))
  {
    j := ProcessedHasQuorum(c, ops, k, i);
    j' := ProcessedHasQuorum(c, ops', k', i');
    QuorumsIntersect(c, Voters(ops[..i + 1], k, j), Voters(ops'[..i' + 1], k', j'));
  }

  // ---------------------------------------------------------------- the aggregator

  class TransactionAggregator {
    const committee: Committee
    const pending: RangeMap<Aggregate>
    ghost var ops: seq<Op>

    ghost predicate Valid()
      reads this, pending
    {
      pending.Valid() && Tracks(committee, ops, pending.map_)
    }

    constructor (c: Committee)
      ensures Valid() && fresh(pending) && committee == c && ops == []
    {
      committee := c;
      pending := new RangeMap<Aggregate>();
      ops := [];
    }

    /** Start to track the offsets of a range; `duplicates` are those that are tracked already. Nothing new is tracked
        on an empty range: at a tracked offset, this and the following ones up to the end of the stored interval are
        reported as duplicates; at any other, an empty interval is left behind, after which the map is not valid. */
    method RegisterRange(lo: nat, hi: nat, author: nat) returns (duplicates: seq<nat>, ghost end: nat)
      requires Valid() && lo <= hi && author < |committee.stakes|
      modifies this, pending
      ensures Valid() <==> lo < hi || Track(committee, old(ops), lo).Some?
      ensures Tracks(committee, ops, pending.map_)
      ensures if lo < hi then end == hi else EndsAt(old(pending.map_), lo, end)
      ensures ops == old(ops) + if lo < end then [Register(lo, end, author)] else []
      ensures Increasing(duplicates)
        && forall k: nat :: k in duplicates <==> lo <= k < end && Track(committee, old(ops), k).Some?
      ensures lo < hi && (forall k: nat :: lo <= k < hi ==> Track(committee, old(ops), k).None?) ==>
        EndsAt(pending.map_, lo, hi)
    {
      hide Tracks, Partition, Applied, At, Covered, Store, Increasing, Disjoint, NeverNone, SelectedBy, Track, Cutting;
      var c := committee;
      ghost var before := pending.map_;
      var f := (l: nat, h: nat, v: Option<Aggregate>) => Registered(c, v, author);
      CoveredIsTracked(c, ops, before, lo);
      var calls := pending.MutateRange(lo, hi, f);
      end := calls[|calls| - 1].hi;
      EndsBehind(calls, lo, end);
      CallEnds(c, ops, before, calls, lo, hi, pending.map_, f);
      if lo == hi && calls[0].hi == lo {
        NothingAt(c, ops, before, pending.map_, lo);
        duplicates := [];
        NoneIncreasing();
        return;
      }
      duplicates := Select(calls, lo, end, (v: Option<Aggregate>) => v.Some?);
      ops := ops + [Register(lo, end, author)];
      ghost var op := Register(lo, end, author);
      CallsReport(c, old(ops), op, calls, before, pending.map_, f, duplicates, (v: Option<Aggregate>) => v.Some?);
      CallsTrack(c, old(ops), op, calls, before, pending.map_, f);
      if lo < hi && forall k: nat :: lo <= k < hi ==> Track(c, old(ops), k).None? {
        OneCallOnly(c, old(ops), before, calls, lo, hi, pending.map_, f);
      }
    }

    /** Count a vote for every offset of a range; `processed` are the offsets it completes, `unknown` those that are not
        tracked. A vote for an empty range at a tracked offset counts for that offset, and for those behind it up to the
        end of the stored interval, which all have the same votes; otherwise an empty range changes nothing. */
    method VoteRange(lo: nat, hi: nat, author: nat) returns (processed: seq<nat>, unknown: seq<nat>, ghost end: nat)
      requires Valid() && lo <= hi && author < |committee.stakes|
      modifies this, pending
      ensures Valid() && if lo < hi then end == hi else EndsAt(old(pending.map_), lo, end)
      ensures lo == hi ==> lo <= end && (lo < end <==> Track(committee, old(ops), lo).Some?)
      ensures lo == hi && Track(committee, ops, lo).Some? ==> EndsAt(pending.map_, lo, end)
      ensures lo == hi ==> forall k: nat :: lo <= k < end ==>
        Track(committee, old(ops), k) == Track(committee, old(ops), lo)
      ensures ops == old(ops) + if lo < end then [Vote(lo, end, author)] else []
      ensures Increasing(processed) && forall k: nat :: k in processed <==>
        lo <= k < end && Processed(committee, ops, k, |old(ops)|)
      ensures Increasing(unknown) && forall k: nat :: k in unknown <==>
        lo <= k < hi && Track(committee, old(ops), k).None?
    {
      hide Tracks, Partition, Applied, At, Covered, Store, Increasing, Disjoint, NeverNone, SelectedBy, Processed,
        Track, Voted, Cutting, EndsAt;
      var c := committee;
      ghost var before := pending.map_;
      var f := (l: nat, h: nat, v: Option<Aggregate>) => Voted(c, v, author);
      CoveredIsTracked(c, ops, before, lo);
      var calls := pending.MutateRange(lo, hi, f);
      end := calls[|calls| - 1].hi;
      EndsBehind(calls, lo, end);
      CallEnds(c, ops, before, calls, lo, hi, pending.map_, f);
      if lo == hi && calls[0].hi == lo {
        NothingVoted(c, ops, calls, before, lo, author);
        return [], [], lo;
      }
      processed := Select(calls, lo, end, (v: Option<Aggregate>) => Completes(c, v, author));
      unknown := Select(calls, lo, end, (v: Option<Aggregate>) => v.None?);
      ops := ops + [Vote(lo, end, author)];
      ghost var op := Vote(lo, end, author);
      CallsReport(c, old(ops), op, calls, before, pending.map_, f, processed,
                  (v: Option<Aggregate>) => Completes(c, v, author));
      CallsReport(c, old(ops), op, calls, before, pending.map_, f, unknown, (v: Option<Aggregate>) => v.None?);
      VotesReported(c, old(ops), op, processed);
      CallsTrack(c, old(ops), op, calls, before, pending.map_, f);
      if lo == hi {
        CallStays(c, ops, calls, hi, before, pending.map_, f);
        OneCall(c, old(ops), calls, before, pending.map_, f);
      }
    }
  }

  /** `end` is the end of the interval around `lo`, or `lo` itself when there is none. */
  ghost predicate EndsAt(m: Intervals<Aggregate>, lo: nat, end: nat) {
    if Covered(m, lo) then exists s: nat :: Covers(m, s, lo) && m[s].end == end else end == lo
  }

  /** Where the call on an empty range ends. */
  lemma CallEnds(c: Committee, ops: seq<Op>, before: Intervals<Aggregate>, calls: seq<Call<Aggregate>>, lo: nat,
                 hi: nat,
                 after: Intervals<Aggregate>, f: (nat, nat, Option<Aggregate>) -> Option<Aggregate>)
    requires calls != [] && calls[0].lo == lo && Cutting(calls, hi, before, after, f)
    ensures lo == hi && |calls| == 1 ==> EndsAt(before, lo, calls[|calls| - 1].hi)
  {
    if lo == hi && |calls| == 1 {
      assert Stretch(before, lo, hi, calls[0].hi);
      if Covered(before, lo) {
        var s: nat :| Covers(before, s, lo);
        assert before[s].end == calls[0].hi;
      }
    }
  }

  /** What a call leaves is one interval. */
  lemma CallStays(c: Committee, ops: seq<Op>, calls: seq<Call<Aggregate>>, hi: nat, before: Intervals<Aggregate>,
                  after: Intervals<Aggregate>, f: (nat, nat, Option<Aggregate>) -> Option<Aggregate>)
    requires |calls| == 1 && calls[0].lo < calls[0].hi && Cutting(calls, hi, before, after, f)
    requires Tracks(c, ops, after) && Applied(calls, before, after, f)
    ensures Track(c, ops, calls[0].lo).Some? ==> EndsAt(after, calls[0].lo, calls[0].hi)
  {
    var call := calls[0];
    assert At(after, call.lo) == f(call.lo, call.hi, call.value);
    if Track(c, ops, call.lo).Some? {
      assert Covers(after, call.lo, call.lo);
    }
  }

  lemma EndsSame(m: Intervals<Aggregate>, lo: nat, end: nat, k: nat, end': nat)
    requires Disjoint(m) && EndsAt(m, lo, end) && lo <= k < end && EndsAt(m, k, end')
    ensures end' == end
  {
    var s: nat :| Covers(m, s, lo) && m[s].end == end;
    assert Covers(m, s, k);
    forall t: nat | Covers(m, t, k) ensures t == s {
    }
  }

  /** A range of which nothing is tracked becomes one interval. */
  lemma OneCallOnly(c: Committee, ops: seq<Op>, before: Intervals<Aggregate>, calls: seq<Call<Aggregate>>, lo: nat,
                    hi: nat, after: Intervals<Aggregate>, f: (nat, nat, Option<Aggregate>) -> Option<Aggregate>)
    requires Tracks(c, ops, before) && Disjoint(before) && NeverNone(before) && calls != [] && calls[0].lo == lo < hi
    requires Cutting(calls, hi, before, after, f) && forall l: nat, h: nat, v :: f(l, h, v).Some?
    requires forall k: nat :: lo <= k < hi ==> Track(c, ops, k).None?
    ensures EndsAt(after, lo, hi)
  {
    forall k: nat | lo <= k < hi ensures !Covered(before, k) {
      CoveredIsTracked(c, ops, before, k);
    }
    var call := calls[0];
    assert Stretch(before, lo, hi, call.hi);
    assert !Covered(before, lo) && (call.hi < hi ==> !Covered(before, call.hi));
    assert call.hi in before ==> Covers(before, call.hi, call.hi);
    assert call.hi == hi && f(lo, call.hi, call.value).Some?;
    assert Covers(after, lo, lo) && after[lo].end == hi;
  }

  lemma NoneIncreasing()
    ensures Increasing([])
  {
  }

  lemma NothingAt(c: Committee, ops: seq<Op>, before: Intervals<Aggregate>, after: Intervals<Aggregate>, lo: nat)
    requires Tracks(c, ops, before) && forall k: nat :: At(after, k) == At(before, k)
    ensures Tracks(c, ops, after)
  {
  }

  lemma VotesReported(c: Committee, ops: seq<Op>, op: Op, processed: seq<nat>)
    requires OpsOk(c, ops) && OpOk(c, op) && op.Vote?
    requires forall k: nat :: k in processed <==> Touches(op, k) && Completes(c, Track(c, ops, k), op.author)
    ensures OpsOk(c, ops + [op]) && forall k: nat :: k in processed <==>
      Touches(op, k) && Processed(c, ops + [op], k, |ops|)
  {
    assert (ops + [op])[..|ops|] == ops && (ops + [op])[|ops|] == op;
  }

  /** Voting for nothing stored leaves nothing behind. */
  lemma NothingVoted(c: Committee, ops: seq<Op>, calls: seq<Call<Aggregate>>, before: Intervals<Aggregate>, lo: nat,
                     author: nat)
    requires Disjoint(before) && author < |c.stakes|
    ensures Voted(c, None, author) == None && Increasing([])
    ensures !Covered(before, lo) ==> Store(before, lo, lo, None) == before
  {
    assert lo in before ==> Covers(before, lo, lo);
  }

  /** Nothing is stored for an offset that is not tracked. */
  lemma CoveredIsTracked(c: Committee, ops: seq<Op>, m: Intervals<Aggregate>, k: nat)
    requires Tracks(c, ops, m) && Disjoint(m) && NeverNone(m)
    ensures OpsOk(c, ops) && (Covered(m, k) <==> Track(c, ops, k).Some?)
  {
    if s: nat :| Covers(m, s, k) {
      AtCovered(m, s, k);
    }
  }

  lemma EndsBehind(calls: seq<Call<Aggregate>>, lo: nat, hi: nat)
    ensures Partition(calls, lo, hi) && calls != [] ==> lo < hi
  {
    if Partition(calls, lo, hi) {
      PartitionInside(calls, lo, hi);
    }
  }

  /** A single call saw one value. */
  lemma OneCall(c: Committee, ops: seq<Op>, calls: seq<Call<Aggregate>>, before: Intervals<Aggregate>,
                after: Intervals<Aggregate>,
                f: (nat, nat, Option<Aggregate>) -> Option<Aggregate>)
    requires Tracks(c, ops, before) && |calls| == 1 && Applied(calls, before, after, f)
    ensures forall k: nat :: calls[0].lo <= k < calls[0].hi ==> Track(c, ops, k) == calls[0].value
  {
    forall k: nat | calls[0].lo <= k < calls[0].hi ensures Track(c, ops, k) == calls[0].value {
      assert At(before, k) == calls[0].value;
    }
  }

  ghost predicate Tracks(c: Committee, ops: seq<Op>, m: Intervals<Aggregate>) {
    && OpsOk(c, ops)
    && forall k: nat :: At(m, k) == Track(c, ops, k)
  }

  /** The offsets of the calls whose value satisfies `p`, in order. */
  method Select(calls: seq<Call<Aggregate>>, ghost lo: nat, ghost hi: nat, p: Option<Aggregate> -> bool)
      returns (offsets: seq<nat>)
    requires Partition(calls, lo, hi)
    ensures forall k: nat :: k in offsets <==> SelectedBy(calls, |calls|, p, k)
    ensures Increasing(offsets)
  {
    PartitionInside(calls, lo, hi);
    offsets := [];
    for x := 0 to |calls|
      invariant forall k: nat :: k in offsets <==> SelectedBy(calls, x, p, k)
      invariant Increasing(offsets) && forall o :: o in offsets ==> x == 0 || o < calls[x - 1].hi
    {
      ghost var before := offsets;
      if p(calls[x].value) {
        for k := calls[x].lo to calls[x].hi
          invariant forall o :: o in offsets <==> o in before || calls[x].lo <= o < k
          invariant Increasing(offsets) && forall o :: o in offsets ==> o < k
        {
          assert forall y :: 0 <= y < |offsets| ==> offsets[y] in offsets;
          offsets := offsets + [k];
        }
      }
      SelectedNext(calls, x, p);
    }
  }

  /** Each offset once, in order. */
  ghost predicate Increasing(q: seq<nat>) {
    forall x, y :: 0 <= x < y < |q| ==> q[x] < q[y]
  }

  ghost predicate SelectedBy(calls: seq<Call<Aggregate>>, n: nat, p: Option<Aggregate> -> bool, k: nat)
    requires n <= |calls|
  {
    exists x :: 0 <= x < n && calls[x].lo <= k < calls[x].hi && p(calls[x].value)
  }

  lemma SelectedNext(calls: seq<Call<Aggregate>>, x: nat, p: Option<Aggregate> -> bool)
    requires x < |calls|
    ensures forall k: nat :: SelectedBy(calls, x + 1, p, k) <==>
      SelectedBy(calls, x, p, k) || (calls[x].lo <= k < calls[x].hi && p(calls[x].value))
  {
    forall k: nat ensures SelectedBy(calls, x + 1, p, k) <==>
      SelectedBy(calls, x, p, k) || (calls[x].lo <= k < calls[x].hi && p(calls[x].value)) {
      if SelectedBy(calls, x, p, k) {
        var y :| 0 <= y < x && calls[y].lo <= k < calls[y].hi && p(calls[y].value);
        assert 0 <= y < x + 1;
      }
    }
  }

  /** The value of an offset after one more operation. */
  ghost function Next(c: Committee, op: Op, v: Option<Aggregate>): Option<Aggregate>
    requires OpOk(c, op)
  {
    if op.Register? then Registered(c, v, op.author) else Voted(c, v, op.author)
  }

  lemma TrackNext(c: Committee, ops: seq<Op>, op: Op, k: nat)
    requires OpsOk(c, ops) && OpOk(c, op)
    ensures OpsOk(c, ops + [op]) && Track(c, ops + [op], k) == if Touches(op, k) then Next(c, op, Track(c, ops, k))
      else Track(c, ops, k)
  {
    assert (ops + [op])[..|ops|] == ops;
  }

  /** What the calls of one operation leave behind. */
  lemma CallsTrack(c: Committee, ops: seq<Op>, op: Op, calls: seq<Call<Aggregate>>, before: Intervals<Aggregate>,
                   after: Intervals<Aggregate>,
                   f: (nat, nat, Option<Aggregate>) -> Option<Aggregate>)
    requires Tracks(c, ops, before) && OpOk(c, op) && Partition(calls, op.lo, op.hi) && Applied(calls, before, after, f)
    requires forall k: nat :: !Touches(op, k) ==> At(after, k) == At(before, k)
    requires forall l: nat, h: nat, v :: f(l, h, v) == Next(c, op, v)
    ensures Tracks(c, ops + [op], after)
  {
    forall k: nat ensures At(after, k) == Track(c, ops + [op], k) {
      TrackNext(c, ops, op, k);
      if Touches(op, k) {
        PartitionCovers(calls, op.lo, op.hi, k);
        var x :| 0 <= x < |calls| && calls[x].lo <= k < calls[x].hi;
        assert f(calls[x].lo, calls[x].hi, calls[x].value) == Next(c, op, calls[x].value);
      }
    }
  }

  /** What the calls of one operation report. */
  lemma CallsReport(c: Committee, ops: seq<Op>, op: Op, calls: seq<Call<Aggregate>>, before: Intervals<Aggregate>,
                    after: Intervals<Aggregate>,
                    f: (nat, nat, Option<Aggregate>) -> Option<Aggregate>, offsets: seq<nat>,
                      p: Option<Aggregate> -> bool)
    requires Tracks(c, ops, before) && OpOk(c, op) && Partition(calls, op.lo, op.hi) && Applied(calls, before, after, f)
    requires forall k: nat :: k in offsets <==> SelectedBy(calls, |calls|, p, k)
    ensures forall k: nat :: k in offsets <==> Touches(op, k) && p(Track(c, ops, k))
  {
    PartitionInside(calls, op.lo, op.hi);
    forall k: nat ensures SelectedBy(calls, |calls|, p, k) <==> Touches(op, k) && p(Track(c, ops, k)) {
      if Touches(op, k) {
        PartitionCovers(calls, op.lo, op.hi, k);
        var x :| 0 <= x < |calls| && calls[x].lo <= k < calls[x].hi;
        assert At(before, k) == calls[x].value;
      }
    }
  }

  /** Four authorities, a registration of 0 to 10, and two votes for no offset at all: 5 to 10 are reported. */
  method EmptyVotesComplete() returns (processed: seq<nat>)
    ensures forall k: nat :: k in processed <==> 5 <= k < 10
  {
    hide Tracks, Increasing, Disjoint, NeverNone, EndsAt, Processed;
    var c := Committee([1, 1, 1, 1]);
    assert TotalBelow(c, 2) == 2 && Total(c) == 4;
    var aggregator := new TransactionAggregator(c);
    var duplicates, unknown;
    ghost var end, end';
    duplicates, end := aggregator.RegisterRange(0, 10, 0);
    ghost var registered, m := aggregator.ops, aggregator.pending.map_;
    TrackNext(c, [], Register(0, 10, 0), 5);
    assert EMPTY.votes + {0} == {0} && Track(c, registered, 5) == Some(Aggregate({0}, 1));
    processed, unknown, end := aggregator.VoteRange(5, 5, 1);
    EndsSame(m, 0, 10, 5, end);
    ghost var voted := aggregator.ops;
    m := aggregator.pending.map_;
    TrackNext(c, registered, Vote(5, end, 1), 5);
    assert {0} + {1} == {0, 1} && Track(c, voted, 5) == Some(Aggregate({0, 1}, 2));
    processed, unknown, end' := aggregator.VoteRange(5, 5, 2);
    EndsSame(m, 5, 10, 5, end');
    forall k: nat | 5 <= k < 10 ensures Processed(c, aggregator.ops, k, |voted|) {
      Completed(c, voted, Vote(5, 10, 2), k);
    }
  }

  lemma Completed(c: Committee, ops: seq<Op>, op: Op, k: nat)
    requires OpsOk(c, ops) && OpOk(c, op) && op.Vote? && Touches(op, k) && Completes(c, Track(c, ops, k), op.author)
    ensures OpsOk(c, ops + [op]) && Processed(c, ops + [op], k, |ops|)
  {
    assert (ops + [op])[..|ops|] == ops;
  }
}

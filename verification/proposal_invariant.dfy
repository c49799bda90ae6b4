/** What the queue of `core.rs` keeps, so that a proposal always finds a quorum of the
    previous round in front of the first block that is too new for it. */
module ProposalInvariant {
  import opened BlockManagement
  import opened CommitteeStake
  import opened ThresholdClock

  datatype MetaStatement = Include(reference: BlockReference) | Payload(statements: seq<nat>)

  /** A queued statement and its position in the write-ahead log. */
  datatype Item = Item(position: nat, statement: MetaStatement)

  predicate IsRef(i: Item, r: BlockReference) {
    i.statement == Include(r)
  }

  /** The included references of the queue, with the last own block in front. */
  function Known(own: BlockReference, pending: seq<Item>): seq<BlockReference> {
    if pending == [] then [own]
    else
      var last := pending[|pending| - 1].statement;
      Known(own, pending[..|pending| - 1]) + if last.Include? then [last.reference] else []
  }

  lemma {:induction false} KnownHas(own: BlockReference, pending: seq<Item>, r: BlockReference)
    ensures r in Known(own, pending) <==> r == own || exists x :: 0 <= x < |pending| && IsRef(pending[x], r)
  {
    if pending != [] {
      var front := pending[..|pending| - 1];
      KnownHas(own, front, r);
      assert pending == front + [pending[|pending| - 1]];
      if x :| 0 <= x < |pending| && IsRef(pending[x], r) {
        assert x < |front| ==> IsRef(front[x], r);
      }
      if x :| 0 <= x < |front| && IsRef(front[x], r) {
        assert IsRef(pending[x], r);
      }
    }
  }

  /** A quorum of authorities has a block of round `r` in the queue or as last own block. */
  ghost predicate QuorumAt(c: Committee, own: BlockReference, pending: seq<Item>, r: nat) {
    IsQuorum(c, StakeOf(c, AuthoritiesAt(Known(own, pending), r)))
  }

  lemma QuorumCarries(c: Committee, refs: seq<BlockReference>, refs': seq<BlockReference>, r: nat)
    requires IsQuorum(c, StakeOf(c, AuthoritiesAt(refs, r))) && forall x :: x in refs && x.round == r ==> x in refs'
    ensures IsQuorum(c, StakeOf(c, AuthoritiesAt(refs', r)))
  {
    QuorumGrows(c, AuthoritiesAt(refs, r), AuthoritiesAt(refs', r));
  }

  lemma QuorumLonger(c: Committee, own: BlockReference, pending: seq<Item>, x: nat, r: nat)
    requires x <= |pending| && QuorumAt(c, own, pending[..x], r)
    ensures QuorumAt(c, own, pending, r)
  {
    forall b | b in Known(own, pending[..x]) ensures b in Known(own, pending) {
      KnownHas(own, pending[..x], b);
      KnownHas(own, pending, b);
      if y :| 0 <= y < x && IsRef(pending[..x][y], b) {
        assert IsRef(pending[y], b);
      }
    }
    QuorumCarries(c, Known(own, pending[..x]), Known(own, pending), r);
  }

  /** In front of a queued block of round `r` there is a quorum for every round from `floor` to `r`. The floor is the
      round of the last own block, unless older blocks were lost. */
  ghost predicate QueuedAfterQuorum(c: Committee, own: BlockReference, floor: nat, pending: seq<Item>) {
    forall x, b, t: nat :: 0 <= x < |pending| && IsRef(pending[x], b) && floor <= t < b.round ==>
      QuorumAt(c, own, pending[..x], t)
  }

  /** So it is in front of the round of the clock; a clock that was rebuilt may stand behind the last own block. */
  ghost predicate ClockAfterQuorum(c: Committee, own: BlockReference, floor: nat, pending: seq<Item>, clock: Clock) {
    forall t: nat :: floor <= t < clock.round ==> QuorumAt(c, own, pending, t)
  }

  /** The votes of the clock are blocks of its round. */
  ghost predicate VotesQueued(c: Committee, own: BlockReference, pending: seq<Item>, clock: Clock) {
    AggregateOk(c, clock.aggregate) && clock.aggregate.votes <= AuthoritiesAt(Known(own, pending), clock.round)
  }

  /** Every stored block that is not older than `floor` is queued, or is the last own block. */
  ghost predicate StoredIsQueued(own: BlockReference, floor: nat, pending: seq<Item>, stored: set<BlockReference>) {
    && (forall s :: s in stored && s.round >= floor ==> s in Known(own, pending))
    && (forall s :: s in Known(own, pending) ==> s in stored)
  }

  ghost predicate Queue(c: Committee, own: BlockReference, floor: nat, pending: seq<Item>, clock: Clock,
                        stored: set<BlockReference>) {
    && QueuedAfterQuorum(c, own, floor, pending) && ClockAfterQuorum(c, own, floor, pending, clock)
    && own.round <= floor && VotesQueued(c, own, pending, clock) && StoredIsQueued(own, floor, pending, stored)
    && (forall s :: s in stored ==> s.authority < |c.stakes|)
  }

  // ---------------------------------------------------------------- appending

  lemma KnownAppend(own: BlockReference, pending: seq<Item>, i: Item)
    ensures Known(own, pending + [i]) == Known(own, pending) + if i.statement.Include? then [i.statement.reference]
      else []
  {
    assert (pending + [i])[..|pending|] == pending;
  }

  /** A block that passed verification and whose includes are stored. */
  ghost predicate Ingestible(c: Committee, b: Block, stored: set<BlockReference>) {
    b.reference.authority < |c.stakes| && AllStored(b.includes, stored) && ClockValid(c, b)
  }

  /** A block that can be queued: a genesis block at the start, or an ingestible one. */
  ghost predicate Queueable(c: Committee, b: Block, stored: set<BlockReference>) {
    Ingestible(c, b, stored) || (b.reference.authority < |c.stakes| && b.reference.round == 0 && b.includes == [])
  }

  /** A quorum of every round from the last own block up to the round of a new block is already queued. */
  lemma NewBlockHasQuorums(c: Committee, own: BlockReference, floor: nat, pending: seq<Item>, clock: Clock,
                           stored: set<BlockReference>, b: Block, t: nat)
    requires Queue(c, own, floor, pending, clock, stored) && Queueable(c, b, stored) && floor <= t < b.reference.round
    ensures QuorumAt(c, own, pending, t)
  {
    var r := b.reference.round - 1;
    var here := AuthoritiesAt(b.includes, r);
    if t == r {
      QuorumCarries(c, b.includes, Known(own, pending), r);
    } else {
      var a := QuorumHasMember(c, here);
      var i :| i in b.includes && i.round == r && i.authority == a;
      assert i in Known(own, pending);
      KnownHas(own, pending, i);
      var x :| 0 <= x < |pending| && IsRef(pending[x], i);
      assert QuorumAt(c, own, pending[..x], t);
      QuorumLonger(c, own, pending, x, t);
    }
  }

  lemma AppendQueued(c: Committee, own: BlockReference, floor: nat, pending: seq<Item>, i: Item)
    requires QueuedAfterQuorum(c, own, floor, pending)
    requires i.statement.Include? ==> forall t: nat :: floor <= t < i.statement.reference.round ==>
      QuorumAt(c, own, pending, t)
    ensures QueuedAfterQuorum(c, own, floor, pending + [i])
  {
    var q := pending + [i];
    forall x, b, t: nat | 0 <= x < |q| && IsRef(q[x], b) && floor <= t < b.round
      ensures QuorumAt(c, own, q[..x], t) {
      if x < |pending| {
        assert IsRef(pending[x], b) && q[..x] == pending[..x];
      } else {
        assert q[..x] == pending;
      }
    }
  }

  /** The clock moves to a round only when a quorum of the round before is known. */
  lemma TickKeeps(c: Committee, own: BlockReference, floor: nat, pending: seq<Item>, pending': seq<Item>, clock: Clock,
                  b: BlockReference)
    requires ClockAfterQuorum(c, own, floor, pending, clock) && VotesQueued(c, own, pending, clock)
      && b.authority < |c.stakes|
    requires forall x :: x in Known(own, pending) ==> x in Known(own, pending')
    requires b in Known(own, pending')
    requires forall t: nat :: floor <= t < b.round ==> QuorumAt(c, own, pending, t)
    ensures ClockAfterQuorum(c, own, floor, pending', Tick(c, clock, b))
      && VotesQueued(c, own, pending', Tick(c, clock, b))
  {
    forall t: nat | floor <= t && QuorumAt(c, own, pending, t) ensures QuorumAt(c, own, pending', t) {
      QuorumCarries(c, Known(own, pending), Known(own, pending'), t);
    }
    EmptyOk(c);
    AddVoteOk(c, EMPTY, b.authority);
    AddVoteOk(c, clock.aggregate, b.authority);
    if b.round == clock.round {
      var a := AddVote(c, clock.aggregate, b.authority);
      assert a.votes <= AuthoritiesAt(Known(own, pending'), b.round);
      if IsQuorum(c, a.stake) {
        QuorumGrows(c, a.votes, AuthoritiesAt(Known(own, pending'), b.round));
      }
    }
  }

  lemma AppendBlock(c: Committee, own: BlockReference, floor: nat, pending: seq<Item>, clock: Clock,
                    stored: set<BlockReference>,
                    b: Block, position: nat)
    requires Queue(c, own, floor, pending, clock, stored) && Queueable(c, b, stored)
    ensures Queue(c, own, floor, pending + [Item(position, Include(b.reference))], Tick(c, clock, b.reference),
      stored + {b.reference})
  {
    var i := Item(position, Include(b.reference));
    KnownAppend(own, pending, i);
    forall t: nat | floor <= t < b.reference.round ensures QuorumAt(c, own, pending, t) {
      NewBlockHasQuorums(c, own, floor, pending, clock, stored, b, t);
    }
    AppendQueued(c, own, floor, pending, i);
    TickKeeps(c, own, floor, pending, pending + [i], clock, b.reference);
  }

  lemma AppendPayload(c: Committee, own: BlockReference, floor: nat, pending: seq<Item>, clock: Clock,
                      stored: set<BlockReference>,
                      position: nat, p: seq<nat>)
    requires Queue(c, own, floor, pending, clock, stored)
    ensures Queue(c, own, floor, pending + [Item(position, Payload(p))], clock, stored)
  {
    var i := Item(position, Payload(p));
    KnownAppend(own, pending, i);
    assert Known(own, pending + [i]) == Known(own, pending);
    assert forall t: nat :: QuorumAt(c, own, pending + [i], t) == QuorumAt(c, own, pending, t);
    AppendQueued(c, own, floor, pending, i);
  }

  // ---------------------------------------------------------------- proposing

  /** The split point of `try_new_block`: the first include that is not older than the clock. */
  ghost predicate IsSplit(pending: seq<Item>, round: nat, at: nat) {
    && at <= |pending|
    && (forall x, b :: 0 <= x < at && IsRef(pending[x], b) ==> b.round < round)
    && (at < |pending| ==> pending[at].statement.Include? && pending[at].statement.reference.round >= round)
  }

  /** What is taken still covers a quorum of the previous round. */
  lemma TakenHasQuorum(c: Committee, own: BlockReference, floor: nat, pending: seq<Item>, clock: Clock,
                       stored: set<BlockReference>, at: nat)
    requires Queue(c, own, floor, pending, clock, stored) && floor < clock.round && IsSplit(pending, clock.round, at)
    ensures QuorumAt(c, own, pending[..at], clock.round - 1)
  {
    if at < |pending| {
      assert IsRef(pending[at], pending[at].statement.reference);
    } else {
      assert pending[..at] == pending;
    }
  }

  /** The rest of the queue keeps every block that is not older than the new own block. */
  lemma RestKeeps(own: BlockReference, own': BlockReference, pending: seq<Item>, at: nat, x: nat, r: nat,
                  b: BlockReference)
    requires IsSplit(pending, own'.round, at) && at <= x <= |pending| && own.round < own'.round <= r
    requires b in Known(own, pending[..x]) && b.round == r
    ensures b in Known(own', pending[at..][..x - at])
  {
    KnownHas(own, pending[..x], b);
    var y :| 0 <= y < x && IsRef(pending[..x][y], b);
    assert IsRef(pending[y], b);
    KnownHas(own', pending[at..][..x - at], b);
    assert IsRef(pending[at..][..x - at][y - at], b);
  }

  lemma RestQueued(c: Committee, own: BlockReference, floor: nat, own': BlockReference, pending: seq<Item>, at: nat)
    requires QueuedAfterQuorum(c, own, floor, pending) && IsSplit(pending, own'.round, at) && own.round < own'.round
      && floor <= own'.round
    ensures QueuedAfterQuorum(c, own', own'.round, pending[at..])
  {
    var q := pending[at..];
    forall x, b, t: nat | 0 <= x < |q| && IsRef(q[x], b) && own'.round <= t < b.round
      ensures QuorumAt(c, own', q[..x], t) {
      assert IsRef(pending[at + x], b) && QuorumAt(c, own, pending[..at + x], t);
      forall s | s in Known(own, pending[..at + x]) && s.round == t ensures s in Known(own', q[..x]) {
        RestKeeps(own, own', pending, at, at + x, t, s);
      }
      QuorumCarries(c, Known(own, pending[..at + x]), Known(own', q[..x]), t);
    }
  }

  lemma RestStored(own: BlockReference, floor: nat, own': BlockReference, pending: seq<Item>, at: nat,
                   stored: set<BlockReference>)
    requires StoredIsQueued(own, floor, pending, stored) && IsSplit(pending, own'.round, at) && own.round < own'.round
      && floor <= own'.round
    ensures StoredIsQueued(own', own'.round, pending[at..], stored + {own'})
  {
    var q := pending[at..];
    assert pending[..|pending|] == pending && q[..|q|] == q;
    forall s | s in stored + {own'} && s.round >= own'.round ensures s in Known(own', q) {
      if s == own' {
        KnownHas(own', q, s);
      } else {
        RestKeeps(own, own', pending, at, |pending|, s.round, s);
      }
    }
    forall s | s in Known(own', q) ensures s in stored + {own'} {
      KnownHas(own', q, s);
      if x :| 0 <= x < |q| && IsRef(q[x], s) {
        assert IsRef(pending[at + x], s);
        KnownHas(own, pending, s);
      }
    }
  }

  /** After a proposal of round `clock.round` the invariant holds for the new own block and the rest of the queue. */
  lemma Proposes(c: Committee, own: BlockReference, floor: nat, own': BlockReference, pending: seq<Item>, clock: Clock,
                 stored: set<BlockReference>, at: nat)
    requires Queue(c, own, floor, pending, clock, stored) && own.round < clock.round == own'.round
      && floor <= clock.round
      && own'.authority < |c.stakes|
    requires IsSplit(pending, clock.round, at)
    ensures Queue(c, own', own'.round, pending[at..], Tick(c, clock, own'), stored + {own'})
  {
    var q := pending[at..];
    RestQueued(c, own, floor, own', pending, at);
    RestStored(own, floor, own', pending, at, stored);
    assert VotesQueued(c, own', q, clock) by {
      assert pending[..|pending|] == pending && q[..|q|] == q;
      forall a | a in clock.aggregate.votes ensures a in AuthoritiesAt(Known(own', q), clock.round) {
        var s :| s in Known(own, pending) && s.round == clock.round && s.authority == a;
        RestKeeps(own, own', pending, at, |pending|, clock.round, s);
      }
    }
    KnownHas(own', q, own');
    TickKeeps(c, own', own'.round, q, q, clock, own');
  }

  // ---------------------------------------------------------------- rebuilding the clock

  /** The clock that has seen the queued blocks and nothing else. */
  function Rebuilt(c: Committee, pending: seq<Item>): Clock {
    if pending == [] then Clock(EMPTY, 0)
    else
      var clock, last := Rebuilt(c, pending[..|pending| - 1]), pending[|pending| - 1].statement;
      if last.Include? && last.reference.authority < |c.stakes| then Tick(c, clock, last.reference) else clock
  }

  ghost function QueuedBlocks(pending: seq<Item>): set<BlockReference> {
    set x | 0 <= x < |pending| && pending[x].statement.Include? :: pending[x].statement.reference
  }

  /** The rebuilt clock is abreast of the queued blocks. */
  lemma {:induction false} RebuiltIsAbreast(c: Committee, pending: seq<Item>)
    requires forall x, b :: 0 <= x < |pending| && IsRef(pending[x], b) ==> b.authority < |c.stakes|
    ensures Abreast(c, Rebuilt(c, pending), QueuedBlocks(pending))
  {
    hide Abreast;
    if pending == [] {
      StartsAbreast(c);
      assert QueuedBlocks(pending) == {};
    } else {
      var front, last := pending[..|pending| - 1], pending[|pending| - 1];
      forall x, b | 0 <= x < |front| && IsRef(front[x], b) ensures b.authority < |c.stakes| {
        assert IsRef(pending[x], b);
      }
      RebuiltIsAbreast(c, front);
      QueuedNext(front, last);
      assert pending == front + [last];
      if last.statement.Include? {
        assert IsRef(pending[|front|], last.statement.reference);
        TickAbreast(c, Rebuilt(c, front), QueuedBlocks(front), last.statement.reference);
      } else {
        assert QueuedBlocks(pending) == QueuedBlocks(front);
      }
    }
  }

  lemma QueuedNext(front: seq<Item>, last: Item)
    ensures QueuedBlocks(front + [last]) ==
      QueuedBlocks(front) + if last.statement.Include? then {last.statement.reference} else {}
  {
    var q := front + [last];
    forall b | b in QueuedBlocks(front) ensures b in QueuedBlocks(q) {
      var x :| 0 <= x < |front| && front[x].statement.Include? && front[x].statement.reference == b;
      assert q[x] == front[x];
    }
    assert q[|front|] == last;
  }

  /** The rebuilt clock, too, has a quorum in front of every round between the last own block and its own. */
  lemma {:induction false} RebuiltKeeps(c: Committee, own: BlockReference, floor: nat, pending: seq<Item>)
    requires QueuedAfterQuorum(c, own, floor, pending)
    requires forall x, b :: 0 <= x < |pending| && IsRef(pending[x], b) ==> b.authority < |c.stakes|
    ensures ClockAfterQuorum(c, own, floor, pending, Rebuilt(c, pending))
      && VotesQueued(c, own, pending, Rebuilt(c, pending))
  {
    if pending == [] {
      EmptyOk(c);
    } else {
      var front, last := pending[..|pending| - 1], pending[|pending| - 1];
      assert pending == front + [last];
      FrontQueued(c, own, floor, front, last);
      RebuiltKeeps(c, own, floor, front);
      KnownAppend(own, front, last);
      if last.statement.Include? {
        var b := last.statement.reference;
        assert IsRef(pending[|front|], b) && pending[..|front|] == front;
        TickKeeps(c, own, floor, front, pending, Rebuilt(c, front), b);
      } else {
        assert Known(own, pending) == Known(own, front);
        assert forall t: nat :: QuorumAt(c, own, pending, t) == QuorumAt(c, own, front, t);
      }
    }
  }

  lemma FrontQueued(c: Committee, own: BlockReference, floor: nat, front: seq<Item>, last: Item)
    requires QueuedAfterQuorum(c, own, floor, front + [last])
    ensures QueuedAfterQuorum(c, own, floor, front)
    ensures forall x, b :: 0 <= x < |front| && IsRef(front[x], b) ==> IsRef((front + [last])[x], b)
  {
    var q := front + [last];
    forall x, b, t: nat | 0 <= x < |front| && IsRef(front[x], b) && floor <= t < b.round
      ensures QuorumAt(c, own, front[..x], t) {
      assert IsRef(q[x], b) && q[..x] == front[..x];
    }
  }

  /** A queue stays one when its clock is rebuilt. */
  lemma RebuiltQueue(c: Committee, own: BlockReference, floor: nat, pending: seq<Item>, clock: Clock,
                     stored: set<BlockReference>)
    requires Queue(c, own, floor, pending, clock, stored)
    ensures Queue(c, own, floor, pending, Rebuilt(c, pending), stored)
  {
    forall x, b | 0 <= x < |pending| && IsRef(pending[x], b) ensures b.authority < |c.stakes| {
      KnownHas(own, pending, b);
    }
    RebuiltKeeps(c, own, floor, pending);
  }

  /** The queue without its first `n` statements, which are the only ones of round 0, keeps everything from round 1 on,
      with a clock that has seen only what is left. */
  lemma LostQueue(c: Committee, own: BlockReference, floor: nat, pending: seq<Item>, clock: Clock,
                  stored: set<BlockReference>, n: nat)
    requires Queue(c, own, floor, pending, clock, stored) && own.round == 0 && floor <= 1 && n <= |pending|
    requires forall x :: 0 <= x < n ==> pending[x].statement.Include? && pending[x].statement.reference.round == 0
    ensures Queue(c, own, 1, pending[n..], Rebuilt(c, pending[n..]), stored)
  {
    var q := pending[n..];
    forall x, b, t: nat | 0 <= x < |q| && IsRef(q[x], b) && 1 <= t < b.round ensures QuorumAt(c, own, q[..x], t) {
      assert IsRef(pending[n + x], b) && QuorumAt(c, own, pending[..n + x], t);
      forall s | s in Known(own, pending[..n + x]) && s.round == t ensures s in Known(own, q[..x]) {
        LostKeeps(own, pending, n, n + x, s);
      }
      QuorumCarries(c, Known(own, pending[..n + x]), Known(own, q[..x]), t);
    }
    assert pending[..|pending|] == pending && q[..|q|] == q;
    forall s | s in stored && s.round >= 1 ensures s in Known(own, q) {
      LostKeeps(own, pending, n, |pending|, s);
    }
    forall s | s in Known(own, q) ensures s in stored && s.authority < |c.stakes| {
      KnownHas(own, q, s);
      KnownHas(own, pending, s);
      if x :| 0 <= x < |q| && IsRef(q[x], s) {
        assert IsRef(pending[n + x], s);
      }
    }
    forall x, b | 0 <= x < |q| && IsRef(q[x], b) ensures b.authority < |c.stakes| {
      KnownHas(own, q, b);
    }
    RebuiltKeeps(c, own, 1, q);
  }

  lemma LostKeeps(own: BlockReference, pending: seq<Item>, n: nat, x: nat, b: BlockReference)
    requires n <= x <= |pending| && b in Known(own, pending[..x]) && b.round > 0
    requires forall y :: 0 <= y < n ==> pending[y].statement.Include? && pending[y].statement.reference.round == 0
    ensures own.round == 0 ==> b in Known(own, pending[n..][..x - n])
  {
    KnownHas(own, pending[..x], b);
    KnownHas(own, pending[n..][..x - n], b);
    if y :| 0 <= y < x && IsRef(pending[..x][y], b) {
      assert IsRef(pending[y], b) && y >= n;
      assert IsRef(pending[n..][..x - n][y - n], b);
    }
  }
}

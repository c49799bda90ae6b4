/** `threshold_clock.rs`: which blocks a block must include, and the clock that says when enough are known. */
module ThresholdClock {
  import opened BlockManagement
  import opened CommitteeStake

  /** The authorities with a reference at round `r`. */
  ghost function AuthoritiesAt(refs: seq<BlockReference>, r: nat): set<nat> {
    set x | x in refs && x.round == r :: x.authority
  }

  /** A block may follow its includes: all of lower round, and a quorum of authorities in the round before. */
  ghost predicate ClockValid(c: Committee, b: Block) {
    && (forall i :: i in b.includes ==> i.round < b.reference.round)
    && b.reference.round > 0
    && IsQuorum(c, StakeOf(c, AuthoritiesAt(b.includes, b.reference.round - 1)))
  }

  ghost predicate KnownAuthorities(c: Committee, b: Block) {
    b.reference.authority < |c.stakes| && forall i :: i in b.includes ==> i.authority < |c.stakes|
  }

  /** `threshold_clock_valid_non_genesis`: two passes over the includes and a stake aggregator. */
  method ThresholdClockValid(block: Block, committee: Committee) returns (valid: bool)
    requires block.reference.round > 0 && KnownAuthorities(committee, block)
    ensures valid <==> ClockValid(committee, block)
  {
    var includes, round := block.includes, block.reference.round;
    for x := 0 to |includes|
      invariant forall y :: 0 <= y < x ==> includes[y].round < round
    {
      if includes[x].round >= round {
        return false;
      }
    }
    var aggregator, isQuorum := EMPTY, false;
    EmptyOk(committee);
    for x := 0 to |includes|
      invariant AggregateOk(committee, aggregator) && aggregator.votes == AuthoritiesAt(includes[..x], round - 1)
      invariant isQuorum <==> IsQuorum(committee, StakeOf(committee, aggregator.votes))
    {
      AuthoritiesNext(includes, x, round - 1);
      if includes[x].round == round - 1 {
        assert includes[x] in includes;
        AddVoteOk(committee, aggregator, includes[x].authority);
        aggregator := AddVote(committee, aggregator, includes[x].authority);
        isQuorum := IsQuorum(committee, aggregator.stake);
      }
    }
    assert includes[..|includes|] == includes;
    return isQuorum;
  }

  lemma AuthoritiesNext(refs: seq<BlockReference>, x: nat, r: nat)
    requires x < |refs|
    ensures AuthoritiesAt(refs[..x + 1], r) ==
      AuthoritiesAt(refs[..x], r) + if refs[x].round == r then {refs[x].authority} else {}
  {
    assert refs[..x + 1] == refs[..x] + [refs[x]];
    assert forall i :: i in refs[..x + 1] <==> i in refs[..x] || i == refs[x];
  }

  datatype Clock = Clock(aggregate: Aggregate, round: nat)

  /** The clock after one more block: a block of the current round votes for the next one, a later block moves the
      clock to its round. */
  function Tick(c: Committee, clock: Clock, b: BlockReference): Clock
    requires b.authority < |c.stakes|
  {
    if b.round < clock.round then clock
    else if b.round > clock.round then Clock(AddVote(c, EMPTY, b.authority), b.round)
    else
      var a := AddVote(c, clock.aggregate, b.authority);
      if IsQuorum(c, a.stake) then Clock(EMPTY, b.round + 1) else Clock(a, b.round)
  }

  // ---------------------------------------------------------------- how far the clock is

  ghost function VotersAt(seen: set<BlockReference>, r: nat): set<nat> {
    set x | x in seen && x.round == r :: x.authority
  }

  ghost predicate QuorumSeen(c: Committee, seen: set<BlockReference>, r: nat) {
    IsQuorum(c, StakeOf(c, VotersAt(seen, r)))
  }

  /** A single block of an authority that is a quorum on its own. */
  ghost predicate Alone(c: Committee, seen: set<BlockReference>, r: nat) {
    exists x :: x in seen && x.round == r && IsQuorum(c, StakeOf(c, {x.authority}))
                && forall y :: y in seen && y.round == r ==> y == x
  }

  /** The clock stands at the newest round seen or right after a round with a quorum. */
  ghost predicate NotAhead(c: Committee, clock: Clock, seen: set<BlockReference>) {
    clock.round == 0 || (exists x :: x in seen && x.round == clock.round) || QuorumSeen(c, seen, clock.round - 1)
  }

  /** The clock is past every round with a quorum, except that a block which moves the clock and is a quorum by itself
      waits for another one. */
  ghost predicate NotBehind(c: Committee, clock: Clock, seen: set<BlockReference>) {
    && (forall x :: x in seen ==> x.round <= clock.round)
    && forall r: nat :: QuorumSeen(c, seen, r) ==> r < clock.round || (r == clock.round && Alone(c, seen, r))
  }

  /** The clock is neither ahead nor behind, and has counted exactly the authorities of its round. */
  ghost predicate Abreast(c: Committee, clock: Clock, seen: set<BlockReference>) {
    && AggregateOk(c, clock.aggregate) && clock.aggregate.votes == VotersAt(seen, clock.round)
    && NotAhead(c, clock, seen) && NotBehind(c, clock, seen)
  }

  lemma QuorumHasBlock(c: Committee, seen: set<BlockReference>, r: nat)
    ensures QuorumSeen(c, seen, r) ==> exists x :: x in seen && x.round == r
  {
    if QuorumSeen(c, seen, r) {
      var a := QuorumHasMember(c, VotersAt(seen, r));
    }
  }

  lemma VotersNext(seen: set<BlockReference>, b: BlockReference, r: nat)
    ensures VotersAt(seen + {b}, r) == VotersAt(seen, r) + if r == b.round then {b.authority} else {}
  {
  }

  lemma StartsAbreast(c: Committee)
    ensures Abreast(c, Clock(EMPTY, 0), {})
  {
    EmptyOk(c);
    forall r: nat ensures !QuorumSeen(c, {}, r) {
      QuorumHasBlock(c, {}, r);
    }
  }

  lemma TickMoves(c: Committee, clock: Clock, seen: set<BlockReference>, b: BlockReference)
    requires Abreast(c, clock, seen) && b.authority < |c.stakes| && b.round > clock.round
    ensures Abreast(c, Tick(c, clock, b), seen + {b})
  {
    EmptyOk(c);
    AddVoteOk(c, EMPTY, b.authority);
    VotersNext(seen, b, b.round);
    assert VotersAt(seen, b.round) == {};
    assert VotersAt(seen + {b}, b.round) == {b.authority};
    assert b in seen + {b};
    forall r: nat | QuorumSeen(c, seen + {b}, r) ensures r < b.round || (r == b.round && Alone(c, seen + {b}, r)) {
      QuorumHasBlock(c, seen + {b}, r);
    }
  }

  lemma TickVotes(c: Committee, clock: Clock, seen: set<BlockReference>, b: BlockReference)
    requires Abreast(c, clock, seen) && b.authority < |c.stakes| && b.round == clock.round
    ensures Abreast(c, Tick(c, clock, b), seen + {b})
  {
    AddVoteOk(c, clock.aggregate, b.authority);
    VotersNext(seen, b, b.round);
    EmptyOk(c);
    assert b in seen + {b};
    assert VotersAt(seen + {b}, b.round + 1) == {};
    forall r: nat | QuorumSeen(c, seen + {b}, r) ensures r <= b.round {
      QuorumHasBlock(c, seen + {b}, r);
    }
  }

  lemma TickSkips(c: Committee, clock: Clock, seen: set<BlockReference>, b: BlockReference)
    requires Abreast(c, clock, seen) && b.authority < |c.stakes| && b.round < clock.round
    ensures Abreast(c, clock, seen + {b})
  {
    VotersNext(seen, b, clock.round);
    if QuorumSeen(c, seen, clock.round - 1) {
      QuorumGrows(c, VotersAt(seen, clock.round - 1), VotersAt(seen + {b}, clock.round - 1));
    }
    forall r: nat | QuorumSeen(c, seen + {b}, r)
      ensures r < clock.round || (r == clock.round && Alone(c, seen + {b}, r))
    {
      QuorumHasBlock(c, seen + {b}, r);
      if r == clock.round {
        assert VotersAt(seen + {b}, r) == VotersAt(seen, r) && QuorumSeen(c, seen, r);
      }
    }
  }

  /** Whatever block comes next, the clock stays abreast of what it has seen. */
  lemma TickAbreast(c: Committee, clock: Clock, seen: set<BlockReference>, b: BlockReference)
    requires Abreast(c, clock, seen) && b.authority < |c.stakes|
    ensures Abreast(c, Tick(c, clock, b), seen + {b})
  {
    if b.round > clock.round {
      TickMoves(c, clock, seen, b);
    } else if b.round == clock.round {
      TickVotes(c, clock, seen, b);
    } else {
      TickSkips(c, clock, seen, b);
    }
  }

  ghost predicate AllMembers(c: Committee, q: seq<BlockReference>) {
    forall x :: x in q ==> x.authority < |c.stakes|
  }

  /** A new clock after it has seen the blocks in order. */
  ghost function Ticked(c: Committee, q: seq<BlockReference>): Clock
    requires AllMembers(c, q)
  {
    if q == [] then Clock(EMPTY, 0) else Tick(c, Ticked(c, q[..|q| - 1]), q[|q| - 1])
  }

  ghost function AsSeen(q: seq<BlockReference>): set<BlockReference> {
    set x | x in q
  }

  /** After any sequence of blocks a clock that started at round 0 is abreast. */
  lemma {:induction false} TickedIsAbreast(c: Committee, q: seq<BlockReference>)
    requires AllMembers(c, q)
    ensures Abreast(c, Ticked(c, q), AsSeen(q))
  {
    if q == [] {
      StartsAbreast(c);
      assert AsSeen(q) == {};
    } else {
      var front, last := q[..|q| - 1], q[|q| - 1];
      TickedIsAbreast(c, front);
      TickAbreast(c, Ticked(c, front), AsSeen(front), last);
      assert q == front + [last];
      assert AsSeen(q) == AsSeen(front) + {last};
    }
  }

  /** No authority is a quorum on its own. */
  ghost predicate NoSingleQuorum(c: Committee) {
    forall a: nat :: a < |c.stakes| ==> !IsQuorum(c, StakeOf(c, {a}))
  }

  lemma NotAlone(c: Committee, seen: set<BlockReference>, r: nat)
    requires NoSingleQuorum(c) && forall x :: x in seen ==> x.authority < |c.stakes|
    ensures !Alone(c, seen, r)
  {
  }

  /** Every sequence of blocks moves the clock past every round with a quorum if and only if no authority is a quorum
      on its own. */
  lemma NeverLags(c: Committee)
    ensures (forall q, r: nat :: AllMembers(c, q) && QuorumSeen(c, AsSeen(q), r) ==>
               r < Ticked(c, q).round) <==> NoSingleQuorum(c)
  {
    if a: nat :| a < |c.stakes| && IsQuorum(c, StakeOf(c, {a})) {
      var b := BlockReference(a, 1, 0);
      var q := [b];
      assert AsSeen(q) == {b} && VotersAt({b}, 1) == {a};
      assert Ticked(c, q[..0]) == Clock(EMPTY, 0);
      assert QuorumSeen(c, AsSeen(q), 1) && Ticked(c, q).round == 1;
    } else {
      forall q, r: nat | AllMembers(c, q) && QuorumSeen(c, AsSeen(q), r)
        ensures r < Ticked(c, q).round
      {
        TickedIsAbreast(c, q);
        NotAlone(c, AsSeen(q), r);
      }
    }
  }

  /** In such a committee the clock depends only on which blocks it has seen. */
  lemma ClockIgnoresOrder(c: Committee, clock: Clock, clock': Clock, seen: set<BlockReference>)
    requires Abreast(c, clock, seen) && Abreast(c, clock', seen) && NoSingleQuorum(c)
    requires forall x :: x in seen ==> x.authority < |c.stakes|
    ensures clock == clock'
  {
    if clock.round < clock'.round {
      NotFurther(c, clock, clock', seen);
    } else if clock'.round < clock.round {
      NotFurther(c, clock', clock, seen);
    }
  }

  lemma NotFurther(c: Committee, clock: Clock, clock': Clock, seen: set<BlockReference>)
    requires NotBehind(c, clock, seen) && NotAhead(c, clock', seen) && NoSingleQuorum(c)
    requires forall x :: x in seen ==> x.authority < |c.stakes|
    ensures clock'.round <= clock.round
  {
    if clock'.round > 0 {
      NotAlone(c, seen, clock'.round - 1);
    }
  }

  class ThresholdClockAggregator {
    var aggregator: Aggregate
    var round: nat

    constructor (r: nat)
      ensures Value() == Clock(EMPTY, r)
    {
      aggregator, round := EMPTY, r;
    }

    function Value(): Clock
      reads this
    {
      Clock(aggregator, round)
    }

    method AddBlock(block: BlockReference, committee: Committee)
      requires block.authority < |committee.stakes|
      modifies this
      ensures Value() == Tick(committee, old(Value()), block)
    {
      if block.round > round {
        aggregator := AddVote(committee, EMPTY, block.authority);
        round := block.round;
      } else if block.round == round {
        aggregator := AddVote(committee, aggregator, block.authority);
        if IsQuorum(committee, aggregator.stake) {
          aggregator := EMPTY;
          round := block.round + 1;
        }
      }
      if block.round > round {
        round := block.round;
      }
    }
  }
}

/** Stake thresholds and the stake aggregator of `committee.rs`. */
module CommitteeStake {

  /** The stake of each authority. The thresholds are those of `Committee::new`. */
  datatype Committee = Committee(stakes: seq<nat>)

  function StakeBelow(c: Committee, s: set<nat>, i: nat): nat
    requires i <= |c.stakes|
  {
    if i == 0 then 0 else StakeBelow(c, s, i - 1) + if i - 1 in s then c.stakes[i - 1] else 0
  }

  /** The joint stake of a set of authorities. */
  function StakeOf(c: Committee, s: set<nat>): nat {
    StakeBelow(c, s, |c.stakes|)
  }

  function TotalBelow(c: Committee, i: nat): nat
    requires i <= |c.stakes|
  {
    if i == 0 then 0 else TotalBelow(c, i - 1) + c.stakes[i - 1]
  }

  function Total(c: Committee): nat {
    TotalBelow(c, |c.stakes|)
  }

  predicate IsValid(c: Committee, amount: nat) {
    amount > Total(c) / 3
  }

  predicate IsQuorum(c: Committee, amount: nat) {
    amount > 2 * Total(c) / 3
  }

  lemma {:induction false} InclusionExclusion(c: Committee, a: set<nat>, b: set<nat>, i: nat)
    requires i <= |c.stakes|
    ensures StakeBelow(c, a, i) + StakeBelow(c, b, i) == StakeBelow(c, a + b, i) + StakeBelow(c, a * b, i)
    ensures StakeBelow(c, a, i) <= TotalBelow(c, i)
    ensures StakeBelow(c, a + b, i) <= TotalBelow(c, i)
  {
    if i != 0 {
      InclusionExclusion(c, a, b, i - 1);
    }
  }

  /** Two quorums share authorities whose stake is above the validity threshold. */
  lemma QuorumsIntersect(c: Committee, a: set<nat>, b: set<nat>)
    requires IsQuorum(c, StakeOf(c, a)) && IsQuorum(c, StakeOf(c, b))
    ensures IsValid(c, StakeOf(c, a * b))
  {
    InclusionExclusion(c, a, b, |c.stakes|);
  }

  /** The thresholds as fractions: more than two thirds, and more than one third. */
  lemma Thresholds(c: Committee, amount: nat)
    ensures IsQuorum(c, amount) <==> 3 * amount > 2 * Total(c)
    ensures IsValid(c, amount) <==> 3 * amount > Total(c)
  {
  }

  ghost function Others(c: Committee, s: set<nat>): set<nat> {
    set a: nat | a < |c.stakes| && a !in s
  }

  lemma {:induction false} StakeSplits(c: Committee, s: set<nat>, i: nat)
    requires i <= |c.stakes|
    ensures StakeBelow(c, s, i) + StakeBelow(c, Others(c, s), i) == TotalBelow(c, i)
  {
    if i != 0 {
      StakeSplits(c, s, i - 1);
    }
  }

  /** Authorities are a quorum if and only if the others hold less than a third, and they are above the validity
      threshold if and only if the others hold less than two thirds. */
  lemma QuorumIsAvailable(c: Committee, s: set<nat>)
    ensures IsQuorum(c, StakeOf(c, s)) <==> 3 * StakeOf(c, Others(c, s)) < Total(c)
    ensures IsValid(c, StakeOf(c, s)) <==> 3 * StakeOf(c, Others(c, s)) < 2 * Total(c)
  {
    StakeSplits(c, s, |c.stakes|);
  }

  lemma {:induction false} StakeGrows(c: Committee, a: set<nat>, b: set<nat>, i: nat)
    requires i <= |c.stakes| && forall x :: x in a && x < |c.stakes| ==> x in b
    ensures StakeBelow(c, a, i) <= StakeBelow(c, b, i)
  {
    if i != 0 {
      StakeGrows(c, a, b, i - 1);
    }
  }

  lemma QuorumGrows(c: Committee, a: set<nat>, b: set<nat>)
    requires IsQuorum(c, StakeOf(c, a)) && forall x :: x in a && x < |c.stakes| ==> x in b
    ensures IsQuorum(c, StakeOf(c, b))
  {
    StakeGrows(c, a, b, |c.stakes|);
  }

  lemma {:induction false} StakeAdds(c: Committee, s: set<nat>, x: nat, i: nat)
    requires i <= |c.stakes| && x !in s
    ensures StakeBelow(c, s + {x}, i) == StakeBelow(c, s, i) + if x < i then c.stakes[x] else 0
  {
    if i != 0 {
      StakeAdds(c, s, x, i - 1);
    }
  }

  lemma {:induction false} NoStake(c: Committee, i: nat)
    requires i <= |c.stakes|
    ensures StakeBelow(c, {}, i) == 0
  {
    if i != 0 {
      NoStake(c, i - 1);
    }
  }

  /** A quorum has a member. */
  lemma QuorumHasMember(c: Committee, s: set<nat>) returns (x: nat)
    requires IsQuorum(c, StakeOf(c, s))
    ensures x in s && x < |c.stakes|
  {
    if !exists x :: x in s && x < |c.stakes| {
      StakeGrows(c, s, {}, |c.stakes|);
      NoStake(c, |c.stakes|);
    }
    x :| x in s && x < |c.stakes|;
  }

  /** The votes seen so far and their stake, as a value. */
  datatype Aggregate = Aggregate(votes: set<nat>, stake: nat)

  ghost predicate AggregateOk(c: Committee, a: Aggregate) {
    a.stake == StakeOf(c, a.votes) && forall v :: v in a.votes ==> v < |c.stakes|
  }

  /** `StakeAggregator::add` with the quorum threshold: a repeated vote adds no stake. */
  function AddVote(c: Committee, a: Aggregate, vote: nat): Aggregate
    requires vote < |c.stakes|
  {
    if vote in a.votes then a else Aggregate(a.votes + {vote}, a.stake + c.stakes[vote])
  }

  const EMPTY := Aggregate({}, 0)

  lemma AddVoteOk(c: Committee, a: Aggregate, vote: nat)
    requires AggregateOk(c, a) && vote < |c.stakes|
    ensures AggregateOk(c, AddVote(c, a, vote)) && AddVote(c, a, vote).votes == a.votes + {vote}
  {
    if vote in a.votes {
      assert a.votes + {vote} == a.votes;
    } else {
      StakeAdds(c, a.votes, vote, |c.stakes|);
    }
  }

  lemma EmptyOk(c: Committee)
    ensures AggregateOk(c, EMPTY)
  {
    NoStake(c, |c.stakes|);
  }
}

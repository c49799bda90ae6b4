/** What threshold-clock validity means for the whole DAG: the history of a block contains a quorum of every earlier
    round, so any two histories have authorities of every earlier round in common. */
module DagQuorums {
  import opened BlockManagement
  import opened CommitteeStake
  import opened ThresholdClock
  import opened Compression

  /** Every stored block but genesis is valid for its round, and its includes are stored. */
  ghost predicate AllVerified(c: Committee, content: Content) {
    forall x {:trigger ClockValid(c, Block(x, content[x]))} :: x in content && x.round > 0 ==>
      ClockValid(c, Block(x, content[x])) && AllStored(content[x], content.Keys)
  }

  /** The authorities with a block of round `r` in the history of `b`. */
  ghost function HistoryAt(content: Content, b: BlockReference, r: nat): set<nat> {
    set x | x in content && x.round == r && Reaches(content, b, x) :: x.authority
  }

  lemma OneStepBack(content: Content, b: BlockReference, i: BlockReference)
    requires b in content && i in content[b] && i.round < b.round
    ensures Reaches(content, b, i)
  {
    assert Reaches(content, i, i);
  }

  /** The history of a stored block contains a quorum of every earlier round. */
  lemma {:induction false} HistoryHasQuorums(c: Committee, content: Content, b: BlockReference, r: nat)
    requires AllVerified(c, content) && b in content && r < b.round
    ensures IsQuorum(c, StakeOf(c, HistoryAt(content, b, r)))
    decreases b.round
  {
    var last := AuthoritiesAt(content[b], b.round - 1);
    assert ClockValid(c, Block(b, content[b]));
    if r == b.round - 1 {
      forall a | a in last ensures a in HistoryAt(content, b, r) {
        var i :| i in content[b] && i.round == r && i.authority == a;
        OneStepBack(content, b, i);
      }
      QuorumGrows(c, last, HistoryAt(content, b, r));
    } else {
      var a := QuorumHasMember(c, last);
      var i :| i in content[b] && i.round == b.round - 1 && i.authority == a;
      HistoryHasQuorums(c, content, i, r);
      forall d | d in HistoryAt(content, i, r) ensures d in HistoryAt(content, b, r) {
        var x :| x in content && x.round == r && Reaches(content, i, x) && x.authority == d;
        OneStepBack(content, b, i);
        ReachesOn(content, b, i, x);
      }
      QuorumGrows(c, HistoryAt(content, i, r), HistoryAt(content, b, r));
    }
  }

  /** Any two stored blocks have authorities of every earlier round in common, with more than a third of the stake. */
  lemma HistoriesOverlap(c: Committee, content: Content, b: BlockReference, d: BlockReference, r: nat)
    requires AllVerified(c, content) && b in content && d in content && r < b.round && r < d.round
    ensures IsValid(c, StakeOf(c, HistoryAt(content, b, r) * HistoryAt(content, d, r)))
  {
    HistoryHasQuorums(c, content, b, r);
    HistoryHasQuorums(c, content, d, r);
    QuorumsIntersect(c, HistoryAt(content, b, r), HistoryAt(content, d, r));
  }
}

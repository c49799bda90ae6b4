/** Reference compression of `try_new_block`: an include that another taken block, or the last
    own block, already includes is dropped, and the causal history stays the same. */
module Compression {
  import opened BlockManagement

  /** `b` is `a` or an ancestor of it. */
  ghost predicate Reaches(content: Content, a: BlockReference, b: BlockReference)
    decreases a.round
  {
    a == b || (a in content && exists i :: i in content[a] && i.round < a.round && Reaches(content, i, b))
  }

  ghost predicate ReachedFrom(content: Content, refs: seq<BlockReference>, b: BlockReference) {
    exists r :: r in refs && Reaches(content, r, b)
  }

  lemma {:induction false} ReachesOn(content: Content, a: BlockReference, b: BlockReference, d: BlockReference)
    requires Reaches(content, a, b) && Reaches(content, b, d)
    ensures Reaches(content, a, d)
    decreases a.round
  {
    if a != b {
      var i :| i in content[a] && i.round < a.round && Reaches(content, i, b);
      ReachesOn(content, i, b, d);
    }
  }

  /** A reference that some taken block, or the last own block, includes. */
  ghost predicate Referenced(content: Content, all: seq<BlockReference>, d: BlockReference) {
    exists s :: s in all && s in content && d in content[s]
  }

  /** The taken references that nothing in `all` includes, in order. */
  ghost function Unreferenced(content: Content, all: seq<BlockReference>,
                              taken: seq<BlockReference>): seq<BlockReference>
  {
    if taken == [] then []
    else
      var last := taken[|taken| - 1];
      Unreferenced(content, all, taken[..|taken| - 1]) + if Referenced(content, all, last) then [] else [last]
  }

  /** `kept` are the last own block and, in order, exactly the taken references that nothing else includes. */
  ghost predicate Compressed(content: Content, own: BlockReference, taken: seq<BlockReference>,
                             kept: seq<BlockReference>) {
    kept == [own] + Unreferenced(content, [own] + taken, taken)
  }

  lemma {:induction false} UnreferencedHas(content: Content, all: seq<BlockReference>, taken: seq<BlockReference>,
                                           d: BlockReference)
    ensures d in Unreferenced(content, all, taken) <==> d in taken && !Referenced(content, all, d)
    ensures |Unreferenced(content, all, taken)| <= |taken|
  {
    if taken != [] {
      var front := taken[..|taken| - 1];
      UnreferencedHas(content, all, front, d);
      assert taken == front + [taken[|taken| - 1]];
    }
  }

  lemma UnreferencedAppend(content: Content, all: seq<BlockReference>, taken: seq<BlockReference>, d: BlockReference)
    ensures Unreferenced(content, all, taken + [d]) ==
      Unreferenced(content, all, taken) + if Referenced(content, all, d) then [] else [d]
  {
    assert (taken + [d])[..|taken|] == taken;
  }

  /** A reference is kept if and only if it is the last own block, or taken and not referenced. */
  lemma CompressedHas(content: Content, own: BlockReference, taken: seq<BlockReference>, kept: seq<BlockReference>,
                      d: BlockReference)
    requires Compressed(content, own, taken, kept)
    ensures d in kept <==> d == own || (d in taken && !Referenced(content, [own] + taken, d))
    ensures |kept| <= 1 + |taken|
  {
    UnreferencedHas(content, [own] + taken, taken, d);
  }

  /** Every taken block is reached from a kept one. */
  lemma {:induction false} KeptReaches(content: Content, own: BlockReference, taken: seq<BlockReference>,
                                       kept: seq<BlockReference>, d: BlockReference, bound: nat)
    requires Layered(content) && Compressed(content, own, taken, kept) && d in [own] + taken
    requires forall s :: s in [own] + taken ==> s.round < bound
    ensures ReachedFrom(content, kept, d)
    decreases bound - d.round
  {
    CompressedHas(content, own, taken, kept, d);
    if d !in kept {
      var s :| s in [own] + taken && s in content && d in content[s];
      KeptReaches(content, own, taken, kept, s, bound);
      var k :| k in kept && Reaches(content, k, s);
      assert Reaches(content, s, d);
      ReachesOn(content, k, s, d);
    } else {
      assert Reaches(content, d, d);
    }
  }

  /** The ancestors of the kept includes are those of the last own block and of everything taken. */
  lemma SameHistory(content: Content, own: BlockReference, taken: seq<BlockReference>, kept: seq<BlockReference>,
                    bound: nat, b: BlockReference)
    requires Layered(content) && Compressed(content, own, taken, kept)
    requires forall s :: s in [own] + taken ==> s.round < bound
    ensures ReachedFrom(content, kept, b) <==> ReachedFrom(content, [own] + taken, b)
  {
    if ReachedFrom(content, kept, b) {
      var k :| k in kept && Reaches(content, k, b);
      CompressedHas(content, own, taken, kept, k);
      assert k in [own] + taken;
    }
    if ReachedFrom(content, [own] + taken, b) {
      var t :| t in [own] + taken && Reaches(content, t, b);
      KeptReaches(content, own, taken, kept, t, bound);
      var k :| k in kept && Reaches(content, k, t);
      ReachesOn(content, k, t, b);
    }
  }

  /** A taken reference of the round just below the proposal is never dropped. */
  lemma NewestIsKept(content: Content, own: BlockReference, taken: seq<BlockReference>, kept: seq<BlockReference>,
                     round: nat, d: BlockReference)
    requires Layered(content) && Compressed(content, own, taken, kept) && d in [own] + taken && d.round == round - 1
    requires forall s :: s in [own] + taken ==> s.round < round
    ensures d in kept
  {
    forall s | s in [own] + taken && s in content ensures d !in content[s] {
      assert s.round <= d.round;
    }
    assert !Referenced(content, [own] + taken, d);
    CompressedHas(content, own, taken, kept, d);
  }
}

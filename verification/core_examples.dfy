/** Runs of `Core` with a concrete serialization: a core that proposes right after genesis, and one
    that proposes an invalid block after a restart. */
module CoreExamples {
  import opened Collections
  import opened BlockManagement
  import opened CommitteeStake
  import opened ThresholdClock
  import opened ProposalInvariant
  import opened Compression
  import opened Recovery
  import opened ConsensusCore
  import Wal

  // ---------------------------------------------------------------- a serialization

  /** Numbers in unary, each ended by a zero. */
  function EncNats(q: seq<nat>): seq<Wal.byte> {
    if q == [] then [] else seq(q[0], _ => 1) + [0] + EncNats(q[1..])
  }

  /** The numbers in `b`, with `n` ones of the first one already seen. */
  function DecNats(b: seq<Wal.byte>, n: nat): seq<nat> {
    if b == [] then [] else if b[0] == 0 then [n] + DecNats(b[1..], 0) else DecNats(b[1..], n + 1)
  }

  lemma {:induction false} UnaryRoundTrip(n: nat, acc: nat, rest: seq<Wal.byte>)
    ensures DecNats(seq(n, _ => 1) + [0] + rest, acc) == [acc + n] + DecNats(rest, 0)
    decreases n
  {
    var b := seq(n, _ => 1) + [0] + rest;
    if n == 0 {
      assert b[1..] == rest;
    } else {
      UnaryRoundTrip(n - 1, acc + 1, rest);
      assert b[1..] == seq(n - 1, _ => 1) + [0] + rest;
    }
  }

  lemma {:induction false} NatsRoundTrip(q: seq<nat>)
    ensures DecNats(EncNats(q), 0) == q
  {
    if q != [] {
      UnaryRoundTrip(q[0], 0, EncNats(q[1..]));
      NatsRoundTrip(q[1..]);
    }
  }

  lemma {:induction false} NatsLength(q: seq<nat>)
    requires forall x :: x in q ==> x <= 3
    ensures |EncNats(q)| <= 4 * |q|
  {
    if q != [] {
      assert q[0] in q && forall x: nat :: x in q[1..] ==> x in q;
      NatsLength(q[1..]);
    }
  }

  function RefNats(refs: seq<BlockReference>): (q: seq<nat>)
    ensures |q| == 3 * |refs|
  {
    if refs == [] then [] else [refs[0].authority, refs[0].round, refs[0].digest] + RefNats(refs[1..])
  }

  function NatRefs(q: seq<nat>): seq<BlockReference> {
    if |q| < 3 then [] else [BlockReference(q[0], q[1], q[2])] + NatRefs(q[3..])
  }

  lemma {:induction false} RefsRoundTrip(refs: seq<BlockReference>)
    ensures NatRefs(RefNats(refs)) == refs
  {
    if refs != [] {
      RefsRoundTrip(refs[1..]);
      assert RefNats(refs)[3..] == RefNats(refs[1..]);
    }
  }

  lemma {:induction false} RefNatsBounded(refs: seq<BlockReference>)
    requires forall r :: r in refs ==> r.authority <= 3 && r.round <= 3 && r.digest <= 3
    ensures forall x :: x in RefNats(refs) ==> x <= 3
  {
    if refs != [] {
      assert refs[0] in refs;
      RefNatsBounded(refs[1..]);
    }
  }

  function EncBlock(b: Block): seq<Wal.byte> {
    EncNats(RefNats([b.reference] + b.includes))
  }

  function DecBlock(bytes: seq<Wal.byte>): Block {
    var refs := NatRefs(DecNats(bytes, 0));
    if refs == [] then Block(BlockReference(0, 0, 0), []) else Block(refs[0], refs[1..])
  }

  lemma BlockRoundTrip(b: Block)
    ensures DecBlock(EncBlock(b)) == b
  {
    var refs := [b.reference] + b.includes;
    NatsRoundTrip(RefNats(refs));
    RefsRoundTrip(refs);
    assert refs[1..] == b.includes;
  }

  function EncPosition(p: Option<nat>): seq<Wal.byte> {
    Wal.ToLe(if p.Some? then p.value else Wal.TWO_64 - 1, OWN_BLOCK_HEADER_SIZE)
  }

  function DecPosition(bytes: seq<Wal.byte>): Option<nat> {
    var n := Wal.FromLe(bytes);
    if n == Wal.TWO_64 - 1 then None else Some(n)
  }

  lemma PositionRoundTrip(p: Option<nat>)
    requires p.Some? ==> p.value < Wal.TWO_64 - 1
    ensures |EncPosition(p)| == OWN_BLOCK_HEADER_SIZE && DecPosition(EncPosition(p)) == p
  {
    assert Wal.Pow256(4) == Wal.TWO_32;
    assert Wal.Pow256(8) == Wal.TWO_64;
    Wal.LeRoundTrip(if p.Some? then p.value else Wal.TWO_64 - 1, OWN_BLOCK_HEADER_SIZE);
  }

  function Encode(e: Entry): seq<Wal.byte> {
    match e
    case BlockEntry(b) => EncBlock(b)
    case PayloadEntry(p) => EncNats(p)
    case OwnBlockEntry(d) => EncPosition(d.nextEntry) + EncBlock(d.block)
  }

  function Decode(tag: nat, bytes: seq<Wal.byte>): Entry {
    if tag == WAL_ENTRY_BLOCK then BlockEntry(DecBlock(bytes))
    else if tag == WAL_ENTRY_PAYLOAD || |bytes| < OWN_BLOCK_HEADER_SIZE then PayloadEntry(DecNats(bytes, 0))
    else
      OwnBlockEntry(OwnBlockData(DecPosition(bytes[..OWN_BLOCK_HEADER_SIZE]), DecBlock(bytes[OWN_BLOCK_HEADER_SIZE..])))
  }

  function Unary(): Codec {
    Codec(Encode, Decode, b => |b| % Wal.TWO_32)
  }

  /** The assumption on the serialization can be met. */
  lemma UnaryIsOk()
    ensures CodecOk(Unary())
  {
    forall e | Writable(Unary(), e) ensures Decode(TagOf(e), Encode(e)) == e {
      match e
      case BlockEntry(b) => BlockRoundTrip(b);
      case PayloadEntry(p) => NatsRoundTrip(p);
      case OwnBlockEntry(d) =>
        PositionRoundTrip(d.nextEntry);
        BlockRoundTrip(d.block);
        assert Encode(e)[..OWN_BLOCK_HEADER_SIZE] == EncPosition(d.nextEntry);
        assert Encode(e)[OWN_BLOCK_HEADER_SIZE..] == EncBlock(d.block);
    }
  }

  /** A block with few includes and small numbers is small. */
  lemma FewIncludes(b: Block)
    requires |b.includes| <= 4
    requires forall r :: r in [b.reference] + b.includes ==> r.authority <= 3 && r.round <= 3 && r.digest <= 3
    ensures |EncBlock(b)| <= 60
  {
    var refs := [b.reference] + b.includes;
    RefNatsBounded(refs);
    NatsLength(RefNats(refs));
  }

  // ---------------------------------------------------------------- four authorities

  const FOUR := Committee([1, 1, 1, 1])

  function GenesisOfFour(): (genesis: seq<BlockReference>)
    ensures |genesis| == 4 && forall a :: 0 <= a < 4 ==> genesis[a] == BlockReference(a, 0, 0)
  {
    [BlockReference(0, 0, 0), BlockReference(1, 0, 0), BlockReference(2, 0, 0), BlockReference(3, 0, 0)]
  }

  lemma FourHasTotal()
    ensures Total(FOUR) == 4
  {
    assert TotalBelow(FOUR, 2) == 2;
  }

  lemma GenesisIsSmall()
    ensures forall a :: 0 <= a < 4 ==> Small(Unary(), Block(GenesisOfFour()[a], []))
    ensures GenesisCost(Unary(), GenesisOfFour()) <= 700
  {
    hide Cost, EncBlock;
    var k, genesis := Unary(), GenesisOfFour();
    var blocks := GenesisBlocks(genesis);
    forall a | 0 <= a < 4 ensures |EncBlock(blocks[a])| <= 60 {
      FewIncludes(blocks[a]);
    }
    CostNothing(k);
    CostNext(k, blocks, 0);
    CostNext(k, blocks, 1);
    CostNext(k, blocks, 2);
    CostNext(k, blocks, 3);
    assert blocks[..0] == [] && blocks[..4] == blocks;
  }

  lemma {:induction false} FewReferences(items: seq<Item>)
    ensures |References(items)| <= |items|
  {
    if items != [] {
      FewReferences(items[..|items| - 1]);
    }
  }

  lemma ProposalIsSmall(content: Content, own: BlockReference, taken: seq<Item>, b: Block)
    requires Proposal(FOUR, content, own, taken, b) && |taken| <= 3 && b.reference.authority <= 3
    requires b.reference.round <= 3 && b.reference.digest <= 3
    requires forall r :: r in content ==> r.authority <= 3 && r.round <= 3 && r.digest <= 3
    ensures Small(Unary(), b)
  {
    FewReferences(taken);
    CompressedHas(content, own, References(taken), b.includes, own);
    FewIncludes(b);
  }

  /** A core that starts from genesis proposes a valid block of round 1. */
  method ProposesAfterGenesis() returns (core: Core, attempt: Attempt)
    ensures fresh(core) && core.Valid() && !core.reopened
    ensures attempt.Made? && ClockValid(FOUR, attempt.block) && core.lastOwn.block == attempt.block
    ensures attempt.block.reference == BlockReference(0, 1, 0)
  {
    hide CodecOk, Deliverable, CoreOk, Small, GenesisCost, IsSplit, SameReach, Proposal, ClockValid, Loop;
    UnaryIsOk();
    GenesisIsSmall();
    FourHasTotal();
    NothingDeliverable();
    core := new Core(FOUR, 0, Unary(), GenesisOfFour(), map[]);
    ghost var s := core.Now();
    NothingWanted();
    var statements;
    ghost var at;
    attempt, statements, at := core.TryNewBlock(false, 0);
    SplitInRange(s.pending, 1, at);
    ProposalIsSmall(s.content, s.own.block.reference, s.pending[..at], attempt.block);
  }

  lemma NothingDeliverable()
    ensures Deliverable(FOUR, Unary(), map[])
  {
  }

  // ---------------------------------------------------------------- a restart before the first proposal

  /** A valid block of round 1 that includes three genesis blocks. */
  function FirstBlock(): Block {
    Block(BlockReference(0, 1, 0), [BlockReference(0, 0, 0), BlockReference(1, 0, 0), BlockReference(2, 0, 0)])
  }

  function FirstContent(): Content {
    map[FirstBlock().reference := FirstBlock().includes]
  }

  lemma FirstIsDeliverable()
    ensures Deliverable(FOUR, Unary(), FirstContent()) && Identified(FirstContent(), FirstBlock())
    ensures |Encode(BlockEntry(FirstBlock()))| <= 60
  {
    hide EncBlock, ClockValid;
    var b := FirstBlock();
    FewIncludes(b);
    FirstIsValid();
    assert Block(b.reference, FirstContent()[b.reference]) == b;
  }

  lemma FirstIsValid()
    ensures Verified(FOUR, FirstBlock())
  {
    var b := FirstBlock();
    FourHasTotal();
    assert AuthoritiesAt(b.includes, 0) == {0, 1, 2} by {
      assert b.includes[0] in b.includes && b.includes[1] in b.includes && b.includes[2] in b.includes;
    }
    assert StakeBelow(FOUR, {0, 1, 2}, 2) == 2 && StakeOf(FOUR, {0, 1, 2}) == 3;
  }

  lemma FirstRef(blocks: seq<Block>)
    ensures |blocks| > 1 ==> blocks[0].reference in Refs(blocks[..|blocks| - 1])
  {
    if |blocks| > 1 {
      assert blocks[..|blocks| - 1][0] == blocks[0];
    }
  }

  /** Delivered to a core at genesis, the block is stored, and nothing else. */
  lemma FirstIsProcessed(processed: seq<Block>, stored: set<BlockReference>, stored': set<BlockReference>)
    requires stored == AsSet(GenesisOfFour()) && stored' == stored + Refs(processed)
    requires WrittenAfterIncludes(processed, stored) && forall b :: b in processed ==> Identified(FirstContent(), b)
    requires Settled(FirstContent(), stored, {} + Refs([FirstBlock()]), stored')
    ensures processed == [FirstBlock()]
  {
    var r := FirstBlock().reference;
    assert Refs([FirstBlock()]) == {r};
    assert r in stored' by {
      assert AllStored(FirstContent()[r], stored') by {
        assert GenesisOfFour()[0] in stored && GenesisOfFour()[1] in stored && GenesisOfFour()[2] in stored;
      }
    }
    assert r in Refs(processed);
    forall x | 0 <= x < |processed| ensures processed[x].reference == r {
      assert processed[x] in processed && processed[x].reference in Refs(processed);
    }
    FirstRef(processed);
    assert processed != [] && Identified(FirstContent(), processed[0]);
    assert processed == [processed[0]];
  }

  /** What such a core has lost when it is opened again leaves a clock at round 1. */
  lemma FirstIsRebuilt(s: State, s': State, processed: seq<Block>)
    requires Extends(FOUR, s, s', BlockEntries(processed) + [PayloadEntry([])]) && |s.pending| == 3
    requires |processed| == 1 && processed[0].reference == FirstBlock().reference
    ensures |s'.pending| == 5 && Rebuilt(FOUR, s'.pending[3..]).round == 1
  {
    var q := s'.pending[3..];
    assert s'.pending[3] == q[0] && s'.pending[4] == q[1];
    assert q[..1][..0] == [];
    assert Rebuilt(FOUR, q[..0]) == Clock(EMPTY, 0);
    assert q[..1][|q[..1]| - 1] == q[0] && q[..1][..|q[..1]| - 1] == q[..0];
    assert Rebuilt(FOUR, q[..1]).round == 1;
    assert q[..|q| - 1] == q[..1];
  }

  /** Authority 3 at genesis, with the block of round 1 delivered. */
  method DeliversFirst() returns (core: Core)
    ensures fresh(core) && core.Valid() && core.committee == FOUR && core.authority == 3 && core.codec == Unary()
    ensures core.lastOwn.block.reference == BlockReference(3, 0, 0) && !core.reopened
    ensures core.content.Keys == AsSet(GenesisOfFour()) + {FirstBlock().reference}
    ensures |core.pending| == 5 && Rebuilt(FOUR, core.pending[3..]).round == 1
    ensures Wal.RoomyGaps(core.wal.recs) && core.wal.pos <= 1000
  {
    hide CodecOk, Deliverable, CoreOk, Small, GenesisCost, Loop, Extends, Rebuilt, WrittenAfterIncludes, Settled,
      Wal.Holds, Wal.RoomyGaps, Refs, Writable, BlockEntries, GrowsAll, Identified, AsSet, Total;
    UnaryIsOk();
    GenesisIsSmall();
    FirstIsDeliverable();
    EmptyPayload();
    core := new Core(FOUR, 3, Unary(), GenesisOfFour(), FirstContent());
    ghost var s := core.Now();
    var processed := core.AddBlocks([FirstBlock()], []);
    ghost var s' := core.Now();
    FirstIsProcessed(processed, s.content.Keys, s'.content.Keys);
    FirstIsRebuilt(s, s', processed);
    ShortLog(s.end, s'.end, processed, core.wal.file, core.wal.recs);
    RefsOne(FirstBlock());
  }

  lemma RefsOne(b: Block)
    ensures Refs([b]) == {b.reference}
  {
  }

  /** A core that stops after genesis and one delivered block, and is opened again, proposes a block of round 1 that
      is not valid: it includes the own genesis block and nothing else. */
  method ProposesInvalidBlock() returns (core: Core?, attempt: Attempt)
    ensures core != null && core.Valid() && core.reopened
    ensures attempt.Made? && attempt.block.reference == BlockReference(3, 1, 0) && !ClockValid(FOUR, attempt.block)
  {
    hide CodecOk, Deliverable, CoreOk, Small, Loop, Extends, Rebuilt, ClockValid, Wal.Holds, Wal.RoomyGaps, StakeOf,
      Writable, AsSet, Proposal;
    var before := DeliversFirst();
    OneIsNoQuorum();
    StoredIsSmall();
    ghost var content, own := before.content, before.lastOwn.block.reference;
    ghost var taken;
    core, attempt, taken := RestartAndPropose(before, None, false, 0);
    ProposalIsSmall(content, own, taken, attempt.block);
  }

  lemma StoredIsSmall()
    ensures BlockReference(3, 1, 0) !in AsSet(GenesisOfFour()) + {FirstBlock().reference}
    ensures forall r :: r in AsSet(GenesisOfFour()) + {FirstBlock().reference} ==>
      r.authority <= 3 && r.round <= 3 && r.digest <= 3
  {
  }

  lemma EmptyPayload()
    ensures Writable(Unary(), PayloadEntry([])) && CostOf(Unary(), PayloadEntry([])) == Wal.HEADER
  {
  }

  lemma OneIsNoQuorum()
    ensures !IsQuorum(FOUR, StakeOf(FOUR, {3}))
  {
    FourHasTotal();
    assert StakeBelow(FOUR, {3}, 2) == 0 && StakeOf(FOUR, {3}) == 1;
  }

  lemma ShortLog(end: nat, end': nat, processed: seq<Block>, file: seq<Wal.byte>, recs: seq<Wal.Rec>)
    requires end <= 700 && GrowsAll(Unary(), end, end', BlockEntries(processed) + [PayloadEntry([])])
    requires |processed| == 1 && |Encode(BlockEntry(processed[0]))| <= 60
    requires end' == |file| && Wal.Holds(file, recs, Unary().crc)
    ensures Wal.RoomyGaps(recs) && end' <= 1000
  {
    var es, k := BlockEntries(processed) + [PayloadEntry([])], Unary();
    EmptyPayload();
    CostNothing(k);
    assert processed[..0] == [] && processed[..1] == processed;
    CostNext(k, processed, 0);
    assert es[..|es| - 1] == BlockEntries(processed);
    Wal.OneMapping(file, recs, k.crc);
  }
}

/** `Core`: blocks that the block manager accepts and payloads are queued and logged, proposals
    take the queue up to the clock, and the bytes of the log give the state back. */
module ConsensusCore {
  import opened Collections
  import opened BlockManagement
  import opened CommitteeStake
  import opened ThresholdClock
  import opened ProposalInvariant
  import opened Compression
  import opened DagQuorums
  import opened Recovery
  import Wal

  // ---------------------------------------------------------------- the log beside the queue

  /** What an entry puts into the queue and into the store; own blocks are logged separately. */
  function StatementOf(e: Entry): MetaStatement
    requires !e.OwnBlockEntry?
  {
    if e.BlockEntry? then Include(e.block.reference) else Payload(e.statements)
  }

  function Storing(content: Content, e: Entry): Content
    requires !e.OwnBlockEntry?
  {
    if e.BlockEntry? then content[e.block.reference := e.block.includes] else content
  }

  /** The log replays to the store, the last own block, and the queue without its first `lost` statements,
      which are genesis blocks. */
  ghost predicate Logged(log: seq<LogRecord>, end: nat, pending: seq<Item>, own: OwnBlockData, content: Content,
                         lost: nat) {
    && LogOk(log, end) && Ascending(pending) && (forall x :: 0 <= x < |pending| ==> pending[x].position < end)
    && lost <= |pending| && Replayed(log) == Recovered(pending[lost..], Some(own), content)
    && (forall x :: 0 <= x < lost ==> pending[x].statement.Include? && pending[x].statement.reference.round == 0)
    && forall x, b :: lost <= x < |pending| && IsRef(pending[x], b) ==> b.round > 0
  }

  lemma LogsStatement(log: seq<LogRecord>, end: nat, pending: seq<Item>, own: OwnBlockData, content: Content,
                      lost: nat, e: LogRecord, end': nat)
    requires Logged(log, end, pending, own, content, lost) && end <= e.position < end' && !e.entry.OwnBlockEntry?
    requires e.entry.BlockEntry? ==> e.entry.block.reference.round > 0
    ensures Logged(log + [e], end', pending + [Item(e.position, StatementOf(e.entry))], own, Storing(content, e.entry),
      lost)
  {
    hide Replayed, Keep, Ascending;
    var i := Item(e.position, StatementOf(e.entry));
    ReplayedAppend(log, e);
    AscendingAppend(pending, i);
    assert (pending + [i])[lost..] == pending[lost..] + [i];
    assert forall x :: 0 <= x < |pending| ==> (pending + [i])[x] == pending[x];
  }

  /** `next_entry` of a proposal: the position of the first statement that stays queued. */
  function NextEntry(pending: seq<Item>): Option<nat> {
    if pending == [] then None else Some(pending[0].position)
  }

  /** An own block that takes at least the lost statements makes the log replay to the queue exactly. */
  lemma LogsOwnBlock(log: seq<LogRecord>, end: nat, pending: seq<Item>, own: OwnBlockData, content: Content, lost: nat,
                     at: nat, b: Block, position: nat, end': nat)
    requires Logged(log, end, pending, own, content, lost) && lost <= at <= |pending| && end <= position < end'
    ensures var data := OwnBlockData(NextEntry(pending[at..]), b);
      Logged(log + [LogRecord(position, OwnBlockEntry(data))], end', pending[at..], data,
        content[b.reference := b.includes], 0)
  {
    hide Keep, Replayed;
    var data := OwnBlockData(NextEntry(pending[at..]), b);
    var q := pending[lost..];
    ReplayedAppend(log, LogRecord(position, OwnBlockEntry(data)));
    if at == |pending| {
      KeepNone(q);
    } else {
      assert q[at - lost] == pending[at] && q[at - lost..] == pending[at..];
      KeepSuffix(q, at - lost);
    }
    assert pending[at..][0..] == pending[at..];
    forall x, r | 0 <= x < |pending[at..]| && IsRef(pending[at..][x], r) ensures r.round > 0 {
      assert IsRef(pending[at + x], r);
    }
  }

  // ---------------------------------------------------------------- collecting a proposal

  /** The references and the payload of queued statements. */
  function References(items: seq<Item>): seq<BlockReference> {
    if items == [] then []
    else
      var last := items[|items| - 1].statement;
      References(items[..|items| - 1]) + if last.Include? then [last.reference] else []
  }

  function Payloads(items: seq<Item>): seq<nat> {
    if items == [] then []
    else
      var last := items[|items| - 1].statement;
      Payloads(items[..|items| - 1]) + if last.Payload? then last.statements else []
  }

  /** Taking the front of a queue loses, repeats and reorders no payload. */
  lemma {:induction false} PayloadsSplit(items: seq<Item>, at: nat)
    requires at <= |items|
    ensures Payloads(items) == Payloads(items[..at]) + Payloads(items[at..])
  {
    if at == |items| {
      assert items[..at] == items;
    } else {
      var front, rest := items[..|items| - 1], items[at..];
      PayloadsSplit(front, at);
      assert front[..at] == items[..at] && front[at..] == rest[..|rest| - 1];
    }
  }

  /** Queued entries add their payload at the end, and blocks add none. */
  lemma {:induction false} PayloadsExtend(q: seq<Item>, q': seq<Item>, n: nat)
    requires n <= |q'| && q'[..n] == q && forall x :: n <= x < |q'| ==> q'[x].statement.Include?
    ensures Payloads(q') == Payloads(q)
  {
    if n == |q'| {
      assert q'[..n] == q';
    } else {
      PayloadsExtend(q, q'[..|q'| - 1], n);
    }
  }

  lemma PayloadAdded(c: Committee, s: State, s': State, s'': State, blocks: seq<Block>, p: seq<nat>, position: nat,
                     end: nat)
    requires Extends(c, s, s', BlockEntries(blocks)) && s'' == WithEntry(c, s', PayloadEntry(p), position, end)
    ensures Payloads(s''.pending) == Payloads(s.pending) + p
  {
    forall x | |s.pending| <= x < |s'.pending| ensures s'.pending[x].statement.Include? {
      var y := x - |s.pending|;
      assert BlockEntries(blocks)[y].BlockEntry? && s'.pending[|s.pending| + y] == s'.pending[x];
    }
    PayloadsExtend(s.pending, s'.pending, |s.pending|);
    assert s''.pending[..|s'.pending|] == s'.pending;
  }

  lemma {:induction false} KnownIsReferences(own: BlockReference, items: seq<Item>)
    ensures Known(own, items) == [own] + References(items)
  {
    if items != [] {
      KnownIsReferences(own, items[..|items| - 1]);
    }
  }

  lemma CollectNext(items: seq<Item>, x: nat)
    requires x < |items|
    ensures References(items[..x + 1]) ==
      References(items[..x]) + if items[x].statement.Include? then [items[x].statement.reference] else []
    ensures Payloads(items[..x + 1]) ==
      Payloads(items[..x]) + if items[x].statement.Payload? then items[x].statement.statements else []
  {
    assert items[..x + 1][..x] == items[..x];
  }

  lemma NothingCollected(content: Content, all: seq<BlockReference>, items: seq<Item>)
    ensures References(items[..0]) == [] && Payloads(items[..0]) == [] && Unreferenced(content, all, []) == []
  {
  }

  lemma KeepsNext(content: Content, all: seq<BlockReference>, own: BlockReference, items: seq<Item>, x: nat,
                  includes: seq<BlockReference>)
    requires x < |items| && includes == [own] + Unreferenced(content, all, References(items[..x]))
    ensures [own] + Unreferenced(content, all, References(items[..x + 1])) == includes +
      if items[x].statement.Include? && !Referenced(content, all, items[x].statement.reference)
      then [items[x].statement.reference] else []
  {
    hide Referenced, Unreferenced, References;
    CollectNext(items, x);
    if items[x].statement.Include? {
      UnreferencedAppend(content, all, References(items[..x]), items[x].statement.reference);
    } else {
      assert References(items[..x + 1]) == References(items[..x]);
    }
  }

  /** What a proposal out of the taken statements looks like. */
  ghost predicate Proposal(c: Committee, content: Content, own: BlockReference, taken: seq<Item>, b: Block) {
    && Compressed(content, own, References(taken), b.includes) && KnownAuthorities(c, b)
    && forall i :: i in b.includes ==> i in content && i.round < b.reference.round
  }

  lemma IsProposal(c: Committee, content: Content, own: BlockReference, floor: nat, pending: seq<Item>, clock: Clock,
                   at: nat, b: Block)
    requires Queue(c, own, floor, pending, clock, content.Keys) && own.round < clock.round
      && IsSplit(pending, clock.round, at)
    requires b.reference.round == clock.round && b.reference.authority < |c.stakes|
    requires Compressed(content, own, References(pending[..at]), b.includes)
    ensures Proposal(c, content, own, pending[..at], b)
    ensures forall i :: i in [own] + References(pending[..at]) ==> i.round < clock.round
  {
    var taken := References(pending[..at]);
    KnownIsReferences(own, pending[..at]);
    forall i | i in [own] + taken ensures i in content && i.round < clock.round {
      KnownHas(own, pending[..at], i);
      KnownHas(own, pending, i);
      if x :| 0 <= x < at && IsRef(pending[..at][x], i) {
        assert IsRef(pending[x], i);
      }
    }
    forall i | i in b.includes ensures i in content && i.round < b.reference.round {
      CompressedHas(content, own, taken, b.includes, i);
      assert i in [own] + taken;
    }
  }

  /** Above the floor a proposal has a quorum of the round before. */
  lemma ProposalHasQuorum(c: Committee, content: Content, own: BlockReference, floor: nat, pending: seq<Item>,
                          clock: Clock, at: nat, b: Block)
    requires Queue(c, own, floor, pending, clock, content.Keys) && Layered(content) && own.round < clock.round
      && floor < clock.round && IsSplit(pending, clock.round, at)
    requires b.reference.round == clock.round && b.reference.authority < |c.stakes|
    requires Compressed(content, own, References(pending[..at]), b.includes)
    ensures ClockValid(c, b)
  {
    IsProposal(c, content, own, floor, pending, clock, at, b);
    KnownIsReferences(own, pending[..at]);
    TakenHasQuorum(c, own, floor, pending, clock, content.Keys, at);
    forall d | d in Known(own, pending[..at]) && d.round == clock.round - 1 ensures d in b.includes {
      NewestIsKept(content, own, References(pending[..at]), b.includes, clock.round, d);
    }
    QuorumCarries(c, Known(own, pending[..at]), b.includes, clock.round - 1);
  }

  /** Without any other genesis block a proposal for round 1 includes the own one and nothing else. */
  lemma ProposalAlone(c: Committee, content: Content, own: BlockReference, pending: seq<Item>, at: nat, b: Block)
    requires own.round == 0 && IsSplit(pending, 1, at) && b.reference.round == 1
    requires forall x, r :: 0 <= x < |pending| && IsRef(pending[x], r) ==> r.round > 0
    requires Compressed(content, own, References(pending[..at]), b.includes)
    ensures ClockValid(c, b) <==> IsQuorum(c, StakeOf(c, {own.authority}))
  {
    KnownIsReferences(own, pending[..at]);
    forall i | i in b.includes ensures i == own {
      CompressedHas(content, own, References(pending[..at]), b.includes, i);
      KnownHas(own, pending[..at], i);
      if x :| 0 <= x < at && IsRef(pending[..at][x], i) {
        assert IsRef(pending[x], i);
      }
    }
    CompressedHas(content, own, References(pending[..at]), b.includes, own);
    assert AuthoritiesAt(b.includes, 0) == {own.authority};
  }

  lemma SplitTakesLost(log: seq<LogRecord>, end: nat, pending: seq<Item>, own: OwnBlockData, content: Content,
                       lost: nat, round: nat, at: nat)
    requires Logged(log, end, pending, own, content, lost) && IsSplit(pending, round, at) && round > 0
    ensures lost <= at
  {
  }

  // ---------------------------------------------------------------- what is delivered

  /** `StatementBlock::verify`: a known author, and includes that are valid for the round, which is not that of
      genesis. */
  ghost predicate Verified(c: Committee, b: Block) {
    b.reference.authority < |c.stakes| && ClockValid(c, b)
  }

  /** The blocks that may be delivered were verified and fit into the log. */
  ghost predicate Deliverable(c: Committee, k: Codec, known: Content) {
    forall r :: r in known ==> Verified(c, Block(r, known[r])) && Writable(k, BlockEntry(Block(r, known[r])))
  }

  /** Blocks in an order in which every one follows its includes, and each is new. */
  ghost predicate CausalBatch(c: Committee, blocks: seq<Block>, stored: set<BlockReference>) {
    forall x :: 0 <= x < |blocks| ==>
      Ingestible(c, blocks[x], stored + Refs(blocks[..x])) && blocks[x].reference !in stored + Refs(blocks[..x])
  }

  /** What the block manager hands over is such a batch. */
  lemma ManagerFeedsCore(c: Committee, k: Codec, known: Content, blocks: seq<Block>, stored: set<BlockReference>)
    requires WrittenAfterIncludes(blocks, stored) && Deliverable(c, k, known) && forall b :: b in blocks ==>
      Identified(known, b)
    ensures CausalBatch(c, blocks, stored) && forall b :: b in blocks ==> Writable(k, BlockEntry(b))
  {
    forall b | b in blocks ensures Verified(c, b) && Writable(k, BlockEntry(b)) {
      assert b == Block(b.reference, known[b.reference]);
    }
    forall x | 0 <= x < |blocks| ensures Ingestible(c, blocks[x], stored + Refs(blocks[..x])) {
      assert blocks[x] in blocks;
    }
  }

  // ---------------------------------------------------------------- the whole state

  /** The variables of `Core` as a value; `end` is the position of the log writer, and `reopened` says that the core
      was opened from a log and not from genesis. */
  datatype State = State(pending: seq<Item>, own: OwnBlockData, clock: Clock, content: Content, log: seq<LogRecord>,
                         end: nat, reopened: bool)

  /** The number of queued genesis blocks that the log entry of the own genesis block skips. */
  function Lost(c: Committee, s: State): nat {
    if !s.reopened && s.own.block.reference.round == 0 && |c.stakes| > 0 then |c.stakes| - 1 else 0
  }

  /** From this round on every stored block is queued: a core that was opened before its first proposal has lost the
      other genesis blocks. */
  function Floor(s: State): nat {
    if s.reopened && s.own.block.reference.round == 0 then 1 else s.own.block.reference.round
  }

  ghost predicate CoreOk(c: Committee, s: State) {
    && Queue(c, s.own.block.reference, Floor(s), s.pending, s.clock, s.content.Keys)
    && Layered(s.content) && s.own.block.reference in s.content
       && s.content[s.own.block.reference] == s.own.block.includes
    && Logged(s.log, s.end, s.pending, s.own, s.content, Lost(c, s)) && Sees(c, s)
    && (!s.reopened ==> AllVerified(c, s.content))
  }

  /** In a core that was not restarted, the history of every stored block has a quorum of every earlier round. */
  lemma HistoriesAreFull(c: Committee, s: State, b: BlockReference, r: nat)
    requires CoreOk(c, s) && !s.reopened && b in s.content && r < b.round
    ensures IsQuorum(c, StakeOf(c, HistoryAt(s.content, b, r)))
  {
    hide Queue, Logged, Sees, AllVerified;
    HistoryHasQuorums(c, s.content, b, r);
  }

  lemma LayeredNext(content: Content, b: Block)
    requires Layered(content) && forall i :: i in b.includes ==> i.round < b.reference.round
    ensures Layered(content[b.reference := b.includes])
  {
  }

  lemma IngestibleIsLower(c: Committee, b: Block, stored: set<BlockReference>)
    requires Ingestible(c, b, stored)
    ensures b.reference.round > 0 && forall i :: i in b.includes ==> i.round < b.reference.round
  {
  }

  lemma VerifiedNext(c: Committee, content: Content, b: Block)
    requires AllVerified(c, content) && b.reference !in content
    requires b.reference.round > 0 ==> ClockValid(c, b) && AllStored(b.includes, content.Keys)
    ensures AllVerified(c, content[b.reference := b.includes])
  {
    hide ClockValid;
    var content' := content[b.reference := b.includes];
    forall x | x in content' && x.round > 0
      ensures ClockValid(c, Block(x, content'[x])) && AllStored(content'[x], content'.Keys)
    {
      assert x != b.reference ==> content'[x] == content[x];
      assert x == b.reference ==> Block(x, content'[x]) == b;
    }
  }

  /** The clock is abreast of the stored blocks: of all of them, or, in a core that was opened from a log, of those that
      are not older than the floor, perhaps without the last own block. */
  ghost predicate Sees(c: Committee, s: State) {
    exists seen :: SeesAll(c, s, seen)
  }

  ghost predicate SeesAll(c: Committee, s: State, seen: set<BlockReference>) {
    && Abreast(c, s.clock, seen) && seen <= s.content.Keys && (!s.reopened ==> seen == s.content.Keys)
    && forall x :: x in s.content.Keys && x.round >= Floor(s) && x != s.own.block.reference ==> x in seen
  }

  /** No stored block is newer than the last own block, and there is no quorum of its round. */
  ghost predicate NothingNew(c: Committee, s: State) {
    && (forall x :: x in s.content ==> x.round <= s.own.block.reference.round)
    && !QuorumSeen(c, s.content.Keys, s.own.block.reference.round)
  }

  /** The clock waits behind the last own block if and only if there is no reason to propose. After a restart the last
      own block itself may be missing for a quorum. */
  lemma ClockWaits(c: Committee, s: State)
    requires CoreOk(c, s) && NoSingleQuorum(c)
    ensures !s.reopened ==> (s.clock.round <= s.own.block.reference.round <==> NothingNew(c, s))
    ensures s.reopened && s.clock.round <= s.own.block.reference.round ==>
      && (forall x :: x in s.content ==> x.round <= s.own.block.reference.round)
      && (s.own.block.reference.round > 0 ==>
            !QuorumSeen(c, s.content.Keys - {s.own.block.reference}, s.own.block.reference.round))
  {
    hide Logged, Layered;
    var seen := SeenBlocks(c, s);
    var own := s.own.block.reference;
    if s.clock.round <= own.round {
      NotAlone(c, seen, own.round);
      assert !QuorumSeen(c, seen, own.round);
      if QuorumSeen(c, s.content.Keys - {own}, own.round) && own.round >= Floor(s) {
        QuorumGrows(c, VotersAt(s.content.Keys - {own}, own.round), VotersAt(seen, own.round));
      }
    } else {
      QuorumHasBlock(c, seen, s.clock.round - 1);
    }
  }

  /** A core that was not restarted proposes if and only if there is a reason. */
  lemma ProposesInTime(c: Committee, s: State)
    requires CoreOk(c, s)
    ensures !s.reopened && NoSingleQuorum(c) ==> (s.clock.round <= s.own.block.reference.round <==> NothingNew(c, s))
  {
    hide CoreOk;
    if NoSingleQuorum(c) {
      ClockWaits(c, s);
    }
  }

  lemma SeenBlocks(c: Committee, s: State) returns (seen: set<BlockReference>)
    requires CoreOk(c, s)
    ensures SeesAll(c, s, seen) && forall x :: x in s.content.Keys ==> x.authority < |c.stakes|
  {
    hide Logged, Layered, QueuedAfterQuorum, ClockAfterQuorum, VotesQueued, StoredIsQueued, SeesAll;
    seen :| SeesAll(c, s, seen);
  }

  lemma SeesNext(c: Committee, s: State, s': State, b: BlockReference)
    requires Sees(c, s) && b.authority < |c.stakes| && s'.clock == Tick(c, s.clock, b) && s'.reopened == s.reopened
    requires s'.content.Keys == s.content.Keys + {b} && (s'.own == s.own || s'.own.block.reference == b)
    requires Floor(s) <= Floor(s') && (s'.own != s.own ==> s.own.block.reference.round < b.round)
    ensures Sees(c, s')
  {
    hide Abreast;
    var seen :| SeesAll(c, s, seen);
    TickAbreast(c, s.clock, seen, b);
    assert SeesAll(c, s', seen + {b});
  }

  lemma SeesSame(c: Committee, s: State, s': State)
    requires Sees(c, s) && s'.clock == s.clock && s'.reopened == s.reopened && s'.content == s.content
      && s'.own == s.own
    ensures Sees(c, s')
  {
    hide Abreast;
    var seen :| SeesAll(c, s, seen);
    assert SeesAll(c, s', seen);
  }

  /** A proposal finds a quorum of the round before: it is not for round 1 after the other genesis blocks were lost, or
      the own authority is a quorum. */
  ghost predicate QuorumAtHand(c: Committee, s: State) {
    !s.reopened || s.own.block.reference.round > 0 || s.clock.round > 1
    || IsQuorum(c, StakeOf(c, {s.own.block.reference.authority}))
  }

  predicate Accepted(c: Committee, e: Entry) {
    match e
    case BlockEntry(b) => b.reference.authority < |c.stakes|
    case PayloadEntry(_) => true
    case OwnBlockEntry(_) => false
  }

  /** The state after one more block or payload, logged at `position`. */
  function WithEntry(c: Committee, s: State, e: Entry, position: nat, end: nat): State
    requires Accepted(c, e)
  {
    State(s.pending + [Item(position, StatementOf(e))], s.own,
      if e.BlockEntry? then Tick(c, s.clock, e.block.reference) else s.clock,
          Storing(s.content, e), s.log + [LogRecord(position, e)], end, s.reopened)
  }

  lemma AddsBlock(c: Committee, s: State, b: Block, position: nat, end: nat)
    requires CoreOk(c, s) && Ingestible(c, b, s.content.Keys) && b.reference !in s.content && s.end <= position < end
    ensures CoreOk(c, WithEntry(c, s, BlockEntry(b), position, end))
  {
    hide Queue, Logged, Sees, AllVerified, Layered, ClockValid, AllStored;
    IngestibleIsLower(c, b, s.content.Keys);
    if !s.reopened {
      VerifiedNext(c, s.content, b);
    }
    LayeredNext(s.content, b);
    AppendBlock(c, s.own.block.reference, Floor(s), s.pending, s.clock, s.content.Keys, b, position);
    LogsStatement(s.log, s.end, s.pending, s.own, s.content, Lost(c, s), LogRecord(position, BlockEntry(b)), end);
    assert s.content.Keys + {b.reference} == s.content[b.reference := b.includes].Keys;
    SeesNext(c, s, WithEntry(c, s, BlockEntry(b), position, end), b.reference);
  }

  lemma AddsPayload(c: Committee, s: State, p: seq<nat>, position: nat, end: nat)
    requires CoreOk(c, s) && s.end <= position < end
    ensures CoreOk(c, WithEntry(c, s, PayloadEntry(p), position, end))
  {
    AppendPayload(c, s.own.block.reference, Floor(s), s.pending, s.clock, s.content.Keys, position, p);
    LogsStatement(s.log, s.end, s.pending, s.own, s.content, Lost(c, s), LogRecord(position, PayloadEntry(p)), end);
    SeesSame(c, s, WithEntry(c, s, PayloadEntry(p), position, end));
  }

  function AllStoring(content: Content, entries: seq<Entry>): Content
    requires forall e :: e in entries ==> !e.OwnBlockEntry?
  {
    if entries == [] then content
    else
      assert entries[|entries| - 1] in entries;
      Storing(AllStoring(content, entries[..|entries| - 1]), entries[|entries| - 1])
  }

  /** `s'` is `s` after `entries`, in order: each is the next record of the log, is queued with the position
      of its record, and has its block stored; nothing else was added. */
  ghost predicate Extends(c: Committee, s: State, s': State, entries: seq<Entry>) {
    && s'.own == s.own && s'.reopened == s.reopened && (forall e :: e in entries ==> Accepted(c, e))
    && |s'.log| == |s.log| + |entries| && s'.log[..|s.log|] == s.log
    && |s'.pending| == |s.pending| + |entries| && s'.pending[..|s.pending|] == s.pending
    && (forall x :: 0 <= x < |entries| ==>
          && Accepted(c, entries[x]) && s'.log[|s.log| + x].entry == entries[x]
          && s'.pending[|s.pending| + x] == Item(s'.log[|s.log| + x].position, StatementOf(entries[x])))
    && s'.content == AllStoring(s.content, entries)
  }

  lemma ExtendsNone(c: Committee, s: State)
    ensures Extends(c, s, s, [])
  {
  }

  lemma ExtendsOne(c: Committee, s: State, s': State, entries: seq<Entry>, e: Entry, position: nat, end: nat)
    requires Extends(c, s, s', entries) && Accepted(c, e)
    ensures Extends(c, s, WithEntry(c, s', e, position, end), entries + [e])
  {
    var all, s'' := entries + [e], WithEntry(c, s', e, position, end);
    assert all[..|all| - 1] == entries;
    assert s''.log[..|s.log|] == s'.log[..|s.log|] && s''.pending[..|s.pending|] == s'.pending[..|s.pending|];
  }

  /** The clock after it has seen the blocks in order. */
  function TickedAll(c: Committee, clock: Clock, blocks: seq<Block>): Clock {
    if blocks == [] then clock
    else
      var before, last := TickedAll(c, clock, blocks[..|blocks| - 1]), blocks[|blocks| - 1].reference;
      if last.authority < |c.stakes| then Tick(c, before, last) else before
  }

  lemma TicksNext(c: Committee, clock: Clock, blocks: seq<Block>, x: nat)
    requires x < |blocks| && blocks[x].reference.authority < |c.stakes|
    ensures TickedAll(c, clock, blocks[..x + 1]) == Tick(c, TickedAll(c, clock, blocks[..x]), blocks[x].reference)
  {
    assert blocks[..x + 1][..x] == blocks[..x];
  }

  function BlockEntries(blocks: seq<Block>): (es: seq<Entry>)
    ensures |es| == |blocks| && forall x :: 0 <= x < |es| ==> es[x] == BlockEntry(blocks[x])
  {
    seq(|blocks|, x requires 0 <= x < |blocks| => BlockEntry(blocks[x]))
  }

  lemma BlockEntriesNext(blocks: seq<Block>, x: nat)
    requires x < |blocks|
    ensures BlockEntries(blocks[..x + 1]) == BlockEntries(blocks[..x]) + [BlockEntry(blocks[x])]
  {
  }

  // ---------------------------------------------------------------- the length of the log

  function CostOf(k: Codec, e: Entry): nat {
    |k.encode(e)| + Wal.HEADER
  }

  function Cost(k: Codec, entries: seq<Entry>): nat {
    if entries == [] then 0 else Cost(k, entries[..|entries| - 1]) + CostOf(k, entries[|entries| - 1])
  }

  /** One entry takes its bytes and a header, and at most the rest of a mapping in front. */
  predicate Grows(k: Codec, end: nat, end': nat, e: Entry) {
    && end' < end + 2 * Wal.MAP_SIZE
    && (end + CostOf(k, e) <= Wal.MAP_SIZE ==> end' == end + CostOf(k, e))
  }

  predicate GrowsAll(k: Codec, end: nat, end': nat, entries: seq<Entry>) {
    end + Cost(k, entries) <= Wal.MAP_SIZE ==> end' == end + Cost(k, entries)
  }

  lemma GrowsNone(k: Codec, end: nat)
    ensures GrowsAll(k, end, end, [])
  {
  }

  lemma GrowsOne(k: Codec, end: nat, end': nat, end'': nat, entries: seq<Entry>, e: Entry)
    requires GrowsAll(k, end, end', entries) && Grows(k, end', end'', e)
    ensures GrowsAll(k, end, end'', entries + [e])
  {
    assert (entries + [e])[..|entries|] == entries;
  }

  function GenesisBlocks(genesis: seq<BlockReference>): (blocks: seq<Block>)
    ensures |blocks| == |genesis| && forall a :: 0 <= a < |genesis| ==> blocks[a] == Block(genesis[a], [])
  {
    seq(|genesis|, a requires 0 <= a < |genesis| => Block(genesis[a], []))
  }

  /** More than the genesis blocks take in the log. */
  function GenesisCost(k: Codec, genesis: seq<BlockReference>): nat {
    2 * Cost(k, BlockEntries(GenesisBlocks(genesis))) + OWN_BLOCK_HEADER_SIZE
  }

  lemma CostNothing(k: Codec)
    ensures Cost(k, BlockEntries([])) == 0
  {
  }

  lemma CostNext(k: Codec, blocks: seq<Block>, x: nat)
    requires x < |blocks|
    ensures Cost(k, BlockEntries(blocks[..x + 1])) ==
      Cost(k, BlockEntries(blocks[..x])) + CostOf(k, BlockEntry(blocks[x]))
    ensures Cost(k, BlockEntries(blocks[..x + 1])) <= Cost(k, BlockEntries(blocks))
  {
    BlockEntriesNext(blocks, x);
    var all, part := BlockEntries(blocks[..x + 1]), BlockEntries(blocks[..x]);
    assert all[..|all| - 1] == part;
    CostGrows(k, blocks, x + 1);
  }

  lemma {:induction false} CostGrows(k: Codec, blocks: seq<Block>, x: nat)
    requires x <= |blocks|
    ensures Cost(k, BlockEntries(blocks[..x])) <= Cost(k, BlockEntries(blocks))
    decreases |blocks| - x
  {
    if x == |blocks| {
      assert blocks[..x] == blocks;
    } else {
      CostGrows(k, blocks, x + 1);
      BlockEntriesNext(blocks, x);
      var all := BlockEntries(blocks[..x + 1]);
      assert all[..|all| - 1] == BlockEntries(blocks[..x]);
    }
  }

  lemma GenesisCostEnd(k: Codec, genesis: seq<BlockReference>, me: nat)
    requires CodecOk(k) && me < |genesis|
    ensures CostOf(k, OwnBlockEntry(OwnBlockData(None, Block(genesis[me], [])))) <=
      Cost(k, BlockEntries(GenesisBlocks(genesis))) + OWN_BLOCK_HEADER_SIZE
  {
    CostNext(k, GenesisBlocks(genesis), me);
  }

  // ---------------------------------------------------------------- proposing

  function WithProposal(c: Committee, s: State, at: nat, b: Block, position: nat, end: nat): State
    requires b.reference.authority < |c.stakes| && at <= |s.pending|
  {
    var data := OwnBlockData(NextEntry(s.pending[at..]), b);
    State(s.pending[at..], data, Tick(c, s.clock, b.reference), s.content[b.reference := b.includes],
          s.log + [LogRecord(position, OwnBlockEntry(data))], end, s.reopened)
  }

  /** A proposal out of the queue reaches what it takes, and is valid if and only if a quorum is at hand. */
  lemma ProposalIsGood(c: Committee, s: State, at: nat, b: Block)
    requires CoreOk(c, s) && s.own.block.reference.round < s.clock.round && IsSplit(s.pending, s.clock.round, at)
    requires b.reference.round == s.clock.round && b.reference.authority < |c.stakes|
    requires Compressed(s.content, s.own.block.reference, References(s.pending[..at]), b.includes)
    ensures Proposal(c, s.content, s.own.block.reference, s.pending[..at], b)
    ensures ClockValid(c, b) <==> QuorumAtHand(c, s)
    ensures SameReach(s.content, b.includes, [s.own.block.reference] + References(s.pending[..at]))
  {
    var own, taken := s.own.block.reference, References(s.pending[..at]);
    IsProposal(c, s.content, own, Floor(s), s.pending, s.clock, at, b);
    if Floor(s) < s.clock.round {
      ProposalHasQuorum(c, s.content, own, Floor(s), s.pending, s.clock, at, b);
    } else {
      ProposalAlone(c, s.content, own, s.pending, at, b);
    }
    forall a ensures ReachedFrom(s.content, b.includes, a) <==> ReachedFrom(s.content, [own] + taken, a) {
      SameHistory(s.content, own, taken, b.includes, s.clock.round, a);
    }
  }

  ghost predicate SameReach(content: Content, refs: seq<BlockReference>, refs': seq<BlockReference>) {
    forall a :: ReachedFrom(content, refs, a) <==> ReachedFrom(content, refs', a)
  }

  lemma MakesProposal(c: Committee, s: State, at: nat, b: Block, position: nat, end: nat)
    requires CoreOk(c, s) && s.own.block.reference.round < s.clock.round && IsSplit(s.pending, s.clock.round, at)
    requires b.reference.round == s.clock.round && Proposal(c, s.content, s.own.block.reference, s.pending[..at], b)
    requires b.reference !in s.content && s.end <= position < end && (!s.reopened ==> ClockValid(c, b))
    ensures CoreOk(c, WithProposal(c, s, at, b, position, end))
  {
    SplitInRange(s.pending, s.clock.round, at);
    hide AllVerified, ClockValid, Queue, Logged, Sees, Compressed, IsSplit, Layered;
    if !s.reopened {
      VerifiedNext(c, s.content, b);
    }
    LayeredNext(s.content, b);
    Proposes(c, s.own.block.reference, Floor(s), b.reference, s.pending, s.clock, s.content.Keys, at);
    SplitTakesLost(s.log, s.end, s.pending, s.own, s.content, Lost(c, s), s.clock.round, at);
    LogsOwnBlock(s.log, s.end, s.pending, s.own, s.content, Lost(c, s), at, b, position, end);
    assert s.content.Keys + {b.reference} == s.content[b.reference := b.includes].Keys;
    SeesNext(c, s, WithProposal(c, s, at, b, position, end), b.reference);
  }

  // ---------------------------------------------------------------- replay

  /** At a step boundary the log replays to the queue, the last own block and the store if and only if the core was
      opened from a log, a block was proposed after genesis or there is no other authority; otherwise exactly the queued
      genesis blocks are lost. */
  lemma RecoversExactly(c: Committee, s: State)
    requires CoreOk(c, s)
    ensures Replayed(s.log) == Recovered(s.pending, Some(s.own), s.content) <==>
      s.reopened || s.own.block.reference.round > 0 || |c.stakes| == 1
    ensures Lost(c, s) <= |s.pending| && Replayed(s.log) == Recovered(s.pending[Lost(c, s)..], Some(s.own), s.content)
  {
    OwnAuthor(c, s);
    hide Queue, Replayed, Ascending;
    var lost := Lost(c, s);
    if lost == 0 {
      assert s.pending[lost..] == s.pending;
    } else {
      assert |s.pending[lost..]| == |s.pending| - lost;
    }
  }

  lemma OwnAuthor(c: Committee, s: State)
    requires CoreOk(c, s)
    ensures s.own.block.reference.authority < |c.stakes|
  {
    hide Replayed, Known, QueuedAfterQuorum, ClockAfterQuorum, VotesQueued, StoredIsQueued, Ascending;
    assert s.own.block.reference in s.content.Keys;
  }

  /** What opening the log of a core gives: what is replayed, and a clock that has seen only what is queued. */
  function Reopened(c: Committee, s: State): State
    requires Lost(c, s) <= |s.pending|
  {
    var pending := s.pending[Lost(c, s)..];
    State(pending, s.own, Rebuilt(c, pending), s.content, s.log, s.end, true)
  }

  lemma ReopenedOk(c: Committee, s: State)
    requires CoreOk(c, s)
    ensures Lost(c, s) <= |s.pending| && CoreOk(c, Reopened(c, s))
    ensures forall x, b :: 0 <= x < |Reopened(c, s).pending| && IsRef(Reopened(c, s).pending[x], b) ==>
      b.authority < |c.stakes|
  {
    hide Queue, Replayed, Known;
    var own := s.own.block.reference;
    if own.round == 0 {
      LostQueue(c, own, Floor(s), s.pending, s.clock, s.content.Keys, Lost(c, s));
    } else {
      assert s.pending[Lost(c, s)..] == s.pending;
      RebuiltQueue(c, own, Floor(s), s.pending, s.clock, s.content.Keys);
    }
    ReopenedLogged(s.log, s.end, s.pending, s.own, s.content, Lost(c, s));
    QueuedAuthors(c, Reopened(c, s));
    ReopenedSees(c, Reopened(c, s));
  }

  lemma ReopenedSees(c: Committee, s: State)
    requires Queue(c, s.own.block.reference, Floor(s), s.pending, s.clock, s.content.Keys)
    requires s.reopened && s.clock == Rebuilt(c, s.pending)
    ensures Sees(c, s)
  {
    QueuedAuthors(c, s);
    RebuiltIsAbreast(c, s.pending);
    hide Abreast, QueuedAfterQuorum, ClockAfterQuorum, VotesQueued, Known;
    var own, seen := s.own.block.reference, QueuedBlocks(s.pending);
    forall x ensures x in seen ==> x in s.content.Keys
             ensures x in s.content.Keys && x.round >= Floor(s) && x != own ==> x in seen {
      KnownHas(own, s.pending, x);
      if y :| 0 <= y < |s.pending| && s.pending[y].statement.Include? && s.pending[y].statement.reference == x {
        assert IsRef(s.pending[y], x);
      }
    }
    assert SeesAll(c, s, seen);
  }

  lemma ReopenedLogged(log: seq<LogRecord>, end: nat, pending: seq<Item>, own: OwnBlockData, content: Content,
                       lost: nat)
    requires Logged(log, end, pending, own, content, lost)
    ensures Logged(log, end, pending[lost..], own, content, 0)
  {
    hide Replayed;
    var q := pending[lost..];
    assert q[0..] == q;
    forall x, b | 0 <= x < |q| && IsRef(q[x], b) ensures b.round > 0 {
      assert IsRef(pending[lost + x], b);
    }
  }

  lemma QueuedAuthors(c: Committee, s: State)
    requires Queue(c, s.own.block.reference, Floor(s), s.pending, s.clock, s.content.Keys)
    ensures forall x, b :: 0 <= x < |s.pending| && IsRef(s.pending[x], b) ==> b.authority < |c.stakes|
  {
    forall x, b | 0 <= x < |s.pending| && IsRef(s.pending[x], b) ensures b.authority < |c.stakes| {
      KnownHas(s.own.block.reference, s.pending, b);
    }
  }

  // ---------------------------------------------------------------- the core

  /** A proposal attempt. The source stops at an oversized block before it logs it. */
  datatype Attempt = TooEarly | Oversized(block: Block) | Made(block: Block)

  class Core {
    const committee: Committee
    const authority: nat
    const codec: Codec
    const clock: ThresholdClockAggregator
    const manager: BlockManager
    const wal: Wal.WalWriter
    ghost const reopened: bool    // opened from a log
    var pending: seq<Item>
    var lastOwn: OwnBlockData
    var content: Content          // the block store: the includes of every stored block

    ghost function Now(): State
      reads this, clock, wal
    {
      State(pending, lastOwn, clock.Value(), content, Decoded(codec, wal.recs), wal.pos, reopened)
    }

    /** The log can be written. */
    ghost predicate Writing()
      reads wal
    {
      CodecOk(codec) && wal.Valid() && wal.crc == codec.crc
    }

    /** The manager looks at the same store. */
    ghost predicate Managed()
      reads this, manager
    {
      manager.Valid() && manager.store == content.Keys && Deliverable(committee, codec, manager.setting.content)
    }

    /** At every step boundary. */
    ghost predicate Valid()
      reads this, clock, wal, manager
    {
      && authority < |committee.stakes| && lastOwn.block.reference.authority == authority
      && CoreOk(committee, Now()) && Writing() && Managed()
    }

    /** Start from genesis: the other genesis blocks are queued and logged, the own one is the last own block. */
    constructor (c: Committee, me: nat, k: Codec, genesis: seq<BlockReference>, ghost known: Content)
      requires me < |c.stakes| == |genesis|
        && (forall a :: 0 <= a < |genesis| ==> genesis[a].authority == a && genesis[a].round == 0)
      requires CodecOk(k) && Deliverable(c, k, known) && forall a :: 0 <= a < |genesis| ==>
        Small(k, Block(genesis[a], []))
      ensures Valid() && fresh(clock) && fresh(manager) && fresh(wal) && committee == c && authority == me && codec == k
      ensures |pending| == |c.stakes| - 1 && lastOwn == OwnBlockData(None, Block(genesis[me], [])) && !reopened
      ensures content.Keys == AsSet(genesis) && manager.setting == Setting(known, AsSet(genesis))
      ensures manager.blocksPending == map[] && manager.delivered == {}
      ensures Total(c) > 0 ==> clock.round == 1
      ensures GenesisCost(k, genesis) <= Wal.MAP_SIZE ==> wal.pos <= GenesisCost(k, genesis)
    {
      committee, authority, codec, reopened := c, me, k, false;
      clock := new ThresholdClockAggregator(0);
      wal := new Wal.WalWriter(k.crc);
      pending, content := [], map[genesis[me] := []];
      lastOwn := OwnBlockData(None, Block(genesis[me], []));
      manager := new BlockManager(AsSet(genesis), known);
      new;
      hide CoreOk, CodecOk, Deliverable, Small, AsSet, Loop, Total, Wal.Holds, GenesisCost;
      Begin(me, genesis);
    }

    /** Log the genesis blocks. */
    method Begin(me: nat, genesis: seq<BlockReference>)
      requires me < |committee.stakes| == |genesis|
        && (forall a :: 0 <= a < |genesis| ==> genesis[a].authority == a && genesis[a].round == 0)
      requires Writing() && forall a :: 0 <= a < |genesis| ==> Small(codec, Block(genesis[a], []))
      requires pending == [] && content == map[genesis[me] := []]
        && lastOwn == OwnBlockData(None, Block(genesis[me], []))
      requires clock.Value() == Clock(EMPTY, 0) && wal.recs == [] && wal.pos == 0 && !reopened
      modifies this`pending, this`content, clock, wal
      ensures Writing() && CoreOk(committee, Now()) && |pending| == |committee.stakes| - 1
      ensures content.Keys == AsSet(genesis) && (Total(committee) > 0 ==> clock.round == 1)
      ensures GenesisCost(codec, genesis) <= Wal.MAP_SIZE ==> wal.pos <= GenesisCost(codec, genesis)
    {
      hide Genesis, CoreOk, CodecOk, Small, AsSet, Wal.Holds, Cost, CostOf, Total, AllStarted, BlockEntries,
        GenesisBlocks;
      GenesisStart(committee, Now());
      QueueOthers(me, genesis);
      GenesisStarts(committee, genesis, me);
      LogGenesis(genesis[me]);
      GenesisCostEnd(codec, genesis, me);
    }

    /** A core with the state that a log was replayed to, and a clock that has seen nothing. */
    constructor From(c: Committee, me: nat, k: Codec, items: seq<Item>, own: OwnBlockData, blocks: Content,
                     file: seq<Wal.byte>,
                     ghost recs: seq<Wal.Rec>, ghost known: Content)
      requires Wal.Holds(file, recs, k.crc)
      ensures reopened
      ensures committee == c && authority == me && codec == k && fresh(clock) && fresh(manager) && fresh(wal)
      ensures pending == items && lastOwn == own && content == blocks && clock.Value() == Clock(EMPTY, 0)
      ensures wal.Valid() && wal.file == file && wal.recs == recs && wal.crc == k.crc
      ensures manager.Valid() && manager.store == blocks.Keys && manager.setting.content == known
        && manager.blocksPending == map[]
    {
      committee, authority, codec, reopened := c, me, k, true;
      clock := new ThresholdClockAggregator(0);
      wal := new Wal.WalWriter.Reopen(file, recs, k.crc);
      pending, lastOwn, content := items, own, blocks;
      manager := new BlockManager(blocks.Keys, known);
    }

    /** Let a new clock see the queued blocks. */
    method RebuildClock()
      requires clock.Value() == Clock(EMPTY, 0) && forall x, b :: 0 <= x < |pending| && IsRef(pending[x], b) ==>
        b.authority < |committee.stakes|
      modifies clock
      ensures clock.Value() == Rebuilt(committee, pending)
    {
      for x := 0 to |pending|
        invariant clock.Value() == Rebuilt(committee, pending[..x])
      {
        assert pending[..x + 1][..x] == pending[..x];
        if pending[x].statement.Include? {
          assert IsRef(pending[x], pending[x].statement.reference);
          clock.AddBlock(pending[x].statement.reference, committee);
        }
      }
      assert pending[..|pending|] == pending;
    }

    /** Queue and log the genesis blocks of the other authorities. */
    method QueueOthers(me: nat, genesis: seq<BlockReference>)
      requires me < |committee.stakes| == |genesis|
        && (forall a :: 0 <= a < |genesis| ==> genesis[a].authority == a && genesis[a].round == 0)
      requires Genesis(committee, genesis[me], Now()) && pending == [] && content.Keys == {genesis[me]} && wal.pos == 0
      requires Writing() && forall a :: 0 <= a < |genesis| ==> Small(codec, Block(genesis[a], []))
      modifies this`pending, this`content, clock, wal
      ensures Writing() && Genesis(committee, genesis[me], Now()) && |pending| == |genesis| - 1
        && content.Keys == AsSet(genesis)
      ensures GenesisCost(codec, genesis) <= Wal.MAP_SIZE ==>
        wal.pos <= Cost(codec, BlockEntries(GenesisBlocks(genesis)))
    {
      hide Genesis, CodecOk, Small, AsSet, Cost, CostOf, BlockEntries;
      AsSetStart(genesis, me);
      assert GenesisBlocks(genesis)[..0] == [] && GenesisBlocks(genesis)[..|genesis|] == GenesisBlocks(genesis);
      CostNothing(codec);
      for a := 0 to |genesis|
        invariant Writing() && Genesis(committee, genesis[me], Now()) && |pending| == (if a <= me then a else a - 1)
        invariant content.Keys == {genesis[me]} + AsSet(genesis[..a])
        invariant GenesisCost(codec, genesis) <= Wal.MAP_SIZE ==>
          wal.pos <= Cost(codec, BlockEntries(GenesisBlocks(genesis)[..a]))
      {
        AsSetNext(genesis, a);
        CostNext(codec, GenesisBlocks(genesis), a);
        if a != me {
          SmallIsWritable(codec, Block(genesis[a], []));
          QueueGenesis(genesis[me], genesis[a]);
        }
      }
    }

    /** Log the own genesis block; it points at no queued statement. */
    method LogGenesis(own: BlockReference)
      requires Writing() && Genesis(committee, own, Now()) && |pending| == |committee.stakes| - 1
        && Small(codec, Block(own, [])) && !reopened
      requires AllStarted(committee, own, content.Keys)
      modifies clock, wal
      ensures Writing() && CoreOk(committee, Now()) && (Total(committee) > 0 ==> clock.round == 1)
      ensures Grows(codec, old(wal.pos), wal.pos, OwnBlockEntry(lastOwn))
    {
      hide Genesis, CoreOk, CodecOk, Small;
      GenesisOwn(committee, own, Now());
      SmallIsWritable(codec, Block(own, []));
      SmallOwnIsWritable(codec, lastOwn);
      ghost var before := Now();
      clock.AddBlock(own, committee);
      var position := Write(OwnBlockEntry(lastOwn));
      GenesisEnd(committee, own, before, position, wal.pos);
      if Total(committee) > 0 {
        GenesisClock(committee, own, before);
      }
    }

    method QueueGenesis(ghost own: BlockReference, reference: BlockReference)
      requires Writing() && Genesis(committee, own, Now()) && Writable(codec, BlockEntry(Block(reference, [])))
      requires reference.round == 0 && reference.authority < |committee.stakes| && reference !in content
      modifies this`pending, this`content, clock, wal
      ensures Writing() && Genesis(committee, own, Now()) && |pending| == |old(pending)| + 1
        && content.Keys == old(content).Keys + {reference}
      ensures Grows(codec, old(wal.pos), wal.pos, BlockEntry(Block(reference, [])))
    {
      hide Genesis, CodecOk;
      ghost var s := Now();
      clock.AddBlock(reference, committee);
      var position := Write(BlockEntry(Block(reference, [])));
      GenesisNext(committee, own, s, reference, position, wal.pos);
      pending := pending + [Item(position, Include(reference))];
      content := content[reference := []];
    }

    /** Append an entry to the log. */
    method Write(e: Entry) returns (position: nat)
      requires Writing() && Writable(codec, e)
      modifies wal
      ensures Writing() && old(wal.pos) <= position < wal.pos && Grows(codec, old(wal.pos), wal.pos, e)
      ensures Decoded(codec, wal.recs) == Decoded(codec, old(wal.recs)) + [LogRecord(position, e)]
    {
      hide CodecOk;
      var data := codec.encode(e);
      Wal.OneSlice(data);
      ghost var before := wal.recs;
      position := wal.Writev(TagOf(e), [data], codec.crc(data));
      DecodedAppend(codec, before, position, e);
      Wal.PlaceFits(old(wal.pos), |data| + Wal.HEADER);
      if old(wal.pos) + |data| + Wal.HEADER <= Wal.MAP_SIZE {
        Wal.PlaceHere(old(wal.pos), |data| + Wal.HEADER);
      }
    }

    /** Hand the delivered blocks to the manager; queue and log what it accepts, then the payload produced for it. */
    method AddBlocks(blocks: seq<Block>, statements: seq<nat>) returns (processed: seq<Block>)
      requires Valid() && (forall b :: b in blocks ==> Identified(manager.setting.content, b))
        && Writable(codec, PayloadEntry(statements))
      modifies this`pending, this`content, clock, wal, manager
      ensures Valid() && manager.setting == old(manager.setting) && lastOwn == old(lastOwn)
      ensures GrowsAll(codec, old(wal.pos), wal.pos, BlockEntries(processed) + [PayloadEntry(statements)])
      ensures Extends(committee, old(Now()), Now(), BlockEntries(processed) + [PayloadEntry(statements)])
      ensures clock.Value() == TickedAll(committee, old(clock.Value()), processed)
      ensures Payloads(pending) == Payloads(old(pending)) + statements
      ensures WrittenAfterIncludes(processed, old(content).Keys)
      ensures forall b :: b in processed ==> Identified(manager.setting.content, b)
      ensures content.Keys == old(content).Keys + Refs(processed)
      ensures Settled(manager.setting.content, manager.setting.initial, old(manager.delivered) + Refs(blocks),
        content.Keys)
    {
      hide CoreOk, CodecOk, Refs, Deliverable, Extends, Accepted, Settled, WrittenAfterIncludes, Writable, CausalBatch,
        BlockEntries, GrowsAll, Grows, Payloads;
      ghost var s, stored := Now(), content.Keys;
      processed := manager.AddBlocks(blocks);
      ManagerFeedsCore(committee, codec, manager.setting.content, processed, stored);
      QueueAll(processed);
      ghost var s' := Now();
      var position := AddPayload(statements);
      PayloadIsAccepted(committee, statements);
      PayloadAdded(committee, s, s', Now(), processed, statements, position, wal.pos);
      ExtendsOne(committee, s, s', BlockEntries(processed), PayloadEntry(statements), position, wal.pos);
      GrowsOne(codec, s.end, s'.end, wal.pos, BlockEntries(processed), PayloadEntry(statements));
    }

    method QueueAll(processed: seq<Block>)
      requires CoreOk(committee, Now()) && Writing() && CausalBatch(committee, processed, content.Keys)
      requires forall b :: b in processed ==> Writable(codec, BlockEntry(b))
      modifies this`pending, this`content, clock, wal
      ensures CoreOk(committee, Now()) && Writing() && content.Keys == old(content).Keys + Refs(processed)
      ensures Extends(committee, old(Now()), Now(), BlockEntries(processed))
        && clock.Value() == TickedAll(committee, old(clock.Value()), processed)
      ensures GrowsAll(codec, old(wal.pos), wal.pos, BlockEntries(processed))
    {
      hide CoreOk, CodecOk, Ingestible, Refs, Extends, Writable, BlockEntries, Tick, WithEntry, Decoded, Grows,
        GrowsAll;
      ghost var s, stored := Now(), content.Keys;
      NoRefs(processed);
      ExtendsNone(committee, s);
      GrowsNone(codec, s.end);
      for x := 0 to |processed|
        invariant CoreOk(committee, Now()) && Writing() && content.Keys == stored + Refs(processed[..x])
        invariant Extends(committee, s, Now(), BlockEntries(processed[..x]))
          && clock.Value() == TickedAll(committee, s.clock, processed[..x])
        invariant GrowsAll(codec, s.end, wal.pos, BlockEntries(processed[..x]))
      {
        assert processed[..x + 1] == processed[..x] + [processed[x]] && processed[x] in processed;
        RefsAppend(processed[..x], processed[x]);
        ghost var s' := Now();
        var position := AddBlock(processed[x]);
        ExtendsOne(committee, s, s', BlockEntries(processed[..x]), BlockEntry(processed[x]), position, wal.pos);
        GrowsOne(codec, s.end, s'.end, wal.pos, BlockEntries(processed[..x]), BlockEntry(processed[x]));
        BlockEntriesNext(processed, x);
        TicksNext(committee, s.clock, processed, x);
      }
      assert processed[..|processed|] == processed;
    }

    method AddBlock(block: Block) returns (position: nat)
      requires CoreOk(committee, Now()) && Writing() && Ingestible(committee, block, content.Keys)
        && block.reference !in content
      requires Writable(codec, BlockEntry(block))
      modifies this`pending, this`content, clock, wal
      ensures CoreOk(committee, Now()) && Writing() && old(wal.pos) <= position < wal.pos
      ensures Grows(codec, old(wal.pos), wal.pos, BlockEntry(block))
      ensures Accepted(committee, BlockEntry(block))
        && Now() == WithEntry(committee, old(Now()), BlockEntry(block), position, wal.pos)
      ensures content.Keys == old(content).Keys + {block.reference}
        && clock.Value() == Tick(committee, old(clock.Value()), block.reference)
    {
      hide CoreOk, CodecOk;
      ghost var s := Now();
      position := Write(BlockEntry(block));
      clock.AddBlock(block.reference, committee);
      pending := pending + [Item(position, Include(block.reference))];
      content := content[block.reference := block.includes];
      AddsBlock(committee, s, block, position, wal.pos);
    }

    method AddPayload(statements: seq<nat>) returns (position: nat)
      requires CoreOk(committee, Now()) && Writing() && Writable(codec, PayloadEntry(statements))
      modifies this`pending, wal
      ensures Now() == WithEntry(committee, old(Now()), PayloadEntry(statements), position, wal.pos)
      ensures old(wal.pos) <= position < wal.pos && Grows(codec, old(wal.pos), wal.pos, PayloadEntry(statements))
      ensures CoreOk(committee, Now()) && Writing()
    {
      hide CoreOk, CodecOk;
      ghost var s := Now();
      position := Write(PayloadEntry(statements));
      pending := pending + [Item(position, Payload(statements))];
      AddsPayload(committee, s, statements, position, wal.pos);
    }

    /** Propose a block for the round of the clock, unless one was proposed already. `digest` is that of the signed
        block, which nobody can have included before. */
    method TryNewBlock(epochChanging: bool, digest: nat) returns (attempt: Attempt, statements: seq<nat>, ghost at: nat)
      requires Valid() && wal.pos < Wal.TWO_64
      requires var reference := BlockReference(authority, clock.round, digest);
        reference !in content && reference !in manager.blocksPending && !Wanted(manager.blocksPending, reference)
      modifies this`pending, this`lastOwn, this`content, clock, wal, manager
      ensures Valid()
      ensures attempt.TooEarly? <==> old(clock.round) <= old(lastOwn.block.reference.round)
      ensures !reopened && NoSingleQuorum(committee) ==> (attempt.TooEarly? <==> NothingNew(committee, old(Now())))
      ensures !attempt.Made? ==> Now() == old(Now())
      ensures !attempt.TooEarly? ==>
        && IsSplit(old(pending), old(clock.round), at)
           && attempt.block.reference == BlockReference(authority, old(clock.round), digest)
        && Proposal(committee, old(content), old(lastOwn.block.reference), old(pending)[..at], attempt.block)
        && (ClockValid(committee, attempt.block) <==> QuorumAtHand(committee, old(Now())))
        && SameReach(old(content), attempt.block.includes,
           [old(lastOwn.block.reference)] + References(old(pending)[..at]))
        && (attempt.Made? <==> Small(codec, attempt.block))
      ensures attempt.Made? ==>
        && pending == old(pending)[at..] && statements == (if epochChanging then [] else Payloads(old(pending)[..at]))
        && lastOwn == OwnBlockData(NextEntry(pending), attempt.block)
        && content == old(content)[attempt.block.reference := attempt.block.includes]
        && Replayed(Now().log) == Recovered(pending, Some(lastOwn), content)
      ensures attempt.Made? && !epochChanging ==> Payloads(old(pending)) == statements + Payloads(pending)
    {
      hide CoreOk, Proposal, ClockValid, IsSplit, Compressed, CodecOk, Deliverable, Small, SameReach, Wanted,
        QuorumAtHand, NothingNew, NoSingleQuorum, Payloads, References, Loop, Decoded, Wal.Holds, Replayed;
      at, statements := 0, [];
      ProposesInTime(committee, Now());
      var clockRound := clock.round;
      if clockRound <= lastOwn.block.reference.round {
        return TooEarly, [], 0;
      }
      var first := FirstTooNew(clockRound);
      at := first;
      SplitInRange(pending, clockRound, first);
      TakenIsStored(committee, Now(), first);
      PayloadsSplit(pending, first);
      var includes;
      includes, statements := Collect(pending[..first], epochChanging);
      var block := Block(BlockReference(authority, clockRound, digest), includes);
      ProposalIsGood(committee, Now(), first, block);
      if |codec.encode(BlockEntry(block))| > MAX_ENTRY_SIZE / 2 {
        SmallIs(codec, block);
        return Oversized(block), statements, first;
      }
      SmallIs(codec, block);
      FreshHasQuorum(committee, Now());
      Record(block, first);
      manager.Inserted(block.reference);
      RecoversExactly(committee, Now());
      return Made(block), statements, first;
    }

    /** Tick the clock, keep the rest of the queue, and log the own block with the position of what stays. */
    method Record(block: Block, first: nat)
      requires CoreOk(committee, Now()) && Writing() && Small(codec, block) && wal.pos < Wal.TWO_64
      requires IsSplit(pending, clock.round, first)
        && lastOwn.block.reference.round < clock.round == block.reference.round
      requires first <= |pending| && Proposal(committee, content, lastOwn.block.reference, pending[..first], block)
        && block.reference !in content && (!reopened ==> ClockValid(committee, block))
      modifies this`pending, this`lastOwn, this`content, clock, wal
      ensures CoreOk(committee, Now()) && Writing()
      ensures pending == old(pending)[first..] && lastOwn == OwnBlockData(NextEntry(pending), block)
      ensures content == old(content)[block.reference := block.includes]
    {
      hide CoreOk, CodecOk, Small, IsSplit, Proposal, ClockValid;
      ghost var s := Now();
      ProposalIsKnown(committee, s, first, block);
      pending := pending[first..];
      clock.AddBlock(block.reference, committee);
      var nextEntry := if pending == [] then None else Some(pending[0].position);
      lastOwn := OwnBlockData(nextEntry, block);
      SmallOwnIsWritable(codec, lastOwn);
      var position := Write(OwnBlockEntry(lastOwn));
      content := content[block.reference := block.includes];
      MakesProposal(committee, s, first, block, position, wal.pos);
    }

    /** The index of the first include that is not older than the clock. */
    method FirstTooNew(round: nat) returns (at: nat)
      ensures IsSplit(pending, round, at)
    {
      at := 0;
      while at < |pending| && !(pending[at].statement.Include? && pending[at].statement.reference.round >= round)
        invariant at <= |pending| && forall x, b :: 0 <= x < at && IsRef(pending[x], b) ==> b.round < round
      {
        at := at + 1;
      }
    }

    /** Drop every taken include that the last own block or a taken block includes; collect the payload. */
    method Collect(taken: seq<Item>, epochChanging: bool) returns (includes: seq<BlockReference>, statements: seq<nat>)
      requires forall x, b :: 0 <= x < |taken| && IsRef(taken[x], b) ==> b in content
      requires lastOwn.block.reference in content && content[lastOwn.block.reference] == lastOwn.block.includes
      ensures Compressed(content, lastOwn.block.reference, References(taken), includes)
      ensures statements == if epochChanging then [] else Payloads(taken)
    {
      hide Referenced, Unreferenced, References, Payloads;
      NothingCollected(content, [lastOwn.block.reference] + References(taken), taken);
      var own := lastOwn.block.reference;
      ghost var all := [own] + References(taken);
      var referenced := Gather(taken);
      includes, statements := [own], [];
      for x := 0 to |taken|
        invariant includes == [own] + Unreferenced(content, all, References(taken[..x]))
        invariant statements == if epochChanging then [] else Payloads(taken[..x])
      {
        CollectNext(taken, x);
        KeepsNext(content, all, own, taken, x, includes);
        match taken[x].statement {
          case Include(reference) =>
            if reference !in referenced {
              includes := includes + [reference];
            }
          case Payload(payload) =>
            if !epochChanging {
              statements := statements + payload;
            }
        }
      }
      assert taken[..|taken|] == taken;
    }

    /** The references in the includes of the last own block and of the taken blocks. */
    method Gather(taken: seq<Item>) returns (referenced: set<BlockReference>)
      requires forall x, b :: 0 <= x < |taken| && IsRef(taken[x], b) ==> b in content
      requires lastOwn.block.reference in content && content[lastOwn.block.reference] == lastOwn.block.includes
      ensures forall d :: d in referenced <==> Referenced(content, [lastOwn.block.reference] + References(taken), d)
    {
      var own := lastOwn.block.reference;
      referenced := set r | r in lastOwn.block.includes;
      for x := 0 to |taken|
        invariant forall d :: d in referenced <==> Referenced(content, [own] + References(taken[..x]), d)
      {
        CollectNext(taken, x);
        if taken[x].statement.Include? {
          var b := taken[x].statement.reference;
          assert IsRef(taken[x], b);
          ReferencedNext(content, [own] + References(taken[..x]), b);
          assert [own] + References(taken[..x + 1]) == [own] + References(taken[..x]) + [b];
          referenced := referenced + set r | r in content[b];
        }
      }
      assert taken[..|taken|] == taken;
    }
  }

  /** `Core::open` on the log of a core that stopped at a step boundary: replay its bytes and let the clock see what
      is queued. Blocks that the handler had not processed yet produce one more payload. Opening panics if and only if
      some padding of the log is shorter than a header. */
  method Reopen(c: Committee, me: nat, k: Codec, file: seq<Wal.byte>, unprocessed: Option<seq<nat>>,
                ghost recs: seq<Wal.Rec>, ghost was: State, ghost known: Content)
    returns (core: Core?)
    requires me < |c.stakes| && CodecOk(k) && Deliverable(c, k, known)
      && (unprocessed.Some? ==> Writable(k, PayloadEntry(unprocessed.value)))
    requires Wal.Holds(file, recs, k.crc) && was.log == Decoded(k, recs) && was.end == |file|
    requires CoreOk(c, was) && was.own.block.reference.authority == me
    ensures core == null <==> !Wal.RoomyGaps(recs)
    ensures core != null ==>
      && fresh(core) && fresh(core.clock) && fresh(core.manager) && fresh(core.wal) && core.Valid()
      && core.committee == c && core.authority == me && core.codec == k && core.reopened
      && core.manager.setting.content == known && core.manager.blocksPending == map[]
      && Lost(c, was) <= |was.pending| && core.clock.Value() == Reopened(c, was).clock
      && Extends(c, Reopened(c, was), core.Now(),
                 if unprocessed.Some? then [PayloadEntry(unprocessed.value)] else [])
      && core.wal.pos < |file| + 2 * Wal.MAP_SIZE
  {
    hide CoreOk, CodecOk, Deliverable, Wal.Holds, Wal.RoomyGaps, Rebuilt, Extends, Loop, Replayed, Decoded;
    RecoversExactly(c, was);
    LogIsOk(c, was);
    ReopenedOk(c, was);
    CodecHasCrc(k);
    var r := OpenLog(k, file, recs, |file|);
    if r.None? {
      return null;
    }
    var next := new Core.From(c, me, k, r.value.pending, r.value.own.value, r.value.content, file, recs, known);
    next.RebuildClock();
    ghost var s := next.Now();
    assert s == Reopened(c, was);
    ExtendsNone(c, s);
    if unprocessed.Some? {
      var position := next.AddPayload(unprocessed.value);
      ExtendsOne(c, s, s, [], PayloadEntry(unprocessed.value), position, next.wal.pos);
      assert [] + [PayloadEntry(unprocessed.value)] == [PayloadEntry(unprocessed.value)];
    }
    return next;
  }

  /** Stop a core at a step boundary, open the bytes it wrote, and let it propose: whatever it proposes is later than
      the last own block and includes that block first. It is valid for its round if and only if that block is not
      genesis, the rebuilt clock is past round 1, or the own authority alone is a quorum. */
  method RestartAndPropose(core: Core, unprocessed: Option<seq<nat>>, epochChanging: bool, digest: nat)
      returns (reopened: Core?, attempt: Attempt, ghost taken: seq<Item>)
    requires core.Valid() && core.wal.pos + 2 * Wal.MAP_SIZE < Wal.TWO_64
      && (unprocessed.Some? ==> Writable(core.codec, PayloadEntry(unprocessed.value)))
    requires Lost(core.committee, core.Now()) <= |core.pending| ==>
      BlockReference(core.authority, Reopened(core.committee, core.Now()).clock.round, digest) !in core.content
    ensures reopened == null <==> !Wal.RoomyGaps(core.wal.recs)
    ensures reopened != null ==>
      && fresh(reopened) && reopened.Valid() && reopened.committee == core.committee && reopened.reopened
      && reopened.authority == core.authority && (!attempt.Made? ==> reopened.lastOwn == core.lastOwn)
      && Lost(core.committee, core.Now()) <= |core.pending|
      && (attempt.TooEarly? <==>
            Rebuilt(core.committee, core.pending[Lost(core.committee, core.Now())..]).round <=
              core.lastOwn.block.reference.round)
    ensures reopened != null && !attempt.TooEarly? ==>
      && attempt.block.reference ==
           BlockReference(core.authority,
                          Rebuilt(core.committee, core.pending[Lost(core.committee, core.Now())..]).round, digest)
      && AllStored(attempt.block.includes, core.content.Keys) && (attempt.Made? <==> Small(core.codec, attempt.block))
      && attempt.block.includes != [] && attempt.block.includes[0] == core.lastOwn.block.reference
      && Proposal(core.committee, core.content, core.lastOwn.block.reference, taken, attempt.block)
      && |taken| <= |core.pending| - Lost(core.committee, core.Now()) + if unprocessed.Some? then 1 else 0
    ensures reopened != null && !attempt.TooEarly? ==>
      && (Verified(core.committee, attempt.block) <==>
            || core.lastOwn.block.reference.round > 0
            || Rebuilt(core.committee, core.pending[Lost(core.committee, core.Now())..]).round > 1
            || IsQuorum(core.committee, StakeOf(core.committee, {core.authority})))
  {
    hide CoreOk, CodecOk, Deliverable, Extends, Wal.RoomyGaps, Wal.Holds, Rebuilt, IsSplit, SameReach, Small, Writable,
      Loop, Proposal, ClockValid, StakeOf;
    attempt, taken := TooEarly, [];
    ghost var s := core.Now();
    reopened := Reopen(core.committee, core.authority, core.codec, core.wal.file, unprocessed,
                       core.wal.recs, s, core.manager.setting.content);
    if reopened == null {
      return;
    }
    ExtendsKeeps(core.committee, Reopened(core.committee, s), reopened.Now(), unprocessed);
    NothingWanted();
    ghost var t := reopened.Now();
    var statements;
    ghost var at;
    attempt, statements, at := reopened.TryNewBlock(epochChanging, digest);
    if !attempt.TooEarly? {
      SplitInRange(t.pending, t.clock.round, at);
      taken := t.pending[..at];
      ProposalStarts(core.committee, t.content, t.own.block.reference, taken, attempt.block);
    }
  }

  lemma ProposalStarts(c: Committee, content: Content, own: BlockReference, taken: seq<Item>, b: Block)
    requires Proposal(c, content, own, taken, b)
    ensures b.includes != [] && b.includes[0] == own && AllStored(b.includes, content.Keys)
      && b.reference.authority < |c.stakes|
  {
  }

  lemma NothingWanted()
    ensures forall r :: !Wanted(map[], r)
  {
  }

  function AsSet(refs: seq<BlockReference>): set<BlockReference> {
    set r | r in refs
  }

  lemma AsSetStart(genesis: seq<BlockReference>, me: nat)
    requires me < |genesis|
    ensures AsSet(genesis[..0]) == {} && {genesis[me]} + AsSet(genesis[..|genesis|]) == AsSet(genesis)
  {
    assert genesis[..|genesis|] == genesis;
  }

  lemma AsSetNext(genesis: seq<BlockReference>, a: nat)
    requires a < |genesis| && forall x :: 0 <= x < |genesis| ==> genesis[x].authority == x
    ensures AsSet(genesis[..a + 1]) == AsSet(genesis[..a]) + {genesis[a]} && genesis[a] !in AsSet(genesis[..a])
  {
    assert genesis[..a + 1] == genesis[..a] + [genesis[a]];
  }

  lemma ExtendsKeeps(c: Committee, s: State, s': State, payload: Option<seq<nat>>)
    requires Extends(c, s, s', if payload.Some? then [PayloadEntry(payload.value)] else [])
    ensures s'.content == s.content && s'.own == s.own
      && |s'.pending| == |s.pending| + if payload.Some? then 1 else 0
  {
    if payload.Some? {
      var entries := [PayloadEntry(payload.value)];
      assert entries[..0] == [] && AllStoring(s.content, entries[..0]) == s.content;
    }
  }

  lemma LogIsOk(c: Committee, s: State)
    requires CoreOk(c, s)
    ensures LogOk(s.log, s.end)
  {
  }

  lemma SmallIs(k: Codec, b: Block)
    ensures Small(k, b) <==> |k.encode(BlockEntry(b))| <= MAX_ENTRY_SIZE / 2
  {
  }

  lemma SmallIsWritable(k: Codec, b: Block)
    requires Small(k, b)
    ensures Writable(k, BlockEntry(b))
  {
  }

  lemma SmallOwnIsWritable(k: Codec, data: OwnBlockData)
    requires CodecOk(k) && Small(k, data.block) && (data.nextEntry.Some? ==> data.nextEntry.value < Wal.TWO_64 - 1)
    ensures Writable(k, OwnBlockEntry(data))
  {
  }

  lemma CodecHasCrc(k: Codec)
    requires CodecOk(k)
    ensures Wal.Crc32(k.crc)
  {
  }

  lemma FreshHasQuorum(c: Committee, s: State)
    ensures !s.reopened ==> QuorumAtHand(c, s)
  {
  }

  lemma ProposalIsKnown(c: Committee, s: State, at: nat, b: Block)
    requires CoreOk(c, s) && at <= |s.pending| && Proposal(c, s.content, s.own.block.reference, s.pending[..at], b)
    ensures b.reference.authority < |c.stakes|
    ensures forall x :: 0 <= x < |s.pending| ==> s.pending[x].position < s.end
  {
  }

  lemma PayloadIsAccepted(c: Committee, statements: seq<nat>)
    ensures Accepted(c, PayloadEntry(statements))
  {
  }

  lemma NoRefs(blocks: seq<Block>)
    ensures Refs(blocks[..0]) == {} && BlockEntries(blocks[..0]) == []
  {
  }

  lemma ReferencedNext(content: Content, all: seq<BlockReference>, b: BlockReference)
    requires b in content
    ensures forall d :: Referenced(content, all + [b], d) <==> Referenced(content, all, d) || d in content[b]
  {
    forall d ensures Referenced(content, all + [b], d) <==> Referenced(content, all, d) || d in content[b] {
      if s :| s in all && s in content && d in content[s] {
        assert s in all + [b];
      }
      if d in content[b] {
        assert b in all + [b];
      }
    }
  }

  lemma SplitInRange(pending: seq<Item>, round: nat, at: nat)
    requires IsSplit(pending, round, at)
    ensures at <= |pending|
  {
  }

  lemma TakenIsStored(c: Committee, s: State, at: nat)
    requires CoreOk(c, s) && at <= |s.pending|
    ensures forall x, b :: 0 <= x < at && IsRef(s.pending[..at][x], b) ==> b in s.content
    ensures s.own.block.reference in s.content && s.content[s.own.block.reference] == s.own.block.includes
  {
    forall x, b | 0 <= x < at && IsRef(s.pending[..at][x], b) ensures b in s.content {
      assert IsRef(s.pending[x], b);
      KnownHas(s.own.block.reference, s.pending, b);
    }
  }

  // ---------------------------------------------------------------- genesis

  /** While the genesis blocks of the others are queued: everything holds but the own block is not logged. */
  ghost predicate Genesis(c: Committee, own: BlockReference, s: State) {
    && Queue(c, own, 0, s.pending, s.clock, s.content.Keys) && Layered(s.content)
    && s.clock.round <= 1 && (s.clock.round == 0 ==> forall r :: r in s.content && r != own ==>
                                r.authority in s.clock.aggregate.votes)
    && own.round == 0 && own.authority < |c.stakes| && own in s.content && s.content[own] == []
       && s.own == OwnBlockData(None, Block(own, []))
    && LogOk(s.log, s.end) && Ascending(s.pending)
       && (forall x :: 0 <= x < |s.pending| ==> s.pending[x].position < s.end)
    && (forall x :: 0 <= x < |s.pending| ==>
       s.pending[x].statement.Include? && s.pending[x].statement.reference.round == 0)
    && s.content == Replayed(s.log).content[own := []] && Abreast(c, s.clock, s.content.Keys - {own})
    && AllVerified(c, s.content)
  }

  lemma GenesisStart(c: Committee, s: State)
    requires s.own.block.reference.round == 0 && s.own.block.reference.authority < |c.stakes|
      && s.own == OwnBlockData(None, Block(s.own.block.reference, []))
    requires s.pending == [] && s.log == [] && s.clock == Clock(EMPTY, 0)
      && s.content == map[s.own.block.reference := []]
    ensures Genesis(c, s.own.block.reference, s)
  {
    GenesisQueue(c, s.own.block.reference);
    assert s.content.Keys == {s.own.block.reference};
    StartsAbreast(c);
    assert s.content.Keys - {s.own.block.reference} == {};
  }

  lemma GenesisOwn(c: Committee, own: BlockReference, s: State)
    requires Genesis(c, own, s)
    ensures own.authority < |c.stakes| && s.own == OwnBlockData(None, Block(own, []))
  {
  }

  lemma GenesisNext(c: Committee, own: BlockReference, s: State, b: BlockReference, position: nat, end: nat)
    requires Genesis(c, own, s) && b.round == 0 && b.authority < |c.stakes| && b !in s.content
      && s.end <= position < end
    ensures Genesis(c, own, WithEntry(c, s, BlockEntry(Block(b, [])), position, end))
  {
    hide Queue, Replayed, Known, Abreast, AllVerified, ClockValid, Layered;
    VerifiedNext(c, s.content, Block(b, []));
    LayeredNext(s.content, Block(b, []));
    TickAbreast(c, s.clock, s.content.Keys - {own}, b);
    assert s.content[b := []].Keys - {own} == s.content.Keys - {own} + {b};
    AppendBlock(c, own, 0, s.pending, s.clock, s.content.Keys, Block(b, []), position);
    ReplayedAppend(s.log, LogRecord(position, BlockEntry(Block(b, []))));
    assert s.content.Keys + {b} == s.content[b := []].Keys;
  }

  lemma GenesisEnd(c: Committee, own: BlockReference, s: State, position: nat, end: nat)
    requires Genesis(c, own, s) && |s.pending| == |c.stakes| - 1 && s.end <= position < end && !s.reopened
    ensures CoreOk(c, State(s.pending, s.own, Tick(c, s.clock, own), s.content,
      s.log + [LogRecord(position, OwnBlockEntry(s.own))], end, false))
  {
    hide Queue, Abreast, AllVerified;
    TickOwn(c, own, s.pending, s.clock, s.content.Keys);
    TickAbreast(c, s.clock, s.content.Keys - {own}, own);
    assert s.content.Keys - {own} + {own} == s.content.Keys;
    assert SeesAll(c, State(s.pending, s.own, Tick(c, s.clock, own), s.content,
      s.log + [LogRecord(position, OwnBlockEntry(s.own))], end, false), s.content.Keys);
    ReplayedAppend(s.log, LogRecord(position, OwnBlockEntry(s.own)));
    KeepNone(Replayed(s.log).pending);
    assert s.pending[|s.pending|..] == [];
  }

  lemma GenesisQueue(c: Committee, own: BlockReference)
    requires own.authority < |c.stakes| && own.round == 0
    ensures Queue(c, own, 0, [], Clock(EMPTY, 0), {own})
  {
    EmptyOk(c);
  }

  lemma TickOwn(c: Committee, own: BlockReference, pending: seq<Item>, clock: Clock, stored: set<BlockReference>)
    requires Queue(c, own, 0, pending, clock, stored) && own in stored && own.round == 0
    ensures Queue(c, own, 0, pending, Tick(c, clock, own), stored)
  {
    KnownHas(own, pending, own);
    TickKeeps(c, own, 0, pending, pending, clock, own);
  }

  /** The genesis blocks of all authorities are a quorum, so the clock stands at round 1. */
  lemma GenesisClock(c: Committee, own: BlockReference, s: State)
    requires Genesis(c, own, s) && Total(c) > 0
    requires AllStarted(c, own, s.content.Keys)
    ensures Tick(c, s.clock, own).round == 1
  {
    if s.clock.round == 0 {
      AddVoteOk(c, s.clock.aggregate, own.authority);
      var votes := s.clock.aggregate.votes + {own.authority};
      forall a: nat | a < |c.stakes| ensures a in votes {
        if a != own.authority {
          assert Started(own, s.content.Keys, a);
        }
      }
      AllStake(c, votes, |c.stakes|);
    }
  }

  /** Another block of authority `a` is stored. */
  ghost predicate Started(own: BlockReference, stored: set<BlockReference>, a: nat) {
    exists r :: r in stored && r != own && r.authority == a
  }

  ghost predicate AllStarted(c: Committee, own: BlockReference, stored: set<BlockReference>) {
    forall a: nat :: a < |c.stakes| && a != own.authority ==> Started(own, stored, a)
  }

  lemma GenesisStarts(c: Committee, genesis: seq<BlockReference>, me: nat)
    requires me < |genesis| == |c.stakes| && forall a :: 0 <= a < |genesis| ==> genesis[a].authority == a
    ensures AllStarted(c, genesis[me], AsSet(genesis))
  {
    forall a: nat | a < |c.stakes| && a != me ensures Started(genesis[me], AsSet(genesis), a) {
      assert genesis[a] in AsSet(genesis);
    }
  }

  lemma {:induction false} AllStake(c: Committee, s: set<nat>, i: nat)
    requires i <= |c.stakes| && forall a: nat :: a < i ==> a in s
    ensures StakeBelow(c, s, i) == TotalBelow(c, i)
  {
    if i != 0 {
      AllStake(c, s, i - 1);
    }
  }
}

/** Replaying the write-ahead log: `RecoveredStateBuilder` in `state.rs` and the replay loop of
    `BlockStore::open`, from the bytes of the log to the queue, the last own block and the store. */
module Recovery {
  import opened Collections
  import Wal
  import opened BlockManagement
  import opened ProposalInvariant

  /** `next_entry` is the position of the first statement that stayed queued; `None` stands for `WalPosition::MAX`. */
  datatype OwnBlockData = OwnBlockData(nextEntry: Option<nat>, block: Block)

  datatype Entry = BlockEntry(block: Block) | PayloadEntry(statements: seq<nat>) | OwnBlockEntry(data: OwnBlockData)

  datatype LogRecord = LogRecord(position: nat, entry: Entry)

  /** The statements that are still queued, the last own block, and the blocks in the store. */
  datatype Recovered = Recovered(pending: seq<Item>, own: Option<OwnBlockData>, content: Content)

  ghost predicate Ascending(items: seq<Item>) {
    forall x, y :: 0 <= x < y < |items| ==> items[x].position < items[y].position
  }

  ghost predicate LogOk(log: seq<LogRecord>, end: nat) {
    && (forall x, y :: 0 <= x < y < |log| ==> log[x].position < log[y].position)
    && forall x :: 0 <= x < |log| ==> log[x].position < end
  }

  predicate AtLeast(position: nat, next: Option<nat>) {
    next.Some? && position >= next.value
  }

  /** The items from position `next` on. */
  function Keep(items: seq<Item>, next: Option<nat>): seq<Item> {
    if items == [] then []
    else
      var last := items[|items| - 1];
      Keep(items[..|items| - 1], next) + if AtLeast(last.position, next) then [last] else []
  }

  /** What replaying a log gives. */
  function Replayed(log: seq<LogRecord>): Recovered {
    if log == [] then Recovered([], None, map[]) else OneMore(Replayed(log[..|log| - 1]), log[|log| - 1])
  }

  function OneMore(r: Recovered, e: LogRecord): Recovered {
    match e.entry
    case BlockEntry(b) =>
      Recovered(r.pending + [Item(e.position, Include(b.reference))], r.own, r.content[b.reference := b.includes])
    case PayloadEntry(p) => Recovered(r.pending + [Item(e.position, Payload(p))], r.own, r.content)
    case OwnBlockEntry(data) =>
      Recovered(Keep(r.pending, data.nextEntry), Some(data), r.content[data.block.reference := data.block.includes])
  }

  lemma ReplayedAppend(log: seq<LogRecord>, e: LogRecord)
    ensures Replayed(log + [e]) == OneMore(Replayed(log), e)
  {
    assert (log + [e])[..|log|] == log;
  }

  lemma {:induction false} KeepNone(items: seq<Item>)
    ensures Keep(items, None) == []
  {
    if items != [] {
      KeepNone(items[..|items| - 1]);
    }
  }

  /** On a queue in log order, `split_off` at the position of an item keeps exactly the items from there on. */
  lemma {:induction false} KeepSuffix(items: seq<Item>, at: nat)
    requires Ascending(items) && at < |items|
    ensures Keep(items, Some(items[at].position)) == items[at..]
  {
    var front, next := items[..|items| - 1], Some(items[at].position);
    if at == |items| - 1 {
      KeepNothing(front, items[at].position);
    } else {
      KeepSuffix(front, at);
      assert front[at] == items[at] && items[at..] == front[at..] + [items[|items| - 1]];
    }
  }

  lemma {:induction false} KeepNothing(items: seq<Item>, next: nat)
    requires forall x :: 0 <= x < |items| ==> items[x].position < next
    ensures Keep(items, Some(next)) == []
  {
    if items != [] {
      KeepNothing(items[..|items| - 1], next);
    }
  }

  lemma {:induction false} KeepAscends(items: seq<Item>, next: Option<nat>)
    requires Ascending(items)
    ensures Ascending(Keep(items, next))
    ensures forall x :: 0 <= x < |Keep(items, next)| ==> Keep(items, next)[x] in items
  {
    if items != [] {
      var front := items[..|items| - 1];
      KeepAscends(front, next);
      assert forall i :: i in front ==> i in items && i.position < items[|items| - 1].position;
    }
  }

  lemma {:induction false} ReplayedAscends(log: seq<LogRecord>, end: nat)
    requires LogOk(log, end)
    ensures Ascending(Replayed(log).pending)
    ensures forall x :: 0 <= x < |Replayed(log).pending| ==> Replayed(log).pending[x].position < end
  {
    if log != [] {
      var front, last := log[..|log| - 1], log[|log| - 1];
      ReplayedAscends(front, last.position);
      if last.entry.OwnBlockEntry? {
        KeepAscends(Replayed(front).pending, last.entry.data.nextEntry);
      }
    }
  }

  // ---------------------------------------------------------------- the builder

  /** The items as the ordered map that the builder holds. */
  function AsMap(items: seq<Item>): map<nat, MetaStatement> {
    if items == [] then map[]
    else AsMap(items[..|items| - 1])[items[|items| - 1].position := items[|items| - 1].statement]
  }

  function SplitOff(m: map<nat, MetaStatement>, next: Option<nat>): map<nat, MetaStatement> {
    map p | p in m && AtLeast(p, next) :: m[p]
  }

  lemma AsMapAppend(items: seq<Item>, i: Item)
    ensures AsMap(items + [i]) == AsMap(items)[i.position := i.statement]
  {
    assert (items + [i])[..|items|] == items;
  }

  lemma {:induction false} AsMapHas(items: seq<Item>, p: nat)
    requires Ascending(items)
    ensures p in AsMap(items) <==> exists x :: 0 <= x < |items| && items[x].position == p
    ensures p in AsMap(items) ==> Item(p, AsMap(items)[p]) in items
  {
    if items != [] {
      var front := items[..|items| - 1];
      AsMapHas(front, p);
      assert items == front + [items[|items| - 1]];
      if x :| 0 <= x < |items| && items[x].position == p {
        assert x < |front| ==> front[x].position == p;
      }
      if x :| 0 <= x < |front| && front[x].position == p {
        assert items[x].position == p;
      }
    }
  }

  /** Splitting the map keeps what splitting the queue keeps. */
  lemma {:induction false} KeepIsSplitOff(items: seq<Item>, next: Option<nat>)
    requires Ascending(items)
    ensures AsMap(Keep(items, next)) == SplitOff(AsMap(items), next)
  {
    if items != [] {
      var front, last := items[..|items| - 1], items[|items| - 1];
      KeepIsSplitOff(front, next);
      AsMapHas(front, last.position);
      assert forall x :: 0 <= x < |front| ==> front[x].position < last.position;
      var kept := Keep(front, next);
      AsMapAppend(kept, last);
      assert Keep(items, next) == if AtLeast(last.position, next) then kept + [last] else kept;
      assert AsMap(items) == AsMap(front)[last.position := last.statement];
      SplitOffAdds(AsMap(front), next, last.position, last.statement);
    }
  }

  lemma SplitOffAdds(m: map<nat, MetaStatement>, next: Option<nat>, p: nat, v: MetaStatement)
    requires p !in m
    ensures SplitOff(m[p := v], next) == if AtLeast(p, next) then SplitOff(m, next)[p := v] else SplitOff(m, next)
  {
  }

  /** Two queues in log order with the same map are the same. */
  lemma {:induction false} AsMapInjective(items: seq<Item>, items': seq<Item>)
    requires Ascending(items) && Ascending(items') && AsMap(items) == AsMap(items')
    ensures items == items'
  {
    if items == [] || items' == [] {
      if items != [] {
        AsMapHas(items, items[0].position);
      }
      if items' != [] {
        AsMapHas(items', items'[0].position);
      }
    } else {
      var last, last' := items[|items| - 1], items'[|items'| - 1];
      LastIsLargest(items, items');
      LastIsLargest(items', items);
      AsMapHas(items, last.position);
      AsMapHas(items', last.position);
      var front, front' := items[..|items| - 1], items'[..|items'| - 1];
      AsMapFront(items);
      AsMapFront(items');
      AsMapInjective(front, front');
      assert items == front + [last] && items' == front' + [last'];
    }
  }

  lemma LastIsLargest(items: seq<Item>, items': seq<Item>)
    requires Ascending(items) && Ascending(items') && items != [] && items' != [] && AsMap(items) == AsMap(items')
    ensures items'[|items'| - 1].position <= items[|items| - 1].position
  {
    AsMapHas(items', items'[|items'| - 1].position);
    AsMapHas(items, items'[|items'| - 1].position);
  }

  lemma AsMapFront(items: seq<Item>)
    requires Ascending(items) && items != []
    ensures AsMap(items[..|items| - 1]) == AsMap(items) - {items[|items| - 1].position}
  {
    AsMapHas(items[..|items| - 1], items[|items| - 1].position);
  }

  /** `items` are the entries of `m` outside `left`, in order, and all below those in `left`. */
  ghost predicate Emitted(m: map<nat, MetaStatement>, left: set<nat>, items: seq<Item>) {
    && Ascending(items) && left <= m.Keys
    && (forall x, p :: 0 <= x < |items| && p in left ==> items[x].position < p)
    && AsMap(items) == Outside(m, left)
  }

  function Outside(m: map<nat, MetaStatement>, left: set<nat>): map<nat, MetaStatement> {
    map p | p in m && p !in left :: m[p]
  }

  lemma OutsideGrows(m: map<nat, MetaStatement>, left: set<nat>, p: nat)
    requires p in m && p in left
    ensures Outside(m, left - {p}) == Outside(m, left)[p := m[p]]
  {
  }

  lemma AscendingAppend(items: seq<Item>, i: Item)
    requires Ascending(items) && forall x :: 0 <= x < |items| ==> items[x].position < i.position
    ensures Ascending(items + [i])
  {
  }

  lemma EmitsNext(m: map<nat, MetaStatement>, left: set<nat>, items: seq<Item>, p: nat)
    requires Emitted(m, left, items) && p in left && forall q :: q in left ==> p <= q
    ensures p in m && Emitted(m, left - {p}, items + [Item(p, m[p])])
  {
    hide Ascending, AsMap, Outside;
    AsMapAppend(items, Item(p, m[p]));
    OutsideGrows(m, left, p);
    AscendingAppend(items, Item(p, m[p]));
  }

  lemma EmittedAll(m: map<nat, MetaStatement>, items: seq<Item>)
    requires Emitted(m, {}, items)
    ensures Ascending(items) && AsMap(items) == m
  {
  }

  class RecoveredStateBuilder {
    var pending: map<nat, MetaStatement>
    var lastOwnBlock: Option<OwnBlockData>

    constructor ()
      ensures pending == map[] && lastOwnBlock == None
    {
      pending, lastOwnBlock := map[], None;
    }

    method Block(pos: nat, block: Block)
      modifies this
      ensures pending == old(pending)[pos := Include(block.reference)] && lastOwnBlock == old(lastOwnBlock)
    {
      pending := pending[pos := Include(block.reference)];
    }

    method PayloadAt(pos: nat, payload: seq<nat>)
      modifies this
      ensures pending == old(pending)[pos := Payload(payload)] && lastOwnBlock == old(lastOwnBlock)
    {
      pending := pending[pos := Payload(payload)];
    }

    method OwnBlock(data: OwnBlockData)
      modifies this
      ensures pending == SplitOff(old(pending), data.nextEntry) && lastOwnBlock == Some(data)
    {
      pending := SplitOff(pending, data.nextEntry);
      lastOwnBlock := Some(data);
    }

    /** The statements in order of their positions. */
    method Build() returns (items: seq<Item>)
      ensures Ascending(items) && AsMap(items) == pending
    {
      items := [];
      var left := pending.Keys;
      while left != {}
        invariant Emitted(pending, left, items)
        decreases left
      {
        hide Emitted;
        var p := Smallest(left);
        EmitsNext(pending, left, items, p);
        items := items + [Item(p, pending[p])];
        left := left - {p};
      }
      EmittedAll(pending, items);
    }
  }

  method Smallest(s: set<nat>) returns (p: nat)
    requires s != {}
    ensures p in s && forall q :: q in s ==> p <= q
  {
    p :| p in s;
    var left := s;
    while left != {}
      invariant p in s && left <= s && forall q :: q in s ==> q in left || p <= q
      decreases left
    {
      var q :| q in left;
      if q < p {
        p := q;
      }
      left := left - {q};
    }
  }

  /** The replay loop: the builder and the store end with the replayed log. */
  method Replay(log: seq<LogRecord>, ghost end: nat) returns (r: Recovered)
    requires LogOk(log, end)
    ensures r == Replayed(log)
  {
    var builder := new RecoveredStateBuilder();
    var content: Content := map[];
    for x := 0 to |log|
      invariant builder.pending == AsMap(Replayed(log[..x]).pending) && builder.lastOwnBlock == Replayed(log[..x]).own
      invariant content == Replayed(log[..x]).content
    {
      assert log[..x + 1] == log[..x] + [log[x]];
      ReplayedAppend(log[..x], log[x]);
      ReplayedAscends(log[..x], end);
      ghost var was := Replayed(log[..x]).pending;
      match log[x].entry {
        case BlockEntry(b) =>
          AsMapAppend(was, Item(log[x].position, Include(b.reference)));
          builder.Block(log[x].position, b);
          content := content[b.reference := b.includes];
        case PayloadEntry(p) =>
          AsMapAppend(was, Item(log[x].position, Payload(p)));
          builder.PayloadAt(log[x].position, p);
        case OwnBlockEntry(data) =>
          KeepIsSplitOff(was, data.nextEntry);
          builder.OwnBlock(data);
          content := content[data.block.reference := data.block.includes];
      }
    }
    assert log[..|log|] == log;
    var pending := builder.Build();
    ReplayedAscends(log, end);
    AsMapInjective(pending, Replayed(log).pending);
    return Recovered(pending, builder.lastOwnBlock, content);
  }

  // ---------------------------------------------------------------- from the bytes of the log

  const WAL_ENTRY_BLOCK := 1
  const WAL_ENTRY_PAYLOAD := 2
  const WAL_ENTRY_OWN_BLOCK := 3

  function TagOf(e: Entry): nat {
    match e
    case BlockEntry(_) => WAL_ENTRY_BLOCK
    case PayloadEntry(_) => WAL_ENTRY_PAYLOAD
    case OwnBlockEntry(_) => WAL_ENTRY_OWN_BLOCK
  }

  /** The serialization of entries, and the checksum of the log. */
  datatype Codec = Codec(encode: Entry -> seq<Wal.byte>, decode: (nat, seq<Wal.byte>) -> Entry,
                         crc: seq<Wal.byte> -> nat)

  /** The writer takes entries that fit into a mapping; positions are 64-bit words and the largest one stands for
      none. */
  predicate Writable(k: Codec, e: Entry) {
    && |k.encode(e)| + Wal.HEADER <= Wal.MAP_SIZE
    && (e.OwnBlockEntry? && e.data.nextEntry.Some? ==> e.data.nextEntry.value < Wal.TWO_64 - 1)
  }

  const MAX_ENTRY_SIZE := Wal.MAP_SIZE - Wal.HEADER
  const OWN_BLOCK_HEADER_SIZE := 8

  /** The size limit of an own block. */
  predicate Small(k: Codec, b: Block) {
    |k.encode(BlockEntry(b))| <= MAX_ENTRY_SIZE / 2
  }

  /** What can be written is read back, and an own block is written with the position of the next entry in front. */
  ghost predicate CodecOk(k: Codec) {
    && Wal.Crc32(k.crc)
    && (forall e :: Writable(k, e) ==> k.decode(TagOf(e), k.encode(e)) == e)
    && forall d :: |k.encode(OwnBlockEntry(d))| == OWN_BLOCK_HEADER_SIZE + |k.encode(BlockEntry(d.block))|
  }

  /** The entries behind the records of a log. */
  function Decoded(k: Codec, recs: seq<Wal.Rec>): (log: seq<LogRecord>)
    ensures |log| == |recs|
  {
    if recs == [] then []
    else
      var last := recs[|recs| - 1];
      Decoded(k, recs[..|recs| - 1]) + [LogRecord(last.position, k.decode(last.tag, last.data))]
  }

  lemma DecodedAppend(k: Codec, recs: seq<Wal.Rec>, position: nat, e: Entry)
    requires CodecOk(k) && Writable(k, e)
    ensures Decoded(k, recs + [Wal.Rec(position, TagOf(e), k.encode(e))]) == Decoded(k, recs) + [LogRecord(position, e)]
  {
    assert (recs + [Wal.Rec(position, TagOf(e), k.encode(e))])[..|recs|] == recs;
  }

  lemma DecodedNext(k: Codec, recs: seq<Wal.Rec>, x: nat)
    requires x < |recs|
    ensures Decoded(k, recs[..x + 1]) ==
      Decoded(k, recs[..x]) + [LogRecord(recs[x].position, k.decode(recs[x].tag, recs[x].data))]
  {
    assert recs[..x + 1][..x] == recs[..x];
  }

  /** `BlockStore::open`: iterate over the bytes of the log and replay what they stand for. Iterating panics if and
      only if some padding is shorter than a header. */
  method OpenLog(k: Codec, file: seq<Wal.byte>, ghost recs: seq<Wal.Rec>, ghost end: nat) returns (r: Option<Recovered>)
    requires Wal.Crc32(k.crc) && Wal.Holds(file, recs, k.crc) && LogOk(Decoded(k, recs), end)
    ensures r == if Wal.RoomyGaps(recs) then Some(Replayed(Decoded(k, recs))) else None
  {
    var items, panicked := Wal.ReadAll(file, recs, k.crc);
    if panicked {
      return None;
    }
    assert items == recs;
    var log: seq<LogRecord> := [];
    for x := 0 to |items|
      invariant log == Decoded(k, items[..x])
    {
      DecodedNext(k, items, x);
      log := log + [LogRecord(items[x].position, k.decode(items[x].tag, items[x].data))];
    }
    assert items[..|items|] == items;
    var replayed := Replay(log, end);
    return Some(replayed);
  }
}

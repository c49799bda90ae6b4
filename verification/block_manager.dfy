/** `BlockManager`: blocks are suspended until everything they include is stored. */
module BlockManagement {
  datatype BlockReference = BlockReference(authority: nat, round: nat, digest: nat)

  datatype Block = Block(reference: BlockReference, includes: seq<BlockReference>)

  /** The includes of blocks, by reference. */
  type Content = map<BlockReference, seq<BlockReference>>

  type Pending = map<BlockReference, Block>

  type Waiting = map<BlockReference, set<BlockReference>>

  ghost predicate AllStored(includes: seq<BlockReference>, stored: set<BlockReference>) {
    forall r :: r in includes ==> r in stored
  }

  // ---------------------------------------------------------------- the three indexes

  ghost predicate Waits(waiting: Waiting, r: BlockReference, p: BlockReference) {
    r in waiting && p in waiting[r]
  }

  ghost predicate Includes(pending: Pending, p: BlockReference, r: BlockReference) {
    p in pending && r in pending[p].includes
  }

  ghost predicate Wanted(pending: Pending, r: BlockReference) {
    exists p :: Includes(pending, p, r)
  }

  /** `waiting` lists, for each reference that is not stored, exactly the pending blocks that include it. */
  ghost predicate Indexed(pending: Pending, waiting: Waiting, stored: set<BlockReference>) {
    && (forall r :: r in waiting ==> exists p :: Waits(waiting, r, p))
    && (forall r, p :: Waits(waiting, r, p) <==> r !in stored && Includes(pending, p, r))
  }

  /** Pending blocks are filed under their own reference, are not stored, and lack an include. */
  ghost predicate Suspended(pending: Pending, stored: set<BlockReference>, except: set<BlockReference>) {
    forall p :: p in pending ==>
      pending[p].reference == p && p !in stored && (p in except || !AllStored(pending[p].includes, stored))
  }

  /** `missing` is exactly what pending blocks include and what is neither stored, nor pending, nor about to be
      stored. */
  ghost predicate Missing(missing: set<BlockReference>, pending: Pending, stored: set<BlockReference>,
                          released: set<BlockReference>) {
    forall r :: r in missing <==> r !in stored && r !in pending && r !in released && Wanted(pending, r)
  }

  // ---------------------------------------------------------------- what a caller sees

  /** `Includes` of every block known to the manager, by reference: digests identify blocks. */
  ghost predicate Identified(content: Content, b: Block) {
    b.reference in content && content[b.reference] == b.includes
  }

  /** Delivered blocks are stored, pending or released; beyond the initial blocks, stored ones were delivered and have
      all their includes stored. */
  ghost predicate Complete(content: Content, initial: set<BlockReference>, delivered: set<BlockReference>,
                           stored: set<BlockReference>, pending: Pending, released: set<BlockReference>) {
    && (forall p :: p in pending ==> p in delivered && p in content && content[p] == pending[p].includes)
    && (forall d :: d in delivered ==> d in content && (d in stored || d in pending || d in released))
    && initial <= stored
    && (forall d :: d in stored && d !in initial ==> d in delivered && AllStored(content[d], stored))
  }

  /** What is stored: the initial blocks, and the delivered blocks whose includes are all stored. */
  ghost predicate Settled(content: Content, initial: set<BlockReference>, delivered: set<BlockReference>,
                          stored: set<BlockReference>) {
    && delivered <= content.Keys
    && forall d :: d in stored <==> d in initial || (d in delivered && AllStored(content[d], stored))
  }

  /** Includes lie in lower rounds. */
  ghost predicate Layered(content: Content) {
    forall d, r :: d in content && r in content[d] ==> r.round < d.round
  }

  /** The set of stored blocks does not depend on the order or the batching of the deliveries. */
  lemma OrderDoesNotMatter(content: Content, initial: set<BlockReference>, delivered: set<BlockReference>,
                           stored: set<BlockReference>, stored': set<BlockReference>)
    requires Layered(content) && Settled(content, initial, delivered, stored)
      && Settled(content, initial, delivered, stored')
    ensures stored == stored'
  {
    forall d ensures d in stored <==> d in stored' {
      SameBelow(content, initial, delivered, stored, stored', d);
    }
  }

  lemma {:induction false} SameBelow(content: Content, initial: set<BlockReference>, delivered: set<BlockReference>,
                                     stored: set<BlockReference>, stored': set<BlockReference>, d: BlockReference)
    requires Layered(content) && Settled(content, initial, delivered, stored)
      && Settled(content, initial, delivered, stored')
    ensures d in stored <==> d in stored'
    decreases d.round
  {
    if d in delivered {
      forall r | r in content[d] ensures r in stored <==> r in stored' {
        SameBelow(content, initial, delivered, stored, stored', r);
      }
      assert AllStored(content[d], stored) <==> AllStored(content[d], stored');
    }
  }

  function Refs(blocks: seq<Block>): set<BlockReference> {
    set b | b in blocks :: b.reference
  }

  /** Blocks in the order they are written: each once, after everything it includes. */
  ghost predicate WrittenAfterIncludes(processed: seq<Block>, stored: set<BlockReference>) {
    && (forall x :: 0 <= x < |processed| ==>
       processed[x].reference !in stored && processed[x].reference !in Refs(processed[..x]))
    && (forall x :: 0 <= x < |processed| ==> AllStored(processed[x].includes, stored + Refs(processed[..x])))
  }

  lemma RefsAppend(blocks: seq<Block>, b: Block)
    ensures Refs(blocks + [b]) == Refs(blocks) + {b.reference}
  {
    assert forall x :: x in blocks + [b] <==> x in blocks || x == b;
  }

  lemma WrittenAppend(processed: seq<Block>, b: Block, stored: set<BlockReference>)
    requires WrittenAfterIncludes(processed, stored) && b.reference !in stored + Refs(processed)
      && AllStored(b.includes, stored + Refs(processed))
    ensures WrittenAfterIncludes(processed + [b], stored)
  {
    var q := processed + [b];
    forall x | 0 <= x < |q| ensures q[..x] == processed[..x] {
    }
    assert processed[..|processed|] == processed;
  }

  // ---------------------------------------------------------------- the loop of `add_blocks`

  /** The indexes of the manager and the keys of the block store. */
  datatype Indexes = Indexes(pending: Pending, waiting: Waiting, missing: set<BlockReference>,
                             stored: set<BlockReference>)

  /** Blocks at the front of the queue that can be stored at once. */
  ghost predicate ReadyOk(m: Indexes, ready: seq<Block>) {
    && (forall x :: 0 <= x < |ready| ==>
          ready[x].reference !in m.stored && ready[x].reference !in m.pending && AllStored(ready[x].includes, m.stored))
    && forall x, y :: 0 <= x < y < |ready| ==> ready[x].reference != ready[y].reference
  }

  /** The indexes agree with each other; the blocks in `todo` may have become complete. */
  ghost predicate Unlocking(m: Indexes, ready: seq<Block>, todo: set<BlockReference>) {
    && Indexed(m.pending, m.waiting, m.stored) && Suspended(m.pending, m.stored, todo) && ReadyOk(m, ready)
    && Missing(m.missing, m.pending, m.stored, Refs(ready)) && todo <= m.pending.Keys
  }

  ghost predicate Consistent(m: Indexes, ready: seq<Block>) {
    Unlocking(m, ready, {})
  }

  /** The first `n` includes of `b` that are not stored. */
  ghost predicate Lacks(b: Block, n: nat, stored: set<BlockReference>, r: BlockReference) {
    r in b.includes[..if n <= |b.includes| then n else |b.includes|] && r !in stored
  }

  /** What happens to `waiting` and `missing` when the first `n` includes of a block were looked at. */
  ghost predicate Registered(m: Indexes, b: Block, n: nat, waiting: Waiting, missing: set<BlockReference>) {
    && (forall r :: r in waiting ==> exists p :: Waits(waiting, r, p))
    && (forall r, p :: Waits(waiting, r, p) <==>
       Waits(m.waiting, r, p) || (p == b.reference && Lacks(b, n, m.stored, r)))
    && (forall r :: r in missing <==> r in m.missing || (Lacks(b, n, m.stored, r) && r !in m.pending))
  }

  lemma LacksAll(b: Block, stored: set<BlockReference>, r: BlockReference)
    ensures Lacks(b, |b.includes|, stored, r) <==> r in b.includes && r !in stored
  {
    assert b.includes[..|b.includes|] == b.includes;
  }

  /** A block that lacks an include becomes pending. */
  lemma Suspends(m: Indexes, b: Block, waiting: Waiting, missing: set<BlockReference>)
    requires Consistent(m, []) && b.reference !in m.stored && b.reference !in m.pending
      && !AllStored(b.includes, m.stored)
    requires Registered(m, b, |b.includes|, waiting, missing)
    ensures Consistent(Indexes(m.pending[b.reference := b], waiting, missing - {b.reference}, m.stored), [])
  {
    hide Indexed, Missing, Registered;
    SuspendsIndexed(m, b, waiting, missing);
    SuspendsMissing(m, b, waiting, missing);
  }

  lemma SuspendsIndexed(m: Indexes, b: Block, waiting: Waiting, missing: set<BlockReference>)
    requires Indexed(m.pending, m.waiting, m.stored) && b.reference !in m.pending
    requires Registered(m, b, |b.includes|, waiting, missing)
    ensures Indexed(m.pending[b.reference := b], waiting, m.stored)
  {
    var pending' := m.pending[b.reference := b];
    forall r, p ensures Waits(waiting, r, p) <==> r !in m.stored && Includes(pending', p, r) {
      LacksAll(b, m.stored, r);
      assert Includes(pending', p, r) <==> Includes(m.pending, p, r) || (p == b.reference && r in b.includes);
    }
  }

  lemma SuspendsMissing(m: Indexes, b: Block, waiting: Waiting, missing: set<BlockReference>)
    requires Missing(m.missing, m.pending, m.stored, Refs([])) && b.reference !in m.pending
    requires Registered(m, b, |b.includes|, waiting, missing)
    ensures Missing(missing - {b.reference}, m.pending[b.reference := b], m.stored, Refs([]))
  {
    hide Wanted;
    var pending' := m.pending[b.reference := b];
    forall r ensures r in missing - {b.reference} <==>
      r !in m.stored && r !in pending' && r !in Refs([]) && Wanted(pending', r) {
      LacksAll(b, m.stored, r);
      WantedAlso(m.pending, b, r);
    }
  }

  lemma WantedAlso(pending: Pending, b: Block, r: BlockReference)
    requires b.reference !in pending
    ensures Wanted(pending[b.reference := b], r) <==> Wanted(pending, r) || r in b.includes
  {
    var pending' := pending[b.reference := b];
    if p :| Includes(pending, p, r) {
      assert Includes(pending', p, r);
    }
    if r in b.includes {
      assert Includes(pending', b.reference, r);
    }
    if p :| Includes(pending', p, r) {
      assert p != b.reference ==> Includes(pending, p, r);
    }
  }

  /** Looking at a block with all its includes stored changes no index. */
  lemma NothingRegistered(m: Indexes, b: Block, waiting: Waiting, missing: set<BlockReference>)
    requires Indexed(m.pending, m.waiting, m.stored) && AllStored(b.includes, m.stored)
      && Registered(m, b, |b.includes|, waiting, missing)
    ensures waiting == m.waiting && missing == m.missing
  {
    forall r ensures !Lacks(b, |b.includes|, m.stored, r) {
      LacksAll(b, m.stored, r);
    }
    forall r ensures r in waiting <==> r in m.waiting {
      if r in waiting {
        var p :| Waits(waiting, r, p);
        assert Waits(m.waiting, r, p);
      }
      if r in m.waiting {
        var p :| Waits(m.waiting, r, p);
        assert Waits(waiting, r, p);
      }
    }
    forall r | r in waiting ensures waiting[r] == m.waiting[r] {
      forall p ensures p in waiting[r] <==> p in m.waiting[r] {
        assert Waits(waiting, r, p) <==> Waits(m.waiting, r, p);
      }
    }
  }

  /** A block with all its includes stored joins the front of the queue. */
  lemma Readies(m: Indexes, b: Block)
    requires Consistent(m, []) && b.reference !in m.stored && b.reference !in m.pending
      && AllStored(b.includes, m.stored)
    ensures Consistent(m.(missing := m.missing - {b.reference}), [b])
  {
  }

  // ---------------------------------------------------------------- releasing what waited for a stored block

  /** The front block is stored and its entry in `waiting` removed. */
  lemma Stores(m: Indexes, ready: seq<Block>, todo: set<BlockReference>)
    requires Consistent(m, ready) && ready != []
      && todo == if ready[0].reference in m.waiting then m.waiting[ready[0].reference] else {}
    ensures var b := ready[0].reference;
      Unlocking(Indexes(m.pending, m.waiting - {b}, m.missing, m.stored + {b}), ready[1..], todo)
  {
    var b := ready[0].reference;
    var waiting', stored' := m.waiting - {b}, m.stored + {b};
    assert ready == [ready[0]] + ready[1..];
    assert Refs(ready) == {b} + Refs(ready[1..]);
    forall p ensures p in todo <==> Waits(m.waiting, b, p) {
    }
    StoresIndexed(m, b);
    forall p | p in todo ensures p in m.pending {
      assert Includes(m.pending, p, b);
    }
    forall p | p in m.pending && p !in todo ensures !AllStored(m.pending[p].includes, stored') {
      var r :| r in m.pending[p].includes && r !in m.stored;
      assert Includes(m.pending, p, r) && Waits(m.waiting, r, p);
      assert r !in stored';
    }
  }

  lemma StoresIndexed(m: Indexes, b: BlockReference)
    requires Indexed(m.pending, m.waiting, m.stored)
    ensures Indexed(m.pending, m.waiting - {b}, m.stored + {b})
  {
    forall r, p ensures Waits(m.waiting - {b}, r, p) <==> r != b && Waits(m.waiting, r, p) {
    }
    forall r | r in m.waiting - {b} ensures exists p :: Waits(m.waiting - {b}, r, p) {
      var p :| Waits(m.waiting, r, p);
      assert Waits(m.waiting - {b}, r, p);
    }
  }

  /** No include of the block is waited for: it is complete and moves to the front. */
  lemma Releases(m: Indexes, ready: seq<Block>, todo: set<BlockReference>, w: BlockReference)
    requires Unlocking(m, ready, todo) && w in todo && forall r :: r in m.pending[w].includes ==> r !in m.waiting
    ensures Unlocking(m.(pending := m.pending - {w}), [m.pending[w]] + ready, todo - {w})
  {
    var b, pending' := m.pending[w], m.pending - {w};
    forall r | r in b.includes ensures r in m.stored {
      assert Includes(m.pending, w, r) && !Waits(m.waiting, r, w);
    }
    assert Refs([b] + ready) == {w} + Refs(ready);
    forall p, r ensures r !in m.stored ==> (Includes(pending', p, r) <==> Includes(m.pending, p, r)) {
    }
    forall r ensures r in m.missing <==>
      r !in m.stored && r !in pending' && r !in {w} + Refs(ready) && Wanted(pending', r) {
      if r !in m.stored {
        WantedSame(m.pending, pending', r);
      }
    }
  }

  lemma WantedSame(pending: Pending, pending': Pending, r: BlockReference)
    requires forall p :: Includes(pending', p, r) <==> Includes(pending, p, r)
    ensures Wanted(pending', r) <==> Wanted(pending, r)
  {
    if p :| Includes(pending, p, r) {
      assert Includes(pending', p, r);
    }
  }

  /** Some include is still waited for: the block stays. */
  lemma Keeps(m: Indexes, ready: seq<Block>, todo: set<BlockReference>, w: BlockReference)
    requires Unlocking(m, ready, todo) && w in todo && !(forall r :: r in m.pending[w].includes ==> r !in m.waiting)
    ensures Unlocking(m, ready, todo - {w})
  {
    var r :| r in m.pending[w].includes && r in m.waiting;
    var p :| Waits(m.waiting, r, p);
    assert r !in m.stored;
  }

  // ---------------------------------------------------------------- one turn of the loop

  /** The includes of every block that may be delivered, and the blocks that were stored without a delivery. */
  datatype Setting = Setting(content: Content, initial: set<BlockReference>)

  /** Blocks at the front of the queue were delivered before. */
  ghost predicate ReadyKnown(c: Setting, delivered: set<BlockReference>, ready: seq<Block>) {
    forall x :: 0 <= x < |ready| ==> ready[x].reference in delivered && Identified(c.content, ready[x])
  }

  ghost predicate Loop(c: Setting, delivered: set<BlockReference>, m: Indexes, ready: seq<Block>,
                       todo: set<BlockReference>) {
    && Unlocking(m, ready, todo) && ReadyKnown(c, delivered, ready)
    && Complete(c.content, c.initial, delivered, m.stored, m.pending, Refs(ready))
  }

  /** The block at the front of the queue: the first released one, or a newly delivered one. */
  ghost predicate IsFront(c: Setting, ready: seq<Block>, b: Block) {
    Identified(c.content, b) && (ready == [] || b == ready[0])
  }

  /** A block that is already stored or pending is passed over. */
  lemma Skips(c: Setting, delivered: set<BlockReference>, m: Indexes, ready: seq<Block>, b: Block)
    requires Loop(c, delivered, m, ready, {}) && IsFront(c, ready, b)
      && (b.reference in m.stored || b.reference in m.pending)
    ensures ready == [] && Loop(c, delivered + {b.reference}, m, [], {})
  {
  }

  lemma Delays(c: Setting, delivered: set<BlockReference>, m: Indexes, ready: seq<Block>, b: Block, waiting: Waiting,
               missing: set<BlockReference>)
    requires Loop(c, delivered, m, ready, {}) && IsFront(c, ready, b) && b.reference !in m.stored
      && b.reference !in m.pending
    requires Registered(m, b, |b.includes|, waiting, missing) && !AllStored(b.includes, m.stored)
    ensures ready == []
    ensures Loop(c, delivered + {b.reference},
      Indexes(m.pending[b.reference := b], waiting, missing - {b.reference}, m.stored), [], {})
  {
    Suspends(m, b, waiting, missing);
  }

  lemma Accepts(c: Setting, delivered: set<BlockReference>, m: Indexes, ready: seq<Block>, b: Block, waiting: Waiting,
                missing: set<BlockReference>)
    requires Loop(c, delivered, m, ready, {}) && IsFront(c, ready, b) && b.reference !in m.stored
      && b.reference !in m.pending
    requires Registered(m, b, |b.includes|, waiting, missing) && AllStored(b.includes, m.stored)
    ensures Loop(c, delivered + {b.reference}, m.(waiting := waiting, missing := missing - {b.reference}),
      if ready == [] then [b] else ready, {})
  {
    NothingRegistered(m, b, waiting, missing);
    if ready == [] {
      Readies(m, b);
      assert Refs([b]) == {b.reference};
    } else {
      assert b in ready && b.reference in Refs(ready);
      assert delivered + {b.reference} == delivered && missing - {b.reference} == missing;
    }
  }

  lemma StoresFront(c: Setting, delivered: set<BlockReference>, m: Indexes, ready: seq<Block>,
                    todo: set<BlockReference>)
    requires Loop(c, delivered, m, ready, {}) && ready != []
      && todo == if ready[0].reference in m.waiting then m.waiting[ready[0].reference] else {}
    ensures var b := ready[0].reference;
      Loop(c, delivered, Indexes(m.pending, m.waiting - {b}, m.missing, m.stored + {b}), ready[1..], todo)
  {
    Stores(m, ready, todo);
    assert ready == [ready[0]] + ready[1..];
    assert Refs(ready) == {ready[0].reference} + Refs(ready[1..]);
    assert Identified(c.content, ready[0]);
  }

  lemma ReleasesOne(c: Setting, delivered: set<BlockReference>, m: Indexes, ready: seq<Block>,
                    todo: set<BlockReference>, w: BlockReference)
    requires Loop(c, delivered, m, ready, todo) && w in todo && forall r :: r in m.pending[w].includes ==>
      r !in m.waiting
    ensures Loop(c, delivered, m.(pending := m.pending - {w}), [m.pending[w]] + ready, todo - {w})
  {
    Releases(m, ready, todo, w);
    assert Refs([m.pending[w]] + ready) == {w} + Refs(ready);
  }

  lemma KeepsOne(c: Setting, delivered: set<BlockReference>, m: Indexes, ready: seq<Block>, todo: set<BlockReference>,
                 w: BlockReference)
    requires Loop(c, delivered, m, ready, todo) && w in todo
      && !(forall r :: r in m.pending[w].includes ==> r !in m.waiting)
    ensures Loop(c, delivered, m, ready, todo - {w})
  {
    Keeps(m, ready, todo, w);
  }

  /** Between calls, exactly the delivered blocks with stored includes are stored. */
  lemma LoopSettled(c: Setting, delivered: set<BlockReference>, m: Indexes)
    requires Loop(c, delivered, m, [], {})
    ensures Settled(c.content, c.initial, delivered, m.stored)
  {
    forall d | d in delivered && AllStored(c.content[d], m.stored) ensures d in m.stored {
      assert d in m.stored || d in m.pending;
    }
  }

  /** A block that nothing pending includes does not change the indexes when it is stored. */
  lemma Bypasses(c: Setting, delivered: set<BlockReference>, m: Indexes, r: BlockReference)
    requires Loop(c, delivered, m, [], {}) && r !in m.stored && r !in m.pending && !Wanted(m.pending, r)
    ensures Loop(Setting(c.content, c.initial + {r}), delivered, m.(stored := m.stored + {r}), [], {})
  {
    hide Wanted;
    BypassesIndexes(m, r);
    BypassesComplete(c, delivered, m, r);
  }

  lemma BypassesIndexes(m: Indexes, r: BlockReference)
    requires Consistent(m, []) && r !in m.stored && r !in m.pending && !Wanted(m.pending, r)
    ensures Consistent(m.(stored := m.stored + {r}), [])
  {
    hide Indexed, Suspended, Missing;
    BypassesIndexed(m.pending, m.waiting, m.stored, r);
    BypassesSuspended(m.pending, m.stored, r);
    BypassesMissing(m.missing, m.pending, m.stored, r);
  }

  lemma BypassesIndexed(pending: Pending, waiting: Waiting, stored: set<BlockReference>, r: BlockReference)
    requires Indexed(pending, waiting, stored) && !Wanted(pending, r)
    ensures Indexed(pending, waiting, stored + {r})
  {
    forall i, p ensures Waits(waiting, i, p) <==> i !in stored + {r} && Includes(pending, p, i) {
      assert i == r ==> !Includes(pending, p, i);
    }
  }

  lemma BypassesSuspended(pending: Pending, stored: set<BlockReference>, r: BlockReference)
    requires Suspended(pending, stored, {}) && r !in pending && !Wanted(pending, r)
    ensures Suspended(pending, stored + {r}, {})
  {
    forall p | p in pending ensures !AllStored(pending[p].includes, stored + {r}) {
      var i :| i in pending[p].includes && i !in stored;
      assert Includes(pending, p, i);
    }
  }

  lemma BypassesMissing(missing: set<BlockReference>, pending: Pending, stored: set<BlockReference>, r: BlockReference)
    requires Missing(missing, pending, stored, Refs([])) && !Wanted(pending, r)
    ensures Missing(missing, pending, stored + {r}, Refs([]))
  {
    hide Wanted;
  }

  lemma BypassesComplete(c: Setting, delivered: set<BlockReference>, m: Indexes, r: BlockReference)
    requires Complete(c.content, c.initial, delivered, m.stored, m.pending, Refs([]))
    ensures Complete(c.content, c.initial + {r}, delivered, m.stored + {r}, m.pending, Refs([]))
  {
  }

  // ---------------------------------------------------------------- the manager

  class BlockManager {
    var blocksPending: Pending
    var blockReferencesWaiting: Waiting
    var missing: set<BlockReference>
    var store: set<BlockReference>   // what `block_exists` answers yes for
    ghost var setting: Setting
    ghost var delivered: set<BlockReference>

    ghost function View(): Indexes
      reads this
    {
      Indexes(blocksPending, blockReferencesWaiting, missing, store)
    }

    /** Between calls. */
    ghost predicate Valid()
      reads this
    {
      Loop(setting, delivered, View(), [], {})
    }

    constructor (stored: set<BlockReference>, ghost known: Content)
      ensures Valid() && store == stored && delivered == {} && setting == Setting(known, stored)
    {
      blocksPending, blockReferencesWaiting, missing, store := map[], map[], {}, stored;
      setting, delivered := Setting(known, stored), {};
    }

    /** Store every block whose includes are stored, suspend the others, release what waited. */
    method AddBlocks(blocks: seq<Block>) returns (processed: seq<Block>)
      requires Valid() && forall b :: b in blocks ==> Identified(setting.content, b)
      modifies this
      ensures Valid() && delivered == old(delivered) + Refs(blocks) && setting == old(setting)
      ensures store == old(store) + Refs(processed) && WrittenAfterIncludes(processed, old(store))
      ensures forall b :: b in processed ==> Identified(setting.content, b)
      ensures Settled(setting.content, setting.initial, delivered, store)
    {
      hide Loop, WrittenAfterIncludes, Settled, Refs, IsFront, AllStored, Identified;
      var queue := blocks;
      ghost var ready: seq<Block>, n := [], 0;
      processed := [];
      NothingYet(blocks, store, delivered);
      while queue != []
        invariant n <= |blocks| && queue == ready + blocks[n..]
        invariant delivered == old(delivered) + Refs(blocks[..n])
        invariant Loop(setting, delivered, View(), ready, {})
        invariant store == old(store) + Refs(processed) && WrittenAfterIncludes(processed, old(store))
          && setting == old(setting)
        invariant forall b :: b in processed ==> Identified(setting.content, b)
        decreases |queue| + |blocksPending|, |queue|
      {
        var block := queue[0];
        ghost var n' := if ready == [] then n + 1 else n;
        FrontOf(setting, old(delivered), delivered, View(), ready, blocks, n, block);
        ghost var tail, rest := if ready == [] then [] else ready[1..], blocks[n'..];
        queue := queue[1..];
        assert queue == tail + rest;
        if block.reference in store || block.reference in blocksPending {
          Skips(setting, delivered, View(), ready, block);
          assert queue == [] + rest;
        } else {
          var complete, released;
          complete, released, ready := ProcessBlock(block, ready);
          Associates(released, tail, rest);
          queue := released + queue;
          if complete {
            WrittenAppend(processed, block, old(store));
            RefsAppend(processed, block);
            processed := processed + [block];
          }
        }
        n, delivered := n', delivered + {block.reference};
      }
      LoopSettled(setting, delivered, View());
      assert blocks[..n] == blocks;
    }

    /** A block goes into the store without passing through the manager, and nothing pending includes it: an own
        block. */
    method Inserted(reference: BlockReference)
      requires Valid() && reference !in store && reference !in blocksPending && !Wanted(blocksPending, reference)
      modifies this`store, this`setting
      ensures Valid() && store == old(store) + {reference}
        && setting == Setting(old(setting).content, old(setting).initial + {reference})
    {
      Bypasses(setting, delivered, View(), reference);
      store := store + {reference};
      setting := Setting(setting.content, setting.initial + {reference});
    }

    /** Store the front block and release what waited for it, or suspend it. */
    method ProcessBlock(block: Block, ghost ready: seq<Block>)
        returns (complete: bool, released: seq<Block>, ghost ready': seq<Block>)
      requires Loop(setting, delivered, View(), ready, {}) && IsFront(setting, ready, block)
        && block.reference !in store && block.reference !in blocksPending
      modifies this`store, this`blocksPending, this`blockReferencesWaiting, this`missing
      ensures Loop(setting, delivered + {block.reference}, View(), ready', {})
      ensures complete ==>
        store == old(store) + {block.reference} && AllStored(block.includes, old(store))
        && |released| + |blocksPending| == |old(blocksPending)|
      ensures complete ==> ready' == released + if ready == [] then [] else ready[1..]
      ensures !complete ==>
        store == old(store) && released == ready == ready' == [] && |blocksPending| == |old(blocksPending)| + 1
    {
      hide Loop;
      ghost var m := View();
      LoopIndexed(setting, delivered, m, ready);
      complete := Register(block);
      if !complete {
        Delays(setting, delivered, m, ready, block, blockReferencesWaiting, missing);
        missing := missing - {block.reference};
        blocksPending := blocksPending[block.reference := block];
        released, ready' := [], [];
      } else {
        Accepts(setting, delivered, m, ready, block, blockReferencesWaiting, missing);
        missing := missing - {block.reference};
        released, ready' := Unlock(block, delivered + {block.reference}, if ready == [] then [block] else ready);
      }
    }

    /** The loop over the includes of a block; answers whether all of them are stored. */
    method Register(block: Block) returns (complete: bool)
      requires Indexed(blocksPending, blockReferencesWaiting, store)
      modifies this`blockReferencesWaiting, this`missing
      ensures Registered(old(View()), block, |block.includes|, blockReferencesWaiting, missing)
      ensures complete <==> AllStored(block.includes, store)
    {
      complete := true;
      ghost var m := View();
      for x := 0 to |block.includes|
        invariant Registered(m, block, x, blockReferencesWaiting, missing)
        invariant complete <==> AllStored(block.includes[..x], store)
      {
        var r := block.includes[x];
        assert block.includes[..x + 1] == block.includes[..x] + [r];
        if r !in store {
          complete := false;
          ghost var waiting, wanted := blockReferencesWaiting, missing;
          blockReferencesWaiting :=
            blockReferencesWaiting[r :=
            (if r in blockReferencesWaiting then blockReferencesWaiting[r] else {}) + {block.reference}];
          if r !in blocksPending {
            missing := missing + {r};
          }
          RegistersOne(m, block, x, waiting, wanted, blockReferencesWaiting, missing);
        } else {
          RegistersNone(m, block, x, blockReferencesWaiting, missing);
        }
      }
      assert block.includes[..|block.includes|] == block.includes;
    }

    /** Store the front block and move the pending blocks that waited only for it to the queue. */
    method Unlock(block: Block, ghost known: set<BlockReference>, ghost ready: seq<Block>)
        returns (released: seq<Block>, ghost ready': seq<Block>)
      requires Loop(setting, known, View(), ready, {}) && ready != [] && ready[0] == block
      modifies this`store, this`blocksPending, this`blockReferencesWaiting
      ensures store == old(store) + {block.reference} && Loop(setting, known, View(), ready', {})
      ensures ready' == released + ready[1..] && |released| + |blocksPending| == |old(blocksPending)|
    {
      hide Loop;
      var todo := if block.reference in blockReferencesWaiting then blockReferencesWaiting[block.reference] else {};
      StoresFront(setting, known, View(), ready, todo);
      store := store + {block.reference};
      blockReferencesWaiting := blockReferencesWaiting - {block.reference};
      ghost var tail := ready[1..];
      released, ready' := [], tail;
      while todo != {}
        invariant store == old(store) + {block.reference} && Loop(setting, known, View(), ready', todo)
        invariant ready' == released + tail && |released| + |blocksPending| == |old(blocksPending)|
        decreases todo
      {
        var w :| w in todo;
        TodoIsPending(setting, known, View(), ready', todo, w);
        if forall r :: r in blocksPending[w].includes ==> r !in blockReferencesWaiting {
          ReleasesOne(setting, known, View(), ready', todo, w);
          Associates([blocksPending[w]], released, tail);
          OneLess(blocksPending, w);
          released, ready' := [blocksPending[w]] + released, [blocksPending[w]] + ready';
          blocksPending := blocksPending - {w};
        } else {
          KeepsOne(setting, known, View(), ready', todo, w);
        }
        todo := todo - {w};
      }
    }
  }

  lemma TodoIsPending(c: Setting, delivered: set<BlockReference>, m: Indexes, ready: seq<Block>,
                      todo: set<BlockReference>, w: BlockReference)
    requires Loop(c, delivered, m, ready, todo) && w in todo
    ensures w in m.pending
  {
  }

  lemma LoopIndexed(c: Setting, delivered: set<BlockReference>, m: Indexes, ready: seq<Block>)
    requires Loop(c, delivered, m, ready, {})
    ensures Indexed(m.pending, m.waiting, m.stored)
  {
  }

  lemma NothingYet(blocks: seq<Block>, stored: set<BlockReference>, delivered: set<BlockReference>)
    ensures delivered + Refs(blocks[..0]) == delivered && stored + Refs([]) == stored
      && WrittenAfterIncludes([], stored)
  {
  }

  lemma FrontOf(c: Setting, before: set<BlockReference>, delivered: set<BlockReference>, m: Indexes, ready: seq<Block>,
                blocks: seq<Block>, n: nat, b: Block)
    requires Loop(c, delivered, m, ready, {}) && n <= |blocks| && ready + blocks[n..] != []
      && b == (ready + blocks[n..])[0]
    requires delivered == before + Refs(blocks[..n]) && forall x :: x in blocks ==> Identified(c.content, x)
    ensures IsFront(c, ready, b) && Identified(c.content, b)
    ensures ready == [] ==>
      n < |blocks| && (ready + blocks[n..])[1..] == blocks[n + 1..]
      && delivered + {b.reference} == before + Refs(blocks[..n + 1])
    ensures ready != [] ==>
      (ready + blocks[n..])[1..] == ready[1..] + blocks[n..] && delivered + {b.reference} == delivered
  {
    if ready == [] {
      assert b == blocks[n] && b in blocks && blocks[..n + 1] == blocks[..n] + [b];
      RefsAppend(blocks[..n], b);
    } else {
      assert b == ready[0];
    }
  }

  lemma OneLess(pending: Pending, w: BlockReference)
    requires w in pending
    ensures |pending - {w}| == |pending| - 1
  {
    assert (pending - {w}).Keys == pending.Keys - {w};
  }

  lemma Associates(a: seq<Block>, b: seq<Block>, c: seq<Block>)
    ensures a + (b + c) == (a + b) + c
  {
  }

  lemma LacksNext(b: Block, x: nat, stored: set<BlockReference>, r: BlockReference)
    requires x < |b.includes|
    ensures Lacks(b, x + 1, stored, r) <==> Lacks(b, x, stored, r) || (r == b.includes[x] && r !in stored)
  {
    assert b.includes[..x + 1] == b.includes[..x] + [b.includes[x]];
  }

  lemma RegistersNone(m: Indexes, b: Block, x: nat, waiting: Waiting, missing: set<BlockReference>)
    requires Registered(m, b, x, waiting, missing) && x < |b.includes| && b.includes[x] in m.stored
    ensures Registered(m, b, x + 1, waiting, missing)
  {
    forall r ensures Lacks(b, x + 1, m.stored, r) <==> Lacks(b, x, m.stored, r) {
      LacksNext(b, x, m.stored, r);
    }
  }

  lemma RegistersOne(m: Indexes, b: Block, x: nat, waiting: Waiting, missing: set<BlockReference>, waiting': Waiting,
                     missing': set<BlockReference>)
    requires Registered(m, b, x, waiting, missing) && x < |b.includes| && b.includes[x] !in m.stored
    requires waiting' == waiting[b.includes[x] :=
      (if b.includes[x] in waiting then waiting[b.includes[x]] else {}) + {b.reference}]
    requires missing' == if b.includes[x] in m.pending then missing else missing + {b.includes[x]}
    ensures Registered(m, b, x + 1, waiting', missing')
  {
    var i := b.includes[x];
    forall r, p ensures Waits(waiting', r, p) <==>
      Waits(m.waiting, r, p) || (p == b.reference && Lacks(b, x + 1, m.stored, r)) {
      LacksNext(b, x, m.stored, r);
      assert Waits(waiting', r, p) <==> Waits(waiting, r, p) || (r == i && p == b.reference);
    }
    forall r | r in waiting' ensures exists p :: Waits(waiting', r, p) {
      if r == i {
        assert Waits(waiting', r, b.reference);
      } else {
        var p :| Waits(waiting, r, p);
        assert Waits(waiting', r, p);
      }
    }
    forall r ensures r in missing' <==> r in m.missing || (Lacks(b, x + 1, m.stored, r) && r !in m.pending) {
      LacksNext(b, x, m.stored, r);
    }
  }
}

/** `integrate_graph`: a second graph is appended with shifted indices, and for every
    common address the last toucher of the first is connected to the first of the second. */
module GraphMerging {
  import opened Collections
  import opened GraphModel
  import opened GraphBuilding

  function Shifted(q: seq<nat>, base: nat): seq<nat> {
    seq(|q|, x requires 0 <= x < |q| => base + q[x])
  }

  function ShiftNode(n: Node, base: nat): Node {
    n.(children := Shifted(n.children, base), parents := Shifted(n.parents, base))
  }

  function Joined(g: Nodes, h: Nodes): Nodes {
    g + seq(|h|, x requires 0 <= x < |h| => ShiftNode(h[x], |g|))
  }

  lemma ShiftedHas(q: seq<nat>, base: nat, c: nat)
    ensures c in Shifted(q, base) <==> c >= base && c - base in q
  {
    if c >= base && c - base in q {
      var x :| 0 <= x < |q| && q[x] == c - base;
      assert Shifted(q, base)[x] == c;
    }
  }

  /** An edge of the joined graph is an edge of one of the two. */
  ghost predicate JoinedEdge(g: Nodes, h: Nodes, x: nat, y: nat) {
    Edge(g, x, y) || (x >= |g| && y >= |g| && Edge(h, x - |g|, y - |g|))
  }

  lemma JoinedEdges(g: Nodes, h: Nodes, x: nat, y: nat)
    ensures Edge(Joined(g, h), x, y) <==> JoinedEdge(g, h, x, y) && x < |g| + |h|
  {
    if |g| <= x < |g| + |h| {
      ShiftedHas(h[x - |g|].children, |g|, y);
    }
  }

  lemma JoinedParents(g: Nodes, h: Nodes, p: nat, c: nat)
    requires c < |g| + |h|
    ensures p in Joined(g, h)[c].parents <==>
      if c < |g| then p in g[c].parents else p >= |g| && p - |g| in h[c - |g|].parents
  {
    if |g| <= c {
      ShiftedHas(h[c - |g|].parents, |g|, p);
    }
  }

  lemma ShiftedDistinct(q: seq<nat>, base: nat)
    requires Distinct(q)
    ensures Distinct(Shifted(q, base))
  {
  }

  lemma JoinedChild(g: Nodes, h: Nodes, p: nat, c: nat)
    requires Linked(g) && Linked(h) && p < |g| + |h| && c in Joined(g, h)[p].children
    ensures c < |g| + |h| && p in Joined(g, h)[c].parents
  {
    JoinedEdges(g, h, p, c);
    assert Edge(Joined(g, h), p, c);
    assert if p < |g| then c in g[p].children else c >= |g| && c - |g| in h[p - |g|].children;
    JoinedParents(g, h, p, c);
  }

  lemma JoinedParent(g: Nodes, h: Nodes, p: nat, c: nat)
    requires Linked(g) && Linked(h) && c < |g| + |h| && p in Joined(g, h)[c].parents
    ensures p < |g| + |h| && c in Joined(g, h)[p].children
  {
    JoinedParents(g, h, p, c);
    if c < |g| {
      ParentLink(g, p, c);
    } else {
      ParentLink(h, p - |g|, c - |g|);
    }
    JoinedEdges(g, h, p, c);
    assert JoinedEdge(g, h, p, c);
  }

  lemma JoinedLinked(g: Nodes, h: Nodes)
    requires Linked(g) && Linked(h)
    ensures Linked(Joined(g, h))
  {
    var j := Joined(g, h);
    forall p: nat, c: nat {:trigger c in j[p].children} | p < |j| && c in j[p].children
      ensures c < |j| && p in j[c].parents {
      JoinedChild(g, h, p, c);
    }
    forall p: nat, c: nat {:trigger p in j[c].parents} | c < |j| && p in j[c].parents
      ensures p < |j| && c in j[p].children {
      JoinedParent(g, h, p, c);
    }
    JoinedDistinct(g, h);
  }

  lemma JoinedDistinct(g: Nodes, h: Nodes)
    requires Linked(g) && Linked(h)
    ensures forall i :: 0 <= i < |Joined(g, h)| ==>
      Distinct(Joined(g, h)[i].children) && Distinct(Joined(g, h)[i].parents)
  {
    var j := Joined(g, h);
    forall i | 0 <= i < |j| ensures Distinct(j[i].children) && Distinct(j[i].parents) {
      if i >= |g| {
        ShiftedDistinct(h[i - |g|].children, |g|);
        ShiftedDistinct(h[i - |g|].parents, |g|);
      }
    }
  }

  /** Connects the last toucher of an address in `g` with the first one in `h`. */
  ghost predicate Bridge(g: Nodes, h: Nodes, x: nat, y: nat) {
    y >= |g| && exists a :: IsLast(g, a, x) && IsFirst(h, a, y - |g|)
  }

  ghost predicate BridgeAt(g: Nodes, h: Nodes, a: nat, x: nat, y: nat) {
    y >= |g| && IsLast(g, a, x) && IsFirst(h, a, y - |g|)
  }

  /** The bridges of the addresses in `s`. */
  ghost predicate BridgeIn(g: Nodes, h: Nodes, s: set<nat>, x: nat, y: nat) {
    exists a :: a in s && BridgeAt(g, h, a, x, y)
  }

  ghost predicate Bridging(g: Nodes, h: Nodes, s: set<nat>, g': Nodes) {
    && SameNodes(Joined(g, h), g')
    && forall x: nat, y: nat :: Edge(g', x, y) <==> JoinedEdge(g, h, x, y) || BridgeIn(g, h, s, x, y)
  }

  /** An address has at most one bridge: from its last toucher in `g` to its first in `h`. */
  lemma OneBridge(g: Nodes, h: Nodes, a: nat, t: nat, f: nat, x: nat, y: nat)
    requires IsLast(g, a, t) && IsFirst(h, a, f)
    ensures BridgeAt(g, h, a, x, y) <==> x == t && y == |g| + f
  {
    if BridgeAt(g, h, a, x, y) {
      assert Touches(g[x], a) && Touches(h[y - |g|], a);
    }
  }

  lemma BridgeInAdds(g: Nodes, h: Nodes, s: set<nat>, a: nat, x: nat, y: nat)
    ensures BridgeIn(g, h, s + {a}, x, y) <==> BridgeIn(g, h, s, x, y) || BridgeAt(g, h, a, x, y)
  {
    if BridgeIn(g, h, s, x, y) {
      var b :| b in s && BridgeAt(g, h, b, x, y);
      assert b in s + {a};
    }
    if BridgeAt(g, h, a, x, y) {
      assert a in s + {a};
    }
  }

  /** Connecting one more address, or passing over one that only one of the graphs touches. */
  lemma BridgesOne(g: Nodes, h: Nodes, s: set<nat>, g': Nodes, g2: Nodes, a: nat, t: nat, f: nat)
    requires Bridging(g, h, s, g') && IsLast(g, a, t) && IsFirst(h, a, f) && SameNodes(g', g2)
    requires forall x: nat, y: nat :: Edge(g2, x, y) <==> Edge(g', x, y) || (x == t && y == |g| + f)
    ensures Bridging(g, h, s + {a}, g2)
  {
    forall x: nat, y: nat ensures Edge(g2, x, y) <==> JoinedEdge(g, h, x, y) || BridgeIn(g, h, s + {a}, x, y) {
      OneBridge(g, h, a, t, f, x, y);
      BridgeInAdds(g, h, s, a, x, y);
    }
  }

  lemma BridgesNone(g: Nodes, h: Nodes, s: set<nat>, g': Nodes, a: nat)
    requires Bridging(g, h, s, g') && forall x: nat, y: nat :: !BridgeAt(g, h, a, x, y)
    ensures Bridging(g, h, s + {a}, g')
  {
    forall x: nat, y: nat ensures Edge(g', x, y) <==> JoinedEdge(g, h, x, y) || BridgeIn(g, h, s + {a}, x, y) {
      BridgeInAdds(g, h, s, a, x, y);
    }
  }

  /** The pairs that the bridges of the addresses in `s` connect. */
  ghost function Bridges(g: Nodes, h: Nodes, s: set<nat>): set<(nat, nat)> {
    set x: nat, y: nat | x < |g| && |g| <= y < |g| + |h| && BridgeIn(g, h, s, x, y) :: (x, y)
  }

  /** One more address adds one edge, unless the two are connected already. */
  lemma CountsBridge(g: Nodes, h: Nodes, s: set<nat>, a: nat, t: nat, f: nat)
    requires IsLast(g, a, t) && IsFirst(h, a, f)
    ensures |Bridges(g, h, s + {a})| == |Bridges(g, h, s)| + if BridgeIn(g, h, s, t, |g| + f) then 0 else 1
  {
    forall x: nat, y: nat ensures BridgeIn(g, h, s + {a}, x, y) <==>
      BridgeIn(g, h, s, x, y) || (x == t && y == |g| + f) {
      OneBridge(g, h, a, t, f, x, y);
      BridgeInAdds(g, h, s, a, x, y);
    }
    assert Bridges(g, h, s + {a}) == Bridges(g, h, s) + {(t, |g| + f)};
  }

  /** An edge from `g` to `h` is a bridge. */
  lemma AcrossIsBridge(g: Nodes, h: Nodes, s: set<nat>, g': Nodes, x: nat, y: nat)
    requires Linked(g) && Bridging(g, h, s, g') && x < |g| <= y < |g'|
    ensures y in g'[x].children <==> BridgeIn(g, h, s, x, y)
  {
    assert Edge(g', x, y) <==> JoinedEdge(g, h, x, y) || BridgeIn(g, h, s, x, y);
  }

  lemma CountsNone(g: Nodes, h: Nodes, s: set<nat>, a: nat)
    requires forall x: nat, y: nat :: !BridgeAt(g, h, a, x, y)
    ensures Bridges(g, h, s + {a}) == Bridges(g, h, s)
  {
    forall x: nat, y: nat ensures BridgeIn(g, h, s + {a}, x, y) <==> BridgeIn(g, h, s, x, y) {
      BridgeInAdds(g, h, s, a, x, y);
    }
  }

  /** The edges that a merge adds. */
  ghost function AddedEdges(g: Nodes, h: Nodes): set<(nat, nat)> {
    set x: nat, y: nat | x < |g| && |g| <= y < |g| + |h| && Bridge(g, h, x, y) :: (x, y)
  }

  lemma AllCounted(g: Nodes, h: Nodes, s: set<nat>)
    requires forall a, x: nat, y: nat :: BridgeAt(g, h, a, x, y) ==> a in s
    ensures Bridges(g, h, s) == AddedEdges(g, h)
  {
    forall x: nat, y: nat ensures BridgeIn(g, h, s, x, y) <==> Bridge(g, h, x, y) {
      if Bridge(g, h, x, y) {
        var a :| IsLast(g, a, x) && IsFirst(h, a, y - |g|);
        assert BridgeAt(g, h, a, x, y);
      }
    }
  }

  lemma AllBridged(g: Nodes, h: Nodes, s: set<nat>, g': Nodes)
    requires Bridging(g, h, s, g') && forall a, x: nat, y: nat :: BridgeAt(g, h, a, x, y) ==> a in s
    ensures Merged(g, h, g')
  {
    forall x: nat, y: nat ensures BridgeIn(g, h, s, x, y) <==> Bridge(g, h, x, y) {
      if Bridge(g, h, x, y) {
        var a :| IsLast(g, a, x) && IsFirst(h, a, y - |g|);
        assert BridgeAt(g, h, a, x, y);
      }
    }
  }

  ghost predicate Merged(g: Nodes, h: Nodes, g': Nodes) {
    && SameNodes(Joined(g, h), g')
    && forall x: nat, y: nat :: Edge(g', x, y) <==> JoinedEdge(g, h, x, y) || Bridge(g, h, x, y)
  }

  lemma MergedTouches(g: Nodes, h: Nodes, g': Nodes, i: nat, a: nat)
    requires SameNodes(Joined(g, h), g') && i < |g'|
    ensures Touches(g'[i], a) == if i < |g| then Touches(g[i], a) else Touches(h[i - |g|], a)
    ensures g'[i].writeSet == if i < |g| then g[i].writeSet else h[i - |g|].writeSet
  {
  }

  /** The nodes of `h` are a new cut, and the cuts of `h` move with them. */
  ghost function MergedCuts(g: Nodes, h: Nodes, cuts: set<Cut>, cutsH: set<Cut>): set<Cut> {
    cuts + {Cut(|g|, |g| + |h|)} + set k | k in cutsH :: Cut(|g| + k.start, |g| + k.end)
  }

  lemma CutsBelow(g: Nodes, h: Nodes, cuts: set<Cut>, cutsH: set<Cut>, i: nat, j: nat)
    requires i < j < |g|
    ensures Across(MergedCuts(g, h, cuts, cutsH), i, j) <==> Across(cuts, i, j)
  {
    if Across(cuts, i, j) {
      var k :| k in cuts && i < k.start <= j < k.end;
      assert k in MergedCuts(g, h, cuts, cutsH);
    }
  }

  lemma CutsAbove(g: Nodes, h: Nodes, cuts: set<Cut>, cutsH: set<Cut>, i: nat, j: nat)
    requires (forall k :: k in cuts ==> k.end <= |g|) && |g| <= i < j < |g| + |h|
    ensures Across(MergedCuts(g, h, cuts, cutsH), i, j) <==> Across(cutsH, i - |g|, j - |g|)
  {
    if Across(cutsH, i - |g|, j - |g|) {
      var k :| k in cutsH && i - |g| < k.start <= j - |g| < k.end;
      assert Cut(|g| + k.start, |g| + k.end) in MergedCuts(g, h, cuts, cutsH);
    }
    if Across(MergedCuts(g, h, cuts, cutsH), i, j) {
      var k :| k in MergedCuts(g, h, cuts, cutsH) && i < k.start <= j < k.end;
      assert k !in cuts && k.start > |g|;
    }
  }

  /** Merging keeps edges ascending and chains exact. */
  lemma MergedChained(g: Nodes, h: Nodes, g': Nodes, cuts: set<Cut>, cutsH: set<Cut>)
    requires Linked(g) && Linked(h) && Ascending(g) && Ascending(h) && Chained(g, cuts) && Chained(h, cutsH)
      && Merged(g, h, g')
    ensures Ascending(g') && Chained(g', MergedCuts(g, h, cuts, cutsH))
  {
    var all := MergedCuts(g, h, cuts, cutsH);
    assert forall k :: k in all ==> k.end <= |g'|;
    forall a, i: nat, j: nat | Consecutive(g', a, i, j)
      ensures Edge(g', i, j) <==> Conflict(g'[i], g'[j]) || Across(all, i, j) {
      ChainedAt(g, h, g', cuts, cutsH, a, i, j);
    }
  }

  lemma ChainedAt(g: Nodes, h: Nodes, g': Nodes, cuts: set<Cut>, cutsH: set<Cut>, a: nat, i: nat, j: nat)
    requires Linked(g) && Linked(h) && Chained(g, cuts) && Chained(h, cutsH) && Merged(g, h, g')
      && Consecutive(g', a, i, j)
    ensures Edge(g', i, j) <==> Conflict(g'[i], g'[j]) || Across(MergedCuts(g, h, cuts, cutsH), i, j)
  {
    hide MergedCuts, Across;
    MergedTouches(g, h, g', i, a);
    MergedTouches(g, h, g', j, a);
    if j < |g| {
      ConsecutiveBelow(g, h, g', a, i, j);
      CutsBelow(g, h, cuts, cutsH, i, j);
      assert !Bridge(g, h, i, j);
    } else if i >= |g| {
      ConsecutiveAbove(g, h, g', a, i, j);
      CutsAbove(g, h, cuts, cutsH, i, j);
      assert !Bridge(g, h, i, j);
    } else {
      ConsecutiveAcross(g, h, g', a, i, j);
      assert Bridge(g, h, i, j);
      CutHere(g, h, cuts, cutsH, i, j);
    }
  }

  lemma CutHere(g: Nodes, h: Nodes, cuts: set<Cut>, cutsH: set<Cut>, i: nat, j: nat)
    requires i < |g| <= j < |g| + |h|
    ensures Across(MergedCuts(g, h, cuts, cutsH), i, j)
  {
    assert Cut(|g|, |g| + |h|) in MergedCuts(g, h, cuts, cutsH);
  }

  lemma ConsecutiveBelow(g: Nodes, h: Nodes, g': Nodes, a: nat, i: nat, j: nat)
    requires SameNodes(Joined(g, h), g') && Consecutive(g', a, i, j) && j < |g|
    ensures Consecutive(g, a, i, j)
  {
    forall m: nat | i <= m <= j ensures Touches(g[m], a) == Touches(g'[m], a) {
      MergedTouches(g, h, g', m, a);
    }
  }

  lemma ConsecutiveAbove(g: Nodes, h: Nodes, g': Nodes, a: nat, i: nat, j: nat)
    requires SameNodes(Joined(g, h), g') && Consecutive(g', a, i, j) && i >= |g|
    ensures Consecutive(h, a, i - |g|, j - |g|)
  {
    forall m: nat | i - |g| < m < j - |g| ensures !Touches(h[m], a) {
      MergedTouches(g, h, g', m + |g|, a);
    }
    MergedTouches(g, h, g', i, a);
    MergedTouches(g, h, g', j, a);
  }

  lemma ConsecutiveAcross(g: Nodes, h: Nodes, g': Nodes, a: nat, i: nat, j: nat)
    requires SameNodes(Joined(g, h), g') && Consecutive(g', a, i, j) && i < |g| <= j
    ensures IsLast(g, a, i) && IsFirst(h, a, j - |g|)
  {
    forall m: nat | i < m < |g| ensures !Touches(g[m], a) {
      MergedTouches(g, h, g', m, a);
    }
    forall m: nat | m < j - |g| ensures !Touches(h[m], a) {
      MergedTouches(g, h, g', m + |g|, a);
    }
    MergedTouches(g, h, g', i, a);
    MergedTouches(g, h, g', j, a);
  }

  // ---------------------------------------------------------------- the maps of a merged graph

  ghost predicate MergedIndex(index: map<TransactionId, nat>, indexH: map<TransactionId, nat>, base: nat,
                              index': map<TransactionId, nat>) {
    && index'.Keys == index.Keys + indexH.Keys
    && forall id :: id in index' ==> index'[id] == if id in indexH then base + indexH[id] else index[id]
  }

  lemma MergedIndexed(g: Nodes, h: Nodes, g': Nodes, index: map<TransactionId, nat>, indexH: map<TransactionId, nat>,
                      index': map<TransactionId, nat>)
    requires SameNodes(Joined(g, h), g') && Indexed(g, index) && Indexed(h, indexH) && index.Keys !! indexH.Keys
    requires MergedIndex(index, indexH, |g|, index')
    ensures Indexed(g', index')
  {
    forall i: nat | i < |g'| ensures g'[i].txId in index' && index'[g'[i].txId] == i {
      MergedId(g, h, g', i);
      if i < |g| {
        assert g[i].txId in index;
      } else {
        assert h[i - |g|].txId in indexH;
      }
    }
    forall id | id in index' ensures index'[id] < |g'| && g'[index'[id]].txId == id {
      if id in indexH {
        MergedId(g, h, g', |g| + indexH[id]);
      } else {
        MergedId(g, h, g', index[id]);
      }
    }
  }

  lemma MergedId(g: Nodes, h: Nodes, g': Nodes, i: nat)
    requires SameNodes(Joined(g, h), g') && i < |g| + |h|
    ensures i < |g'| && g'[i].txId == if i < |g| then g[i].txId else h[i - |g|].txId
  {
  }

  /** Head and tail of an address after merging: the head of the first graph that touches it, the tail of the last. */
  ghost predicate MergedEndsAt(head: map<nat, TransactionId>, tail: map<nat, TransactionId>, headH: map<nat,
                               TransactionId>, tailH: map<nat, TransactionId>,
                               head': map<nat, TransactionId>, tail': map<nat, TransactionId>, a: nat) {
    && (a in head' <==> a in head || a in headH) && (a in tail' <==> a in tail || a in tailH)
    && (a in head' ==> head'[a] == if a in head then head[a] else headH[a])
    && (a in tail' ==> tail'[a] == if a in tailH then tailH[a] else tail[a])
  }

  lemma MergedEnds(g: Nodes, h: Nodes, g': Nodes, index: map<TransactionId, nat>, indexH: map<TransactionId, nat>,
                   index': map<TransactionId, nat>,
                   head: map<nat, TransactionId>, tail: map<nat, TransactionId>, headH: map<nat, TransactionId>,
                     tailH: map<nat, TransactionId>,
                   head': map<nat, TransactionId>, tail': map<nat, TransactionId>, a: nat)
    requires SameNodes(Joined(g, h), g') && index.Keys !! indexH.Keys && MergedIndex(index, indexH, |g|, index')
    requires Ends(g, index, head, tail, a) && Ends(h, indexH, headH, tailH, a)
      && MergedEndsAt(head, tail, headH, tailH, head', tail', a)
    ensures Ends(g', index', head', tail', a)
  {
    forall m: nat | m < |g'| ensures Touches(g'[m], a) == if m < |g| then Touches(g[m], a) else Touches(h[m - |g|], a) {
      MergedTouches(g, h, g', m, a);
    }
    forall i: nat | i < |g'| && Touches(g'[i], a) ensures a in head' && a in tail' {
      if i >= |g| {
        assert Touches(h[i - |g|], a);
      }
    }
    if a in tail' {
      TailMoves(g, h, g', index, indexH, tail, tailH, a);
    }
    if a in head' {
      HeadMoves(g, h, g', index, indexH, head, headH, a);
    }
  }

  lemma TailMoves(g: Nodes, h: Nodes, g': Nodes, index: map<TransactionId, nat>, indexH: map<TransactionId, nat>,
                  tail: map<nat, TransactionId>, tailH: map<nat, TransactionId>, a: nat)
    requires SameNodes(Joined(g, h), g')
    requires a in tailH ==> tailH[a] in indexH && IsLast(h, a, indexH[tailH[a]])
    requires a in tail ==> tail[a] in index && IsLast(g, a, index[tail[a]])
    requires forall i :: 0 <= i < |h| && Touches(h[i], a) ==> a in tailH
    ensures a in tailH ==> IsLast(g', a, |g| + indexH[tailH[a]])
    ensures a !in tailH && a in tail ==> IsLast(g', a, index[tail[a]])
  {
    forall m: nat | m < |g'| ensures Touches(g'[m], a) == if m < |g| then Touches(g[m], a) else Touches(h[m - |g|], a) {
      MergedTouches(g, h, g', m, a);
    }
  }

  lemma HeadMoves(g: Nodes, h: Nodes, g': Nodes, index: map<TransactionId, nat>, indexH: map<TransactionId, nat>,
                  head: map<nat, TransactionId>, headH: map<nat, TransactionId>, a: nat)
    requires SameNodes(Joined(g, h), g')
    requires a in headH ==> headH[a] in indexH && IsFirst(h, a, indexH[headH[a]])
    requires a in head ==> head[a] in index && IsFirst(g, a, index[head[a]])
    requires forall i :: 0 <= i < |g| && Touches(g[i], a) ==> a in head
    ensures a in head ==> IsFirst(g', a, index[head[a]])
    ensures a !in head && a in headH ==> IsFirst(g', a, |g| + indexH[headH[a]])
  {
    forall m: nat | m < |g'| ensures Touches(g'[m], a) == if m < |g| then Touches(g[m], a) else Touches(h[m - |g|], a) {
      MergedTouches(g, h, g', m, a);
    }
  }
}

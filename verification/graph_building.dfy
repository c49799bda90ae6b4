/** What every transaction graph keeps while it is built and merged: linked, duplicate-free
    index lists, edges from lower to higher index, and chains of touchers. */
module GraphBuilding {
  import opened GraphModel

  ghost predicate Edge(g: Nodes, p: nat, c: nat) {
    p < |g| && c in g[p].children
  }

  /** Edges run from lower to higher index. */
  ghost predicate Ascending(g: Nodes) {
    forall p: nat, c: nat :: Edge(g, p, c) ==> p < c
  }

  predicate Touches(n: Node, a: nat) {
    a in n.readSet || a in n.writeSet
  }

  predicate Conflict(m: Node, n: Node) {
    m.writeSet * n.writeSet != {}
  }

  /** Every edge stands for a write-write conflict. */
  ghost predicate OnlyConflicts(g: Nodes) {
    forall p: nat, c: nat :: Edge(g, p, c) && c < |g| ==> Conflict(g[p], g[c])
  }

  /** Transactions that write no common address, such as two readers, are not connected unless by a merge. */
  lemma ReadersStayApart(g: Nodes, p: nat, c: nat)
    requires OnlyConflicts(g) && p < |g| && c < |g|
    requires forall a :: !(a in g[p].writeSet && a in g[c].writeSet)
    ensures !Edge(g, p, c)
  {
  }

  /** Neighbours among the touchers of an address that both write are connected. */
  lemma WritersConnect(g: Nodes, cuts: set<Cut>, a: nat, i: nat, j: nat)
    requires Chained(g, cuts) && Consecutive(g, a, i, j) && a in g[i].writeSet && a in g[j].writeSet
    ensures Edge(g, i, j)
  {
    assert a in g[i].writeSet * g[j].writeSet;
  }

  /** `i` and `j` touch `a`, and nothing between them does. */
  ghost predicate Consecutive(g: Nodes, a: nat, i: nat, j: nat) {
    i < j < |g| && Touches(g[i], a) && Touches(g[j], a) && forall m :: i < m < j ==> !Touches(g[m], a)
  }

  /** A merge put the nodes from `start` to `end` behind the others. */
  datatype Cut = Cut(start: nat, end: nat)

  /** `i` and `j` came together by a merge: `i` was there before, and `j` was part of what was put behind it. */
  ghost predicate Across(cuts: set<Cut>, i: nat, j: nat) {
    exists k :: k in cuts && i < k.start <= j < k.end
  }

  /** Neighbours in the sequence of touchers of an address are connected if and only if they conflict or
      a merge connected them. */
  ghost predicate Chained(g: Nodes, cuts: set<Cut>) {
    && (forall k :: k in cuts ==> k.end <= |g|)
    && forall a, i: nat, j: nat :: Consecutive(g, a, i, j) ==>
       (Edge(g, i, j) <==> Conflict(g[i], g[j]) || Across(cuts, i, j))
  }

  ghost predicate Indexed(g: Nodes, index: map<TransactionId, nat>) {
    && (forall i :: 0 <= i < |g| ==> g[i].txId in index && index[g[i].txId] == i)
    && forall id :: id in index ==> index[id] < |g| && g[index[id]].txId == id
  }

  ghost predicate InBounds(g: Nodes, index: map<TransactionId, nat>) {
    forall id :: id in index ==> index[id] < |g|
  }

  /** The last toucher of an address. */
  ghost predicate IsLast(g: Nodes, a: nat, t: nat) {
    t < |g| && Touches(g[t], a) && forall i :: t < i < |g| ==> !Touches(g[i], a)
  }

  ghost predicate IsFirst(g: Nodes, a: nat, t: nat) {
    t < |g| && Touches(g[t], a) && forall i :: 0 <= i < t ==> !Touches(g[i], a)
  }

  /** The tail map names the last toucher of every touched address, the head map the first. */
  ghost predicate Ends(g: Nodes, index: map<TransactionId, nat>, head: map<nat, TransactionId>, tail: map<nat,
                       TransactionId>, a: nat) {
    && (forall i :: 0 <= i < |g| && Touches(g[i], a) ==> a in head && a in tail)
    && (a in tail ==> tail[a] in index && IsLast(g, a, index[tail[a]]))
    && (a in head ==> head[a] in index && IsFirst(g, a, index[head[a]]))
  }

  ghost predicate Built(g: Nodes, index: map<TransactionId, nat>, head: map<nat, TransactionId>, tail: map<nat,
                        TransactionId>, cuts: set<Cut>) {
    && Linked(g) && Ascending(g) && Chained(g, cuts) && Indexed(g, index)
    && forall a :: Ends(g, index, head, tail, a)
  }

  lemma AscendingIsAcyclic(g: Nodes)
    requires Linked(g) && Ascending(g)
    ensures Acyclic(g)
  {
    var rank := seq(|g|, i => i);
    forall p, c | 0 <= p < |g| && 0 <= c < |g| && c in g[p].children ensures rank[p] < rank[c] {
      assert Edge(g, p, c);
    }
    assert Ranked(g, rank);
  }

  // ---------------------------------------------------------------- adding an edge

  function WithEdge(g: Nodes, p: nat, c: nat): Nodes
    requires p < |g| && c < |g|
  {
    if c in g[p].children then g
    else
      var g1 := g[p := g[p].(children := g[p].children + [c])];
      g1[c := g1[c].(parents := g1[c].parents + [p])]
  }

  /** The nodes without their edges. */
  ghost predicate SameNodes(g: Nodes, g': Nodes) {
    |g| == |g'| && forall i :: 0 <= i < |g| ==> g'[i] == g[i].(children := g'[i].children, parents := g'[i].parents)
  }

  lemma WithEdgeLinked(g: Nodes, p: nat, c: nat)
    requires Linked(g) && p < |g| && c < |g|
    ensures Linked(WithEdge(g, p, c)) && SameNodes(g, WithEdge(g, p, c))
    ensures forall x: nat, y: nat :: Edge(WithEdge(g, p, c), x, y) <==> Edge(g, x, y) || (x == p && y == c)
  {
    var g' := WithEdge(g, p, c);
    if c !in g[p].children {
      assert p !in g[c].parents;
      assert g'[p].children == g[p].children + [c] && g'[c].parents == g[c].parents + [p];
      assert forall i :: 0 <= i < |g| && i != p ==> g'[i].children == g[i].children;
      assert forall i :: 0 <= i < |g| && i != c ==> g'[i].parents == g[i].parents;
    }
  }

  // ---------------------------------------------------------------- adding a node

  /** A node without edges at the end: only the new index is unlinked. */
  lemma AppendedLinked(g: Nodes, n: Node)
    requires Linked(g) && n.children == [] && n.parents == []
    ensures Linked(g + [n])
    ensures forall x: nat, y: nat :: Edge(g + [n], x, y) <==> Edge(g, x, y)
  {
    var g' := g + [n];
    assert forall i :: 0 <= i < |g| ==> g'[i] == g[i];
    assert g'[|g|] == n;
  }

  /** The edges `add_transaction` adds: from the tail of a touched address when the write sets conflict. */
  ghost predicate NewParent(g: Nodes, n: Node, p: nat) {
    p < |g| && Conflict(g[p], n) && exists a :: Touches(n, a) && IsLast(g, a, p)
  }

  /** `g'` is `g` with node `n` at the end and an edge from each new parent. */
  ghost predicate Extended(g: Nodes, n: Node, g': Nodes) {
    && SameNodes(g + [n], g')
    && forall x: nat, y: nat :: Edge(g', x, y) <==> Edge(g, x, y) || (y == |g| && NewParent(g, n, x))
  }

  lemma ExtendedChained(g: Nodes, n: Node, g': Nodes, cuts: set<Cut>)
    requires Linked(g) && Ascending(g) && Chained(g, cuts) && Extended(g, n, g')
    ensures Ascending(g') && Chained(g', cuts)
    ensures OnlyConflicts(g) ==> OnlyConflicts(g')
  {
    assert forall i :: 0 <= i < |g| ==> (g + [n])[i] == g[i];
    assert (g + [n])[|g|] == n;
    forall a, i: nat, j: nat | Consecutive(g', a, i, j)
      ensures Edge(g', i, j) <==> Conflict(g'[i], g'[j]) || Across(cuts, i, j) {
      if j < |g| {
        assert Consecutive(g, a, i, j);
      } else {
        assert IsLast(g, a, i) && Touches(n, a);
        assert NewParent(g, n, i) <==> Conflict(g[i], n);
        assert !Edge(g, i, j) && !Across(cuts, i, j);
      }
    }
  }

  lemma ExtendedEnds(g: Nodes, n: Node, g': Nodes, index: map<TransactionId, nat>, head: map<nat, TransactionId>,
                     tail: map<nat, TransactionId>,
                     index': map<TransactionId, nat>, head': map<nat, TransactionId>, tail': map<nat, TransactionId>,
                       a: nat)
    requires SameNodes(g + [n], g') && Indexed(g, index) && n.txId !in index && index' == index[n.txId := |g|]
    requires Ends(g, index, head, tail, a)
    requires if Touches(n, a) then a in tail' && tail'[a] == n.txId else a in tail' <==> a in tail
    requires a in tail && !Touches(n, a) ==> tail'[a] == tail[a]
    requires if a in head then a in head' && head'[a] == head[a] else a in head' <==> Touches(n, a)
    requires a !in head && Touches(n, a) ==> head'[a] == n.txId
    ensures Ends(g', index', head', tail', a)
  {
    assert forall i :: 0 <= i < |g| ==> (g + [n])[i] == g[i];
    assert (g + [n])[|g|] == n;
    assert forall i :: 0 <= i < |g'| ==> Touches(g'[i], a) == Touches((g + [n])[i], a);
  }

  lemma ExtendedIndexed(g: Nodes, n: Node, g': Nodes, index: map<TransactionId, nat>)
    requires SameNodes(g + [n], g') && Indexed(g, index) && n.txId !in index
    ensures Indexed(g', index[n.txId := |g|])
  {
    assert forall i :: 0 <= i < |g| ==> (g + [n])[i] == g[i];
    assert (g + [n])[|g|] == n;
  }

  // ---------------------------------------------------------------- chains of touchers

  /** The touchers of `a` below `i`, in insertion order. */
  ghost function Touchers(g: Nodes, a: nat, i: nat): seq<nat>
    requires i <= |g|
  {
    if i == 0 then [] else Touchers(g, a, i - 1) + if Touches(g[i - 1], a) then [i - 1] else []
  }

  /** `q` lists exactly the touchers of `a` below `i`, each followed by the next one. */
  ghost predicate ListsTouchers(g: Nodes, a: nat, i: nat, q: seq<nat>)
    requires i <= |g|
  {
    && (forall x: nat :: x in q <==> x < i && Touches(g[x], a))
    && (forall x, y :: 0 <= x < y < |q| && y == x + 1 ==> Consecutive(g, a, q[x], q[y]))
    && (forall m :: (if q == [] then 0 <= m else q[|q| - 1] < m) && m < i ==> !Touches(g[m], a))
  }

  lemma {:induction false} TouchersAreListed(g: Nodes, a: nat, i: nat)
    requires i <= |g|
    ensures ListsTouchers(g, a, i, Touchers(g, a, i))
  {
    hide ListsTouchers, Touches;
    if i == 0 {
      ListsNone(g, a);
    } else {
      TouchersAreListed(g, a, i - 1);
      var q := Touchers(g, a, i - 1);
      ListsNext(g, a, i - 1, q);
      assert Touchers(g, a, i) == if Touches(g[i - 1], a) then q + [i - 1] else q;
    }
  }

  lemma ListsNone(g: Nodes, a: nat)
    ensures ListsTouchers(g, a, 0, [])
  {
  }

  lemma ListsNext(g: Nodes, a: nat, i: nat, q: seq<nat>)
    requires i < |g| && ListsTouchers(g, a, i, q)
    ensures ListsTouchers(g, a, i + 1, if Touches(g[i], a) then q + [i] else q)
  {
    hide Touches;
    if q != [] {
      assert q[|q| - 1] in q;
    }
  }

  /** Neighbouring touchers of `a` all conflict, or were connected by a merge. */
  ghost predicate NeighboursConnect(g: Nodes, cuts: set<Cut>, a: nat) {
    forall i: nat, j: nat :: Consecutive(g, a, i, j) ==> Conflict(g[i], g[j]) || Across(cuts, i, j)
  }

  /** The touchers of an address lie on one directed path, in insertion order, if and only if neighbours conflict
      or were connected by a merge. */
  lemma TouchersFormAPath(g: Nodes, cuts: set<Cut>, a: nat)
    requires Linked(g) && Chained(g, cuts) && Touchers(g, a, |g|) != []
    ensures IsPath(g, Touchers(g, a, |g|)) <==> NeighboursConnect(g, cuts, a)
  {
    TouchersAreListed(g, a, |g|);
    var q := Touchers(g, a, |g|);
    assert forall x :: 0 <= x < |q| ==> q[x] in q;
    if NeighboursConnect(g, cuts, a) {
      forall x | 0 <= x < |q| - 1 ensures q[x + 1] in g[q[x]].children {
        assert Consecutive(g, a, q[x], q[x + 1]) && Edge(g, q[x], q[x + 1]);
      }
    }
    if IsPath(g, q) {
      forall i: nat, j: nat | Consecutive(g, a, i, j) ensures Conflict(g[i], g[j]) || Across(cuts, i, j) {
        NextToucher(g, a, i, j);
        assert Edge(g, i, j);
      }
    }
  }

  /** Consecutive touchers are neighbours in the list of touchers, so a path through the list connects them. */
  lemma NextToucher(g: Nodes, a: nat, i: nat, j: nat)
    requires Consecutive(g, a, i, j)
    ensures exists x ::
      0 <= x < |Touchers(g, a, |g|)| - 1 && Touchers(g, a, |g|)[x] == i && Touchers(g, a, |g|)[x + 1] == j
  {
    var q := Touchers(g, a, |g|);
    TouchersAreListed(g, a, |g|);
    var x :| 0 <= x < |q| && q[x] == i;
    assert j in q;
    assert x + 1 < |q|;
    assert Consecutive(g, a, q[x], q[x + 1]);
  }

  /** An address that every toucher writes makes its touchers one path. */
  lemma WrittenByAllIsAPath(g: Nodes, cuts: set<Cut>, a: nat)
    requires Linked(g) && Chained(g, cuts) && Touchers(g, a, |g|) != []
    requires forall i :: 0 <= i < |g| && Touches(g[i], a) ==> a in g[i].writeSet
    ensures IsPath(g, Touchers(g, a, |g|))
  {
    forall i: nat, j: nat | Consecutive(g, a, i, j) ensures Conflict(g[i], g[j]) {
      assert a in g[i].writeSet * g[j].writeSet;
    }
    TouchersFormAPath(g, cuts, a);
  }
}

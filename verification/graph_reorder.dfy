/** `reorder_txs_by_dependency_graph`: transactions in the order in which the simulation
    started them, and a new graph built in that order. */
module GraphReorder {
  import opened Collections
  import opened GraphModel
  import opened GraphBuilding
  import opened ListSchedule
  import opened Graham
  import opened DependencyGraph

  /** Same transaction: identity, gas and keys. */
  ghost predicate SameTransaction(m: Node, n: Node) {
    m.txId == n.txId && m.gas == n.gas && m.readSet == n.readSet && m.writeSet == n.writeSet
  }

  /** Nodes `order[..x]` of `g`, in that order. */
  ghost predicate Follows(g: Nodes, order: seq<Entry>, x: nat, g': Nodes) {
    && |g'| == x <= |order|
    && forall a :: 0 <= a < x ==> order[a].tx < |g| && SameTransaction(g[order[a].tx], g'[a])
  }

  /** In a legal schedule a parent is started before its children. */
  lemma EdgesAscend(g: Nodes, k: nat, order: seq<Entry>, a: nat, b: nat)
    requires Linked(g) && LegalSchedule(g, k, order) && a < |order| && b < |order|
    requires order[a].tx < |g| && order[b].tx in g[order[a].tx].children
    ensures a < b
  {
    assert order[a].tx in g[order[b].tx].parents;
    StartsAfterParent(g, order, a, b);
  }

  lemma ExtendedFollows(g: Nodes, order: seq<Entry>, x: nat, g': Nodes, n: Node, g2: Nodes)
    requires Follows(g, order, x, g') && x < |order| && order[x].tx < |g| && SameTransaction(g[order[x].tx], n)
      && Extended(g', n, g2)
    ensures Follows(g, order, x + 1, g2)
  {
    assert forall a :: 0 <= a < x ==> (g' + [n])[a] == g'[a];
    assert (g' + [n])[x] == n;
  }

  /** Identities are distinct, so the next transaction is new. */
  lemma NextIsNew(g: Nodes, index: map<TransactionId, nat>, k: nat, order: seq<Entry>, x: nat, g': Nodes,
                  index': map<TransactionId, nat>)
    requires Indexed(g, index) && LegalSchedule(g, k, order) && Follows(g, order, x, g') && Indexed(g', index')
      && x < |order|
    ensures order[x].tx < |g| && g[order[x].tx].txId !in index'
  {
    assert order[x] in order;
    forall a | 0 <= a < x ensures g'[a].txId != g[order[x].tx].txId {
      assert order[a].tx != order[x].tx && index[g[order[a].tx].txId] == order[a].tx;
    }
  }

  lemma SuffixesAside(g: Nodes, g': Nodes, index: map<TransactionId, nat>)
    requires SameGraph(g, g') && Indexed(g, index)
    ensures Indexed(g', index)
  {
  }

  /** The reordered list is a permutation that respects every edge of the graph, and the new graph is a valid graph
      of the reordered transactions. `stored` is the execution order of an earlier simulation of the graph, on `threads`
      threads; when there is one, nothing is simulated. */
  method ReorderTxsByDependencyGraph<T>(txs: seq<T>, graph: TransactionGraph, concurrency: nat,
                                        stored: Option<seq<Entry>>, ghost threads: nat)
      returns (reordered: seq<T>, newGraph: TransactionGraph, order: seq<Entry>)
    requires graph.Valid() && |txs| == |graph.nodes| && concurrency >= 1
    requires stored.Some? ==> LegalSchedule(graph.nodes, threads, stored.value)
    modifies graph
    ensures SameGraph(old(graph.nodes), graph.nodes)
    ensures if stored.Some? then order == stored.value && graph.nodes == old(graph.nodes)
      else LegalSchedule(graph.nodes, concurrency, order) && Suffixes(graph.nodes) && Prioritised(graph.nodes, order)
    ensures |reordered| == |order| == |txs| && forall a :: 0 <= a < |order| ==>
      order[a].tx < |txs| && reordered[a] == txs[order[a].tx]
    ensures forall a, b :: 0 <= a < |order| && 0 <= b < |order| && Edge(old(graph.nodes), order[a].tx, order[b].tx) ==>
      a < b
    ensures fresh(newGraph) && newGraph.Valid() && OnlyConflicts(newGraph.nodes)
      && Follows(graph.nodes, order, |order|, newGraph.nodes)
  {
    hide LegalSchedule, OnlyConflicts, Follows, Prioritised;
    AscendingIsAcyclic(graph.nodes);
    ghost var g, index := graph.nodes, graph.idToIndex;
    ghost var k := if stored.Some? then threads else concurrency;
    if stored.Some? {
      order := stored.value;
    } else {
      var makespan;
      makespan, order := graph.SimulateParallelExecution(concurrency);
    }
    SuffixesAside(g, graph.nodes, index);
    reordered, newGraph := BuildInOrder(txs, graph.nodes, order, k, index);
    forall a, b | 0 <= a < |order| && 0 <= b < |order| && Edge(g, order[a].tx, order[b].tx) ensures a < b {
      EdgesAscend(graph.nodes, k, order, a, b);
    }
  }

  /** The transactions in the given order, and a graph of them built in that order. */
  method BuildInOrder<T>(txs: seq<T>, nodes: Nodes, order: seq<Entry>, ghost k: nat, ghost index: map<TransactionId,
                         nat>)
      returns (reordered: seq<T>, newGraph: TransactionGraph)
    requires |txs| == |nodes| && Indexed(nodes, index) && LegalSchedule(nodes, k, order)
    ensures |reordered| == |order| == |txs| && forall a :: 0 <= a < |order| ==>
      order[a].tx < |txs| && reordered[a] == txs[order[a].tx]
    ensures fresh(newGraph) && newGraph.Valid() && OnlyConflicts(newGraph.nodes)
      && Follows(nodes, order, |order|, newGraph.nodes)
  {
    hide LegalSchedule, OnlyConflicts, Follows, Built, Extended, Indexed;
    newGraph := new TransactionGraph();
    reordered := [];
    NothingFollows(nodes, order);
    ScheduleIsComplete(nodes, k, order);
    for x := 0 to |order|
      invariant fresh(newGraph) && newGraph.Valid() && OnlyConflicts(newGraph.nodes)
      invariant Follows(nodes, order, x, newGraph.nodes)
      invariant |reordered| == x && forall a :: 0 <= a < x ==> order[a].tx < |txs| && reordered[a] == txs[order[a].tx]
    {
      BuiltIsIndexed(newGraph);
      NextIsNew(nodes, index, k, order, x, newGraph.nodes, newGraph.idToIndex);
      var i := order[x].tx;
      reordered := reordered + [txs[i]];
      var node := nodes[i].(children := [], parents := [], suffix := nodes[i].gas);
      ghost var before := newGraph.nodes;
      var added := newGraph.AddTransaction(node);
      ExtendedFollows(nodes, order, x, before, node, newGraph.nodes);
    }
  }

  lemma NothingFollows(g: Nodes, order: seq<Entry>)
    ensures Follows(g, order, 0, [])
  {
  }

  lemma ScheduleIsComplete(g: Nodes, k: nat, order: seq<Entry>)
    requires LegalSchedule(g, k, order)
    ensures |order| == |g|
  {
  }

  lemma BuiltIsIndexed(graph: TransactionGraph)
    requires graph.Valid()
    ensures Indexed(graph.nodes, graph.idToIndex)
  {
  }
}

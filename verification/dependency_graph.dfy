/** `TransactionGraph`: building, merging and simulating the transaction graph in place. */
module DependencyGraph {
  import opened GraphModel
  import opened GraphBuilding
  import opened GraphMerging
  import opened ListSchedule
  import opened Graham

  function Addresses(n: Node): set<nat> {
    n.readSet + n.writeSet
  }

  class TransactionGraph {
    var nodes: Nodes
    var idToIndex: map<TransactionId, nat>
    var headTxns: map<nat, TransactionId>
    var tailTxns: map<nat, TransactionId>
    var txnsWithoutParent: set<nat>
    var tempParents: seq<nat>
    var visited: seq<bool>   // the marks of one depth-first search
    ghost var cuts: set<Cut> // where graphs were merged

    ghost predicate Valid()
      reads this
    {
      Built(nodes, idToIndex, headTxns, tailTxns, cuts)
    }

    constructor ()
      ensures nodes == [] && idToIndex == map[] && cuts == {} && Valid() && OnlyConflicts(nodes)
    {
      nodes, idToIndex, headTxns, tailTxns := [], map[], map[], map[];
      txnsWithoutParent, tempParents, visited, cuts := {}, [], [], {};
    }

    constructor Clone(other: TransactionGraph)
      ensures nodes == other.nodes && idToIndex == other.idToIndex && headTxns == other.headTxns
        && tailTxns == other.tailTxns
      ensures cuts == other.cuts
    {
      nodes, idToIndex, headTxns, tailTxns := other.nodes, other.idToIndex, other.headTxns, other.tailTxns;
      txnsWithoutParent, tempParents, visited, cuts :=
        other.txnsWithoutParent, other.tempParents, other.visited, other.cuts;
    }

    // -------------------------------------------------------------- building

    method AddEdge(parent: TransactionId, child: TransactionId) returns (ok: bool)
      requires Linked(nodes) && InBounds(nodes, idToIndex)
      modifies this`nodes
      ensures ok <==> parent in idToIndex && child in idToIndex
      ensures nodes == if ok then WithEdge(old(nodes), idToIndex[parent], idToIndex[child]) else old(nodes)
      ensures Linked(nodes) && SameNodes(old(nodes), nodes)
      ensures ok ==> forall x: nat, y: nat ::
        Edge(nodes, x, y) <==> Edge(old(nodes), x, y) || (x == idToIndex[parent] && y == idToIndex[child])
    {
      if parent !in idToIndex || child !in idToIndex {
        return false;
      }
      var p, c := idToIndex[parent], idToIndex[child];
      WithEdgeLinked(nodes, p, c);
      if c !in nodes[p].children {
        nodes := nodes[p := nodes[p].(children := nodes[p].children + [c])];
        nodes := nodes[c := nodes[c].(parents := nodes[c].parents + [p])];
      }
      return true;
    }

    /** Append a transaction, with an edge from the tail of each touched address it has a write conflict with. */
    method AddTransaction(node: Node) returns (added: bool)
      requires Valid() && node.children == [] && node.parents == []
      modifies this
      ensures Valid()
      ensures added <==> node.txId !in old(idToIndex)
      ensures !added ==> nodes == old(nodes)
      ensures added ==> Extended(old(nodes), node, nodes) && idToIndex == old(idToIndex)[node.txId := |old(nodes)|]
      ensures OnlyConflicts(old(nodes)) ==> OnlyConflicts(nodes)
      ensures cuts == old(cuts)
    {
      if node.txId in idToIndex {
        return false;
      }
      ghost var g, index := nodes, idToIndex;
      nodes := nodes + [node];
      idToIndex := idToIndex[node.txId := |nodes| - 1];
      AppendedLinked(g, node);
      ExtendedIndexed(g, node, nodes, index);
      var parents := FindParents(node, g, index);
      AddParents(node, parents, g, index);
      UpdateEnds(node);
      ExtendedChained(g, node, nodes, cuts);
      ExtendedIndexed(g, node, nodes, index);
      forall a ensures Ends(nodes, idToIndex, headTxns, tailTxns, a) {
        assert Ends(g, index, old(headTxns), old(tailTxns), a);
        ExtendedEnds(g, node, nodes, index, old(headTxns), old(tailTxns), idToIndex, headTxns, tailTxns, a);
      }
      return true;
    }

    /** The conflicting tails of the touched addresses. */
    method FindParents(node: Node, ghost g: Nodes, ghost index: map<TransactionId, nat>)
        returns (parents: set<TransactionId>)
      requires Indexed(g, index) && nodes == g + [node] && idToIndex == index[node.txId := |g|] && node.txId !in index
      requires forall a :: Ends(g, index, headTxns, tailTxns, a)
      ensures forall id :: id in parents ==> id in index
      ensures forall id :: id in index ==> (id in parents <==> NewParent(g, node, index[id]))
    {
      parents := {};
      var todo := Addresses(node);
      while todo != {}
        invariant todo <= Addresses(node)
        invariant forall id :: id in parents ==> id in index && NewParent(g, node, index[id])
        invariant forall a ::
          && a in Addresses(node) - todo && a in tailTxns && tailTxns[a] in index
          && NewParent(g, node, index[tailTxns[a]]) ==>
            tailTxns[a] in parents
        decreases todo
      {
        var a :| a in todo;
        assert Ends(g, index, headTxns, tailTxns, a);
        if a in tailTxns {
          var tail := tailTxns[a];
          assert tail != node.txId && nodes[idToIndex[tail]] == g[index[tail]];
          if Conflict(nodes[idToIndex[tail]], node) {
            assert Touches(node, a) && IsLast(g, a, index[tail]);
            parents := parents + {tail};
          }
        }
        todo := todo - {a};
      }
      forall id | id in index && NewParent(g, node, index[id]) ensures id in parents {
        var a :| Touches(node, a) && IsLast(g, a, index[id]);
        assert a in Addresses(node);
        assert Ends(g, index, headTxns, tailTxns, a);
        assert index[tailTxns[a]] == index[id];
      }
    }

    method AddParents(node: Node, parents: set<TransactionId>, ghost g: Nodes, ghost index: map<TransactionId, nat>)
      requires Linked(nodes) && Indexed(nodes, idToIndex) && Indexed(g, index) && nodes == g + [node]
      requires node.txId !in index && idToIndex == index[node.txId := |g|]
      requires forall x: nat, y: nat :: Edge(nodes, x, y) <==> Edge(g, x, y)
      requires forall id :: id in parents ==> id in index
      requires forall id :: id in index ==> (id in parents <==> NewParent(g, node, index[id]))
      modifies this`nodes
      ensures Linked(nodes) && Extended(g, node, nodes)
    {
      var todo := parents;
      while todo != {}
        invariant todo <= parents && Linked(nodes) && Indexed(nodes, idToIndex) && SameNodes(g + [node], nodes)
        invariant forall x: nat, y: nat :: Edge(nodes, x, y) <==>
          Edge(g, x, y) || (y == |g| && x < |g| && g[x].txId in parents - todo)
        decreases todo
      {
        var parent :| parent in todo;
        ghost var before := nodes;
        var ok := AddEdge(parent, node.txId);
        AddedParent(g, node, index, before, nodes, parents, todo, parent);
        todo := todo - {parent};
      }
    }

    method UpdateEnds(node: Node)
      modifies this`headTxns, this`tailTxns
      ensures forall a :: a in tailTxns <==> a in old(tailTxns) || Touches(node, a)
      ensures forall a :: a in tailTxns ==> tailTxns[a] == if Touches(node, a) then node.txId else old(tailTxns)[a]
      ensures forall a :: a in headTxns <==> a in old(headTxns) || Touches(node, a)
      ensures forall a :: a in headTxns ==> headTxns[a] == if a in old(headTxns) then old(headTxns)[a] else node.txId
    {
      var todo := Addresses(node);
      while todo != {}
        invariant todo <= Addresses(node)
        invariant forall a :: a in tailTxns <==> a in old(tailTxns) || a in Addresses(node) - todo
        invariant forall a :: a in tailTxns ==>
          tailTxns[a] == if a in Addresses(node) - todo then node.txId else old(tailTxns)[a]
        invariant forall a :: a in headTxns <==> a in old(headTxns) || a in Addresses(node) - todo
        invariant forall a :: a in headTxns ==>
          headTxns[a] == if a in old(headTxns) then old(headTxns)[a] else node.txId
        decreases todo
      {
        var a :| a in todo;
        if a !in headTxns {
          headTxns := headTxns[a := node.txId];
        }
        tailTxns := tailTxns[a := node.txId];
        todo := todo - {a};
      }
    }

    // -------------------------------------------------------------- merging

    /** Append `other` and connect, for each common address, the last toucher here with the first one there. The result
        is a valid graph if and only if the two have no transaction in common. */
    method IntegrateGraph(other: TransactionGraph) returns (edgesAdded: nat)
      requires Valid() && other.Valid() && other != this
      modifies this
      ensures Valid() <==> old(idToIndex).Keys !! other.idToIndex.Keys
      ensures Linked(nodes) && SameNodes(Joined(old(nodes), other.nodes), nodes)
      ensures MergedIndex(old(idToIndex), other.idToIndex, |old(nodes)|, idToIndex)
      ensures old(idToIndex).Keys !! other.idToIndex.Keys ==>
        Merged(old(nodes), other.nodes, nodes) && edgesAdded == |AddedEdges(old(nodes), other.nodes)|
      ensures cuts == MergedCuts(old(nodes), other.nodes, old(cuts), other.cuts)
    {
      hide Merged, MergedIndex, Ends, Chained, MergedCuts, AddedEdges, SameNodes, Linked, Indexed, Ascending,
        MergedEndsAt;
      ghost var g, h, index, indexH := nodes, other.nodes, idToIndex, other.idToIndex;
      ghost var head, tail, ok := headTxns, tailTxns, index.Keys !! indexH.Keys;
      AppendNodes(other);
      JoinedLinked(g, h);
      JoinedInBounds(g, h, index, indexH, idToIndex);
      SameAsJoined(g, h);
      if ok {
        MergedIndexed(g, h, nodes, index, indexH, idToIndex);
      }
      ghost var headH, tailH := other.headTxns, other.tailTxns;
      assert headTxns == head && tailTxns == tail;
      edgesAdded := ConnectEnds(other.headTxns, other.tailTxns, g, h, index, indexH);
      assert forall a :: MergedEndsAt(head, tail, headH, tailH, headTxns, tailTxns, a);
      if ok {
        MergedBuilt(g, h, nodes, index, indexH, idToIndex, head, tail, headH, tailH, headTxns, tailTxns, cuts,
                    other.cuts);
      } else {
        CommonId(g, h, nodes, index, indexH, idToIndex);
      }
      cuts := MergedCuts(g, h, cuts, other.cuts);
    }

    /** Append the nodes of `other` in order, then shift their index lists. */
    method AppendNodes(other: TransactionGraph)
      requires other != this && Indexed(other.nodes, other.idToIndex)
      modifies this`nodes, this`idToIndex
      ensures nodes == Joined(old(nodes), other.nodes)
      ensures MergedIndex(old(idToIndex), other.idToIndex, |old(nodes)|, idToIndex)
    {
      var base := |nodes|;
      AppendClones(other);
      ghost var before := idToIndex;
      ghost var g := old(nodes);
      ghost var j := Joined(g, other.nodes);
      for i := 0 to |other.nodes|
        invariant |nodes| == |j| && idToIndex == before
        invariant forall x :: 0 <= x < base + i ==> nodes[x] == j[x]
        invariant forall x :: base + i <= x < |nodes| ==> nodes[x] == other.nodes[x - base]
      {
        nodes := nodes[base + i := ShiftNode(other.nodes[i], base)];
      }
    }

    method AppendClones(other: TransactionGraph)
      requires other != this && Indexed(other.nodes, other.idToIndex)
      modifies this`nodes, this`idToIndex
      ensures nodes == old(nodes) + other.nodes
      ensures MergedIndex(old(idToIndex), other.idToIndex, |old(nodes)|, idToIndex)
    {
      var base := |nodes|;
      for i := 0 to |other.nodes|
        invariant nodes == old(nodes) + other.nodes[..i]
        invariant forall id :: id in idToIndex <==>
          id in old(idToIndex) || (id in other.idToIndex && other.idToIndex[id] < i)
        invariant forall id :: id in idToIndex ==>
          idToIndex[id] == if id in other.idToIndex && other.idToIndex[id] < i then base + other.idToIndex[id]
            else old(idToIndex)[id]
      {
        idToIndex := idToIndex[other.nodes[i].txId := |nodes|];
        nodes := nodes + [other.nodes[i]];
      }
      assert other.nodes[..|other.nodes|] == other.nodes;
    }

    method ConnectEnds(headH: map<nat, TransactionId>, tailH: map<nat, TransactionId>, ghost g: Nodes, ghost h: Nodes,
                       ghost index: map<TransactionId, nat>, ghost indexH: map<TransactionId, nat>)
        returns (edgesAdded: nat)
      requires Linked(g) && nodes == Joined(g, h) && Linked(nodes) && InBounds(nodes, idToIndex)
      requires index.Keys !! indexH.Keys ==> Indexed(nodes, idToIndex)
      requires MergedIndex(index, indexH, |g|, idToIndex)
      requires forall a :: Ends(g, index, headTxns, tailTxns, a)
      requires forall a :: Ends(h, indexH, headH, tailH, a)
      modifies this`nodes, this`headTxns, this`tailTxns
      ensures Linked(nodes) && SameNodes(Joined(g, h), nodes)
      ensures index.Keys !! indexH.Keys ==> Merged(g, h, nodes) && edgesAdded == |AddedEdges(g, h)|
      ensures forall a :: MergedEndsAt(old(headTxns), old(tailTxns), headH, tailH, headTxns, tailTxns, a)
    {
      hide Bridging, Bridges, Linked, Indexed, SameNodes, MergedIndex, Merged, AddedEdges;
      var all := headTxns.Keys + tailTxns.Keys + headH.Keys + tailH.Keys;
      var todo := all;
      ghost var head, tail, ok := headTxns, tailTxns, index.Keys !! indexH.Keys;
      edgesAdded := 0;
      Unbridged(g, h);
      ghost var done: set<nat> := {};
      EndsUnmerged(head, tail, headH, tailH, all);
      SameAsJoined(g, h);
      NoBridges(g, h);
      while todo != {}
        invariant Linked(nodes) && InBounds(nodes, idToIndex) && SameNodes(Joined(g, h), nodes)
        invariant ok ==> Indexed(nodes, idToIndex) && Bridging(g, h, done, nodes) && edgesAdded == |Bridges(g, h, done)|
        invariant forall a :: a in all ==> a in todo || a in done
        invariant EndsMergedExcept(head, tail, headH, tailH, headTxns, tailTxns, todo)
        decreases todo
      {
        var a :| a in todo;
        assert Ends(g, index, head, tail, a) && Ends(h, indexH, headH, tailH, a);
        assert SameEnds(head, tail, headTxns, tailTxns, a);
        ghost var head1, tail1, before := headTxns, tailTxns, nodes;
        var added := ConnectAt(headH, tailH, a, g, h, index, indexH, head, tail, done);
        edgesAdded := edgesAdded + added;
        SameNodesOn(Joined(g, h), before, nodes);
        EndsMergedStep(head, tail, headH, tailH, head1, tail1, headTxns, tailTxns, todo, a);
        todo, done := todo - {a}, done + {a};
      }
      OnlyCommonBridges(g, h, index, head, tail, all);
      if ok {
        AllBridged(g, h, done, nodes);
        AllCounted(g, h, done);
      }
    }

    method ConnectAt(headH: map<nat, TransactionId>, tailH: map<nat, TransactionId>, a: nat, ghost g: Nodes,
                     ghost h: Nodes, ghost index: map<TransactionId, nat>, ghost indexH: map<TransactionId, nat>,
                     ghost head: map<nat, TransactionId>, ghost tail: map<nat, TransactionId>, ghost done: set<nat>)
        returns (edgesAdded: nat)
      requires Linked(g) && Linked(nodes) && InBounds(nodes, idToIndex) && MergedIndex(index, indexH, |g|, idToIndex)
      requires index.Keys !! indexH.Keys ==> Indexed(nodes, idToIndex) && Bridging(g, h, done, nodes)
      requires Ends(g, index, head, tail, a) && SameEnds(head, tail, headTxns, tailTxns, a)
        && Ends(h, indexH, headH, tailH, a)
      modifies this`nodes, this`headTxns, this`tailTxns
      ensures Linked(nodes) && InBounds(nodes, idToIndex) && SameNodes(old(nodes), nodes)
      ensures index.Keys !! indexH.Keys ==>
        && Indexed(nodes, idToIndex) && Bridging(g, h, done + {a}, nodes)
        && |Bridges(g, h, done + {a})| == |Bridges(g, h, done)| + edgesAdded
      ensures MergedEndsAt(head, tail, headH, tailH, headTxns, tailTxns, a)
      ensures forall b :: b != a ==> SameEnds(old(headTxns), old(tailTxns), headTxns, tailTxns, b)
    {
      hide Bridging, Bridges, Linked, Indexed, SameNodes;
      edgesAdded := 0;
      if a in tailTxns && a in headH {
        edgesAdded := AddBridge(tailTxns[a], headH[a], a, g, h, done, index.Keys !! indexH.Keys);
      } else {
        NotCommon(g, h, index, indexH, head, tail, headH, tailH, a);
        if index.Keys !! indexH.Keys {
          BridgesNone(g, h, done, nodes, a);
          CountsNone(g, h, done, a);
        }
        SameNodesAlways(nodes);
      }
      MergeEndsAt(headH, tailH, a, head, tail);
    }

    method AddBridge(last: TransactionId, first: TransactionId, ghost a: nat, ghost g: Nodes, ghost h: Nodes,
                     ghost done: set<nat>, ghost ok: bool) returns (edgesAdded: nat)
      requires Linked(nodes) && InBounds(nodes, idToIndex) && last in idToIndex && first in idToIndex
      requires ok ==>
        && Linked(g) && Indexed(nodes, idToIndex) && Bridging(g, h, done, nodes)
        && idToIndex[first] >= |g| && IsLast(g, a, idToIndex[last]) && IsFirst(h, a, idToIndex[first] - |g|)
      modifies this`nodes
      ensures Linked(nodes) && InBounds(nodes, idToIndex) && SameNodes(old(nodes), nodes)
      ensures ok ==>
        && Indexed(nodes, idToIndex) && Bridging(g, h, done + {a}, nodes)
        && |Bridges(g, h, done + {a})| == |Bridges(g, h, done)| + edgesAdded
    {
      hide Bridges, Bridging, BridgeIn, Linked, IsFirst, IsLast, Indexed, WithEdge, SameNodes;
      ghost var before := nodes;
      edgesAdded := 0;
      if ok {
        BridgeInBounds(g, h, done, nodes, a, idToIndex, last, first);
        AcrossIsBridge(g, h, done, nodes, idToIndex[last], idToIndex[first]);
        CountsBridge(g, h, done, a, idToIndex[last], idToIndex[first] - |g|);
      }
      if idToIndex[first] !in nodes[idToIndex[last]].children {
        var added := AddEdge(last, first);
        edgesAdded := 1;
      } else {
        NothingAdded(before, idToIndex[last], idToIndex[first]);
      }
      SameSize(before, nodes);
      if ok {
        IndexedSame(before, nodes, idToIndex);
        BridgesOne(g, h, done, before, nodes, a, idToIndex[last], idToIndex[first] - |g|);
      }
    }

    method MergeEndsAt(headH: map<nat, TransactionId>, tailH: map<nat, TransactionId>, a: nat, ghost head: map<nat,
                       TransactionId>, ghost tail: map<nat, TransactionId>)
      requires SameEnds(head, tail, headTxns, tailTxns, a) && (a in head <==> a in tail) && (a in headH <==> a in tailH)
      modifies this`headTxns, this`tailTxns
      ensures MergedEndsAt(head, tail, headH, tailH, headTxns, tailTxns, a)
      ensures forall b :: b != a ==> SameEnds(old(headTxns), old(tailTxns), headTxns, tailTxns, b)
    {
      if a in tailTxns && a in headH {
        if a in tailH {
          tailTxns := tailTxns[a := tailH[a]];
        }
      } else if a in headH {
        headTxns := headTxns[a := headH[a]];
        if a in tailH {
          tailTxns := tailTxns[a := tailH[a]];
        }
      }
    }

    // -------------------------------------------------------------- longest suffixes

    /** Depth-first search that gives a node its longest suffix after its children have theirs. */
    method PostorderDfs(i: nat, ghost rank: seq<nat>) returns (suffix: nat)
      requires Searchable(nodes, visited, i, rank)
      modifies this`nodes, this`visited
      ensures Searched(old(nodes), old(visited), nodes, visited, i, rank) && suffix == nodes[i].suffix
      decreases |nodes| - rank[i], 1
    {
      if visited[i] {
        return nodes[i].suffix;
      }
      ghost var g, seen := nodes, visited;
      DfsStart(g, seen, i, rank);
      visited := visited[i := true];
      var max := VisitChildren(i, rank, g, seen);
      suffix := nodes[i].gas + max;
      DfsFinish(g, seen, nodes, visited, nodes[i := nodes[i].(suffix := suffix)], i, max, rank);
      nodes := nodes[i := nodes[i].(suffix := suffix)];
    }

    /** The loop over the children of `i`. */
    method VisitChildren(i: nat, ghost rank: seq<nat>, ghost g: Nodes, ghost seen: seq<bool>) returns (max: nat)
      requires Linked(g) && Ranked(g, rank) && Dfs(g, seen, nodes, visited, i, rank)
      modifies this`nodes, this`visited
      ensures Dfs(g, seen, nodes, visited, i, rank) && Largest(nodes, visited, g[i].children, |g[i].children|, max)
      decreases |nodes| - rank[i], 0
    {
      var children := nodes[i].children;
      max := 0;
      for k := 0 to |children|
        invariant Dfs(g, seen, nodes, visited, i, rank) && Largest(nodes, visited, children, k, max)
      {
        var child := children[k];
        ghost var before, seen' := nodes, visited;
        DfsChild(g, seen, before, seen', i, child, rank);
        var s := PostorderDfs(child, rank);
        DfsStep(g, seen, before, seen', nodes, visited, i, child, rank);
        LargestStep(before, nodes, seen', visited, children, k, max, s);
        max := if s > max then s else max;
      }
    }

    /** Give every node its longest suffix, and put the nodes without parents on the heap. */
    method UpdateLongestSuffixPostorder(ghost rank: seq<nat>)
      requires Linked(nodes) && Ranked(nodes, rank)
      modifies this`nodes, this`visited, this`txnsWithoutParent
      ensures SameGraph(old(nodes), nodes) && Suffixes(nodes)
      ensures forall i: nat :: i in txnsWithoutParent <==> i < |nodes| && nodes[i].parents == []
    {
      ghost var g := nodes;
      var roots := FindRoots();
      txnsWithoutParent := {};
      visited := seq(|nodes|, _ => false);
      for k := 0 to |roots|
        invariant |visited| == |g| && SameGraph(g, nodes) && AllDoneFrom(nodes, visited, 0, rank)
        invariant forall x :: 0 <= x < k ==> visited[roots[x]]
        invariant forall i: nat :: i in txnsWithoutParent <==> i in roots[..k]
      {
        ghost var before, seen := nodes, visited;
        SameGraphKeeps(g, nodes, rank);
        var suffix := PostorderDfs(roots[k], rank);
        RootDone(before, seen, nodes, visited, roots[k], rank);
        txnsWithoutParent := txnsWithoutParent + {roots[k]};
        assert roots[..k + 1] == roots[..k] + [roots[k]];
      }
      assert roots[..|roots|] == roots;
      SameGraphKeeps(g, nodes, rank);
      forall i: nat | i < |nodes| ensures SuffixAt(nodes, i) {
        forall r: nat | r < |nodes| && nodes[r].parents == [] ensures visited[r] {
          assert r in roots;
        }
        AllVisited(nodes, visited, rank, i);
        assert DoneAt(nodes, visited, i);
      }
    }

    /** The nodes that are nobody's child. */
    method FindRoots() returns (roots: seq<nat>)
      requires Linked(nodes)
      ensures forall i: nat :: i in roots <==> i < |nodes| && nodes[i].parents == []
      ensures forall x :: 0 <= x < |roots| ==> roots[x] < |nodes|
    {
      var hasParent := seq(|nodes|, _ => false);
      for p := 0 to |nodes|
        invariant |hasParent| == |nodes|
        invariant forall c :: 0 <= c < |nodes| ==> (hasParent[c] <==> ChildOfFirst(nodes, p, c))
      {
        var children := nodes[p].children;
        for x := 0 to |children|
          invariant |hasParent| == |nodes|
          invariant forall c :: 0 <= c < |nodes| ==> (hasParent[c] <==> ChildOfFirst(nodes, p, c) || c in children[..x])
        {
          assert children[x] in nodes[p].children;
          hasParent := hasParent[children[x] := true];
          assert children[..x + 1] == children[..x] + [children[x]];
        }
        assert children[..|children|] == children;
      }
      roots := [];
      for i := 0 to |nodes|
        invariant forall x: nat :: x in roots <==> x < i && !hasParent[x]
        invariant forall x :: 0 <= x < |roots| ==> roots[x] < |nodes|
      {
        if !hasParent[i] {
          roots := roots + [i];
        }
      }
      forall i: nat | i < |nodes| ensures hasParent[i] <==> nodes[i].parents != [] {
        if nodes[i].parents != [] {
          ParentLink(nodes, nodes[i].parents[0], i);
        }
      }
    }

    // -------------------------------------------------------------- simulation

    /** The simulator's variables as one value. */
    ghost function Now(time: nat, threads: seq<Thread>, order: seq<Entry>, started: set<nat>, done: set<nat>): Sim
      reads this`tempParents, this`txnsWithoutParent
    {
      Sim(time, tempParents, txnsWithoutParent, threads, order, started, done)
    }

    /** Pop the ready transaction with the longest suffix. */
    method PopTxnWithoutParent() returns (i: nat)
      requires txnsWithoutParent != {} && forall x :: x in txnsWithoutParent ==> x < |nodes|
      modifies this`txnsWithoutParent
      ensures i in old(txnsWithoutParent) && txnsWithoutParent == old(txnsWithoutParent) - {i}
      ensures forall x :: x in old(txnsWithoutParent) ==> nodes[x].suffix <= nodes[i].suffix
    {
      i :| i in txnsWithoutParent;
      var todo := txnsWithoutParent - {i};
      while todo != {}
        invariant i in txnsWithoutParent && todo <= txnsWithoutParent
        invariant forall x :: x in txnsWithoutParent - todo ==> nodes[x].suffix <= nodes[i].suffix
        decreases todo
      {
        var x :| x in todo;
        if nodes[x].suffix > nodes[i].suffix {
          i := x;
        }
        todo := todo - {x};
      }
      txnsWithoutParent := txnsWithoutParent - {i};
    }

    /** One assignment round: every idle thread takes a ready transaction while there is one. */
    method AssignIdle(time: nat, threads: seq<Thread>, order: seq<Entry>, ghost q: nat, ghost cp: nat,
                      ghost started: set<nat>, ghost done: set<nat>)
        returns (threads': seq<Thread>, order': seq<Entry>, assignedAny: bool, ghost started': set<nat>)
      requires SimOk(nodes, q, cp, Now(time, threads, order, started, done)) && Favours(nodes, order, started)
      modifies this`txnsWithoutParent
      ensures SimOk(nodes, q, cp, Now(time, threads', order', started', done)) && Favours(nodes, order', started')
      ensures order <= order'
      ensures started <= started' && (assignedAny ==> started != started')
      ensures txnsWithoutParent == {} || AllBusy(threads')
    {
      threads', order', assignedAny, started' := threads, order, false, started;
      for th := 0 to |threads|
        invariant |threads'| == |threads| && order <= order'
        invariant SimOk(nodes, q, cp, Now(time, threads', order', started', done)) && Favours(nodes, order', started')
        invariant started <= started' && (assignedAny ==> started != started')
        invariant txnsWithoutParent == {} || forall u :: 0 <= u < th ==> threads'[u].Busy?
      {
        if threads'[th].Idle? && txnsWithoutParent != {} {
          threads', order', started' := AssignAt(th, time, threads', order', q, cp, started', done);
          assignedAny := true;
        }
      }
    }

    method AssignAt(th: nat, time: nat, threads: seq<Thread>, order: seq<Entry>, ghost q: nat, ghost cp: nat,
                    ghost started: set<nat>, ghost done: set<nat>)
        returns (threads': seq<Thread>, order': seq<Entry>, ghost started': set<nat>)
      requires SimOk(nodes, q, cp, Now(time, threads, order, started, done)) && th < |threads| && threads[th].Idle?
        && txnsWithoutParent != {} && Favours(nodes, order, started)
      modifies this`txnsWithoutParent
      ensures SimOk(nodes, q, cp, Now(time, threads', order', started', done)) && Favours(nodes, order', started')
      ensures order <= order'
      ensures |threads'| == |threads| && threads'[th].Busy? && forall u :: 0 <= u < |threads| && u != th ==>
        threads'[u] == threads[u]
      ensures started <= started' && exists i :: i in started' && i !in started
    {
      hide SimOk, Favours;
      ghost var s := Now(time, threads, order, started, done);
      ReadyInRange(nodes, q, cp, s);
      var i := PopTxnWithoutParent();
      AssignOk(nodes, q, cp, s, th, i);
      FavoursNext(nodes, q, cp, s, th, i);
      var end := time + nodes[i].gas;
      threads' := threads[th := Busy(i, time, end)];
      order' := order + [Entry(th, i, time, end)];
      started' := started + {i};
      assert Now(time, threads', order', started', done) == Assign(nodes, s, th, i);
    }

    /** Decrement the parent counts of the children and put those that reach zero on the heap. */
    method RemoveTransactionAndUpdate(j: nat)
      requires Linked(nodes) && j < |nodes| == |tempParents|
      requires forall c :: c in nodes[j].children ==> tempParents[c] > 0
      modifies this`tempParents, this`txnsWithoutParent
      ensures Released(nodes, j, old(tempParents), old(txnsWithoutParent), tempParents, txnsWithoutParent)
    {
      var children := nodes[j].children;
      for x := 0 to |children|
        invariant |tempParents| == |nodes|
        invariant forall c: nat :: c < |nodes| ==>
          old(tempParents)[c] == tempParents[c] + if c in children[..x] then 1 else 0
        invariant forall c :: c in txnsWithoutParent <==>
          c in old(txnsWithoutParent) || (c in children[..x] && c < |nodes| && tempParents[c] == 0)
      {
        var child := children[x];
        assert child in nodes[j].children && children[..x + 1] == children[..x] + [child] && child !in children[..x];
        tempParents := tempParents[child := tempParents[child] - 1];
        if tempParents[child] == 0 {
          txnsWithoutParent := txnsWithoutParent + {child};
        }
      }
      assert children[..|children|] == children;
    }

    /** Advance to the earliest completion and release the children; `th` is the thread that completes. */
    method CompleteNext(th: nat, time: nat, threads: seq<Thread>, order: seq<Entry>, ghost q: nat, ghost cp: nat,
                        ghost started: set<nat>, ghost done: set<nat>)
        returns (time': nat, threads': seq<Thread>, ghost done': set<nat>)
      requires SimOk(nodes, q, cp, Now(time, threads, order, started, done))
      requires th < |threads| && threads[th].Busy?
        && NoneEndsBefore(Now(time, threads, order, started, done), threads[th].end)
      requires txnsWithoutParent == {} || AllBusy(threads)
      modifies this`tempParents, this`txnsWithoutParent
      ensures SimOk(nodes, q, cp, Now(time', threads', order, started, done'))
      ensures |threads'| == |threads| && done <= done' && done != done'
        && (AtSomeEnd(order, time) ==> AtSomeEnd(order, time'))
    {
      hide SimOk, NoneEndsBefore, AtSomeEnd;
      ghost var s := Now(time, threads, order, started, done);
      RunningFacts(nodes, q, cp, s, th);
      var j := threads[th].tx;
      time' := if threads[th].end > time then threads[th].end else time;
      AdvanceOk(nodes, q, cp, s, time');
      threads' := threads[th := Idle];
      done' := done + {j};
      CountsRunning(nodes, q, cp, s, th);
      RemoveTransactionAndUpdate(j);
      CompleteOk(nodes, q, cp, s.(time := time'), th, tempParents, txnsWithoutParent);
    }

    /** Simulate `k` threads: repeatedly assign ready transactions and pop the earliest completion. */
    method SimulateParallelExecution(k: nat) returns (makespan: nat, order: seq<Entry>)
      requires k >= 1 && Linked(nodes) && Acyclic(nodes)
      modifies this
      ensures SameGraph(old(nodes), nodes) && Linked(nodes) && Acyclic(nodes) && Suffixes(nodes)
      ensures Makespan(nodes, k, order, makespan) && AtSomeEnd(order, makespan) && Prioritised(nodes, order)
    {
      hide SimOk, Favours, AtSomeEnd, Prioritised;
      ghost var rank :| Ranked(nodes, rank);
      ghost var g := nodes;
      UpdateLongestSuffixPostorder(rank);
      SameGraphKeeps(g, nodes, rank);
      var counted := nodes;
      tempParents := seq(|counted|, i requires 0 <= i < |counted| => |counted[i].parents|);
      var threads := seq(k, _ => Idle);
      order, makespan := [], 0;
      ghost var q, started: set<nat>, done: set<nat> := k - 1, {}, {};
      ghost var cp := LargestSuffix(nodes);
      InitOk(nodes, q, cp, Now(0, threads, order, started, done));
      makespan, order := RunThreads(threads, q, cp);
    }

    /** The main loop, from idle threads at time 0. */
    method RunThreads(idle: seq<Thread>, ghost q: nat, ghost cp: nat) returns (makespan: nat, order: seq<Entry>)
      requires SimOk(nodes, q, cp, Now(0, idle, [], {}, {}))
      modifies this`tempParents, this`txnsWithoutParent
      ensures Makespan(nodes, q + 1, order, makespan) && AtSomeEnd(order, makespan) && Prioritised(nodes, order)
    {
      hide SimOk, Favours, AtSomeEnd, Prioritised, Makespan;
      var threads := idle;
      order, makespan := [], 0;
      ghost var started: set<nat>, done: set<nat> := {}, {};
      FavoursNone(nodes);
      while true
        invariant SimOk(nodes, q, cp, Now(makespan, threads, order, started, done)) && Favours(nodes, order, started)
        invariant AtSomeEnd(order, makespan)
        decreases |Below(|nodes|) - done| + |Below(|nodes|) - started|
      {
        ghost var started0, done0, order0 := started, done, order;
        var assignedAny;
        threads, order, assignedAny, started := AssignIdle(makespan, threads, order, q, cp, started, done);
        EndStays(order0, order, makespan);
        Progress(nodes, q, cp, Now(makespan, threads, order, started, done), started0, done0);
        if assignedAny && txnsWithoutParent != {} {
          continue;
        }
        var found, th := EarliestCompletion(threads);
        if !found {
          FinishedOk(nodes, q, cp, Now(makespan, threads, order, started, done));
          IsPrioritised(nodes, order, started);
          break;
        }
        makespan, threads, done := CompleteNext(th, makespan, threads, order, q, cp, started, done);
        Progress(nodes, q, cp, Now(makespan, threads, order, started, done), started0, done0);
      }
    }
  }

  lemma AddedParent(g: Nodes, node: Node, index: map<TransactionId, nat>, before: Nodes, after: Nodes,
                    parents: set<TransactionId>, todo: set<TransactionId>, parent: TransactionId)
    requires Indexed(g, index) && SameNodes(g + [node], before) && SameNodes(before, after) && parent in todo
      && todo <= parents && parent in index
    requires node.txId !in index && forall id :: id in parents ==> id in index
    requires forall x: nat, y: nat :: Edge(before, x, y) <==>
      Edge(g, x, y) || (y == |g| && x < |g| && g[x].txId in parents - todo)
    requires forall x: nat, y: nat :: Edge(after, x, y) <==> Edge(before, x, y) || (x == index[parent] && y == |g|)
    ensures SameNodes(g + [node], after)
    ensures forall x: nat, y: nat :: Edge(after, x, y) <==>
      Edge(g, x, y) || (y == |g| && x < |g| && g[x].txId in parents - (todo - {parent}))
  {
    forall x: nat | x < |g| ensures g[x].txId == parent <==> x == index[parent] {
    }
  }

  lemma Unbridged(g: Nodes, h: Nodes)
    requires Linked(Joined(g, h))
    ensures Bridging(g, h, {}, Joined(g, h))
  {
    var j := Joined(g, h);
    forall x: nat, y: nat ensures Edge(j, x, y) <==> JoinedEdge(g, h, x, y) {
      JoinedEdges(g, h, x, y);
    }
  }

  ghost predicate SameEnds(head: map<nat, TransactionId>, tail: map<nat, TransactionId>, head': map<nat,
                           TransactionId>, tail': map<nat, TransactionId>, a: nat) {
    && (a in head <==> a in head') && (a in head ==> head[a] == head'[a])
    && (a in tail <==> a in tail') && (a in tail ==> tail[a] == tail'[a])
  }

  lemma NotCommon(g: Nodes, h: Nodes, index: map<TransactionId, nat>, indexH: map<TransactionId, nat>, head: map<nat,
                  TransactionId>, tail: map<nat, TransactionId>,
                  headH: map<nat, TransactionId>, tailH: map<nat, TransactionId>, a: nat)
    requires Ends(g, index, head, tail, a) && Ends(h, indexH, headH, tailH, a) && !(a in tail && a in headH)
    ensures forall x: nat, y: nat :: !BridgeAt(g, h, a, x, y)
  {
  }

  /** Outside `todo` the ends are those of the merged graph, inside they are still the old ones. */
  ghost predicate EndsMergedExcept(head: map<nat, TransactionId>, tail: map<nat, TransactionId>, headH: map<nat,
                                   TransactionId>, tailH: map<nat, TransactionId>,
                                   head': map<nat, TransactionId>, tail': map<nat, TransactionId>, todo: set<nat>) {
    && (forall a :: a in todo ==> SameEnds(head, tail, head', tail', a))
    && (forall a :: a !in todo ==> MergedEndsAt(head, tail, headH, tailH, head', tail', a))
  }

  lemma EndsUnmerged(head: map<nat, TransactionId>, tail: map<nat, TransactionId>, headH: map<nat, TransactionId>,
                     tailH: map<nat, TransactionId>, all: set<nat>)
    requires all == head.Keys + tail.Keys + headH.Keys + tailH.Keys
    ensures EndsMergedExcept(head, tail, headH, tailH, head, tail, all)
  {
  }

  lemma EndsMergedStep(head: map<nat, TransactionId>, tail: map<nat, TransactionId>, headH: map<nat, TransactionId>,
                       tailH: map<nat, TransactionId>,
                       head1: map<nat, TransactionId>, tail1: map<nat, TransactionId>, head2: map<nat, TransactionId>,
                         tail2: map<nat, TransactionId>, todo: set<nat>, a: nat)
    requires EndsMergedExcept(head, tail, headH, tailH, head1, tail1, todo)
      && MergedEndsAt(head, tail, headH, tailH, head2, tail2, a)
    requires forall b :: b != a ==> SameEnds(head1, tail1, head2, tail2, b)
    ensures EndsMergedExcept(head, tail, headH, tailH, head2, tail2, todo - {a})
  {
    forall b | b !in todo - {a} ensures MergedEndsAt(head, tail, headH, tailH, head2, tail2, b) {
      if b != a {
        assert SameEnds(head1, tail1, head2, tail2, b) && MergedEndsAt(head, tail, headH, tailH, head1, tail1, b);
      }
    }
    forall b | b in todo - {a} ensures SameEnds(head, tail, head2, tail2, b) {
      assert SameEnds(head1, tail1, head2, tail2, b) && SameEnds(head, tail, head1, tail1, b);
    }
  }

  lemma OnlyCommonBridges(g: Nodes, h: Nodes, index: map<TransactionId, nat>, head: map<nat, TransactionId>,
                          tail: map<nat, TransactionId>, all: set<nat>)
    requires (forall a :: Ends(g, index, head, tail, a)) && tail.Keys <= all
    ensures forall a, x: nat, y: nat :: BridgeAt(g, h, a, x, y) ==> a in all
  {
    forall a, x: nat, y: nat | BridgeAt(g, h, a, x, y) ensures a in all {
      assert Ends(g, index, head, tail, a);
    }
  }

  // ---------------------------------------------------------------- the depth-first search

  /** A visited node whose children are visited and whose suffix is final. */
  ghost predicate DoneAt(g: Nodes, visited: seq<bool>, j: nat)
    requires j < |g| == |visited|
  {
    SuffixAt(g, j) && forall c :: c in g[j].children && c < |g| ==> visited[c]
  }

  ghost predicate AllDoneFrom(g: Nodes, visited: seq<bool>, r: nat, rank: seq<nat>)
    requires |g| == |visited| == |rank|
  {
    forall j: nat :: j < |g| && visited[j] && rank[j] >= r ==> DoneAt(g, visited, j)
  }

  /** The search of `i` may start: nothing at or above its rank is unfinished. */
  ghost predicate Searchable(g: Nodes, visited: seq<bool>, i: nat, rank: seq<nat>) {
    Linked(g) && Ranked(g, rank) && i < |g| == |visited| && AllDoneFrom(g, visited, rank[i], rank)
  }

  /** Visited nodes stay as they are. */
  ghost predicate Untouched(g: Nodes, seen: seq<bool>, g': Nodes, seen': seq<bool>)
    requires |g| == |seen| == |seen'| == |g'|
  {
    forall j: nat :: j < |g| && seen[j] ==> seen'[j] && g'[j] == g[j]
  }

  ghost predicate OnlyAbove(seen: seq<bool>, seen': seq<bool>, r: nat, rank: seq<nat>)
    requires |seen| == |seen'| == |rank|
  {
    forall j: nat :: j < |seen| && seen'[j] && !seen[j] ==> rank[j] >= r
  }

  ghost predicate Searched(g: Nodes, seen: seq<bool>, g': Nodes, seen': seq<bool>, i: nat, rank: seq<nat>) {
    && i < |g| == |seen| == |seen'| == |rank| && SameGraph(g, g') && seen'[i]
    && Untouched(g, seen, g', seen') && OnlyAbove(seen, seen', rank[i], rank) && AllDoneFrom(g', seen', rank[i], rank)
  }

  /** Inside the search of `i`: what was visited before is untouched, what is new lies above `i` and is done. */
  ghost predicate Dfs(g: Nodes, seen: seq<bool>, g': Nodes, seen': seq<bool>, i: nat, rank: seq<nat>) {
    && i < |g| == |seen| == |seen'| == |rank| && SameGraph(g, g') && !seen[i] && seen'[i]
    && Untouched(g, seen, g', seen') && OnlyAbove(seen, seen', rank[i], rank)
    && forall j: nat :: j < |g| && seen'[j] && rank[j] >= rank[i] && j != i ==> DoneAt(g', seen', j)
  }

  ghost predicate Largest(g: Nodes, visited: seq<bool>, children: seq<nat>, k: nat, max: nat) {
    && k <= |children| && |visited| == |g|
    && (forall x :: 0 <= x < k && children[x] < |g| ==> visited[children[x]] && g[children[x]].suffix <= max)
    && (max == 0 || exists x :: 0 <= x < k && children[x] < |g| && g[children[x]].suffix == max)
  }

  lemma SameGraphKeeps(g: Nodes, g': Nodes, rank: seq<nat>)
    requires SameGraph(g, g') && Linked(g) && Ranked(g, rank)
    ensures Linked(g') && Ranked(g', rank)
  {
  }

  lemma DoneStays(g: Nodes, seen: seq<bool>, g': Nodes, seen': seq<bool>, j: nat)
    requires j < |g| == |seen| == |seen'| && SameGraph(g, g') && DoneAt(g, seen, j) && seen[j]
      && Untouched(g, seen, g', seen')
    ensures DoneAt(g', seen', j)
  {
    assert g'[j] == g[j];
    if g[j].suffix != g[j].gas {
      var c :| c in g[j].children && c < |g| && g[j].suffix == g[j].gas + g[c].suffix;
      assert g'[c] == g[c];
    }
  }

  lemma DfsStart(g: Nodes, seen: seq<bool>, i: nat, rank: seq<nat>)
    requires Searchable(g, seen, i, rank) && !seen[i]
    ensures Dfs(g, seen, g, seen[i := true], i, rank)
  {
    forall j: nat | j < |g| && seen[j] && rank[j] >= rank[i] ensures DoneAt(g, seen[i := true], j) {
      DoneStays(g, seen, g, seen[i := true], j);
    }
  }

  /** A child may be searched. */
  lemma DfsChild(g: Nodes, seen: seq<bool>, g': Nodes, seen': seq<bool>, i: nat, child: nat, rank: seq<nat>)
    requires Dfs(g, seen, g', seen', i, rank) && Linked(g) && Ranked(g, rank) && child in g[i].children
    ensures child < |g| && rank[i] < rank[child] && Searchable(g', seen', child, rank)
  {
    SameGraphKeeps(g, g', rank);
  }

  lemma DfsStep(g: Nodes, seen: seq<bool>, g1: Nodes, seen1: seq<bool>, g2: Nodes, seen2: seq<bool>, i: nat,
                child: nat, rank: seq<nat>)
    requires Dfs(g, seen, g1, seen1, i, rank) && child < |g| && rank[i] < rank[child]
    requires Searched(g1, seen1, g2, seen2, child, rank)
    ensures Dfs(g, seen, g2, seen2, i, rank)
  {
    forall j: nat | j < |g| && seen2[j] && rank[j] >= rank[i] && j != i ensures DoneAt(g2, seen2, j) {
      if seen1[j] {
        DoneStays(g1, seen1, g2, seen2, j);
      }
    }
  }

  lemma LargestStep(g: Nodes, g': Nodes, seen: seq<bool>, seen': seq<bool>, children: seq<nat>, k: nat, max: nat,
                    s: nat)
    requires Largest(g, seen, children, k, max) && k < |children| && |g| == |g'| == |seen| == |seen'|
      && Untouched(g, seen, g', seen')
    requires children[k] < |g| && g'[children[k]].suffix == s && seen'[children[k]]
    ensures Largest(g', seen', children, k + 1, if s > max then s else max)
  {
    if max != 0 {
      var x :| 0 <= x < k && children[x] < |g| && g[children[x]].suffix == max;
      assert g'[children[x]].suffix == max;
    }
  }

  lemma DfsFinish(g: Nodes, seen: seq<bool>, g1: Nodes, seen1: seq<bool>, g2: Nodes, i: nat, max: nat, rank: seq<nat>)
    requires Dfs(g, seen, g1, seen1, i, rank) && Linked(g) && Ranked(g, rank)
      && Largest(g1, seen1, g[i].children, |g[i].children|, max)
    requires g2 == g1[i := g1[i].(suffix := g1[i].gas + max)]
    ensures Searched(g, seen, g2, seen1, i, rank)
  {
    forall j: nat | j < |g| && seen1[j] && rank[j] >= rank[i] ensures DoneAt(g2, seen1, j) {
      if j == i {
        FinishedSuffix(g1, seen1, g2, i, max, rank);
      } else {
        assert i !in g[j].children;
        OtherSuffix(g1, g2, i, j);
      }
    }
  }

  /** A node that does not have `i` as a child keeps its suffix when that of `i` changes. */
  lemma OtherSuffix(g1: Nodes, g2: Nodes, i: nat, j: nat)
    requires i < |g1| && j < |g1| && i != j && i !in g1[j].children && SuffixAt(g1, j) && |g1| == |g2|
    requires forall x :: 0 <= x < |g1| && x != i ==> g2[x] == g1[x]
    ensures SuffixAt(g2, j)
  {
    if g1[j].suffix != g1[j].gas {
      var c :| c in g1[j].children && c < |g1| && g1[j].suffix == g1[j].gas + g1[c].suffix;
      assert g2[c] == g1[c];
    }
  }

  lemma FinishedSuffix(g1: Nodes, seen1: seq<bool>, g2: Nodes, i: nat, max: nat, rank: seq<nat>)
    requires i < |g1| == |rank| == |seen1| && Largest(g1, seen1, g1[i].children, |g1[i].children|, max)
      && i !in g1[i].children
    requires g2 == g1[i := g1[i].(suffix := g1[i].gas + max)]
    ensures DoneAt(g2, seen1, i)
  {
    var children := g1[i].children;
    forall c | c in children && c < |g2| ensures g2[i].suffix >= g2[i].gas + g2[c].suffix && seen1[c] {
      var x :| 0 <= x < |children| && children[x] == c;
    }
    if max != 0 {
      var x :| 0 <= x < |children| && children[x] < |g1| && g1[children[x]].suffix == max;
      assert children[x] in children && g2[children[x]].suffix == max;
    }
  }

  lemma RootDone(g: Nodes, seen: seq<bool>, g': Nodes, seen': seq<bool>, r: nat, rank: seq<nat>)
    requires |g| == |seen| == |rank| && AllDoneFrom(g, seen, 0, rank) && Searched(g, seen, g', seen', r, rank)
    ensures AllDoneFrom(g', seen', 0, rank)
  {
    forall j: nat | j < |g| && seen'[j] ensures DoneAt(g', seen', j) {
      if seen[j] {
        DoneStays(g, seen, g', seen', j);
      }
    }
  }

  /** Every node is reached from a root. */
  lemma {:induction false} AllVisited(g: Nodes, visited: seq<bool>, rank: seq<nat>, i: nat)
    requires Linked(g) && Ranked(g, rank) && i < |g| == |visited| && AllDoneFrom(g, visited, 0, rank)
    requires forall r: nat :: r < |g| && g[r].parents == [] ==> visited[r]
    ensures visited[i]
    decreases rank[i]
  {
    if g[i].parents != [] {
      var p := g[i].parents[0];
      ParentLink(g, p, i);
      AllVisited(g, visited, rank, p);
      assert DoneAt(g, visited, p);
    }
  }

  ghost predicate ChildOfFirst(g: Nodes, k: nat, c: nat)
    requires k <= |g|
  {
    exists p :: 0 <= p < k && c in g[p].children
  }

  // ---------------------------------------------------------------- the simulation loop

  /** The thread whose transaction ends first. */
  method EarliestCompletion(threads: seq<Thread>) returns (found: bool, th: nat)
    ensures found <==> SomeBusy(threads)
    ensures found ==> th < |threads| && threads[th].Busy? && forall u :: 0 <= u < |threads| && threads[u].Busy? ==>
      threads[th].end <= threads[u].end
  {
    found, th := false, 0;
    for u := 0 to |threads|
      invariant found <==> exists x :: 0 <= x < u && threads[x].Busy?
      invariant found ==> th < u && threads[th].Busy? && forall x :: 0 <= x < u && threads[x].Busy? ==>
        threads[th].end <= threads[x].end
    {
      if threads[u].Busy? && (!found || threads[u].end < threads[th].end) {
        found, th := true, u;
      }
    }
  }

  ghost predicate SimOk(g: Nodes, q: nat, cp: nat, s: Sim) {
    && Linked(g) && Acyclic(g) && Suffixes(g) && IsLargestSuffix(g, cp)
    && |s.threads| == q + 1 && Sched(g, s) && Bounded(g, q, cp, s)
  }

  ghost function LargestSuffix(g: Nodes): (cp: nat)
    ensures IsLargestSuffix(g, cp)
  {
    if g == [] then 0
    else
      var m := LargestSuffix(g[..|g| - 1]);
      var r := if g[|g| - 1].suffix > m then g[|g| - 1].suffix else m;
      assert |g| == 1 || exists i :: 0 <= i < |g| - 1 && g[..|g| - 1][i].suffix == m && g[i].suffix == m;
      assert forall i :: 0 <= i < |g| - 1 ==> g[..|g| - 1][i] == g[i];
      r
  }

  lemma InitOk(g: Nodes, q: nat, cp: nat, s: Sim)
    requires Linked(g) && Acyclic(g) && Suffixes(g) && IsLargestSuffix(g, cp)
    requires |s.threads| == q + 1 && |s.remaining| == |g| && forall i: nat :: i < |g| ==>
      s.remaining[i] == |g[i].parents|
    requires forall i: nat :: i in s.ready <==> i < |g| && g[i].parents == []
    requires forall th :: 0 <= th < |s.threads| ==> s.threads[th].Idle?
    requires s.time == 0 && s.order == [] && s.started == {} && s.done == {}
    ensures SimOk(g, q, cp, s)
  {
    hide Bounded, Linked, Acyclic, Suffixes, IsLargestSuffix;
    InitTracked(g, s);
    InitBounded(g, q, cp, s);
  }

  lemma InitTracked(g: Nodes, s: Sim)
    requires |s.remaining| == |g| && forall i: nat :: i < |g| ==> s.remaining[i] == |g[i].parents|
    requires forall i: nat :: i in s.ready <==> i < |g| && g[i].parents == []
    requires s.started == {} && s.done == {}
    ensures Tracked(g, s)
  {
    forall i: nat | i < |g| ensures s.remaining[i] == Undone(g[i].parents, {})
      && (i in s.ready <==> AllDone(g[i].parents, {})) {
      UndoneAll(g[i].parents);
      UndoneZero(g[i].parents, {});
    }
  }

  lemma AssignOk(g: Nodes, q: nat, cp: nat, s: Sim, th: nat, i: nat)
    requires SimOk(g, q, cp, s) && th < |s.threads| && s.threads[th].Idle? && i in s.ready
    ensures i < |g| && i !in s.started && SimOk(g, q, cp, Assign(g, s, th, i))
  {
    AssignTracked(g, s, th, i);
    AssignLogged(g, s, th, i);
    AssignOrdered(g, s, th, i);
    AssignBounded(g, q, cp, s, th, i);
  }

  /** Every child of a running transaction still counts it, and the end of the transaction is logged. */
  lemma CountsRunning(g: Nodes, q: nat, cp: nat, s: Sim, th: nat)
    requires SimOk(g, q, cp, s) && th < |s.threads| && s.threads[th].Busy?
    ensures s.threads[th].tx < |g| && Linked(g) && |s.remaining| == |g| && AtSomeEnd(s.order, s.threads[th].end)
    ensures forall c :: c in g[s.threads[th].tx].children ==> c < |g| && s.remaining[c] > 0
  {
    var j := s.threads[th].tx;
    assert Running(s, th);
    assert EntryOk(g, s, Entry(th, j, s.threads[th].start, s.threads[th].end));
    forall c | c in g[j].children ensures c < |g| && s.remaining[c] > 0 {
      CountsRunningParent(g, s, j, c);
    }
  }

  lemma FavoursNext(g: Nodes, q: nat, cp: nat, s: Sim, th: nat, i: nat)
    requires SimOk(g, q, cp, s) && Favours(g, s.order, s.started) && th < |s.threads| && i in s.ready
    requires forall x :: x in s.ready ==> x < |g| && g[x].suffix <= g[i].suffix
    ensures Favours(g, Assign(g, s, th, i).order, Assign(g, s, th, i).started)
  {
    AssignFavours(g, s, th, i);
  }

  lemma ReadyInRange(g: Nodes, q: nat, cp: nat, s: Sim)
    requires SimOk(g, q, cp, s)
    ensures forall x :: x in s.ready ==> x < |g|
  {
  }

  lemma FinishedOk(g: Nodes, q: nat, cp: nat, s: Sim)
    requires SimOk(g, q, cp, s) && !SomeBusy(s.threads) && (s.ready == {} || AllBusy(s.threads))
    ensures Makespan(g, q + 1, s.order, s.time)
  {
    assert s.threads[0].Idle?;
    FinishedIsBounded(g, q, cp, s);
  }

  lemma RunningFacts(g: Nodes, q: nat, cp: nat, s: Sim, th: nat)
    requires SimOk(g, q, cp, s) && th < |s.threads| && s.threads[th].Busy?
    ensures s.threads[th].tx < |g| && s.threads[th].tx !in s.done
      && s.threads[th].end == s.threads[th].start + g[s.threads[th].tx].gas
    ensures s.time <= s.threads[th].end
  {
    assert Running(s, th);
    assert EntryOk(g, s, Entry(th, s.threads[th].tx, s.threads[th].start, s.threads[th].end));
  }

  lemma AdvanceOk(g: Nodes, q: nat, cp: nat, s: Sim, t: nat)
    requires SimOk(g, q, cp, s) && s.time <= t && NoneEndsBefore(s, t) && SomeBusy(s.threads)
      && (s.ready == {} || AllBusy(s.threads))
    ensures SimOk(g, q, cp, s.(time := t))
  {
    AdvanceSched(g, s, t);
    if AllBusy(s.threads) {
      AdvanceFull(g, q, cp, s, t);
    } else {
      AdvanceIdle(g, q, cp, s, t);
    }
  }

  lemma CompleteOk(g: Nodes, q: nat, cp: nat, s: Sim, th: nat, remaining: seq<nat>, ready: set<nat>)
    requires SimOk(g, q, cp, s) && th < |s.threads| && s.threads[th].Busy? && s.threads[th].end == s.time
    requires s.threads[th].tx < |g| && Released(g, s.threads[th].tx, s.remaining, s.ready, remaining, ready)
    ensures SimOk(g, q, cp, Complete(s, th, remaining, ready))
  {
    RunningFacts(g, q, cp, s, th);
    CompleteTracked(g, s, th, remaining, ready);
    CompleteLogged(g, s, th, remaining, ready);
    CompleteBounded(g, q, cp, s, th, remaining, ready);
  }

  /** Starting or completing a transaction brings the simulation closer to its end. */
  lemma Progress(g: Nodes, q: nat, cp: nat, s: Sim, started: set<nat>, done: set<nat>)
    requires SimOk(g, q, cp, s) && started <= s.started && done <= s.done
    ensures |Below(|g|) - s.done| + |Below(|g|) - s.started| <= |Below(|g|) - done| + |Below(|g|) - started|
    ensures started != s.started || done != s.done ==>
      |Below(|g|) - s.done| + |Below(|g|) - s.started| < |Below(|g|) - done| + |Below(|g|) - started|
  {
    var all := Below(|g|);
    Shrinks(all, done, s.done);
    Shrinks(all, started, s.started);
  }

  lemma Shrinks(all: set<nat>, a: set<nat>, b: set<nat>)
    requires a <= b <= all
    ensures |all - b| <= |all - a| && (a != b ==> |all - b| < |all - a|)
  {
    assert all - a == (all - b) + (b - a);
    assert a != b ==> b - a != {};
  }

  /** A pure reader between two writers becomes the tail, so the writers end up without any edge. */
  method ReaderBetweenWriters(a: nat) returns (graph: TransactionGraph)
    ensures fresh(graph) && graph.Valid() && OnlyConflicts(graph.nodes) && |graph.nodes| == 3
    ensures a in graph.nodes[0].writeSet && a in graph.nodes[1].readSet && a in graph.nodes[2].writeSet
    ensures forall x: nat, y: nat :: !Edge(graph.nodes, x, y)
  {
    graph := new TransactionGraph();
    var writer := Node(TransactionId(0, 0), 1, {}, {a}, 1, [], []);
    var added := graph.AddTransaction(writer);
    NoNewEdges([], writer, graph.nodes);
    var reader := Node(TransactionId(1, 0), 1, {a}, {}, 1, [], []);
    ghost var g1 := graph.nodes;
    added := graph.AddTransaction(reader);
    NoNewEdges(g1, reader, graph.nodes);
    var last := Node(TransactionId(2, 0), 1, {}, {a}, 1, [], []);
    ghost var g2 := graph.nodes;
    added := graph.AddTransaction(last);
    forall x: nat ensures !NewParent(g2, last, x) {
      assert Touches(g2[1], a) && !Conflict(g2[1], last);
    }
    NoNewEdges(g2, last, graph.nodes);
  }

  lemma NoNewEdges(g: Nodes, n: Node, g': Nodes)
    requires Extended(g, n, g') && (forall x: nat :: !NewParent(g, n, x)) && forall x: nat, y: nat :: !Edge(g, x, y)
    ensures |g'| == |g| + 1 && forall x: nat, y: nat :: !Edge(g', x, y)
    ensures g'[|g|].readSet == n.readSet && g'[|g|].writeSet == n.writeSet && g'[|g|].txId == n.txId
    ensures forall i :: 0 <= i < |g| ==>
      g'[i].readSet == g[i].readSet && g'[i].writeSet == g[i].writeSet && g'[i].txId == g[i].txId
  {
    assert (g + [n])[|g|] == n;
    assert forall i :: 0 <= i < |g| ==> (g + [n])[i] == g[i];
  }

  lemma NoBridges(g: Nodes, h: Nodes)
    ensures Bridges(g, h, {}) == {}
  {
  }

  lemma SameSize(g: Nodes, g': Nodes)
    requires SameNodes(g, g')
    ensures |g'| == |g|
  {
  }

  lemma SameNodesAlways(g: Nodes)
    ensures SameNodes(g, g)
  {
  }

  lemma SameAsJoined(g: Nodes, h: Nodes)
    ensures SameNodes(Joined(g, h), Joined(g, h))
  {
  }

  lemma SameNodesOn(g: Nodes, g': Nodes, g'': Nodes)
    requires SameNodes(g, g') && SameNodes(g', g'')
    ensures SameNodes(g, g'')
  {
  }

  lemma JoinedInBounds(g: Nodes, h: Nodes, index: map<TransactionId, nat>, indexH: map<TransactionId, nat>,
                       index': map<TransactionId, nat>)
    requires Indexed(g, index) && Indexed(h, indexH) && MergedIndex(index, indexH, |g|, index')
    ensures InBounds(Joined(g, h), index')
  {
  }

  /** A common transaction has two nodes, and the index knows one of them. */
  lemma CommonId(g: Nodes, h: Nodes, g': Nodes, index: map<TransactionId, nat>, indexH: map<TransactionId, nat>,
                 index': map<TransactionId, nat>)
    requires SameNodes(Joined(g, h), g') && Indexed(g, index) && Indexed(h, indexH) && !(index.Keys !! indexH.Keys)
    ensures !Indexed(g', index')
  {
    var id :| id in index && id in indexH;
    MergedId(g, h, g', index[id]);
    MergedId(g, h, g', |g| + indexH[id]);
  }

  lemma MergedBuilt(g: Nodes, h: Nodes, g': Nodes, index: map<TransactionId, nat>, indexH: map<TransactionId, nat>,
                    index': map<TransactionId, nat>, head: map<nat, TransactionId>, tail: map<nat, TransactionId>,
                    headH: map<nat, TransactionId>, tailH: map<nat, TransactionId>, head': map<nat, TransactionId>,
                    tail': map<nat, TransactionId>, cuts: set<Cut>, cutsH: set<Cut>)
    requires Built(g, index, head, tail, cuts) && Built(h, indexH, headH, tailH, cutsH) && index.Keys !! indexH.Keys
    requires Linked(g') && Merged(g, h, g') && MergedIndex(index, indexH, |g|, index')
    requires forall a :: MergedEndsAt(head, tail, headH, tailH, head', tail', a)
    ensures Built(g', index', head', tail', MergedCuts(g, h, cuts, cutsH))
  {
    hide Ends, Chained, MergedCuts, MergedEndsAt, MergedIndex, Linked, Indexed, Ascending;
    MergedChained(g, h, g', cuts, cutsH);
    MergedIndexed(g, h, g', index, indexH, index');
    forall a ensures Ends(g', index', head', tail', a) {
      assert Ends(g, index, head, tail, a) && Ends(h, indexH, headH, tailH, a);
      MergedEnds(g, h, g', index, indexH, index', head, tail, headH, tailH, head', tail', a);
    }
  }

  lemma BridgeInBounds(g: Nodes, h: Nodes, s: set<nat>, g': Nodes, a: nat, index: map<TransactionId, nat>,
                       last: TransactionId, first: TransactionId)
    requires Bridging(g, h, s, g') && Indexed(g', index) && last in index && first in index
    requires index[first] >= |g| && IsLast(g, a, index[last])
    ensures index[last] < |g| <= index[first] < |g'|
  {
  }

  lemma IndexedSame(g: Nodes, g': Nodes, index: map<TransactionId, nat>)
    requires SameNodes(g, g') && Indexed(g, index)
    ensures Indexed(g', index)
  {
  }

  lemma NothingAdded(g: Nodes, p: nat, c: nat)
    requires p < |g| && c in g[p].children
    ensures SameNodes(g, g) && forall x: nat, y: nat :: Edge(g, x, y) <==> Edge(g, x, y) || (x == p && y == c)
  {
  }
}

/** `greedy_decent_integration_with_indices`: groups of graphs merged in integration order.
    The floating-point and hot-key decisions are an arbitrary function of the group so far and the candidate. */
module GreedyIntegrator {
  import opened Collections
  import opened GraphModel
  import opened GraphMerging
  import opened DependencyGraph

  const MAX_GROUP := 11

  /** What is decided about a candidate: the group is good enough, they share hot keys, or the merge is tried. */
  datatype Verdict = Stop | CommonHotKeys | Reject | Accept

  function Ids(g: Nodes): seq<TransactionId> {
    seq(|g|, i requires 0 <= i < |g| => g[i].txId)
  }

  function Upto(n: nat): seq<nat> {
    seq(n, i => i)
  }

  ghost predicate AllValid(graphs: seq<TransactionGraph>)
    reads graphs
  {
    && (forall i :: 0 <= i < |graphs| ==> graphs[i].Valid())
    && forall i, j :: 0 <= i < |graphs| && 0 <= j < |graphs| && i != j ==>
       graphs[i].idToIndex.Keys !! graphs[j].idToIndex.Keys
  }

  /** The transactions of the listed graphs, one graph after the other. */
  ghost function Concatenated(graphs: seq<TransactionGraph>, sources: seq<nat>): seq<TransactionId>
    requires forall x :: 0 <= x < |sources| ==> sources[x] < |graphs|
    reads graphs
  {
    if sources == [] then []
    else Concatenated(graphs, sources[..|sources| - 1]) + Ids(graphs[sources[|sources| - 1]].nodes)
  }

  lemma {:induction false} ConcatenatedHas(graphs: seq<TransactionGraph>, sources: seq<nat>, id: TransactionId)
    requires forall x :: 0 <= x < |sources| ==> sources[x] < |graphs|
    requires AllValid(graphs) && id in Concatenated(graphs, sources)
    ensures exists x :: 0 <= x < |sources| && id in graphs[sources[x]].idToIndex
  {
    var last := sources[|sources| - 1];
    if id in Ids(graphs[last].nodes) {
      var k :| 0 <= k < |graphs[last].nodes| && graphs[last].nodes[k].txId == id;
      assert graphs[last].Valid();
    } else {
      var front := sources[..|sources| - 1];
      ConcatenatedHas(graphs, front, id);
      var x :| 0 <= x < |front| && id in graphs[front[x]].idToIndex;
      assert sources[x] == front[x];
    }
  }

  lemma MergedIds(g: Nodes, h: Nodes, g': Nodes)
    requires Merged(g, h, g')
    ensures Ids(g') == Ids(g) + Ids(h)
  {
  }

  /** A group whose transactions come from other graphs shares no transaction with a further graph. */
  lemma GroupDisjoint(graphs: seq<TransactionGraph>, sources: seq<nat>, g: TransactionGraph, next: nat)
    requires AllValid(graphs) && g.Valid() && next < |graphs| && next !in sources
    requires forall x :: 0 <= x < |sources| ==> sources[x] < |graphs|
    requires Ids(g.nodes) == Concatenated(graphs, sources)
    ensures g.idToIndex.Keys !! graphs[next].idToIndex.Keys
  {
    forall id | id in g.idToIndex ensures id !in graphs[next].idToIndex {
      assert Ids(g.nodes)[g.idToIndex[id]] == id;
      ConcatenatedHas(graphs, sources, id);
      var x :| 0 <= x < |sources| && id in graphs[sources[x]].idToIndex;
      assert sources[x] in sources;
    }
  }

  ghost predicate InRange(graphs: seq<TransactionGraph>, q: seq<nat>) {
    forall x :: 0 <= x < |q| ==> q[x] < |graphs|
  }

  /** The entries of `l` at the given positions. */
  function Picked(l: seq<nat>, positions: seq<nat>): seq<nat>
    requires forall x :: 0 <= x < |positions| ==> positions[x] < |l|
  {
    seq(|positions|, x requires 0 <= x < |positions| => l[positions[x]])
  }

  ghost predicate Descending(positions: seq<nat>, lo: nat, hi: nat) {
    && (forall x :: 0 <= x < |positions| ==> lo <= positions[x] < hi)
    && forall x, y :: 0 <= x < y < |positions| ==> positions[x] > positions[y]
  }

  /** A group lists at most 11 graphs, and its graph holds their transactions in that order. */
  ghost predicate GroupOk(graphs: seq<TransactionGraph>, g: TransactionGraph, sources: seq<nat>)
    reads graphs, g
  {
    && InRange(graphs, sources) && 1 <= |sources| <= MAX_GROUP
    && g.Valid() && Ids(g.nodes) == Concatenated(graphs, sources)
  }

  lemma NotPicked(first: nat, l: seq<nat>, positions: seq<nat>, i: nat)
    requires Distinct([first] + l) && i < |l| && Descending(positions, i + 1, |l|)
    ensures l[i] !in [first] + Picked(l, positions)
  {
    var q := [first] + l;
    assert q[0] == first && q[i + 1] == l[i];
    forall x | 0 <= x < |positions| ensures l[positions[x]] != l[i] {
      assert q[positions[x] + 1] == l[positions[x]];
    }
  }

  /** `p` was not taken, and came after the first `x` of those that were. */
  ghost predicate Between(positions: seq<nat>, x: nat, p: nat) {
    && x <= |positions| && (forall y :: 0 <= y < x ==> positions[y] > p)
    && forall y :: x <= y < |positions| ==> positions[y] < p
  }

  /** From the end of the list down to `low`, a candidate was taken if and only if it is accepted into what was taken
      before it. */
  ghost predicate Choosing(decide: (seq<nat>, nat) -> Verdict, first: nat, l: seq<nat>, positions: seq<nat>, low: nat) {
    && low <= |l| && Descending(positions, low, |l|) && 1 + |positions| <= MAX_GROUP
    && (forall x :: 0 <= x < |positions| ==>
          decide([first] + Picked(l, positions[..x]), l[positions[x]]).Accept?)
    && (forall p, x: nat :: low <= p < |l| && Between(positions, x, p) ==>
          var v := decide([first] + Picked(l, positions[..x]), l[p]); v.CommonHotKeys? || v.Reject?)
  }

  /** It went on until the list ended, the group was good enough, or it had 11 members. */
  ghost predicate Chosen(decide: (seq<nat>, nat) -> Verdict, first: nat, l: seq<nat>, positions: seq<nat>, low: nat) {
    && Choosing(decide, first, l, positions, low)
    && (low == 0 || 1 + |positions| == MAX_GROUP || decide([first] + Picked(l, positions), l[low - 1]).Stop?)
  }

  lemma Refuses(decide: (seq<nat>, nat) -> Verdict, first: nat, l: seq<nat>, positions: seq<nat>, i: nat)
    requires i < |l| && Choosing(decide, first, l, positions, i + 1)
    requires var v := decide([first] + Picked(l, positions), l[i]); v.CommonHotKeys? || v.Reject?
    ensures Choosing(decide, first, l, positions, i)
  {
    forall x: nat | Between(positions, x, i) ensures positions[..x] == positions {
    }
  }

  lemma Takes(decide: (seq<nat>, nat) -> Verdict, first: nat, l: seq<nat>, positions: seq<nat>, i: nat)
    requires i < |l| && Choosing(decide, first, l, positions, i + 1) && 1 + |positions| < MAX_GROUP
    requires decide([first] + Picked(l, positions), l[i]).Accept?
    ensures Choosing(decide, first, l, positions + [i], i)
    ensures Picked(l, positions + [i]) == Picked(l, positions) + [l[i]]
  {
    var all := positions + [i];
    assert all[..|positions|] == positions;
    forall x | 0 <= x < |all| ensures decide([first] + Picked(l, all[..x]), l[all[x]]).Accept? {
      if x < |positions| {
        assert all[..x] == positions[..x] && all[x] == positions[x];
      }
    }
    forall p, x: nat | i <= p < |l| && Between(all, x, p)
      ensures var v := decide([first] + Picked(l, all[..x]), l[p]); v.CommonHotKeys? || v.Reject?
    {
      assert all[|positions|] == i && p > i && all[..x] == positions[..x];
      assert Between(positions, x, p) by {
        assert forall y :: 0 <= y < |positions| ==> all[y] == positions[y];
      }
    }
  }

  /** Merge into `first`, from the end of the list, every graph the decisions accept. */
  method BuildGroup(graphs: seq<TransactionGraph>, first: nat, l: seq<nat>, decide: (seq<nat>, nat) -> Verdict)
      returns (g: TransactionGraph, sources: seq<nat>, positions: seq<nat>, ghost low: nat)
    requires AllValid(graphs) && first < |graphs| && InRange(graphs, l) && Distinct([first] + l)
    ensures fresh(g) && GroupOk(graphs, g, sources)
    ensures Chosen(decide, first, l, positions, low) && sources == [first] + Picked(l, positions)
  {
    hide GroupOk, AllValid, Distinct;
    g := StartGroup(graphs, first);
    sources, positions := [first], [];
    var i := |l|;
    low := i;
    while i > 0
      invariant 0 <= i <= |l| && low == i && fresh(g) && GroupOk(graphs, g, sources) && |sources| < MAX_GROUP
      invariant Choosing(decide, first, l, positions, i) && sources == [first] + Picked(l, positions)
    {
      i := i - 1;
      var verdict := decide(sources, l[i]);
      if verdict.Stop? {
        break;
      }
      low := i;
      if verdict.CommonHotKeys? {
        Refuses(decide, first, l, positions, i);
        continue;
      }
      if verdict.Accept? {
        NotPicked(first, l, positions, i);
        g := Merge(graphs, g, sources, l[i]);
        Takes(decide, first, l, positions, i);
        positions, sources := positions + [i], sources + [l[i]];
        if |sources| > 10 {
          break;
        }
      } else {
        Refuses(decide, first, l, positions, i);
      }
    }
  }

  method StartGroup(graphs: seq<TransactionGraph>, first: nat) returns (g: TransactionGraph)
    requires AllValid(graphs) && first < |graphs|
    ensures fresh(g) && GroupOk(graphs, g, [first])
  {
    g := new TransactionGraph.Clone(graphs[first]);
    assert graphs[first].Valid();
    assert Concatenated(graphs, [first]) == Concatenated(graphs, []) + Ids(graphs[first].nodes) == Ids(g.nodes);
  }

  /** `decent_integration` on acceptance: a merged clone. */
  method Merge(graphs: seq<TransactionGraph>, g: TransactionGraph, sources: seq<nat>, next: nat)
      returns (merged: TransactionGraph)
    requires AllValid(graphs) && GroupOk(graphs, g, sources) && |sources| < MAX_GROUP && next < |graphs|
      && next !in sources
    ensures fresh(merged) && GroupOk(graphs, merged, sources + [next])
  {
    hide Merged;
    GroupDisjoint(graphs, sources, g, next);
    merged := new TransactionGraph.Clone(g);
    assert graphs[next].Valid();
    var edges := merged.IntegrateGraph(graphs[next]);
    MergedIds(g.nodes, graphs[next].nodes, merged.nodes);
    assert (sources + [next])[..|sources|] == sources;
  }

  lemma MovesOne(rest: seq<nat>, pos: nat, picked: seq<nat>)
    requires pos < |rest|
    ensures multiset(rest[..pos] + rest[pos + 1..]) + multiset(picked + [rest[pos]]) ==
      multiset(rest) + multiset(picked)
  {
    assert rest == rest[..pos] + [rest[pos]] + rest[pos + 1..];
  }

  /** The entries of `l` below `i` that are not at one of the positions, in order. */
  ghost function Unpicked(l: seq<nat>, positions: seq<nat>, i: nat): seq<nat>
    requires i <= |l|
  {
    if i == 0 then [] else Unpicked(l, positions, i - 1) + if i - 1 in positions then [] else [l[i - 1]]
  }

  /** Without positions between `i` and `j`, the entries there are all kept. */
  lemma {:induction false} UnpickedRun(l: seq<nat>, positions: seq<nat>, i: nat, j: nat)
    requires i <= j <= |l| && forall p :: i <= p < j ==> p !in positions
    ensures Unpicked(l, positions, j) == Unpicked(l, positions, i) + l[i..j]
  {
    if i < j {
      UnpickedRun(l, positions, i, j - 1);
      assert l[i..j] == l[i..j - 1] + [l[j - 1]];
    }
  }

  lemma UnpickedNext(l: seq<nat>, positions: seq<nat>, i: nat)
    requires 0 < i <= |l|
    ensures Unpicked(l, positions, i) == Unpicked(l, positions, i - 1) + if i - 1 in positions then [] else [l[i - 1]]
  {
  }

  /** Removing one more position, below all others, removes the entry at it. */
  lemma {:induction false} RemovesOne(l: seq<nat>, positions: seq<nat>, pos: nat, i: nat)
    requires pos < i <= |l| && forall p :: 0 <= p <= pos ==> p !in positions
    ensures var u := Unpicked(l, positions, i);
      |u| > pos && u[..pos + 1] == l[..pos + 1] && Unpicked(l, positions + [pos], i) == u[..pos] + u[pos + 1..]
  {
    if i == pos + 1 {
      UnpickedRun(l, positions, 0, i);
      UnpickedRun(l, positions + [pos], 0, pos);
      assert l[0..i] == l[..i] && l[..pos + 1][..pos] == l[0..pos];
    } else {
      RemovesOne(l, positions, pos, i - 1);
      hide Unpicked;
      UnpickedNext(l, positions, i);
      UnpickedNext(l, positions + [pos], i);
      var u, u' := Unpicked(l, positions, i - 1), Unpicked(l, positions, i);
      assert u'[..pos] == u[..pos] && u'[..pos + 1] == u[..pos + 1] && u'[pos + 1..] == u[pos + 1..] + u'[|u|..];
    }
  }

  /** Remove the picked positions, from the highest down. */
  method RemovePositions(l: seq<nat>, positions: seq<nat>) returns (rest: seq<nat>)
    requires Descending(positions, 0, |l|)
    ensures multiset(rest) + multiset(Picked(l, positions)) == multiset(l)
    ensures |rest| == |l| - |positions|
    ensures rest == Unpicked(l, positions, |l|)
  {
    hide Unpicked, Picked;
    rest := l;
    UnpickedNone(l);
    assert positions[..0] == [];
    for x := 0 to |positions|
      invariant rest == Unpicked(l, positions[..x], |l|)
    {
      var pos := positions[x];
      RemovesOne(l, positions[..x], pos, |l|);
      assert positions[..x + 1] == positions[..x] + [pos];
      rest := rest[..pos] + rest[pos + 1..];
    }
    assert positions[..|positions|] == positions;
    RemovedCounts(l, positions);
  }

  lemma UnpickedNone(l: seq<nat>)
    ensures Unpicked(l, [], |l|) == l
  {
    UnpickedRun(l, [], 0, |l|);
    assert l[0..|l|] == l;
  }

  /** What is removed and what is left make up the list. */
  lemma {:induction false} RemovedCounts(l: seq<nat>, positions: seq<nat>)
    requires Descending(positions, 0, |l|)
    ensures multiset(Unpicked(l, positions, |l|)) + multiset(Picked(l, positions)) == multiset(l)
    ensures |Unpicked(l, positions, |l|)| == |l| - |positions|
  {
    hide Unpicked;
    if positions == [] {
      UnpickedNone(l);
      assert Picked(l, positions) == [];
    } else {
      var front, pos := positions[..|positions| - 1], positions[|positions| - 1];
      RemovedCounts(l, front);
      RemovesOne(l, front, pos, |l|);
      assert positions == front + [pos] && Picked(l, positions) == Picked(l, front) + [l[pos]];
      var u := Unpicked(l, front, |l|);
      assert u[pos] == u[..pos + 1][pos] == l[pos];
      MovesOne(u, pos, Picked(l, front));
    }
  }

  /** All source indices of the groups, group after group. */
  function Flat(groups: seq<seq<nat>>): seq<nat> {
    if groups == [] then [] else Flat(groups[..|groups| - 1]) + groups[|groups| - 1]
  }

  lemma Regrouped(groups: seq<seq<nat>>, group: seq<nat>)
    ensures multiset(Flat(groups + [group])) == multiset(Flat(groups)) + multiset(group)
  {
    assert (groups + [group])[..|groups|] == groups;
  }

  /** A multiset equal to that of a distinct list makes a list distinct. */
  lemma DistinctByMultiset(q: seq<nat>, n: nat)
    requires multiset(q) <= multiset(Upto(n))
    ensures Distinct(q) && forall x :: 0 <= x < |q| ==> q[x] < n
  {
    UptoOnce(n);
    forall x | 0 <= x < |q| ensures q[x] < n {
      assert q[x] in multiset(q);
    }
    forall x, y | 0 <= x < y < |q| ensures q[x] != q[y] {
      if q[x] == q[y] {
        TwiceInMultiset(q, x, y);
      }
    }
  }

  lemma TwiceInMultiset(q: seq<nat>, x: nat, y: nat)
    requires x < y < |q| && q[x] == q[y]
    ensures multiset(q)[q[x]] >= 2
  {
    assert q == q[..y] + [q[y]] + q[y + 1..];
    assert q[..y][x] in multiset(q[..y]);
  }

  lemma {:induction false} UptoOnce(n: nat)
    ensures forall i: nat :: multiset(Upto(n))[i] == if i < n then 1 else 0
  {
    if n != 0 {
      UptoOnce(n - 1);
      assert Upto(n) == Upto(n - 1) + [n - 1];
    }
  }

  /** One group is made of a list: its first entry with what is chosen from the rest; the others stay in order. */
  ghost predicate Round(decide: (seq<nat>, nat) -> Verdict, l: seq<nat>, group: seq<nat>, rest: seq<nat>) {
    l != [] && exists positions, low ::
      && Chosen(decide, l[0], l[1..], positions, low)
      && group == [l[0]] + Picked(l[1..], positions) && rest == Unpicked(l[1..], positions, |l| - 1)
  }

  /** The groups come out of the list one after the other; `lists` is what is left before each of them. */
  ghost predicate Grouping(decide: (seq<nat>, nat) -> Verdict, lists: seq<seq<nat>>, groups: seq<seq<nat>>) {
    |lists| == |groups| + 1 && forall o :: 0 <= o < |groups| ==> Round(decide, lists[o], groups[o], lists[o + 1])
  }

  lemma GroupingNext(decide: (seq<nat>, nat) -> Verdict, lists: seq<seq<nat>>, groups: seq<seq<nat>>, group: seq<nat>,
                     rest: seq<nat>)
    requires Grouping(decide, lists, groups) && Round(decide, lists[|groups|], group, rest)
    ensures Grouping(decide, lists + [rest], groups + [group])
  {
    var lists', groups' := lists + [rest], groups + [group];
    forall o | 0 <= o < |groups'| ensures Round(decide, lists'[o], groups'[o], lists'[o + 1]) {
      assert lists'[o] == lists[o] && (o < |groups| ==> lists'[o + 1] == lists[o + 1]);
    }
  }

  /** The groups partition the input graphs, are what the decisions choose one after the other, hold at most 11 graphs
      each, and list their transactions in source order. `sorted` is the list of graph indices after sorting by
      coefficient of variation. */
  method GreedyDecentIntegration(graphs: seq<TransactionGraph>, sorted: seq<nat>, decide: (seq<nat>, nat) -> Verdict)
      returns (merged: seq<TransactionGraph>, groups: seq<seq<nat>>, ghost lists: seq<seq<nat>>)
    requires AllValid(graphs) && multiset(sorted) == multiset(Upto(|graphs|))
    ensures |merged| == |groups| && multiset(Flat(groups)) == multiset(Upto(|graphs|))
    ensures forall o :: 0 <= o < |groups| ==> GroupOk(graphs, merged[o], groups[o])
    ensures Grouping(decide, lists, groups) && lists[0] == sorted && lists[|groups|] == []
  {
    hide GroupOk, AllValid, Distinct, Flat, Upto, Grouping, Round;
    var l := sorted;
    merged, groups, lists := [], [], [l];
    assert multiset(Flat(groups)) == multiset{} by { FlatNothing(); }
    NoGroups(decide, l);
    while l != []
      invariant multiset(l) + multiset(Flat(groups)) == multiset(Upto(|graphs|))
      invariant |merged| == |groups| && forall o :: 0 <= o < |groups| ==> GroupOk(graphs, merged[o], groups[o])
      invariant Grouping(decide, lists, groups) && |lists| == |groups| + 1 && lists[0] == sorted && lists[|groups|] == l
      decreases |l|
    {
      DistinctByMultiset(l, |graphs|);
      var g, sources, rest := OneGroup(graphs, l, decide);
      Regrouped(groups, sources);
      GroupingNext(decide, lists, groups, sources, rest);
      merged, groups, l, lists := merged + [g], groups + [sources], rest, lists + [rest];
    }
  }

  method OneGroup(graphs: seq<TransactionGraph>, l: seq<nat>, decide: (seq<nat>, nat) -> Verdict)
      returns (g: TransactionGraph, sources: seq<nat>, rest: seq<nat>)
    requires AllValid(graphs) && l != [] && Distinct(l) && forall x :: 0 <= x < |l| ==> l[x] < |graphs|
    ensures fresh(g) && GroupOk(graphs, g, sources) && Round(decide, l, sources, rest)
    ensures |rest| < |l| && multiset(rest) + multiset(sources) == multiset(l)
  {
    hide GroupOk, AllValid, Distinct, Descending, InRange, Chosen, Round, Unpicked;
    ListOk(graphs, l);
    var positions;
    ghost var low;
    g, sources, positions, low := BuildGroup(graphs, l[0], l[1..], decide);
    ChosenFits(decide, l[0], l[1..], positions, low);
    rest := RemovePositions(l[1..], positions);
    IsRound(decide, l, positions, low);
    assert l == [l[0]] + l[1..];
  }

  lemma NoGroups(decide: (seq<nat>, nat) -> Verdict, l: seq<nat>)
    ensures Grouping(decide, [l], [])
  {
  }

  lemma ChosenFits(decide: (seq<nat>, nat) -> Verdict, first: nat, l: seq<nat>, positions: seq<nat>, low: nat)
    requires Chosen(decide, first, l, positions, low)
    ensures Descending(positions, 0, |l|) && forall x :: 0 <= x < |positions| ==> positions[x] < |l|
  {
  }

  lemma IsRound(decide: (seq<nat>, nat) -> Verdict, l: seq<nat>, positions: seq<nat>, low: nat)
    requires l != [] && Chosen(decide, l[0], l[1..], positions, low)
    ensures (forall x :: 0 <= x < |positions| ==> positions[x] < |l| - 1)
      && Round(decide, l, [l[0]] + Picked(l[1..], positions), Unpicked(l[1..], positions, |l| - 1))
  {
  }

  lemma FlatNothing()
    ensures Flat([]) == []
  {
  }

  lemma ListOk(graphs: seq<TransactionGraph>, l: seq<nat>)
    requires l != [] && Distinct(l) && forall x :: 0 <= x < |l| ==> l[x] < |graphs|
    ensures l[0] < |graphs| && InRange(graphs, l[1..]) && Distinct([l[0]] + l[1..])
  {
    assert l == [l[0]] + l[1..];
  }
}

/** The transaction graph of `dependency_graph.rs` as a value: nodes with parent and
    child index lists, downward paths and their gas. */
module GraphModel {
  import opened Collections

  datatype TransactionId = TransactionId(id: nat, replica: nat)

  datatype Node = Node(
    txId: TransactionId,
    gas: nat,
    readSet: set<nat>,
    writeSet: set<nat>,
    suffix: nat,
    children: seq<nat>,
    parents: seq<nat>)

  type Nodes = seq<Node>

  /** Child and parent lists name nodes, mirror each other and hold no duplicates. */
  ghost predicate Linked(g: Nodes) {
    && (forall p: nat, c: nat {:trigger c in g[p].children} :: p < |g| && c in g[p].children ==>
       c < |g| && p in g[c].parents)
    && (forall p: nat, c: nat {:trigger p in g[c].parents} :: c < |g| && p in g[c].parents ==>
       p < |g| && c in g[p].children)
    && (forall i :: 0 <= i < |g| ==> Distinct(g[i].children) && Distinct(g[i].parents))
  }

  lemma ParentLink(g: Nodes, p: nat, c: nat)
    requires Linked(g) && c < |g| && p in g[c].parents
    ensures p < |g| && c in g[p].children
  {
  }

  /** `rank` witnesses that the graph has no cycle. */
  ghost predicate Ranked(g: Nodes, rank: seq<nat>) {
    && |rank| == |g|
    && (forall i :: 0 <= i < |g| ==> rank[i] < |g|)
    && forall p, c :: 0 <= p < |g| && 0 <= c < |g| && c in g[p].children ==> rank[p] < rank[c]
  }

  ghost predicate Acyclic(g: Nodes) {
    exists rank :: Ranked(g, rank)
  }

  // ---------------------------------------------------------------- gas sums

  /** The gas of the nodes with index below `i` that are in `s`. */
  ghost function GasOf(g: Nodes, s: set<nat>, i: nat): nat
    requires i <= |g|
  {
    if i == 0 then 0 else GasOf(g, s, i - 1) + if i - 1 in s then g[i - 1].gas else 0
  }

  ghost function TotalGas(g: Nodes): nat {
    GasBelow(g, |g|)
  }

  ghost function GasBelow(g: Nodes, i: nat): nat
    requires i <= |g|
  {
    if i == 0 then 0 else GasBelow(g, i - 1) + g[i - 1].gas
  }

  lemma {:induction false} GasOfAdds(g: Nodes, s: set<nat>, x: nat, i: nat)
    requires x < |g| && x !in s && i <= |g|
    ensures GasOf(g, s + {x}, i) == GasOf(g, s, i) + if x < i then g[x].gas else 0
  {
    if i != 0 {
      GasOfAdds(g, s, x, i - 1);
    }
  }

  lemma {:induction false} GasOfBounded(g: Nodes, s: set<nat>, i: nat)
    requires i <= |g|
    ensures GasOf(g, s, i) <= GasBelow(g, i)
    ensures (forall x: nat :: x < i ==> x in s) ==> GasOf(g, s, i) == GasBelow(g, i)
  {
    if i != 0 {
      GasOfBounded(g, s, i - 1);
    }
  }

  // ---------------------------------------------------------------- longest suffixes and paths

  /** The value `postorder_dfs` gives to a node, in terms of the values of its children. */
  ghost predicate SuffixAt(g: Nodes, i: nat)
    requires i < |g|
  {
    && g[i].suffix >= g[i].gas
    && (forall c :: c in g[i].children && c < |g| ==> g[i].suffix >= g[i].gas + g[c].suffix)
    && (g[i].suffix == g[i].gas || exists c :: c in g[i].children && c < |g| && g[i].suffix == g[i].gas + g[c].suffix)
  }

  ghost predicate Suffixes(g: Nodes) {
    forall i :: 0 <= i < |g| ==> SuffixAt(g, i)
  }

  /** A downward path, from a node to one of its descendants. */
  ghost predicate IsPath(g: Nodes, p: seq<nat>) {
    && p != []
    && (forall x :: 0 <= x < |p| ==> p[x] < |g|)
    && forall x :: 0 <= x < |p| - 1 ==> p[x + 1] in g[p[x]].children
  }

  ghost function Weight(g: Nodes, p: seq<nat>): nat
    requires forall x :: 0 <= x < |p| ==> p[x] < |g|
  {
    if p == [] then 0 else g[p[0]].gas + Weight(g, p[1..])
  }

  /** `longest_suffix` bounds the gas of every path that starts at the node ... */
  lemma {:induction false} SuffixBoundsPaths(g: Nodes, p: seq<nat>)
    requires Suffixes(g) && IsPath(g, p)
    ensures Weight(g, p) <= g[p[0]].suffix
  {
    assert SuffixAt(g, p[0]);
    if |p| > 1 {
      assert p[1..][0] == p[0 + 1];
      assert IsPath(g, p[1..]) by {
        forall x | 0 <= x < |p[1..]| - 1 ensures p[1..][x + 1] in g[p[1..][x]].children {
          assert p[x + 1 + 1] in g[p[x + 1]].children;
        }
      }
      SuffixBoundsPaths(g, p[1..]);
    } else {
      assert p[1..] == [];
    }
  }

  /** ... and one of them weighs exactly that much. */
  lemma {:induction false} SuffixIsAPath(g: Nodes, rank: seq<nat>, i: nat) returns (p: seq<nat>)
    requires i < |g| && Ranked(g, rank) && Suffixes(g)
    ensures IsPath(g, p) && p[0] == i && Weight(g, p) == g[i].suffix
    decreases |g| - rank[i]
  {
    assert SuffixAt(g, i);
    if g[i].suffix == g[i].gas {
      p := [i];
      assert p[1..] == [];
    } else {
      var c :| c in g[i].children && c < |g| && g[i].suffix == g[i].gas + g[c].suffix;
      var q := SuffixIsAPath(g, rank, c);
      p := [i] + q;
      assert p[1..] == q;
      forall x | 0 <= x < |p| - 1 ensures p[x + 1] in g[p[x]].children {
        if x > 0 {
          assert p[x] == q[x - 1] && p[x + 1] == q[x - 1 + 1];
        }
      }
    }
  }

  /** The gas of the heaviest path of the graph. */
  ghost predicate IsCriticalPath(g: Nodes, cp: nat) {
    && (forall p :: IsPath(g, p) ==> Weight(g, p) <= cp)
    && (if g == [] then cp == 0 else exists p :: IsPath(g, p) && Weight(g, p) == cp)
  }

  ghost predicate IsLargestSuffix(g: Nodes, cp: nat) {
    && (forall i :: 0 <= i < |g| ==> g[i].suffix <= cp)
    && (if g == [] then cp == 0 else exists i :: 0 <= i < |g| && g[i].suffix == cp)
  }

  /** The largest `longest_suffix` is the critical path. */
  lemma LargestSuffixIsCritical(g: Nodes, cp: nat)
    requires Acyclic(g) && Suffixes(g) && IsLargestSuffix(g, cp)
    ensures IsCriticalPath(g, cp)
  {
    forall p | IsPath(g, p) ensures Weight(g, p) <= cp {
      SuffixBoundsPaths(g, p);
    }
    if g != [] {
      var i :| 0 <= i < |g| && g[i].suffix == cp;
      var rank :| Ranked(g, rank);
      var p := SuffixIsAPath(g, rank, i);
    }
  }

  lemma CriticalPathIsUnique(g: Nodes, cp: nat, cp': nat)
    requires IsCriticalPath(g, cp) && IsCriticalPath(g, cp')
    ensures cp == cp'
  {
  }

  /** Gas, keys and edges, without the computed suffixes. */
  ghost predicate SameGraph(g: Nodes, g': Nodes) {
    |g| == |g'| && forall i :: 0 <= i < |g| ==> g'[i] == g[i].(suffix := g'[i].suffix)
  }
}

/**
 A directed graph as an adjacency map, restricted to its own keys: a successor that is not a key is not a node,
 which is how the depth-first search reads it.
 */
module Digraph {

  type Node = string
  type Graph = map<Node, set<Node>>

  predicate Edge(g: Graph, u: Node, v: Node) {
    u in g && v in g[u] && v in g
  }

  /** Consecutive entries are joined by edges. */
  ghost predicate Walk(g: Graph, w: seq<Node>) {
    forall i | 0 <= i < |w| - 1 :: Edge(g, w[i], w[i + 1])
  }

  lemma WalkTail(g: Graph, w: seq<Node>)
    requires |w| >= 1 && Walk(g, w)
    ensures Walk(g, w[1..])
  {
    forall i | 0 <= i < |w[1..]| - 1 ensures Edge(g, w[1..][i], w[1..][i + 1]) {
      assert Edge(g, w[i + 1], w[(i + 1) + 1]);
    }
  }

  lemma WalkCons(g: Graph, u: Node, w: seq<Node>)
    requires |w| >= 1 && Walk(g, w) && Edge(g, u, w[0])
    ensures Walk(g, [u] + w)
  {
    var longer := [u] + w;
    forall i | 0 <= i < |longer| - 1 ensures Edge(g, longer[i], longer[i + 1]) {
      if i > 0 {
        assert Edge(g, w[i - 1], w[(i - 1) + 1]);
      }
    }
  }

  /** A walk over at least one edge that ends where it began. */
  ghost predicate ClosedWalk(g: Graph, w: seq<Node>) {
    |w| >= 2 && w[0] == w[|w| - 1] && Walk(g, w)
  }

  ghost predicate Acyclic(g: Graph) {
    forall w :: !ClosedWalk(g, w)
  }

  ghost predicate Distinct<T>(s: seq<T>) {
    forall i, j | 0 <= i < j < |s| :: s[i] != s[j]
  }

  /** A closed walk that visits no node twice before it returns to its first. */
  ghost predicate SimpleCycle(g: Graph, c: seq<Node>) {
    ClosedWalk(g, c) && Distinct(c[..|c| - 1])
  }

  /** The edge that closes a cycle. */
  function LastEdge(c: seq<Node>): (Node, Node) {
    if |c| < 2 then ("", "") else (c[|c| - 2], c[|c| - 1])
  }

  function LastEdges(cycles: seq<seq<Node>>): set<(Node, Node)> {
    set k | 0 <= k < |cycles| :: LastEdge(cycles[k])
  }

  /** Simple cycles of `g`, no two of them closed by the same edge. */
  ghost predicate CycleList(g: Graph, cycles: seq<seq<Node>>) {
    && (forall k | 0 <= k < |cycles| :: SimpleCycle(g, cycles[k]))
    && (forall i, j | 0 <= i < j < |cycles| :: LastEdge(cycles[i]) != LastEdge(cycles[j]))
  }

  /** `g` without the edges in `cut`. */
  function Without(g: Graph, cut: set<(Node, Node)>): Graph {
    map u | u in g :: set v | v in g[u] && (u, v) !in cut
  }

  /** Every edge leads to a node of lower rank. */
  ghost predicate Ranked(g: Graph, rank: map<Node, nat>) {
    forall u, v | Edge(g, u, v) :: u in rank && v in rank && rank[v] < rank[u]
  }

  /** A walk ends lower than it began. */
  lemma {:induction false} WalkDescends(g: Graph, rank: map<Node, nat>, w: seq<Node>)
    requires Ranked(g, rank) && |w| >= 2 && Walk(g, w)
    ensures w[0] in rank && w[|w| - 1] in rank && rank[w[|w| - 1]] < rank[w[0]]
  {
    assert Edge(g, w[0], w[1]);
    if |w| > 2 {
      WalkTail(g, w);
      WalkDescends(g, rank, w[1..]);
    }
  }

  /** A graph whose edges all lead down in rank has no cycle. */
  lemma RankedIsAcyclic(g: Graph, rank: map<Node, nat>)
    requires Ranked(g, rank)
    ensures Acyclic(g)
  {
    forall w ensures !ClosedWalk(g, w) {
      if ClosedWalk(g, w) {
        WalkDescends(g, rank, w);
        assert false;
      }
    }
  }

  lemma WithoutNone(g: Graph)
    ensures Without(g, {}) == g
  {
    forall u | u in g ensures Without(g, {})[u] == g[u] {
    }
  }
}

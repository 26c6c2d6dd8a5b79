/**
 The iterative three-colour depth-first search of the import-DAG gate. The iterator stack is kept as the set of
 successors each frame has still to read; which start or successor comes next is left open, so everything proved
 here holds for the sorted order the gate reads them in.
 */
module CycleFinder {
  import opened Digraph

  datatype Colour = White | Grey | Black

  /**
   The search's variables: a colour per node, the path of grey nodes, and what each of their frames has yet to read.
   */
  datatype Search = Search(colour: map<Node, Colour>, path: seq<Node>, iters: seq<set<Node>>) {

    /** A white node goes grey in a frame of its own. */
    function Push(v: Node, successors: set<Node>): Search {
      Search(colour[v := Grey], path + [v], iters + [successors])
    }

    /** The top frame has read everything: its node goes black. */
    function Pop(): Search
      requires path != [] && iters != []
    {
      Search(colour[path[|path| - 1] := Black], path[..|path| - 1], iters[..|iters| - 1])
    }

    /** The top frame reads successor `v`. */
    function Advance(v: Node): Search
      requires iters != []
    {
      this.(iters := iters[..|iters| - 1] + [iters[|iters| - 1] - {v}])
    }

    ghost function Whites(): set<Node> {
      set n | n in colour && colour[n] == White
    }
  }

  /** What the proof remembers: the edges read, those of them that closed a cycle, and the finishing order. */
  datatype History = History(read: set<(Node, Node)>, back: set<(Node, Node)>, rank: map<Node, nat>, clock: nat) {

    ghost function Read(u: Node, v: Node, closes: bool): History {
      this.(read := read + {(u, v)}, back := if closes then back + {(u, v)} else back)
    }

    ghost function Finish(u: Node): History {
      this.(rank := rank[u := clock], clock := clock + 1)
    }
  }

  /** Grey is being on the path, black is being finished. */
  ghost predicate Colours(g: Graph, s: Search, h: History) {
    && s.colour.Keys == g.Keys
    && Distinct(s.path)
    && (forall n | n in s.path :: n in g)
    && h.rank.Keys <= g.Keys
    && (forall n | n in g :: (s.colour[n] == Grey <==> n in s.path) && (s.colour[n] == Black <==> n in h.rank))
    && (forall n | n in h.rank :: h.rank[n] < h.clock)
  }

  /** The path is a walk, and each frame still owes exactly its node's unread successors. */
  ghost predicate Frames(g: Graph, s: Search, h: History) {
    && |s.iters| == |s.path|
    && (forall i | 0 <= i < |s.path| :: Owes(g, s.path[i], s.iters[i], h))
    && (forall i | 0 <= i < |s.path| - 1 :: Edge(g, s.path[i], s.path[i + 1]))
  }

  ghost predicate Owes(g: Graph, u: Node, todo: set<Node>, h: History) {
    u in g && todo == set v | v in g[u] && (u, v) !in h.read
  }

  /** `v` stands right above `u` on the path. */
  ghost predicate Above(path: seq<Node>, u: Node, v: Node) {
    exists i :: 0 <= i < |path| - 1 && path[i] == u && path[i + 1] == v
  }

  /** Every edge read closed a cycle, leads to a finished node, or opened the next frame. */
  ghost predicate ReadEdges(g: Graph, path: seq<Node>, h: History) {
    && h.back <= h.read
    && (forall u, v | (u, v) in h.read :: u in path || u in h.rank)
    && (forall u, v | (u, v) in h.read && Edge(g, u, v) :: (u, v) in h.back || v in h.rank || Above(path, u, v))
  }

  /** A finished node's edges were all read, and closed a cycle or lead to nodes finished before it. */
  ghost predicate Finished(g: Graph, h: History) {
    forall u, v | u in h.rank && Edge(g, u, v) ::
      (u, v) in h.read && ((u, v) in h.back || (v in h.rank && h.rank[v] < h.rank[u]))
  }

  /** An edge that closed a cycle leads to a node on the path or finished. */
  ghost predicate BackKnown(path: seq<Node>, h: History) {
    forall u, v | (u, v) in h.back :: v in path || v in h.rank
  }

  ghost predicate Inv(g: Graph, s: Search, h: History) {
    Colours(g, s, h) && Frames(g, s, h) && ReadEdges(g, s.path, h) && Finished(g, h) && BackKnown(s.path, h)
  }

  /** What the search itself relies on at any moment. */
  lemma Reading(g: Graph, s: Search, h: History)
    requires Inv(g, s, h)
    ensures s.colour.Keys == g.Keys && |s.iters| == |s.path|
    ensures forall n | n in g :: s.colour[n] == Grey <==> n in s.path
    ensures s.path != [] ==> s.path[|s.path| - 1] in g
  {
  }

  lemma NothingRead(g: Graph)
    ensures Inv(g, Search(map n | n in g :: White, [], []), History({}, {}, map[], 0))
    ensures CycleList(g, []) && LastEdges([]) == {}
  {
  }

  lemma StartKeepsInv(g: Graph, s: Search, h: History, v: Node)
    requires Inv(g, s, h) && s.path == []
    requires v in g && s.colour[v] == White
    ensures Inv(g, s.Push(v, g[v]), h)
  {
    assert Owes(g, v, g[v], h);
  }

  lemma PopKeepsInv(g: Graph, s: Search, h: History)
    requires Inv(g, s, h) && s.path != [] && s.iters[|s.iters| - 1] == {}
    ensures Inv(g, s.Pop(), h.Finish(s.path[|s.path| - 1]))
  {
    PopKeepsColours(g, s, h);
    PopKeepsReadEdges(g, s, h);
    PopKeepsFinished(g, s, h);
    assert s.path == s.Pop().path + [s.path[|s.path| - 1]];
    forall i | 0 <= i < |s.path| - 1 ensures Owes(g, s.Pop().path[i], s.iters[i], h.Finish(s.path[|s.path| - 1])) {
      assert Owes(g, s.path[i], s.iters[i], h);
    }
  }

  lemma PopKeepsColours(g: Graph, s: Search, h: History)
    requires Colours(g, s, h) && |s.iters| == |s.path| > 0
    ensures Colours(g, s.Pop(), h.Finish(s.path[|s.path| - 1]))
  {
    var t, u := s.Pop(), s.path[|s.path| - 1];
    assert s.path == t.path + [u];
    assert forall n :: n in t.path <==> n in s.path && n != u;
  }

  lemma PopKeepsReadEdges(g: Graph, s: Search, h: History)
    requires ReadEdges(g, s.path, h) && |s.iters| == |s.path| > 0
    ensures ReadEdges(g, s.Pop().path, h.Finish(s.path[|s.path| - 1]))
  {
    var t, u := s.Pop(), s.path[|s.path| - 1];
    assert s.path == t.path + [u];
    forall x, v | Above(s.path, x, v) && v != u ensures Above(t.path, x, v) {
      var i :| 0 <= i < |s.path| - 1 && s.path[i] == x && s.path[i + 1] == v;
      assert t.path[i] == x && t.path[i + 1] == v;
    }
  }

  lemma PopKeepsFinished(g: Graph, s: Search, h: History)
    requires Inv(g, s, h) && s.path != [] && s.iters[|s.iters| - 1] == {}
    ensures Finished(g, h.Finish(s.path[|s.path| - 1]))
  {
    var top := |s.path| - 1;
    var u := s.path[top];
    assert Owes(g, u, s.iters[top], h);
    forall v | Edge(g, u, v) ensures (u, v) in h.read && ((u, v) in h.back || v in h.rank) {
      assert v !in s.iters[top];
    }
  }

  /** Reading `v` from the top frame and leaving it: not a node, already finished, or on the path. */
  lemma AdvanceKeepsInv(g: Graph, s: Search, h: History, v: Node, closes: bool)
    requires Inv(g, s, h) && s.path != [] && v in s.iters[|s.iters| - 1]
    requires v in g ==> closes || s.colour[v] == Black
    requires closes ==> v in s.path
    ensures Inv(g, s.Advance(v), h.Read(s.path[|s.path| - 1], v, closes))
  {
    AdvanceKeepsFrames(g, s, h, v, closes);
  }

  lemma AdvanceKeepsFrames(g: Graph, s: Search, h: History, v: Node, closes: bool)
    requires Colours(g, s, h) && Frames(g, s, h) && s.path != [] && v in s.iters[|s.iters| - 1]
    ensures Frames(g, s.Advance(v), h.Read(s.path[|s.path| - 1], v, closes))
  {
    var t, top := s.Advance(v), |s.path| - 1;
    forall i | 0 <= i < |t.path| ensures Owes(g, t.path[i], t.iters[i], h.Read(s.path[top], v, closes)) {
      assert Owes(g, s.path[i], s.iters[i], h);
    }
  }

  lemma DescendKeepsInv(g: Graph, s: Search, h: History, v: Node)
    requires Inv(g, s, h) && s.path != [] && v in s.iters[|s.iters| - 1]
    requires v in g && s.colour[v] == White
    ensures Inv(g, s.Advance(v).Push(v, g[v]), h.Read(s.path[|s.path| - 1], v, false))
  {
    DescendKeepsFrames(g, s, h, v);
    DescendKeepsReadEdges(g, s, h, v);
  }

  lemma DescendKeepsFrames(g: Graph, s: Search, h: History, v: Node)
    requires Inv(g, s, h) && s.path != [] && v in s.iters[|s.iters| - 1]
    requires v in g && s.colour[v] == White
    ensures Frames(g, s.Advance(v).Push(v, g[v]), h.Read(s.path[|s.path| - 1], v, false))
  {
    AdvanceKeepsFrames(g, s, h, v, false);
    assert Owes(g, s.path[|s.path| - 1], s.iters[|s.iters| - 1], h);
    PushKeepsFrames(g, s.Advance(v), h.Read(s.path[|s.path| - 1], v, false), v);
  }

  lemma PushKeepsFrames(g: Graph, s: Search, h: History, v: Node)
    requires Frames(g, s, h) && v in g && forall w :: (v, w) !in h.read
    requires s.path != [] ==> Edge(g, s.path[|s.path| - 1], v)
    ensures Frames(g, s.Push(v, g[v]), h)
  {
    assert Owes(g, v, g[v], h);
  }

  lemma DescendKeepsReadEdges(g: Graph, s: Search, h: History, v: Node)
    requires ReadEdges(g, s.path, h) && s.path != []
    ensures ReadEdges(g, s.path + [v], h.Read(s.path[|s.path| - 1], v, false))
  {
    var longer, top := s.path + [v], |s.path| - 1;
    assert longer[top] == s.path[top] && longer[top + 1] == v;
    forall x, y | Above(s.path, x, y) ensures Above(longer, x, y) {
      var i :| 0 <= i < |s.path| - 1 && s.path[i] == x && s.path[i + 1] == y;
      assert longer[i] == x && longer[i + 1] == y;
    }
  }

  /** The path from an occurrence of `v`, closed by the top's edge back to `v`, is a simple cycle. */
  lemma BackEdgeIsCycle(g: Graph, s: Search, h: History, at: nat)
    requires Inv(g, s, h) && at < |s.path| && s.path[at] in s.iters[|s.iters| - 1]
    ensures var c := s.path[at..] + [s.path[at]];
            SimpleCycle(g, c) && LastEdge(c) == (s.path[|s.path| - 1], s.path[at]) && LastEdge(c) !in h.back
  {
    var c := s.path[at..] + [s.path[at]];
    assert Owes(g, s.path[|s.path| - 1], s.iters[|s.iters| - 1], h);
    assert c[..|c| - 1] == s.path[at..];
    forall i | 0 <= i < |c| - 1 ensures Edge(g, c[i], c[i + 1]) {
      assert c[i] == s.path[at + i];
    }
  }

  /** When every node is finished, the edges that closed no cycle all lead down in finishing order. */
  lemma FinishedIsRanked(g: Graph, s: Search, h: History)
    requires Inv(g, s, h) && forall n | n in g :: s.colour[n] == Black
    ensures Ranked(Without(g, h.back), h.rank)
  {
    forall u, v | Edge(Without(g, h.back), u, v) ensures u in h.rank && v in h.rank && h.rank[v] < h.rank[u] {
      assert Edge(g, u, v);
    }
  }

  /** Between searches an edge from a finished node leads to a finished node, and so does every walk. */
  lemma {:induction false} WalkStaysFinished(g: Graph, s: Search, h: History, w: seq<Node>)
    requires Inv(g, s, h) && s.path == [] && |w| > 0 && Walk(g, w) && w[0] in g && s.colour[w[0]] == Black
    ensures w[|w| - 1] in g && s.colour[w[|w| - 1]] == Black
    decreases |w|
  {
    if |w| > 1 {
      WalkTail(g, w);
      assert Edge(g, w[0], w[1]);
      WalkStaysFinished(g, s, h, w[1..]);
    }
  }

  lemma AllReachedFinished(g: Graph, s: Search, h: History, start: Node)
    requires Inv(g, s, h) && s.path == [] && start in g && s.colour[start] == Black
    ensures forall w | |w| > 0 && Walk(g, w) && w[0] == start :: w[|w| - 1] in g && s.colour[w[|w| - 1]] == Black
  {
    forall w | |w| > 0 && Walk(g, w) && w[0] == start ensures w[|w| - 1] in g && s.colour[w[|w| - 1]] == Black {
      WalkStaysFinished(g, s, h, w);
    }
  }

  lemma AppendedCycle(g: Graph, cycles: seq<seq<Node>>, c: seq<Node>)
    requires CycleList(g, cycles) && SimpleCycle(g, c) && LastEdge(c) !in LastEdges(cycles)
    ensures CycleList(g, cycles + [c])
    ensures LastEdges(cycles + [c]) == LastEdges(cycles) + {LastEdge(c)}
  {
    var longer := cycles + [c];
    forall e ensures e in LastEdges(longer) <==> e in LastEdges(cycles) || e == LastEdge(c) {
      if e in LastEdges(cycles) {
        var k :| 0 <= k < |cycles| && LastEdge(cycles[k]) == e;
        assert longer[k] == cycles[k];
      }
      assert longer[|cycles|] == c;
    }
    forall i, j | 0 <= i < j < |longer| ensures LastEdge(longer[i]) != LastEdge(longer[j]) {
      assert LastEdge(cycles[i]) in LastEdges(cycles);
    }
  }

  lemma FoundIffCyclic(g: Graph, cycles: seq<seq<Node>>)
    requires CycleList(g, cycles) && Acyclic(Without(g, LastEdges(cycles)))
    ensures cycles == [] <==> Acyclic(g)
  {
    if cycles == [] {
      assert LastEdges(cycles) == {};
      WithoutNone(g);
    } else {
      assert ClosedWalk(g, cycles[0]);
    }
  }

  /** The search holds together, and `cycles` are the cycles closed so far. */
  ghost predicate Good(g: Graph, s: Search, h: History, cycles: seq<seq<Node>>) {
    Inv(g, s, h) && CycleList(g, cycles) && h.back == LastEdges(cycles)
  }

  /** A back edge read and its cycle reported. */
  lemma BackEdgeKeepsGood(g: Graph, s: Search, h: History, cycles: seq<seq<Node>>, at: nat)
    requires Good(g, s, h, cycles) && |s.iters| == |s.path| && at < |s.path| && s.path[at] in s.iters[|s.iters| - 1]
    requires s.path[at] in g ==> s.path[at] in s.colour
    ensures var v := s.path[at];
            Good(g, s.Advance(v), h.Read(s.path[|s.path| - 1], v, true), cycles + [s.path[at..] + [v]])
  {
    hide Inv, CycleList, SimpleCycle, LastEdges, LastEdge;
    BackEdgeIsCycle(g, s, h, at);
    AdvanceKeepsInv(g, s, h, s.path[at], true);
    AppendedCycle(g, cycles, s.path[at..] + [s.path[at]]);
  }

  /** A successor read and left: the same nodes are white, and the top frame has less to read. */
  lemma AdvanceShrinks(s: Search, v: Node)
    requires s.iters != [] && v in s.iters[|s.iters| - 1]
    ensures var t := s.Advance(v);
            t.Whites() == s.Whites() && |t.iters| == |s.iters| && t.iters[|t.iters| - 1] < s.iters[|s.iters| - 1]
  {
    assert v !in s.Advance(v).iters[|s.iters| - 1];
  }

  /** A node entered or left is not white afterwards. */
  lemma ColouredShrinks(s: Search, v: Node)
    requires s.iters != [] && s.path != []
    requires s.path[|s.path| - 1] in s.colour && s.colour[s.path[|s.path| - 1]] != White
    ensures s.Pop().Whites() == s.Whites()
    ensures v in s.colour && s.colour[v] == White ==>
              forall todo :: s.Advance(v).Push(v, todo).Whites() < s.Whites()
  {
    if v in s.colour && s.colour[v] == White {
      assert v in s.Whites();
      forall todo ensures s.Advance(v).Push(v, todo).Whites() < s.Whites() {
        assert v !in s.Advance(v).Push(v, todo).Whites();
      }
    }
  }

  /**
   Every reported list is a simple cycle of the graph, no two closed by the same edge; nothing is reported exactly when
   the graph has no cycle; and the closing edges of what is reported are enough to break every cycle there is.
   */
  method FindCycles(g: Graph) returns (cycles: seq<seq<Node>>)
    ensures CycleList(g, cycles)
    ensures cycles == [] <==> Acyclic(g)
    ensures Acyclic(Without(g, LastEdges(cycles)))
  {
    hide Inv, CycleList, SimpleCycle, Acyclic, Ranked, LastEdges, Without;
    var s := Search(map n | n in g :: White, [], []);
    ghost var h := History({}, {}, map[], 0);
    cycles := [];
    NothingRead(g);
    var starts := g.Keys;
    while starts != {}
      invariant starts <= g.Keys == s.colour.Keys
      invariant s.path == [] && Good(g, s, h, cycles)
      invariant forall n | n in g && n !in starts :: s.colour[n] == Black
    {
      var start :| start in starts;
      starts := starts - {start};
      Reading(g, s, h);
      if s.colour[start] == White {
        s, h, cycles := SearchFrom(g, start, s, h, cycles);
      }
    }
    FinishedIsRanked(g, s, h);
    RankedIsAcyclic(Without(g, h.back), h.rank);
    FoundIffCyclic(g, cycles);
  }

  /** The inner loop: every node a walk from `start` reaches is finished, and the cycles closed on the way are added. */
  method SearchFrom(g: Graph, start: Node, s0: Search, ghost h0: History, cycles0: seq<seq<Node>>)
      returns (s: Search, ghost h: History, cycles: seq<seq<Node>>)
    requires Good(g, s0, h0, cycles0) && s0.path == []
    requires start in g && start in s0.colour && s0.colour[start] == White
    ensures Good(g, s, h, cycles) && s.path == [] && s.colour.Keys == g.Keys
    ensures forall w | |w| > 0 && Walk(g, w) && w[0] == start :: w[|w| - 1] in g && s.colour[w[|w| - 1]] == Black
    ensures s.colour[start] == Black
    ensures forall n | n in s0.colour && s0.colour[n] == Black :: n in g && s.colour[n] == Black
  {
    hide Inv, CycleList, SimpleCycle, LastEdges, Walk, LastEdge, Search.Whites;
    StartKeepsInv(g, s0, h0, start);
    s, h, cycles := s0.Push(start, g[start]), h0, cycles0;
    Reading(g, s0, h0);
    while s.iters != []
      invariant Good(g, s, h, cycles) && |s.iters| == |s.path| && s.colour.Keys == g.Keys
      invariant s.colour[start] != White
      invariant forall n | n in g && s0.colour[n] == Black :: s.colour[n] == Black
      decreases s.Whites(), |s.iters|, if s.iters == [] then {} else s.iters[|s.iters| - 1]
    {
      Reading(g, s, h);
      ghost var u := s.path[|s.path| - 1];
      ColouredShrinks(s, u);
      if s.iters[|s.iters| - 1] == {} {
        PopKeepsInv(g, s, h);
        s, h := s.Pop(), h.Finish(u);
        continue;
      }
      var next :| next in s.iters[|s.iters| - 1];
      AdvanceShrinks(s, next);
      if next !in s.colour || s.colour[next] == Black {
        AdvanceKeepsInv(g, s, h, next, false);
        s, h := s.Advance(next), h.Read(u, next, false);
      } else if s.colour[next] == Grey {
        var at := IndexOf(s.path, next);
        BackEdgeKeepsGood(g, s, h, cycles, at);
        cycles := cycles + [s.path[at..] + [next]];
        s, h := s.Advance(next), h.Read(u, next, true);
      } else {
        DescendKeepsInv(g, s, h, next);
        ColouredShrinks(s, next);
        s, h := s.Advance(next).Push(next, g[next]), h.Read(u, next, false);
      }
    }
    Reading(g, s, h);
    AllReachedFinished(g, s, h, start);
  }

  /** The first place of `x` in `s`. */
  method IndexOf(s: seq<Node>, x: Node) returns (at: nat)
    requires x in s
    ensures at < |s| && s[at] == x && x !in s[..at]
  {
    at := 0;
    while s[at] != x
      invariant at < |s| && x !in s[..at] && x in s[at..]
      decreases |s| - at
    {
      at := at + 1;
    }
  }
}

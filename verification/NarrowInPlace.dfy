/**
 The Cast rewrite as the exporter performs it: node objects whose input lists are overwritten slot by slot, then the
 dropped Casts removed from the node list, then the full check. It computes exactly the rewrite on values.
 */
module NarrowInPlace {
  import opened OnnxGraph
  import opened NarrowCasts
  import opened Wrappers

  class NodeProto {
    const op: Op
    var input: seq<string>
    const output: string

    constructor (n: Node)
      ensures Value() == n
    {
      op, input, output := n.op, n.inputs, n.output;
    }

    function Value(): Node
      reads this
    {
      Node(op, input, output)
    }
  }

  class ModelProto {
    const inputs: Types
    const outputs: Types
    var node: seq<NodeProto>

    constructor (inputs: Types, node: seq<NodeProto>, outputs: Types)
      ensures this.inputs == inputs && this.node == node && this.outputs == outputs
    {
      this.inputs, this.node, this.outputs := inputs, node, outputs;
    }

    /** No node object stands twice in the list. */
    ghost predicate Valid()
      reads this
    {
      NoRepeats(node)
    }

    function Value(): Graph
      reads this, node
    {
      Graph(inputs, Values(node), outputs)
    }
  }

  ghost predicate NoRepeats(nodes: seq<NodeProto>) {
    forall i, j | 0 <= i < j < |nodes| :: nodes[i] != nodes[j]
  }

  function Values(nodes: seq<NodeProto>): (values: seq<Node>)
    reads nodes
    ensures |values| == |nodes| && forall k | 0 <= k < |nodes| :: values[k] == nodes[k].Value()
  {
    if nodes == [] then [] else [nodes[0].Value()] + Values(nodes[1..])
  }

  /** The (node, slot) pairs that read a name. */
  type Readers = map<string, seq<(nat, nat)>>

  function ReadsOf(readers: Readers, name: string): seq<(nat, nat)> {
    if name in readers then readers[name] else []
  }

  /** `readers` lists, for every name, exactly the slots of the first `k` nodes that read it. */
  ghost predicate ListsReads(readers: Readers, nodes: seq<Node>, k: int) {
    forall name, u: nat, slot: nat ::
      (u, slot) in ReadsOf(readers, name) <==> u < k && u < |nodes| && Reads(nodes[u], slot, name)
  }

  /** `readers` lists besides what `before` lists the first slots of node `u`. */
  ghost predicate ListsSlots(readers: Readers, before: Readers, u: nat, names: seq<string>, slots: int) {
    forall name, v: nat, s: nat ::
      (v, s) in ReadsOf(readers, name) <==>
      (v, s) in ReadsOf(before, name) || (v == u && s < slots && s < |names| && names[s] == name)
  }

  lemma OneSlotMore(readers: Readers, before: Readers, u: nat, names: seq<string>, slot: nat)
    requires ListsSlots(readers, before, u, names, slot) && slot < |names|
    ensures ListsSlots(readers[names[slot] := ReadsOf(readers, names[slot]) + [(u, slot)]], before, u, names, slot + 1)
  {
    var more := readers[names[slot] := ReadsOf(readers, names[slot]) + [(u, slot)]];
    forall name, v: nat, s: nat
      ensures (v, s) in ReadsOf(more, name) <==>
              (v, s) in ReadsOf(before, name) || (v == u && s < slot + 1 && s < |names| && names[s] == name)
    {
      assert (v, s) in ReadsOf(readers, name) <==>
             (v, s) in ReadsOf(before, name) || (v == u && s < slot && s < |names| && names[s] == name);
      assert ReadsOf(more, name) == ReadsOf(readers, name) + if name == names[slot] then [(u, slot)] else [];
    }
  }

  lemma OneNodeMore(readers: Readers, before: Readers, nodes: seq<Node>, u: nat)
    requires u < |nodes| && ListsReads(before, nodes, u)
    requires ListsSlots(readers, before, u, nodes[u].inputs, |nodes[u].inputs|)
    ensures ListsReads(readers, nodes, u + 1)
  {
    forall name, v: nat, s: nat
      ensures (v, s) in ReadsOf(readers, name) <==> v < u + 1 && v < |nodes| && Reads(nodes[v], s, name)
    {
      assert (v, s) in ReadsOf(before, name) <==> v < u && v < |nodes| && Reads(nodes[v], s, name);
    }
  }

  method CollectReaders(nodes: seq<NodeProto>) returns (readers: Readers)
    ensures ListsReads(readers, Values(nodes), |nodes|)
  {
    hide ListsSlots;
    readers := map[];
    for u := 0 to |nodes|
      invariant ListsReads(readers, Values(nodes), u)
    {
      hide ListsReads;
      var names := nodes[u].input;
      ghost var before := readers;
      NoSlotYet(readers, u, names);
      for slot := 0 to |names|
        invariant ListsSlots(readers, before, u, names, slot)
      {
        OneSlotMore(readers, before, u, names, slot);
        readers := readers[names[slot] := ReadsOf(readers, names[slot]) + [(u, slot)]];
      }
      OneNodeMore(readers, before, Values(nodes), u);
    }
  }

  lemma NoSlotYet(readers: Readers, u: nat, names: seq<string>)
    ensures ListsSlots(readers, readers, u, names, 0)
  {
  }

  /** Every node object reads what the bypass of the first `i` nodes says it should. */
  ghost predicate WiredUpTo(nodes: seq<NodeProto>, g: Graph, b: Bypass)
    reads nodes
  {
    |nodes| == |g.nodes| && forall k | 0 <= k < |nodes| :: nodes[k].Value() == Rewired(b, g.nodes[k])
  }

  /** A Cast reads no bypassed name: its slot takes one width only. */
  lemma CastKeepsInput(g: Graph, types: Types, i: nat, k: nat)
    requires Infer(g.inputs, g.nodes) == Some(types) && k < |g.nodes| && i <= |g.nodes|
    requires g.nodes[k].op.Cast?
    ensures Rewired(BypassOf(g, types, i), g.nodes[k]) == g.nodes[k]
  {
    hide Droppable;
    BypassFollowsNodes(g, i);
    var b, n := BypassOf(g, types, i), g.nodes[k];
    forall s | 0 <= s < |n.inputs| ensures n.inputs[s] !in b {
      if n.inputs[s] in b {
        var c :| DroppedAt(g, types, c, n.inputs[s], b[n.inputs[s]]);
        DroppableReadsEither(g, types, g.nodes[c], k, s);
      }
    }
  }

  lemma DroppableReadsEither(g: Graph, types: Types, n: Node, k: nat, slot: nat)
    requires Droppable(g, types, n) && k < |g.nodes| && slot < |g.nodes[k].inputs| && Reads(g.nodes[k], slot, n.output)
    ensures IndexSlot(g.nodes[k].op) == Some(slot)
  {
  }

  /** Whether every listed read takes either width. */
  predicate AllTakeEither(nodes: seq<NodeProto>, uses: seq<(nat, nat)>) {
    forall j | 0 <= j < |uses| :: uses[j].0 < |nodes| && IndexSlot(nodes[uses[j].0].op) == Some(uses[j].1)
  }

  /** The test the loop makes on one node is the droppable test on the graph it started from. */
  lemma TestIsDroppable(g: Graph, types: Types, n: Node, nodes: seq<NodeProto>, readers: Readers)
    requires ListsReads(readers, g.nodes, |g.nodes|) && |nodes| == |g.nodes|
    requires forall k | 0 <= k < |nodes| :: nodes[k].op == g.nodes[k].op
    requires |n.inputs| == 1
    ensures var uses := ReadsOf(readers, n.output);
            (n.op == Cast(Int64) && n.inputs[0] in types && types[n.inputs[0]] == Int32 &&
             uses != [] && n.output !in g.outputs && AllTakeEither(nodes, uses)) <==> Droppable(g, types, n)
  {
    var uses := ReadsOf(readers, n.output);
    if uses != [] {
      assert uses[0] in uses && (uses[0].0, uses[0].1) in uses;
      assert Reads(g.nodes[uses[0].0], uses[0].1, n.output);
    }
    forall k: nat, slot: nat | k < |g.nodes| && Reads(g.nodes[k], slot, n.output) ensures (k, slot) in uses {
    }
    if AllTakeEither(nodes, uses) {
      forall k, slot | 0 <= k < |g.nodes| && 0 <= slot < |g.nodes[k].inputs| && Reads(g.nodes[k], slot, n.output)
        ensures IndexSlot(g.nodes[k].op) == Some(slot)
      {
        assert (k, slot) in uses;
      }
    }
    if Droppable(g, types, n) {
      forall j | 0 <= j < |uses| ensures uses[j].0 < |nodes| && IndexSlot(nodes[uses[j].0].op) == Some(uses[j].1) {
        assert (uses[j].0, uses[j].1) in uses;
      }
    }
  }

  /** Overwrite every listed slot with `source`. */
  method Rewire(nodes: seq<NodeProto>, ghost g: Graph, ghost b: Bypass, uses: seq<(nat, nat)>, name: string,
                source: string)
    requires NoRepeats(nodes) && WiredUpTo(nodes, g, b) && name !in b
    requires forall u: nat, slot: nat :: (u, slot) in uses <==> u < |g.nodes| && Reads(g.nodes[u], slot, name)
    modifies nodes
    ensures WiredUpTo(nodes, g, b[name := source])
  {
    for j := 0 to |uses|
      invariant forall k | 0 <= k < |nodes| :: |nodes[k].input| == |g.nodes[k].inputs|
      invariant forall k, s | 0 <= k < |nodes| && 0 <= s < |nodes[k].input| ::
        nodes[k].input[s] == if (k, s) in uses[..j] then source else Renamed(b, g.nodes[k].inputs[s])
    {
      var u, slot := uses[j].0, uses[j].1;
      assert (u, slot) in uses;
      nodes[u].input := nodes[u].input[slot := source];
      assert uses[..j + 1] == uses[..j] + [(u, slot)];
    }
    assert uses[..|uses|] == uses;
    forall k | 0 <= k < |nodes| ensures nodes[k].input == Rewired(b[name := source], g.nodes[k]).inputs {
      forall s | 0 <= s < |nodes[k].input|
        ensures nodes[k].input[s] == Renamed(b[name := source], g.nodes[k].inputs[s])
      {
        assert (k, s) in uses <==> Reads(g.nodes[k], s, name);
      }
    }
  }

  /** The nodes outside `gone`, in order. */
  ghost function Outside(nodes: seq<NodeProto>, gone: set<NodeProto>): seq<NodeProto> {
    if nodes == [] then []
    else (if nodes[0] in gone then [] else [nodes[0]]) + Outside(nodes[1..], gone)
  }

  lemma {:induction false} OutsideNothing(nodes: seq<NodeProto>)
    ensures Outside(nodes, {}) == nodes
  {
    if nodes != [] {
      OutsideNothing(nodes[1..]);
    }
  }

  lemma OutsideHead(nodes: seq<NodeProto>, gone: set<NodeProto>)
    ensures if nodes == [] then Outside(nodes, gone) == []
            else if nodes[0] in gone then Outside(nodes, gone) == Outside(nodes[1..], gone)
            else Outside(nodes, gone) == [nodes[0]] + Outside(nodes[1..], gone)
  {
  }

  /** Taking out the one occurrence of `d` from what is outside `gone` leaves what is outside `gone` and `d`. */
  lemma {:induction false} OutsideOneMore(nodes: seq<NodeProto>, gone: set<NodeProto>, d: NodeProto, at: nat)
    requires NoRepeats(nodes)
    requires at < |Outside(nodes, gone)| && Outside(nodes, gone)[at] == d
    ensures Outside(nodes, gone)[..at] + Outside(nodes, gone)[at + 1..] == Outside(nodes, gone + {d})
  {
    hide Outside;
    OutsideHead(nodes, gone);
    OutsideHead(nodes, gone + {d});
    var all, rest := Outside(nodes, gone), Outside(nodes[1..], gone);
    if nodes[0] in gone {
      OutsideOneMore(nodes[1..], gone, d, at);
    } else if at == 0 {
      assert d == nodes[0] && d !in nodes[1..];
      OutsideUntouched(nodes[1..], gone, d);
      assert all[..0] + all[1..] == rest;
    } else {
      OutsideOneMore(nodes[1..], gone, d, at - 1);
      OutsideKeepsMembers(nodes[1..], gone, d);
      assert nodes[0] != d;
      assert all[..at] + all[at + 1..] == [nodes[0]] + (rest[..at - 1] + rest[at..]);
    }
  }

  lemma {:induction false} OutsideUntouched(nodes: seq<NodeProto>, gone: set<NodeProto>, d: NodeProto)
    requires d !in nodes
    ensures Outside(nodes, gone + {d}) == Outside(nodes, gone)
  {
    if nodes != [] {
      OutsideUntouched(nodes[1..], gone, d);
    }
  }

  lemma {:induction false} OutsideKeepsMembers(nodes: seq<NodeProto>, gone: set<NodeProto>, d: NodeProto)
    ensures d in Outside(nodes, gone) <==> d in nodes && d !in gone
  {
    if nodes != [] {
      OutsideKeepsMembers(nodes[1..], gone, d);
    }
  }

  /** Removing the node objects of the dropped Casts leaves the survivors. */
  lemma {:induction false} OutsideIsSurvivors(nodes: seq<NodeProto>, values: seq<Node>, b: Bypass, gone: set<NodeProto>)
    requires |nodes| == |values|
    requires forall k | 0 <= k < |nodes| :: nodes[k].Value() == Rewired(b, values[k])
    requires forall k | 0 <= k < |nodes| :: nodes[k] in gone <==> values[k].output in b
    ensures Values(Outside(nodes, gone)) == Survivors(b, values)
  {
    if nodes != [] {
      OutsideIsSurvivors(nodes[1..], values[1..], b, gone);
      var rest := Outside(nodes[1..], gone);
      if nodes[0] !in gone {
        assert ([nodes[0]] + rest)[1..] == rest;
      }
    }
  }

  /** The first node equal to `d` is taken out of the list. */
  method RemoveEqual(nodes: seq<NodeProto>, d: NodeProto) returns (rest: seq<NodeProto>)
    requires d in nodes
    requires forall x, y | x in nodes && y in nodes && x.output == y.output :: x == y
    ensures exists at :: 0 <= at < |nodes| && nodes[at] == d && rest == nodes[..at] + nodes[at + 1..]
  {
    var at := 0;
    while nodes[at].Value() != d.Value()
      invariant at < |nodes| && d in nodes[at..]
      decreases |nodes| - at
    {
      at := at + 1;
    }
    rest := nodes[..at] + nodes[at + 1..];
  }

  /** The droppable Casts among the first `i` node objects, in order. */
  ghost function DroppedAmong(nodes: seq<NodeProto>, g: Graph, types: Types, i: nat): seq<NodeProto>
    requires i <= |nodes| == |g.nodes|
  {
    if i == 0 then []
    else DroppedAmong(nodes, g, types, i - 1) + if Droppable(g, types, g.nodes[i - 1]) then [nodes[i - 1]] else []
  }

  lemma {:induction false} DroppedAmongAre(nodes: seq<NodeProto>, g: Graph, types: Types, i: nat)
    requires i <= |nodes| == |g.nodes| && NoRepeats(nodes)
    ensures forall k | 0 <= k < |nodes| ::
      nodes[k] in DroppedAmong(nodes, g, types, i) <==> k < i && Droppable(g, types, g.nodes[k])
    ensures NoRepeats(DroppedAmong(nodes, g, types, i))
    ensures forall d | d in DroppedAmong(nodes, g, types, i) :: d in nodes
  {
    hide Droppable;
    if i > 0 {
      DroppedAmongAre(nodes, g, types, i - 1);
      var before := DroppedAmong(nodes, g, types, i - 1);
      assert nodes[i - 1] !in before;
    }
  }

  /** The rewiring pass: every droppable Cast bypassed, in order. */
  method RewirePass(m: ModelProto, types: Types, readers: Readers) returns (dropped: seq<NodeProto>)
    requires m.Valid() && Infer(m.inputs, Values(m.node)) == Some(types)
    requires ListsReads(readers, Values(m.node), |m.node|)
    modifies m.node
    ensures WiredUpTo(m.node, old(m.Value()), Dropped(old(m.Value())))
    ensures dropped == DroppedAmong(m.node, old(m.Value()), types, |m.node|)
  {
    hide Droppable, DroppedAmong, IndexSlot;
    ghost var g := m.Value();
    dropped := [];
    NothingRewired(m.node, g);
    NothingDropped(m.node, g, types);
    for i := 0 to |m.node|
      invariant WiredUpTo(m.node, g, BypassOf(g, types, i))
      invariant dropped == DroppedAmong(m.node, g, types, i)
    {
      var node := m.node[i];
      NodeTypeInferred(m.inputs, g.nodes, i);
      PlanNext(m.node, g, types, i);
      if node.op != Cast(Int64) {
        NotDroppable(g, types, g.nodes[i]);
        continue;
      }
      CastKeepsInput(g, types, i, i);
      TestIsDroppable(g, types, g.nodes[i], m.node, readers);
      if types[node.input[0]] != Int32 {
        continue;
      }
      var uses := ReadsOf(readers, node.output);
      if uses == [] || node.output in m.outputs || !AllTakeEither(m.node, uses) {
        continue;
      }
      NotYetBypassed(g, types, i);
      Rewire(m.node, g, BypassOf(g, types, i), uses, node.output, node.input[0]);
      dropped := dropped + [node];
    }
  }

  /** The plan and the list of what it drops, one node further. */
  lemma PlanNext(nodes: seq<NodeProto>, g: Graph, types: Types, i: nat)
    requires i < |nodes| == |g.nodes|
    ensures Droppable(g, types, g.nodes[i]) ==>
              && BypassOf(g, types, i + 1) == BypassOf(g, types, i)[g.nodes[i].output := g.nodes[i].inputs[0]]
              && DroppedAmong(nodes, g, types, i + 1) == DroppedAmong(nodes, g, types, i) + [nodes[i]]
    ensures !Droppable(g, types, g.nodes[i]) ==>
              && BypassOf(g, types, i + 1) == BypassOf(g, types, i)
              && DroppedAmong(nodes, g, types, i + 1) == DroppedAmong(nodes, g, types, i)
  {
  }

  lemma NothingDropped(nodes: seq<NodeProto>, g: Graph, types: Types)
    requires |nodes| == |g.nodes|
    ensures DroppedAmong(nodes, g, types, 0) == [] && BypassOf(g, types, 0) == map[]
  {
  }

  lemma NothingRewired(nodes: seq<NodeProto>, g: Graph)
    requires g.nodes == Values(nodes)
    ensures WiredUpTo(nodes, g, map[])
  {
    forall k | 0 <= k < |nodes| ensures Rewired(map[], g.nodes[k]) == g.nodes[k] {
      assert Rewired(map[], g.nodes[k]).inputs == g.nodes[k].inputs;
    }
  }

  lemma NotDroppable(g: Graph, types: Types, n: Node)
    requires n.op != Cast(Int64)
    ensures !Droppable(g, types, n)
  {
  }

  lemma NotYetBypassed(g: Graph, types: Types, i: nat)
    requires Infer(g.inputs, g.nodes) == Some(types) && i < |g.nodes|
    ensures g.nodes[i].output !in BypassOf(g, types, i)
  {
    hide Droppable;
    if g.nodes[i].output in BypassOf(g, types, i) {
      EarlierCast(g, types, i, g.nodes[i].output);
      var c :| 0 <= c < i && g.nodes[c].output == g.nodes[i].output;
      OutputsDiffer(g.inputs, g.nodes, c, i);
    }
  }

  lemma {:induction false} EarlierCast(g: Graph, types: Types, i: nat, x: string)
    requires i <= |g.nodes| && x in BypassOf(g, types, i)
    ensures exists c :: 0 <= c < i && g.nodes[c].output == x
  {
    hide Droppable;
    if x != g.nodes[i - 1].output {
      EarlierCast(g, types, i - 1, x);
      var c :| 0 <= c < i - 1 && g.nodes[c].output == x;
    }
  }

  /**
   The exporter's rewrite on the model it loaded. The model ends as the rewrite of the value it began with, and the
   result says whether the full check accepts it, without which nothing is written.
   */
  method NarrowIndexCasts(m: ModelProto) returns (accepted: bool)
    requires m.Valid() && Accepts(m.Value())
    modifies m, m.node
    ensures m.Valid() && m.Value() == Narrow(old(m.Value()))
    ensures accepted == Accepts(m.Value())
  {
    hide Droppable, Survivors, WiredUpTo, Narrow, ListsReads, Outside, DroppedAmong;
    ghost var g, nodes := m.Value(), m.node;
    var types := Infer(m.inputs, Values(m.node)).value;
    var readers := CollectReaders(m.node);
    var dropped := RewirePass(m, types, readers);
    DroppedAmongAre(nodes, g, types, |nodes|);
    DistinctOutputs(nodes, g, Dropped(g));
    var rest := RemoveEach(m.node, dropped);
    Rewritten(nodes, g, types, dropped);
    m.node := rest;
    accepted := Accepts(m.Value());
  }

  ghost function Members(nodes: seq<NodeProto>): set<NodeProto> {
    set d | d in nodes
  }

  lemma MembersGrow(dropped: seq<NodeProto>)
    requires NoRepeats(dropped)
    ensures Members(dropped[..0]) == {}
    ensures forall j | 0 <= j < |dropped| ::
      Members(dropped[..j + 1]) == Members(dropped[..j]) + {dropped[j]} && dropped[j] !in Members(dropped[..j])
  {
    forall j | 0 <= j < |dropped| ensures Members(dropped[..j + 1]) == Members(dropped[..j]) + {dropped[j]} {
      assert dropped[..j + 1] == dropped[..j] + [dropped[j]];
    }
  }

  lemma OutsideMembers(nodes: seq<NodeProto>, gone: set<NodeProto>)
    ensures forall x :: x in Outside(nodes, gone) <==> x in nodes && x !in gone
  {
    forall x ensures x in Outside(nodes, gone) <==> x in nodes && x !in gone {
      OutsideKeepsMembers(nodes, gone, x);
    }
  }

  /** Every node of `dropped`, one after the other, taken out of the list. */
  method RemoveEach(nodes: seq<NodeProto>, dropped: seq<NodeProto>) returns (rest: seq<NodeProto>)
    requires NoRepeats(nodes) && NoRepeats(dropped) && forall d | d in dropped :: d in nodes
    requires forall x, y | x in nodes && y in nodes && x.output == y.output :: x == y
    ensures rest == Outside(nodes, Members(dropped))
  {
    hide Outside, Members;
    rest := nodes;
    OutsideNothing(nodes);
    MembersGrow(dropped);
    for j := 0 to |dropped|
      invariant rest == Outside(nodes, Members(dropped[..j]))
    {
      var d := dropped[j];
      ghost var gone, before := Members(dropped[..j]), rest;
      OutsideMembers(nodes, gone);
      rest := RemoveEqual(rest, d);
      ghost var at :| 0 <= at < |before| && before[at] == d && rest == before[..at] + before[at + 1..];
      OutsideOneMore(nodes, gone, d, at);
    }
    assert dropped[..|dropped|] == dropped;
  }

  /** Node objects of one graph with the same output are the same object. */
  lemma DistinctOutputs(nodes: seq<NodeProto>, g: Graph, b: Bypass)
    requires Infer(g.inputs, g.nodes).Some? && WiredUpTo(nodes, g, b)
    ensures forall x, y | x in nodes && y in nodes && x.output == y.output :: x == y
  {
    forall x, y | x in nodes && y in nodes && x.output == y.output ensures x == y {
      var i :| 0 <= i < |nodes| && nodes[i] == x;
      var j :| 0 <= j < |nodes| && nodes[j] == y;
      assert nodes[i].Value() == Rewired(b, g.nodes[i]) && nodes[j].Value() == Rewired(b, g.nodes[j]);
      if i < j { OutputsDiffer(g.inputs, g.nodes, i, j); }
      if j < i { OutputsDiffer(g.inputs, g.nodes, j, i); }
    }
  }

  lemma Rewritten(nodes: seq<NodeProto>, g: Graph, types: Types, dropped: seq<NodeProto>)
    requires Infer(g.inputs, g.nodes) == Some(types) && NoRepeats(nodes) && WiredUpTo(nodes, g, Dropped(g))
    requires dropped == DroppedAmong(nodes, g, types, |nodes|)
    ensures g.(nodes := Values(Outside(nodes, Members(dropped)))) == Narrow(g)
    ensures NoRepeats(Outside(nodes, Members(dropped)))
  {
    hide Droppable;
    var gone := Members(dropped);
    DroppedAmongAre(nodes, g, types, |nodes|);
    DroppedIsPlan(g);
    forall k | 0 <= k < |nodes| ensures nodes[k] in gone <==> g.nodes[k].output in Dropped(g) {
      assert g.nodes[k] in g.nodes;
    }
    OutsideIsSurvivors(nodes, g.nodes, Dropped(g), gone);
    OutsideNoRepeats(nodes, gone);
  }

  lemma {:induction false} OutsideNoRepeats(nodes: seq<NodeProto>, gone: set<NodeProto>)
    requires NoRepeats(nodes)
    ensures NoRepeats(Outside(nodes, gone))
  {
    if nodes != [] {
      OutsideNoRepeats(nodes[1..], gone);
      OutsideKeepsMembers(nodes[1..], gone, nodes[0]);
    }
  }
}

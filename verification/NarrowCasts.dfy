/**
 Casts that widen an index for nothing: where no reader needs the wide type the Cast goes and its readers take the
 narrow value, and a type check of the whole result decides whether it may be kept.
 */
module NarrowCasts {
  import opened OnnxGraph
  import opened Wrappers

  /** The input slot at which an operator reads an int32 as well as an int64. */
  function IndexSlot(op: Op): Option<nat> {
    match op
    case Gather => Some(1)
    case GatherElements => Some(1)
    case ScatterElements(_) => Some(1)
    case Unsqueeze => Some(0)
    case Expand => Some(0)
    case Reshape => Some(0)
    case _ => None
  }

  /** Wherever the slot holds an int64, an int32 in its place types just as well. */
  ghost predicate TakesEither(op: Op, slot: nat) {
    forall ts | |ts| == Arity(op) && slot < |ts| && ts[slot] == Int64 && OutType(op, ts).Some? ::
      OutType(op, ts[slot := Int32]).Some?
  }

  /**
   The slots a Cast may be dropped from: the indices of the gathers and the scatter, and the data that Unsqueeze, Expand
   and Reshape move. Each takes either width, and of an operator's slots the only others that do are the value a Cast, a
   Shape or a gather reads.
   */
  lemma NarrowSlots(op: Op, slot: nat)
    requires slot < Arity(op)
    ensures IndexSlot(op) == Some(slot) <==>
      (slot == 1 && (op.Gather? || op.GatherElements? || op.ScatterElements?)) ||
      (slot == 0 && (op.Unsqueeze? || op.Expand? || op.Reshape?))
    ensures TakesEither(op, slot) <==>
      IndexSlot(op) == Some(slot) || (slot == 0 && (op.Cast? || op.Shape? || op.Gather? || op.GatherElements?))
  {
    var twoWide := [Int64, Int64];
    var threeWide := [Int64, Int64, Int64];
    if op.Add? || op.Sub? || op.Mul? || op.Concat? || op.Unsqueeze? || op.Expand? || op.Reshape? {
      assert twoWide[slot] == Int64 && OutType(op, twoWide).Some?;
      assert OutType(op, twoWide[slot := Int32]).Some? ==> IndexSlot(op) == Some(slot);
    }
    if op.ScatterElements? {
      assert threeWide[slot] == Int64 && OutType(op, threeWide).Some?;
      assert OutType(op, threeWide[slot := Int32]).Some? ==> IndexSlot(op) == Some(slot);
    }
  }

  predicate Reads(n: Node, slot: nat, name: string) {
    slot < |n.inputs| && n.inputs[slot] == name
  }

  /** A Cast the rewrite drops: int32 to int64, no graph output, read somewhere and only where either width is taken. */
  predicate Droppable(g: Graph, types: Types, n: Node) {
    && n.op == Cast(Int64) && |n.inputs| == 1
    && n.inputs[0] in types && types[n.inputs[0]] == Int32
    && n.output !in g.outputs
    && (exists k, slot :: 0 <= k < |g.nodes| && 0 <= slot < |g.nodes[k].inputs| && Reads(g.nodes[k], slot, n.output))
    && (forall k, slot | 0 <= k < |g.nodes| && 0 <= slot < |g.nodes[k].inputs| && Reads(g.nodes[k], slot, n.output) ::
          IndexSlot(g.nodes[k].op) == Some(slot))
  }

  /** Each dropped Cast's output with the value it was cast from. */
  type Bypass = map<string, string>

  /** The bypass of the first `k` nodes. */
  function BypassOf(g: Graph, types: Types, k: nat): Bypass
    requires k <= |g.nodes|
  {
    if k == 0 then map[]
    else
      var before, n := BypassOf(g, types, k - 1), g.nodes[k - 1];
      if Droppable(g, types, n) then before[n.output := n.inputs[0]] else before
  }

  function Renamed(b: Bypass, name: string): string {
    if name in b then b[name] else name
  }

  function Rewired(b: Bypass, n: Node): Node {
    n.(inputs := seq(|n.inputs|, i requires 0 <= i < |n.inputs| => Renamed(b, n.inputs[i])))
  }

  /** The surviving nodes, in order, each reading past the dropped Casts. */
  function Survivors(b: Bypass, nodes: seq<Node>): seq<Node> {
    if nodes == [] then []
    else (if nodes[0].output in b then [] else [Rewired(b, nodes[0])]) + Survivors(b, nodes[1..])
  }

  function Dropped(g: Graph): Bypass
    requires Infer(g.inputs, g.nodes).Some?
  {
    BypassOf(g, Infer(g.inputs, g.nodes).value, |g.nodes|)
  }

  function Narrow(g: Graph): Graph
    requires Infer(g.inputs, g.nodes).Some?
  {
    g.(nodes := Survivors(Dropped(g), g.nodes))
  }

  // ---------------------------------------------------------------- what is dropped

  /** Node `n` is a dropped Cast under the bypass, or is none of its business. */
  ghost predicate Planned(b: Bypass, types: Types, n: Node) {
    n.output in b ==> n.op == Cast(Int64) && n.inputs == [b[n.output]] && n.output in types && types[n.output] == Int64
  }

  /** Every bypassed name leads to an int32 value; every node fits the plan. */
  ghost predicate Plan(b: Bypass, types: Types, nodes: seq<Node>) {
    && (forall x | x in b :: b[x] in types && types[b[x]] == Int32 && x in types && types[x] == Int64)
    && (forall n | n in nodes :: Planned(b, types, n))
  }

  lemma {:induction false} OutputsDiffer(types: Types, nodes: seq<Node>, i: nat, j: nat)
    requires Infer(types, nodes).Some? && i < j < |nodes|
    ensures nodes[i].output != nodes[j].output
    decreases nodes
  {
    var n := nodes[0];
    var next := types[n.output := NodeType(types, n).value];
    if i == 0 {
      InferKeeps(next, nodes[1..]);
      assert nodes[j] == nodes[1..][j - 1] && nodes[j] in nodes[1..];
    } else {
      assert nodes[i] == nodes[1..][i - 1] && nodes[j] == nodes[1..][j - 1];
      OutputsDiffer(next, nodes[1..], i - 1, j - 1);
    }
  }

  lemma {:induction false} NodeTypeInferred(types: Types, nodes: seq<Node>, k: nat)
    requires Infer(types, nodes).Some? && k < |nodes|
    ensures var all := Infer(types, nodes).value;
            && nodes[k].output in all
            && (forall i | 0 <= i < |nodes[k].inputs| :: nodes[k].inputs[i] in all)
            && OutType(nodes[k].op, TypesOf(all, nodes[k].inputs)) == Some(all[nodes[k].output])
    decreases nodes
  {
    var n, all := nodes[0], Infer(types, nodes).value;
    var next := types[n.output := NodeType(types, n).value];
    InferKeeps(types, nodes);
    InferKeeps(next, nodes[1..]);
    if k == 0 {
      assert TypesOf(types, n.inputs) == TypesOf(all, n.inputs);
    } else {
      assert nodes[k] == nodes[1..][k - 1];
      NodeTypeInferred(next, nodes[1..], k - 1);
    }
  }

  /** Node `i` is a dropped Cast of `source` to `x`. */
  ghost predicate DroppedAt(g: Graph, types: Types, i: int, x: string, source: string) {
    0 <= i < |g.nodes| && Droppable(g, types, g.nodes[i]) && g.nodes[i].output == x && g.nodes[i].inputs == [source]
  }

  lemma {:induction false} BypassFollowsNodes(g: Graph, k: nat)
    requires Infer(g.inputs, g.nodes).Some? && k <= |g.nodes|
    ensures var types := Infer(g.inputs, g.nodes).value;
            var b := BypassOf(g, types, k);
            && (forall x | x in b :: exists i :: DroppedAt(g, types, i, x, b[x]))
            && (forall i | 0 <= i < k && Droppable(g, types, g.nodes[i]) :: g.nodes[i].output in b)
  {
    hide Droppable;
    var types := Infer(g.inputs, g.nodes).value;
    if k > 0 {
      BypassFollowsNodes(g, k - 1);
      var before, b, n := BypassOf(g, types, k - 1), BypassOf(g, types, k), g.nodes[k - 1];
      if Droppable(g, types, n) {
        DroppableReads(g, types, n);
        assert DroppedAt(g, types, k - 1, n.output, n.inputs[0]);
        forall x | x in b ensures exists i :: DroppedAt(g, types, i, x, b[x]) {
          if x != n.output {
            assert x in before && before[x] == b[x];
          }
        }
      }
    }
  }

  lemma DroppableReads(g: Graph, types: Types, n: Node)
    requires Droppable(g, types, n)
    ensures n.op == Cast(Int64) && |n.inputs| == 1 && n.inputs == [n.inputs[0]]
    ensures n.inputs[0] in types && types[n.inputs[0]] == Int32 && n.output !in g.outputs
  {
  }

  lemma SameNode(g: Graph, i: nat, n: Node)
    requires Infer(g.inputs, g.nodes).Some? && i < |g.nodes| && n in g.nodes && g.nodes[i].output == n.output
    ensures g.nodes[i] == n
  {
    var k :| 0 <= k < |g.nodes| && g.nodes[k] == n;
    if i < k { OutputsDiffer(g.inputs, g.nodes, i, k); }
    if k < i { OutputsDiffer(g.inputs, g.nodes, k, i); }
  }

  /** The bypass of a well-typed graph: exactly the droppable Casts, each leading to an int32 value that survives. */
  lemma DroppedIsPlan(g: Graph)
    requires Infer(g.inputs, g.nodes).Some?
    ensures Plan(Dropped(g), Infer(g.inputs, g.nodes).value, g.nodes)
    ensures forall n | n in g.nodes :: n.output in Dropped(g) <==> Droppable(g, Infer(g.inputs, g.nodes).value, n)
    ensures forall x | x in Dropped(g) :: x !in g.outputs && x !in g.inputs
  {
    hide Droppable;
    var types, b := Infer(g.inputs, g.nodes).value, Dropped(g);
    BypassFollowsNodes(g, |g.nodes|);
    InferKeeps(g.inputs, g.nodes);
    forall x | x in b
      ensures b[x] in types && types[b[x]] == Int32 && x in types && types[x] == Int64 && x !in g.outputs &&
              x !in g.inputs
    {
      var i :| DroppedAt(g, types, i, x, b[x]);
      DroppableReads(g, types, g.nodes[i]);
      NodeTypeInferred(g.inputs, g.nodes, i);
      assert g.nodes[i] in g.nodes;
    }
    forall n | n in g.nodes ensures Planned(b, types, n) && (n.output in b <==> Droppable(g, types, n)) {
      if n.output in b {
        var i :| DroppedAt(g, types, i, n.output, b[n.output]);
        SameNode(g, i, n);
        DroppableReads(g, types, n);
      }
    }
  }

  // ---------------------------------------------------------------- form

  /** Nodes that read only what is defined before them and define each name once. */
  ghost predicate Ordered(names: set<string>, nodes: seq<Node>)
    decreases nodes
  {
    nodes != [] ==>
      && (forall i | 0 <= i < |nodes[0].inputs| :: nodes[0].inputs[i] in names)
      && nodes[0].output !in names
      && Ordered(names + {nodes[0].output}, nodes[1..])
  }

  /** A survivor reads only what is typed and not bypassed. */
  lemma SurvivorReads(types: Types, b: Bypass, all: Types, n: Node)
    requires NodeType(types, n).Some? && forall x | x in types && x in b :: b[x] in types
    requires forall x | x in b :: b[x] in all && all[b[x]] == Int32 && x in all && all[x] == Int64
    ensures forall i | 0 <= i < |n.inputs| :: Rewired(b, n).inputs[i] in types.Keys - b.Keys
  {
    forall i | 0 <= i < |n.inputs| ensures Rewired(b, n).inputs[i] in types.Keys - b.Keys {
      assert n.inputs[i] in types;
    }
  }

  lemma {:induction false} SurvivorsOrdered(types: Types, nodes: seq<Node>, b: Bypass, all: Types)
    requires Infer(types, nodes) == Some(all) && Plan(b, all, nodes)
    requires forall x | x in types && x in b :: b[x] in types
    ensures Ordered(types.Keys - b.Keys, Survivors(b, nodes))
    ensures forall n | n in Survivors(b, nodes) :: n.output !in b && forall i | 0 <= i < |n.inputs| :: n.inputs[i] !in b
    decreases nodes
  {
    if nodes != [] {
      var n := nodes[0];
      var next := types[n.output := NodeType(types, n).value];
      InferKeeps(types, nodes);
      assert Planned(b, all, n);
      assert forall m | m in nodes[1..] :: m in nodes;
      if n.output in b {
        assert n.inputs[0] == b[n.output];
        assert next.Keys - b.Keys == types.Keys - b.Keys;
        assert Survivors(b, nodes) == Survivors(b, nodes[1..]);
        SurvivorsOrdered(next, nodes[1..], b, all);
      } else {
        SurvivorsOrdered(next, nodes[1..], b, all);
        assert next.Keys - b.Keys == (types.Keys - b.Keys) + {n.output};
        var s := Survivors(b, nodes);
        assert s[0] == Rewired(b, n) && s[1..] == Survivors(b, nodes[1..]);
        SurvivorReads(types, b, all, n);
        hide NodeType, Infer, Plan, Planned, Rewired;
      }
    }
  }

  /**
   The rewrite keeps the graph in order: every surviving node still reads only inputs and earlier nodes' outputs, each
   name is still defined once, no dropped Cast's output is read or defined any more, and every graph output is still
   there. This needs no type check of the result.
   */
  lemma NarrowKeepsOrder(g: Graph)
    requires Accepts(g)
    ensures Ordered(g.inputs.Keys, Narrow(g).nodes)
    ensures forall n | n in Narrow(g).nodes ::
      n.output !in Dropped(g) && forall i | 0 <= i < |n.inputs| :: n.inputs[i] !in Dropped(g)
    ensures forall o | o in g.outputs :: o in g.inputs || exists n :: n in Narrow(g).nodes && n.output == o
  {
    DroppedIsPlan(g);
    var types, b := Infer(g.inputs, g.nodes).value, Dropped(g);
    assert g.inputs.Keys - b.Keys == g.inputs.Keys;
    SurvivorsOrdered(g.inputs, g.nodes, b, types);
    forall o | o in g.outputs && o !in g.inputs ensures exists n :: n in Narrow(g).nodes && n.output == o {
      DefinedBySome(g.inputs, g.nodes, o);
      var n :| n in g.nodes && n.output == o;
      SurvivorOf(b, g.nodes, n);
    }
  }

  lemma {:induction false} DefinedBySome(types: Types, nodes: seq<Node>, x: string)
    requires Infer(types, nodes).Some? && x in Infer(types, nodes).value && x !in types
    ensures exists n :: n in nodes && n.output == x
    decreases nodes
  {
    var n := nodes[0];
    if n.output == x {
      assert n in nodes;
    } else {
      DefinedBySome(types[n.output := NodeType(types, n).value], nodes[1..], x);
      var m :| m in nodes[1..] && m.output == x;
      assert m in nodes;
    }
  }

  lemma {:induction false} SurvivorOf(b: Bypass, nodes: seq<Node>, n: Node)
    requires n in nodes && n.output !in b
    ensures Rewired(b, n) in Survivors(b, nodes)
  {
    if nodes[0] != n {
      SurvivorOf(b, nodes[1..], n);
    }
  }

  // ---------------------------------------------------------------- types and values under the rewrite

  ghost predicate SameOrNarrower(t: DType, t': DType) {
    t' == t || (t == Int64 && t' == Int32)
  }

  /** Where inputs keep their type or go from int64 to int32, so does the output. */
  lemma NarrowedType(op: Op, ts: seq<DType>, ts': seq<DType>)
    requires |ts| == |ts'| && forall i | 0 <= i < |ts| :: SameOrNarrower(ts[i], ts'[i])
    requires OutType(op, ts).Some? && OutType(op, ts').Some?
    ensures SameOrNarrower(OutType(op, ts).value, OutType(op, ts').value)
  {
    assert |ts| > 0 ==> SameOrNarrower(ts[0], ts'[0]);
  }

  /** The original's types and the rewritten graph's, name by name. */
  ghost predicate TypesFollow(b: Bypass, types: Types, types': Types) {
    && types'.Keys == types.Keys - b.Keys
    && (forall x | x in types && x in b :: b[x] in types && b[x] !in b && types[x] == Int64 && types'[b[x]] == Int32)
    && (forall x | x in types' :: SameOrNarrower(types[x], types'[x]))
  }

  /** The original's values and the rewritten graph's, name by name. */
  ghost predicate Simulates(b: Bypass, types: Types, env: Env, types': Types, env': Env) {
    && TypesFollow(b, types, types') && Matches(types, env) && Matches(types', env')
    && (forall x | x in types && x in b :: env[x].content == env[b[x]].content)
    && (forall x | x in types' :: env'[x].content == env[x].content)
  }

  /** Every value the rewrite retypes from int64 to int32 fits 32 bits. */
  ghost predicate NarrowedFit(types: Types, env: Env, types': Types) {
    forall x | x in types' && x in types && x in env && types'[x] != types[x] :: Fits(Int32, env[x].content.data)
  }

  lemma SameInputTypes(b: Bypass, types: Types, types': Types, n: Node)
    requires TypesFollow(b, types, types')
    requires NodeType(types, n).Some? && NodeType(types', Rewired(b, n)).Some?
    ensures forall i | 0 <= i < |n.inputs| :: n.inputs[i] in types && Rewired(b, n).inputs[i] in types'
    ensures forall i | 0 <= i < |n.inputs| :: SameOrNarrower(types[n.inputs[i]], types'[Rewired(b, n).inputs[i]])
    ensures SameOrNarrower(NodeType(types, n).value, NodeType(types', Rewired(b, n)).value)
  {
    var r := Rewired(b, n);
    forall i | 0 <= i < |n.inputs|
      ensures n.inputs[i] in types && r.inputs[i] in types' && SameOrNarrower(types[n.inputs[i]], types'[r.inputs[i]])
    {
      assert r.inputs[i] == Renamed(b, n.inputs[i]);
    }
    NarrowedType(n.op, TypesOf(types, n.inputs), TypesOf(types', r.inputs));
  }

  lemma SameInputs(b: Bypass, types: Types, env: Env, types': Types, env': Env, n: Node)
    requires Simulates(b, types, env, types', env')
    requires NodeType(types, n).Some? && NodeType(types', Rewired(b, n)).Some?
    ensures forall i | 0 <= i < |n.inputs| :: n.inputs[i] in env && Rewired(b, n).inputs[i] in env'
    ensures ContentsOf(env', Rewired(b, n).inputs) == ContentsOf(env, n.inputs)
    ensures SameOrNarrower(NodeType(types, n).value, NodeType(types', Rewired(b, n)).value)
  {
    SameInputTypes(b, types, types', n);
    var r := Rewired(b, n);
    forall i | 0 <= i < |n.inputs| ensures env'[r.inputs[i]].content == env[n.inputs[i]].content {
      assert r.inputs[i] == Renamed(b, n.inputs[i]);
    }
  }

  /** Narrowing a result's type keeps its elements when the wide result fits. */
  lemma NarrowedResult(t: DType, t': DType, data: seq<int>)
    requires SameOrNarrower(t, t')
    requires t != t' ==> Fits(Int32, Wrap(t, data))
    ensures Wrap(t', data) == Wrap(t, data)
  {
    if t != t' {
      forall i | 0 <= i < |data| ensures Wrap(t', data)[i] == Wrap(t, data)[i] {
        assert FitsOne(Int32, Wrap(t, data)[i]);
        NarrowWrap(data[i]);
      }
    }
  }

  /** A surviving node computes the same contents, provided a retyped result fits. */
  lemma SurvivorStep(b: Bypass, types: Types, env: Env, types': Types, env': Env, n: Node)
    requires Simulates(b, types, env, types', env') && n.output !in b
    requires NodeType(types, n).Some? && NodeType(types', Rewired(b, n)).Some?
    ensures NodeValue(env, n).Some? <==> NodeValue(env', Rewired(b, n)).Some?
    ensures NodeValue(env, n).Some? &&
            (NodeType(types, n) != NodeType(types', Rewired(b, n)) ==>
               Fits(Int32, NodeValue(env, n).value.content.data)) ==>
            Simulates(b, types[n.output := NodeType(types, n).value], env[n.output := NodeValue(env, n).value],
                      types'[n.output := NodeType(types', Rewired(b, n)).value],
                      env'[n.output := NodeValue(env', Rewired(b, n)).value])
  {
    SameInputs(b, types, env, types', env', n);
    NodeValueTyped(types, env, n);
    NodeValueTyped(types', env', Rewired(b, n));
    var t, t' := NodeType(types, n).value, NodeType(types', Rewired(b, n)).value;
    var exact := Exact(n.op, ContentsOf(env, n.inputs));
    if exact.Some? && (t != t' ==> Fits(Int32, Wrap(t, exact.value.data))) {
      NarrowedResult(t, t', exact.value.data);
      ExtendSimulation(b, types, env, types', env', n.output, t, t', Typed(t, exact.value), Typed(t', exact.value));
    }
  }

  lemma ExtendSimulation(b: Bypass, types: Types, env: Env, types': Types, env': Env, x: string,
                         t: DType, t': DType, v: Tensor, v': Tensor)
    requires Simulates(b, types, env, types', env') && x !in b && x !in types
    requires SameOrNarrower(t, t') && v.dtype == t && v'.dtype == t' && v.content == v'.content
    requires Fits(t, v.content.data) && Fits(t', v'.content.data)
    ensures Simulates(b, types[x := t], env[x := v], types'[x := t'], env'[x := v'])
  {
    assert x !in types';
    ExtendTypes(b, types, types', x, t, t');
    assert Matches(types[x := t], env[x := v]) && Matches(types'[x := t'], env'[x := v']);
  }

  lemma ExtendTypes(b: Bypass, types: Types, types': Types, x: string, t: DType, t': DType)
    requires TypesFollow(b, types, types') && x !in b && x !in types && SameOrNarrower(t, t')
    ensures TypesFollow(b, types[x := t], types'[x := t'])
  {
  }

  /** A dropped Cast's value is the value it was cast from. */
  lemma DroppedStep(b: Bypass, types: Types, env: Env, types': Types, env': Env, n: Node, all: Types)
    requires Simulates(b, types, env, types', env')
    requires n.output in b && NodeType(types, n).Some? && Planned(b, all, n)
    requires b[n.output] in all && all[b[n.output]] == Int32 && b[n.output] !in b
    requires forall x | x in types :: x in all && all[x] == types[x]
    ensures NodeValue(env, n).Some?
    ensures Simulates(b, types[n.output := NodeType(types, n).value], env[n.output := NodeValue(env, n).value],
                      types', env')
  {
    NodeValueTyped(types, env, n);
    var source := n.inputs[0];
    assert types[source] == Int32 && Fits(Int32, env[source].content.data);
    assert Fits(Int64, env[source].content.data);
    assert ContentsOf(env, n.inputs)[0] == env[source].content;
    CastKeepsContent(env, n);
    hide Fits, NodeType, NodeValue, Planned, ContentsOf;
  }

  /** A Cast to int64 of an int32 value leaves its contents. */
  lemma CastKeepsContent(env: Env, n: Node)
    requires n.op == Cast(Int64) && |n.inputs| == 1 && n.inputs[0] in env && NodeValue(env, n).Some?
    requires Fits(Int64, env[n.inputs[0]].content.data)
    ensures NodeValue(env, n).value.content == env[n.inputs[0]].content
  {
    assert ContentsOf(env, n.inputs)[0] == env[n.inputs[0]].content;
  }

  /** What the lock-step run of the two node lists rests on. */
  ghost predicate LockStep(b: Bypass, types: Types, env: Env, types': Types, env': Env, nodes: seq<Node>) {
    && Simulates(b, types, env, types', env')
    && Infer(types, nodes).Some? && Infer(types', Survivors(b, nodes)).Some?
    && Plan(b, Infer(types, nodes).value, nodes)
  }

  ghost function NextTypes(types: Types, n: Node): Types {
    if NodeType(types, n).Some? then types[n.output := NodeType(types, n).value] else types
  }

  ghost function NextEnv(env: Env, n: Node): Env {
    if NodeValue(env, n).Some? then env[n.output := NodeValue(env, n).value] else env
  }

  /** The lock step past a dropped Cast: only the original moves. */
  lemma PastDropped(b: Bypass, types: Types, env: Env, types': Types, env': Env, nodes: seq<Node>)
    requires LockStep(b, types, env, types', env', nodes)
    requires nodes != [] && nodes[0].output in b
    ensures NodeValue(env, nodes[0]).Some?
    ensures Survivors(b, nodes) == Survivors(b, nodes[1..])
    ensures LockStep(b, NextTypes(types, nodes[0]), NextEnv(env, nodes[0]), types', env', nodes[1..])
  {
    var n, all, rest := nodes[0], Infer(types, nodes).value, nodes[1..];
    InferKeeps(types, nodes);
    assert Survivors(b, nodes) == Survivors(b, rest);
    assert Planned(b, all, n) && forall m | m in rest :: m in nodes;
    DroppedStep(b, types, env, types', env', n, all);
  }

  /** The lock step past a survivor: both move, and stay together if a retyped result fits. */
  lemma PastSurvivor(b: Bypass, types: Types, env: Env, types': Types, env': Env, nodes: seq<Node>)
    requires LockStep(b, types, env, types', env', nodes)
    requires nodes != [] && nodes[0].output !in b
    ensures Survivors(b, nodes) == [Rewired(b, nodes[0])] + Survivors(b, nodes[1..])
    ensures NodeValue(env, nodes[0]).Some? <==> NodeValue(env', Rewired(b, nodes[0])).Some?
    ensures NodeType(types, nodes[0]).Some? && NodeType(types', Rewired(b, nodes[0])).Some?
    ensures NodeValue(env, nodes[0]).Some? && (NodeType(types, nodes[0]) != NodeType(types', Rewired(b, nodes[0])) ==>
                                                 Fits(Int32, NodeValue(env, nodes[0]).value.content.data)) ==>
      LockStep(b, NextTypes(types, nodes[0]), NextEnv(env, nodes[0]), NextTypes(types', Rewired(b, nodes[0])),
               NextEnv(env', Rewired(b, nodes[0])), nodes[1..])
  {
    var n, rest, s := nodes[0], nodes[1..], Survivors(b, nodes);
    assert s[0] == Rewired(b, n) && s[1..] == Survivors(b, rest);
    assert forall m | m in rest :: m in nodes;
    SurvivorStep(b, types, env, types', env', n);
  }

  lemma {:induction false} RunInLockStep(b: Bypass, types: Types, env: Env, types': Types, env': Env, nodes: seq<Node>)
    requires LockStep(b, types, env, types', env', nodes)
    requires Run(env, nodes).Some?
    requires NarrowedFit(Infer(types, nodes).value, Run(env, nodes).value, Infer(types', Survivors(b, nodes)).value)
    ensures Run(env', Survivors(b, nodes)).Some?
    ensures Simulates(b, Infer(types, nodes).value, Run(env, nodes).value,
                      Infer(types', Survivors(b, nodes)).value, Run(env', Survivors(b, nodes)).value)
    decreases nodes
  {
    if nodes != [] {
      var n, rest := nodes[0], nodes[1..];
      if n.output in b {
        PastDropped(b, types, env, types', env', nodes);
        RunInLockStep(b, NextTypes(types, n), NextEnv(env, n), types', env', rest);
      } else {
        PastSurvivor(b, types, env, types', env', nodes);
        RetypedFits(b, types, env, types', env', nodes);
        RunInLockStep(b, NextTypes(types, n), NextEnv(env, n),
                      NextTypes(types', Rewired(b, n)), NextEnv(env', Rewired(b, n)), rest);
      }
    }
  }

  /** A node's own result is among the values that fit at the end. */
  lemma RetypedFits(b: Bypass, types: Types, env: Env, types': Types, env': Env, nodes: seq<Node>)
    requires LockStep(b, types, env, types', env', nodes)
    requires nodes != [] && nodes[0].output !in b && Run(env, nodes).Some?
    requires NarrowedFit(Infer(types, nodes).value, Run(env, nodes).value, Infer(types', Survivors(b, nodes)).value)
    ensures NodeType(types, nodes[0]).Some? && NodeType(types', Rewired(b, nodes[0])).Some? &&
            NodeValue(env, nodes[0]).Some?
    ensures NodeType(types, nodes[0]) != NodeType(types', Rewired(b, nodes[0])) ==>
              Fits(Int32, NodeValue(env, nodes[0]).value.content.data)
  {
    var n, rest, s := nodes[0], nodes[1..], Survivors(b, nodes);
    assert s[0] == Rewired(b, n) && s[1..] == Survivors(b, rest);
    InferKeeps(NextTypes(types, n), rest);
    InferKeeps(NextTypes(types', s[0]), s[1..]);
    NodeValueTyped(types, env, n);
    RunKeeps(NextTypes(types, n), NextEnv(env, n), rest);
  }

  lemma StartsInLockStep(g: Graph, env: Env)
    requires Accepts(g) && Accepts(Narrow(g)) && Matches(g.inputs, env)
    ensures LockStep(Dropped(g), g.inputs, env, g.inputs, env, g.nodes)
  {
    DroppedIsPlan(g);
    var b := Dropped(g);
    assert g.inputs.Keys - b.Keys == g.inputs.Keys;
  }

  /** Every surviving name holds the same shape and integers in both runs. */
  ghost predicate SameContents(env: Env, env': Env) {
    forall x | x in env' :: x in env && env'[x].content == env[x].content
  }

  /** Each surviving name keeps its type or goes from int64 to int32. */
  lemma NarrowedTypes(g: Graph)
    requires Accepts(g) && Accepts(Narrow(g))
    ensures TypesFollow(Dropped(g), Infer(g.inputs, g.nodes).value, Infer(g.inputs, Narrow(g).nodes).value)
  {
    DroppedIsPlan(g);
    assert g.inputs.Keys - Dropped(g).Keys == g.inputs.Keys;
    TypesInLockStep(Dropped(g), g.inputs, g.inputs, g.nodes);
  }

  lemma {:induction false} TypesInLockStep(b: Bypass, types: Types, types': Types, nodes: seq<Node>)
    requires TypesFollow(b, types, types')
    requires Infer(types, nodes).Some? && Infer(types', Survivors(b, nodes)).Some?
    requires Plan(b, Infer(types, nodes).value, nodes)
    ensures TypesFollow(b, Infer(types, nodes).value, Infer(types', Survivors(b, nodes)).value)
    decreases nodes
  {
    if nodes != [] {
      var n, rest := nodes[0], nodes[1..];
      InferKeeps(types, nodes);
      InferKeeps(NextTypes(types, n), rest);
      assert Planned(b, Infer(types, nodes).value, n) && forall m | m in rest :: m in nodes;
      if n.output in b {
        assert n.inputs[0] == b[n.output];
        assert Survivors(b, nodes) == Survivors(b, rest);
        TypesInLockStep(b, NextTypes(types, n), types', rest);
      } else {
        var s := Survivors(b, nodes);
        assert s[0] == Rewired(b, n) && s[1..] == Survivors(b, rest);
        SameInputTypes(b, types, types', n);
        ExtendTypes(b, types, types', n.output, NodeType(types, n).value, NodeType(types', s[0]).value);
        TypesInLockStep(b, NextTypes(types, n), NextTypes(types', s[0]), rest);
      }
    }
  }

  // ---------------------------------------------------------------- which names are retyped

  /** An operator whose output has the type of its first input. */
  predicate Carries(op: Op) {
    !op.Cast? && !op.Shape?
  }

  /**
   The names retyped, told forwards from the dropped Casts: what carries the type of a dropped output or a retyped name.
   */
  function RetypedFrom(dropped: set<string>, known: set<string>, nodes: seq<Node>): set<string>
    decreases nodes
  {
    if nodes == [] then known
    else
      var n := nodes[0];
      var hit := n.output !in dropped && Carries(n.op) && |n.inputs| > 0 && n.inputs[0] in dropped + known;
      RetypedFrom(dropped, if hit then known + {n.output} else known, nodes[1..])
  }

  function Retyped(g: Graph): set<string>
    requires Infer(g.inputs, g.nodes).Some?
  {
    RetypedFrom(Dropped(g).Keys, {}, g.nodes)
  }

  /** The known names are those whose types differ so far. */
  ghost predicate KnownRight(types: Types, types': Types, known: set<string>) {
    forall x :: x in known <==> x in types' && x in types && types'[x] != types[x]
  }

  lemma CarriedType(b: Bypass, types: Types, types': Types, known: set<string>, n: Node)
    requires TypesFollow(b, types, types') && KnownRight(types, types', known) && n.output !in b
    requires NodeType(types, n).Some? && NodeType(types', Rewired(b, n)).Some?
    ensures NodeType(types, n) != NodeType(types', Rewired(b, n)) <==>
            Carries(n.op) && |n.inputs| > 0 && n.inputs[0] in b.Keys + known
  {
    SameInputTypes(b, types, types', n);
    if |n.inputs| > 0 {
      assert Rewired(b, n).inputs[0] == Renamed(b, n.inputs[0]);
      var ts, ts' := TypesOf(types, n.inputs), TypesOf(types', Rewired(b, n).inputs);
      assert ts[0] == types[n.inputs[0]] && ts'[0] == types'[Renamed(b, n.inputs[0])];
    }
  }

  lemma {:induction false} RetypedInLockStep(b: Bypass, types: Types, types': Types, known: set<string>,
                                             nodes: seq<Node>)
    requires TypesFollow(b, types, types') && KnownRight(types, types', known)
    requires Infer(types, nodes).Some? && Infer(types', Survivors(b, nodes)).Some?
    requires Plan(b, Infer(types, nodes).value, nodes)
    ensures KnownRight(Infer(types, nodes).value, Infer(types', Survivors(b, nodes)).value,
                       RetypedFrom(b.Keys, known, nodes))
    decreases nodes
  {
    hide KnownRight, TypesFollow, OutType;
    if nodes != [] {
      var n, rest := nodes[0], nodes[1..];
      InferKeeps(types, nodes);
      InferKeeps(NextTypes(types, n), rest);
      assert Planned(b, Infer(types, nodes).value, n) && forall m | m in rest :: m in nodes;
      if n.output in b {
        assert n.inputs[0] == b[n.output];
        assert Survivors(b, nodes) == Survivors(b, rest);
        DroppedFollows(b, types, types', n, Infer(types, nodes).value);
        DroppedKnown(types, types', known, n, b);
        RetypedInLockStep(b, NextTypes(types, n), types', known, rest);
      } else {
        var s := Survivors(b, nodes);
        assert s[0] == Rewired(b, n) && s[1..] == Survivors(b, rest);
        SurvivorFollows(b, types, types', n);
        CarriedType(b, types, types', known, n);
        var more := if NodeType(types, n) != NodeType(types', s[0]) then known + {n.output} else known;
        KnownMore(types, types', known, n.output, NodeType(types, n).value, NodeType(types', s[0]).value);
        RetypedInLockStep(b, NextTypes(types, n), NextTypes(types', s[0]), more, rest);
      }
    }
  }

  lemma DroppedFollows(b: Bypass, types: Types, types': Types, n: Node, all: Types)
    requires TypesFollow(b, types, types') && n.output in b && NodeType(types, n).Some? && Planned(b, all, n)
    requires Plan(b, all, [n]) && forall x | x in NextTypes(types, n) :: x in all && all[x] == NextTypes(types, n)[x]
    ensures TypesFollow(b, NextTypes(types, n), types')
  {
    assert n.inputs[0] == b[n.output];
  }

  lemma DroppedKnown(types: Types, types': Types, known: set<string>, n: Node, b: Bypass)
    requires KnownRight(types, types', known) && TypesFollow(b, types, types') && n.output in b &&
             NodeType(types, n).Some?
    ensures KnownRight(NextTypes(types, n), types', known)
  {
  }

  lemma SurvivorFollows(b: Bypass, types: Types, types': Types, n: Node)
    requires TypesFollow(b, types, types') && n.output !in b
    requires NodeType(types, n).Some? && NodeType(types', Rewired(b, n)).Some?
    ensures TypesFollow(b, NextTypes(types, n), NextTypes(types', Rewired(b, n)))
  {
    SameInputTypes(b, types, types', n);
    ExtendTypes(b, types, types', n.output, NodeType(types, n).value, NodeType(types', Rewired(b, n)).value);
  }

  lemma KnownMore(types: Types, types': Types, known: set<string>, x: string, t: DType, t': DType)
    requires KnownRight(types, types', known) && x !in types && x !in types'
    ensures KnownRight(types[x := t], types'[x := t'], if t != t' then known + {x} else known)
  {
  }

  /** The retyped names, found before the rewrite, are those whose types differ after it. */
  lemma RetypedExactly(g: Graph)
    requires Accepts(g) && Accepts(Narrow(g))
    ensures KnownRight(Infer(g.inputs, g.nodes).value, Infer(g.inputs, Narrow(g).nodes).value, Retyped(g))
  {
    DroppedIsPlan(g);
    assert g.inputs.Keys - Dropped(g).Keys == g.inputs.Keys;
    assert TypesFollow(Dropped(g), g.inputs, g.inputs);
    RetypedInLockStep(Dropped(g), g.inputs, g.inputs, {}, g.nodes);
  }

  /** Every retyped value of a run fits 32 bits. */
  ghost predicate RetypedFit(g: Graph, env: Env)
    requires Infer(g.inputs, g.nodes).Some?
  {
    forall x | x in Retyped(g) && x in env :: Fits(Int32, env[x].content.data)
  }

  /**
   When the rewrite preserves meaning: on a run of a well-typed graph whose narrowed form passes the type check, the
   narrowed graph runs and gives every surviving value the same contents exactly when every retyped value fits 32 bits
   in the original run; which values are retyped is told from the original graph alone.
   */
  lemma NarrowPreservesRunIff(g: Graph, env: Env)
    requires Accepts(g) && Accepts(Narrow(g)) && Matches(g.inputs, env)
    requires Run(env, g.nodes).Some?
    ensures (Run(env, Narrow(g).nodes).Some? && SameContents(Run(env, g.nodes).value, Run(env, Narrow(g).nodes).value))
      <==> RetypedFit(g, Run(env, g.nodes).value)
  {
    StartsInLockStep(g, env);
    FitsAlike(g, env);
    var types', after := Infer(g.inputs, Narrow(g).nodes).value, Run(env, Narrow(g).nodes);
    if NarrowedFit(Infer(g.inputs, g.nodes).value, Run(env, g.nodes).value, types') {
      RunInLockStep(Dropped(g), g.inputs, env, g.inputs, env, g.nodes);
    } else if after.Some? && SameContents(Run(env, g.nodes).value, after.value) {
      NarrowedTypes(g);
      RunKeeps(g.inputs, env, Narrow(g).nodes);
      assert false;
    }
  }

  /** The condition on the retyped names, as the lock step uses it. */
  lemma FitsAlike(g: Graph, env: Env)
    requires Accepts(g) && Accepts(Narrow(g)) && Matches(g.inputs, env) && Run(env, g.nodes).Some?
    ensures RetypedFit(g, Run(env, g.nodes).value) <==>
      NarrowedFit(Infer(g.inputs, g.nodes).value, Run(env, g.nodes).value, Infer(g.inputs, Narrow(g).nodes).value)
  {
    hide Run, Infer, Retyped, Narrow;
    RetypedExactly(g);
  }
}

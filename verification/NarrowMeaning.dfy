/**
 What the Cast rewrite means for a whole graph: where no wrapping arithmetic is retyped it changes nothing, for every
 input; where some is, the type check can pass and the answer change.
 */
module NarrowMeaning {
  import opened OnnxGraph
  import opened NarrowCasts
  import opened Wrappers

  /** Operators whose result can leave the range of what they read. */
  predicate Wraps(op: Op) {
    op.Add? || op.Sub? || op.Mul? || op == ScatterElements(Sum)
  }

  // ---------------------------------------------------------------- data movement stays in range

  lemma {:induction false} FlattenFits(t: DType, rows: seq<seq<int>>)
    requires forall r | r in rows :: Fits(t, r)
    ensures Fits(t, Flatten(rows))
  {
    if rows != [] {
      assert rows[0] in rows && forall r | r in rows[1..] :: r in rows;
      FlattenFits(t, rows[1..]);
    }
  }

  lemma {:induction false} SpreadFits(t: DType, from: seq<nat>, to: seq<nat>, data: seq<int>)
    requires |from| == |to| && Fits(t, data)
    ensures Fits(t, Spread(from, to, data))
    decreases |from|
  {
    if from != [] {
      var row := Product(from[1..]);
      var parts := seq(to[0], (i: nat) => Spread(from[1..], to[1..], Row(data, row, if from[0] == 1 then 0 else i)));
      forall i | 0 <= i < |parts| ensures Fits(t, parts[i]) {
        RowFits(t, data, row, if from[0] == 1 then 0 else i);
        SpreadFits(t, from[1..], to[1..], Row(data, row, if from[0] == 1 then 0 else i));
      }
      FlattenFits(t, parts);
    }
  }

  lemma {:induction false} ScatteredFits(t: DType, reduction: Reduction, data: Content, index: Content,
                                         updates: seq<int>, n: nat)
    requires Addresses(data, index) && n <= |index.data| == |updates|
    requires reduction != Sum && Fits(t, data.data) && Fits(t, updates)
    ensures Fits(t, Scattered(reduction, data, index, updates, n))
  {
    if n > 0 {
      ScatteredFits(t, reduction, data, index, updates, n - 1);
    }
  }

  /** An operator that only moves its data operands' elements stays in their range. */
  lemma MovesInRange(t: DType, op: Op, ins: seq<Content>)
    requires |ins| == Arity(op) && !Wraps(op) && !op.Cast? && !op.Shape?
    requires Fits(t, ins[0].data)
    requires op.ScatterElements? ==> Fits(t, ins[2].data)
    requires op.Concat? ==> Fits(t, ins[1].data)
    requires Exact(op, ins).Some?
    ensures Fits(t, Exact(op, ins).value.data)
  {
    match op
    case Gather => GatherFits(t, ins[0], ins[1]);
    case Unsqueeze =>
    case GatherElements =>
    case Reshape =>
    case Concat =>
    case ScatterElements(reduction) =>
      ScatteredFits(t, reduction, ins[0], ins[1], ins[2].data, |ins[1].data|);
    case Expand =>
      BroadcastFits(t, ins[0], ins[1]);
  }

  lemma GatherFits(t: DType, data: Content, index: Content)
    requires Fits(t, data.data) && GatherRows(data, index).Some?
    ensures Fits(t, GatherRows(data, index).value.data)
  {
    var rows := GatheredRows(data, index);
    forall r | r in rows ensures Fits(t, r) {
      var i :| 0 <= i < |rows| && rows[i] == r;
      RowFits(t, data.data, Product(data.shape[1..]), Position(index.data[i], data.shape[0]).value);
    }
    FlattenFits(t, rows);
  }

  lemma RowFits(t: DType, data: seq<int>, row: nat, at: nat)
    requires Fits(t, data)
    ensures Fits(t, Row(data, row, at))
  {
    var lo, hi := at * row, (at + 1) * row;
  }

  lemma BroadcastFits(t: DType, data: Content, target: Content)
    requires Fits(t, data.data) && Broadcast(data, target).Some?
    ensures Fits(t, Broadcast(data, target).value.data)
  {
    var wanted := seq(|target.data|, i requires 0 <= i < |target.data| =>
      if target.data[i] < 0 then 0 else target.data[i]);
    var rank := if |data.shape| < |wanted| then |wanted| else |data.shape|;
    var from, to := Padded(data.shape, rank), Padded(wanted, rank);
    var shape := seq(|from|, i requires 0 <= i < |from| => if to[i] == 1 then from[i] else to[i]);
    SpreadFits(t, from, shape, data.data);
  }

  // ---------------------------------------------------------------- no arithmetic retyped: nothing changes

  /** No operator that can wrap has its output retyped. */
  ghost predicate ArithmeticKeepsType(types: Types, types': Types, nodes: seq<Node>) {
    forall n | n in nodes && Wraps(n.op) && n.output in types && n.output in types' ::
      types'[n.output] == types[n.output]
  }

  /** An input whose type narrows holds integers that fit. */
  lemma NarrowedInputFits(b: Bypass, types: Types, env: Env, types': Types, env': Env, n: Node, i: nat)
    requires Simulates(b, types, env, types', env') && NarrowedFit(types, env, types')
    requires NodeType(types, n).Some? && NodeType(types', Rewired(b, n)).Some?
    requires i < |n.inputs|
    ensures n.inputs[i] in types && Rewired(b, n).inputs[i] in types' && n.inputs[i] in env
    ensures types'[Rewired(b, n).inputs[i]] != types[n.inputs[i]] ==> Fits(Int32, env[n.inputs[i]].content.data)
  {
    SameInputTypes(b, types, types', n);
    assert Rewired(b, n).inputs[i] == Renamed(b, n.inputs[i]);
  }

  /** A result that is retyped without arithmetic fits. */
  lemma NarrowedResultFits(b: Bypass, types: Types, env: Env, types': Types, env': Env, n: Node)
    requires Simulates(b, types, env, types', env') && NarrowedFit(types, env, types')
    requires NodeType(types, n).Some? && NodeType(types', Rewired(b, n)).Some? && NodeValue(env, n).Some?
    requires NodeType(types, n) != NodeType(types', Rewired(b, n)) && !Wraps(n.op)
    ensures Fits(Int32, NodeValue(env, n).value.content.data)
  {
    NodeValueTyped(types, env, n);
    SameInputTypes(b, types, types', n);
    var ins := ContentsOf(env, n.inputs);
    var ts, ts' := TypesOf(types, n.inputs), TypesOf(types', Rewired(b, n).inputs);
    assert ts[0] != ts'[0];
    NarrowedInputFits(b, types, env, types', env', n, 0);
    if n.op.ScatterElements? {
      assert ts[2] != ts'[2];
      NarrowedInputFits(b, types, env, types', env', n, 2);
    }
    if n.op.Concat? {
      assert ts[1] != ts'[1];
      NarrowedInputFits(b, types, env, types', env', n, 1);
    }
    MovesInRange(Int32, n.op, ins);
    assert Fits(Int64, Exact(n.op, ins).value.data);
  }

  lemma {:induction false} MeaningInLockStep(b: Bypass, types: Types, env: Env, types': Types, env': Env,
                                             nodes: seq<Node>)
    requires LockStep(b, types, env, types', env', nodes) && NarrowedFit(types, env, types')
    requires ArithmeticKeepsType(Infer(types, nodes).value, Infer(types', Survivors(b, nodes)).value, nodes)
    ensures Run(env, nodes).Some? <==> Run(env', Survivors(b, nodes)).Some?
    ensures Run(env, nodes).Some? ==>
      Simulates(b, Infer(types, nodes).value, Run(env, nodes).value,
                Infer(types', Survivors(b, nodes)).value, Run(env', Survivors(b, nodes)).value)
    decreases nodes
  {
    if nodes != [] {
      var n, rest := nodes[0], nodes[1..];
      assert forall m | m in rest :: m in nodes;
      if n.output in b {
        PastDropped(b, types, env, types', env', nodes);
        assert NarrowedFit(NextTypes(types, n), NextEnv(env, n), types');
        MeaningInLockStep(b, NextTypes(types, n), NextEnv(env, n), types', env', rest);
      } else {
        PastSurvivor(b, types, env, types', env', nodes);
        if NodeValue(env, n).Some? {
          FirstResultFits(b, types, env, types', env', nodes);
          MeaningInLockStep(b, NextTypes(types, n), NextEnv(env, n),
                            NextTypes(types', Rewired(b, n)), NextEnv(env', Rewired(b, n)), rest);
        }
      }
    }
  }

  lemma FirstResultFits(b: Bypass, types: Types, env: Env, types': Types, env': Env, nodes: seq<Node>)
    requires LockStep(b, types, env, types', env', nodes) && NarrowedFit(types, env, types')
    requires ArithmeticKeepsType(Infer(types, nodes).value, Infer(types', Survivors(b, nodes)).value, nodes)
    requires nodes != [] && nodes[0].output !in b && NodeValue(env, nodes[0]).Some?
    ensures NodeType(types, nodes[0]) != NodeType(types', Rewired(b, nodes[0])) ==>
              Fits(Int32, NodeValue(env, nodes[0]).value.content.data)
    ensures NarrowedFit(NextTypes(types, nodes[0]), NextEnv(env, nodes[0]), NextTypes(types', Rewired(b, nodes[0])))
  {
    var n, rest, s := nodes[0], nodes[1..], Survivors(b, nodes);
    assert s[0] == Rewired(b, n) && s[1..] == Survivors(b, rest);
    InferKeeps(NextTypes(types, n), rest);
    InferKeeps(NextTypes(types', s[0]), s[1..]);
    if NodeType(types, n) != NodeType(types', s[0]) {
      assert n in nodes;
      NarrowedResultFits(b, types, env, types', env', n);
    }
  }

  /** No operator that can wrap is retyped, as far as the original graph tells. */
  predicate NoArithmeticRetyped(g: Graph)
    requires Infer(g.inputs, g.nodes).Some?
  {
    forall n | n in g.nodes && Wraps(n.op) :: n.output !in Retyped(g)
  }

  lemma ArithmeticAlike(g: Graph)
    requires Accepts(g) && Accepts(Narrow(g)) && NoArithmeticRetyped(g)
    ensures ArithmeticKeepsType(Infer(g.inputs, g.nodes).value, Infer(g.inputs, Narrow(g).nodes).value, g.nodes)
  {
    hide Infer, Retyped, Narrow;
    RetypedExactly(g);
  }

  /**
   The rewrite preserves meaning: for a well-typed graph whose narrowed form passes the type check and retypes no
   arithmetic, and for every input, the narrowed graph runs exactly when the original does, every surviving value has
   the same shape and integers, and every graph output is the very same tensor.
   */
  lemma NarrowPreservesMeaning(g: Graph, env: Env)
    requires Accepts(g) && Accepts(Narrow(g)) && Matches(g.inputs, env)
    requires NoArithmeticRetyped(g)
    ensures Run(env, g.nodes).Some? <==> Run(env, Narrow(g).nodes).Some?
    ensures Run(env, g.nodes).Some? ==> SameContents(Run(env, g.nodes).value, Run(env, Narrow(g).nodes).value)
    ensures Run(env, g.nodes).Some? ==> forall o | o in g.outputs ::
      o in Run(env, g.nodes).value && o in Run(env, Narrow(g).nodes).value &&
      Run(env, Narrow(g).nodes).value[o] == Run(env, g.nodes).value[o]
  {
    StartsInLockStep(g, env);
    ArithmeticAlike(g);
    MeaningInLockStep(Dropped(g), g.inputs, env, g.inputs, env, g.nodes);
  }

  // ---------------------------------------------------------------- retyped arithmetic that changes its answer

  const WIDEN := Node(Cast(Int64), ["x"], "wide")
  const WIDE_LANE := Node(Unsqueeze, ["wide", "axes"], "lane")
  const LANE := Node(Unsqueeze, ["x", "axes"], "lane")
  const SQUARED := Node(Mul, ["lane", "lane"], "square")
  const READ := Node(Cast(Float), ["square"], "y")

  /** `float(unsqueeze(int64(x)) squared)`. */
  const SQUARE := Graph(map["x" := Int32, "axes" := Int64], [WIDEN, WIDE_LANE, SQUARED, READ], map["y" := Float])

  const SQUARE_INPUT := map["x" := Tensor(Int32, Content([1], [0x1_0000])), "axes" := Tensor(Int64, Content([1], [0]))]

  lemma TypeStep(types: Types, n: Node, rest: seq<Node>, t: DType)
    requires NodeType(types, n) == Some(t)
    ensures Infer(types, [n] + rest) == Infer(types[n.output := t], rest)
  {
    assert ([n] + rest)[1..] == rest;
  }

  lemma SquareTypes()
    ensures Infer(SQUARE.inputs, [WIDEN, WIDE_LANE, SQUARED, READ]) ==
      Some(map["x" := Int32, "axes" := Int64, "wide" := Int64, "lane" := Int64, "square" := Int64, "y" := Float])
    ensures Infer(SQUARE.inputs, [LANE, SQUARED, READ]) ==
      Some(map["x" := Int32, "axes" := Int64, "lane" := Int32, "square" := Int32, "y" := Float])
  {
    var t0 := SQUARE.inputs;
    var t1 := t0["wide" := Int64];
    TypeStep(t0, WIDEN, [WIDE_LANE, SQUARED, READ], Int64);
    TypeStep(t1, WIDE_LANE, [SQUARED, READ], Int64);
    SquareTailTypes(t1["lane" := Int64], Int64);
    TypeStep(t0, LANE, [SQUARED, READ], Int32);
    SquareTailTypes(t0["lane" := Int32], Int32);
    assert [WIDEN] + [WIDE_LANE, SQUARED, READ] == [WIDEN, WIDE_LANE, SQUARED, READ];
    assert [WIDE_LANE] + [SQUARED, READ] == [WIDE_LANE, SQUARED, READ];
    assert [LANE] + [SQUARED, READ] == [LANE, SQUARED, READ];
  }

  lemma SquareTailTypes(types: Types, t: DType)
    requires "lane" in types && types["lane"] == t && "square" !in types && "y" !in types
    ensures Infer(types, [SQUARED, READ]) == Some(types["square" := t]["y" := Float])
  {
    TypeStep(types, SQUARED, [READ], t);
    TypeStep(types["square" := t], READ, [], Float);
    assert [SQUARED] + [READ] == [SQUARED, READ] && [READ] + [] == [READ];
  }

  lemma SquareBypass()
    ensures Accepts(SQUARE) && Dropped(SQUARE) == map["wide" := "x"]
  {
    SquareTypes();
    var types := Infer(SQUARE.inputs, SQUARE.nodes).value;
    assert Droppable(SQUARE, types, WIDEN) by {
      assert Reads(SQUARE.nodes[1], 0, "wide");
      forall k, slot | 0 <= k < 4 && 0 <= slot < |SQUARE.nodes[k].inputs| && Reads(SQUARE.nodes[k], slot, "wide")
        ensures IndexSlot(SQUARE.nodes[k].op) == Some(slot)
      {
      }
    }
    assert BypassOf(SQUARE, types, 1) == map["wide" := "x"];
    assert BypassOf(SQUARE, types, 2) == map["wide" := "x"];
    assert BypassOf(SQUARE, types, 3) == map["wide" := "x"];
  }

  lemma Survivor(b: Bypass, n: Node, rest: seq<Node>)
    ensures Survivors(b, [n] + rest) == (if n.output in b then [] else [Rewired(b, n)]) + Survivors(b, rest)
  {
    assert ([n] + rest)[1..] == rest;
  }

  lemma SquareSurvivors()
    ensures Survivors(map["wide" := "x"], [WIDEN, WIDE_LANE, SQUARED, READ]) == [LANE, SQUARED, READ]
  {
    var b := map["wide" := "x"];
    assert Rewired(b, WIDE_LANE) == LANE && Rewired(b, SQUARED) == SQUARED && Rewired(b, READ) == READ;
    Survivor(b, READ, []);
    Survivor(b, SQUARED, [READ]);
    Survivor(b, WIDE_LANE, [SQUARED, READ]);
    Survivor(b, WIDEN, [WIDE_LANE, SQUARED, READ]);
    assert [READ] + [] == [READ] && [SQUARED] + [READ] == [SQUARED, READ];
    assert [WIDE_LANE] + [SQUARED, READ] == [WIDE_LANE, SQUARED, READ] &&
           [LANE] + [SQUARED, READ] == [LANE, SQUARED, READ];
    assert [WIDEN] + [WIDE_LANE, SQUARED, READ] == [WIDEN, WIDE_LANE, SQUARED, READ];
  }

  lemma SquareNarrowed()
    ensures Accepts(SQUARE) && Narrow(SQUARE) == SQUARE.(nodes := [LANE, SQUARED, READ])
    ensures Accepts(Narrow(SQUARE))
  {
    hide Survivors, Infer, Dropped;
    SquareBypass();
    SquareTypes();
    SquareSurvivors();
  }

  function One(t: DType, v: int): Tensor {
    Tensor(t, Content([1, 1], [v]))
  }

  lemma CastValue(env: Env, x: string, out: string, to: DType)
    requires x in env
    ensures NodeValue(env, Node(Cast(to), [x], out)) == Some(Typed(to, env[x].content))
  {
    var n := Node(Cast(to), [x], out);
    assert ContentsOf(env, n.inputs) == [env[x].content];
  }

  lemma LaneValue(env: Env, x: string, v: int)
    requires x in env && env[x].content == Content([1], [v])
    requires "axes" in env && env["axes"] == Tensor(Int64, Content([1], [0]))
    ensures NodeValue(env, Node(Unsqueeze, [x, "axes"], "lane")) == Some(Typed(env[x].dtype, Content([1, 1], [v])))
  {
    var n := Node(Unsqueeze, [x, "axes"], "lane");
    assert ContentsOf(env, n.inputs) == [env[x].content, env["axes"].content];
    assert DTypesOf(env, n.inputs) == [env[x].dtype, Int64];
    assert [1][..0] + [1] + [1][0..] == [1, 1];
  }

  lemma SquareValue(env: Env, v: int)
    requires "lane" in env && env["lane"].content == Content([1, 1], [v])
    ensures NodeValue(env, SQUARED) == Some(Typed(env["lane"].dtype, Content([1, 1], [v * v])))
  {
    var lane := env["lane"];
    assert ContentsOf(env, SQUARED.inputs) == [lane.content, lane.content];
    assert DTypesOf(env, SQUARED.inputs) == [lane.dtype, lane.dtype];
    assert Elementwise(Mul, lane.content, lane.content).value.data == [v * v];
  }

  lemma StepTo(env: Env, n: Node, rest: seq<Node>, v: Tensor)
    requires NodeValue(env, n) == Some(v)
    ensures Run(env, [n] + rest) == Run(env[n.output := v], rest)
  {
    assert ([n] + rest)[1..] == rest;
  }

  /** The tail both runs share, from the value of `lane`. */
  lemma SquareTail(env: Env, t: DType)
    requires "lane" in env && env["lane"] == One(t, 0x1_0000)
    ensures Run(env, [SQUARED, READ]) ==
      Some(env["square" := One(t, WrapOne(t, 0x1_0000_0000))]["y" := One(Float, WrapOne(t, 0x1_0000_0000))])
  {
    var v := Typed(t, Content([1, 1], [0x1_0000_0000]));
    assert v.content.data == [WrapOne(t, 0x1_0000_0000)];
    SquareValue(env, 0x1_0000);
    StepTo(env, SQUARED, [READ], v);
    CastValue(env["square" := v], "square", "y", Float);
    StepTo(env["square" := v], READ, [], Typed(Float, v.content));
    assert [SQUARED] + [READ] == [SQUARED, READ] && [READ] + [] == [READ];
  }

  lemma WideSquareRuns()
    ensures var end := Run(SQUARE_INPUT, [WIDEN, WIDE_LANE, SQUARED, READ]);
            end.Some? && "y" in end.value && end.value["y"] == One(Float, 0x1_0000_0000)
  {
    hide NodeValue, Run;
    var e0 := SQUARE_INPUT;
    var wide := Tensor(Int64, Content([1], [0x1_0000]));
    var e1 := e0["wide" := wide];
    CastValue(e0, "x", "wide", Int64);
    StepTo(e0, WIDEN, [WIDE_LANE, SQUARED, READ], wide);
    LaneValue(e1, "wide", 0x1_0000);
    StepTo(e1, WIDE_LANE, [SQUARED, READ], One(Int64, 0x1_0000));
    SquareTail(e1["lane" := One(Int64, 0x1_0000)], Int64);
    assert [WIDEN] + [WIDE_LANE, SQUARED, READ] == [WIDEN, WIDE_LANE, SQUARED, READ];
    assert [WIDE_LANE] + [SQUARED, READ] == [WIDE_LANE, SQUARED, READ];
  }

  lemma NarrowSquareRuns()
    ensures var end := Run(SQUARE_INPUT, [LANE, SQUARED, READ]);
            end.Some? && "y" in end.value && end.value["y"] == One(Float, 0)
  {
    hide NodeValue, Run;
    var e0 := SQUARE_INPUT;
    LaneValue(e0, "x", 0x1_0000);
    StepTo(e0, LANE, [SQUARED, READ], One(Int32, 0x1_0000));
    SquareTail(e0["lane" := One(Int32, 0x1_0000)], Int32);
    assert [LANE] + [SQUARED, READ] == [LANE, SQUARED, READ];
  }

  /** The premise on arithmetic is needed: this graph passes both checks and its output goes from 2^32 to 0. */
  lemma TypeCheckIsNotEnough()
    ensures Accepts(SQUARE) && Accepts(Narrow(SQUARE)) && Matches(SQUARE.inputs, SQUARE_INPUT)
    ensures Run(SQUARE_INPUT, SQUARE.nodes).Some? && Run(SQUARE_INPUT, Narrow(SQUARE).nodes).Some?
    ensures var before, after := Run(SQUARE_INPUT, SQUARE.nodes).value, Run(SQUARE_INPUT, Narrow(SQUARE).nodes).value;
            "y" in SQUARE.outputs && "y" in before && "y" in after && before["y"] != after["y"]
  {
    hide Accepts, Narrow, Run;
    SquareNarrowed();
    WideSquareRuns();
    NarrowSquareRuns();
  }
}

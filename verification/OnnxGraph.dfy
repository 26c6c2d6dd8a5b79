/**
 A small dataflow-graph language: typed integer tensors, a few operators, static typing of a node list and its run.
 An operator's exact result on shapes and integers does not mention the element type; the type of its output then wraps
 it, which is where a narrower type can change a value.
 */
module OnnxGraph {
  import opened Wrappers

  datatype DType = Float | Int32 | Int64

  /** A tensor's shape and its elements in row-major order. A float's elements stand for themselves. */
  datatype Content = Content(shape: seq<nat>, data: seq<int>)

  datatype Tensor = Tensor(dtype: DType, content: Content)

  datatype Reduction = Replace | Sum | Max

  datatype Op =
    | Cast(to: DType)
    | Gather
    | GatherElements
    | ScatterElements(reduction: Reduction)
    | Unsqueeze
    | Expand
    | Reshape
    | Shape
    | Concat
    | Add
    | Sub
    | Mul

  datatype Node = Node(op: Op, inputs: seq<string>, output: string)

  /** Typed inputs (initializers among them), nodes in order, and the outputs with their declared types. */
  datatype Graph = Graph(inputs: map<string, DType>, nodes: seq<Node>, outputs: map<string, DType>)

  // ---------------------------------------------------------------- element types

  function Half(t: DType): int {
    if t == Int32 then 0x8000_0000 else 0x8000_0000_0000_0000
  }

  predicate FitsOne(t: DType, v: int) {
    t == Float || -Half(t) <= v < Half(t)
  }

  predicate Fits(t: DType, data: seq<int>) {
    forall i | 0 <= i < |data| :: FitsOne(t, data[i])
  }

  /** Two's complement of the type's width. */
  function WrapOne(t: DType, v: int): (r: int)
    ensures FitsOne(t, r)
    ensures FitsOne(t, v) ==> r == v
  {
    if t == Float then v
    else
      var m := 2 * Half(t);
      (v + Half(t)) % m - Half(t)
  }

  function Wrap(t: DType, data: seq<int>): (r: seq<int>)
    ensures Fits(t, r) && |r| == |data|
    ensures Fits(t, data) ==> r == data
  {
    seq(|data|, i requires 0 <= i < |data| => WrapOne(t, data[i]))
  }

  /** The 32-bit wrap of a value agrees with its 64-bit wrap exactly when that one fits 32 bits. */
  lemma NarrowWrap(v: int)
    ensures WrapOne(Int32, v) == WrapOne(Int64, v) <==> FitsOne(Int32, WrapOne(Int64, v))
  {
    var wide := WrapOne(Int64, v);
    var q := (v + 0x8000_0000_0000_0000) / 0x1_0000_0000_0000_0000;
    assert v == wide + 0x1_0000_0000_0000_0000 * q;
    var r := 0x1_0000_0000 * q;
    assert v + 0x8000_0000 == (wide + 0x8000_0000) + 0x1_0000_0000 * r;
    if FitsOne(Int32, wide) {
      assert (v + 0x8000_0000) % 0x1_0000_0000 == wide + 0x8000_0000;
    }
  }

  // ---------------------------------------------------------------- exact results

  function Product(shape: seq<nat>): nat {
    if shape == [] then 1 else shape[0] * Product(shape[1..])
  }

  /** An index counted from the end when negative; None outside the axis. */
  function Position(i: int, size: nat): Option<nat> {
    if 0 <= i < size then Some(i) else if 0 <= i + size < size then Some(i + size) else None
  }

  predicate AllPositions(data: seq<int>, size: nat) {
    forall i | 0 <= i < |data| :: Position(data[i], size).Some?
  }

  predicate Sized(c: Content) {
    |c.data| == Product(c.shape)
  }

  /** Rows of `data` along its first axis, in the order `index` names them. */
  function GatherRows(data: Content, index: Content): Option<Content> {
    if data.shape == [] || !Sized(data) || !AllPositions(index.data, data.shape[0]) then None
    else
      Some(Content(index.shape + data.shape[1..], Flatten(GatheredRows(data, index))))
  }

  function GatheredRows(data: Content, index: Content): (rows: seq<seq<int>>)
    requires data.shape != [] && AllPositions(index.data, data.shape[0])
    ensures |rows| == |index.data|
  {
    seq(|index.data|, i requires 0 <= i < |index.data| =>
      Row(data.data, Product(data.shape[1..]), Position(index.data[i], data.shape[0]).value))
  }

  function Row(data: seq<int>, row: nat, at: nat): seq<int> {
    if (at + 1) * row <= |data| && at * row <= (at + 1) * row then data[at * row..(at + 1) * row] else []
  }

  function Flatten(rows: seq<seq<int>>): seq<int> {
    if rows == [] then [] else rows[0] + Flatten(rows[1..])
  }

  /** The flat place that element `p` of an index tensor addresses along the first axis. */
  function Addressed(index: seq<int>, p: nat, size: nat, row: nat): nat
    requires p < |index| && Position(index[p], size).Some? && row > 0
  {
    Position(index[p], size).value * row + p % row
  }

  /** Whether an index tensor addresses elements of `data` along its first axis, the trailing axes agreeing. */
  predicate Addresses(data: Content, index: Content) {
    && data.shape != [] && index.shape != [] && data.shape[1..] == index.shape[1..]
    && Product(data.shape[1..]) > 0 && Sized(data) && AllPositions(index.data, data.shape[0])
    && forall p | 0 <= p < |index.data| ::
      Addressed(index.data, p, data.shape[0], Product(data.shape[1..])) < |data.data|
  }

  function GatherAt(data: Content, index: Content): Option<Content> {
    if !Addresses(data, index) then None
    else
      Some(Content(index.shape, seq(|index.data|, p requires 0 <= p < |index.data| =>
        data.data[Addressed(index.data, p, data.shape[0], Product(data.shape[1..]))])))
  }

  function ScatterAt(reduction: Reduction, data: Content, index: Content, updates: Content): Option<Content> {
    if !Addresses(data, index) || updates.shape != index.shape || |updates.data| != |index.data| then None
    else Some(Content(data.shape, Scattered(reduction, data, index, updates.data, |index.data|)))
  }

  /** `data` after the first `n` updates. */
  function Scattered(reduction: Reduction, data: Content, index: Content, updates: seq<int>, n: nat): (r: seq<int>)
    requires Addresses(data, index) && n <= |index.data| == |updates|
    ensures |r| == |data.data|
  {
    if n == 0 then data.data
    else
      var before := Scattered(reduction, data, index, updates, n - 1);
      var at := Addressed(index.data, n - 1, data.shape[0], Product(data.shape[1..]));
      before[at := Reduced(reduction, before[at], updates[n - 1])]
  }

  function Reduced(reduction: Reduction, held: int, update: int): int {
    match reduction
    case Replace => update
    case Sum => held + update
    case Max => if update > held then update else held
  }

  function AddAxis(data: Content, axes: Content): Option<Content> {
    if |axes.data| != 1 then None
    else
      match Position(axes.data[0], |data.shape| + 1)
      case None => None
      case Some(a) => Some(Content(data.shape[..a] + [1] + data.shape[a..], data.data))
  }

  function Ones(n: nat): seq<nat> {
    seq(n, i => 1)
  }

  function Padded(shape: seq<nat>, rank: nat): seq<nat> {
    if |shape| >= rank then shape else Ones(rank - |shape|) + shape
  }

  function Broadcast(data: Content, target: Content): Option<Content> {
    if !Sized(data) || exists i :: 0 <= i < |target.data| && target.data[i] < 0 then None
    else
      var wanted := seq(|target.data|, i requires 0 <= i < |target.data| =>
      if target.data[i] < 0 then 0 else target.data[i]);
      var rank := if |data.shape| < |wanted| then |wanted| else |data.shape|;
      var from, to := Padded(data.shape, rank), Padded(wanted, rank);
      if |from| != |to| || exists i :: 0 <= i < |from| && from[i] != to[i] && from[i] != 1 && to[i] != 1 then None
      else
        var shape := seq(|from|, i requires 0 <= i < |from| => if to[i] == 1 then from[i] else to[i]);
        Some(Content(shape, Spread(from, shape, data.data)))
  }

  /** `data` of shape `from` repeated along the axes where `to` is longer. */
  function Spread(from: seq<nat>, to: seq<nat>, data: seq<int>): seq<int>
    requires |from| == |to|
    decreases |from|
  {
    if from == [] then data
    else
      var row := Product(from[1..]);
      Flatten(seq(to[0], (i: nat) => Spread(from[1..], to[1..], Row(data, row, if from[0] == 1 then 0 else i))))
  }

  /** The dimensions a reshape asks for: 0 keeps the input's, one -1 takes what is left. */
  function Asked(data: Content, dims: seq<int>, i: nat): Option<nat>
    requires i < |dims|
  {
    if dims[i] > 0 then Some(dims[i])
    else if dims[i] == 0 && i < |data.shape| then Some(data.shape[i])
    else if dims[i] == -1 then Some(1)
    else None
  }

  function Reshaped(data: Content, target: Content): Option<Content> {
    var dims := target.data;
    if exists i :: 0 <= i < |dims| && Asked(data, dims, i).None? then None
    else
      var known := seq(|dims|, i requires 0 <= i < |dims| =>
        match Asked(data, dims, i) case Some(d) => d case None => 0);
      var holes := seq(|dims|, i requires 0 <= i < |dims| => if dims[i] == -1 then 1 else 0);
      if -1 !in dims then (if Product(known) == |data.data| then Some(Content(known, data.data)) else None)
      else if Sum0(holes) != 1 || Product(known) == 0 || |data.data| % Product(known) != 0 then None
      else
        Some(Content(seq(|dims|, i requires 0 <= i < |dims| =>
          if dims[i] == -1 then |data.data| / Product(known) else known[i]), data.data))
  }

  function Sum0(s: seq<nat>): nat {
    if s == [] then 0 else s[0] + Sum0(s[1..])
  }

  function Elementwise(op: Op, a: Content, b: Content): Option<Content>
    requires op.Add? || op.Sub? || op.Mul?
  {
    if a.shape != b.shape || |a.data| != |b.data| then None
    else
      Some(Content(a.shape, seq(|a.data|, i requires 0 <= i < |a.data| =>
        match op
        case Add => a.data[i] + b.data[i]
        case Sub => a.data[i] - b.data[i]
        case _ => a.data[i] * b.data[i])))
  }

  function Arity(op: Op): nat {
    match op
    case Cast(_) => 1
    case Shape => 1
    case ScatterElements(_) => 3
    case _ => 2
  }

  /** The operator on shapes and unbounded integers; None where it is undefined. */
  function Exact(op: Op, ins: seq<Content>): Option<Content>
    requires |ins| == Arity(op)
  {
    match op
    case Cast(_) => Some(ins[0])
    case Gather => GatherRows(ins[0], ins[1])
    case GatherElements => GatherAt(ins[0], ins[1])
    case ScatterElements(reduction) => ScatterAt(reduction, ins[0], ins[1], ins[2])
    case Unsqueeze => AddAxis(ins[0], ins[1])
    case Expand => Broadcast(ins[0], ins[1])
    case Reshape => Reshaped(ins[0], ins[1])
    case Shape =>
      Some(Content([|ins[0].shape|], seq(|ins[0].shape|, i requires 0 <= i < |ins[0].shape| => ins[0].shape[i])))
    case Concat =>
      if ins[0].shape == [] || ins[1].shape == [] || ins[0].shape[1..] != ins[1].shape[1..] then None
      else Some(Content([ins[0].shape[0] + ins[1].shape[0]] + ins[0].shape[1..], ins[0].data + ins[1].data))
    case _ => Elementwise(op, ins[0], ins[1])
  }

  // ---------------------------------------------------------------- typing

  predicate IsIndex(t: DType) {
    t != Float
  }

  /** The operator's output type, None where the checker rejects its input types. */
  function OutType(op: Op, ts: seq<DType>): Option<DType> {
    if |ts| != Arity(op) then None
    else
      match op
      case Cast(to) => Some(to)
      case Gather => if IsIndex(ts[1]) then Some(ts[0]) else None
      case GatherElements => if IsIndex(ts[1]) then Some(ts[0]) else None
      case ScatterElements(_) => if IsIndex(ts[1]) && ts[0] == ts[2] then Some(ts[0]) else None
      case Unsqueeze => if ts[1] == Int64 then Some(ts[0]) else None
      case Expand => if ts[1] == Int64 then Some(ts[0]) else None
      case Reshape => if ts[1] == Int64 then Some(ts[0]) else None
      case Shape => Some(Int64)
      case _ => if ts[0] == ts[1] then Some(ts[0]) else None
  }

  type Types = map<string, DType>

  function TypesOf(types: Types, names: seq<string>): seq<DType>
    requires forall n | n in names :: n in types
  {
    seq(|names|, i requires 0 <= i < |names| => types[names[i]])
  }

  /** The type a node gives its output; None when it reads an undefined name, redefines one, or mistypes. */
  function NodeType(types: Types, n: Node): Option<DType> {
    if n.output in types || exists i :: 0 <= i < |n.inputs| && n.inputs[i] !in types then None
    else OutType(n.op, TypesOf(types, n.inputs))
  }

  /** Every name's type after the nodes, in order. */
  function Infer(types: Types, nodes: seq<Node>): Option<Types>
    decreases nodes
  {
    if nodes == [] then Some(types)
    else
      match NodeType(types, nodes[0])
      case None => None
      case Some(t) => Infer(types[nodes[0].output := t], nodes[1..])
  }

  /** The full check: every node types in order, and every declared output has its declared type. */
  predicate Accepts(g: Graph) {
    var types := Infer(g.inputs, g.nodes);
    types.Some? && forall o | o in g.outputs :: o in types.value && types.value[o] == g.outputs[o]
  }

  // ---------------------------------------------------------------- running

  type Env = map<string, Tensor>

  function ContentsOf(env: Env, names: seq<string>): seq<Content>
    requires forall n | n in names :: n in env
  {
    seq(|names|, i requires 0 <= i < |names| => env[names[i]].content)
  }

  function DTypesOf(env: Env, names: seq<string>): seq<DType>
    requires forall n | n in names :: n in env
  {
    seq(|names|, i requires 0 <= i < |names| => env[names[i]].dtype)
  }

  function Typed(t: DType, exact: Content): Tensor {
    Tensor(t, Content(exact.shape, Wrap(t, exact.data)))
  }

  /** A node's value on the tensors it reads. */
  function NodeValue(env: Env, n: Node): Option<Tensor> {
    if exists i :: 0 <= i < |n.inputs| && n.inputs[i] !in env then None
    else
      match OutType(n.op, DTypesOf(env, n.inputs))
      case None => None
      case Some(t) =>
        match Exact(n.op, ContentsOf(env, n.inputs))
        case None => None
        case Some(exact) => Some(Typed(t, exact))
  }

  /** Every name's value after the nodes, in order; None once a node is undefined. */
  function Run(env: Env, nodes: seq<Node>): Option<Env>
    decreases nodes
  {
    if nodes == [] then Some(env)
    else
      match NodeValue(env, nodes[0])
      case None => None
      case Some(v) => Run(env[nodes[0].output := v], nodes[1..])
  }

  /** `env` holds a tensor of the right type, its elements in range, for every typed name and no other. */
  ghost predicate Matches(types: Types, env: Env) {
    && types.Keys == env.Keys
    && forall n | n in types :: env[n].dtype == types[n] && Fits(types[n], env[n].content.data)
  }

  lemma {:induction false} InferKeeps(types: Types, nodes: seq<Node>)
    requires Infer(types, nodes).Some?
    ensures forall n | n in types :: n in Infer(types, nodes).value && Infer(types, nodes).value[n] == types[n]
    ensures forall n | n in nodes :: n.output in Infer(types, nodes).value && n.output !in types
    decreases nodes
  {
    if nodes != [] {
      InferKeeps(types[nodes[0].output := NodeType(types, nodes[0]).value], nodes[1..]);
    }
  }

  lemma {:induction false} RunKeeps(types: Types, env: Env, nodes: seq<Node>)
    requires Infer(types, nodes).Some? && Run(env, nodes).Some? && Matches(types, env)
    ensures Matches(Infer(types, nodes).value, Run(env, nodes).value)
    ensures forall n | n in env :: n in Run(env, nodes).value && Run(env, nodes).value[n] == env[n]
    decreases nodes
  {
    if nodes != [] {
      var n := nodes[0];
      NodeValueTyped(types, env, n);
      RunKeeps(types[n.output := NodeType(types, n).value], env[n.output := NodeValue(env, n).value], nodes[1..]);
    }
  }

  /** On tensors of the inferred types a node computes its inferred type. */
  lemma NodeValueTyped(types: Types, env: Env, n: Node)
    requires Matches(types, env) && NodeType(types, n).Some?
    ensures forall i | 0 <= i < |n.inputs| :: n.inputs[i] in env && n.inputs[i] in types
    ensures |n.inputs| == Arity(n.op) == |ContentsOf(env, n.inputs)|
    ensures var exact := Exact(n.op, ContentsOf(env, n.inputs));
            NodeValue(env, n) == if exact.None? then None else Some(Typed(NodeType(types, n).value, exact.value))
  {
    assert DTypesOf(env, n.inputs) == TypesOf(types, n.inputs);
  }
}

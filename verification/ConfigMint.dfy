/**
 A config minted from a template by deltas at existing dotted paths, and the check that the changes its header claims
 are the changes it has. A block keeps its entries in order, as the parsed mapping does: where two leaves come to one
 dotted key, the later wins.
 */
module ConfigMint {
  import opened Text
  import opened Wrappers

  datatype Value = Null | Scalar(n: int)

  datatype Node = Leaf(value: Value) | Block(items: seq<Entry>)

  datatype Entry = Entry(key: string, node: Node)

  type Path = seq<string>

  // ---------------------------------------------------------------- paths

  /** Where a block has a key. */
  function Find(items: seq<Entry>, key: string): (at: Option<nat>)
    ensures at.Some? ==> at.value < |items| && items[at.value].key == key
    ensures at.None? ==> forall i | 0 <= i < |items| :: items[i].key != key
  {
    if items == [] then None
    else if items[0].key == key then Some(0)
    else
      var rest := Find(items[1..], key);
      if rest.None? then None else Some(rest.value + 1)
  }

  function NodeAt(doc: Node, p: Path): Option<Node> {
    if p == [] then Some(doc)
    else if doc.Block? && Find(doc.items, p[0]).Some? then NodeAt(doc.items[Find(doc.items, p[0]).value].node, p[1..])
    else None
  }

  /** The document with another node at a path it has. */
  function SetAt(doc: Node, p: Path, new_: Node): (r: Node)
    requires NodeAt(doc, p).Some?
    ensures p != [] ==> r.Block?
  {
    if p == [] then new_
    else
      var at := Find(doc.items, p[0]).value;
      Block(doc.items[at := Entry(p[0], SetAt(doc.items[at].node, p[1..], new_))])
  }

  /** What is set is there. */
  lemma {:induction false} SetAtReads(doc: Node, p: Path, new_: Node, r: Path)
    requires NodeAt(doc, p).Some?
    ensures NodeAt(SetAt(doc, p, new_), p + r) == NodeAt(new_, r)
    decreases |p|
  {
    if p == [] {
      assert p + r == r;
    } else {
      var at := Find(doc.items, p[0]).value;
      FindAfterSet(doc.items, p[0], SetAt(doc.items[at].node, p[1..], new_));
      assert (p + r)[1..] == p[1..] + r;
      SetAtReads(doc.items[at].node, p[1..], new_, r);
    }
  }

  lemma {:induction false} FindAfterSet(items: seq<Entry>, key: string, node: Node)
    requires Find(items, key).Some?
    ensures Find(items[Find(items, key).value := Entry(key, node)], key) == Find(items, key)
  {
    if items[0].key != key {
      FindAfterSet(items[1..], key, node);
      var at := Find(items[1..], key).value;
      assert items[at + 1 := Entry(key, node)][1..] == items[1..][at := Entry(key, node)];
    }
  }

  /** The walk down to an existing key's parent: whether every part is there. */
  method ResolveParent(doc: Node, dotted: string) returns (found: bool)
    ensures found <==> NodeAt(doc, Split(dotted, '.')).Some?
  {
    hide Split, Join;
    var parts := Split(dotted, '.');
    var node, last := doc, |parts| - 1;
    assert parts[0..] == parts;
    for i := 0 to last
      invariant NodeAt(doc, parts).Some? <==> NodeAt(node, parts[i..]).Some?
    {
      assert parts[i..][0] == parts[i] && parts[i..][1..] == parts[i + 1..];
      if !node.Block? || Find(node.items, parts[i]).None? {
        return false;
      }
      node := node.items[Find(node.items, parts[i]).value].node;
    }
    assert parts[last..] == [parts[last]];
    assert parts[last..][1..] == [];
    found := node.Block? && Find(node.items, parts[last]).Some?;
  }

  // ---------------------------------------------------------------- minting

  datatype Delta = Delta(dotted: string, node: Node)

  /** The template with the first `n` deltas applied, while each finds its key. */
  function Minted(template: Node, deltas: seq<Delta>, n: nat): Option<Node>
    requires n <= |deltas|
  {
    if n == 0 then Some(template)
    else
      var before := Minted(template, deltas, n - 1);
      if before.Some? && NodeAt(before.value, Split(deltas[n - 1].dotted, '.')).Some? then
        Some(SetAt(before.value, Split(deltas[n - 1].dotted, '.'), deltas[n - 1].node))
      else None
  }

  function Claims(deltas: seq<Delta>): set<string> {
    set i | 0 <= i < |deltas| :: deltas[i].dotted
  }

  /** Each delta applied in turn, and the keys claimed; refused at the first unknown key. */
  method Mint(template: Node, deltas: seq<Delta>) returns (minted: Option<Node>, claimed: set<string>)
    ensures minted == Minted(template, deltas, |deltas|)
    ensures minted.Some? ==> claimed == Claims(deltas)
  {
    hide Split, NodeAt, SetAt;
    var data := template;
    claimed := {};
    for i := 0 to |deltas|
      invariant Minted(template, deltas, i) == Some(data)
      invariant claimed == set k | 0 <= k < i :: deltas[k].dotted
    {
      var known := ResolveParent(data, deltas[i].dotted);
      if !known {
        NeverMinted(template, deltas, i + 1);
        return None, claimed;
      }
      data := SetAt(data, Split(deltas[i].dotted, '.'), deltas[i].node);
      claimed := claimed + {deltas[i].dotted};
    }
    minted := Some(data);
  }

  lemma {:induction false} NeverMinted(template: Node, deltas: seq<Delta>, n: nat)
    requires n <= |deltas| && Minted(template, deltas, n).None?
    ensures Minted(template, deltas, |deltas|).None?
    decreases |deltas| - n
  {
    hide Split, NodeAt, SetAt;
    if n < |deltas| {
      NeverMinted(template, deltas, n + 1);
    }
  }

  /** A block stays one. */
  lemma {:induction false} MintedIsBlock(template: Node, deltas: seq<Delta>, n: nat)
    requires n <= |deltas| && template.Block? && Minted(template, deltas, n).Some?
    ensures Minted(template, deltas, n).value.Block?
  {
    hide Split, NodeAt;
    if n > 0 {
      MintedIsBlock(template, deltas, n - 1);
    }
  }

  // ---------------------------------------------------------------- leaves and the flat table

  type Leaves = seq<(Path, Value)>

  /** Leaves of a block's entry, seen from the block. */
  function Below(key: string, leaves: Leaves): Leaves {
    seq(|leaves|, i requires 0 <= i < |leaves| => ([key] + leaves[i].0, leaves[i].1))
  }

  /** Every leaf with its path, in the order of the document. */
  function LeavesOf(doc: Node): Leaves
    decreases doc, if doc.Block? then |doc.items| + 1 else 0
  {
    match doc
    case Leaf(value) => [([], value)]
    case Block(_) => LeavesUpTo(doc, |doc.items|)
  }

  /** The leaves of a block's first `n` entries. */
  function LeavesUpTo(doc: Node, n: nat): Leaves
    requires doc.Block? && n <= |doc.items|
    decreases doc, n
  {
    if n == 0 then []
    else LeavesUpTo(doc, n - 1) + Below(doc.items[n - 1].key, LeavesOf(doc.items[n - 1].node))
  }

  /** A prefix one key longer; an empty prefix gives way to the key. */
  function Under(prefix: string, key: string): string {
    if prefix != "" then prefix + "." + key else key
  }

  /** A path's dotted key below a prefix. */
  function Dotted(prefix: string, p: Path): string
    decreases |p|
  {
    if p == [] then prefix else Dotted(Under(prefix, p[0]), p[1..])
  }

  /** The leaves as a table by dotted key, later entries over earlier ones. */
  function Table(prefix: string, leaves: Leaves): map<string, Value> {
    if leaves == [] then map[]
    else
      var last := leaves[|leaves| - 1];
      Table(prefix, leaves[..|leaves| - 1])[Dotted(prefix, last.0) := last.1]
  }

  function Flat(doc: Node): map<string, Value> {
    Table("", LeavesOf(doc))
  }

  lemma {:induction false} TableJoin(prefix: string, a: Leaves, b: Leaves)
    ensures Table(prefix, a + b) == Table(prefix, a) + Table(prefix, b)
    decreases |b|
  {
    if b == [] {
      assert a + b == a;
    } else {
      assert (a + b)[..|a + b| - 1] == a + b[..|b| - 1];
      TableJoin(prefix, a, b[..|b| - 1]);
    }
  }

  /** An entry's leaves under a prefix are its own under the longer one. */
  lemma {:induction false} TableBelow(prefix: string, key: string, leaves: Leaves)
    ensures Table(prefix, Below(key, leaves)) == Table(Under(prefix, key), leaves)
  {
    if leaves != [] {
      var n := |leaves| - 1;
      assert Below(key, leaves)[..n] == Below(key, leaves[..n]);
      TableBelow(prefix, key, leaves[..n]);
      assert Below(key, leaves)[n].0[1..] == leaves[n].0;
    }
  }

  /** A block's leaves by dotted key, entry after entry. */
  method FlatLeaves(doc: Node, prefix: string) returns (out: map<string, Value>)
    requires doc.Block?
    ensures out == Table(prefix, LeavesOf(doc))
    decreases doc
  {
    out := map[];
    for i := 0 to |doc.items|
      invariant out == Table(prefix, LeavesUpTo(doc, i))
    {
      var key, value := doc.items[i].key, doc.items[i].node;
      var path := if prefix != "" then prefix + "." + key else key;
      TableJoin(prefix, LeavesUpTo(doc, i), Below(key, LeavesOf(value)));
      TableBelow(prefix, key, LeavesOf(value));
      match value {
        case Block(_) =>
          var sub := FlatLeaves(value, path);
          out := out + sub;
        case Leaf(v) =>
          LoneTable(path, v);
          out := out[path := v];
      }
    }
  }

  lemma LoneTable(key: string, v: Value)
    ensures Table(key, [([], v)]) == map[key := v]
  {
    var lone: Leaves := [([], v)];
    assert lone[..0] == [];
  }

  /** The last leaf that comes to a key. */
  function LastWith(leaves: Leaves, k: string): Option<Value> {
    if leaves == [] then None
    else if Dotted("", leaves[|leaves| - 1].0) == k then Some(leaves[|leaves| - 1].1)
    else LastWith(leaves[..|leaves| - 1], k)
  }

  lemma {:induction false} TableReads(leaves: Leaves, k: string)
    ensures k in Table("", leaves) <==> LastWith(leaves, k).Some?
    ensures k in Table("", leaves) ==> Table("", leaves)[k] == LastWith(leaves, k).value
  {
    if leaves != [] {
      TableReads(leaves[..|leaves| - 1], k);
    }
  }

  // ---------------------------------------------------------------- what a delta leaves alone

  /** The leaves whose paths are to be kept. */
  function Select(leaves: Leaves, keep: Path -> bool): Leaves {
    if leaves == [] then []
    else
      var last, before := leaves[|leaves| - 1], Select(leaves[..|leaves| - 1], keep);
      if keep(last.0) then before + [last] else before
  }

  lemma {:induction false} SelectJoin(a: Leaves, b: Leaves, keep: Path -> bool)
    ensures Select(a + b, keep) == Select(a, keep) + Select(b, keep)
    decreases |b|
  {
    if b == [] {
      assert a + b == a;
    } else {
      assert (a + b)[..|a + b| - 1] == a + b[..|b| - 1];
      SelectJoin(a, b[..|b| - 1], keep);
    }
  }

  /** What is selected from a selection. */
  lemma {:induction false} SelectTwice(leaves: Leaves, keep: Path -> bool, fewer: Path -> bool)
    requires forall p :: fewer(p) ==> keep(p)
    ensures Select(Select(leaves, keep), fewer) == Select(leaves, fewer)
  {
    if leaves != [] {
      var last := leaves[|leaves| - 1];
      SelectTwice(leaves[..|leaves| - 1], keep, fewer);
      if keep(last.0) {
        assert Select(leaves, keep)[..|Select(leaves, keep)| - 1] == Select(leaves[..|leaves| - 1], keep);
      }
    }
  }

  lemma {:induction false} SelectBelow(key: string, leaves: Leaves, keep: Path -> bool, inner: Path -> bool)
    requires forall p :: keep([key] + p) == inner(p)
    ensures Select(Below(key, leaves), keep) == Below(key, Select(leaves, inner))
  {
    if leaves != [] {
      var n := |leaves| - 1;
      assert Below(key, leaves)[..n] == Below(key, leaves[..n]);
      SelectBelow(key, leaves[..n], keep, inner);
    }
  }

  predicate Outside(p: Path, q: Path) {
    !(p <= q)
  }

  /** Setting a path changes no leaf outside it, nor their order. */
  lemma {:induction false} SetKeepsOthers(doc: Node, p: Path, new_: Node)
    requires NodeAt(doc, p).Some?
    ensures Select(LeavesOf(SetAt(doc, p, new_)), q => Outside(p, q)) == Select(LeavesOf(doc), q => Outside(p, q))
    decreases |p|
  {
    if p == [] {
      NothingOutside(LeavesOf(doc));
      NothingOutside(LeavesOf(new_));
    } else {
      var at := Find(doc.items, p[0]).value;
      SetKeepsOthers(doc.items[at].node, p[1..], new_);
      SetKeepsUpTo(doc, p, new_, |doc.items|);
    }
  }

  lemma {:induction false} NothingOutside(leaves: Leaves)
    ensures Select(leaves, q => Outside([], q)) == []
  {
    if leaves != [] {
      NothingOutside(leaves[..|leaves| - 1]);
    }
  }

  lemma {:induction false} SetKeepsUpTo(doc: Node, p: Path, new_: Node, n: nat)
    requires p != [] && NodeAt(doc, p).Some? && n <= |doc.items|
    requires var node := doc.items[Find(doc.items, p[0]).value].node;
             Select(LeavesOf(SetAt(node, p[1..], new_)), q => Outside(p[1..], q)) ==
             Select(LeavesOf(node), q => Outside(p[1..], q))
    ensures Select(LeavesUpTo(SetAt(doc, p, new_), n), q => Outside(p, q)) ==
            Select(LeavesUpTo(doc, n), q => Outside(p, q))
    decreases n
  {
    hide LeavesOf;
    if n > 0 {
      SetKeepsUpTo(doc, p, new_, n - 1);
      var was, now, keep := doc.items[n - 1], SetAt(doc, p, new_).items[n - 1], q => Outside(p, q);
      SelectJoin(LeavesUpTo(doc, n - 1), Below(was.key, LeavesOf(was.node)), keep);
      SelectJoin(LeavesUpTo(SetAt(doc, p, new_), n - 1), Below(now.key, LeavesOf(now.node)), keep);
      if n - 1 == Find(doc.items, p[0]).value {
        forall q ensures keep([p[0]] + q) == Outside(p[1..], q) {
          PrefixBelow(p, q);
        }
        SelectBelow(p[0], LeavesOf(was.node), keep, q => Outside(p[1..], q));
        SelectBelow(p[0], LeavesOf(now.node), keep, q => Outside(p[1..], q));
      }
    }
  }

  lemma PrefixBelow(p: Path, q: Path)
    requires p != []
    ensures p <= [p[0]] + q <==> p[1..] <= q
  {
    assert p == [p[0]] + p[1..];
    if p[1..] <= q {
      assert [p[0]] + q == p + q[|p| - 1..];
    }
    if p <= [p[0]] + q {
      assert p[1..] == ([p[0]] + q)[1..|p|] == q[..|p| - 1];
    }
  }

  /** No delta's path leads to the leaf. */
  predicate Untouched(deltas: seq<Delta>, n: nat, q: Path)
    requires n <= |deltas|
  {
    forall i | 0 <= i < n :: Outside(Split(deltas[i].dotted, '.'), q)
  }

  /** The leaves no delta leads to are the template's, in its order. */
  lemma {:induction false} UntouchedStay(template: Node, deltas: seq<Delta>, n: nat)
    requires n <= |deltas| && Minted(template, deltas, n).Some?
    ensures Select(LeavesOf(Minted(template, deltas, n).value), q => Untouched(deltas, n, q)) ==
            Select(LeavesOf(template), q => Untouched(deltas, n, q))
  {
    hide Split, SetAt, NodeAt, Select, LeavesOf, Outside;
    if n > 0 {
      UntouchedStay(template, deltas, n - 1);
      var before, p := Minted(template, deltas, n - 1).value, Split(deltas[n - 1].dotted, '.');
      var after := SetAt(before, p, deltas[n - 1].node);
      SetKeepsOthers(before, p, deltas[n - 1].node);
      var all, fewer, out := q => Untouched(deltas, n, q), q => Untouched(deltas, n - 1, q), q => Outside(p, q);
      SelectTwice(LeavesOf(after), out, all);
      SelectTwice(LeavesOf(before), out, all);
      SelectTwice(LeavesOf(before), fewer, all);
      SelectTwice(LeavesOf(template), fewer, all);
    }
  }

  // ---------------------------------------------------------------- the audit

  /** A key's value in a table, null where it has none. */
  function Get(flat: map<string, Value>, k: string): Value {
    if k in flat then flat[k] else Null
  }

  function DiffKeys(a: map<string, Value>, b: map<string, Value>): set<string> {
    set k | k in a.Keys + b.Keys && Get(a, k) != Get(b, k)
  }

  /** The claim is the changed key, or names a block it lies in. */
  predicate Covers(claimed: string, actual: string) {
    actual == claimed || claimed + "." <= actual
  }

  predicate SomeCovers(claimed: set<string>, actual: string) {
    exists c :: c in claimed && Covers(c, actual)
  }

  predicate CoversSome(claim: string, actual: set<string>) {
    exists k :: k in actual && Covers(claim, k)
  }

  /** MATCH: every change claimed, every claim with a change. */
  predicate Matches(config: map<string, Value>, template: map<string, Value>, claimed: set<string>) {
    (forall k | k in DiffKeys(config, template) :: SomeCovers(claimed, k)) &&
    forall c | c in claimed :: CoversSome(c, DiffKeys(config, template))
  }

  /** 0 for a match, else 1 and what is not claimed and what is claimed for nothing. */
  method Audit(config: map<string, Value>, template: map<string, Value>, claimed: set<string>)
      returns (rc: int, unclaimed: set<string>, empty: set<string>)
    ensures rc == if Matches(config, template, claimed) then 0 else 1
    ensures forall k :: k in unclaimed <==> k in DiffKeys(config, template) && !SomeCovers(claimed, k)
    ensures forall c :: c in empty <==> c in claimed && !CoversSome(c, DiffKeys(config, template))
  {
    hide DiffKeys, SomeCovers, CoversSome;
    var actual := DiffKeys(config, template);
    unclaimed := set k | k in actual && !SomeCovers(claimed, k);
    empty := set c | c in claimed && !CoversSome(c, actual);
    rc := if unclaimed == {} && empty == {} then 0 else 1;
    if rc == 0 {
      assert forall k | k in actual :: k !in unclaimed;
      assert forall c | c in claimed :: c !in empty;
    } else if unclaimed != {} {
      var k :| k in unclaimed;
    } else {
      var c :| c in empty;
    }
  }

  // ---------------------------------------------------------------- every change is claimed

  /** A key that names its paths as the table does: not empty, and not starting with a dot. */
  predicate Safe(dotted: string) {
    dotted != "" && dotted[0] != '.'
  }

  /** Below a prefix that is not empty a dotted key is the parts joined. */
  lemma {:induction false} DottedBelow(prefix: string, p: Path)
    requires prefix != "" && p != []
    ensures Dotted(prefix, p) == prefix + "." + Join(p, '.')
    decreases |p|
  {
    if |p| > 1 {
      DottedBelow(prefix + "." + p[0], p[1..]);
      assert prefix + "." + (p[0] + ['.'] + Join(p[1..], '.')) == prefix + "." + p[0] + "." + Join(p[1..], '.');
    }
  }

  lemma DottedIsJoin(p: Path)
    requires p != [] && p[0] != ""
    ensures Dotted("", p) == Join(p, '.')
  {
    if |p| > 1 {
      DottedBelow(p[0], p[1..]);
    }
  }

  lemma {:induction false} JoinSplit(p: Path, r: Path)
    requires p != [] && r != []
    ensures Join(p + r, '.') == Join(p, '.') + "." + Join(r, '.')
    decreases |p|
  {
    assert (p + r)[1..] == p[1..] + r;
    if |p| > 1 {
      JoinSplit(p[1..], r);
      assert p[0] + ['.'] + (Join(p[1..], '.') + "." + Join(r, '.')) ==
             (p[0] + ['.'] + Join(p[1..], '.')) + "." + Join(r, '.');
    } else {
      assert (p + r)[1..] == r;
    }
  }

  /** A safe key starts with a part that is not empty, and no other key does. */
  lemma SafeSplits(dotted: string)
    ensures Safe(dotted) <==> Split(dotted, '.')[0] != ""
  {
  }

  /** A safe claim covers every leaf at or below its path. */
  lemma ClaimCovers(dotted: string, q: Path)
    requires Safe(dotted) && Split(dotted, '.') <= q
    ensures Covers(dotted, Dotted("", q))
  {
    var p := Split(dotted, '.');
    SafeSplits(dotted);
    hide Split, Join, Dotted;
    assert Join(p, '.') == dotted && q[0] == p[0];
    DottedIsJoin(q);
    if |p| < |q| {
      JoinSplit(p, q[|p|..]);
      assert p + q[|p|..] == q;
    } else {
      assert p == q;
    }
  }

  /** The last leaf with a key is the last of those that have it. */
  lemma {:induction false} LastSelected(leaves: Leaves, k: string)
    ensures LastWith(Select(leaves, q => Dotted("", q) == k), k) == LastWith(leaves, k)
  {
    if leaves != [] {
      var n, keep := |leaves| - 1, q => Dotted("", q) == k;
      LastSelected(leaves[..n], k);
      if keep(leaves[n].0) {
        assert Select(leaves, keep)[|Select(leaves, keep)| - 1] == leaves[n];
      }
    }
  }

  lemma {:induction false} SelectSame(leaves: Leaves, f: Path -> bool, g: Path -> bool)
    requires forall i | 0 <= i < |leaves| :: f(leaves[i].0) == g(leaves[i].0)
    ensures Select(leaves, f) == Select(leaves, g)
  {
    if leaves != [] {
      SelectSame(leaves[..|leaves| - 1], f, g);
    }
  }

  /** Some leaf with the key is led to by a delta. */
  predicate KeyTouched(leaves: Leaves, deltas: seq<Delta>, k: string) {
    exists i :: 0 <= i < |leaves| && Dotted("", leaves[i].0) == k && !Untouched(deltas, |deltas|, leaves[i].0)
  }

  /** The leaves with a key that no delta leads to settle its entry. */
  lemma UntouchedKey(leaves: Leaves, deltas: seq<Delta>, k: string)
    requires !KeyTouched(leaves, deltas, k)
    ensures LastWith(leaves, k) ==
            LastWith(Select(Select(leaves, q => Untouched(deltas, |deltas|, q)),
                            q => Untouched(deltas, |deltas|, q) && Dotted("", q) == k), k)
  {
    hide Select, LastWith, Dotted, Untouched;
    var keep, both, key := q => Untouched(deltas, |deltas|, q), q => Untouched(deltas, |deltas|, q) &&
    Dotted("", q) == k, q => Dotted("", q) == k;
    SelectTwice(leaves, keep, both);
    LastSelected(leaves, k);
    SelectSame(leaves, both, key);
  }

  /** Every leaf key a mint changes is covered by one of its claims, when these are safe. */
  lemma ChangesAreClaimed(template: Node, deltas: seq<Delta>, k: string)
    requires Minted(template, deltas, |deltas|).Some? && forall i | 0 <= i < |deltas| :: Safe(deltas[i].dotted)
    requires k in DiffKeys(Flat(Minted(template, deltas, |deltas|).value), Flat(template))
    ensures SomeCovers(Claims(deltas), k)
  {
    var config := Minted(template, deltas, |deltas|).value;
    var was, now := LeavesOf(template), LeavesOf(config);
    TableReads(was, k);
    TableReads(now, k);
    hide Minted, LeavesOf, LastWith, Covers, Split, Dotted, Select, Table, Safe;
    if !KeyTouched(was, deltas, k) && !KeyTouched(now, deltas, k) {
      UntouchedStay(template, deltas, |deltas|);
      UntouchedKey(was, deltas, k);
      UntouchedKey(now, deltas, k);
    }
    var leaves := if KeyTouched(was, deltas, k) then was else now;
    var i :| 0 <= i < |leaves| && Dotted("", leaves[i].0) == k && !Untouched(deltas, |deltas|, leaves[i].0);
    var j :| 0 <= j < |deltas| && !Outside(Split(deltas[j].dotted, '.'), leaves[i].0);
    ClaimCovers(deltas[j].dotted, leaves[i].0);
    assert deltas[j].dotted in Claims(deltas);
  }

  /** Setting `node` at the key changes leaf key `k`, which the key does not cover. */
  predicate SlipsBy(c: string, template: Node, node: Node, k: string) {
    NodeAt(template, Split(c, '.')).Some? &&
    k in DiffKeys(Flat(SetAt(template, Split(c, '.'), node)), Flat(template)) && !Covers(c, k)
  }

  /** A document that has just this path. */
  function Nested(p: Path): Node {
    if p == [] then Leaf(Null) else Block([Entry(p[0], Nested(p[1..]))])
  }

  lemma {:induction false} NestedLeaves(p: Path, node: Node)
    ensures NodeAt(Nested(p), p).Some? && LeavesOf(Nested(p)) == [(p, Null)]
    ensures node == Block([Entry("x", Leaf(Scalar(1)))]) ==>
      LeavesOf(SetAt(Nested(p), p, node)) == [(p + ["x"], Scalar(1))]
  {
    if p == [] {
      if node == Block([Entry("x", Leaf(Scalar(1)))]) {
        assert LeavesUpTo(node, 1) == LeavesUpTo(node, 0) + Below("x", LeavesOf(Leaf(Scalar(1))));
        assert ["x"] + [] == ["x"] == p + ["x"];
      }
    } else {
      NestedLeaves(p[1..], node);
      var doc := Nested(p);
      assert LeavesUpTo(doc, 1) == LeavesUpTo(doc, 0) + Below(p[0], LeavesOf(Nested(p[1..])));
      assert [p[0]] + p[1..] == p;
      var set_ := SetAt(doc, p, node);
      assert set_.items == [Entry(p[0], SetAt(Nested(p[1..]), p[1..], node))];
      assert LeavesUpTo(set_, 1) == LeavesUpTo(set_, 0) + Below(p[0], LeavesOf(SetAt(Nested(p[1..]), p[1..], node)));
      assert [p[0]] + (p[1..] + ["x"]) == p + ["x"];
    }
  }

  /** An unsafe key's dotted forms lose the leading empty parts. */
  lemma {:induction false} DottedSheds(p: Path)
    requires p != [] && p[|p| - 1] != "" && forall part | part in p :: '.' !in part
    ensures Dotted("", p) != "" && Dotted("", p)[0] != '.'
    decreases |p|
  {
    if p[0] == "" {
      assert forall part | part in p[1..] :: part in p;
      DottedSheds(p[1..]);
    } else {
      assert p[0] in p;
      if |p| > 1 {
        DottedBelow(p[0], p[1..]);
      }
    }
  }

  /**
   A key is safe exactly when no change made at it, in any document and to any node, slips by its claim: an empty key
   and one that starts with a dot do not name what lies below them.
   */
  lemma SafeExactly(c: string)
    ensures Safe(c) <==> forall template, node, k :: !SlipsBy(c, template, node, k)
  {
    hide Covers, Split, Table, SetAt, NodeAt, LeavesOf, DiffKeys;
    if Safe(c) {
      forall template, node, k ensures !SlipsBy(c, template, node, k) {
        if SlipsBy(c, template, node, k) {
          var deltas := [Delta(c, node)];
          assert Minted(template, deltas, 0) == Some(template);
          assert Minted(template, deltas, 1) == Some(SetAt(template, Split(c, '.'), node));
          assert Claims(deltas) == {c};
          ChangesAreClaimed(template, deltas, k);
        }
      }
    } else {
      UnsafeSlips(c);
    }
  }

  lemma OneLeaf(q: Path, v: Value, k: string)
    ensures Get(Table("", [(q, v)]), k) == (if Dotted("", q) == k then v else Null)
    ensures k in Table("", [(q, v)]) <==> Dotted("", q) == k
  {
    hide Dotted;
    TableReads([(q, v)], k);
  }

  lemma UnsafeSlips(c: string)
    requires !Safe(c)
    ensures exists template, node, k :: SlipsBy(c, template, node, k)
  {
    var p, node := Split(c, '.'), Block([Entry("x", Leaf(Scalar(1)))]);
    SafeSplits(c);
    assert forall part | part in p + ["x"] :: part in p || part == "x";
    hide Split, Join;
    var template, k := Nested(p), Dotted("", p + ["x"]);
    DottedSheds(p + ["x"]);
    assert !Covers(c, k) by {
      assert c == "" || c[0] == '.';
    }
    hide Dotted, Covers, Safe, Table, Nested, SetAt, NodeAt;
    NestedLeaves(p, node);
    hide LeavesOf;
    OneLeaf(p, Null, k);
    OneLeaf(p + ["x"], Scalar(1), k);
    assert SlipsBy(c, template, node, k);
  }

  // ---------------------------------------------------------------- what the audit can see

  /** Every block's keys are distinct. */
  ghost predicate Dict(doc: Node)
    decreases doc
  {
    doc.Block? ==>
      (forall i, j | 0 <= i < j < |doc.items| :: doc.items[i].key != doc.items[j].key) &&
      forall i | 0 <= i < |doc.items| :: Dict(doc.items[i].node)
  }

  /** No part is empty or holds a dot. */
  ghost predicate Plain(p: Path) {
    forall part | part in p :: part != "" && '.' !in part
  }

  /** The keys on the way to every leaf are plain. */
  ghost predicate PlainKeys(doc: Node) {
    forall i | 0 <= i < |LeavesOf(doc)| :: Plain(LeavesOf(doc)[i].0)
  }

  /** A leaf's value; null for what is no leaf. */
  function LeafOrNull(doc: Node, q: Path): Value {
    var n := NodeAt(doc, q);
    if n.Some? && n.value.Leaf? then n.value.value else Null
  }

  /** A document's leaves are the paths that lead to one. */
  lemma {:induction false} LeavesAreLeaves(doc: Node, q: Path, v: Value)
    requires Dict(doc)
    ensures (q, v) in LeavesOf(doc) <==> NodeAt(doc, q) == Some(Leaf(v))
    decreases doc, if doc.Block? then |doc.items| + 1 else 0
  {
    if doc.Block? {
      LeavesUpToAre(doc, |doc.items|, q, v);
    }
  }

  lemma {:induction false} LeavesUpToAre(doc: Node, n: nat, q: Path, v: Value)
    requires Dict(doc) && doc.Block? && n <= |doc.items|
    ensures (q, v) in LeavesUpTo(doc, n) <==>
      q != [] && Find(doc.items, q[0]).Some? && Find(doc.items, q[0]).value < n && NodeAt(doc, q) == Some(Leaf(v))
    decreases doc, n
  {
    if n > 0 {
      LeavesUpToAre(doc, n - 1, q, v);
      var e := doc.items[n - 1];
      BelowHas(e.key, LeavesOf(e.node), q, v);
      if q != [] && q[0] == e.key {
        LeavesAreLeaves(e.node, q[1..], v);
      }
    }
  }

  lemma BelowHas(key: string, leaves: Leaves, q: Path, v: Value)
    ensures (q, v) in Below(key, leaves) <==> q != [] && q[0] == key && (q[1..], v) in leaves
  {
    if (q, v) in Below(key, leaves) {
      var i :| 0 <= i < |leaves| && Below(key, leaves)[i] == (q, v);
      assert q[1..] == leaves[i].0 && leaves[i] in leaves;
    }
    if q != [] && q[0] == key && (q[1..], v) in leaves {
      var i :| 0 <= i < |leaves| && leaves[i] == (q[1..], v);
      assert [key] + q[1..] == q;
      assert Below(key, leaves)[i] == (q, v);
    }
  }

  lemma DottedInjective(p: Path, q: Path)
    requires Plain(p) && Plain(q) && p != [] && q != [] && Dotted("", p) == Dotted("", q)
    ensures p == q
  {
    hide Split, Join, Dotted;
    assert p[0] in p && q[0] in q;
    DottedIsJoin(p);
    DottedIsJoin(q);
    SplitOfJoin(p, '.');
    SplitOfJoin(q, '.');
  }

  /** A plain document's table holds each leaf under its own key. */
  lemma FlatReads(doc: Node, q: Path)
    requires doc.Block? && Dict(doc) && PlainKeys(doc) && Plain(q) && q != []
    ensures Get(Flat(doc), Dotted("", q)) == LeafOrNull(doc, q)
    ensures Dotted("", q) in Flat(doc) <==> NodeAt(doc, q).Some? && NodeAt(doc, q).value.Leaf?
  {
    hide LeavesOf, Dotted, Table;
    var leaves, k := LeavesOf(doc), Dotted("", q);
    TableReads(leaves, k);
    if LastWith(leaves, k).Some? {
      var i := LastIs(leaves, k);
      RootNotLeaf(doc, i);
      DottedInjective(leaves[i].0, q);
      LeavesAreLeaves(doc, q, leaves[i].1);
      assert leaves[i] in leaves;
    } else if NodeAt(doc, q).Some? && NodeAt(doc, q).value.Leaf? {
      LeavesAreLeaves(doc, q, NodeAt(doc, q).value.value);
      LastOfNone(leaves, k, (q, NodeAt(doc, q).value.value));
    }
  }

  lemma RootNotLeaf(doc: Node, i: nat)
    requires doc.Block? && Dict(doc) && i < |LeavesOf(doc)|
    ensures LeavesOf(doc)[i].0 != []
  {
    assert LeavesOf(doc)[i] in LeavesOf(doc);
    LeavesAreLeaves(doc, LeavesOf(doc)[i].0, LeavesOf(doc)[i].1);
  }

  lemma {:induction false} LastIs(leaves: Leaves, k: string) returns (i: nat)
    requires LastWith(leaves, k).Some?
    ensures i < |leaves| && Dotted("", leaves[i].0) == k && leaves[i].1 == LastWith(leaves, k).value
  {
    i := |leaves| - 1;
    if Dotted("", leaves[i].0) != k {
      i := LastIs(leaves[..i], k);
    }
  }

  lemma {:induction false} LastOfNone(leaves: Leaves, k: string, leaf: (Path, Value))
    requires leaf in leaves && Dotted("", leaf.0) == k
    ensures LastWith(leaves, k).Some?
  {
    var n := |leaves| - 1;
    assert leaves == leaves[..n] + [leaves[n]];
    if Dotted("", leaves[n].0) != k {
      LastOfNone(leaves[..n], k, leaf);
    }
  }

  /** A changed key is some plain path's, whose leaf differs. */
  lemma DiffHasPath(template: Node, config: Node, k: string) returns (q: Path)
    requires template.Block? && config.Block? && Dict(template) && Dict(config) && PlainKeys(template) &&
             PlainKeys(config)
    requires k in DiffKeys(Flat(config), Flat(template))
    ensures Plain(q) && q != [] && Dotted("", q) == k && LeafOrNull(template, q) != LeafOrNull(config, q)
  {
    hide LeavesOf, Dotted, Table;
    var doc := if k in Flat(config) then config else template;
    TableReads(LeavesOf(doc), k);
    var i := LastIs(LeavesOf(doc), k);
    RootNotLeaf(doc, i);
    q := LeavesOf(doc)[i].0;
    FlatReads(template, q);
    FlatReads(config, q);
  }

  /** The audit sees no difference exactly when every path holds the same leaf, a missing one counted as null. */
  lemma UnseenExactly(template: Node, config: Node)
    requires template.Block? && config.Block? && Dict(template) && Dict(config) && PlainKeys(template) &&
             PlainKeys(config)
    ensures DiffKeys(Flat(config), Flat(template)) == {} <==>
      forall q: Path :: LeafOrNull(template, q) == LeafOrNull(config, q)
  {
    hide Dict, LeavesOf, Table, Dotted;
    if DiffKeys(Flat(config), Flat(template)) == {} {
      forall q: Path ensures LeafOrNull(template, q) == LeafOrNull(config, q) {
        if LeafOrNull(template, q) != LeafOrNull(config, q) {
          SeenIn(template, config, q);
        }
      }
    } else {
      var k :| k in DiffKeys(Flat(config), Flat(template));
      var q := DiffHasPath(template, config, k);
    }
  }

  /** A path that holds another leaf has a key that differs. */
  lemma SeenIn(template: Node, config: Node, q: Path)
    requires template.Block? && config.Block? && Dict(template) && Dict(config) && PlainKeys(template) &&
             PlainKeys(config)
    requires LeafOrNull(template, q) != LeafOrNull(config, q)
    ensures Plain(q) && q != [] && Dotted("", q) in DiffKeys(Flat(config), Flat(template))
  {
    hide Dict, LeavesOf, Table, Dotted;
    LeafIsPlain(if LeafOrNull(template, q) != Null then template else config, q);
    FlatReads(template, q);
    FlatReads(config, q);
  }

  lemma LeafIsPlain(doc: Node, q: Path)
    requires doc.Block? && Dict(doc) && PlainKeys(doc) && LeafOrNull(doc, q) != Null
    ensures Plain(q) && q != []
  {
    LeavesAreLeaves(doc, q, LeafOrNull(doc, q));
    var i :| 0 <= i < |LeavesOf(doc)| && LeavesOf(doc)[i] == (q, LeafOrNull(doc, q));
  }

  lemma {:induction false} SplitAppend(a: string, b: string)
    ensures Split(a + "." + b, '.') == Split(a, '.') + Split(b, '.')
    decreases |a|
  {
    if a == "" {
      assert (a + "." + b)[1..] == b;
    } else {
      assert (a + "." + b)[1..] == a[1..] + "." + b && (a + "." + b)[0] == a[0];
      SplitAppend(a[1..], b);
    }
  }

  /** On a plain path, covering is lying at or below. */
  lemma CoversExactly(dotted: string, q: Path)
    requires Plain(q) && q != []
    ensures Covers(dotted, Dotted("", q)) <==> Split(dotted, '.') <= q
  {
    hide Split, Join, Dotted;
    var k := Dotted("", q);
    assert q[0] in q;
    DottedIsJoin(q);
    SplitOfJoin(q, '.');
    if Split(dotted, '.') <= q {
      SafeSplits(dotted);
      ClaimCovers(dotted, q);
    }
    if Covers(dotted, k) && k != dotted {
      var rest := k[|dotted| + 1..];
      assert k == dotted + "." + rest;
      SplitAppend(dotted, rest);
    }
  }

  /** A claim reads as unchanged exactly when no leaf at or below its path changed, a missing one counted as null. */
  lemma ClaimSeenExactly(template: Node, config: Node, dotted: string)
    requires template.Block? && config.Block? && Dict(template) && Dict(config) && PlainKeys(template) &&
             PlainKeys(config)
    ensures CoversSome(dotted, DiffKeys(Flat(config), Flat(template))) <==>
      exists q: Path :: Split(dotted, '.') <= q && LeafOrNull(template, q) != LeafOrNull(config, q)
  {
    hide Dict, LeavesOf, Table, Dotted, Covers, Split, PlainKeys;
    var actual := DiffKeys(Flat(config), Flat(template));
    if CoversSome(dotted, actual) {
      var k :| k in actual && Covers(dotted, k);
      var q := DiffHasPath(template, config, k);
      CoversExactly(dotted, q);
    }
    if q: Path :| Split(dotted, '.') <= q && LeafOrNull(template, q) != LeafOrNull(config, q) {
      SeenIn(template, config, q);
      CoversExactly(dotted, q);
    }
  }

  /** A template with a null leaf, and what setting it to an empty block makes of it. */
  const NULL_LEAF := Block([Entry("x", Leaf(Null))])
  const EMPTY_BLOCK := Block([Entry("x", Block([]))])

  /**
   A null leaf set to an empty block is a change the audit cannot see: the mint is made and claimed, both tables are the
   documents' own, no key differs, and the honest header is reported as a lie.
   */
  lemma NullToEmptyUnseen()
    ensures Minted(NULL_LEAF, [Delta("x", Block([]))], 1) == Some(EMPTY_BLOCK) && EMPTY_BLOCK != NULL_LEAF
    ensures Flat(NULL_LEAF) == map["x" := Null] && Flat(EMPTY_BLOCK) == map[]
    ensures DiffKeys(Flat(EMPTY_BLOCK), Flat(NULL_LEAF)) == {}
    ensures !Matches(Flat(EMPTY_BLOCK), Flat(NULL_LEAF), Claims([Delta("x", Block([]))]))
  {
    NullTables();
    NullMinted();
    hide Minted, Flat, LeavesOf;
    var deltas := [Delta("x", Block([]))];
    assert deltas[0].dotted in Claims(deltas);
    assert !CoversSome("x", DiffKeys(map[], map["x" := Null]));
  }

  lemma NullMinted()
    ensures Minted(NULL_LEAF, [Delta("x", Block([]))], 1) == Some(EMPTY_BLOCK)
  {
    hide Flat, LeavesOf, LeavesUpTo;
    var deltas := [Delta("x", Block([]))];
    assert Split("x", '.') == ["x"] && ["x"][1..] == [];
    assert Minted(NULL_LEAF, deltas, 0) == Some(NULL_LEAF);
    assert Find(NULL_LEAF.items, "x") == Some(0) && NodeAt(NULL_LEAF, ["x"]) == Some(Leaf(Null));
    assert SetAt(NULL_LEAF, ["x"], Block([])).items == EMPTY_BLOCK.items;
  }

  lemma NullTables()
    ensures Flat(NULL_LEAF) == map["x" := Null] && Flat(EMPTY_BLOCK) == map[]
  {
    hide Minted, SetAt, NodeAt;
    assert LeavesOf(Leaf(Null)) == [([], Null)];
    assert Below("x", [([], Null)]) == [(["x"], Null)] by { assert ["x"] + [] == ["x"]; }
    assert LeavesUpTo(NULL_LEAF, 1) == LeavesUpTo(NULL_LEAF, 0) + Below("x", LeavesOf(Leaf(Null))) == [(["x"], Null)];
    assert LeavesUpTo(EMPTY_BLOCK, 1) == LeavesUpTo(EMPTY_BLOCK, 0) + Below("x", LeavesUpTo(Block([]), 0)) == [];
    assert Table("", [(["x"], Null)][..0]) == map[];
    assert Dotted("", ["x"]) == Dotted("x", []) == "x";
  }

  /**
   Where every key set is safe nothing a mint changes is left unclaimed, so the claims and the changes match exactly
   when every claim covers a leaf key that changed.
   */
  lemma MintedMatches(template: Node, deltas: seq<Delta>)
    requires template.Block? && Minted(template, deltas, |deltas|).Some?
    requires forall i | 0 <= i < |deltas| :: Safe(deltas[i].dotted)
    ensures var ft, fc := Flat(template), Flat(Minted(template, deltas, |deltas|).value);
            Matches(fc, ft, Claims(deltas)) <==>
            forall i | 0 <= i < |deltas| :: CoversSome(deltas[i].dotted, DiffKeys(fc, ft))
  {
    hide Minted, Covers, SomeCovers, CoversSome, DiffKeys, Safe, Flat;
    var ft, fc := Flat(template), Flat(Minted(template, deltas, |deltas|).value);
    forall k | k in DiffKeys(fc, ft) ensures SomeCovers(Claims(deltas), k) {
      ChangesAreClaimed(template, deltas, k);
    }
    assert forall i | 0 <= i < |deltas| :: deltas[i].dotted in Claims(deltas);
  }
}

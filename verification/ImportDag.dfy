/**
 The import-DAG gate around the cycle finder: dotted targets resolved to modules, the module graph, its condensation to
 first-level subpackages, and the exit code.
 */
module ImportDag {
  import opened Digraph
  import Text
  import CycleFinder
  import opened Wrappers

  /** One top-level import statement. */
  datatype Import =
    | Plain(names: seq<string>)
    | From(level: nat, base: Option<string>, names: seq<string>)

  /** A module's file: whether it is a package's `__init__`, and its imports unless it does not parse. */
  datatype ModuleFile = ModuleFile(isPackage: bool, imports: Option<seq<Import>>)

  type Modules = map<string, ModuleFile>

  function Dotted(base: string, name: string): string {
    if base == "" then name else base + "." + name
  }

  /** The dotted names one import statement of module `name` mentions. */
  function Targets(name: string, isPackage: bool, statement: Import): seq<string> {
    match statement
    case Plain(names) => names
    case From(level, base, names) =>
      var explicit := if base.Some? then base.value else "";
      if level == 0 then seq(|names|, i requires 0 <= i < |names| => Dotted(explicit, names[i]))
      else
        var all := Text.Split(name, '.');
        var parts := if isPackage then all else all[..|all| - 1];
        var strip := level - 1;
        if strip >= |parts| then []
        else
          var package := Text.Join(parts[..|parts| - strip], '.');
          var from := if explicit == "" then package else Dotted(package, explicit);
          seq(|names|, i requires 0 <= i < |names| => Dotted(from, names[i]))
  }

  /** The first `k` parts of a dotted target. */
  function Prefix(target: string, k: nat): string
    requires 1 <= k <= |Text.Split(target, '.')|
  {
    Text.Join(Text.Split(target, '.')[..k], '.')
  }

  /** `r` is the longest dotted prefix of `target` that is a module; None when no prefix is. */
  ghost predicate IsLongestPrefix(target: string, modules: set<string>, r: Option<string>) {
    var n := |Text.Split(target, '.')|;
    match r
    case None => forall k | 1 <= k <= n :: Prefix(target, k) !in modules
    case Some(m) =>
      m in modules && exists k :: 1 <= k <= n && m == Prefix(target, k) &&
                                  forall j | k < j <= n :: Prefix(target, j) !in modules
  }

  /** What `target` resolves to, looking at its first `k` parts and fewer. */
  function ResolvedFrom(target: string, modules: set<string>, k: nat): Option<string>
    requires k <= |Text.Split(target, '.')|
  {
    if k == 0 then None
    else if Prefix(target, k) in modules then Some(Prefix(target, k))
    else ResolvedFrom(target, modules, k - 1)
  }

  function Resolved(target: string, modules: set<string>): Option<string> {
    ResolvedFrom(target, modules, |Text.Split(target, '.')|)
  }

  lemma {:induction false} ResolvedFromIsLongest(target: string, modules: set<string>, k: nat)
    requires k <= |Text.Split(target, '.')|
    requires forall j | k < j <= |Text.Split(target, '.')| :: Prefix(target, j) !in modules
    ensures IsLongestPrefix(target, modules, ResolvedFrom(target, modules, k))
  {
    if k > 0 && Prefix(target, k) !in modules {
      ResolvedFromIsLongest(target, modules, k - 1);
    }
  }

  /** The longest existing prefix, and nothing when there is none. */
  method Resolve(target: string, modules: set<string>) returns (r: Option<string>)
    ensures r == Resolved(target, modules)
    ensures IsLongestPrefix(target, modules, r)
  {
    var parts := Text.Split(target, '.');
    ghost var whole := parts;
    ResolvedFromIsLongest(target, modules, |whole|);
    while parts != []
      invariant |parts| <= |whole| && parts == whole[..|parts|]
      invariant Resolved(target, modules) == ResolvedFrom(target, modules, |parts|)
    {
      var cand := Text.Join(parts, '.');
      if cand in modules {
        return Some(cand);
      }
      parts := parts[..|parts| - 1];
    }
    return None;
  }

  /** The dotted names module `name` mentions that lie inside package `pkg`. */
  predicate InPackage(pkg: string, target: string) {
    target == pkg || pkg + "." <= target
  }

  /** Module `name` imports module `d` at its top level. */
  ghost predicate Imports(pkg: string, modules: Modules, name: string, d: string) {
    && name in modules && modules[name].imports.Some? && d != name
    && exists i, j :: Mentions(pkg, modules, name, i, j, d)
  }

  ghost predicate Mentions(pkg: string, modules: Modules, name: string, i: int, j: int, d: string)
    requires name in modules && modules[name].imports.Some?
  {
    var statements := modules[name].imports.value;
    0 <= i < |statements| &&
    var targets := Targets(name, modules[name].isPackage, statements[i]);
    0 <= j < |targets| && InPackage(pkg, targets[j]) && Resolved(targets[j], modules.Keys) == Some(d)
  }

  /** `g` has one node per module and one edge per top-level import. */
  ghost predicate IsModuleGraph(pkg: string, modules: Modules, g: Graph) {
    && g.Keys == modules.Keys
    && forall m, d | m in modules :: d in g[m] <==> Imports(pkg, modules, m, d)
  }

  /** The modules one file imports. */
  method Dependencies(pkg: string, modules: Modules, name: string) returns (deps: set<string>)
    requires name in modules && modules[name].imports.Some?
    ensures forall d :: d in deps <==> Imports(pkg, modules, name, d)
    ensures deps <= modules.Keys
  {
    deps := {};
    var statements := modules[name].imports.value;
    for i := 0 to |statements|
      invariant deps <= modules.Keys
      invariant forall d :: d in deps <==> d != name && exists k, j :: k < i && Mentions(pkg, modules, name, k, j, d)
    {
      var targets := Targets(name, modules[name].isPackage, statements[i]);
      ghost var before := deps;
      for j := 0 to |targets|
        invariant deps <= modules.Keys
        invariant forall d :: d in deps <==>
          d in before || (d != name && exists l :: l < j && Mentions(pkg, modules, name, i, l, d))
      {
        if InPackage(pkg, targets[j]) {
          var resolved := Resolve(targets[j], modules.Keys);
          if resolved.Some? && resolved.value != name {
            assert Mentions(pkg, modules, name, i, j, resolved.value);
            deps := deps + {resolved.value};
          }
        }
      }
    }
  }

  /** The module graph, unless some file does not parse. */
  method BuildModuleGraph(pkg: string, modules: Modules) returns (parseFailed: bool, g: Graph)
    ensures parseFailed <==> exists m :: m in modules && modules[m].imports.None?
    ensures !parseFailed ==> IsModuleGraph(pkg, modules, g)
  {
    parseFailed := false;
    g := map m | m in modules :: {};
    var todo := modules.Keys;
    while todo != {}
      invariant todo <= modules.Keys && g.Keys == modules.Keys
      invariant parseFailed <==> exists m :: m in modules && m !in todo && modules[m].imports.None?
      invariant forall m, d | m in modules && m !in todo && modules[m].imports.Some? ::
        d in g[m] <==> Imports(pkg, modules, m, d)
    {
      var m :| m in todo;
      todo := todo - {m};
      if modules[m].imports.None? {
        parseFailed := true;
      } else {
        var deps := Dependencies(pkg, modules, m);
        g := g[m := deps];
      }
    }
  }

  /** The first-level subpackage of a dotted module name; the package itself for its own `__init__`. */
  function Condense(pkg: string, name: string): string {
    var parts := Text.Split(name, '.');
    if |parts| >= 2 then Text.Join(parts[..2], '.') else pkg
  }

  /** Some module among `dsts` lies in subpackage `b`. */
  ghost predicate Reaches(pkg: string, dsts: set<Node>, b: Node) {
    exists v :: v in dsts && Condense(pkg, v) == b
  }

  /** Some of `sources`, in subpackage `a`, imports a module of subpackage `b`. */
  ghost predicate Joins(pkg: string, g: Graph, sources: set<Node>, a: Node, b: Node) {
    exists u :: u in sources && u in g && Condense(pkg, u) == a && Reaches(pkg, g[u], b)
  }

  /** `c` joins two different subpackages exactly when some module of the one imports a module of the other. */
  ghost predicate IsCondensed(pkg: string, g: Graph, c: Graph) {
    && (forall m | m in g :: Condense(pkg, m) in c)
    && (forall s | s in c :: exists m :: m in g && Condense(pkg, m) == s)
    && (forall a, b | a in c :: b in c[a] <==> a != b && Joins(pkg, g, g.Keys, a, b))
  }

  method BuildCondensed(pkg: string, g: Graph) returns (c: Graph)
    ensures IsCondensed(pkg, g, c)
  {
    hide Condense, Reaches;
    var subpackages := set m | m in g :: Condense(pkg, m);
    c := map s | s in subpackages :: {};
    var sources := g.Keys;
    while sources != {}
      invariant sources <= g.Keys && c.Keys == subpackages
      invariant forall a, b | a in c :: b in c[a] <==> a != b && Joins(pkg, g, g.Keys - sources, a, b)
    {
      var src :| src in sources;
      var a := Condense(pkg, src);
      var folded := FoldDependencies(pkg, a, g[src], c[a]);
      JoinsAlso(pkg, g, g.Keys - sources, src);
      assert g.Keys - (sources - {src}) == (g.Keys - sources) + {src};
      c := c[a := folded];
      sources := sources - {src};
    }
    assert g.Keys - sources == g.Keys;
  }

  lemma JoinsAlso(pkg: string, g: Graph, sources: set<Node>, src: Node)
    requires src in g
    ensures forall a, b :: Joins(pkg, g, sources + {src}, a, b) <==>
      Joins(pkg, g, sources, a, b) || (Condense(pkg, src) == a && Reaches(pkg, g[src], b))
  {
    hide Condense, Reaches;
  }

  /** The subpackages already depended on, and those of `dsts` that are not `a` itself. */
  method FoldDependencies(pkg: string, a: Node, dsts: set<Node>, into: set<Node>) returns (folded: set<Node>)
    ensures forall b :: b in folded <==> b in into || (b != a && Reaches(pkg, dsts, b))
  {
    folded := into;
    var todo := dsts;
    while todo != {}
      invariant todo <= dsts
      invariant forall b :: b in folded <==>
        b in into || (b != a && exists v :: v in dsts && v !in todo && Condense(pkg, v) == b)
    {
      var dst :| dst in todo;
      todo := todo - {dst};
      var b := Condense(pkg, dst);
      if a != b {
        folded := folded + {b};
      }
    }
  }

  /** The exit code: 2 when a file does not parse, else 1 exactly when one of the two graphs has a cycle, else 0. */
  method CheckImports(pkg: string, modules: Modules) returns (code: int, ghost g: Graph, ghost c: Graph)
    ensures code == 2 <==> exists m :: m in modules && modules[m].imports.None?
    ensures code != 2 ==> IsModuleGraph(pkg, modules, g) && IsCondensed(pkg, g, c)
    ensures code == 0 <==> code != 2 && Acyclic(g) && Acyclic(c)
    ensures code in {0, 1, 2}
  {
    var parseFailed, moduleGraph := BuildModuleGraph(pkg, modules);
    g, c := moduleGraph, moduleGraph;
    if parseFailed {
      return 2, g, c;
    }
    var condensed := BuildCondensed(pkg, moduleGraph);
    c := condensed;
    var seen: set<seq<Node>> := {};
    var cycles := CycleFinder.FindCycles(moduleGraph);
    seen := seen + set k | 0 <= k < |cycles| :: cycles[k];
    assert cycles != [] ==> cycles[0] in seen;
    var folded := CycleFinder.FindCycles(condensed);
    seen := seen + set k | 0 <= k < |folded| :: folded[k];
    assert folded != [] ==> folded[0] in seen;
    code := if seen != {} then 1 else 0;
  }

  /** The subpackages a walk passes through, a stay in one counted once. */
  ghost function Passed(pkg: string, w: seq<Node>): (p: seq<Node>)
    requires |w| >= 1
    ensures |p| >= 1 && p[0] == Condense(pkg, w[0]) && p[|p| - 1] == Condense(pkg, w[|w| - 1])
  {
    if |w| == 1 then [Condense(pkg, w[0])]
    else
      var rest := Passed(pkg, w[1..]);
      if Condense(pkg, w[0]) == rest[0] then rest else [Condense(pkg, w[0])] + rest
  }

  lemma {:induction false} PassedIsWalk(pkg: string, g: Graph, c: Graph, w: seq<Node>)
    requires IsCondensed(pkg, g, c)
    requires |w| >= 1 && Walk(g, w)
    ensures Walk(c, Passed(pkg, w))
    ensures |Passed(pkg, w)| == 1 ==> forall i | 0 <= i < |w| :: Condense(pkg, w[i]) == Condense(pkg, w[0])
  {
    if |w| > 1 {
      var tail, a := w[1..], Condense(pkg, w[0]);
      WalkTail(g, w);
      PassedIsWalk(pkg, g, c, tail);
      assert Edge(g, w[0], w[1]);
      if a != Condense(pkg, w[1]) {
        assert Reaches(pkg, g[w[0]], Condense(pkg, w[1]));
        WalkCons(c, a, Passed(pkg, tail));
      } else if |Passed(pkg, tail)| == 1 {
        assert forall i | 0 < i < |w| :: Condense(pkg, w[i]) == Condense(pkg, tail[i - 1]);
      }
    }
  }

  /** With an acyclic condensation, every module cycle stays inside one first-level subpackage. */
  lemma CycleStaysInSubpackage(pkg: string, g: Graph, c: Graph, w: seq<Node>)
    requires IsCondensed(pkg, g, c) && Acyclic(c)
    requires ClosedWalk(g, w)
    ensures forall i | 0 <= i < |w| :: Condense(pkg, w[i]) == Condense(pkg, w[0])
  {
    PassedIsWalk(pkg, g, c, w);
    assert !ClosedWalk(c, Passed(pkg, w));
  }
}

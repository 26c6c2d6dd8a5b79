/**
 The edges of the module graph told by the parts of the names in the imports: where each form of import leads, and which
 subpackage a module folds into.
 */
module ImportEdges {
  import opened Digraph
  import opened ImportDag
  import opened Wrappers
  import Text

  /** Parts of a dotted name: one at least, none empty, none with a dot in it. */
  ghost predicate Parts(p: seq<string>) {
    p != [] && forall x | x in p :: x != "" && '.' !in x
  }

  function Name(p: seq<string>): string
    requires p != []
  {
    Text.Join(p, '.')
  }

  lemma SplitName(p: seq<string>)
    requires Parts(p)
    ensures Text.Split(Name(p), '.') == p
  {
    Text.SplitOfJoin(p, '.');
  }

  /** Different parts, different names. */
  lemma NamesDiffer(p: seq<string>, q: seq<string>)
    requires Parts(p) && Parts(q) && Name(p) == Name(q)
    ensures p == q
  {
    SplitName(p);
    SplitName(q);
  }

  lemma {:induction false} NameMore(p: seq<string>, q: seq<string>)
    requires p != [] && q != []
    ensures Name(p + q) == Name(p) + "." + Name(q)
  {
    if |p| == 1 {
      assert (p + q)[1..] == q;
    } else {
      NameMore(p[1..], q);
      assert (p + q)[1..] == p[1..] + q;
    }
  }

  lemma NameNotEmpty(p: seq<string>)
    requires Parts(p)
    ensures Name(p) != ""
  {
    assert p[0] in p;
  }

  /** A base followed by parts is the longer name. */
  lemma DottedName(p: seq<string>, q: seq<string>)
    requires Parts(p) && q != []
    ensures Dotted(Name(p), Name(q)) == Name(p + q)
  {
    NameMore(p, q);
    NameNotEmpty(p);
  }

  /** The nearest existing module of a path: its longest prefix that is one. */
  ghost predicate Nearest(modules: set<string>, path: seq<string>, d: string) {
    exists k :: IsNearest(modules, path, k, d)
  }

  ghost predicate IsNearest(modules: set<string>, path: seq<string>, k: int, d: string) {
    1 <= k <= |path| && d == Name(path[..k]) && d in modules &&
    forall j | k < j <= |path| :: Name(path[..j]) !in modules
  }

  lemma ResolvedIsNearest(modules: set<string>, path: seq<string>, d: string)
    requires Parts(path)
    ensures Resolved(Name(path), modules) == Some(d) <==> Nearest(modules, path, d)
  {
    SplitName(path);
    ResolvedFromIsLongest(Name(path), modules, |path|);
    assert forall k | 1 <= k <= |path| :: Prefix(Name(path), k) == Name(path[..k]);
    var r := Resolved(Name(path), modules);
    if Nearest(modules, path, d) {
      var k :| IsNearest(modules, path, k, d);
      assert Prefix(Name(path), k) in modules;
      var n :| 1 <= n <= |path| && r.Some? && r.value == Prefix(Name(path), n) &&
               forall j | n < j <= |path| :: Prefix(Name(path), j) !in modules;
      assert n == k;
    }
    if r == Some(d) {
      var n :| 1 <= n <= |path| && d == Prefix(Name(path), n) &&
               forall j | n < j <= |path| :: Prefix(Name(path), j) !in modules;
      assert IsNearest(modules, path, n, d);
    }
  }

  /** A name lies in the package exactly when its first part is the package's. */
  lemma InPackageMeans(pkg: string, path: seq<string>)
    requires Parts(path) && Parts([pkg])
    ensures InPackage(pkg, Name(path)) <==> path[0] == pkg
  {
    if path[0] == pkg && |path| > 1 {
      NameMore(path[..1], path[1..]);
      assert path == path[..1] + path[1..];
    }
    if InPackage(pkg, Name(path)) {
      SplitName(path);
      SplitName([pkg]);
      if pkg + "." <= Name(path) {
        var rest := Name(path)[|pkg| + 1..];
        assert Name(path) == pkg + "." + rest;
        FirstPart(pkg, rest);
      }
    }
  }

  lemma {:induction false} FirstPart(a: string, rest: string)
    requires '.' !in a
    ensures Text.Split(a + "." + rest, '.')[0] == a
  {
    var s := a + "." + rest;
    if a == "" {
      assert s[0] == '.';
    } else {
      assert s[1..] == a[1..] + "." + rest && s[0] == a[0];
      FirstPart(a[1..], rest);
      assert [a[0]] + a[1..] == a;
    }
  }

  /** An import statement by the parts of its names; `base` is empty where none is written. */
  datatype Told =
    | ToldPlain(paths: seq<seq<string>>)
    | ToldFrom(level: nat, base: seq<string>, names: seq<string>)

  /** Names of parts, and a base wherever the import is not relative. */
  ghost predicate Written(t: Told) {
    match t
    case ToldPlain(paths) => forall i | 0 <= i < |paths| :: Parts(paths[i])
    case ToldFrom(level, base, names) =>
      (base == [] ==> level > 0) && (base != [] ==> Parts(base)) && forall n | n in names :: Parts([n])
  }

  /** The statement as it is written. */
  function Spell(t: Told): Import
    requires Written(t)
  {
    match t
    case ToldPlain(paths) => Plain(seq(|paths|, i requires 0 <= i < |paths| => Name(paths[i])))
    case ToldFrom(level, base, names) => From(level, if base == [] then None else Some(Name(base)), names)
  }

  /** The package that holds the module at `where`: the path itself for a package. */
  function Home(where: seq<string>, isPackage: bool): seq<string>
    requires where != []
  {
    if isPackage then where else where[..|where| - 1]
  }

  /** `from B import n` is about `B.n`. */
  lemma AbsoluteTargets(where: string, isPackage: bool, base: seq<string>, names: seq<string>)
    requires Parts(base)
    requires forall n | n in names :: Parts([n])
    ensures |Targets(where, isPackage, From(0, Some(Name(base)), names))| == |names|
    ensures forall j | 0 <= j < |names| ::
      Targets(where, isPackage, From(0, Some(Name(base)), names))[j] == Name(base + [names[j]])
  {
    forall j | 0 <= j < |names| ensures Dotted(Name(base), names[j]) == Name(base + [names[j]]) {
      DottedName(base, [names[j]]);
    }
  }

  lemma RelativeBase(up: seq<string>, base: seq<string>)
    requires Parts(up) && (base != [] ==> Parts(base))
    ensures base == [] ==> Name(up) == Name(up + base)
    ensures base != [] ==> Name(base) != "" && Dotted(Name(up), Name(base)) == Name(up + base)
  {
    if base == [] {
      assert up + base == up;
    } else {
      NameNotEmpty(base);
      DottedName(up, base);
    }
  }

  /** The targets of a relative import whose dots do not lead out of the outermost package. */
  lemma RelativeTargets(
    name: string, where: seq<string>, isPackage: bool, level: nat, base: seq<string>, names: seq<string>)
    requires where != [] && Text.Split(name, '.') == where
    requires 1 <= level <= |Home(where, isPackage)| && Written(ToldFrom(level, base, names))
    ensures var home := Home(where, isPackage);
            var package := Name(home[..|home| - (level - 1)]);
            var from := if base == [] || Name(base) == "" then package else Dotted(package, Name(base));
            Targets(name, isPackage, Spell(ToldFrom(level, base, names))) ==
            seq(|names|, i requires 0 <= i < |names| => Dotted(from, names[i]))
  {
    hide Text.Split, Text.Join, Dotted;
  }

  /**
   A relative import of level `l` is the absolute import from the module's package without its last `l - 1` parts.
   */
  lemma RelativeIsAbsolute(where: seq<string>, isPackage: bool, level: nat, base: seq<string>, names: seq<string>)
    requires Parts(where) && 1 <= level <= |Home(where, isPackage)|
    requires Written(ToldFrom(level, base, names))
    ensures var home := Home(where, isPackage);
            var full := home[..|home| - (level - 1)] + base;
            Targets(Name(where), isPackage, Spell(ToldFrom(level, base, names))) ==
            Targets(Name(where), isPackage, From(0, Some(Name(full)), names))
  {
    hide Name;
    SplitName(where);
    RelativeTargets(Name(where), where, isPackage, level, base, names);
    hide Text.Split, Text.Join, Spell;
    var home := Home(where, isPackage);
    var up := home[..|home| - (level - 1)];
    assert forall x | x in up :: x in where;
    RelativeBase(up, base);
    var name, full := Name(where), Name(up + base);
    assert Targets(name, isPackage, From(0, Some(full), names)) ==
           seq(|names|, i requires 0 <= i < |names| => Dotted(full, names[i]));
  }

  /** With more dots than packages around the module, a relative import names nothing. */
  lemma TooManyDots(where: seq<string>, isPackage: bool, level: nat, base: seq<string>, names: seq<string>)
    requires Parts(where) && level > |Home(where, isPackage)|
    requires level > 0 && Written(ToldFrom(level, base, names))
    ensures Targets(Name(where), isPackage, Spell(ToldFrom(level, base, names))) == []
  {
    hide Name, Text.Join;
    SplitName(where);
  }

  /** The path from which a `from` import at `where` takes its names; None above the outermost package. */
  function Source(where: seq<string>, isPackage: bool, level: nat, base: seq<string>): Option<seq<string>>
    requires where != []
  {
    var home := Home(where, isPackage);
    if level == 0 then Some(base)
    else if level > |home| then None
    else Some(home[..|home| - (level - 1)] + base)
  }

  /** The `j`-th name of a statement in the module at `where` leads to the module `d`. */
  ghost predicate Leads(
    pkg: string, modules: set<string>, where: seq<string>, isPackage: bool, t: Told, j: int, d: string)
    requires where != []
  {
    match t
    case ToldPlain(paths) => 0 <= j < |paths| && paths[j] != [] && paths[j][0] == pkg && Nearest(modules, paths[j], d)
    case ToldFrom(level, base, names) =>
      0 <= j < |names| &&
      var from := Source(where, isPackage, level, base);
      from.Some? && from.value != [] && from.value[0] == pkg && Nearest(modules, from.value + [names[j]], d)
  }

  /** A target in the package resolves to where its path leads. */
  lemma PathLeads(pkg: string, modules: set<string>, path: seq<string>, d: string)
    requires Parts(path) && Parts([pkg])
    ensures InPackage(pkg, Name(path)) && Resolved(Name(path), modules) == Some(d) <==>
      path[0] == pkg && Nearest(modules, path, d)
  {
    InPackageMeans(pkg, path);
    ResolvedIsNearest(modules, path, d);
  }

  lemma SourceParts(where: seq<string>, isPackage: bool, level: nat, base: seq<string>)
    requires Parts(where) && (base == [] ==> level > 0) && (base != [] ==> Parts(base))
    ensures Source(where, isPackage, level, base).Some? ==> Parts(Source(where, isPackage, level, base).value)
  {
    var home := Home(where, isPackage);
    assert forall x | x in home :: x in where;
    if 0 < level <= |home| {
      var full := home[..|home| - (level - 1)] + base;
      forall x | x in full ensures x != "" && '.' !in x {
        assert x in home || x in base;
      }
    }
  }

  /** The `j`-th name of a `from` import is about the path it takes its names from, and that name. */
  lemma SourceTargets(where: seq<string>, isPackage: bool, level: nat, base: seq<string>, names: seq<string>)
    requires Parts(where) && Written(ToldFrom(level, base, names))
    ensures var targets := Targets(Name(where), isPackage, Spell(ToldFrom(level, base, names)));
            match Source(where, isPackage, level, base)
            case None => targets == []
            case Some(full) =>
              && Parts(full) && |targets| == |names|
              && forall j | 0 <= j < |names| :: targets[j] == Name(full + [names[j]])
  {
    hide Name;
    if level > |Home(where, isPackage)| {
      TooManyDots(where, isPackage, level, base, names);
    } else {
      SourceParts(where, isPackage, level, base);
      var full := Source(where, isPackage, level, base).value;
      if level > 0 {
        RelativeIsAbsolute(where, isPackage, level, base, names);
      }
      hide Targets, Source, Parts;
      AbsoluteTargets(Name(where), isPackage, full, names);
    }
  }

  lemma FromLeads(
    pkg: string, modules: set<string>, where: seq<string>, isPackage: bool, level: nat, base: seq<string>,
    names: seq<string>, j: int, d: string)
    requires Parts(where) && Parts([pkg]) && Written(ToldFrom(level, base, names))
    ensures var t := ToldFrom(level, base, names);
            var targets := Targets(Name(where), isPackage, Spell(t));
            Leads(pkg, modules, where, isPackage, t, j, d) <==>
            0 <= j < |targets| && InPackage(pkg, targets[j]) && Resolved(targets[j], modules) == Some(d)
  {
    hide InPackage, Resolved, Nearest, Targets, Name;
    SourceTargets(where, isPackage, level, base, names);
    var from := Source(where, isPackage, level, base);
    if from.Some? && 0 <= j < |names| {
      assert Parts([names[j]]);
      PathLeads(pkg, modules, from.value + [names[j]], d);
    }
  }

  /** One statement's targets, resolved, are where its names lead. */
  lemma TargetLeads(
    pkg: string, modules: set<string>, where: seq<string>, isPackage: bool, t: Told, j: int, d: string)
    requires Parts(where) && Parts([pkg]) && Written(t)
    ensures var targets := Targets(Name(where), isPackage, Spell(t));
            Leads(pkg, modules, where, isPackage, t, j, d) <==>
            0 <= j < |targets| && InPackage(pkg, targets[j]) && Resolved(targets[j], modules) == Some(d)
  {
    hide InPackage, Resolved, Nearest;
    match t
    case ToldPlain(paths) =>
      if 0 <= j < |paths| {
        PathLeads(pkg, modules, paths[j], d);
      }
    case ToldFrom(level, base, names) => FromLeads(pkg, modules, where, isPackage, level, base, names, j, d);
  }

  /**
   The edges out of a module, by the parts of the names in its imports: each name leads to the nearest existing module
   of its path, inside the package, and nothing else is an edge.
   */
  lemma EdgesExactly(pkg: string, modules: Modules, g: Graph, where: seq<string>, told: seq<Told>, d: string)
    requires IsModuleGraph(pkg, modules, g)
    requires Parts(where) && Parts([pkg]) && forall t | t in told :: Written(t)
    requires Name(where) in modules
    requires modules[Name(where)].imports == Some(seq(|told|, i requires 0 <= i < |told| => Spell(told[i])))
    ensures d in g[Name(where)] <==>
      d != Name(where) && exists i, j :: 0 <= i < |told| &&
                                         Leads(pkg, modules.Keys, where, modules[Name(where)].isPackage, told[i], j, d)
  {
    var m := Name(where);
    var isPackage := modules[m].isPackage;
    forall i, j | 0 <= i < |told|
      ensures Mentions(pkg, modules, m, i, j, d) <==> Leads(pkg, modules.Keys, where, isPackage, told[i], j, d)
    {
      assert told[i] in told;
      TargetLeads(pkg, modules.Keys, where, isPackage, told[i], j, d);
    }
  }

  /** `from B import n` in a file of the package is an edge to `B.n` when that is another module. */
  lemma FromImportEdge(
    pkg: string, modules: Modules, g: Graph, m: string, i: int, base: seq<string>, names: seq<string>, n: string)
    requires IsModuleGraph(pkg, modules, g)
    requires m in modules && modules[m].imports.Some? && 0 <= i < |modules[m].imports.value|
    requires Parts(base) && Parts([pkg]) && base[0] == pkg
    requires modules[m].imports.value[i] == From(0, Some(Name(base)), names)
    requires n in names && forall x | x in names :: Parts([x])
    ensures Name(base + [n]) in modules && Name(base + [n]) != m ==> Name(base + [n]) in g[m]
    ensures forall d | Nearest(modules.Keys, base + [n], d) && d != m :: d in g[m]
  {
    AbsoluteTargets(m, modules[m].isPackage, base, names);
    var j :| 0 <= j < |names| && names[j] == n;
    var path := base + [n];
    assert Parts(path);
    InPackageMeans(pkg, path);
    forall d | Nearest(modules.Keys, path, d) && d != m ensures d in g[m] {
      ResolvedIsNearest(modules.Keys, path, d);
      assert Mentions(pkg, modules, m, i, j, d);
    }
    if Name(path) in modules {
      assert path[..|path|] == path;
      assert IsNearest(modules.Keys, path, |path|, Name(path));
    }
  }

  /** Two modules of one package that import each other by name make a cycle. */
  lemma MutualImportIsCycle(
    pkg: string, modules: Modules, g: Graph, base: seq<string>, a: string, b: string, i: int, j: int)
    requires IsModuleGraph(pkg, modules, g)
    requires Parts(base) && Parts([pkg]) && base[0] == pkg && Parts([a]) && Parts([b]) && a != b
    requires var x, y := Name(base + [a]), Name(base + [b]);
             && x in modules && modules[x].imports.Some? && 0 <= i < |modules[x].imports.value|
             && y in modules && modules[y].imports.Some? && 0 <= j < |modules[y].imports.value|
             && modules[x].imports.value[i] == From(0, Some(Name(base)), [b])
             && modules[y].imports.value[j] == From(0, Some(Name(base)), [a])
    ensures !Acyclic(g)
  {
    var x, y := Name(base + [a]), Name(base + [b]);
    assert (base + [a])[|base|] != (base + [b])[|base|];
    if x == y {
      NamesDiffer(base + [a], base + [b]);
      assert false;
    }
    FromImportEdge(pkg, modules, g, x, i, base, [b], b);
    FromImportEdge(pkg, modules, g, y, j, base, [a], a);
    var w := [x, y, x];
    assert Edge(g, x, y) && Edge(g, y, x);
    assert ClosedWalk(g, w);
  }

  /** A module folds into its first-level subpackage, and the package's own file into the package. */
  lemma CondenseMeans(pkg: string, rest: seq<string>)
    requires Parts([pkg] + rest)
    ensures Condense(pkg, Name([pkg] + rest)) == if rest == [] then pkg else pkg + "." + rest[0]
  {
    var path := [pkg] + rest;
    SplitName(path);
    if rest != [] {
      assert path[..2] == [pkg] + [rest[0]];
      NameMore([pkg], [rest[0]]);
    }
  }

  /** Two modules fold together exactly when their paths agree on the first part below the package, or both lack one. */
  lemma FoldTogether(pkg: string, p: seq<string>, q: seq<string>)
    requires Parts([pkg] + p) && Parts([pkg] + q)
    ensures Condense(pkg, Name([pkg] + p)) == Condense(pkg, Name([pkg] + q)) <==>
      (p == [] && q == []) || (p != [] && q != [] && p[0] == q[0])
  {
    CondenseMeans(pkg, p);
    CondenseMeans(pkg, q);
    if p != [] && q != [] {
      assert (pkg + "." + p[0])[|pkg| + 1..] == p[0];
      assert (pkg + "." + q[0])[|pkg| + 1..] == q[0];
    }
  }
}

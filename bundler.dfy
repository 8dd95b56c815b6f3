/** The bundler proper (`Bundler` in src/lib.rs): starting from the root
    package, every package it depends on is bundled first, depth first and at
    most once, each library becoming one `pub mod` block of the output, and
    the root's binary source comes last. Reading files, parsing and printing
    are inputs: `Sources` holds the parsed files, the raw text of included
    files, and the printing of a parsed file as tokens. */
module Bundling {
  import opened Results
  import opened Syntax
  import Paths
  import ModExpander
  import IncludeStr

  type PackageId = string

  /** An edge of the resolved dependency graph: the name under which the
      dependent refers to the dependency, and the dependency's package id. */
  datatype NodeDep = NodeDep(name: string, pkg: PackageId)

  /** A node of the resolved dependency graph. */
  datatype Node = Node(id: PackageId, deps: seq<NodeDep>)

  /** A build target: its crate name, its kinds (`lib`, `bin`, ...) and the
      path of its root source file. */
  datatype Target = Target(name: string, kinds: seq<string>, srcPath: string)

  datatype Package = Package(id: PackageId, targets: seq<Target>)

  /** What `cargo metadata` reports: the nodes of the resolved graph and the
      packages. */
  datatype Metadata = Metadata(nodes: seq<Node>, packages: seq<Package>)

  /** The files bundling reads, as their parsed contents (a path that cannot
      be read or parsed is absent), the raw text of the files `include_str!`
      may name, and the printing of a parsed file as tokens. */
  datatype Sources = Sources(
    parsed: map<string, File>,
    texts: map<string, string>,
    tokens: File -> seq<IncludeStr.Token>)

  /** Every way a bundling run panics. */
  datatype BundleError =
    | NotInResolve(pkg: PackageId)
    | NotInPackages(pkg: PackageId)
    | NoBinTarget(pkg: PackageId)
    | Unreadable(path: string)
    | NoParent(path: string)
    | ModError(modError: ModExpander.ExpandError)
    | IncludeFailed(includeError: IncludeStr.IncludeError)

  // Lookups: each takes the first element that matches, as `iter().find` does.

  function FindIndex<T>(xs: seq<T>, p: T -> bool): (i: nat)
    ensures i <= |xs|
    ensures i < |xs| ==> p(xs[i])
    ensures forall j :: 0 <= j < i ==> !p(xs[j])
  {
    if xs == [] || p(xs[0]) then 0
    else
      var i := FindIndex(xs[1..], p);
      assert forall j :: 0 <= j < i ==> xs[1..][j] == xs[j + 1];
      1 + i
  }

  function FindNode(nodes: seq<Node>, id: PackageId): (r: Option<Node>)
    ensures r.Some? ==> r.value in nodes && r.value.id == id
    ensures r.None? ==> forall n :: n in nodes ==> n.id != id
    ensures r.Some? ==> exists i :: 0 <= i < |nodes| && r.value == nodes[i] && forall j :: 0 <= j < i ==> nodes[j].id != id
  {
    var i := FindIndex(nodes, (n: Node) => n.id == id);
    if i < |nodes| then Some(nodes[i]) else None
  }

  /** `metadata[pkg]` */
  function FindPackage(packages: seq<Package>, id: PackageId): (r: Option<Package>)
    ensures r.Some? ==> r.value in packages && r.value.id == id
    ensures r.None? ==> forall p :: p in packages ==> p.id != id
    ensures r.Some? ==> exists i :: 0 <= i < |packages| && r.value == packages[i] && forall j :: 0 <= j < i ==> packages[j].id != id
  {
    var i := FindIndex(packages, (p: Package) => p.id == id);
    if i < |packages| then Some(packages[i]) else None
  }

  /** The first target having `kind` among its kinds. */
  function FindTarget(targets: seq<Target>, kind: string): (r: Option<Target>)
    ensures r.Some? ==> r.value in targets && kind in r.value.kinds
    ensures r.None? ==> forall t :: t in targets ==> kind !in t.kinds
    ensures r.Some? ==> exists i :: 0 <= i < |targets| && r.value == targets[i] && forall j :: 0 <= j < i ==> kind !in targets[j].kinds
  {
    var i := FindIndex(targets, (t: Target) => kind in t.kinds);
    if i < |targets| then Some(targets[i]) else None
  }

  /** The crates expected to be available where the bundle is built. */
  const BuiltinCrates: set<string> := {"rand", "log", "env_logger"}

  /** `is_builtin`: edges named `rand`, `log` or `env_logger` are never bundled. The
      decision looks at the name of the edge only, not at the package it leads to. */
  predicate IsBuiltin(dep: NodeDep) {
    dep.name == "rand" || dep.name == "log" || dep.name == "env_logger"
  }

  /** An edge is builtin exactly when its name is one of the builtin crates,
      whatever package it leads to. */
  lemma BuiltinByName(dep: NodeDep)
    ensures IsBuiltin(dep) <==> dep.name in BuiltinCrates
    ensures forall pkg :: IsBuiltin(NodeDep(dep.name, pkg)) == IsBuiltin(dep)
  {
  }

  // Paths of source files.

  /** The index of the last separator in `p`, or -1 when it has none. */
  function LastSeparator(p: string): (i: int)
    ensures -1 <= i < |p|
    ensures 0 <= i ==> p[i] == Paths.Separator
    ensures forall j :: i < j < |p| ==> p[j] != Paths.Separator
  {
    if p == [] then -1
    else if p[|p| - 1] == Paths.Separator then |p| - 1
    else LastSeparator(p[..|p| - 1])
  }

  /** `Path::parent`: nothing for the empty path and the root, the empty path
      for a bare file name, the root for `/name`, and otherwise everything
      before the last separator. */
  function Parent(p: string): (r: Option<string>)
    ensures r.None? <==> p == "" || p == "/"
    ensures r.Some? ==> |r.value| < |p|
    ensures r.Some? && LastSeparator(p) < 0 ==> r.value == ""
    ensures r.Some? && LastSeparator(p) == 0 ==> r.value == "/"
    ensures r.Some? && LastSeparator(p) > 0 ==> r.value == p[..LastSeparator(p)] && Paths.Separator !in p[LastSeparator(p) + 1..]
  {
    var i := LastSeparator(p);
    if p == "" || p == "/" then None
    else if i < 0 then Some("")
    else if i == 0 then Some("/")
    else Some(p[..i])
  }

  /** The parent of a file name joined to a directory is that directory. */
  lemma ParentOfJoin(dir: string, name: string)
    requires name != "" && Paths.Separator !in name
    requires dir == "/" || dir == "" || dir[|dir| - 1] != Paths.Separator
    ensures Parent(Paths.Join(dir, name)) == Some(dir)
  {
    var p := Paths.Join(dir, name);
    assert !Paths.IsAbsolute(name);
    if dir == "" {
      assert p == name;
      assert LastSeparator(p) == -1;
    } else {
      assert p == dir + "/" + name || (dir == "/" && p == dir + name);
      assert p[|dir| + |p| - |dir| - |name| - 1] == '/';
      var i := LastSeparator(p);
      assert i == |p| - |name| - 1 by {
        assert forall j :: |p| - |name| <= j < |p| ==> p[j] == name[j - (|p| - |name|)];
      }
      assert p[..i] == dir || (dir == "/" && i == 0);
    }
  }

  // The `pub mod` block a library target becomes.

  /** `name.replace('-', "_")` */
  function SanitizeName(name: string): (r: string)
    ensures |r| == |name|
    ensures forall i :: 0 <= i < |name| ==> r[i] == (if name[i] == '-' then '_' else name[i])
  {
    if name == [] then []
    else [if name[0] == '-' then '_' else name[0]] + SanitizeName(name[1..])
  }

  lemma SanitizedNameHasNoHyphen(name: string)
    ensures '-' !in SanitizeName(name)
  {
    var r := SanitizeName(name);
    forall i | 0 <= i < |r| ensures r[i] != '-' {
    }
  }

  lemma SanitizeNameIdempotent(name: string)
    ensures SanitizeName(SanitizeName(name)) == SanitizeName(name)
  {
    SanitizedNameHasNoHyphen(name);
    SanitizeKeepsPlainName(SanitizeName(name));
  }

  lemma SanitizeKeepsPlainName(name: string)
    requires '-' !in name
    ensures SanitizeName(name) == name
  {
    var r := SanitizeName(name);
    forall i | 0 <= i < |name| ensures r[i] == name[i] {
      assert name[i] in name;
    }
  }

  const ModHead: string := "pub mod "
  const ModOpen: string := " {\nuse super::*;\n"
  const ModClose: string := "\n}\n"

  /** A library target's processed source `code`, wrapped in a module named
      after the crate so that its items are reachable as `crate_name::item`
      from the rest of the single file. */
  function LibBlock(name: string, code: string): string {
    ModHead + SanitizeName(name) + ModOpen + code + ModClose
  }

  /** The block can be read back: the module name is the sanitised crate name,
      the code sits unchanged between the opening and the closing lines. */
  lemma LibBlockLayout(name: string, code: string)
    ensures var b := LibBlock(name, code);
      var n := |ModHead| + |name|;
      b[..|ModHead|] == ModHead &&
      b[|ModHead|..n] == SanitizeName(name) &&
      b[n..n + |ModOpen|] == ModOpen &&
      b[n + |ModOpen|..n + |ModOpen| + |code|] == code &&
      b[|b| - |ModClose|..] == ModClose
  {
  }

  // process_source

  /** What `process_source(path)` appends: the parsed file has its bodiless
      modules loaded relative to the file's directory, is printed, and has
      its `include_str!` invocations replaced by the included text. */
  function SourceText(src: Sources, path: string): (r: Result<string, BundleError>)
    ensures path !in src.parsed ==> r == Err(Unreadable(path))
    ensures path in src.parsed && Parent(path).None? ==> r == Err(NoParent(path))
  {
    if path !in src.parsed then Err(Unreadable(path))
    else match Parent(path)
      case None => Err(NoParent(path))
      case Some(base) =>
        match ModExpander.ExpandFile(src.parsed, base, src.parsed[path])
        case Err(e) => Err(ModError(e))
        case Ok(f) =>
          match IncludeStr.Expand(src.tokens(f), base, src.texts)
          case Err(e) => Err(IncludeFailed(e))
          case Ok(ts) => Ok(IncludeStr.StreamText(ts))
  }

  /** Each stage's failure surfaces with its own error: a module that cannot
      be expanded as `ModError`, an `include_str!` that cannot be rewritten as
      `IncludeFailed`; success means every stage succeeded. */
  lemma SourceTextStages(src: Sources, path: string)
    requires path in src.parsed && Parent(path).Some?
    ensures var base := Parent(path).value;
      var f := ModExpander.ExpandFile(src.parsed, base, src.parsed[path]);
      var r := SourceText(src, path);
      (f.Err? ==> r == Err(ModError(f.error))) &&
      var e := if f.Ok? then IncludeStr.Expand(src.tokens(f.value), base, src.texts) else Ok([]);
      (f.Ok? && e.Err? ==> r == Err(IncludeFailed(e.error))) &&
      (r.Ok? ==> f.Ok? && e.Ok? && r.value == IncludeStr.StreamText(e.value))
  {
    var f := ModExpander.ExpandFile(src.parsed, Parent(path).value, src.parsed[path]);
    if f.Err? {
      assert SourceText(src, path) == Err(ModError(f.error));
    } else {
      var e := IncludeStr.Expand(src.tokens(f.value), Parent(path).value, src.texts);
      assert SourceText(src, path) == if e.Err? then Err(IncludeFailed(e.error)) else Ok(IncludeStr.StreamText(e.value));
    }
  }

  /** Once its modules are loaded, a file whose printed tokens hold no
      `include_str` is appended as printed. */
  lemma SourceWithoutIncludes(src: Sources, path: string)
    requires path in src.parsed && Parent(path).Some?
    requires ModExpander.ExpandFile(src.parsed, Parent(path).value, src.parsed[path]).Ok?
    requires IncludeStr.NoInvocation(src.tokens(ModExpander.ExpandFile(src.parsed, Parent(path).value, src.parsed[path]).value))
    ensures SourceText(src, path)
         == Ok(IncludeStr.StreamText(src.tokens(ModExpander.ExpandFile(src.parsed, Parent(path).value, src.parsed[path]).value)))
  {
    var base := Parent(path).value;
    var f := ModExpander.ExpandFile(src.parsed, base, src.parsed[path]).value;
    IncludeStr.VerbatimWithoutInvocation(src.tokens(f), base, src.texts);
  }

  /** A file whose printed tokens hold an `include_str!` of a readable file
      is appended with that file's contents as a quoted string literal. */
  lemma IncludedFileInSource(src: Sources, path: string, pre: seq<IncludeStr.Token>, c: char, d: IncludeStr.Delimiter,
                             arg: IncludeStr.Token, args: seq<IncludeStr.Token>, post: seq<IncludeStr.Token>)
    requires path in src.parsed && Parent(path).Some?
    requires ModExpander.ExpandFile(src.parsed, Parent(path).value, src.parsed[path]).Ok?
    requires src.tokens(ModExpander.ExpandFile(src.parsed, Parent(path).value, src.parsed[path]).value)
          == pre + [IncludeStr.Ident(IncludeStr.MacroName), IncludeStr.Punct(c), IncludeStr.Group(d, [arg] + args)] + post
    requires IncludeStr.NoTopMacroIdent(pre)
    requires IncludeStr.Expand(pre, Parent(path).value, src.texts).Ok? && IncludeStr.Expand(post, Parent(path).value, src.texts).Ok?
    requires IncludeStr.IncludePath(Parent(path).value, arg) in src.texts
    ensures SourceText(src, path).Ok?
    ensures IncludeStr.Contains(SourceText(src, path).value,
                                "\"" + IncludeStr.Escape(src.texts[IncludeStr.IncludePath(Parent(path).value, arg)]) + "\"")
  {
    IncludeStr.InvocationPrinted(pre, c, d, arg, args, post, Parent(path).value, src.texts);
  }

  // bundle_package as a function of the state it starts from.

  /** The part of the bundler's state the output depends on. */
  datatype State = State(output: string, bundled: set<PackageId>)

  /** The end state of a call, and the packages whose `bundle_package` call
      returned during it, in the order they returned (the root of the call
      last). */
  datatype Run = Run(state: State, order: seq<PackageId>)

  /** Every package id some edge of the graph points to. */
  function EdgeTargets(m: Metadata): set<PackageId> {
    set n, d | n in m.nodes && d in n.deps :: d.pkg
  }

  /** What a library target contributes: nothing without one, its `pub mod`
      block with one. */
  function LibText(src: Sources, lib: Option<Target>): (r: Result<string, BundleError>)
    ensures lib.None? ==> r == Ok("")
    ensures lib.Some? ==> r.Ok? == SourceText(src, lib.value.srcPath).Ok?
    ensures lib.Some? && r.Err? ==> r.error == SourceText(src, lib.value.srcPath).error
    ensures lib.Some? && r.Ok? ==> r.value == LibBlock(lib.value.name, SourceText(src, lib.value.srcPath).value)
  {
    match lib
    case None => Ok("")
    case Some(t) =>
      match SourceText(src, t.srcPath)
      case Err(e) => Err(e)
      case Ok(code) => Ok(LibBlock(t.name, code))
  }

  /** What `bundle_package` appends after its dependencies: the package's
      library block, then, for the root, its first binary's source. */
  function PackageText(m: Metadata, src: Sources, pkg: PackageId, root: bool): (r: Result<string, BundleError>)
    ensures FindPackage(m.packages, pkg).None? ==> r == Err(NotInPackages(pkg))
  {
    match FindPackage(m.packages, pkg)
    case None => Err(NotInPackages(pkg))
    case Some(p) =>
      match LibText(src, FindTarget(p.targets, "lib"))
      case Err(e) => Err(e)
      case Ok(lib) =>
        if !root then Ok(lib)
        else
          match FindTarget(p.targets, "bin")
          case None => Err(NoBinTarget(pkg))
          case Some(bin) =>
            match SourceText(src, bin.srcPath)
            case Err(e) => Err(e)
            case Ok(code) => Ok(lib + code)
  }

  /** A package other than the root contributes exactly its library text, and
      no binary; the root fails without a binary target. */
  lemma PackageTextParts(m: Metadata, src: Sources, pkg: PackageId, root: bool)
    requires FindPackage(m.packages, pkg).Some?
    ensures var p := FindPackage(m.packages, pkg).value;
      var lib, bin := LibText(src, FindTarget(p.targets, "lib")), FindTarget(p.targets, "bin");
      var r := PackageText(m, src, pkg, root);
      (lib.Err? ==> r == Err(lib.error)) &&
      (lib.Ok? && !root ==> r == lib) &&
      (lib.Ok? && root && bin.None? ==> r == Err(NoBinTarget(pkg))) &&
      (lib.Ok? && root && bin.Some? && SourceText(src, bin.value.srcPath).Err? ==>
         r == Err(SourceText(src, bin.value.srcPath).error)) &&
      (lib.Ok? && root && bin.Some? && SourceText(src, bin.value.srcPath).Ok? ==>
         r == Ok(lib.value + SourceText(src, bin.value.srcPath).value))
  {
  }

  /** The root's text is its library block followed by its binary's source. */
  lemma RootText(m: Metadata, src: Sources, pkg: PackageId)
    requires PackageText(m, src, pkg, true).Ok?
    ensures var p := FindPackage(m.packages, pkg).value;
      FindTarget(p.targets, "bin").Some? && SourceText(src, FindTarget(p.targets, "bin").value.srcPath).Ok? &&
      LibText(src, FindTarget(p.targets, "lib")).Ok? &&
      PackageText(m, src, pkg, true).value
        == LibText(src, FindTarget(p.targets, "lib")).value + SourceText(src, FindTarget(p.targets, "bin").value.srcPath).value
  {
  }

  /** A run preceded by the packages that returned before it. */
  function Then(before: seq<PackageId>, r: Result<Run, BundleError>): (t: Result<Run, BundleError>)
    ensures t.Ok? <==> r.Ok?
  {
    match r
    case Err(e) => Err(e)
    case Ok(run) => Ok(Run(run.state, before + run.order))
  }

  lemma ThenThen(a: seq<PackageId>, b: seq<PackageId>, r: Result<Run, BundleError>)
    ensures Then(a, Then(b, r)) == Then(a + b, r)
  {
    if r.Ok? {
      assert a + (b + r.value.order) == (a + b) + r.value.order;
    }
  }

  lemma ThenNothing(r: Result<Run, BundleError>)
    ensures Then([], r) == r
  {
    if r.Ok? {
      assert [] + r.value.order == r.value.order;
    }
  }

  /** What each package appends after its dependencies, given whether it is
      the root. */
  type TextOf = (PackageId, bool) -> Result<string, BundleError>

  function TextFunction(m: Metadata, src: Sources): TextOf {
    (pkg: PackageId, root: bool) => PackageText(m, src, pkg, root)
  }

  /** `bundle_package(pkg, root)` from state `st`: the package's dependencies
      first, then its own text. The output only grows at its end and the
      bundled set only grows. */
  function Bundle(m: Metadata, text: TextOf, pkg: PackageId, root: bool, st: State): (r: Result<Run, BundleError>)
    ensures r.Ok? ==> st.bundled <= r.value.state.bundled && st.output <= r.value.state.output
    ensures r.Ok? ==> |r.value.order| > 0 && r.value.order[|r.value.order| - 1] == pkg
    decreases EdgeTargets(m) - st.bundled, 1, 0
  {
    match FindNode(m.nodes, pkg)
    case None => Err(NotInResolve(pkg))
    case Some(node) =>
      match BundleDeps(m, text, node, 0, st)
      case Err(e) => Err(e)
      case Ok(deps) =>
        match text(pkg, root)
        case Err(e) => Err(e)
        case Ok(text) => Ok(Run(State(deps.state.output + text, deps.state.bundled), deps.order + [pkg]))
  }

  /** The dependency loop of `bundle_package`, from the edge at index `i` on:
      a builtin edge or an already bundled package is skipped; any other
      package is marked bundled, then bundled itself. */
  function BundleDeps(m: Metadata, text: TextOf, node: Node, i: nat, st: State): (r: Result<Run, BundleError>)
    requires node in m.nodes && i <= |node.deps|
    ensures r.Ok? ==> st.bundled <= r.value.state.bundled && st.output <= r.value.state.output
    decreases EdgeTargets(m) - st.bundled, 0, |node.deps| - i
  {
    if i == |node.deps| then Ok(Run(st, []))
    else
      var dep := node.deps[i];
      if IsBuiltin(dep) || dep.pkg in st.bundled then BundleDeps(m, text, node, i + 1, st)
      else
        assert dep in node.deps;
        match Bundle(m, text, dep.pkg, false, State(st.output, st.bundled + {dep.pkg}))
        case Err(e) => Err(e)
        case Ok(sub) => Then(sub.order, BundleDeps(m, text, node, i + 1, sub.state))
  }

  /** `bundle` once the root package is known: a fresh bundler, with the root
      already marked bundled, bundles the root as the root. Marking the root is
      the correction of a cycle through it (see `RootBundledTwiceOnCycle`). */
  function BundleFromRoot(m: Metadata, src: Sources, root: PackageId): (r: Result<Run, BundleError>)
    ensures r.Ok? ==> |r.value.order| > 0 && r.value.order[|r.value.order| - 1] == root && root in r.value.state.bundled
    ensures r.Ok? ==>
      var before := r.value.order[..|r.value.order| - 1];
      Texts(TextFunction(m, src), before).Ok? && PackageText(m, src, root, true).Ok? &&
      r.value.state.output == Texts(TextFunction(m, src), before).value + PackageText(m, src, root, true).value
  {
    var r := Bundle(m, TextFunction(m, src), root, true, State("", {root}));
    if r.Ok? then
      OutputFollowsOrder(m, TextFunction(m, src), root, true, State("", {root}));
      assert "" + Texts(TextFunction(m, src), r.value.order[..|r.value.order| - 1]).value == Texts(TextFunction(m, src), r.value.order[..|r.value.order| - 1]).value;
      r
    else r
  }

  /** `bundle` as written: the root is not marked bundled. */
  function BundleFromRootAsWritten(m: Metadata, src: Sources, root: PackageId): (r: Result<Run, BundleError>)
    ensures r.Ok? ==> |r.value.order| > 0 && r.value.order[|r.value.order| - 1] == root
  {
    Bundle(m, TextFunction(m, src), root, true, State("", {}))
  }

  // Properties of a run.

  predicate NoDuplicates(s: seq<PackageId>) {
    forall j, k :: 0 <= j < k < |s| ==> s[j] != s[k]
  }

  function Elems(s: seq<PackageId>): set<PackageId> {
    set x | x in s
  }

  lemma ConcatDistinct(a: seq<PackageId>, b: seq<PackageId>)
    requires NoDuplicates(a) && NoDuplicates(b) && Elems(a) !! Elems(b)
    ensures NoDuplicates(a + b) && Elems(a + b) == Elems(a) + Elems(b)
  {
    var c := a + b;
    forall j, k | 0 <= j < k < |c| ensures c[j] != c[k] {
      if k >= |a| && j < |a| {
        assert c[j] in Elems(a) && c[k] == b[k - |a|] && c[k] in Elems(b);
      }
    }
  }

  /** Every package is bundled by at most one call: the packages returning
      before the root of a call are exactly the ones the call adds to the
      bundled set, each once. */
  lemma {:induction false} BundleOrder(m: Metadata, text: TextOf, pkg: PackageId, root: bool, st: State)
    requires Bundle(m, text, pkg, root, st).Ok?
    ensures var run := Bundle(m, text, pkg, root, st).value;
      var before := run.order[..|run.order| - 1];
      NoDuplicates(before) && Elems(before) == run.state.bundled - st.bundled
    decreases EdgeTargets(m) - st.bundled, 1, 0
  {
    var node := FindNode(m.nodes, pkg).value;
    BundleDepsOrder(m, text, node, 0, st);
    var run := Bundle(m, text, pkg, root, st).value;
    var deps := BundleDeps(m, text, node, 0, st).value;
    assert run.order[..|run.order| - 1] == deps.order;
  }

  lemma {:induction false} BundleDepsOrder(m: Metadata, text: TextOf, node: Node, i: nat, st: State)
    requires node in m.nodes && i <= |node.deps|
    requires BundleDeps(m, text, node, i, st).Ok?
    ensures var run := BundleDeps(m, text, node, i, st).value;
      NoDuplicates(run.order) && Elems(run.order) == run.state.bundled - st.bundled
    decreases EdgeTargets(m) - st.bundled, 0, |node.deps| - i
  {
    if i < |node.deps| {
      var dep := node.deps[i];
      if IsBuiltin(dep) || dep.pkg in st.bundled {
        BundleDepsOrder(m, text, node, i + 1, st);
      } else {
        assert dep in node.deps;
        var st1 := State(st.output, st.bundled + {dep.pkg});
        var sub := Bundle(m, text, dep.pkg, false, st1).value;
        BundleOrder(m, text, dep.pkg, false, st1);
        var rest := BundleDeps(m, text, node, i + 1, sub.state).value;
        BundleDepsOrder(m, text, node, i + 1, sub.state);
        var before := sub.order[..|sub.order| - 1];
        assert sub.order == before + [dep.pkg];
        ConcatDistinct(before, [dep.pkg]);
        ConcatDistinct(sub.order, rest.order);
      }
    }
  }

  /** Bundling only ever follows non-builtin edges: every package a call
      bundles, itself included, is reached from the package it starts from
      over edges not named `rand`, `log` or `env_logger`. */
  lemma {:induction false} BuiltinEdgesNotFollowed(m: Metadata, text: TextOf, pkg: PackageId, root: bool, st: State)
    requires Bundle(m, text, pkg, root, st).Ok?
    ensures forall p :: p in Bundle(m, text, pkg, root, st).value.order ==> Reaches(m, pkg, p)
    decreases EdgeTargets(m) - st.bundled, 1, 0
  {
    var node := FindNode(m.nodes, pkg).value;
    BuiltinEdgesNotFollowedInDeps(m, text, node, 0, st);
    var deps := BundleDeps(m, text, node, 0, st).value;
    assert Bundle(m, text, pkg, root, st).value.order == deps.order + [pkg];
    assert ReachableIn(m, pkg, pkg, 0);
    forall p | p in deps.order
      ensures Reaches(m, pkg, p)
    {
      var j :| 0 <= j < |node.deps| && !IsBuiltin(node.deps[j]) && Reaches(m, node.deps[j].pkg, p);
      ReachesStep(m, pkg, node.deps[j], p);
    }
  }

  /** The same for the loop: each package it bundles is reached over
      non-builtin edges from one of the non-builtin edges at or after `i`. */
  lemma {:induction false} BuiltinEdgesNotFollowedInDeps(m: Metadata, text: TextOf, node: Node, i: nat, st: State)
    requires node in m.nodes && i <= |node.deps|
    requires BundleDeps(m, text, node, i, st).Ok?
    ensures forall p :: p in BundleDeps(m, text, node, i, st).value.order ==>
      exists j :: i <= j < |node.deps| && !IsBuiltin(node.deps[j]) && Reaches(m, node.deps[j].pkg, p)
    decreases EdgeTargets(m) - st.bundled, 0, |node.deps| - i
  {
    if i < |node.deps| {
      var dep := node.deps[i];
      if IsBuiltin(dep) || dep.pkg in st.bundled {
        BuiltinEdgesNotFollowedInDeps(m, text, node, i + 1, st);
      } else {
        assert dep in node.deps;
        var st1 := State(st.output, st.bundled + {dep.pkg});
        var sub := Bundle(m, text, dep.pkg, false, st1).value;
        BuiltinEdgesNotFollowed(m, text, dep.pkg, false, st1);
        var rest := BundleDeps(m, text, node, i + 1, sub.state).value;
        BuiltinEdgesNotFollowedInDeps(m, text, node, i + 1, sub.state);
        assert BundleDeps(m, text, node, i, st).value.order == sub.order + rest.order;
        forall p | p in sub.order + rest.order
          ensures exists j :: i <= j < |node.deps| && !IsBuiltin(node.deps[j]) && Reaches(m, node.deps[j].pkg, p)
        {
          if p in sub.order {
            assert !IsBuiltin(node.deps[i]) && Reaches(m, node.deps[i].pkg, p);
          } else {
            assert p in rest.order;
          }
        }
      }
    }
  }

  /** A set of packages closed under the non-builtin edges of the packages in
      `ps`: each of them is in the graph and the targets of its non-builtin
      edges are in `to`. */
  predicate EdgesInto(m: Metadata, ps: set<PackageId>, to: set<PackageId>) {
    forall p :: p in ps ==>
      FindNode(m.nodes, p).Some? &&
      forall d :: d in FindNode(m.nodes, p).value.deps && !IsBuiltin(d) ==> d.pkg in to
  }

  lemma EdgesIntoGrow(m: Metadata, ps: set<PackageId>, to: set<PackageId>, to': set<PackageId>)
    requires EdgesInto(m, ps, to) && to <= to'
    ensures EdgesInto(m, ps, to')
  {
  }

  /** After a call, every package that returned during it has all its
      non-builtin dependencies bundled. */
  lemma {:induction false} BundleClosed(m: Metadata, text: TextOf, pkg: PackageId, root: bool, st: State)
    requires Bundle(m, text, pkg, root, st).Ok?
    ensures var run := Bundle(m, text, pkg, root, st).value;
      EdgesInto(m, Elems(run.order), run.state.bundled)
    decreases EdgeTargets(m) - st.bundled, 1, 0
  {
    var node := FindNode(m.nodes, pkg).value;
    BundleDepsClosed(m, text, node, 0, st);
    var run := Bundle(m, text, pkg, root, st).value;
    var deps := BundleDeps(m, text, node, 0, st).value;
    assert run.order == deps.order + [pkg];
    assert Elems(run.order) == Elems(deps.order) + {pkg};
  }

  lemma {:induction false} BundleDepsClosed(m: Metadata, text: TextOf, node: Node, i: nat, st: State)
    requires node in m.nodes && i <= |node.deps|
    requires BundleDeps(m, text, node, i, st).Ok?
    ensures var run := BundleDeps(m, text, node, i, st).value;
      EdgesInto(m, Elems(run.order), run.state.bundled) &&
      forall j :: i <= j < |node.deps| && !IsBuiltin(node.deps[j]) ==> node.deps[j].pkg in run.state.bundled
    decreases EdgeTargets(m) - st.bundled, 0, |node.deps| - i
  {
    if i < |node.deps| {
      var dep := node.deps[i];
      if IsBuiltin(dep) || dep.pkg in st.bundled {
        BundleDepsClosed(m, text, node, i + 1, st);
      } else {
        assert dep in node.deps;
        var st1 := State(st.output, st.bundled + {dep.pkg});
        var sub := Bundle(m, text, dep.pkg, false, st1).value;
        BundleClosed(m, text, dep.pkg, false, st1);
        var rest := BundleDeps(m, text, node, i + 1, sub.state).value;
        BundleDepsClosed(m, text, node, i + 1, sub.state);
        EdgesIntoGrow(m, Elems(sub.order), sub.state.bundled, rest.state.bundled);
        assert Elems(sub.order + rest.order) == Elems(sub.order) + Elems(rest.order);
      }
    }
  }

  /** `b` is reached from `a` over `k` non-builtin edges of the graph. */
  predicate ReachableIn(m: Metadata, a: PackageId, b: PackageId, k: nat)
    decreases k
  {
    if k == 0 then a == b
    else
      FindNode(m.nodes, a).Some? &&
      exists d :: d in FindNode(m.nodes, a).value.deps && !IsBuiltin(d) && ReachableIn(m, d.pkg, b, k - 1)
  }

  /** `b` is reached from `a` over non-builtin edges. */
  ghost predicate Reaches(m: Metadata, a: PackageId, b: PackageId) {
    exists k: nat :: ReachableIn(m, a, b, k)
  }

  lemma ReachesStep(m: Metadata, a: PackageId, d: NodeDep, b: PackageId)
    requires FindNode(m.nodes, a).Some? && d in FindNode(m.nodes, a).value.deps && !IsBuiltin(d)
    requires Reaches(m, d.pkg, b)
    ensures Reaches(m, a, b)
  {
    var k: nat :| ReachableIn(m, d.pkg, b, k);
    assert ReachableIn(m, a, b, k + 1);
  }

  lemma {:induction false} ClosedContainsReachable(m: Metadata, s: set<PackageId>, a: PackageId, b: PackageId, k: nat)
    requires EdgesInto(m, s, s) && a in s && ReachableIn(m, a, b, k)
    ensures b in s
    decreases k
  {
    if k > 0 {
      var d :| d in FindNode(m.nodes, a).value.deps && !IsBuiltin(d) && ReachableIn(m, d.pkg, b, k - 1);
      ClosedContainsReachable(m, s, d.pkg, b, k - 1);
    }
  }

  /** A run that succeeds bundles every package the root reaches over
      non-builtin edges, the root itself last. */
  lemma EveryReachablePackageBundled(m: Metadata, src: Sources, root: PackageId, b: PackageId, k: nat)
    requires BundleFromRoot(m, src, root).Ok? && ReachableIn(m, root, b, k)
    ensures var order := BundleFromRoot(m, src, root).value.order;
      b in order && order[|order| - 1] == root
  {
    ReachableBundled(m, TextFunction(m, src), root, b, k);
  }

  /** A successful run from the root bundles exactly the packages the root
      reaches over non-builtin edges. */
  lemma BundledIffReachable(m: Metadata, src: Sources, root: PackageId, p: PackageId)
    requires BundleFromRoot(m, src, root).Ok?
    ensures p in BundleFromRoot(m, src, root).value.order <==> Reaches(m, root, p)
  {
    if Reaches(m, root, p) {
      var k: nat :| ReachableIn(m, root, p, k);
      EveryReachablePackageBundled(m, src, root, p, k);
    }
    BuiltinEdgesNotFollowed(m, TextFunction(m, src), root, true, State("", {root}));
  }

  /** The same, for any way of producing each package's text. */
  lemma ReachableBundled(m: Metadata, text: TextOf, root: PackageId, b: PackageId, k: nat)
    requires Bundle(m, text, root, true, State("", {root})).Ok? && ReachableIn(m, root, b, k)
    ensures var order := Bundle(m, text, root, true, State("", {root})).value.order;
      b in order && order[|order| - 1] == root
  {
    var st := State("", {root});
    var run := Bundle(m, text, root, true, st).value;
    BundleOrder(m, text, root, true, st);
    BundleClosed(m, text, root, true, st);
    var before := run.order[..|run.order| - 1];
    assert run.order == before + [root];
    assert Elems(run.order) == Elems(before) + {root};
    EdgesIntoGrow(m, Elems(run.order), run.state.bundled, Elems(run.order));
    ClosedContainsReachable(m, Elems(run.order), root, b, k);
  }

  // The output, package by package.

  predicate EndsWith(s: string, t: string) {
    |t| <= |s| && s[|s| - |t|..] == t
  }

  /** The texts of the packages `ps`, each bundled as a dependency, one after
      the other. */
  function Texts(text: TextOf, ps: seq<PackageId>): (r: Result<string, BundleError>)
    ensures ps == [] ==> r == Ok("")
  {
    if ps == [] then Ok("")
    else
      match Texts(text, ps[..|ps| - 1])
      case Err(e) => Err(e)
      case Ok(t) =>
        match text(ps[|ps| - 1], false)
        case Err(e) => Err(e)
        case Ok(u) => Ok(t + u)
  }

  lemma AppendAssociative(a: string, b: string, c: string)
    ensures (a + b) + c == a + (b + c)
  {
  }

  lemma TextsAppend(text: TextOf, a: seq<PackageId>, p: PackageId)
    requires Texts(text, a).Ok? && text(p, false).Ok?
    ensures Texts(text, a + [p]) == Ok(Texts(text, a).value + text(p, false).value)
  {
    assert (a + [p])[..|a|] == a;
  }

  lemma {:induction false} TextsConcat(text: TextOf, a: seq<PackageId>, b: seq<PackageId>)
    requires Texts(text, a).Ok? && Texts(text, b).Ok?
    ensures Texts(text, a + b) == Ok(Texts(text, a).value + Texts(text, b).value)
    decreases |b|
  {
    if b == [] {
      assert a + b == a;
      assert Texts(text, a).value + "" == Texts(text, a).value;
    } else {
      var b', last := b[..|b| - 1], b[|b| - 1];
      var ta, tb', u := Texts(text, a).value, Texts(text, b').value, text(last, false).value;
      assert Texts(text, b) == Ok(tb' + u);
      TextsConcat(text, a, b');
      assert (a + b)[..|a + b| - 1] == a + b';
      assert (a + b)[|a + b| - 1] == last;
      assert Texts(text, a + b) == Ok((ta + tb') + u);
      AppendAssociative(ta, tb', u);
    }
  }

  /** The output of a call is what it started with, followed by the texts of
      the packages in the order their calls returned: every dependency's
      library block comes before the block of the package that pulled it
      in, and the root of the call comes last. */
  lemma {:induction false} OutputFollowsOrder(m: Metadata, text: TextOf, pkg: PackageId, root: bool, st: State)
    requires Bundle(m, text, pkg, root, st).Ok?
    ensures var run := Bundle(m, text, pkg, root, st).value;
      var before := run.order[..|run.order| - 1];
      Texts(text, before).Ok? && text(pkg, root).Ok? &&
      run.state.output == st.output + Texts(text, before).value + text(pkg, root).value
    decreases EdgeTargets(m) - st.bundled, 1, 0, 0
  {
    var node := FindNode(m.nodes, pkg).value;
    DepsOutputFollowsOrder(m, text, node, 0, st);
    var run := Bundle(m, text, pkg, root, st).value;
    assert run.order[..|run.order| - 1] == BundleDeps(m, text, node, 0, st).value.order;
  }

  lemma {:induction false} DepsOutputFollowsOrder(m: Metadata, text: TextOf, node: Node, i: nat, st: State)
    requires node in m.nodes && i <= |node.deps|
    requires BundleDeps(m, text, node, i, st).Ok?
    ensures var run := BundleDeps(m, text, node, i, st).value;
      Texts(text, run.order).Ok? && run.state.output == st.output + Texts(text, run.order).value
    decreases EdgeTargets(m) - st.bundled, 0, |node.deps| - i, 1
  {
    if i < |node.deps| {
      var dep := node.deps[i];
      if IsBuiltin(dep) || dep.pkg in st.bundled {
        DepsOutputFollowsOrder(m, text, node, i + 1, st);
      } else {
        FollowedEdgeOutput(m, text, node, i, st);
      }
    }
  }

  /** The step of the above for an edge that is followed. */
  lemma {:induction false} FollowedEdgeOutput(m: Metadata, text: TextOf, node: Node, i: nat, st: State)
    requires node in m.nodes && i < |node.deps|
    requires !IsBuiltin(node.deps[i]) && node.deps[i].pkg !in st.bundled
    requires BundleDeps(m, text, node, i, st).Ok?
    ensures var run := BundleDeps(m, text, node, i, st).value;
      Texts(text, run.order).Ok? && run.state.output == st.output + Texts(text, run.order).value
    decreases EdgeTargets(m) - st.bundled, 0, |node.deps| - i, 0
  {
    var dep := node.deps[i];
    assert dep in node.deps;
    var st1 := State(st.output, st.bundled + {dep.pkg});
    var sub := Bundle(m, text, dep.pkg, false, st1).value;
    OutputFollowsOrder(m, text, dep.pkg, false, st1);
    var rest := BundleDeps(m, text, node, i + 1, sub.state).value;
    DepsOutputFollowsOrder(m, text, node, i + 1, sub.state);
    assert BundleDeps(m, text, node, i, st) == Ok(Run(rest.state, sub.order + rest.order));
    var before := sub.order[..|sub.order| - 1];
    assert sub.order == before + [dep.pkg];
    TextsAppend(text, before, dep.pkg);
    var ts, tr := Texts(text, sub.order).value, Texts(text, rest.order).value;
    assert sub.state.output == st.output + ts;
    TextsConcat(text, sub.order, rest.order);
    assert rest.state.output == (st.output + ts) + tr;
    AppendAssociative(st.output, ts, tr);
  }

  /** A successful run ends with the root's own text. */
  lemma RootTextLast(m: Metadata, src: Sources, root: PackageId)
    requires BundleFromRoot(m, src, root).Ok?
    ensures PackageText(m, src, root, true).Ok?
    ensures EndsWith(BundleFromRoot(m, src, root).value.state.output, PackageText(m, src, root, true).value)
  {
    var text, st := TextFunction(m, src), State("", {root});
    OutputFollowsOrder(m, text, root, true, st);
    assert text(root, true) == PackageText(m, src, root, true);
  }

  /** A successful run ends with the root's binary source, right after the
      root's library block when it has one. */
  lemma RootBinaryLast(m: Metadata, src: Sources, root: PackageId)
    requires BundleFromRoot(m, src, root).Ok?
    ensures var p := FindPackage(m.packages, root);
      p.Some? && FindTarget(p.value.targets, "bin").Some? &&
      var lib := LibText(src, FindTarget(p.value.targets, "lib"));
      var bin := SourceText(src, FindTarget(p.value.targets, "bin").value.srcPath);
      lib.Ok? && bin.Ok? &&
      EndsWith(BundleFromRoot(m, src, root).value.state.output, lib.value + bin.value)
  {
    RootTextLast(m, src, root);
    RootText(m, src, root);
  }

  // A cycle through the root.

  /** A root `a` with a library, and a package `b` that `a` depends on and
      that depends on `a` back (cargo allows this through a
      dev-dependency). */
  function CycleMetadata(): Metadata {
    Metadata(
      [Node("a", [NodeDep("b", "b")]), Node("b", [NodeDep("a", "a")])],
      [Package("a", [Target("a", ["lib"], "/a/lib.rs"), Target("a", ["bin"], "/a/main.rs")]),
       Package("b", [])])
  }

  function CycleSources(): Sources {
    Sources(map["/a/lib.rs" := File([], []), "/a/main.rs" := File([], [])], map[], (f: File) => [])
  }

  /** An empty source file `name` in the directory `dir` reads as the empty
      text. */
  lemma EmptySourceText(src: Sources, dir: string, name: string)
    requires Paths.Join(dir, name) in src.parsed && src.parsed[Paths.Join(dir, name)] == File([], [])
    requires src.tokens(File([], [])) == []
    requires name != "" && Paths.Separator !in name
    requires dir == "/" || dir == "" || dir[|dir| - 1] != Paths.Separator
    ensures SourceText(src, Paths.Join(dir, name)) == Ok("")
  {
    ParentOfJoin(dir, name);
    assert ModExpander.ExpandFile(src.parsed, dir, File([], [])) == Ok(File([], []));
    assert IncludeStr.Expand([], dir, src.texts) == Ok([]);
  }

  lemma CycleSourceTexts()
    ensures SourceText(CycleSources(), "/a/lib.rs") == Ok("")
    ensures SourceText(CycleSources(), "/a/main.rs") == Ok("")
  {
    CyclePaths();
    EmptySourceText(CycleSources(), "/a", "lib.rs");
    EmptySourceText(CycleSources(), "/a", "main.rs");
  }

  lemma CyclePaths()
    ensures Paths.Join("/a", "lib.rs") == "/a/lib.rs"
    ensures Paths.Join("/a", "main.rs") == "/a/main.rs"
  {
    assert Paths.Join("/a", "lib.rs") == "/a" + "/" + "lib.rs";
    assert Paths.Join("/a", "main.rs") == "/a" + "/" + "main.rs";
  }

  lemma CyclePackageTexts()
    ensures PackageText(CycleMetadata(), CycleSources(), "a", false) == Ok(LibBlock("a", ""))
    ensures PackageText(CycleMetadata(), CycleSources(), "a", true) == Ok(LibBlock("a", ""))
    ensures PackageText(CycleMetadata(), CycleSources(), "b", false) == Ok("")
  {
    var m := CycleMetadata();
    CycleSourceTexts();
    assert FindPackage(m.packages, "a") == Some(m.packages[0]);
    assert FindPackage(m.packages, "b") == Some(m.packages[1]);
    assert FindTarget(m.packages[0].targets, "lib") == Some(m.packages[0].targets[0]);
    assert FindTarget(m.packages[0].targets, "bin") == Some(m.packages[0].targets[1]);
    assert LibBlock("a", "") + "" == LibBlock("a", "");
  }

  /** The run on the cycle for any texts of `a` and `b`. */
  lemma CycleRun(text: TextOf, a: string, b: string, r: string)
    requires text("a", false) == Ok(a) && text("b", false) == Ok(b) && text("a", true) == Ok(r)
    ensures Bundle(CycleMetadata(), text, "a", true, State("", {})) == Ok(Run(State(a + b + r, {"a", "b"}), ["a", "b", "a"]))
  {
    var m := CycleMetadata();
    var na, nb := m.nodes[0], m.nodes[1];
    assert FindNode(m.nodes, "a") == Some(na);
    assert FindNode(m.nodes, "b") == Some(nb);
    var full: set<PackageId> := {"a", "b"};
    assert {"b"} + {"a"} == full && {} + {"b"} == {"b"};
    assert "" + a == a && [] + ["a"] == ["a"] && ["a"] + [] == ["a"] && ["a"] + ["b"] == ["a", "b"];
    assert ["a", "b"] + [] == ["a", "b"] && ["a", "b"] + ["a"] == ["a", "b", "a"];
    // the second call on `a` finds `b` bundled
    assert BundleDeps(m, text, na, 0, State("", full)) == Ok(Run(State("", full), []));
    assert Bundle(m, text, "a", false, State("", full)) == Ok(Run(State(a, full), ["a"]));
    assert BundleDeps(m, text, nb, 1, State(a, full)) == Ok(Run(State(a, full), []));
    assert BundleDeps(m, text, nb, 0, State("", {"b"})) == Ok(Run(State(a, full), ["a"]));
    assert Bundle(m, text, "b", false, State("", {"b"})) == Ok(Run(State(a + b, full), ["a", "b"]));
    assert BundleDeps(m, text, na, 1, State(a + b, full)) == Ok(Run(State(a + b, full), []));
    assert BundleDeps(m, text, na, 0, State("", {})) == Ok(Run(State(a + b, full), ["a", "b"]));
  }

  /** As written, the root is never marked bundled, so the cycle leads back
      into it: its `bundle_package` runs twice and its library block is
      emitted twice, which declares the module `a` twice. */
  lemma RootBundledTwiceOnCycle()
    ensures BundleFromRootAsWritten(CycleMetadata(), CycleSources(), "a").Ok?
    ensures BundleFromRootAsWritten(CycleMetadata(), CycleSources(), "a").value.order == ["a", "b", "a"]
    ensures BundleFromRootAsWritten(CycleMetadata(), CycleSources(), "a").value.state.output == LibBlock("a", "") + LibBlock("a", "")
  {
    var text := TextFunction(CycleMetadata(), CycleSources());
    CyclePackageTexts();
    CycleRun(text, LibBlock("a", ""), "", LibBlock("a", ""));
    assert LibBlock("a", "") + "" == LibBlock("a", "");
  }

  /** The run on the cycle, with the root marked bundled first, for any texts
      of `a` and `b`. */
  lemma CycleRunOnce(text: TextOf, a: string, b: string, r: string)
    requires text("b", false) == Ok(b) && text("a", true) == Ok(r)
    ensures Bundle(CycleMetadata(), text, "a", true, State("", {"a"})) == Ok(Run(State(b + r, {"a", "b"}), ["b", "a"]))
  {
    var m := CycleMetadata();
    var na, nb := m.nodes[0], m.nodes[1];
    assert FindNode(m.nodes, "a") == Some(na);
    assert FindNode(m.nodes, "b") == Some(nb);
    var full: set<PackageId> := {"a", "b"};
    assert {"a"} + {"b"} == full;
    assert "" + b == b && [] + ["b"] == ["b"] && ["b"] + [] == ["b"] && ["b"] + ["a"] == ["b", "a"];
    assert BundleDeps(m, text, nb, 1, State("", full)) == Ok(Run(State("", full), []));
    assert BundleDeps(m, text, nb, 0, State("", full)) == Ok(Run(State("", full), []));
    assert Bundle(m, text, "b", false, State("", full)) == Ok(Run(State(b, full), ["b"]));
    assert BundleDeps(m, text, na, 1, State(b, full)) == Ok(Run(State(b, full), []));
    assert BundleDeps(m, text, na, 0, State("", {"a"})) == Ok(Run(State(b, full), ["b"]));
  }

  /** With the root marked bundled, the cycle ends at the root: `b` is
      bundled once, then the root, and the module `a` is declared once. */
  lemma RootBundledOnceOnCycle()
    ensures BundleFromRoot(CycleMetadata(), CycleSources(), "a").Ok?
    ensures BundleFromRoot(CycleMetadata(), CycleSources(), "a").value.order == ["b", "a"]
    ensures BundleFromRoot(CycleMetadata(), CycleSources(), "a").value.state.output == LibBlock("a", "")
  {
    var text := TextFunction(CycleMetadata(), CycleSources());
    CyclePackageTexts();
    CycleRunOnce(text, LibBlock("a", ""), "", LibBlock("a", ""));
    assert "" + LibBlock("a", "") == LibBlock("a", "");
  }

  /** Every package of a successful run is bundled exactly once, the root
      included. */
  lemma EachPackageBundledOnce(m: Metadata, src: Sources, root: PackageId)
    requires BundleFromRoot(m, src, root).Ok?
    ensures NoDuplicates(BundleFromRoot(m, src, root).value.order)
  {
    var text, st := TextFunction(m, src), State("", {root});
    var run := Bundle(m, text, root, true, st).value;
    BundleOrder(m, text, root, true, st);
    var before := run.order[..|run.order| - 1];
    assert run.order == before + [root];
    ConcatDistinct(before, [root]);
  }

  // The bundler itself.

  class Bundler {
    var output: string
    var bundled: set<PackageId>

    function Current(): State
      reads this
    {
      State(output, bundled)
    }

    constructor ()
      ensures output == "" && bundled == {}
    {
      output := "";
      bundled := {};
    }

    /** `process_source`: appends the processed text of one source file. */
    method ProcessSource(src: Sources, path: string) returns (err: Option<BundleError>)
      modifies this
      ensures bundled == old(bundled)
      ensures err.None? <==> SourceText(src, path).Ok?
      ensures err.Some? ==> err.value == SourceText(src, path).error
      ensures err.None? ==> output == old(output) + SourceText(src, path).value
    {
      if path !in src.parsed {
        return Some(Unreadable(path));
      }
      var parent := Parent(path);
      if parent.None? {
        return Some(NoParent(path));
      }
      var base := parent.value;
      var file := ModExpander.ExpandFile(src.parsed, base, src.parsed[path]);
      if file.Err? {
        return Some(ModError(file.error));
      }
      var tokens := IncludeStr.ProcessIncludeStr(src.tokens(file.value), base, src.texts);
      if tokens.Err? {
        return Some(IncludeFailed(tokens.error));
      }
      output := output + IncludeStr.StreamText(tokens.value);
      return None;
    }

    /** `bundle_package` */
    method BundlePackage(m: Metadata, src: Sources, pkg: PackageId, root: bool) returns (err: Option<BundleError>)
      modifies this
      ensures var r := Bundle(m, TextFunction(m, src), pkg, root, old(Current()));
        (err.None? <==> r.Ok?) && (err.Some? ==> err.value == r.error) && (r.Ok? ==> Current() == r.value.state)
      decreases EdgeTargets(m) - bundled, 1
    {
      var found := FindNode(m.nodes, pkg);
      if found.None? {
        return Some(NotInResolve(pkg));
      }
      var node := found.value;
      ghost var st0 := Current();
      ghost var order: seq<PackageId> := [];
      ThenNothing(BundleDeps(m, TextFunction(m, src), node, 0, st0));
      for i := 0 to |node.deps|
        invariant BundleDeps(m, TextFunction(m, src), node, 0, st0) == Then(order, BundleDeps(m, TextFunction(m, src), node, i, Current()))
        invariant st0.bundled <= bundled
      {
        var dep := node.deps[i];
        if IsBuiltin(dep) || dep.pkg in bundled {
          continue;
        }
        bundled := bundled + {dep.pkg};
        assert dep in node.deps;
        ghost var sub := Bundle(m, TextFunction(m, src), dep.pkg, false, Current());
        err := BundlePackage(m, src, dep.pkg, false);
        if err.Some? {
          return;
        }
        ThenThen(order, sub.value.order, BundleDeps(m, TextFunction(m, src), node, i + 1, Current()));
        order := order + sub.value.order;
      }
      err := EmitPackage(m, src, pkg, root);
    }

    /** The library block of `bundle_package`: the module header, the
        processed library source, the closing brace. */
    method EmitLib(src: Sources, lib: Option<Target>) returns (err: Option<BundleError>)
      modifies this
      ensures bundled == old(bundled)
      ensures err.None? <==> LibText(src, lib).Ok?
      ensures err.Some? ==> err.value == LibText(src, lib).error
      ensures err.None? ==> output == old(output) + LibText(src, lib).value
    {
      if lib.None? {
        return None;
      }
      var start, header := output, ModHead + SanitizeName(lib.value.name) + ModOpen;
      output := output + header;
      err := ProcessSource(src, lib.value.srcPath);
      if err.Some? {
        return;
      }
      output := output + ModClose;
      assert output == start + (header + SourceText(src, lib.value.srcPath).value + ModClose);
    }

    /** The end of `bundle_package`: the package's library block, then, for
        the root, its first binary's source. */
    method EmitPackage(m: Metadata, src: Sources, pkg: PackageId, root: bool) returns (err: Option<BundleError>)
      modifies this
      ensures bundled == old(bundled)
      ensures err.None? <==> PackageText(m, src, pkg, root).Ok?
      ensures err.Some? ==> err.value == PackageText(m, src, pkg, root).error
      ensures err.None? ==> output == old(output) + PackageText(m, src, pkg, root).value
    {
      var p := FindPackage(m.packages, pkg);
      if p.None? {
        return Some(NotInPackages(pkg));
      }
      PackageTextParts(m, src, pkg, root);
      err := EmitLib(src, FindTarget(p.value.targets, "lib"));
      if err.Some? || !root {
        return;
      }
      var bin := FindTarget(p.value.targets, "bin");
      if bin.None? {
        return Some(NoBinTarget(pkg));
      }
      err := ProcessSource(src, bin.value.srcPath);
    }
  }

  /** `bundle`, from the point where the root package is known, with the
      root marked bundled before it is bundled. */
  method BundleCrate(m: Metadata, src: Sources, root: PackageId) returns (r: Result<string, BundleError>)
    ensures r.Ok? <==> BundleFromRoot(m, src, root).Ok?
    ensures r.Ok? ==> r.value == BundleFromRoot(m, src, root).value.state.output
    ensures r.Err? ==> r.error == BundleFromRoot(m, src, root).error
  {
    var bundler := new Bundler();
    bundler.bundled := {root};
    var err := bundler.BundlePackage(m, src, root, true);
    if err.Some? {
      return Err(err.value);
    }
    return Ok(bundler.output);
  }
}

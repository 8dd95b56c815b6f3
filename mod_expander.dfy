/** Module expansion (`Expander` in src/lib.rs): every `mod name;` declaration
    reached by the syntax-tree traversal gets the items of `<base>/name.rs`,
    themselves expanded first; an inline `mod tests { ... }` is emptied.

    Reading and parsing a file is replaced by a map from path to parsed file; a
    path missing from it is a file that could not be read or parsed. The
    expander never changes its base directory, so the same declaration met
    again while its own file is being expanded would recurse forever: the model
    reports that as `RecursiveMod`, using the set of files being expanded. */
module ModExpander {
  import opened Results
  import opened Paths
  import opened Syntax

  datatype ExpandError = ModNotFound(path: string) | RecursiveMod(path: string)

  type Files = map<string, File>

  const TestsMod: string := "tests"

  /** The one file a body-less `mod name;` is read from. */
  function ModPath(base: string, name: string): string {
    Join(base, name + ".rs")
  }

  // Every module reached by the traversal has an inline body.

  predicate LoadedItem(it: Item) {
    match it
    case Mod(_, _, _, content) => content.Inline? && LoadedItems(content.items)
    case Fn(_, _, _, b) => LoadedBlock(b)
    case Verbatim(_, _) => true
  }

  predicate LoadedItems(its: seq<Item>) {
    forall i :: 0 <= i < |its| ==> LoadedItem(its[i])
  }

  predicate LoadedBlock(b: Block) {
    LoadedStmts(b.stmts)
  }

  predicate LoadedStmt(s: Stmt) {
    match s
    case Local(_, init) => init.Some? ==> LoadedExpr(init.value)
    case ItemStmt(it) => LoadedItem(it)
    case ExprStmt(e) => LoadedExpr(e)
    case SemiStmt(e) => LoadedExpr(e)
  }

  predicate LoadedStmts(ss: seq<Stmt>) {
    forall i :: 0 <= i < |ss| ==> LoadedStmt(ss[i])
  }

  predicate LoadedExpr(e: Expr) {
    match e
    case Index(a, i) => LoadedExpr(a) && LoadedExpr(i)
    case MethodCall(r, _, args) => LoadedExpr(r) && LoadedExprs(args)
    case Unary(_, x) => LoadedExpr(x)
    case Unsafe(b) => LoadedBlock(b)
    case BlockExpr(b) => LoadedBlock(b)
    case Assign(l, r) => LoadedExpr(l) && LoadedExpr(r)
    case AssignOp(l, _, r) => LoadedExpr(l) && LoadedExpr(r)
    case Macro(_, _) => true
    case Other(_, cs) => LoadedExprs(cs)
  }

  predicate LoadedExprs(es: seq<Expr>) {
    forall i :: 0 <= i < |es| ==> LoadedExpr(es[i])
  }

  /** Same kind of item, same attributes, visibility and name. */
  predicate SameHeader(it: Item, r: Item) {
    r.attrs == it.attrs &&
    (it.Mod? ==> r.Mod? && r.vis == it.vis && r.ident == it.ident) &&
    (it.Fn? ==> r.Fn? && r.vis == it.vis && r.ident == it.ident) &&
    (it.Verbatim? ==> r == it)
  }

  // The traversal. Sequences are visited front to back, so the first failure
  // in source order is the one reported.

  function ExpandItems(fs: Files, base: string, loading: set<string>, its: seq<Item>): (r: Result<seq<Item>, ExpandError>)
    decreases fs.Keys - loading, ItemsSize(its), 3
    ensures r.Ok? ==> |r.value| == |its| && LoadedItems(r.value)
    ensures r.Ok? ==> forall i :: 0 <= i < |its| ==> SameHeader(its[i], r.value[i])
  {
    if its == [] then Ok([])
    else
      match ExpandItems(fs, base, loading, its[..|its| - 1])
      case Err(e) => Err(e)
      case Ok(init) =>
        match ExpandItem(fs, base, loading, its[|its| - 1])
        case Err(e) => Err(e)
        case Ok(last) => Ok(init + [last])
  }

  /** `visit_item_mut`: modules go to `VisitItemMod`, functions have their
      bodies visited, other items are left alone. */
  function ExpandItem(fs: Files, base: string, loading: set<string>, it: Item): (r: Result<Item, ExpandError>)
    decreases fs.Keys - loading, ItemSize(it), 2
    ensures r.Ok? ==> SameHeader(it, r.value) && LoadedItem(r.value)
  {
    match it
    case Mod(_, _, _, _) => VisitItemMod(fs, base, loading, it)
    case Fn(attrs, vis, ident, block) =>
      (match ExpandBlock(fs, base, loading, block)
       case Err(e) => Err(e)
       case Ok(b) => Ok(Fn(attrs, vis, ident, b)))
    case Verbatim(_, _) => Ok(it)
  }

  /** `visit_item_mod_mut`: `ExpandMods`, then a visit of the module's items.
      Items loaded from a file are visited here a second time; the visit runs
      with that file counted as being expanded, which changes nothing since
      such items hold no body-less module any more (see `SecondVisitStripsTests`). */
  function VisitItemMod(fs: Files, base: string, loading: set<string>, it: Item): (r: Result<Item, ExpandError>)
    requires it.Mod?
    decreases fs.Keys - loading, ItemSize(it), 1
    ensures r.Ok? ==> SameHeader(it, r.value) && LoadedItem(r.value)
  {
    match ExpandMods(fs, base, loading, it)
    case Err(e) => Err(e)
    case Ok(m) =>
      var visiting := if it.content.NoBody? then loading + {ModPath(base, it.ident)} else loading;
      match ExpandItems(fs, base, visiting, m.content.items)
      case Err(e) => Err(e)
      case Ok(items) => Ok(m.(content := Inline(items)))
  }

  /** `expand_mods`: an inline module named `tests` is emptied and any other
      inline module is left as it is; a body-less module gets the items of
      `<base>/<name>.rs`, expanded with the same base directory. */
  function ExpandMods(fs: Files, base: string, loading: set<string>, it: Item): (r: Result<Item, ExpandError>)
    requires it.Mod?
    decreases fs.Keys - loading, ItemSize(it), 0
    ensures r.Ok? ==> SameHeader(it, r.value) && r.value.content.Inline?
    ensures it.content.Inline? ==>
      r == Ok(it.(content := Inline(if it.ident == TestsMod then [] else it.content.items)))
    ensures it.content.NoBody? && r.Ok? ==>
      ModPath(base, it.ident) in fs && ModPath(base, it.ident) !in loading && LoadedItems(r.value.content.items)
  {
    match it.content
    case Inline(items) =>
      if it.ident == TestsMod then Ok(it.(content := Inline([]))) else Ok(it)
    case NoBody =>
      var path := ModPath(base, it.ident);
      if path !in fs then Err(ModNotFound(path))
      else if path in loading then Err(RecursiveMod(path))
      else
        match ExpandItems(fs, base, loading + {path}, fs[path].items)
        case Err(e) => Err(e)
        case Ok(items) => Ok(it.(content := Inline(items)))
  }

  function ExpandBlock(fs: Files, base: string, loading: set<string>, b: Block): (r: Result<Block, ExpandError>)
    decreases fs.Keys - loading, BlockSize(b), 2
    ensures r.Ok? ==> |r.value.stmts| == |b.stmts| && LoadedBlock(r.value)
  {
    match ExpandStmts(fs, base, loading, b.stmts)
    case Err(e) => Err(e)
    case Ok(ss) => Ok(Block(ss))
  }

  function ExpandStmts(fs: Files, base: string, loading: set<string>, ss: seq<Stmt>): (r: Result<seq<Stmt>, ExpandError>)
    decreases fs.Keys - loading, StmtsSize(ss), 3
    ensures r.Ok? ==> |r.value| == |ss| && LoadedStmts(r.value)
  {
    if ss == [] then Ok([])
    else
      match ExpandStmts(fs, base, loading, ss[..|ss| - 1])
      case Err(e) => Err(e)
      case Ok(init) =>
        match ExpandStmt(fs, base, loading, ss[|ss| - 1])
        case Err(e) => Err(e)
        case Ok(last) => Ok(init + [last])
  }

  function ExpandStmt(fs: Files, base: string, loading: set<string>, s: Stmt): (r: Result<Stmt, ExpandError>)
    decreases fs.Keys - loading, StmtSize(s), 2
    ensures r.Ok? ==> LoadedStmt(r.value)
  {
    match s
    case Local(pat, init) =>
      if init.None? then Ok(s)
      else
        (match ExpandExpr(fs, base, loading, init.value)
         case Err(e) => Err(e)
         case Ok(x) => Ok(Local(pat, Some(x))))
    case ItemStmt(it) =>
      (match ExpandItem(fs, base, loading, it)
       case Err(e) => Err(e)
       case Ok(x) => Ok(ItemStmt(x)))
    case ExprStmt(e) =>
      (match ExpandExpr(fs, base, loading, e)
       case Err(err) => Err(err)
       case Ok(x) => Ok(ExprStmt(x)))
    case SemiStmt(e) =>
      (match ExpandExpr(fs, base, loading, e)
       case Err(err) => Err(err)
       case Ok(x) => Ok(SemiStmt(x)))
  }

  function ExpandExprs(fs: Files, base: string, loading: set<string>, es: seq<Expr>): (r: Result<seq<Expr>, ExpandError>)
    decreases fs.Keys - loading, ExprsSize(es), 3
    ensures r.Ok? ==> |r.value| == |es| && LoadedExprs(r.value)
  {
    if es == [] then Ok([])
    else
      match ExpandExprs(fs, base, loading, es[..|es| - 1])
      case Err(e) => Err(e)
      case Ok(init) =>
        match ExpandExpr(fs, base, loading, es[|es| - 1])
        case Err(e) => Err(e)
        case Ok(last) => Ok(init + [last])
  }

  /** Two sub-expressions, visited left then right. */
  function ExpandPair(fs: Files, base: string, loading: set<string>, a: Expr, b: Expr): (r: Result<(Expr, Expr), ExpandError>)
    decreases fs.Keys - loading, ExprSize(a) + ExprSize(b), 3
    ensures r.Ok? ==> LoadedExpr(r.value.0) && LoadedExpr(r.value.1)
  {
    match ExpandExpr(fs, base, loading, a)
    case Err(e) => Err(e)
    case Ok(x) =>
      match ExpandExpr(fs, base, loading, b)
      case Err(e) => Err(e)
      case Ok(y) => Ok((x, y))
  }

  function ExpandExpr(fs: Files, base: string, loading: set<string>, e: Expr): (r: Result<Expr, ExpandError>)
    decreases fs.Keys - loading, ExprSize(e), 2
    ensures r.Ok? ==> LoadedExpr(r.value)
  {
    match e
    case Index(a, i) =>
      (match ExpandPair(fs, base, loading, a, i)
       case Err(err) => Err(err)
       case Ok(p) => Ok(Index(p.0, p.1)))
    case MethodCall(recv, name, args) =>
      (match ExpandExpr(fs, base, loading, recv)
       case Err(err) => Err(err)
       case Ok(x) =>
         match ExpandExprs(fs, base, loading, args)
         case Err(err) => Err(err)
         case Ok(xs) => Ok(MethodCall(x, name, xs)))
    case Unary(op, x) =>
      (match ExpandExpr(fs, base, loading, x)
       case Err(err) => Err(err)
       case Ok(y) => Ok(Unary(op, y)))
    case Unsafe(b) =>
      (match ExpandBlock(fs, base, loading, b)
       case Err(err) => Err(err)
       case Ok(b2) => Ok(Unsafe(b2)))
    case BlockExpr(b) =>
      (match ExpandBlock(fs, base, loading, b)
       case Err(err) => Err(err)
       case Ok(b2) => Ok(BlockExpr(b2)))
    case Assign(l, rhs) =>
      (match ExpandPair(fs, base, loading, l, rhs)
       case Err(err) => Err(err)
       case Ok(p) => Ok(Assign(p.0, p.1)))
    case AssignOp(l, op, rhs) =>
      (match ExpandPair(fs, base, loading, l, rhs)
       case Err(err) => Err(err)
       case Ok(p) => Ok(AssignOp(p.0, op, p.1)))
    case Macro(_, _) => Ok(e)
    case Other(kind, cs) =>
      (match ExpandExprs(fs, base, loading, cs)
       case Err(err) => Err(err)
       case Ok(xs) => Ok(Other(kind, xs)))
  }

  /** `Expander { base_path }.visit_file_mut(file)` on a source file at the
      top of a package: its attributes stay, its items are expanded. */
  function ExpandFile(fs: Files, base: string, f: File): (r: Result<File, ExpandError>)
    ensures r.Ok? ==> r.value.attrs == f.attrs && |r.value.items| == |f.items| && LoadedItems(r.value.items)
  {
    match ExpandItems(fs, base, {}, f.items)
    case Err(e) => Err(e)
    case Ok(items) => Ok(File(f.attrs, items))
  }

  // What a second visit does to items that are already fully loaded: it only
  // empties every inline module named `tests` it reaches.

  function StripItem(it: Item): Item {
    match it
    case Mod(attrs, vis, ident, content) =>
      if content.NoBody? then it
      else if ident == TestsMod then Mod(attrs, vis, ident, Inline([]))
      else Mod(attrs, vis, ident, Inline(StripItems(content.items)))
    case Fn(attrs, vis, ident, b) => Fn(attrs, vis, ident, StripBlock(b))
    case Verbatim(_, _) => it
  }

  function StripItems(its: seq<Item>): (r: seq<Item>)
    ensures |r| == |its|
  {
    if its == [] then [] else StripItems(its[..|its| - 1]) + [StripItem(its[|its| - 1])]
  }

  function StripBlock(b: Block): Block {
    Block(StripStmts(b.stmts))
  }

  function StripStmts(ss: seq<Stmt>): (r: seq<Stmt>)
    ensures |r| == |ss|
  {
    if ss == [] then [] else StripStmts(ss[..|ss| - 1]) + [StripStmt(ss[|ss| - 1])]
  }

  function StripStmt(s: Stmt): Stmt {
    match s
    case Local(pat, init) => if init.None? then s else Local(pat, Some(StripExpr(init.value)))
    case ItemStmt(it) => ItemStmt(StripItem(it))
    case ExprStmt(e) => ExprStmt(StripExpr(e))
    case SemiStmt(e) => SemiStmt(StripExpr(e))
  }

  function StripExprs(es: seq<Expr>): (r: seq<Expr>)
    ensures |r| == |es|
  {
    if es == [] then [] else StripExprs(es[..|es| - 1]) + [StripExpr(es[|es| - 1])]
  }

  function StripExpr(e: Expr): Expr {
    match e
    case Index(a, i) => Index(StripExpr(a), StripExpr(i))
    case MethodCall(r, name, args) => MethodCall(StripExpr(r), name, StripExprs(args))
    case Unary(op, x) => Unary(op, StripExpr(x))
    case Unsafe(b) => Unsafe(StripBlock(b))
    case BlockExpr(b) => BlockExpr(StripBlock(b))
    case Assign(l, r) => Assign(StripExpr(l), StripExpr(r))
    case AssignOp(l, op, r) => AssignOp(StripExpr(l), op, StripExpr(r))
    case Macro(_, _) => e
    case Other(kind, cs) => Other(kind, StripExprs(cs))
  }

  /** On a fully loaded tree the traversal reads no file, whatever the files,
      base and set of files being expanded: it empties the `tests` modules and
      nothing else. */
  lemma {:induction false} SecondVisitStripsTests(fs: Files, base: string, loading: set<string>, its: seq<Item>)
    requires LoadedItems(its)
    ensures ExpandItems(fs, base, loading, its) == Ok(StripItems(its))
    decreases ItemsSize(its), 1
  {
    if its != [] {
      SecondVisitStripsTests(fs, base, loading, its[..|its| - 1]);
      LoadedItemStrips(fs, base, loading, its[|its| - 1]);
    }
  }

  lemma {:induction false} LoadedItemStrips(fs: Files, base: string, loading: set<string>, it: Item)
    requires LoadedItem(it)
    ensures ExpandItem(fs, base, loading, it) == Ok(StripItem(it))
    decreases ItemSize(it), 0
  {
    match it
    case Mod(attrs, vis, ident, content) =>
      InlineModule(fs, base, loading, attrs, vis, ident, content.items);
      if ident != TestsMod {
        SecondVisitStripsTests(fs, base, loading, content.items);
      }
    case Fn(_, _, _, b) =>
      LoadedBlockStrips(fs, base, loading, b);
    case Verbatim(_, _) =>
  }

  lemma {:induction false} LoadedBlockStrips(fs: Files, base: string, loading: set<string>, b: Block)
    requires LoadedBlock(b)
    ensures ExpandBlock(fs, base, loading, b) == Ok(StripBlock(b))
    decreases BlockSize(b), 2
  {
    LoadedStmtsStrip(fs, base, loading, b.stmts);
  }

  lemma {:induction false} LoadedStmtsStrip(fs: Files, base: string, loading: set<string>, ss: seq<Stmt>)
    requires LoadedStmts(ss)
    ensures ExpandStmts(fs, base, loading, ss) == Ok(StripStmts(ss))
    decreases StmtsSize(ss), 1
  {
    if ss != [] {
      LoadedStmtsStrip(fs, base, loading, ss[..|ss| - 1]);
      LoadedStmtStrips(fs, base, loading, ss[|ss| - 1]);
    }
  }

  lemma {:induction false} LoadedStmtStrips(fs: Files, base: string, loading: set<string>, s: Stmt)
    requires LoadedStmt(s)
    ensures ExpandStmt(fs, base, loading, s) == Ok(StripStmt(s))
    decreases StmtSize(s), 0
  {
    match s
    case Local(_, init) =>
      if init.Some? {
        LoadedExprStrips(fs, base, loading, init.value);
      }
    case ItemStmt(it) => LoadedItemStrips(fs, base, loading, it);
    case ExprStmt(e) => LoadedExprStrips(fs, base, loading, e);
    case SemiStmt(e) => LoadedExprStrips(fs, base, loading, e);
  }

  lemma {:induction false} LoadedExprsStrip(fs: Files, base: string, loading: set<string>, es: seq<Expr>)
    requires LoadedExprs(es)
    ensures ExpandExprs(fs, base, loading, es) == Ok(StripExprs(es))
    decreases ExprsSize(es), 1
  {
    if es != [] {
      LoadedExprsStrip(fs, base, loading, es[..|es| - 1]);
      LoadedExprStrips(fs, base, loading, es[|es| - 1]);
    }
  }

  lemma {:induction false} LoadedExprStrips(fs: Files, base: string, loading: set<string>, e: Expr)
    requires LoadedExpr(e)
    ensures ExpandExpr(fs, base, loading, e) == Ok(StripExpr(e))
    decreases ExprSize(e), 0
  {
    match e
    case Index(a, i) =>
      LoadedExprStrips(fs, base, loading, a);
      LoadedExprStrips(fs, base, loading, i);
    case MethodCall(r, _, args) =>
      LoadedExprStrips(fs, base, loading, r);
      LoadedExprsStrip(fs, base, loading, args);
    case Unary(_, x) => LoadedExprStrips(fs, base, loading, x);
    case Unsafe(b) => LoadedBlockStrips(fs, base, loading, b);
    case BlockExpr(b) => LoadedBlockStrips(fs, base, loading, b);
    case Assign(l, r) =>
      LoadedExprStrips(fs, base, loading, l);
      LoadedExprStrips(fs, base, loading, r);
    case AssignOp(l, _, r) =>
      LoadedExprStrips(fs, base, loading, l);
      LoadedExprStrips(fs, base, loading, r);
    case Macro(_, _) =>
    case Other(_, cs) => LoadedExprsStrip(fs, base, loading, cs);
  }

  /** Emptying the `tests` modules a second time changes nothing. */
  lemma {:induction false} StripItemsIdempotent(its: seq<Item>)
    ensures StripItems(StripItems(its)) == StripItems(its)
    decreases ItemsSize(its), 1
  {
    if its != [] {
      var init := its[..|its| - 1];
      StripItemsIdempotent(init);
      StripItemIdempotent(its[|its| - 1]);
      var r := StripItems(its);
      assert r[..|r| - 1] == StripItems(init);
    }
  }

  lemma {:induction false} StripItemIdempotent(it: Item)
    ensures StripItem(StripItem(it)) == StripItem(it)
    decreases ItemSize(it), 0
  {
    match it
    case Mod(_, _, ident, content) =>
      if content.Inline? && ident != TestsMod {
        StripItemsIdempotent(content.items);
      } else if content.Inline? {
        assert StripItems([]) == [];
      }
    case Fn(_, _, _, b) => StripBlockIdempotent(b);
    case Verbatim(_, _) =>
  }

  lemma {:induction false} StripBlockIdempotent(b: Block)
    ensures StripBlock(StripBlock(b)) == StripBlock(b)
    decreases BlockSize(b), 2
  {
    StripStmtsIdempotent(b.stmts);
  }

  lemma {:induction false} StripStmtsIdempotent(ss: seq<Stmt>)
    ensures StripStmts(StripStmts(ss)) == StripStmts(ss)
    decreases StmtsSize(ss), 1
  {
    if ss != [] {
      var init := ss[..|ss| - 1];
      StripStmtsIdempotent(init);
      StripStmtIdempotent(ss[|ss| - 1]);
      var r := StripStmts(ss);
      assert r[..|r| - 1] == StripStmts(init);
    }
  }

  lemma {:induction false} StripStmtIdempotent(s: Stmt)
    ensures StripStmt(StripStmt(s)) == StripStmt(s)
    decreases StmtSize(s), 0
  {
    match s
    case Local(_, init) =>
      if init.Some? {
        StripExprIdempotent(init.value);
      }
    case ItemStmt(it) => StripItemIdempotent(it);
    case ExprStmt(e) => StripExprIdempotent(e);
    case SemiStmt(e) => StripExprIdempotent(e);
  }

  lemma {:induction false} StripExprsIdempotent(es: seq<Expr>)
    ensures StripExprs(StripExprs(es)) == StripExprs(es)
    decreases ExprsSize(es), 1
  {
    if es != [] {
      var init := es[..|es| - 1];
      StripExprsIdempotent(init);
      StripExprIdempotent(es[|es| - 1]);
      var r := StripExprs(es);
      assert r[..|r| - 1] == StripExprs(init);
    }
  }

  lemma {:induction false} StripExprIdempotent(e: Expr)
    ensures StripExpr(StripExpr(e)) == StripExpr(e)
    decreases ExprSize(e), 0
  {
    match e
    case Index(a, i) =>
      StripExprIdempotent(a);
      StripExprIdempotent(i);
    case MethodCall(r, _, args) =>
      StripExprIdempotent(r);
      StripExprsIdempotent(args);
    case Unary(_, x) => StripExprIdempotent(x);
    case Unsafe(b) => StripBlockIdempotent(b);
    case BlockExpr(b) => StripBlockIdempotent(b);
    case Assign(l, r) =>
      StripExprIdempotent(l);
      StripExprIdempotent(r);
    case AssignOp(l, _, r) =>
      StripExprIdempotent(l);
      StripExprIdempotent(r);
    case Macro(_, _) =>
    case Other(_, cs) => StripExprsIdempotent(cs);
  }

  /** An inline module named `tests` loses all its items; any other inline
      module keeps its header and has its items expanded in turn. */
  lemma {:induction false} InlineModule(fs: Files, base: string, loading: set<string>, attrs: seq<Attribute>, vis: Visibility, ident: string, items: seq<Item>)
    ensures var r := ExpandItem(fs, base, loading, Mod(attrs, vis, ident, Inline(items)));
      if ident == TestsMod then r == Ok(Mod(attrs, vis, ident, Inline([])))
      else
        var xs := ExpandItems(fs, base, loading, items);
        (xs.Err? ==> r == Err(xs.error)) &&
        (xs.Ok? ==> r == Ok(Mod(attrs, vis, ident, Inline(xs.value))))
  {
    var it := Mod(attrs, vis, ident, Inline(items));
    assert ExpandItem(fs, base, loading, it) == VisitItemMod(fs, base, loading, it);
    var m := it.(content := Inline(if ident == TestsMod then [] else items));
    assert ExpandMods(fs, base, loading, it) == Ok(m);
    if ident == TestsMod {
      assert ExpandItems(fs, base, loading, []) == Ok([]);
    }
  }

  /** A body-less `mod name;` is filled from `<base>/name.rs` and from nowhere
      else (not `<base>/name/mod.rs`): the file's items after their own
      expansion, with every inline `tests` module among them emptied by the
      second visit. A missing file is a failure naming that one path. */
  lemma {:induction false} BodylessModule(fs: Files, base: string, loading: set<string>, attrs: seq<Attribute>, vis: Visibility, ident: string)
    ensures var path := ModPath(base, ident);
      var r := ExpandItem(fs, base, loading, Mod(attrs, vis, ident, NoBody));
      if path !in fs then r == Err(ModNotFound(path))
      else if path in loading then r == Err(RecursiveMod(path))
      else
        var xs := ExpandItems(fs, base, loading + {path}, fs[path].items);
        (xs.Err? ==> r == Err(xs.error)) &&
        (xs.Ok? ==> r == Ok(Mod(attrs, vis, ident, Inline(StripItems(xs.value)))))
  {
    var path := ModPath(base, ident);
    var it := Mod(attrs, vis, ident, NoBody);
    assert ExpandItem(fs, base, loading, it) == VisitItemMod(fs, base, loading, it);
    if path !in fs {
      assert ExpandMods(fs, base, loading, it) == Err(ModNotFound(path));
    } else if path in loading {
      assert ExpandMods(fs, base, loading, it) == Err(RecursiveMod(path));
    } else {
      var xs := ExpandItems(fs, base, loading + {path}, fs[path].items);
      if xs.Err? {
        assert ExpandMods(fs, base, loading, it) == Err(xs.error);
      } else {
        assert ExpandMods(fs, base, loading, it) == Ok(it.(content := Inline(xs.value)));
        SecondVisitStripsTests(fs, base, loading + {path}, xs.value);
      }
    }
  }

  lemma SingleItem(fs: Files, base: string, loading: set<string>, it: Item)
    ensures var r := ExpandItem(fs, base, loading, it);
      ExpandItems(fs, base, loading, [it]) == if r.Ok? then Ok([r.value]) else Err(r.error)
  {
    assert [it][..0] == [];
    assert ExpandItems(fs, base, loading, []) == Ok([]);
    var r := ExpandItem(fs, base, loading, it);
    if r.Ok? {
      assert [] + [r.value] == [r.value];
    }
  }

  /** A `mod tests;` in the file being processed keeps the items of its file. */
  lemma TestsFileKeptAtTop(fs: Files, base: string, attrs: seq<Attribute>, vis: Visibility, body: seq<Item>)
    requires ModPath(base, TestsMod) in fs && fs[ModPath(base, TestsMod)].items == body && LoadedItems(body)
    ensures ExpandItem(fs, base, {}, Mod(attrs, vis, TestsMod, NoBody))
      == Ok(Mod(attrs, vis, TestsMod, Inline(StripItems(body))))
  {
    var testsPath := ModPath(base, TestsMod);
    assert {} + {testsPath} == {testsPath};
    SecondVisitStripsTests(fs, base, {testsPath}, body);
    StripItemsIdempotent(body);
    BodylessModule(fs, base, {}, attrs, vis, TestsMod);
  }

  /** ...but a `mod tests;` inside a module that is itself read from a file is
      emptied: the second visit of that module's items finds it inline. */
  lemma NestedTestsFileEmptied(fs: Files, base: string, name: string, attrs: seq<Attribute>, vis: Visibility, body: seq<Item>)
    requires ModPath(base, name) != ModPath(base, TestsMod)
    requires ModPath(base, TestsMod) in fs && LoadedItems(fs[ModPath(base, TestsMod)].items)
    requires ModPath(base, name) in fs && fs[ModPath(base, name)].items == [Mod([], Inherited, TestsMod, NoBody)]
    ensures ExpandItem(fs, base, {}, Mod(attrs, vis, name, NoBody))
      == Ok(Mod(attrs, vis, name, Inline([Mod([], Inherited, TestsMod, Inline([]))])))
  {
    var testsPath, path := ModPath(base, TestsMod), ModPath(base, name);
    var inner := Mod([], Inherited, TestsMod, NoBody);
    var body := fs[testsPath].items;
    SecondVisitStripsTests(fs, base, {path} + {testsPath}, body);
    StripItemsIdempotent(body);
    assert testsPath !in {path};
    BodylessModule(fs, base, {path}, [], Inherited, TestsMod);
    var loadedInner := Mod([], Inherited, TestsMod, Inline(StripItems(body)));
    assert ExpandItem(fs, base, {path}, inner) == Ok(loadedInner);
    SingleItem(fs, base, {path}, inner);
    assert {} + {path} == {path};
    BodylessModule(fs, base, {}, attrs, vis, name);
    assert [loadedInner][..0] == [];
    assert StripItems([loadedInner]) == [Mod([], Inherited, TestsMod, Inline([]))];
  }
}

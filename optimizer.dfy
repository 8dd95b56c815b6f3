/** The optimizer pass of src/optimizer.rs, a rewrite of a parsed file that
    removes `doc` and `allow` attributes from the file and its functions,
    removes `debug_assert!` and `debug_assert_eq!` statements, and turns every
    indexed assignment target `a[i]` into `*unsafe { a.get_unchecked_mut(i) }`,
    counting what it removed.

    The pure functions `Opt*` say what the pass computes, as the rewritten node
    together with the counts it adds; the class `Optimizer` is the visitor
    itself, which keeps the three counters in fields and whose methods are
    proved to compute those functions. */
module OptimizerPass {
  import opened Results
  import opened Syntax

  /** What a visit removed: attributes, bound checks and debug assertions. */
  datatype Counts = Counts(attributes: nat, boundChecks: nat, debugAsserts: nat)

  function Zero(): Counts {
    Counts(0, 0, 0)
  }

  function Add(x: Counts, y: Counts): Counts {
    Counts(x.attributes + y.attributes, x.boundChecks + y.boundChecks, x.debugAsserts + y.debugAsserts)
  }

  lemma AddAssociative(x: Counts, y: Counts, z: Counts)
    ensures Add(Add(x, y), z) == Add(x, Add(y, z))
  {
  }

  /** A rewritten node and what rewriting it removed. */
  datatype Out<T> = Out(value: T, removed: Counts)

  // `Vec::retain`: the elements that satisfy `keep`, in their order.

  function Retain<T>(s: seq<T>, keep: T -> bool): (r: seq<T>)
    ensures |r| <= |s|
    ensures forall i :: 0 <= i < |r| ==> keep(r[i])
  {
    if s == [] then []
    else
      var init := Retain(s[..|s| - 1], keep);
      if keep(s[|s| - 1]) then init + [s[|s| - 1]] else init
  }

  lemma {:induction false} RetainConcat<T>(a: seq<T>, b: seq<T>, keep: T -> bool)
    ensures Retain(a + b, keep) == Retain(a, keep) + Retain(b, keep)
    decreases |b|
  {
    if b == [] {
      assert a + b == a;
    } else {
      var b' := b[..|b| - 1];
      assert (a + b)[..|a + b| - 1] == a + b';
      RetainConcat(a, b', keep);
    }
  }

  /** An element is kept exactly when it occurs and satisfies `keep`. */
  lemma {:induction false} RetainMembers<T>(s: seq<T>, keep: T -> bool, x: T)
    ensures x in Retain(s, keep) <==> x in s && keep(x)
    decreases |s|
  {
    if s != [] {
      var init := s[..|s| - 1];
      RetainMembers(init, keep, x);
      assert s == init + [s[|s| - 1]];
    }
  }

  /** Nothing is dropped when every element is kept. */
  lemma {:induction false} RetainAll<T>(s: seq<T>, keep: T -> bool)
    requires forall i :: 0 <= i < |s| ==> keep(s[i])
    ensures Retain(s, keep) == s
    decreases |s|
  {
    if s != [] {
      RetainAll(s[..|s| - 1], keep);
    }
  }

  lemma {:induction false} RetainStmtsSize(ss: seq<Stmt>, keep: Stmt -> bool)
    ensures StmtsSize(Retain(ss, keep)) <= StmtsSize(ss)
    decreases |ss|
  {
    if ss != [] {
      var init := ss[..|ss| - 1];
      RetainStmtsSize(init, keep);
      var r := Retain(init, keep);
      if keep(ss[|ss| - 1]) {
        assert (r + [ss[|ss| - 1]])[..|r|] == r;
      }
    }
  }

  // What is removed.

  /** `retain_attribute`: `#[doc ...]` and `#[allow ...]` are removed. */
  predicate IsStrippedAttr(a: Attribute) {
    IsIdent(a.path, "doc") || IsIdent(a.path, "allow")
  }

  predicate KeptAttr(a: Attribute) {
    !IsStrippedAttr(a)
  }

  /** `is_debug_assert` */
  predicate IsDebugAssertPath(p: Path) {
    IsIdent(p, "debug_assert") || IsIdent(p, "debug_assert_eq")
  }

  /** `filter_out_stmt`: a debug assertion macro, with or without `;`. */
  predicate FilteredOut(s: Stmt) {
    (s.ExprStmt? || s.SemiStmt?) && s.expr.Macro? && IsDebugAssertPath(s.expr.path)
  }

  predicate KeptStmt(s: Stmt) {
    !FilteredOut(s)
  }

  /** The attributes a file or function keeps, and how many it loses. */
  function RetainAttrs(attrs: seq<Attribute>): (r: Out<seq<Attribute>>)
    ensures r.removed.attributes + |r.value| == |attrs|
    ensures r.removed.boundChecks == 0 && r.removed.debugAsserts == 0
    ensures forall i :: 0 <= i < |r.value| ==> !IsStrippedAttr(r.value[i])
    ensures r.value == Retain(attrs, KeptAttr)
  {
    var kept := Retain(attrs, KeptAttr);
    Out(kept, Counts(|attrs| - |kept|, 0, 0))
  }

  /** `optimize_lvalue`: an indexing `a[i]` becomes `a.get_unchecked_mut(i)`,
      its base being rewritten the same way first; at the outermost level the
      call is wrapped as `*unsafe { ... }`. Anything else is left alone. The
      index expressions are copied as they are. */
  function OptLvalue(e: Expr, outer: bool): (r: Out<Expr>)
    ensures outer ==> !r.value.Index?
    ensures r.removed.attributes == 0 && r.removed.debugAsserts == 0
    ensures !e.Index? ==> r == Out(e, Zero())
  {
    match e
    case Index(a, i) =>
      var base := OptLvalue(a, false);
      var call := MethodCall(base.value, "get_unchecked_mut", [i]);
      Out(if outer then Unary(Deref, Unsafe(Block([ExprStmt(call)]))) else call,
          Counts(base.removed.attributes, base.removed.boundChecks + 1, base.removed.debugAsserts))
    case _ => Out(e, Zero())
  }

  // The visit. Assignments only have their target rewritten; their right-hand
  // side is not visited. Every block loses its debug assertions before its
  // statements are visited.

  function OptExpr(e: Expr): (r: Out<Expr>)
    decreases ExprSize(e), 0
    ensures r.value.Macro? <==> e.Macro?
    ensures e.Macro? ==> r == Out(e, Zero())
  {
    match e
    case Index(a, i) =>
      var x, y := OptExpr(a), OptExpr(i);
      Out(Index(x.value, y.value),
          Counts(x.removed.attributes + y.removed.attributes,
                 x.removed.boundChecks + y.removed.boundChecks,
                 x.removed.debugAsserts + y.removed.debugAsserts))
    case MethodCall(recv, name, args) =>
      var x, ys := OptExpr(recv), OptExprs(args);
      Out(MethodCall(x.value, name, ys.value),
          Counts(x.removed.attributes + ys.removed.attributes,
                 x.removed.boundChecks + ys.removed.boundChecks,
                 x.removed.debugAsserts + ys.removed.debugAsserts))
    case Unary(op, x) =>
      var y := OptExpr(x);
      Out(Unary(op, y.value), y.removed)
    case Unsafe(b) =>
      var c := OptBlock(b);
      Out(Unsafe(c.value), c.removed)
    case BlockExpr(b) =>
      var c := OptBlock(b);
      Out(BlockExpr(c.value), c.removed)
    case Assign(l, rhs) =>
      var x := OptLvalue(l, true);
      Out(Assign(x.value, rhs), x.removed)
    case AssignOp(l, op, rhs) =>
      var x := OptLvalue(l, true);
      Out(AssignOp(x.value, op, rhs), x.removed)
    case Macro(_, _) => Out(e, Zero())
    case Other(kind, cs) =>
      var ys := OptExprs(cs);
      Out(Other(kind, ys.value), ys.removed)
  }

  function OptExprs(es: seq<Expr>): (r: Out<seq<Expr>>)
    decreases ExprsSize(es), 1
    ensures |r.value| == |es|
  {
    if es == [] then Out([], Zero())
    else
      var init, last := OptExprs(es[..|es| - 1]), OptExpr(es[|es| - 1]);
      Out(init.value + [last.value],
          Counts(init.removed.attributes + last.removed.attributes,
                 init.removed.boundChecks + last.removed.boundChecks,
                 init.removed.debugAsserts + last.removed.debugAsserts))
  }

  /** `visit_block_mut`: drop the debug assertions, then visit what is left. */
  function OptBlock(b: Block): (r: Out<Block>)
    decreases BlockSize(b), 0
    ensures |r.value.stmts| == |Retain(b.stmts, KeptStmt)|
    ensures r.removed.debugAsserts >= |b.stmts| - |r.value.stmts|
  {
    var kept := Retain(b.stmts, KeptStmt);
    RetainStmtsSize(b.stmts, KeptStmt);
    var ss := OptStmts(kept);
    Out(Block(ss.value), Counts(ss.removed.attributes, ss.removed.boundChecks, |b.stmts| - |kept| + ss.removed.debugAsserts))
  }

  function OptStmts(ss: seq<Stmt>): (r: Out<seq<Stmt>>)
    decreases StmtsSize(ss), 1
    ensures |r.value| == |ss|
  {
    if ss == [] then Out([], Zero())
    else
      var init, last := OptStmts(ss[..|ss| - 1]), OptStmt(ss[|ss| - 1]);
      Out(init.value + [last.value],
          Counts(init.removed.attributes + last.removed.attributes,
                 init.removed.boundChecks + last.removed.boundChecks,
                 init.removed.debugAsserts + last.removed.debugAsserts))
  }

  function OptStmt(s: Stmt): (r: Out<Stmt>)
    decreases StmtSize(s), 0
    ensures FilteredOut(r.value) <==> FilteredOut(s)
    ensures r.value.Local? == s.Local? && r.value.ItemStmt? == s.ItemStmt? && r.value.ExprStmt? == s.ExprStmt?
  {
    match s
    case Local(pat, init) =>
      if init.None? then Out(s, Zero())
      else
        var x := OptExpr(init.value);
        Out(Local(pat, Some(x.value)), x.removed)
    case ItemStmt(it) =>
      var x := OptItem(it);
      Out(ItemStmt(x.value), x.removed)
    case ExprStmt(e) =>
      var x := OptExpr(e);
      Out(ExprStmt(x.value), x.removed)
    case SemiStmt(e) =>
      var x := OptExpr(e);
      Out(SemiStmt(x.value), x.removed)
  }

  /** Functions lose their `doc`/`allow` attributes and have their body
      visited; modules have their items visited and keep their attributes. */
  function OptItem(it: Item): (r: Out<Item>)
    decreases ItemSize(it), 0
    ensures it.Fn? ==>
      r.value.Fn? && r.value.vis == it.vis && r.value.ident == it.ident &&
      r.value.attrs == Retain(it.attrs, KeptAttr) && CleanAttrs(r.value.attrs)
    ensures it.Mod? ==>
      r.value.Mod? && r.value.attrs == it.attrs && r.value.vis == it.vis && r.value.ident == it.ident &&
      r.value.content.Inline? == it.content.Inline? &&
      (it.content.Inline? ==> |r.value.content.items| == |it.content.items|)
    ensures it.Verbatim? || (it.Mod? && it.content.NoBody?) ==> r == Out(it, Zero())
  {
    match it
    case Fn(attrs, vis, ident, b) =>
      var xs, c := RetainAttrs(attrs), OptBlock(b);
      Out(Fn(xs.value, vis, ident, c.value),
          Counts(xs.removed.attributes + c.removed.attributes,
                 xs.removed.boundChecks + c.removed.boundChecks,
                 xs.removed.debugAsserts + c.removed.debugAsserts))
    case Mod(attrs, vis, ident, content) =>
      if content.NoBody? then Out(it, Zero())
      else
        var ys := OptItems(content.items);
        Out(Mod(attrs, vis, ident, Inline(ys.value)), ys.removed)
    case Verbatim(_, _) => Out(it, Zero())
  }

  function OptItems(its: seq<Item>): (r: Out<seq<Item>>)
    decreases ItemsSize(its), 1
    ensures |r.value| == |its|
  {
    if its == [] then Out([], Zero())
    else
      var init, last := OptItems(its[..|its| - 1]), OptItem(its[|its| - 1]);
      Out(init.value + [last.value],
          Counts(init.removed.attributes + last.removed.attributes,
                 init.removed.boundChecks + last.removed.boundChecks,
                 init.removed.debugAsserts + last.removed.debugAsserts))
  }

  /** `optimize`: the file loses its `doc`/`allow` attributes and has its
      items visited. */
  function OptFile(f: File): (r: Out<File>)
    ensures |r.value.items| == |f.items|
    ensures r.value.attrs == Retain(f.attrs, KeptAttr) && CleanAttrs(r.value.attrs)
    ensures r.removed.attributes >= |f.attrs| - |r.value.attrs|
  {
    var xs, ys := RetainAttrs(f.attrs), OptItems(f.items);
    Out(File(xs.value, ys.value),
        Counts(xs.removed.attributes + ys.removed.attributes,
               xs.removed.boundChecks + ys.removed.boundChecks,
               xs.removed.debugAsserts + ys.removed.debugAsserts))
  }

  // The target of an assignment as a chain of indexings `base[i1]...[in]`.

  /** The innermost operand of a chain of indexings. */
  function IndexBase(e: Expr): (r: Expr)
    ensures !r.Index?
  {
    if e.Index? then IndexBase(e.base) else e
  }

  /** The index expressions of a chain, innermost first. */
  function Indices(e: Expr): seq<Expr> {
    if e.Index? then Indices(e.base) + [e.index] else []
  }

  function Indexed(base: Expr, indices: seq<Expr>): Expr {
    if indices == [] then base
    else Index(Indexed(base, indices[..|indices| - 1]), indices[|indices| - 1])
  }

  /** `base.get_unchecked_mut(i1)...get_unchecked_mut(in)` */
  function UncheckedCalls(base: Expr, indices: seq<Expr>): Expr {
    if indices == [] then base
    else MethodCall(UncheckedCalls(base, indices[..|indices| - 1]), "get_unchecked_mut", [indices[|indices| - 1]])
  }

  /** Every expression is its chain of indexings rebuilt. */
  lemma {:induction false} IndexChainRoundTrip(e: Expr)
    ensures Indexed(IndexBase(e), Indices(e)) == e
  {
    if e.Index? {
      IndexChainRoundTrip(e.base);
      var idx := Indices(e);
      assert idx[..|idx| - 1] == Indices(e.base);
    }
  }

  /** Below the outermost level, `optimize_lvalue` turns each of the n
      indexings of the chain into an unchecked call on what the inner ones
      became, with the same index expressions, and counts n bound checks. */
  lemma {:induction false} InnerLvalueIsUncheckedChain(e: Expr)
    ensures OptLvalue(e, false) == Out(UncheckedCalls(IndexBase(e), Indices(e)), Counts(0, |Indices(e)|, 0))
  {
    if e.Index? {
      InnerLvalueIsUncheckedChain(e.base);
      var idx := Indices(e);
      assert idx[..|idx| - 1] == Indices(e.base);
    }
  }

  /** An indexed assignment target `b[i1]...[in]` becomes
      `*unsafe { b.get_unchecked_mut(i1)...get_unchecked_mut(in) }`: one
      dereference of one unsafe block, however long the chain. */
  lemma LvalueIsUncheckedChain(e: Expr)
    requires e.Index?
    ensures OptLvalue(e, true) == Out(Unary(Deref, Unsafe(Block([ExprStmt(UncheckedCalls(IndexBase(e), Indices(e)))]))),
                                      Counts(0, |Indices(e)|, 0))
  {
    InnerLvalueIsUncheckedChain(e);
    InnerLvalueIsUncheckedChain(e.base);
  }

  // The shape of an optimized tree: no `doc`/`allow` attribute on the file or a
  // function, no debug assertion in a visited block, no indexing as the target
  // of a visited assignment.

  predicate CleanAttrs(attrs: seq<Attribute>) {
    forall i :: 0 <= i < |attrs| ==> !IsStrippedAttr(attrs[i])
  }

  predicate CleanExpr(e: Expr) {
    match e
    case Index(a, i) => CleanExpr(a) && CleanExpr(i)
    case MethodCall(recv, _, args) => CleanExpr(recv) && CleanExprs(args)
    case Unary(_, x) => CleanExpr(x)
    case Unsafe(b) => CleanBlock(b)
    case BlockExpr(b) => CleanBlock(b)
    case Assign(l, _) => !l.Index?
    case AssignOp(l, _, _) => !l.Index?
    case Macro(_, _) => true
    case Other(_, cs) => CleanExprs(cs)
  }

  predicate CleanExprs(es: seq<Expr>) {
    forall i :: 0 <= i < |es| ==> CleanExpr(es[i])
  }

  predicate CleanBlock(b: Block) {
    (forall i :: 0 <= i < |b.stmts| ==> !FilteredOut(b.stmts[i])) && CleanStmts(b.stmts)
  }

  predicate CleanStmt(s: Stmt) {
    match s
    case Local(_, init) => init.Some? ==> CleanExpr(init.value)
    case ItemStmt(it) => CleanItem(it)
    case ExprStmt(e) => CleanExpr(e)
    case SemiStmt(e) => CleanExpr(e)
  }

  predicate CleanStmts(ss: seq<Stmt>) {
    forall i :: 0 <= i < |ss| ==> CleanStmt(ss[i])
  }

  predicate CleanItem(it: Item) {
    match it
    case Fn(attrs, _, _, b) => CleanAttrs(attrs) && CleanBlock(b)
    case Mod(_, _, _, content) => content.Inline? ==> CleanItems(content.items)
    case Verbatim(_, _) => true
  }

  predicate CleanItems(its: seq<Item>) {
    forall i :: 0 <= i < |its| ==> CleanItem(its[i])
  }

  predicate CleanFile(f: File) {
    CleanAttrs(f.attrs) && CleanItems(f.items)
  }

  /** A block keeps the statements that are not debug assertions, in their
      order, each one visited. */
  lemma {:induction false} OptStmtsPointwise(ss: seq<Stmt>)
    ensures forall i :: 0 <= i < |ss| ==> OptStmts(ss).value[i] == OptStmt(ss[i]).value
    decreases |ss|
  {
    if ss != [] {
      OptStmtsPointwise(ss[..|ss| - 1]);
    }
  }

  lemma OptBlockKeeps(b: Block)
    ensures var kept := Retain(b.stmts, KeptStmt);
      |OptBlock(b).value.stmts| == |kept| &&
      (forall i :: 0 <= i < |kept| ==> OptBlock(b).value.stmts[i] == OptStmt(kept[i]).value) &&
      OptBlock(b).removed.debugAsserts >= |b.stmts| - |kept|
  {
    OptStmtsPointwise(Retain(b.stmts, KeptStmt));
  }

  // Optimizing always gives a clean tree.

  lemma {:induction false} OptExprClean(e: Expr)
    ensures CleanExpr(OptExpr(e).value)
    decreases ExprSize(e), 0
  {
    match e
    case Index(a, i) =>
      OptExprClean(a);
      OptExprClean(i);
    case MethodCall(recv, _, args) =>
      OptExprClean(recv);
      OptExprsClean(args);
    case Unary(_, x) => OptExprClean(x);
    case Unsafe(b) => OptBlockClean(b);
    case BlockExpr(b) => OptBlockClean(b);
    case Assign(_, _) =>
    case AssignOp(_, _, _) =>
    case Macro(_, _) =>
    case Other(_, cs) => OptExprsClean(cs);
  }

  lemma {:induction false} OptExprsClean(es: seq<Expr>)
    ensures CleanExprs(OptExprs(es).value)
    decreases ExprsSize(es), 1
  {
    if es != [] {
      var init := es[..|es| - 1];
      OptExprsClean(init);
      OptExprClean(es[|es| - 1]);
    }
  }

  lemma {:induction false} OptBlockClean(b: Block)
    ensures CleanBlock(OptBlock(b).value)
    decreases BlockSize(b), 2
  {
    var kept := Retain(b.stmts, KeptStmt);
    RetainStmtsSize(b.stmts, KeptStmt);
    OptStmtsClean(kept);
    var ss := OptStmts(kept).value;
    OptStmtsPointwise(kept);
    forall i | 0 <= i < |ss|
      ensures !FilteredOut(ss[i])
    {
      assert ss[i] == OptStmt(kept[i]).value;
    }
  }

  lemma {:induction false} OptStmtsClean(ss: seq<Stmt>)
    ensures CleanStmts(OptStmts(ss).value)
    decreases StmtsSize(ss), 1
  {
    if ss != [] {
      OptStmtsClean(ss[..|ss| - 1]);
      OptStmtClean(ss[|ss| - 1]);
    }
  }

  lemma {:induction false} OptStmtClean(s: Stmt)
    ensures CleanStmt(OptStmt(s).value)
    decreases StmtSize(s), 0
  {
    match s
    case Local(_, init) =>
      if init.Some? {
        OptExprClean(init.value);
      }
    case ItemStmt(it) => OptItemClean(it);
    case ExprStmt(e) => OptExprClean(e);
    case SemiStmt(e) => OptExprClean(e);
  }

  lemma {:induction false} OptItemClean(it: Item)
    ensures CleanItem(OptItem(it).value)
    decreases ItemSize(it), 0
  {
    match it
    case Fn(_, _, _, b) => OptBlockClean(b);
    case Mod(_, _, _, content) =>
      if content.Inline? {
        OptItemsClean(content.items);
      }
    case Verbatim(_, _) =>
  }

  lemma {:induction false} OptItemsClean(its: seq<Item>)
    ensures CleanItems(OptItems(its).value)
    decreases ItemsSize(its), 1
  {
    if its != [] {
      OptItemsClean(its[..|its| - 1]);
      OptItemClean(its[|its| - 1]);
    }
  }

  lemma OptFileClean(f: File)
    ensures CleanFile(OptFile(f).value)
  {
    OptItemsClean(f.items);
  }

  // A clean tree is left as it is, and nothing is counted.

  /** `o` is `x` itself, with nothing removed. */
  predicate Untouched<T(==)>(o: Out<T>, x: T) {
    o.value == x && o.removed.attributes == 0 && o.removed.boundChecks == 0 && o.removed.debugAsserts == 0
  }

  lemma {:induction false} CleanExprFixed(e: Expr)
    requires CleanExpr(e)
    ensures Untouched(OptExpr(e), e)
    decreases ExprSize(e), 0
  {
    match e
    case Index(a, i) =>
      CleanExprFixed(a);
      CleanExprFixed(i);
    case MethodCall(recv, _, args) =>
      CleanExprFixed(recv);
      CleanExprsFixed(args);
    case Unary(_, x) => CleanExprFixed(x);
    case Unsafe(b) => CleanBlockFixed(b);
    case BlockExpr(b) => CleanBlockFixed(b);
    case Assign(_, _) =>
    case AssignOp(_, _, _) =>
    case Macro(_, _) =>
    case Other(_, cs) => CleanExprsFixed(cs);
  }

  lemma {:induction false} CleanExprsFixed(es: seq<Expr>)
    requires CleanExprs(es)
    ensures Untouched(OptExprs(es), es)
    decreases ExprsSize(es), 1
  {
    if es != [] {
      var init, last := es[..|es| - 1], es[|es| - 1];
      CleanExprsFixed(init);
      CleanExprFixed(last);
      assert init + [last] == es;
    }
  }

  lemma {:induction false} CleanBlockFixed(b: Block)
    requires CleanBlock(b)
    ensures Untouched(OptBlock(b), b)
    decreases BlockSize(b), 2
  {
    RetainAll(b.stmts, KeptStmt);
    CleanStmtsFixed(b.stmts);
  }

  lemma {:induction false} CleanStmtsFixed(ss: seq<Stmt>)
    requires CleanStmts(ss)
    ensures Untouched(OptStmts(ss), ss)
    decreases StmtsSize(ss), 1
  {
    if ss != [] {
      var init, last := ss[..|ss| - 1], ss[|ss| - 1];
      CleanStmtsFixed(init);
      CleanStmtFixed(last);
      assert init + [last] == ss;
    }
  }

  lemma {:induction false} CleanStmtFixed(s: Stmt)
    requires CleanStmt(s)
    ensures Untouched(OptStmt(s), s)
    decreases StmtSize(s), 0
  {
    match s
    case Local(_, init) =>
      if init.Some? {
        CleanExprFixed(init.value);
      }
    case ItemStmt(it) => CleanItemFixed(it);
    case ExprStmt(e) => CleanExprFixed(e);
    case SemiStmt(e) => CleanExprFixed(e);
  }

  lemma {:induction false} CleanItemFixed(it: Item)
    requires CleanItem(it)
    ensures Untouched(OptItem(it), it)
    decreases ItemSize(it), 0
  {
    match it
    case Fn(attrs, _, _, b) =>
      RetainAll(attrs, KeptAttr);
      CleanBlockFixed(b);
    case Mod(_, _, _, content) =>
      if content.Inline? {
        CleanItemsFixed(content.items);
      }
    case Verbatim(_, _) =>
  }

  lemma {:induction false} CleanItemsFixed(its: seq<Item>)
    requires CleanItems(its)
    ensures Untouched(OptItems(its), its)
    decreases ItemsSize(its), 1
  {
    if its != [] {
      var init, last := its[..|its| - 1], its[|its| - 1];
      CleanItemsFixed(init);
      CleanItemFixed(last);
      assert init + [last] == its;
    }
  }

  lemma CleanFileFixed(f: File)
    requires CleanFile(f)
    ensures OptFile(f) == Out(f, Zero())
  {
    RetainAll(f.attrs, KeptAttr);
    CleanItemsFixed(f.items);
  }

  /** Optimizing an optimized file changes nothing and removes nothing. */
  lemma OptFileIdempotent(f: File)
    ensures OptFile(OptFile(f).value) == Out(OptFile(f).value, Zero())
  {
    OptFileClean(f);
    CleanFileFixed(OptFile(f).value);
  }

  /** The visitor. Each method rewrites the node it is given and adds what it
      removed to the counters. */
  class Optimizer {
    var attributesRemoved: nat
    var boundChecksRemoved: nat
    var debugAssertsRemoved: nat

    function Counters(): Counts
      reads this
    {
      Counts(attributesRemoved, boundChecksRemoved, debugAssertsRemoved)
    }

    constructor ()
      ensures Counters() == Zero()
    {
      attributesRemoved, boundChecksRemoved, debugAssertsRemoved := 0, 0, 0;
    }

    method IsDebugAssert(p: Path) returns (b: bool)
      modifies this
      ensures b == IsDebugAssertPath(p)
      ensures Counters() == Add(old(Counters()), Counts(0, 0, if b then 1 else 0))
    {
      if IsIdent(p, "debug_assert") || IsIdent(p, "debug_assert_eq") {
        debugAssertsRemoved := debugAssertsRemoved + 1;
        return true;
      }
      return false;
    }

    method FilterOutStmt(s: Stmt) returns (b: bool)
      modifies this
      ensures b == FilteredOut(s)
      ensures Counters() == Add(old(Counters()), Counts(0, 0, if b then 1 else 0))
    {
      match s
      case ExprStmt(Macro(path, _)) =>
        b := IsDebugAssert(path);
      case SemiStmt(Macro(path, _)) =>
        b := IsDebugAssert(path);
      case _ =>
        b := false;
    }

    method RetainAttribute(a: Attribute) returns (keep: bool)
      modifies this
      ensures keep == KeptAttr(a)
      ensures Counters() == Add(old(Counters()), Counts(if keep then 0 else 1, 0, 0))
    {
      if IsIdent(a.path, "doc") || IsIdent(a.path, "allow") {
        attributesRemoved := attributesRemoved + 1;
        return false;
      }
      return true;
    }

    /** `attrs.retain(|a| self.retain_attribute(a))` */
    method RetainAttributes(attrs: seq<Attribute>) returns (r: seq<Attribute>)
      modifies this
      ensures r == RetainAttrs(attrs).value
      ensures Counters() == Add(old(Counters()), RetainAttrs(attrs).removed)
    {
      r := [];
      for i := 0 to |attrs|
        invariant r == Retain(attrs[..i], KeptAttr)
        invariant Counters() == Add(old(Counters()), Counts(i - |r|, 0, 0))
      {
        assert attrs[..i + 1][..i] == attrs[..i];
        var keep := RetainAttribute(attrs[i]);
        if keep {
          r := r + [attrs[i]];
        }
      }
      assert attrs[..|attrs|] == attrs;
    }

    /** `stmts.retain(|s| !self.filter_out_stmt(s))` */
    method RetainStatements(ss: seq<Stmt>) returns (r: seq<Stmt>)
      modifies this
      ensures r == Retain(ss, KeptStmt)
      ensures Counters() == Add(old(Counters()), Counts(0, 0, |ss| - |r|))
    {
      r := [];
      for i := 0 to |ss|
        invariant r == Retain(ss[..i], KeptStmt)
        invariant Counters() == Add(old(Counters()), Counts(0, 0, i - |r|))
      {
        assert ss[..i + 1][..i] == ss[..i];
        var out := FilterOutStmt(ss[i]);
        if !out {
          r := r + [ss[i]];
        }
      }
      assert ss[..|ss|] == ss;
    }

    method OptimizeLvalue(e: Expr, outer: bool) returns (r: Expr)
      modifies this
      ensures r == OptLvalue(e, outer).value
      ensures Counters() == Add(old(Counters()), OptLvalue(e, outer).removed)
    {
      r := e;
      if e.Index? {
        boundChecksRemoved := boundChecksRemoved + 1;
        var base := OptimizeLvalue(e.base, false);
        r := MethodCall(base, "get_unchecked_mut", [e.index]);
        if outer {
          r := Unary(Deref, Unsafe(Block([ExprStmt(r)])));
        }
      }
    }

    method VisitFile(f: File) returns (r: File)
      modifies this
      ensures r == OptFile(f).value
      ensures Counters() == Add(old(Counters()), OptFile(f).removed)
    {
      var attrs := RetainAttributes(f.attrs);
      var items := VisitItems(f.items);
      r := File(attrs, items);
    }

    method VisitItems(xs: seq<Item>) returns (r: seq<Item>)
      modifies this
      decreases ItemsSize(xs), 3
      ensures r == OptItems(xs).value
      ensures Counters() == Add(old(Counters()), OptItems(xs).removed)
    {
      ghost var start := Counters();
      r := [];
      for i := 0 to |xs|
        invariant r == OptItems(xs[..i]).value
        invariant Counters() == Add(start, OptItems(xs[..i]).removed)
      {
        ItemInItems(xs, i);
        var x := VisitItem(xs[i]);
        ghost var done, step := OptItems(xs[..i]), OptItem(xs[i]);
        assert OptItems(xs[..i + 1]) == Out(r + [x], Add(done.removed, step.removed)) by {
          assert xs[..i + 1][..i] == xs[..i];
        }
        AddAssociative(start, done.removed, step.removed);
        r := r + [x];
      }
      assert xs[..|xs|] == xs;
    }

    /** `visit_item_mut`: functions go to `VisitItemFn`, modules have their
        items visited, other items are left alone. */
    method VisitItem(it: Item) returns (r: Item)
      modifies this
      decreases ItemSize(it), 2
      ensures r == OptItem(it).value
      ensures Counters() == Add(old(Counters()), OptItem(it).removed)
    {
      match it
      case Fn(_, _, _, _) =>
        r := VisitItemFn(it);
      case Mod(attrs, vis, ident, content) =>
        r := it;
        if content.Inline? {
          var items := VisitItems(content.items);
          r := Mod(attrs, vis, ident, Inline(items));
        }
      case Verbatim(_, _) =>
        r := it;
    }

    method VisitItemFn(it: Item) returns (r: Item)
      requires it.Fn?
      modifies this
      decreases ItemSize(it), 1
      ensures r == OptItem(it).value
      ensures Counters() == Add(old(Counters()), OptItem(it).removed)
    {
      ghost var start := Counters();
      var attrs := RetainAttributes(it.attrs);
      ghost var mid := Counters();
      var b := VisitBlock(it.block);
      r := Fn(attrs, it.vis, it.ident, b);
      ghost var x, c := RetainAttrs(it.attrs), OptBlock(it.block);
      assert OptItem(it) == Out(r, Add(x.removed, c.removed));
      AddAssociative(start, x.removed, c.removed);
    }

    /** `visit_block_mut`: `RetainStatements`, then a visit of every
        statement that is left. */
    method VisitBlock(b: Block) returns (r: Block)
      modifies this
      decreases BlockSize(b), 2
      ensures r == OptBlock(b).value
      ensures Counters() == Add(old(Counters()), OptBlock(b).removed)
    {
      ghost var start := Counters();
      var kept := RetainStatements(b.stmts);
      ghost var dropped := Counts(0, 0, |b.stmts| - |kept|);
      assert StmtsSize(kept) < BlockSize(b) by {
        RetainStmtsSize(b.stmts, KeptStmt);
      }
      var ss := VisitStmts(kept);
      r := Block(ss);
      ghost var visited := OptStmts(kept);
      assert OptBlock(b) == Out(Block(visited.value), Add(dropped, visited.removed));
      AddAssociative(start, dropped, visited.removed);
    }

    method VisitStmts(xs: seq<Stmt>) returns (r: seq<Stmt>)
      modifies this
      decreases StmtsSize(xs), 1
      ensures r == OptStmts(xs).value
      ensures Counters() == Add(old(Counters()), OptStmts(xs).removed)
    {
      ghost var start := Counters();
      r := [];
      for i := 0 to |xs|
        invariant r == OptStmts(xs[..i]).value
        invariant Counters() == Add(start, OptStmts(xs[..i]).removed)
      {
        StmtInStmts(xs, i);
        var x := VisitStmt(xs[i]);
        ghost var done, step := OptStmts(xs[..i]), OptStmt(xs[i]);
        assert OptStmts(xs[..i + 1]) == Out(r + [x], Add(done.removed, step.removed)) by {
          assert xs[..i + 1][..i] == xs[..i];
        }
        AddAssociative(start, done.removed, step.removed);
        r := r + [x];
      }
      assert xs[..|xs|] == xs;
    }

    method VisitStmt(s: Stmt) returns (r: Stmt)
      modifies this
      decreases StmtSize(s), 0
      ensures r == OptStmt(s).value
      ensures Counters() == Add(old(Counters()), OptStmt(s).removed)
    {
      match s
      case Local(pat, init) =>
        r := s;
        if init.Some? {
          var x := VisitExpr(init.value);
          r := Local(pat, Some(x));
        }
      case ItemStmt(it) =>
        var x := VisitItem(it);
        r := ItemStmt(x);
      case ExprStmt(e) =>
        var x := VisitExpr(e);
        r := ExprStmt(x);
      case SemiStmt(e) =>
        var x := VisitExpr(e);
        r := SemiStmt(x);
    }

    method VisitExprs(xs: seq<Expr>) returns (r: seq<Expr>)
      modifies this
      decreases ExprsSize(xs), 3
      ensures r == OptExprs(xs).value
      ensures Counters() == Add(old(Counters()), OptExprs(xs).removed)
    {
      ghost var start := Counters();
      r := [];
      for i := 0 to |xs|
        invariant r == OptExprs(xs[..i]).value
        invariant Counters() == Add(start, OptExprs(xs[..i]).removed)
      {
        ExprInExprs(xs, i);
        var x := VisitExpr(xs[i]);
        ghost var done, step := OptExprs(xs[..i]), OptExpr(xs[i]);
        assert OptExprs(xs[..i + 1]) == Out(r + [x], Add(done.removed, step.removed)) by {
          assert xs[..i + 1][..i] == xs[..i];
        }
        AddAssociative(start, done.removed, step.removed);
        r := r + [x];
      }
      assert xs[..|xs|] == xs;
    }

    method VisitExpr(e: Expr) returns (r: Expr)
      modifies this
      decreases ExprSize(e), 2
      ensures r == OptExpr(e).value
      ensures Counters() == Add(old(Counters()), OptExpr(e).removed)
    {
      match e
      case Index(a, i) =>
        var x := VisitExpr(a);
        var y := VisitExpr(i);
        r := Index(x, y);
      case MethodCall(recv, name, args) =>
        var x := VisitExpr(recv);
        var ys := VisitExprs(args);
        r := MethodCall(x, name, ys);
      case Unary(op, x) =>
        var y := VisitExpr(x);
        r := Unary(op, y);
      case Unsafe(b) =>
        var c := VisitBlock(b);
        r := Unsafe(c);
      case BlockExpr(b) =>
        var c := VisitBlock(b);
        r := BlockExpr(c);
      case Assign(_, _) =>
        r := VisitExprAssign(e);
      case AssignOp(_, _, _) =>
        r := VisitExprAssignOp(e);
      case Macro(_, _) =>
        r := e;
      case Other(kind, cs) =>
        var ys := VisitExprs(cs);
        r := Other(kind, ys);
    }

    method VisitExprAssign(e: Expr) returns (r: Expr)
      requires e.Assign?
      modifies this
      ensures r == OptExpr(e).value
      ensures Counters() == Add(old(Counters()), OptExpr(e).removed)
    {
      var left := OptimizeLvalue(e.left, true);
      r := Assign(left, e.right);
    }

    method VisitExprAssignOp(e: Expr) returns (r: Expr)
      requires e.AssignOp?
      modifies this
      ensures r == OptExpr(e).value
      ensures Counters() == Add(old(Counters()), OptExpr(e).removed)
    {
      var left := OptimizeLvalue(e.left, true);
      r := AssignOp(left, e.binop, e.right);
    }
  }

  /** `optimize`: a fresh optimizer visits the file; its counters then hold
      what the whole pass removed. */
  method Optimize(f: File) returns (r: File, removed: Counts)
    ensures r == OptFile(f).value && removed == OptFile(f).removed
  {
    var opt := new Optimizer();
    r := opt.VisitFile(f);
    removed := opt.Counters();
  }
}

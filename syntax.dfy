/** The part of a parsed Rust file that the module expander and the optimizer
    look at: items, blocks, statements and expressions. Everything else a
    parser records (spans, signatures, patterns, literals) is kept as opaque
    text or left out. */
module Syntax {
  import opened Results

  /** A path such as `debug_assert` or `std::mem::swap`, as its segments. */
  datatype Path = Path(segments: seq<string>)

  /** `path.is_ident(name)`: a path of exactly one segment, `name`. */
  predicate IsIdent(p: Path, name: string) {
    p.segments == [name]
  }

  /** `#[path tokens]` */
  datatype Attribute = Attribute(path: Path, tokens: string)

  datatype Visibility = Public | Restricted(scope: Path) | Inherited

  datatype UnOp = Deref | Not | Neg

  /** The body of `mod name { ... }`, or none for `mod name;`, whose items
      live in a file of their own. */
  datatype ModBody = Inline(items: seq<Item>) | NoBody

  datatype Item =
    | Mod(attrs: seq<Attribute>, vis: Visibility, ident: string, content: ModBody)
    | Fn(attrs: seq<Attribute>, vis: Visibility, ident: string, block: Block)
    | Verbatim(attrs: seq<Attribute>, text: string)  // any other item; neither pass looks inside

  datatype Block = Block(stmts: seq<Stmt>)

  datatype Stmt =
    | Local(pat: string, init: Option<Expr>)  // `let pat = init;`
    | ItemStmt(item: Item)
    | ExprStmt(expr: Expr)                    // an expression without a semicolon
    | SemiStmt(expr: Expr)                    // an expression followed by `;`

  datatype Expr =
    | Index(base: Expr, index: Expr)
    | MethodCall(receiver: Expr, name: string, args: seq<Expr>)
    | Unary(op: UnOp, operand: Expr)
    | Unsafe(block: Block)
    | BlockExpr(block: Block)
    | Assign(left: Expr, right: Expr)
    | AssignOp(left: Expr, binop: string, right: Expr)
    | Macro(path: Path, tokens: string)
    | Other(kind: string, children: seq<Expr>)  // calls, operators, literals, paths, control flow, ...

  datatype File = File(attrs: seq<Attribute>, items: seq<Item>)

  // Sizes, used as termination measures by passes that rebuild a node from
  // pieces that are not its syntactic children.

  function ItemSize(it: Item): (n: nat)
    ensures n >= 1
  {
    match it
    case Mod(_, _, _, content) => 1 + (if content.Inline? then ItemsSize(content.items) else 0)
    case Fn(_, _, _, block) => 1 + BlockSize(block)
    case Verbatim(_, _) => 1
  }

  function ItemsSize(its: seq<Item>): nat {
    if its == [] then 0 else ItemsSize(its[..|its| - 1]) + ItemSize(its[|its| - 1])
  }

  function BlockSize(b: Block): (n: nat)
    ensures n >= 1
  {
    1 + StmtsSize(b.stmts)
  }

  function StmtSize(s: Stmt): (n: nat)
    ensures n >= 1
  {
    match s
    case Local(_, init) => 1 + (if init.Some? then ExprSize(init.value) else 0)
    case ItemStmt(it) => 1 + ItemSize(it)
    case ExprStmt(e) => 1 + ExprSize(e)
    case SemiStmt(e) => 1 + ExprSize(e)
  }

  function StmtsSize(ss: seq<Stmt>): nat {
    if ss == [] then 0 else StmtsSize(ss[..|ss| - 1]) + StmtSize(ss[|ss| - 1])
  }

  function ExprSize(e: Expr): (n: nat)
    ensures n >= 1
  {
    match e
    case Index(a, i) => 1 + ExprSize(a) + ExprSize(i)
    case MethodCall(r, _, args) => 1 + ExprSize(r) + ExprsSize(args)
    case Unary(_, x) => 1 + ExprSize(x)
    case Unsafe(b) => 1 + BlockSize(b)
    case BlockExpr(b) => 1 + BlockSize(b)
    case Assign(l, r) => 1 + ExprSize(l) + ExprSize(r)
    case AssignOp(l, _, r) => 1 + ExprSize(l) + ExprSize(r)
    case Macro(_, _) => 1
    case Other(_, cs) => 1 + ExprsSize(cs)
  }

  function ExprsSize(es: seq<Expr>): nat {
    if es == [] then 0 else ExprsSize(es[..|es| - 1]) + ExprSize(es[|es| - 1])
  }

  lemma {:induction false} ItemInItems(its: seq<Item>, i: nat)
    requires i < |its|
    ensures ItemSize(its[i]) <= ItemsSize(its)
    decreases |its|
  {
    if i < |its| - 1 {
      ItemInItems(its[..|its| - 1], i);
    }
  }

  lemma {:induction false} StmtInStmts(ss: seq<Stmt>, i: nat)
    requires i < |ss|
    ensures StmtSize(ss[i]) <= StmtsSize(ss)
    decreases |ss|
  {
    if i < |ss| - 1 {
      StmtInStmts(ss[..|ss| - 1], i);
    }
  }

  lemma {:induction false} ExprInExprs(es: seq<Expr>, i: nat)
    requires i < |es|
    ensures ExprSize(es[i]) <= ExprsSize(es)
    decreases |es|
  {
    if i < |es| - 1 {
      ExprInExprs(es[..|es| - 1], i);
    }
  }
}

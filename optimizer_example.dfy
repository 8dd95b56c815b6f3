/** The optimizer on the statement shapes of `main` in
    tests/input/optimizer_indexing: indexed assignment targets become
    unchecked, the indexing in a `let` initialiser stays checked, and
    `assert_eq!` stays while `debug_assert!` goes. */
module OptimizerExample {
  import opened Results
  import opened Syntax
  import opened OptimizerPass

  /** A plain name or literal, such as `a`, `index` or `3`. */
  function Name(text: string): Expr {
    Other(text, [])
  }

  function MacroStmt(name: string, tokens: string): Stmt {
    SemiStmt(Macro(Path([name]), tokens))
  }

  function GetUncheckedMut(receiver: Expr, index: Expr): Expr {
    MethodCall(receiver, "get_unchecked_mut", [index])
  }

  /** `*unsafe { call }` */
  function Unchecked(call: Expr): Expr {
    Unary(Deref, Unsafe(Block([ExprStmt(call)])))
  }

  /** `a[i] = rhs;` becomes `*unsafe { a.get_unchecked_mut(i) } = rhs;`, one
      bound check removed, `rhs` untouched. */
  lemma IndexedAssignment(a: Expr, i: Expr, rhs: Expr)
    requires !a.Index?
    ensures OptStmt(SemiStmt(Assign(Index(a, i), rhs)))
         == Out(SemiStmt(Assign(Unchecked(GetUncheckedMut(a, i)), rhs)), Counts(0, 1, 0))
  {
  }

  /** `a[i][j] = rhs;` becomes
      `*unsafe { a.get_unchecked_mut(i).get_unchecked_mut(j) } = rhs;`, two
      bound checks removed. */
  lemma NestedIndexedAssignment(a: Expr, i: Expr, j: Expr, rhs: Expr)
    requires !a.Index?
    ensures OptStmt(SemiStmt(Assign(Index(Index(a, i), j), rhs)))
         == Out(SemiStmt(Assign(Unchecked(GetUncheckedMut(GetUncheckedMut(a, i), j)), rhs)), Counts(0, 2, 0))
  {
    assert OptLvalue(Index(a, i), false) == Out(GetUncheckedMut(a, i), Counts(0, 1, 0));
  }

  /** The same for a compound assignment `a[i][j] op= rhs;`. */
  lemma NestedIndexedCompoundAssignment(a: Expr, i: Expr, j: Expr, op: string, rhs: Expr)
    requires !a.Index?
    ensures OptStmt(SemiStmt(AssignOp(Index(Index(a, i), j), op, rhs)))
         == Out(SemiStmt(AssignOp(Unchecked(GetUncheckedMut(GetUncheckedMut(a, i), j)), op, rhs)), Counts(0, 2, 0))
  {
    assert OptLvalue(Index(a, i), false) == Out(GetUncheckedMut(a, i), Counts(0, 1, 0));
  }

  /** `let x = a[i][j];` with plain names keeps its checked indexing. */
  lemma IndexedReadKept(x: string, a: string, i: string, j: string)
    ensures var s := Local(x, Some(Index(Index(Name(a), Name(i)), Name(j))));
      OptStmt(s) == Out(s, Zero())
  {
    forall name | name in [a, i, j]
      ensures OptExpr(Name(name)) == Out(Name(name), Zero())
    {
      assert OptExprs([]) == Out([], Zero());
    }
    var inner := Index(Name(a), Name(i));
    assert OptExpr(inner) == Out(inner, Zero());
    assert OptExpr(Index(inner, Name(j))) == Out(Index(inner, Name(j)), Zero());
  }

  /** An `assert_eq!` statement stays; a `debug_assert!` statement goes and is
      counted. */
  lemma AssertEqKeptDebugAssertDropped(tokens: string)
    ensures OptBlock(Block([MacroStmt("debug_assert", tokens), MacroStmt("assert_eq", tokens)]))
         == Out(Block([MacroStmt("assert_eq", tokens)]), Counts(0, 0, 1))
  {
    var dropped, kept := MacroStmt("debug_assert", tokens), MacroStmt("assert_eq", tokens);
    assert "debug_assert" != "assert_eq";
    assert FilteredOut(dropped) && !FilteredOut(kept);
    assert [dropped, kept][..1] == [dropped];
    assert Retain([dropped, kept], KeptStmt) == [kept];
    assert OptStmt(kept) == Out(kept, Zero());
    assert OptStmts([kept]) == Out([kept], Zero()) by {
      assert [kept][..0] == [];
    }
  }
}

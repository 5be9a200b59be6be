/** When the optimizer divides by zero itself: exactly when a statement it visits contains a division
    or remainder whose operands fold to integers, the right one to zero. */
module ZeroDivision {
  import opened Lists
  import opened Values
  import opened Ir
  import opened Optimizer

  // ----- expressions -----

  /** The literal an expression folds to. */
  function Constant(e: Expr): Option<Literal> {
    match e
    case Lit(l) => Some(l)
    case Binary(op, l, r) =>
      var a, b := Constant(l), Constant(r);
      if a.None? || b.None? then None else FoldedLiteral(FoldBinary(op, a.value, b.value))
    case Short(isAnd, l, r) =>
      var a, b := Constant(l), Constant(r);
      if a.None? || b.None? || !a.value.BoolLiteral? || !b.value.BoolLiteral? then None
      else Some(BoolLiteral(if isAnd then a.value.b && b.value.b else a.value.b || b.value.b))
    case Unary(isNot, x) =>
      var a := Constant(x);
      if a.None? then None else FoldedLiteral(FoldUnary(isNot, a.value))
    case _ => None
  }

  function FoldedLiteral(f: Folding): Option<Literal> {
    if f.Folded? then Some(f.lit) else None
  }

  predicate DividesByZero(op: BinOp, l: Expr, r: Expr) {
    && (op.Div? || op.Mod?)
    && Constant(l).Some? && Constant(l).value.IntLiteral? && Constant(r) == Some(IntLiteral(0))
  }

  /** Some division or remainder in the expression has constant operands and a zero divisor. */
  predicate ExprDivides(e: Expr) {
    match e
    case ListLit(es) => ExprsDivide(es)
    case Binary(op, l, r) => ExprDivides(l) || ExprDivides(r) || DividesByZero(op, l, r)
    case Short(_, l, r) => ExprDivides(l) || ExprDivides(r)
    case Unary(_, x) => ExprDivides(x)
    case Ternary(c, t, f) => ExprDivides(c) || ExprDivides(t) || ExprDivides(f)
    case Set(_, x) => ExprDivides(x)
    case SetOp(_, _, x) => ExprDivides(x)
    case _ => false
  }

  predicate ExprsDivide(es: List<Expr>) {
    match es
    case Empty => false
    case Cons(e, rest) => ExprDivides(e) || ExprsDivide(rest)
  }

  // ----- statements -----

  /** The same for a block. What a literal condition rules out is not visited, nor, where `cut` says so,
      what follows a break or continue. */
  predicate BlockDivides(b: List<Stmt>, cut: bool) {
    match b
    case Empty => false
    case Cons(s, rest) => StmtDivides(s) || (!(cut && (s.Break? || s.Continue?)) && BlockDivides(rest, cut))
  }

  predicate StmtDivides(s: Stmt) {
    match s
    case ExprStmt(e) => ExprDivides(e)
    case SilentStmt(e) => ExprDivides(e)
    case If(c, body, orelse) =>
      if IsBool(c) then
        if c.lit.b then BlockDivides(body, true) else orelse.Some? && BlockDivides(orelse.value, false)
      else
        || ExprDivides(c) || BlockDivides(body, true)
        || (orelse.Some? && BlockDivides(orelse.value, true))
    case Switch(c, cs) => ExprDivides(c) || CasesDivide(cs)
    case While(c, body) => if IsBool(c) && !c.lit.b then false else ExprDivides(c) || BlockDivides(body, true)
    case DoWhile(body, c) => BlockDivides(body, true) || ExprDivides(c)
    case For(_, _, coll, body) => ExprDivides(coll) || BlockDivides(body, true)
    case Assert(c, msg, _) => ExprDivides(c) || (msg.Some? && ExprDivides(msg.value))
    case Raise(e) => ExprDivides(e)
    case _ => false
  }

  predicate CasesDivide(cs: List<Case>) {
    match cs
    case Empty => false
    case Cons(k, rest) => BlockDivides(k.body, true) || (k.Case? && ExprsDivide(k.values)) || CasesDivide(rest)
  }

  // ----- exactly then -----

  lemma {:induction false} UndefinedExactly(op: BinOp, l: Literal, r: Literal)
    ensures FoldBinary(op, l, r).Undefined? <==> (op.Div? || op.Mod?) && l.IntLiteral? && r == IntLiteral(0)
  {
    hide TruncDiv, TruncMod, Bitwise, StrLess, Contains, StrIndex, StrOob, Repeat;
  }

  /** Folding is undefined exactly for these expressions, and otherwise makes constants literals. */
  lemma {:induction false} FoldsExactly(e: Expr)
    ensures OptExpr(e).None? <==> ExprDivides(e)
    ensures OptExpr(e).Some? ==> (OptExpr(e).value.Lit? <==> Constant(e).Some?)
    ensures OptExpr(e).Some? && Constant(e).Some? ==> OptExpr(e).value == Lit(Constant(e).value)
    decreases e
  {
    hide FoldBinary, FoldUnary;
    match e
    case ListLit(es) => FoldsAllExactly(es);
    case Binary(op, l, r) =>
      FoldsExactly(l);
      FoldsExactly(r);
      if Constant(l).Some? && Constant(r).Some? {
        UndefinedExactly(op, Constant(l).value, Constant(r).value);
      }
    case Short(_, l, r) =>
      FoldsExactly(l);
      FoldsExactly(r);
    case Unary(_, x) => FoldsExactly(x);
    case Ternary(c, t, f) =>
      FoldsExactly(c);
      FoldsExactly(t);
      FoldsExactly(f);
    case Set(_, x) => FoldsExactly(x);
    case SetOp(_, _, x) => FoldsExactly(x);
    case _ =>
  }

  lemma {:induction false} FoldsAllExactly(es: List<Expr>)
    ensures OptExprs(es).None? <==> ExprsDivide(es)
    decreases es
  {
    if es.Cons? {
      FoldsExactly(es.head);
      FoldsAllExactly(es.tail);
    }
  }

  lemma {:induction false} TruncateCuts(b: List<Stmt>)
    ensures BlockDivides(Truncate(b), false) <==> BlockDivides(b, true)
    decreases b
  {
    hide StmtDivides;
    if b.Cons? {
      TruncateCuts(b.tail);
    }
  }

  /** The passes are undefined on a block exactly when it divides by zero where they go. */
  lemma {:induction false} OptimizesExactly(b: List<Stmt>)
    ensures OptBlock(b).None? <==> BlockDivides(b, false)
    decreases BlockSize(b), 0
  {
    hide OptStmt, StmtDivides;
    if b.Cons? {
      StmtOptimizes(b.head);
      OptimizesExactly(b.tail);
    }
  }

  lemma {:induction false} BodyOptimizes(b: List<Stmt>)
    ensures OptBlock(Truncate(b)).None? <==> BlockDivides(b, true)
    decreases BlockSize(b), 1
  {
    OptimizesExactly(Truncate(b));
    TruncateCuts(b);
  }

  lemma {:induction false} StmtOptimizes(s: Stmt)
    ensures OptStmt(s).None? <==> StmtDivides(s)
    decreases StmtSize(s), 4
  {
    hide OptExpr, OptBlock, OptCases, Truncate, ExprDivides, BlockDivides, CasesDivide;
    match s
    case ExprStmt(e) => FoldsExactly(e);
    case SilentStmt(e) => SilentOptimizes(e);
    case If(c, body, orelse) => IfOptimizes(s);
    case Switch(c, cs) =>
      FoldsExactly(c);
      CasesOptimize(cs);
    case While(c, body) =>
      FoldsExactly(c);
      BodyOptimizes(body);
    case DoWhile(body, c) =>
      FoldsExactly(c);
      BodyOptimizes(body);
    case For(_, _, coll, body) =>
      FoldsExactly(coll);
      BodyOptimizes(body);
    case Assert(c, msg, _) =>
      FoldsExactly(c);
      if msg.Some? {
        FoldsExactly(msg.value);
      }
    case Raise(e) => FoldsExactly(e);
    case _ =>
  }

  lemma {:induction false} SilentOptimizes(e: Expr)
    ensures OptStmt(SilentStmt(e)).None? <==> StmtDivides(SilentStmt(e))
  {
    FoldsExactly(e);
  }

  lemma {:induction false} IfOptimizes(s: Stmt)
    requires s.If?
    ensures OptStmt(s).None? <==> StmtDivides(s)
    decreases StmtSize(s), 3
  {
    hide OptExpr, OptBlock, Truncate, ExprDivides, BlockDivides;
    FoldsExactly(s.cond);
    BodyOptimizes(s.body);
    LiteralPlain(s.cond);
    LiteralPlain(Lit(BoolLiteral(true)));
    FoldsExactly(Lit(BoolLiteral(true)));
    if s.orelse.Some? {
      BodyOptimizes(s.orelse.value);
      OptimizesExactly(s.orelse.value);
    }
  }

  lemma {:induction false} LiteralPlain(e: Expr)
    ensures e.Lit? ==> !ExprDivides(e)
  {}

  lemma {:induction false} CasesOptimize(cs: List<Case>)
    ensures OptCases(cs).None? <==> CasesDivide(cs)
    decreases CasesSize(cs), 2
  {
    hide OptBlock, OptExprs, Truncate, ExprsDivide, BlockDivides;
    if cs.Cons? {
      BodyOptimizes(cs.head.body);
      if cs.head.Case? {
        FoldsAllExactly(cs.head.values);
      }
      CasesOptimize(cs.tail);
    }
  }

  // ----- the optimizer on the programs it is defined for -----

  function Optimized(b: List<Stmt>): List<Stmt>
    requires !BlockDivides(b, false)
  {
    OptimizesExactly(b);
    OptBlock(b).value
  }
}

/** What the optimizing passes leave: nothing they could still fold or remove. The passes run over
    every node twice, before and after its parts (midend/ir_visitor.cpp), and that is enough: an
    optimized program is a fixed point, and every fixed point has this form. */
module OptimizedForm {
  import opened Ir
  import opened Lists
  import opened Optimizer
  import opened Values

  // ----- what is left of expressions -----

  /** The operators folded over two literals of these kinds (midend/transforms/constant_folding.cpp). */
  function FoldedOps(l: Literal, r: Literal): set<BinOp> {
    match (l, r)
    case (IntLiteral(_), IntLiteral(_)) => {Concat, Add, Sub, Mul, Div, Mod, And, Or, Xor, Bt, Lt, Beq, Leq, Eq, Neq}
    case (BoolLiteral(_), BoolLiteral(_)) => {Concat, And, Or, Xor, Eq, Neq}
    case (StringLiteral(_), StringLiteral(_)) => {Concat, Bt, Lt, Beq, Leq, Eq, Neq, In}
    case (StringLiteral(s), IntLiteral(i)) =>
      {Concat, Mul, Eq, Neq} + (if i == 0 || -|s| <= i < |s| then {Subsc} else {})
    case (NilLiteral, NilLiteral) => {Concat}
    case _ => {Concat, Eq, Neq}
  }

  lemma {:induction false} KeptExactly(op: BinOp, l: Literal, r: Literal)
    ensures FoldBinary(op, l, r) != Keep <==> op in FoldedOps(l, r)
  {
    hide TruncDiv, TruncMod, Bitwise, Repeat, StrLess, Contains, LiteralText;
  }

  predicate FoldedExpr(e: Expr) {
    match e
    case ListLit(es) => FoldedExprs(es)
    case Binary(op, l, r) => FoldedExpr(l) && FoldedExpr(r) && !(l.Lit? && r.Lit? && op in FoldedOps(l.lit, r.lit))
    case Short(_, l, r) =>
      FoldedExpr(l) && FoldedExpr(r) && !(l.Lit? && l.lit.BoolLiteral? && r.Lit? && r.lit.BoolLiteral?)
    case Unary(isNot, x) => FoldedExpr(x) && !(x.Lit? && (if isNot then x.lit.BoolLiteral? else x.lit.IntLiteral?))
    case Ternary(c, t, f) => FoldedExpr(c) && FoldedExpr(t) && FoldedExpr(f)
    case Set(_, x) => FoldedExpr(x)
    case SetOp(_, _, x) => FoldedExpr(x)
    case _ => true
  }

  predicate FoldedExprs(es: List<Expr>) {
    match es
    case Empty => true
    case Cons(e, rest) => FoldedExpr(e) && FoldedExprs(rest)
  }

  // ----- what is left of statements -----

  predicate EndsAtBreak(b: List<Stmt>) {
    match b
    case Empty => true
    case Cons(s, rest) => (s.Break? || s.Continue? ==> rest.Empty?) && EndsAtBreak(rest)
  }

  predicate Clean(s: Stmt)
    decreases StmtSize(s), 1
  {
    match s
    case ExprStmt(e) => FoldedExpr(e)
    case SilentStmt(e) => FoldedExpr(e) && !e.Lit?
    case If(c, body, orelse) =>
      && FoldedExpr(c) && c != Lit(BoolLiteral(false)) && (c == Lit(BoolLiteral(true)) ==> orelse.None?)
      && CleanBody(body) && (orelse.Some? ==> CleanBody(orelse.value))
    case Switch(c, cs) => FoldedExpr(c) && CleanCases(cs)
    case While(c, body) => FoldedExpr(c) && c != Lit(BoolLiteral(false)) && CleanBody(body)
    case DoWhile(body, c) => CleanBody(body) && FoldedExpr(c)
    case For(_, _, coll, body) => FoldedExpr(coll) && CleanBody(body)
    case Assert(c, msg, _) => FoldedExpr(c) && (msg.Some? ==> FoldedExpr(msg.value))
    case Raise(e) => FoldedExpr(e)
    case _ => true
  }

  predicate CleanBlock(b: List<Stmt>)
    decreases BlockSize(b), 0
  {
    match b
    case Empty => true
    case Cons(s, rest) => Clean(s) && CleanBlock(rest)
  }

  predicate CleanBody(b: List<Stmt>)
    decreases BlockSize(b), 1
  {
    CleanBlock(b) && EndsAtBreak(b)
  }

  predicate CleanCases(cs: List<Case>)
    decreases CasesSize(cs), 0
  {
    match cs
    case Empty => true
    case Cons(k, rest) => CleanBody(k.body) && (k.Case? ==> FoldedExprs(k.values)) && CleanCases(rest)
  }

  // ----- the passes leave this form -----

  lemma {:induction false} OptExprFolds(e: Expr)
    ensures OptExpr(e).Some? ==> FoldedExpr(OptExpr(e).value)
    decreases e
  {
    hide FoldBinary;
    match e
    case ListLit(es) => OptExprsFold(es);
    case Binary(op, l, r) =>
      OptExprFolds(l);
      OptExprFolds(r);
      if OptExpr(l).Some? && OptExpr(r).Some? && OptExpr(l).value.Lit? && OptExpr(r).value.Lit? {
        KeptExactly(op, OptExpr(l).value.lit, OptExpr(r).value.lit);
      }
    case Short(_, l, r) => OptExprFolds(l); OptExprFolds(r);
    case Unary(_, x) => OptExprFolds(x);
    case Ternary(c, t, f) => OptExprFolds(c); OptExprFolds(t); OptExprFolds(f);
    case Set(_, x) => OptExprFolds(x);
    case SetOp(_, _, x) => OptExprFolds(x);
    case _ =>
  }

  lemma {:induction false} OptExprsFold(es: List<Expr>)
    ensures OptExprs(es).Some? ==> FoldedExprs(OptExprs(es).value)
    decreases es
  {
    if es.Cons? {
      OptExprFolds(es.head);
      OptExprsFold(es.tail);
    }
  }

  lemma {:induction false} TruncateEnds(b: List<Stmt>)
    ensures EndsAtBreak(Truncate(b))
    ensures CleanBlock(b) ==> CleanBlock(Truncate(b))
    ensures EndsAtBreak(b) ==> Truncate(b) == b
    decreases b
  {
    if b.Cons? { TruncateEnds(b.tail); }
  }

  lemma AppendOne(s: Stmt, rest: List<Stmt>)
    ensures Append(Cons(s, Empty), rest) == Cons(s, rest)
  {}

  lemma {:induction false} AppendClean(x: List<Stmt>, y: List<Stmt>)
    requires CleanBlock(x) && CleanBlock(y)
    ensures CleanBlock(Append(x, y))
    decreases x
  {
    if x.Cons? { AppendClean(x.tail, y); }
  }

  /** A statement after its parts are done: what the second run of the passes starts from. */
  predicate PartsClean(s: Stmt) {
    match s
    case If(c, body, orelse) => FoldedExpr(c) && CleanBlock(body) && (orelse.Some? ==> CleanBody(orelse.value))
    case While(c, body) => FoldedExpr(c) && CleanBlock(body)
    case DoWhile(body, c) => FoldedExpr(c) && CleanBlock(body)
    case For(_, _, coll, body) => FoldedExpr(coll) && CleanBlock(body)
    case SilentStmt(e) => FoldedExpr(e)
    case _ => Clean(s)
  }

  lemma {:induction false} PassesClean(s: Stmt)
    requires PartsClean(s)
    ensures Passes(s).Some? ==> Clean(Passes(s).value)
  {
    match s
    case If(_, body, _) => TruncateEnds(body);
    case While(_, body) => TruncateEnds(body);
    case DoWhile(body, _) => TruncateEnds(body);
    case For(_, _, _, body) => TruncateEnds(body);
    case _ =>
  }

  lemma {:induction false} OptStmtClean(s: Stmt)
    ensures OptStmt(s).Some? ==> CleanBlock(OptStmt(s).value)
    decreases StmtSize(s), 1
  {
    if Passes(s).Some? {
      var s1 := Passes(s).value;
      OptPartsClean(s1);
      if OptParts(s1).Some? {
        var s2 := OptParts(s1).value;
        PassesClean(s2);
        if s2.For? { ForEnds(s, s1); }
      }
    }
  }

  lemma {:induction false} OptPartsClean(s: Stmt)
    ensures OptParts(s).Some? ==> PartsClean(OptParts(s).value)
    decreases StmtSize(s), 0
  {
    match s
    case ExprStmt(e) => OptExprFolds(e);
    case SilentStmt(e) => OptExprFolds(e);
    case If(c, body, orelse) =>
      OptExprFolds(c);
      OptBlockClean(body);
      if orelse.Some? { OptBodyClean(orelse.value); }
    case Switch(c, cs) => OptExprFolds(c); OptCasesClean(cs);
    case While(c, body) => OptExprFolds(c); OptBlockClean(body);
    case DoWhile(body, c) => OptExprFolds(c); OptBlockClean(body);
    case For(_, _, coll, body) => OptExprFolds(coll); OptBlockClean(body);
    case Assert(c, msg, _) => OptExprFolds(c); if msg.Some? { OptExprFolds(msg.value); }
    case Raise(e) => OptExprFolds(e);
    case _ =>
  }

  /** `else` and `case` bodies are cut off before and after. */
  lemma {:induction false} OptBodyClean(b: List<Stmt>)
    ensures OptBlock(Truncate(b)).Some? ==> CleanBody(Truncate(OptBlock(Truncate(b)).value))
    decreases BlockSize(b), 1
  {
    OptBlockClean(Truncate(b));
    if OptBlock(Truncate(b)).Some? { TruncateEnds(OptBlock(Truncate(b)).value); }
  }

  /** No optimized block has anything left that the passes would fold or remove. */
  lemma {:induction false} OptBlockClean(b: List<Stmt>)
    ensures OptBlock(b).Some? ==> CleanBlock(OptBlock(b).value)
    decreases BlockSize(b), 0
  {
    if b.Cons? {
      OptStmtClean(b.head);
      OptBlockClean(b.tail);
      if OptBlock(b).Some? { AppendClean(OptStmt(b.head).value, OptBlock(b.tail).value); }
    }
  }

  lemma {:induction false} OptCasesClean(cs: List<Case>)
    ensures OptCases(cs).Some? ==> CleanCases(OptCases(cs).value)
    decreases CasesSize(cs), 0
  {
    if cs.Cons? {
      OptBodyClean(cs.head.body);
      if cs.head.Case? { OptExprsFold(cs.head.values); }
      OptCasesClean(cs.tail);
    }
  }

  // The passes do not run again behind a `for`; its body was cut off before and stays so.

  lemma ForEnds(s: Stmt, s1: Stmt)
    requires Passes(s) == Some(s1) && OptParts(s1).Some? && OptParts(s1).value.For?
    ensures EndsAtBreak(OptParts(s1).value.body)
  {
    TruncateEnds(s.body);
    OptKeepsEnd(s1.body);
  }

  lemma {:induction false} OptKeepsEnd(b: List<Stmt>)
    requires EndsAtBreak(b) && OptBlock(b).Some?
    ensures EndsAtBreak(OptBlock(b).value)
    decreases b
  {
    if b.Cons? {
      OptKeepsEnd(b.tail);
      OneOrNone(b.head);
      if OptStmt(b.head).value.Cons? { AppendOne(OptStmt(b.head).value.head, OptBlock(b.tail).value); }
    }
  }

  /** A statement becomes nothing or one statement, a break or continue only if it was one. */
  lemma OneOrNone(s: Stmt)
    requires OptStmt(s).Some?
    ensures var t := OptStmt(s).value;
            t.Cons? ==> t.tail.Empty? && (t.head.Break? || t.head.Continue? ==> s == t.head)
  {}

  // ----- this form is left as it is -----

  lemma {:induction false} FoldedStays(e: Expr)
    requires FoldedExpr(e)
    ensures OptExpr(e) == Some(e)
    decreases e
  {
    hide FoldBinary;
    match e
    case ListLit(es) => FoldedAllStay(es);
    case Binary(op, l, r) =>
      FoldedStays(l);
      FoldedStays(r);
      if l.Lit? && r.Lit? { KeptExactly(op, l.lit, r.lit); }
    case Short(_, l, r) => FoldedStays(l); FoldedStays(r);
    case Unary(_, x) => FoldedStays(x);
    case Ternary(c, t, f) => FoldedStays(c); FoldedStays(t); FoldedStays(f);
    case Set(_, x) => FoldedStays(x);
    case SetOp(_, _, x) => FoldedStays(x);
    case _ =>
  }

  lemma {:induction false} FoldedAllStay(es: List<Expr>)
    requires FoldedExprs(es)
    ensures OptExprs(es) == Some(es)
    decreases es
  {
    if es.Cons? {
      FoldedStays(es.head);
      FoldedAllStay(es.tail);
    }
  }

  lemma {:induction false} CleanStays(s: Stmt)
    requires Clean(s)
    ensures OptStmt(s) == Some(Cons(s, Empty))
    decreases StmtSize(s), 1
  {
    PassesStay(s);
    PartsStay(s);
  }

  lemma {:induction false} PassesStay(s: Stmt)
    requires Clean(s)
    ensures Passes(s) == Some(s)
  {
    match s
    case If(_, body, _) => TruncateEnds(body);
    case While(_, body) => TruncateEnds(body);
    case DoWhile(body, _) => TruncateEnds(body);
    case For(_, _, _, body) => TruncateEnds(body);
    case _ =>
  }

  lemma {:induction false} PartsStay(s: Stmt)
    requires Clean(s)
    ensures OptParts(s) == Some(s)
    decreases StmtSize(s), 0
  {
    match s
    case ExprStmt(e) => FoldedStays(e);
    case SilentStmt(e) => FoldedStays(e);
    case If(c, body, orelse) =>
      FoldedStays(c);
      CleanBlockStays(body);
      if orelse.Some? { TruncateEnds(orelse.value); CleanBlockStays(orelse.value); }
    case Switch(c, cs) => FoldedStays(c); CasesStay(cs);
    case While(c, body) => FoldedStays(c); CleanBlockStays(body);
    case DoWhile(body, c) => FoldedStays(c); CleanBlockStays(body);
    case For(_, _, coll, body) => FoldedStays(coll); CleanBlockStays(body);
    case Assert(c, msg, _) => FoldedStays(c); if msg.Some? { FoldedStays(msg.value); }
    case Raise(e) => FoldedStays(e);
    case _ =>
  }

  lemma {:induction false} CleanBlockStays(b: List<Stmt>)
    requires CleanBlock(b)
    ensures OptBlock(b) == Some(b)
    decreases BlockSize(b), 0
  {
    if b.Cons? {
      CleanStays(b.head);
      CleanBlockStays(b.tail);
      AppendOne(b.head, b.tail);
    }
  }

  lemma {:induction false} CasesStay(cs: List<Case>)
    requires CleanCases(cs)
    ensures OptCases(cs) == Some(cs)
    decreases CasesSize(cs), 0
  {
    if cs.Cons? {
      TruncateEnds(cs.head.body);
      CleanBlockStays(cs.head.body);
      if cs.head.Case? { FoldedAllStay(cs.head.values); }
      CasesStay(cs.tail);
    }
  }

  /** The passes leave a block as it is exactly when it has the form above. */
  lemma FixedExactly(b: List<Stmt>)
    ensures OptBlock(b) == Some(b) <==> CleanBlock(b)
  {
    OptBlockClean(b);
    if CleanBlock(b) { CleanBlockStays(b); }
  }

  /** Optimizing a second time changes nothing. */
  lemma OptimizedOnce(b: List<Stmt>)
    ensures OptBlock(b).Some? ==> OptBlock(OptBlock(b).value) == OptBlock(b)
  {
    OptBlockClean(b);
    if OptBlock(b).Some? { CleanBlockStays(OptBlock(b).value); }
  }
}

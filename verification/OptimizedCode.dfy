/** The optimizer in front of the generator: the code of an optimized module does what the module
    meant before optimization. */
module OptimizedCode {
  import opened Lists
  import opened Values
  import opened Ir
  import opened Optimizer
  import opened ZeroDivision
  import opened BreakResolution
  import opened CompilerCorrect
  import opened Machine

  // ----- optimized programs are programs -----

  /** `b'` has no loops that `b` has not, and no loose break if `b` has none. */
  ghost predicate Inside(b: List<Stmt>, b': List<Stmt>) {
    && BlockSites(b') <= BlockSites(b)
    && (DistinctBlock(b) ==> DistinctBlock(b'))
    && (LooseBlock(b') ==> LooseBlock(b))
  }

  ghost predicate StmtInside(s: Stmt, s': Stmt) {
    && StmtSites(s') <= StmtSites(s)
    && (DistinctStmt(s) ==> DistinctStmt(s'))
    && (LooseStmt(s') ==> LooseStmt(s))
  }

  ghost predicate CasesInside(cs: List<Case>, cs': List<Case>) {
    && CaseSites(cs') <= CaseSites(cs)
    && (DistinctCases(cs) ==> DistinctCases(cs'))
    && (LooseCases(cs') ==> LooseCases(cs))
  }

  lemma InsideTrans(x: List<Stmt>, y: List<Stmt>, z: List<Stmt>)
    requires Inside(x, y) && Inside(y, z)
    ensures Inside(x, z)
  {}

  lemma {:induction false} TruncateInside(b: List<Stmt>)
    ensures Inside(b, Truncate(b))
    decreases b
  {
    if b.Cons? && !b.head.Break? && !b.head.Continue? {
      TruncateInside(b.tail);
    }
  }

  lemma PassesInside(s: Stmt)
    ensures Passes(s).Some? ==> StmtInside(s, Passes(s).value)
  {
    match s
    case If(_, body, _) => TruncateInside(body);
    case While(_, body) => TruncateInside(body);
    case DoWhile(body, _) => TruncateInside(body);
    case For(_, _, _, body) => TruncateInside(body);
    case _ =>
  }

  lemma OptBodyInside(b: List<Stmt>)
    requires OptBlock(Truncate(b)).Some?
    ensures Inside(b, Truncate(OptBlock(Truncate(b)).value))
    decreases BlockSize(b), 2
  {
    hide Inside;
    var u := OptBlock(Truncate(b)).value;
    TruncateInside(b);
    OptBlockInside(Truncate(b));
    TruncateInside(u);
    InsideTrans(b, Truncate(b), u);
    InsideTrans(b, u, Truncate(u));
  }

  lemma OptPartsInside(s: Stmt)
    requires OptParts(s).Some?
    ensures StmtInside(s, OptParts(s).value)
    decreases StmtSize(s), 3
  {
    hide OptExpr, OptBlock, OptCases, Truncate;
    match s
    case If(c, body, orelse) =>
      OptBlockInside(body);
      if orelse.Some? {
        OptBodyInside(orelse.value);
      }
    case Switch(c, cs) => OptCasesInside(cs);
    case While(c, body) => OptBlockInside(body);
    case DoWhile(body, c) => OptBlockInside(body);
    case For(_, _, _, body) => OptBlockInside(body);
    case _ =>
  }

  lemma {:induction false} OptCasesInside(cs: List<Case>)
    requires OptCases(cs).Some?
    ensures CasesInside(cs, OptCases(cs).value)
    decreases CasesSize(cs), 3
  {
    if cs.Cons? {
      OptBodyInside(cs.head.body);
      OptCasesInside(cs.tail);
    }
  }

  lemma OptStmtInside(s: Stmt)
    requires OptStmt(s).Some?
    ensures Inside(Cons(s, Empty), OptStmt(s).value)
    decreases StmtSize(s), 4
  {
    hide OptParts, Passes;
    PassesInside(s);
    if Passes(s).Some? {
      var s1 := Passes(s).value;
      OptPartsInside(s1);
      PassesInside(OptParts(s1).value);
    }
  }

  lemma {:induction false} AppendShape(x: List<Stmt>, y: List<Stmt>)
    ensures BlockSites(Append(x, y)) == BlockSites(x) + BlockSites(y)
    ensures DistinctBlock(x) && DistinctBlock(y) && BlockSites(x) !! BlockSites(y) ==> DistinctBlock(Append(x, y))
    ensures LooseBlock(Append(x, y)) <==> LooseBlock(x) || LooseBlock(y)
    decreases x
  {
    hide StmtSites, DistinctStmt, LooseStmt;
    if x.Cons? {
      AppendShape(x.tail, y);
    }
  }

  lemma SingleShape(s: Stmt)
    ensures var b := Cons(s, Empty);
            BlockSites(b) == StmtSites(s) && DistinctBlock(b) == DistinctStmt(s) && LooseBlock(b) == LooseStmt(s)
  {}

  lemma {:induction false} OptBlockInside(b: List<Stmt>)
    requires OptBlock(b).Some?
    ensures Inside(b, OptBlock(b).value)
    decreases BlockSize(b), 0
  {
    if b.Cons? {
      hide OptStmt, StmtSites, DistinctStmt, LooseStmt;
      SingleShape(b.head);
      OptStmtInside(b.head);
      OptBlockInside(b.tail);
      AppendShape(OptStmt(b.head).value, OptBlock(b.tail).value);
    }
  }

  // ----- the optimizing compiler -----

  lemma {:induction false} OptimizedIs(b: List<Stmt>)
    requires !BlockDivides(b, false)
    ensures OptBlock(b) == Some(Optimized(b))
  {
    hide OptBlock, BlockDivides;
    OptimizesExactly(b);
  }

  lemma {:induction false} OptimizedProgram(b: List<Stmt>)
    requires Program(b) && !BlockDivides(b, false)
    ensures Program(Optimized(b))
  {
    hide OptBlock, Optimized, BlockDivides, LooseBlock, DistinctBlock;
    OptimizedIs(b);
    OptBlockInside(b);
  }

  lemma {:induction false} OptimizedStarts(p: Place, b: List<Stmt>, m: VM, st: State)
    requires Starts(p, b, m, st) && !BlockDivides(b, false)
    ensures Starts(p, Optimized(b), m, st)
  {
    hide OptBlock, Optimized, BlockDivides, Ready;
    OptimizedIs(b);
    OptBlockInside(b);
    var sites: set<nat> :| Ready(m, st, p.r, sites) && sites !! BlockSites(b);
    assert sites !! BlockSites(Optimized(b));
  }

  /** Where the passes are defined, the code of the optimized program halts only as the original
      program completes. */
  lemma {:induction false} OptimizedHalts(p: Place, b: List<Stmt>, m: VM, st: State, m': VM)
    requires Program(b) && Starts(p, b, m, st) && !BlockDivides(b, false)
    requires Halts(EmitIn(p, Optimized(b)), m, m')
    ensures CompletesAs(b, st, m')
  {
    hide EmitIn, ExecBlock, OptBlock, Optimized, BlockDivides, Program, Starts, Halts;
    var b' := Optimized(b);
    OptimizedIs(b);
    OptimizedProgram(b);
    OptimizedStarts(p, b, m, st);
    HaltingCode(p, b', m, st, m');
    var fuel: nat :| ExecBlock(b', st, fuel).Norm? && Shows(m', ExecBlock(b', st, fuel).st);
    OptBlockKeeps(b, st, fuel);
  }

  /** It raises only as the original fails. */
  lemma {:induction false} OptimizedRaises(p: Place, b: List<Stmt>, m: VM, st: State, x: Exn, m': VM)
    requires Program(b) && Starts(p, b, m, st) && !BlockDivides(b, false)
    requires Raises(EmitIn(p, Optimized(b)), m, x, m')
    ensures FailsAs(b, st, x, m')
  {
    hide EmitIn, ExecBlock, OptBlock, Optimized, BlockDivides, Program, Starts, Raises;
    var b' := Optimized(b);
    OptimizedIs(b);
    OptimizedProgram(b);
    OptimizedStarts(p, b, m, st);
    RaisingCode(p, b', m, st, x, m');
    var fuel: nat :| ExecBlock(b', st, fuel).Fail? && ExecBlock(b', st, fuel).x == x
                     && Shows(m', ExecBlock(b', st, fuel).st);
    OptBlockKeeps(b, st, fuel);
  }

  /** And it runs forever exactly when the original does. */
  lemma {:induction false} OptimizedDiverges(p: Place, b: List<Stmt>, m: VM, st: State)
    requires Program(b) && Starts(p, b, m, st) && !BlockDivides(b, false)
    ensures Diverges(b, st) <==> forall k: nat :: Run(EmitIn(p, Optimized(b)), m, k).Running?
  {
    hide EmitIn, ExecBlock, OptBlock, Optimized, BlockDivides, Program, Run, Starts;
    var b' := Optimized(b);
    OptimizedIs(b);
    OptimizedProgram(b);
    OptimizedStarts(p, b, m, st);
    DivergingCode(p, b', m, st);
    forall fuel: nat ensures ExecBlock(b', st, fuel) == ExecBlock(b, st, fuel) {
      OptBlockKeeps(b, st, fuel);
    }
    assert Diverges(b, st) ==> Diverges(b', st) by {
      if Diverges(b, st) {
        forall fuel: nat ensures ExecBlock(b', st, fuel).Timeout? {
          assert ExecBlock(b, st, fuel).Timeout?;
        }
      }
    }
    assert Diverges(b', st) ==> Diverges(b, st) by {
      if Diverges(b', st) {
        forall fuel: nat ensures ExecBlock(b, st, fuel).Timeout? {
          assert ExecBlock(b', st, fuel).Timeout?;
        }
      }
    }
  }

  /** The condition matters: a division by a literal zero, even in a branch that never runs, is
      computed by the optimizer itself, while the program completes without it. */
  lemma {:induction false} UnreachedDivision(st: State, fuel: nat)
    ensures var divide := ExprStmt(Binary(Div, Lit(IntLiteral(1)), Lit(IntLiteral(0))));
            var b := Cons(ExprStmt(Set("x", Lit(BoolLiteral(false)))),
                          Cons(If(Variable("x"), Cons(divide, Empty), None), Empty));
            && Program(b) && BlockDivides(b, false)
            && ExecBlock(b, st, fuel).Norm?
  {
    var division := Binary(Div, Lit(IntLiteral(1)), Lit(IntLiteral(0)));
    var body := Cons(ExprStmt(division), Empty);
    var test := If(Variable("x"), body, None);
    var b := Cons(ExprStmt(Set("x", Lit(BoolLiteral(false)))), Cons(test, Empty));
    assert DividesByZero(Div, Lit(IntLiteral(1)), Lit(IntLiteral(0)));
    assert BlockDivides(body, true);
    SingleShape(ExprStmt(division));
    SingleShape(test);
    assert !LooseStmt(test) && DistinctStmt(test) && StmtSites(test) == {};
    var st1 := Assign(st, "x", Bool(false));
    assert Eval(Variable("x"), st1) == Val(Bool(false), st1);
    assert Exec(test, st1, fuel) == Norm(st1);
    assert ExecBlock(Cons(test, Empty), st1, fuel) == Norm(st1);
    assert Eval(Set("x", Lit(BoolLiteral(false))), st) == Val(Bool(false), st1);
    assert Exec(b.head, st, fuel) == Norm(st1);
  }
}

/** The compiler theorems against the plain meaning, for programs whose loop variables are scoped: what the
    code does to everything but the loop variables does not depend on how the generator treats those. */
module PlainCode {
  import opened Lists
  import opened Values
  import opened Ir
  import opened PlainMeaning
  import opened LoopVariables
  import opened CompilerCorrect
  import opened Machine

  /** The machine's output, its names and, but for `hidden`, their values are those of the state. */
  ghost predicate ShowsBut(m: VM, st: State, hidden: set<string>) {
    && m.out == st.out
    && m.names.Keys == st.vars.Keys
    && forall n :: n in m.names && n !in hidden ==> m.names[n] in m.regs && m.regs[m.names[n]] == st.vars[n].v
  }

  lemma {:induction false} ShownAlike(m: VM, st: State, st': State, hidden: set<string>)
    requires Shows(m, st) && Alike(st, st', hidden)
    ensures ShowsBut(m, st', hidden)
  {}

  /** A program that completes by its plain meaning: its code runs to its end with the same output and the
      same values of all variables but those of loops. */
  lemma {:induction false} PlainCompletes(p: Place, b: List<Stmt>, m: VM, st: State, fuel: nat) returns (m': VM)
    requires Program(b) && Scoped(b) && Starts(p, b, m, st) && RunBlock(b, st, fuel).Norm?
    ensures Halts(EmitIn(p, b), m, m') && m'.bci == |EmitIn(p, b)| && m'.fin == m.fin
    ensures ShowsBut(m', RunBlock(b, st, fuel).st, BlockLoops(b))
  {
    hide *;
    ScopedSame(b, st, fuel);
    SameNorm(ExecBlock(b, st, fuel), RunBlock(b, st, fuel), BlockLoops(b));
    m' := CodeCompletes(p, b, m, st, fuel);
    ShownAlike(m', ExecBlock(b, st, fuel).st, RunBlock(b, st, fuel).st, BlockLoops(b));
  }

  lemma {:induction false} SameNorm(r: SResult, r': SResult, hidden: set<string>)
    requires SameResult(r, r', hidden)
    ensures r.Norm? <==> r'.Norm?
    ensures r.Fail? <==> r'.Fail?
    ensures r.Timeout? <==> r'.Timeout?
    ensures r.Norm? || r.Fail? ==> Alike(r.st, r'.st, hidden)
    ensures r.Fail? ==> r.x == r'.x
  {
    hide Alike;
  }

  /** Code that halts belongs to a program that completes by its plain meaning. */
  lemma {:induction false} PlainHalts(p: Place, b: List<Stmt>, m: VM, st: State, m': VM) returns (fuel: nat)
    requires Program(b) && Scoped(b) && Starts(p, b, m, st) && Halts(EmitIn(p, b), m, m')
    ensures RunBlock(b, st, fuel).Norm? && ShowsBut(m', RunBlock(b, st, fuel).st, BlockLoops(b))
  {
    hide EmitIn, Starts, Program, Scoped, ExecBlock, RunBlock, Shows, ShowsBut, SameResult, Alike, BlockLoops;
    HaltingCode(p, b, m, st, m');
    fuel :| ExecBlock(b, st, fuel).Norm? && Shows(m', ExecBlock(b, st, fuel).st);
    ScopedSame(b, st, fuel);
    SameNorm(ExecBlock(b, st, fuel), RunBlock(b, st, fuel), BlockLoops(b));
    ShownAlike(m', ExecBlock(b, st, fuel).st, RunBlock(b, st, fuel).st, BlockLoops(b));
  }

  /** Code that raises belongs to a program that fails with that exception, after the same output. */
  lemma {:induction false} PlainRaises(p: Place, b: List<Stmt>, m: VM, st: State, x: Exn, m': VM) returns (fuel: nat)
    requires Program(b) && Scoped(b) && Starts(p, b, m, st) && Raises(EmitIn(p, b), m, x, m')
    ensures RunBlock(b, st, fuel).Fail? && RunBlock(b, st, fuel).x == x
    ensures ShowsBut(m', RunBlock(b, st, fuel).st, BlockLoops(b))
  {
    hide EmitIn, Starts, Program, Scoped, ExecBlock, RunBlock, Shows, ShowsBut, SameResult, Alike, BlockLoops;
    RaisingCode(p, b, m, st, x, m');
    fuel :| ExecBlock(b, st, fuel).Fail? && ExecBlock(b, st, fuel).x == x && Shows(m', ExecBlock(b, st, fuel).st);
    ScopedSame(b, st, fuel);
    SameNorm(ExecBlock(b, st, fuel), RunBlock(b, st, fuel), BlockLoops(b));
    ShownAlike(m', ExecBlock(b, st, fuel).st, RunBlock(b, st, fuel).st, BlockLoops(b));
  }

  ghost predicate NeverEnds(b: List<Stmt>, st: State) {
    forall fuel: nat :: RunBlock(b, st, fuel).Timeout?
  }

  lemma {:induction false} NeverEndsEither(b: List<Stmt>, st: State)
    requires Scoped(b)
    ensures Diverges(b, st) <==> NeverEnds(b, st)
  {
    hide ExecBlock, RunBlock, SameResult, BlockLoops, Scoped;
    forall fuel: nat ensures ExecBlock(b, st, fuel).Timeout? <==> RunBlock(b, st, fuel).Timeout? {
      ScopedSame(b, st, fuel);
      SameNorm(ExecBlock(b, st, fuel), RunBlock(b, st, fuel), BlockLoops(b));
    }
  }

  /** The code runs forever exactly when the plain meaning never comes to an end. */
  lemma {:induction false} PlainDiverges(p: Place, b: List<Stmt>, m: VM, st: State)
    requires Program(b) && Scoped(b) && Starts(p, b, m, st)
    ensures NeverEnds(b, st) <==> forall k: nat :: Machine.Run(EmitIn(p, b), m, k).Running?
  {
    hide EmitIn, Starts, Program, Scoped, Diverges, NeverEnds, Machine.Run;
    DivergingCode(p, b, m, st);
    NeverEndsEither(b, st);
  }
}

/** Running the code of a statement: what it achieves, and the statements without parts. */
module StmtBasics {
  import opened Lists
  import opened Values
  import opened Ir
  import opened Codegen
  import opened CodegenFacts
  import opened Ownership
  import opened Layout
  import opened LoopDepth
  import opened ExprSimulation
  import opened M = Machine

  type Code = M.Code

  // ----- what running a statement's code achieves -----

  /** Normal completion arrives at `end`, a break at `brk`, a continue at `cont`. */
  ghost predicate StmtPost(P: Code, o: Owners, end: nat, brk: nat, cont: nat, r: nat, c: nat,
                           m: VM, res: SResult, m': VM) {
    match res
    case Norm(st) => Matches(o, st, m') && Kept(m, m', r, c) && Reaches(P, m, m') && m'.bci == end
    case Brk(st) => Matches(o, st, m') && Kept(m, m', r, c) && Reaches(P, m, m') && m'.bci == brk
    case Cnt(st) => Matches(o, st, m') && Kept(m, m', r, c) && Reaches(P, m, m') && m'.bci == cont
    case Fail(x, st) => Matches(o, st, m') && Raises(P, m, x, m')
    case Timeout(n) => Lasts(P, m, n)
  }

  /** A first part that reaches `m1`, then the rest. */
  lemma Then(P: Code, o: Owners, end: nat, brk: nat, cont: nat, r: nat, c: nat, r1: nat, c1: nat,
             m: VM, m1: VM, res: SResult, m': VM)
    requires Reaches(P, m, m1) && Kept(m, m1, r, c) && r <= r1 && c <= c1
    requires StmtPost(P, o, end, brk, cont, r1, c1, m1, res, m')
    ensures StmtPost(P, o, end, brk, cont, r, c, m, res, m')
  {
    match res
    case Norm(_) => KeptTrans(m, m1, m', r, c, r1, c1); ReachesTrans(P, m, m1, m');
    case Brk(_) => KeptTrans(m, m1, m', r, c, r1, c1); ReachesTrans(P, m, m1, m');
    case Cnt(_) => KeptTrans(m, m1, m', r, c, r1, c1); ReachesTrans(P, m, m1, m');
    case Fail(x, _) => RaisesTrans(P, m, m1, x, m');
    case Timeout(n) => LastsTrans(P, m, m1, n);
  }

  /** The rest is a repetition of a loop, after at least one step to `m1` and any number to `m2`. */
  lemma ThenTick(P: Code, o: Owners, end: nat, brk: nat, cont: nat, r: nat, c: nat,
                 m: VM, m1: VM, m2: VM, res: SResult, m': VM)
    requires Advances(P, m, m1) && Reaches(P, m, m1) && Reaches(P, m1, m2) && Kept(m, m2, r, c)
    requires StmtPost(P, o, end, brk, cont, r, c, m2, res, m')
    ensures StmtPost(P, o, end, brk, cont, r, c, m, Tick(res), m')
  {
    hide Matches, Reaches, Raises, Lasts, Advances;
    ReachesTrans(P, m, m1, m2);
    match res
    case Timeout(n) =>
      LastsTrans(P, m1, m2, n);
      LastsTrans(P, m, m1, n);
    case _ => Then(P, o, end, brk, cont, r, c, r, c, m, m2, res, m');
  }

  lemma Landing(P: Code, o: Owners, end: nat, brk: nat, cont: nat, r: nat, c: nat, m: VM, res: SResult, m': VM)
    requires StmtPost(P, o, end, brk, cont, r, c, m, res, m')
    requires res.Norm? || res.Brk? || res.Cnt?
    ensures Reaches(P, m, m') && Kept(m, m', r, c) && Matches(o, res.st, m')
    ensures m'.bci == if res.Norm? then end else if res.Brk? then brk else cont
  {}

  /** An expression evaluated for a statement. */
  lemma ExprThen(P: Code, o: Owners, at: nat, rv: RegValue, r: nat, c: nat, m: VM, res: EResult, m': VM)
    requires ExprPost(P, o, at, rv, r, c, m, res, m')
    ensures res.Val? ==> Reaches(P, m, m') && Kept(m, m', r, c) && m'.bci == at && Matches(o, res.st, m') && Holds(m', rv, res.v)
    ensures res.Exc? ==> forall end, brk, cont :: StmtPost(P, o, end, brk, cont, r, c, m, Fail(res.x, res.st), m')
  {}

  /** One step that only moves the index or the finally stack. */
  lemma RunPlain(P: Code, o: Owners, st: State, m: VM, m': VM)
    requires Matches(o, st, m) && Step(P, m) == Running(m')
    requires m'.bci == m.bci + 1 || Even(P, m.bci, m'.bci)
    requires m'.regs == m.regs && m'.names == m.names && m'.out == m.out
    ensures Matches(o, st, m') && Reaches(P, m, m')
  {
    KeepMatch(o, st, m, m');
    ReachesStep(P, m, m');
  }

  // ----- output -----

  lemma RunOutput(P: Code, o: Owners, st: State, m: VM, src: nat, v: Value) returns (m': VM)
    requires Matches(o, st, m) && Holds(m, RegValue(src, false, false), v)
    requires m.bci < |P| && P[m.bci] == M.Output(src)
    ensures Matches(o, Ir.Output(st, v), m') && Reaches(P, m, m')
    ensures m' == m.(out := m.out + [v], bci := m.bci + 1)
  {
    m' := m.(out := m.out + [v], bci := m.bci + 1);
    ReachesStep(P, m, m');
    forall n | n in m'.names ensures Bound(o, Ir.Output(st, v), m', n) {
      assert Bound(o, st, m, n);
    }
  }

  lemma GlueOutput(P: Code, o: Owners, g: Gen, a: nat, brk: nat, cont: nat, r: nat, c: nat, m: VM, res: EResult, m1: VM)
    returns (m': VM)
    requires CodeAt(P, a, OutputGen(g).code) && WellPlaced(g, r, c)
    requires g.rv.constant ==> g.r !in o
    requires res.Val? && ExprPost(P, o, a + |g.code|, g.rv, r, c, m, res, m1)
    ensures StmtPost(P, o, a + |OutputGen(g).code|, brk, cont, r, c, m,
                     Norm(if g.rv.silent then res.st else Ir.Output(res.st, res.v)), m')
  {
    hide Plain, Reaches, Matches, Raises, ExecOp, Even;
    var a1 := a + |g.code|;
    if g.rv.silent {
      m' := m1;
    } else if g.rv.constant {
      var tail := [M.StoreConst(g.r, g.rv.reg), M.Output(g.r)];
      CodeSplit(P, a, g.code, tail);
      CodeOp(P, a1, tail, 0);
      CodeOp(P, a1, tail, 1);
      var m2 := RunMove(P, o, res.st, m1, g.r, g.c, g.rv, res.v);
      ReachesTrans(P, m, m1, m2);
      m' := RunOutput(P, o, res.st, m2, g.r, res.v);
      ReachesTrans(P, m, m2, m');
    } else {
      CodeSplit(P, a, g.code, [M.Output(g.rv.reg)]);
      CodeOp(P, a1, [M.Output(g.rv.reg)], 0);
      m' := RunOutput(P, o, res.st, m1, g.rv.reg, res.v);
      ReachesTrans(P, m, m1, m');
    }
  }

  lemma SilentExactly(e: Expr, a: nat, r: nat, c: nat)
    ensures EmitExpr(e, a, r, c).rv.silent == IsSilent(e)
  {
    hide EmitNc, EmitElems;
  }

  lemma SimOutput(P: Code, o: Owners, e: Expr, a: nat, r: nat, c: nat, brk: nat, cont: nat, st: State, m: VM, fuel: nat)
    returns (m': VM)
    requires LinkedAt(P, a, EmitStmt(ExprStmt(e), a, r, c).code, brk, cont) && OwnedStmt(ExprStmt(e), a, r, c, o)
    requires Matches(o, st, m) && m.bci == a
    ensures StmtPost(P, o, a + |EmitStmt(ExprStmt(e), a, r, c).code|, brk, cont, r, c, m, Exec(ExprStmt(e), st, fuel), m')
  {
    hide CodeAt, Matches, EmitExpr, OwnedExpr, Eval, WellPlaced, ExprPost, LinkedAt, StmtPost, ExecOp;
    var g := EmitExpr(e, a, r, c);
    ExprPlaced(e, a, r, c);
    SilentExactly(e, a, r, c);
    OutputPlain(g, r, c);
    LinkedPlain(P, a, OutputGen(g).code, brk, cont);
    OutputStart(P, g, a);
    var m1 := SimExpr(P, o, e, a, r, c, st, m);
    var res := Eval(e, st);
    ExprThen(P, o, a + |g.code|, g.rv, r, c, m, res, m1);
    if res.Exc? {
      m' := m1;
    } else {
      m' := GlueOutput(P, o, g, a, brk, cont, r, c, m, res, m1);
    }
  }

  lemma OutputStart(P: Code, g: Gen, a: nat)
    requires CodeAt(P, a, OutputGen(g).code)
    ensures CodeAt(P, a, g.code)
  {
    if !g.rv.silent {
      CodeSplit(P, a, g.code, OutputGen(g).code[|g.code|..]);
      assert OutputGen(g).code == g.code + OutputGen(g).code[|g.code|..];
    }
  }

  // ----- simple statements -----

  lemma SimSilent(P: Code, o: Owners, e: Expr, a: nat, r: nat, c: nat, brk: nat, cont: nat, st: State, m: VM, fuel: nat)
    returns (m': VM)
    requires LinkedAt(P, a, EmitStmt(SilentStmt(e), a, r, c).code, brk, cont) && OwnedStmt(SilentStmt(e), a, r, c, o)
    requires Matches(o, st, m) && m.bci == a
    ensures StmtPost(P, o, a + |EmitStmt(SilentStmt(e), a, r, c).code|, brk, cont, r, c, m,
                     Exec(SilentStmt(e), st, fuel), m')
  {
    hide CodeAt, Matches, EmitExpr, OwnedExpr, Eval, ExprPost, LinkedAt, ExecOp;
    var g := EmitExpr(e, a, r, c);
    ExprPlaced(e, a, r, c);
    LinkedPlain(P, a, g.code, brk, cont);
    m' := SimExpr(P, o, e, a, r, c, st, m);
    ExprThen(P, o, a + |g.code|, g.rv, r, c, m, Eval(e, st), m');
  }

  lemma SimRaise(P: Code, o: Owners, e: Expr, a: nat, r: nat, c: nat, brk: nat, cont: nat, st: State, m: VM, fuel: nat)
    returns (m': VM)
    requires LinkedAt(P, a, EmitStmt(Stmt.Raise(e), a, r, c).code, brk, cont) && OwnedStmt(Stmt.Raise(e), a, r, c, o)
    requires Matches(o, st, m) && m.bci == a
    ensures StmtPost(P, o, a + |EmitStmt(Stmt.Raise(e), a, r, c).code|, brk, cont, r, c, m,
                     Exec(Stmt.Raise(e), st, fuel), m')
  {
    hide CodeAt, Matches, EmitNc, OwnedNc, Eval, ExprPost, LinkedAt;
    var g := EmitNc(e, a, r, c);
    var a1 := a + |g.code|;
    NcPlaced(e, a, r, c);
    LinkedSplit(P, a, g.code, [M.Raise(g.rv.reg)], brk, cont);
    LinkedPlain(P, a, g.code, brk, cont);
    LinkedOp(P, a1, [M.Raise(g.rv.reg)], 0, brk, cont);
    m' := SimNc(P, o, e, a, r, c, st, m);
    var res := Eval(e, st);
    ExprThen(P, o, a1, g.rv, r, c, m, res, m');
    if res.Val? {
      RaisesStep(P, m, m', Thrown(res.v), m');
    }
  }

  lemma SimBreak(P: Code, o: Owners, s: Stmt, a: nat, r: nat, c: nat, brk: nat, cont: nat, st: State, m: VM, fuel: nat)
    returns (m': VM)
    requires s.Break? || s.Continue?
    requires LinkedAt(P, a, EmitStmt(s, a, r, c).code, brk, cont) && LevelWith(P, a, brk, cont)
    requires Matches(o, st, m) && m.bci == a
    ensures StmtPost(P, o, a + 1, brk, cont, r, c, m, Exec(s, st, fuel), m')
  {
    LinkedOp(P, a, EmitStmt(s, a, r, c).code, 0, brk, cont);
    m' := m.(bci := if s.Break? then brk else cont);
    RunPlain(P, o, st, m, m');
  }

  // ----- assertions -----

  lemma AssertCode(P: Code, g: Gen, line: int, h: Gen, a: nat, brk: nat, cont: nat)
    requires LinkedAt(P, a, AssertGen(g, line, h).code, brk, cont) && Plain(g.code) && Plain(h.code)
    ensures var a1 := a + |g.code|;
            && CodeAt(P, a, g.code) && CodeAt(P, a1 + 1, h.code)
            && a1 + 1 + |h.code| < |P| && P[a1] == M.StoreIntConst(g.c, line)
            && P[a1 + 1 + |h.code|] == M.Assert(g.rv.reg, g.c, h.rv.reg)
  {
    hide CodeAt, LinkedAt;
    var a1 := a + |g.code|;
    var x := [M.StoreIntConst(g.c, line)];
    var y := [M.Assert(g.rv.reg, g.c, h.rv.reg)];
    LinkedSplit(P, a, g.code, x + (h.code + y), brk, cont);
    LinkedSplit(P, a1, x, h.code + y, brk, cont);
    LinkedSplit(P, a1 + 1, h.code, y, brk, cont);
    LinkedPlain(P, a, g.code, brk, cont);
    LinkedPlain(P, a1 + 1, h.code, brk, cont);
    LinkedOp(P, a1, x, 0, brk, cont);
    LinkedOp(P, a1 + 1 + |h.code|, y, 0, brk, cont);
  }

  /** A message or, without one, the empty string. */
  function MsgGen(msg: Option<Expr>, a: nat, r: nat, c: nat): Gen {
    match msg
    case Some(e) => EmitNc(e, a, r, c)
    case None => NoMessage(r, c)
  }

  function MsgEval(msg: Option<Expr>, st: State): EResult {
    if msg.Some? then Eval(msg.value, st) else Val(Str(""), st)
  }

  lemma MsgPlaced(msg: Option<Expr>, a: nat, r: nat, c: nat)
    ensures WellPlaced(MsgGen(msg, a, r, c), r, c) && !MsgGen(msg, a, r, c).rv.constant
  {
    if msg.Some? {
      NcPlaced(msg.value, a, r, c);
    }
  }

  lemma SimMsg(P: Code, o: Owners, msg: Option<Expr>, a: nat, r: nat, c: nat, st: State, m: VM) returns (m': VM)
    requires CodeAt(P, a, MsgGen(msg, a, r, c).code) && Matches(o, st, m) && m.bci == a
    requires if msg.Some? then OwnedNc(msg.value, a, r, c, o) else r !in o
    ensures var h := MsgGen(msg, a, r, c); ExprPost(P, o, a + |h.code|, h.rv, r, c, m, MsgEval(msg, st), m')
  {
    if msg.Some? {
      m' := SimNc(P, o, msg.value, a, r, c, st, m);
    } else {
      var h := NoMessage(r, c);
      CodeOp(P, a, h.code, 0);
      CodeOp(P, a, h.code, 1);
      var m1 := PutConst(m, c, Str(""));
      RunPlain(P, o, st, m, m1);
      m' := RunMove(P, o, st, m1, r, c, RegValue(c, true, false), Str(""));
      ReachesTrans(P, m, m1, m');
    }
  }

  lemma RunAssert(P: Code, o: Owners, st: State, m: VM, src: nat, line: nat, msg: nat, v: Value, w: Value, n: int)
    returns (m': VM)
    requires Matches(o, st, m)
    requires Holds(m, RegValue(src, false, false), v) && Holds(m, RegValue(msg, false, false), w)
    requires Holds(m, RegValue(line, true, false), Int(n))
    requires m.bci < |P| && P[m.bci] == M.Assert(src, line, msg)
    ensures Matches(o, st, m')
    ensures if !v.Bool? then Raises(P, m, BoolExpected, m')
            else if !v.b then Raises(P, m, AssertionError(w, n), m')
            else m' == Next(m) && Reaches(P, m, m')
  {
    ReachesSelf(P, m);
    m' := m;
    if !v.Bool? {
      RaisesStep(P, m, m, BoolExpected, m);
    } else if !v.b {
      RaisesStep(P, m, m, AssertionError(w, n), m);
    } else {
      m' := Next(m);
      RunPlain(P, o, st, m, m');
    }
  }

  lemma SimAssert(P: Code, o: Owners, cond: Expr, msg: Option<Expr>, line: int, a: nat, r: nat, c: nat,
                  brk: nat, cont: nat, st: State, m: VM, fuel: nat) returns (m': VM)
    requires var s := Stmt.Assert(cond, msg, line);
             LinkedAt(P, a, EmitStmt(s, a, r, c).code, brk, cont) && OwnedStmt(s, a, r, c, o)
    requires Matches(o, st, m) && m.bci == a
    ensures var s := Stmt.Assert(cond, msg, line);
            StmtPost(P, o, a + |EmitStmt(s, a, r, c).code|, brk, cont, r, c, m, Exec(s, st, fuel), m')
  {
    hide CodeAt, Matches, EmitNc, OwnedNc, Eval, ExprPost, LinkedAt, Kept, Plain, Reaches, Raises, ExecOp;
    var g := EmitNc(cond, a, r, c);
    var a1 := a + |g.code|;
    var h := MsgGen(msg, a1 + 1, g.r, g.c + 1);
    NcPlaced(cond, a, r, c);
    MsgPlaced(msg, a1 + 1, g.r, g.c + 1);
    AssertCode(P, g, line, h, a, brk, cont);
    var m1 := SimNc(P, o, cond, a, r, c, st, m);
    var res := Eval(cond, st);
    ExprThen(P, o, a1, g.rv, r, c, m, res, m1);
    if res.Exc? {
      m' := m1;
    } else {
      m' := AssertRest(P, o, g, h, msg, line, a1, brk, cont, r, c, res, m, m1);
    }
  }

  /** What an assertion does once its condition and message are known. */
  function AssertResult(cond: EResult, msg: EResult, line: int): SResult
    requires cond.Val?
  {
    if msg.Exc? then Fail(msg.x, msg.st)
    else if !cond.v.Bool? then Fail(BoolExpected, msg.st)
    else if !cond.v.b then Fail(AssertionError(msg.v, line), msg.st)
    else Norm(msg.st)
  }

  lemma AssertRest(P: Code, o: Owners, g: Gen, h: Gen, msg: Option<Expr>, line: int, a1: nat, brk: nat, cont: nat,
                   r: nat, c: nat, res: EResult, m: VM, m1: VM) returns (m': VM)
    requires WellPlaced(g, r, c) && !g.rv.constant && !h.rv.constant
    requires h == MsgGen(msg, a1 + 1, g.r, g.c + 1) && CodeAt(P, a1 + 1, h.code)
    requires a1 + 1 + |h.code| < |P| && P[a1] == M.StoreIntConst(g.c, line)
    requires P[a1 + 1 + |h.code|] == M.Assert(g.rv.reg, g.c, h.rv.reg)
    requires if msg.Some? then OwnedNc(msg.value, a1 + 1, g.r, g.c + 1, o) else g.r !in o
    requires res.Val? && Matches(o, res.st, m1) && m1.bci == a1 && Holds(m1, g.rv, res.v)
    requires Reaches(P, m, m1) && Kept(m, m1, r, c)
    ensures StmtPost(P, o, a1 + 1 + |h.code| + 1, brk, cont, r, c, m, AssertResult(res, MsgEval(msg, res.st), line), m')
  {
    hide CodeAt, Matches, MsgGen, MsgEval, Reaches, Raises, Plain, Lasts, ExprPost, OwnedNc, EmitNc;
    var m2 := PutConst(m1, g.c, Int(line));
    RunPlain(P, o, res.st, m1, m2);
    ReachesTrans(P, m, m1, m2);
    var m3 := SimMsg(P, o, msg, a1 + 1, g.r, g.c + 1, res.st, m2);
    var mv := MsgEval(msg, res.st);
    ExprThen(P, o, a1 + 1 + |h.code|, h.rv, g.r, g.c + 1, m2, mv, m3);
    if mv.Exc? {
      m' := m3;
      RaisesTrans(P, m, m2, mv.x, m3);
    } else {
      ReachesTrans(P, m, m2, m3);
      m' := RunAssert(P, o, mv.st, m3, g.rv.reg, g.c, h.rv.reg, res.v, mv.v, line);
      if !res.v.Bool? {
        RaisesTrans(P, m, m3, BoolExpected, m');
      } else if !res.v.b {
        RaisesTrans(P, m, m3, AssertionError(mv.v, line), m');
      } else {
        ReachesTrans(P, m, m3, m');
      }
    }
  }

  // ----- conditions -----

  /** After a condition: failed, or at address `yes` or `no`. */
  ghost predicate CondPost(P: Code, o: Owners, rc: EResult, yes: nat, no: nat, r: nat, c: nat, m: VM, m': VM) {
    && Matches(o, rc.st, m')
    && (match rc
        case Exc(x, _) => Raises(P, m, x, m')
        case Val(v, _) =>
          if !v.Bool? then Raises(P, m, BoolExpected, m')
          else Advances(P, m, m') && Kept(m, m', r, c) && m'.bci == if v.b then yes else no)
  }

  lemma CondStep(P: Code, o: Owners, jump: bool, src: nat, target: nat, r: nat, c: nat, rc: EResult, m: VM, m1: VM)
    returns (m': VM)
    requires rc.Val? && Reaches(P, m, m1) && Kept(m, m1, r, c) && Matches(o, rc.st, m1)
    requires Holds(m1, RegValue(src, false, false), rc.v)
    requires m1.bci < |P| && P[m1.bci] == if jump then M.JmpIfTrue(src, target) else M.JmpIfFalse(src, target)
    requires Even(P, m1.bci, target)
    ensures CondPost(P, o, rc, if jump then target else m1.bci + 1, if jump then m1.bci + 1 else target, r, c, m, m')
  {
    hide Matches, Holds;
    m' := RunBranch(P, o, rc.st, m1, jump, src, target, rc.v);
    if rc.v.Bool? {
      AdvancesTrans(P, m, m1, m');
    } else {
      RaisesTrans(P, m, m1, BoolExpected, m');
    }
  }

  lemma {:induction false} ExprRaises(P: Code, o: Owners, at: nat, rv: RegValue, r: nat, c: nat, m: VM, res: EResult, m': VM)
    requires res.Exc? && ExprPost(P, o, at, rv, r, c, m, res, m')
    ensures Matches(o, res.st, m') && Raises(P, m, res.x, m')
  {
    hide Matches, Raises;
  }

  lemma SimCond(P: Code, o: Owners, cond: Expr, a: nat, r: nat, c: nat, jump: bool, target: nat, st: State, m: VM)
    returns (m': VM)
    requires var g := EmitNc(cond, a, r, c);
             && CodeAt(P, a, g.code) && OwnedNc(cond, a, r, c, o)
             && a + |g.code| < |P|
             && P[a + |g.code|] == (if jump then M.JmpIfTrue(g.rv.reg, target) else M.JmpIfFalse(g.rv.reg, target))
             && Even(P, a + |g.code|, target)
    requires Matches(o, st, m) && m.bci == a
    ensures var next := a + |EmitNc(cond, a, r, c).code| + 1;
            CondPost(P, o, Eval(cond, st), if jump then target else next, if jump then next else target, r, c, m, m')
  {
    hide CodeAt, Matches, EmitNc, OwnedNc, Eval, ExprPost, Kept, WellPlaced, ExecOp;
    var g := EmitNc(cond, a, r, c);
    NcPlaced(cond, a, r, c);
    var m1 := SimNc(P, o, cond, a, r, c, st, m);
    var rc := Eval(cond, st);
    m' := m1;
    if rc.Exc? {
      ExprRaises(P, o, a + |g.code|, g.rv, r, c, m, rc, m1);
    } else {
      ExprThen(P, o, a + |g.code|, g.rv, r, c, m, rc, m1);
      m' := CondStep(P, o, jump, g.rv.reg, target, r, c, rc, m, m1);
    }
  }

  lemma CondFails(P: Code, o: Owners, rc: EResult, yes: nat, no: nat, r: nat, c: nat, m: VM, m': VM,
                  end: nat, brk: nat, cont: nat)
    requires CondPost(P, o, rc, yes, no, r, c, m, m')
    ensures rc.Exc? ==> StmtPost(P, o, end, brk, cont, r, c, m, Fail(rc.x, rc.st), m')
    ensures rc.Val? && !rc.v.Bool? ==> StmtPost(P, o, end, brk, cont, r, c, m, Fail(BoolExpected, rc.st), m')
    ensures rc.Val? && rc.v.Bool? ==>
              && Advances(P, m, m') && Reaches(P, m, m') && Kept(m, m', r, c) && Matches(o, rc.st, m')
              && m'.bci == if rc.v.b then yes else no
  {}

  // ----- putting parts together -----

  lemma KeptSelf(m: VM, r: nat, c: nat)
    ensures Kept(m, m, r, c)
  {}

  lemma KeptJump(m: VM, m1: VM, m2: VM, r: nat, c: nat)
    requires Kept(m, m1, r, c) && m2 == m1.(bci := m2.bci)
    ensures Kept(m, m2, r, c)
  {}

  lemma Arrived(P: Code, o: Owners, end: nat, brk: nat, cont: nat, r: nat, c: nat, m: VM, st: State, m': VM)
    requires Matches(o, st, m') && Kept(m, m', r, c) && Reaches(P, m, m') && m'.bci == end
    ensures StmtPost(P, o, end, brk, cont, r, c, m, Norm(st), m')
  {}

  lemma Abrupt(P: Code, o: Owners, end: nat, end': nat, brk: nat, cont: nat, r: nat, c: nat, m: VM, res: SResult, m': VM)
    requires StmtPost(P, o, end, brk, cont, r, c, m, res, m') && !res.Norm?
    ensures StmtPost(P, o, end', brk, cont, r, c, m, res, m')
  {}

  /** A body reached from `m` at `m1`, then possibly a jump from its end to `end`. */
  lemma BodyThen(P: Code, o: Owners, at: nat, end: nat, brk: nat, cont: nat, r: nat, c: nat, r1: nat, c1: nat,
                 m: VM, m1: VM, res: SResult, m2: VM) returns (m': VM)
    requires Reaches(P, m, m1) && Kept(m, m1, r, c) && r <= r1 && c <= c1
    requires StmtPost(P, o, at, brk, cont, r1, c1, m1, res, m2)
    requires at == end || (at < |P| && P[at] == M.Jmp(end) && Even(P, at, end))
    ensures StmtPost(P, o, end, brk, cont, r, c, m, res, m')
  {
    m' := m2;
    Then(P, o, at, brk, cont, r, c, r1, c1, m, m1, res, m2);
    if res.Norm? && at != end {
      m' := RunJmp(P, o, res.st, m2, end);
      ReachesTrans(P, m, m2, m');
    }
  }
}

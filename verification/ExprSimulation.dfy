/** The code emitted for an expression computes what `Ir.Eval` says. */
module ExprSimulation {
  import opened Lists
  import opened Values
  import opened Ir
  import opened Codegen
  import opened CodegenFacts
  import opened Ownership
  import opened Layout
  import opened M = Machine

  type Code = M.Code

  // ----- states in correspondence -----

  /** Name `n` is bound to a register it owns, which holds the variable's value. */
  ghost predicate Bound(o: Owners, st: State, m: VM, n: string) {
    && n in m.names && n in st.vars
    && m.names[n] in m.regs && m.regs[m.names[n]] == st.vars[n].v
    && Owns(o, m.names[n], n, st.vars[n].site)
  }

  ghost predicate Matches(o: Owners, st: State, m: VM) {
    && m.names.Keys == st.vars.Keys
    && (forall n :: n in m.names ==> Bound(o, st, m, n))
    && m.out == st.out
  }

  ghost predicate Holds(m: VM, rv: RegValue, v: Value) {
    if rv.constant then rv.reg in m.cregs && m.cregs[rv.reg] == v
    else rv.reg in m.regs && m.regs[rv.reg] == v
  }

  /** Registers below `r` and `c` are untouched. */
  ghost predicate Kept(m: VM, m': VM, r: nat, c: nat) {
    && (forall q :: q < r && q in m.regs ==> q in m'.regs && m'.regs[q] == m.regs[q])
    && (forall q :: q < c && q in m.cregs ==> q in m'.cregs && m'.cregs[q] == m.cregs[q])
    && (forall q :: q < r && q in m.iters ==> q in m'.iters && m'.iters[q] == m.iters[q])
    && m'.fin == m.fin
  }

  lemma KeptTrans(m: VM, m1: VM, m2: VM, r: nat, c: nat, r1: nat, c1: nat)
    requires Kept(m, m1, r, c) && Kept(m1, m2, r1, c1) && r <= r1 && c <= c1
    ensures Kept(m, m2, r, c)
  {}

  // ----- single steps -----

  lemma WriteTemp(o: Owners, st: State, m: VM, q: nat, v: Value)
    requires Matches(o, st, m) && q !in o
    ensures Matches(o, st, Put(m, q, v))
  {
    forall n | n in m.names ensures Bound(o, st, Put(m, q, v), n) {
      assert Bound(o, st, m, n);
    }
  }

  /** Rewriting an owned register is harmless when its owner, if bound to it, keeps its value. */
  lemma WriteOwned(o: Owners, st: State, m: VM, q: nat, n: string, site: Option<nat>, v: Value)
    requires Matches(o, st, m) && Owns(o, q, n, site)
    requires n in m.names && m.names[n] == q ==> v == st.vars[n].v
    ensures Matches(o, st, Put(m, q, v))
  {
    forall k | k in m.names ensures Bound(o, st, Put(m, q, v), k) {
      assert Bound(o, st, m, k);
    }
  }

  /** Storing into an owned register and then binding its name is an assignment. */
  lemma WriteAndBind(o: Owners, st: State, m: VM, q: nat, n: string, site: Option<nat>, v: Value)
    returns (m': VM)
    requires Matches(o, st, m) && Owns(o, q, n, site)
    ensures m' == Put(m, q, v).(names := m.names[n := q], bci := m.bci + 2)
    ensures Matches(o, st.(vars := st.vars[n := Binding(v, site)]), m')
  {
    m' := Put(m, q, v).(names := m.names[n := q], bci := m.bci + 2);
    var st' := st.(vars := st.vars[n := Binding(v, site)]);
    forall k | k in m'.names ensures Bound(o, st', m', k) {
      if k != n {
        assert Bound(o, st, m, k);
      }
    }
  }

  lemma RunWriteAndBind(P: Code, o: Owners, st: State, m: VM, q: nat, n: string, site: Option<nat>, v: Value)
    returns (m': VM)
    requires Matches(o, st, m) && Owns(o, q, n, site)
    requires Step(P, m) == Running(Put(m, q, v))
    requires m.bci + 1 < |P| && P[m.bci + 1] == M.StoreName(q, n)
    ensures m' == Put(m, q, v).(names := m.names[n := q], bci := m.bci + 2)
    ensures Matches(o, st.(vars := st.vars[n := Binding(v, site)]), m')
    ensures Reaches(P, m, m')
  {
    m' := WriteAndBind(o, st, m, q, n, site, v);
    var m1 := Put(m, q, v);
    ReachesStep(P, m, m1);
    assert Step(P, m1) == Running(m');
    ReachesStep(P, m1, m');
    ReachesTrans(P, m, m1, m');
  }

  /** One step that writes a temporary. */
  lemma RunTemp(P: Code, o: Owners, st: State, m: VM, q: nat, v: Value) returns (m': VM)
    requires Matches(o, st, m) && q !in o && Step(P, m) == Running(Put(m, q, v))
    ensures m' == Put(m, q, v) && Matches(o, st, m') && Reaches(P, m, m')
  {
    m' := Put(m, q, v);
    WriteTemp(o, st, m, q, v);
    ReachesStep(P, m, m');
  }

  lemma StepMove(P: Code, m: VM, dst: nat, rv: RegValue, v: Value)
    requires Holds(m, rv, v) && m.bci < |P| && P[m.bci] == Move(dst, rv)
    ensures Step(P, m) == Running(Put(m, dst, v))
  {}

  /** A step that changes neither registers nor names. */
  lemma KeepMatch(o: Owners, st: State, m: VM, m': VM)
    requires Matches(o, st, m) && m'.regs == m.regs && m'.names == m.names && m'.out == m.out
    ensures Matches(o, st, m')
  {
    forall n | n in m'.names ensures Bound(o, st, m', n) {
      assert Bound(o, st, m, n);
    }
  }

  // ----- what running an expression's code achieves -----

  /** From `m` the code leads to `m'`: at address `end` with the value where `rv` says, or with
      the exception raised; variables and output are those of `res`; lower registers are kept. */
  ghost predicate ExprPost(P: Code, o: Owners, end: nat, rv: RegValue, r: nat, c: nat, m: VM, res: EResult, m': VM) {
    && Matches(o, res.st, m')
    && Kept(m, m', r, c)
    && (match res
        case Val(v, _) => Reaches(P, m, m') && m'.bci == end && Holds(m', rv, v)
        case Exc(x, _) => Raises(P, m, x, m'))
  }

  /** A first part that succeeds, followed by a second. */
  lemma Continue(P: Code, o: Owners, end1: nat, rv1: RegValue, r: nat, c: nat, m: VM, res1: EResult, m1: VM,
                 end: nat, rv: RegValue, r1: nat, c1: nat, res: EResult, m': VM)
    requires ExprPost(P, o, end1, rv1, r, c, m, res1, m1) && res1.Val?
    requires ExprPost(P, o, end, rv, r1, c1, m1, res, m')
    requires r <= r1 && c <= c1
    ensures ExprPost(P, o, end, rv, r, c, m, res, m')
  {
    KeptTrans(m, m1, m', r, c, r1, c1);
    match res
    case Val(_, _) => ReachesTrans(P, m, m1, m');
    case Exc(x, _) => RaisesTrans(P, m, m1, x, m');
  }

  lemma Landed(P: Code, o: Owners, end: nat, rv: RegValue, r: nat, c: nat, m: VM, res: EResult, m': VM)
    requires ExprPost(P, o, end, rv, r, c, m, res, m') && res.Val?
    ensures m'.bci == end && Matches(o, res.st, m') && Holds(m', rv, res.v)
  {}

  /** An exception in a part is the exception of the whole. */
  lemma Propagate(P: Code, o: Owners, end1: nat, rv1: RegValue, r: nat, c: nat, m: VM, res: EResult, m': VM,
                  end: nat, rv: RegValue)
    requires ExprPost(P, o, end1, rv1, r, c, m, res, m') && res.Exc?
    ensures ExprPost(P, o, end, rv, r, c, m, res, m')
  {}

  /** An opcode at `m` that stores a result into a temporary or raises. */
  lemma RunDeliver(P: Code, o: Owners, st: State, m: VM, dst: nat, c: nat, u: Result<Value, Exn>) returns (m': VM)
    requires Matches(o, st, m) && dst !in o && Step(P, m) == Deliver(m, dst, u)
    ensures ExprPost(P, o, m.bci + 1, RegValue(dst, false, false), dst, c, m, Lift(u, st), m')
  {
    match u
    case Ok(v) => m' := RunTemp(P, o, st, m, dst, v);
    case Err(x) =>
      m' := m;
      ReachesSelf(P, m);
      RaisesStep(P, m, m, x, m');
  }

  /** Moving a value into a temporary. */
  lemma RunMove(P: Code, o: Owners, st: State, m: VM, dst: nat, c: nat, rv: RegValue, v: Value) returns (m': VM)
    requires Matches(o, st, m) && dst !in o && Holds(m, rv, v)
    requires m.bci < |P| && P[m.bci] == Move(dst, rv)
    ensures ExprPost(P, o, m.bci + 1, RegValue(dst, false, false), dst, c, m, Val(v, st), m')
    ensures m' == Put(m, dst, v)
  {
    StepMove(P, m, dst, rv, v);
    m' := RunTemp(P, o, st, m, dst, v);
  }

  // ----- operators -----

  lemma StepBin(P: Code, m: VM, op: BinOp, x: RegValue, y: RegValue, dst: nat, v: Value, w: Value)
    requires Holds(m, x, v) && Holds(m, y, w) && !(x.constant && y.constant)
    requires m.bci < |P|
    requires P[m.bci] == M.BinExpr(op, if x.constant then M.ConstReg else if y.constant then M.RegConst else M.RegReg,
                                   dst, x.reg, y.reg)
    ensures Step(P, m) == Deliver(m, dst, Apply(op, v, w))
  {}

  lemma RunBinTail(P: Code, o: Owners, op: BinOp, x: RegValue, y: RegValue, r: nat, c: nat,
                   st: State, m: VM, v: Value, w: Value) returns (m': VM)
    requires CodeAt(P, m.bci, BinTail(op, x, y, r))
    requires Holds(m, x, v) && Holds(m, y, w) && Matches(o, st, m)
    requires r !in o && BinResult(x, y, r) !in o
    ensures ExprPost(P, o, m.bci + |BinTail(op, x, y, r)|, RegValue(BinResult(x, y, r), false, false),
                     r, c, m, Lift(Apply(op, v, w), st), m')
  {
    var tail := BinTail(op, x, y, r);
    CodeOp(P, m.bci, tail, 0);
    if x.constant && y.constant {
      CodeOp(P, m.bci, tail, 1);
      var m1 := RunMove(P, o, st, m, r, c, y, w);
      var y1 := RegValue(r, false, false);
      StepBin(P, m1, op, x, y1, r + 1, v, w);
      m' := RunDeliver(P, o, st, m1, r + 1, c, Apply(op, v, w));
      Continue(P, o, m.bci + 1, y1, r, c, m, Val(w, st), m1,
               m.bci + 2, RegValue(r + 1, false, false), r + 1, c, Lift(Apply(op, v, w), st), m');
    } else {
      StepBin(P, m, op, x, y, r, v, w);
      m' := RunDeliver(P, o, st, m, r, c, Apply(op, v, w));
    }
  }

  lemma PlacedRange(g: Gen, r: nat, c: nat)
    requires WellPlaced(g, r, c)
    ensures r <= g.r && c <= g.c
  {}

  /** A result outlives code that keeps the registers below the counters after it. */
  lemma StillHolds(g: Gen, r: nat, c: nat, m1: VM, m2: VM, v: Value)
    requires WellPlaced(g, r, c) && Holds(m1, g.rv, v) && Kept(m1, m2, g.r, g.c)
    ensures Holds(m2, g.rv, v)
  {}

  lemma GlueBinary(P: Code, o: Owners, op: BinOp, g: Gen, h: Gen, a: nat, r: nat, c: nat,
                   m: VM, rl: EResult, m1: VM, rr: EResult, m2: VM) returns (m': VM)
    requires CodeAt(P, a, BinaryGen(op, g, h).code)
    requires WellPlaced(g, r, c) && WellPlaced(h, g.r, g.c)
    requires h.r !in o && BinResult(g.rv, h.rv, h.r) !in o
    requires rl.Val? && ExprPost(P, o, a + |g.code|, g.rv, r, c, m, rl, m1)
    requires ExprPost(P, o, a + |g.code| + |h.code|, h.rv, g.r, g.c, m1, rr, m2)
    ensures var res := if rr.Exc? then rr else Lift(Apply(op, rl.v, rr.v), rr.st);
            ExprPost(P, o, a + |BinaryGen(op, g, h).code|, BinaryGen(op, g, h).rv, r, c, m, res, m')
  {
    hide CodeAt, WellPlaced, Plain, Matches, Kept, Holds, Reaches, Raises, ExecOp;
    var tail := BinTail(op, g.rv, h.rv, h.r);
    var a2 := a + |g.code| + |h.code|;
    PlacedRange(h, g.r, g.c);
    PlacedRange(g, r, c);
    Continue(P, o, a + |g.code|, g.rv, r, c, m, rl, m1, a2, h.rv, g.r, g.c, rr, m2);
    if rr.Exc? {
      m' := m2;
    } else {
      BinaryCode(P, op, g, h, a);
      StillHolds(g, r, c, m1, m2, rl.v);
      m' := RunBinTail(P, o, op, g.rv, h.rv, h.r, h.c, rr.st, m2, rl.v, rr.v);
      Continue(P, o, a2, h.rv, r, c, m, rr, m2, a2 + |tail|, BinaryGen(op, g, h).rv, h.r, h.c,
               Lift(Apply(op, rl.v, rr.v), rr.st), m');
    }
  }

  lemma StepUnary(P: Code, m: VM, isNot: bool, dst: nat, rv: RegValue, v: Value)
    requires !rv.constant && Holds(m, rv, v) && m.bci < |P|
    requires P[m.bci] == if isNot then M.Not(dst, rv.reg) else M.Neg(dst, rv.reg)
    ensures Step(P, m) == Deliver(m, dst, ApplyUnary(isNot, v))
  {
    hide ApplyUnary;
  }

  lemma GlueUnary(P: Code, o: Owners, isNot: bool, g: Gen, a: nat, r: nat, c: nat, m: VM, rx: EResult, m1: VM)
    returns (m': VM)
    requires CodeAt(P, a, UnaryGen(isNot, g).code)
    requires WellPlaced(g, r, c) && !g.rv.constant && g.r !in o
    requires rx.Val? && ExprPost(P, o, a + |g.code|, g.rv, r, c, m, rx, m1)
    ensures ExprPost(P, o, a + |UnaryGen(isNot, g).code|, UnaryGen(isNot, g).rv, r, c, m,
                     Lift(ApplyUnary(isNot, rx.v), rx.st), m')
  {
    hide CodeAt, Matches, Reaches, Raises, ExecOp, ApplyUnary;
    var op := if isNot then M.Not(g.r, g.rv.reg) else M.Neg(g.r, g.rv.reg);
    var a1 := a + |g.code|;
    CodeSplit(P, a, g.code, [op]);
    CodeOp(P, a1, [op], 0);
    var u := ApplyUnary(isNot, rx.v);
    StepUnary(P, m1, isNot, g.r, g.rv, rx.v);
    m' := RunDeliver(P, o, rx.st, m1, g.r, g.c, u);
    Continue(P, o, a1, g.rv, r, c, m, rx, m1, a1 + 1, RegValue(g.r, false, false), g.r, g.c, Lift(u, rx.st), m');
  }

  lemma GlueNc(P: Code, o: Owners, g: Gen, a: nat, r: nat, c: nat, m: VM, rx: EResult, m1: VM) returns (m': VM)
    requires CodeAt(P, a, NcGen(g).code)
    requires WellPlaced(g, r, c)
    requires g.rv.constant ==> g.r !in o
    requires ExprPost(P, o, a + |g.code|, g.rv, r, c, m, rx, m1)
    ensures ExprPost(P, o, a + |NcGen(g).code|, NcGen(g).rv, r, c, m, rx, m')
  {
    if rx.Exc? || !g.rv.constant {
      m' := m1;
    } else {
      CodeSplit(P, a, g.code, [M.StoreConst(g.r, g.rv.reg)]);
      CodeOp(P, a + |g.code|, [M.StoreConst(g.r, g.rv.reg)], 0);
      m' := RunMove(P, o, rx.st, m1, g.r, g.c, g.rv, rx.v);
      Continue(P, o, a + |g.code|, g.rv, r, c, m, rx, m1,
               a + |g.code| + 1, RegValue(g.r, false, false), g.r, g.c, rx, m');
    }
  }

  // ----- jumps -----

  /** A conditional jump on a Bool goes to `target` or to the next opcode. */
  lemma RunBranch(P: Code, o: Owners, st: State, m: VM, taken: bool, src: nat, target: nat, v: Value) returns (m': VM)
    requires Matches(o, st, m) && Holds(m, RegValue(src, false, false), v)
    requires m.bci < |P|
    requires P[m.bci] == if taken then M.JmpIfTrue(src, target) else M.JmpIfFalse(src, target)
    requires Even(P, m.bci, target)
    ensures v.Bool? ==> m' == m.(bci := if v.b == taken then target else m.bci + 1)
    ensures v.Bool? ==> Step(P, m) == Running(m') && Reaches(P, m, m')
    ensures !v.Bool? ==> m' == m && Raises(P, m, BoolExpected, m')
    ensures Matches(o, st, m')
  {
    if v.Bool? {
      m' := m.(bci := if v.b == taken then target else m.bci + 1);
      ReachesStep(P, m, m');
    } else {
      m' := m;
      ReachesSelf(P, m);
      RaisesStep(P, m, m, BoolExpected, m');
    }
    KeepMatch(o, st, m, m');
  }

  lemma RunJmp(P: Code, o: Owners, st: State, m: VM, target: nat) returns (m': VM)
    requires Matches(o, st, m) && m.bci < |P| && P[m.bci] == M.Jmp(target) && Even(P, m.bci, target)
    ensures m' == m.(bci := target) && Matches(o, st, m') && Reaches(P, m, m')
  {
    m' := m.(bci := target);
    ReachesStep(P, m, m');
    KeepMatch(o, st, m, m');
  }

  // ----- short circuit -----

  lemma ShortCode(P: Code, isAnd: bool, g: Gen, h: Gen, a: nat)
    requires CodeAt(P, a, ShortGen(isAnd, g, h, a + |g.code| + 3).code)
    ensures var a0 := a + |g.code|;
            && CodeAt(P, a, g.code) && CodeAt(P, a0 + 3, h.code)
            && a0 + 3 + |h.code| < |P|
            && P[a0] == M.Store(g.r, g.rv.reg)
            && P[a0 + 1] == (if isAnd then M.JmpIfTrue(g.rv.reg, a0 + 3) else M.JmpIfFalse(g.rv.reg, a0 + 3))
            && P[a0 + 2] == M.Jmp(a0 + 3 + |h.code| + 1)
            && P[a0 + 3 + |h.code|] == M.Store(g.r, h.rv.reg)
  {
    hide CodeAt, ExecOp;
    var a0 := a + |g.code|;
    var a1 := a0 + 3;
    var jump := if isAnd then M.JmpIfTrue(g.rv.reg, a1) else M.JmpIfFalse(g.rv.reg, a1);
    var head := [M.Store(g.r, g.rv.reg), jump, M.Jmp(a1 + |h.code| + 1)];
    var last := [M.Store(g.r, h.rv.reg)];
    CodeSplit(P, a, g.code, head + (h.code + last));
    ShortTail(P, head, h.code, last, a0);
  }

  lemma {:induction false} ShortTail(P: Code, head: Code, h: Code, last: Code, a: nat)
    requires |head| == 3 && |last| == 1 && CodeAt(P, a, head + (h + last))
    ensures CodeAt(P, a + 3, h) && a + 3 + |h| < |P|
    ensures P[a] == head[0] && P[a + 1] == head[1] && P[a + 2] == head[2] && P[a + 3 + |h|] == last[0]
  {
    hide CodeAt, ExecOp;
    CodeSplit(P, a, head, h + last);
    CodeSplit(P, a + 3, h, last);
    CodeOp(P, a, head, 0);
    CodeOp(P, a, head, 1);
    CodeOp(P, a, head, 2);
    CodeOp(P, a + 3 + |h|, last, 0);
  }

  lemma ShortEven(P: Code, isAnd: bool, g: Gen, h: Gen, a: nat)
    requires var code := ShortGen(isAnd, g, h, a + |g.code| + 3).code; CodeAt(P, a, code) && Plain(code)
    ensures var a0 := a + |g.code|; Even(P, a0 + 1, a0 + 3) && Even(P, a0 + 2, a0 + 3 + |h.code| + 1)
  {
    hide CodeAt, Plain, ExecOp;
    var a0 := a + |g.code|;
    var code := ShortGen(isAnd, g, h, a + |g.code| + 3).code;
    EvenPlain(P, a, code, a0 + 1, a0 + 3);
    EvenPlain(P, a, code, a0 + 2, a0 + 3 + |h.code| + 1);
  }

  lemma HoldsLoud(m: VM, rv: RegValue, v: Value)
    requires Holds(m, rv, v)
    ensures Holds(m, RegValue(rv.reg, rv.constant, false), v)
  {}

  lemma JumpKeeps(m: VM, m1: VM, at: nat, r: nat, c: nat, rv: RegValue, v: Value)
    requires Kept(m, m1, r, c) && Holds(m1, rv, v)
    ensures Kept(m, m1.(bci := at), r, c) && Holds(m1.(bci := at), rv, v)
  {}

  /** Up to the right operand: done, failed, or about to evaluate it at address `a0 + 3`. */
  lemma ShortHead(P: Code, o: Owners, isAnd: bool, g: Gen, a0: nat, end: nat, r: nat, c: nat,
                  m: VM, rl: EResult, m1: VM) returns (m': VM)
    requires a0 + 2 < |P| && P[a0] == M.Store(g.r, g.rv.reg) && P[a0 + 2] == M.Jmp(end)
    requires Even(P, a0 + 1, a0 + 3) && Even(P, a0 + 2, end)
    requires P[a0 + 1] == if isAnd then M.JmpIfTrue(g.rv.reg, a0 + 3) else M.JmpIfFalse(g.rv.reg, a0 + 3)
    requires WellPlaced(g, r, c) && !g.rv.constant && g.r !in o
    requires rl.Val? && ExprPost(P, o, a0, g.rv, r, c, m, rl, m1)
    ensures var rv := RegValue(g.r, false, false);
            if !rl.v.Bool? then ExprPost(P, o, end, rv, r, c, m, Exc(BoolExpected, rl.st), m')
            else if rl.v.b == isAnd then ExprPost(P, o, a0 + 3, rv, r, c, m, rl, m')
            else ExprPost(P, o, end, rv, r, c, m, rl, m')
  {
    hide WellPlaced, Matches, Kept, Holds, Reaches, Raises, Even, ExecOp;
    var rv := RegValue(g.r, false, false);
    PlacedRange(g, r, c);
    var m2 := RunMove(P, o, rl.st, m1, g.r, g.c, g.rv, rl.v);
    StillHolds(g, r, c, m1, m2, rl.v);
    HoldsLoud(m2, g.rv, rl.v);
    Continue(P, o, a0, g.rv, r, c, m, rl, m1, a0 + 1, rv, g.r, g.c, Val(rl.v, rl.st), m2);
    m' := RunBranch(P, o, rl.st, m2, isAnd, g.rv.reg, a0 + 3, rl.v);
    if !rl.v.Bool? {
      RaisesTrans(P, m, m2, BoolExpected, m');
    } else {
      ReachesTrans(P, m, m2, m');
      if rl.v.b != isAnd {
        var m3 := m';
        m' := RunJmp(P, o, rl.st, m3, end);
        ReachesTrans(P, m, m3, m');
      }
      JumpKeeps(m, m2, m'.bci, r, c, rv, rl.v);
    }
  }

  /** A second value, moved into the temporary `dst` that is the result. */
  lemma ThenMove(P: Code, o: Owners, dst: nat, rv: RegValue, end1: nat, end: nat, r: nat, c: nat, r1: nat, c1: nat,
                 m: VM, res1: EResult, m1: VM, res: EResult, m2: VM) returns (m': VM)
    requires r <= dst < r1 && c <= c1 && dst !in o
    requires end < |P| && P[end] == Move(dst, rv)
    requires res1.Val? && ExprPost(P, o, end1, RegValue(dst, false, false), r, c, m, res1, m1)
    requires ExprPost(P, o, end, rv, r1, c1, m1, res, m2)
    ensures ExprPost(P, o, end + 1, RegValue(dst, false, false), r, c, m, res, m')
  {
    var out := RegValue(dst, false, false);
    Continue(P, o, end1, out, r, c, m, res1, m1, end, rv, r1, c1, res, m2);
    if res.Exc? {
      m' := m2;
    } else {
      m' := RunMove(P, o, res.st, m2, dst, c, rv, res.v);
      Continue(P, o, end, rv, r, c, m, res, m2, end + 1, out, dst, c, res, m');
    }
  }

  // ----- ternary -----

  lemma TernaryCode(P: Code, g: Gen, h: Gen, k: Gen, a: nat)
    requires CodeAt(P, a, TernaryGen(g, h, k, a + |g.code| + 1 + |h.code| + 2).code)
    ensures var a0 := a + |g.code|;
            var a2 := a0 + 1 + |h.code| + 2;
            && CodeAt(P, a, g.code) && CodeAt(P, a0 + 1, h.code) && CodeAt(P, a2, k.code)
            && a2 + |k.code| < |P|
            && P[a0] == M.JmpIfFalse(g.rv.reg, a2)
            && P[a2 - 2] == Move(g.r, h.rv) && P[a2 - 1] == M.Jmp(a2 + |k.code| + 1)
            && P[a2 + |k.code|] == Move(g.r, k.rv)
  {
    hide CodeAt, Move;
    var a2 := a + |g.code| + 1 + |h.code| + 2;
    var j := [M.JmpIfFalse(g.rv.reg, a2)];
    var mid := [Move(g.r, h.rv), M.Jmp(a2 + |k.code| + 1)];
    var last := [Move(g.r, k.rv)];
    TernaryParts(P, a, g.code, j, h.code, mid, k.code, last);
  }

  lemma {:induction false} TernaryParts(P: Code, a: nat, g: Code, j: Code, h: Code, mid: Code, k: Code, last: Code)
    requires |j| == 1 && |mid| == 2 && |last| == 1
    requires CodeAt(P, a, g + (j + (h + (mid + (k + last)))))
    ensures var a0 := a + |g|;
            var a2 := a0 + 1 + |h| + 2;
            && CodeAt(P, a, g) && CodeAt(P, a0 + 1, h) && CodeAt(P, a2, k) && a2 + |k| < |P|
            && P[a0] == j[0] && P[a2 - 2] == mid[0] && P[a2 - 1] == mid[1] && P[a2 + |k|] == last[0]
  {
    hide *;
    var a0 := a + |g|;
    var a2 := a0 + 1 + |h| + 2;
    CodeSplit(P, a, g, j + (h + (mid + (k + last))));
    CodeSplit(P, a0, j, h + (mid + (k + last)));
    CodeSplit(P, a0 + 1, h, mid + (k + last));
    CodeOp(P, a0, j, 0);
    TernaryTail(P, mid, k, last, a2 - 2);
  }

  lemma {:induction false} TernaryTail(P: Code, mid: Code, k: Code, last: Code, a: nat)
    requires |mid| == 2 && |last| == 1 && CodeAt(P, a, mid + (k + last))
    ensures CodeAt(P, a + 2, k) && a + 2 + |k| < |P|
    ensures P[a] == mid[0] && P[a + 1] == mid[1] && P[a + 2 + |k|] == last[0]
  {
    hide CodeAt;
    CodeSplit(P, a, mid, k + last);
    CodeSplit(P, a + 2, k, last);
    CodeOp(P, a, mid, 0);
    CodeOp(P, a, mid, 1);
    CodeOp(P, a + 2 + |k|, last, 0);
  }

  lemma TernaryEven(P: Code, g: Gen, h: Gen, k: Gen, a: nat)
    requires var code := TernaryGen(g, h, k, a + |g.code| + 1 + |h.code| + 2).code; CodeAt(P, a, code) && Plain(code)
    ensures var a0 := a + |g.code|;
            var a2 := a0 + 1 + |h.code| + 2;
            Even(P, a0, a2) && Even(P, a2 - 1, a2 + |k.code| + 1)
  {
    hide CodeAt, Plain;
    var a2 := a + |g.code| + 1 + |h.code| + 2;
    var code := TernaryGen(g, h, k, a2).code;
    EvenPlain(P, a, code, a + |g.code|, a2);
    EvenPlain(P, a, code, a2 - 1, a2 + |k.code| + 1);
  }

  lemma TernaryEnd(g: Gen, h: Gen, k: Gen, a: nat)
    ensures var a2 := a + |g.code| + 1 + |h.code| + 2;
            var t := TernaryGen(g, h, k, a2);
            a + |t.code| == a2 + |k.code| + 1 && t.rv == RegValue(g.r, false, false)
  {}

  /** The conditional jump after a condition: failed, or at the start of one of two branches. */
  lemma CondBranch(P: Code, o: Owners, rv: RegValue, at: nat, target: nat, r: nat, c: nat,
                   m: VM, res: EResult, m1: VM) returns (m': VM)
    requires at < |P| && P[at] == M.JmpIfFalse(rv.reg, target) && !rv.constant && Even(P, at, target)
    requires res.Val? && ExprPost(P, o, at, rv, r, c, m, res, m1)
    ensures if !res.v.Bool? then ExprPost(P, o, at, rv, r, c, m, Exc(BoolExpected, res.st), m')
            else ExprPost(P, o, if res.v.b then at + 1 else target, rv, r, c, m, res, m')
  {
    m' := RunBranch(P, o, res.st, m1, false, rv.reg, target, res.v);
    if !res.v.Bool? {
      RaisesTrans(P, m, m1, BoolExpected, m');
    } else {
      ReachesTrans(P, m, m1, m');
    }
  }

  /** A branch's value goes to `dst`, and then control jumps to `end`. */
  lemma BranchValue(P: Code, o: Owners, dst: nat, rv: RegValue, at: nat, end: nat, r: nat, c: nat, r1: nat, c1: nat,
                    m: VM, rv1: RegValue, end1: nat, res1: EResult, m1: VM, res: EResult, m2: VM) returns (m': VM)
    requires r <= dst && r <= r1 && c <= c1 && dst !in o
    requires at < |P| && P[at] == Move(dst, rv)
    requires at + 1 == end || (at + 1 < |P| && P[at + 1] == M.Jmp(end) && Even(P, at + 1, end))
    requires res1.Val? && ExprPost(P, o, end1, rv1, r, c, m, res1, m1)
    requires ExprPost(P, o, at, rv, r1, c1, m1, res, m2)
    ensures ExprPost(P, o, end, RegValue(dst, false, false), r, c, m, res, m')
  {
    hide Matches, Reaches, Raises, Even, ExecOp;
    Continue(P, o, end1, rv1, r, c, m, res1, m1, at, rv, r1, c1, res, m2);
    if res.Exc? {
      m' := m2;
    } else {
      m' := RunMove(P, o, res.st, m2, dst, c, rv, res.v);
      ReachesTrans(P, m, m2, m');
      if at + 1 != end {
        var m3 := m';
        m' := RunJmp(P, o, res.st, m3, end);
        ReachesTrans(P, m, m3, m');
      }
    }
  }

  // ----- assignments -----

  lemma GlueSet(P: Code, o: Owners, n: string, g: Gen, a: nat, r: nat, c: nat, m: VM, res: EResult, m1: VM)
    returns (m': VM)
    requires CodeAt(P, a, SetGen(g, n).code)
    requires WellPlaced(g, r, c) && Owns(o, g.r, n, None)
    requires res.Val? && ExprPost(P, o, a + |g.code|, g.rv, r, c, m, res, m1)
    ensures ExprPost(P, o, a + |g.code| + 2, RegValue(g.r, false, true), r, c, m,
                     Val(res.v, Assign(res.st, n, res.v)), m')
  {
    var a0 := a + |g.code|;
    var tail := [Move(g.r, g.rv), M.StoreName(g.r, n)];
    CodeSplit(P, a, g.code, tail);
    CodeOp(P, a0, tail, 0);
    CodeOp(P, a0, tail, 1);
    StepMove(P, m1, g.r, g.rv, res.v);
    m' := RunWriteAndBind(P, o, res.st, m1, g.r, n, None, res.v);
    ReachesTrans(P, m, m1, m');
  }

  lemma SetOpCode(P: Code, op: BinOp, n: string, r: nat, g: Gen, a: nat)
    requires CodeAt(P, a, SetOpGen(op, n, r, g).code)
    ensures var a1 := a + 1 + |g.code|;
            && CodeAt(P, a + 1, g.code) && a1 + 1 < |P|
            && P[a] == M.Load(r, n)
            && P[a1] == M.BinExpr(op, if g.rv.constant then M.RegConst else M.RegReg, r, r, g.rv.reg)
            && P[a1 + 1] == M.StoreName(r, n)
  {
    hide CodeAt;
    var head := [M.Load(r, n)];
    var tail := [M.BinExpr(op, if g.rv.constant then M.RegConst else M.RegReg, r, r, g.rv.reg), M.StoreName(r, n)];
    CodeSplit(P, a, head, g.code + tail);
    CodeSplit(P, a + 1, g.code, tail);
    CodeOp(P, a, head, 0);
    CodeOp(P, a + 1 + |g.code|, tail, 0);
    CodeOp(P, a + 1 + |g.code|, tail, 1);
  }

  /** Loading a variable, into a temporary or into a register that the variable owns. */
  lemma RunLoad(P: Code, o: Owners, st: State, m: VM, q: nat, c: nat, n: string) returns (m': VM)
    requires Matches(o, st, m) && (q !in o || Owns(o, q, n, None))
    requires m.bci < |P| && P[m.bci] == M.Load(q, n)
    ensures ExprPost(P, o, m.bci + 1, RegValue(q, false, false), q, c, m,
                     if n in st.vars then Val(st.vars[n].v, st) else Exc(NameError(n), st), m')
  {
    if n in st.vars {
      assert Bound(o, st, m, n);
      m' := Put(m, q, st.vars[n].v);
      if q in o {
        WriteOwned(o, st, m, q, n, None, st.vars[n].v);
      } else {
        WriteTemp(o, st, m, q, st.vars[n].v);
      }
      ReachesStep(P, m, m');
    } else {
      m' := m;
      ReachesSelf(P, m);
      RaisesStep(P, m, m, NameError(n), m');
    }
  }

  lemma SetOpTail(P: Code, o: Owners, op: BinOp, n: string, q: nat, rv: RegValue, at: nat, r1: nat, c1: nat,
                  r: nat, c: nat, m: VM, end1: nat, v: Value, st: State, m1: VM, res: EResult, m2: VM) returns (m': VM)
    requires at + 1 < |P| && P[at + 1] == M.StoreName(q, n)
    requires P[at] == M.BinExpr(op, if rv.constant then M.RegConst else M.RegReg, q, q, rv.reg)
    requires r <= q < r1 && c <= c1 && Owns(o, q, n, None)
    requires ExprPost(P, o, end1, RegValue(q, false, false), r, c, m, Val(v, st), m1)
    requires res.Val? && ExprPost(P, o, at, rv, r1, c1, m1, res, m2)
    ensures ExprPost(P, o, at + 2, RegValue(q, false, true), r, c, m,
                     match Apply(op, v, res.v)
                     case Ok(w) => Val(w, Assign(res.st, n, w))
                     case Err(x) => Exc(x, res.st), m')
  {
    hide Matches, Reaches, Raises;
    var x := RegValue(q, false, false);
    assert Holds(m2, x, v);
    StepBin(P, m2, op, x, rv, q, v, res.v);
    KeptTrans(m, m1, m2, r, c, r1, c1);
    ReachesTrans(P, m, m1, m2);
    match Apply(op, v, res.v)
    case Ok(w) =>
      m' := RunWriteAndBind(P, o, res.st, m2, q, n, None, w);
      ReachesTrans(P, m, m2, m');
    case Err(e) =>
      m' := m2;
      RaisesStep(P, m, m2, e, m');
  }

  // ----- the simulation -----

  lemma {:induction false} SimExpr(P: Code, o: Owners, e: Expr, a: nat, r: nat, c: nat, st: State, m: VM) returns (m': VM)
    requires CodeAt(P, a, EmitExpr(e, a, r, c).code) && OwnedExpr(e, a, r, c, o)
    requires Matches(o, st, m) && m.bci == a
    ensures var g := EmitExpr(e, a, r, c); ExprPost(P, o, a + |g.code|, g.rv, r, c, m, Eval(e, st), m')
    decreases e, 4
  {
    hide *;
    match e
    case Lit(l) => m' := SimLit(P, o, l, a, r, c, st, m);
    case ListLit(es) => m' := SimList(P, o, es, a, r, c, st, m);
    case Variable(n) => m' := SimVariable(P, o, n, a, r, c, st, m);
    case Binary(op, x, y) => m' := SimBinary(P, o, op, x, y, a, r, c, st, m);
    case Short(isAnd, x, y) => m' := SimShort(P, o, isAnd, x, y, a, r, c, st, m);
    case Unary(isNot, x) => m' := SimUnary(P, o, isNot, x, a, r, c, st, m);
    case Ternary(cond, t, f) => m' := SimTernary(P, o, cond, t, f, a, r, c, st, m);
    case Set(n, x) => m' := SimSet(P, o, n, x, a, r, c, st, m);
    case SetOp(op, n, x) => m' := SimSetOp(P, o, op, n, x, a, r, c, st, m);
  }

  lemma SimLit(P: Code, o: Owners, l: Literal, a: nat, r: nat, c: nat, st: State, m: VM) returns (m': VM)
    requires CodeAt(P, a, EmitExpr(Lit(l), a, r, c).code)
    requires Matches(o, st, m) && m.bci == a
    ensures var g := EmitExpr(Lit(l), a, r, c); ExprPost(P, o, a + |g.code|, g.rv, r, c, m, Eval(Lit(l), st), m')
  {
    CodeOp(P, a, [StoreLit(c, l)], 0);
    m' := PutConst(m, c, LitVal(l));
    ReachesStep(P, m, m');
    KeepMatch(o, st, m, m');
  }

  /** An expression brought into the variable pool. */
  lemma SimNc(P: Code, o: Owners, e: Expr, a: nat, r: nat, c: nat, st: State, m: VM) returns (m': VM)
    requires CodeAt(P, a, EmitNc(e, a, r, c).code) && OwnedNc(e, a, r, c, o)
    requires Matches(o, st, m) && m.bci == a
    ensures var g := EmitNc(e, a, r, c); ExprPost(P, o, a + |g.code|, g.rv, r, c, m, Eval(e, st), m')
    decreases e, 5
  {
    hide CodeAt, Matches, ExprPost, EmitExpr, OwnedExpr, Eval, WellPlaced, ExecOp;
    var g := EmitExpr(e, a, r, c);
    ExprPlaced(e, a, r, c);
    if g.rv.constant {
      CodeSplit(P, a, g.code, [M.StoreConst(g.r, g.rv.reg)]);
    }
    var m1 := SimExpr(P, o, e, a, r, c, st, m);
    m' := GlueNc(P, o, g, a, r, c, m, Eval(e, st), m1);
  }

  lemma SimBinary(P: Code, o: Owners, op: BinOp, x: Expr, y: Expr, a: nat, r: nat, c: nat, st: State, m: VM) returns (m': VM)
    requires var e := Binary(op, x, y); CodeAt(P, a, EmitExpr(e, a, r, c).code) && OwnedExpr(e, a, r, c, o)
    requires Matches(o, st, m) && m.bci == a
    ensures var e := Binary(op, x, y); var g := EmitExpr(e, a, r, c);
            ExprPost(P, o, a + |g.code|, g.rv, r, c, m, Eval(e, st), m')
    decreases Binary(op, x, y), 2
  {
    hide CodeAt, WellPlaced, Matches, ExprPost, EmitExpr, OwnedExpr, BinaryGen, ExecOp;
    UnfoldBinaryCode(op, x, y, a, r, c);
    UnfoldBinaryOwned(op, x, y, a, r, c, o);
    var g := EmitExpr(x, a, r, c);
    var a1 := a + |g.code|;
    var h := EmitExpr(y, a1, g.r, g.c);
    var out := BinaryGen(op, g, h);
    BinaryCode(P, op, g, h, a);
    ExprPlaced(x, a, r, c);
    ExprPlaced(y, a1, g.r, g.c);
    var rl := Eval(x, st);
    var m1 := SimExpr(P, o, x, a, r, c, st, m);
    if rl.Exc? {
      m' := m1;
      Propagate(P, o, a1, g.rv, r, c, m, rl, m1, a + |out.code|, out.rv);
    } else {
      Landed(P, o, a1, g.rv, r, c, m, rl, m1);
      var m2 := SimExpr(P, o, y, a1, g.r, g.c, rl.st, m1);
      m' := GlueBinary(P, o, op, g, h, a, r, c, m, rl, m1, Eval(y, rl.st), m2);
    }
  }

  lemma BinaryCode(P: Code, op: BinOp, g: Gen, h: Gen, a: nat)
    requires CodeAt(P, a, BinaryGen(op, g, h).code)
    ensures CodeAt(P, a, g.code) && CodeAt(P, a + |g.code|, h.code)
    ensures CodeAt(P, a + |g.code| + |h.code|, BinTail(op, g.rv, h.rv, h.r))
  {
    hide CodeAt;
    CodeSplit(P, a, g.code, h.code + BinTail(op, g.rv, h.rv, h.r));
    CodeSplit(P, a + |g.code|, h.code, BinTail(op, g.rv, h.rv, h.r));
  }

  lemma SimVariable(P: Code, o: Owners, n: string, a: nat, r: nat, c: nat, st: State, m: VM) returns (m': VM)
    requires var e := Variable(n); CodeAt(P, a, EmitExpr(e, a, r, c).code) && OwnedExpr(e, a, r, c, o)
    requires Matches(o, st, m) && m.bci == a
    ensures var e := Variable(n); var g := EmitExpr(e, a, r, c);
            ExprPost(P, o, a + |g.code|, g.rv, r, c, m, Eval(e, st), m')
  {
    hide ExprPost, Matches, CodeAt, ExecOp;
    CodeOp(P, a, [M.Load(r, n)], 0);
    m' := RunLoad(P, o, st, m, r, c, n);
  }

  lemma UnfoldUnary(isNot: bool, x: Expr, a: nat, r: nat, c: nat, o: Owners, st: State)
    ensures var e := Unary(isNot, x);
            var g, rx := EmitNc(x, a, r, c), Eval(x, st);
            && EmitExpr(e, a, r, c) == UnaryGen(isNot, g)
            && (OwnedExpr(e, a, r, c, o) <==> OwnedNc(x, a, r, c, o) && g.r !in o)
            && Eval(e, st) == if rx.Exc? then rx else Lift(ApplyUnary(isNot, rx.v), rx.st)
  {
    hide EmitNc, OwnedNc, UnaryGen, ApplyUnary;
  }

  lemma SimUnary(P: Code, o: Owners, isNot: bool, x: Expr, a: nat, r: nat, c: nat, st: State, m: VM) returns (m': VM)
    requires var e := Unary(isNot, x); CodeAt(P, a, EmitExpr(e, a, r, c).code) && OwnedExpr(e, a, r, c, o)
    requires Matches(o, st, m) && m.bci == a
    ensures var e := Unary(isNot, x); var g := EmitExpr(e, a, r, c);
            ExprPost(P, o, a + |g.code|, g.rv, r, c, m, Eval(e, st), m')
    decreases Unary(isNot, x), 2
  {
    hide CodeAt, WellPlaced, Matches, Kept, Holds, Reaches, Raises, ExprPost, EmitExpr, EmitNc, OwnedExpr, OwnedNc, Eval, ApplyUnary, ExecOp;
    UnfoldUnary(isNot, x, a, r, c, o, st);
    var g := EmitNc(x, a, r, c);
    var out := UnaryGen(isNot, g);
    CodeSplit(P, a, g.code, [if isNot then M.Not(g.r, g.rv.reg) else M.Neg(g.r, g.rv.reg)]);
    NcPlaced(x, a, r, c);
    var rx := Eval(x, st);
    var m1 := SimNc(P, o, x, a, r, c, st, m);
    if rx.Exc? {
      m' := m1;
      Propagate(P, o, a + |g.code|, g.rv, r, c, m, rx, m1, a + |out.code|, out.rv);
    } else {
      m' := GlueUnary(P, o, isNot, g, a, r, c, m, rx, m1);
    }
  }

  lemma SimShort(P: Code, o: Owners, isAnd: bool, x: Expr, y: Expr, a: nat, r: nat, c: nat, st: State, m: VM) returns (m': VM)
    requires var e := Short(isAnd, x, y); CodeAt(P, a, EmitExpr(e, a, r, c).code) && OwnedExpr(e, a, r, c, o)
    requires Matches(o, st, m) && m.bci == a
    ensures var e := Short(isAnd, x, y); var g := EmitExpr(e, a, r, c);
            ExprPost(P, o, a + |g.code|, g.rv, r, c, m, Eval(e, st), m')
    decreases Short(isAnd, x, y), 2
  {
    hide CodeAt, WellPlaced, Plain, Even, Matches, ExprPost, EmitNc, OwnedNc, EmitExpr, OwnedExpr, ExecOp;
    UnfoldShortCode(isAnd, x, y, a, r, c);
    UnfoldShortOwned(isAnd, x, y, a, r, c, o);
    var g := EmitNc(x, a, r, c);
    var a0 := a + |g.code|;
    var h := EmitNc(y, a0 + 3, g.r + 1, g.c);
    var end := a0 + 3 + |h.code| + 1;
    var out := RegValue(g.r, false, false);
    NcPlaced(x, a, r, c);
    NcPlaced(y, a0 + 3, g.r + 1, g.c);
    ExprPlaced(Short(isAnd, x, y), a, r, c);
    PlacedPlain(EmitExpr(Short(isAnd, x, y), a, r, c), r, c);
    ShortCode(P, isAnd, g, h, a);
    ShortEven(P, isAnd, g, h, a);
    var rl := Eval(x, st);
    var m1 := SimNc(P, o, x, a, r, c, st, m);
    if rl.Exc? {
      m' := m1;
      Propagate(P, o, a0, g.rv, r, c, m, rl, m1, end, out);
    } else {
      m' := ShortHead(P, o, isAnd, g, a0, end, r, c, m, rl, m1);
      if rl.v.Bool? && rl.v.b == isAnd {
        m' := ShortRight(P, o, g, h, y, a0, r, c, m, rl, m');
      }
    }
  }

  lemma ShortRight(P: Code, o: Owners, g: Gen, h: Gen, y: Expr, a0: nat, r: nat, c: nat, m: VM, rl: EResult, m1: VM)
    returns (m': VM)
    requires h == EmitNc(y, a0 + 3, g.r + 1, g.c) && OwnedNc(y, a0 + 3, g.r + 1, g.c, o)
    requires WellPlaced(g, r, c) && !g.rv.constant && g.r !in o
    requires CodeAt(P, a0 + 3, h.code)
    requires a0 + 3 + |h.code| < |P| && P[a0 + 3 + |h.code|] == M.Store(g.r, h.rv.reg)
    requires rl.Val? && ExprPost(P, o, a0 + 3, RegValue(g.r, false, false), r, c, m, rl, m1)
    ensures ExprPost(P, o, a0 + 3 + |h.code| + 1, RegValue(g.r, false, false), r, c, m, Eval(y, rl.st), m')
    decreases y, 6
  {
    hide CodeAt, Matches, EmitNc, OwnedNc, Eval, ExecOp;
    NcPlaced(y, a0 + 3, g.r + 1, g.c);
    var m2 := SimNc(P, o, y, a0 + 3, g.r + 1, g.c, rl.st, m1);
    m' := ThenMove(P, o, g.r, h.rv, a0 + 3, a0 + 3 + |h.code|, r, c, g.r + 1, g.c, m, rl, m1, Eval(y, rl.st), m2);
  }

  lemma SimTernary(P: Code, o: Owners, cond: Expr, t: Expr, f: Expr, a: nat, r: nat, c: nat, st: State, m: VM)
    returns (m': VM)
    requires var e := Ternary(cond, t, f); CodeAt(P, a, EmitExpr(e, a, r, c).code) && OwnedExpr(e, a, r, c, o)
    requires Matches(o, st, m) && m.bci == a
    ensures var e := Ternary(cond, t, f); var g := EmitExpr(e, a, r, c);
            ExprPost(P, o, a + |g.code|, g.rv, r, c, m, Eval(e, st), m')
    decreases Ternary(cond, t, f), 2
  {
    hide CodeAt, WellPlaced, Plain, Even, Matches, ExprPost, EmitExpr, EmitNc, OwnedExpr, OwnedNc, TernaryGen, ExecOp, Apply, ApplyUnary,
      EvalAll, Assign, Lift, LitVal, Reaches, Raises, Kept, Holds;
    UnfoldTernaryCode(cond, t, f, a, r, c);
    UnfoldTernaryOwned(cond, t, f, a, r, c, o);
    var g := EmitNc(cond, a, r, c);
    var a0 := a + |g.code|;
    var h := EmitExpr(t, a0 + 1, g.r + 1, g.c);
    var a2 := a0 + 1 + |h.code| + 2;
    var k := EmitExpr(f, a2, h.r, h.c);
    var end := a2 + |k.code| + 1;
    var out := RegValue(g.r, false, false);
    NcPlaced(cond, a, r, c);
    ExprPlaced(t, a0 + 1, g.r + 1, g.c);
    ExprPlaced(Ternary(cond, t, f), a, r, c);
    PlacedPlain(EmitExpr(Ternary(cond, t, f), a, r, c), r, c);
    TernaryCode(P, g, h, k, a);
    TernaryEven(P, g, h, k, a);
    TernaryEnd(g, h, k, a);
    var rc := Eval(cond, st);
    var m1 := SimNc(P, o, cond, a, r, c, st, m);
    if rc.Exc? {
      m' := m1;
      Propagate(P, o, a0, g.rv, r, c, m, rc, m1, end, out);
    } else {
      m' := TernaryRest(P, o, g, h, k, Ternary(cond, t, f), a0, r, c, m, rc, m1);
    }
  }

  /** What a condition's result selects. */
  function Choose(rc: EResult, t: EResult, f: EResult): EResult
    requires rc.Val?
  {
    if !rc.v.Bool? then Exc(BoolExpected, rc.st) else if rc.v.b then t else f
  }

  lemma TernaryRest(P: Code, o: Owners, g: Gen, h: Gen, k: Gen, e: Expr, a0: nat, r: nat, c: nat,
                    m: VM, rc: EResult, m1: VM) returns (m': VM)
    requires WellPlaced(g, r, c) && !g.rv.constant && g.r !in o
    requires WellPlaced(h, g.r + 1, g.c) && e.Ternary?
    requires h == EmitExpr(e.onTrue, a0 + 1, g.r + 1, g.c) && OwnedExpr(e.onTrue, a0 + 1, g.r + 1, g.c, o)
    requires var a2 := a0 + 1 + |h.code| + 2;
             && k == EmitExpr(e.onFalse, a2, h.r, h.c) && OwnedExpr(e.onFalse, a2, h.r, h.c, o)
             && CodeAt(P, a0 + 1, h.code) && CodeAt(P, a2, k.code)
             && a2 + |k.code| < |P| && Even(P, a0, a2) && Even(P, a2 - 1, a2 + |k.code| + 1)
             && P[a0] == M.JmpIfFalse(g.rv.reg, a2)
             && P[a2 - 2] == Move(g.r, h.rv) && P[a2 - 1] == M.Jmp(a2 + |k.code| + 1)
             && P[a2 + |k.code|] == Move(g.r, k.rv)
    requires rc.Val? && ExprPost(P, o, a0, g.rv, r, c, m, rc, m1)
    ensures ExprPost(P, o, a0 + 1 + |h.code| + 2 + |k.code| + 1, RegValue(g.r, false, false), r, c, m,
                     Choose(rc, Eval(e.onTrue, rc.st), Eval(e.onFalse, rc.st)), m')
    decreases e, 1
  {
    hide CodeAt, Matches, ExprPost, EmitExpr, OwnedExpr, Eval;
    var a2 := a0 + 1 + |h.code| + 2;
    var end := a2 + |k.code| + 1;
    var m2 := CondBranch(P, o, g.rv, a0, a2, r, c, m, rc, m1);
    if !rc.v.Bool? {
      m' := m2;
      Propagate(P, o, a0, g.rv, r, c, m, Exc(BoolExpected, rc.st), m2, end, RegValue(g.r, false, false));
    } else if rc.v.b {
      m' := TernaryArm(P, o, g, h, e.onTrue, a0 + 1, end, g.r + 1, g.c, r, c, m, rc, m2);
    } else {
      m' := TernaryArm(P, o, g, k, e.onFalse, a2, end, h.r, h.c, r, c, m, rc, m2);
    }
  }

  lemma TernaryArm(P: Code, o: Owners, g: Gen, h: Gen, e: Expr, a: nat, end: nat, r1: nat, c1: nat, r: nat, c: nat,
                   m: VM, rc: EResult, m1: VM) returns (m': VM)
    requires h == EmitExpr(e, a, r1, c1) && OwnedExpr(e, a, r1, c1, o) && CodeAt(P, a, h.code)
    requires WellPlaced(g, r, c) && g.r !in o && g.r < r1 && g.c <= c1
    requires a + |h.code| < |P| && P[a + |h.code|] == Move(g.r, h.rv)
    requires a + |h.code| + 1 == end || (a + |h.code| + 1 < |P| && P[a + |h.code| + 1] == M.Jmp(end) && Even(P, a + |h.code| + 1, end))
    requires rc.Val? && ExprPost(P, o, a, g.rv, r, c, m, rc, m1)
    ensures ExprPost(P, o, end, RegValue(g.r, false, false), r, c, m, Eval(e, rc.st), m')
    decreases e, 6
  {
    hide CodeAt, Matches, EmitExpr, OwnedExpr, Eval;
    var m2 := SimExpr(P, o, e, a, r1, c1, rc.st, m1);
    m' := BranchValue(P, o, g.r, h.rv, a + |h.code|, end, r, c, r1, c1, m, g.rv, a, rc, m1, Eval(e, rc.st), m2);
  }

  lemma {:induction false} UnfoldSet(n: string, x: Expr, a: nat, r: nat, c: nat, o: Owners)
    ensures EmitExpr(Set(n, x), a, r, c) == SetGen(EmitExpr(x, a, r, c), n)
    ensures OwnedExpr(Set(n, x), a, r, c, o) <==> OwnedExpr(x, a, r, c, o) && Owns(o, EmitExpr(x, a, r, c).r, n, None)
  {
    hide EmitNc, EmitElems, OwnedNc, OwnedElems, SetGen;
  }

  lemma SimSet(P: Code, o: Owners, n: string, x: Expr, a: nat, r: nat, c: nat, st: State, m: VM) returns (m': VM)
    requires var e := Set(n, x); CodeAt(P, a, EmitExpr(e, a, r, c).code) && OwnedExpr(e, a, r, c, o)
    requires Matches(o, st, m) && m.bci == a
    ensures var e := Set(n, x); var g := EmitExpr(e, a, r, c);
            ExprPost(P, o, a + |g.code|, g.rv, r, c, m, Eval(e, st), m')
    decreases Set(n, x), 2
  {
    hide CodeAt, WellPlaced, Matches, EmitExpr, EmitNc, OwnedExpr, OwnedNc, ExprPost, ExecOp;
    UnfoldSet(n, x, a, r, c, o);
    var g := EmitExpr(x, a, r, c);
    CodeSplit(P, a, g.code, [Move(g.r, g.rv), M.StoreName(g.r, n)]);
    ExprPlaced(x, a, r, c);
    var rx := Eval(x, st);
    var m1 := SimExpr(P, o, x, a, r, c, st, m);
    if rx.Exc? {
      m' := m1;
      Propagate(P, o, a + |g.code|, g.rv, r, c, m, rx, m1, a + |g.code| + 2, RegValue(g.r, false, true));
    } else {
      m' := GlueSet(P, o, n, g, a, r, c, m, rx, m1);
    }
  }

  lemma {:induction false} UnfoldSetOp(op: BinOp, n: string, x: Expr, a: nat, r: nat, c: nat, o: Owners)
    ensures EmitExpr(SetOp(op, n, x), a, r, c) == SetOpGen(op, n, r, EmitExpr(x, a + 1, r + 1, c))
    ensures OwnedExpr(SetOp(op, n, x), a, r, c, o) <==> Owns(o, r, n, None) && OwnedExpr(x, a + 1, r + 1, c, o)
  {
    hide EmitNc, EmitElems, OwnedNc, OwnedElems, SetOpGen;
  }

  lemma SimSetOp(P: Code, o: Owners, op: BinOp, n: string, x: Expr, a: nat, r: nat, c: nat, st: State, m: VM) returns (m': VM)
    requires var e := SetOp(op, n, x); CodeAt(P, a, EmitExpr(e, a, r, c).code) && OwnedExpr(e, a, r, c, o)
    requires Matches(o, st, m) && m.bci == a
    ensures var e := SetOp(op, n, x); var g := EmitExpr(e, a, r, c);
            ExprPost(P, o, a + |g.code|, g.rv, r, c, m, Eval(e, st), m')
    decreases SetOp(op, n, x), 2
  {
    hide CodeAt, WellPlaced, Matches, ExprPost, EmitExpr, EmitNc, OwnedExpr, OwnedNc, ExecOp;
    UnfoldSetOp(op, n, x, a, r, c, o);
    var g := EmitExpr(x, a + 1, r + 1, c);
    var a1 := a + 1 + |g.code|;
    var q := RegValue(r, false, false);
    var out := RegValue(r, false, true);
    SetOpCode(P, op, n, r, g, a);
    var m1 := RunLoad(P, o, st, m, r, c, n);
    if n !in st.vars {
      m' := m1;
      Propagate(P, o, a + 1, q, r, c, m, Exc(NameError(n), st), m1, a1 + 2, out);
    } else {
      var v := st.vars[n].v;
      Landed(P, o, a + 1, q, r, c, m, Val(v, st), m1);
      var m2 := SimExpr(P, o, x, a + 1, r + 1, c, st, m1);
      var rx := Eval(x, st);
      if rx.Exc? {
        m' := m2;
        Continue(P, o, a + 1, q, r, c, m, Val(v, st), m1, a1, g.rv, r + 1, c, rx, m2);
        Propagate(P, o, a1, g.rv, r, c, m, rx, m2, a1 + 2, out);
      } else {
        m' := SetOpTail(P, o, op, n, r, g.rv, a1, r + 1, c, r, c, m, a + 1, v, st, m1, rx, m2);
      }
    }
  }

  // ----- lists -----

  /** Elements evaluated so far are in the list register; the rest is pushed after them. */
  ghost predicate ElemsPost(P: Code, o: Owners, list: nat, end: nat, r: nat, c: nat, m: VM,
                            done: seq<Value>, res: LResult, m': VM) {
    && Matches(o, res.st, m')
    && Kept(m, m', r, c)
    && (match res
        case Vals(vs, _) =>
          Reaches(P, m, m') && m'.bci == end && list in m'.regs && m'.regs[list] == ListVal(done + vs)
        case LExc(x, _) => Raises(P, m, x, m'))
  }

  /** Evaluating one element and pushing it. */
  lemma RunPush(P: Code, o: Owners, list: nat, rv: RegValue, r: nat, c: nat, r1: nat, c1: nat, m: VM,
                done: seq<Value>, res: EResult, m1: VM) returns (m': VM)
    requires r <= list < r1 && c <= c1 && list !in o
    requires list in m.regs && m.regs[list] == ListVal(done)
    requires res.Val? && ExprPost(P, o, m1.bci, rv, r1, c1, m, res, m1)
    requires m1.bci < |P| && P[m1.bci] == PushTo(list, rv)
    ensures ElemsPost(P, o, list, m1.bci + 1, r, c, m, done, Vals([res.v], res.st), m')
  {
    assert m1.regs[list] == ListVal(done);
    assert Step(P, m1) == Running(Put(m1, list, ListVal(done + [res.v])));
    m' := RunTemp(P, o, res.st, m1, list, ListVal(done + [res.v]));
    ReachesTrans(P, m, m1, m');
  }

  lemma ElemsCode(P: Code, g: Gen, list: nat, rest: Code, a: nat)
    requires CodeAt(P, a, g.code + ([PushTo(list, g.rv)] + rest))
    ensures CodeAt(P, a, g.code) && CodeAt(P, a + |g.code| + 1, rest)
    ensures a + |g.code| < |P| && P[a + |g.code|] == PushTo(list, g.rv)
  {
    var push := [PushTo(list, g.rv)];
    CodeSplit(P, a, g.code, push + rest);
    CodeSplit(P, a + |g.code|, push, rest);
    CodeOp(P, a + |g.code|, push, 0);
  }

  /** How the results of an element and of the remaining ones combine. */
  function Joined(first: Value, rest: LResult): LResult {
    match rest
    case Vals(vs, st) => Vals([first] + vs, st)
    case LExc(_, _) => rest
  }

  lemma ElemsTrans(P: Code, o: Owners, list: nat, end1: nat, end: nat, r: nat, c: nat, r1: nat, c1: nat, m: VM,
                   done: seq<Value>, v: Value, st: State, m1: VM, rest: LResult, m': VM)
    requires r <= r1 && c <= c1
    requires ElemsPost(P, o, list, end1, r, c, m, done, Vals([v], st), m1)
    requires ElemsPost(P, o, list, end, r1, c1, m1, done + [v], rest, m')
    ensures ElemsPost(P, o, list, end, r, c, m, done, Joined(v, rest), m')
  {
    KeptTrans(m, m1, m', r, c, r1, c1);
    match rest
    case Vals(vs, _) =>
      assert done + [v] + vs == done + ([v] + vs);
      ReachesTrans(P, m, m1, m');
    case LExc(x, _) => RaisesTrans(P, m, m1, x, m');
  }

  lemma {:induction false} SimElems(P: Code, o: Owners, es: List<Expr>, list: nat, a: nat, r: nat, c: nat,
                                    st: State, m: VM, done: seq<Value>) returns (m': VM)
    requires CodeAt(P, a, EmitElems(es, list, a, r, c).code) && OwnedElems(es, list, a, r, c, o)
    requires Matches(o, st, m) && m.bci == a
    requires list < r && list !in o && list in m.regs && m.regs[list] == ListVal(done)
    ensures ElemsPost(P, o, list, a + |EmitElems(es, list, a, r, c).code|, list, c, m, done, EvalAll(es, st), m')
    decreases es, 1
  {
    match es
    case Empty =>
      m' := m;
      ReachesSelf(P, m);
    case Cons(_, _) => m' := SimElem(P, o, es, list, a, r, c, st, m, done);
  }

  lemma SimElem(P: Code, o: Owners, es: List<Expr>, list: nat, a: nat, r: nat, c: nat,
                st: State, m: VM, done: seq<Value>) returns (m': VM)
    requires es.Cons?
    requires CodeAt(P, a, EmitElems(es, list, a, r, c).code) && OwnedElems(es, list, a, r, c, o)
    requires Matches(o, st, m) && m.bci == a
    requires list < r && list !in o && list in m.regs && m.regs[list] == ListVal(done)
    ensures ElemsPost(P, o, list, a + |EmitElems(es, list, a, r, c).code|, list, c, m, done, EvalAll(es, st), m')
    decreases es, 0
  {
    hide CodeAt, WellPlaced, Matches, Reaches, Raises, EmitExpr, OwnedExpr, Eval, EmitElems, OwnedElems, ExecOp;
    var e, rest := es.head, es.tail;
    UnfoldElems(e, rest, list, a, r, c);
    UnfoldElemsOwned(e, rest, list, a, r, c, o);
    var g := EmitExpr(e, a, r, c);
    var a1 := a + |g.code|;
    var h := EmitElems(rest, list, a1 + 1, g.r, g.c);
    ElemsCode(P, g, list, h.code, a);
    ElemBounds(e, a, r, c);
    var m1 := SimExpr(P, o, e, a, r, c, st, m);
    var res := Eval(e, st);
    if res.Exc? {
      m' := m1;
    } else {
      var m2 := RunPush(P, o, list, g.rv, list, c, r, c, m, done, res, m1);
      m' := SimElems(P, o, rest, list, a1 + 1, g.r, g.c, res.st, m2, done + [res.v]);
      ElemsTrans(P, o, list, a1 + 1, a1 + 1 + |h.code|, list, c, list, g.c, m, done, res.v, res.st, m2,
                 EvalAll(rest, res.st), m');
    }
  }

  lemma ElemBounds(e: Expr, a: nat, r: nat, c: nat)
    ensures r <= EmitExpr(e, a, r, c).r && c <= EmitExpr(e, a, r, c).c
  {
    ExprPlaced(e, a, r, c);
  }

  lemma SimList(P: Code, o: Owners, es: List<Expr>, a: nat, r: nat, c: nat, st: State, m: VM) returns (m': VM)
    requires var e := ListLit(es); CodeAt(P, a, EmitExpr(e, a, r, c).code) && OwnedExpr(e, a, r, c, o)
    requires Matches(o, st, m) && m.bci == a
    ensures var e := ListLit(es); var g := EmitExpr(e, a, r, c);
            ExprPost(P, o, a + |g.code|, g.rv, r, c, m, Eval(e, st), m')
    decreases ListLit(es), 2
  {
    hide CodeAt, Matches, EmitElems, OwnedElems, EvalAll, Kept, Reaches, Raises, ExprPost, ElemsPost;
    var g := EmitElems(es, r, a + 1, r + 1, c);
    CodeSplit(P, a, [M.BuildList(r)], g.code);
    CodeOp(P, a, [M.BuildList(r)], 0);
    var m1 := RunTemp(P, o, st, m, r, ListVal([]));
    KeptPut(m, r, ListVal([]), c);
    m' := SimElems(P, o, es, r, a + 1, r + 1, c, st, m1, []);
    FinishList(P, o, r, a + 1 + |g.code|, c, m, m1, EvalAll(es, st), m');
  }

  lemma KeptPut(m: VM, q: nat, v: Value, c: nat)
    ensures Kept(m, Put(m, q, v), q, c)
  {}

  lemma FinishList(P: Code, o: Owners, r: nat, end: nat, c: nat, m: VM, m1: VM, res: LResult, m': VM)
    requires Reaches(P, m, m1) && Kept(m, m1, r, c)
    requires ElemsPost(P, o, r, end, r, c, m1, [], res, m')
    ensures ExprPost(P, o, end, RegValue(r, false, false), r, c, m,
                     match res case Vals(vs, st) => Val(ListVal(vs), st) case LExc(x, st) => Exc(x, st), m')
  {
    KeptTrans(m, m1, m', r, c, r, c);
    match res
    case Vals(vs, _) =>
      assert [] + vs == vs;
      ReachesTrans(P, m, m1, m');
    case LExc(x, _) => RaisesTrans(P, m, m1, x, m');
  }
}

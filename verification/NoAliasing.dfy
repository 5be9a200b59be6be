/** In every reachable state of generated code no register is bound to two names. */
module NoAliasing {
  import opened Lists
  import opened Values
  import opened Ir
  import opened Codegen
  import opened CodegenFacts
  import opened Ownership
  import opened M = Machine

  type Code = M.Code

  /** Names are only ever bound to registers they own. */
  ghost predicate Binds(code: Code, o: Owners) {
    forall i :: 0 <= i < |code| && code[i].StoreName? ==> code[i].dst in o && o[code[i].dst].name == code[i].name
  }

  lemma BindsConcat(x: Code, y: Code, o: Owners)
    requires Binds(x, o) && Binds(y, o)
    ensures Binds(x + y, o)
  {}

  lemma BindsPatch(x: Code, brk: nat, cont: nat, o: Owners)
    requires Binds(x, o)
    ensures Binds(Patch(x, brk, cont), o)
  {}

  predicate Quiet(x: Code) {
    forall i :: 0 <= i < |x| ==> !x[i].StoreName?
  }

  lemma QuietBinds(x: Code, o: Owners)
    requires Quiet(x)
    ensures Binds(x, o)
  {}

  /** Code, quiet opcodes, code. */
  lemma BindsAround(x: Code, mid: Code, y: Code, o: Owners)
    requires Binds(x, o) && Quiet(mid) && Binds(y, o)
    ensures Binds(mid + y, o) && Binds(x + (mid + y), o)
  {}

  lemma BindsLast(x: Code, last: Code, o: Owners)
    requires Binds(x, o) && Quiet(last)
    ensures Binds(x + last, o)
  {}

  // ----- expressions -----

  lemma {:induction false} ExprBinds(e: Expr, a: nat, r: nat, c: nat, o: Owners)
    requires OwnedExpr(e, a, r, c, o)
    ensures Binds(EmitExpr(e, a, r, c).code, o)
    decreases e, 1
  {
    hide *;
    match e
    case Lit(_) => LeafBinds(e, a, r, c, o);
    case ListLit(es) => ListBinds(es, a, r, c, o);
    case Variable(_) => LeafBinds(e, a, r, c, o);
    case Binary(op, x, y) => BinaryBinds(op, x, y, a, r, c, o);
    case Short(isAnd, x, y) => ShortBinds(isAnd, x, y, a, r, c, o);
    case Unary(isNot, x) => UnaryBinds(isNot, x, a, r, c, o);
    case Ternary(cond, t, f) => TernaryBinds(cond, t, f, a, r, c, o);
    case Set(n, x) => SetBinds(n, x, a, r, c, o);
    case SetOp(op, n, x) => SetOpBinds(op, n, x, a, r, c, o);
  }

  lemma LeafBinds(e: Expr, a: nat, r: nat, c: nat, o: Owners)
    requires e.Lit? || e.Variable?
    ensures Binds(EmitExpr(e, a, r, c).code, o)
  {
    hide Binds;
    QuietBinds(EmitExpr(e, a, r, c).code, o);
  }

  lemma ListBinds(es: List<Expr>, a: nat, r: nat, c: nat, o: Owners)
    requires OwnedExpr(ListLit(es), a, r, c, o)
    ensures Binds(EmitExpr(ListLit(es), a, r, c).code, o)
    decreases ListLit(es), 0
  {
    hide Binds, EmitElems, OwnedElems;
    ElemsBind(es, r, a + 1, r + 1, c, o);
    QuietBinds([M.BuildList(r)], o);
    BindsConcat([M.BuildList(r)], EmitElems(es, r, a + 1, r + 1, c).code, o);
  }

  lemma TailQuiet(op: BinOp, x: RegValue, y: RegValue, r: nat)
    ensures Quiet(BinTail(op, x, y, r))
  {}

  lemma BinaryBinds(op: BinOp, x: Expr, y: Expr, a: nat, r: nat, c: nat, o: Owners)
    requires OwnedExpr(Binary(op, x, y), a, r, c, o)
    ensures Binds(EmitExpr(Binary(op, x, y), a, r, c).code, o)
    decreases Binary(op, x, y), 0
  {
    hide Binds, EmitExpr, OwnedExpr, BinTail, BinResult, Quiet;
    UnfoldBinaryCode(op, x, y, a, r, c);
    UnfoldBinaryOwned(op, x, y, a, r, c, o);
    var g := EmitExpr(x, a, r, c);
    var h := EmitExpr(y, a + |g.code|, g.r, g.c);
    ExprBinds(x, a, r, c, o);
    ExprBinds(y, a + |g.code|, g.r, g.c, o);
    TailQuiet(op, g.rv, h.rv, h.r);
    BindsLast(h.code, BinTail(op, g.rv, h.rv, h.r), o);
    BindsConcat(g.code, h.code + BinTail(op, g.rv, h.rv, h.r), o);
  }

  lemma UnaryBinds(isNot: bool, x: Expr, a: nat, r: nat, c: nat, o: Owners)
    requires OwnedExpr(Unary(isNot, x), a, r, c, o)
    ensures Binds(EmitExpr(Unary(isNot, x), a, r, c).code, o)
    decreases Unary(isNot, x), 0
  {
    hide Binds, EmitNc, OwnedNc;
    NcBinds(x, a, r, c, o);
    var g := EmitNc(x, a, r, c);
    BindsLast(g.code, [if isNot then M.Not(g.r, g.rv.reg) else M.Neg(g.r, g.rv.reg)], o);
  }

  lemma SetBinds(n: string, x: Expr, a: nat, r: nat, c: nat, o: Owners)
    requires OwnedExpr(Set(n, x), a, r, c, o)
    ensures Binds(EmitExpr(Set(n, x), a, r, c).code, o)
    decreases Set(n, x), 0
  {
    hide Binds;
    var g := EmitExpr(x, a, r, c);
    ExprBinds(x, a, r, c, o);
    StoreBinds(Move(g.r, g.rv), g.r, n, o);
    BindsConcat(g.code, [Move(g.r, g.rv), M.StoreName(g.r, n)], o);
  }

  lemma SetOpBinds(op: BinOp, n: string, x: Expr, a: nat, r: nat, c: nat, o: Owners)
    requires OwnedExpr(SetOp(op, n, x), a, r, c, o)
    ensures Binds(EmitExpr(SetOp(op, n, x), a, r, c).code, o)
    decreases SetOp(op, n, x), 0
  {
    hide Binds;
    var g := EmitExpr(x, a + 1, r + 1, c);
    var bin := M.BinExpr(op, if g.rv.constant then M.RegConst else M.RegReg, r, r, g.rv.reg);
    ExprBinds(x, a + 1, r + 1, c, o);
    StoreBinds(bin, r, n, o);
    BindsConcat(g.code, [bin, M.StoreName(r, n)], o);
    QuietBinds([M.Load(r, n)], o);
    BindsConcat([M.Load(r, n)], g.code + [bin, M.StoreName(r, n)], o);
  }

  lemma StoreBinds(op: M.OpCode, q: nat, n: string, o: Owners)
    requires !op.StoreName? && q in o && o[q].name == n
    ensures Binds([op, M.StoreName(q, n)], o)
  {}

  lemma ShortBinds(isAnd: bool, x: Expr, y: Expr, a: nat, r: nat, c: nat, o: Owners)
    requires OwnedExpr(Short(isAnd, x, y), a, r, c, o)
    ensures Binds(EmitExpr(Short(isAnd, x, y), a, r, c).code, o)
    decreases Short(isAnd, x, y), 0
  {
    hide Binds, EmitNc, OwnedNc;
    var g := EmitNc(x, a, r, c);
    var a1 := a + |g.code| + 3;
    var h := EmitNc(y, a1, g.r + 1, g.c);
    NcBinds(x, a, r, c, o);
    NcBinds(y, a1, g.r + 1, g.c, o);
    BindsLast(h.code, [M.Store(g.r, h.rv.reg)], o);
    BindsAround(g.code, [M.Store(g.r, g.rv.reg),
                         if isAnd then M.JmpIfTrue(g.rv.reg, a1) else M.JmpIfFalse(g.rv.reg, a1),
                         M.Jmp(a1 + |h.code| + 1)], h.code + [M.Store(g.r, h.rv.reg)], o);
  }

  lemma TernaryBinds(cond: Expr, t: Expr, f: Expr, a: nat, r: nat, c: nat, o: Owners)
    requires OwnedExpr(Ternary(cond, t, f), a, r, c, o)
    ensures Binds(EmitExpr(Ternary(cond, t, f), a, r, c).code, o)
    decreases Ternary(cond, t, f), 0
  {
    hide Binds, EmitNc, OwnedNc, EmitExpr, OwnedExpr;
    UnfoldTernaryCode(cond, t, f, a, r, c);
    UnfoldTernaryOwned(cond, t, f, a, r, c, o);
    var g := EmitNc(cond, a, r, c);
    var a1 := a + |g.code| + 1;
    var h := EmitExpr(t, a1, g.r + 1, g.c);
    var a2 := a1 + |h.code| + 2;
    var k := EmitExpr(f, a2, h.r, h.c);
    NcBinds(cond, a, r, c, o);
    ExprBinds(t, a1, g.r + 1, g.c, o);
    ExprBinds(f, a2, h.r, h.c, o);
    var mid := [Move(g.r, h.rv), M.Jmp(a2 + |k.code| + 1)];
    BindsLast(k.code, [Move(g.r, k.rv)], o);
    BindsAround(h.code, mid, k.code + [Move(g.r, k.rv)], o);
    BindsAround(g.code, [M.JmpIfFalse(g.rv.reg, a2)], h.code + (mid + (k.code + [Move(g.r, k.rv)])), o);
  }

  lemma NcBinds(e: Expr, a: nat, r: nat, c: nat, o: Owners)
    requires OwnedNc(e, a, r, c, o)
    ensures Binds(EmitNc(e, a, r, c).code, o)
    decreases e, 2
  {
    hide Binds, EmitExpr, OwnedExpr;
    var g := EmitExpr(e, a, r, c);
    ExprBinds(e, a, r, c, o);
    BindsLast(g.code, [M.StoreConst(g.r, g.rv.reg)], o);
  }

  lemma {:induction false} ElemsBind(es: List<Expr>, list: nat, a: nat, r: nat, c: nat, o: Owners)
    requires OwnedElems(es, list, a, r, c, o)
    ensures Binds(EmitElems(es, list, a, r, c).code, o)
    decreases es, 0
  {
    match es
    case Empty =>
    case Cons(e, rest) =>
      hide Binds, EmitExpr, OwnedExpr;
      var g := EmitExpr(e, a, r, c);
      var h := EmitElems(rest, list, a + |g.code| + 1, g.r, g.c);
      ExprBinds(e, a, r, c, o);
      ElemsBind(rest, list, a + |g.code| + 1, g.r, g.c, o);
      BindsAround(g.code, [PushTo(list, g.rv)], h.code, o);
  }

  // ----- statements -----

  lemma {:induction false} StmtBinds(s: Stmt, a: nat, r: nat, c: nat, o: Owners)
    requires OwnedStmt(s, a, r, c, o)
    ensures Binds(EmitStmt(s, a, r, c).code, o)
    decreases s, 1
  {
    hide Binds, EmitExpr, EmitNc, EmitBlock, OwnedExpr, OwnedNc, OwnedBlock, Patch;
    match s
    case ExprStmt(e) =>
      OutputBinds(e, a, r, c, o);
    case SilentStmt(e) => ExprBinds(e, a, r, c, o);
    case If(cond, body, orelse) => IfBinds(s, a, r, c, o);
    case Switch(cond, cs) => SwitchBinds(s, a, r, c, o);
    case While(cond, body) =>
      var g := EmitNc(cond, a + 1, r, c);
      var h := EmitBlock(body, a + 1 + |g.code| + 1, g.r, g.c);
      var end := a + 1 + |g.code| + 1 + |h.code| + 1;
      NcBinds(cond, a + 1, r, c, o);
      BlockBinds(body, a + 1 + |g.code| + 1, g.r, g.c, o);
      BindsAround(g.code, [M.JmpIfFalse(g.rv.reg, end)], h.code, o);
      LoopBinds([M.LoopBegin], g.code + ([M.JmpIfFalse(g.rv.reg, end)] + h.code), [M.Jmp(a + 1), M.LoopEnd], end, a + 1, o);
    case DoWhile(body, cond) =>
      var h := EmitBlock(body, a + 1, r, c);
      var a1 := a + 1 + |h.code|;
      var g := EmitNc(cond, a1, h.r, h.c);
      NcBinds(cond, a1, h.r, h.c, o);
      BlockBinds(body, a + 1, r, c, o);
      BindsConcat(h.code, g.code, o);
      LoopBinds([M.LoopBegin], h.code + g.code, [M.JmpIfTrue(g.rv.reg, a + 1), M.LoopEnd], a1 + |g.code| + 1, a1, o);
    case For(_, n, coll, body) => ForBinds(s, a, r, c, o);
    case Break => QuietBinds([M.BreakTo(0, M.UnsetBreak)], o);
    case Continue => QuietBinds([M.BreakTo(0, M.UnsetContinue)], o);
    case Assert(cond, msg, line) => AssertBinds(s, a, r, c, o);
    case Raise(e) =>
      NcBinds(e, a, r, c, o);
      var g := EmitNc(e, a, r, c);
      BindsLast(g.code, [M.Raise(g.rv.reg)], o);
  }

  lemma LoopBinds(first: Code, inner: Code, tail: Code, brk: nat, cont: nat, o: Owners)
    requires Quiet(first) && Binds(inner, o) && Quiet(tail)
    ensures Binds(first + (Patch(inner, brk, cont) + tail), o)
  {
    hide Binds, Patch;
    BindsPatch(inner, brk, cont, o);
    BindsLast(Patch(inner, brk, cont), tail, o);
    QuietBinds(first, o);
    BindsConcat(first, Patch(inner, brk, cont) + tail, o);
  }

  lemma OutputBinds(e: Expr, a: nat, r: nat, c: nat, o: Owners)
    requires OwnedNc(e, a, r, c, o)
    ensures Binds(OutputGen(EmitExpr(e, a, r, c)).code, o)
  {
    hide Binds, EmitExpr, OwnedExpr;
    var g := EmitExpr(e, a, r, c);
    ExprBinds(e, a, r, c, o);
    BindsLast(g.code, [M.StoreConst(g.r, g.rv.reg), M.Output(g.r)], o);
    BindsLast(g.code, [M.Output(g.rv.reg)], o);
  }

  lemma IfBinds(s: Stmt, a: nat, r: nat, c: nat, o: Owners)
    requires s.If? && OwnedStmt(s, a, r, c, o)
    ensures Binds(EmitStmt(s, a, r, c).code, o)
    decreases s, 0
  {
    hide Binds, EmitNc, EmitBlock, OwnedNc, OwnedBlock;
    var g := EmitNc(s.cond, a, r, c);
    var a1 := a + |g.code| + 1;
    var h := EmitBlock(s.body, a1, g.r, g.c);
    var a2 := a1 + |h.code|;
    NcBinds(s.cond, a, r, c, o);
    BlockBinds(s.body, a1, g.r, g.c, o);
    if s.orelse.Some? {
      var k := EmitBlock(s.orelse.value, a2 + 1, h.r, h.c);
      BlockBinds(s.orelse.value, a2 + 1, h.r, h.c, o);
      BindsAround(h.code, [M.Jmp(a2 + 1 + |k.code|)], k.code, o);
      BindsAround(g.code, [M.JmpIfFalse(g.rv.reg, a2 + 1)], h.code + ([M.Jmp(a2 + 1 + |k.code|)] + k.code), o);
    } else {
      BindsAround(g.code, [M.JmpIfFalse(g.rv.reg, a2)], h.code, o);
    }
  }

  lemma ForBinds(s: Stmt, a: nat, r: nat, c: nat, o: Owners)
    requires s.For? && OwnedStmt(s, a, r, c, o)
    ensures Binds(EmitStmt(s, a, r, c).code, o)
    decreases s, 0
  {
    hide Binds, EmitNc, EmitBlock, OwnedNc, OwnedBlock, Patch;
    var g := EmitNc(s.collection, a + 2, r + 1, c + 1);
    var head := a + 2 + |g.code| + 2;
    var h := EmitBlock(s.body, head + 2, g.r + 1, g.c);
    var end := head + 2 + |h.code| + 1;
    NcBinds(s.collection, a + 2, r + 1, c + 1, o);
    BlockBinds(s.body, head + 2, g.r + 1, g.c, o);
    StoreBinds(M.For(r, g.r, end), r, s.name, o);
    var inner := [M.For(r, g.r, end), M.StoreName(r, s.name)] + h.code;
    BindsConcat([M.For(r, g.r, end), M.StoreName(r, s.name)], h.code, o);
    LoopBinds([M.LoopBegin, M.Iter(g.r, g.rv.reg)], inner, [M.Jmp(head), M.LoopEnd], end, head, o);
    var loop := [M.LoopBegin, M.Iter(g.r, g.rv.reg)] + (Patch(inner, end, head) + [M.Jmp(head), M.LoopEnd]);
    BindsConcat(g.code, loop, o);
    QuietBinds([M.StoreNilConst(c), M.StoreConst(r, c)], o);
    BindsConcat([M.StoreNilConst(c), M.StoreConst(r, c)], g.code + loop, o);
  }

  lemma AssertBinds(s: Stmt, a: nat, r: nat, c: nat, o: Owners)
    requires s.Assert? && OwnedStmt(s, a, r, c, o)
    ensures Binds(EmitStmt(s, a, r, c).code, o)
    decreases s, 0
  {
    hide Binds, EmitNc, OwnedNc;
    var g := EmitNc(s.cond, a, r, c);
    var h := if s.msg.Some? then EmitNc(s.msg.value, a + |g.code| + 1, g.r, g.c + 1) else NoMessage(g.r, g.c + 1);
    NcBinds(s.cond, a, r, c, o);
    if s.msg.Some? {
      NcBinds(s.msg.value, a + |g.code| + 1, g.r, g.c + 1, o);
    } else {
      QuietBinds(h.code, o);
    }
    BindsLast(h.code, [M.Assert(g.rv.reg, g.c, h.rv.reg)], o);
    BindsAround(g.code, [M.StoreIntConst(g.c, s.line)], h.code + [M.Assert(g.rv.reg, g.c, h.rv.reg)], o);
  }

  lemma {:induction false} TableQuiet(addrs: seq<nat>, list: nat, c: nat)
    ensures Quiet(Table(addrs, list, c))
  {
    if addrs != [] {
      TableQuiet(addrs[1..], list, c + 1);
    }
  }

  lemma SwitchBinds(s: Stmt, a: nat, r: nat, c: nat, o: Owners)
    requires s.Switch? && OwnedStmt(s, a, r, c, o)
    ensures Binds(EmitStmt(s, a, r, c).code, o)
    decreases s, 0
  {
    hide Binds, EmitNc, EmitCaseValues, EmitBodies, CaseAddrs, DefaultAddr, Table, NumValues, OwnedNc, OwnedValues, OwnedBodies;
    var g := EmitNc(s.cond, a, r, c);
    var a1 := a + |g.code| + 1;
    var v := EmitCaseValues(s.cases, g.r, a1, g.r + 2, g.c);
    var a3 := a1 + |v.code| + 1 + 2 * NumValues(s.cases) + 1;
    var c3 := v.c + NumValues(s.cases);
    var end := a3 + |EmitBodies(s.cases, a3, v.r, c3, 0).code|;
    var b := EmitBodies(s.cases, a3, v.r, c3, end);
    var addrs := CaseAddrs(s.cases, a3, v.r, c3);
    var last := [M.Switch(g.rv.reg, g.r, g.r + 1, DefaultAddr(s.cases, a3, v.r, c3, end))];
    var table := Table(addrs, g.r + 1, v.c);
    NcBinds(s.cond, a, r, c, o);
    ValuesBind(s.cases, g.r, a1, g.r + 2, g.c, o);
    BodiesBind(s.cases, a3, v.r, c3, end, o);
    TableQuiet(addrs, g.r + 1, v.c);
    QuietBinds(table, o);
    BindsAround(table, last, b.code, o);
    BindsAround(v.code, [M.BuildList(g.r + 1)], table + (last + b.code), o);
    BindsAround(g.code, [M.BuildList(g.r)], v.code + ([M.BuildList(g.r + 1)] + (table + (last + b.code))), o);
  }

  lemma {:induction false} ValuesBind(cs: List<Case>, list: nat, a: nat, r: nat, c: nat, o: Owners)
    requires OwnedValues(cs, list, a, r, c, o)
    ensures Binds(EmitCaseValues(cs, list, a, r, c).code, o)
    decreases cs, 0
  {
    match cs
    case Empty =>
    case Cons(Default(_), rest) => ValuesBind(rest, list, a, r, c, o);
    case Cons(Case(es, _), rest) =>
      hide Binds, EmitElems, OwnedElems;
      var g := EmitElems(es, list, a, r, c);
      ElemsBind(es, list, a, r, c, o);
      ValuesBind(rest, list, a + |g.code|, g.r, g.c, o);
      BindsConcat(g.code, EmitCaseValues(rest, list, a + |g.code|, g.r, g.c).code, o);
  }

  lemma {:induction false} BlockBinds(b: List<Stmt>, a: nat, r: nat, c: nat, o: Owners)
    requires OwnedBlock(b, a, r, c, o)
    ensures Binds(EmitBlock(b, a, r, c).code, o)
    decreases b, 0
  {
    match b
    case Empty =>
    case Cons(s, rest) =>
      hide Binds, EmitStmt, OwnedStmt;
      var g := EmitStmt(s, a, r, c);
      StmtBinds(s, a, r, c, o);
      BlockBinds(rest, a + |g.code|, g.r, g.c, o);
      BindsConcat(g.code, EmitBlock(rest, a + |g.code|, g.r, g.c).code, o);
  }

  lemma {:induction false} BodiesBind(cs: List<Case>, a: nat, r: nat, c: nat, end: nat, o: Owners)
    requires OwnedBodies(cs, a, r, c, o)
    ensures Binds(EmitBodies(cs, a, r, c, end).code, o)
    decreases cs, 0
  {
    match cs
    case Empty =>
    case Cons(k, rest) =>
      hide Binds, EmitBlock, OwnedBlock;
      var g := EmitBlock(k.body, a, r, c);
      var h := EmitBodies(rest, a + |g.code| + 1, g.r, g.c, end);
      BlockBinds(k.body, a, r, c, o);
      BodiesBind(rest, a + |g.code| + 1, g.r, g.c, end, o);
      BindsAround(g.code, [M.Jmp(end)], h.code, o);
  }

  // ----- runs -----

  /** Every bound name owns its register. */
  ghost predicate NamesOwned(m: VM, o: Owners) {
    forall n :: n in m.names ==> m.names[n] in o && o[m.names[n]].name == n
  }

  ghost predicate NamesInjective(m: VM) {
    forall n, n' :: n in m.names && n' in m.names && m.names[n] == m.names[n'] ==> n == n'
  }

  lemma StepNames(P: Code, m: VM, m': VM)
    requires Step(P, m) == Running(m')
    ensures m.bci < |P|
    ensures m'.names == if P[m.bci].StoreName? then m.names[P[m.bci].name := P[m.bci].dst] else m.names
  {
    hide Apply, ApplyUnary, Iterate, Operand, Push, Branch, Deliver, ExecBin, ExecSwitch;
    PartsKeepNames(m);
  }

  /** What the shared parts of opcodes do to the names: nothing. */
  lemma {:induction false} PartsKeepNames(m: VM)
    ensures forall dst, u :: Deliver(m, dst, u).Running? ==> Deliver(m, dst, u).m.names == m.names
    ensures forall dst, v :: Push(m, dst, v).Running? ==> Push(m, dst, v).m.names == m.names
    ensures forall src, taken, at :: Branch(m, src, taken, at).Running? ==> Branch(m, src, taken, at).m.names == m.names
    ensures forall op, dst, x, y :: ExecBin(op, dst, x, y, m).Running? ==> ExecBin(op, dst, x, y, m).m.names == m.names
    ensures forall src, vals, at, d :: ExecSwitch(m, src, vals, at, d).Running? ==> ExecSwitch(m, src, vals, at, d).m.names == m.names
  {
    hide Apply, FirstEqual;
  }

  lemma {:induction false} RunNames(P: Code, m: VM, k: nat, o: Owners)
    requires Binds(P, o) && NamesOwned(m, o) && Run(P, m, k).Running?
    ensures NamesOwned(Run(P, m, k).m, o) && NamesInjective(Run(P, m, k).m)
    decreases k
  {
    hide ExecOp;
    if k > 0 {
      StepNames(P, m, Step(P, m).m);
      RunNames(P, Step(P, m).m, k - 1, o);
    }
  }
}

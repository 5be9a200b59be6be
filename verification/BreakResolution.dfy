/** `break` and `continue`: each jump emitted for one is patched by the innermost loop around it,
    to that loop's end or to its next round, and no outer loop patches it again. */
module BreakResolution {
  import opened Lists
  import opened Values
  import opened Ir
  import opened Codegen
  import opened CodegenFacts
  import opened LoopDepth
  import opened StmtSimulation
  import opened M = Machine

  type Code = M.Code

  // ----- programs without a loose break -----

  /** Some `break` or `continue` is not inside a loop of the statement itself. */
  predicate LooseStmt(s: Stmt) {
    match s
    case If(_, body, orelse) => LooseBlock(body) || (orelse.Some? && LooseBlock(orelse.value))
    case Switch(_, cs) => LooseCases(cs)
    case Break => true
    case Continue => true
    case _ => false
  }

  predicate LooseBlock(b: List<Stmt>) {
    match b
    case Empty => false
    case Cons(s, rest) => LooseStmt(s) || LooseBlock(rest)
  }

  predicate LooseCases(cs: List<Case>) {
    match cs
    case Empty => false
    case Cons(k, rest) => LooseBlock(k.body) || LooseCases(rest)
  }

  ghost predicate AllSet(code: Code) {
    forall i :: 0 <= i < |code| && code[i].BreakTo? ==> code[i].state.Resolved?
  }

  lemma ResolvedConcat(x: Code, y: Code)
    ensures AllSet(x + y) <==> AllSet(x) && AllSet(y)
  {
    if AllSet(x + y) {
      forall i | 0 <= i < |x| && x[i].BreakTo? ensures x[i].state.Resolved? {
        assert (x + y)[i] == x[i];
      }
      forall i | 0 <= i < |y| && y[i].BreakTo? ensures y[i].state.Resolved? {
        assert (x + y)[|x| + i] == y[i];
      }
    }
  }

  lemma PlainResolved(code: Code)
    requires Plain(code)
    ensures AllSet(code)
  {
    forall i | 0 <= i < |code| ensures !code[i].BreakTo? {
      assert code[i] in code;
    }
  }

  lemma PatchResolved(code: Code, brk: nat, cont: nat)
    ensures AllSet(Patch(code, brk, cont))
    ensures AllSet(code) ==> Patch(code, brk, cont) == code
  {}

  lemma OneResolved(op: M.OpCode)
    requires !op.BreakTo?
    ensures AllSet([op])
  {}

  /** After emission every break and continue jump is set, exactly if none is loose. */
  lemma {:induction false} ResolvedStmt(s: Stmt, a: nat, r: nat, c: nat)
    ensures AllSet(EmitStmt(s, a, r, c).code) <==> !LooseStmt(s)
    decreases s, 1
  {
    hide EmitExpr, EmitNc, EmitBlock, Patch, AllSet, Plain, LooseBlock, LooseCases, WellPlaced;
    match s
    case ExprStmt(e) =>
      ExprPlaced(e, a, r, c);
      OutputPlain(EmitExpr(e, a, r, c), r, c);
      PlainResolved(OutputGen(EmitExpr(e, a, r, c)).code);
    case SilentStmt(e) =>
      ExprPlaced(e, a, r, c);
      PlacedPlain(EmitExpr(e, a, r, c), r, c);
      PlainResolved(EmitExpr(e, a, r, c).code);
    case If(cond, body, orelse) => ResolvedIf(s, a, r, c);
    case Switch(cond, cs) => ResolvedSwitch(s, a, r, c);
    case While(cond, body) =>
      var g := EmitNc(cond, a + 1, r, c);
      var h := EmitBlock(body, a + 1 + |g.code| + 1, g.r, g.c);
      var end := a + 1 + |g.code| + 1 + |h.code| + 1;
      LoopResolved(g.code + ([M.JmpIfFalse(g.rv.reg, end)] + h.code), M.Jmp(a + 1), end, a + 1);
    case DoWhile(body, cond) =>
      var h := EmitBlock(body, a + 1, r, c);
      var a1 := a + 1 + |h.code|;
      var g := EmitNc(cond, a1, h.r, h.c);
      LoopResolved(h.code + g.code, M.JmpIfTrue(g.rv.reg, a + 1), a1 + |g.code| + 1, a1);
    case For(_, n, coll, body) => ResolvedFor(s, a, r, c);
    case Break => LooseOne(M.BreakTo(0, M.UnsetBreak));
    case Continue => LooseOne(M.BreakTo(0, M.UnsetContinue));
    case Assert(cond, msg, line) =>
      AssertPlain(s, a, r, c);
      PlainResolved(EmitStmt(s, a, r, c).code);
    case Raise(e) =>
      NcPlaced(e, a, r, c);
      var g := EmitNc(e, a, r, c);
      PlacedPlain(g, r, c);
      PlainResolved(g.code);
      OneResolved(M.Raise(g.rv.reg));
      ResolvedConcat(g.code, [M.Raise(g.rv.reg)]);
  }

  lemma LooseOne(op: M.OpCode)
    requires op.BreakTo? && !op.state.Resolved?
    ensures !AllSet([op])
  {
    assert [op][0] == op;
  }

  lemma LoopResolved(inner: Code, tail: M.OpCode, brk: nat, cont: nat)
    requires !tail.BreakTo?
    ensures AllSet([M.LoopBegin] + (Patch(inner, brk, cont) + [tail, M.LoopEnd]))
  {
    hide Patch;
    PatchResolved(inner, brk, cont);
    ResolvedConcat(Patch(inner, brk, cont), [tail, M.LoopEnd]);
    ResolvedConcat([M.LoopBegin], Patch(inner, brk, cont) + [tail, M.LoopEnd]);
  }

  lemma AssertPlain(s: Stmt, a: nat, r: nat, c: nat)
    requires s.Assert?
    ensures Plain(EmitStmt(s, a, r, c).code)
  {
    hide EmitNc;
    var g := EmitNc(s.cond, a, r, c);
    NcPlaced(s.cond, a, r, c);
    if s.msg.Some? {
      NcPlaced(s.msg.value, a + |g.code| + 1, g.r, g.c + 1);
    }
  }

  lemma ResolvedIf(s: Stmt, a: nat, r: nat, c: nat)
    requires s.If?
    ensures AllSet(EmitStmt(s, a, r, c).code) <==> !LooseStmt(s)
    decreases s, 0
  {
    hide EmitNc, EmitBlock, AllSet, Plain, LooseBlock, WellPlaced;
    var g := EmitNc(s.cond, a, r, c);
    var a1 := a + |g.code| + 1;
    var h := EmitBlock(s.body, a1, g.r, g.c);
    var a2 := a1 + |h.code|;
    NcPlaced(s.cond, a, r, c);
    PlacedPlain(g, r, c);
    PlainResolved(g.code);
    ResolvedBlock(s.body, a1, g.r, g.c);
    if s.orelse.Some? {
      var k := EmitBlock(s.orelse.value, a2 + 1, h.r, h.c);
      var j, d := M.JmpIfFalse(g.rv.reg, a2 + 1), M.Jmp(a2 + 1 + |k.code|);
      ResolvedBlock(s.orelse.value, a2 + 1, h.r, h.c);
      OneResolved(j);
      OneResolved(d);
      ResolvedConcat([d], k.code);
      ResolvedConcat(h.code, [d] + k.code);
      ResolvedConcat([j], h.code + ([d] + k.code));
      ResolvedConcat(g.code, [j] + (h.code + ([d] + k.code)));
    } else {
      OneResolved(M.JmpIfFalse(g.rv.reg, a2));
      ResolvedConcat([M.JmpIfFalse(g.rv.reg, a2)], h.code);
      ResolvedConcat(g.code, [M.JmpIfFalse(g.rv.reg, a2)] + h.code);
    }
  }

  lemma ResolvedFor(s: Stmt, a: nat, r: nat, c: nat)
    requires s.For?
    ensures AllSet(EmitStmt(s, a, r, c).code)
  {
    hide EmitNc, EmitBlock, AllSet, Plain, Patch, WellPlaced;
    var g := EmitNc(s.collection, a + 2, r + 1, c + 1);
    var head := a + 2 + |g.code| + 2;
    var h := EmitBlock(s.body, head + 2, g.r + 1, g.c);
    var end := head + 2 + |h.code| + 1;
    NcPlaced(s.collection, a + 2, r + 1, c + 1);
    PlacedPlain(g, r + 1, c + 1);
    PlainResolved(g.code);
    var x, y := [M.StoreNilConst(c), M.StoreConst(r, c)], [M.LoopBegin, M.Iter(g.r, g.rv.reg)];
    var inner, tail := [M.For(r, g.r, end), M.StoreName(r, s.name)] + h.code, [M.Jmp(head), M.LoopEnd];
    PairResolved(x);
    PairResolved(y);
    PairResolved(tail);
    PatchResolved(inner, end, head);
    ResolvedConcat(Patch(inner, end, head), tail);
    ResolvedConcat(y, Patch(inner, end, head) + tail);
    ResolvedConcat(g.code, y + (Patch(inner, end, head) + tail));
    ResolvedConcat(x, g.code + (y + (Patch(inner, end, head) + tail)));
  }

  lemma PairResolved(x: Code)
    requires |x| == 2 && !x[0].BreakTo? && !x[1].BreakTo?
    ensures AllSet(x)
  {}

  lemma ResolvedSwitch(s: Stmt, a: nat, r: nat, c: nat)
    requires s.Switch?
    ensures AllSet(EmitStmt(s, a, r, c).code) <==> !LooseStmt(s)
    decreases s, 0
  {
    hide EmitNc, EmitCaseValues, EmitBodies, CaseAddrs, DefaultAddr, Table, NumValues, AllSet, Plain, LooseCases, WellPlaced;
    var g := EmitNc(s.cond, a, r, c);
    var a1 := a + |g.code| + 1;
    var v := EmitCaseValues(s.cases, g.r, a1, g.r + 2, g.c);
    var a3 := a1 + |v.code| + 1 + 2 * NumValues(s.cases) + 1;
    var c3 := v.c + NumValues(s.cases);
    var end := a3 + |EmitBodies(s.cases, a3, v.r, c3, 0).code|;
    var b := EmitBodies(s.cases, a3, v.r, c3, end);
    var addrs := CaseAddrs(s.cases, a3, v.r, c3);
    var last := M.Switch(g.rv.reg, g.r, g.r + 1, DefaultAddr(s.cases, a3, v.r, c3, end));
    var table := Table(addrs, g.r + 1, v.c);
    NcPlaced(s.cond, a, r, c);
    PlacedPlain(g, r, c);
    PlainResolved(g.code);
    ValuesGrow(s.cases, g.r, a1, g.r + 2, g.c);
    PlainResolved(v.code);
    TablePlain(addrs, g.r + 1, v.c);
    PlainResolved(table);
    ResolvedBodies(s.cases, a3, v.r, c3, end);
    var x, y := M.BuildList(g.r), M.BuildList(g.r + 1);
    OneResolved(x);
    OneResolved(y);
    OneResolved(last);
    ResolvedConcat([last], b.code);
    ResolvedConcat(table, [last] + b.code);
    ResolvedConcat([y], table + ([last] + b.code));
    ResolvedConcat(v.code, [y] + (table + ([last] + b.code)));
    ResolvedConcat([x], v.code + ([y] + (table + ([last] + b.code))));
    ResolvedConcat(g.code, [x] + (v.code + ([y] + (table + ([last] + b.code)))));
  }

  lemma {:induction false} ResolvedBlock(b: List<Stmt>, a: nat, r: nat, c: nat)
    ensures AllSet(EmitBlock(b, a, r, c).code) <==> !LooseBlock(b)
    decreases b, 0
  {
    hide *;
    BlockUnfolds(b, a, r, c);
    if b.Cons? {
      var g := EmitStmt(b.head, a, r, c);
      ResolvedStmt(b.head, a, r, c);
      ResolvedBlock(b.tail, a + |g.code|, g.r, g.c);
      ResolvedConcat(g.code, EmitBlock(b.tail, a + |g.code|, g.r, g.c).code);
    }
  }

  lemma {:induction false} BlockUnfolds(b: List<Stmt>, a: nat, r: nat, c: nat)
    ensures b.Empty? ==> AllSet(EmitBlock(b, a, r, c).code) && !LooseBlock(b)
    ensures b.Cons? ==>
              var g := EmitStmt(b.head, a, r, c);
              && EmitBlock(b, a, r, c).code == g.code + EmitBlock(b.tail, a + |g.code|, g.r, g.c).code
              && (LooseBlock(b) <==> LooseStmt(b.head) || LooseBlock(b.tail))
  {
    hide EmitStmt, LooseStmt;
  }

  lemma {:induction false} ResolvedBodies(cs: List<Case>, a: nat, r: nat, c: nat, end: nat)
    ensures AllSet(EmitBodies(cs, a, r, c, end).code) <==> !LooseCases(cs)
    decreases cs, 0
  {
    match cs
    case Empty =>
    case Cons(k, rest) =>
      hide EmitBlock, AllSet, LooseBlock;
      var g := EmitBlock(k.body, a, r, c);
      var h := EmitBodies(rest, a + |g.code| + 1, g.r, g.c, end);
      ResolvedBlock(k.body, a, r, c);
      ResolvedBodies(rest, a + |g.code| + 1, g.r, g.c, end);
      OneResolved(M.Jmp(end));
      ResolvedConcat([M.Jmp(end)], h.code);
      ResolvedConcat(g.code, [M.Jmp(end)] + h.code);
  }

  // ----- a break never leaves a block without a loose one -----

  lemma {:induction false} StmtCompletes(s: Stmt, st: State, fuel: nat)
    requires !LooseStmt(s)
    ensures !Exec(s, st, fuel).Brk? && !Exec(s, st, fuel).Cnt?
    decreases s
  {
    match s
    case If(c, body, orelse) =>
      var r := Eval(c, st);
      if r.Val? && r.v.Bool? {
        if r.v.b { BlockCompletes(body, r.st, fuel); }
        else if orelse.Some? { BlockCompletes(orelse.value, r.st, fuel); }
      }
    case Switch(c, cs) => SwitchCompletes(s, st, fuel);
    case While(_, _) => WhileCompletes(s, st, fuel);
    case DoWhile(_, _) => DoWhileCompletes(s, st, fuel);
    case For(site, n, coll, body) =>
      var r := Eval(coll, ResetIterator(st, site, n));
      if r.Val? && Iterate(r.v).Ok? {
        ForCompletes(site, n, body, Iterate(r.v).value, r.st, fuel);
      }
    case _ =>
  }

  lemma SwitchCompletes(s: Stmt, st: State, fuel: nat)
    requires s.Switch? && !LooseStmt(s)
    ensures !Exec(s, st, fuel).Brk? && !Exec(s, st, fuel).Cnt?
    decreases s, 0
  {
    var r := Eval(s.cond, st);
    if r.Val? {
      var vs := EvalCases(s.cases, r.st);
      if vs.Vals? {
        var k := SelectedCase(s.cases, vs.vs, r.v);
        if k.Some? {
          CaseCompletes(s.cases, k.value, vs.st, fuel);
        }
      }
    }
  }

  lemma {:induction false} BlockCompletes(b: List<Stmt>, st: State, fuel: nat)
    requires !LooseBlock(b)
    ensures !ExecBlock(b, st, fuel).Brk? && !ExecBlock(b, st, fuel).Cnt?
    decreases b
  {
    if b.Cons? {
      hide Exec;
      StmtCompletes(b.head, st, fuel);
      var res := Exec(b.head, st, fuel);
      if res.Norm? {
        BlockCompletes(b.tail, res.st, fuel);
      }
    }
  }

  lemma {:induction false} CaseCompletes(cs: List<Case>, k: nat, st: State, fuel: nat)
    requires !LooseCases(cs)
    ensures !ExecCase(cs, k, st, fuel).Brk? && !ExecCase(cs, k, st, fuel).Cnt?
    decreases cs
  {
    if cs.Cons? {
      if k == 0 {
        BlockCompletes(cs.head.body, st, fuel);
      } else {
        CaseCompletes(cs.tail, k - 1, st, fuel);
      }
    }
  }
}

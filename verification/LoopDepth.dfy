/** Emitted code closes every loop it opens. */
module LoopDepth {
  import opened Lists
  import opened Ir
  import opened Codegen
  import opened CodegenFacts
  import M = Machine

  /** Loops are closed again. */
  predicate Balanced(code: Code) {
    M.Height(code, |code|) == 0
  }

  lemma {:induction false} HeightConcat(x: Code, y: Code, i: nat)
    requires i <= |y|
    ensures M.Height(x + y, |x| + i) == M.Height(x, |x|) + M.Height(y, i)
    decreases i
  {
    if i == 0 {
      HeightPrefix(x, y, |x|);
    } else {
      HeightConcat(x, y, i - 1);
      assert (x + y)[|x| + i - 1] == y[i - 1];
    }
  }

  lemma {:induction false} HeightPrefix(x: Code, y: Code, i: nat)
    requires i <= |x|
    ensures M.Height(x + y, i) == M.Height(x, i)
    decreases i
  {
    if i > 0 {
      HeightPrefix(x, y, i - 1);
      assert (x + y)[i - 1] == x[i - 1];
    }
  }

  lemma BalancedConcat(x: Code, y: Code)
    requires Balanced(x) && Balanced(y)
    ensures Balanced(x + y)
  {
    HeightConcat(x, y, |y|);
  }

  lemma {:induction false} PlainHeight(code: Code, i: nat)
    requires Plain(code) && i <= |code|
    ensures M.Height(code, i) == 0
    decreases i
  {
    if i > 0 {
      PlainHeight(code, i - 1);
      assert code[i - 1] in code;
    }
  }

  lemma {:induction false} PatchHeight(code: Code, brk: nat, cont: nat, i: nat)
    requires i <= |code|
    ensures M.Height(Patch(code, brk, cont), i) == M.Height(code, i)
    decreases i
  {
    if i > 0 {
      PatchHeight(code, brk, cont, i - 1);
    }
  }

  /** A loop around balanced code. */
  lemma LoopBalanced(inner: Code, tail: M.OpCode, brk: nat, cont: nat)
    requires Balanced(inner) && Plain([tail])
    ensures Balanced([M.LoopBegin] + (Patch(inner, brk, cont) + [tail, M.LoopEnd]))
  {
    var x := Patch(inner, brk, cont);
    PatchHeight(inner, brk, cont, |x|);
    var rest := [tail, M.LoopEnd];
    assert tail in [tail];
    assert M.Height(rest, 1) == 0;
    HeightConcat(x, rest, 2);
    assert M.Height([M.LoopBegin], 1) == 1;
    HeightConcat([M.LoopBegin], x + rest, |x + rest|);
  }

  lemma PlainBalanced(code: Code)
    requires Plain(code)
    ensures Balanced(code)
  {
    PlainHeight(code, |code|);
  }

  /** Plain code, one plain opcode, balanced code. */
  lemma ThenBalanced(x: Code, op: M.OpCode, y: Code)
    requires Plain(x) && Plain([op]) && Balanced(y)
    ensures Balanced([op] + y) && Balanced(x + ([op] + y))
  {
    PlainBalanced(x);
    PlainBalanced([op]);
    BalancedConcat([op], y);
    BalancedConcat(x, [op] + y);
  }

  lemma {:induction false} StmtBalanced(s: Stmt, a: nat, r: nat, c: nat)
    ensures Balanced(EmitStmt(s, a, r, c).code)
    decreases s, 1
  {
    hide EmitExpr, EmitNc, EmitBlock, Patch, Balanced, Plain;
    match s
    case ExprStmt(e) =>
      ExprPlaced(e, a, r, c);
      OutputPlain(EmitExpr(e, a, r, c), r, c);
      PlainBalanced(OutputGen(EmitExpr(e, a, r, c)).code);
    case SilentStmt(e) =>
      ExprPlaced(e, a, r, c);
      PlainBalanced(EmitExpr(e, a, r, c).code);
    case If(cond, body, orelse) => IfBalanced(s, a, r, c);
    case Switch(cond, cs) => SwitchBalanced(s, a, r, c);
    case While(cond, body) => WhileBalanced(s, a, r, c);
    case DoWhile(body, cond) => DoWhileBalanced(s, a, r, c);
    case For(_, n, coll, body) => ForBalanced(s, a, r, c);
    case Break => OnePlain(M.Jmp(0)); OneBalanced(M.BreakTo(0, M.UnsetBreak));
    case Continue => OneBalanced(M.BreakTo(0, M.UnsetContinue));
    case Assert(cond, msg, line) => AssertBalanced(s, a, r, c);
    case Raise(e) =>
      NcPlaced(e, a, r, c);
      var g := EmitNc(e, a, r, c);
      RaisePlain(g);
  }

  lemma OnePlain(op: M.OpCode)
    requires !op.BreakTo? && !op.LoopBegin? && !op.LoopEnd?
    ensures Plain([op])
  {}

  lemma OneBalanced(op: M.OpCode)
    requires !op.LoopBegin? && !op.LoopEnd?
    ensures Balanced([op])
  {
    assert M.Height([op], 0) == 0;
  }

  lemma OutputPlain(g: Gen, r: nat, c: nat)
    requires WellPlaced(g, r, c)
    ensures Plain(OutputGen(g).code)
  {}

  lemma RaisePlain(g: Gen)
    requires Plain(g.code)
    ensures Balanced(g.code + [M.Raise(g.rv.reg)])
  {
    PlainBalanced(g.code + [M.Raise(g.rv.reg)]);
  }

  lemma IfBalanced(s: Stmt, a: nat, r: nat, c: nat)
    requires s.If?
    ensures Balanced(EmitStmt(s, a, r, c).code)
    decreases s, 0
  {
    hide EmitNc, EmitBlock, Balanced, Plain;
    var g := EmitNc(s.cond, a, r, c);
    var a1 := a + |g.code| + 1;
    var h := EmitBlock(s.body, a1, g.r, g.c);
    var a2 := a1 + |h.code|;
    NcPlaced(s.cond, a, r, c);
    BlockBalanced(s.body, a1, g.r, g.c);
    if s.orelse.Some? {
      var k := EmitBlock(s.orelse.value, a2 + 1, h.r, h.c);
      BlockBalanced(s.orelse.value, a2 + 1, h.r, h.c);
      OneBalanced(M.Jmp(a2 + 1 + |k.code|));
      BalancedConcat([M.Jmp(a2 + 1 + |k.code|)], k.code);
      BalancedConcat(h.code, [M.Jmp(a2 + 1 + |k.code|)] + k.code);
      OnePlain(M.JmpIfFalse(g.rv.reg, a2 + 1));
      ThenBalanced(g.code, M.JmpIfFalse(g.rv.reg, a2 + 1), h.code + ([M.Jmp(a2 + 1 + |k.code|)] + k.code));
    } else {
      OnePlain(M.JmpIfFalse(g.rv.reg, a2));
      ThenBalanced(g.code, M.JmpIfFalse(g.rv.reg, a2), h.code);
    }
  }

  lemma WhileBalanced(s: Stmt, a: nat, r: nat, c: nat)
    requires s.While?
    ensures Balanced(EmitStmt(s, a, r, c).code)
    decreases s, 0
  {
    hide EmitNc, EmitBlock, Balanced, Plain, Patch;
    var g := EmitNc(s.cond, a + 1, r, c);
    var a1 := a + 1 + |g.code| + 1;
    var h := EmitBlock(s.body, a1, g.r, g.c);
    var end := a1 + |h.code| + 1;
    NcPlaced(s.cond, a + 1, r, c);
    BlockBalanced(s.body, a1, g.r, g.c);
    OnePlain(M.JmpIfFalse(g.rv.reg, end));
    ThenBalanced(g.code, M.JmpIfFalse(g.rv.reg, end), h.code);
    OnePlain(M.Jmp(a + 1));
    LoopBalanced(g.code + ([M.JmpIfFalse(g.rv.reg, end)] + h.code), M.Jmp(a + 1), end, a + 1);
  }

  lemma DoWhileBalanced(s: Stmt, a: nat, r: nat, c: nat)
    requires s.DoWhile?
    ensures Balanced(EmitStmt(s, a, r, c).code)
    decreases s, 0
  {
    hide EmitNc, EmitBlock, Balanced, Plain, Patch;
    var h := EmitBlock(s.body, a + 1, r, c);
    var a1 := a + 1 + |h.code|;
    var g := EmitNc(s.cond, a1, h.r, h.c);
    NcPlaced(s.cond, a1, h.r, h.c);
    BlockBalanced(s.body, a + 1, r, c);
    PlainBalanced(g.code);
    BalancedConcat(h.code, g.code);
    OnePlain(M.JmpIfTrue(g.rv.reg, a + 1));
    LoopBalanced(h.code + g.code, M.JmpIfTrue(g.rv.reg, a + 1), a1 + |g.code| + 1, a1);
  }

  lemma ForBalanced(s: Stmt, a: nat, r: nat, c: nat)
    requires s.For?
    ensures Balanced(EmitStmt(s, a, r, c).code)
    decreases s, 0
  {
    hide EmitNc, EmitBlock, Balanced, Plain, Patch;
    var g := EmitNc(s.collection, a + 2, r + 1, c + 1);
    var head := a + 2 + |g.code| + 2;
    var h := EmitBlock(s.body, head + 2, g.r + 1, g.c);
    var end := head + 2 + |h.code| + 1;
    NcPlaced(s.collection, a + 2, r + 1, c + 1);
    BlockBalanced(s.body, head + 2, g.r + 1, g.c);
    var x := [M.StoreNilConst(c), M.StoreConst(r, c)];
    var y := [M.For(r, g.r, end), M.StoreName(r, s.name)];
    TwoBalanced(x);
    TwoBalanced(y);
    BalancedConcat(y, h.code);
    ForLoopBalanced(M.Iter(g.r, g.rv.reg), y + h.code, M.Jmp(head), end, head);
    PlainBalanced(g.code);
    var z := [M.LoopBegin, M.Iter(g.r, g.rv.reg)] + (Patch(y + h.code, end, head) + [M.Jmp(head), M.LoopEnd]);
    BalancedConcat(g.code, z);
    BalancedConcat(x, g.code + z);
  }

  lemma TwoBalanced(x: Code)
    requires |x| == 2 && Plain(x)
    ensures Balanced(x)
  {
    PlainBalanced(x);
  }

  lemma ForLoopBalanced(iter: M.OpCode, inner: Code, tail: M.OpCode, brk: nat, cont: nat)
    requires Balanced(inner) && iter.Iter? && tail.Jmp?
    ensures Balanced([M.LoopBegin, iter] + (Patch(inner, brk, cont) + [tail, M.LoopEnd]))
  {
    var x := Patch(inner, brk, cont);
    PatchHeight(inner, brk, cont, |x|);
    var rest := [tail, M.LoopEnd];
    assert M.Height(rest, 1) == 0;
    HeightConcat(x, rest, 2);
    var first := [M.LoopBegin, iter];
    assert M.Height(first, 1) == 1;
    HeightConcat(first, x + rest, |x + rest|);
  }

  lemma AssertBalanced(s: Stmt, a: nat, r: nat, c: nat)
    requires s.Assert?
    ensures Balanced(EmitStmt(s, a, r, c).code)
    decreases s, 0
  {
    hide EmitNc, Balanced;
    var g := EmitNc(s.cond, a, r, c);
    NcPlaced(s.cond, a, r, c);
    if s.msg.Some? {
      NcPlaced(s.msg.value, a + |g.code| + 1, g.r, g.c + 1);
    }
    PlainBalanced(EmitStmt(s, a, r, c).code);
  }

  lemma {:induction false} TablePlain(addrs: seq<nat>, list: nat, c: nat)
    ensures Plain(Table(addrs, list, c))
  {
    if addrs != [] {
      TablePlain(addrs[1..], list, c + 1);
    }
  }

  lemma SwitchBalanced(s: Stmt, a: nat, r: nat, c: nat)
    requires s.Switch?
    ensures Balanced(EmitStmt(s, a, r, c).code)
    decreases s, 0
  {
    hide EmitNc, EmitCaseValues, EmitBodies, CaseAddrs, DefaultAddr, Table, NumValues, Balanced, Plain;
    var g := EmitNc(s.cond, a, r, c);
    var a1 := a + |g.code| + 1;
    var v := EmitCaseValues(s.cases, g.r, a1, g.r + 2, g.c);
    var a3 := a1 + |v.code| + 1 + 2 * NumValues(s.cases) + 1;
    var c3 := v.c + NumValues(s.cases);
    var end := a3 + |EmitBodies(s.cases, a3, v.r, c3, 0).code|;
    var b := EmitBodies(s.cases, a3, v.r, c3, end);
    var addrs := CaseAddrs(s.cases, a3, v.r, c3);
    var last := M.Switch(g.rv.reg, g.r, g.r + 1, DefaultAddr(s.cases, a3, v.r, c3, end));
    var table := Table(addrs, g.r + 1, v.c);
    NcPlaced(s.cond, a, r, c);
    ValuesGrow(s.cases, g.r, a1, g.r + 2, g.c);
    TablePlain(addrs, g.r + 1, v.c);
    BodiesBalanced(s.cases, a3, v.r, c3, end);
    OnePlain(last);
    ThenBalanced(table, last, b.code);
    OnePlain(M.BuildList(g.r + 1));
    ThenBalanced(v.code, M.BuildList(g.r + 1), table + ([last] + b.code));
    OnePlain(M.BuildList(g.r));
    ThenBalanced(g.code, M.BuildList(g.r), v.code + ([M.BuildList(g.r + 1)] + (table + ([last] + b.code))));
  }

  lemma {:induction false} BlockBalanced(b: List<Stmt>, a: nat, r: nat, c: nat)
    ensures Balanced(EmitBlock(b, a, r, c).code)
    decreases b, 0
  {
    hide EmitStmt, Balanced;
    match b
    case Empty => PlainBalanced([]);
    case Cons(s, rest) =>
      var g := EmitStmt(s, a, r, c);
      StmtBalanced(s, a, r, c);
      BlockBalanced(rest, a + |g.code|, g.r, g.c);
      BalancedConcat(g.code, EmitBlock(rest, a + |g.code|, g.r, g.c).code);
  }

  lemma {:induction false} BodiesBalanced(cs: List<Case>, a: nat, r: nat, c: nat, end: nat)
    ensures Balanced(EmitBodies(cs, a, r, c, end).code)
    decreases cs, 0
  {
    match cs
    case Empty =>
    case Cons(k, rest) =>
      hide EmitBlock, Balanced;
      var g := EmitBlock(k.body, a, r, c);
      var h := EmitBodies(rest, a + |g.code| + 1, g.r, g.c, end);
      BlockBalanced(k.body, a, r, c);
      BodiesBalanced(rest, a + |g.code| + 1, g.r, g.c, end);
      OneBalanced(M.Jmp(end));
      BalancedConcat([M.Jmp(end)], h.code);
      BalancedConcat(g.code, [M.Jmp(end)] + h.code);
  }
}

/** The shape of emitted loops, read off the code alone: every break and continue jump stays in the
    innermost loop around it, the one of a break going to the LOOP_END of that loop. */
module LoopShape {
  import opened Lists
  import opened Ir
  import opened Codegen
  import opened CodegenFacts
  import opened LoopDepth
  import opened BreakResolution
  import opened M = Machine

  function Lesser(i: nat, j: nat): nat {
    if i < j then i else j
  }

  function Greater(i: nat, j: nat): nat {
    if i < j then j else i
  }

  /** Places `i` and `t` are directly in one loop: as deep as each other, and no place between them is less
      deep. A LOOP_END at `t` closes that loop. */
  ghost predicate SameLoop(code: Code, i: nat, t: nat) {
    && i < |code| && t < |code| && Height(code, i) == Height(code, t) >= 1
    && forall q :: Lesser(i, t) <= q <= Greater(i, t) ==> Height(code, q) >= Height(code, i)
  }

  /** Code at address `a`: loops open before they close, set jumps stay in their loop, the others are in no
      loop of the code. */
  ghost predicate Shaped(code: Code, a: nat) {
    && Balanced(code) && Rising(code)
    && forall i :: 0 <= i < |code| && code[i].BreakTo? ==> JumpShaped(code, a, i)
  }

  ghost predicate Rising(code: Code) {
    forall q :: 0 <= q <= |code| ==> Height(code, q) >= 0
  }

  ghost predicate JumpShaped(code: Code, a: nat, i: nat)
    requires i < |code| && code[i].BreakTo?
  {
    if code[i].state.Resolved? then a <= code[i].addr < a + |code| && SameLoop(code, i, code[i].addr - a)
    else Height(code, i) == 0
  }

  // ----- putting code together -----

  lemma {:induction false} HeightsJoined(x: Code, y: Code, i: nat)
    requires Balanced(x) && i <= |x + y|
    ensures Height(x + y, i) == if i <= |x| then Height(x, i) else Height(y, i - |x|)
  {
    if i <= |x| {
      HeightPrefix(x, y, i);
    } else {
      HeightConcat(x, y, i - |x|);
    }
  }

  lemma {:induction false} SameLoopLeft(x: Code, y: Code, i: nat, t: nat)
    requires Balanced(x) && SameLoop(x, i, t)
    ensures SameLoop(x + y, i, t)
  {
    forall q | 0 <= q <= |x + y| ensures Height(x + y, q) == if q <= |x| then Height(x, q) else Height(y, q - |x|) {
      HeightsJoined(x, y, q);
    }
  }

  lemma {:induction false} SameLoopRight(x: Code, y: Code, i: nat, t: nat)
    requires Balanced(x) && SameLoop(y, i, t)
    ensures SameLoop(x + y, |x| + i, |x| + t)
  {
    assert Height(y, 0) == 0;
    forall q | |x| <= q <= |x + y| ensures Height(x + y, q) == Height(y, q - |x|) {
      HeightsJoined(x, y, q);
    }
  }

  lemma {:induction false} ShapedConcat(x: Code, y: Code, a: nat)
    requires Shaped(x, a) && Shaped(y, a + |x|)
    ensures Shaped(x + y, a)
  {
    hide Height, SameLoop, Balanced;
    BalancedConcat(x, y);
    forall q | 0 <= q <= |x + y| ensures Height(x + y, q) >= 0 {
      HeightsJoined(x, y, q);
    }
    forall i | 0 <= i < |x + y| && (x + y)[i].BreakTo? ensures JumpShaped(x + y, a, i) {
      HeightsJoined(x, y, i);
      if i < |x| {
        assert (x + y)[i] == x[i] && JumpShaped(x, a, i);
        if x[i].state.Resolved? {
          SameLoopLeft(x, y, i, x[i].addr - a);
        }
      } else {
        assert (x + y)[i] == y[i - |x|] && JumpShaped(y, a + |x|, i - |x|);
        if y[i - |x|].state.Resolved? {
          SameLoopRight(x, y, i - |x|, y[i - |x|].addr - a - |x|);
        } else if i == |x| {
          BalancedEnd(x);
        }
      }
    }
  }

  lemma {:induction false} BalancedEnd(x: Code)
    requires Balanced(x)
    ensures Height(x, |x|) == 0
  {}

  lemma {:induction false} ShapedPlain(code: Code, a: nat)
    requires Plain(code)
    ensures Shaped(code, a)
  {
    hide Height;
    PlainBalanced(code);
    forall q | 0 <= q <= |code| ensures Height(code, q) >= 0 {
      PlainHeight(code, q);
    }
    forall i | 0 <= i < |code| ensures !code[i].BreakTo? {
      assert code[i] in code;
    }
  }

  lemma {:induction false} ShapedBreak(state: BreakState, a: nat)
    requires !state.Resolved?
    ensures Shaped([M.BreakTo(0, state)], a)
  {
    var code := [M.BreakTo(0, state)];
    assert Height(code, 0) == 0 && Height(code, 1) == 0;
  }

  // ----- a loop around code -----

  function Loop(inner: Code, tail: OpCode, brk: nat, cont: nat): Code {
    [M.LoopBegin] + (Patch(inner, brk, cont) + [tail, M.LoopEnd])
  }

  lemma {:induction false} LoopHeights(inner: Code, tail: OpCode, brk: nat, cont: nat)
    requires Balanced(inner) && Plain([tail])
    ensures var w := Loop(inner, tail, brk, cont);
            && Height(w, 0) == 0 && Height(w, |inner| + 2) == 1 && Height(w, |inner| + 3) == 0
            && forall q :: 0 <= q <= |inner| ==> Height(w, q + 1) == Height(inner, q) + 1
  {
    var x, rest := Patch(inner, brk, cont), [tail, M.LoopEnd];
    var w := Loop(inner, tail, brk, cont);
    assert tail in [tail];
    assert Height([M.LoopBegin], 1) == 1 && Height(rest, 0) == 0 && Height(rest, 1) == 0 && Height(rest, 2) == -1;
    PatchHeight(inner, brk, cont, |inner|);
    forall q | 0 <= q <= |inner| ensures Height(w, q + 1) == Height(inner, q) + 1 {
      HeightConcat([M.LoopBegin], x + rest, q);
      HeightPrefix(x, rest, q);
      PatchHeight(inner, brk, cont, q);
    }
    HeightConcat([M.LoopBegin], x + rest, |inner| + 1);
    HeightConcat(x, rest, 1);
    HeightConcat([M.LoopBegin], x + rest, |inner| + 2);
    HeightConcat(x, rest, 2);
  }

  lemma {:induction false} SameLoopInside(inner: Code, w: Code, i: nat, t: nat)
    requires |w| == |inner| + 3 && SameLoop(inner, i, t)
    requires forall q :: 0 <= q <= |inner| ==> Height(w, q + 1) == Height(inner, q) + 1
    ensures SameLoop(w, i + 1, t + 1)
  {
    hide Height;
    forall q | Lesser(i + 1, t + 1) <= q <= Greater(i + 1, t + 1) ensures Height(w, q) >= Height(w, i + 1) {
      assert Height(w, q - 1 + 1) == Height(inner, q - 1) + 1;
    }
  }

  /** A jump of the loop itself, to any place directly in the loop. */
  lemma {:induction false} OwnJump(inner: Code, w: Code, i: nat, t: nat)
    requires |w| == |inner| + 3 && Rising(inner) && i < |inner| && Height(inner, i) == 0
    requires forall q :: 0 <= q <= |inner| ==> Height(w, q + 1) == Height(inner, q) + 1
    requires Height(w, |inner| + 2) == 1 && 1 <= t < |w| && Height(w, t) == 1
    ensures SameLoop(w, i + 1, t)
  {
    hide Height;
    forall q | 1 <= q < |w| ensures Height(w, q) >= 1 {
      if q <= |inner| + 1 {
        assert Height(w, q - 1 + 1) == Height(inner, q - 1) + 1;
      } else {
        assert q == |inner| + 2;
      }
    }
  }

  /** `w` is a loop around `inner`, as far as depths and jumps go. */
  ghost predicate Around(inner: Code, w: Code, brk: nat, cont: nat) {
    && |w| == |inner| + 3 && !w[0].BreakTo? && !w[|inner| + 1].BreakTo? && !w[|inner| + 2].BreakTo?
    && (forall i :: 0 <= i < |inner| ==> w[i + 1] == PatchOp(inner[i], brk, cont))
    && Height(w, 0) == 0 && Height(w, |inner| + 2) == 1 && Height(w, |inner| + 3) == 0
    && (forall q :: 0 <= q <= |inner| ==> Height(w, q + 1) == Height(inner, q) + 1)
  }

  lemma {:induction false} LoopJump(inner: Code, w: Code, a: nat, brk: nat, cont: nat, i: nat)
    requires Around(inner, w, brk, cont) && Rising(inner) && i < |inner| && inner[i].BreakTo? && JumpShaped(inner, a + 1, i)
    requires brk == a + |inner| + 2 && a + 1 <= cont <= a + 1 + |inner| && Height(w, cont - a) == 1
    ensures w[i + 1].BreakTo? && JumpShaped(w, a, i + 1)
    ensures !inner[i].state.Resolved? ==>
              && w[i + 1] == M.BreakTo(if inner[i].state.UnsetBreak? then brk else cont, M.Resolved)
              && SameLoop(w, i + 1, w[i + 1].addr - a)
  {
    hide Height, SameLoop;
    assert w[i + 1] == PatchOp(inner[i], brk, cont);
    if inner[i].state.Resolved? {
      SameLoopInside(inner, w, i, inner[i].addr - a - 1);
    } else {
      OwnJump(inner, w, i, w[i + 1].addr - a);
    }
  }

  lemma {:induction false} AroundRising(inner: Code, w: Code, brk: nat, cont: nat)
    requires Around(inner, w, brk, cont) && Rising(inner)
    ensures Rising(w)
  {
    hide Height;
    forall q | 0 <= q <= |w| ensures Height(w, q) >= 0 {
      if 1 <= q <= |inner| + 1 {
        assert Height(w, q - 1 + 1) == Height(inner, q - 1) + 1;
      }
    }
  }

  lemma {:induction false} LoopIsAround(inner: Code, tail: OpCode, brk: nat, cont: nat)
    requires Balanced(inner) && Plain([tail])
    ensures var w := Loop(inner, tail, brk, cont);
            && Around(inner, w, brk, cont) && Balanced(w) && w[|inner| + 2] == M.LoopEnd && w[|inner| + 1] == tail
            && tail != M.LoopEnd
  {
    LoopBalanced(inner, tail, brk, cont);
    LoopHeights(inner, tail, brk, cont);
    LoopOps(inner, tail, brk, cont);
  }

  lemma {:induction false} LoopJumps(inner: Code, w: Code, a: nat, brk: nat, cont: nat)
    requires Around(inner, w, brk, cont) && Shaped(inner, a + 1)
    requires brk == a + |inner| + 2 && a + 1 <= cont <= a + 1 + |inner| && Height(w, cont - a) == 1
    ensures forall i :: 0 <= i < |w| && w[i].BreakTo? ==> JumpShaped(w, a, i)
  {
    hide Height, SameLoop, Balanced, Rising, PatchOp, JumpShaped;
    forall i | 0 <= i < |w| && w[i].BreakTo? ensures JumpShaped(w, a, i) {
      assert 1 <= i <= |inner| && w[i - 1 + 1] == PatchOp(inner[i - 1], brk, cont);
      PatchedBreak(inner[i - 1], brk, cont);
      LoopJump(inner, w, a, brk, cont, i - 1);
    }
  }

  lemma {:induction false} OpenJumps(inner: Code, w: Code, a: nat, brk: nat, cont: nat)
    requires Around(inner, w, brk, cont) && Shaped(inner, a + 1)
    requires brk == a + |inner| + 2 && a + 1 <= cont <= a + 1 + |inner| && Height(w, cont - a) == 1
    ensures forall i :: 0 <= i < |inner| && inner[i].BreakTo? && !inner[i].state.Resolved? ==>
              && w[i + 1] == M.BreakTo(if inner[i].state.UnsetBreak? then brk else cont, M.Resolved)
              && SameLoop(w, i + 1, w[i + 1].addr - a)
  {
    hide Height, SameLoop, Balanced, Rising, PatchOp, JumpShaped;
    forall i | 0 <= i < |inner| && inner[i].BreakTo? && !inner[i].state.Resolved?
      ensures w[i + 1] == M.BreakTo(if inner[i].state.UnsetBreak? then brk else cont, M.Resolved)
      ensures SameLoop(w, i + 1, w[i + 1].addr - a)
    {
      LoopJump(inner, w, a, brk, cont, i);
    }
  }

  /** A loop at address `a`: the jumps that were open become jumps of this loop, a break's to its LOOP_END,
      a continue's to `cont`, both directly in the loop; the jumps that were set stay as they are. */
  lemma {:induction false} ShapedLoop(inner: Code, tail: OpCode, a: nat, brk: nat, cont: nat)
    requires Shaped(inner, a + 1) && Plain([tail])
    requires brk == a + |inner| + 2 && a + 1 <= cont <= a + 1 + |inner| && Height(inner, cont - a - 1) == 0
    ensures var w := Loop(inner, tail, brk, cont);
            && |w| == |inner| + 3 && Shaped(w, a) && w[brk - a] == M.LoopEnd && w[cont - a] != M.LoopEnd
            && forall i :: 0 <= i < |inner| && inner[i].BreakTo? && !inner[i].state.Resolved? ==>
                 && w[i + 1] == M.BreakTo(if inner[i].state.UnsetBreak? then brk else cont, M.Resolved)
                 && SameLoop(w, i + 1, w[i + 1].addr - a)
  {
    hide *;
    var w := Loop(inner, tail, brk, cont);
    ShapedParts(inner, a + 1);
    LoopIsAround(inner, tail, brk, cont);
    AroundSize(inner, w, brk, cont, cont - a - 1);
    AroundRising(inner, w, brk, cont);
    NoLoopEnd(inner, w, brk, cont, cont - a);
    LoopJumps(inner, w, a, brk, cont);
    OpenJumps(inner, w, a, brk, cont);
    ShapedFrom(w, a);
  }

  lemma {:induction false} ShapedParts(code: Code, a: nat)
    requires Shaped(code, a)
    ensures Balanced(code) && Rising(code)
  {}

  lemma {:induction false} ShapedFrom(code: Code, a: nat)
    requires Balanced(code) && Rising(code) && forall i :: 0 <= i < |code| && code[i].BreakTo? ==> JumpShaped(code, a, i)
    ensures Shaped(code, a)
  {}

  lemma {:induction false} AroundSize(inner: Code, w: Code, brk: nat, cont: nat, q: nat)
    requires Around(inner, w, brk, cont) && q <= |inner|
    ensures |w| == |inner| + 3 && Height(w, q + 1) == Height(inner, q) + 1
  {}

  lemma {:induction false} PatchedBreak(op: OpCode, brk: nat, cont: nat)
    ensures PatchOp(op, brk, cont).BreakTo? <==> op.BreakTo?
  {}

  lemma {:induction false} LoopOps(inner: Code, tail: OpCode, brk: nat, cont: nat)
    requires Plain([tail])
    ensures var w := Loop(inner, tail, brk, cont);
            && |w| == |inner| + 3 && w[0] == M.LoopBegin && w[|inner| + 1] == tail && w[|inner| + 2] == M.LoopEnd
            && !tail.BreakTo? && !tail.LoopEnd?
            && (forall i :: 0 <= i < |inner| ==> w[i + 1] == PatchOp(inner[i], brk, cont))
  {
    assert tail in [tail];
  }

  /** Directly in a loop only the last opcode is a LOOP_END. */
  lemma {:induction false} NoLoopEnd(inner: Code, w: Code, brk: nat, cont: nat, t: nat)
    requires Around(inner, w, brk, cont) && Rising(inner) && 1 <= t <= |inner| + 1 && Height(w, t) == 1
    requires t == |inner| + 1 ==> w[t] != M.LoopEnd
    ensures w[t] != M.LoopEnd
  {
    if t <= |inner| {
      assert Height(w, t - 1 + 1) == Height(inner, t - 1) + 1;
      assert Height(inner, t) >= 0;
      assert Height(inner, t) == Height(inner, t - 1) + Delta(inner[t - 1]);
      assert w[t - 1 + 1] == PatchOp(inner[t - 1], brk, cont);
    }
  }

  // ----- emitted code -----

  lemma {:induction false} StmtShaped(s: Stmt, a: nat, r: nat, c: nat)
    ensures Shaped(EmitStmt(s, a, r, c).code, a)
    decreases s, 1
  {
    hide EmitExpr, EmitNc, EmitBlock, Patch, Shaped, Plain;
    match s
    case ExprStmt(e) =>
      ExprPlaced(e, a, r, c);
      OutputPlain(EmitExpr(e, a, r, c), r, c);
      ShapedPlain(OutputGen(EmitExpr(e, a, r, c)).code, a);
    case SilentStmt(e) =>
      ExprPlaced(e, a, r, c);
      ShapedPlain(EmitExpr(e, a, r, c).code, a);
    case If(cond, body, orelse) => IfShaped(s, a, r, c);
    case Switch(cond, cs) => SwitchShaped(s, a, r, c);
    case While(cond, body) => WhileShaped(s, a, r, c);
    case DoWhile(body, cond) => DoWhileShaped(s, a, r, c);
    case For(_, n, coll, body) => ForShaped(s, a, r, c);
    case Break => ShapedBreak(M.UnsetBreak, a);
    case Continue => ShapedBreak(M.UnsetContinue, a);
    case Assert(cond, msg, line) => AssertShaped(s, a, r, c);
    case Raise(e) =>
      NcPlaced(e, a, r, c);
      var g := EmitNc(e, a, r, c);
      RaiseIsPlain(g);
      ShapedPlain(g.code + [M.Raise(g.rv.reg)], a);
  }

  lemma {:induction false} RaiseIsPlain(g: Gen)
    requires Plain(g.code)
    ensures Plain(g.code + [M.Raise(g.rv.reg)])
  {}

  lemma {:induction false} AssertShaped(s: Stmt, a: nat, r: nat, c: nat)
    requires s.Assert?
    ensures Shaped(EmitStmt(s, a, r, c).code, a)
  {
    hide EmitNc, Shaped;
    var g := EmitNc(s.cond, a, r, c);
    NcPlaced(s.cond, a, r, c);
    if s.msg.Some? {
      NcPlaced(s.msg.value, a + |g.code| + 1, g.r, g.c + 1);
    }
    ShapedPlain(EmitStmt(s, a, r, c).code, a);
  }

  /** Code, an opcode, code. */
  lemma {:induction false} ShapedAround(x: Code, op: OpCode, y: Code, a: nat)
    requires Shaped(x, a) && Plain([op]) && Shaped(y, a + |x| + 1)
    ensures Shaped([op] + y, a + |x|) && Shaped(x + ([op] + y), a)
  {
    hide Shaped, Plain;
    ShapedPlain([op], a + |x|);
    ShapedConcat([op], y, a + |x|);
    ShapedConcat(x, [op] + y, a);
  }

  lemma {:induction false} IfShaped(s: Stmt, a: nat, r: nat, c: nat)
    requires s.If?
    ensures Shaped(EmitStmt(s, a, r, c).code, a)
    decreases s, 0
  {
    hide EmitNc, EmitBlock, Shaped, Plain;
    var g := EmitNc(s.cond, a, r, c);
    var a1 := a + |g.code| + 1;
    var h := EmitBlock(s.body, a1, g.r, g.c);
    var a2 := a1 + |h.code|;
    NcPlaced(s.cond, a, r, c);
    PlacedPlain(g, r, c);
    ShapedPlain(g.code, a);
    BlockShaped(s.body, a1, g.r, g.c);
    UnfoldIf(s, a, r, c);
    if s.orelse.Some? {
      var k := EmitBlock(s.orelse.value, a2 + 1, h.r, h.c);
      BlockShaped(s.orelse.value, a2 + 1, h.r, h.c);
      OnePlain(M.Jmp(a2 + 1 + |k.code|));
      OnePlain(M.JmpIfFalse(g.rv.reg, a2 + 1));
      ShapedAround(h.code, M.Jmp(a2 + 1 + |k.code|), k.code, a1);
      ShapedAround(g.code, M.JmpIfFalse(g.rv.reg, a2 + 1), h.code + ([M.Jmp(a2 + 1 + |k.code|)] + k.code), a);
    } else {
      OnePlain(M.JmpIfFalse(g.rv.reg, a2));
      ShapedAround(g.code, M.JmpIfFalse(g.rv.reg, a2), h.code, a);
    }
  }

  lemma {:induction false} WhileShaped(s: Stmt, a: nat, r: nat, c: nat)
    requires s.While?
    ensures Shaped(EmitStmt(s, a, r, c).code, a)
    decreases s, 0
  {
    hide EmitNc, EmitBlock, Shaped, Plain, Patch;
    var g := EmitNc(s.cond, a + 1, r, c);
    var a1 := a + 1 + |g.code| + 1;
    var h := EmitBlock(s.body, a1, g.r, g.c);
    var end := a1 + |h.code| + 1;
    NcPlaced(s.cond, a + 1, r, c);
    PlacedPlain(g, r, c);
    ShapedPlain(g.code, a + 1);
    BlockShaped(s.body, a1, g.r, g.c);
    OnePlain(M.JmpIfFalse(g.rv.reg, end));
    ShapedAround(g.code, M.JmpIfFalse(g.rv.reg, end), h.code, a + 1);
    OnePlain(M.Jmp(a + 1));
    ShapedLoop(g.code + ([M.JmpIfFalse(g.rv.reg, end)] + h.code), M.Jmp(a + 1), a, end, a + 1);
  }

  lemma {:induction false} DoWhileShaped(s: Stmt, a: nat, r: nat, c: nat)
    requires s.DoWhile?
    ensures Shaped(EmitStmt(s, a, r, c).code, a)
    decreases s, 0
  {
    hide EmitNc, EmitBlock, Shaped, Plain, Patch, Height;
    var h := EmitBlock(s.body, a + 1, r, c);
    var a1 := a + 1 + |h.code|;
    var g := EmitNc(s.cond, a1, h.r, h.c);
    NcPlaced(s.cond, a1, h.r, h.c);
    PlacedPlain(g, h.r, h.c);
    ShapedPlain(g.code, a1);
    BlockShaped(s.body, a + 1, r, c);
    ShapedConcat(h.code, g.code, a + 1);
    BlockBalanced(s.body, a + 1, r, c);
    HeightPrefix(h.code, g.code, |h.code|);
    OnePlain(M.JmpIfTrue(g.rv.reg, a + 1));
    ShapedLoop(h.code + g.code, M.JmpIfTrue(g.rv.reg, a + 1), a, a1 + |g.code| + 1, a1);
  }

  lemma {:induction false} ForShaped(s: Stmt, a: nat, r: nat, c: nat)
    requires s.For?
    ensures Shaped(EmitStmt(s, a, r, c).code, a)
    decreases s, 0
  {
    hide EmitNc, EmitBlock, Shaped, Plain, Patch;
    var g := EmitNc(s.collection, a + 2, r + 1, c + 1);
    var head := a + 2 + |g.code| + 2;
    var h := EmitBlock(s.body, head + 2, g.r + 1, g.c);
    var end := head + 2 + |h.code| + 1;
    NcPlaced(s.collection, a + 2, r + 1, c + 1);
    PlacedPlain(g, r + 1, c + 1);
    ShapedPlain(g.code, a + 2);
    BlockShaped(s.body, head + 2, g.r + 1, g.c);
    var x := [M.StoreNilConst(c), M.StoreConst(r, c)];
    var y := [M.For(r, g.r, end), M.StoreName(r, s.name)];
    ForPlain(x, y);
    ShapedPlain(x, a);
    ShapedPlain(y, head);
    ShapedConcat(y, h.code, head);
    OnePlain(M.Jmp(head));
    var iter := [M.Iter(g.r, g.rv.reg)];
    OnePlain(iter[0]);
    ShapedPlain(iter, head - 1);
    ShapedConcat(iter, y + h.code, head - 1);
    HeightPrefix(iter, y + h.code, 1);
    ShapedLoop(iter + (y + h.code), M.Jmp(head), head - 2, end, head);
    ForLoopIs(M.Iter(g.r, g.rv.reg), y + h.code, M.Jmp(head), end, head);
    var loop := [M.LoopBegin, M.Iter(g.r, g.rv.reg)] + (Patch(y + h.code, end, head) + [M.Jmp(head), M.LoopEnd]);
    ShapedConcat(g.code, loop, a + 2);
    ShapedConcat(x, g.code + loop, a);
  }

  lemma {:induction false} ForPlain(x: Code, y: Code)
    requires |x| == |y| == 2 && x[0].StoreNilConst? && x[1].StoreConst? && y[0].For? && y[1].StoreName?
    ensures Plain(x) && Plain(y)
  {}

  lemma {:induction false} ForLoopIs(iter: OpCode, inner: Code, tail: OpCode, brk: nat, cont: nat)
    requires iter.Iter?
    ensures Loop([iter] + inner, tail, brk, cont) == [M.LoopBegin, iter] + (Patch(inner, brk, cont) + [tail, M.LoopEnd])
  {
    PatchConcat([iter], inner, brk, cont);
    assert Patch([iter], brk, cont) == [iter];
  }

  lemma {:induction false} SwitchShaped(s: Stmt, a: nat, r: nat, c: nat)
    requires s.Switch?
    ensures Shaped(EmitStmt(s, a, r, c).code, a)
    decreases s, 0
  {
    hide EmitNc, EmitCaseValues, EmitBodies, CaseAddrs, DefaultAddr, Table, NumValues, Shaped, Plain;
    var g := EmitNc(s.cond, a, r, c);
    var a1 := a + |g.code| + 1;
    var v := EmitCaseValues(s.cases, g.r, a1, g.r + 2, g.c);
    var a2 := a1 + |v.code| + 1;
    var a3 := a2 + 2 * NumValues(s.cases) + 1;
    var c3 := v.c + NumValues(s.cases);
    var end := a3 + |EmitBodies(s.cases, a3, v.r, c3, 0).code|;
    var b := EmitBodies(s.cases, a3, v.r, c3, end);
    var addrs := CaseAddrs(s.cases, a3, v.r, c3);
    var last := M.Switch(g.rv.reg, g.r, g.r + 1, DefaultAddr(s.cases, a3, v.r, c3, end));
    var table := Table(addrs, g.r + 1, v.c);
    NcPlaced(s.cond, a, r, c);
    PlacedPlain(g, r, c);
    ValuesGrow(s.cases, g.r, a1, g.r + 2, g.c);
    TablePlain(addrs, g.r + 1, v.c);
    TableLength(addrs, g.r + 1, v.c);
    CaseAddrsLength(s.cases, a3, v.r, c3);
    BodiesShaped(s.cases, a3, v.r, c3, end);
    OnePlain(last);
    OnePlain(M.BuildList(g.r + 1));
    OnePlain(M.BuildList(g.r));
    ShapedPlain(g.code, a);
    ShapedPlain(v.code, a1);
    ShapedPlain(table, a2);
    ShapedAround(table, last, b.code, a2);
    ShapedAround(v.code, M.BuildList(g.r + 1), table + ([last] + b.code), a1);
    ShapedAround(g.code, M.BuildList(g.r), v.code + ([M.BuildList(g.r + 1)] + (table + ([last] + b.code))), a);
  }

  lemma {:induction false} BlockShaped(b: List<Stmt>, a: nat, r: nat, c: nat)
    ensures Shaped(EmitBlock(b, a, r, c).code, a)
    decreases b, 0
  {
    hide EmitStmt, Shaped, Plain;
    match b
    case Empty =>
      NothingPlain();
      ShapedPlain([], a);
    case Cons(s, rest) =>
      var g := EmitStmt(s, a, r, c);
      StmtShaped(s, a, r, c);
      BlockShaped(rest, a + |g.code|, g.r, g.c);
      ShapedConcat(g.code, EmitBlock(rest, a + |g.code|, g.r, g.c).code, a);
  }

  lemma {:induction false} NothingPlain()
    ensures Plain([])
  {}

  lemma {:induction false} BodiesShaped(cs: List<Case>, a: nat, r: nat, c: nat, end: nat)
    ensures Shaped(EmitBodies(cs, a, r, c, end).code, a)
    decreases cs, 0
  {
    hide EmitBlock, Shaped, Plain;
    match cs
    case Empty =>
      NothingPlain();
      ShapedPlain([], a);
    case Cons(k, rest) =>
      var g := EmitBlock(k.body, a, r, c);
      var h := EmitBodies(rest, a + |g.code| + 1, g.r, g.c, end);
      BlockShaped(k.body, a, r, c);
      BodiesShaped(rest, a + |g.code| + 1, g.r, g.c, end);
      OnePlain(M.Jmp(end));
      ShapedAround(g.code, M.Jmp(end), h.code, a);
  }

  /** In a module every break and continue jump is set and stays in the innermost loop around it. */
  lemma {:induction false} ModuleShaped(b: List<Stmt>)
    requires !LooseBlock(b)
    ensures var P := EmitModule(b);
            forall i :: 0 <= i < |P| && P[i].BreakTo? ==> P[i].state.Resolved? && SameLoop(P, i, P[i].addr)
  {
    hide EmitBlock, Shaped, Plain, Height, SameLoop;
    var code := EmitBlock(b, 0, RESERVED_REGS, RESERVED_CREGS).code;
    BlockShaped(b, 0, RESERVED_REGS, RESERVED_CREGS);
    ResolvedBlock(b, 0, RESERVED_REGS, RESERVED_CREGS);
    OnePlain(M.End);
    ShapedPlain([M.End], |code|);
    ShapedConcat(code, [M.End], 0);
    JumpsShaped(EmitModule(b));
    forall i | 0 <= i < |EmitModule(b)| && EmitModule(b)[i].BreakTo? ensures EmitModule(b)[i].state.Resolved? {
      assert i < |code| && EmitModule(b)[i] == code[i];
    }
  }

  lemma {:induction false} JumpsShaped(P: Code)
    requires Shaped(P, 0)
    ensures forall i :: 0 <= i < |P| && P[i].BreakTo? && P[i].state.Resolved? ==> SameLoop(P, i, P[i].addr)
  {
    hide Height, SameLoop;
    forall i | 0 <= i < |P| && P[i].BreakTo? && P[i].state.Resolved? ensures SameLoop(P, i, P[i].addr) {
      assert JumpShaped(P, 0, i);
    }
  }
}

/** Where every `break` and `continue` of generated code goes: the targets found by walking the
    statement with its innermost loop in hand are the ones back-patching leaves in the code. */
module BreakTargets {
  import opened Lists
  import opened Ir
  import opened Codegen
  import opened CodegenFacts
  import opened LoopDepth
  import opened Layout
  import opened SwitchTables
  import opened BreakResolution
  import opened CompilerCorrect
  import opened StmtSimulation
  import opened M = Machine

  type Code = M.Code

  /** Addresses of break and continue jumps with their targets, given those of the innermost
      loop around the statement. */
  type Exits = map<nat, nat>

  function StmtExits(s: Stmt, a: nat, r: nat, c: nat, brk: nat, cont: nat): Exits
    decreases s
  {
    match s
    case Break => map[a := brk]
    case Continue => map[a := cont]
    case If(cond, body, orelse) =>
      var g := EmitNc(cond, a, r, c);
      var a1 := a + |g.code| + 1;
      var h := EmitBlock(body, a1, g.r, g.c);
      var inner := BlockExits(body, a1, g.r, g.c, brk, cont);
      (match orelse
       case None => inner
       case Some(b) => inner + BlockExits(b, a1 + |h.code| + 1, h.r, h.c, brk, cont))
    case Switch(cond, cs) =>
      var g := EmitNc(cond, a, r, c);
      var v := EmitCaseValues(cs, g.r, a + |g.code| + 1, g.r + 2, g.c);
      CaseExits(cs, a + |g.code| + 1 + |v.code| + 1 + 2 * NumValues(cs) + 1, v.r, v.c + NumValues(cs), brk, cont)
    case While(cond, body) =>
      var g := EmitNc(cond, a + 1, r, c);
      var a1 := a + 1 + |g.code| + 1;
      BlockExits(body, a1, g.r, g.c, a1 + |EmitBlock(body, a1, g.r, g.c).code| + 1, a + 1)
    case DoWhile(body, cond) =>
      var h := EmitBlock(body, a + 1, r, c);
      var a1 := a + 1 + |h.code|;
      BlockExits(body, a + 1, r, c, a1 + |EmitNc(cond, a1, h.r, h.c).code| + 1, a1)
    case For(_, n, coll, body) =>
      var g := EmitNc(coll, a + 2, r + 1, c + 1);
      var head := a + 2 + |g.code| + 2;
      BlockExits(body, head + 2, g.r + 1, g.c, head + 2 + |EmitBlock(body, head + 2, g.r + 1, g.c).code| + 1, head)
    case _ => map[]
  }

  function BlockExits(b: List<Stmt>, a: nat, r: nat, c: nat, brk: nat, cont: nat): Exits
    decreases b
  {
    match b
    case Empty => map[]
    case Cons(s, rest) =>
      var g := EmitStmt(s, a, r, c);
      StmtExits(s, a, r, c, brk, cont) + BlockExits(rest, a + |g.code|, g.r, g.c, brk, cont)
  }

  function CaseExits(cs: List<Case>, a: nat, r: nat, c: nat, brk: nat, cont: nat): Exits
    decreases cs
  {
    match cs
    case Empty => map[]
    case Cons(k, rest) =>
      var g := EmitBlock(k.body, a, r, c);
      BlockExits(k.body, a, r, c, brk, cont) + CaseExits(rest, a + |g.code| + 1, g.r, g.c, brk, cont)
  }

  /** The break jumps of `P` from `lo` to `hi` are those of `x`, all of them set. */
  ghost predicate ExitsAt(P: Code, lo: nat, hi: nat, x: Exits) {
    && hi <= |P|
    && (forall p :: p in x ==> lo <= p < hi)
    && (forall p :: lo <= p < hi ==> (P[p].BreakTo? <==> p in x))
    && (forall p :: p in x ==> P[p] == M.BreakTo(x[p], M.Resolved))
  }

  lemma ExitsJoin(P: Code, lo: nat, mid: nat, hi: nat, x: Exits, y: Exits)
    requires ExitsAt(P, lo, mid, x) && ExitsAt(P, mid, hi, y) && lo <= mid <= hi
    ensures ExitsAt(P, lo, hi, x + y)
  {}

  lemma ExitsPlain(P: Code, a: nat, code: Code)
    requires CodeAt(P, a, code) && Plain(code)
    ensures ExitsAt(P, a, a + |code|, map[])
  {
    forall p | a <= p < a + |code| ensures !P[p].BreakTo? {
      CodeOp(P, a, code, p - a);
      assert code[p - a] in code;
    }
  }

  lemma ExitsOp(P: Code, p: nat)
    requires p < |P| && !P[p].BreakTo?
    ensures ExitsAt(P, p, p + 1, map[])
  {}

  /** Code without breaks in front of code with some, and behind it. */
  lemma ExitsAround(P: Code, lo: nat, p: nat, q: nat, hi: nat, x: Exits)
    requires lo <= p <= q <= hi
    requires ExitsAt(P, lo, p, map[]) && ExitsAt(P, p, q, x) && ExitsAt(P, q, hi, map[])
    ensures ExitsAt(P, lo, hi, x)
  {}

  lemma ExitsNone(P: Code, lo: nat, mid: nat, hi: nat)
    requires ExitsAt(P, lo, mid, map[]) && ExitsAt(P, mid, hi, map[]) && lo <= mid <= hi
    ensures ExitsAt(P, lo, hi, map[])
  {}

  lemma {:induction false} StmtTargets(P: Code, s: Stmt, a: nat, r: nat, c: nat, brk: nat, cont: nat)
    requires LinkedAt(P, a, EmitStmt(s, a, r, c).code, brk, cont)
    ensures ExitsAt(P, a, a + |EmitStmt(s, a, r, c).code|, StmtExits(s, a, r, c, brk, cont))
    decreases s, 1
  {
    hide LinkedAt, CodeAt, EmitExpr, EmitNc, EmitBlock, Plain, ExitsAt, Patch;
    match s
    case ExprStmt(e) =>
      ExprPlaced(e, a, r, c);
      OutputPlain(EmitExpr(e, a, r, c), r, c);
      PlainTargets(P, a, OutputGen(EmitExpr(e, a, r, c)).code, brk, cont);
    case SilentStmt(e) =>
      ExprPlaced(e, a, r, c);
      PlainTargets(P, a, EmitExpr(e, a, r, c).code, brk, cont);
    case If(cond, body, orelse) => IfTargets(P, s, a, r, c, brk, cont);
    case Switch(cond, cs) => SwitchTargets(P, s, a, r, c, brk, cont);
    case While(cond, body) => WhileTargets(P, s, a, r, c, brk, cont);
    case DoWhile(body, cond) => DoWhileTargets(P, s, a, r, c, brk, cont);
    case For(_, n, coll, body) => ForTargets(P, s, a, r, c, brk, cont);
    case Break => BreakTarget(P, s, a, r, c, brk, cont);
    case Continue => BreakTarget(P, s, a, r, c, brk, cont);
    case Assert(cond, msg, line) => AssertTargets(P, s, a, r, c, brk, cont);
    case Raise(e) =>
      NcPlaced(e, a, r, c);
      RaiseTargets(P, EmitNc(e, a, r, c), a, brk, cont);
  }

  lemma PlainTargets(P: Code, a: nat, code: Code, brk: nat, cont: nat)
    requires LinkedAt(P, a, code, brk, cont) && Plain(code)
    ensures ExitsAt(P, a, a + |code|, map[])
  {
    LinkedPlain(P, a, code, brk, cont);
    ExitsPlain(P, a, code);
  }

  lemma BreakTarget(P: Code, s: Stmt, a: nat, r: nat, c: nat, brk: nat, cont: nat)
    requires s.Break? || s.Continue?
    requires LinkedAt(P, a, EmitStmt(s, a, r, c).code, brk, cont)
    ensures ExitsAt(P, a, a + |EmitStmt(s, a, r, c).code|, StmtExits(s, a, r, c, brk, cont))
  {
    LinkedOp(P, a, EmitStmt(s, a, r, c).code, 0, brk, cont);
  }

  lemma RaiseTargets(P: Code, g: Gen, a: nat, brk: nat, cont: nat)
    requires LinkedAt(P, a, g.code + [M.Raise(g.rv.reg)], brk, cont) && Plain(g.code)
    ensures ExitsAt(P, a, a + |g.code| + 1, map[])
  {
    PlainTargets(P, a, g.code + [M.Raise(g.rv.reg)], brk, cont);
  }

  lemma AssertTargets(P: Code, s: Stmt, a: nat, r: nat, c: nat, brk: nat, cont: nat)
    requires s.Assert? && LinkedAt(P, a, EmitStmt(s, a, r, c).code, brk, cont)
    ensures ExitsAt(P, a, a + |EmitStmt(s, a, r, c).code|, map[])
  {
    hide EmitNc, LinkedAt, ExitsAt;
    var g := EmitNc(s.cond, a, r, c);
    NcPlaced(s.cond, a, r, c);
    if s.msg.Some? {
      NcPlaced(s.msg.value, a + |g.code| + 1, g.r, g.c + 1);
    }
    PlainTargets(P, a, EmitStmt(s, a, r, c).code, brk, cont);
  }

  lemma IfTargets(P: Code, s: Stmt, a: nat, r: nat, c: nat, brk: nat, cont: nat)
    requires s.If? && LinkedAt(P, a, EmitStmt(s, a, r, c).code, brk, cont)
    ensures ExitsAt(P, a, a + |EmitStmt(s, a, r, c).code|, StmtExits(s, a, r, c, brk, cont))
    decreases s, 0
  {
    hide LinkedAt, CodeAt, EmitNc, EmitBlock, Plain, ExitsAt, Balanced, Even, Patch, BlockExits;
    var g := EmitNc(s.cond, a, r, c);
    var a1 := a + |g.code|;
    var h := EmitBlock(s.body, a1 + 1, g.r, g.c);
    var a2 := a1 + 1 + |h.code|;
    NcPlaced(s.cond, a, r, c);
    BlockBalanced(s.body, a1 + 1, g.r, g.c);
    if s.orelse.Some? {
      var k := EmitBlock(s.orelse.value, a2 + 1, h.r, h.c);
      BlockBalanced(s.orelse.value, a2 + 1, h.r, h.c);
      IfElseCode(P, g, h, k, a, brk, cont);
      BlockTargets(P, s.orelse.value, a2 + 1, h.r, h.c, brk, cont);
      ExitsOp(P, a2);
      var y := BlockExits(s.orelse.value, a2 + 1, h.r, h.c, brk, cont);
      var x := BlockExits(s.body, a1 + 1, g.r, g.c, brk, cont);
      IfHeadTargets(P, s, g, h, a, r, c, brk, cont);
      ExitsJoin(P, a2, a2 + 1, a2 + 1 + |k.code|, map[], y);
      assert map[] + y == y;
      ExitsJoin(P, a, a2, a2 + 1 + |k.code|, x, y);
    } else {
      IfCode(P, g, h, a2, a, brk, cont);
      IfHeadTargets(P, s, g, h, a, r, c, brk, cont);
    }
  }

  lemma IfHeadTargets(P: Code, s: Stmt, g: Gen, h: Emitted, a: nat, r: nat, c: nat, brk: nat, cont: nat)
    requires s.If? && g == EmitNc(s.cond, a, r, c) && h == EmitBlock(s.body, a + |g.code| + 1, g.r, g.c)
    requires CodeAt(P, a, g.code) && Plain(g.code)
    requires a + |g.code| < |P| && P[a + |g.code|].JmpIfFalse?
    requires LinkedAt(P, a + |g.code| + 1, h.code, brk, cont)
    ensures ExitsAt(P, a, a + |g.code| + 1 + |h.code|, BlockExits(s.body, a + |g.code| + 1, g.r, g.c, brk, cont))
    decreases s, -1
  {
    hide LinkedAt, CodeAt, EmitNc, EmitBlock, Plain, ExitsAt;
    var a1 := a + |g.code|;
    var x := BlockExits(s.body, a1 + 1, g.r, g.c, brk, cont);
    ExitsPlain(P, a, g.code);
    ExitsOp(P, a1);
    BlockTargets(P, s.body, a1 + 1, g.r, g.c, brk, cont);
    ExitsNone(P, a, a1, a1 + 1);
    ExitsJoin(P, a, a1 + 1, a1 + 1 + |h.code|, map[], x);
    assert map[] + x == x;
  }

  lemma WhileTargets(P: Code, s: Stmt, a: nat, r: nat, c: nat, brk: nat, cont: nat)
    requires s.While? && LinkedAt(P, a, EmitStmt(s, a, r, c).code, brk, cont)
    ensures ExitsAt(P, a, a + |EmitStmt(s, a, r, c).code|, StmtExits(s, a, r, c, brk, cont))
    decreases s, 0
  {
    hide LinkedAt, CodeAt, EmitStmt, EmitNc, EmitBlock, Plain, ExitsAt, Balanced, StmtExits, BlockExits, WhileGen, Even;
    WhileUnfold(s, a, r, c, brk, cont);
    var g := EmitNc(s.cond, a + 1, r, c);
    var a1 := a + 1 + |g.code|;
    var h := EmitBlock(s.body, a1 + 1, g.r, g.c);
    var end := a1 + 1 + |h.code| + 1;
    NcPlaced(s.cond, a + 1, r, c);
    BlockBalanced(s.body, a1 + 1, g.r, g.c);
    WhileCode(P, g, h, a, end, brk, cont);
    var x := BlockExits(s.body, a1 + 1, g.r, g.c, end, a + 1);
    ExitsOp(P, a);
    ExitsPlain(P, a + 1, g.code);
    ExitsOp(P, a1);
    BlockTargets(P, s.body, a1 + 1, g.r, g.c, end, a + 1);
    ExitsOp(P, end - 1);
    ExitsOp(P, end);
    ExitsNone(P, a, a + 1, a1);
    ExitsNone(P, a, a1, a1 + 1);
    ExitsNone(P, end - 1, end, end + 1);
    ExitsAround(P, a, a1 + 1, end - 1, end + 1, x);
  }

  lemma WhileUnfold(s: Stmt, a: nat, r: nat, c: nat, brk: nat, cont: nat)
    requires s.While?
    ensures var g := EmitNc(s.cond, a + 1, r, c);
            var a1 := a + 1 + |g.code| + 1;
            var h := EmitBlock(s.body, a1, g.r, g.c);
            var end := a1 + |h.code| + 1;
            && EmitStmt(s, a, r, c) == WhileGen(g, h, a + 1, end)
            && |EmitStmt(s, a, r, c).code| == end + 1 - a
            && StmtExits(s, a, r, c, brk, cont) == BlockExits(s.body, a1, g.r, g.c, end, a + 1)
  {
    hide EmitNc, EmitBlock, BlockExits;
  }

  lemma DoWhileTargets(P: Code, s: Stmt, a: nat, r: nat, c: nat, brk: nat, cont: nat)
    requires s.DoWhile? && LinkedAt(P, a, EmitStmt(s, a, r, c).code, brk, cont)
    ensures ExitsAt(P, a, a + |EmitStmt(s, a, r, c).code|, StmtExits(s, a, r, c, brk, cont))
    decreases s, 0
  {
    hide LinkedAt, CodeAt, EmitStmt, EmitNc, EmitBlock, Plain, ExitsAt, Balanced, StmtExits, BlockExits, DoWhileGen, Even;
    DoWhileUnfold(s, a, r, c, brk, cont);
    var h := EmitBlock(s.body, a + 1, r, c);
    var a1 := a + 1 + |h.code|;
    var g := EmitNc(s.cond, a1, h.r, h.c);
    var end := a1 + |g.code| + 1;
    NcPlaced(s.cond, a1, h.r, h.c);
    BlockBalanced(s.body, a + 1, r, c);
    DoWhileCode(P, h, g, a, end, brk, cont);
    var x := BlockExits(s.body, a + 1, r, c, end, a1);
    ExitsOp(P, a);
    BlockTargets(P, s.body, a + 1, r, c, end, a1);
    ExitsPlain(P, a1, g.code);
    ExitsOp(P, end - 1);
    ExitsOp(P, end);
    ExitsNone(P, a1, end - 1, end);
    ExitsNone(P, a1, end, end + 1);
    ExitsAround(P, a, a + 1, a1, end + 1, x);
  }

  lemma DoWhileUnfold(s: Stmt, a: nat, r: nat, c: nat, brk: nat, cont: nat)
    requires s.DoWhile?
    ensures var h := EmitBlock(s.body, a + 1, r, c);
            var a1 := a + 1 + |h.code|;
            var g := EmitNc(s.cond, a1, h.r, h.c);
            var end := a1 + |g.code| + 1;
            && EmitStmt(s, a, r, c) == DoWhileGen(h, g, a + 1, a1, end)
            && |EmitStmt(s, a, r, c).code| == end + 1 - a
            && StmtExits(s, a, r, c, brk, cont) == BlockExits(s.body, a + 1, r, c, end, a1)
  {
    hide EmitNc, EmitBlock, BlockExits;
  }

  lemma ForUnfold(s: Stmt, a: nat, r: nat, c: nat, brk: nat, cont: nat)
    requires s.For?
    ensures var g := EmitNc(s.collection, a + 2, r + 1, c + 1);
            var head := a + 2 + |g.code| + 2;
            var h := EmitBlock(s.body, head + 2, g.r + 1, g.c);
            var end := head + 2 + |h.code| + 1;
            && EmitStmt(s, a, r, c) == ForGen(s.name, r, c, g, h, head, end)
            && |EmitStmt(s, a, r, c).code| == end + 1 - a
            && StmtExits(s, a, r, c, brk, cont) == BlockExits(s.body, head + 2, g.r + 1, g.c, end, head)
  {
    hide EmitNc, EmitBlock, BlockExits;
  }

  /** The opcodes in front of a `for` loop's body contain no break. */
  lemma ForFront(P: Code, g: Gen, a: nat, head: nat)
    requires CodeAt(P, a + 2, g.code) && Plain(g.code) && head == a + 2 + |g.code| + 2 && head + 1 < |P|
    requires forall p :: p in {a, a + 1, head - 2, head - 1, head, head + 1} ==> !P[p].BreakTo?
    ensures ExitsAt(P, a, head + 2, map[])
  {
    hide CodeAt, Plain;
    ExitsPlain(P, a + 2, g.code);
  }

  lemma ForTargets(P: Code, s: Stmt, a: nat, r: nat, c: nat, brk: nat, cont: nat)
    requires s.For? && LinkedAt(P, a, EmitStmt(s, a, r, c).code, brk, cont)
    ensures ExitsAt(P, a, a + |EmitStmt(s, a, r, c).code|, StmtExits(s, a, r, c, brk, cont))
    decreases s, 0
  {
    hide LinkedAt, CodeAt, EmitStmt, EmitNc, EmitBlock, Plain, ExitsAt, Balanced, StmtExits, BlockExits, ForGen, Even;
    ForUnfold(s, a, r, c, brk, cont);
    var g := EmitNc(s.collection, a + 2, r + 1, c + 1);
    var head := a + 2 + |g.code| + 2;
    var h := EmitBlock(s.body, head + 2, g.r + 1, g.c);
    var end := head + 2 + |h.code| + 1;
    NcPlaced(s.collection, a + 2, r + 1, c + 1);
    PlacedPlain(g, r + 1, c + 1);
    BlockBalanced(s.body, head + 2, g.r + 1, g.c);
    ForCode(P, s.name, r, c, g, h, a, end, brk, cont);
    var x := BlockExits(s.body, head + 2, g.r + 1, g.c, end, head);
    ForFront(P, g, a, head);
    BlockTargets(P, s.body, head + 2, g.r + 1, g.c, end, head);
    ExitsOp(P, end - 1);
    ExitsOp(P, end);
    ExitsNone(P, end - 1, end, end + 1);
    ExitsAround(P, a, head + 2, end - 1, end + 1, x);
  }

  lemma SwitchTargets(P: Code, s: Stmt, a: nat, r: nat, c: nat, brk: nat, cont: nat)
    requires s.Switch? && LinkedAt(P, a, EmitStmt(s, a, r, c).code, brk, cont)
    ensures ExitsAt(P, a, a + |EmitStmt(s, a, r, c).code|, StmtExits(s, a, r, c, brk, cont))
    decreases s, 0
  {
    hide LinkedAt, CodeAt, EmitStmt, EmitNc, EmitCaseValues, EmitBodies, CaseAddrs, DefaultAddr, Table, NumValues, Plain,
      ExitsAt, StmtExits, CaseExits, SwitchGen, Even;
    var cs := s.cases;
    SwitchUnfold(s, a, r, c, brk, cont);
    var g := EmitNc(s.cond, a, r, c);
    var v := EmitCaseValues(cs, g.r, a + |g.code| + 1, g.r + 2, g.c);
    var a3 := a + |g.code| + 1 + |v.code| + 1 + 2 * NumValues(cs) + 1;
    var c3 := v.c + NumValues(cs);
    var addrs := CaseAddrs(cs, a3, v.r, c3);
    var table := Table(addrs, g.r + 1, v.c);
    var end := a3 + |EmitBodies(cs, a3, v.r, c3, 0).code|;
    var b := EmitBodies(cs, a3, v.r, c3, end);
    NcPlaced(s.cond, a, r, c);
    PlacedPlain(g, r, c);
    ValuesGrow(cs, g.r, a + |g.code| + 1, g.r + 2, g.c);
    TablePlain(addrs, g.r + 1, v.c);
    var d := DefaultAddr(cs, a3, v.r, c3, end);
    SwitchCode(P, g, v, table, d, b, a, brk, cont);
    SwitchFront(P, g, v.code, table, d, a, a3);
    CaseTargets(P, cs, a3, v.r, c3, end, brk, cont);
    var x := CaseExits(cs, a3, v.r, c3, brk, cont);
    ExitsJoin(P, a, a3, a3 + |b.code|, map[], x);
    assert map[] + x == x;
  }

  lemma SwitchUnfold(s: Stmt, a: nat, r: nat, c: nat, brk: nat, cont: nat)
    requires s.Switch?
    ensures var cs := s.cases;
            var g := EmitNc(s.cond, a, r, c);
            var v := EmitCaseValues(cs, g.r, a + |g.code| + 1, g.r + 2, g.c);
            var a3 := a + |g.code| + 1 + |v.code| + 1 + 2 * NumValues(cs) + 1;
            var c3 := v.c + NumValues(cs);
            var table := Table(CaseAddrs(cs, a3, v.r, c3), g.r + 1, v.c);
            var end := a3 + |EmitBodies(cs, a3, v.r, c3, 0).code|;
            var b := EmitBodies(cs, a3, v.r, c3, end);
            && EmitStmt(s, a, r, c) == SwitchGen(g, v, table, DefaultAddr(cs, a3, v.r, c3, end), b)
            && |table| == 2 * NumValues(cs)
            && |EmitStmt(s, a, r, c).code| == a3 + |b.code| - a
            && StmtExits(s, a, r, c, brk, cont) == CaseExits(cs, a3, v.r, c3, brk, cont)
  {
    hide EmitNc, EmitCaseValues, EmitBodies, CaseAddrs, DefaultAddr, Table, NumValues, CaseExits;
    var cs := s.cases;
    var g := EmitNc(s.cond, a, r, c);
    var v := EmitCaseValues(cs, g.r, a + |g.code| + 1, g.r + 2, g.c);
    var a3 := a + |g.code| + 1 + |v.code| + 1 + 2 * NumValues(cs) + 1;
    var c3 := v.c + NumValues(cs);
    CaseAddrsOwner(cs, 0, a3, v.r, c3);
    TableLength(CaseAddrs(cs, a3, v.r, c3), g.r + 1, v.c);
  }

  /** The opcodes of a switch before its bodies contain no break. */
  lemma SwitchFront(P: Code, g: Gen, v: Code, table: Code, d: nat, a: nat, a3: nat)
    requires SwitchAt(P, g, v, table, d, a, a3) && Plain(g.code) && Plain(v) && Plain(table)
    ensures ExitsAt(P, a, a3, map[])
  {
    hide CodeAt, Plain;
    var a1 := a + |g.code|;
    var a2 := a1 + 1 + |v|;
    ExitsPlain(P, a, g.code);
    ExitsPlain(P, a1 + 1, v);
    ExitsPlain(P, a2 + 1, table);
  }

  lemma ExitsEmpty(P: Code, a: nat, brk: nat, cont: nat)
    requires LinkedAt(P, a, [], brk, cont)
    ensures ExitsAt(P, a, a, map[])
  {}

  lemma {:induction false} BlockTargets(P: Code, b: List<Stmt>, a: nat, r: nat, c: nat, brk: nat, cont: nat)
    requires LinkedAt(P, a, EmitBlock(b, a, r, c).code, brk, cont)
    ensures ExitsAt(P, a, a + |EmitBlock(b, a, r, c).code|, BlockExits(b, a, r, c, brk, cont))
    decreases b, 0
  {
    hide LinkedAt, EmitStmt, ExitsAt, StmtExits;
    match b
    case Empty => ExitsEmpty(P, a, brk, cont);
    case Cons(s, rest) =>
      var g := EmitStmt(s, a, r, c);
      var h := EmitBlock(rest, a + |g.code|, g.r, g.c);
      LinkedSplit(P, a, g.code, h.code, brk, cont);
      StmtTargets(P, s, a, r, c, brk, cont);
      BlockTargets(P, rest, a + |g.code|, g.r, g.c, brk, cont);
      ExitsJoin(P, a, a + |g.code|, a + |g.code| + |h.code|, StmtExits(s, a, r, c, brk, cont),
                BlockExits(rest, a + |g.code|, g.r, g.c, brk, cont));
  }

  lemma {:induction false} UnfoldBodies(k: Case, rest: List<Case>, a: nat, r: nat, c: nat, end: nat, brk: nat, cont: nat)
    ensures var g := EmitBlock(k.body, a, r, c);
            var a1 := a + |g.code|;
            var h := EmitBodies(rest, a1 + 1, g.r, g.c, end);
            && EmitBodies(Cons(k, rest), a, r, c, end).code == g.code + ([M.Jmp(end)] + h.code)
            && CaseExits(Cons(k, rest), a, r, c, brk, cont)
            == BlockExits(k.body, a, r, c, brk, cont) + CaseExits(rest, a1 + 1, g.r, g.c, brk, cont)
  {
    hide EmitBlock, BlockExits;
  }

  /** A body, the jump behind it and the bodies after it. */
  lemma {:induction false} BodyLinked(P: Code, x: Code, end: nat, y: Code, a: nat, brk: nat, cont: nat)
    requires LinkedAt(P, a, x + ([M.Jmp(end)] + y), brk, cont)
    ensures LinkedAt(P, a, x, brk, cont) && LinkedAt(P, a + |x| + 1, y, brk, cont)
    ensures a + |x| < |P| && P[a + |x|] == M.Jmp(end)
  {
    hide LinkedAt;
    LinkedSplit(P, a, x, [M.Jmp(end)] + y, brk, cont);
    LinkedSplit(P, a + |x|, [M.Jmp(end)], y, brk, cont);
    LinkedOp(P, a + |x|, [M.Jmp(end)], 0, brk, cont);
  }

  lemma {:induction false} BodyExits(P: Code, a: nat, a1: nat, hi: nat, x: Exits, y: Exits)
    requires a <= a1 < hi && ExitsAt(P, a, a1, x) && a1 < |P| && !P[a1].BreakTo? && ExitsAt(P, a1 + 1, hi, y)
    ensures ExitsAt(P, a, hi, x + y)
  {
    hide ExitsAt;
    ExitsOp(P, a1);
    ExitsJoin(P, a1, a1 + 1, hi, map[], y);
    assert map[] + y == y;
    ExitsJoin(P, a, a1, hi, x, y);
  }

  lemma {:induction false} NoBodies(a: nat, r: nat, c: nat, end: nat, brk: nat, cont: nat)
    ensures EmitBodies(Empty, a, r, c, end).code == [] && CaseExits(Empty, a, r, c, brk, cont) == map[]
  {}

  lemma {:induction false} CaseTargets(P: Code, cs: List<Case>, a: nat, r: nat, c: nat, end: nat, brk: nat, cont: nat)
    requires LinkedAt(P, a, EmitBodies(cs, a, r, c, end).code, brk, cont)
    ensures ExitsAt(P, a, a + |EmitBodies(cs, a, r, c, end).code|, CaseExits(cs, a, r, c, brk, cont))
    decreases cs, 0
  {
    hide *;
    match cs
    case Empty =>
      NoBodies(a, r, c, end, brk, cont);
      ExitsEmpty(P, a, brk, cont);
    case Cons(k, rest) =>
      UnfoldBodies(k, rest, a, r, c, end, brk, cont);
      var g := EmitBlock(k.body, a, r, c);
      var a1 := a + |g.code|;
      var h := EmitBodies(rest, a1 + 1, g.r, g.c, end);
      BodyLinked(P, g.code, end, h.code, a, brk, cont);
      BlockTargets(P, k.body, a, r, c, brk, cont);
      CaseTargets(P, rest, a1 + 1, g.r, g.c, end, brk, cont);
      BodyExits(P, a, a1, a1 + 1 + |h.code|, BlockExits(k.body, a, r, c, brk, cont), CaseExits(rest, a1 + 1, g.r, g.c, brk, cont));
  }

  /** In a whole program every break and continue jump is set, and goes where its innermost loop says. */
  lemma ProgramTargets(b: List<Stmt>)
    requires !LooseBlock(b)
    ensures var code := EmitModule(b);
            ExitsAt(code, 0, |code|, BlockExits(b, 0, RESERVED_REGS, RESERVED_CREGS, 0, 0))
  {
    hide EmitBlock, LinkedAt, BlockExits;
    var code := EmitModule(b);
    var x := BlockExits(b, 0, RESERVED_REGS, RESERVED_CREGS, 0, 0);
    PlaceLinked(MODULE, b);
    ModuleIn(b);
    BlockTargets(code, b, 0, RESERVED_REGS, RESERVED_CREGS, 0, 0);
    ExitsOp(code, |code| - 1);
    ExitsJoin(code, 0, |code| - 1, |code|, x, map[]);
    assert x + map[] == x;
  }
}

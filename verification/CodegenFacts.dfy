/** Elementary facts about emitted code: how the register counters move, where results live,
    and which opcodes can be break or continue jumps. */
module CodegenFacts {
  import opened Lists
  import opened Values
  import opened Ir
  import opened Codegen
  import M = Machine

  /** No break or continue and no loop boundary. */
  ghost predicate Plain(code: Code) {
    forall op :: op in code ==> !op.BreakTo? && !op.LoopBegin? && !op.LoopEnd?
  }

  /** Counters only grow, a result is a register taken from the expression's own range,
      and expressions contain no break, continue or loop. */
  ghost predicate WellPlaced(g: Gen, r: nat, c: nat) {
    && r <= g.r && c <= g.c
    && (if g.rv.constant then c <= g.rv.reg < g.c else r <= g.rv.reg < g.r)
    && |g.code| > 0
    && Plain(g.code)
  }

  lemma PlacedPlain(g: Gen, r: nat, c: nat)
    requires WellPlaced(g, r, c)
    ensures Plain(g.code)
  {}

  lemma BinaryPlaced(op: BinOp, g: Gen, h: Gen, r: nat, c: nat)
    requires WellPlaced(g, r, c) && WellPlaced(h, g.r, g.c)
    ensures WellPlaced(BinaryGen(op, g, h), r, c)
  {}

  lemma UnaryPlaced(isNot: bool, g: Gen, r: nat, c: nat)
    requires WellPlaced(g, r, c)
    ensures WellPlaced(UnaryGen(isNot, g), r, c)
  {}

  lemma ShortPlaced(isAnd: bool, g: Gen, h: Gen, a1: nat, r: nat, c: nat)
    requires WellPlaced(g, r, c) && WellPlaced(h, g.r + 1, g.c)
    ensures WellPlaced(ShortGen(isAnd, g, h, a1), r, c)
  {}

  lemma TernaryPlaced(g: Gen, h: Gen, k: Gen, a2: nat, r: nat, c: nat)
    requires WellPlaced(g, r, c) && WellPlaced(h, g.r + 1, g.c) && WellPlaced(k, h.r, h.c)
    ensures WellPlaced(TernaryGen(g, h, k, a2), r, c)
  {}

  lemma NcGenPlaced(g: Gen, r: nat, c: nat)
    requires WellPlaced(g, r, c)
    ensures WellPlaced(NcGen(g), r, c) && !NcGen(g).rv.constant
  {}

  lemma {:induction false} ExprPlaced(e: Expr, a: nat, r: nat, c: nat)
    ensures WellPlaced(EmitExpr(e, a, r, c), r, c)
    decreases e, 1
  {
    match e
    case Lit(l) =>
    case ListLit(es) => ElemsPlaced(es, r, a + 1, r + 1, c);
    case Variable(n) =>
    case Binary(op, x, y) =>
      ExprPlaced(x, a, r, c);
      var g := EmitExpr(x, a, r, c);
      ExprPlaced(y, a + |g.code|, g.r, g.c);
      BinaryPlaced(op, g, EmitExpr(y, a + |g.code|, g.r, g.c), r, c);
    case Short(isAnd, x, y) => ShortExprPlaced(isAnd, x, y, a, r, c);
    case Unary(isNot, x) =>
      NcPlaced(x, a, r, c);
      UnaryPlaced(isNot, EmitNc(x, a, r, c), r, c);
    case Ternary(cond, t, f) => TernaryExprPlaced(cond, t, f, a, r, c);
    case Set(n, x) => ExprPlaced(x, a, r, c);
    case SetOp(op, n, x) => ExprPlaced(x, a + 1, r + 1, c);
  }

  lemma ShortExprPlaced(isAnd: bool, x: Expr, y: Expr, a: nat, r: nat, c: nat)
    ensures WellPlaced(EmitExpr(Short(isAnd, x, y), a, r, c), r, c)
    decreases Short(isAnd, x, y), 0
  {
    hide WellPlaced, Plain, EmitNc;
    NcPlaced(x, a, r, c);
    var g := EmitNc(x, a, r, c);
    var a1 := a + |g.code| + 3;
    NcPlaced(y, a1, g.r + 1, g.c);
    ShortPlaced(isAnd, g, EmitNc(y, a1, g.r + 1, g.c), a1, r, c);
  }

  lemma TernaryExprPlaced(cond: Expr, t: Expr, f: Expr, a: nat, r: nat, c: nat)
    ensures WellPlaced(EmitExpr(Ternary(cond, t, f), a, r, c), r, c)
    decreases Ternary(cond, t, f), 0
  {
    hide WellPlaced, Plain, EmitNc, TernaryGen;
    NcPlaced(cond, a, r, c);
    var g := EmitNc(cond, a, r, c);
    ExprPlaced(t, a + |g.code| + 1, g.r + 1, g.c);
    var h := EmitExpr(t, a + |g.code| + 1, g.r + 1, g.c);
    var a2 := a + |g.code| + 1 + |h.code| + 2;
    ExprPlaced(f, a2, h.r, h.c);
    TernaryPlaced(g, h, EmitExpr(f, a2, h.r, h.c), a2, r, c);
  }

  lemma {:induction false} UnfoldList(es: List<Expr>, a: nat, r: nat, c: nat)
    ensures var g := EmitElems(es, r, a + 1, r + 1, c);
            EmitExpr(ListLit(es), a, r, c) == Gen([M.BuildList(r)] + g.code, g.r, g.c, RegValue(r, false, false))
  {
    hide EmitNc, EmitElems, TernaryGen, BinaryGen, UnaryGen, ShortGen, SetGen, SetOpGen;
  }

  lemma {:induction false} NoElems(list: nat, a: nat, r: nat, c: nat)
    ensures EmitElems(Empty, list, a, r, c) == Emitted([], r, c)
  {}

  lemma {:induction false} UnfoldElems(e: Expr, rest: List<Expr>, list: nat, a: nat, r: nat, c: nat)
    ensures var g := EmitExpr(e, a, r, c);
            var h := EmitElems(rest, list, a + |g.code| + 1, g.r, g.c);
            EmitElems(Cons(e, rest), list, a, r, c) == Emitted(g.code + ([PushTo(list, g.rv)] + h.code), h.r, h.c)
  {
    hide EmitExpr, PushTo;
  }

  lemma {:induction false} UnfoldBinaryCode(op: BinOp, x: Expr, y: Expr, a: nat, r: nat, c: nat)
    ensures var g := EmitExpr(x, a, r, c);
            EmitExpr(Binary(op, x, y), a, r, c) == BinaryGen(op, g, EmitExpr(y, a + |g.code|, g.r, g.c))
  {
    hide EmitNc, EmitElems, TernaryGen, BinaryGen, UnaryGen, ShortGen, SetGen, SetOpGen;
  }

  lemma {:induction false} UnfoldShortCode(isAnd: bool, x: Expr, y: Expr, a: nat, r: nat, c: nat)
    ensures var g := EmitNc(x, a, r, c);
            var h := EmitNc(y, a + |g.code| + 3, g.r + 1, g.c);
            EmitExpr(Short(isAnd, x, y), a, r, c) == ShortGen(isAnd, g, h, a + |g.code| + 3)
  {
    hide EmitNc, EmitElems, TernaryGen, BinaryGen, UnaryGen, ShortGen, SetGen, SetOpGen;
  }

  lemma {:induction false} UnfoldIf(s: Stmt, a: nat, r: nat, c: nat)
    requires s.If?
    ensures var g := EmitNc(s.cond, a, r, c);
            var h := EmitBlock(s.body, a + |g.code| + 1, g.r, g.c);
            var a2 := a + |g.code| + 1 + |h.code|;
            EmitStmt(s, a, r, c) == if s.orelse.None? then IfGen(g, h, a2)
                                    else IfElseGen(g, h, EmitBlock(s.orelse.value, a2 + 1, h.r, h.c), a2 + 1)
  {
    hide EmitNc, EmitExpr, EmitBlock, IfGen, IfElseGen;
  }

  lemma UnfoldTernaryCode(cond: Expr, t: Expr, f: Expr, a: nat, r: nat, c: nat)
    ensures var g := EmitNc(cond, a, r, c);
            var h := EmitExpr(t, a + |g.code| + 1, g.r + 1, g.c);
            var a2 := a + |g.code| + 1 + |h.code| + 2;
            EmitExpr(Ternary(cond, t, f), a, r, c) == TernaryGen(g, h, EmitExpr(f, a2, h.r, h.c), a2)
  {
    hide EmitNc, EmitElems, TernaryGen, BinaryGen, UnaryGen, ShortGen, SetGen, SetOpGen;
  }

  lemma NcPlaced(e: Expr, a: nat, r: nat, c: nat)
    ensures WellPlaced(EmitNc(e, a, r, c), r, c)
    ensures !EmitNc(e, a, r, c).rv.constant
    decreases e, 2
  {
    ExprPlaced(e, a, r, c);
    NcGenPlaced(EmitExpr(e, a, r, c), r, c);
  }

  lemma {:induction false} ElemsPlaced(es: List<Expr>, list: nat, a: nat, r: nat, c: nat)
    ensures var g := EmitElems(es, list, a, r, c); r <= g.r && c <= g.c && Plain(g.code)
    decreases es, 0
  {
    match es
    case Empty =>
    case Cons(e, rest) =>
      ExprPlaced(e, a, r, c);
      var g := EmitExpr(e, a, r, c);
      ElemsPlaced(rest, list, a + |g.code| + 1, g.r, g.c);
  }

  // ----- statements -----

  ghost predicate Grows(g: Emitted, r: nat, c: nat) {
    r <= g.r && c <= g.c
  }

  lemma {:induction false} StmtGrows(s: Stmt, a: nat, r: nat, c: nat)
    ensures Grows(EmitStmt(s, a, r, c), r, c)
    decreases s, 1
  {
    hide EmitExpr, EmitNc, EmitBlock, Patch;
    match s
    case ExprStmt(e) => ExprPlaced(e, a, r, c);
    case SilentStmt(e) => ExprPlaced(e, a, r, c);
    case If(cond, body, orelse) =>
      NcPlaced(cond, a, r, c);
      var g := EmitNc(cond, a, r, c);
      BlockGrows(body, a + |g.code| + 1, g.r, g.c);
      var h := EmitBlock(body, a + |g.code| + 1, g.r, g.c);
      if orelse.Some? {
        BlockGrows(orelse.value, a + |g.code| + 1 + |h.code| + 1, h.r, h.c);
      }
    case Switch(cond, cs) => SwitchGrows(cond, cs, a, r, c);
    case While(cond, body) =>
      NcPlaced(cond, a + 1, r, c);
      var g := EmitNc(cond, a + 1, r, c);
      BlockGrows(body, a + 1 + |g.code| + 1, g.r, g.c);
    case DoWhile(body, cond) =>
      BlockGrows(body, a + 1, r, c);
      var h := EmitBlock(body, a + 1, r, c);
      NcPlaced(cond, a + 1 + |h.code|, h.r, h.c);
    case For(_, n, coll, body) =>
      NcPlaced(coll, a + 2, r + 1, c + 1);
      var g := EmitNc(coll, a + 2, r + 1, c + 1);
      BlockGrows(body, a + 2 + |g.code| + 2 + 2, g.r + 1, g.c);
    case Break =>
    case Continue =>
    case Assert(cond, msg, line) =>
      NcPlaced(cond, a, r, c);
      var g := EmitNc(cond, a, r, c);
      if msg.Some? {
        NcPlaced(msg.value, a + |g.code| + 1, g.r, g.c + 1);
      }
    case Raise(e) => NcPlaced(e, a, r, c);
  }

  lemma {:induction false} BlockGrows(b: List<Stmt>, a: nat, r: nat, c: nat)
    ensures Grows(EmitBlock(b, a, r, c), r, c)
    decreases b, 1
  {
    match b
    case Empty =>
    case Cons(s, rest) =>
      hide EmitStmt;
      var g := EmitStmt(s, a, r, c);
      StmtGrows(s, a, r, c);
      BlockGrows(rest, a + |g.code|, g.r, g.c);
  }

  lemma SwitchGrows(cond: Expr, cs: List<Case>, a: nat, r: nat, c: nat)
    ensures Grows(EmitStmt(Switch(cond, cs), a, r, c), r, c)
    decreases Switch(cond, cs), 0
  {
    hide EmitNc, EmitCaseValues, EmitBodies, CaseAddrs, DefaultAddr, Table;
    NcPlaced(cond, a, r, c);
    var g := EmitNc(cond, a, r, c);
    ValuesGrow(cs, g.r, a + |g.code| + 1, g.r + 2, g.c);
    var v := EmitCaseValues(cs, g.r, a + |g.code| + 1, g.r + 2, g.c);
    var a3 := a + |g.code| + 1 + |v.code| + 1 + 2 * NumValues(cs) + 1;
    var c3 := v.c + NumValues(cs);
    BodiesGrow(cs, a3, v.r, c3, a3 + |EmitBodies(cs, a3, v.r, c3, 0).code|);
  }

  lemma {:induction false} ValuesGrow(cs: List<Case>, list: nat, a: nat, r: nat, c: nat)
    ensures Grows(EmitCaseValues(cs, list, a, r, c), r, c)
    ensures Plain(EmitCaseValues(cs, list, a, r, c).code)
    decreases cs, 1
  {
    match cs
    case Empty =>
    case Cons(Default(_), rest) => ValuesGrow(rest, list, a, r, c);
    case Cons(Case(es, _), rest) =>
      ElemsPlaced(es, list, a, r, c);
      var g := EmitElems(es, list, a, r, c);
      ValuesGrow(rest, list, a + |g.code|, g.r, g.c);
  }

  lemma {:induction false} BodiesGrow(cs: List<Case>, a: nat, r: nat, c: nat, end: nat)
    ensures Grows(EmitBodies(cs, a, r, c, end), r, c)
    decreases cs, 1
  {
    match cs
    case Empty =>
    case Cons(k, rest) =>
      hide EmitBlock;
      BlockGrows(k.body, a, r, c);
      var g := EmitBlock(k.body, a, r, c);
      BodiesGrow(rest, a + |g.code| + 1, g.r, g.c, end);
  }

  /** The jump target after a switch does not change the size of its bodies. */
  lemma {:induction false} BodiesLength(cs: List<Case>, a: nat, r: nat, c: nat, end: nat, end': nat)
    ensures |EmitBodies(cs, a, r, c, end).code| == |EmitBodies(cs, a, r, c, end').code|
    decreases cs
  {
    match cs
    case Empty =>
    case Cons(k, rest) =>
      hide EmitBlock;
      var g := EmitBlock(k.body, a, r, c);
      BodiesLength(rest, a + |g.code| + 1, g.r, g.c, end, end');
  }

  lemma {:induction false} CaseAddrsLength(cs: List<Case>, a: nat, r: nat, c: nat)
    ensures |CaseAddrs(cs, a, r, c)| == NumValues(cs)
    decreases cs
  {
    match cs
    case Empty =>
    case Cons(k, rest) =>
      hide EmitBlock;
      var g := EmitBlock(k.body, a, r, c);
      CaseAddrsLength(rest, a + |g.code| + 1, g.r, g.c);
  }

  lemma {:induction false} TableLength(addrs: seq<nat>, list: nat, c: nat)
    ensures |Table(addrs, list, c)| == 2 * |addrs|
  {
    if addrs != [] {
      TableLength(addrs[1..], list, c + 1);
    }
  }

  // ----- patching -----

  lemma PatchConcat(x: Code, y: Code, brk: nat, cont: nat)
    ensures Patch(x + y, brk, cont) == Patch(x, brk, cont) + Patch(y, brk, cont)
  {}

  lemma PatchPlain(x: Code, brk: nat, cont: nat)
    requires Plain(x)
    ensures Patch(x, brk, cont) == x
  {
    forall i | 0 <= i < |x| ensures PatchOp(x[i], brk, cont) == x[i] {
      assert x[i] in x;
    }
  }

  /** Patching an inner loop's code again, for an outer loop, retargets nothing. */
  lemma PatchTwice(x: Code, brk: nat, cont: nat, brk': nat, cont': nat)
    ensures Patch(Patch(x, brk, cont), brk', cont') == Patch(x, brk, cont)
  {}
}

/** What the bytecode generator emits (bytecode/bytecodegen.cpp), as a function of the
    statement, the address `a` of the next opcode and the next free registers `r` and `c`
    of the two pools. The generator itself, with its appends and back-patches, is in
    `Generator`. */
module Codegen {
  import opened Lists
  import opened Values
  import opened Ir
  import M = Machine

  type Code = M.Code

  /** Where an expression's value is found. */
  datatype RegValue = RegValue(reg: nat, constant: bool, silent: bool)

  /** Emitted code, the register counters after it and, for expressions, the result. */
  datatype Gen = Gen(code: Code, r: nat, c: nat, rv: RegValue)

  datatype Emitted = Emitted(code: Code, r: nat, c: nat)

  // ----- expressions -----

  function StoreLit(c: nat, l: Literal): M.OpCode {
    match l
    case IntLiteral(i) => M.StoreIntConst(c, i)
    case BoolLiteral(b) => M.StoreBoolConst(c, b)
    case StringLiteral(s) => M.StoreStringConst(c, s)
    case NilLiteral => M.StoreNilConst(c)
  }

  function Move(dst: nat, rv: RegValue): M.OpCode {
    if rv.constant then M.StoreConst(dst, rv.reg) else M.Store(dst, rv.reg)
  }

  function PushTo(list: nat, rv: RegValue): M.OpCode {
    if rv.constant then M.ListPushConst(list, rv.reg) else M.ListPush(list, rv.reg)
  }

  /** The opcodes that apply a binary operator; the last one writes register `BinResult`. */
  function BinTail(op: BinOp, x: RegValue, y: RegValue, r: nat): Code {
    if x.constant && y.constant then [M.StoreConst(r, y.reg), M.BinExpr(op, M.ConstReg, r + 1, x.reg, r)]
    else if x.constant then [M.BinExpr(op, M.ConstReg, r, x.reg, y.reg)]
    else if y.constant then [M.BinExpr(op, M.RegConst, r, x.reg, y.reg)]
    else [M.BinExpr(op, M.RegReg, r, x.reg, y.reg)]
  }

  function BinResult(x: RegValue, y: RegValue, r: nat): nat {
    if x.constant && y.constant then r + 1 else r
  }

  // One function per construct says how the code of its parts is put together.

  function BinaryGen(op: BinOp, g: Gen, h: Gen): Gen {
    var dst := BinResult(g.rv, h.rv, h.r);
    Gen(g.code + (h.code + BinTail(op, g.rv, h.rv, h.r)), dst + 1, h.c, RegValue(dst, false, false))
  }

  /** Brings a value into the variable pool. */
  function NcGen(g: Gen): Gen {
    if g.rv.constant
    then Gen(g.code + [M.StoreConst(g.r, g.rv.reg)], g.r + 1, g.c, RegValue(g.r, false, false))
    else g
  }

  /** `not` and unary minus, whose operand is always in the variable pool. */
  function UnaryGen(isNot: bool, g: Gen): Gen {
    Gen(g.code + [if isNot then M.Not(g.r, g.rv.reg) else M.Neg(g.r, g.rv.reg)],
        g.r + 1, g.c, RegValue(g.r, false, false))
  }

  /** `&&` and `||`; `a1` is the address of the right operand's code. */
  function ShortGen(isAnd: bool, g: Gen, h: Gen, a1: nat): Gen {
    Gen(g.code
          + ([M.Store(g.r, g.rv.reg),
              if isAnd then M.JmpIfTrue(g.rv.reg, a1) else M.JmpIfFalse(g.rv.reg, a1),
              M.Jmp(a1 + |h.code| + 1)]
             + (h.code + [M.Store(g.r, h.rv.reg)])),
        h.r, h.c, RegValue(g.r, false, false))
  }

  /** `a2` is the address of the code for the false value. */
  function TernaryGen(g: Gen, h: Gen, k: Gen, a2: nat): Gen {
    Gen(g.code + ([M.JmpIfFalse(g.rv.reg, a2)]
                  + (h.code + ([Move(g.r, h.rv), M.Jmp(a2 + |k.code| + 1)]
                               + (k.code + [Move(g.r, k.rv)])))),
        k.r, k.c, RegValue(g.r, false, false))
  }

  function SetGen(g: Gen, n: string): Gen {
    Gen(g.code + [Move(g.r, g.rv), M.StoreName(g.r, n)], g.r + 1, g.c, RegValue(g.r, false, true))
  }

  /** Compound assignment: `r` holds the loaded variable and then the result. */
  function SetOpGen(op: BinOp, n: string, r: nat, g: Gen): Gen {
    Gen([M.Load(r, n)]
          + (g.code
             + [M.BinExpr(op, if g.rv.constant then M.RegConst else M.RegReg, r, r, g.rv.reg), M.StoreName(r, n)]),
        g.r, g.c, RegValue(r, false, true))
  }

  function EmitExpr(e: Expr, a: nat, r: nat, c: nat): Gen
    decreases e, 0
  {
    match e
    case Lit(l) => Gen([StoreLit(c, l)], r, c + 1, RegValue(c, true, false))
    case ListLit(es) =>
      var g := EmitElems(es, r, a + 1, r + 1, c);
      Gen([M.BuildList(r)] + g.code, g.r, g.c, RegValue(r, false, false))
    case Variable(n) => Gen([M.Load(r, n)], r + 1, c, RegValue(r, false, false))
    case Binary(op, x, y) =>
      var g := EmitExpr(x, a, r, c);
      BinaryGen(op, g, EmitExpr(y, a + |g.code|, g.r, g.c))
    case Short(isAnd, x, y) =>
      var g := EmitNc(x, a, r, c);
      ShortGen(isAnd, g, EmitNc(y, a + |g.code| + 3, g.r + 1, g.c), a + |g.code| + 3)
    case Unary(isNot, x) => UnaryGen(isNot, EmitNc(x, a, r, c))
    case Ternary(cond, t, f) =>
      var g := EmitNc(cond, a, r, c);
      var h := EmitExpr(t, a + |g.code| + 1, g.r + 1, g.c);
      var a2 := a + |g.code| + 1 + |h.code| + 2;
      TernaryGen(g, h, EmitExpr(f, a2, h.r, h.c), a2)
    case Set(n, x) => SetGen(EmitExpr(x, a, r, c), n)
    case SetOp(op, n, x) => SetOpGen(op, n, r, EmitExpr(x, a + 1, r + 1, c))
  }

  /** An expression whose value must end up in the variable pool. */
  function EmitNc(e: Expr, a: nat, r: nat, c: nat): Gen
    decreases e, 1
  {
    NcGen(EmitExpr(e, a, r, c))
  }

  /** List elements, each pushed onto register `list`. */
  function EmitElems(es: List<Expr>, list: nat, a: nat, r: nat, c: nat): Emitted
    decreases es, 0
  {
    match es
    case Empty => Emitted([], r, c)
    case Cons(e, rest) =>
      var g := EmitExpr(e, a, r, c);
      var h := EmitElems(rest, list, a + |g.code| + 1, g.r, g.c);
      Emitted(g.code + ([PushTo(list, g.rv)] + h.code), h.r, h.c)
  }

  // ----- break and continue -----

  /** What `update_jmps` does to one opcode. */
  function PatchOp(op: M.OpCode, brk: nat, cont: nat): M.OpCode {
    if !op.BreakTo? then op
    else match op.state
      case UnsetBreak => M.BreakTo(brk, M.Resolved)
      case UnsetContinue => M.BreakTo(cont, M.Resolved)
      case Resolved => op
  }

  function Patch(code: Code, brk: nat, cont: nat): Code {
    seq(|code|, i requires 0 <= i < |code| => PatchOp(code[i], brk, cont))
  }

  // ----- statements -----

  function OutputGen(g: Gen): Emitted {
    if g.rv.silent then Emitted(g.code, g.r, g.c)
    else if g.rv.constant
    then Emitted(g.code + [M.StoreConst(g.r, g.rv.reg), M.Output(g.r)], g.r + 1, g.c)
    else Emitted(g.code + [M.Output(g.rv.reg)], g.r, g.c)
  }

  /** `end` is the address after the body. */
  function IfGen(g: Gen, h: Emitted, end: nat): Emitted {
    Emitted(g.code + ([M.JmpIfFalse(g.rv.reg, end)] + h.code), h.r, h.c)
  }

  /** `a2` is the address of the else branch. */
  function IfElseGen(g: Gen, h: Emitted, k: Emitted, a2: nat): Emitted {
    Emitted(g.code + ([M.JmpIfFalse(g.rv.reg, a2)] + (h.code + ([M.Jmp(a2 + |k.code|)] + k.code))), k.r, k.c)
  }

  /** `head` is the address of the condition, `end` that of the closing `LoopEnd`. */
  function WhileGen(g: Gen, h: Emitted, head: nat, end: nat): Emitted {
    Emitted([M.LoopBegin]
              + (Patch(g.code + ([M.JmpIfFalse(g.rv.reg, end)] + h.code), end, head)
                 + [M.Jmp(head), M.LoopEnd]),
            h.r, h.c)
  }

  function DoWhileGen(h: Emitted, g: Gen, head: nat, cond: nat, end: nat): Emitted {
    Emitted([M.LoopBegin] + (Patch(h.code + g.code, end, cond) + [M.JmpIfTrue(g.rv.reg, head), M.LoopEnd]), g.r, g.c)
  }

  function ForGen(n: string, r: nat, c: nat, g: Gen, h: Emitted, head: nat, end: nat): Emitted {
    Emitted([M.StoreNilConst(c), M.StoreConst(r, c)]
              + (g.code
                 + ([M.LoopBegin, M.Iter(g.r, g.rv.reg)]
                    + (Patch([M.For(r, g.r, end), M.StoreName(r, n)] + h.code, end, head)
                       + [M.Jmp(head), M.LoopEnd]))),
            h.r, h.c)
  }

  function AssertGen(g: Gen, line: int, h: Gen): Emitted {
    Emitted(g.code + ([M.StoreIntConst(g.c, line)] + (h.code + [M.Assert(g.rv.reg, g.c, h.rv.reg)])), h.r, h.c)
  }

  /** An empty message, for an assertion written without one. */
  function NoMessage(r: nat, c: nat): Gen {
    Gen([M.StoreStringConst(c, ""), M.StoreConst(r, c)], r + 1, c + 1, RegValue(r, false, false))
  }

  function SwitchGen(g: Gen, v: Emitted, table: Code, defaultAddr: nat, b: Emitted): Emitted {
    Emitted(g.code
              + ([M.BuildList(g.r)]
                 + (v.code
                    + ([M.BuildList(g.r + 1)]
                       + (table
                          + ([M.Switch(g.rv.reg, g.r, g.r + 1, defaultAddr)] + b.code))))),
            b.r, b.c)
  }

  function EmitBlock(b: List<Stmt>, a: nat, r: nat, c: nat): Emitted
    decreases b, 0
  {
    match b
    case Empty => Emitted([], r, c)
    case Cons(s, rest) =>
      var g := EmitStmt(s, a, r, c);
      var h := EmitBlock(rest, a + |g.code|, g.r, g.c);
      Emitted(g.code + h.code, h.r, h.c)
  }

  function EmitStmt(s: Stmt, a: nat, r: nat, c: nat): Emitted
    decreases s, 0
  {
    match s
    case ExprStmt(e) => OutputGen(EmitExpr(e, a, r, c))
    case SilentStmt(e) =>
      var g := EmitExpr(e, a, r, c);
      Emitted(g.code, g.r, g.c)
    case If(cond, body, orelse) =>
      var g := EmitNc(cond, a, r, c);
      var h := EmitBlock(body, a + |g.code| + 1, g.r, g.c);
      var a2 := a + |g.code| + 1 + |h.code|;
      (match orelse
       case None => IfGen(g, h, a2)
       case Some(b) => IfElseGen(g, h, EmitBlock(b, a2 + 1, h.r, h.c), a2 + 1))
    case Switch(cond, cs) =>
      var g := EmitNc(cond, a, r, c);
      var v := EmitCaseValues(cs, g.r, a + |g.code| + 1, g.r + 2, g.c);
      var a3 := a + |g.code| + 1 + |v.code| + 1 + 2 * NumValues(cs) + 1;
      var c3 := v.c + NumValues(cs);
      var end := a3 + |EmitBodies(cs, a3, v.r, c3, 0).code|;
      SwitchGen(g, v, Table(CaseAddrs(cs, a3, v.r, c3), g.r + 1, v.c),
                DefaultAddr(cs, a3, v.r, c3, end), EmitBodies(cs, a3, v.r, c3, end))
    case While(cond, body) =>
      var g := EmitNc(cond, a + 1, r, c);
      var h := EmitBlock(body, a + 1 + |g.code| + 1, g.r, g.c);
      WhileGen(g, h, a + 1, a + 1 + |g.code| + 1 + |h.code| + 1)
    case DoWhile(body, cond) =>
      var h := EmitBlock(body, a + 1, r, c);
      var a1 := a + 1 + |h.code|;
      var g := EmitNc(cond, a1, h.r, h.c);
      DoWhileGen(h, g, a + 1, a1, a1 + |g.code| + 1)
    case For(_, n, coll, body) =>
      var g := EmitNc(coll, a + 2, r + 1, c + 1);
      var a1 := a + 2 + |g.code| + 2;
      var h := EmitBlock(body, a1 + 2, g.r + 1, g.c);
      ForGen(n, r, c, g, h, a1, a1 + 2 + |h.code| + 1)
    case Break => Emitted([M.BreakTo(0, M.UnsetBreak)], r, c)
    case Continue => Emitted([M.BreakTo(0, M.UnsetContinue)], r, c)
    case Assert(cond, msg, line) =>
      var g := EmitNc(cond, a, r, c);
      AssertGen(g, line,
                match msg
                case Some(e) => EmitNc(e, a + |g.code| + 1, g.r, g.c + 1)
                case None => NoMessage(g.r, g.c + 1))
    case Raise(e) =>
      var g := EmitNc(e, a, r, c);
      Emitted(g.code + [M.Raise(g.rv.reg)], g.r, g.c)
  }

  // ----- switch -----

  function NumValues(cs: List<Case>): nat {
    match cs
    case Empty => 0
    case Cons(Case(es, _), rest) => Length(es) + NumValues(rest)
    case Cons(Default(_), rest) => NumValues(rest)
  }

  function EmitCaseValues(cs: List<Case>, list: nat, a: nat, r: nat, c: nat): Emitted
    decreases cs, 0
  {
    match cs
    case Empty => Emitted([], r, c)
    case Cons(Default(_), rest) => EmitCaseValues(rest, list, a, r, c)
    case Cons(Case(es, _), rest) =>
      var g := EmitElems(es, list, a, r, c);
      var h := EmitCaseValues(rest, list, a + |g.code|, g.r, g.c);
      Emitted(g.code + h.code, h.r, h.c)
  }

  /** The bodies in source order, each followed by a jump to `end`. */
  function EmitBodies(cs: List<Case>, a: nat, r: nat, c: nat, end: nat): Emitted
    decreases cs, 0
  {
    match cs
    case Empty => Emitted([], r, c)
    case Cons(k, rest) =>
      var g := EmitBlock(k.body, a, r, c);
      var h := EmitBodies(rest, a + |g.code| + 1, g.r, g.c, end);
      Emitted(g.code + ([M.Jmp(end)] + h.code), h.r, h.c)
  }

  /** For every case value, the address of the body it selects. */
  function CaseAddrs(cs: List<Case>, a: nat, r: nat, c: nat): seq<nat>
    decreases cs, 0
  {
    match cs
    case Empty => []
    case Cons(k, rest) =>
      var g := EmitBlock(k.body, a, r, c);
      (if k.Case? then seq(Length(k.values), _ => a) else [])
        + CaseAddrs(rest, a + |g.code| + 1, g.r, g.c)
  }

  /** The address of the last default body, or `end`. */
  function DefaultAddr(cs: List<Case>, a: nat, r: nat, c: nat, end: nat): nat
    decreases cs, 0
  {
    match cs
    case Empty => end
    case Cons(k, rest) =>
      var g := EmitBlock(k.body, a, r, c);
      DefaultAddr(rest, a + |g.code| + 1, g.r, g.c, if k.Default? then a else end)
  }

  /** The run-time table of body addresses. */
  function Table(addrs: seq<nat>, list: nat, c: nat): Code {
    if addrs == [] then []
    else [M.StoreIntConst(c, addrs[0]), M.ListPushConst(list, c)] + Table(addrs[1..], list, c + 1)
  }

  /** A whole module: its statements and the end-of-file marker, above the reserved registers. */
  const RESERVED_REGS: nat := 100
  const RESERVED_CREGS: nat := 300

  function EmitModule(b: List<Stmt>): Code {
    EmitBlock(b, 0, RESERVED_REGS, RESERVED_CREGS).code + [M.End]
  }
}

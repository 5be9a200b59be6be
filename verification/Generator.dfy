/** The bytecode generator itself (bytecode/bytecodegen.hpp, bytecode/bytecodegen.cpp): an object
    that appends opcodes to a growing vector, bumps the counters of the two register pools and
    goes back to fill in jump addresses. Each method is proved to produce what `Codegen` says. */
module Generator {
  import opened Lists
  import opened Values
  import opened Ir
  import opened Codegen
  import C = Codegen
  import CodegenFacts
  import SwitchTables
  import M = Machine

  type Code = M.Code

  /** What `update_jmps` does to the opcodes from `lo` to `hi`. */
  function PatchRange(code: Code, lo: nat, hi: nat, brk: nat, cont: nat): Code
    requires lo <= hi <= |code|
  {
    code[..lo] + Patch(code[lo..hi], brk, cont) + code[hi..]
  }

  lemma PatchMiddle(x: Code, y: Code, z: Code, brk: nat, cont: nat)
    ensures PatchRange(x + y + z, |x|, |x| + |y|, brk, cont) == x + Patch(y, brk, cont) + z
  {
    var code := x + y + z;
    assert code[..|x|] == x && code[|x|..|x| + |y|] == y && code[|x| + |y|..] == z;
  }

  lemma Rewrite(x: Code, op: M.OpCode, y: Code, op': M.OpCode)
    ensures (x + ([op] + y))[|x| := op'] == x + ([op'] + y)
  {}

  lemma TernaryFront(before: Code, g: Code, j: M.OpCode, h: Code, mv: M.OpCode, last: M.OpCode, j': M.OpCode)
    ensures (before + g + [j] + h + [mv] + [last])[|before| + |g| := j'] == before + (g + ([j'] + (h + [mv]))) + [last]
  {}

  lemma TernaryBack(front: Code, j: M.OpCode, k: Code, mv: M.OpCode, j': M.OpCode)
    ensures (front + [j] + k + [mv])[|front| := j'] == front + ([j'] + (k + [mv]))
  {}

  lemma TernaryResult(before: Code, g: Gen, h: Gen, k: Gen, res: nat, a2: nat)
    requires res == g.r
    ensures before + (g.code + ([M.JmpIfFalse(g.rv.reg, a2)] + (h.code + [Move(res, h.rv)])))
                   + ([M.Jmp(a2 + |k.code| + 1)] + (k.code + [Move(res, k.rv)]))
         == before + TernaryGen(g, h, k, a2).code
    ensures var t := TernaryGen(g, h, k, a2); t.r == k.r && t.c == k.c && t.rv == RegValue(res, false, false)
  {}

  lemma BranchFront(x: Code, j: M.OpCode, h: Code, last: M.OpCode, j': M.OpCode)
    ensures (x + [j] + h + [last])[|x| := j'] == x + ([j'] + h) + [last]
  {}

  /** The opcodes of a loop since `start`, patched. */
  lemma LoopBody(start: Code, x: Code, y: Code, z: Code, brk: nat, cont: nat)
    ensures PatchRange(start + x + y + z, |start|, |start| + |x| + |y| + |z|, brk, cont) == start + Patch(x + (y + z), brk, cont)
  {
    hide PatchRange, Patch;
    var inner := x + (y + z);
    assert start + x + y + z == start + inner + [];
    PatchMiddle(start, inner, [], brk, cont);
    assert start + Patch(inner, brk, cont) + [] == start + Patch(inner, brk, cont);
  }

  lemma LoopBodyTail(start: Code, x: Code, y: Code, op: M.OpCode, brk: nat, cont: nat)
    ensures PatchRange(start + x + y + [op], |start|, |start| + |x| + |y|, brk, cont) == start + Patch(x + y, brk, cont) + [op]
  {
    hide PatchRange, Patch;
    assert start + x + y + [op] == start + (x + y) + [op];
    PatchMiddle(start, x + y, [op], brk, cont);
  }

  /** Filling in a jump's address after patching is as good as before. */
  lemma LoopPatched(start: Code, x: Code, j: M.OpCode, y: Code, last: M.OpCode, j': M.OpCode, brk: nat, cont: nat)
    requires !j.BreakTo? && !j'.BreakTo?
    ensures (start + Patch(x + ([j] + y), brk, cont) + [last])[|start| + |x| := j']
         == start + Patch(x + ([j'] + y), brk, cont) + [last]
  {
    var before := start + Patch(x + ([j] + y), brk, cont) + [last];
    var after := start + Patch(x + ([j'] + y), brk, cont) + [last];
    forall i | 0 <= i < |before| ensures before[|start| + |x| := j'][i] == after[i] {
      if |start| <= i < |start| + |x + ([j] + y)| && i != |start| + |x| {
        assert (x + ([j] + y))[i - |start|] == (x + ([j'] + y))[i - |start|];
      }
    }
  }

  lemma WhileResult(before: Code, g: Gen, h: Emitted, head: nat, end: nat)
    ensures before + [M.LoopBegin] + Patch(g.code + ([M.JmpIfFalse(g.rv.reg, end)] + h.code), end, head) + [M.Jmp(head)] + [M.LoopEnd]
         == before + WhileGen(g, h, head, end).code
    ensures WhileGen(g, h, head, end).r == h.r && WhileGen(g, h, head, end).c == h.c
  {
    hide Patch;
    var inner := Patch(g.code + ([M.JmpIfFalse(g.rv.reg, end)] + h.code), end, head);
    assert before + [M.LoopBegin] + inner + [M.Jmp(head)] + [M.LoopEnd]
        == before + ([M.LoopBegin] + (inner + [M.Jmp(head), M.LoopEnd]));
  }

  lemma DoWhileResult(before: Code, h: Emitted, g: Gen, head: nat, cond: nat, end: nat)
    ensures before + [M.LoopBegin] + Patch(h.code + g.code, end, cond) + [M.JmpIfTrue(g.rv.reg, head)] + [M.LoopEnd]
         == before + DoWhileGen(h, g, head, cond, end).code
  {
    hide Patch;
    var inner := Patch(h.code + g.code, end, cond);
    assert before + [M.LoopBegin] + inner + [M.JmpIfTrue(g.rv.reg, head)] + [M.LoopEnd]
        == before + ([M.LoopBegin] + (inner + [M.JmpIfTrue(g.rv.reg, head), M.LoopEnd]));
  }

  /** The part of a `for` loop from its `LoopBegin` to its `LoopEnd`; `head` is the address of its `For`. */
  function ForLoopCode(n: string, r: nat, it: nat, collection: nat, h: Emitted, head: nat): Code {
    var end := head + 2 + |h.code| + 1;
    [M.LoopBegin, M.Iter(it, collection)]
      + (Patch([M.For(r, it, end), M.StoreName(r, n)] + h.code, end, head) + [M.Jmp(head), M.LoopEnd])
  }

  lemma ForBody(start: Code, j: M.OpCode, name: Code, z: Code, brk: nat, cont: nat)
    ensures PatchRange(start + [j] + name + z, |start|, |start| + 1 + |name| + |z|, brk, cont)
         == start + Patch([] + ([j] + (name + z)), brk, cont)
  {
    hide PatchRange, Patch;
    LoopBody(start, [j], name, z, brk, cont);
    assert [] + ([j] + (name + z)) == [j] + (name + z);
  }

  lemma ForLoopResult(before: Code, n: string, r: nat, it: nat, collection: nat, h: Emitted, head: nat)
    ensures var end := head + 2 + |h.code| + 1;
            before + [M.LoopBegin] + [M.Iter(it, collection)]
              + Patch([] + ([M.For(r, it, end)] + ([M.StoreName(r, n)] + h.code)), end, head) + [M.Jmp(head)] + [M.LoopEnd]
            == before + ForLoopCode(n, r, it, collection, h, head)
  {
    hide Patch;
    var end := head + 2 + |h.code| + 1;
    var inner := [M.For(r, it, end), M.StoreName(r, n)] + h.code;
    assert [] + ([M.For(r, it, end)] + ([M.StoreName(r, n)] + h.code)) == inner;
    var x, tail := Patch(inner, end, head), [M.Jmp(head), M.LoopEnd];
    assert before + [M.LoopBegin] + [M.Iter(it, collection)] + x + [M.Jmp(head)] + [M.LoopEnd]
        == before + ([M.LoopBegin, M.Iter(it, collection)] + (x + tail));
  }

  lemma ForResult(before: Code, n: string, r: nat, c: nat, g: Gen, h: Emitted, head: nat, end: nat)
    requires end == head + 2 + |h.code| + 1
    ensures before + [M.StoreNilConst(c)] + [M.StoreConst(r, c)] + g.code + ForLoopCode(n, r, g.r, g.rv.reg, h, head)
         == before + ForGen(n, r, c, g, h, head, end).code
  {
    hide Patch;
    var loop := ForLoopCode(n, r, g.r, g.rv.reg, h, head);
    assert before + [M.StoreNilConst(c)] + [M.StoreConst(r, c)] + g.code + loop
        == before + ([M.StoreNilConst(c), M.StoreConst(r, c)] + (g.code + loop));
  }

  // ----- switch -----

  function Zeros(n: nat): seq<nat> {
    seq(n, _ => 0)
  }

  /** Where the `n` address stores of a table after `front` opcodes stand. */
  function StorePositions(front: nat, n: nat): seq<nat> {
    seq(n, k requires 0 <= k < n => front + 2 * k)
  }

  function Filled(xs: seq<nat>, index: nat, n: nat, addr: nat): seq<nat>
    requires index + n <= |xs|
  {
    xs[..index] + seq(n, _ => addr) + xs[index + n..]
  }

  lemma FilledZeros(filled: seq<nat>, n: nat, m: nat, addr: nat)
    ensures Filled(filled + Zeros(n + m), |filled|, n, addr) == filled + seq(n, _ => addr) + Zeros(m)
  {}

  lemma {:induction false} TableSnoc(xs: seq<nat>, x: nat, list: nat, c: nat)
    ensures Table(xs + [x], list, c)
         == Table(xs, list, c) + [M.StoreIntConst(c + |xs|, x), M.ListPushConst(list, c + |xs|)]
  {
    if xs == [] {
      assert [x][1..] == [];
    } else {
      TableSnoc(xs[1..], x, list, c + 1);
      assert (xs + [x])[1..] == xs[1..] + [x];
    }
  }

  /** The store for value number `i` of a table. */
  lemma {:induction false} TableEntry(xs: seq<nat>, i: nat, x: nat, list: nat, c: nat)
    requires i < |xs|
    ensures |Table(xs, list, c)| == 2 * |xs| && Table(xs, list, c)[2 * i].StoreIntConst?
    ensures Table(xs, list, c)[2 * i].dst == c + i
    ensures Table(xs[i := x], list, c) == Table(xs, list, c)[2 * i := M.StoreIntConst(c + i, x)]
    decreases xs
  {
    CodegenFacts.TableLength(xs, list, c);
    if i == 0 {
      assert xs[i := x][1..] == xs[1..];
    } else {
      TableEntry(xs[1..], i - 1, x, list, c + 1);
      assert xs[i := x][1..] == xs[1..][i - 1 := x];
    }
  }

  /** The addresses of the jumps behind the bodies of a switch. */
  function EndJmps(cs: List<Case>, a: nat, r: nat, c: nat): seq<nat>
    decreases cs
  {
    match cs
    case Empty => []
    case Cons(k, rest) =>
      var g := C.EmitBlock(k.body, a, r, c);
      [a + |g.code|] + EndJmps(rest, a + |g.code| + 1, g.r, g.c)
  }

  function JumpsTo(code: Code, ps: seq<nat>, addr: nat): Code {
    seq(|code|, i requires 0 <= i < |code| => if i in ps then M.Jmp(addr) else code[i])
  }

  lemma {:induction false} EndsInside(cs: List<Case>, a: nat, r: nat, c: nat, end: nat)
    ensures forall p :: p in EndJmps(cs, a, r, c) ==> a <= p < a + |C.EmitBodies(cs, a, r, c, end).code|
    decreases cs
  {
    hide C.EmitBlock;
    if cs.Cons? {
      var g := C.EmitBlock(cs.head.body, a, r, c);
      EndsInside(cs.tail, a + |g.code| + 1, g.r, g.c, end);
    }
  }

  /** Filling in the end address afterwards gives the bodies emitted with it. */
  lemma {:induction false} EndsResult(front: Code, cs: List<Case>, a: nat, r: nat, c: nat, end: nat)
    requires a == |front|
    ensures JumpsTo(front + C.EmitBodies(cs, a, r, c, 0).code, EndJmps(cs, a, r, c), end)
         == front + C.EmitBodies(cs, a, r, c, end).code
    ensures forall p :: p in EndJmps(cs, a, r, c) ==> a <= p < a + |C.EmitBodies(cs, a, r, c, 0).code|
    ensures var b, b' := C.EmitBodies(cs, a, r, c, 0), C.EmitBodies(cs, a, r, c, end);
            b.r == b'.r && b.c == b'.c && |b.code| == |b'.code|
    decreases cs
  {
    hide C.EmitBlock;
    EndsInside(cs, a, r, c, 0);
    if cs.Cons? {
      var g := C.EmitBlock(cs.head.body, a, r, c);
      var a1 := a + |g.code| + 1;
      var unset, placed := front + g.code + [M.Jmp(0)], front + g.code + [M.Jmp(end)];
      EndsResult(placed, cs.tail, a1, g.r, g.c, end);
      EndsInside(cs.tail, a1, g.r, g.c, 0);
      var b, b' := C.EmitBodies(cs.tail, a1, g.r, g.c, 0).code, C.EmitBodies(cs.tail, a1, g.r, g.c, end).code;
      Regroup(front, g.code, [M.Jmp(0)] + b);
      assert front + (g.code + ([M.Jmp(0)] + b)) == unset + b;
      assert front + (g.code + ([M.Jmp(end)] + b')) == placed + b';
      JumpsFirst(unset, placed, b, a1 - 1, EndJmps(cs.tail, a1, g.r, g.c), end);
    }
  }

  lemma JumpsFirst(unset: Code, placed: Code, b: Code, p: nat, ps: seq<nat>, end: nat)
    requires p < |unset| && placed == unset[p := M.Jmp(end)] && forall q :: q in ps ==> q > p
    ensures JumpsTo(unset + b, [p] + ps, end) == JumpsTo(placed + b, ps, end)
  {}

  /** Without a default, the default address is the one after the switch. */
  lemma {:induction false} DefaultAddrLast(cs: List<Case>, a: nat, r: nat, c: nat, end: nat)
    requires a > 0
    ensures var d := DefaultAddr(cs, a, r, c, 0); DefaultAddr(cs, a, r, c, end) == if d == 0 then end else d
    decreases cs
  {
    SwitchTables.DefaultAddrCase(cs, a, r, c, 0);
    SwitchTables.DefaultAddrCase(cs, a, r, c, end);
    var k := DefaultCase(cs);
    if k.Some? {
      BodyAddrAfter(cs, k.value, a, r, c);
    }
  }

  lemma {:induction false} BodyAddrAfter(cs: List<Case>, k: nat, a: nat, r: nat, c: nat)
    requires k < Length(cs)
    ensures SwitchTables.BodyAddr(cs, k, a, r, c) >= a
    decreases cs
  {
    hide C.EmitBlock;
    if k > 0 {
      var g := C.EmitBlock(cs.head.body, a, r, c);
      BodyAddrAfter(cs.tail, k - 1, a + |g.code| + 1, g.r, g.c);
    }
  }

  /** Emitting the bodies in `rest` at `at`, after what is done, gives all of `cs` at `a`. */
  ghost predicate Pending(cs: List<Case>, a: nat, r: nat, c: nat, rest: List<Case>, at: nat, r': nat, c': nat,
                          filled: seq<nat>, d: nat, done: Code, ends: seq<nat>) {
    var b, all := C.EmitBodies(rest, at, r', c', 0), C.EmitBodies(cs, a, r, c, 0);
    && filled + CaseAddrs(rest, at, r', c') == CaseAddrs(cs, a, r, c)
    && DefaultAddr(rest, at, r', c', d) == DefaultAddr(cs, a, r, c, 0)
    && done + b.code == all.code && b.r == all.r && b.c == all.c
    && ends + EndJmps(rest, at, r', c') == EndJmps(cs, a, r, c)
  }

  lemma PendingStart(cs: List<Case>, a: nat, r: nat, c: nat)
    ensures Pending(cs, a, r, c, cs, a, r, c, [], 0, [], [])
  {}

  lemma PendingStep(cs: List<Case>, a: nat, r: nat, c: nat, rest: List<Case>, at: nat, b: Emitted,
                    r': nat, c': nat, filled: seq<nat>, xs: seq<nat>, d: nat, done: Code, ends: seq<nat>)
    requires rest.Cons? && b == C.EmitBlock(rest.head.body, at, r', c')
    requires Pending(cs, a, r, c, rest, at, r', c', filled, d, done, ends)
    requires xs == if rest.head.Case? then seq(Length(rest.head.values), _ => at) else []
    ensures Pending(cs, a, r, c, rest.tail, at + |b.code| + 1, b.r, b.c, filled + xs,
                    if rest.head.Default? then at else d, done + (b.code + [M.Jmp(0)]), ends + [at + |b.code|])
  {
    hide C.EmitBlock;
  }

  lemma PendingEnd(cs: List<Case>, a: nat, r: nat, c: nat, at: nat, r': nat, c': nat,
                   filled: seq<nat>, d: nat, done: Code, ends: seq<nat>)
    requires Pending(cs, a, r, c, Empty, at, r', c', filled, d, done, ends)
    ensures filled == CaseAddrs(cs, a, r, c) && d == DefaultAddr(cs, a, r, c, 0) && ends == EndJmps(cs, a, r, c)
    ensures var all := C.EmitBodies(cs, a, r, c, 0); done == all.code && r' == all.r && c' == all.c
  {
    assert filled + [] == filled && done + [] == done && ends + [] == ends;
  }

  lemma SwitchResult(before: Code, front: Code, g: Gen, v: Emitted, table: Code, d: nat, b: Emitted)
    requires front == before + g.code + [M.BuildList(g.r)] + v.code + [M.BuildList(g.r + 1)]
    ensures front + table + [M.Switch(g.rv.reg, g.r, g.r + 1, d)] + b.code == before + SwitchGen(g, v, table, d, b).code
  {
    var op := M.Switch(g.rv.reg, g.r, g.r + 1, d);
    assert front + table + [op] + b.code
        == before + (g.code + ([M.BuildList(g.r)] + (v.code + ([M.BuildList(g.r + 1)] + (table + ([op] + b.code))))));
  }

  /** The two halves of a short-circuit expression, put together. */
  lemma {:induction false} ShortWhole(before: Code, g: Code, head: Code, jmp: M.OpCode, h: Code, last: Code)
    requires |head| == 2
    ensures (before + g + head) + ([jmp] + (h + last)) == before + (g + ([head[0], head[1], jmp] + (h + last)))
  {
    assert [head[0], head[1], jmp] == head + [jmp];
  }

  class BytecodeGen {
    var code: Code
    /** The top of the register stack: the next free register and constant register. */
    var regs: nat
    var cregs: nat

    constructor ()
      ensures code == [] && regs == RESERVED_REGS && cregs == RESERVED_CREGS
    {
      code, regs, cregs := [], RESERVED_REGS, RESERVED_CREGS;
    }

    /** The vector is `before` followed by what was emitted. */
    ghost predicate Emits(before: Code, g: Emitted)
      reads this
    {
      code == before + g.code && regs == g.r && cregs == g.c
    }

    ghost predicate Gives(before: Code, g: Gen, rv: RegValue)
      reads this
    {
      code == before + g.code && regs == g.r && cregs == g.c && rv == g.rv
    }

    /** The address of the last opcode; of an empty vector, 0. */
    function CurrAddress(): nat
      reads this
    {
      if code == [] then 0 else |code| - 1
    }

    method NextReg() returns (q: nat)
      modifies `regs
      ensures q == old(regs) && regs == old(regs) + 1
    {
      q, regs := regs, regs + 1;
    }

    method NextCreg() returns (q: nat)
      modifies `cregs
      ensures q == old(cregs) && cregs == old(cregs) + 1
    {
      q, cregs := cregs, cregs + 1;
    }

    method Append(op: M.OpCode)
      modifies `code
      ensures code == old(code) + [op]
    {
      code := code + [op];
    }

    /** Resolves the open break and continue jumps among the opcodes from `start` to `end`. */
    method UpdateJmps(start: nat, end: nat, brk: nat, cont: nat)
      requires start <= end <= |code|
      modifies `code
      ensures code == PatchRange(old(code), start, end, brk, cont) && |code| == |old(code)|
    {
      ghost var before := code;
      var bci := start;
      while bci < end
        invariant start <= bci <= end && |code| == |before|
        invariant forall i :: 0 <= i < |code| ==>
                    code[i] == if start <= i < bci then PatchOp(before[i], brk, cont) else before[i]
      {
        var j := code[bci];
        if j.BreakTo? {
          if j.state.UnsetBreak? {
            code := code[bci := M.BreakTo(brk, M.Resolved)];
          } else if j.state.UnsetContinue? {
            code := code[bci := M.BreakTo(cont, M.Resolved)];
          }
        }
        bci := bci + 1;
      }
      assert code == PatchRange(before, start, end, brk, cont);
    }

    // ----- expressions -----

    method EmitExpr(e: Expr) returns (rv: RegValue)
      modifies this
      ensures Gives(old(code), C.EmitExpr(e, |old(code)|, old(regs), old(cregs)), rv)
      decreases e, 1
    {
      match e
      case Lit(l) =>
        var q := NextCreg();
        Append(StoreLit(q, l));
        rv := RegValue(q, true, false);
      case ListLit(es) => rv := EmitList(es);
      case Variable(n) =>
        var q := NextReg();
        Append(M.Load(q, n));
        rv := RegValue(q, false, false);
      case Binary(op, x, y) => rv := EmitBinary(op, x, y);
      case Short(isAnd, x, y) => rv := EmitShort(isAnd, x, y);
      case Unary(isNot, x) => rv := EmitUnary(isNot, x);
      case Ternary(cond, t, f) => rv := EmitTernary(cond, t, f);
      case Set(n, x) => rv := EmitSet(n, x);
      case SetOp(op, n, x) => rv := EmitSetOp(op, n, x);
    }

    method EmitNc(e: Expr) returns (rv: RegValue)
      modifies this
      ensures Gives(old(code), C.EmitNc(e, |old(code)|, old(regs), old(cregs)), rv)
      decreases e, 2
    {
      ghost var before := code;
      ghost var g := C.EmitExpr(e, |code|, regs, cregs);
      rv := EmitExpr(e);
      if rv.constant {
        var q := NextReg();
        Append(M.StoreConst(q, rv.reg));
        Regroup(before, g.code, [M.StoreConst(q, rv.reg)]);
        rv := RegValue(q, false, false);
      }
    }

    method EmitList(es: List<Expr>) returns (rv: RegValue)
      modifies this
      ensures Gives(old(code), C.EmitExpr(ListLit(es), |old(code)|, old(regs), old(cregs)), rv)
      decreases ListLit(es), 0
    {
      hide C.EmitExpr, C.EmitElems;
      CodegenFacts.UnfoldList(es, |code|, regs, cregs);
      ghost var before := code;
      var list := NextReg();
      Append(M.BuildList(list));
      EmitElems(es, list);
      Regroup(before, [M.BuildList(list)], C.EmitElems(es, list, |before| + 1, list + 1, old(cregs)).code);
      rv := RegValue(list, false, false);
    }

    /** Emits list elements one by one, each pushed onto register `list`. */
    method EmitElems(es: List<Expr>, list: nat)
      modifies this
      ensures Emits(old(code), C.EmitElems(es, list, |old(code)|, old(regs), old(cregs)))
      decreases es, 0
    {
      hide C.EmitExpr, C.EmitElems;
      ghost var before := code;
      ghost var all := C.EmitElems(es, list, |code|, regs, cregs);
      var rest := es;
      while rest.Cons?
        invariant rest == es || rest < es
        invariant var g := C.EmitElems(rest, list, |code|, regs, cregs);
                  code + g.code == before + all.code && g.r == all.r && g.c == all.c
        decreases rest
      {
        ghost var now := code;
        ghost var g := C.EmitExpr(rest.head, |code|, regs, cregs);
        ghost var h := C.EmitElems(rest.tail, list, |code| + |g.code| + 1, g.r, g.c);
        CodegenFacts.UnfoldElems(rest.head, rest.tail, list, |code|, regs, cregs);
        var v := EmitExpr(rest.head);
        if v.constant {
          Append(M.ListPushConst(list, v.reg));
        } else {
          Append(M.ListPush(list, v.reg));
        }
        assert code + h.code == now + (g.code + ([PushTo(list, g.rv)] + h.code));
        rest := rest.tail;
      }
      CodegenFacts.NoElems(list, |code|, regs, cregs);
      assert code + [] == code;
    }

    method EmitBinary(op: BinOp, x: Expr, y: Expr) returns (rv: RegValue)
      modifies this
      ensures Gives(old(code), C.EmitExpr(Binary(op, x, y), |old(code)|, old(regs), old(cregs)), rv)
      decreases Binary(op, x, y), 0
    {
      hide C.EmitExpr, BinTail, BinResult;
      CodegenFacts.UnfoldBinaryCode(op, x, y, |code|, regs, cregs);
      ghost var before := code;
      ghost var g := C.EmitExpr(x, |code|, regs, cregs);
      var left := EmitExpr(x);
      ghost var h := C.EmitExpr(y, |code|, regs, cregs);
      var right := EmitExpr(y);
      rv := EmitBinTail(op, left, right);
      assert code == before + (g.code + (h.code + BinTail(op, g.rv, h.rv, h.r)));
    }

    /** One of the four operand-kind variants of an operator. */
    method EmitBinTail(op: BinOp, left: RegValue, right: RegValue) returns (rv: RegValue)
      modifies this
      ensures code == old(code) + BinTail(op, left, right, old(regs)) && cregs == old(cregs)
      ensures regs == BinResult(left, right, old(regs)) + 1 && rv == RegValue(regs - 1, false, false)
    {
      if left.constant && right.constant {
        var q := NextReg();
        Append(M.StoreConst(q, right.reg));
        var dst := NextReg();
        Append(M.BinExpr(op, M.ConstReg, dst, left.reg, q));
      } else {
        var dst := NextReg();
        if left.constant {
          Append(M.BinExpr(op, M.ConstReg, dst, left.reg, right.reg));
        } else if right.constant {
          Append(M.BinExpr(op, M.RegConst, dst, left.reg, right.reg));
        } else {
          Append(M.BinExpr(op, M.RegReg, dst, left.reg, right.reg));
        }
      }
      rv := RegValue(regs - 1, false, false);
    }

    method EmitShort(isAnd: bool, x: Expr, y: Expr) returns (rv: RegValue)
      modifies this
      ensures Gives(old(code), C.EmitExpr(Short(isAnd, x, y), |old(code)|, old(regs), old(cregs)), rv)
      decreases Short(isAnd, x, y), 0
    {
      hide C.EmitExpr, C.EmitNc;
      CodegenFacts.UnfoldShortCode(isAnd, x, y, |code|, regs, cregs);
      ghost var before := code;
      ghost var g := C.EmitNc(x, |code|, regs, cregs);
      var left := EmitNc(x);
      var res := NextReg();
      Append(M.Store(res, left.reg));
      var target := CurrAddress() + 3;
      Append(if isAnd then M.JmpIfTrue(left.reg, target) else M.JmpIfFalse(left.reg, target));
      var jmpEnd := |code|;
      Append(M.Jmp(0));
      ghost var front := code[..jmpEnd];
      ghost var h := C.EmitNc(y, |code|, regs, cregs);
      var right := EmitNc(y);
      Append(M.Store(res, right.reg));
      assert code == front + ([M.Jmp(0)] + (h.code + [M.Store(res, h.rv.reg)]));
      Rewrite(front, M.Jmp(0), h.code + [M.Store(res, h.rv.reg)], M.Jmp(|code|));
      code := code[jmpEnd := M.Jmp(CurrAddress() + 1)];
      rv := RegValue(res, false, false);
      ghost var head := [M.Store(res, g.rv.reg),
                         if isAnd then M.JmpIfTrue(g.rv.reg, target) else M.JmpIfFalse(g.rv.reg, target)];
      assert front == before + g.code + head;
      ShortWhole(before, g.code, head, M.Jmp(|front| + 1 + |h.code| + 1), h.code, [M.Store(res, h.rv.reg)]);
      assert code == before + ShortGen(isAnd, g, h, |before| + |g.code| + 3).code;
    }

    method EmitUnary(isNot: bool, x: Expr) returns (rv: RegValue)
      modifies this
      ensures Gives(old(code), C.EmitExpr(Unary(isNot, x), |old(code)|, old(regs), old(cregs)), rv)
      decreases Unary(isNot, x), 0
    {
      ghost var before := code;
      ghost var g := C.EmitNc(x, |code|, regs, cregs);
      var val := EmitNc(x);
      var q := NextReg();
      if isNot {
        Append(M.Not(q, val.reg));
      } else {
        Append(M.Neg(q, val.reg));
      }
      Regroup(before, g.code, [if isNot then M.Not(q, val.reg) else M.Neg(q, val.reg)]);
      rv := RegValue(q, false, false);
    }

    method EmitTernary(cond: Expr, t: Expr, f: Expr) returns (rv: RegValue)
      modifies this
      ensures Gives(old(code), C.EmitExpr(Ternary(cond, t, f), |old(code)|, old(regs), old(cregs)), rv)
      decreases Ternary(cond, t, f), 0
    {
      hide C.EmitNc, C.EmitExpr, C.TernaryGen;
      ghost var before := code;
      ghost var g := C.EmitNc(cond, |code|, regs, cregs);
      CodegenFacts.UnfoldTernaryCode(cond, t, f, |code|, regs, cregs);
      var c := EmitNc(cond);
      var res := NextReg();
      var jmpFalse := |code|;
      Append(M.JmpIfFalse(c.reg, 0));
      ghost var h := C.EmitExpr(t, |code|, regs, cregs);
      EmitInto(res, t);
      var jmpEnd := |code|;
      Append(M.Jmp(0));
      TernaryFront(before, g.code, M.JmpIfFalse(c.reg, 0), h.code, Move(res, h.rv), M.Jmp(0), M.JmpIfFalse(c.reg, |code|));
      code := code[jmpFalse := M.JmpIfFalse(c.reg, CurrAddress() + 1)];
      ghost var front := before + (g.code + ([M.JmpIfFalse(c.reg, jmpEnd + 1)] + (h.code + [Move(res, h.rv)])));
      ghost var k := C.EmitExpr(f, |code|, regs, cregs);
      EmitInto(res, f);
      TernaryBack(front, M.Jmp(0), k.code, Move(res, k.rv), M.Jmp(|code|));
      code := code[jmpEnd := M.Jmp(CurrAddress() + 1)];
      rv := RegValue(res, false, false);
      TernaryResult(before, g, h, k, res, jmpEnd + 1);
    }

    /** Emits a branch of a conditional expression and moves its value to `res`. */
    method EmitInto(res: nat, e: Expr)
      modifies this
      ensures var g := C.EmitExpr(e, |old(code)|, old(regs), old(cregs));
              code == old(code) + g.code + [Move(res, g.rv)] && regs == g.r && cregs == g.c
      decreases e, 2
    {
      hide C.EmitExpr;
      var val := EmitExpr(e);
      if val.constant {
        Append(M.StoreConst(res, val.reg));
      } else {
        Append(M.Store(res, val.reg));
      }
    }

    method EmitSet(n: string, x: Expr) returns (rv: RegValue)
      modifies this
      ensures Gives(old(code), C.EmitExpr(Set(n, x), |old(code)|, old(regs), old(cregs)), rv)
      decreases Set(n, x), 0
    {
      ghost var before := code;
      ghost var g := C.EmitExpr(x, |code|, regs, cregs);
      var right := EmitExpr(x);
      var q := NextReg();
      if right.constant {
        Append(M.StoreConst(q, right.reg));
      } else {
        Append(M.Store(q, right.reg));
      }
      Append(M.StoreName(q, n));
      rv := RegValue(q, false, true);
      assert code == before + (g.code + [Move(q, g.rv), M.StoreName(q, n)]);
    }

    method EmitSetOp(op: BinOp, n: string, x: Expr) returns (rv: RegValue)
      modifies this
      ensures Gives(old(code), C.EmitExpr(SetOp(op, n, x), |old(code)|, old(regs), old(cregs)), rv)
      decreases SetOp(op, n, x), 0
    {
      ghost var before := code;
      var left := NextReg();
      Append(M.Load(left, n));
      ghost var g := C.EmitExpr(x, |code|, regs, cregs);
      var right := EmitExpr(x);
      if right.constant {
        Append(M.BinExpr(op, M.RegConst, left, left, right.reg));
      } else {
        Append(M.BinExpr(op, M.RegReg, left, left, right.reg));
      }
      Append(M.StoreName(left, n));
      rv := RegValue(left, false, true);
      assert code == before + SetOpGen(op, n, left, g).code;
    }

    // ----- statements -----

    /** `output`: prints the value of an expression statement unless it is silent. */
    method Output(val: RegValue)
      modifies this
      ensures cregs == old(cregs)
      ensures code == old(code) + (if val.silent then []
                                   else if val.constant then [M.StoreConst(old(regs), val.reg), M.Output(old(regs))]
                                   else [M.Output(val.reg)])
      ensures regs == if !val.silent && val.constant then old(regs) + 1 else old(regs)
    {
      if !val.silent {
        var reg := val.reg;
        if val.constant {
          reg := NextReg();
          Append(M.StoreConst(reg, val.reg));
        }
        Append(M.Output(reg));
      }
    }

    method EmitBlock(block: List<Stmt>)
      modifies this
      ensures Emits(old(code), C.EmitBlock(block, |old(code)|, old(regs), old(cregs)))
      decreases block, 0
    {
      hide C.EmitStmt;
      ghost var before := code;
      ghost var all := C.EmitBlock(block, |code|, regs, cregs);
      var rest := block;
      while rest.Cons?
        invariant rest == block || rest < block
        invariant var g := C.EmitBlock(rest, |code|, regs, cregs);
                  code + g.code == before + all.code && g.r == all.r && g.c == all.c
        decreases rest
      {
        ghost var now := code;
        ghost var g := C.EmitStmt(rest.head, |code|, regs, cregs);
        ghost var h := C.EmitBlock(rest.tail, |code| + |g.code|, g.r, g.c);
        EmitStmt(rest.head);
        Regroup(now, g.code, h.code);
        rest := rest.tail;
      }
      assert code + [] == code;
    }

    method EmitStmt(s: Stmt)
      modifies this
      ensures Emits(old(code), C.EmitStmt(s, |old(code)|, old(regs), old(cregs)))
      decreases s, 2
    {
      match s
      case ExprStmt(e) => EmitOutput(e);
      case SilentStmt(e) => var _ := EmitExpr(e);
      case If(cond, body, orelse) => EmitIf(s);
      case Switch(cond, cs) => EmitSwitch(s);
      case While(cond, body) => EmitWhile(s);
      case DoWhile(body, cond) => EmitDoWhile(s);
      case For(_, n, coll, body) => EmitFor(s);
      case Break => Append(M.BreakTo(0, M.UnsetBreak));
      case Continue => Append(M.BreakTo(0, M.UnsetContinue));
      case Assert(cond, msg, line) => EmitAssert(s);
      case Raise(e) => EmitRaise(e);
    }

    method EmitOutput(e: Expr)
      modifies this
      ensures Emits(old(code), C.EmitStmt(ExprStmt(e), |old(code)|, old(regs), old(cregs)))
    {
      hide C.EmitExpr;
      ghost var before := code;
      ghost var g := C.EmitExpr(e, |code|, regs, cregs);
      var val := EmitExpr(e);
      Output(val);
      assert code == before + OutputGen(g).code;
    }

    method EmitRaise(e: Expr)
      modifies this
      ensures Emits(old(code), C.EmitStmt(Raise(e), |old(code)|, old(regs), old(cregs)))
    {
      hide C.EmitNc;
      ghost var before := code;
      ghost var g := C.EmitNc(e, |code|, regs, cregs);
      var val := EmitNc(e);
      Append(M.Raise(val.reg));
      Regroup(before, g.code, [M.Raise(val.reg)]);
    }

    method EmitAssert(s: Stmt)
      requires s.Assert?
      modifies this
      ensures Emits(old(code), C.EmitStmt(s, |old(code)|, old(regs), old(cregs)))
    {
      hide C.EmitNc;
      ghost var before := code;
      ghost var g := C.EmitNc(s.cond, |code|, regs, cregs);
      var cnd := EmitNc(s.cond);
      var line := NextCreg();
      Append(M.StoreIntConst(line, s.line));
      ghost var h := if s.msg.Some? then C.EmitNc(s.msg.value, |code|, regs, cregs) else NoMessage(regs, cregs);
      ghost var middle := code;
      var msg: RegValue;
      if s.msg.Some? {
        msg := EmitNc(s.msg.value);
      } else {
        var q := NextCreg();
        Append(M.StoreStringConst(q, ""));
        var reg := NextReg();
        Append(M.StoreConst(reg, q));
        msg := RegValue(reg, false, false);
      }
      assert code == middle + h.code;
      Append(M.Assert(cnd.reg, line, msg.reg));
      assert code == before + AssertGen(g, s.line, h).code;
    }

    /** The jump over the else branch, the target of the jump to it, and the branch. */
    method EmitElse(b: List<Stmt>, cond: nat, jmpFalse: nat, ghost front: Code, ghost body: Code)
      requires jmpFalse == |front| && code == front + ([M.JmpIfFalse(cond, 0)] + body)
      modifies this
      ensures var a2 := jmpFalse + 1 + |body| + 1;
              var k := C.EmitBlock(b, a2, old(regs), old(cregs));
              && code == front + ([M.JmpIfFalse(cond, a2)] + (body + ([M.Jmp(a2 + |k.code|)] + k.code)))
              && regs == k.r && cregs == k.c
      decreases b, 2
    {
      hide C.EmitBlock;
      var jmpDone := |code|;
      Append(M.Jmp(0));
      BranchFront(front, M.JmpIfFalse(cond, 0), body, M.Jmp(0), M.JmpIfFalse(cond, |code|));
      code := code[jmpFalse := M.JmpIfFalse(cond, CurrAddress() + 1)];
      ghost var front' := front + ([M.JmpIfFalse(cond, jmpDone + 1)] + body);
      ghost var k := C.EmitBlock(b, |code|, regs, cregs);
      EmitBlock(b);
      Regroup(front', [M.Jmp(0)], k.code);
      Rewrite(front', M.Jmp(0), k.code, M.Jmp(|code|));
      code := code[jmpDone := M.Jmp(CurrAddress() + 1)];
    }

    method EmitIf(s: Stmt)
      requires s.If?
      modifies this
      ensures Emits(old(code), C.EmitStmt(s, |old(code)|, old(regs), old(cregs)))
      decreases s, 1
    {
      hide C.EmitNc, C.EmitBlock, C.EmitStmt;
      CodegenFacts.UnfoldIf(s, |code|, regs, cregs);
      ghost var before := code;
      ghost var g := C.EmitNc(s.cond, |code|, regs, cregs);
      var cond := EmitNc(s.cond);
      var jmpFalse := |code|;
      Append(M.JmpIfFalse(cond.reg, 0));
      ghost var h := C.EmitBlock(s.body, |code|, regs, cregs);
      EmitBlock(s.body);
      if s.orelse.Some? {
        EmitElse(s.orelse.value, cond.reg, jmpFalse, before + g.code, h.code);
        ghost var k := C.EmitBlock(s.orelse.value, jmpFalse + 1 + |h.code| + 1, h.r, h.c);
        assert code == before + IfElseGen(g, h, k, jmpFalse + 1 + |h.code| + 1).code;
      } else {
        Regroup(before + g.code, [M.JmpIfFalse(cond.reg, 0)], h.code);
        Rewrite(before + g.code, M.JmpIfFalse(cond.reg, 0), h.code, M.JmpIfFalse(cond.reg, |code|));
        code := code[jmpFalse := M.JmpIfFalse(cond.reg, CurrAddress() + 1)];
        assert code == before + IfGen(g, h, |code|).code;
      }
    }

    method EmitWhile(s: Stmt)
      requires s.While?
      modifies this
      ensures Emits(old(code), C.EmitStmt(s, |old(code)|, old(regs), old(cregs)))
      decreases s, 1
    {
      hide C.EmitNc, C.EmitBlock, Patch;
      ghost var before := code;
      Append(M.LoopBegin);
      ghost var start := code;
      var pre := CurrAddress() + 1;
      ghost var g := C.EmitNc(s.cond, |code|, regs, cregs);
      var cond := EmitNc(s.cond);
      var jmpEnd := |code|;
      Append(M.JmpIfFalse(cond.reg, 0));
      ghost var h := C.EmitBlock(s.body, |code|, regs, cregs);
      EmitBlock(s.body);
      ghost var j := M.JmpIfFalse(cond.reg, 0);
      ghost var end := |code| + 1;
      LoopBody(start, g.code, [j], h.code, end, pre);
      UpdateJmps(pre, CurrAddress() + 1, CurrAddress() + 2, pre);
      assert |code| == end - 1;
      Append(M.Jmp(pre));
      LoopPatched(start, g.code, j, h.code, M.Jmp(pre), M.JmpIfFalse(cond.reg, end), end, pre);
      code := code[jmpEnd := M.JmpIfFalse(cond.reg, CurrAddress() + 1)];
      Append(M.LoopEnd);
      WhileResult(before, g, h, pre, end);
    }

    method EmitDoWhile(s: Stmt)
      requires s.DoWhile?
      modifies this
      ensures Emits(old(code), C.EmitStmt(s, |old(code)|, old(regs), old(cregs)))
      decreases s, 1
    {
      hide C.EmitNc, C.EmitBlock, Patch;
      ghost var before := code;
      Append(M.LoopBegin);
      ghost var start := code;
      var pre := CurrAddress() + 1;
      ghost var h := C.EmitBlock(s.body, |code|, regs, cregs);
      EmitBlock(s.body);
      var condBc := CurrAddress() + 1;
      ghost var g := C.EmitNc(s.cond, |code|, regs, cregs);
      var cond := EmitNc(s.cond);
      Append(M.JmpIfTrue(cond.reg, pre));
      ghost var end := |code|;
      LoopBodyTail(start, h.code, g.code, M.JmpIfTrue(cond.reg, pre), end, condBc);
      UpdateJmps(pre, CurrAddress(), CurrAddress() + 1, condBc);
      Append(M.LoopEnd);
      DoWhileResult(before, h, g, pre, condBc, end);
    }

    method EmitFor(s: Stmt)
      requires s.For?
      modifies this
      ensures Emits(old(code), C.EmitStmt(s, |old(code)|, old(regs), old(cregs)))
      decreases s, 1
    {
      hide C.EmitNc, C.EmitBlock, Patch;
      ghost var before, r, c := code, regs, cregs;
      var iter := NextReg();
      var nil := NextCreg();
      Append(M.StoreNilConst(nil));
      Append(M.StoreConst(iter, nil));
      ghost var g := C.EmitNc(s.collection, |code|, regs, cregs);
      var collection := EmitNc(s.collection);
      ghost var h := C.EmitBlock(s.body, |code| + 4, regs + 1, cregs);
      EmitForLoop(s, iter, collection.reg);
      ghost var head := |before| + 2 + |g.code| + 2;
      ForResult(before, s.name, r, c, g, h, head, head + 2 + |h.code| + 1);
    }

    /** A `for` loop once its collection is in register `collection`. */
    method EmitForLoop(s: Stmt, iter: nat, collection: nat)
      requires s.For?
      modifies this
      ensures var h := C.EmitBlock(s.body, |old(code)| + 4, old(regs) + 1, old(cregs));
              && code == old(code) + ForLoopCode(s.name, iter, old(regs), collection, h, |old(code)| + 2)
              && regs == h.r && cregs == h.c
      decreases s, 0
    {
      hide C.EmitBlock, Patch;
      ghost var before := code;
      var newIter := NextReg();
      Append(M.LoopBegin);
      Append(M.Iter(newIter, collection));
      ghost var start := code;
      var pre := CurrAddress() + 1;
      var forOp := |code|;
      Append(M.For(iter, newIter, 0));
      Append(M.StoreName(iter, s.name));
      ghost var h := C.EmitBlock(s.body, |code|, regs, cregs);
      EmitBlock(s.body);
      ghost var j, name := M.For(iter, newIter, 0), [M.StoreName(iter, s.name)];
      ghost var end := |code| + 1;
      ForBody(start, j, name, h.code, end, pre);
      UpdateJmps(pre, CurrAddress() + 1, CurrAddress() + 2, pre);
      assert |code| == end - 1;
      Append(M.Jmp(pre));
      LoopPatched(start, [], j, name + h.code, M.Jmp(pre), M.For(iter, newIter, end), end, pre);
      code := code[forOp := M.For(iter, newIter, CurrAddress() + 1)];
      Append(M.LoopEnd);
      ForLoopResult(before, s.name, iter, newIter, collection, h, pre);
    }

    method EmitSwitch(s: Stmt)
      requires s.Switch?
      modifies this
      ensures Emits(old(code), C.EmitStmt(s, |old(code)|, old(regs), old(cregs)))
      decreases s, 1
    {
      hide C.EmitNc, C.EmitCaseValues, C.EmitBodies, Table, CaseAddrs, DefaultAddr, NumValues;
      ghost var before := code;
      ghost var g := C.EmitNc(s.cond, |code|, regs, cregs);
      var cond := EmitNc(s.cond);
      var valList := NextReg();
      var addrList := NextReg();
      Append(M.BuildList(valList));
      ghost var v := C.EmitCaseValues(s.cases, valList, |code|, regs, cregs);
      EmitCaseValues(s.cases, valList);
      Append(M.BuildList(addrList));
      ghost var front := code;
      ghost var a3, c3 := |code| + 2 * NumValues(s.cases) + 1, cregs + NumValues(s.cases);
      EmitDispatch(s.cases, cond.reg, valList, addrList);
      ghost var end := a3 + |C.EmitBodies(s.cases, a3, v.r, c3, 0).code|;
      SwitchResult(before, front, g, v, Table(CaseAddrs(s.cases, a3, v.r, c3), addrList, v.c),
                   DefaultAddr(s.cases, a3, v.r, c3, end), C.EmitBodies(s.cases, a3, v.r, c3, end));
    }

    /** The address table, the switch opcode and the bodies. */
    method EmitDispatch(cases: List<Case>, src: nat, valList: nat, addrList: nat)
      modifies this
      ensures var c3 := old(cregs) + NumValues(cases);
              var a3 := |old(code)| + 2 * NumValues(cases) + 1;
              var end := a3 + |C.EmitBodies(cases, a3, old(regs), c3, 0).code|;
              var b := C.EmitBodies(cases, a3, old(regs), c3, end);
              && code == old(code) + Table(CaseAddrs(cases, a3, old(regs), c3), addrList, old(cregs))
                         + [M.Switch(src, valList, addrList, DefaultAddr(cases, a3, old(regs), c3, end))] + b.code
              && regs == b.r && cregs == b.c
      decreases cases, 1
    {
      hide C.EmitBodies, Table, CaseAddrs, DefaultAddr, EndJmps, JumpsTo;
      ghost var front, r, c := code, regs, cregs;
      var addrStores := EmitTable(cases, addrList);
      CodegenFacts.TableLength(Zeros(NumValues(cases)), addrList, c);
      var swch := |code|;
      Append(M.Switch(src, valList, addrList, 0));
      ghost var a3, c3, op := |code|, cregs, code[swch];
      var endJmps := EmitBodies(cases, addrStores, swch, front, addrList, c);
      ghost var addrs, d := CaseAddrs(cases, a3, r, c3), DefaultAddr(cases, a3, r, c3, 0);
      ghost var head := front + Table(addrs, addrList, c) + [op.(defaultAddr := d)];
      var endAddr := CurrAddress() + 1;
      SwitchTables.CaseAddrsOwner(cases, 0, a3, r, c3);
      CodegenFacts.TableLength(addrs, addrList, c);
      EndsResult(head, cases, a3, r, c3, endAddr);
      DefaultAddrLast(cases, a3, r, c3, endAddr);
      PatchEnds(endJmps, endAddr);
      assert code == head + C.EmitBodies(cases, a3, r, c3, endAddr).code;
      assert code[swch] == op.(defaultAddr := d);
      if code[swch].defaultAddr == 0 {
        code := code[swch := code[swch].(defaultAddr := endAddr)];
      }
    }

    /** The case values of a switch in source order, pushed onto register `list`. */
    method EmitCaseValues(cases: List<Case>, list: nat)
      modifies this
      ensures Emits(old(code), C.EmitCaseValues(cases, list, |old(code)|, old(regs), old(cregs)))
      decreases cases, 0
    {
      hide C.EmitElems;
      ghost var before := code;
      ghost var all := C.EmitCaseValues(cases, list, |code|, regs, cregs);
      var rest := cases;
      while rest.Cons?
        invariant rest == cases || rest < cases
        invariant var g := C.EmitCaseValues(rest, list, |code|, regs, cregs);
                  code + g.code == before + all.code && g.r == all.r && g.c == all.c
        decreases rest
      {
        if rest.head.Case? {
          ghost var now := code;
          ghost var g := C.EmitElems(rest.head.values, list, |code|, regs, cregs);
          ghost var h := C.EmitCaseValues(rest.tail, list, |code| + |g.code|, g.r, g.c);
          EmitElems(rest.head.values, list);
          Regroup(now, g.code, h.code);
        }
        rest := rest.tail;
      }
      assert code + [] == code;
    }

    /** Room for the address of every case value; returns where the addresses are to be filled in. */
    method EmitTable(cases: List<Case>, list: nat) returns (addrStores: seq<nat>)
      modifies this
      ensures code == old(code) + Table(Zeros(NumValues(cases)), list, old(cregs))
      ensures regs == old(regs) && cregs == old(cregs) + NumValues(cases)
      ensures addrStores == StorePositions(|old(code)|, NumValues(cases))
    {
      ghost var before, c := code, cregs;
      addrStores := [];
      var rest := cases;
      assert code == before + Table([], list, c);
      while rest.Cons?
        invariant |addrStores| + NumValues(rest) == NumValues(cases)
        invariant addrStores == StorePositions(|before|, |addrStores|)
        invariant code == before + Table(Zeros(|addrStores|), list, c)
        invariant regs == old(regs) && cregs == c + |addrStores|
        decreases rest
      {
        ghost var k := |addrStores|;
        var n := if rest.head.Case? then Length(rest.head.values) else 0;
        var i := 0;
        while i < n
          invariant i <= n && |addrStores| == k + i
          invariant addrStores == StorePositions(|before|, |addrStores|)
          invariant code == before + Table(Zeros(|addrStores|), list, c)
          invariant regs == old(regs) && cregs == c + |addrStores|
        {
          TableSnoc(Zeros(|addrStores|), 0, list, c);
          CodegenFacts.TableLength(Zeros(|addrStores|), list, c);
          var q := NextCreg();
          addrStores := addrStores + [|code|];
          Append(M.StoreIntConst(q, 0));
          Append(M.ListPushConst(list, q));
          assert Zeros(|addrStores|) == Zeros(|addrStores| - 1) + [0];
          i := i + 1;
        }
        rest := rest.tail;
      }
    }

    /** Fills one body address into `n` stores of the table that stands after `front`. */
    method FillAddrs(addrStores: seq<nat>, index: nat, n: nat, addr: nat,
                     ghost front: Code, ghost back: Code, ghost xs: seq<nat>, ghost list: nat, ghost c: nat)
      requires index + n <= |xs| && addrStores == StorePositions(|front|, |xs|)
      requires code == front + Table(xs, list, c) + back
      modifies `code
      ensures code == front + Table(Filled(xs, index, n, addr), list, c) + back && |code| == |old(code)|
    {
      var i := 0;
      assert Filled(xs, index, 0, addr) == xs;
      while i < n
        invariant i <= n
        invariant code == front + Table(Filled(xs, index, i, addr), list, c) + back && |code| == |old(code)|
      {
        ghost var ys := Filled(xs, index, i, addr);
        TableEntry(ys, index + i, addr, list, c);
        var p := addrStores[index + i];
        assert code[p] == Table(ys, list, c)[2 * (index + i)];
        code := code[p := M.StoreIntConst(code[p].dst, addr)];
        assert code == front + Table(ys, list, c)[2 * (index + i) := M.StoreIntConst(c + index + i, addr)] + back;
        assert ys[index + i := addr] == Filled(xs, index, i + 1, addr);
        i := i + 1;
      }
    }

    /** The bodies; their addresses go to the table and the default's to the switch at `swch`.
        Returns the jumps behind the bodies, still without a target. */
    method EmitBodies(cases: List<Case>, addrStores: seq<nat>, swch: nat,
                      ghost front: Code, ghost list: nat, ghost c: nat) returns (endJmps: seq<nat>)
      requires addrStores == StorePositions(|front|, NumValues(cases))
      requires var table := Table(Zeros(NumValues(cases)), list, c);
               && swch == |front| + |table| && |code| == swch + 1
               && code[swch].Switch? && code[swch].defaultAddr == 0
               && code == front + table + [code[swch]]
      modifies this
      ensures var a, r, c3 := |old(code)|, old(regs), old(cregs);
              var b := C.EmitBodies(cases, a, r, c3, 0);
              && code == front + Table(CaseAddrs(cases, a, r, c3), list, c)
                         + [old(code)[swch].(defaultAddr := DefaultAddr(cases, a, r, c3, 0))] + b.code
              && regs == b.r && cregs == b.c
              && endJmps == EndJmps(cases, a, r, c3)
      decreases cases, 0
    {
      hide C.EmitBlock, Table, C.EmitBodies, EndJmps, CaseAddrs, DefaultAddr, Pending;
      ghost var a, r, c3, op := |code|, regs, cregs, code[swch];
      endJmps := [];
      var rest, addrIndex := cases, 0;
      ghost var filled: seq<nat>, d: nat, done: Code := [], 0, [];
      assert [] + Zeros(NumValues(rest)) == Zeros(NumValues(rest));
      CodegenFacts.TableLength(Zeros(NumValues(cases)), list, c);
      PendingStart(cases, a, r, c3);
      while rest.Cons?
        invariant rest == cases || rest < cases
        invariant addrIndex == |filled| && |filled| + NumValues(rest) == NumValues(cases)
        invariant |code| == a + |done|
        invariant code == front + Table(filled + Zeros(NumValues(rest)), list, c) + [op.(defaultAddr := d)] + done
        invariant Pending(cases, a, r, c3, rest, |code|, regs, cregs, filled, d, done, endJmps)
        decreases rest
      {
        var addr := CurrAddress() + 1;
        ghost var r', c' := regs, cregs;
        ghost var b := C.EmitBlock(rest.head.body, addr, r', c');
        ghost var xs := if rest.head.Case? then seq(Length(rest.head.values), _ => addr) else [];
        PlaceCase(rest.head, addrStores, addrIndex, swch, addr, front, list, c, filled, NumValues(rest.tail), op.(defaultAddr := d), done);
        if rest.head.Case? {
          addrIndex := addrIndex + Length(rest.head.values);
        }
        ghost var op' := if rest.head.Default? then op.(defaultAddr := addr) else op.(defaultAddr := d);
        ghost var placed := front + Table(filled + xs + Zeros(NumValues(rest.tail)), list, c) + [op'];
        EmitBlock(rest.head.body);
        Append(M.Jmp(0));
        Regroup(placed + done, b.code, [M.Jmp(0)]);
        Regroup(placed, done, b.code + [M.Jmp(0)]);
        PendingStep(cases, a, r, c3, rest, addr, b, r', c', filled, xs, d, done, endJmps);
        filled, d, done := filled + xs, if rest.head.Default? then addr else d, done + (b.code + [M.Jmp(0)]);
        endJmps := endJmps + [|code| - 1];
        rest := rest.tail;
      }
      assert NumValues(rest) == 0 && Zeros(0) == [];
      assert filled + Zeros(NumValues(rest)) == filled;
      PendingEnd(cases, a, r, c3, |code|, regs, cregs, filled, d, done, endJmps);
    }

    /** Notes the address of a case's body: in the table for every value, or as the default. */
    method PlaceCase(k: Case, addrStores: seq<nat>, addrIndex: nat, swch: nat, addr: nat, ghost front: Code, ghost list: nat,
                     ghost c: nat, ghost filled: seq<nat>, ghost later: nat, ghost op: M.OpCode, ghost done: Code)
      requires var n := if k.Case? then Length(k.values) else 0;
               && addrIndex == |filled| && addrStores == StorePositions(|front|, |filled| + n + later)
               && swch == |front| + 2 * (|filled| + n + later)
               && op.Switch? && code == front + Table(filled + Zeros(n + later), list, c) + [op] + done
      modifies `code
      ensures code == front + Table(filled + (if k.Case? then seq(Length(k.values), _ => addr) else []) + Zeros(later), list, c)
                      + [if k.Default? then op.(defaultAddr := addr) else op] + done
      ensures |code| == |old(code)|
    {
      hide Table;
      ghost var n := if k.Case? then Length(k.values) else 0;
      ghost var table := filled + Zeros(n + later);
      CodegenFacts.TableLength(table, list, c);
      if k.Default? {
        assert code[swch] == op;
        code := code[swch := code[swch].(defaultAddr := addr)];
        assert filled + [] + Zeros(later) == table;
      } else {
        assert front + Table(table, list, c) + ([op] + done) == code;
        FillAddrs(addrStores, addrIndex, Length(k.values), addr, front, [op] + done, table, list, c);
        FilledZeros(filled, Length(k.values), later, addr);
      }
    }

    /** Gives every jump listed the address after the switch. */
    method PatchEnds(endJmps: seq<nat>, endAddr: nat)
      requires forall p :: p in endJmps ==> p < |code|
      modifies `code
      ensures code == JumpsTo(old(code), endJmps, endAddr)
    {
      ghost var before := code;
      var i := 0;
      while i < |endJmps|
        invariant i <= |endJmps| && |code| == |before|
        invariant code == JumpsTo(before, endJmps[..i], endAddr)
      {
        assert endJmps[i] in endJmps;
        code := code[endJmps[i] := M.Jmp(endAddr)];
        assert endJmps[..i + 1] == endJmps[..i] + [endJmps[i]];
        i := i + 1;
      }
      assert endJmps[..i] == endJmps;
    }
  }

  /** A module from scratch: a new generator, its statements and the end-of-file marker. The code is
      the one that `CompilerCorrect` proves to do what the module means. */
  method Generate(block: List<Stmt>) returns (code: Code)
    ensures code == EmitModule(block)
  {
    var gen := new BytecodeGen();
    gen.EmitBlock(block);
    gen.Append(M.End);
    code := gen.code;
    assert [] + C.EmitBlock(block, 0, RESERVED_REGS, RESERVED_CREGS).code == C.EmitBlock(block, 0, RESERVED_REGS, RESERVED_CREGS).code;
  }
}

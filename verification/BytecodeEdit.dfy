/** Inserting and erasing opcodes with relocation of addresses (bytecode/bytecode.cpp and the
    `update_addrs` overrides of bytecode/opcode.hpp). */
module BytecodeEdit {
  import opened Lists
  import opened Values
  import opened M = Machine

  type Code = M.Code

  /** Addresses are 32-bit unsigned integers. */
  const WIDTH: nat := 0x1_0000_0000
  const MINUS_ONE: nat := 0xFFFF_FFFF

  /** The address operand of an opcode that relocation knows about. */
  function Target(op: M.OpCode): Option<nat>
  {
    match op
    case Jmp(a) => Some(a)
    case BreakTo(a, _) => Some(a)
    case JmpIfTrue(_, a) => Some(a)
    case JmpIfFalse(_, a) => Some(a)
    case Catch(_, a, _) => Some(a)
    case CatchTyped(_, _, a, _) => Some(a)
    case Finally(a, _) => Some(a)
    case For(_, _, a) => Some(a)
    case ForMulti(_, _, a, _) => Some(a)
    case _ => None
  }

  function Shift(a: nat, at: nat, amount: nat): nat {
    if a >= at then (a + amount) % WIDTH else a
  }

  /** `update_addrs`: a switch keeps its default address, and its case addresses are constants. */
  function UpdateAddrs(op: M.OpCode, at: nat, amount: nat): M.OpCode {
    match op
    case Jmp(a) => M.Jmp(Shift(a, at, amount))
    case BreakTo(a, s) => M.BreakTo(Shift(a, at, amount), s)
    case JmpIfTrue(r, a) => M.JmpIfTrue(r, Shift(a, at, amount))
    case JmpIfFalse(r, a) => M.JmpIfFalse(r, Shift(a, at, amount))
    case Catch(n, a, i) => M.Catch(n, Shift(a, at, amount), i)
    case CatchTyped(n, t, a, i) => M.CatchTyped(n, t, Shift(a, at, amount), i)
    case Finally(a, c) => M.Finally(Shift(a, at, amount), c)
    case For(i, c, a) => M.For(i, c, Shift(a, at, amount))
    case ForMulti(v, c, a, u) => M.ForMulti(v, c, Shift(a, at, amount), u)
    case _ => op
  }

  function UpdateAll(code: Code, at: nat, amount: nat): Code {
    seq(|code|, i requires 0 <= i < |code| => UpdateAddrs(code[i], at, amount))
  }

  /** Every address points below `limit`. */
  ghost predicate TargetsBelow(code: Code, limit: nat) {
    forall i :: 0 <= i < |code| && Target(code[i]).Some? ==> Target(code[i]).value < limit
  }

  ghost predicate Targets(code: Code, a: nat) {
    exists i :: 0 <= i < |code| && Target(code[i]) == Some(a)
  }

  // ----- the editing operations -----

  /** Makes room at `at`, moving every address from there on. */
  function Spliced(code: Code, op: M.OpCode, at: nat): Code
    requires at <= |code|
  {
    var moved := UpdateAll(code, at, 1);
    moved[..at] + [op] + moved[at..]
  }

  function Inserted(code: Code, op: M.OpCode, at: nat): Code
    requires at <= |code|
  {
    if at == |code| then code + [op] else Spliced(code, op, at)
  }

  function Erased(code: Code, at: nat): Code
    requires at < |code|
  {
    UpdateAll(code[..at] + code[at + 1..], at, MINUS_ONE)
  }

  /** The vector of opcodes, edited in place. */
  class Bytecode {
    var code: Code

    constructor (ops: Code)
      ensures code == ops
    {
      code := ops;
    }

    /** The loop over all opcodes shared by both operations. */
    method UpdateAddresses(at: nat, amount: nat)
      modifies this
      ensures code == UpdateAll(old(code), at, amount)
    {
      var i := 0;
      while i < |code|
        invariant i <= |code| == |old(code)|
        invariant forall k :: 0 <= k < |code| ==>
                    code[k] == if k < i then UpdateAddrs(old(code)[k], at, amount) else old(code)[k]
      {
        code := code[i := UpdateAddrs(code[i], at, amount)];
        i := i + 1;
      }
    }

    method Insert(op: M.OpCode, at: nat)
      requires at <= |code|
      modifies this
      ensures code == Inserted(old(code), op, at)
    {
      if at == |code| {
        code := code + [op];
        return;
      }
      UpdateAddresses(at, 1);
      code := code[..at] + [op] + code[at..];
    }

    method Erase(at: nat)
      requires at < |code|
      modifies this
      ensures code == Erased(old(code), at)
    {
      code := code[..at] + code[at + 1..];
      UpdateAddresses(at, MINUS_ONE);
    }
  }

  // ----- relocation changes addresses only -----

  /** The opcodes that override `update_addrs`. */
  predicate Addressed(op: M.OpCode) {
    || op.Jmp? || op.BreakTo? || op.JmpIfTrue? || op.JmpIfFalse? || op.Catch? || op.CatchTyped? || op.Finally?
    || op.For? || op.ForMulti?
  }

  /** Relocation replaces the address operand by the moved address and leaves every other operand. */
  lemma RelocatesAddressOnly(op: M.OpCode, at: nat, amount: nat)
    ensures Addressed(op) ==>
              && Target(op) == Some(op.addr)
              && UpdateAddrs(op, at, amount) == op.(addr := if op.addr < at then op.addr else (op.addr + amount) % 0x1_0000_0000)
    ensures !Addressed(op) ==> Target(op) == None && UpdateAddrs(op, at, amount) == op
  {}

  /** After an insertion before the end every opcode stands in its place or behind it, with its address
      one further if it was not below the place of insertion. */
  lemma InsertedExactly(code: Code, op: M.OpCode, at: nat, i: nat)
    requires at < |code| && i < |code|
    ensures |Inserted(code, op, at)| == |code| + 1 && Inserted(code, op, at)[at] == op
    ensures var moved := Inserted(code, op, at)[if i < at then i else i + 1];
            moved == if Addressed(code[i]) && code[i].addr >= at
                     then code[i].(addr := (code[i].addr + 1) % 0x1_0000_0000) else code[i]
  {
    RelocatesAddressOnly(code[i], at, 1);
  }

  /** After an erasure the others close up, and addresses from the erased place on are one less. */
  lemma ErasedExactly(code: Code, at: nat, i: nat)
    requires at < |code| && i < |code| && i != at && (Addressed(code[i]) ==> code[i].addr < 0x1_0000_0000)
    ensures |Erased(code, at)| == |code| - 1
    ensures var moved := Erased(code, at)[if i < at then i else i - 1];
            moved == if Addressed(code[i]) && code[i].addr >= at
                     then code[i].(addr := if code[i].addr == 0 then 0xFFFF_FFFF else code[i].addr - 1) else code[i]
  {
    RelocatesAddressOnly(code[i], at, MINUS_ONE);
    assert (code[..at] + code[at + 1..])[if i < at then i else i - 1] == code[i];
  }

  // ----- one operation undoes the other -----

  lemma ShiftBack(a: nat, at: nat)
    requires a < WIDTH
    ensures Shift(Shift(a, at, 1), at, MINUS_ONE) == a <==> (a < MINUS_ONE || at == 0 || a < at)
  {
    if a == MINUS_ONE && a >= at {
      assert (a + 1) % WIDTH == 0;
    }
  }

  lemma UpdateBack(op: M.OpCode, at: nat)
    requires Target(op).Some? ==> Target(op).value < WIDTH
    ensures UpdateAddrs(UpdateAddrs(op, at, 1), at, MINUS_ONE) == op
        <==> (at == 0 || at > MINUS_ONE || Target(op) != Some(MINUS_ONE))
  {
    if Target(op).Some? {
      ShiftBack(Target(op).value, at);
    }
  }

  /** Erasing what was just inserted before the end restores all opcodes and addresses, unless an
      address is the largest there is and wraps around. */
  lemma EraseUndoesInsert(code: Code, op: M.OpCode, at: nat)
    requires at < |code| <= MINUS_ONE && TargetsBelow(code, WIDTH)
    ensures Erased(Inserted(code, op, at), at) == code <==> (at == 0 || !Targets(code, MINUS_ONE))
  {
    var moved := UpdateAll(code, at, 1);
    var inserted := Inserted(code, op, at);
    assert inserted[..at] + inserted[at + 1..] == moved;
    var back := Erased(inserted, at);
    assert back == UpdateAll(moved, at, MINUS_ONE);
    forall i | 0 <= i < |code| ensures back[i] == code[i] <==> (at == 0 || Target(code[i]) != Some(MINUS_ONE)) {
      UpdateBack(code[i], at);
    }
    if at != 0 && Targets(code, MINUS_ONE) {
      var i :| 0 <= i < |code| && Target(code[i]) == Some(MINUS_ONE);
      assert back[i] != code[i];
    }
  }

  lemma ShiftForth(a: nat, at: nat)
    requires a < WIDTH
    ensures Shift(Shift(a, at, MINUS_ONE), at, 1) == a <==> (a != at || at == 0)
  {
    if a >= at && a > 0 {
      assert (a + MINUS_ONE) % WIDTH == a - 1;
    }
  }

  lemma UpdateForth(op: M.OpCode, at: nat)
    requires Target(op).Some? ==> Target(op).value < WIDTH
    ensures UpdateAddrs(UpdateAddrs(op, at, MINUS_ONE), at, 1) == op <==> (at == 0 || Target(op) != Some(at))
  {
    if Target(op).Some? {
      ShiftForth(Target(op).value, at);
    }
  }

  lemma UpdateAllForth(code: Code, at: nat)
    requires TargetsBelow(code, WIDTH)
    ensures UpdateAll(UpdateAll(code, at, MINUS_ONE), at, 1) == code <==> (at == 0 || !Targets(code, at))
  {
    hide UpdateAddrs;
    var up := UpdateAll(UpdateAll(code, at, MINUS_ONE), at, 1);
    forall i | 0 <= i < |code| ensures up[i] == code[i] <==> (at == 0 || Target(code[i]) != Some(at)) {
      UpdateForth(code[i], at);
    }
    if at != 0 && Targets(code, at) {
      var i :| 0 <= i < |code| && Target(code[i]) == Some(at);
      assert up[i] != code[i];
    }
  }

  /** The other opcodes, when one is erased. */
  function Rest(code: Code, at: nat): Code
    requires at < |code|
  {
    code[..at] + code[at + 1..]
  }

  lemma RestBelow(code: Code, at: nat, limit: nat)
    requires at < |code| && TargetsBelow(code, limit)
    ensures TargetsBelow(Rest(code, at), limit)
  {
    var rest := Rest(code, at);
    forall i | 0 <= i < |rest| && Target(rest[i]).Some? ensures Target(rest[i]).value < limit {
      assert rest[i] == code[if i < at then i else i + 1];
    }
  }

  /** Putting an erased opcode back restores all addresses unless one of them was the erased place:
      such an address has moved to the opcode before it. */
  lemma InsertUndoesErase(code: Code, at: nat)
    requires at < |code| - 1 < MINUS_ONE && TargetsBelow(code, WIDTH)
    ensures Inserted(Erased(code, at), code[at], at) == code <==> (at == 0 || !Targets(Rest(code, at), at))
  {
    hide UpdateAll, Targets;
    var rest := Rest(code, at);
    RestBelow(code, at, WIDTH);
    UpdateAllForth(rest, at);
    UpdateLength(rest, at, MINUS_ONE);
    UpdateLength(UpdateAll(rest, at, MINUS_ONE), at, 1);
    var up := UpdateAll(UpdateAll(rest, at, MINUS_ONE), at, 1);
    SpliceEqual(up, rest, code[at], at);
    assert code == rest[..at] + [code[at]] + rest[at..];
  }

  lemma UpdateLength(code: Code, at: nat, amount: nat)
    ensures |UpdateAll(code, at, amount)| == |code|
  {}

  lemma SpliceEqual(x: Code, y: Code, op: M.OpCode, at: nat)
    requires |x| == |y| && at <= |x|
    ensures x[..at] + [op] + x[at..] == y[..at] + [op] + y[at..] <==> x == y
  {
    var x', y' := x[..at] + [op] + x[at..], y[..at] + [op] + y[at..];
    if x' == y' {
      assert x'[..at] == x[..at] && x'[at + 1..] == x[at..];
      assert y'[..at] == y[..at] && y'[at + 1..] == y[at..];
      assert x == x[..at] + x[at..] && y == y[..at] + y[at..];
    }
  }

  // ----- runs -----

  /** An opcode without effect. */
  ghost predicate Neutral(op: M.OpCode) {
    forall m :: ExecOp(op, m) == Running(Next(m))
  }

  /** A state without values or names. */
  function Bare(bci: nat): VM {
    M.VM(map[], map[], map[], map[], [], 0, bci)
  }

  predicate Writes(op: M.OpCode) {
    op.StoreName? || op.StoreIntConst? || op.StoreBoolConst? || op.StoreStringConst? || op.StoreNilConst? || op.BuildList?
  }

  lemma {:induction false} WritesChange(op: M.OpCode, bci: nat)
    requires Writes(op)
    ensures ExecOp(op, Bare(bci)) != Running(Next(Bare(bci)))
  {
    hide Apply, ApplyUnary, Iterate, FirstEqual, Push, Deliver, ExecBin, ExecSwitch, Branch;
    var res := ExecOp(op, Bare(bci));
    if op.StoreName? {
      assert op.name in res.m.names;
    } else if op.BuildList? {
      assert op.dst in res.m.regs;
    } else {
      assert op.dst in res.m.cregs;
    }
  }

  lemma {:induction false} OthersChange(op: M.OpCode)
    requires op != M.End && !Writes(op)
    ensures var m := Bare(if (op.Jmp? || op.BreakTo?) && op.addr == 1 then 1 else 0); ExecOp(op, m) != Running(Next(m))
  {
    hide Apply, ApplyUnary, Iterate, FirstEqual, Deliver;
  }

  /** Of the modelled opcodes that is the end-of-file marker alone. */
  lemma {:induction false} NeutralExactly(op: M.OpCode)
    ensures Neutral(op) <==> op == M.End
  {
    if Writes(op) {
      WritesChange(op, 0);
    } else if op != M.End {
      OthersChange(op);
    }
    hide Bare, Writes;
  }

  predicate AtSwitch(code: Code, m: VM) {
    m.bci < |code| && code[m.bci].Switch?
  }

  /** A switch about to be run, if any, does not land past `at`. */
  predicate LandsLow(code: Code, m: VM, at: nat) {
    AtSwitch(code, m) && Step(code, m).Running? ==> Step(code, m).m.bci <= at
  }

  /** Nor does any switch reached in the first `k` steps. */
  predicate SwitchesLow(code: Code, m: VM, at: nat, k: nat)
    decreases k
  {
    k == 0 || (LandsLow(code, m, at) && (Step(code, m).Running? ==> SwitchesLow(code, Step(code, m).m, at, k - 1)))
  }

  /** Where an address is found after an opcode was inserted at `at`. */
  function Moved(a: nat, at: nat): nat {
    if a < at then a else a + 1
  }

  function MovedVM(m: VM, at: nat): VM {
    m.(bci := Moved(m.bci, at))
  }

  function MovedOutcome(o: Outcome, at: nat): Outcome {
    match o
    case Running(m) => Running(MovedVM(m, at))
    case Halted(m) => Halted(MovedVM(m, at))
    case Raised(x, m) => Raised(x, MovedVM(m, at))
    case Stuck => Stuck
  }

  /** A relocated opcode at its new place does what the old one did: it jumps to where the old
      target now is, or goes on to the next place. */
  lemma ExecMoved(op: M.OpCode, m: VM, at: nat)
    requires !op.Switch? && (Target(op).Some? ==> Target(op).value < MINUS_ONE)
    ensures var res := ExecOp(op, m);
            var res' := ExecOp(UpdateAddrs(op, at, 1), MovedVM(m, at));
            match res
            case Running(m1) =>
              || res' == Running(MovedVM(m1, at))
              || (m1.bci == m.bci + 1 && res' == Running(m1.(bci := Moved(m.bci, at) + 1)))
            case _ => res' == MovedOutcome(res, at)
  {
    hide ExecOp, UpdateAddrs;
    if Target(op).Some? {
      ExecJump(op, m, at);
    } else {
      ExecElsewhere(op, m, Moved(m.bci, at));
      Unmoved(op, at);
    }
  }

  lemma Unmoved(op: M.OpCode, at: nat)
    requires Target(op).None?
    ensures UpdateAddrs(op, at, 1) == op
  {}

  /** `res'` is `res` at address `a`. */
  ghost predicate SameAt(m: VM, a: nat, res: Outcome, res': Outcome) {
    match res
    case Running(m1) => m1.bci == m.bci + 1 && res' == Running(m1.(bci := a + 1))
    case Halted(m1) => false
    case Raised(x, m1) => m1 == m && res' == Raised(x, m.(bci := a))
    case Stuck => res'.Stuck?
  }

  lemma {:induction false} DeliverAt(m: VM, dst: nat, r: Result<Value, Exn>, a: nat)
    ensures SameAt(m, a, Deliver(m, dst, r), Deliver(m.(bci := a), dst, r))
  {}

  lemma {:induction false} DeliverElsewhere(op: BinOp, dst: nat, x: Option<Value>, y: Option<Value>, m: VM, a: nat)
    ensures SameAt(m, a, ExecBin(op, dst, x, y, m), ExecBin(op, dst, x, y, m.(bci := a)))
  {
    hide Apply, Deliver;
    if x.Some? && y.Some? {
      DeliverAt(m, dst, Apply(op, x.value, y.value), a);
    }
  }

  lemma {:induction false} PushAt(m: VM, dst: nat, v: Option<Value>, a: nat)
    ensures SameAt(m, a, Push(m, dst, v), Push(m.(bci := a), dst, v))
  {}

  predicate Operates(op: M.OpCode) {
    op.BinExpr? || op.Not? || op.Neg? || op.ListPush? || op.ListPushConst? || op.BuildList?
  }

  predicate Moves(op: M.OpCode) {
    || op.End? || op.Load? || op.Store? || op.StoreName? || op.StoreConst? || op.StoreIntConst?
    || op.StoreBoolConst? || op.StoreStringConst? || op.StoreNilConst? || op.Output?
  }

  lemma {:induction false} OperatesElsewhere(op: M.OpCode, m: VM, a: nat)
    requires Operates(op)
    ensures SameAt(m, a, ExecOp(op, m), ExecOp(op, m.(bci := a)))
  {
    hide Apply, ApplyUnary, FirstEqual, Iterate, Deliver, ExecBin, Push, Operand;
    match op
    case BinExpr(bop, mode, dst, s1, s2) =>
      DeliverElsewhere(bop, dst, Operand(if mode.ConstReg? then m.cregs else m.regs, s1),
                       Operand(if mode.RegConst? then m.cregs else m.regs, s2), m, a);
    case Not(dst, src) => if src in m.regs { DeliverAt(m, dst, ApplyUnary(true, m.regs[src]), a); }
    case Neg(dst, src) => if src in m.regs { DeliverAt(m, dst, ApplyUnary(false, m.regs[src]), a); }
    case ListPush(dst, src) => PushAt(m, dst, Operand(m.regs, src), a);
    case ListPushConst(dst, csrc) => PushAt(m, dst, Operand(m.cregs, csrc), a);
    case BuildList(_) =>
  }

  lemma {:induction false} MovesElsewhere(op: M.OpCode, m: VM, a: nat)
    requires Moves(op)
    ensures SameAt(m, a, ExecOp(op, m), ExecOp(op, m.(bci := a)))
  {}

  lemma {:induction false} OtherElsewhere(op: M.OpCode, m: VM, a: nat)
    requires !Moves(op) && !Operates(op) && !op.Switch? && Target(op).None?
    ensures SameAt(m, a, ExecOp(op, m), ExecOp(op, m.(bci := a)))
  {
    hide Apply, ApplyUnary, FirstEqual, Iterate;
  }

  /** An opcode without an address does the same at any address. */
  lemma {:induction false} ExecElsewhere(op: M.OpCode, m: VM, a: nat)
    requires !op.Switch? && Target(op).None?
    ensures SameAt(m, a, ExecOp(op, m), ExecOp(op, m.(bci := a)))
  {
    hide ExecOp;
    if Operates(op) {
      OperatesElsewhere(op, m, a);
    } else if Moves(op) {
      MovesElsewhere(op, m, a);
    } else {
      OtherElsewhere(op, m, a);
    }
  }

  lemma ExecJump(op: M.OpCode, m: VM, at: nat)
    requires Target(op).Some? && Target(op).value < MINUS_ONE
    ensures var res := ExecOp(op, m);
            var res' := ExecOp(UpdateAddrs(op, at, 1), MovedVM(m, at));
            match res
            case Running(m1) =>
              || res' == Running(MovedVM(m1, at))
              || (m1.bci == m.bci + 1 && res' == Running(m1.(bci := Moved(m.bci, at) + 1)))
            case _ => res' == MovedOutcome(res, at)
  {
    hide Apply, ApplyUnary, FirstEqual, Iterate;
    ShiftUp(Target(op).value, at);
  }

  lemma ShiftUp(t: nat, at: nat)
    requires t < MINUS_ONE
    ensures Shift(t, at, 1) == Moved(t, at)
  {}

  lemma SplicedAt(code: Code, op: M.OpCode, at: nat, i: nat)
    requires at <= |code| && i < |code|
    ensures var code' := Spliced(code, op, at);
            Moved(i, at) < |code'| == |code| + 1 && code'[Moved(i, at)] == UpdateAddrs(code[i], at, 1) && code'[at] == op
  {}

  lemma {:induction false} SwitchElsewhere(m: VM, src: nat, vals: nat, addrs: nat, d: nat, a: nat)
    ensures ExecSwitch(m.(bci := a), src, vals, addrs, d)
         == match ExecSwitch(m, src, vals, addrs, d)
            case Running(m1) => Running(m1)
            case other => Stuck
  {}

  /** A switch is not relocated: in the new code it lands at its old address. Exactly below `at` that is
      where its target is, at `at` the inserted opcode comes first, and past `at` it lands on the opcode
      that used to be before its target. */
  lemma {:induction false} SwitchStepExactly(code: Code, op: M.OpCode, at: nat, m: VM)
    requires at <= |code| && AtSwitch(code, m)
    ensures var code', m' := Spliced(code, op, at), MovedVM(m, at);
            var res := Step(code, m);
            && (!res.Running? ==> res == Stuck && Step(code', m') == Stuck)
            && (res.Running? ==>
                  && Step(code', m') == Running(res.m)
                  && (Step(code', m') == Running(MovedVM(res.m, at)) <==> res.m.bci < at)
                  && (res.m.bci == at ==> code'[at] == op)
                  && (at < res.m.bci <= |code| ==> code'[res.m.bci] == UpdateAddrs(code[res.m.bci - 1], at, 1)))
  {
    hide Spliced, UpdateAddrs, ExecSwitch;
    var sw := code[m.bci];
    var res := Step(code, m);
    SplicedAt(code, op, at, m.bci);
    SwitchStays(sw, at);
    SwitchElsewhere(m, sw.src, sw.vals, sw.addrs, sw.defaultAddr, Moved(m.bci, at));
    SwitchOnly(m, sw.src, sw.vals, sw.addrs, sw.defaultAddr);
    if res.Running? && 0 < res.m.bci <= |code| {
      SplicedAt(code, op, at, res.m.bci - 1);
    }
  }

  lemma {:induction false} SwitchOnly(m: VM, src: nat, vals: nat, addrs: nat, d: nat)
    ensures var res := ExecSwitch(m, src, vals, addrs, d);
            res.Stuck? || (res.Running? && res.m == m.(bci := res.m.bci))
  {}

  lemma {:induction false} SwitchStays(op: M.OpCode, at: nat)
    requires op.Switch?
    ensures UpdateAddrs(op, at, 1) == op
  {}

  /** One step of the old code is one or two steps of the new. */
  lemma {:induction false} StepMoved(code: Code, op: M.OpCode, at: nat, m: VM) returns (k: nat)
    requires at <= |code| && Neutral(op) && LandsLow(code, m, at) && TargetsBelow(code, MINUS_ONE)
    ensures 1 <= k <= 2
    ensures Run(Spliced(code, op, at), MovedVM(m, at), k) == MovedOutcome(Step(code, m), at)
  {
    hide ExecOp, Spliced, Neutral;
    var code' := Spliced(code, op, at);
    var m' := MovedVM(m, at);
    var res := Step(code, m);
    k := 1;
    RunOnce(code', m');
    SplicedLength(code, op, at);
    if AtSwitch(code, m) {
      SwitchStepExactly(code, op, at, m);
      if res.Running? && res.m.bci == at {
        k := 2;
        NeutralStep(code', op, res.m);
        RunTwice(code', m', res.m);
      }
    } else if m.bci < |code| {
      SplicedAt(code, op, at, m.bci);
      ExecMoved(code[m.bci], m, at);
      if res.Running? && Step(code', m') != Running(MovedVM(res.m, at)) {
        k := 2;
        assert m.bci + 1 == at;
        var m1 := res.m.(bci := at);
        NeutralStep(code', op, m1);
        RunTwice(code', m', m1);
      }
    }
  }

  lemma {:induction false} NeutralStep(code: Code, op: M.OpCode, m: VM)
    requires Neutral(op) && m.bci < |code| && code[m.bci] == op
    ensures Step(code, m) == Running(M.Next(m))
  {
    hide ExecOp;
    assert ExecOp(op, m) == Running(M.Next(m));
  }

  lemma SplicedLength(code: Code, op: M.OpCode, at: nat)
    requires at <= |code|
    ensures |Spliced(code, op, at)| == |code| + 1
  {}

  lemma RunOnce(P: Code, m: VM)
    ensures Run(P, m, 1) == Step(P, m)
  {
    hide Step;
    if Step(P, m).Running? {
      assert Run(P, Step(P, m).m, 0) == Step(P, m);
    }
  }

  lemma RunTwice(P: Code, m: VM, m1: VM)
    requires Step(P, m) == Running(m1)
    ensures Run(P, m, 2) == Step(P, m1)
  {
    hide Step;
    RunOnce(P, m1);
  }

  /** Insertion preserves runs whose switches land at or before the place: what the old code does in `k`
      steps the new code does in `k` to `2 * k` steps, with every address `a` now at `a` or `a + 1`. */
  lemma {:induction false} InsertKeepsRuns(code: Code, op: M.OpCode, at: nat, m: VM, k: nat) returns (k': nat)
    requires at <= |code| && Neutral(op) && SwitchesLow(code, m, at, k) && TargetsBelow(code, MINUS_ONE)
    ensures Run(Spliced(code, op, at), MovedVM(m, at), k') == MovedOutcome(Run(code, m, k), at)
    ensures k' <= 2 * k && (Run(code, m, k).Running? ==> k <= k')
    decreases k
  {
    hide Step, Spliced, LandsLow, Neutral;
    k' := 0;
    if k > 0 {
      var j := StepMoved(code, op, at, m);
      var res := Step(code, m);
      k' := j;
      if res.Running? {
        var i := InsertKeepsRuns(code, op, at, res.m, k - 1);
        k' := j + i;
        RunConcat(Spliced(code, op, at), MovedVM(m, at), j, i);
      }
    }
  }

  /** The switches of a run all land at or before `at`. */
  ghost predicate RunLandsLow(code: Code, m: VM, at: nat) {
    forall k: nat :: SwitchesLow(code, m, at, k)
  }

  /** A run has at most one outcome. */
  lemma {:induction false} RunEnds(P: Code, m: VM, j: nat, k: nat)
    requires j <= k && !Run(P, m, j).Running?
    ensures Run(P, m, k) == Run(P, m, j)
    decreases j
  {
    hide Step;
    if Step(P, m).Running? {
      RunEnds(P, Step(P, m).m, j - 1, k - 1);
    }
  }

  /** The new code ends in some way exactly when the old code ends in that way. */
  lemma InsertKeepsOutcomes(code: Code, op: M.OpCode, at: nat, m: VM, res: Outcome)
    requires at <= |code| && Neutral(op) && RunLandsLow(code, m, at) && TargetsBelow(code, MINUS_ONE) && !res.Running?
    ensures (exists k: nat :: Run(code, m, k) == res)
        <==> (exists k: nat :: Run(Spliced(code, op, at), MovedVM(m, at), k) == MovedOutcome(res, at))
  {
    var code', m' := Spliced(code, op, at), MovedVM(m, at);
    if k: nat :| Run(code, m, k) == res {
      var k' := InsertKeepsRuns(code, op, at, m, k);
      assert Run(code', m', k') == MovedOutcome(res, at);
    }
    if k: nat :| Run(code', m', k) == MovedOutcome(res, at) {
      var k' := InsertKeepsRuns(code, op, at, m, k);
      if Run(code, m, k).Running? {
        RunEnds(code', m', k, k');
      } else if k <= k' {
        RunEnds(code', m', k, k');
      } else {
        RunEnds(code', m', k', k);
      }
      MovedInjective(Run(code, m, k), res, at);
    }
  }

  lemma MovedInjective(o: Outcome, o': Outcome, at: nat)
    requires MovedOutcome(o, at) == MovedOutcome(o', at)
    ensures o == o'
  {
    if !o.Stuck? {
      assert o.m == MovedVM(o.m, at).(bci := o.m.bci);
      assert o'.m == MovedVM(o'.m, at).(bci := o'.m.bci);
    }
  }

  /** Erasing an opcode without effect that no address points at preserves runs, if the switches that the
      new code runs land at or before its place: the erased code is the old code, and the old code is the
      erased one with the opcode inserted. */
  lemma EraseKeepsOutcomes(code: Code, at: nat, m: VM, res: Outcome)
    requires at < |code| <= MINUS_ONE && Neutral(code[at]) && TargetsBelow(code, WIDTH)
    requires RunLandsLow(Erased(code, at), m, at)
    requires !Targets(code, at) && !res.Running?
    ensures (exists k: nat :: Run(Erased(code, at), m, k) == res)
        <==> (exists k: nat :: Run(code, MovedVM(m, at), k) == MovedOutcome(res, at))
  {
    var erased := Erased(code, at);
    ErasedSpliced(code, at);
    InsertKeepsOutcomes(erased, code[at], at, m, res);
  }

  lemma ErasedSpliced(code: Code, at: nat)
    requires at < |code| <= MINUS_ONE && TargetsBelow(code, WIDTH) && !Targets(code, at)
    ensures TargetsBelow(Erased(code, at), MINUS_ONE)
    ensures Spliced(Erased(code, at), code[at], at) == code
  {
    var rest := Rest(code, at);
    var down := Erased(code, at);
    RestBelow(code, at, WIDTH);
    RestAvoids(code, at);
    UpdateAllForth(rest, at);
    forall i | 0 <= i < |rest|
      ensures Target(down[i]).Some? ==> Target(down[i]).value < MINUS_ONE
    {
      assert rest[i] == code[if i < at then i else i + 1];
      if Target(rest[i]).Some? {
        ShiftDown(Target(rest[i]).value, at);
      }
    }
    assert code == rest[..at] + [code[at]] + rest[at..];
  }

  lemma RestAvoids(code: Code, at: nat)
    requires at < |code| && !Targets(code, at)
    ensures !Targets(Rest(code, at), at)
  {
    var rest := Rest(code, at);
    forall i | 0 <= i < |rest| ensures Target(rest[i]) != Some(at) {
      assert rest[i] == code[if i < at then i else i + 1];
    }
  }

  lemma ShiftDown(t: nat, at: nat)
    requires t < WIDTH && t != at && at < MINUS_ONE
    ensures Shift(t, at, MINUS_ONE) < MINUS_ONE
  {
    if t >= at {
      assert (t + MINUS_ONE) % WIDTH == t - 1;
    }
  }

  // ----- what the conditions are for -----

  const IDLE: VM := VM(map[], map[], map[], map[], [], 0, 0)

  /** A jump to the erased opcode ends up one opcode too early: the program that halted at once
      now jumps to itself forever. */
  lemma {:induction false} ErasingATarget(k: nat)
    ensures var code := [M.Jmp(1), M.End];
            && Run(code, IDLE, 3) == Halted(IDLE.(bci := 2))
            && Erased(code, 1) == [M.Jmp(0)]
            && Run(Erased(code, 1), IDLE, k) == Running(IDLE)
    decreases k
  {
    var code := [M.Jmp(1), M.End];
    assert code[..1] + code[2..] == [M.Jmp(1)];
    assert Erased(code, 1) == [M.Jmp(0)];
    assert Step(code, IDLE) == Running(IDLE.(bci := 1));
    assert Step(code, IDLE.(bci := 1)) == Running(IDLE.(bci := 2));
    assert Run(code, IDLE.(bci := 2), 1) == Halted(IDLE.(bci := 2));
    assert Run(code, IDLE.(bci := 1), 2) == Halted(IDLE.(bci := 2));
    assert Step([M.Jmp(0)], IDLE) == Running(IDLE);
    if k > 0 {
      ErasingATarget(k - 1);
    }
  }

  /** A switch is not relocated: after an insertion before its default body the switch lands on
      the opcode before it, here the raise that it used to jump over. */
  lemma InsertingBeforeASwitch()
    ensures var m := VM(map[0 := Nil, 1 := ListVal([]), 2 := ListVal([])], map[], map[], map[], [], 0, 0);
            var code := [M.Switch(0, 1, 2, 2), M.Raise(0), M.End];
            && Run(code, m, 3) == Halted(m.(bci := 3))
            && Inserted(code, M.End, 0) == [M.End, M.Switch(0, 1, 2, 2), M.Raise(0), M.End]
            && Run(Inserted(code, M.End, 0), m, 3) == Raised(Thrown(Nil), m.(bci := 2))
  {
    var m := VM(map[0 := Nil, 1 := ListVal([]), 2 := ListVal([])], map[], map[], map[], [], 0, 0);
    var code := [M.Switch(0, 1, 2, 2), M.Raise(0), M.End];
    var code' := [M.End, M.Switch(0, 1, 2, 2), M.Raise(0), M.End];
    assert UpdateAll(code, 0, 1) == code;
    assert Inserted(code, M.End, 0) == code';
    assert Step(code, m) == Running(m.(bci := 2));
    assert Step(code, m.(bci := 2)) == Running(m.(bci := 3));
    assert Run(code, m.(bci := 3), 1) == Halted(m.(bci := 3));
    assert Run(code, m.(bci := 2), 2) == Halted(m.(bci := 3));
    assert Step(code', m) == Running(m.(bci := 1));
    assert Step(code', m.(bci := 1)) == Running(m.(bci := 2));
    assert Run(code', m.(bci := 2), 1) == Raised(Thrown(Nil), m.(bci := 2));
    assert Run(code', m.(bci := 1), 2) == Raised(Thrown(Nil), m.(bci := 2));
  }
}

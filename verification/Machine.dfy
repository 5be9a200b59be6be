/** The register machine: opcodes (bytecode/opcode.hpp), their execution (bytecode/opcode.cpp)
    and the interpreter's main loop (vm/interpreter.cpp), for code of one frame. */
module Machine {
  import opened Lists
  import opened Values

  type Register = nat
  type Address = nat

  /** Where a binary operator's operands live: plain opcode, its `2` and its `3` variant. */
  datatype Mode = RegReg | ConstReg | RegConst

  datatype BreakState = Resolved | UnsetBreak | UnsetContinue

  datatype OpCode =
    | End
    | Load(dst: Register, name: string)
    | Store(dst: Register, src: Register)
    | StoreName(dst: Register, name: string)
    | StoreConst(dst: Register, csrc: Register)
    | StoreIntConst(dst: Register, i: int)
    | StoreBoolConst(dst: Register, b: bool)
    | StoreStringConst(dst: Register, s: string)
    | StoreNilConst(dst: Register)
    | Jmp(addr: Address)
    | BreakTo(addr: Address, state: BreakState)
    | JmpIfTrue(src: Register, addr: Address)
    | JmpIfFalse(src: Register, addr: Address)
    | Output(src: Register)
    | BinExpr(op: BinOp, mode: Mode, dst: Register, src1: Register, src2: Register)
    | Not(dst: Register, src: Register)
    | Neg(dst: Register, src: Register)
    | Assert(src: Register, line: Register, msg: Register)
    | Raise(src: Register)
    | ListPush(dst: Register, src: Register)
    | ListPushConst(dst: Register, csrc: Register)
    | BuildList(dst: Register)
    | Switch(src: Register, vals: Register, addrs: Register, defaultAddr: Address)
    | For(index: Register, collection: Register, addr: Address)
    | Iter(dst: Register, collection: Register)
    | LoopBegin
    | LoopEnd
    // Present for their address operands only; their execution is not part of this model.
    | ForMulti(vars: Register, collection: Register, addr: Address, unpack: Register)
    | Catch(name: string, addr: Address, id: int)
    | CatchTyped(name: string, ty: Register, addr: Address, id: int)
    | Finally(addr: Address, caller: Register)

  type Code = seq<OpCode>

  /** Machine state. `names` binds a name to a register, not to a value. An iterator object is
      kept as the values it has yet to deliver, under the register that holds it. `fin` is the
      height of the finally stack above the frame's own entry. */
  datatype VM = VM(
    regs: map<Register, Value>,
    cregs: map<Register, Value>,
    iters: map<Register, seq<Value>>,
    names: map<string, Register>,
    out: seq<Value>,
    fin: nat,
    bci: Address)

  /** `Stuck` is a failed internal assertion of the interpreter. */
  datatype Outcome = Running(m: VM) | Halted(m: VM) | Raised(x: Exn, m: VM) | Stuck

  // ----- single opcodes -----

  function Next(m: VM): VM {
    m.(bci := m.bci + 1)
  }

  function Put(m: VM, r: Register, v: Value): VM {
    m.(regs := m.regs[r := v], bci := m.bci + 1)
  }

  function PutConst(m: VM, r: Register, v: Value): VM {
    m.(cregs := m.cregs[r := v], bci := m.bci + 1)
  }

  /** Stores a result or raises. */
  function Deliver(m: VM, dst: Register, r: Result<Value, Exn>): Outcome {
    match r
    case Ok(v) => Running(Put(m, dst, v))
    case Err(x) => Raised(x, m)
  }

  function Operand(regs: map<Register, Value>, r: Register): Option<Value> {
    if r in regs then Some(regs[r]) else None
  }

  function ExecBin(op: BinOp, dst: Register, a: Option<Value>, b: Option<Value>, m: VM): Outcome {
    if a.Some? && b.Some? then Deliver(m, dst, Apply(op, a.value, b.value)) else Stuck
  }

  function Push(m: VM, dst: Register, v: Option<Value>): Outcome {
    if v.Some? && dst in m.regs && m.regs[dst].ListVal?
    then Running(Put(m, dst, ListVal(m.regs[dst].vals + [v.value]))) else Stuck
  }

  function Branch(m: VM, src: Register, taken: bool, addr: Address): Outcome {
    if src !in m.regs then Stuck
    else if !m.regs[src].Bool? then Raised(BoolExpected, m)
    else Running(if m.regs[src].b == taken then m.(bci := addr) else Next(m))
  }

  function ExecSwitch(m: VM, src: Register, vals: Register, addrs: Register, defaultAddr: Address): Outcome {
    if src !in m.regs || vals !in m.regs || addrs !in m.regs then Stuck
    else if !m.regs[vals].ListVal? || !m.regs[addrs].ListVal? then Stuck
    else
      var vs := m.regs[vals].vals;
      var i := FirstEqual(vs, m.regs[src]);
      if i == |vs| then Running(m.(bci := defaultAddr))
      else
        var targets := m.regs[addrs].vals;
        if i < |targets| && targets[i].Int? && targets[i].i >= 0
        then Running(m.(bci := targets[i].i)) else Stuck
  }

  function ExecOp(op: OpCode, m: VM): Outcome {
    match op
    case End => Running(Next(m))
    case Load(dst, n) =>
      if n !in m.names then Raised(NameError(n), m)
      else if m.names[n] !in m.regs then Stuck
      else Running(Put(m, dst, m.regs[m.names[n]]))
    case Store(dst, src) => if src in m.regs then Running(Put(m, dst, m.regs[src])) else Stuck
    case StoreName(dst, n) => Running(m.(names := m.names[n := dst], bci := m.bci + 1))
    case StoreConst(dst, csrc) => if csrc in m.cregs then Running(Put(m, dst, m.cregs[csrc])) else Stuck
    case StoreIntConst(dst, i) => Running(PutConst(m, dst, Int(i)))
    case StoreBoolConst(dst, b) => Running(PutConst(m, dst, Bool(b)))
    case StoreStringConst(dst, s) => Running(PutConst(m, dst, Str(s)))
    case StoreNilConst(dst) => Running(PutConst(m, dst, Nil))
    case Jmp(a) => Running(m.(bci := a))
    case BreakTo(a, state) => if state.Resolved? then Running(m.(bci := a)) else Stuck
    case JmpIfTrue(src, a) => Branch(m, src, true, a)
    case JmpIfFalse(src, a) => Branch(m, src, false, a)
    case Output(src) =>
      if src in m.regs then Running(m.(out := m.out + [m.regs[src]], bci := m.bci + 1)) else Stuck
    case BinExpr(bop, mode, dst, s1, s2) =>
      ExecBin(bop, dst,
              Operand(if mode.ConstReg? then m.cregs else m.regs, s1),
              Operand(if mode.RegConst? then m.cregs else m.regs, s2), m)
    case Not(dst, src) => if src in m.regs then Deliver(m, dst, ApplyUnary(true, m.regs[src])) else Stuck
    case Neg(dst, src) => if src in m.regs then Deliver(m, dst, ApplyUnary(false, m.regs[src])) else Stuck
    case Assert(src, line, msg) =>
      if src !in m.regs || line !in m.cregs || msg !in m.regs then Stuck
      else if !m.regs[src].Bool? then Raised(BoolExpected, m)
      else if m.regs[src].b then Running(Next(m))
      else if m.cregs[line].Int? then Raised(AssertionError(m.regs[msg], m.cregs[line].i), m)
      else Stuck
    case Raise(src) => if src in m.regs then Raised(Thrown(m.regs[src]), m) else Stuck
    case ListPush(dst, src) => Push(m, dst, Operand(m.regs, src))
    case ListPushConst(dst, csrc) => Push(m, dst, Operand(m.cregs, csrc))
    case BuildList(dst) => Running(Put(m, dst, ListVal([])))
    case Switch(src, vals, addrs, d) => ExecSwitch(m, src, vals, addrs, d)
    case For(index, coll, a) =>
      if coll !in m.iters then Stuck
      else if m.iters[coll] == [] then Running(m.(bci := a))
      else Running(Put(m.(iters := m.iters[coll := m.iters[coll][1..]]), index, m.iters[coll][0]))
    case Iter(dst, coll) =>
      if coll !in m.regs then Stuck
      else (match Iterate(m.regs[coll])
            case Ok(vs) => Running(m.(iters := m.iters[dst := vs], bci := m.bci + 1))
            case Err(x) => Raised(x, m))
    case LoopBegin => Running(m.(fin := m.fin + 1, bci := m.bci + 1))
    case LoopEnd => if m.fin > 0 then Running(m.(fin := m.fin - 1, bci := m.bci + 1)) else Stuck
    case ForMulti(_, _, _, _) => Stuck
    case Catch(_, _, _) => Stuck
    case CatchTyped(_, _, _, _) => Stuck
    case Finally(_, _) => Stuck
  }

  // ----- runs -----

  /** One turn of the interpreter's loop, which ends when the index passes the code. */
  function Step(P: Code, m: VM): Outcome {
    if m.bci < |P| then ExecOp(P[m.bci], m) else Halted(m)
  }

  function Run(P: Code, m: VM, k: nat): Outcome
    decreases k
  {
    if k == 0 then Running(m)
    else
      var o := Step(P, m);
      if o.Running? then Run(P, o.m, k - 1) else o
  }

  // ----- the finally stack -----

  /** What an opcode does to the finally stack. */
  function Delta(op: OpCode): int {
    match op
    case LoopBegin => 1
    case LoopEnd => -1
    case _ => 0
  }

  /** The static loop depth of an address: loops opened before it and not closed. */
  function Height(P: Code, i: Address): int
    requires i <= |P|
  {
    if i == 0 then 0 else Height(P, i - 1) + Delta(P[i - 1])
  }

  /** Two addresses at the same loop depth. */
  ghost predicate Even(P: Code, p: Address, t: Address) {
    p <= |P| && t <= |P| && Height(P, p) == Height(P, t)
  }

  /** From `m` to `m'` the finally stack grew by as much as the loop depth. */
  ghost predicate Level(P: Code, m: VM, m': VM) {
    m.bci <= |P| && m'.bci <= |P| && m'.fin - m.fin == Height(P, m'.bci) - Height(P, m.bci)
  }

  /** Every one of the next `k` steps keeps the finally stack level. */
  ghost predicate Steady(P: Code, m: VM, k: nat)
    decreases k
  {
    k == 0 ||
    (var o := Step(P, m);
     o.Running? ==> Level(P, m, o.m) && Steady(P, o.m, k - 1))
  }

  lemma StepDelta(P: Code, m: VM, m': VM)
    requires Step(P, m) == Running(m')
    ensures m.bci < |P| && m'.fin - m.fin == Delta(P[m.bci])
    ensures Delta(P[m.bci]) != 0 ==> m'.bci == m.bci + 1
  {
    hide Apply, ApplyUnary, FirstEqual, Iterate;
  }

  /** Going on to the next opcode is level, as is a jump within one loop. */
  lemma StepLevel(P: Code, m: VM, m': VM)
    requires Step(P, m) == Running(m')
    requires m'.bci == m.bci + 1 || Even(P, m.bci, m'.bci)
    ensures Level(P, m, m')
  {
    hide ExecOp;
    StepDelta(P, m, m');
  }

  lemma {:induction false} SteadyLevel(P: Code, m: VM, j: nat, k: nat)
    requires j <= k && Steady(P, m, k) && Run(P, m, j).Running? && m.bci <= |P|
    ensures Level(P, m, Run(P, m, j).m)
    decreases j
  {
    hide Step, Height;
    if j > 0 {
      SteadyLevel(P, Step(P, m).m, j - 1, k - 1);
    }
  }

  lemma {:induction false} SteadyConcat(P: Code, m: VM, j: nat, k: nat)
    requires Run(P, m, j).Running? && Steady(P, m, j) && Steady(P, Run(P, m, j).m, k)
    ensures Steady(P, m, j + k)
    decreases j
  {
    hide Step, Level;
    if j > 0 {
      SteadyConcat(P, Step(P, m).m, j - 1, k);
    }
  }

  lemma {:induction false} SteadyPrefix(P: Code, m: VM, j: nat, k: nat)
    requires j <= k && Steady(P, m, k)
    ensures Steady(P, m, j)
    decreases j
  {
    hide ExecOp, Level;
    if j > 0 && Step(P, m).Running? {
      SteadyPrefix(P, Step(P, m).m, j - 1, k - 1);
    }
  }

  // ----- reaching a state -----

  ghost predicate Reaches(P: Code, m: VM, m': VM) {
    exists k: nat :: Run(P, m, k) == Running(m') && Steady(P, m, k)
  }

  ghost predicate Raises(P: Code, m: VM, x: Exn, m': VM) {
    exists k: nat :: Run(P, m, k) == Raised(x, m') && Steady(P, m, k)
  }

  ghost predicate Halts(P: Code, m: VM, m': VM) {
    exists k: nat :: Run(P, m, k) == Halted(m')
  }

  /** At least one step. */
  ghost predicate Advances(P: Code, m: VM, m': VM) {
    exists k: nat :: k > 0 && Run(P, m, k) == Running(m') && Steady(P, m, k)
  }

  /** Still running after `n` steps. */
  ghost predicate Lasts(P: Code, m: VM, n: nat) {
    Run(P, m, n).Running? && Steady(P, m, n)
  }

  lemma {:induction false} RunConcat(P: Code, m: VM, j: nat, k: nat)
    requires Run(P, m, j).Running?
    ensures Run(P, m, j + k) == Run(P, Run(P, m, j).m, k)
    decreases j
  {
    hide Step;
    if j > 0 {
      RunConcat(P, Step(P, m).m, j - 1, k);
    }
  }

  lemma {:induction false} RunPrefix(P: Code, m: VM, j: nat, k: nat)
    requires j <= k && Run(P, m, k).Running?
    ensures Run(P, m, j).Running?
    decreases j
  {
    if j > 0 {
      hide ExecOp;
      RunPrefix(P, Step(P, m).m, j - 1, k - 1);
    }
  }

  lemma Concat(P: Code, m: VM, j: nat, m1: VM, k: nat)
    requires Run(P, m, j) == Running(m1) && Steady(P, m, j) && Steady(P, m1, k)
    ensures Run(P, m, j + k) == Run(P, m1, k) && Steady(P, m, j + k)
  {
    RunConcat(P, m, j, k);
    SteadyConcat(P, m, j, k);
  }

  lemma LastsPrefix(P: Code, m: VM, j: nat, k: nat)
    requires j <= k && Lasts(P, m, k)
    ensures Lasts(P, m, j)
  {
    RunPrefix(P, m, j, k);
    SteadyPrefix(P, m, j, k);
  }

  lemma LastsTrans(P: Code, m: VM, m1: VM, n: nat)
    requires Reaches(P, m, m1) && Lasts(P, m1, n)
    ensures Lasts(P, m, n)
    ensures Advances(P, m, m1) ==> Lasts(P, m, n + 1)
  {
    hide Step, Run, Steady;
    var j: nat :| Run(P, m, j) == Running(m1) && Steady(P, m, j);
    Concat(P, m, j, m1, n);
    LastsPrefix(P, m, n, j + n);
    if Advances(P, m, m1) {
      var i: nat :| i > 0 && Run(P, m, i) == Running(m1) && Steady(P, m, i);
      Concat(P, m, i, m1, n);
      LastsPrefix(P, m, n + 1, i + n);
    }
  }

  lemma RunOne(P: Code, m: VM, m': VM)
    requires Step(P, m) == Running(m')
    requires m'.bci == m.bci + 1 || Even(P, m.bci, m'.bci)
    ensures Run(P, m, 1) == Running(m') && Steady(P, m, 1)
  {
    StepLevel(P, m, m');
    assert Run(P, m', 0) == Running(m');
    assert Steady(P, m', 0);
  }

  lemma AdvancesTrans(P: Code, m: VM, m1: VM, m2: VM)
    requires Reaches(P, m, m1) && Step(P, m1) == Running(m2)
    requires m2.bci == m1.bci + 1 || Even(P, m1.bci, m2.bci)
    ensures Advances(P, m, m2) && Reaches(P, m, m2)
  {
    var j: nat :| Run(P, m, j) == Running(m1) && Steady(P, m, j);
    RunOne(P, m1, m2);
    Concat(P, m, j, m1, 1);
    assert Run(P, m, j + 1) == Running(m2);
  }

  lemma ReachesSelf(P: Code, m: VM)
    ensures Reaches(P, m, m)
  {
    assert Run(P, m, 0) == Running(m);
  }

  lemma ReachesStep(P: Code, m: VM, m': VM)
    requires Step(P, m) == Running(m')
    requires m'.bci == m.bci + 1 || Even(P, m.bci, m'.bci)
    ensures Reaches(P, m, m')
  {
    RunOne(P, m, m');
  }

  lemma ReachesTrans(P: Code, m: VM, m1: VM, m2: VM)
    requires Reaches(P, m, m1) && Reaches(P, m1, m2)
    ensures Reaches(P, m, m2)
  {
    var j: nat :| Run(P, m, j) == Running(m1) && Steady(P, m, j);
    var k: nat :| Run(P, m1, k) == Running(m2) && Steady(P, m1, k);
    Concat(P, m, j, m1, k);
    assert Run(P, m, j + k) == Running(m2);
  }

  lemma RaisesStep(P: Code, m: VM, m1: VM, x: Exn, m2: VM)
    requires Reaches(P, m, m1) && Step(P, m1) == Raised(x, m2)
    ensures Raises(P, m, x, m2)
  {
    hide ExecOp, Level;
    var j: nat :| Run(P, m, j) == Running(m1) && Steady(P, m, j);
    assert Run(P, m1, 1) == Raised(x, m2) && Steady(P, m1, 1);
    Concat(P, m, j, m1, 1);
    assert Run(P, m, j + 1) == Raised(x, m2);
  }

  lemma RaisesTrans(P: Code, m: VM, m1: VM, x: Exn, m2: VM)
    requires Reaches(P, m, m1) && Raises(P, m1, x, m2)
    ensures Raises(P, m, x, m2)
  {
    var j: nat :| Run(P, m, j) == Running(m1) && Steady(P, m, j);
    var k: nat :| Run(P, m1, k) == Raised(x, m2) && Steady(P, m1, k);
    Concat(P, m, j, m1, k);
    assert Run(P, m, j + k) == Raised(x, m2);
  }
}

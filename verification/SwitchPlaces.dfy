/** Where the switches of generated code land, and so which insertions and erasures keep its runs. A
    switch jumps to its default address or to an address kept as a constant, and relocation changes
    neither; all of them are known before the run. */
module SwitchPlaces {
  import opened Lists
  import opened Values
  import opened Ir
  import opened Codegen
  import opened CodegenFacts
  import opened BytecodeEdit
  import opened M = Machine

  // ----- what opcodes write -----

  function Writes(op: OpCode): Option<nat> {
    match op
    case Load(dst, _) => Some(dst)
    case Store(dst, _) => Some(dst)
    case StoreConst(dst, _) => Some(dst)
    case BinExpr(_, _, dst, _, _) => Some(dst)
    case Not(dst, _) => Some(dst)
    case Neg(dst, _) => Some(dst)
    case ListPush(dst, _) => Some(dst)
    case ListPushConst(dst, _) => Some(dst)
    case BuildList(dst) => Some(dst)
    case For(index, _, _) => Some(index)
    case _ => None
  }

  function WritesConst(op: OpCode): Option<nat> {
    match op
    case StoreIntConst(dst, _) => Some(dst)
    case StoreBoolConst(dst, _) => Some(dst)
    case StoreStringConst(dst, _) => Some(dst)
    case StoreNilConst(dst) => Some(dst)
    case _ => None
  }

  // ----- the condition on code -----

  /** A register that some switch takes its addresses from. */
  predicate AddressList(P: Code, q: nat) {
    exists i :: 0 <= i < |P| && P[i].Switch? && P[i].addrs == q
  }

  /** A constant that is pushed onto such a list. */
  predicate Address(P: Code, c: nat) {
    exists i :: 0 <= i < |P| && P[i].ListPushConst? && P[i].csrc == c && AddressList(P, P[i].dst)
  }

  /** All addresses that switches can go to are at most `at`: the default ones, and the constants pushed
      onto the address lists, which nothing else writes. */
  ghost predicate SwitchesBelow(P: Code, at: nat) {
    forall i :: 0 <= i < |P| ==>
      && (P[i].Switch? ==> P[i].defaultAddr <= at)
      && (Writes(P[i]).Some? && AddressList(P, Writes(P[i]).value) ==> P[i].BuildList? || P[i].ListPushConst?)
      && (WritesConst(P[i]).Some? && Address(P, WritesConst(P[i]).value) ==> P[i].StoreIntConst? && 0 <= P[i].i <= at)
  }

  // ----- what every step keeps -----

  predicate LowInt(v: Value, at: nat) {
    v.Int? && 0 <= v.i <= at
  }

  predicate LowList(v: Value, at: nat) {
    v.ListVal? ==> forall i :: 0 <= i < |v.vals| ==> LowInt(v.vals[i], at)
  }

  /** What the machine has in address lists and in constants for them, as in any fresh frame. */
  ghost predicate HoldsLow(P: Code, m: VM, at: nat) {
    && (forall q :: q in m.regs && AddressList(P, q) ==> LowList(m.regs[q], at))
    && (forall c :: c in m.cregs && Address(P, c) ==> LowInt(m.cregs[c], at))
  }

  /** From `m` to `m1` at most the registers change that `op` writes. */
  ghost predicate OnlyWrites(op: OpCode, m: VM, m1: VM) {
    && (forall q :: q in m1.regs && Writes(op) != Some(q) ==> q in m.regs && m1.regs[q] == m.regs[q])
    && (forall c :: c in m1.cregs && WritesConst(op) != Some(c) ==> c in m.cregs && m1.cregs[c] == m.cregs[c])
  }

  lemma {:induction false} DeliverWrites(op: OpCode, m: VM, dst: nat, r: Result<Value, Exn>)
    requires Writes(op) == Some(dst) && Deliver(m, dst, r).Running?
    ensures OnlyWrites(op, m, Deliver(m, dst, r).m)
  {}

  lemma {:induction false} OperatesWrites(op: OpCode, m: VM)
    requires Operates(op) && ExecOp(op, m).Running?
    ensures OnlyWrites(op, m, ExecOp(op, m).m)
  {
    hide Apply, ApplyUnary, FirstEqual, Iterate, Deliver;
    match op
    case BinExpr(bop, mode, dst, s1, s2) =>
      var x := Operand(if mode.ConstReg? then m.cregs else m.regs, s1);
      var y := Operand(if mode.RegConst? then m.cregs else m.regs, s2);
      DeliverWrites(op, m, dst, Apply(bop, x.value, y.value));
    case Not(dst, src) => DeliverWrites(op, m, dst, ApplyUnary(true, m.regs[src]));
    case Neg(dst, src) => DeliverWrites(op, m, dst, ApplyUnary(false, m.regs[src]));
    case _ =>
  }

  lemma {:induction false} MovesWrites(op: OpCode, m: VM)
    requires Moves(op) && ExecOp(op, m).Running?
    ensures OnlyWrites(op, m, ExecOp(op, m).m)
  {}

  lemma {:induction false} OthersWrite(op: OpCode, m: VM)
    requires !Moves(op) && !Operates(op) && ExecOp(op, m).Running?
    ensures OnlyWrites(op, m, ExecOp(op, m).m)
  {
    hide Apply, ApplyUnary, FirstEqual, Iterate;
  }

  /** How one step changes the registers: at most the one its opcode writes. */
  lemma {:induction false} StepWrites(P: Code, m: VM)
    requires Step(P, m).Running?
    ensures m.bci < |P| && OnlyWrites(P[m.bci], m, Step(P, m).m)
  {
    hide ExecOp, OnlyWrites;
    var op := P[m.bci];
    if Operates(op) {
      OperatesWrites(op, m);
    } else if Moves(op) {
      MovesWrites(op, m);
    } else {
      OthersWrite(op, m);
    }
  }

  lemma {:induction false} StepLists(P: Code, m: VM)
    requires Step(P, m).Running?
    ensures m.bci < |P|
    ensures P[m.bci].BuildList? ==> Step(P, m).m.regs[P[m.bci].dst] == ListVal([])
    ensures P[m.bci].ListPushConst? ==>
              var q, c := P[m.bci].dst, P[m.bci].csrc;
              && q in m.regs && m.regs[q].ListVal? && c in m.cregs
              && Step(P, m).m.regs[q] == ListVal(m.regs[q].vals + [m.cregs[c]])
    ensures P[m.bci].StoreIntConst? ==> Step(P, m).m.cregs[P[m.bci].dst] == Int(P[m.bci].i)
  {}

  lemma {:induction false} StepKeepsLow(P: Code, m: VM, at: nat)
    requires SwitchesBelow(P, at) && HoldsLow(P, m, at) && Step(P, m).Running?
    ensures HoldsLow(P, Step(P, m).m, at)
  {
    hide Step, AddressList, Address, Writes, WritesConst;
    StepWrites(P, m);
    StepLists(P, m);
    var op, m1 := P[m.bci], Step(P, m).m;
    WritesWhat(op);
    forall q | q in m1.regs && AddressList(P, q) ensures LowList(m1.regs[q], at) {
      if Writes(op) == Some(q) && op.ListPushConst? {
        AddressAt(P, m.bci);
        assert LowInt(m.cregs[op.csrc], at) && LowList(m.regs[q], at);
      }
    }
    forall c | c in m1.cregs && Address(P, c) ensures LowInt(m1.cregs[c], at) {}
  }

  lemma {:induction false} WritesWhat(op: OpCode)
    ensures op.BuildList? || op.ListPushConst? ==> Writes(op) == Some(op.dst)
    ensures op.StoreIntConst? ==> WritesConst(op) == Some(op.dst)
  {}

  lemma {:induction false} AddressAt(P: Code, i: nat)
    requires i < |P| && P[i].ListPushConst? && AddressList(P, P[i].dst)
    ensures Address(P, P[i].csrc)
  {}

  /** A switch lands at its default address or at an address of its list. */
  lemma {:induction false} SwitchLands(P: Code, m: VM, at: nat)
    requires SwitchesBelow(P, at) && HoldsLow(P, m, at)
    ensures LandsLow(P, m, at)
  {
    hide FirstEqual;
    if AtSwitch(P, m) && Step(P, m).Running? {
      assert AddressList(P, P[m.bci].addrs);
      assert LowList(m.regs[P[m.bci].addrs], at);
      assert P[m.bci].defaultAddr <= at;
    }
  }

  /** So no run of the code has a switch that lands past `at`. */
  lemma {:induction false} RunsLandLow(P: Code, m: VM, at: nat, k: nat)
    requires SwitchesBelow(P, at) && HoldsLow(P, m, at)
    ensures SwitchesLow(P, m, at, k)
    decreases k
  {
    hide Step, SwitchesBelow, HoldsLow, LandsLow;
    if k > 0 {
      SwitchLands(P, m, at);
      if Step(P, m).Running? {
        StepKeepsLow(P, m, at);
        RunsLandLow(P, Step(P, m).m, at, k - 1);
      }
    }
  }

  /** Inserting an opcode without effect at or behind all switch targets keeps how runs end. */
  lemma {:induction false} InsertBehindSwitches(code: Code, op: OpCode, at: nat, m: VM, res: Outcome)
    requires at <= |code| && Neutral(op) && SwitchesBelow(code, at) && HoldsLow(code, m, at)
    requires TargetsBelow(code, MINUS_ONE) && !res.Running?
    ensures (exists k: nat :: Run(code, m, k) == res)
        <==> (exists k: nat :: Run(Spliced(code, op, at), MovedVM(m, at), k) == MovedOutcome(res, at))
  {
    hide Run, Spliced, SwitchesBelow, HoldsLow, TargetsBelow, Neutral, SwitchesLow;
    forall k: nat ensures SwitchesLow(code, m, at, k) {
      RunsLandLow(code, m, at, k);
    }
    InsertKeepsOutcomes(code, op, at, m, res);
  }

  // ----- erasing keeps the condition -----

  lemma {:induction false} UpdatedWrites(op: OpCode, at: nat, amount: nat)
    ensures var op' := UpdateAddrs(op, at, amount);
            && Writes(op') == Writes(op) && WritesConst(op') == WritesConst(op)
            && (op.Switch? || op.BuildList? || op.ListPushConst? || op.StoreIntConst? ==> op' == op)
            && (op'.Switch? || op'.BuildList? || op'.ListPushConst? || op'.StoreIntConst? ==> op' == op)
  {}

  /** Where an opcode of the erased code comes from. */
  lemma {:induction false} ErasedFrom(code: Code, at: nat, i: nat) returns (j: nat)
    requires at < |code| && i < |code| - 1
    ensures |Erased(code, at)| == |code| - 1 && j < |code| && Erased(code, at)[i] == UpdateAddrs(code[j], at, MINUS_ONE)
  {
    hide UpdateAddrs;
    j := if i < at then i else i + 1;
    assert (code[..at] + code[at + 1..])[i] == code[j];
  }

  lemma {:induction false} ErasedListFrom(code: Code, at: nat, q: nat)
    requires at < |code| && AddressList(Erased(code, at), q)
    ensures AddressList(code, q)
  {
    hide Erased, UpdateAddrs;
    var i :| 0 <= i < |Erased(code, at)| && Erased(code, at)[i].Switch? && Erased(code, at)[i].addrs == q;
    ErasedLength(code, at);
    var j := ErasedFrom(code, at, i);
    UpdatedWrites(code[j], at, MINUS_ONE);
    assert code[j].Switch? && code[j].addrs == q;
  }

  lemma {:induction false} ErasedLength(code: Code, at: nat)
    requires at < |code|
    ensures |Erased(code, at)| == |code| - 1
  {}

  lemma {:induction false} ErasedAddressFrom(code: Code, at: nat, c: nat)
    requires at < |code| && Address(Erased(code, at), c)
    ensures Address(code, c)
  {
    hide Erased, UpdateAddrs, AddressList;
    var down := Erased(code, at);
    var i :| 0 <= i < |down| && down[i].ListPushConst? && down[i].csrc == c && AddressList(down, down[i].dst);
    ErasedLength(code, at);
    var j := ErasedFrom(code, at, i);
    UpdatedWrites(code[j], at, MINUS_ONE);
    ErasedListFrom(code, at, down[i].dst);
    assert code[j].ListPushConst? && code[j].csrc == c;
  }

  lemma {:induction false} ErasedBelow(code: Code, at: nat, m: VM)
    requires at < |code| && SwitchesBelow(code, at) && HoldsLow(code, m, at)
    ensures SwitchesBelow(Erased(code, at), at) && HoldsLow(Erased(code, at), m, at)
  {
    hide Erased, UpdateAddrs, AddressList, Address, Writes, WritesConst, LowList, LowInt;
    var down := Erased(code, at);
    ErasedLength(code, at);
    forall i | 0 <= i < |down|
      ensures down[i].Switch? ==> down[i].defaultAddr <= at
      ensures Writes(down[i]).Some? && AddressList(down, Writes(down[i]).value) ==> down[i].BuildList? || down[i].ListPushConst?
      ensures WritesConst(down[i]).Some? && Address(down, WritesConst(down[i]).value) ==>
                down[i].StoreIntConst? && 0 <= down[i].i <= at
    {
      var j := ErasedFrom(code, at, i);
      UpdatedWrites(code[j], at, MINUS_ONE);
      if Writes(down[i]).Some? && AddressList(down, Writes(down[i]).value) {
        ErasedListFrom(code, at, Writes(down[i]).value);
      }
      if WritesConst(down[i]).Some? && Address(down, WritesConst(down[i]).value) {
        ErasedAddressFrom(code, at, WritesConst(down[i]).value);
      }
    }
    forall q | q in m.regs && AddressList(down, q) ensures LowList(m.regs[q], at) {
      ErasedListFrom(code, at, q);
    }
    forall c | c in m.cregs && Address(down, c) ensures LowInt(m.cregs[c], at) {
      ErasedAddressFrom(code, at, c);
    }
  }

  /** Erasing an opcode without effect and without addresses that point at it, at or behind all switch
      targets, keeps how runs end. */
  lemma {:induction false} EraseBehindSwitches(code: Code, at: nat, m: VM, res: Outcome)
    requires at < |code| <= MINUS_ONE && Neutral(code[at]) && SwitchesBelow(code, at) && HoldsLow(code, m, at)
    requires TargetsBelow(code, WIDTH) && !Targets(code, at) && !res.Running?
    ensures (exists k: nat :: Run(Erased(code, at), m, k) == res)
        <==> (exists k: nat :: Run(code, MovedVM(m, at), k) == MovedOutcome(res, at))
  {
    hide Run, Erased, SwitchesBelow, HoldsLow, TargetsBelow, Targets, Neutral, SwitchesLow;
    ErasedBelow(code, at, m);
    forall k: nat ensures SwitchesLow(Erased(code, at), m, at, k) {
      RunsLandLow(Erased(code, at), m, at, k);
    }
    EraseKeepsOutcomes(code, at, m, res);
  }

  // ----- generated code: expressions -----

  /** Registers from `r` to `hi` and constants from `c` to `hic` are all that is written, but for `list`,
      and there is no switch. */
  ghost predicate Spans(code: Code, list: Option<nat>, r: nat, hi: nat, c: nat, hic: nat) {
    forall i :: 0 <= i < |code| ==>
      && !code[i].Switch?
      && (Writes(code[i]).Some? ==> Writes(code[i]) == list || r <= Writes(code[i]).value < hi)
      && (WritesConst(code[i]).Some? ==> c <= WritesConst(code[i]).value < hic)
  }

  lemma {:induction false} SpansJoin(x: Code, y: Code, list: Option<nat>, r: nat, hi: nat, c: nat, hic: nat,
                                     r1: nat, hi1: nat, c1: nat, hic1: nat, r2: nat, hi2: nat, c2: nat, hic2: nat)
    requires Spans(x, list, r1, hi1, c1, hic1) && Spans(y, list, r2, hi2, c2, hic2)
    requires r <= r1 && hi1 <= hi && c <= c1 && hic1 <= hic && r <= r2 && hi2 <= hi && c <= c2 && hic2 <= hic
    ensures Spans(x + y, list, r, hi, c, hic)
  {
    hide Writes, WritesConst;
    forall i | 0 <= i < |x + y|
      ensures !(x + y)[i].Switch?
      ensures Writes((x + y)[i]).Some? ==> Writes((x + y)[i]) == list || r <= Writes((x + y)[i]).value < hi
      ensures WritesConst((x + y)[i]).Some? ==> c <= WritesConst((x + y)[i]).value < hic
    {
      assert (x + y)[i] == if i < |x| then x[i] else y[i - |x|];
    }
  }

  lemma {:induction false} SpansAdd(x: Code, y: Code, list: Option<nat>, r: nat, hi: nat, c: nat, hic: nat, r1: nat, hi1: nat, c1: nat, hic1: nat)
    requires Spans(x, list, r1, hi1, c1, hic1) && Spans(y, list, r, hi, c, hic)
    requires r <= r1 && hi1 <= hi && c <= c1 && hic1 <= hic
    ensures Spans(x + y, list, r, hi, c, hic) && Spans(y + x, list, r, hi, c, hic)
  {
    SpansJoin(x, y, list, r, hi, c, hic, r1, hi1, c1, hic1, r, hi, c, hic);
    SpansJoin(y, x, list, r, hi, c, hic, r, hi, c, hic, r1, hi1, c1, hic1);
  }

  lemma {:induction false} SpansAny(x: Code, list: Option<nat>, r: nat, hi: nat, c: nat, hic: nat)
    requires Spans(x, None, r, hi, c, hic)
    ensures Spans(x, list, r, hi, c, hic)
  {}

  lemma {:induction false} SpansWiden(x: Code, list: Option<nat>, r: nat, hi: nat, c: nat, hic: nat, r1: nat, hi1: nat, c1: nat, hic1: nat)
    requires Spans(x, list, r1, hi1, c1, hic1) && r <= r1 && hi1 <= hi && c <= c1 && hic1 <= hic
    ensures Spans(x, list, r, hi, c, hic)
  {}

  lemma {:induction false} ExprSpans(e: Expr, a: nat, r: nat, c: nat)
    ensures var g := EmitExpr(e, a, r, c); r <= g.r && c <= g.c && Spans(g.code, None, r, g.r, c, g.c)
    decreases e, 1
  {
    hide EmitNc, EmitElems, Spans;
    ExprPlaced(e, a, r, c);
    match e
    case Lit(l) => LitSpans(l, r, c);
    case ListLit(es) =>
      ElemsSpan(es, r, a + 1, r + 1, c);
      var g := EmitElems(es, r, a + 1, r + 1, c);
      ListSpans(g, r, c);
    case Variable(n) => LoadSpans(n, r, c);
    case Binary(op, x, y) =>
      var g := EmitExpr(x, a, r, c);
      ExprSpans(x, a, r, c);
      ExprSpans(y, a + |g.code|, g.r, g.c);
      BinarySpans(op, g, EmitExpr(y, a + |g.code|, g.r, g.c), r, c);
    case Short(isAnd, x, y) =>
      var g := EmitNc(x, a, r, c);
      NcSpans(x, a, r, c);
      NcSpans(y, a + |g.code| + 3, g.r + 1, g.c);
      ShortSpans(isAnd, g, EmitNc(y, a + |g.code| + 3, g.r + 1, g.c), a + |g.code| + 3, r, c);
    case Unary(isNot, x) =>
      NcSpans(x, a, r, c);
      UnarySpans(isNot, EmitNc(x, a, r, c), r, c);
    case Ternary(cond, t, f) => TernaryExprSpans(cond, t, f, a, r, c);
    case Set(n, x) =>
      ExprSpans(x, a, r, c);
      SetSpans(EmitExpr(x, a, r, c), n, r, c);
    case SetOp(op, n, x) =>
      ExprSpans(x, a + 1, r + 1, c);
      SetOpSpans(op, n, EmitExpr(x, a + 1, r + 1, c), r, c);
  }

  lemma {:induction false} LitSpans(l: Literal, r: nat, c: nat)
    ensures Spans([StoreLit(c, l)], None, r, r, c, c + 1)
  {}

  lemma {:induction false} LoadSpans(n: string, r: nat, c: nat)
    ensures Spans([M.Load(r, n)], None, r, r + 1, c, c)
  {}

  lemma {:induction false} ListSpans(g: Emitted, r: nat, c: nat)
    requires r + 1 <= g.r && c <= g.c && Spans(g.code, Some(r), r + 1, g.r, c, g.c)
    ensures Spans([M.BuildList(r)] + g.code, None, r, g.r, c, g.c)
  {
    hide Writes, WritesConst;
    assert Writes(M.BuildList(r)) == Some(r) && WritesConst(M.BuildList(r)) == None by { WritesWhat(M.BuildList(r)); NoConst(M.BuildList(r)); }
    var x := [M.BuildList(r)] + g.code;
    forall i | 0 <= i < |x|
      ensures !x[i].Switch? && (Writes(x[i]).Some? ==> r <= Writes(x[i]).value < g.r)
      ensures WritesConst(x[i]).Some? ==> c <= WritesConst(x[i]).value < g.c
    {
      if i > 0 { assert x[i] == g.code[i - 1]; }
    }
  }

  lemma {:induction false} NoConst(op: OpCode)
    requires Writes(op).Some?
    ensures WritesConst(op) == None
  {}

  lemma {:induction false} BinarySpans(op: BinOp, g: Gen, h: Gen, r: nat, c: nat)
    requires r <= g.r <= h.r && c <= g.c <= h.c && Spans(g.code, None, r, g.r, c, g.c) && Spans(h.code, None, g.r, h.r, g.c, h.c)
    ensures var b := BinaryGen(op, g, h); Spans(b.code, None, r, b.r, c, b.c)
  {
    var b := BinaryGen(op, g, h);
    var t := BinTail(op, g.rv, h.rv, h.r);
    assert Spans(t, None, h.r, b.r, c, b.c);
    hide Spans;
    SpansJoin(h.code, t, None, r, b.r, c, b.c, g.r, h.r, g.c, h.c, h.r, b.r, c, b.c);
    SpansAdd(g.code, h.code + t, None, r, b.r, c, b.c, r, g.r, c, g.c);
  }

  lemma {:induction false} UnarySpans(isNot: bool, g: Gen, r: nat, c: nat)
    requires r <= g.r && c <= g.c && Spans(g.code, None, r, g.r, c, g.c)
    ensures var u := UnaryGen(isNot, g); Spans(u.code, None, r, u.r, c, u.c)
  {
    var t := [if isNot then M.Not(g.r, g.rv.reg) else M.Neg(g.r, g.rv.reg)];
    assert Spans(t, None, r, g.r + 1, c, g.c);
    SpansAdd(g.code, t, None, r, g.r + 1, c, g.c, r, g.r, c, g.c);
  }

  lemma {:induction false} ShortSpans(isAnd: bool, g: Gen, h: Gen, a1: nat, r: nat, c: nat)
    requires r <= g.r && g.r + 1 <= h.r && c <= g.c <= h.c
    requires Spans(g.code, None, r, g.r, c, g.c) && Spans(h.code, None, g.r + 1, h.r, g.c, h.c)
    ensures var s := ShortGen(isAnd, g, h, a1); Spans(s.code, None, r, s.r, c, s.c)
  {
    var x := [M.Store(g.r, g.rv.reg), if isAnd then M.JmpIfTrue(g.rv.reg, a1) else M.JmpIfFalse(g.rv.reg, a1),
              M.Jmp(a1 + |h.code| + 1)];
    var y := [M.Store(g.r, h.rv.reg)];
    assert Spans(x, None, r, h.r, c, h.c) && Spans(y, None, r, h.r, c, h.c);
    hide Spans;
    SpansAdd(h.code, y, None, r, h.r, c, h.c, g.r + 1, h.r, g.c, h.c);
    SpansAdd(h.code + y, x, None, r, h.r, c, h.c, r, h.r, c, h.c);
    SpansAdd(g.code, x + (h.code + y), None, r, h.r, c, h.c, r, g.r, c, g.c);
  }

  lemma {:induction false} TernaryExprSpans(cond: Expr, t: Expr, f: Expr, a: nat, r: nat, c: nat)
    ensures var g := EmitExpr(Ternary(cond, t, f), a, r, c); r <= g.r && c <= g.c && Spans(g.code, None, r, g.r, c, g.c)
    decreases Ternary(cond, t, f), 0
  {
    hide EmitNc, EmitExpr, Spans, TernaryGen;
    UnfoldTernaryCode(cond, t, f, a, r, c);
    ExprPlaced(Ternary(cond, t, f), a, r, c);
    var g := EmitNc(cond, a, r, c);
    var h := EmitExpr(t, a + |g.code| + 1, g.r + 1, g.c);
    var a2 := a + |g.code| + 1 + |h.code| + 2;
    NcSpans(cond, a, r, c);
    ExprSpans(t, a + |g.code| + 1, g.r + 1, g.c);
    ExprSpans(f, a2, h.r, h.c);
    TernarySpans(g, h, EmitExpr(f, a2, h.r, h.c), a2, r, c);
  }

  lemma {:induction false} TernarySpans(g: Gen, h: Gen, k: Gen, a2: nat, r: nat, c: nat)
    requires r <= g.r && g.r + 1 <= h.r <= k.r && c <= g.c <= h.c <= k.c
    requires Spans(g.code, None, r, g.r, c, g.c) && Spans(h.code, None, g.r + 1, h.r, g.c, h.c) && Spans(k.code, None, h.r, k.r, h.c, k.c)
    ensures var t := TernaryGen(g, h, k, a2); Spans(t.code, None, r, t.r, c, t.c)
  {
    var x := [M.JmpIfFalse(g.rv.reg, a2)];
    var y := [Move(g.r, h.rv), M.Jmp(a2 + |k.code| + 1)];
    var z := [Move(g.r, k.rv)];
    assert Spans(x, None, r, k.r, c, k.c) && Spans(y, None, r, k.r, c, k.c) && Spans(z, None, r, k.r, c, k.c);
    hide Spans;
    SpansAdd(k.code, z, None, r, k.r, c, k.c, h.r, k.r, h.c, k.c);
    SpansAdd(y, k.code + z, None, r, k.r, c, k.c, r, k.r, c, k.c);
    SpansAdd(h.code, y + (k.code + z), None, r, k.r, c, k.c, g.r + 1, h.r, g.c, h.c);
    SpansAdd(x, h.code + (y + (k.code + z)), None, r, k.r, c, k.c, r, k.r, c, k.c);
    SpansAdd(g.code, x + (h.code + (y + (k.code + z))), None, r, k.r, c, k.c, r, g.r, c, g.c);
  }

  lemma {:induction false} SetSpans(g: Gen, n: string, r: nat, c: nat)
    requires r <= g.r && c <= g.c && Spans(g.code, None, r, g.r, c, g.c)
    ensures var s := SetGen(g, n); Spans(s.code, None, r, s.r, c, s.c)
  {
    var t := [Move(g.r, g.rv), M.StoreName(g.r, n)];
    assert Spans(t, None, r, g.r + 1, c, g.c);
    SpansAdd(g.code, t, None, r, g.r + 1, c, g.c, r, g.r, c, g.c);
  }

  lemma {:induction false} SetOpSpans(op: BinOp, n: string, g: Gen, r: nat, c: nat)
    requires r + 1 <= g.r && c <= g.c && Spans(g.code, None, r + 1, g.r, c, g.c)
    ensures var s := SetOpGen(op, n, r, g); Spans(s.code, None, r, s.r, c, s.c)
  {
    var x := [M.Load(r, n)];
    var y := [M.BinExpr(op, if g.rv.constant then M.RegConst else M.RegReg, r, r, g.rv.reg), M.StoreName(r, n)];
    assert Spans(x, None, r, g.r, c, g.c) && Spans(y, None, r, g.r, c, g.c);
    SpansAdd(g.code, y, None, r, g.r, c, g.c, r + 1, g.r, c, g.c);
    SpansAdd(x, g.code + y, None, r, g.r, c, g.c, r, g.r, c, g.c);
  }

  lemma {:induction false} NcSpans(e: Expr, a: nat, r: nat, c: nat)
    ensures var g := EmitNc(e, a, r, c); r <= g.r && c <= g.c && Spans(g.code, None, r, g.r, c, g.c)
    decreases e, 2
  {
    hide EmitExpr;
    ExprSpans(e, a, r, c);
    var g := EmitExpr(e, a, r, c);
    if g.rv.constant {
      assert Spans([M.StoreConst(g.r, g.rv.reg)], None, r, g.r + 1, c, g.c);
      hide Spans;
      SpansAdd(g.code, [M.StoreConst(g.r, g.rv.reg)], None, r, g.r + 1, c, g.c, r, g.r, c, g.c);
    }
  }

  lemma {:induction false} PushSpans(list: nat, rv: RegValue, r: nat, hi: nat, c: nat, hic: nat)
    ensures Spans([PushTo(list, rv)], Some(list), r, hi, c, hic)
  {}

  lemma {:induction false} NothingSpans(list: Option<nat>, r: nat, c: nat)
    ensures Spans([], list, r, r, c, c)
  {}

  lemma {:induction false} ElemsSpan(es: List<Expr>, list: nat, a: nat, r: nat, c: nat)
    ensures var g := EmitElems(es, list, a, r, c); r <= g.r && c <= g.c && Spans(g.code, Some(list), r, g.r, c, g.c)
    decreases es, 0
  {
    hide *;
    match es
    case Empty =>
      NoElems(list, a, r, c);
      NothingSpans(Some(list), r, c);
    case Cons(e, rest) =>
      UnfoldElems(e, rest, list, a, r, c);
      var g := EmitExpr(e, a, r, c);
      var h := EmitElems(rest, list, a + |g.code| + 1, g.r, g.c);
      ExprSpans(e, a, r, c);
      ElemsSpan(rest, list, a + |g.code| + 1, g.r, g.c);
      var x := [PushTo(list, g.rv)];
      PushSpans(list, g.rv, r, h.r, c, h.c);
      SpansAny(g.code, Some(list), r, g.r, c, g.c);
      SpansAdd(h.code, x, Some(list), r, h.r, c, h.c, g.r, h.r, g.c, h.c);
      SpansAdd(g.code, x + h.code, Some(list), r, h.r, c, h.c, r, g.r, c, g.c);
  }

  // ----- generated code: statements -----

  /** All addresses the generator gives to switches are at most `at`. */
  predicate StmtBelow(s: Stmt, a: nat, r: nat, c: nat, at: nat)
    decreases s
  {
    match s
    case If(cond, body, orelse) =>
      var g := EmitNc(cond, a, r, c);
      var h := EmitBlock(body, a + |g.code| + 1, g.r, g.c);
      && BlockBelow(body, a + |g.code| + 1, g.r, g.c, at)
      && (match orelse
          case None => true
          case Some(b) => BlockBelow(b, a + |g.code| + 1 + |h.code| + 1, h.r, h.c, at))
    case Switch(cond, cs) =>
      var g := EmitNc(cond, a, r, c);
      var v := EmitCaseValues(cs, g.r, a + |g.code| + 1, g.r + 2, g.c);
      var a3 := a + |g.code| + 1 + |v.code| + 1 + 2 * NumValues(cs) + 1;
      var c3 := v.c + NumValues(cs);
      var end := a3 + |EmitBodies(cs, a3, v.r, c3, 0).code|;
      && DefaultAddr(cs, a3, v.r, c3, end) <= at && AllAtMost(CaseAddrs(cs, a3, v.r, c3), at)
      && BodiesBelow(cs, a3, v.r, c3, at)
    case While(cond, body) =>
      var g := EmitNc(cond, a + 1, r, c);
      BlockBelow(body, a + 1 + |g.code| + 1, g.r, g.c, at)
    case DoWhile(body, _) => BlockBelow(body, a + 1, r, c, at)
    case For(_, _, coll, body) =>
      var g := EmitNc(coll, a + 2, r + 1, c + 1);
      BlockBelow(body, a + 2 + |g.code| + 2 + 2, g.r + 1, g.c, at)
    case _ => true
  }

  predicate BlockBelow(b: List<Stmt>, a: nat, r: nat, c: nat, at: nat)
    decreases b
  {
    match b
    case Empty => true
    case Cons(s, rest) =>
      var g := EmitStmt(s, a, r, c);
      StmtBelow(s, a, r, c, at) && BlockBelow(rest, a + |g.code|, g.r, g.c, at)
  }

  predicate BodiesBelow(cs: List<Case>, a: nat, r: nat, c: nat, at: nat)
    decreases cs
  {
    match cs
    case Empty => true
    case Cons(k, rest) =>
      var g := EmitBlock(k.body, a, r, c);
      BlockBelow(k.body, a, r, c, at) && BodiesBelow(rest, a + |g.code| + 1, g.r, g.c, at)
  }

  predicate AllAtMost(xs: seq<nat>, at: nat) {
    forall i :: 0 <= i < |xs| ==> xs[i] <= at
  }

  /** The registers and constants that some code writes, and which of them are address lists and
      constants for them. */
  datatype Region = Region(r: nat, hi: nat, c: nat, hic: nat, lists: set<nat>, addrs: set<nat>)

  ghost predicate Within(s: Region) {
    && s.r <= s.hi && s.c <= s.hic
    && (forall q :: q in s.lists ==> s.r <= q < s.hi) && (forall k :: k in s.addrs ==> s.c <= k < s.hic)
  }

  predicate OpFits(op: OpCode, s: Region, at: nat) {
    && (op.Switch? ==> op.addrs in s.lists && op.defaultAddr <= at)
    && (Writes(op).Some? ==> s.r <= Writes(op).value < s.hi)
    && (Writes(op).Some? && Writes(op).value in s.lists ==> op.BuildList? || (op.ListPushConst? && op.csrc in s.addrs))
    && (WritesConst(op).Some? ==> s.c <= WritesConst(op).value < s.hic)
    && (WritesConst(op).Some? && WritesConst(op).value in s.addrs ==> op.StoreIntConst? && 0 <= op.i <= at)
  }

  ghost predicate Fits(code: Code, s: Region, at: nat) {
    forall i :: 0 <= i < |code| ==> OpFits(code[i], s, at)
  }

  lemma {:induction false} FitsJoin(x: Code, y: Code, s: Region, at: nat)
    requires Fits(x, s, at) && Fits(y, s, at)
    ensures Fits(x + y, s, at)
  {
    hide OpFits;
    forall i | 0 <= i < |x + y| ensures OpFits((x + y)[i], s, at) {
      assert (x + y)[i] == if i < |x| then x[i] else y[i - |x|];
    }
  }

  /** `small` is the part of `s` between its bounds. */
  ghost predicate Inside(small: Region, s: Region) {
    && s.r <= small.r && small.hi <= s.hi && s.c <= small.c && small.hic <= s.hic
    && small.lists <= s.lists && small.addrs <= s.addrs
    && (forall q :: q in s.lists && small.r <= q < small.hi ==> q in small.lists)
    && (forall k :: k in s.addrs && small.c <= k < small.hic ==> k in small.addrs)
  }

  lemma {:induction false} FitsInside(code: Code, small: Region, s: Region, at: nat)
    requires Fits(code, small, at) && Inside(small, s)
    ensures Fits(code, s, at)
  {
    hide Writes, WritesConst;
  }

  function Bare(r: nat, hi: nat, c: nat, hic: nat): Region {
    Region(r, hi, c, hic, {}, {})
  }

  /** Code without switches. */
  lemma {:induction false} FitsSpans(code: Code, list: Option<nat>, r: nat, hi: nat, c: nat, hic: nat, s: Region, at: nat)
    requires Spans(code, list, r, hi, c, hic) && Inside(Bare(r, hi, c, hic), s)
    requires list.Some? ==> s.r <= list.value < s.hi && list.value !in s.lists
    ensures Fits(code, s, at)
  {
    hide Writes, WritesConst;
  }

  predicate WritesNothing(code: Code) {
    forall i :: 0 <= i < |code| ==> Writes(code[i]).None? && WritesConst(code[i]).None? && !code[i].Switch?
  }

  lemma {:induction false} FitsNothing(code: Code, s: Region, at: nat)
    requires WritesNothing(code)
    ensures Fits(code, s, at)
  {}

  lemma {:induction false} FitsPatch(code: Code, brk: nat, cont: nat, s: Region, at: nat)
    requires Fits(code, s, at)
    ensures Fits(Patch(code, brk, cont), s, at)
  {
    hide OpFits;
    forall i | 0 <= i < |code| ensures OpFits(Patch(code, brk, cont)[i], s, at) {
      PatchOpFits(code[i], brk, cont, s, at);
    }
  }

  lemma {:induction false} PatchOpFits(op: OpCode, brk: nat, cont: nat, s: Region, at: nat)
    requires OpFits(op, s, at)
    ensures OpFits(PatchOp(op, brk, cont), s, at)
  {}

  /** What the code of a statement or block is shown to be. */
  ghost predicate Part(g: Emitted, r: nat, c: nat, s: Region, at: nat) {
    s.r == r && s.c == c && s.hi == g.r && s.hic == g.c && Within(s) && Fits(g.code, s, at)
  }

  lemma {:induction false} StmtPart(s: Stmt, a: nat, r: nat, c: nat, at: nat) returns (w: Region)
    requires StmtBelow(s, a, r, c, at)
    ensures Part(EmitStmt(s, a, r, c), r, c, w, at)
    decreases s, 1
  {
    hide EmitExpr, EmitNc, EmitBlock, Fits, Spans, Patch, BlockBelow;
    var g := EmitStmt(s, a, r, c);
    w := Bare(r, g.r, c, g.c);
    match s
    case ExprStmt(e) =>
      ExprSpans(e, a, r, c);
      OutputSpans(EmitExpr(e, a, r, c), r, c);
      FitsSpans(g.code, None, r, g.r, c, g.c, w, at);
    case SilentStmt(e) =>
      ExprSpans(e, a, r, c);
      FitsSpans(g.code, None, r, g.r, c, g.c, w, at);
    case If(cond, body, orelse) => w := IfPart(s, a, r, c, at);
    case Switch(cond, cs) => w := SwitchPart(s, a, r, c, at);
    case While(cond, body) => w := WhilePart(s, a, r, c, at);
    case DoWhile(body, cond) => w := DoWhilePart(s, a, r, c, at);
    case For(_, n, coll, body) => w := ForPart(s, a, r, c, at);
    case Break => FitsNothing([M.BreakTo(0, M.UnsetBreak)], w, at);
    case Continue => FitsNothing([M.BreakTo(0, M.UnsetContinue)], w, at);
    case Assert(cond, msg, line) => AssertPart(s, a, r, c, at);
    case Raise(e) =>
      NcSpans(e, a, r, c);
      var h := EmitNc(e, a, r, c);
      FitsSpans(h.code, None, r, h.r, c, h.c, w, at);
      FitsNothing([M.Raise(h.rv.reg)], w, at);
      FitsJoin(h.code, [M.Raise(h.rv.reg)], w, at);
  }

  lemma {:induction false} OutputSpans(g: Gen, r: nat, c: nat)
    requires r <= g.r && c <= g.c && Spans(g.code, None, r, g.r, c, g.c)
    ensures var o := OutputGen(g); r <= o.r && c <= o.c && Spans(o.code, None, r, o.r, c, o.c)
  {
    var x, y := [M.StoreConst(g.r, g.rv.reg), M.Output(g.r)], [M.Output(g.rv.reg)];
    assert Spans(x, None, r, g.r + 1, c, g.c) && Spans(y, None, r, g.r, c, g.c);
    hide Spans;
    SpansAdd(g.code, x, None, r, g.r + 1, c, g.c, r, g.r, c, g.c);
    SpansAdd(g.code, y, None, r, g.r, c, g.c, r, g.r, c, g.c);
  }

  /** Two regions side by side. */
  function Both(s: Region, t: Region): Region {
    Region(s.r, t.hi, s.c, t.hic, s.lists + t.lists, s.addrs + t.addrs)
  }

  lemma {:induction false} BothInside(s: Region, t: Region)
    requires Within(s) && Within(t) && s.hi <= t.r && s.hic <= t.c
    ensures Within(Both(s, t)) && Inside(s, Both(s, t)) && Inside(t, Both(s, t))
  {}

  /** A region with more registers below and above. */
  function Wider(s: Region, r: nat, hi: nat, c: nat, hic: nat): Region {
    Region(r, hi, c, hic, s.lists, s.addrs)
  }

  lemma {:induction false} WiderInside(s: Region, r: nat, hi: nat, c: nat, hic: nat)
    requires Within(s) && r <= s.r && s.hi <= hi && c <= s.c && s.hic <= hic
    ensures var w := Wider(s, r, hi, c, hic);
            && Within(w) && Inside(s, w)
            && (forall h, k :: r <= h <= s.r && c <= k <= s.c ==> Inside(Bare(r, h, c, k), w))
            && (forall h, k :: s.hi <= h <= hi && s.hic <= k <= hic ==> Inside(Bare(h, hi, k, hic), w))
  {}

  lemma {:induction false} IfPart(s: Stmt, a: nat, r: nat, c: nat, at: nat) returns (w: Region)
    requires s.If? && StmtBelow(s, a, r, c, at)
    ensures Part(EmitStmt(s, a, r, c), r, c, w, at)
    decreases s, 0
  {
    hide EmitNc, EmitBlock, Fits, Spans, BlockBelow, Within, Inside;
    var g := EmitNc(s.cond, a, r, c);
    var a1 := a + |g.code| + 1;
    var h := EmitBlock(s.body, a1, g.r, g.c);
    var a2 := a1 + |h.code|;
    NcSpans(s.cond, a, r, c);
    var inner := BlockPart(s.body, a1, g.r, g.c, at);
    UnfoldIf(s, a, r, c);
    if s.orelse.None? {
      w := Wider(inner, r, h.r, c, h.c);
      WithinOrder(inner);
      WiderInside(inner, r, h.r, c, h.c);
      FitsInside(h.code, inner, w, at);
      FitsNothing([M.JmpIfFalse(g.rv.reg, a2)], w, at);
      FitsJoin([M.JmpIfFalse(g.rv.reg, a2)], h.code, w, at);
      FitsSpans(g.code, None, r, g.r, c, g.c, w, at);
      FitsJoin(g.code, [M.JmpIfFalse(g.rv.reg, a2)] + h.code, w, at);
    } else {
      var k := EmitBlock(s.orelse.value, a2 + 1, h.r, h.c);
      var other := BlockPart(s.orelse.value, a2 + 1, h.r, h.c, at);
      var both := Both(inner, other);
      w := Wider(both, r, k.r, c, k.c);
      BothInside(inner, other);
      WiderInside(both, r, k.r, c, k.c);
      FitsInside(h.code, inner, both, at);
      FitsInside(k.code, other, both, at);
      var x, y := [M.JmpIfFalse(g.rv.reg, a2 + 1)], [M.Jmp(a2 + 1 + |k.code|)];
      FitsNothing(x, w, at);
      FitsNothing(y, both, at);
      FitsJoin(y, k.code, both, at);
      FitsJoin(h.code, y + k.code, both, at);
      FitsInside(h.code + (y + k.code), both, w, at);
      FitsJoin(x, h.code + (y + k.code), w, at);
      WithinOrder(inner);
      FitsSpans(g.code, None, r, g.r, c, g.c, w, at);
      FitsJoin(g.code, x + (h.code + (y + k.code)), w, at);
    }
  }

  lemma {:induction false} WithinOrder(s: Region)
    requires Within(s)
    ensures s.r <= s.hi && s.c <= s.hic
  {}

  lemma {:induction false} WhilePart(s: Stmt, a: nat, r: nat, c: nat, at: nat) returns (w: Region)
    requires s.While? && StmtBelow(s, a, r, c, at)
    ensures Part(EmitStmt(s, a, r, c), r, c, w, at)
    decreases s, 0
  {
    hide EmitNc, EmitBlock, Fits, Spans, BlockBelow, Within, Inside, Patch;
    var g := EmitNc(s.cond, a + 1, r, c);
    var a1 := a + 1 + |g.code| + 1;
    var h := EmitBlock(s.body, a1, g.r, g.c);
    var end := a1 + |h.code| + 1;
    NcSpans(s.cond, a + 1, r, c);
    var inner := BlockPart(s.body, a1, g.r, g.c, at);
    w := Wider(inner, r, h.r, c, h.c);
    WithinOrder(inner);
    WiderInside(inner, r, h.r, c, h.c);
    var x := [M.JmpIfFalse(g.rv.reg, end)];
    FitsInside(h.code, inner, w, at);
    FitsNothing(x, w, at);
    FitsJoin(x, h.code, w, at);
    FitsSpans(g.code, None, r, g.r, c, g.c, w, at);
    FitsJoin(g.code, x + h.code, w, at);
    FitsLoop([M.LoopBegin], g.code + (x + h.code), end, a + 1, [M.Jmp(a + 1), M.LoopEnd], w, at);
  }

  /** A loop around code that fits. */
  lemma {:induction false} FitsLoop(x: Code, inner: Code, brk: nat, cont: nat, y: Code, w: Region, at: nat)
    requires Fits(inner, w, at) && WritesNothing(x) && WritesNothing(y)
    ensures Fits(x + (Patch(inner, brk, cont) + y), w, at)
  {
    hide Fits;
    FitsPatch(inner, brk, cont, w, at);
    FitsNothing(x, w, at);
    FitsNothing(y, w, at);
    FitsJoin(Patch(inner, brk, cont), y, w, at);
    FitsJoin(x, Patch(inner, brk, cont) + y, w, at);
  }

  lemma {:induction false} DoWhilePart(s: Stmt, a: nat, r: nat, c: nat, at: nat) returns (w: Region)
    requires s.DoWhile? && StmtBelow(s, a, r, c, at)
    ensures Part(EmitStmt(s, a, r, c), r, c, w, at)
    decreases s, 0
  {
    hide EmitNc, EmitBlock, Fits, Spans, BlockBelow, Within, Inside, Patch;
    var h := EmitBlock(s.body, a + 1, r, c);
    var a1 := a + 1 + |h.code|;
    var g := EmitNc(s.cond, a1, h.r, h.c);
    var end := a1 + |g.code| + 1;
    NcSpans(s.cond, a1, h.r, h.c);
    var inner := BlockPart(s.body, a + 1, r, c, at);
    w := Wider(inner, r, g.r, c, g.c);
    WithinOrder(inner);
    WiderInside(inner, r, g.r, c, g.c);
    FitsInside(h.code, inner, w, at);
    FitsSpans(g.code, None, h.r, g.r, h.c, g.c, w, at);
    FitsJoin(h.code, g.code, w, at);
    FitsLoop([M.LoopBegin], h.code + g.code, end, a1, [M.JmpIfTrue(g.rv.reg, a + 1), M.LoopEnd], w, at);
  }

  lemma {:induction false} ForPart(s: Stmt, a: nat, r: nat, c: nat, at: nat) returns (w: Region)
    requires s.For? && StmtBelow(s, a, r, c, at)
    ensures Part(EmitStmt(s, a, r, c), r, c, w, at)
    decreases s, 0
  {
    hide EmitNc, EmitBlock, Fits, Spans, BlockBelow, Within, Inside, Patch;
    var g := EmitNc(s.collection, a + 2, r + 1, c + 1);
    var head := a + 2 + |g.code| + 2;
    var h := EmitBlock(s.body, head + 2, g.r + 1, g.c);
    var end := head + 2 + |h.code| + 1;
    NcSpans(s.collection, a + 2, r + 1, c + 1);
    var inner := BlockPart(s.body, head + 2, g.r + 1, g.c, at);
    w := Wider(inner, r, h.r, c, h.c);
    WithinOrder(inner);
    WiderInside(inner, r, h.r, c, h.c);
    var x := [M.StoreNilConst(c), M.StoreConst(r, c)];
    var y := [M.For(r, g.r, end), M.StoreName(r, s.name)];
    var z := [M.LoopBegin, M.Iter(g.r, g.rv.reg)];
    ForHeadSpans(r, c, g, end, s.name);
    SpansWiden(g.code, None, r, g.r, c, g.c, r + 1, g.r, c + 1, g.c);
    FitsSpans(x, None, r, r + 1, c, c + 1, w, at);
    FitsSpans(y, None, r, r + 1, c, c, w, at);
    FitsSpans(g.code, None, r, g.r, c, g.c, w, at);
    FitsInside(h.code, inner, w, at);
    FitsJoin(y, h.code, w, at);
    FitsLoop(z, y + h.code, end, head, [M.Jmp(head), M.LoopEnd], w, at);
    var loop := z + (Patch(y + h.code, end, head) + [M.Jmp(head), M.LoopEnd]);
    FitsJoin(g.code, loop, w, at);
    FitsJoin(x, g.code + loop, w, at);
  }

  lemma {:induction false} ForHeadSpans(r: nat, c: nat, g: Gen, end: nat, n: string)
    ensures Spans([M.StoreNilConst(c), M.StoreConst(r, c)], None, r, r + 1, c, c + 1)
    ensures Spans([M.For(r, g.r, end), M.StoreName(r, n)], None, r, r + 1, c, c)
  {}

  lemma {:induction false} AssertPart(s: Stmt, a: nat, r: nat, c: nat, at: nat)
    requires s.Assert?
    ensures var g := EmitStmt(s, a, r, c); Part(g, r, c, Bare(r, g.r, c, g.c), at)
  {
    hide EmitNc, Fits, Spans;
    var g := EmitNc(s.cond, a, r, c);
    var h := if s.msg.Some? then EmitNc(s.msg.value, a + |g.code| + 1, g.r, g.c + 1) else NoMessage(g.r, g.c + 1);
    NcSpans(s.cond, a, r, c);
    if s.msg.Some? {
      NcSpans(s.msg.value, a + |g.code| + 1, g.r, g.c + 1);
    } else {
      MessageSpans(g.r, g.c + 1);
    }
    var w := Bare(r, h.r, c, h.c);
    var x, y := [M.StoreIntConst(g.c, s.line)], [M.Assert(g.rv.reg, g.c, h.rv.reg)];
    LineSpans(r, g.c, s.line);
    FitsSpans(h.code, None, g.r, h.r, g.c + 1, h.c, w, at);
    FitsNothing(y, w, at);
    FitsJoin(h.code, y, w, at);
    FitsSpans(x, None, r, r, g.c, g.c + 1, w, at);
    FitsJoin(x, h.code + y, w, at);
    FitsSpans(g.code, None, r, g.r, c, g.c, w, at);
    FitsJoin(g.code, x + (h.code + y), w, at);
  }

  lemma {:induction false} LineSpans(r: nat, c: nat, line: int)
    ensures Spans([M.StoreIntConst(c, line)], None, r, r, c, c + 1)
  {}

  lemma {:induction false} MessageSpans(r: nat, c: nat)
    ensures Spans(NoMessage(r, c).code, None, r, r + 1, c, c + 1)
  {}

  lemma {:induction false} UnfoldBlock(s: Stmt, rest: List<Stmt>, a: nat, r: nat, c: nat, at: nat)
    ensures var g := EmitStmt(s, a, r, c);
            var h := EmitBlock(rest, a + |g.code|, g.r, g.c);
            && EmitBlock(Cons(s, rest), a, r, c) == Emitted(g.code + h.code, h.r, h.c)
            && (BlockBelow(Cons(s, rest), a, r, c, at) <==>
                  StmtBelow(s, a, r, c, at) && BlockBelow(rest, a + |g.code|, g.r, g.c, at))
  {
    hide EmitStmt, StmtBelow;
  }

  lemma {:induction false} UnfoldBodies(k: Case, rest: List<Case>, a: nat, r: nat, c: nat, end: nat, at: nat)
    ensures var g := EmitBlock(k.body, a, r, c);
            var h := EmitBodies(rest, a + |g.code| + 1, g.r, g.c, end);
            && EmitBodies(Cons(k, rest), a, r, c, end) == Emitted(g.code + ([M.Jmp(end)] + h.code), h.r, h.c)
            && (BodiesBelow(Cons(k, rest), a, r, c, at) <==>
                  BlockBelow(k.body, a, r, c, at) && BodiesBelow(rest, a + |g.code| + 1, g.r, g.c, at))
  {
    hide EmitBlock, BlockBelow;
  }

  lemma {:induction false} PartBounds(g: Emitted, r: nat, c: nat, s: Region, at: nat)
    ensures Part(g, r, c, s, at) <==> s.r == r && s.c == c && s.hi == g.r && s.hic == g.c && Within(s) && Fits(g.code, s, at)
  {}

  lemma {:induction false} NothingPart(r: nat, c: nat, at: nat)
    ensures Part(Emitted([], r, c), r, c, Bare(r, r, c, c), at)
  {}

  /** A part and what follows it. */
  lemma {:induction false} PartJoin(g: Emitted, mid: Code, h: Emitted, r: nat, c: nat, x: Region, y: Region, at: nat) returns (w: Region)
    requires Part(g, r, c, x, at) && WritesNothing(mid) && Part(h, g.r, g.c, y, at)
    ensures Part(Emitted(g.code + (mid + h.code), h.r, h.c), r, c, w, at)
  {
    hide *;
    PartBounds(g, r, c, x, at);
    PartBounds(h, g.r, g.c, y, at);
    w := Both(x, y);
    BothInside(x, y);
    BothBounds(x, y);
    FitsInside(g.code, x, w, at);
    FitsInside(h.code, y, w, at);
    FitsNothing(mid, w, at);
    FitsJoin(mid, h.code, w, at);
    FitsJoin(g.code, mid + h.code, w, at);
    PartBounds(Emitted(g.code + (mid + h.code), h.r, h.c), r, c, w, at);
  }

  lemma {:induction false} BothBounds(s: Region, t: Region)
    ensures Both(s, t).r == s.r && Both(s, t).hi == t.hi && Both(s, t).c == s.c && Both(s, t).hic == t.hic
  {}

  lemma {:induction false} BlockPart(b: List<Stmt>, a: nat, r: nat, c: nat, at: nat) returns (w: Region)
    requires BlockBelow(b, a, r, c, at)
    ensures Part(EmitBlock(b, a, r, c), r, c, w, at)
    decreases b, 0
  {
    hide *;
    match b
    case Empty =>
      w := Bare(r, r, c, c);
      NoStmts(a, r, c);
      NothingPart(r, c, at);
    case Cons(s, rest) =>
      UnfoldBlock(s, rest, a, r, c, at);
      var g := EmitStmt(s, a, r, c);
      var h := EmitBlock(rest, a + |g.code|, g.r, g.c);
      var x := StmtPart(s, a, r, c, at);
      var y := BlockPart(rest, a + |g.code|, g.r, g.c, at);
      JumpsWriteNothing(0);
      w := PartJoin(g, [], h, r, c, x, y, at);
      assert [] + h.code == h.code;
  }

  lemma {:induction false} NoStmts(a: nat, r: nat, c: nat)
    ensures EmitBlock(Empty, a, r, c) == Emitted([], r, c)
  {}

  lemma {:induction false} NoBodies(a: nat, r: nat, c: nat, end: nat)
    ensures EmitBodies(Empty, a, r, c, end) == Emitted([], r, c)
  {}

  lemma {:induction false} JumpsWriteNothing(end: nat)
    ensures WritesNothing([]) && WritesNothing([M.Jmp(end)])
  {}

  lemma {:induction false} BodiesPart(cs: List<Case>, a: nat, r: nat, c: nat, end: nat, at: nat) returns (w: Region)
    requires BodiesBelow(cs, a, r, c, at)
    ensures Part(EmitBodies(cs, a, r, c, end), r, c, w, at)
    decreases cs, 0
  {
    hide *;
    match cs
    case Empty =>
      w := Bare(r, r, c, c);
      NoBodies(a, r, c, end);
      NothingPart(r, c, at);
    case Cons(k, rest) =>
      UnfoldBodies(k, rest, a, r, c, end, at);
      var g := EmitBlock(k.body, a, r, c);
      var h := EmitBodies(rest, a + |g.code| + 1, g.r, g.c, end);
      var x := BlockPart(k.body, a, r, c, at);
      var y := BodiesPart(rest, a + |g.code| + 1, g.r, g.c, end, at);
      JumpsWriteNothing(end);
      w := PartJoin(g, [M.Jmp(end)], h, r, c, x, y, at);
  }

  // ----- generated code: switches -----

  lemma {:induction false} ValuesSpan(cs: List<Case>, list: nat, a: nat, r: nat, c: nat)
    ensures var g := EmitCaseValues(cs, list, a, r, c); r <= g.r && c <= g.c && Spans(g.code, Some(list), r, g.r, c, g.c)
    decreases cs
  {
    match cs
    case Empty => NothingSpans(Some(list), r, c);
    case Cons(Default(_), rest) => ValuesSpan(rest, list, a, r, c);
    case Cons(Case(es, _), rest) =>
      hide EmitElems, Spans;
      var g := EmitElems(es, list, a, r, c);
      var h := EmitCaseValues(rest, list, a + |g.code|, g.r, g.c);
      ElemsSpan(es, list, a, r, c);
      ValuesSpan(rest, list, a + |g.code|, g.r, g.c);
      SpansJoin(g.code, h.code, Some(list), r, h.r, c, h.c, r, g.r, c, g.c, g.r, h.r, g.c, h.c);
  }

  /** The table of a switch writes low addresses to its own constants and list. */
  lemma {:induction false} TableFits(addrs: seq<nat>, list: nat, c: nat, w: Region, at: nat)
    requires AllAtMost(addrs, at) && list in w.lists && w.r <= list < w.hi && w.c <= c && c + |addrs| <= w.hic
    requires forall k :: c <= k < c + |addrs| ==> k in w.addrs
    ensures Fits(Table(addrs, list, c), w, at)
    decreases |addrs|
  {
    if addrs != [] {
      var x := [M.StoreIntConst(c, addrs[0]), M.ListPushConst(list, c)];
      assert c in w.addrs;
      assert Fits(x, w, at);
      hide Fits;
      TableFits(addrs[1..], list, c + 1, w, at);
      FitsJoin(x, Table(addrs[1..], list, c + 1), w, at);
    }
  }

  function Numbers(lo: nat, n: nat): (s: set<nat>)
    ensures forall k :: k in s <==> lo <= k < lo + n
  {
    if n == 0 then {} else Numbers(lo, n - 1) + {lo + n - 1}
  }

  /** The region of a switch: its list and constants, and those of its bodies. */
  function SwitchRegion(r: nat, c: nat, list: nat, lo: nat, n: nat, bodies: Region): Region {
    Region(r, bodies.hi, c, bodies.hic, {list} + bodies.lists, Numbers(lo, n) + bodies.addrs)
  }

  lemma {:induction false} SwitchInside(r: nat, c: nat, list: nat, lo: nat, n: nat, bodies: Region)
    requires Within(bodies) && r <= list < bodies.r && c <= lo && lo + n <= bodies.c
    ensures var w := SwitchRegion(r, c, list, lo, n, bodies);
            && Within(w) && Inside(bodies, w) && list in w.lists && (forall k :: lo <= k < lo + n ==> k in w.addrs)
            && Inside(Bare(r, list, c, lo), w) && Inside(Bare(list + 1, bodies.r, c, lo), w)
            && (forall q :: r <= q < bodies.r && q != list ==> q !in w.lists)
            && w.r == r && w.c == c && w.hi == bodies.hi && w.hic == bodies.hic
  {}

  lemma {:induction false} SwitchPart(s: Stmt, a: nat, r: nat, c: nat, at: nat) returns (w: Region)
    requires s.Switch? && StmtBelow(s, a, r, c, at)
    ensures Part(EmitStmt(s, a, r, c), r, c, w, at)
    decreases s, 0
  {
    hide EmitNc, EmitCaseValues, EmitBodies, CaseAddrs, DefaultAddr, Table, NumValues, Fits, Spans, Within, Inside,
      BodiesBelow, AllAtMost, SwitchRegion;
    var g := EmitNc(s.cond, a, r, c);
    var a1 := a + |g.code| + 1;
    var v := EmitCaseValues(s.cases, g.r, a1, g.r + 2, g.c);
    var a3 := a1 + |v.code| + 1 + 2 * NumValues(s.cases) + 1;
    var c3 := v.c + NumValues(s.cases);
    var end := a3 + |EmitBodies(s.cases, a3, v.r, c3, 0).code|;
    var b := EmitBodies(s.cases, a3, v.r, c3, end);
    var addrs := CaseAddrs(s.cases, a3, v.r, c3);
    var d := DefaultAddr(s.cases, a3, v.r, c3, end);
    CaseAddrsLength(s.cases, a3, v.r, c3);
    NcSpans(s.cond, a, r, c);
    ValuesSpan(s.cases, g.r, a1, g.r + 2, g.c);
    var bodies := BodiesPart(s.cases, a3, v.r, c3, end, at);
    w := SwitchRegion(r, c, g.r + 1, v.c, NumValues(s.cases), bodies);
    SwitchInside(r, c, g.r + 1, v.c, NumValues(s.cases), bodies);
    WithinOrder(bodies);
    FitsInside(b.code, bodies, w, at);
    TableFits(addrs, g.r + 1, v.c, w, at);
    var table := Table(addrs, g.r + 1, v.c);
    SwitchOps(g, d, w, at);
    BareInside(r, g.r + 1, c, v.c, r, g.r, c, g.c, w);
    BareInside(g.r + 2, v.r, c, v.c, g.r + 2, v.r, g.c, v.c, w);
    FitsSpans(g.code, None, r, g.r, c, g.c, w, at);
    FitsSpans(v.code, Some(g.r), g.r + 2, v.r, g.c, v.c, w, at);
    var x, y, z := [M.BuildList(g.r)], [M.BuildList(g.r + 1)], [M.Switch(g.rv.reg, g.r, g.r + 1, d)];
    FitsJoin(z, b.code, w, at);
    FitsJoin(table, z + b.code, w, at);
    FitsJoin(y, table + (z + b.code), w, at);
    FitsJoin(v.code, y + (table + (z + b.code)), w, at);
    FitsJoin(x, v.code + (y + (table + (z + b.code))), w, at);
    FitsJoin(g.code, x + (v.code + (y + (table + (z + b.code)))), w, at);
  }

  lemma {:induction false} SwitchOps(g: Gen, d: nat, w: Region, at: nat)
    requires d <= at && g.r + 1 in w.lists && w.r <= g.r && g.r + 1 < w.hi && g.r !in w.lists
    ensures Fits([M.BuildList(g.r)], w, at) && Fits([M.BuildList(g.r + 1)], w, at)
    ensures Fits([M.Switch(g.rv.reg, g.r, g.r + 1, d)], w, at)
  {}

  lemma {:induction false} BareInside(r: nat, hi: nat, c: nat, hic: nat, r1: nat, hi1: nat, c1: nat, hic1: nat, w: Region)
    requires Inside(Bare(r, hi, c, hic), w) && r <= r1 && hi1 <= hi && c <= c1 && hic1 <= hic
    ensures Inside(Bare(r1, hi1, c1, hic1), w)
  {}

  // ----- modules -----

  lemma {:induction false} FitsBelow(P: Code, w: Region, at: nat)
    requires Fits(P, w, at)
    ensures SwitchesBelow(P, at)
    ensures forall q :: AddressList(P, q) ==> q in w.lists
    ensures forall c :: Address(P, c) ==> c in w.addrs
  {
    forall q | AddressList(P, q) ensures q in w.lists {
      var i :| 0 <= i < |P| && P[i].Switch? && P[i].addrs == q;
      assert OpFits(P[i], w, at);
    }
    forall c | Address(P, c) ensures c in w.addrs {
      var i :| 0 <= i < |P| && P[i].ListPushConst? && P[i].csrc == c && AddressList(P, P[i].dst);
      assert OpFits(P[i], w, at);
    }
    forall i | 0 <= i < |P|
      ensures P[i].Switch? ==> P[i].defaultAddr <= at
      ensures Writes(P[i]).Some? && AddressList(P, Writes(P[i]).value) ==> P[i].BuildList? || P[i].ListPushConst?
      ensures WritesConst(P[i]).Some? && Address(P, WritesConst(P[i]).value) ==> P[i].StoreIntConst? && 0 <= P[i].i <= at
    {
      assert OpFits(P[i], w, at);
    }
  }

  /** In a generated module the condition is about the addresses the generator computes: they are at most
      `at`. The registers of a fresh frame hold no address lists yet. */
  lemma {:induction false} ModuleBelow(b: List<Stmt>, at: nat, m: VM)
    requires BlockBelow(b, 0, RESERVED_REGS, RESERVED_CREGS, at)
    requires (forall q :: q in m.regs ==> q < RESERVED_REGS) && (forall c :: c in m.cregs ==> c < RESERVED_CREGS)
    ensures SwitchesBelow(EmitModule(b), at) && HoldsLow(EmitModule(b), m, at)
  {
    hide EmitBlock, BlockBelow, SwitchesBelow, OpFits, AddressList, Address, LowList, LowInt;
    var code := EmitBlock(b, 0, RESERVED_REGS, RESERVED_CREGS).code;
    var w := BlockPart(b, 0, RESERVED_REGS, RESERVED_CREGS, at);
    FitsEnd(w, at);
    FitsJoin(code, [M.End], w, at);
    FitsBelow(EmitModule(b), w, at);
  }

  lemma {:induction false} FitsEnd(w: Region, at: nat)
    ensures Fits([M.End], w, at)
  {}

  /** Inserting an opcode without effect into a generated module, not before any place its switches go to,
      keeps how its runs end. */
  lemma {:induction false} InsertIntoModule(b: List<Stmt>, op: OpCode, at: nat, m: VM, res: Outcome)
    requires BlockBelow(b, 0, RESERVED_REGS, RESERVED_CREGS, at) && at <= |EmitModule(b)| && Neutral(op)
    requires (forall q :: q in m.regs ==> q < RESERVED_REGS) && (forall c :: c in m.cregs ==> c < RESERVED_CREGS)
    requires TargetsBelow(EmitModule(b), MINUS_ONE) && !res.Running?
    ensures (exists k: nat :: Run(EmitModule(b), m, k) == res)
        <==> (exists k: nat :: Run(Spliced(EmitModule(b), op, at), MovedVM(m, at), k) == MovedOutcome(res, at))
  {
    hide *;
    ModuleBelow(b, at, m);
    InsertBehindSwitches(EmitModule(b), op, at, m, res);
  }
}

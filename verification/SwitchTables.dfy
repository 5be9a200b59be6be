/** The run-time tables of a switch and the body they select. */
module SwitchTables {
  import opened Lists
  import opened Values
  import opened Ir
  import opened Codegen
  import opened CodegenFacts
  import opened Ownership
  import opened Layout
  import opened ExprSimulation
  import opened StmtBasics
  import opened M = Machine

  type Code = M.Code

  // ----- the code of a switch -----

  /** The code of a switch before its bodies, which start at `a3`. */
  ghost predicate SwitchAt(P: Code, g: Gen, v: Code, table: Code, defaultAddr: nat, a: nat, a3: nat) {
    var a1 := a + |g.code|;
    var a2 := a1 + 1 + |v|;
    && a3 == a2 + 1 + |table| + 1 && a3 <= |P|
    && CodeAt(P, a, g.code) && P[a1] == M.BuildList(g.r)
    && CodeAt(P, a1 + 1, v) && P[a2] == M.BuildList(g.r + 1)
    && CodeAt(P, a2 + 1, table) && P[a3 - 1] == M.Switch(g.rv.reg, g.r, g.r + 1, defaultAddr)
  }

  lemma SwitchCode(P: Code, g: Gen, v: Emitted, table: Code, d: nat, b: Emitted, a: nat, brk: nat, cont: nat)
    requires LinkedAt(P, a, SwitchGen(g, v, table, d, b).code, brk, cont)
    requires Plain(g.code) && Plain(v.code) && Plain(table)
    ensures var a3 := a + |g.code| + 1 + |v.code| + 1 + |table| + 1;
            && SwitchAt(P, g, v.code, table, d, a, a3) && LinkedAt(P, a3, b.code, brk, cont)
            && Even(P, a, a3) && Even(P, a3 - 1, a3)
  {
    hide CodeAt, LinkedAt;
    var a1 := a + |g.code|;
    var a2 := a1 + 1 + |v.code|;
    var a3 := a2 + 1 + |table| + 1;
    var x, y, z := [M.BuildList(g.r)], [M.BuildList(g.r + 1)], [M.Switch(g.rv.reg, g.r, g.r + 1, d)];
    LinkedSplit(P, a, g.code, x + (v.code + (y + (table + (z + b.code)))), brk, cont);
    LinkedSplit(P, a1, x, v.code + (y + (table + (z + b.code))), brk, cont);
    LinkedSplit(P, a1 + 1, v.code, y + (table + (z + b.code)), brk, cont);
    LinkedSplit(P, a2, y, table + (z + b.code), brk, cont);
    LinkedSplit(P, a2 + 1, table, z + b.code, brk, cont);
    LinkedSplit(P, a3 - 1, z, b.code, brk, cont);
    LinkedPlain(P, a, g.code, brk, cont);
    LinkedPlain(P, a1 + 1, v.code, brk, cont);
    LinkedPlain(P, a2 + 1, table, brk, cont);
    LinkedOp(P, a1, x, 0, brk, cont);
    LinkedOp(P, a2, y, 0, brk, cont);
    LinkedOp(P, a3 - 1, z, 0, brk, cont);
    EvenPlain(P, a, g.code, a, a1);
    EvenPlain(P, a1 + 1, v.code, a1 + 1, a2);
    EvenPlain(P, a2 + 1, table, a2 + 1, a3 - 1);
    EvenOp(P, a1);
    EvenOp(P, a2);
    EvenOp(P, a3 - 1);
  }

  lemma {:induction false} AllCount(es: List<Expr>, st: State)
    ensures EvalAll(es, st).Vals? ==> |EvalAll(es, st).vs| == Length(es)
  {
    match es
    case Empty =>
    case Cons(e, rest) =>
      if Eval(e, st).Val? {
        AllCount(rest, Eval(e, st).st);
      }
  }

  lemma {:induction false} CasesCount(cs: List<Case>, st: State)
    ensures EvalCases(cs, st).Vals? ==> |EvalCases(cs, st).vs| == NumValues(cs)
  {
    match cs
    case Empty =>
    case Cons(Default(_), rest) => CasesCount(rest, st);
    case Cons(Case(es, _), rest) =>
      AllCount(es, st);
      if EvalAll(es, st).Vals? {
        CasesCount(rest, EvalAll(es, st).st);
      }
  }

  /** How the values of one case and of the remaining ones combine. */
  function JoinedAll(first: seq<Value>, rest: LResult): LResult {
    match rest
    case Vals(vs, st) => Vals(first + vs, st)
    case LExc(_, _) => rest
  }

  lemma ValuesTrans(P: Code, o: Owners, list: nat, end1: nat, end: nat, c: nat, c1: nat, m: VM,
                    done: seq<Value>, vs1: seq<Value>, st: State, m1: VM, rest: LResult, m': VM)
    requires c <= c1
    requires ElemsPost(P, o, list, end1, list, c, m, done, Vals(vs1, st), m1)
    requires ElemsPost(P, o, list, end, list, c1, m1, done + vs1, rest, m')
    ensures ElemsPost(P, o, list, end, list, c, m, done, JoinedAll(vs1, rest), m')
  {
    KeptTrans(m, m1, m', list, c, list, c1);
    match rest
    case Vals(vs, _) =>
      assert done + vs1 + vs == done + (vs1 + vs);
      ReachesTrans(P, m, m1, m');
    case LExc(x, _) => RaisesTrans(P, m, m1, x, m');
  }

  lemma {:induction false} UnfoldValues(k: Case, rest: List<Case>, list: nat, a: nat, r: nat, c: nat, o: Owners, st: State)
    ensures k.Default? ==>
              && EmitCaseValues(Cons(k, rest), list, a, r, c) == EmitCaseValues(rest, list, a, r, c)
              && (OwnedValues(Cons(k, rest), list, a, r, c, o) <==> OwnedValues(rest, list, a, r, c, o))
              && EvalCases(Cons(k, rest), st) == EvalCases(rest, st)
    ensures k.Case? ==>
              var g := EmitElems(k.values, list, a, r, c);
              var h := EmitCaseValues(rest, list, a + |g.code|, g.r, g.c);
              var vs := EvalAll(k.values, st);
              && EmitCaseValues(Cons(k, rest), list, a, r, c) == Emitted(g.code + h.code, h.r, h.c)
              && (OwnedValues(Cons(k, rest), list, a, r, c, o) <==>
                    OwnedElems(k.values, list, a, r, c, o) && OwnedValues(rest, list, a + |g.code|, g.r, g.c, o))
              && EvalCases(Cons(k, rest), st) == if vs.LExc? then vs else JoinedAll(vs.vs, EvalCases(rest, vs.st))
  {
    hide EmitElems, OwnedElems, EvalAll;
  }

  lemma {:induction false} NoValues(list: nat, a: nat, r: nat, c: nat, st: State)
    ensures EmitCaseValues(Empty, list, a, r, c).code == [] && EvalCases(Empty, st) == Vals([], st)
  {}

  lemma {:induction false} NothingPushed(P: Code, o: Owners, list: nat, c: nat, st: State, m: VM, done: seq<Value>)
    requires Matches(o, st, m) && list in m.regs && m.regs[list] == ListVal(done)
    ensures ElemsPost(P, o, list, m.bci, list, c, m, done, Vals([], st), m)
  {
    hide Matches, Reaches, Kept;
    ReachesSelf(P, m);
    KeptSelf(m, list, c);
    assert done + [] == done;
  }

  lemma {:induction false} ElemsLanded(P: Code, o: Owners, list: nat, end: nat, c: nat, m: VM, done: seq<Value>, res: LResult, m': VM)
    requires ElemsPost(P, o, list, end, list, c, m, done, res, m')
    ensures res.Vals? ==> Matches(o, res.st, m') && m'.bci == end && list in m'.regs && m'.regs[list] == ListVal(done + res.vs)
    ensures res.LExc? ==> forall end' :: ElemsPost(P, o, list, end', list, c, m, done, res, m')
  {
    hide Matches, Reaches, Raises, Kept;
  }

  lemma {:induction false} SimValues(P: Code, o: Owners, cs: List<Case>, list: nat, a: nat, r: nat, c: nat,
                                     st: State, m: VM, done: seq<Value>) returns (m': VM)
    requires CodeAt(P, a, EmitCaseValues(cs, list, a, r, c).code) && OwnedValues(cs, list, a, r, c, o)
    requires Matches(o, st, m) && m.bci == a
    requires list < r && list !in o && list in m.regs && m.regs[list] == ListVal(done)
    ensures ElemsPost(P, o, list, a + |EmitCaseValues(cs, list, a, r, c).code|, list, c, m, done, EvalCases(cs, st), m')
    decreases cs
  {
    hide *;
    match cs
    case Empty =>
      m' := m;
      NoValues(list, a, r, c, st);
      NothingPushed(P, o, list, c, st, m, done);
    case Cons(k, rest) =>
      UnfoldValues(k, rest, list, a, r, c, o, st);
      if k.Default? {
        m' := SimValues(P, o, rest, list, a, r, c, st, m, done);
      } else {
        var g := EmitElems(k.values, list, a, r, c);
        var a1 := a + |g.code|;
        var h := EmitCaseValues(rest, list, a1, g.r, g.c);
        CodeSplit(P, a, g.code, h.code);
        ElemsPlaced(k.values, list, a, r, c);
        var vs := EvalAll(k.values, st);
        var m1 := SimElems(P, o, k.values, list, a, r, c, st, m, done);
        ElemsLanded(P, o, list, a1, c, m, done, vs, m1);
        m' := m1;
        if vs.Vals? {
          m' := SimValues(P, o, rest, list, a1, g.r, g.c, vs.st, m1, done + vs.vs);
          ValuesTrans(P, o, list, a1, a1 + |h.code|, c, g.c, m, done, vs.vs, vs.st, m1, EvalCases(rest, vs.st), m');
        }
      }
  }

  /** Addresses as run-time integers. */
  function Ints(addrs: seq<nat>): seq<Value> {
    seq(|addrs|, i requires 0 <= i < |addrs| => Int(addrs[i]))
  }

  lemma {:induction false} RunTable(P: Code, o: Owners, addrs: seq<nat>, list: nat, c: nat, st: State, m: VM, done: seq<Value>)
    returns (m': VM)
    requires CodeAt(P, m.bci, Table(addrs, list, c)) && Matches(o, st, m)
    requires list !in o && list in m.regs && m.regs[list] == ListVal(done)
    ensures Reaches(P, m, m') && Matches(o, st, m') && Kept(m, m', list, c) && m'.bci == m.bci + |Table(addrs, list, c)|
    ensures list in m'.regs && m'.regs[list] == ListVal(done + Ints(addrs))
    decreases |addrs|
  {
    if addrs == [] {
      m' := m;
      ReachesSelf(P, m);
      assert done + Ints(addrs) == done;
    } else {
      var m1 := RunTableEntry(P, o, addrs[0], Table(addrs[1..], list, c + 1), list, c, st, m, done);
      m' := RunTable(P, o, addrs[1..], list, c + 1, st, m1, done + [Int(addrs[0])]);
      ReachesTrans(P, m, m1, m');
      KeptTrans(m, m1, m', list, c, list, c + 1);
      assert done + [Int(addrs[0])] + Ints(addrs[1..]) == done + Ints(addrs);
    }
  }

  lemma RunTableEntry(P: Code, o: Owners, addr: nat, rest: Code, list: nat, c: nat, st: State, m: VM, done: seq<Value>)
    returns (m': VM)
    requires CodeAt(P, m.bci, [M.StoreIntConst(c, addr), M.ListPushConst(list, c)] + rest) && Matches(o, st, m)
    requires list !in o && list in m.regs && m.regs[list] == ListVal(done)
    ensures Reaches(P, m, m') && Matches(o, st, m') && Kept(m, m', list, c) && m'.bci == m.bci + 2
    ensures list in m'.regs && m'.regs[list] == ListVal(done + [Int(addr)])
    ensures CodeAt(P, m'.bci, rest)
  {
    var x := [M.StoreIntConst(c, addr), M.ListPushConst(list, c)];
    CodeSplit(P, m.bci, x, rest);
    CodeOp(P, m.bci, x, 0);
    CodeOp(P, m.bci, x, 1);
    var m1 := PutConst(m, c, Int(addr));
    RunPlain(P, o, st, m, m1);
    m' := RunTemp(P, o, st, m1, list, ListVal(done + [Int(addr)]));
    ReachesTrans(P, m, m1, m');
  }

  // ----- which body a switch runs -----

  /** The address of body number `k`. */
  function BodyAddr(cs: List<Case>, k: nat, a: nat, r: nat, c: nat): nat
    requires k < Length(cs)
    decreases cs
  {
    var g := EmitBlock(cs.head.body, a, r, c);
    if k == 0 then a else BodyAddr(cs.tail, k - 1, a + |g.code| + 1, g.r, g.c)
  }

  /** Every case value is paired with the address of its own body. */
  lemma {:induction false} CaseAddrsOwner(cs: List<Case>, i: nat, a: nat, r: nat, c: nat)
    ensures |CaseAddrs(cs, a, r, c)| == NumValues(cs)
    ensures var k := OwnerCase(cs, i);
            if i < NumValues(cs) then k.Some? && k.value < Length(cs) && CaseAddrs(cs, a, r, c)[i] == BodyAddr(cs, k.value, a, r, c)
            else k.None?
    decreases cs
  {
    hide EmitBlock;
    match cs
    case Empty =>
    case Cons(k, rest) =>
      var g := EmitBlock(k.body, a, r, c);
      var n := if k.Case? then Length(k.values) else 0;
      CaseAddrsOwner(rest, if i < n then 0 else i - n, a + |g.code| + 1, g.r, g.c);
  }

  /** The default address is that of the last default body, wherever it is written. */
  lemma {:induction false} DefaultAddrCase(cs: List<Case>, a: nat, r: nat, c: nat, end: nat)
    ensures var k := DefaultCase(cs);
            && (k.Some? ==> k.value < Length(cs))
            && DefaultAddr(cs, a, r, c, end) == if k.Some? then BodyAddr(cs, k.value, a, r, c) else end
    decreases cs
  {
    hide EmitBlock;
    match cs
    case Empty =>
    case Cons(k, rest) =>
      var g := EmitBlock(k.body, a, r, c);
      DefaultAddrCase(rest, a + |g.code| + 1, g.r, g.c, if k.Default? then a else end);
  }

  lemma RunSwitch(P: Code, o: Owners, cs: List<Case>, src: nat, vals: nat, a: nat, r: nat, c: nat, end: nat,
                  st: State, m: VM, v: Value, vs: seq<Value>) returns (m': VM)
    requires Matches(o, st, m) && |vs| == NumValues(cs)
    requires m.bci < |P| && P[m.bci] == M.Switch(src, vals, vals + 1, DefaultAddr(cs, a, r, c, end))
    requires Holds(m, RegValue(src, false, false), v) && Holds(m, RegValue(vals, false, false), ListVal(vs))
    requires Holds(m, RegValue(vals + 1, false, false), ListVal(Ints(CaseAddrs(cs, a, r, c))))
    requires Even(P, m.bci, end) && forall k :: 0 <= k < Length(cs) ==> Even(P, m.bci, BodyAddr(cs, k, a, r, c))
    ensures Reaches(P, m, m') && Matches(o, st, m')
    ensures var k := SelectedCase(cs, vs, v);
            && (k.Some? ==> k.value < Length(cs))
            && m' == m.(bci := if k.Some? then BodyAddr(cs, k.value, a, r, c) else end)
  {
    hide CaseAddrs, DefaultAddr, BodyAddr;
    var i := FirstEqual(vs, v);
    CaseAddrsOwner(cs, i, a, r, c);
    DefaultAddrCase(cs, a, r, c, end);
    var k := SelectedCase(cs, vs, v);
    m' := m.(bci := if k.Some? then BodyAddr(cs, k.value, a, r, c) else end);
    RunPlain(P, o, st, m, m');
  }

  /** Builds the list of case values in register `list`. */
  lemma SimCaseList(P: Code, o: Owners, cs: List<Case>, list: nat, c: nat, st: State, m: VM) returns (m': VM)
    requires list !in o && OwnedValues(cs, list, m.bci + 1, list + 2, c, o) && Matches(o, st, m)
    requires m.bci < |P| && P[m.bci] == M.BuildList(list)
    requires CodeAt(P, m.bci + 1, EmitCaseValues(cs, list, m.bci + 1, list + 2, c).code)
    ensures ElemsPost(P, o, list, m.bci + 1 + |EmitCaseValues(cs, list, m.bci + 1, list + 2, c).code|, list, c, m, [],
                      EvalCases(cs, st), m')
  {
    hide CodeAt, Matches, EmitCaseValues, OwnedValues, EvalCases, Kept;
    var m1 := RunTemp(P, o, st, m, list, ListVal([]));
    KeptPut(m, list, ListVal([]), c);
    m' := SimValues(P, o, cs, list, m.bci + 1, list + 2, c, st, m1, []);
    KeptTrans(m, m1, m', list, c, list, c);
    match EvalCases(cs, st)
    case LExc(x, _) => RaisesTrans(P, m, m1, x, m');
    case Vals(_, _) => ReachesTrans(P, m, m1, m');
  }

  /** Builds the two run-time lists of a switch: the case values and the body addresses. */
  lemma SimTables(P: Code, o: Owners, g: Gen, v: Emitted, cs: List<Case>, addrs: seq<nat>, d: nat, a: nat, a3: nat,
                  st: State, m: VM, cond: Value) returns (m': VM)
    requires v == EmitCaseValues(cs, g.r, a + |g.code| + 1, g.r + 2, g.c) && g.r !in o && g.r + 1 !in o
    requires OwnedValues(cs, g.r, a + |g.code| + 1, g.r + 2, g.c, o)
    requires SwitchAt(P, g, v.code, Table(addrs, g.r + 1, v.c), d, a, a3)
    requires Matches(o, st, m) && m.bci == a + |g.code| && Holds(m, g.rv, cond)
    requires !g.rv.constant && g.rv.reg < g.r
    ensures var vs := EvalCases(cs, st);
            && Matches(o, vs.st, m')
            && (match vs
                case LExc(x, _) => Raises(P, m, x, m')
                case Vals(vals, _) =>
                  && Reaches(P, m, m') && Kept(m, m', g.r, g.c) && m'.bci == a3 - 1
                  && Holds(m', g.rv, cond) && Holds(m', RegValue(g.r, false, false), ListVal(vals))
                  && Holds(m', RegValue(g.r + 1, false, false), ListVal(Ints(addrs))))
  {
    hide CodeAt, Matches, EmitCaseValues, OwnedValues, EvalCases, Table, Reaches, Raises, Ints, Plain, ExecOp;
    ValuesGrow(cs, g.r, a + |g.code| + 1, g.r + 2, g.c);
    var m1 := SimCaseList(P, o, cs, g.r, g.c, st, m);
    var vs := EvalCases(cs, st);
    m' := m1;
    if vs.Vals? {
      assert [] + vs.vs == vs.vs;
      m' := SimAddrs(P, o, g.r, addrs, v.c, vs.st, m1, a3 - 1);
      ReachesTrans(P, m, m1, m');
    }
  }

  lemma SimAddrs(P: Code, o: Owners, vals: nat, addrs: seq<nat>, c: nat, st: State, m: VM, end: nat) returns (m': VM)
    requires vals + 1 !in o && Matches(o, st, m)
    requires m.bci < |P| && P[m.bci] == M.BuildList(vals + 1)
    requires CodeAt(P, m.bci + 1, Table(addrs, vals + 1, c)) && end == m.bci + 1 + |Table(addrs, vals + 1, c)|
    ensures Reaches(P, m, m') && Matches(o, st, m') && Kept(m, m', vals + 1, c) && m'.bci == end
    ensures Holds(m', RegValue(vals + 1, false, false), ListVal(Ints(addrs)))
  {
    hide CodeAt, Matches, Table;
    var m1 := RunTemp(P, o, st, m, vals + 1, ListVal([]));
    m' := RunTable(P, o, addrs, vals + 1, c, st, m1, []);
    assert [] + Ints(addrs) == Ints(addrs);
    ReachesTrans(P, m, m1, m');
  }
}

/** The code emitted for statements does what `Ir.Exec` says. */
module StmtSimulation {
  import opened Lists
  import opened Values
  import opened Ir
  import opened Codegen
  import opened CodegenFacts
  import opened Ownership
  import opened Layout
  import opened LoopDepth
  import opened ExprSimulation
  import opened StmtBasics
  import opened SwitchTables
  import opened M = Machine

  type Code = M.Code

  // ----- if -----

  lemma IfCode(P: Code, g: Gen, h: Emitted, end: nat, a: nat, brk: nat, cont: nat)
    requires LinkedAt(P, a, IfGen(g, h, end).code, brk, cont) && Plain(g.code) && Balanced(h.code)
    requires end == a + |g.code| + 1 + |h.code|
    ensures var a1 := a + |g.code|;
            && Even(P, a, a1 + 1) && Even(P, a1, end)
            && CodeAt(P, a, g.code) && a1 < |P| && P[a1] == M.JmpIfFalse(g.rv.reg, end)
            && LinkedAt(P, a1 + 1, h.code, brk, cont)
  {
    hide CodeAt, LinkedAt;
    var a1 := a + |g.code|;
    var j := [M.JmpIfFalse(g.rv.reg, end)];
    LinkedSplit(P, a, g.code, j + h.code, brk, cont);
    LinkedSplit(P, a1, j, h.code, brk, cont);
    LinkedPlain(P, a, g.code, brk, cont);
    LinkedOp(P, a1, j, 0, brk, cont);
    EvenPlain(P, a, g.code, a, a1);
    EvenOp(P, a1);
    EvenSpan(P, a1 + 1, h.code, brk, cont);
  }

  lemma IfElseCode(P: Code, g: Gen, h: Emitted, k: Emitted, a: nat, brk: nat, cont: nat)
    requires LinkedAt(P, a, IfElseGen(g, h, k, a + |g.code| + 1 + |h.code| + 1).code, brk, cont)
    requires Plain(g.code) && Balanced(h.code) && Balanced(k.code)
    ensures var a1 := a + |g.code|;
            var a2 := a1 + 1 + |h.code| + 1;
            && Even(P, a, a1 + 1) && Even(P, a1, a2) && Even(P, a, a2) && Even(P, a2 - 1, a2 + |k.code|)
            && CodeAt(P, a, g.code) && a2 - 1 < |P| && P[a1] == M.JmpIfFalse(g.rv.reg, a2)
            && LinkedAt(P, a1 + 1, h.code, brk, cont)
            && P[a2 - 1] == M.Jmp(a2 + |k.code|)
            && LinkedAt(P, a2, k.code, brk, cont)
  {
    hide CodeAt, LinkedAt;
    var a1 := a + |g.code|;
    var a2 := a1 + 1 + |h.code| + 1;
    var j := [M.JmpIfFalse(g.rv.reg, a2)];
    var d := [M.Jmp(a2 + |k.code|)];
    LinkedSplit(P, a, g.code, j + (h.code + (d + k.code)), brk, cont);
    LinkedSplit(P, a1, j, h.code + (d + k.code), brk, cont);
    LinkedSplit(P, a1 + 1, h.code, d + k.code, brk, cont);
    LinkedSplit(P, a2 - 1, d, k.code, brk, cont);
    LinkedPlain(P, a, g.code, brk, cont);
    LinkedOp(P, a1, j, 0, brk, cont);
    LinkedOp(P, a2 - 1, d, 0, brk, cont);
    EvenPlain(P, a, g.code, a, a1);
    EvenOp(P, a1);
    EvenSpan(P, a1 + 1, h.code, brk, cont);
    EvenOp(P, a2 - 1);
    EvenSpan(P, a2, k.code, brk, cont);
  }

  // ----- the simulation -----

  lemma BlockCode(P: Code, o: Owners, b: List<Stmt>, a: nat, r: nat, c: nat, brk: nat, cont: nat)
    requires LinkedAt(P, a, EmitBlock(b, a, r, c).code, brk, cont) && OwnedBlock(b, a, r, c, o) && b.Cons?
    ensures var g := EmitStmt(b.head, a, r, c);
            var h := EmitBlock(b.tail, a + |g.code|, g.r, g.c);
            && r <= g.r && c <= g.c
            && LinkedAt(P, a, g.code, brk, cont) && OwnedStmt(b.head, a, r, c, o) && Even(P, a, a + |g.code|)
            && LinkedAt(P, a + |g.code|, h.code, brk, cont) && OwnedBlock(b.tail, a + |g.code|, g.r, g.c, o)
  {
    hide CodeAt, EmitStmt, OwnedStmt, LinkedAt;
    var g := EmitStmt(b.head, a, r, c);
    LinkedSplit(P, a, g.code, EmitBlock(b.tail, a + |g.code|, g.r, g.c).code, brk, cont);
    StmtGrows(b.head, a, r, c);
    StmtBalanced(b.head, a, r, c);
    EvenSpan(P, a, g.code, brk, cont);
  }

  lemma {:induction false} SimBlock(P: Code, o: Owners, b: List<Stmt>, a: nat, r: nat, c: nat, brk: nat, cont: nat,
                                    st: State, fuel: nat, m: VM) returns (m': VM)
    requires LinkedAt(P, a, EmitBlock(b, a, r, c).code, brk, cont) && OwnedBlock(b, a, r, c, o) && SitesUnique(o)
    requires LevelWith(P, a, brk, cont) && Matches(o, st, m) && m.bci == a
    ensures StmtPost(P, o, a + |EmitBlock(b, a, r, c).code|, brk, cont, r, c, m, ExecBlock(b, st, fuel), m')
    decreases fuel, b, 4
  {
    hide CodeAt, Matches, EmitStmt, OwnedStmt, OwnedBlock, Exec, LinkedAt, SitesUnique, StmtPost, Kept, Reaches, ExecOp;
    match b
    case Empty =>
      m' := m;
      ReachesSelf(P, m);
      KeptSelf(m, r, c);
      Arrived(P, o, a, brk, cont, r, c, m, st, m);
    case Cons(s, rest) =>
      BlockCode(P, o, b, a, r, c, brk, cont);
      var g := EmitStmt(s, a, r, c);
      var a1 := a + |g.code|;
      var h := EmitBlock(rest, a1, g.r, g.c);
      var m1 := SimStmt(P, o, s, a, r, c, brk, cont, st, fuel, m);
      var res := Exec(s, st, fuel);
      if res.Norm? {
        Landing(P, o, a1, brk, cont, r, c, m, res, m1);
        LevelMove(P, a, a1, brk, cont);
        m' := SimBlock(P, o, rest, a1, g.r, g.c, brk, cont, res.st, fuel, m1);
        Then(P, o, a1 + |h.code|, brk, cont, r, c, g.r, g.c, m, m1, ExecBlock(rest, res.st, fuel), m');
      } else {
        m' := m1;
        Abrupt(P, o, a1, a1 + |h.code|, brk, cont, r, c, m, res, m1);
      }
  }

  lemma {:induction false} SimStmt(P: Code, o: Owners, s: Stmt, a: nat, r: nat, c: nat, brk: nat, cont: nat,
                                   st: State, fuel: nat, m: VM) returns (m': VM)
    requires LinkedAt(P, a, EmitStmt(s, a, r, c).code, brk, cont) && OwnedStmt(s, a, r, c, o) && SitesUnique(o)
    requires LevelWith(P, a, brk, cont) && Matches(o, st, m) && m.bci == a
    ensures StmtPost(P, o, a + |EmitStmt(s, a, r, c).code|, brk, cont, r, c, m, Exec(s, st, fuel), m')
    decreases fuel, s, 3
  {
    hide CodeAt, Matches, OwnedStmt, Exec, LinkedAt, SitesUnique, StmtPost, ExecOp;
    match s
    case ExprStmt(e) => m' := SimOutput(P, o, e, a, r, c, brk, cont, st, m, fuel);
    case SilentStmt(e) => m' := SimSilent(P, o, e, a, r, c, brk, cont, st, m, fuel);
    case If(cond, body, orelse) => m' := SimIf(P, o, cond, body, orelse, a, r, c, brk, cont, st, fuel, m);
    case Switch(cond, cs) => m' := SimSwitch(P, o, cond, cs, a, r, c, brk, cont, st, fuel, m);
    case While(cond, body) => m' := SimWhile(P, o, s, a, r, c, brk, cont, st, fuel, m);
    case DoWhile(body, cond) => m' := SimDoWhile(P, o, s, a, r, c, brk, cont, st, fuel, m);
    case For(site, n, coll, body) => m' := SimFor(P, o, s, a, r, c, brk, cont, st, fuel, m);
    case Break => m' := SimBreak(P, o, s, a, r, c, brk, cont, st, m, fuel);
    case Continue => m' := SimBreak(P, o, s, a, r, c, brk, cont, st, m, fuel);
    case Assert(cond, msg, line) => m' := SimAssert(P, o, cond, msg, line, a, r, c, brk, cont, st, m, fuel);
    case Raise(e) => m' := SimRaise(P, o, e, a, r, c, brk, cont, st, m, fuel);
  }

  lemma IfIs(cond: Expr, body: List<Stmt>, orelse: Option<List<Stmt>>, st: State, fuel: nat)
    ensures var rc := Eval(cond, st);
            var res := Exec(If(cond, body, orelse), st, fuel);
            && (rc.Exc? ==> res == Fail(rc.x, rc.st))
            && (rc.Val? && !rc.v.Bool? ==> res == Fail(BoolExpected, rc.st))
            && (rc.Val? && rc.v.Bool? ==>
                  res == if rc.v.b then ExecBlock(body, rc.st, fuel)
                         else if orelse.Some? then ExecBlock(orelse.value, rc.st, fuel) else Norm(rc.st))
  {
    hide Eval, ExecBlock;
  }

  lemma IfParts(cond: Expr, body: List<Stmt>, orelse: Option<List<Stmt>>, a: nat, r: nat, c: nat, o: Owners)
    requires OwnedStmt(If(cond, body, orelse), a, r, c, o)
    ensures var g := EmitNc(cond, a, r, c);
            var h := EmitBlock(body, a + |g.code| + 1, g.r, g.c);
            var a2 := a + |g.code| + 1 + |h.code|;
            var code := EmitStmt(If(cond, body, orelse), a, r, c).code;
            && OwnedNc(cond, a, r, c, o) && OwnedBlock(body, a + |g.code| + 1, g.r, g.c, o)
            && (orelse.None? ==> code == IfGen(g, h, a2).code && |code| == a2 - a)
            && (orelse.Some? ==>
                  var k := EmitBlock(orelse.value, a2 + 1, h.r, h.c);
                  && OwnedBlock(orelse.value, a2 + 1, h.r, h.c, o)
                  && code == IfElseGen(g, h, k, a2 + 1).code && |code| == a2 + 1 + |k.code| - a)
  {
    hide EmitNc, EmitBlock, OwnedNc, OwnedBlock;
  }

  lemma SimIf(P: Code, o: Owners, cond: Expr, body: List<Stmt>, orelse: Option<List<Stmt>>, a: nat, r: nat, c: nat,
              brk: nat, cont: nat, st: State, fuel: nat, m: VM) returns (m': VM)
    requires var s := If(cond, body, orelse);
             LinkedAt(P, a, EmitStmt(s, a, r, c).code, brk, cont) && OwnedStmt(s, a, r, c, o)
    requires SitesUnique(o) && LevelWith(P, a, brk, cont) && Matches(o, st, m) && m.bci == a
    ensures var s := If(cond, body, orelse);
            StmtPost(P, o, a + |EmitStmt(s, a, r, c).code|, brk, cont, r, c, m, Exec(s, st, fuel), m')
    decreases fuel, If(cond, body, orelse), 2
  {
    hide CodeAt, Matches, EmitNc, OwnedNc, Eval, LinkedAt, EmitBlock, OwnedBlock, ExecBlock, SitesUnique, CondPost, StmtPost,
      Plain, Balanced, Kept, Reaches, Advances, Exec, EmitStmt, OwnedStmt, IfGen, IfElseGen, ExecOp;
    IfIs(cond, body, orelse, st, fuel);
    IfParts(cond, body, orelse, a, r, c, o);
    var g := EmitNc(cond, a, r, c);
    var a1 := a + |g.code|;
    var h := EmitBlock(body, a1 + 1, g.r, g.c);
    var a2 := a1 + 1 + |h.code|;
    NcPlaced(cond, a, r, c);
    BlockGrows(body, a1 + 1, g.r, g.c);
    BlockBalanced(body, a1 + 1, g.r, g.c);
    var no := if orelse.Some? then a2 + 1 else a2;
    var end := a2;
    if orelse.Some? {
      BlockBalanced(orelse.value, a2 + 1, h.r, h.c);
      IfElseCode(P, g, h, EmitBlock(orelse.value, a2 + 1, h.r, h.c), a, brk, cont);
      end := a2 + 1 + |EmitBlock(orelse.value, a2 + 1, h.r, h.c).code|;
    } else {
      IfCode(P, g, h, a2, a, brk, cont);
    }
    var rc := Eval(cond, st);
    m' := SimCond(P, o, cond, a, r, c, false, no, st, m);
    CondFails(P, o, rc, a1 + 1, no, r, c, m, m', end, brk, cont);
    if rc.Val? && rc.v.Bool? {
      m' := SimBranches(P, o, rc.v.b, If(cond, body, orelse), a1 + 1, g.r, g.c, end, brk, cont, rc.st, fuel, r, c, m, m');
    }
  }

  /** The chosen branch of an `if`, from `m1`. */
  lemma SimBranches(P: Code, o: Owners, taken: bool, s: Stmt, a: nat, r1: nat, c1: nat,
                    end: nat, brk: nat, cont: nat, st: State, fuel: nat, r: nat, c: nat, m: VM, m1: VM) returns (m': VM)
    requires SitesUnique(o) && Matches(o, st, m1) && s.If? && LevelWith(P, a, brk, cont)
    requires Reaches(P, m, m1) && Kept(m, m1, r, c) && r <= r1 && c <= c1
    requires var h := EmitBlock(s.body, a, r1, c1);
             && r1 <= h.r && c1 <= h.c
             && LinkedAt(P, a, h.code, brk, cont) && OwnedBlock(s.body, a, r1, c1, o)
             && (match s.orelse
                 case None => end == a + |h.code|
                 case Some(b) =>
                   var k := EmitBlock(b, a + |h.code| + 1, h.r, h.c);
                   && a + |h.code| < |P| && P[a + |h.code|] == M.Jmp(end) && Even(P, a + |h.code|, end)
                   && LevelWith(P, a + |h.code| + 1, brk, cont)
                   && end == a + |h.code| + 1 + |k.code|
                   && LinkedAt(P, a + |h.code| + 1, k.code, brk, cont)
                   && OwnedBlock(b, a + |h.code| + 1, h.r, h.c, o))
             && m1.bci == if taken then a else if s.orelse.Some? then a + |h.code| + 1 else end
    ensures StmtPost(P, o, end, brk, cont, r, c, m,
                     if taken then ExecBlock(s.body, st, fuel)
                     else if s.orelse.Some? then ExecBlock(s.orelse.value, st, fuel) else Norm(st), m')
    decreases fuel, s, 1
  {
    hide CodeAt, Matches, LinkedAt, EmitBlock, OwnedBlock, ExecBlock, SitesUnique, ExecOp;
    var h := EmitBlock(s.body, a, r1, c1);
    if taken {
      var m2 := SimBlock(P, o, s.body, a, r1, c1, brk, cont, st, fuel, m1);
      m' := BodyThen(P, o, a + |h.code|, end, brk, cont, r, c, r1, c1, m, m1, ExecBlock(s.body, st, fuel), m2);
    } else if s.orelse.Some? {
      m' := SimBlock(P, o, s.orelse.value, a + |h.code| + 1, h.r, h.c, brk, cont, st, fuel, m1);
      Then(P, o, end, brk, cont, r, c, h.r, h.c, m, m1, ExecBlock(s.orelse.value, st, fuel), m');
    } else {
      m' := m1;
    }
  }

  // ----- loops -----

  lemma LoopEnter(P: Code, o: Owners, st: State, m: VM) returns (m': VM)
    requires Matches(o, st, m) && m.bci < |P| && P[m.bci] == M.LoopBegin
    ensures m' == m.(fin := m.fin + 1, bci := m.bci + 1) && Matches(o, st, m') && Reaches(P, m, m')
  {
    m' := m.(fin := m.fin + 1, bci := m.bci + 1);
    RunPlain(P, o, st, m, m');
  }

  /** A loop is its `LoopBegin`, an inner run that normally ends at `LoopEnd`, and the `LoopEnd`. */
  lemma LoopWrap(P: Code, o: Owners, end: nat, brk: nat, cont: nat, r: nat, c: nat,
                 m: VM, m1: VM, res: SResult, m2: VM) returns (m': VM)
    requires m1 == m.(fin := m.fin + 1, bci := m.bci + 1) && Reaches(P, m, m1)
    requires end < |P| && P[end] == M.LoopEnd && !res.Brk? && !res.Cnt?
    requires StmtPost(P, o, end, brk, cont, r, c, m1, res, m2)
    ensures StmtPost(P, o, end + 1, brk, cont, r, c, m, res, m')
  {
    m' := m2;
    match res
    case Norm(st) =>
      m' := m2.(fin := m2.fin - 1, bci := end + 1);
      RunPlain(P, o, st, m2, m');
      ReachesTrans(P, m, m1, m2);
      ReachesTrans(P, m, m2, m');
    case Fail(x, _) => RaisesTrans(P, m, m1, x, m2);
    case Timeout(n) => LastsTrans(P, m, m1, n);
  }

  /** The layout shared by all loops: `inner` is patched for this loop, then comes the tail. */
  lemma LoopCode(P: Code, inner: Code, tail: Code, a: nat, own: nat, head: nat, brk: nat, cont: nat)
    requires LinkedAt(P, a, [M.LoopBegin] + (Patch(inner, own, head) + tail), brk, cont)
    requires |tail| == 2 && !tail[0].BreakTo? && !tail[1].BreakTo?
    ensures a < |P| && P[a] == M.LoopBegin && LinkedAt(P, a + 1, inner, own, head)
    ensures var end := a + 1 + |inner| + 1; end < |P| && P[end - 1] == tail[0] && P[end] == tail[1]
  {
    hide CodeAt, LinkedAt;
    LinkedSplit(P, a, [M.LoopBegin], Patch(inner, own, head) + tail, brk, cont);
    LinkedOp(P, a, [M.LoopBegin], 0, brk, cont);
    LinkedSplit(P, a + 1, Patch(inner, own, head), tail, brk, cont);
    LinkedTwice(P, a + 1, inner, own, head, brk, cont);
    LinkedOp(P, a + 1 + |inner|, tail, 0, brk, cont);
    LinkedOp(P, a + 1 + |inner|, tail, 1, brk, cont);
  }

  // ----- while -----

  /** The code of a `while` loop, from its condition at `head` to its `LoopEnd` at `end`. */
  ghost predicate WhileAt(P: Code, g: Gen, h: Emitted, head: nat, end: nat) {
    var a1 := head + |g.code|;
    && end == a1 + 1 + |h.code| + 1
    && CodeAt(P, head, g.code)
    && end < |P| && P[a1] == M.JmpIfFalse(g.rv.reg, end)
    && LinkedAt(P, a1 + 1, h.code, end, head)
    && P[end - 1] == M.Jmp(head) && P[end] == M.LoopEnd
    && Even(P, head, a1) && Even(P, head, a1 + 1) && Even(P, head, end - 1) && Even(P, head, end)
  }

  lemma WhileCode(P: Code, g: Gen, h: Emitted, a: nat, end: nat, brk: nat, cont: nat)
    requires end == a + 1 + |g.code| + 1 + |h.code| + 1
    requires LinkedAt(P, a, WhileGen(g, h, a + 1, end).code, brk, cont) && Plain(g.code) && Balanced(h.code)
    ensures a < |P| && P[a] == M.LoopBegin && WhileAt(P, g, h, a + 1, end)
    ensures end < |P| && P[end] == M.LoopEnd
  {
    hide CodeAt, LinkedAt;
    var j := [M.JmpIfFalse(g.rv.reg, end)];
    var tail := [M.Jmp(a + 1), M.LoopEnd];
    LoopCode(P, g.code + (j + h.code), tail, a, end, a + 1, brk, cont);
    var a1 := a + 1 + |g.code|;
    LinkedSplit(P, a + 1, g.code, j + h.code, end, a + 1);
    LinkedPlain(P, a + 1, g.code, end, a + 1);
    LinkedSplit(P, a1, j, h.code, end, a + 1);
    LinkedOp(P, a1, j, 0, end, a + 1);
    EvenPlain(P, a + 1, g.code, a + 1, a1);
    EvenOp(P, a1);
    EvenSpan(P, a1 + 1, h.code, end, a + 1);
    EvenOp(P, end - 1);
  }

  lemma SimWhile(P: Code, o: Owners, s: Stmt, a: nat, r: nat, c: nat, brk: nat, cont: nat, st: State, fuel: nat, m: VM)
    returns (m': VM)
    requires s.While?
    requires LinkedAt(P, a, EmitStmt(s, a, r, c).code, brk, cont) && OwnedStmt(s, a, r, c, o) && SitesUnique(o)
    requires Matches(o, st, m) && m.bci == a
    ensures StmtPost(P, o, a + |EmitStmt(s, a, r, c).code|, brk, cont, r, c, m, Exec(s, st, fuel), m')
    decreases fuel, s, 2
  {
    hide CodeAt, Matches, EmitNc, OwnedNc, LinkedAt, EmitBlock, OwnedBlock, Exec, SitesUnique, StmtPost, WhileAt, ExecOp;
    var g := EmitNc(s.cond, a + 1, r, c);
    var h := EmitBlock(s.body, a + 1 + |g.code| + 1, g.r, g.c);
    var end := a + 1 + |g.code| + 1 + |h.code| + 1;
    NcPlaced(s.cond, a + 1, r, c);
    BlockBalanced(s.body, a + 1 + |g.code| + 1, g.r, g.c);
    WhileCode(P, g, h, a, end, brk, cont);
    var m1 := LoopEnter(P, o, st, m);
    var m2 := SimWhileFrom(P, o, s, a + 1, end, r, c, brk, cont, st, fuel, m1);
    WhileCompletes(s, st, fuel);
    m' := LoopWrap(P, o, end, brk, cont, r, c, m, m1, Exec(s, st, fuel), m2);
  }

  /** A `while` loop consumes its own breaks and continues. */
  lemma WhileCompletes(s: Stmt, st: State, fuel: nat)
    requires s.While?
    ensures !Exec(s, st, fuel).Brk? && !Exec(s, st, fuel).Cnt?
    decreases fuel
  {
    if fuel > 0 {
      var rc := Eval(s.cond, st);
      if rc.Val? && rc.v == Bool(true) {
        var b := ExecBlock(s.body, rc.st, fuel);
        if b.Norm? || b.Cnt? {
          WhileCompletes(s, b.st, fuel - 1);
        }
      }
    }
  }

  lemma {:induction false} SimWhileFrom(P: Code, o: Owners, s: Stmt, head: nat, end: nat, r: nat, c: nat,
                                        brk: nat, cont: nat, st: State, fuel: nat, m: VM) returns (m': VM)
    requires s.While? && SitesUnique(o) && Matches(o, st, m) && m.bci == head
    requires var g := EmitNc(s.cond, head, r, c);
             var h := EmitBlock(s.body, head + |g.code| + 1, g.r, g.c);
             && WhileAt(P, g, h, head, end)
             && OwnedNc(s.cond, head, r, c, o) && OwnedBlock(s.body, head + |g.code| + 1, g.r, g.c, o)
    ensures StmtPost(P, o, end, brk, cont, r, c, m, Exec(s, st, fuel), m')
    decreases fuel, s, 1
  {
    hide CodeAt, Matches, EmitNc, OwnedNc, LinkedAt, EmitBlock, OwnedBlock, Eval, ExecBlock, SitesUnique, CondPost, ExecOp;
    var g := EmitNc(s.cond, head, r, c);
    var a1 := head + |g.code| + 1;
    NcPlaced(s.cond, head, r, c);
    var rc := Eval(s.cond, st);
    m' := SimCond(P, o, s.cond, head, r, c, false, end, st, m);
    CondFails(P, o, rc, a1, end, r, c, m, m', end, brk, cont);
    if rc.Val? && rc.v == Bool(true) {
      if fuel == 0 {
        TimedOut(P, o, end, brk, cont, r, c, m, m');
      } else {
        m' := SimWhileBody(P, o, s, head, end, r, c, brk, cont, rc.st, fuel, m, m');
      }
    }
  }

  /** What remains of a loop after its body has run once. */
  function Again(s: Stmt, body: SResult, fuel: nat): SResult {
    match body
    case Norm(st) => Tick(Exec(s, st, fuel))
    case Cnt(st) => Tick(Exec(s, st, fuel))
    case Brk(st) => Norm(st)
    case other => other
  }

  lemma SimWhileBody(P: Code, o: Owners, s: Stmt, head: nat, end: nat, r: nat, c: nat, brk: nat, cont: nat,
                     st: State, fuel: nat, m: VM, m1: VM) returns (m': VM)
    requires fuel > 0 && s.While? && SitesUnique(o) && Matches(o, st, m1)
    requires Advances(P, m, m1) && Reaches(P, m, m1) && Kept(m, m1, r, c)
    requires var g := EmitNc(s.cond, head, r, c);
             var h := EmitBlock(s.body, head + |g.code| + 1, g.r, g.c);
             && WhileAt(P, g, h, head, end) && m1.bci == head + |g.code| + 1 && r <= g.r && c <= g.c
             && OwnedNc(s.cond, head, r, c, o) && OwnedBlock(s.body, head + |g.code| + 1, g.r, g.c, o)
    ensures StmtPost(P, o, end, brk, cont, r, c, m, Again(s, ExecBlock(s.body, st, fuel), fuel - 1), m')
    decreases fuel, s, 0
  {
    hide CodeAt, Matches, EmitNc, OwnedNc, LinkedAt, EmitBlock, OwnedBlock, Exec, ExecBlock, SitesUnique, StmtPost, ExecOp;
    var g := EmitNc(s.cond, head, r, c);
    var a1 := head + |g.code| + 1;
    var body := ExecBlock(s.body, st, fuel);
    m' := SimBlock(P, o, s.body, a1, g.r, g.c, end, head, st, fuel, m1);
    KeptSelf(m1, g.r, g.c);
    ReachesSelf(P, m1);
    var m2 := BodyThen(P, o, end - 1, head, end, head, g.r, g.c, g.r, g.c, m1, m1, body, m');
    if body.Norm? || body.Cnt? {
      Landing(P, o, head, end, head, g.r, g.c, m1, body, m2);
      KeptTrans(m, m1, m2, r, c, g.r, g.c);
      m' := SimWhileFrom(P, o, s, head, end, r, c, brk, cont, body.st, fuel - 1, m2);
      ThenTick(P, o, end, brk, cont, r, c, m, m1, m2, Exec(s, body.st, fuel - 1), m');
    } else {
      m' := m2;
      Then(P, o, head, end, head, r, c, g.r, g.c, m, m1, body, m2);
      BreakOut(P, o, head, end, head, end, brk, cont, r, c, m, body, m2);
    }
  }

  /** A break of the inner code is a normal end of the loop. */
  lemma BreakOut(P: Code, o: Owners, end1: nat, brk1: nat, cont1: nat, end: nat, brk: nat, cont: nat, r: nat, c: nat,
                 m: VM, body: SResult, m': VM)
    requires StmtPost(P, o, end1, brk1, cont1, r, c, m, body, m') && !body.Norm? && !body.Cnt? && brk1 == end
    ensures StmtPost(P, o, end, brk, cont, r, c, m, if body.Brk? then Norm(body.st) else body, m')
  {}

  // ----- do-while -----

  /** The code of a `do` loop: body at `head`, condition at `cond`, `LoopEnd` at `end`. */
  ghost predicate DoWhileAt(P: Code, h: Emitted, g: Gen, head: nat, end: nat) {
    var cond := head + |h.code|;
    && end == cond + |g.code| + 1
    && LinkedAt(P, head, h.code, end, cond)
    && CodeAt(P, cond, g.code)
    && end < |P| && P[end - 1] == M.JmpIfTrue(g.rv.reg, head) && P[end] == M.LoopEnd
    && Even(P, head, cond) && Even(P, head, end - 1) && Even(P, head, end)
  }

  lemma DoWhileCode(P: Code, h: Emitted, g: Gen, a: nat, end: nat, brk: nat, cont: nat)
    requires end == a + 1 + |h.code| + |g.code| + 1
    requires LinkedAt(P, a, DoWhileGen(h, g, a + 1, a + 1 + |h.code|, end).code, brk, cont) && Plain(g.code)
    requires Balanced(h.code)
    ensures a < |P| && P[a] == M.LoopBegin && DoWhileAt(P, h, g, a + 1, end)
    ensures end < |P| && P[end] == M.LoopEnd
  {
    hide CodeAt, LinkedAt;
    var cond := a + 1 + |h.code|;
    var tail := [M.JmpIfTrue(g.rv.reg, a + 1), M.LoopEnd];
    LoopCode(P, h.code + g.code, tail, a, end, cond, brk, cont);
    LinkedSplit(P, a + 1, h.code, g.code, end, cond);
    LinkedPlain(P, cond, g.code, end, cond);
    EvenSpan(P, a + 1, h.code, end, cond);
    EvenPlain(P, cond, g.code, cond, end - 1);
    EvenOp(P, end - 1);
  }

  lemma SimDoWhile(P: Code, o: Owners, s: Stmt, a: nat, r: nat, c: nat, brk: nat, cont: nat, st: State, fuel: nat, m: VM)
    returns (m': VM)
    requires s.DoWhile?
    requires LinkedAt(P, a, EmitStmt(s, a, r, c).code, brk, cont) && OwnedStmt(s, a, r, c, o) && SitesUnique(o)
    requires Matches(o, st, m) && m.bci == a
    ensures StmtPost(P, o, a + |EmitStmt(s, a, r, c).code|, brk, cont, r, c, m, Exec(s, st, fuel), m')
    decreases fuel, s, 2
  {
    hide CodeAt, Matches, EmitNc, OwnedNc, LinkedAt, EmitBlock, OwnedBlock, Exec, SitesUnique, StmtPost, DoWhileAt, ExecOp;
    var h := EmitBlock(s.body, a + 1, r, c);
    var g := EmitNc(s.cond, a + 1 + |h.code|, h.r, h.c);
    var end := a + 1 + |h.code| + |g.code| + 1;
    NcPlaced(s.cond, a + 1 + |h.code|, h.r, h.c);
    BlockBalanced(s.body, a + 1, r, c);
    DoWhileCode(P, h, g, a, end, brk, cont);
    var m1 := LoopEnter(P, o, st, m);
    var m2 := SimDoWhileFrom(P, o, s, a + 1, end, r, c, brk, cont, st, fuel, m1);
    DoWhileCompletes(s, st, fuel);
    m' := LoopWrap(P, o, end, brk, cont, r, c, m, m1, Exec(s, st, fuel), m2);
  }

  lemma DoWhileCompletes(s: Stmt, st: State, fuel: nat)
    requires s.DoWhile?
    ensures !Exec(s, st, fuel).Brk? && !Exec(s, st, fuel).Cnt?
    decreases fuel
  {
    if fuel > 0 {
      var b := ExecBlock(s.body, st, fuel);
      if b.Norm? || b.Cnt? {
        var rc := Eval(s.cond, b.st);
        if rc.Val? && rc.v == Bool(true) {
          DoWhileCompletes(s, rc.st, fuel - 1);
        }
      }
    }
  }

  lemma {:induction false} SimDoWhileFrom(P: Code, o: Owners, s: Stmt, head: nat, end: nat, r: nat, c: nat,
                                          brk: nat, cont: nat, st: State, fuel: nat, m: VM) returns (m': VM)
    requires s.DoWhile? && SitesUnique(o) && Matches(o, st, m) && m.bci == head
    requires var h := EmitBlock(s.body, head, r, c);
             var g := EmitNc(s.cond, head + |h.code|, h.r, h.c);
             && DoWhileAt(P, h, g, head, end)
             && OwnedBlock(s.body, head, r, c, o) && OwnedNc(s.cond, head + |h.code|, h.r, h.c, o)
    ensures StmtPost(P, o, end, brk, cont, r, c, m, Exec(s, st, fuel), m')
    decreases fuel, s, 1
  {
    hide CodeAt, Matches, EmitNc, OwnedNc, LinkedAt, EmitBlock, OwnedBlock, Eval, ExecBlock, SitesUnique, StmtPost, ExecOp;
    m' := m;
    if fuel == 0 {
      TimedOut(P, o, end, brk, cont, r, c, m, m');
    } else {
      var h := EmitBlock(s.body, head, r, c);
      var cond := head + |h.code|;
      var body := ExecBlock(s.body, st, fuel);
      m' := SimBlock(P, o, s.body, head, r, c, end, cond, st, fuel, m);
      if body.Norm? || body.Cnt? {
        Landing(P, o, cond, end, cond, r, c, m, body, m');
        BlockGrows(s.body, head, r, c);
        var m1 := m';
        m' := SimDoWhileCond(P, o, s, head, end, r, c, brk, cont, body.st, fuel, m1);
        Then(P, o, end, brk, cont, r, c, r, c, m, m1, AfterBody(s, body.st, fuel), m');
      } else {
        BreakOut(P, o, cond, end, cond, end, brk, cont, r, c, m, body, m');
      }
    }
  }

  lemma TimedOut(P: Code, o: Owners, end: nat, brk: nat, cont: nat, r: nat, c: nat, m: VM, m': VM)
    ensures StmtPost(P, o, end, brk, cont, r, c, m, Timeout(0), m')
  {}

  /** A `do` loop from its condition on. */
  function AfterBody(s: Stmt, st: State, fuel: nat): SResult
    requires s.DoWhile? && fuel > 0
  {
    var rc := Eval(s.cond, st);
    if rc.Exc? then Fail(rc.x, rc.st)
    else if !rc.v.Bool? then Fail(BoolExpected, rc.st)
    else if rc.v.b then Tick(Exec(s, rc.st, fuel - 1)) else Norm(rc.st)
  }

  lemma SimDoWhileCond(P: Code, o: Owners, s: Stmt, head: nat, end: nat, r: nat, c: nat, brk: nat, cont: nat,
                       st: State, fuel: nat, m: VM) returns (m': VM)
    requires fuel > 0 && s.DoWhile? && SitesUnique(o) && Matches(o, st, m)
    requires var h := EmitBlock(s.body, head, r, c);
             var g := EmitNc(s.cond, head + |h.code|, h.r, h.c);
             && DoWhileAt(P, h, g, head, end) && m.bci == head + |h.code| && r <= h.r && c <= h.c
             && OwnedBlock(s.body, head, r, c, o) && OwnedNc(s.cond, head + |h.code|, h.r, h.c, o)
    ensures StmtPost(P, o, end, brk, cont, r, c, m, AfterBody(s, st, fuel), m')
    decreases fuel, s, 0
  {
    hide CodeAt, Matches, EmitNc, OwnedNc, LinkedAt, EmitBlock, OwnedBlock, Eval, Exec, SitesUnique, CondPost, StmtPost, ExecOp;
    var h := EmitBlock(s.body, head, r, c);
    var cond := head + |h.code|;
    var g := EmitNc(s.cond, cond, h.r, h.c);
    var rc := Eval(s.cond, st);
    m' := SimCond(P, o, s.cond, cond, h.r, h.c, true, head, st, m);
    CondWeaken(P, o, rc, head, end, r, c, h.r, h.c, m, m');
    CondFails(P, o, rc, head, end, r, c, m, m', end, brk, cont);
    if rc.Val? && rc.v.Bool? {
      var m1 := m';
      if rc.v.b {
        m' := SimDoWhileFrom(P, o, s, head, end, r, c, brk, cont, rc.st, fuel - 1, m1);
        ReachesSelf(P, m1);
        ThenTick(P, o, end, brk, cont, r, c, m, m1, m1, Exec(s, rc.st, fuel - 1), m');
      } else {
        Arrived(P, o, end, brk, cont, r, c, m, rc.st, m');
      }
    }
  }

  lemma CondWeaken(P: Code, o: Owners, rc: EResult, yes: nat, no: nat, r: nat, c: nat, r1: nat, c1: nat, m: VM, m': VM)
    requires CondPost(P, o, rc, yes, no, r1, c1, m, m') && r <= r1 && c <= c1
    ensures CondPost(P, o, rc, yes, no, r, c, m, m')
  {}

  // ----- for -----

  /** The code of a `for` loop from its `For` opcode at `head` to its `LoopEnd` at `end`. */
  ghost predicate ForAt(P: Code, n: string, r: nat, it: nat, h: Emitted, head: nat, end: nat) {
    && end == head + 2 + |h.code| + 1 && end < |P|
    && P[head] == M.For(r, it, end) && P[head + 1] == M.StoreName(r, n)
    && LinkedAt(P, head + 2, h.code, end, head)
    && P[end - 1] == M.Jmp(head) && P[end] == M.LoopEnd
    && Even(P, head, head + 2) && Even(P, head, end - 1) && Even(P, head, end)
  }

  lemma ForLast(P: Code, n: string, r: nat, it: nat, h: Emitted, head: nat, end: nat)
    requires ForAt(P, n, r, it, h, head, end)
    ensures end < |P| && P[end] == M.LoopEnd
  {
    hide LinkedAt, Even;
  }

  lemma ForCode(P: Code, n: string, r: nat, c: nat, g: Gen, h: Emitted, a: nat, end: nat, brk: nat, cont: nat)
    requires end == a + 2 + |g.code| + 2 + 2 + |h.code| + 1
    requires LinkedAt(P, a, ForGen(n, r, c, g, h, a + 2 + |g.code| + 2, end).code, brk, cont) && Plain(g.code)
    requires Balanced(h.code)
    ensures a + 1 < |P| && P[a] == M.StoreNilConst(c) && P[a + 1] == M.StoreConst(r, c)
    ensures CodeAt(P, a + 2, g.code)
    ensures var a1 := a + 2 + |g.code|;
            a1 + 1 < |P| && P[a1] == M.LoopBegin && P[a1 + 1] == M.Iter(g.r, g.rv.reg)
    ensures ForAt(P, n, r, g.r, h, a + 2 + |g.code| + 2, end)
  {
    var a1 := a + 2 + |g.code|;
    var x := [M.StoreNilConst(c), M.StoreConst(r, c)];
    var y := [M.LoopBegin, M.Iter(g.r, g.rv.reg)];
    var z := Patch([M.For(r, g.r, end), M.StoreName(r, n)] + h.code, end, a1 + 2) + [M.Jmp(a1 + 2), M.LoopEnd];
    ForHead(P, x, g, y, z, a, brk, cont);
    ForTail(P, n, r, g.r, h, a1 + 2, end, brk, cont);
  }

  lemma ForHead(P: Code, x: Code, g: Gen, y: Code, z: Code, a: nat, brk: nat, cont: nat)
    requires LinkedAt(P, a, x + (g.code + (y + z)), brk, cont) && Plain(g.code)
    requires |x| == 2 && |y| == 2 && !x[0].BreakTo? && !x[1].BreakTo? && !y[0].BreakTo? && !y[1].BreakTo?
    ensures var a1 := a + 2 + |g.code|;
            && a + 1 < |P| && P[a] == x[0] && P[a + 1] == x[1]
            && CodeAt(P, a + 2, g.code)
            && a1 + 1 < |P| && P[a1] == y[0] && P[a1 + 1] == y[1]
            && LinkedAt(P, a1 + 2, z, brk, cont)
  {
    hide CodeAt, LinkedAt;
    var a1 := a + 2 + |g.code|;
    LinkedSplit(P, a, x, g.code + (y + z), brk, cont);
    LinkedSplit(P, a + 2, g.code, y + z, brk, cont);
    LinkedSplit(P, a1, y, z, brk, cont);
    LinkedPlain(P, a + 2, g.code, brk, cont);
    LinkedOp(P, a, x, 0, brk, cont);
    LinkedOp(P, a, x, 1, brk, cont);
    LinkedOp(P, a1, y, 0, brk, cont);
    LinkedOp(P, a1, y, 1, brk, cont);
  }

  lemma ForTail(P: Code, n: string, r: nat, it: nat, h: Emitted, head: nat, end: nat, brk: nat, cont: nat)
    requires end == head + 2 + |h.code| + 1 && Balanced(h.code)
    requires LinkedAt(P, head, Patch([M.For(r, it, end), M.StoreName(r, n)] + h.code, end, head) + [M.Jmp(head), M.LoopEnd], brk, cont)
    ensures ForAt(P, n, r, it, h, head, end)
  {
    hide CodeAt, LinkedAt;
    var x := [M.For(r, it, end), M.StoreName(r, n)];
    var tail := [M.Jmp(head), M.LoopEnd];
    LinkedSplit(P, head, Patch(x + h.code, end, head), tail, brk, cont);
    LinkedTwice(P, head, x + h.code, end, head, brk, cont);
    LinkedSplit(P, head, x, h.code, end, head);
    LinkedOp(P, head, x, 0, end, head);
    LinkedOp(P, head, x, 1, end, head);
    LinkedOp(P, end - 1, tail, 0, brk, cont);
    LinkedOp(P, end - 1, tail, 1, brk, cont);
    EvenOp(P, head);
    EvenOp(P, head + 1);
    EvenSpan(P, head + 2, h.code, end, head);
    EvenOp(P, end - 1);
  }

  /** Storing nil into the loop's register resets the variable exactly when this loop binds it. */
  lemma WriteReset(o: Owners, st: State, m: VM, r: nat, n: string, site: nat)
    requires Matches(o, st, m) && Owns(o, r, n, Some(site)) && SitesUnique(o)
    ensures Matches(o, ResetIterator(st, site, n), Put(m, r, Nil))
  {
    var st' := ResetIterator(st, site, n);
    var m' := Put(m, r, Nil);
    assert n in m.names ==> Bound(o, st, m, n);
    assert m'.names.Keys == st'.vars.Keys;
    forall k | k in m'.names ensures Bound(o, st', m', k) {
      assert Bound(o, st, m, k);
    }
  }

  lemma SimForStart(P: Code, o: Owners, s: Stmt, a: nat, r: nat, c: nat, st: State, m: VM) returns (m': VM)
    requires s.For? && Owns(o, r, s.name, Some(s.site)) && SitesUnique(o)
    requires a + 1 < |P| && P[a] == M.StoreNilConst(c) && P[a + 1] == M.StoreConst(r, c)
    requires Matches(o, st, m) && m.bci == a
    ensures Matches(o, ResetIterator(st, s.site, s.name), m') && Reaches(P, m, m') && Kept(m, m', r, c) && m'.bci == a + 2
  {
    var m1 := PutConst(m, c, Nil);
    RunPlain(P, o, st, m, m1);
    WriteReset(o, st, m1, r, s.name, s.site);
    m' := Put(m1, r, Nil);
    ReachesStep(P, m1, m');
    ReachesTrans(P, m, m1, m');
  }

  lemma RunIter(P: Code, o: Owners, st: State, m: VM, it: nat, src: nat, v: Value) returns (m': VM)
    requires Matches(o, st, m) && Holds(m, RegValue(src, false, false), v)
    requires m.bci < |P| && P[m.bci] == M.Iter(it, src)
    ensures Matches(o, st, m')
    ensures match Iterate(v)
            case Ok(vs) => m' == m.(iters := m.iters[it := vs], bci := m.bci + 1) && Reaches(P, m, m')
            case Err(x) => Raises(P, m, x, m')
  {
    match Iterate(v)
    case Ok(vs) =>
      m' := m.(iters := m.iters[it := vs], bci := m.bci + 1);
      RunPlain(P, o, st, m, m');
    case Err(x) =>
      m' := m;
      ReachesSelf(P, m);
      RaisesStep(P, m, m, x, m);
  }

  lemma KeptIter(m: VM, it: nat, vs: seq<Value>, r: nat, c: nat)
    requires r <= it
    ensures Kept(m, m.(iters := m.iters[it := vs], bci := m.bci + 1), r, c)
  {}

  /** The next value goes to the loop's register and the name is bound to it. */
  lemma RunForStep(P: Code, o: Owners, st: State, m: VM, r: nat, it: nat, end: nat, n: string, site: nat, vs: seq<Value>)
    returns (m': VM)
    requires Matches(o, st, m) && Owns(o, r, n, Some(site))
    requires m.bci + 1 < |P| && P[m.bci] == M.For(r, it, end) && P[m.bci + 1] == M.StoreName(r, n)
    requires it in m.iters && m.iters[it] == vs && vs != [] && r < it
    ensures Matches(o, BindIterator(st, site, n, vs[0]), m') && Reaches(P, m, m') && m'.bci == m.bci + 2
    ensures it in m'.iters && m'.iters[it] == vs[1..]
    ensures forall c :: Kept(m, m', r, c)
  {
    var m1 := m.(iters := m.iters[it := vs[1..]]);
    KeepMatch(o, st, m, m1);
    m' := WriteAndBind(o, st, m1, r, n, Some(site), vs[0]);
    var m2 := Put(m1, r, vs[0]);
    ReachesStep(P, m, m2);
    assert Step(P, m2) == Running(m');
    ReachesStep(P, m2, m');
    ReachesTrans(P, m, m2, m');
  }

  lemma ForCompletes(site: nat, n: string, body: List<Stmt>, vs: seq<Value>, st: State, fuel: nat)
    ensures var res := ExecFor(site, n, body, vs, st, fuel); !res.Brk? && !res.Cnt?
    decreases |vs|
  {
    if vs != [] {
      var b := ExecBlock(body, BindIterator(st, site, n, vs[0]), fuel);
      if b.Norm? || b.Cnt? {
        ForCompletes(site, n, body, vs[1..], b.st, fuel);
      }
    }
  }

  lemma SimFor(P: Code, o: Owners, s: Stmt, a: nat, r: nat, c: nat, brk: nat, cont: nat, st: State, fuel: nat, m: VM)
    returns (m': VM)
    requires s.For?
    requires LinkedAt(P, a, EmitStmt(s, a, r, c).code, brk, cont) && OwnedStmt(s, a, r, c, o) && SitesUnique(o)
    requires Matches(o, st, m) && m.bci == a
    ensures StmtPost(P, o, a + |EmitStmt(s, a, r, c).code|, brk, cont, r, c, m, Exec(s, st, fuel), m')
    decreases fuel, s, 2
  {
    hide CodeAt, Matches, EmitNc, OwnedNc, Eval, LinkedAt, EmitBlock, OwnedBlock, ExecFor, SitesUnique, ExprPost,
      StmtPost, ForAt, ResetIterator, Kept, Reaches, Plain, Balanced, ExecOp;
    var g := EmitNc(s.collection, a + 2, r + 1, c + 1);
    var a1 := a + 2 + |g.code|;
    var h := EmitBlock(s.body, a1 + 4, g.r + 1, g.c);
    var end := a1 + 4 + |h.code| + 1;
    NcPlaced(s.collection, a + 2, r + 1, c + 1);
    BlockBalanced(s.body, a1 + 4, g.r + 1, g.c);
    ForCode(P, s.name, r, c, g, h, a, end, brk, cont);
    var st0 := ResetIterator(st, s.site, s.name);
    var m0 := SimForStart(P, o, s, a, r, c, st, m);
    var m1 := SimNc(P, o, s.collection, a + 2, r + 1, c + 1, st0, m0);
    var rc := Eval(s.collection, st0);
    ExprThen(P, o, a1, g.rv, r + 1, c + 1, m0, rc, m1);
    if rc.Exc? {
      m' := m1;
      Then(P, o, end + 1, brk, cont, r, c, r + 1, c + 1, m, m0, Fail(rc.x, rc.st), m1);
    } else {
      ReachesTrans(P, m, m0, m1);
      KeptTrans(m, m0, m1, r, c, r + 1, c + 1);
      m' := SimForLoop(P, o, s, g, a1, end, r, c, brk, cont, rc, fuel, m1);
      Then(P, o, end + 1, brk, cont, r, c, r, c, m, m1, ForResult(s, rc, fuel), m');
    }
  }

  /** A `for` loop once its collection is known. */
  function ForResult(s: Stmt, rc: EResult, fuel: nat): SResult
    requires s.For? && rc.Val?
  {
    match Iterate(rc.v)
    case Ok(vs) => ExecFor(s.site, s.name, s.body, vs, rc.st, fuel)
    case Err(x) => Fail(x, rc.st)
  }

  lemma SimForLoop(P: Code, o: Owners, s: Stmt, g: Gen, a: nat, end: nat, r: nat, c: nat, brk: nat, cont: nat,
                   rc: EResult, fuel: nat, m: VM) returns (m': VM)
    requires s.For? && rc.Val? && SitesUnique(o) && Owns(o, r, s.name, Some(s.site)) && r < g.r && c <= g.c && !g.rv.constant
    requires Matches(o, rc.st, m) && m.bci == a && Holds(m, g.rv, rc.v)
    requires a + 1 < |P| && P[a] == M.LoopBegin && P[a + 1] == M.Iter(g.r, g.rv.reg)
    requires ForAt(P, s.name, r, g.r, EmitBlock(s.body, a + 4, g.r + 1, g.c), a + 2, end)
    requires OwnedBlock(s.body, a + 4, g.r + 1, g.c, o)
    ensures StmtPost(P, o, end + 1, brk, cont, r, c, m, ForResult(s, rc, fuel), m')
    decreases fuel, s, 1
  {
    hide CodeAt, Matches, LinkedAt, EmitBlock, OwnedBlock, ExecFor, SitesUnique, Iterate, Reaches, Raises, Lasts, Even, Kept,
      ForAt, ExecOp;
    ForLast(P, s.name, r, g.r, EmitBlock(s.body, a + 4, g.r + 1, g.c), a + 2, end);
    var m1 := LoopEnter(P, o, rc.st, m);
    var m2 := RunIter(P, o, rc.st, m1, g.r, g.rv.reg, rc.v);
    match Iterate(rc.v)
    case Err(x) =>
      m' := m2;
      RaisesTrans(P, m, m1, x, m2);
    case Ok(vs) =>
      KeptIter(m1, g.r, vs, r, c);
      var m3 := SimForFrom(P, o, s, vs, g.r, g.c, a + 2, end, r, c, brk, cont, rc.st, fuel, m2);
      ForCompletes(s.site, s.name, s.body, vs, rc.st, fuel);
      var res := ExecFor(s.site, s.name, s.body, vs, rc.st, fuel);
      Then(P, o, end, brk, cont, r, c, r, c, m1, m2, res, m3);
      m' := LoopWrap(P, o, end, brk, cont, r, c, m, m1, res, m3);
  }

  /** A loop without further elements. */
  lemma ForEnds(P: Code, o: Owners, st: State, m: VM, r: nat, it: nat, end: nat, c: nat) returns (m': VM)
    requires Matches(o, st, m) && it in m.iters && m.iters[it] == []
    requires m.bci < |P| && P[m.bci] == M.For(r, it, end) && Even(P, m.bci, end)
    ensures Matches(o, st, m') && Reaches(P, m, m') && Kept(m, m', r, c) && m'.bci == end
  {
    hide Matches, Reaches, Even;
    m' := m.(bci := end);
    RunPlain(P, o, st, m, m');
  }

  lemma ForUnfolds(s: Stmt, vs: seq<Value>, st: State, fuel: nat)
    requires s.For?
    ensures var res := ExecFor(s.site, s.name, s.body, vs, st, fuel);
            && (vs == [] ==> res == Norm(st))
            && (vs != [] ==>
                  var b := ExecBlock(s.body, BindIterator(st, s.site, s.name, vs[0]), fuel);
                  && (b.Norm? || b.Cnt? ==> res == ExecFor(s.site, s.name, s.body, vs[1..], b.st, fuel))
                  && (b.Brk? ==> res == Norm(b.st)) && (b.Fail? || b.Timeout? ==> res == b))
  {
    hide ExecBlock, BindIterator;
  }

  lemma {:induction false} SimForFrom(P: Code, o: Owners, s: Stmt, vs: seq<Value>, it: nat, c1: nat, head: nat, end: nat,
                                      r: nat, c: nat, brk: nat, cont: nat, st: State, fuel: nat, m: VM) returns (m': VM)
    requires s.For? && SitesUnique(o) && Owns(o, r, s.name, Some(s.site)) && r < it && c <= c1
    requires Matches(o, st, m) && m.bci == head && it in m.iters && m.iters[it] == vs
    requires ForAt(P, s.name, r, it, EmitBlock(s.body, head + 2, it + 1, c1), head, end)
    requires OwnedBlock(s.body, head + 2, it + 1, c1, o)
    ensures StmtPost(P, o, end, brk, cont, r, c, m, ExecFor(s.site, s.name, s.body, vs, st, fuel), m')
    decreases fuel, s, 0, |vs|
  {
    hide CodeAt, Matches, LinkedAt, EmitBlock, OwnedBlock, ExecBlock, SitesUnique, StmtPost, BindIterator, Kept, Reaches, Raises,
      Lasts, ExecOp;
    ForUnfolds(s, vs, st, fuel);
    if vs == [] {
      m' := ForEnds(P, o, st, m, r, it, end, c);
      Arrived(P, o, end, brk, cont, r, c, m, st, m');
    } else {
      var st1 := BindIterator(st, s.site, s.name, vs[0]);
      var m1 := RunForStep(P, o, st, m, r, it, end, s.name, s.site, vs);
      assert Kept(m, m1, r, c);
      var body := ExecBlock(s.body, st1, fuel);
      var m2 := SimBlock(P, o, s.body, head + 2, it + 1, c1, end, head, st1, fuel, m1);
      if body.Norm? || body.Cnt? {
        Landing(P, o, end - 1, end, head, it + 1, c1, m1, body, m2);
        var m3 := ForAgain(P, o, it, head, end - 1, r, c, c1, m, m1, body.st, m2);
        m' := SimForFrom(P, o, s, vs[1..], it, c1, head, end, r, c, brk, cont, body.st, fuel, m3);
        Then(P, o, end, brk, cont, r, c, r, c, m, m3, ExecFor(s.site, s.name, s.body, vs[1..], body.st, fuel), m');
      } else {
        m' := m2;
        Then(P, o, end - 1, end, head, r, c, it + 1, c1, m, m1, body, m2);
        BreakOut(P, o, end - 1, end, head, end, brk, cont, r, c, m, body, m2);
      }
    }
  }

  /** From the end of the body, or a continue, back to the head with the iterator intact. */
  lemma ForAgain(P: Code, o: Owners, it: nat, head: nat, at: nat, r: nat, c: nat, c1: nat, m: VM, m1: VM, st: State, m2: VM)
    returns (m3: VM)
    requires Reaches(P, m, m1) && Kept(m, m1, r, c) && r < it && c <= c1 && it in m1.iters
    requires Reaches(P, m1, m2) && Kept(m1, m2, it + 1, c1) && Matches(o, st, m2)
    requires m2.bci == head || (m2.bci == at < |P| && P[at] == M.Jmp(head) && Even(P, at, head))
    ensures Reaches(P, m, m3) && Kept(m, m3, r, c) && Matches(o, st, m3) && m3.bci == head
    ensures it in m3.iters && m3.iters[it] == m1.iters[it]
  {
    ReachesTrans(P, m, m1, m2);
    KeptTrans(m, m1, m2, r, c, it + 1, c1);
    m3 := m2;
    if m2.bci != head {
      m3 := RunJmp(P, o, st, m2, head);
      ReachesTrans(P, m, m2, m3);
    }
  }

  // ----- switch -----

  lemma BodiesCode(P: Code, o: Owners, cs: List<Case>, a: nat, r: nat, c: nat, end: nat, brk: nat, cont: nat)
    requires cs.Cons?
    requires LinkedAt(P, a, EmitBodies(cs, a, r, c, end).code, brk, cont) && OwnedBodies(cs, a, r, c, o)
    ensures var g := EmitBlock(cs.head.body, a, r, c);
            var h := EmitBodies(cs.tail, a + |g.code| + 1, g.r, g.c, end);
            && LinkedAt(P, a, g.code, brk, cont) && OwnedBlock(cs.head.body, a, r, c, o) && r <= g.r && c <= g.c
            && a + |g.code| < |P| && P[a + |g.code|] == M.Jmp(end)
            && LinkedAt(P, a + |g.code| + 1, h.code, brk, cont) && OwnedBodies(cs.tail, a + |g.code| + 1, g.r, g.c, o)
            && Even(P, a, a + |g.code|) && Even(P, a, a + |g.code| + 1)
  {
    hide CodeAt, EmitBlock, OwnedBlock, LinkedAt;
    var g := EmitBlock(cs.head.body, a, r, c);
    var h := EmitBodies(cs.tail, a + |g.code| + 1, g.r, g.c, end);
    BlockGrows(cs.head.body, a, r, c);
    LinkedSplit(P, a, g.code, [M.Jmp(end)] + h.code, brk, cont);
    LinkedSplit(P, a + |g.code|, [M.Jmp(end)], h.code, brk, cont);
    LinkedOp(P, a + |g.code|, [M.Jmp(end)], 0, brk, cont);
    BlockBalanced(cs.head.body, a, r, c);
    EvenSpan(P, a, g.code, brk, cont);
    EvenOp(P, a + |g.code|);
  }

  /** All bodies start at the depth of the switch. */
  lemma {:induction false} BodyEven(P: Code, o: Owners, cs: List<Case>, k: nat, a: nat, r: nat, c: nat, end: nat, brk: nat, cont: nat)
    requires k < Length(cs) && LinkedAt(P, a, EmitBodies(cs, a, r, c, end).code, brk, cont) && OwnedBodies(cs, a, r, c, o)
    ensures Even(P, a, BodyAddr(cs, k, a, r, c))
    decreases cs
  {
    hide CodeAt, EmitBlock, OwnedBlock, EmitBodies, OwnedBodies, LinkedAt;
    BodiesCode(P, o, cs, a, r, c, end, brk, cont);
    if k > 0 {
      var g := EmitBlock(cs.head.body, a, r, c);
      BodyEven(P, o, cs.tail, k - 1, a + |g.code| + 1, g.r, g.c, end, brk, cont);
    }
  }

  lemma {:induction false} SimCase(P: Code, o: Owners, cs: List<Case>, k: nat, a: nat, r: nat, c: nat, end: nat,
                                   brk: nat, cont: nat, st: State, fuel: nat, m: VM) returns (m': VM)
    requires k < Length(cs) && SitesUnique(o) && Matches(o, st, m) && LevelWith(P, a, brk, cont) && Even(P, a, end)
    requires LinkedAt(P, a, EmitBodies(cs, a, r, c, end).code, brk, cont) && OwnedBodies(cs, a, r, c, o)
    requires m.bci == BodyAddr(cs, k, a, r, c)
    ensures StmtPost(P, o, end, brk, cont, r, c, m, ExecCase(cs, k, st, fuel), m')
    decreases fuel, cs, 0
  {
    hide CodeAt, Matches, EmitBlock, OwnedBlock, EmitBodies, OwnedBodies, LinkedAt, SitesUnique, StmtPost, ExecBlock, ExecOp;
    var g := EmitBlock(cs.head.body, a, r, c);
    BodiesCode(P, o, cs, a, r, c, end, brk, cont);
    KeptSelf(m, r, c);
    ReachesSelf(P, m);
    if k == 0 {
      var m1 := SimBlock(P, o, cs.head.body, a, r, c, brk, cont, st, fuel, m);
      m' := BodyThen(P, o, a + |g.code|, end, brk, cont, r, c, r, c, m, m, ExecBlock(cs.head.body, st, fuel), m1);
    } else {
      m' := SimCase(P, o, cs.tail, k - 1, a + |g.code| + 1, g.r, g.c, end, brk, cont, st, fuel, m);
      Then(P, o, end, brk, cont, r, c, g.r, g.c, m, m, ExecCase(cs.tail, k - 1, st, fuel), m');
    }
  }

  /** A switch once its condition is known. */
  function SwitchResult(cs: List<Case>, cond: Value, vs: LResult, fuel: nat): SResult {
    if vs.LExc? then Fail(vs.x, vs.st)
    else
      match SelectedCase(cs, vs.vs, cond)
      case None => Norm(vs.st)
      case Some(k) => ExecCase(cs, k, vs.st, fuel)
  }

  lemma SwitchIs(cond: Expr, cs: List<Case>, st: State, fuel: nat)
    ensures var rc := Eval(cond, st);
            var res := Exec(Stmt.Switch(cond, cs), st, fuel);
            && (rc.Exc? ==> res == Fail(rc.x, rc.st))
            && (rc.Val? ==> res == SwitchResult(cs, rc.v, EvalCases(cs, rc.st), fuel))
  {
    hide Eval, EvalCases, SelectedCase, ExecCase;
  }

  lemma UnfoldSwitch(cond: Expr, cs: List<Case>, a: nat, r: nat, c: nat, o: Owners)
    requires OwnedStmt(Stmt.Switch(cond, cs), a, r, c, o)
    ensures var g := EmitNc(cond, a, r, c);
            var v := EmitCaseValues(cs, g.r, a + |g.code| + 1, g.r + 2, g.c);
            var a3 := a + |g.code| + 1 + |v.code| + 1 + 2 * NumValues(cs) + 1;
            var c3 := v.c + NumValues(cs);
            var addrs := CaseAddrs(cs, a3, v.r, c3);
            var end := a3 + |EmitBodies(cs, a3, v.r, c3, 0).code|;
            && EmitStmt(Stmt.Switch(cond, cs), a, r, c)
                 == SwitchGen(g, v, Table(addrs, g.r + 1, v.c), DefaultAddr(cs, a3, v.r, c3, end),
                              EmitBodies(cs, a3, v.r, c3, end))
            && |Table(addrs, g.r + 1, v.c)| == 2 * NumValues(cs)
            && |EmitBodies(cs, a3, v.r, c3, end).code| == end - a3
            && OwnedNc(cond, a, r, c, o) && g.r !in o && g.r + 1 !in o
            && OwnedValues(cs, g.r, a + |g.code| + 1, g.r + 2, g.c, o)
            && OwnedBodies(cs, a3, v.r, c3, o)
  {
    hide EmitNc, EmitCaseValues, EmitBodies, CaseAddrs, DefaultAddr, Table, OwnedNc, OwnedValues, OwnedBodies, SwitchGen, NumValues;
    var g := EmitNc(cond, a, r, c);
    var v := EmitCaseValues(cs, g.r, a + |g.code| + 1, g.r + 2, g.c);
    var a3 := a + |g.code| + 1 + |v.code| + 1 + 2 * NumValues(cs) + 1;
    var c3 := v.c + NumValues(cs);
    CaseAddrsOwner(cs, 0, a3, v.r, c3);
    TableLength(CaseAddrs(cs, a3, v.r, c3), g.r + 1, v.c);
    BodiesLength(cs, a3, v.r, c3, 0, a3 + |EmitBodies(cs, a3, v.r, c3, 0).code|);
  }

  lemma SimSwitch(P: Code, o: Owners, cond: Expr, cs: List<Case>, a: nat, r: nat, c: nat,
                  brk: nat, cont: nat, st: State, fuel: nat, m: VM) returns (m': VM)
    requires var s := Stmt.Switch(cond, cs);
             LinkedAt(P, a, EmitStmt(s, a, r, c).code, brk, cont) && OwnedStmt(s, a, r, c, o)
    requires SitesUnique(o) && LevelWith(P, a, brk, cont) && Matches(o, st, m) && m.bci == a
    ensures var s := Stmt.Switch(cond, cs);
            StmtPost(P, o, a + |EmitStmt(s, a, r, c).code|, brk, cont, r, c, m, Exec(s, st, fuel), m')
    decreases fuel, Stmt.Switch(cond, cs), 2
  {
    hide CodeAt, Matches, EmitNc, OwnedNc, Eval, LinkedAt, EmitStmt, OwnedStmt, EmitBodies, OwnedBodies, SitesUnique, ExprPost,
      EmitCaseValues, OwnedValues, EvalCases, CaseAddrs, DefaultAddr, Table, NumValues, Kept, StmtPost, Exec, SwitchResult, Reaches, ExecOp;
    UnfoldSwitch(cond, cs, a, r, c, o);
    SwitchIs(cond, cs, st, fuel);
    var g := EmitNc(cond, a, r, c);
    var a1 := a + |g.code|;
    var v := EmitCaseValues(cs, g.r, a1 + 1, g.r + 2, g.c);
    var a3 := a1 + 1 + |v.code| + 1 + 2 * NumValues(cs) + 1;
    var c3 := v.c + NumValues(cs);
    var addrs := CaseAddrs(cs, a3, v.r, c3);
    var end := a3 + |EmitBodies(cs, a3, v.r, c3, 0).code|;
    var d := DefaultAddr(cs, a3, v.r, c3, end);
    NcPlaced(cond, a, r, c);
    ValuesGrow(cs, g.r, a1 + 1, g.r + 2, g.c);
    TablePlain(addrs, g.r + 1, v.c);
    SwitchCode(P, g, v, Table(addrs, g.r + 1, v.c), d, EmitBodies(cs, a3, v.r, c3, end), a, brk, cont);
    BodiesBalanced(cs, a3, v.r, c3, end);
    EvenSpan(P, a3, EmitBodies(cs, a3, v.r, c3, end).code, brk, cont);
    LevelMove(P, a, a3, brk, cont);
    var m1 := SimNc(P, o, cond, a, r, c, st, m);
    var rc := Eval(cond, st);
    ExprThen(P, o, a1, g.rv, r, c, m, rc, m1);
    m' := m1;
    if rc.Val? {
      m' := SimSwitchFrom(P, o, cs, g, v, a, a3, end, brk, cont, rc.v, rc.st, fuel, m1);
      Then(P, o, end, brk, cont, r, c, g.r, g.c, m, m1, SwitchResult(cs, rc.v, EvalCases(cs, rc.st), fuel), m');
    }
  }

  lemma SimSwitchFrom(P: Code, o: Owners, cs: List<Case>, g: Gen, v: Emitted, a: nat, a3: nat, end: nat,
                      brk: nat, cont: nat, cond: Value, st: State, fuel: nat, m: VM) returns (m': VM)
    requires v == EmitCaseValues(cs, g.r, a + |g.code| + 1, g.r + 2, g.c) && g.r !in o && g.r + 1 !in o
    requires g.r <= v.r && g.c <= v.c
    requires OwnedValues(cs, g.r, a + |g.code| + 1, g.r + 2, g.c, o)
    requires var c3 := v.c + NumValues(cs);
             && SwitchAt(P, g, v.code, Table(CaseAddrs(cs, a3, v.r, c3), g.r + 1, v.c), DefaultAddr(cs, a3, v.r, c3, end), a, a3)
             && LinkedAt(P, a3, EmitBodies(cs, a3, v.r, c3, end).code, brk, cont) && OwnedBodies(cs, a3, v.r, c3, o)
    requires LevelWith(P, a3, brk, cont) && Even(P, a3, end) && Even(P, a3 - 1, a3)
    requires SitesUnique(o) && Matches(o, st, m) && m.bci == a + |g.code| && Holds(m, g.rv, cond)
    requires !g.rv.constant && g.rv.reg < g.r
    ensures StmtPost(P, o, end, brk, cont, g.r, g.c, m, SwitchResult(cs, cond, EvalCases(cs, st), fuel), m')
    decreases fuel, cs, 1
  {
    hide CodeAt, Matches, LinkedAt, EmitBodies, OwnedBodies, SitesUnique, EmitCaseValues, OwnedValues, EvalCases,
      CaseAddrs, DefaultAddr, Table, NumValues, Kept, SelectedCase, ExecCase, BodyAddr, Reaches, Raises, Lasts, Plain, ExecOp;
    var c3 := v.c + NumValues(cs);
    var d := DefaultAddr(cs, a3, v.r, c3, end);
    var m1 := SimTables(P, o, g, v, cs, CaseAddrs(cs, a3, v.r, c3), d, a, a3, st, m, cond);
    var vs := EvalCases(cs, st);
    m' := m1;
    if vs.Vals? {
      CasesCount(cs, st);
      forall k | 0 <= k < Length(cs) ensures Even(P, m1.bci, BodyAddr(cs, k, a3, v.r, c3)) {
        BodyEven(P, o, cs, k, a3, v.r, c3, end, brk, cont);
      }
      m' := RunSwitch(P, o, cs, g.rv.reg, g.r, a3, v.r, c3, end, vs.st, m1, cond, vs.vs);
      var m2 := m';
      ReachesTrans(P, m, m1, m2);
      KeptJump(m, m1, m2, g.r, g.c);
      var k := SelectedCase(cs, vs.vs, cond);
      if k.Some? {
        m' := SimCase(P, o, cs, k.value, a3, v.r, c3, end, brk, cont, vs.st, fuel, m2);
        Then(P, o, end, brk, cont, g.r, g.c, v.r, c3, m, m2, ExecCase(cs, k.value, vs.st, fuel), m');
      }
    }
  }
}

/** The code of a comprehension (bytecode/bytecodegen.cpp): the lowered loops, then a load of their hidden
    variable. It computes the nested flat-map. */
module ComprehensionCode {
  import opened Lists
  import opened Values
  import opened Ir
  import opened Codegen
  import opened Ownership
  import opened Layout
  import opened ExprSimulation
  import opened StmtBasics
  import opened StmtSimulation
  import opened BreakResolution
  import opened CompilerCorrect
  import opened M = Machine
  import C = Comprehension

  type Code = M.Code
  type Compr = C.Compr

  function ComprGen(c: Compr, a: nat, r: nat, k: nat): Codegen.Gen {
    var g := EmitBlock(C.Lowered(c), a, r, k);
    Codegen.Gen(g.code + [M.Load(g.r, c.acc)], g.r + 1, g.c, RegValue(g.r, false, false))
  }

  // ----- the lowered loops as a program -----

  /** Every loop made from the comprehension is its own site. */
  predicate DistinctSites(c: Compr) {
    forall i, j :: 0 <= i < j < |c.gens| ==> c.gens[i].site != c.gens[j].site
  }

  lemma {:induction false} NestSites(c: Compr, i: nat)
    requires i <= |c.gens| && DistinctSites(c)
    ensures DistinctStmt(C.Nest(c, i)) && !LooseStmt(C.Nest(c, i))
    ensures forall s :: s in StmtSites(C.Nest(c, i)) <==> exists j :: i <= j < |c.gens| && c.gens[j].site == s
    decreases |c.gens| - i
  {
    if i == |c.gens| {
      InnermostPlain(c);
    } else {
      NestSites(c, i + 1);
      PlainSingle(C.Nest(c, i + 1));
    }
  }

  lemma {:induction false} InnermostPlain(c: Compr)
    ensures DistinctStmt(C.Innermost(c)) && !LooseStmt(C.Innermost(c)) && StmtSites(C.Innermost(c)) == {}
  {
    AppendPlain(c.acc, c.result);
    if c.orelse.Some? {
      AppendPlain(c.acc, c.orelse.value);
    }
    hide C.AppendTo;
  }

  lemma {:induction false} AppendPlain(acc: string, e: Expr)
    ensures var b := Cons(C.AppendTo(acc, e), Empty); DistinctBlock(b) && !LooseBlock(b) && BlockSites(b) == {}
    ensures var s := C.AppendTo(acc, e); DistinctStmt(s) && !LooseStmt(s) && StmtSites(s) == {}
  {
    PlainSingle(C.AppendTo(acc, e));
  }

  lemma {:induction false} PlainSingle(s: Stmt)
    ensures var b := Cons(s, Empty);
            && (DistinctBlock(b) <==> DistinctStmt(s)) && (LooseBlock(b) <==> LooseStmt(s)) && BlockSites(b) == StmtSites(s)
  {
    hide DistinctStmt, LooseStmt, StmtSites;
    assert BlockSites(Empty) == {} && DistinctBlock(Empty) && !LooseBlock(Empty);
  }

  lemma {:induction false} LoweredProgram(c: Compr)
    requires DistinctSites(c)
    ensures Program(C.Lowered(c))
    ensures forall i :: 0 <= i < |c.gens| ==> c.gens[i].site in BlockSites(C.Lowered(c))
  {
    NestSites(c, 0);
    hide C.Nest;
    PlainSingle(C.Nest(c, 0));
    var first := ExprStmt(Set(c.acc, ListLit(Empty)));
    assert DistinctStmt(first) && !LooseStmt(first) && StmtSites(first) == {};
    hide StmtSites, LooseStmt, DistinctStmt;
  }

  // ----- in place, inside any code -----

  lemma {:induction false} ComprCode(P: Code, c: Compr, a: nat, r: nat, k: nat)
    requires CodeAt(P, a, ComprGen(c, a, r, k).code) && !LooseBlock(C.Lowered(c))
    ensures var g := EmitBlock(C.Lowered(c), a, r, k);
            && LinkedAt(P, a, g.code, a, a) && a + |g.code| < |P| && P[a + |g.code|] == M.Load(g.r, c.acc)
            && |ComprGen(c, a, r, k).code| == |g.code| + 1
  {
    hide EmitBlock, CodeAt, Patch, AllSet, LooseBlock, C.Lowered;
    var g := EmitBlock(C.Lowered(c), a, r, k);
    var last := [M.Load(g.r, c.acc)];
    CodeSplit(P, a, g.code, last);
    CodeOp(P, a + |g.code|, last, 0);
    ResolvedBlock(C.Lowered(c), a, r, k);
    PatchResolved(g.code, a, a);
  }

  /** What the code must achieve: the list in register `dst`, or the exception; no output; and the machine
      shows the state `st1`. */
  ghost predicate Computes(P: Code, o: Owners, end: nat, dst: nat, m: VM, spec: Result<seq<Value>, Exn>, st1: State, m': VM) {
    && Matches(o, st1, m') && m'.out == m.out
    && (match spec
        case Ok(vs) => Reaches(P, m, m') && m'.bci == end && m'.fin == m.fin && Holds(m', RegValue(dst, false, false), ListVal(vs))
        case Err(x) => Raises(P, m, x, m'))
  }

  /** From any state that matches, the code of a comprehension leaves the flat-map in its result register
      and all other variables alone, or raises the flat-map's first exception. */
  lemma {:induction false} SimCompr(P: Code, o: Owners, c: Compr, a: nat, r: nat, k: nat, st: State, m: VM)
    returns (st1: State, m': VM)
    requires C.Lowerable(c) && C.EntersFresh(c, st) && DistinctSites(c)
    requires CodeAt(P, a, ComprGen(c, a, r, k).code) && Matches(o, st, m) && m.bci == a
    requires OwnedBlock(C.Lowered(c), a, r, k, o) && SitesUnique(o) && EmitBlock(C.Lowered(c), a, r, k).r !in o
    ensures var g := ComprGen(c, a, r, k);
            Computes(P, o, a + |g.code|, g.rv.reg, m, C.FlatMap(c, 0, st.vars), st1, m')
    ensures C.FlatMap(c, 0, st.vars).Ok? ==> C.Agrees(st1, st.vars, C.Later(c, 0))
  {
    hide *;
    LoweredProgram(c);
    NotLoose(C.Lowered(c));
    ComprCode(P, c, a, r, k);
    LevelSelf(P, a);
    var res := ExecBlock(C.Lowered(c), st, 0);
    var m1 := SimBlock(P, o, C.Lowered(c), a, r, k, a, a, st, 0, m);
    C.LoweringIsFlatMap(c, st, 0);
    st1, m' := ComprLoad(P, o, c, a, r, k, st, m, res, m1);
  }

  lemma {:induction false} NotLoose(b: List<Stmt>)
    requires Program(b)
    ensures !LooseBlock(b) && DistinctBlock(b)
  {}

  lemma {:induction false} LevelSelf(P: Code, a: nat)
    requires a <= |P|
    ensures LevelWith(P, a, a, a)
  {}

  lemma {:induction false} MatchesOut(o: Owners, st: State, m: VM)
    requires Matches(o, st, m)
    ensures m.out == st.out
  {}

  /** After the loops, the hidden variable is loaded. */
  lemma {:induction false} ComprLoad(P: Code, o: Owners, c: Compr, a: nat, r: nat, k: nat, st: State, m: VM, res: SResult, m1: VM)
    returns (st1: State, m': VM)
    requires Matches(o, st, m)
    requires var g := EmitBlock(C.Lowered(c), a, r, k);
             && StmtPost(P, o, a + |g.code|, a, a, r, k, m, res, m1) && g.r !in o
             && a + |g.code| < |P| && P[a + |g.code|] == M.Load(g.r, c.acc)
    requires match C.FlatMap(c, 0, st.vars)
             case Ok(vs) => res.Norm? && C.Holding(c, res.st, vs, st.out) && C.Agrees(res.st, st.vars, C.Later(c, 0))
             case Err(x) => res.Fail? && res.x == x && res.st.out == st.out
    ensures var g := ComprGen(c, a, r, k);
            Computes(P, o, a + |g.code|, g.rv.reg, m, C.FlatMap(c, 0, st.vars), st1, m')
    ensures C.FlatMap(c, 0, st.vars).Ok? ==> C.Agrees(st1, st.vars, C.Later(c, 0))
  {
    hide EmitBlock, C.FlatMap, C.Agrees, C.Later, C.Lowered, Matches, Reaches, Raises;
    var g := EmitBlock(C.Lowered(c), a, r, k);
    MatchesOut(o, st, m);
    MatchesOut(o, res.st, m1);
    st1 := res.st;
    if res.Norm? {
      m' := RunLoad(P, o, st1, m1, g.r, g.c, c.acc);
      ReachesTrans(P, m, m1, m');
      MatchesOut(o, st1, m');
    } else {
      m' := m1;
    }
  }

  // ----- as a statement of its own -----

  /** The comprehension as a statement, whose value is output, and the code it is part of. */
  function ComprIn(p: Place, c: Compr): Code {
    p.before + OutputGen(ComprGen(c, |p.before|, p.r, p.c)).code + Marker(p)
  }

  lemma {:induction false} ComprInCode(p: Place, c: Compr)
    ensures var a := |p.before|;
            var g := ComprGen(c, a, p.r, p.c);
            var P := ComprIn(p, c);
            && CodeAt(P, a, g.code) && |P| == a + |g.code| + 1 + |Marker(p)| && P[a + |g.code|] == M.Output(g.rv.reg)
            && (p.last ==> P[|P| - 1] == M.End) && |Marker(p)| == (if p.last then 1 else 0)
            && g.rv.reg == EmitBlock(C.Lowered(c), a, p.r, p.c).r
  {
    hide EmitBlock, C.Lowered;
    var a := |p.before|;
    var g := ComprGen(c, a, p.r, p.c);
    assert ComprIn(p, c)[a..a + |g.code|] == g.code;
  }

  /** Past the statement there is at most the end-of-file marker. */
  lemma {:induction false} ComprEnd(P: Code, m: VM, m1: VM, last: bool) returns (m': VM)
    requires Reaches(P, m, m1) && m1.bci == |P| - (if last then 1 else 0)
    requires last ==> P[|P| - 1] == M.End
    ensures m' == m1.(bci := |P|) && Halts(P, m, m')
  {
    hide Run, Step, Reaches, Halts;
    m' := m1.(bci := |P|);
    if last {
      MarkerStep(P, m1);
      ReachesStep(P, m1, m');
      ReachesTrans(P, m, m1, m');
    }
    ReachedEnd(P, m, m');
  }

  /** No loop of the program still binds a variable. */
  lemma {:induction false} StartsFresh(c: Compr, m: VM, st: State, r: nat, sites: set<nat>)
    requires Ready(m, st, r, sites) && sites !! BlockSites(C.Lowered(c))
    requires forall i :: 0 <= i < |c.gens| ==> c.gens[i].site in BlockSites(C.Lowered(c))
    ensures C.EntersFresh(c, st)
  {
    hide C.Lowered, BlockSites;
  }

  /** The variables of `m` outside `hidden` are in `m'` what they were. */
  ghost predicate Undisturbed(m: VM, m': VM, hidden: set<string>) {
    forall n :: n in m.names && m.names[n] in m.regs && n !in hidden ==>
      n in m'.names && m'.names[n] in m'.regs && m'.regs[m'.names[n]] == m.regs[m.names[n]]
  }

  lemma {:induction false} AgreesUndisturbed(o: Owners, st: State, m: VM, st1: State, m': VM, hidden: set<string>)
    requires Matches(o, st, m) && Matches(o, st1, m') && C.Agrees(st1, st.vars, hidden)
    ensures Undisturbed(m, m', hidden)
  {
    forall n | n in m.names && n !in hidden
      ensures n in m'.names && m'.names[n] in m'.regs && m'.regs[m'.names[n]] == m.regs[m.names[n]]
    {
      assert Bound(o, st, m, n);
      assert n in st1.vars;
      assert Bound(o, st1, m', n);
    }
  }

  lemma {:induction false} NotOwned(o: Owners, hi: nat, sites: set<nat>)
    requires Settled(o, hi, sites)
    ensures hi !in o
  {}

  /** A comprehension written as a statement outputs its flat-map and leaves the other variables as they
      were, or raises the first exception of the flat-map without any output. */
  lemma {:induction false} ComprOutputs(p: Place, c: Compr, m: VM, st: State) returns (m': VM)
    requires C.Lowerable(c) && DistinctSites(c) && Starts(p, C.Lowered(c), m, st)
    ensures match C.FlatMap(c, 0, st.vars)
            case Ok(vs) => && Halts(ComprIn(p, c), m, m') && m'.bci == |ComprIn(p, c)| && m'.fin == m.fin
                           && m'.out == m.out + [ListVal(vs)] && Undisturbed(m, m', C.Later(c, 0))
            case Err(x) => Raises(ComprIn(p, c), m, x, m') && m'.out == m.out
  {
    hide ComprIn, ComprGen, C.FlatMap, C.Lowerable, C.EntersFresh, C.Lowered, C.Later, C.Agrees, DistinctSites, EmitBlock, Ready,
      BlockSites, OwnedBlock, SitesUnique, Settled, Matches, Reaches, Raises, Halts, CodeAt, Program, DistinctBlock, Undisturbed,
      Marker;
    var a := |p.before|;
    var sites: set<nat> :| Ready(m, st, p.r, sites) && sites !! BlockSites(C.Lowered(c));
    LoweredProgram(c);
    NotLoose(C.Lowered(c));
    StartsFresh(c, m, st, p.r, sites);
    var o := OwnersOf(C.Lowered(c), a, p.r, p.c, m, st, sites);
    SettledUnique(o, EmitBlock(C.Lowered(c), a, p.r, p.c).r, sites + BlockSites(C.Lowered(c)));
    NotOwned(o, EmitBlock(C.Lowered(c), a, p.r, p.c).r, sites + BlockSites(C.Lowered(c)));
    ComprInCode(p, c);
    var st1, m1 := SimCompr(ComprIn(p, c), o, c, a, p.r, p.c, st, m);
    var spec := C.FlatMap(c, 0, st.vars);
    if spec.Ok? {
      var m2 := RunOutput(ComprIn(p, c), o, st1, m1, ComprGen(c, a, p.r, p.c).rv.reg, ListVal(spec.value));
      ReachesTrans(ComprIn(p, c), m, m1, m2);
      m' := ComprEnd(ComprIn(p, c), m, m2, p.last);
      AgreesUndisturbed(o, st, m, st1, m1, C.Later(c, 0));
      StillUndisturbed(m, m1, m', C.Later(c, 0));
    } else {
      m' := m1;
    }
  }

  lemma {:induction false} StillUndisturbed(m: VM, m1: VM, m': VM, hidden: set<string>)
    requires Undisturbed(m, m1, hidden) && m'.names == m1.names && m'.regs == m1.regs
    ensures Undisturbed(m, m', hidden)
  {}
}

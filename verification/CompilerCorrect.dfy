/** The main results about generated code: a module's bytecode does exactly what the module
    means, whether it completes, fails or runs forever, and every state of every run keeps the
    finally stack and the name bindings in order. */
module CompilerCorrect {
  import opened Lists
  import opened Values
  import opened Ir
  import opened Codegen
  import opened Layout
  import opened Ownership
  import opened OwnersExist
  import opened ExprSimulation
  import opened StmtBasics
  import opened StmtSimulation
  import opened BreakResolution
  import opened NoAliasing
  import opened M = Machine

  type Code = M.Code

  // ----- where code runs -----

  /** Where the generator puts a program: behind the code it has generated so far, with the register
      counters it has reached. The end-of-file marker comes last unless more input is to follow. */
  datatype Place = Place(before: Code, r: nat, c: nat, last: bool)

  const MODULE: Place := Place([], RESERVED_REGS, RESERVED_CREGS, true)

  function Marker(p: Place): Code {
    if p.last then [M.End] else []
  }

  function EmitIn(p: Place, b: List<Stmt>): Code {
    p.before + EmitBlock(b, |p.before|, p.r, p.c).code + Marker(p)
  }

  lemma {:induction false} ModuleIn(b: List<Stmt>)
    ensures EmitIn(MODULE, b) == EmitModule(b)
  {
    var code := EmitBlock(b, 0, RESERVED_REGS, RESERVED_CREGS).code;
    assert [] + code + [M.End] == code + [M.End];
  }

  /** A program the front end accepts: no loose break, and every `for` loop its own site. */
  predicate Program(b: List<Stmt>) {
    DistinctBlock(b) && !LooseBlock(b)
  }

  /** The machine's names, values and output are those of the program state. */
  ghost predicate Shows(m: VM, st: State) {
    && m.out == st.out
    && m.names.Keys == st.vars.Keys
    && forall n :: n in m.names ==> m.names[n] in m.regs && m.regs[m.names[n]] == st.vars[n].v
  }

  /** The loops that bind a variable, each only one. */
  ghost predicate BoundBy(st: State, sites: set<nat>) {
    && (forall n :: n in st.vars && st.vars[n].site.Some? ==> st.vars[n].site.value in sites)
    && (forall n, k :: n in st.vars && k in st.vars && st.vars[n].site.Some? && st.vars[n].site == st.vars[k].site ==> n == k)
  }

  /** A frame about to run code from register `r` on. The variables of `st` are bound already, as the
      interpreter binds `moss`, `__FILE` and `__NAME` and earlier input binds its own, to different
      registers below `r`; registers hold anything else. `sites` are the loops that bound some. */
  ghost predicate Ready(m: VM, st: State, r: nat, sites: set<nat>) {
    && Shows(m, st) && NamesInjective(m) && BoundBy(st, sites)
    && forall n :: n in m.names ==> m.names[n] < r
  }

  /** A frame about to run the program `b` at its place. */
  ghost predicate Starts(p: Place, b: List<Stmt>, m: VM, st: State) {
    m.bci == |p.before| && exists sites: set<nat> :: Ready(m, st, p.r, sites) && sites !! BlockSites(b)
  }

  lemma MatchesShows(o: Owners, st: State, m: VM)
    requires Matches(o, st, m)
    ensures Shows(m, st)
  {
    forall n | n in m.names ensures m.names[n] in m.regs && m.regs[m.names[n]] == st.vars[n].v {
      assert Bound(o, st, m, n);
    }
  }

  // ----- the registers of variables bound before -----

  /** All owned registers are below `hi` and all loops that own one are in `sites`. */
  ghost predicate Settled(o: Owners, hi: nat, sites: set<nat>) {
    Within(o, 0, hi) && SitesIn(o, sites)
  }

  /** Each bound register belongs to its name, and to the loop that bound it, if any. */
  lemma {:induction false} OwnersMap(names: map<string, nat>, st: State) returns (o: Owners)
    requires names.Keys <= st.vars.Keys
    requires forall n, k :: n in names && k in names && names[n] == names[k] ==> n == k
    ensures forall n :: n in names ==> Owns(o, names[n], n, st.vars[n].site)
    ensures forall q :: q in o ==> o[q].name in names && names[o[q].name] == q
  {
    o := map n | n in names :: names[n] := Owner(n, st.vars[n].site);
    forall n | n in names ensures Owns(o, names[n], n, st.vars[n].site) {
      assert o[names[n]] == Owner(n, st.vars[n].site);
    }
  }

  lemma {:induction false} OwnersBefore(m: VM, st: State, r: nat, sites: set<nat>) returns (o: Owners)
    requires Ready(m, st, r, sites)
    ensures Matches(o, st, m) && Settled(o, r, sites)
  {
    o := OwnersMap(m.names, st);
    OwnersMatch(o, m, st);
    OwnersSettled(o, m, st, r, sites);
  }

  lemma {:induction false} OwnersMatch(o: Owners, m: VM, st: State)
    requires Shows(m, st) && forall n :: n in m.names ==> Owns(o, m.names[n], n, st.vars[n].site)
    ensures Matches(o, st, m)
  {
    forall n | n in m.names ensures Bound(o, st, m, n) {}
  }

  lemma {:induction false} OwnersSettled(o: Owners, m: VM, st: State, r: nat, sites: set<nat>)
    requires m.names.Keys == st.vars.Keys && BoundBy(st, sites) && forall n :: n in m.names ==> m.names[n] < r
    requires forall n :: n in m.names ==> Owns(o, m.names[n], n, st.vars[n].site)
    requires forall q :: q in o ==> o[q].name in m.names && m.names[o[q].name] == q
    ensures Settled(o, r, sites)
  {
    forall q | q in o ensures q < r && o[q].site == st.vars[o[q].name].site {
      assert Owns(o, m.names[o[q].name], o[q].name, st.vars[o[q].name].site);
    }
  }

  lemma {:induction false} MoreOwners(o: Owners, o1: Owners, st: State, m: VM, r: nat, hi: nat, s: set<nat>, t: set<nat>)
    requires Matches(o, st, m) && Settled(o, r, s) && Local(o1, r, hi, t) && s !! t
    ensures Matches(o + o1, st, m) && Settled(o + o1, hi, s + t) && Agrees(o + o1, o1, r, hi)
  {
    forall n | n in m.names ensures Bound(o + o1, st, m, n) {
      assert Bound(o, st, m, n);
    }
  }

  /** An ownership for a program and what is bound before it. */
  lemma {:induction false} OwnersOf(b: List<Stmt>, a: nat, r: nat, c: nat, m: VM, st: State, sites: set<nat>) returns (o: Owners)
    requires DistinctBlock(b) && Ready(m, st, r, sites) && sites !! BlockSites(b)
    ensures OwnedBlock(b, a, r, c, o) && Matches(o, st, m)
    ensures Settled(o, EmitBlock(b, a, r, c).r, sites + BlockSites(b))
  {
    hide EmitBlock, OwnedBlock, BlockSites, DistinctBlock, Ready, Matches, Settled, Local;
    var o0 := OwnersBefore(m, st, r, sites);
    var o1 := OwnBlock(b, a, r, c);
    MoreOwners(o0, o1, st, m, r, EmitBlock(b, a, r, c).r, sites, BlockSites(b));
    o := o0 + o1;
  }

  lemma {:induction false} SettledUnique(o: Owners, hi: nat, sites: set<nat>)
    requires Settled(o, hi, sites)
    ensures SitesUnique(o)
  {}

  /** A state reached with such an ownership is ready for more. */
  lemma {:induction false} ReadyAgain(o: Owners, m: VM, st: State, hi: nat, sites: set<nat>)
    requires Matches(o, st, m) && Settled(o, hi, sites)
    ensures Ready(m, st, hi, sites)
  {
    MatchesShows(o, st, m);
    forall n | n in m.names
      ensures Owns(o, m.names[n], n, st.vars[n].site)
    {
      assert Bound(o, st, m, n);
    }
  }

  // ----- one evaluation, one run -----

  lemma {:induction false} PlaceLinked(p: Place, b: List<Stmt>)
    requires !LooseBlock(b)
    ensures LinkedAt(EmitIn(p, b), |p.before|, EmitBlock(b, |p.before|, p.r, p.c).code, |p.before|, |p.before|)
  {
    hide EmitBlock, AllSet, Patch;
    var a := |p.before|;
    var code := EmitBlock(b, a, p.r, p.c).code;
    ResolvedBlock(b, a, p.r, p.c);
    PatchResolved(code, a, a);
    assert EmitIn(p, b)[a..a + |code|] == code;
  }

  /** A program's code does what the program means, and leaves the frame ready for more. */
  lemma {:induction false} SimPlace(p: Place, b: List<Stmt>, m: VM, st: State, sites: set<nat>, fuel: nat)
    returns (o: Owners, m': VM)
    requires Program(b) && m.bci == |p.before| && Ready(m, st, p.r, sites) && sites !! BlockSites(b)
    ensures var a := |p.before|;
            var g := EmitBlock(b, a, p.r, p.c);
            && StmtPost(EmitIn(p, b), o, a + |g.code|, a, a, p.r, p.c, m, ExecBlock(b, st, fuel), m')
            && Settled(o, g.r, sites + BlockSites(b))
  {
    hide EmitBlock, ExecBlock, EmitIn, LinkedAt, StmtPost, DistinctBlock, LooseBlock, Ready, Settled, Matches, OwnedBlock,
      BlockSites, SitesUnique, Height;
    var a := |p.before|;
    o := OwnersOf(b, a, p.r, p.c, m, st, sites);
    SettledUnique(o, EmitBlock(b, a, p.r, p.c).r, sites + BlockSites(b));
    PlaceLinked(p, b);
    PlaceSize(p, b);
    m' := SimBlock(EmitIn(p, b), o, b, a, p.r, p.c, a, a, st, fuel, m);
  }

  lemma {:induction false} PlaceSize(p: Place, b: List<Stmt>)
    ensures |EmitIn(p, b)| == |p.before| + |EmitBlock(b, |p.before|, p.r, p.c).code| + |Marker(p)|
    ensures p.last ==> EmitIn(p, b)[|EmitIn(p, b)| - 1] == M.End
    ensures |Marker(p)| == if p.last then 1 else 0
  {
    hide EmitBlock;
  }

  lemma {:induction false} EndHalts(P: Code, m: VM)
    requires m.bci == |P|
    ensures Run(P, m, 1) == Halted(m)
  {}

  lemma {:induction false} MarkerStep(P: Code, m: VM)
    requires m.bci < |P| && P[m.bci] == M.End
    ensures Step(P, m) == Running(Next(m))
  {}

  lemma {:induction false} ReachedEnd(P: Code, m: VM, m': VM)
    requires Reaches(P, m, m') && m'.bci == |P|
    ensures Halts(P, m, m')
  {
    hide Run, Steady;
    var k: nat :| Run(P, m, k) == Running(m') && Steady(P, m, k);
    RunConcat(P, m, k, 1);
    EndHalts(P, m');
    assert Run(P, m, k + 1) == Halted(m');
  }

  /** Past the program there is at most the end-of-file marker. */
  lemma {:induction false} RunEnd(p: Place, b: List<Stmt>, m: VM, m1: VM) returns (m': VM)
    requires Reaches(EmitIn(p, b), m, m1) && m1.bci == |EmitIn(p, b)| - |Marker(p)|
    ensures m' == m1.(bci := |EmitIn(p, b)|) && Reaches(EmitIn(p, b), m, m') && Halts(EmitIn(p, b), m, m')
  {
    hide EmitIn, Marker, Run, Step, Reaches, Halts;
    PlaceSize(p, b);
    var P := EmitIn(p, b);
    m' := m1.(bci := |P|);
    if p.last {
      MarkerStep(P, m1);
      ReachesStep(P, m1, m');
      ReachesTrans(P, m, m1, m');
    }
    ReachedEnd(P, m, m');
  }

  /** A program that completes: its code runs to its end with the same variables and output,
      and the finally stack is as it was. */
  lemma {:induction false} CodeCompletes(p: Place, b: List<Stmt>, m: VM, st: State, fuel: nat) returns (m': VM)
    requires Program(b) && Starts(p, b, m, st) && ExecBlock(b, st, fuel).Norm?
    ensures Reaches(EmitIn(p, b), m, m') && Halts(EmitIn(p, b), m, m')
    ensures Shows(m', ExecBlock(b, st, fuel).st) && m'.fin == m.fin && m'.bci == |EmitIn(p, b)|
  {
    hide EmitBlock, ExecBlock, EmitIn, Ready, Settled;
    var sites: set<nat> :| Ready(m, st, p.r, sites) && sites !! BlockSites(b);
    var o, m1 := SimPlace(p, b, m, st, sites, fuel);
    PlaceSize(p, b);
    m' := RunEnd(p, b, m, m1);
    MatchesShows(o, ExecBlock(b, st, fuel).st, m1);
  }

  /** A program that fails: its code raises the same exception after the same output. */
  lemma {:induction false} CodeFails(p: Place, b: List<Stmt>, m: VM, st: State, fuel: nat) returns (m': VM)
    requires Program(b) && Starts(p, b, m, st) && ExecBlock(b, st, fuel).Fail?
    ensures Raises(EmitIn(p, b), m, ExecBlock(b, st, fuel).x, m') && Shows(m', ExecBlock(b, st, fuel).st)
  {
    hide EmitBlock, ExecBlock, EmitIn, Ready, Settled;
    var sites: set<nat> :| Ready(m, st, p.r, sites) && sites !! BlockSites(b);
    var o, m1 := SimPlace(p, b, m, st, sites, fuel);
    m' := m1;
    MatchesShows(o, ExecBlock(b, st, fuel).st, m1);
  }

  // ----- fuel -----

  lemma {:induction false} StmtTimeout(s: Stmt, st: State, fuel: nat)
    ensures Exec(s, st, fuel).Timeout? ==> Exec(s, st, fuel).n == fuel
    decreases fuel, s, 1
  {
    match s
    case If(c, body, orelse) =>
      var r := Eval(c, st);
      if r.Val? && r.v.Bool? {
        if r.v.b { BlockTimeout(body, r.st, fuel); }
        else if orelse.Some? { BlockTimeout(orelse.value, r.st, fuel); }
      }
    case Switch(c, cs) => SwitchTimeout(s, st, fuel);
    case While(c, body) =>
      var r := Eval(c, st);
      if fuel > 0 && r.Val? && r.v == Bool(true) {
        BlockTimeout(body, r.st, fuel);
        var b := ExecBlock(body, r.st, fuel);
        if b.Norm? || b.Cnt? { StmtTimeout(s, b.st, fuel - 1); }
      }
    case DoWhile(body, c) =>
      if fuel > 0 {
        BlockTimeout(body, st, fuel);
        var b := ExecBlock(body, st, fuel);
        if b.Norm? || b.Cnt? {
          var r := Eval(c, b.st);
          if r.Val? && r.v == Bool(true) { StmtTimeout(s, r.st, fuel - 1); }
        }
      }
    case For(site, n, coll, body) =>
      var r := Eval(coll, ResetIterator(st, site, n));
      if r.Val? && Iterate(r.v).Ok? {
        ForTimeout(site, n, body, Iterate(r.v).value, r.st, fuel);
      }
    case _ =>
  }

  lemma SwitchTimeout(s: Stmt, st: State, fuel: nat)
    requires s.Switch?
    ensures Exec(s, st, fuel).Timeout? ==> Exec(s, st, fuel).n == fuel
    decreases fuel, s, 0
  {
    var r := Eval(s.cond, st);
    if r.Val? {
      var vs := EvalCases(s.cases, r.st);
      if vs.Vals? {
        var k := SelectedCase(s.cases, vs.vs, r.v);
        if k.Some? {
          CaseTimeout(s.cases, k.value, vs.st, fuel);
        }
      }
    }
  }

  lemma {:induction false} BlockTimeout(b: List<Stmt>, st: State, fuel: nat)
    ensures ExecBlock(b, st, fuel).Timeout? ==> ExecBlock(b, st, fuel).n == fuel
    decreases fuel, b, 1
  {
    if b.Cons? {
      hide Exec;
      StmtTimeout(b.head, st, fuel);
      var res := Exec(b.head, st, fuel);
      if res.Norm? {
        BlockTimeout(b.tail, res.st, fuel);
      }
    }
  }

  lemma {:induction false} CaseTimeout(cs: List<Case>, k: nat, st: State, fuel: nat)
    ensures ExecCase(cs, k, st, fuel).Timeout? ==> ExecCase(cs, k, st, fuel).n == fuel
    decreases fuel, cs, 1
  {
    if cs.Cons? {
      if k == 0 {
        BlockTimeout(cs.head.body, st, fuel);
      } else {
        CaseTimeout(cs.tail, k - 1, st, fuel);
      }
    }
  }

  lemma {:induction false} ForTimeout(site: nat, n: string, body: List<Stmt>, vs: seq<Value>, st: State, fuel: nat)
    ensures var res := ExecFor(site, n, body, vs, st, fuel); res.Timeout? ==> res.n == fuel
    decreases fuel, body, 2, |vs|
  {
    if vs != [] {
      var st1 := BindIterator(st, site, n, vs[0]);
      BlockTimeout(body, st1, fuel);
      var b := ExecBlock(body, st1, fuel);
      if b.Norm? || b.Cnt? {
        ForTimeout(site, n, body, vs[1..], b.st, fuel);
      }
    }
  }

  /** A program still running after `fuel` repetitions: its code runs for at least `fuel` steps. */
  lemma {:induction false} CodeLasts(p: Place, b: List<Stmt>, m: VM, st: State, fuel: nat)
    requires Program(b) && Starts(p, b, m, st) && ExecBlock(b, st, fuel).Timeout?
    ensures Lasts(EmitIn(p, b), m, fuel)
  {
    hide EmitBlock, ExecBlock, EmitIn, Lasts, Ready, Settled;
    BlockTimeout(b, st, fuel);
    var sites: set<nat> :| Ready(m, st, p.r, sites) && sites !! BlockSites(b);
    var o, m' := SimPlace(p, b, m, st, sites, fuel);
  }

  // ----- every run, not only the ones that end -----

  /** A run that has stopped does not go on. */
  lemma {:induction false} RunStops(P: Code, m: VM, j: nat, k: nat)
    requires j <= k && !Run(P, m, j).Running?
    ensures Run(P, m, k) == Run(P, m, j)
    decreases j
  {
    hide ExecOp;
    var o := Step(P, m);
    if o.Running? {
      RunStops(P, o.m, j - 1, k - 1);
    }
  }

  /** One outcome per run. */
  lemma RunUnique(P: Code, m: VM, j: nat, k: nat)
    requires !Run(P, m, j).Running? && !Run(P, m, k).Running?
    ensures Run(P, m, j) == Run(P, m, k)
  {
    if j <= k { RunStops(P, m, j, k); } else { RunStops(P, m, k, j); }
  }

  /** What a program run can look like after `k` steps: never stuck, never with a finally stack
      other than the static loop depth of the current address. */
  ghost predicate Sound(P: Code, m: VM, k: nat) {
    var res := Run(P, m, k);
    && !res.Stuck?
    && (res.Running? ==> Level(P, m, res.m))
  }

  lemma SoundUntil(P: Code, m: VM, j: nat, k: nat)
    requires Run(P, m, j).Running? && Steady(P, m, j) && k <= j && m.bci <= |P|
    ensures Sound(P, m, k)
  {
    RunPrefix(P, m, k, j);
    SteadyLevel(P, m, k, j);
  }

  lemma SoundRaised(P: Code, m: VM, x: Exn, m': VM, k: nat)
    requires Raises(P, m, x, m') && m.bci <= |P|
    ensures Sound(P, m, k)
  {
    var j: nat :| Run(P, m, j) == Raised(x, m') && Steady(P, m, j);
    if Run(P, m, k).Running? {
      if k >= j { RunStops(P, m, j, k); }
      SteadyLevel(P, m, k, j);
    } else {
      RunUnique(P, m, j, k);
    }
  }

  lemma SoundHalted(P: Code, m: VM, m': VM, k: nat)
    requires Reaches(P, m, m') && m'.bci == |P| && m.bci <= |P|
    ensures Sound(P, m, k)
  {
    var j: nat :| Run(P, m, j) == Running(m') && Steady(P, m, j);
    if k <= j {
      SoundUntil(P, m, j, k);
    } else {
      RunConcat(P, m, j, 1);
      assert Run(P, m', 1) == Halted(m');
      RunStops(P, m, j + 1, k);
    }
  }

  /** In every state of every run of generated code, the finally stack is as high above its
      start as there are loops around the current address; and no internal check fails: no
      register is read before it is written, no break jump is unset, no loop end pops an empty stack. */
  lemma {:induction false} EveryState(p: Place, b: List<Stmt>, m: VM, st: State, k: nat)
    requires Program(b) && Starts(p, b, m, st)
    ensures var P := EmitIn(p, b);
            var res := Run(P, m, k);
            && !res.Stuck?
            && |p.before| <= |P|
            && (res.Running? ==> res.m.bci <= |P| && res.m.fin - m.fin == Height(P, res.m.bci) - Height(P, |p.before|))
  {
    hide EmitBlock, ExecBlock, EmitIn, ExecOp, LooseBlock, Starts;
    StartsAt(p, b, m, st);
    var P := EmitIn(p, b);
    var res := ExecBlock(b, st, k);
    match res
    case Norm(_) =>
      var m' := CodeCompletes(p, b, m, st, k);
      SoundHalted(P, m, m', k);
    case Fail(x, _) =>
      var m' := CodeFails(p, b, m, st, k);
      SoundRaised(P, m, x, m', k);
    case Timeout(n) =>
      CodeLasts(p, b, m, st, k);
      SoundUntil(P, m, k, k);
    case _ => BlockCompletes(b, st, k);
  }

  lemma {:induction false} StartsAt(p: Place, b: List<Stmt>, m: VM, st: State)
    requires Starts(p, b, m, st)
    ensures m.bci == |p.before| <= |EmitIn(p, b)|
  {
    hide EmitBlock, Ready;
  }

  // ----- names -----

  /** The code before a place and the names bound there keep to an ownership of registers below it. */
  ghost predicate Tidy(p: Place, m: VM) {
    exists o: Owners :: Binds(p.before, o) && NamesOwned(m, o) && Within(o, 0, p.r)
  }

  /** At the start of a module it is enough that different names have different registers below. */
  lemma {:induction false} TidyStart(p: Place, m: VM)
    requires p.before == [] && NamesInjective(m) && forall n :: n in m.names ==> m.names[n] < p.r
    ensures Tidy(p, m)
  {
    var st := State(map n | n in m.names :: Binding(Nil, None), []);
    var o := OwnersMap(m.names, st);
    forall n | n in m.names ensures m.names[n] in o && o[m.names[n]].name == n {
      assert Owns(o, m.names[n], n, None);
    }
    assert Binds(p.before, o) && NamesOwned(m, o) && Within(o, 0, p.r);
  }

  lemma {:induction false} TidyOwners(p: Place, b: List<Stmt>, m: VM) returns (o: Owners)
    requires DistinctBlock(b) && Tidy(p, m)
    ensures Binds(EmitIn(p, b), o) && NamesOwned(m, o) && Within(o, 0, Behind(p, b).r)
    ensures Binds(Behind(p, b).before, o)
  {
    hide EmitBlock, OwnedBlock, Binds, NamesOwned, Within, DistinctBlock, Agrees;
    var a := |p.before|;
    var code := EmitBlock(b, a, p.r, p.c).code;
    var o0: Owners :| Binds(p.before, o0) && NamesOwned(m, o0) && Within(o0, 0, p.r);
    var o1 := OwnBlock(b, a, p.r, p.c);
    o := o0 + o1;
    OwnersAdd(p.before, m, o0, o1, p.r, Behind(p, b).r);
    BlockBinds(b, a, p.r, p.c, o);
    BindsConcat(p.before, code, o);
    BindsLast(p.before + code, Marker(p), o);
  }

  lemma {:induction false} OwnersAdd(before: Code, m: VM, o0: Owners, o1: Owners, r: nat, hi: nat)
    requires Binds(before, o0) && NamesOwned(m, o0) && Within(o0, 0, r) && Within(o1, r, hi) && r <= hi
    ensures Binds(before, o0 + o1) && NamesOwned(m, o0 + o1) && Within(o0 + o1, 0, hi) && Agrees(o0 + o1, o1, r, hi)
  {}

  /** The place of the program that follows. */
  function Behind(p: Place, b: List<Stmt>): Place {
    var g := EmitBlock(b, |p.before|, p.r, p.c);
    Place(p.before + g.code, g.r, g.c, false)
  }

  /** In every state of every run, two names are never bound to one register, be they bound by the
      program or before it. */
  lemma {:induction false} EveryStateInjective(p: Place, b: List<Stmt>, m: VM, k: nat)
    requires DistinctBlock(b) && Tidy(p, m) && Run(EmitIn(p, b), m, k).Running?
    ensures NamesInjective(Run(EmitIn(p, b), m, k).m)
  {
    hide EmitBlock, Run, Binds, Tidy, EmitIn, Within;
    var o := TidyOwners(p, b, m);
    RunNames(EmitIn(p, b), m, k, o);
  }

  // ----- the code does nothing else -----

  /** Some amount of fuel makes the program complete in a state that `m'` shows. */
  ghost predicate CompletesAs(b: List<Stmt>, st: State, m': VM) {
    exists fuel: nat :: ExecBlock(b, st, fuel).Norm? && Shows(m', ExecBlock(b, st, fuel).st)
  }

  ghost predicate FailsAs(b: List<Stmt>, st: State, x: Exn, m': VM) {
    exists fuel: nat :: ExecBlock(b, st, fuel).Fail? && ExecBlock(b, st, fuel).x == x
                        && Shows(m', ExecBlock(b, st, fuel).st)
  }

  ghost predicate Diverges(b: List<Stmt>, st: State) {
    forall fuel: nat :: ExecBlock(b, st, fuel).Timeout?
  }

  /** Code that halts belongs to a program that completes, with the values the code computed. */
  lemma {:induction false} HaltingCode(p: Place, b: List<Stmt>, m: VM, st: State, m': VM)
    requires Program(b) && Starts(p, b, m, st) && Halts(EmitIn(p, b), m, m')
    ensures CompletesAs(b, st, m') && m'.bci == |EmitIn(p, b)| && m'.fin == m.fin
  {
    hide EmitBlock, ExecBlock, EmitIn, ExecOp, LooseBlock, Starts;
    var P := EmitIn(p, b);
    var k: nat :| Run(P, m, k) == Halted(m');
    var res := ExecBlock(b, st, k);
    match res
    case Norm(_) =>
      var m1 := CodeCompletes(p, b, m, st, k);
      var j: nat :| Run(P, m, j) == Halted(m1);
      RunUnique(P, m, j, k);
    case Fail(x, _) =>
      var m1 := CodeFails(p, b, m, st, k);
      var j: nat :| Run(P, m, j) == Raised(x, m1) && Steady(P, m, j);
      RunUnique(P, m, j, k);
    case Timeout(n) => CodeLasts(p, b, m, st, k);
    case _ => BlockCompletes(b, st, k);
  }

  lemma {:induction false} RaisingCode(p: Place, b: List<Stmt>, m: VM, st: State, x: Exn, m': VM)
    requires Program(b) && Starts(p, b, m, st) && Raises(EmitIn(p, b), m, x, m')
    ensures FailsAs(b, st, x, m')
  {
    hide EmitBlock, ExecBlock, EmitIn, ExecOp, LooseBlock, Starts;
    var P := EmitIn(p, b);
    var k: nat :| Run(P, m, k) == Raised(x, m') && Steady(P, m, k);
    var res := ExecBlock(b, st, k);
    match res
    case Norm(_) =>
      var m1 := CodeCompletes(p, b, m, st, k);
      var j: nat :| Run(P, m, j) == Halted(m1);
      RunUnique(P, m, j, k);
    case Fail(y, _) =>
      var m1 := CodeFails(p, b, m, st, k);
      var j: nat :| Run(P, m, j) == Raised(y, m1) && Steady(P, m, j);
      RunUnique(P, m, j, k);
    case Timeout(n) => CodeLasts(p, b, m, st, k);
    case _ => BlockCompletes(b, st, k);
  }

  /** The code runs forever exactly when the program does. */
  lemma {:induction false} DivergingCode(p: Place, b: List<Stmt>, m: VM, st: State)
    requires Program(b) && Starts(p, b, m, st)
    ensures Diverges(b, st) <==> forall k: nat :: Run(EmitIn(p, b), m, k).Running?
  {
    hide EmitBlock, ExecBlock, EmitIn, ExecOp, LooseBlock, Starts;
    var P := EmitIn(p, b);
    if Diverges(b, st) {
      forall k: nat ensures Run(P, m, k).Running? {
        assert ExecBlock(b, st, k).Timeout?;
        CodeLasts(p, b, m, st, k);
      }
    } else {
      var fuel: nat :| !ExecBlock(b, st, fuel).Timeout?;
      var res := ExecBlock(b, st, fuel);
      BlockCompletes(b, st, fuel);
      if res.Norm? {
        var m1 := CodeCompletes(p, b, m, st, fuel);
        var j: nat :| Run(P, m, j) == Halted(m1);
        assert !Run(P, m, j).Running?;
      } else {
        var m1 := CodeFails(p, b, m, st, fuel);
        var j: nat :| Run(P, m, j) == Raised(res.x, m1) && Steady(P, m, j);
        assert !Run(P, m, j).Running?;
      }
    }
  }
}

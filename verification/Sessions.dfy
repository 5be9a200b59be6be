/** Interactive mode (interface/repl.cpp): one generator and one machine for all inputs. Each input is
    generated behind the code so far and run to its end; after an exception the machine goes on behind
    the code with the variables it has. */
module Sessions {
  import opened Lists
  import opened Values
  import opened Ir
  import opened Codegen
  import opened Ownership
  import opened OwnersExist
  import opened ExprSimulation
  import opened BreakResolution
  import opened NoAliasing
  import opened CompilerCorrect
  import opened Machine

  type Block = List<Stmt>

  /** The run from `m` ends, by itself or by an exception, in `m'`. */
  ghost predicate Stops(P: seq<OpCode>, m: VM, m': VM) {
    exists k: nat :: (Run(P, m, k).Halted? || Run(P, m, k).Raised?) && Run(P, m, k).m == m'
  }

  /** The inputs, one after another, take the machine from `m` to `m'`. */
  ghost predicate Session(p: Place, inputs: seq<Block>, m: VM, m': VM)
    decreases |inputs|
  {
    if inputs == [] then m' == m
    else
      var P := EmitIn(p, inputs[0]);
      exists m1 :: Stops(P, m, m1) && Session(Behind(p, inputs[0]), inputs[1..], m1.(bci := |P|), m')
  }

  /** What the inputs mean: an input that fails leaves its variables and output to the next. */
  function After(inputs: seq<Block>, fuels: seq<nat>, st: State): Option<State>
    requires |inputs| == |fuels|
    decreases |inputs|
  {
    if inputs == [] then Some(st)
    else
      match ExecBlock(inputs[0], st, fuels[0])
      case Norm(st1) => After(inputs[1..], fuels[1..], st1)
      case Fail(_, st1) => After(inputs[1..], fuels[1..], st1)
      case _ => None
  }

  function AllSites(inputs: seq<Block>): set<nat> {
    if inputs == [] then {} else BlockSites(inputs[0]) + AllSites(inputs[1..])
  }

  /** Programs, all of whose `for` loops differ. */
  predicate Inputs(inputs: seq<Block>) {
    inputs == [] || (Program(inputs[0]) && BlockSites(inputs[0]) !! AllSites(inputs[1..]) && Inputs(inputs[1..]))
  }

  // ----- one input -----

  /** An input that ends leaves the frame ready for the next. */
  lemma {:induction false} InputEnds(p: Place, b: Block, m: VM, st: State, sites: set<nat>, fuel: nat) returns (m': VM)
    requires Program(b) && !p.last && m.bci == |p.before| && Ready(m, st, p.r, sites) && sites !! BlockSites(b)
    requires ExecBlock(b, st, fuel).Norm? || ExecBlock(b, st, fuel).Fail?
    ensures Stops(EmitIn(p, b), m, m')
    ensures Ready(m', ExecBlock(b, st, fuel).st, Behind(p, b).r, sites + BlockSites(b))
  {
    hide EmitBlock, ExecBlock, EmitIn, Marker, Ready, Settled, Matches, Run, Step, BlockSites, Program;
    var P, res := EmitIn(p, b), ExecBlock(b, st, fuel);
    var o, m1 := SimPlace(p, b, m, st, sites, fuel);
    m' := m1;
    PlaceSize(p, b);
    ReadyAgain(o, m1, res.st, Behind(p, b).r, sites + BlockSites(b));
    if res.Norm? {
      ReachedEnd(P, m, m1);
      var k: nat :| Run(P, m, k) == Halted(m1);
    } else {
      var k: nat :| Run(P, m, k) == Raised(res.x, m1) && Steady(P, m, k);
    }
  }

  lemma {:induction false} StopsOnce(P: seq<OpCode>, m: VM, m1: VM, m2: VM)
    requires Stops(P, m, m1) && Stops(P, m, m2)
    ensures m1 == m2
  {
    hide Run;
    var j: nat :| (Run(P, m, j).Halted? || Run(P, m, j).Raised?) && Run(P, m, j).m == m1;
    var k: nat :| (Run(P, m, k).Halted? || Run(P, m, k).Raised?) && Run(P, m, k).m == m2;
    RunUnique(P, m, j, k);
  }

  /** An input whose code ends is a program that ends. */
  lemma {:induction false} EndsOnly(p: Place, b: Block, m: VM, st: State, sites: set<nat>, m': VM) returns (fuel: nat)
    requires Program(b) && m.bci == |p.before| && Ready(m, st, p.r, sites) && sites !! BlockSites(b)
    requires Stops(EmitIn(p, b), m, m')
    ensures ExecBlock(b, st, fuel).Norm? || ExecBlock(b, st, fuel).Fail?
  {
    hide EmitBlock, ExecBlock, EmitIn, Ready, Run, BlockSites, DistinctBlock, LooseBlock;
    fuel :| (Run(EmitIn(p, b), m, fuel).Halted? || Run(EmitIn(p, b), m, fuel).Raised?) && Run(EmitIn(p, b), m, fuel).m == m';
    BlockCompletes(b, st, fuel);
    if ExecBlock(b, st, fuel).Timeout? {
      CodeLasts(p, b, m, st, fuel);
    }
  }

  lemma {:induction false} ReadyAnywhere(m: VM, st: State, r: nat, sites: set<nat>, a: nat)
    requires Ready(m, st, r, sites)
    ensures Ready(m.(bci := a), st, r, sites)
  {}

  lemma {:induction false} BehindAt(p: Place, b: Block)
    requires !p.last
    ensures Behind(p, b).before == EmitIn(p, b) && !Behind(p, b).last
  {
    hide EmitBlock;
    var code := EmitBlock(b, |p.before|, p.r, p.c).code;
    assert p.before + code + [] == p.before + code;
  }

  // ----- all inputs -----

  /** If the inputs end one after another, so does the session, with the variables and output they leave. */
  lemma {:induction false} SessionRuns(p: Place, inputs: seq<Block>, fuels: seq<nat>, m: VM, st: State, sites: set<nat>)
    returns (m': VM)
    requires Inputs(inputs) && !p.last && m.bci == |p.before| && Ready(m, st, p.r, sites) && sites !! AllSites(inputs)
    requires |inputs| == |fuels| && After(inputs, fuels, st).Some?
    ensures Session(p, inputs, m, m') && Shows(m', After(inputs, fuels, st).value)
    decreases |inputs|
  {
    hide EmitBlock, EmitIn, ExecBlock, Stops, Program, BlockSites, Behind, Ready;
    if inputs == [] {
      m' := m;
      ReadyShows(m, st, p.r, sites);
    } else {
      var b := inputs[0];
      var st1 := ExecBlock(b, st, fuels[0]).st;
      var m1 := InputEnds(p, b, m, st, sites, fuels[0]);
      BehindAt(p, b);
      var m2 := m1.(bci := |EmitIn(p, b)|);
      ReadyAnywhere(m1, st1, Behind(p, b).r, sites + BlockSites(b), |EmitIn(p, b)|);
      m' := SessionRuns(Behind(p, b), inputs[1..], fuels[1..], m2, st1, sites + BlockSites(b));
    }
  }

  lemma {:induction false} ReadyShows(m: VM, st: State, r: nat, sites: set<nat>)
    requires Ready(m, st, r, sites)
    ensures Shows(m, st)
  {}

  /** And every session is that of inputs that end, in a state that shows what they leave. */
  lemma {:induction false} SessionMeans(p: Place, inputs: seq<Block>, m: VM, st: State, sites: set<nat>, m': VM)
    returns (fuels: seq<nat>)
    requires Inputs(inputs) && !p.last && m.bci == |p.before| && Ready(m, st, p.r, sites) && sites !! AllSites(inputs)
    requires Session(p, inputs, m, m')
    ensures |fuels| == |inputs| && After(inputs, fuels, st).Some? && Shows(m', After(inputs, fuels, st).value)
    decreases |inputs|
  {
    hide EmitBlock, EmitIn, ExecBlock, Stops, Program, BlockSites, Behind, Ready;
    if inputs == [] {
      fuels := [];
      ReadyShows(m, st, p.r, sites);
    } else {
      var b := inputs[0];
      var P := EmitIn(p, b);
      var m1 :| Stops(P, m, m1) && Session(Behind(p, b), inputs[1..], m1.(bci := |P|), m');
      var fuel := EndsOnly(p, b, m, st, sites, m1);
      var m2 := InputEnds(p, b, m, st, sites, fuel);
      StopsOnce(P, m, m1, m2);
      BehindAt(p, b);
      var st1 := ExecBlock(b, st, fuel).st;
      ReadyAnywhere(m1, st1, Behind(p, b).r, sites + BlockSites(b), |P|);
      var more := SessionMeans(Behind(p, b), inputs[1..], m1.(bci := |P|), st1, sites + BlockSites(b), m');
      fuels := [fuel] + more;
      assert fuels[1..] == more;
    }
  }

  // ----- names -----

  lemma {:induction false} StopNames(P: seq<OpCode>, m: VM, k: nat, o: Owners)
    requires Binds(P, o) && NamesOwned(m, o) && (Run(P, m, k).Halted? || Run(P, m, k).Raised?)
    ensures NamesOwned(Run(P, m, k).m, o)
    decreases k
  {
    hide Binds, NamesOwned, Step;
    if Step(P, m).Running? {
      RunNames(P, m, 1, o);
      assert Run(P, m, 1) == Step(P, m);
      StopNames(P, Step(P, m).m, k - 1, o);
    } else {
      StopKeeps(P, m);
    }
  }

  lemma {:induction false} StopKeeps(P: seq<OpCode>, m: VM)
    requires Step(P, m).Halted? || Step(P, m).Raised?
    ensures Step(P, m).m == m
  {
    hide Apply, ApplyUnary, FirstEqual, Iterate, Operand;
  }

  /** A session stays tidy, so in every state of every one of its runs names are on different registers. */
  lemma {:induction false} SessionTidy(p: Place, b: Block, m: VM, m1: VM)
    requires DistinctBlock(b) && Tidy(p, m) && Stops(EmitIn(p, b), m, m1)
    ensures Tidy(Behind(p, b), m1.(bci := |EmitIn(p, b)|))
  {
    hide EmitIn, Behind, Run, Binds, Within, DistinctBlock;
    var P := EmitIn(p, b);
    var o := TidyOwners(p, b, m);
    var k: nat :| (Run(P, m, k).Halted? || Run(P, m, k).Raised?) && Run(P, m, k).m == m1;
    StopNames(P, m, k, o);
    assert NamesOwned(m1.(bci := |P|), o);
  }
}

/** Binding call arguments to parameters (`can_call`, the overload search in `call` and
    `PopCallFrame::exec` in bytecode/opcode.cpp): the matcher that edits a copy of the frame's
    arguments step by step implements a small declarative specification. */
module CallBinding {
  import opened Lists
  import opened Values

  /** `types` lists the accepted types, none meaning any. */
  datatype Param = Param(name: string, types: seq<int>, dflt: Option<Value>, vararg: bool)

  /** An argument of a call frame: `name` is empty for a positional one. */
  datatype Arg = Arg(name: string, value: Value, dst: nat)

  datatype Diag = PassedMoreArgs | ArgMismatch | ClassCallNeedsThis

  /** Type test of the run-time type system: does a value have a type or one of its subtypes. */
  type TypeTest = (Value, int) -> bool

  /** What the treatment of `this` asks about a value. */
  datatype Kind = ObjectKind | ClassKind | OtherKind

  type KindTest = Value -> Kind

  predicate Fits(has: TypeTest, v: Value, types: seq<int>) {
    types == [] || exists i :: 0 <= i < |types| && has(v, types[i])
  }

  // ----- the specification -----

  /** The variadic parameter, or the number of parameters. */
  function VarIndex(ps: seq<Param>): (i: nat)
    ensures i <= |ps| && (i < |ps| ==> ps[i].vararg)
    ensures forall j :: 0 <= j < i ==> !ps[j].vararg
  {
    if ps == [] then 0 else if ps[0].vararg then 0 else 1 + VarIndex(ps[1..])
  }

  /** The number of positional arguments. */
  function Positional(args: seq<Arg>): (k: nat)
    ensures k <= |args| && forall i :: 0 <= i < k ==> args[i].name == ""
    ensures k < |args| ==> args[k].name != ""
  {
    if args == [] || args[0].name != "" then 0 else 1 + Positional(args[1..])
  }

  /** The parameter of a name, or the number of parameters. */
  function IndexOf(ps: seq<Param>, n: string): (i: nat)
    ensures i <= |ps| && (i < |ps| ==> ps[i].name == n)
    ensures forall j :: 0 <= j < i ==> ps[j].name != n
  {
    if ps == [] then 0 else if ps[0].name == n then 0 else 1 + IndexOf(ps[1..], n)
  }

  function NamedArg(args: seq<Arg>, n: string): Option<Value> {
    if args == [] then None else if args[0].name == n then Some(args[0].value) else NamedArg(args[1..], n)
  }

  function ValuesOf(args: seq<Arg>): seq<Value> {
    seq(|args|, i requires 0 <= i < |args| => args[i].value)
  }

  function Min(a: nat, b: nat): nat {
    if a < b then a else b
  }

  /** The value parameter `j` gets: from its position, as the list of surplus positional arguments,
      by name, or by default. */
  function Given(ps: seq<Param>, args: seq<Arg>, j: nat): Option<Value>
    requires j < |ps|
  {
    var k, v := Positional(args), VarIndex(ps);
    if j < Min(k, v) then Some(args[j].value)
    else if j == v && v < k then Some(ListVal(ValuesOf(args[v..k])))
    else if NamedArg(args[k..], ps[j].name).Some? then NamedArg(args[k..], ps[j].name)
    else if ps[j].vararg then Some(ListVal([]))
    else ps[j].dflt
  }

  /** The positional arguments find parameters of fitting types. */
  ghost predicate PositionalFit(has: TypeTest, ps: seq<Param>, args: seq<Arg>) {
    var k, v := Positional(args), VarIndex(ps);
    && (v == |ps| ==> k <= |ps|)
    && forall i :: 0 <= i < Min(k, v) ==> Fits(has, args[i].value, ps[i].types)
  }

  /** A named argument names a parameter and has a fitting type. */
  predicate NamedFits(has: TypeTest, ps: seq<Param>, a: Arg) {
    var j := IndexOf(ps, a.name);
    j < |ps| && Fits(has, a.value, ps[j].types)
  }

  ghost predicate Bindable(has: TypeTest, ps: seq<Param>, args: seq<Arg>) {
    && PositionalFit(has, ps, args)
    && (forall i :: Positional(args) <= i < |args| ==> NamedFits(has, ps, args[i]))
    && (forall j :: 0 <= j < |ps| ==> Given(ps, args, j).Some?)
  }

  /** Parameter lists the front end builds: with different names. */
  ghost predicate Declared(ps: seq<Param>) {
    && (forall i, j :: 0 <= i < j < |ps| ==> ps[i].name != ps[j].name)
  }

  /** The argument lists the front end builds: positional before named. */
  predicate PositionalFirst(args: seq<Arg>) {
    forall i :: Positional(args) <= i < |args| ==> args[i].name != ""
  }

  predicate FilledByPosition(k: nat, v: nat, j: nat) {
    j < Min(k, v) || (j == v && v < k)
  }

  /** No parameter is given twice: named arguments differ and name none that is filled by position. */
  ghost predicate OncePerParam(ps: seq<Param>, args: seq<Arg>) {
    var k, v := Positional(args), VarIndex(ps);
    && (forall i, j :: k <= i < j < |args| ==> args[i].name != args[j].name)
    && (forall i :: k <= i < |args| ==> !FilledByPosition(k, v, IndexOf(ps, args[i].name)))
  }

  ghost predicate WellCalled(ps: seq<Param>, args: seq<Arg>) {
    Declared(ps) && PositionalFirst(args) && OncePerParam(ps, args)
  }

  /** The number of arguments when those for the variadic parameter are made one list. */
  function Collapsed(ps: seq<Param>, args: seq<Arg>): nat {
    var k, v := Positional(args), VarIndex(ps);
    if v < k then v + 1 + |args| - k else |args|
  }

  /** A call that gives some parameter twice, with fitting values and as many arguments as parameters. */
  ghost predicate Overfull(has: TypeTest, ps: seq<Param>, args: seq<Arg>) {
    && PositionalFit(has, ps, args)
    && (forall i :: Positional(args) <= i < |args| ==> NamedFits(has, ps, args[i]))
    && Collapsed(ps, args) == |ps|
  }

  /** The calls the matcher accepts. */
  ghost predicate Accepted(has: TypeTest, ps: seq<Param>, args: seq<Arg>) {
    if OncePerParam(ps, args) then Bindable(has, ps, args) else Overfull(has, ps, args)
  }

  predicate Reached(bound: seq<Arg>, j: nat) {
    exists i :: 0 <= i < |bound| && bound[i].dst == j
  }

  /** Every parameter is the destination of exactly one argument, with its name and its value. */
  ghost predicate Complete(ps: seq<Param>, args: seq<Arg>, bound: seq<Arg>) {
    && |bound| == |ps|
    && (forall i :: 0 <= i < |bound| ==>
          bound[i].dst < |ps| && bound[i].name == ps[bound[i].dst].name && Given(ps, args, bound[i].dst) == Some(bound[i].value))
    && (forall i, j :: 0 <= i < j < |bound| ==> bound[i].dst != bound[j].dst)
    && (forall j :: 0 <= j < |ps| ==> Reached(bound, j))
  }

  // ----- what the matcher's first loop has done after the first `m` arguments -----

  function PlacedPositional(ps: seq<Param>, args: seq<Arg>, n: nat): seq<Arg>
    requires n <= |ps| && n <= |args|
  {
    seq(n, i requires 0 <= i < n => Arg(ps[i].name, args[i].value, i))
  }

  function PlacedNamed(ps: seq<Param>, named: seq<Arg>): seq<Arg> {
    seq(|named|, i requires 0 <= i < |named| => Arg(named[i].name, named[i].value, IndexOf(ps, named[i].name)))
  }

  /** The surplus positional arguments, made one list. */
  function PlacedRest(ps: seq<Param>, args: seq<Arg>): seq<Arg> {
    var k, v := Positional(args), VarIndex(ps);
    if v < k && v < |ps| then [Arg(ps[v].name, ListVal(ValuesOf(args[v..k])), v)] else []
  }

  function Placed(ps: seq<Param>, args: seq<Arg>, m: nat): seq<Arg>
    requires m <= |args| && (VarIndex(ps) == |ps| ==> Positional(args) <= |ps|)
  {
    var k, v := Positional(args), VarIndex(ps);
    if m < k then PlacedPositional(ps, args, Min(m, v))
    else PlacedPositional(ps, args, Min(k, v)) + PlacedRest(ps, args) + PlacedNamed(ps, args[k..m])
  }

  class CallFrame {
    var args: seq<Arg>

    constructor (a: seq<Arg>)
      ensures args == a
    {
      args := a;
    }
  }

  /** The size test that comes first. */
  method TooMany(ps: seq<Param>, args: seq<Arg>) returns (r: bool)
    ensures r <==> |args| > |ps| && VarIndex(ps) == |ps|
  {
    r := false;
    if |args| > |ps| {
      var isVararg := false;
      var i := 0;
      while i < |ps| && !isVararg
        invariant i <= |ps| && (isVararg ==> VarIndex(ps) < |ps|)
        invariant !isVararg ==> forall j :: 0 <= j < i ==> !ps[j].vararg
      {
        isVararg := ps[i].vararg;
        i := i + 1;
      }
      r := !isVararg;
    }
  }

  method MatchesType(has: TypeTest, v: Value, types: seq<int>) returns (matched: bool)
    ensures matched == Fits(has, v, types)
  {
    matched := types == [];
    var i := 0;
    while i < |types| && !matched
      invariant i <= |types|
      invariant matched ==> Fits(has, v, types)
      invariant !matched ==> types != [] && forall j :: 0 <= j < i ==> !has(v, types[j])
    {
      if has(v, types[i]) {
        matched := true;
      }
      i := i + 1;
    }
  }

  method FindParam(ps: seq<Param>, n: string) returns (j: nat)
    ensures j == IndexOf(ps, n)
  {
    j := 0;
    while j < |ps| && ps[j].name != n
      invariant j <= |ps| && forall i :: 0 <= i < j ==> ps[i].name != n
    {
      j := j + 1;
    }
  }

  /** The arguments before number `m` have found fitting parameters. */
  ghost predicate FitSoFar(has: TypeTest, ps: seq<Param>, args: seq<Arg>, m: nat)
    requires m <= |args|
  {
    var k, v := Positional(args), VarIndex(ps);
    && (forall j :: 0 <= j < Min(m, Min(k, v)) ==> Fits(has, args[j].value, ps[j].types))
    && (forall j :: k <= j < m ==> NamedFits(has, ps, args[j]))
  }

  /** State of the first loop: `m` arguments are placed, as the first `i` of `callArgs`. */
  ghost predicate Placing(has: TypeTest, ps: seq<Param>, args: seq<Arg>, m: nat, callArgs: seq<Arg>, i: nat)
    requires VarIndex(ps) == |ps| ==> |args| <= |ps|
  {
    && m <= |args|
    && callArgs == Placed(ps, args, m) + args[m..] && i == |Placed(ps, args, m)|
    && FitSoFar(has, ps, args, m)
    && (m >= Positional(args) || (m == i && m <= VarIndex(ps)))
  }

  /** The first loop: gives every argument its parameter. On success the arguments are all placed. */
  method Place(has: TypeTest, ps: seq<Param>, args: seq<Arg>) returns (ok: bool, callArgs: seq<Arg>)
    requires PositionalFirst(args) && (VarIndex(ps) == |ps| ==> |args| <= |ps|)
    ensures ok == FitSoFar(has, ps, args, |args|)
    ensures ok ==> callArgs == Placed(ps, args, |args|)
  {
    hide Placed, FitSoFar, NamedFits, Positional, VarIndex;
    callArgs := args;
    ghost var m := 0;
    var i, namedArgs := 0, false;
    PlacedStart(ps, args);
    FitStart(has, ps, args);
    while i < |callArgs|
      invariant Placing(has, ps, args, m, callArgs, i)
      invariant namedArgs ==> m > Positional(args)
      decreases |args| - m
    {
      assert callArgs[i] == args[m];
      if namedArgs || callArgs[i].name != "" {
        ok, callArgs, m := PlaceNamed(has, ps, args, m, callArgs, i);
        namedArgs := true;
      } else {
        ok, callArgs, m := PlaceUnnamed(has, ps, args, m, callArgs, i);
      }
      if !ok {
        return;
      }
      i := i + 1;
    }
    ok := true;
    assert m == |args| && args[|args|..] == [];
  }

  method PlaceNamed(has: TypeTest, ps: seq<Param>, ghost args: seq<Arg>, ghost m: nat, callArgs: seq<Arg>, i: nat)
    returns (ok: bool, callArgs': seq<Arg>, ghost m': nat)
    requires VarIndex(ps) == |ps| ==> |args| <= |ps|
    requires Placing(has, ps, args, m, callArgs, i) && i < |callArgs| && m >= Positional(args)
    ensures ok ==> m' == m + 1 && Placing(has, ps, args, m', callArgs', i + 1)
    ensures !ok ==> !FitSoFar(has, ps, args, |args|)
  {
    hide Placed, FitSoFar, NamedFits, Positional, VarIndex, IndexOf;
    var arg := callArgs[i];
    assert arg == args[m];
    var j := FindParam(ps, arg.name);
    ok := false;
    if j < |ps| {
      ok := MatchesType(has, arg.value, ps[j].types);
    }
    NamedFitsExactly(has, ps, arg);
    FitNamed(has, ps, args, m);
    callArgs' := callArgs;
    m' := m;
    if ok {
      ReplaceHead(Placed(ps, args, m), args, m, arg.(dst := j));
      callArgs' := callArgs[i := arg.(dst := j)];
      PlacedOneNamed(ps, args, m);
      m' := m + 1;
    }
  }

  method PlaceUnnamed(has: TypeTest, ps: seq<Param>, ghost args: seq<Arg>, ghost m: nat, callArgs: seq<Arg>, i: nat)
    returns (ok: bool, callArgs': seq<Arg>, ghost m': nat)
    requires VarIndex(ps) == |ps| ==> |args| <= |ps|
    requires PositionalFirst(args)
    requires Placing(has, ps, args, m, callArgs, i) && i < |callArgs| && callArgs[i].name == ""
    ensures ok ==> m < m' <= |args| && Placing(has, ps, args, m', callArgs', i + 1)
    ensures ok ==> m' <= Positional(args)
    ensures !ok ==> !FitSoFar(has, ps, args, |args|)
  {
    hide Placed, FitSoFar, NamedFits, Positional, VarIndex, ValuesOf, Fits;
    var arg := callArgs[i];
    assert arg == args[m];
    assert m == i && m < Positional(args);
    var fa := ps[i];
    callArgs' := callArgs;
    m' := m;
    if fa.vararg {
      assert i == VarIndex(ps);
      assert callArgs[i..] == args[i..];
      var last, rest := Eat(args, callArgs, i);
      callArgs' := callArgs[..i] + [Arg(fa.name, ListVal(rest), i)] + callArgs[last..];
      assert callArgs[last..] == args[last..];
      PlacedRestOnce(ps, args);
      FitRest(has, ps, args);
      m' := last;
      ok := true;
    } else {
      ok := MatchesType(has, arg.value, fa.types);
      FitPositional(has, ps, args, m);
      if ok {
        ReplaceHead(Placed(ps, args, m), args, m, Arg(fa.name, arg.value, i));
        callArgs' := callArgs[i := Arg(fa.name, arg.value, i)];
        PlacedOnePositional(ps, args, m);
        m' := m + 1;
      }
    }
  }

  /** The inner loop: the unnamed arguments from `i` on. */
  method Eat(ghost args: seq<Arg>, callArgs: seq<Arg>, i: nat) returns (last: nat, rest: seq<Value>)
    requires i <= |callArgs| && i < Positional(args) && callArgs[i..] == args[i..]
    ensures last == Positional(args) && last <= |callArgs| && rest == ValuesOf(args[i..last])
  {
    hide ValuesOf, Positional;
    last, rest := i, [];
    assert args[i..i] == [];
    NoValues();
    assert |callArgs| == |args| by { assert |callArgs[i..]| == |args[i..]|; }
    while last < |callArgs| && callArgs[last].name == ""
      invariant i <= last <= Positional(args)
      invariant rest == ValuesOf(args[i..last])
    {
      SameAt(args, callArgs, i, last);
      PositionalAt(args, last);
      OneMoreValue(args, i, last);
      rest := rest + [callArgs[last].value];
      last := last + 1;
    }
    if last < |callArgs| {
      SameAt(args, callArgs, i, last);
    }
    PositionalAt(args, last);
  }

  lemma {:induction false} NoValues()
    ensures ValuesOf([]) == []
  {}

  lemma {:induction false} OneMoreValue(args: seq<Arg>, i: nat, j: nat)
    requires i <= j < |args|
    ensures ValuesOf(args[i..j + 1]) == ValuesOf(args[i..j]) + [args[j].value]
  {}

  lemma {:induction false} SameAt(args: seq<Arg>, callArgs: seq<Arg>, i: nat, j: nat)
    requires i <= j < |callArgs| && |callArgs| == |args| && callArgs[i..] == args[i..]
    ensures callArgs[j] == args[j]
  {
    assert callArgs[j] == callArgs[i..][j - i];
  }

  /** Up to the first named argument. */
  lemma {:induction false} PositionalAt(args: seq<Arg>, j: nat)
    requires j <= |args|
    ensures j < |args| && args[j].name == "" && j <= Positional(args) ==> j < Positional(args)
    ensures j <= Positional(args) && (j < |args| ==> args[j].name != "") ==> j == Positional(args)
  {}

  lemma {:induction false} ReplaceHead(placed: seq<Arg>, args: seq<Arg>, m: nat, a: Arg)
    requires m < |args|
    ensures (placed + args[m..])[|placed| := a] == placed + [a] + args[m + 1..]
  {}

  lemma {:induction false} PlacedStart(ps: seq<Param>, args: seq<Arg>)
    requires VarIndex(ps) == |ps| ==> Positional(args) <= |ps|
    ensures Placed(ps, args, 0) == [] && args[0..] == args
  {
    assert args[0..0] == [];
  }

  lemma {:induction false} FitStart(has: TypeTest, ps: seq<Param>, args: seq<Arg>)
    ensures FitSoFar(has, ps, args, 0)
  {}

  lemma {:induction false} FitNamed(has: TypeTest, ps: seq<Param>, args: seq<Arg>, m: nat)
    requires Positional(args) <= m < |args| && FitSoFar(has, ps, args, m)
    ensures FitSoFar(has, ps, args, m + 1) == NamedFits(has, ps, args[m])
    ensures !NamedFits(has, ps, args[m]) ==> !FitSoFar(has, ps, args, |args|)
  {
    hide NamedFits, Fits, VarIndex, Positional;
  }

  lemma {:induction false} NamedFitsExactly(has: TypeTest, ps: seq<Param>, a: Arg)
    ensures var j := IndexOf(ps, a.name); NamedFits(has, ps, a) <==> j < |ps| && Fits(has, a.value, ps[j].types)
  {}

  lemma {:induction false} FitPositional(has: TypeTest, ps: seq<Param>, args: seq<Arg>, m: nat)
    requires m < Positional(args) && m < VarIndex(ps) && FitSoFar(has, ps, args, m)
    ensures FitSoFar(has, ps, args, m + 1) == Fits(has, args[m].value, ps[m].types)
    ensures !Fits(has, args[m].value, ps[m].types) ==> !FitSoFar(has, ps, args, |args|)
  {}

  lemma {:induction false} FitRest(has: TypeTest, ps: seq<Param>, args: seq<Arg>)
    requires VarIndex(ps) < Positional(args) && FitSoFar(has, ps, args, VarIndex(ps))
    ensures FitSoFar(has, ps, args, Positional(args))
  {}

  lemma {:induction false} PlacedOneNamed(ps: seq<Param>, args: seq<Arg>, m: nat)
    requires m < |args| && Positional(args) <= m && (VarIndex(ps) == |ps| ==> Positional(args) <= |ps|)
    ensures Placed(ps, args, m + 1)
         == Placed(ps, args, m) + [Arg(args[m].name, args[m].value, IndexOf(ps, args[m].name))]
  {
    var k, v := Positional(args), VarIndex(ps);
    assert args[k..m + 1] == args[k..m] + [args[m]];
    NamedSnoc(ps, args[k..m], args[m]);
    Regroup(PlacedPositional(ps, args, Min(k, v)) + PlacedRest(ps, args), PlacedNamed(ps, args[k..m]),
            [Arg(args[m].name, args[m].value, IndexOf(ps, args[m].name))]);
  }

  lemma {:induction false} NamedSnoc(ps: seq<Param>, named: seq<Arg>, a: Arg)
    ensures PlacedNamed(ps, named + [a]) == PlacedNamed(ps, named) + [Arg(a.name, a.value, IndexOf(ps, a.name))]
  {}

  lemma {:induction false} PlacedOnePositional(ps: seq<Param>, args: seq<Arg>, m: nat)
    requires m < Positional(args) && m < VarIndex(ps) && (VarIndex(ps) == |ps| ==> Positional(args) <= |ps|)
    ensures Placed(ps, args, m + 1) == Placed(ps, args, m) + [Arg(ps[m].name, args[m].value, m)]
  {
    var k := Positional(args);
    assert args[k..k] == [];
    assert Placed(ps, args, m + 1) == PlacedPositional(ps, args, m + 1);
    assert Placed(ps, args, m) == PlacedPositional(ps, args, m);
  }

  lemma {:induction false} PlacedRestOnce(ps: seq<Param>, args: seq<Arg>)
    requires VarIndex(ps) < Positional(args) && VarIndex(ps) < |ps|
    ensures var k, v := Positional(args), VarIndex(ps);
            Placed(ps, args, k) == Placed(ps, args, v) + [Arg(ps[v].name, ListVal(ValuesOf(args[v..k])), v)]
  {
    var k, v := Positional(args), VarIndex(ps);
    assert args[k..k] == [];
    assert Placed(ps, args, k) == PlacedPositional(ps, args, v) + PlacedRest(ps, args);
  }

  // ----- the second loop: defaults -----

  predicate HasName(args: seq<Arg>, n: string) {
    exists i :: 0 <= i < |args| && args[i].name == n
  }

  function DefaultOf(p: Param): Option<Value> {
    if p.vararg then Some(ListVal([])) else p.dflt
  }

  /** The arguments appended for the first `n` parameters. */
  function Defaults(ps: seq<Param>, base: seq<Arg>, n: nat): seq<Arg>
    requires n <= |ps|
  {
    if n == 0 then []
    else
      Defaults(ps, base, n - 1)
        + (if HasName(base, ps[n - 1].name) || DefaultOf(ps[n - 1]).None? then []
           else [Arg(ps[n - 1].name, DefaultOf(ps[n - 1]).value, n - 1)])
  }

  /** Every parameter is named already or has a default. */
  ghost predicate Fillable(ps: seq<Param>, base: seq<Arg>, n: nat)
    requires n <= |ps|
  {
    forall j :: 0 <= j < n ==> HasName(base, ps[j].name) || DefaultOf(ps[j]).Some?
  }

  lemma {:induction false} DefaultsNames(ps: seq<Param>, base: seq<Arg>, n: nat)
    requires n <= |ps|
    ensures forall i :: 0 <= i < |Defaults(ps, base, n)| ==>
              var d := Defaults(ps, base, n)[i];
              && d.dst < n && d.name == ps[d.dst].name && DefaultOf(ps[d.dst]) == Some(d.value) && !HasName(base, d.name)
    ensures forall i, j :: 0 <= i < j < |Defaults(ps, base, n)| ==> Defaults(ps, base, n)[i].dst != Defaults(ps, base, n)[j].dst
    decreases n
  {
    if n > 0 {
      hide DefaultOf, HasName;
      DefaultsNames(ps, base, n - 1);
    }
  }

  lemma {:induction false} DefaultsReach(ps: seq<Param>, base: seq<Arg>, n: nat)
    requires n <= |ps|
    ensures forall j :: 0 <= j < n && !HasName(base, ps[j].name) && DefaultOf(ps[j]).Some? ==> Reached(Defaults(ps, base, n), j)
    decreases n
  {
    if n > 0 {
      hide DefaultOf, HasName;
      DefaultsReach(ps, base, n - 1);
      var before, all := Defaults(ps, base, n - 1), Defaults(ps, base, n);
      forall j | 0 <= j < n && !HasName(base, ps[j].name) && DefaultOf(ps[j]).Some? ensures Reached(all, j) {
        if j < n - 1 {
          assert Reached(before, j);
          var i :| 0 <= i < |before| && before[i].dst == j;
          assert all[i].dst == j;
        } else {
          assert all[|before|].dst == j;
        }
      }
    }
  }

  lemma {:induction false} DefaultsUnnamed(ps: seq<Param>, base: seq<Arg>, n: nat)
    requires Declared(ps) && n < |ps|
    ensures HasName(base + Defaults(ps, base, n), ps[n].name) <==> HasName(base, ps[n].name)
  {
    DefaultsNames(ps, base, n);
    var all := base + Defaults(ps, base, n);
    if HasName(base, ps[n].name) {
      var i :| 0 <= i < |base| && base[i].name == ps[n].name;
      assert all[i].name == ps[n].name;
    }
  }

  method FindName(args: seq<Arg>, n: string) returns (found: bool)
    ensures found == HasName(args, n)
  {
    found := false;
    var i := 0;
    while i < |args| && !found
      invariant i <= |args|
      invariant found ==> HasName(args, n)
      invariant !found ==> forall j :: 0 <= j < i ==> args[j].name != n
    {
      found := args[i].name == n;
      i := i + 1;
    }
  }

  method FillDefaults(ps: seq<Param>, base: seq<Arg>) returns (ok: bool, callArgs: seq<Arg>)
    requires Declared(ps)
    ensures ok == Fillable(ps, base, |ps|)
    ensures ok ==> callArgs == base + Defaults(ps, base, |ps|)
  {
    hide HasName;
    callArgs := base;
    var i := 0;
    while i < |ps|
      invariant i <= |ps| && callArgs == base + Defaults(ps, base, i) && Fillable(ps, base, i)
    {
      var fa := ps[i];
      var found := FindName(callArgs, fa.name);
      DefaultsUnnamed(ps, base, i);
      if !found {
        if fa.vararg {
          callArgs := callArgs + [Arg(fa.name, ListVal([]), i)];
        } else if fa.dflt.Some? {
          callArgs := callArgs + [Arg(fa.name, fa.dflt.value, i)];
        } else {
          return false, [];
        }
      }
      i := i + 1;
    }
    ok := true;
  }

  // ----- the whole matcher -----

  /** The tests and loops of `can_call`, on the arguments to be matched: the result is a complete binding
      exactly when no parameter is given twice. */
  method MatchArgs(has: TypeTest, ps: seq<Param>, args: seq<Arg>) returns (err: Option<Diag>, callArgs: seq<Arg>)
    requires Declared(ps) && PositionalFirst(args)
    ensures err.None? <==> Accepted(has, ps, args)
    ensures err.None? ==> |callArgs| == |ps| && (Complete(ps, args, callArgs) <==> OncePerParam(ps, args))
    ensures err != Some(ClassCallNeedsThis)
  {
    hide Accepted, Complete, Placed, FitSoFar, Fillable, OncePerParam, Defaults;
    var tooMany := TooMany(ps, args);
    AcceptedExactly(has, ps, args);
    if tooMany {
      return Some(PassedMoreArgs), args;
    }
    var ok;
    ok, callArgs := Place(has, ps, args);
    if !ok {
      return Some(ArgMismatch), args;
    }
    if |ps| > |callArgs| {
      ok, callArgs := FillDefaults(ps, callArgs);
      if !ok {
        return Some(ArgMismatch), args;
      }
    }
    err := if |callArgs| == |ps| then None else Some(ArgMismatch);
  }

  // ----- `this` -----

  const THIS: string := "this"

  predicate IsThisObject(kind: KindTest, a: Arg) {
    a.name == THIS && kind(a.value).ObjectKind?
  }

  predicate EndsInThis(args: seq<Arg>) {
    args != [] && args[|args| - 1].name == THIS
  }

  /** A call of a class attribute passes the class as `this`. */
  predicate ClassCall(kind: KindTest, args: seq<Arg>) {
    EndsInThis(args) && kind(args[|args| - 1].value).ClassKind?
  }

  predicate TwoThis(kind: KindTest, args: seq<Arg>) {
    |args| > 1 && IsThisObject(kind, args[|args| - 1]) && IsThisObject(kind, args[|args| - 2])
  }

  /** A class call without a positional argument to take for `this`. */
  predicate NeedsThis(kind: KindTest, args: seq<Arg>) {
    ClassCall(kind, args) && (|args| < 2 || args[|args| - 2].name != "")
  }

  /** Of two objects passed as `this` the first is dropped. */
  function OneThis(kind: KindTest, args: seq<Arg>): seq<Arg> {
    if TwoThis(kind, args) then args[..|args| - 2] + [args[|args| - 1]] else args
  }

  /** The arguments to be matched: those of a class call without the class and its `this`. */
  function Matched(kind: KindTest, args: seq<Arg>): seq<Arg> {
    if ClassCall(kind, args) && |args| >= 2 then args[..|args| - 2] else OneThis(kind, args)
  }

  /** What is bound behind the parameters: the `this` of a class call. */
  function Behind(kind: KindTest, args: seq<Arg>, n: nat): seq<Arg> {
    if ClassCall(kind, args) && |args| >= 2 then [Arg(THIS, args[|args| - 2].value, n)] else []
  }

  /** The arguments after an attempt that failed: a `this` may be gone, and in a class call the last
      positional argument is called `this`. */
  function Touched(kind: KindTest, args: seq<Arg>): seq<Arg> {
    if ClassCall(kind, args) && !NeedsThis(kind, args) then args[|args| - 2 := args[|args| - 2].(name := THIS)]
    else OneThis(kind, args)
  }

  ghost predicate Callable(has: TypeTest, kind: KindTest, ps: seq<Param>, args: seq<Arg>) {
    !NeedsThis(kind, args) && Accepted(has, ps, Matched(kind, args))
  }

  /** The arguments of a frame that binds `args`. */
  ghost predicate BindsFrame(kind: KindTest, ps: seq<Param>, args: seq<Arg>, frame: seq<Arg>) {
    && |frame| >= |ps| && frame[|ps|..] == Behind(kind, args, |ps|)
    && (Complete(ps, Matched(kind, args), frame[..|ps|]) <==> OncePerParam(ps, Matched(kind, args)))
  }

  lemma {:induction false} MatchedFirst(kind: KindTest, args: seq<Arg>)
    requires PositionalFirst(args)
    ensures PositionalFirst(Matched(kind, args)) && PositionalFirst(OneThis(kind, args))
  {
    PrefixFirst(args, |args|);
    if |args| >= 2 {
      PrefixFirst(args, |args| - 2);
      LastFirst(args[..|args| - 2], args[|args| - 1]);
    }
  }

  lemma {:induction false} PrefixFirst(args: seq<Arg>, n: nat)
    requires PositionalFirst(args) && n <= |args|
    ensures PositionalFirst(args[..n])
  {
    var k := Positional(args[..n]);
    assert k < n ==> args[k].name != "";
  }

  lemma {:induction false} LastFirst(args: seq<Arg>, a: Arg)
    requires PositionalFirst(args)
    ensures a.name != "" ==> PositionalFirst(args + [a])
  {
    var k := Positional(args + [a]);
    assert k < |args| ==> args[k].name != "";
  }

  /** `can_call`: succeeds exactly for the callable arguments and replaces those of the frame by their
      binding; otherwise the frame keeps them but for what has been done to `this`. */
  method CanCall(has: TypeTest, kind: KindTest, ps: seq<Param>, cf: CallFrame) returns (err: Option<Diag>)
    requires Declared(ps) && PositionalFirst(cf.args)
    modifies cf
    ensures err == Some(ClassCallNeedsThis) <==> NeedsThis(kind, old(cf.args))
    ensures err.None? <==> Callable(has, kind, ps, old(cf.args))
    ensures err.None? ==> BindsFrame(kind, ps, old(cf.args), cf.args)
    ensures err.Some? ==> cf.args == Touched(kind, old(cf.args))
  {
    hide Accepted, Complete, OncePerParam, Declared, PositionalFirst;
    MatchedFirst(kind, cf.args);
    var n := |cf.args|;
    var callArgs, ths := cf.args, None;
    if n > 0 && cf.args[n - 1].name == THIS {
      if n > 1 && IsThisObject(kind, cf.args[n - 1]) && IsThisObject(kind, cf.args[n - 2]) {
        cf.args := cf.args[..n - 2] + [cf.args[n - 1]];
        n := n - 1;
      }
      if kind(cf.args[n - 1].value).ClassKind? {
        if n < 2 || cf.args[n - 2].name != "" {
          return Some(ClassCallNeedsThis);
        }
        cf.args := cf.args[n - 2 := cf.args[n - 2].(name := THIS)];
        ths := Some(cf.args[n - 2]);
        callArgs := cf.args[..n - 2];
      } else {
        callArgs := cf.args;
      }
    }
    assert callArgs == Matched(kind, old(cf.args));
    err, callArgs := MatchArgs(has, ps, callArgs);
    if err.None? {
      ghost var matched := callArgs;
      if ths.Some? {
        callArgs := callArgs + [ths.value.(dst := |callArgs|)];
      }
      assert callArgs[..|ps|] == matched;
      cf.args := callArgs;
    }
  }

  /** The arguments after both loops. */
  ghost function Bound(ps: seq<Param>, args: seq<Arg>): seq<Arg>
    requires VarIndex(ps) == |ps| ==> |args| <= |ps|
  {
    var base := Placed(ps, args, |args|);
    if |ps| > |base| then base + Defaults(ps, base, |ps|) else base
  }

  /** What the tests of the matcher decide. */
  lemma {:induction false} AcceptedExactly(has: TypeTest, ps: seq<Param>, args: seq<Arg>)
    requires Declared(ps) && PositionalFirst(args)
    ensures Accepted(has, ps, args)
        <==> (VarIndex(ps) == |ps| ==> |args| <= |ps|) && FitSoFar(has, ps, args, |args|)
             && (|ps| > |Placed(ps, args, |args|)| ==> Fillable(ps, Placed(ps, args, |args|), |ps|))
             && |Bound(ps, args)| == |ps|
    ensures Accepted(has, ps, args) ==> (Complete(ps, args, Bound(ps, args)) <==> OncePerParam(ps, args))
  {
    hide Bindable, Overfull, Complete, Placed, FitSoFar, Fillable, OncePerParam, Defaults, WellCalled;
    if OncePerParam(ps, args) {
      BindableBound(has, ps, args);
    } else {
      OverfullBound(has, ps, args);
    }
  }

  lemma {:induction false} BindableBound(has: TypeTest, ps: seq<Param>, args: seq<Arg>)
    requires Declared(ps) && PositionalFirst(args) && OncePerParam(ps, args)
    ensures Bindable(has, ps, args)
        <==> (VarIndex(ps) == |ps| ==> |args| <= |ps|) && FitSoFar(has, ps, args, |args|)
             && (|ps| > |Placed(ps, args, |args|)| ==> Fillable(ps, Placed(ps, args, |args|), |ps|))
             && |Bound(ps, args)| == |ps|
    ensures Bindable(has, ps, args) ==> Complete(ps, args, Bound(ps, args))
  {
    hide Bindable, Complete, Placed, FitSoFar, Fillable, OncePerParam, Defaults;
    BindableExactly(has, ps, args);
    if (VarIndex(ps) == |ps| ==> |args| <= |ps|) && FitSoFar(has, ps, args, |args|) {
      var base := Placed(ps, args, |args|);
      if |base| >= |ps| {
        AllSupplied(has, ps, args);
        assert base + [] == base;
      }
      if Fillable(ps, base, |ps|) {
        BoundComplete(has, ps, args, Bound(ps, args));
        CompleteLength(ps, args, Bound(ps, args));
      }
    }
  }

  // ----- a parameter given twice -----

  predicate Repeats(bound: seq<Arg>) {
    exists i, j :: 0 <= i < j < |bound| && bound[i].dst == bound[j].dst
  }

  lemma {:induction false} OverfullBound(has: TypeTest, ps: seq<Param>, args: seq<Arg>)
    requires Declared(ps) && PositionalFirst(args) && !OncePerParam(ps, args)
    ensures Overfull(has, ps, args)
        <==> (VarIndex(ps) == |ps| ==> |args| <= |ps|) && FitSoFar(has, ps, args, |args|)
             && (|ps| > |Placed(ps, args, |args|)| ==> Fillable(ps, Placed(ps, args, |args|), |ps|))
             && |Bound(ps, args)| == |ps|
    ensures Overfull(has, ps, args) ==> !Complete(ps, args, Bound(ps, args))
  {
    hide *;
    OverfullExactly(has, ps, args);
    if (VarIndex(ps) == |ps| ==> |args| <= |ps|) && FitSoFar(has, ps, args, |args|) {
      var base := Placed(ps, args, |args|);
      BoundIs(ps, args);
      PlacedRepeats(ps, args);
      CompleteDiffers(ps, args, base);
      if |ps| > |base| && Fillable(ps, base, |ps|) {
        RepeatedTooLong(has, ps, args);
      }
    }
  }

  lemma {:induction false} BoundIs(ps: seq<Param>, args: seq<Arg>)
    requires VarIndex(ps) == |ps| ==> |args| <= |ps|
    ensures var base := Placed(ps, args, |args|);
            Bound(ps, args) == if |ps| > |base| then base + Defaults(ps, base, |ps|) else base
  {}

  lemma {:induction false} CompleteDiffers(ps: seq<Param>, args: seq<Arg>, bound: seq<Arg>)
    requires Repeats(bound)
    ensures !Complete(ps, args, bound)
  {
    hide Given;
  }

  lemma {:induction false} OverfullExactly(has: TypeTest, ps: seq<Param>, args: seq<Arg>)
    ensures Overfull(has, ps, args)
        <==> (VarIndex(ps) == |ps| ==> |args| <= |ps|) && FitSoFar(has, ps, args, |args|)
             && |Placed(ps, args, |args|)| == |ps|
  {
    hide Placed, Fits, NamedFits, Positional, VarIndex;
    if VarIndex(ps) == |ps| ==> Positional(args) <= |ps| {
      PlacedSize(ps, args);
    }
  }

  /** A parameter given twice is the destination of two placed arguments. */
  lemma {:induction false} PlacedRepeats(ps: seq<Param>, args: seq<Arg>)
    requires PositionalFirst(args) && !OncePerParam(ps, args)
    requires VarIndex(ps) == |ps| ==> Positional(args) <= |ps|
    ensures Repeats(Placed(ps, args, |args|))
  {
    hide Placed, VarIndex, Positional, IndexOf, ValuesOf;
    var k, v := Positional(args), VarIndex(ps);
    if m :| k <= m < |args| && FilledByPosition(k, v, IndexOf(ps, args[m].name)) {
      var j := IndexOf(ps, args[m].name);
      PlacedByName(ps, args, m, if v < k then m - k + v + 1 else m);
      if j < Min(k, v) {
        PlacedByPosition(ps, args, j);
      } else {
        PlacedAsRest(ps, args);
      }
    } else {
      var m, n :| k <= m < n < |args| && args[m].name == args[n].name;
      PlacedByName(ps, args, m, if v < k then m - k + v + 1 else m);
      PlacedByName(ps, args, n, if v < k then n - k + v + 1 else n);
    }
  }

  /** Every placed argument has a parameter and its name. */
  ghost predicate Named(ps: seq<Param>, bound: seq<Arg>) {
    forall i :: 0 <= i < |bound| ==> bound[i].dst < |ps| && bound[i].name == ps[bound[i].dst].name
  }

  lemma {:induction false} PlacedAreNamed(has: TypeTest, ps: seq<Param>, args: seq<Arg>)
    requires PositionalFirst(args) && FitSoFar(has, ps, args, |args|)
    requires VarIndex(ps) == |ps| ==> Positional(args) <= |ps|
    ensures Named(ps, Placed(ps, args, |args|))
  {
    hide *;
    var placed := Placed(ps, args, |args|);
    forall i | 0 <= i < |placed| ensures placed[i].dst < |ps| && placed[i].name == ps[placed[i].dst].name {
      PlacedIsNamed(has, ps, args, i);
    }
    AllNamed(ps, placed);
  }

  lemma {:induction false} AllNamed(ps: seq<Param>, bound: seq<Arg>)
    requires forall i :: 0 <= i < |bound| ==> bound[i].dst < |ps| && bound[i].name == ps[bound[i].dst].name
    ensures Named(ps, bound)
  {}

  lemma {:induction false} PlacedIsNamed(has: TypeTest, ps: seq<Param>, args: seq<Arg>, i: nat)
    requires PositionalFirst(args) && FitSoFar(has, ps, args, |args|)
    requires VarIndex(ps) == |ps| ==> Positional(args) <= |ps|
    requires i < |Placed(ps, args, |args|)|
    ensures var a := Placed(ps, args, |args|)[i]; a.dst < |ps| && a.name == ps[a.dst].name
  {
    hide *;
    var k, v := Positional(args), VarIndex(ps);
    MinIs(k, v);
    PlacedAt(ps, args, i);
    if i >= Min(k, v) && !(v < k && i == v) {
      NamedHasParam(has, ps, args, if v < k then i - v - 1 + k else i);
    }
  }

  lemma {:induction false} NamedHasParam(has: TypeTest, ps: seq<Param>, args: seq<Arg>, m: nat)
    requires Positional(args) <= m < |args| && FitSoFar(has, ps, args, |args|)
    ensures IndexOf(ps, args[m].name) < |ps|
  {
    assert NamedFits(has, ps, args[m]);
  }

  /** With a repeated parameter the defaults make more arguments than parameters. */
  lemma {:induction false} RepeatedTooLong(has: TypeTest, ps: seq<Param>, args: seq<Arg>)
    requires Declared(ps) && PositionalFirst(args) && FitSoFar(has, ps, args, |args|)
    requires VarIndex(ps) == |ps| ==> |args| <= |ps|
    requires Repeats(Placed(ps, args, |args|)) && Fillable(ps, Placed(ps, args, |args|), |ps|)
    ensures var base := Placed(ps, args, |args|); |base + Defaults(ps, base, |ps|)| > |ps|
  {
    hide *;
    var base := Placed(ps, args, |args|);
    var more := Defaults(ps, base, |ps|);
    PlacedAreNamed(has, ps, args);
    forall j | 0 <= j < |ps| ensures Reached(base + more, j) {
      FilledReached(ps, base, j);
      ReachedEither(base, more, j);
    }
    RepeatsLonger(base, more);
    Surplus(base + more, |ps|);
  }

  lemma {:induction false} RepeatsLonger(x: seq<Arg>, y: seq<Arg>)
    requires Repeats(x)
    ensures Repeats(x + y)
  {
    var i, j :| 0 <= i < j < |x| && x[i].dst == x[j].dst;
    assert (x + y)[i].dst == (x + y)[j].dst;
  }

  lemma {:induction false} FilledReached(ps: seq<Param>, base: seq<Arg>, j: nat)
    requires Declared(ps) && Named(ps, base) && Fillable(ps, base, |ps|) && j < |ps|
    ensures Reached(base, j) || Reached(Defaults(ps, base, |ps|), j)
  {
    hide Defaults, DefaultOf;
    if HasName(base, ps[j].name) {
      var i :| 0 <= i < |base| && base[i].name == ps[j].name;
      assert base[i].dst == j;
    } else {
      DefaultsReach(ps, base, |ps|);
    }
  }

  /** All numbers below `n` reached, one of them twice: there are more than `n`. */
  lemma {:induction false} Surplus(bound: seq<Arg>, n: nat)
    requires Repeats(bound) && forall j :: 0 <= j < n ==> Reached(bound, j)
    ensures |bound| > n
  {
    hide Below;
    var a, b :| 0 <= a < b < |bound| && bound[a].dst == bound[b].dst;
    var fewer := bound[..b] + bound[b + 1..];
    var ds := set i | 0 <= i < |fewer| :: fewer[i].dst;
    BelowCount(n);
    forall j | j in Below(n) ensures j in ds {
      assert Reached(bound, j);
      var i :| 0 <= i < |bound| && bound[i].dst == j;
      var c := if i == b then a else i;
      assert fewer[if c < b then c else c - 1] == bound[c];
    }
    assert Below(n) <= ds;
    SubsetCount(Below(n), ds);
    ImageCount(fewer);
  }

  lemma {:induction false} ImageCount(bound: seq<Arg>)
    ensures |set i | 0 <= i < |bound| :: bound[i].dst| <= |bound|
    decreases bound
  {
    var ds := set i | 0 <= i < |bound| :: bound[i].dst;
    if bound == [] {
      assert ds == {};
    } else {
      var last, front := bound[|bound| - 1], bound[..|bound| - 1];
      var rest := set i | 0 <= i < |front| :: front[i].dst;
      ImageCount(front);
      forall d | d in ds ensures d in rest + {last.dst} {
        var i :| 0 <= i < |bound| && bound[i].dst == d;
        if i < |front| { assert front[i].dst == d; }
      }
      assert ds <= rest + {last.dst};
      SubsetCount(ds, rest + {last.dst});
    }
  }

  lemma {:induction false} CompleteLength(ps: seq<Param>, args: seq<Arg>, bound: seq<Arg>)
    requires Complete(ps, args, bound)
    ensures |bound| == |ps|
  {}

  lemma {:induction false} WellCalledParts(ps: seq<Param>, args: seq<Arg>)
    requires WellCalled(ps, args)
    ensures Declared(ps) && PositionalFirst(args) && OncePerParam(ps, args)
  {}

  // ----- why: pigeonholes -----

  function Below(n: nat): set<nat> {
    if n == 0 then {} else Below(n - 1) + {n - 1}
  }

  lemma {:induction false} BelowCount(n: nat)
    ensures |Below(n)| == n && forall j: nat :: j in Below(n) <==> j < n
    decreases n
  {
    if n > 0 {
      BelowCount(n - 1);
    }
  }

  /** Different numbers below `n`: at most `n`, and `n` exactly if all. */
  lemma {:induction false} Pigeonhole(bound: seq<Arg>, n: nat)
    requires forall i :: 0 <= i < |bound| ==> bound[i].dst < n
    requires forall i, j :: 0 <= i < j < |bound| ==> bound[i].dst != bound[j].dst
    ensures |bound| <= n
    ensures |bound| == n ==> forall j :: 0 <= j < n ==> Reached(bound, j)
    ensures (forall j :: 0 <= j < n ==> Reached(bound, j)) ==> |bound| == n
  {
    hide Below;
    var ds := set i | 0 <= i < |bound| :: bound[i].dst;
    var all := Below(n);
    DistinctCount(bound);
    BelowCount(n);
    assert ds <= all;
    SubsetCount(ds, all);
    if |bound| == n {
      SubsetFull(ds, all);
      forall j: nat | j < n ensures Reached(bound, j) {
        assert j in all && j in ds;
      }
    }
    if forall j :: 0 <= j < n ==> Reached(bound, j) {
      forall j | j in all ensures j in ds {
        assert Reached(bound, j);
      }
      assert ds == all;
    }
  }

  lemma {:induction false} DistinctCount(bound: seq<Arg>)
    requires forall i, j :: 0 <= i < j < |bound| ==> bound[i].dst != bound[j].dst
    ensures |set i | 0 <= i < |bound| :: bound[i].dst| == |bound|
    decreases bound
  {
    var ds := set i | 0 <= i < |bound| :: bound[i].dst;
    if bound == [] {
      assert ds == {};
    } else {
      var last, front := bound[|bound| - 1], bound[..|bound| - 1];
      var rest := set i | 0 <= i < |front| :: front[i].dst;
      DistinctCount(front);
      forall d | d in ds ensures d in rest + {last.dst} {
        var i :| 0 <= i < |bound| && bound[i].dst == d;
        if i < |front| { assert front[i].dst == d; }
      }
      forall d | d in rest ensures d in ds {
        var i :| 0 <= i < |front| && front[i].dst == d;
        assert bound[i].dst == d;
      }
      assert bound[|bound| - 1].dst in ds;
      assert ds == rest + {last.dst};
      assert last.dst !in rest;
    }
  }

  lemma {:induction false} SubsetCount(x: set<nat>, y: set<nat>)
    requires x <= y
    ensures |x| <= |y|
    decreases x
  {
    if x != {} {
      var e :| e in x;
      SubsetCount(x - {e}, y - {e});
    }
  }

  lemma {:induction false} SubsetFull(x: set<nat>, y: set<nat>)
    requires x <= y && |x| == |y|
    ensures x == y
  {
    if x != y {
      var e :| e in y && e !in x;
      SubsetCount(x, y - {e});
    }
  }

  // ----- why: placed arguments -----

  /** What the first loop leaves: different parameters, each with its name and its value. */
  ghost predicate Sound(ps: seq<Param>, args: seq<Arg>, bound: seq<Arg>) {
    && (forall i :: 0 <= i < |bound| ==>
          bound[i].dst < |ps| && bound[i].name == ps[bound[i].dst].name && Given(ps, args, bound[i].dst) == Some(bound[i].value))
    && (forall i, j :: 0 <= i < j < |bound| ==> bound[i].dst != bound[j].dst)
  }

  lemma {:induction false} NamedArgAt(named: seq<Arg>, i: nat)
    requires i < |named| && forall a, b :: 0 <= a < b < |named| ==> named[a].name != named[b].name
    ensures NamedArg(named, named[i].name) == Some(named[i].value)
    decreases i
  {
    if i > 0 {
      assert named[0].name != named[i].name;
      var rest := named[1..];
      assert forall a :: 0 <= a < |rest| ==> rest[a] == named[a + 1];
      NamedArgAt(rest, i - 1);
    }
  }

  lemma {:induction false} NamedArgNone(named: seq<Arg>, n: string)
    ensures NamedArg(named, n).None? <==> forall i :: 0 <= i < |named| ==> named[i].name != n
    decreases named
  {
    if named != [] {
      var rest := named[1..];
      NamedArgNone(rest, n);
      assert forall a :: 0 <= a < |rest| ==> rest[a] == named[a + 1];
      if NamedArg(rest, n).None? && named[0].name != n {
        forall i | 0 <= i < |named| ensures named[i].name != n {
          if i > 0 { assert named[i] == rest[i - 1]; }
        }
      }
    }
  }

  /** The argument the first loop makes of named argument `m`. */
  lemma {:induction false} NamedSound(has: TypeTest, ps: seq<Param>, args: seq<Arg>, m: nat)
    requires WellCalled(ps, args) && Positional(args) <= m < |args| && FitSoFar(has, ps, args, |args|)
    ensures var j := IndexOf(ps, args[m].name); j < |ps| && Given(ps, args, j) == Some(args[m].value)
  {
    var k, v, j := Positional(args), VarIndex(ps), IndexOf(ps, args[m].name);
    assert NamedFits(has, ps, args[m]);
    assert !FilledByPosition(k, v, IndexOf(ps, args[m].name));
    var named := args[k..];
    assert named[m - k] == args[m];
    NamedArgAt(named, m - k);
  }

  lemma {:induction false} PlacedByPosition(ps: seq<Param>, args: seq<Arg>, i: nat)
    requires VarIndex(ps) == |ps| ==> Positional(args) <= |ps|
    requires i < Min(Positional(args), VarIndex(ps))
    ensures i < |Placed(ps, args, |args|)| && Placed(ps, args, |args|)[i] == Arg(ps[i].name, args[i].value, i)
  {
    hide PlacedRest, PlacedNamed, VarIndex, Positional;
  }

  lemma {:induction false} PlacedAsRest(ps: seq<Param>, args: seq<Arg>)
    requires VarIndex(ps) == |ps| ==> Positional(args) <= |ps|
    requires VarIndex(ps) < Positional(args)
    ensures var k, v := Positional(args), VarIndex(ps);
            v < |ps| && v < |Placed(ps, args, |args|)|
            && Placed(ps, args, |args|)[v] == Arg(ps[v].name, ListVal(ValuesOf(args[v..k])), v)
  {
    hide PlacedNamed, VarIndex, Positional, ValuesOf;
  }

  lemma {:induction false} PlacedByName(ps: seq<Param>, args: seq<Arg>, m: nat, i: nat)
    requires VarIndex(ps) == |ps| ==> Positional(args) <= |ps|
    requires Positional(args) <= m < |args|
    requires i == if VarIndex(ps) < Positional(args) then m - Positional(args) + VarIndex(ps) + 1 else m
    ensures i < |Placed(ps, args, |args|)|
    ensures Placed(ps, args, |args|)[i] == Arg(args[m].name, args[m].value, IndexOf(ps, args[m].name))
  {
    hide *;
    var k, v := Positional(args), VarIndex(ps);
    PlacedParts(ps, args);
    var named := args[k..];
    assert named[m - k] == args[m] && m - k < |named|;
    NamedPlacedAt(ps, named, m - k);
    MinIs(k, v);
    var x, y, z := PlacedPositional(ps, args, Min(k, v)), PlacedRest(ps, args), PlacedNamed(ps, named);
    LastPart(x, y, z, i, m - k);
  }

  lemma {:induction false} MinIs(a: nat, b: nat)
    ensures Min(a, b) == if a < b then a else b
  {}

  lemma {:induction false} PlacedParts(ps: seq<Param>, args: seq<Arg>)
    requires VarIndex(ps) == |ps| ==> Positional(args) <= |ps|
    ensures var k, v := Positional(args), VarIndex(ps);
            var x, y := PlacedPositional(ps, args, Min(k, v)), PlacedRest(ps, args);
            && Placed(ps, args, |args|) == x + y + PlacedNamed(ps, args[k..])
            && |x| == Min(k, v) && |y| == if v < k then 1 else 0
  {
    hide PlacedNamed, VarIndex, Positional, ValuesOf;
    assert args[Positional(args)..|args|] == args[Positional(args)..];
  }

  lemma {:induction false} NamedPlacedAt(ps: seq<Param>, named: seq<Arg>, i: nat)
    requires i < |named|
    ensures |PlacedNamed(ps, named)| == |named|
    ensures PlacedNamed(ps, named)[i] == Arg(named[i].name, named[i].value, IndexOf(ps, named[i].name))
  {}

  lemma {:induction false} LastPart<T>(x: seq<T>, y: seq<T>, z: seq<T>, i: nat, j: nat)
    requires j < |z| && i == |x| + |y| + j
    ensures i < |x + y + z| && (x + y + z)[i] == z[j]
  {}

  /** Placed argument number `i` came by position, as the list of the rest, or by name. */
  lemma {:induction false} PlacedAt(ps: seq<Param>, args: seq<Arg>, i: nat)
    requires PositionalFirst(args) && (VarIndex(ps) == |ps| ==> Positional(args) <= |ps|)
    requires i < |Placed(ps, args, |args|)|
    ensures var k, v := Positional(args), VarIndex(ps);
            var a := Placed(ps, args, |args|)[i];
            if i < Min(k, v) then a == Arg(ps[i].name, args[i].value, i)
            else if v < k && i == v then v < |ps| && a == Arg(ps[v].name, ListVal(ValuesOf(args[v..k])), v)
            else
              var m := if v < k then i - v - 1 + k else i;
              k <= m < |args| && a == Arg(args[m].name, args[m].value, IndexOf(ps, args[m].name))
  {
    hide Placed, VarIndex, Positional, ValuesOf, IndexOf;
    var k, v := Positional(args), VarIndex(ps);
    PlacedSize(ps, args);
    if i < Min(k, v) {
      PlacedByPosition(ps, args, i);
    } else if v < k && i == v {
      PlacedAsRest(ps, args);
    } else {
      PlacedByName(ps, args, if v < k then i - v - 1 + k else i, i);
    }
  }

  lemma {:induction false} PlacedSize(ps: seq<Param>, args: seq<Arg>)
    requires VarIndex(ps) == |ps| ==> Positional(args) <= |ps|
    ensures var k, v := Positional(args), VarIndex(ps);
            |Placed(ps, args, |args|)| == if v < k then v + 1 + |args| - k else |args|
  {}

  lemma {:induction false} PlacedSound(has: TypeTest, ps: seq<Param>, args: seq<Arg>)
    requires WellCalled(ps, args) && FitSoFar(has, ps, args, |args|)
    requires VarIndex(ps) == |ps| ==> Positional(args) <= |ps|
    ensures Sound(ps, args, Placed(ps, args, |args|))
  {
    var placed := Placed(ps, args, |args|);
    hide *;
    forall i | 0 <= i < |placed|
      ensures placed[i].dst < |ps| && placed[i].name == ps[placed[i].dst].name
      ensures Given(ps, args, placed[i].dst) == Some(placed[i].value)
    {
      PlacedOneSound(has, ps, args, i);
    }
    forall i, j | 0 <= i < j < |placed| ensures placed[i].dst != placed[j].dst {
      PlacedTwoDiffer(has, ps, args, i, j);
    }
    SoundParts(ps, args, placed);
  }

  lemma {:induction false} SoundParts(ps: seq<Param>, args: seq<Arg>, bound: seq<Arg>)
    requires forall i :: 0 <= i < |bound| ==>
               bound[i].dst < |ps| && bound[i].name == ps[bound[i].dst].name && Given(ps, args, bound[i].dst) == Some(bound[i].value)
    requires forall i, j :: 0 <= i < j < |bound| ==> bound[i].dst != bound[j].dst
    ensures Sound(ps, args, bound)
  {}

  lemma {:induction false} PlacedOneSound(has: TypeTest, ps: seq<Param>, args: seq<Arg>, i: nat)
    requires WellCalled(ps, args) && FitSoFar(has, ps, args, |args|)
    requires VarIndex(ps) == |ps| ==> Positional(args) <= |ps|
    requires i < |Placed(ps, args, |args|)|
    ensures var a := Placed(ps, args, |args|)[i];
            a.dst < |ps| && a.name == ps[a.dst].name && Given(ps, args, a.dst) == Some(a.value)
  {
    hide Placed, VarIndex, Positional, ValuesOf, IndexOf, FitSoFar, WellCalled, Given;
    var k, v := Positional(args), VarIndex(ps);
    assert PositionalFirst(args) by { WellCalledParts(ps, args); }
    PlacedAt(ps, args, i);
    if i < Min(k, v) {
      GivenByPosition(ps, args, i);
    } else if v < k && i == v {
      GivenAsRest(ps, args);
    } else {
      NamedSound(has, ps, args, if v < k then i - v - 1 + k else i);
    }
  }

  lemma {:induction false} GivenByPosition(ps: seq<Param>, args: seq<Arg>, i: nat)
    requires i < Min(Positional(args), VarIndex(ps))
    ensures Given(ps, args, i) == Some(args[i].value)
  {}

  lemma {:induction false} GivenAsRest(ps: seq<Param>, args: seq<Arg>)
    requires VarIndex(ps) < Positional(args) && VarIndex(ps) < |ps|
    ensures var k, v := Positional(args), VarIndex(ps);
            Given(ps, args, v) == Some(ListVal(ValuesOf(args[v..k])))
  {}

  lemma {:induction false} PlacedTwoDiffer(has: TypeTest, ps: seq<Param>, args: seq<Arg>, i: nat, j: nat)
    requires WellCalled(ps, args) && FitSoFar(has, ps, args, |args|)
    requires VarIndex(ps) == |ps| ==> Positional(args) <= |ps|
    requires i < j < |Placed(ps, args, |args|)|
    ensures Placed(ps, args, |args|)[i].dst != Placed(ps, args, |args|)[j].dst
  {
    hide *;
    WellCalledParts(ps, args);
    var k, v := Positional(args), VarIndex(ps);
    MinIs(k, v);
    PlacedAt(ps, args, i);
    PlacedAt(ps, args, j);
    if j >= Min(k, v) && !(v < k && j == v) {
      var n := if v < k then j - v - 1 + k else j;
      NamedSound(has, ps, args, n);
      NotByPosition(ps, args, n);
      if i >= Min(k, v) && !(v < k && i == v) {
        var m := if v < k then i - v - 1 + k else i;
        NamedSound(has, ps, args, m);
        NamesDiffer(ps, args, m, n);
      }
    }
  }

  lemma {:induction false} NotByPosition(ps: seq<Param>, args: seq<Arg>, m: nat)
    requires OncePerParam(ps, args) && Positional(args) <= m < |args|
    ensures var j := IndexOf(ps, args[m].name);
            j >= Min(Positional(args), VarIndex(ps)) && !(j == VarIndex(ps) < Positional(args))
  {
    assert !FilledByPosition(Positional(args), VarIndex(ps), IndexOf(ps, args[m].name));
  }

  lemma {:induction false} NamesDiffer(ps: seq<Param>, args: seq<Arg>, m: nat, n: nat)
    requires OncePerParam(ps, args) && Positional(args) <= m < n < |args|
    requires IndexOf(ps, args[m].name) < |ps| && IndexOf(ps, args[n].name) < |ps|
    ensures IndexOf(ps, args[m].name) != IndexOf(ps, args[n].name)
  {
    assert args[m].name != args[n].name;
  }

  /** A parameter is named by a placed argument exactly when the call supplies it. */
  ghost predicate Supplied(ps: seq<Param>, args: seq<Arg>, j: nat)
    requires j < |ps|
  {
    FilledByPosition(Positional(args), VarIndex(ps), j) || NamedArg(args[Positional(args)..], ps[j].name).Some?
  }

  lemma {:induction false} GivenOrDefault(ps: seq<Param>, args: seq<Arg>, j: nat)
    requires j < |ps|
    ensures Given(ps, args, j).Some? <==> Supplied(ps, args, j) || DefaultOf(ps[j]).Some?
    ensures !Supplied(ps, args, j) ==> Given(ps, args, j) == DefaultOf(ps[j])
  {}

  lemma {:induction false} SuppliedNamed(has: TypeTest, ps: seq<Param>, args: seq<Arg>, j: nat)
    requires WellCalled(ps, args) && FitSoFar(has, ps, args, |args|) && j < |ps|
    requires VarIndex(ps) == |ps| ==> Positional(args) <= |ps|
    ensures Supplied(ps, args, j) <==> HasName(Placed(ps, args, |args|), ps[j].name)
    ensures Supplied(ps, args, j) <==> Reached(Placed(ps, args, |args|), j)
  {
    hide Placed, Supplied, Given, FitSoFar, VarIndex, Positional;
    var placed := Placed(ps, args, |args|);
    PlacedSound(has, ps, args);
    if Supplied(ps, args, j) {
      SuppliedReached(has, ps, args, j);
    }
    if Reached(placed, j) {
      var i :| 0 <= i < |placed| && placed[i].dst == j;
      assert placed[i].name == ps[j].name;
    }
    if HasName(placed, ps[j].name) {
      var i :| 0 <= i < |placed| && placed[i].name == ps[j].name;
      assert placed[i].dst == j;
      ReachedSupplied(ps, args, i);
    }
  }

  lemma {:induction false} ReachedSupplied(ps: seq<Param>, args: seq<Arg>, i: nat)
    requires WellCalled(ps, args) && (VarIndex(ps) == |ps| ==> Positional(args) <= |ps|)
    requires i < |Placed(ps, args, |args|)|
    requires var a := Placed(ps, args, |args|)[i]; a.dst < |ps| && a.name == ps[a.dst].name
    ensures Supplied(ps, args, Placed(ps, args, |args|)[i].dst)
  {
    hide Placed, NamedArg, VarIndex, IndexOf, Positional;
    var k, v := Positional(args), VarIndex(ps);
    PlacedAt(ps, args, i);
    var j := Placed(ps, args, |args|)[i].dst;
    if !FilledByPosition(k, v, j) {
      var m := if v < k then i - v - 1 + k else i;
      var named := args[k..];
      NamedArgNone(named, ps[j].name);
      assert named[m - k] == args[m];
    }
  }

  lemma {:induction false} SuppliedReached(has: TypeTest, ps: seq<Param>, args: seq<Arg>, j: nat)
    requires WellCalled(ps, args) && FitSoFar(has, ps, args, |args|) && j < |ps|
    requires VarIndex(ps) == |ps| ==> Positional(args) <= |ps|
    requires Supplied(ps, args, j)
    ensures Reached(Placed(ps, args, |args|), j)
  {
    hide Placed, NamedArg, VarIndex, IndexOf, Positional, FitSoFar, WellCalled;
    var k, v := Positional(args), VarIndex(ps);
    var placed := Placed(ps, args, |args|);
    WellCalledParts(ps, args);
    PlacedSize(ps, args);
    if j < Min(k, v) {
      PlacedAt(ps, args, j);
      assert placed[j].dst == j;
    } else if j == v && v < k {
      PlacedAt(ps, args, v);
      assert placed[v].dst == j;
    } else {
      var named := args[k..];
      NamedArgNone(named, ps[j].name);
      var n :| 0 <= n < |named| && named[n].name == ps[j].name;
      assert args[k + n] == named[n];
      NamedReached(has, ps, args, k + n, j);
    }
  }

  lemma {:induction false} NamedReached(has: TypeTest, ps: seq<Param>, args: seq<Arg>, m: nat, j: nat)
    requires WellCalled(ps, args) && FitSoFar(has, ps, args, |args|) && j < |ps|
    requires VarIndex(ps) == |ps| ==> Positional(args) <= |ps|
    requires Positional(args) <= m < |args| && args[m].name == ps[j].name
    ensures Reached(Placed(ps, args, |args|), j)
  {
    hide Placed, NamedArg, VarIndex, IndexOf, Positional, FitSoFar, Given;
    var k, v := Positional(args), VarIndex(ps);
    var placed := Placed(ps, args, |args|);
    PlacedSize(ps, args);
    NamedSound(has, ps, args, m);
    var i := if v < k then m - k + v + 1 else m;
    PlacedAt(ps, args, i);
    assert placed[i].dst == j;
  }

  /** The specification, in terms of what the matcher tests. */
  lemma {:induction false} BindableExactly(has: TypeTest, ps: seq<Param>, args: seq<Arg>)
    requires WellCalled(ps, args)
    ensures Bindable(has, ps, args)
        <==> (VarIndex(ps) == |ps| ==> |args| <= |ps|) && FitSoFar(has, ps, args, |args|)
             && Fillable(ps, Placed(ps, args, |args|), |ps|)
  {
    if FitSoFar(has, ps, args, |args|) && (VarIndex(ps) == |ps| ==> Positional(args) <= |ps|) {
      forall j | 0 <= j < |ps|
        ensures Given(ps, args, j).Some? <==> HasName(Placed(ps, args, |args|), ps[j].name) || DefaultOf(ps[j]).Some?
      {
        GivenOrDefault(ps, args, j);
        SuppliedNamed(has, ps, args, j);
      }
      PlacedSound(has, ps, args);
      Pigeonhole(Placed(ps, args, |args|), |ps|);
      PlacedCount(ps, args);
    }
  }

  lemma {:induction false} PlacedCount(ps: seq<Param>, args: seq<Arg>)
    requires VarIndex(ps) == |ps| ==> Positional(args) <= |ps|
    ensures VarIndex(ps) == |ps| ==> |Placed(ps, args, |args|)| == |args|
  {}

  /** As many placed arguments as parameters: all parameters are supplied. */
  lemma {:induction false} AllSupplied(has: TypeTest, ps: seq<Param>, args: seq<Arg>)
    requires WellCalled(ps, args) && FitSoFar(has, ps, args, |args|)
    requires VarIndex(ps) == |ps| ==> |args| <= |ps|
    requires |Placed(ps, args, |args|)| >= |ps|
    ensures Fillable(ps, Placed(ps, args, |args|), |ps|) && Defaults(ps, Placed(ps, args, |args|), |ps|) == []
  {
    var placed := Placed(ps, args, |args|);
    PlacedSound(has, ps, args);
    Pigeonhole(placed, |ps|);
    forall j | 0 <= j < |ps| ensures HasName(placed, ps[j].name) {
      assert Reached(placed, j);
      SuppliedNamed(has, ps, args, j);
    }
    NoDefaults(ps, placed, |ps|);
  }

  lemma {:induction false} NoDefaults(ps: seq<Param>, base: seq<Arg>, n: nat)
    requires n <= |ps| && forall j :: 0 <= j < n ==> HasName(base, ps[j].name)
    ensures Defaults(ps, base, n) == []
    decreases n
  {
    if n > 0 {
      NoDefaults(ps, base, n - 1);
    }
  }

  /** Placed and default arguments together are complete. */
  lemma {:induction false} BoundComplete(has: TypeTest, ps: seq<Param>, args: seq<Arg>, bound: seq<Arg>)
    requires WellCalled(ps, args) && FitSoFar(has, ps, args, |args|)
    requires VarIndex(ps) == |ps| ==> |args| <= |ps|
    requires var base := Placed(ps, args, |args|);
             Fillable(ps, base, |ps|) && bound == base + Defaults(ps, base, |ps|)
    ensures Complete(ps, args, bound)
  {
    hide *;
    var base := Placed(ps, args, |args|);
    var more := Defaults(ps, base, |ps|);
    PlacedSound(has, ps, args);
    DefaultsReach(ps, base, |ps|);
    DefaultsSound(has, ps, args);
    JoinSound(ps, args, base, more);
    forall j | 0 <= j < |ps| ensures Reached(bound, j) {
      SuppliedNamed(has, ps, args, j);
      FillableAt(ps, base, j);
      ReachedEither(base, more, j);
    }
    SoundComplete(ps, args, bound);
  }

  lemma {:induction false} FillableAt(ps: seq<Param>, base: seq<Arg>, j: nat)
    requires Fillable(ps, base, |ps|) && j < |ps|
    ensures HasName(base, ps[j].name) || DefaultOf(ps[j]).Some?
  {}

  lemma {:induction false} SoundComplete(ps: seq<Param>, args: seq<Arg>, bound: seq<Arg>)
    requires Sound(ps, args, bound) && forall j :: 0 <= j < |ps| ==> Reached(bound, j)
    ensures Complete(ps, args, bound)
  {
    hide Given, Reached;
    Pigeonhole(bound, |ps|);
  }

  lemma {:induction false} DefaultsSound(has: TypeTest, ps: seq<Param>, args: seq<Arg>)
    requires WellCalled(ps, args) && FitSoFar(has, ps, args, |args|)
    requires VarIndex(ps) == |ps| ==> |args| <= |ps|
    ensures var base := Placed(ps, args, |args|);
            var more := Defaults(ps, base, |ps|);
            && Sound(ps, args, more)
            && forall i :: 0 <= i < |more| ==> !Reached(base, more[i].dst)
  {
    hide *;
    var base := Placed(ps, args, |args|);
    var more := Defaults(ps, base, |ps|);
    DefaultsNames(ps, base, |ps|);
    forall i | 0 <= i < |more|
      ensures more[i].dst < |ps| && more[i].name == ps[more[i].dst].name
      ensures Given(ps, args, more[i].dst) == Some(more[i].value) && !Reached(base, more[i].dst)
    {
      SuppliedNamed(has, ps, args, more[i].dst);
      GivenOrDefault(ps, args, more[i].dst);
    }
    SoundParts(ps, args, more);
  }

  lemma {:induction false} JoinSound(ps: seq<Param>, args: seq<Arg>, x: seq<Arg>, y: seq<Arg>)
    requires Sound(ps, args, x) && Sound(ps, args, y)
    requires forall i :: 0 <= i < |y| ==> !Reached(x, y[i].dst)
    ensures Sound(ps, args, x + y)
  {
    hide Given;
    var all := x + y;
    forall i, j | 0 <= i < j < |all| ensures all[i].dst != all[j].dst {
      if i < |x| <= j {
        assert all[i] == x[i] && all[j] == y[j - |x|];
        assert !Reached(x, y[j - |x|].dst);
      }
    }
  }

  lemma {:induction false} ReachedEither(x: seq<Arg>, y: seq<Arg>, j: nat)
    ensures Reached(x + y, j) <==> Reached(x, j) || Reached(y, j)
  {
    if Reached(x, j) {
      var i :| 0 <= i < |x| && x[i].dst == j;
      assert (x + y)[i].dst == j;
    }
    if Reached(y, j) {
      var i :| 0 <= i < |y| && y[i].dst == j;
      assert (x + y)[|x| + i].dst == j;
    }
  }

  // ----- overloads -----

  /** Which of the functions can be called. */
  ghost function Callables(has: TypeTest, kind: KindTest, funs: seq<seq<Param>>, args: seq<Arg>): seq<bool> {
    seq(|funs|, i requires 0 <= i < |funs| => Callable(has, kind, funs[i], args))
  }

  function LastTrue(bs: seq<bool>): (i: Option<nat>)
    ensures i.Some? ==> i.value < |bs| && bs[i.value] && forall j :: i.value < j < |bs| ==> !bs[j]
    ensures i.None? ==> forall j :: 0 <= j < |bs| ==> !bs[j]
    decreases |bs|
  {
    if bs == [] then None else if bs[|bs| - 1] then Some(|bs| - 1) else LastTrue(bs[..|bs| - 1])
  }

  /** The search through the first `n` functions, last to first; every attempt sees what the one before it
      has left. */
  ghost function Search(has: TypeTest, kind: KindTest, funs: seq<seq<Param>>, args: seq<Arg>, n: nat): Option<nat>
    requires n <= |funs|
    decreases n
  {
    if n == 0 then None
    else if Callable(has, kind, funs[n - 1], args) then Some(n - 1)
    else Search(has, kind, funs, Touched(kind, args), n - 1)
  }

  /** The arguments after `k` attempts that failed. */
  function Seen(kind: KindTest, args: seq<Arg>, k: nat): seq<Arg> {
    if k == 0 then args else Touched(kind, Seen(kind, args, k - 1))
  }

  predicate ThreeThis(kind: KindTest, args: seq<Arg>) {
    TwoThis(kind, args) && |args| > 2 && IsThisObject(kind, args[|args| - 3])
  }

  lemma {:induction false} TouchedTwice(kind: KindTest, args: seq<Arg>)
    requires !ThreeThis(kind, args)
    ensures var after := Touched(kind, args);
            && Touched(kind, after) == after && (ClassCall(kind, args) ==> NeedsThis(kind, after))
            && (!ClassCall(kind, args) ==> Matched(kind, after) == Matched(kind, args) && !NeedsThis(kind, after))
  {
    var after := Touched(kind, args);
    if args != [] {
      assert after != [] && after[|after| - 1] == args[|args| - 1];
    }
    if TwoThis(kind, args) && |args| > 2 {
      assert after[|after| - 2] == args[|args| - 3];
    }
  }

  /** Outside class calls a failed attempt changes nothing that another attempt would see; after one in a
      class call no function can be called. */
  lemma {:induction false} AfterFailure(has: TypeTest, kind: KindTest, ps: seq<Param>, args: seq<Arg>)
    requires !ThreeThis(kind, args)
    ensures Callable(has, kind, ps, Touched(kind, args)) <==> !ClassCall(kind, args) && Callable(has, kind, ps, args)
  {
    hide Accepted, Touched, Matched, ClassCall, ThreeThis;
    TouchedTwice(kind, args);
    NeedsClass(kind, args);
  }

  lemma {:induction false} NeedsClass(kind: KindTest, args: seq<Arg>)
    ensures NeedsThis(kind, args) ==> ClassCall(kind, args)
  {}

  /** Where attempts change nothing, the search finds the last listed function that can be called. */
  lemma {:induction false} SearchSettled(has: TypeTest, kind: KindTest, funs: seq<seq<Param>>, args: seq<Arg>, n: nat)
    requires n <= |funs| && Touched(kind, args) == args
    ensures Search(has, kind, funs, args, n) == LastTrue(Callables(has, kind, funs, args)[..n])
    decreases n
  {
    hide Callable, Touched, LastTrue;
    if n > 0 {
      SearchSettled(has, kind, funs, args, n - 1);
      LastTrueStep(Callables(has, kind, funs, args), n - 1);
    } else {
      LastTrueNone(Callables(has, kind, funs, args));
    }
  }

  /** With at most two objects as `this`, the search finds the last listed function that can be called exactly
      when the call is no class call, or nothing can be called, or the very last function can. */
  lemma {:induction false} SearchExactly(has: TypeTest, kind: KindTest, funs: seq<seq<Param>>, args: seq<Arg>)
    requires !ThreeThis(kind, args)
    ensures var last := LastTrue(Callables(has, kind, funs, args));
            Search(has, kind, funs, args, |funs|) == last <==>
              !ClassCall(kind, args) || last.None? || last.value == |funs| - 1
  {
    hide Callable, Touched, LastTrue, ClassCall, ThreeThis;
    var after, n := Touched(kind, args), |funs|;
    var bs, bs' := Callables(has, kind, funs, args), Callables(has, kind, funs, after);
    forall i | 0 <= i < n ensures bs'[i] <==> !ClassCall(kind, args) && bs[i] {
      AfterFailure(has, kind, funs[i], args);
    }
    TouchedTwice(kind, args);
    assert bs[..n] == bs;
    if n > 0 {
      SearchSettled(has, kind, funs, after, n - 1);
      LastTrueStep(bs, n - 1);
      if ClassCall(kind, args) {
        AllFalse(bs'[..n - 1]);
      } else {
        assert bs' == bs;
      }
    } else {
      LastTrueNone(bs);
    }
    LastTrueIs(bs);
    LastTrueIs(bs[..if n > 0 then n - 1 else 0]);
  }

  lemma {:induction false} AllFalse(bs: seq<bool>)
    requires forall i :: 0 <= i < |bs| ==> !bs[i]
    ensures LastTrue(bs) == None
  {}

  lemma {:induction false} LastTrueIs(bs: seq<bool>)
    ensures LastTrue(bs).Some? ==> LastTrue(bs).value < |bs|
  {}

  /** A class attribute with overloads `f(x)` and `f(x, y)`, called with one argument and the object: the
      first could be called, but the attempt at the second comes first and spoils the call. */
  lemma {:induction false} ClassCallMissed(has: TypeTest, kind: KindTest, one: Value, obj: Value, cls: Value)
    requires kind(cls).ClassKind?
    ensures var x, y := Param("x", [], None, false), Param("y", [], None, false);
            var args := [Arg("", one, 0), Arg("", obj, 0), Arg(THIS, cls, 0)];
            && Declared([x]) && Declared([x, y]) && PositionalFirst(args) && Callable(has, kind, [x], args)
            && Search(has, kind, [[x], [x, y]], args, 2) == None
  {
    var x, y := Param("x", [], None, false), Param("y", [], None, false);
    var a, args := [Arg("", one, 0)], [Arg("", one, 0), Arg("", obj, 0), Arg(THIS, cls, 0)];
    assert Positional(args[1..][1..]) == 0 && Positional(args[1..]) == 1 && Positional(args) == 2;
    assert args[..1] == a && Matched(kind, args) == a;
    assert Positional(a[1..]) == 0 && Positional(a) == 1;
    assert VarIndex([x][1..]) == 0 && VarIndex([x]) == 1;
    assert [x, y][1..] == [y] && [y][1..] == [] && VarIndex([y]) == 1 && VarIndex([x, y]) == 2;
    assert a[1..] == [] && Given([x, y], a, 1) == None;
    assert !Accepted(has, [x, y], a);
    assert Accepted(has, [x], a);
    AfterFailure(has, kind, [x], args);
    assert Search(has, kind, [[x], [x, y]], Touched(kind, args), 0) == None;
  }

  lemma {:induction false} StillFirst(kind: KindTest, args: seq<Arg>)
    requires PositionalFirst(args)
    ensures PositionalFirst(Touched(kind, args))
  {
    MatchedFirst(kind, args);
    if ClassCall(kind, args) && !NeedsThis(kind, args) {
      var n := |args| - 2;
      PrefixFirst(args, n);
      LastFirst(args[..n], args[n].(name := THIS));
      LastFirst(args[..n] + [args[n].(name := THIS)], args[n + 1]);
      assert args[n := args[n].(name := THIS)] == args[..n] + [args[n].(name := THIS)] + [args[n + 1]];
    }
  }

  /** The backward search over an overload set: the function found has its arguments bound, and without one
      the frame is as the attempts leave it. */
  method FindOverload(has: TypeTest, kind: KindTest, funs: seq<seq<Param>>, cf: CallFrame) returns (f: Option<nat>)
    requires PositionalFirst(cf.args) && forall i :: 0 <= i < |funs| ==> Declared(funs[i])
    modifies cf
    ensures f == Search(has, kind, funs, old(cf.args), |funs|)
    ensures f.Some? ==> f.value < |funs| && BindsFrame(kind, funs[f.value], Seen(kind, old(cf.args), |funs| - 1 - f.value), cf.args)
    ensures f.None? ==> cf.args == Seen(kind, old(cf.args), |funs|)
  {
    hide Callable, BindsFrame, Declared, PositionalFirst, Touched, NeedsThis;
    ghost var args := cf.args;
    var i: nat := |funs|;
    while i > 0
      invariant i <= |funs| && PositionalFirst(cf.args)
      invariant cf.args == Seen(kind, args, |funs| - i)
      invariant Search(has, kind, funs, args, |funs|) == Search(has, kind, funs, cf.args, i)
    {
      i := i - 1;
      StillFirst(kind, cf.args);
      var err := CanCall(has, kind, funs[i], cf);
      if err.None? {
        return Some(i);
      }
    }
    f := None;
  }

  lemma {:induction false} LastTrueStep(bs: seq<bool>, i: nat)
    requires i < |bs|
    ensures LastTrue(bs[..i + 1]) == if bs[i] then Some(i) else LastTrue(bs[..i])
  {
    assert bs[..i + 1][..i] == bs[..i];
  }

  lemma {:induction false} LastTrueNone(bs: seq<bool>)
    ensures LastTrue(bs[..0]) == None
  {}

  // ----- entering the function -----

  /** `POP_CALL_FRAME`: stores every argument in its register and binds its name to it. Behind the parameters
      there may be the `this` of a class call, which takes the name from a parameter called so. */
  method PopCallFrame(ps: seq<Param>, ghost args: seq<Arg>, ghost kind: KindTest, frame: seq<Arg>, regs0: map<nat, Value>,
                      names0: map<string, nat>)
    returns (regs: map<nat, Value>, names: map<string, nat>)
    requires Declared(ps) && BindsFrame(kind, ps, args, frame) && OncePerParam(ps, Matched(kind, args))
    ensures forall j :: 0 <= j < |ps| ==> j in regs && Given(ps, Matched(kind, args), j) == Some(regs[j])
    ensures forall j :: 0 <= j < |ps| ==>
              ps[j].name in names && (names[ps[j].name] == if ps[j].name == THIS && Behind(kind, args, |ps|) != [] then |ps| else j)
    ensures Behind(kind, args, |ps|) != [] ==>
              THIS in names && names[THIS] == |ps| && |ps| in regs && regs[|ps|] == Behind(kind, args, |ps|)[0].value
  {
    ghost var bound, extra := frame[..|ps|], Behind(kind, args, |ps|);
    assert |extra| <= 1 && frame == bound + extra && (extra != [] ==> extra[0].name == THIS && extra[0].dst == |ps|);
    CompleteParts(ps, Matched(kind, args), bound);
    hide Given, Matched, OncePerParam, Behind, Complete, BindsFrame, Declared, Stored;
    regs, names := regs0, names0;
    NoneStored(bound, extra, regs, names);
    var i := 0;
    while i < |frame|
      invariant i <= |frame| && Stored(bound, extra, regs, names, i)
    {
      OneStored(bound, extra, regs, names, i);
      regs := regs[frame[i].dst := frame[i].value];
      names := names[frame[i].name := frame[i].dst];
      i := i + 1;
    }
    AllStored(bound, extra, regs, names);
    forall j | 0 <= j < |ps|
      ensures j in regs && Given(ps, Matched(kind, args), j) == Some(regs[j]) && ps[j].name in names
      ensures names[ps[j].name] == if ps[j].name == THIS && extra != [] then |ps| else j
    {
      assert Reached(bound, j);
    }
  }

  /** What the first `i` of `bound + extra` have left in registers and names. */
  ghost predicate Stored(bound: seq<Arg>, extra: seq<Arg>, regs: map<nat, Value>, names: map<string, nat>, i: nat) {
    && (forall n :: 0 <= n < i && n < |bound| ==> bound[n].dst in regs && regs[bound[n].dst] == bound[n].value)
    && (forall n :: 0 <= n < i && n < |bound| ==>
          bound[n].name in names
          && names[bound[n].name] == if i > |bound| && bound[n].name == THIS then |bound| else bound[n].dst)
    && (i > |bound| ==> extra != [] && THIS in names && names[THIS] == |bound| && |bound| in regs && regs[|bound|] == extra[0].value)
  }

  /** Destinations and names differ, and behind them comes at most a `this`. */
  ghost predicate Separate(bound: seq<Arg>, extra: seq<Arg>) {
    && (forall i :: 0 <= i < |bound| ==> bound[i].dst < |bound|)
    && (forall i, j :: 0 <= i < j < |bound| ==> bound[i].dst != bound[j].dst && bound[i].name != bound[j].name)
    && |extra| <= 1 && (extra != [] ==> extra[0].name == THIS && extra[0].dst == |bound|)
  }

  lemma {:induction false} NoneStored(bound: seq<Arg>, extra: seq<Arg>, regs: map<nat, Value>, names: map<string, nat>)
    ensures Stored(bound, extra, regs, names, 0)
  {}

  lemma {:induction false} OneStored(bound: seq<Arg>, extra: seq<Arg>, regs: map<nat, Value>, names: map<string, nat>, i: nat)
    requires Separate(bound, extra) && i < |bound + extra| && Stored(bound, extra, regs, names, i)
    ensures var a := (bound + extra)[i]; Stored(bound, extra, regs[a.dst := a.value], names[a.name := a.dst], i + 1)
  {
    var a := (bound + extra)[i];
    if i < |bound| {
      assert a == bound[i];
    } else {
      assert i == |bound| && a == extra[0];
    }
  }

  lemma {:induction false} AllStored(bound: seq<Arg>, extra: seq<Arg>, regs: map<nat, Value>, names: map<string, nat>)
    requires Stored(bound, extra, regs, names, |bound + extra|) && |extra| <= 1
    ensures forall n :: 0 <= n < |bound| ==>
              && bound[n].dst in regs && regs[bound[n].dst] == bound[n].value && bound[n].name in names
              && names[bound[n].name] == if extra != [] && bound[n].name == THIS then |bound| else bound[n].dst
    ensures extra != [] ==> THIS in names && names[THIS] == |bound| && |bound| in regs && regs[|bound|] == extra[0].value
  {}

  lemma {:induction false} CompleteParts(ps: seq<Param>, args: seq<Arg>, bound: seq<Arg>)
    requires Declared(ps) && Complete(ps, args, bound)
    ensures |bound| == |ps| && forall j :: 0 <= j < |ps| ==> Reached(bound, j)
    ensures forall i :: 0 <= i < |ps| ==> bound[i].dst < |ps| && bound[i].name == ps[bound[i].dst].name
    ensures forall i :: 0 <= i < |ps| ==> Given(ps, args, bound[i].dst) == Some(bound[i].value)
    ensures forall i, j :: 0 <= i < j < |ps| ==> bound[i].dst != bound[j].dst && bound[i].name != bound[j].name
  {}

  /** With `fun f(a, b=3)` the call `f(1, a=2)` is accepted, although nothing is given to `b`. */
  lemma {:induction false} RepeatedArgument(has: TypeTest)
    ensures var ps := [Param("a", [], None, false), Param("b", [], Some(Int(3)), false)];
            var args := [Arg("", Int(1), 0), Arg("a", Int(2), 0)];
            && Declared(ps) && PositionalFirst(args) && Accepted(has, ps, args)
            && Bound(ps, args) == [Arg("a", Int(1), 0), Arg("a", Int(2), 0)]
  {
    var ps := [Param("a", [], None, false), Param("b", [], Some(Int(3)), false)];
    var args := [Arg("", Int(1), 0), Arg("a", Int(2), 0)];
    assert Positional(args[1..]) == 0;
    assert Positional(args) == 1;
    assert ps[1..][1..] == [];
    assert VarIndex(ps[1..]) == 1;
    assert VarIndex(ps) == 2;
    assert IndexOf(ps, "a") == 0;
    assert FilledByPosition(1, 2, IndexOf(ps, args[1].name));
    assert NamedFits(has, ps, args[1]);
    assert args[1..2] == [args[1]];
    assert Placed(ps, args, 2) == [Arg("a", Int(1), 0), Arg("a", Int(2), 0)];
  }
}

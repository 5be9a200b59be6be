/** Overload sets (`CreateFun::exec`, `FunBegin::exec`, `SetType`, `SetVararg`, `SetDefault` in
    bytecode/opcode.cpp; `FunValue::equals` and `FunValueList` in vm/values.hpp): after any number of
    function declarations a name holds one function per signature, the latest one, in the order in
    which the signatures first appeared. */
module Overloads {
  import opened Lists
  import opened Values
  import opened CallBinding

  datatype Fun = Fun(params: seq<Param>, body: nat)

  /** What `FunValue::equals` looks at in a parameter. */
  datatype ParamKind = Variadic | Typed(types: multiset<int>)

  function KindOf(p: Param): ParamKind {
    if p.vararg then Variadic else Typed(multiset(p.types))
  }

  function Signature(f: Fun): (s: seq<ParamKind>)
    ensures |s| == |f.params| && forall i :: 0 <= i < |s| ==> s[i] == KindOf(f.params[i])
  {
    seq(|f.params|, i requires 0 <= i < |f.params| => KindOf(f.params[i]))
  }

  /** The loop of `FunValue::equals` decides equality of signatures, so it is an equivalence. */
  method Equals(f: Fun, g: Fun) returns (same: bool)
    ensures same <==> Signature(f) == Signature(g)
  {
    if |f.params| != |g.params| {
      assert |Signature(f)| != |Signature(g)|;
      return false;
    }
    for i := 0 to |f.params|
      invariant Signature(f)[..i] == Signature(g)[..i]
    {
      var a1, a2 := f.params[i], g.params[i];
      if a1.vararg || a2.vararg {
        if a1.vararg != a2.vararg {
          assert Signature(f)[i] != Signature(g)[i];
          return false;
        }
      } else {
        if |a1.types| != |a2.types| {
          assert |multiset(a1.types)| != |multiset(a2.types)|;
          assert Signature(f)[i] != Signature(g)[i];
          return false;
        }
        if multiset(a1.types) != multiset(a2.types) {
          assert Signature(f)[i] != Signature(g)[i];
          return false;
        }
      }
    }
    assert Signature(f) == Signature(f)[..|f.params|];
    assert Signature(g) == Signature(g)[..|g.params|];
    same := true;
  }

  // ----- the specification: a table from signatures to bodies -----

  predicate Keyed(fs: seq<Fun>) {
    forall i, j :: 0 <= i < j < |fs| ==> Signature(fs[i]) != Signature(fs[j])
  }

  /** The first function of signature `s`, or the number of functions. */
  function SlotOf(fs: seq<Fun>, s: seq<ParamKind>): (i: nat)
    ensures i <= |fs| && (i < |fs| ==> Signature(fs[i]) == s)
    ensures forall j :: 0 <= j < i ==> Signature(fs[j]) != s
  {
    if fs == [] then 0 else if Signature(fs[0]) == s then 0 else 1 + SlotOf(fs[1..], s)
  }

  function Define(fs: seq<Fun>, f: Fun): seq<Fun> {
    var i := SlotOf(fs, Signature(f));
    if i < |fs| then fs[i := f] else fs + [f]
  }

  function DefineAll(fs: seq<Fun>, ds: seq<Fun>): seq<Fun>
    decreases |ds|
  {
    if ds == [] then fs else Define(DefineAll(fs, ds[..|ds| - 1]), ds[|ds| - 1])
  }

  /** The latest function of `ds` with signature `s`. */
  function Latest(ds: seq<Fun>, s: seq<ParamKind>): Option<Fun>
    decreases |ds|
  {
    if ds == [] then None
    else if Signature(ds[|ds| - 1]) == s then Some(ds[|ds| - 1])
    else Latest(ds[..|ds| - 1], s)
  }

  /** `fs` holds, for each signature of `ds`, its latest function, ordered by first appearance. */
  ghost predicate Tabulates(fs: seq<Fun>, ds: seq<Fun>) {
    && (forall i :: 0 <= i < |fs| ==> Latest(ds, Signature(fs[i])) == Some(fs[i]))
    && (forall k :: 0 <= k < |ds| ==> SlotOf(fs, Signature(ds[k])) < |fs|)
    && (forall i, j :: 0 <= i < j < |fs| ==> SlotOf(ds, Signature(fs[i])) < SlotOf(ds, Signature(fs[j])))
  }

  lemma {:induction false} DefineAllTabulates(ds: seq<Fun>)
    ensures Tabulates(DefineAll([], ds), ds) && Keyed(DefineAll([], ds))
    decreases |ds|
  {
    if ds != [] {
      var n := |ds| - 1;
      DefineAllTabulates(ds[..n]);
      assert ds[..n] + [ds[n]] == ds;
      DefineTabulates(DefineAll([], ds[..n]), ds[..n], ds[n]);
    }
  }

  lemma {:induction false} SlotSnoc(ds: seq<Fun>, d: Fun, s: seq<ParamKind>)
    ensures SlotOf(ds + [d], s) ==
            if SlotOf(ds, s) < |ds| then SlotOf(ds, s) else if Signature(d) == s then |ds| else |ds| + 1
  {
    var i := SlotOf(ds + [d], s);
    var j := SlotOf(ds, s);
    if j < |ds| { assert (ds + [d])[j] == ds[j]; }
    if i < |ds| { assert (ds + [d])[i] == ds[i]; }
    if i == |ds| { assert (ds + [d])[i] == d; }
    assert (ds + [d])[|ds|] == d;
    assert forall k :: 0 <= k < i && k < |ds| ==> (ds + [d])[k] == ds[k];
  }

  lemma {:induction false} LatestSnoc(ds: seq<Fun>, d: Fun, s: seq<ParamKind>)
    ensures Latest(ds + [d], s) == if Signature(d) == s then Some(d) else Latest(ds, s)
  {
    assert (ds + [d])[..|ds|] == ds;
  }

  /** `Define` on a table: the place of every signature. */
  lemma {:induction false} SlotDefined(fs: seq<Fun>, d: Fun, s: seq<ParamKind>)
    ensures var place := SlotOf(Define(fs, d), s);
            if SlotOf(fs, s) < |fs| then place == SlotOf(fs, s)
            else if s == Signature(d) then place == |fs| && |Define(fs, d)| == |fs| + 1
            else place == |Define(fs, d)|
  {
    var i := SlotOf(fs, Signature(d));
    if i == |fs| {
      SlotSnoc(fs, d, s);
    } else {
      var fs' := fs[i := d];
      assert forall k :: 0 <= k < |fs| ==> Signature(fs'[k]) == Signature(fs[k]);
    }
  }

  lemma {:induction false} DefineTabulates(fs: seq<Fun>, ds: seq<Fun>, d: Fun)
    requires Tabulates(fs, ds) && Keyed(fs)
    ensures Tabulates(Define(fs, d), ds + [d]) && Keyed(Define(fs, d))
  {
    var fs', ds' := Define(fs, d), ds + [d];
    var p := SlotOf(fs, Signature(d));
    forall i | 0 <= i < |fs'|
      ensures Latest(ds', Signature(fs'[i])) == Some(fs'[i])
    {
      LatestSnoc(ds, d, Signature(fs'[i]));
      if i < |fs| && i != p { assert fs'[i] == fs[i]; }
    }
    forall k | 0 <= k < |ds'| ensures SlotOf(fs', Signature(ds'[k])) < |fs'| {
      SlotDefined(fs, d, Signature(ds'[k]));
      if k < |ds| { assert ds'[k] == ds[k]; }
    }
    forall i, j | 0 <= i < j < |fs'|
      ensures SlotOf(ds', Signature(fs'[i])) < SlotOf(ds', Signature(fs'[j]))
      ensures Signature(fs'[i]) != Signature(fs'[j])
    {
      SlotSnoc(ds, d, Signature(fs'[i]));
      SlotSnoc(ds, d, Signature(fs'[j]));
      assert Signature(fs'[i]) == Signature(fs[i]);
      FirstPlaced(fs, ds, i);
      if j < |fs| {
        assert Signature(fs'[j]) == Signature(fs[j]);
        FirstPlaced(fs, ds, j);
      } else {
        NewSignature(fs, ds, d);
      }
    }
  }

  lemma {:induction false} FirstPlaced(fs: seq<Fun>, ds: seq<Fun>, i: nat)
    requires Tabulates(fs, ds) && i < |fs|
    ensures SlotOf(ds, Signature(fs[i])) < |ds|
  {
    LatestPlaced(ds, Signature(fs[i]));
  }

  lemma {:induction false} LatestPlaced(ds: seq<Fun>, s: seq<ParamKind>)
    ensures Latest(ds, s).Some? <==> SlotOf(ds, s) < |ds|
    decreases |ds|
  {
    if ds != [] {
      var n := |ds| - 1;
      LatestPlaced(ds[..n], s);
      assert ds[..n] + [ds[n]] == ds;
      SlotSnoc(ds[..n], ds[n], s);
    }
  }

  lemma {:induction false} NewSignature(fs: seq<Fun>, ds: seq<Fun>, d: Fun)
    requires Tabulates(fs, ds) && SlotOf(fs, Signature(d)) == |fs|
    ensures SlotOf(ds, Signature(d)) == |ds|
  {
    assert forall k :: 0 <= k < |ds| ==> Signature(ds[k]) != Signature(d);
  }

  // ----- the machine -----

  class FunValueList {
    var funs: seq<Fun>

    constructor (fs: seq<Fun>)
      ensures funs == fs
    {
      funs := fs;
    }
  }

  datatype Held = Unset | FunVal(f: Fun) | FunList(l: FunValueList) | Other(v: Value)

  /** The functions a register holds. */
  function FunsOf(h: Held): seq<Fun>
    reads if h.FunList? then {h.l} else {}
  {
    match h
    case FunVal(f) => [f]
    case FunList(l) => l.funs
    case _ => []
  }

  /** One frame: the register pool and the names bound to registers. A function value is a value
      here; a function list is shared by every register that holds it. */
  class Frame {
    var regs: map<nat, Held>
    var names: map<string, nat>

    constructor ()
      ensures regs == map[] && names == map[]
    {
      regs, names := map[], map[];
    }

    function Load(r: nat): Held
      reads this
    {
      if r in regs then regs[r] else Unset
    }

    function LoadName(n: string): Held
      reads this
    {
      if n in names then Load(names[n]) else Unset
    }

    /** A finished set: alone, or a list of at least two. */
    ghost predicate Settled(n: string)
      reads this, if LoadName(n).FunList? then {LoadName(n).l} else {}
    {
      LoadName(n).FunList? ==> |LoadName(n).l.funs| >= 2
    }

    /** A declaration between `CREATE_FUN` and `FUN_BEGIN`: the name and the register lead to the
        same functions, and to the same register unless they share a list of at least three. */
    ghost predicate Pending(fun: nat, n: string)
      reads this, if Load(fun).FunList? then {Load(fun).l} else {}
    {
      && n in names
      && LoadName(n) == Load(fun)
      && (Load(fun).FunVal? || Load(fun).FunList?)
      && (Load(fun).FunVal? ==> names[n] == fun)
      && (Load(fun).FunList? ==> |Load(fun).l.funs| >= 2)
      && (Load(fun).FunList? && |Load(fun).l.funs| == 2 ==> names[n] == fun)
    }

    /** No other name is bound to register `fun`. */
    ghost predicate Owns(fun: nat, n: string)
      reads this
    {
      fun !in (names - {n}).Values
    }

    lemma {:induction false} OthersElsewhere(fun: nat, n: string)
      requires Owns(fun, n)
      ensures forall m :: m in names && m != n ==> names[m] != fun
    {
      forall m | m in names && m != n ensures names[m] != fun {
        assert m in names - {n} && (names - {n})[m] == names[m];
      }
    }

    /** `CREATE_FUN`: the new function joins the functions of its name. */
    method CreateFun(fun: nat, name: string, params: seq<Param>)
      requires Settled(name) && Owns(fun, name)
      modifies this, if LoadName(name).FunList? then {LoadName(name).l} else {}
      ensures Pending(fun, name) && Owns(fun, name)
      ensures FunsOf(Load(fun)) == old(FunsOf(LoadName(name))) + [Fun(params, 0)]
      ensures Load(fun).FunList? ==> fresh(Load(fun).l) || Load(fun) == old(LoadName(name))
      ensures names - {name} == old(names - {name})
      ensures names[name] == fun || (name in old(names) && names[name] == old(names[name]))
      ensures forall m :: m != name ==> LoadName(m) == old(LoadName(m))
    {
      var funval := Fun(params, 0);
      var f := LoadName(name);
      OthersElsewhere(fun, name);
      match f {
        case FunVal(fv) =>
          var l := new FunValueList([fv, funval]);
          regs, names := regs[fun := FunList(l)], names[name := fun];
        case FunList(fvl) =>
          fvl.funs := fvl.funs + [funval];
          regs := regs[fun := FunList(fvl)];
        case _ =>
          regs, names := regs[fun := FunVal(funval)], names[name := fun];
      }
    }

    /** Changes the last function of a register, the one being declared. */
    method UpdateLast(fun: nat, f: Fun, ghost name: string)
      requires Pending(fun, name) && Owns(fun, name)
      modifies this`regs, if Load(fun).FunList? then {Load(fun).l} else {}
      ensures Pending(fun, name)
      ensures FunsOf(Load(fun)) == old(FunsOf(Load(fun))[..|FunsOf(Load(fun))| - 1]) + [f]
      ensures old(Load(fun)).FunList? ==> Load(fun) == old(Load(fun))
      ensures !old(Load(fun)).FunList? ==> !Load(fun).FunList?
      ensures forall m :: m != name ==> LoadName(m) == old(LoadName(m))
    {
      OthersElsewhere(fun, name);
      if Load(fun).FunList? {
        var l := Load(fun).l;
        l.funs := l.funs[..|l.funs| - 1] + [f];
      } else {
        regs := regs[fun := FunVal(f)];
      }
    }

    /** `SET_VARARG`, or `SET_DEFAULT` and one `SET_TYPE` per type, for parameter `i`. */
    method SetParam(fun: nat, i: nat, p: Param, ps: seq<Param>, ghost name: string, ghost before: seq<Fun>)
      requires Pending(fun, name) && Owns(fun, name) && i < |ps| && ps[i] == Param(p.name, [], None, false)
      requires FunsOf(Load(fun)) == before + [Fun(ps, 0)]
      requires p.vararg ==> p.types == [] && p.dflt.None?
      modifies this`regs, if Load(fun).FunList? then {Load(fun).l} else {}
      ensures Pending(fun, name) && FunsOf(Load(fun)) == before + [Fun(ps[i := p], 0)]
      ensures old(Load(fun)).FunList? ==> Load(fun) == old(Load(fun))
      ensures !old(Load(fun)).FunList? ==> !Load(fun).FunList?
      ensures forall m :: m != name ==> LoadName(m) == old(LoadName(m))
    {
      if p.vararg {
        UpdateLast(fun, Fun(ps[i := ps[i].(vararg := true)], 0), name);
        return;
      }
      var now := ps[i];
      if p.dflt.Some? {
        now := now.(dflt := p.dflt);
        UpdateLast(fun, Fun(ps[i := now], 0), name);
      }
      assert ps[i := ps[i]] == ps;
      ghost var frame := if Load(fun).FunList? then {Load(fun).l} else {};
      for t := 0 to |p.types|
        invariant Pending(fun, name)
        invariant now == Param(p.name, p.types[..t], p.dflt, false)
        invariant FunsOf(Load(fun)) == before + [Fun(ps[i := now], 0)]
        invariant old(Load(fun)).FunList? ==> Load(fun) == old(Load(fun))
        invariant !old(Load(fun)).FunList? ==> !Load(fun).FunList?
        invariant forall m :: m != name ==> LoadName(m) == old(LoadName(m))
        modifies this`regs, frame
      {
        assert p.types[..t] + [p.types[t]] == p.types[..t + 1];
        now := now.(types := now.types + [p.types[t]]);
        UpdateLast(fun, Fun(ps[i := now], 0), name);
      }
      assert p.types[..|p.types|] == p.types;
    }

    method SetParams(fun: nat, ps: seq<Param>, ghost name: string, ghost before: seq<Fun>)
      requires Pending(fun, name) && Owns(fun, name)
      requires FunsOf(Load(fun)) == before + [Fun(Blank(ps), 0)]
      requires forall i :: 0 <= i < |ps| && ps[i].vararg ==> ps[i].types == [] && ps[i].dflt.None?
      modifies this`regs, if Load(fun).FunList? then {Load(fun).l} else {}
      ensures Pending(fun, name) && FunsOf(Load(fun)) == before + [Fun(ps, 0)]
      ensures old(Load(fun)).FunList? ==> Load(fun) == old(Load(fun))
      ensures forall m :: m != name ==> LoadName(m) == old(LoadName(m))
    {
      ghost var frame := if Load(fun).FunList? then {Load(fun).l} else {};
      var now := Blank(ps);
      for i := 0 to |ps|
        invariant Pending(fun, name) && |now| == |ps|
        invariant forall k :: 0 <= k < i ==> now[k] == ps[k]
        invariant forall k :: i <= k < |ps| ==> now[k] == Param(ps[k].name, [], None, false)
        invariant FunsOf(Load(fun)) == before + [Fun(now, 0)]
        invariant old(Load(fun)).FunList? ==> Load(fun) == old(Load(fun))
        invariant !old(Load(fun)).FunList? ==> !Load(fun).FunList?
        invariant forall m :: m != name ==> LoadName(m) == old(LoadName(m))
        modifies this`regs, frame
      {
        SetParam(fun, i, ps[i], now, name, before);
        now := now[i := ps[i]];
      }
      assert now == ps;
    }

    /** `FUN_BEGIN`: the body is known, and the declared function takes the place of an earlier one
        of the same signature. */
    method FunBegin(fun: nat, bci: nat, ghost name: string, ghost before: seq<Fun>, ghost ps: seq<Param>)
      requires Pending(fun, name) && Owns(fun, name) && Keyed(before)
      requires FunsOf(Load(fun)) == before + [Fun(ps, 0)]
      modifies this`regs, if Load(fun).FunList? then {Load(fun).l} else {}
      ensures Settled(name) && name in names
      ensures FunsOf(LoadName(name)) == Define(before, Fun(ps, bci + 2))
      ensures LoadName(name).FunList? ==> LoadName(name) == old(Load(fun))
      ensures forall m :: m != name ==> LoadName(m) == old(LoadName(m))
    {
      ghost var f := Fun(ps, bci + 2);
      var fv := FunsOf(Load(fun))[|FunsOf(Load(fun))| - 1];
      fv := fv.(body := bci + 2);
      assert fv == f && Signature(f) == Signature(Fun(ps, 0));
      UpdateLast(fun, fv, name);
      if Load(fun).FunList? {
        var fvl := Load(fun).l;
        assert fvl.funs == before + [f];
        OthersElsewhere(fun, name);
        var i := 0;
        while i < |fvl.funs| - 1
          invariant 0 <= i <= |before| && fvl.funs == before + [f]
          invariant forall j :: 0 <= j < i ==> Signature(before[j]) != Signature(f)
          invariant Load(fun) == FunList(fvl) && Pending(fun, name)
          invariant forall m :: m != name ==> LoadName(m) == old(LoadName(m))
        {
          var same := Equals(fv, fvl.funs[i]);
          if same {
            assert SlotOf(before, Signature(f)) == i;
            if |fvl.funs| == 2 {
              regs := regs[fun := FunVal(fv)];
              assert before[i := f] == [f];
            } else {
              fvl.funs := fvl.funs[i := fv];
              fvl.funs := fvl.funs[..|fvl.funs| - 1];
              assert fvl.funs == before[i := f];
            }
            return;
          }
          i := i + 1;
        }
        assert SlotOf(before, Signature(f)) == |before|;
      }
    }

    /** Names other than `name` share no list with it. */
    ghost predicate Apart(name: string)
      reads this
    {
      LoadName(name).FunList? ==> forall m :: m != name && LoadName(m).FunList? ==> LoadName(m).l != LoadName(name).l
    }

    /** A whole declaration, as `BytecodeGen::emit(ir::Function *)` lays it out. The functions of other
        names stay as they are. */
    method Declare(fun: nat, name: string, ps: seq<Param>, bci: nat)
      requires Settled(name) && Owns(fun, name) && Keyed(FunsOf(LoadName(name))) && Apart(name)
      requires forall i :: 0 <= i < |ps| && ps[i].vararg ==> ps[i].types == [] && ps[i].dflt.None?
      modifies this, if LoadName(name).FunList? then {LoadName(name).l} else {}
      ensures Settled(name) && name in names && Apart(name)
      ensures FunsOf(LoadName(name)) == Define(old(FunsOf(LoadName(name))), Fun(ps, bci + 2))
      ensures LoadName(name).FunList? ==> fresh(LoadName(name).l) || LoadName(name) == old(LoadName(name))
      ensures names - {name} == old(names - {name})
      ensures names[name] == fun || (name in old(names) && names[name] == old(names[name]))
      ensures forall m :: m != name ==> LoadName(m) == old(LoadName(m)) && FunsOf(LoadName(m)) == old(FunsOf(LoadName(m)))
    {
      ghost var before := FunsOf(LoadName(name));
      CreateFun(fun, name, Blank(ps));
      SetParams(fun, ps, name, before);
      FunBegin(fun, bci, name, before, ps);
    }
  }

  /** Parameters as `CREATE_FUN` makes them, from their names alone. */
  function Blank(ps: seq<Param>): (bs: seq<Param>)
    ensures |bs| == |ps| && forall i :: 0 <= i < |bs| ==> bs[i] == Param(ps[i].name, [], None, false)
  {
    seq(|ps|, i requires 0 <= i < |ps| => Param(ps[i].name, [], None, false))
  }

  /** A declaration in the code: its name, the register of its function, its parameters and the address of
      its FUN_BEGIN. */
  datatype Site = Site(name: string, fun: nat, params: seq<Param>, bci: nat)

  /** The functions that `sites` declare under `name`, in order. */
  function Declared(sites: seq<Site>, name: string): seq<Fun>
    decreases |sites|
  {
    if sites == [] then []
    else
      var last := sites[|sites| - 1];
      Declared(sites[..|sites| - 1], name) + (if last.name == name then [Fun(last.params, last.bci + 2)] else [])
  }

  predicate Declares(sites: seq<Site>, name: string) {
    exists k :: 0 <= k < |sites| && sites[k].name == name
  }

  /** The register of a site is that of no other name. */
  ghost predicate OwnRegisters(frame: Frame, sites: seq<Site>)
    reads frame
  {
    && (forall k, m :: 0 <= k < |sites| && m in frame.names && m != sites[k].name ==> frame.names[m] != sites[k].fun)
    && (forall j, k :: 0 <= j < |sites| && 0 <= k < |sites| && sites[j].name != sites[k].name ==> sites[j].fun != sites[k].fun)
  }

  predicate WellFormed(sites: seq<Site>) {
    forall k, i :: 0 <= k < |sites| && 0 <= i < |sites[k].params| && sites[k].params[i].vararg ==>
      sites[k].params[i].types == [] && sites[k].params[i].dflt.None?
  }

  /** Names are bound where they were or to a register of one of their sites. */
  ghost predicate BoundBySites(names: map<string, nat>, names0: map<string, nat>, sites: seq<Site>) {
    forall n :: n in names ==>
      (n in names0 && names[n] == names0[n]) || (exists k :: 0 <= k < |sites| && sites[k].name == n && sites[k].fun == names[n])
  }

  lemma {:induction false} StillOwns(frame: Frame, names0: map<string, nat>, sites: seq<Site>, k: nat)
    requires k < |sites| && BoundBySites(frame.names, names0, sites)
    requires forall j, m :: 0 <= j < |sites| && m in names0 && m != sites[j].name ==> names0[m] != sites[j].fun
    requires forall i, j :: 0 <= i < |sites| && 0 <= j < |sites| && sites[i].name != sites[j].name ==> sites[i].fun != sites[j].fun
    ensures frame.Owns(sites[k].fun, sites[k].name)
  {
    var rest := frame.names - {sites[k].name};
    forall n | n in rest ensures rest[n] != sites[k].fun {
      assert n in frame.names && rest[n] == frame.names[n];
    }
  }

  /** Functions of different signatures are their own table. */
  lemma {:induction false} KeyedTable(fs: seq<Fun>)
    requires Keyed(fs)
    ensures DefineAll([], fs) == fs
    decreases |fs|
  {
    if fs != [] {
      var n := |fs| - 1;
      KeyedTable(fs[..n]);
      assert fs == fs[..n] + [fs[n]];
      assert SlotOf(fs[..n], Signature(fs[n])) == n;
    }
  }

  lemma {:induction false} DefineAllConcat(fs: seq<Fun>, ds: seq<Fun>)
    ensures DefineAll([], fs + ds) == DefineAll(DefineAll([], fs), ds)
    decreases |ds|
  {
    if ds == [] {
      assert fs + ds == fs;
    } else {
      var n := |ds| - 1;
      hide Define;
      DefineAllConcat(fs, ds[..n]);
      assert (fs + ds)[..|fs + ds| - 1] == fs + ds[..n];
    }
  }

  /** Declared on top of functions of different signatures, the functions are the table of both. */
  lemma {:induction false} DefineOnTop(fs: seq<Fun>, ds: seq<Fun>)
    requires Keyed(fs)
    ensures Tabulates(DefineAll(fs, ds), fs + ds) && Keyed(DefineAll(fs, ds))
  {
    hide Tabulates, Keyed, DefineAll;
    KeyedTable(fs);
    DefineAllConcat(fs, ds);
    DefineAllTabulates(fs + ds);
  }

  /** The lists under names. */
  function ListsOf(frame: Frame): set<FunValueList>
    reads frame
  {
    set n | n in frame.names && frame.LoadName(n).FunList? :: frame.LoadName(n).l
  }

  /** The lists under declared names. */
  ghost function DeclaredLists(frame: Frame, sites: seq<Site>): set<FunValueList>
    reads frame
  {
    set n | n in frame.names && Declares(sites, n) && frame.LoadName(n).FunList? :: frame.LoadName(n).l
  }

  /** The functions under the names. */
  ghost function HeldBy(frame: Frame): map<string, seq<Fun>>
    reads frame, ListsOf(frame)
  {
    map n | n in frame.names :: FunsOf(frame.LoadName(n))
  }

  function At(held: map<string, seq<Fun>>, n: string): seq<Fun> {
    if n in held then held[n] else []
  }

  /** After the first `k` declarations every declared name holds what it held before, and on top of it the
      functions of its own. */
  ghost predicate Holding(frame: Frame, sites: seq<Site>, k: nat, held: map<string, seq<Fun>>)
    requires k <= |sites|
    reads frame, ListsOf(frame)
  {
    forall n :: Declares(sites, n) ==>
      && frame.Apart(n) && frame.Settled(n)
      && FunsOf(frame.LoadName(n)) == DefineAll(At(held, n), Declared(sites[..k], n))
  }

  method DeclareNext(frame: Frame, sites: seq<Site>, k: nat, ghost held: map<string, seq<Fun>>)
    requires k < |sites| && Holding(frame, sites, k, held) && frame.Owns(sites[k].fun, sites[k].name)
    requires Keyed(At(held, sites[k].name))
    requires forall i :: 0 <= i < |sites[k].params| && sites[k].params[i].vararg ==>
               sites[k].params[i].types == [] && sites[k].params[i].dflt.None?
    modifies frame, if frame.LoadName(sites[k].name).FunList? then {frame.LoadName(sites[k].name).l} else {}
    ensures Holding(frame, sites, k + 1, held)
    ensures var n := sites[k].name;
            && frame.names - {n} == old(frame.names - {n}) && n in frame.names
            && (frame.names[n] == sites[k].fun || (n in old(frame.names) && frame.names[n] == old(frame.names[n])))
            && (frame.LoadName(n).FunList? ==> fresh(frame.LoadName(n).l) || frame.LoadName(n) == old(frame.LoadName(n)))
    ensures forall m :: m != sites[k].name ==> frame.LoadName(m) == old(frame.LoadName(m))
    ensures forall m :: m != sites[k].name ==> FunsOf(frame.LoadName(m)) == old(FunsOf(frame.LoadName(m)))
  {
    hide Tabulates, Keyed, DefineAll, Define, SlotOf, Declared, At;
    var s := sites[k];
    assert Declares(sites, s.name);
    DefineOnTop(At(held, s.name), Declared(sites[..k], s.name));
    frame.Declare(s.fun, s.name, s.params, s.bci);
    forall n | Declares(sites, n)
      ensures frame.Apart(n) && frame.Settled(n)
      ensures FunsOf(frame.LoadName(n)) == DefineAll(At(held, n), Declared(sites[..k + 1], n))
    {
      DeclaredOneMore(sites, k, n, At(held, n));
    }
  }

  /** Executing declaration after declaration, of any names in any order: every declared name holds the
      table of the functions it held before and those of its declarations, and all other names keep what
      they have. */
  method DeclareAll(frame: Frame, sites: seq<Site>)
    requires WellFormed(sites) && OwnRegisters(frame, sites)
    requires forall n :: Declares(sites, n) ==>
               frame.Settled(n) && frame.Apart(n) && Keyed(FunsOf(frame.LoadName(n)))
    modifies frame, DeclaredLists(frame, sites)
    ensures forall n :: Declares(sites, n) ==>
              && FunsOf(frame.LoadName(n)) == DefineAll(old(FunsOf(frame.LoadName(n))), Declared(sites, n))
              && Tabulates(FunsOf(frame.LoadName(n)), old(FunsOf(frame.LoadName(n))) + Declared(sites, n))
              && frame.Settled(n) && frame.Apart(n) && Keyed(FunsOf(frame.LoadName(n)))
    ensures forall n :: !Declares(sites, n) ==> frame.LoadName(n) == old(frame.LoadName(n))
    ensures forall n :: !Declares(sites, n) ==> FunsOf(frame.LoadName(n)) == old(FunsOf(frame.LoadName(n)))
  {
    ghost var names0 := frame.names;
    ghost var held := HeldBy(frame);
    BoundAtFirst(names0, sites);
    NoneDeclared(sites, held);
    HeldAtFirst(frame);
    assert Holding(frame, sites, 0, held);
    hide Tabulates, Keyed, DefineAll, Define, SlotOf, Declared, BoundBySites, WellFormed, Holding, At, HeldBy;
    for k := 0 to |sites|
      invariant BoundBySites(frame.names, names0, sites) && Holding(frame, sites, k, held)
      invariant forall n :: Declares(sites, n) && frame.LoadName(n).FunList? ==>
                  fresh(frame.LoadName(n).l) || frame.LoadName(n) == old(frame.LoadName(n))
      invariant forall n :: !Declares(sites, n) ==> frame.LoadName(n) == old(frame.LoadName(n))
      invariant forall n :: !Declares(sites, n) ==> FunsOf(frame.LoadName(n)) == old(FunsOf(frame.LoadName(n)))
    {
      assert Declares(sites, sites[k].name);
      StillOwns(frame, names0, sites, k);
      SiteFormed(sites, k);
      ghost var before := frame.names;
      DeclareNext(frame, sites, k, held);
      StillBound(before, frame.names, names0, sites, k);
    }
    TablesAtLast(frame, sites, held);
  }

  lemma {:induction false} HeldAtFirst(frame: Frame)
    ensures forall n :: At(HeldBy(frame), n) == FunsOf(frame.LoadName(n))
  {}

  lemma {:induction false} TablesAtLast(frame: Frame, sites: seq<Site>, held: map<string, seq<Fun>>)
    requires Holding(frame, sites, |sites|, held)
    requires forall n :: Declares(sites, n) ==> Keyed(At(held, n))
    ensures forall n :: Declares(sites, n) ==>
              && FunsOf(frame.LoadName(n)) == DefineAll(At(held, n), Declared(sites, n))
              && Tabulates(FunsOf(frame.LoadName(n)), At(held, n) + Declared(sites, n))
              && frame.Settled(n) && frame.Apart(n) && Keyed(FunsOf(frame.LoadName(n)))
  {
    hide Tabulates, Keyed, DefineAll, Declared, At;
    assert sites[..|sites|] == sites;
    forall n | Declares(sites, n)
      ensures FunsOf(frame.LoadName(n)) == DefineAll(At(held, n), Declared(sites, n))
      ensures Tabulates(FunsOf(frame.LoadName(n)), At(held, n) + Declared(sites, n)) && Keyed(FunsOf(frame.LoadName(n)))
    {
      DefineOnTop(At(held, n), Declared(sites, n));
    }
  }

  lemma {:induction false} BoundAtFirst(names0: map<string, nat>, sites: seq<Site>)
    ensures BoundBySites(names0, names0, sites)
  {}

  lemma {:induction false} NoneDeclared(sites: seq<Site>, held: map<string, seq<Fun>>)
    ensures forall n :: DefineAll(At(held, n), Declared(sites[..0], n)) == At(held, n)
  {}

  lemma {:induction false} SiteFormed(sites: seq<Site>, k: nat)
    requires WellFormed(sites) && k < |sites|
    ensures forall i :: 0 <= i < |sites[k].params| && sites[k].params[i].vararg ==>
              sites[k].params[i].types == [] && sites[k].params[i].dflt.None?
  {}

  lemma {:induction false} StillBound(before: map<string, nat>, after: map<string, nat>, names0: map<string, nat>, sites: seq<Site>, k: nat)
    requires k < |sites| && BoundBySites(before, names0, sites)
    requires var n := sites[k].name;
             && after - {n} == before - {n} && n in after
             && (after[n] == sites[k].fun || (n in before && after[n] == before[n]))
    ensures BoundBySites(after, names0, sites)
  {
    var name := sites[k].name;
    forall n | n in after
      ensures (n in names0 && after[n] == names0[n]) || (exists k :: 0 <= k < |sites| && sites[k].name == n && sites[k].fun == after[n])
    {
      if n != name {
        assert n in after - {name} && (after - {name})[n] == after[n];
        assert n in before - {name} && (before - {name})[n] == before[n];
      }
    }
  }

  lemma {:induction false} DeclaredOneMore(sites: seq<Site>, k: nat, n: string, fs: seq<Fun>)
    requires k < |sites|
    ensures DefineAll(fs, Declared(sites[..k + 1], n))
         == if n == sites[k].name then Define(DefineAll(fs, Declared(sites[..k], n)), Fun(sites[k].params, sites[k].bci + 2))
            else DefineAll(fs, Declared(sites[..k], n))
  {
    hide Define;
    var s := sites[k];
    assert sites[..k + 1][..k] == sites[..k];
    var ds, f := Declared(sites[..k], n), Fun(s.params, s.bci + 2);
    if n == s.name {
      assert (ds + [f])[..|ds|] == ds;
    } else {
      assert ds + [] == ds;
    }
  }
}

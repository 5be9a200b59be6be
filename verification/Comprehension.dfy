/** List comprehensions (`List::as_for` in midend/ir.cpp): lowered to nested loops that append to a
    hidden variable, they compute the nested flat-map they are written as. */
module Comprehension {
  import opened Lists
  import opened Values
  import opened Ir

  /** One `name = collection` of a comprehension; `site` identifies the loop made from it. */
  datatype Gen = Gen(site: nat, name: string, coll: Expr)

  /** `acc` is the hidden result variable, whose name starts with a digit. */
  datatype Compr = Compr(acc: string, result: Expr, gens: seq<Gen>, cond: Option<Expr>, orelse: Option<Expr>)

  // ----- the lowering -----

  function AppendTo(acc: string, e: Expr): Stmt {
    ExprStmt(SetOp(Add, acc, ListLit(Cons(e, Empty))))
  }

  function Innermost(c: Compr): Stmt {
    match c.cond
    case None => AppendTo(c.acc, c.result)
    case Some(cond) =>
      If(cond, Cons(AppendTo(c.acc, c.result), Empty),
         if c.orelse.Some? then Some(Cons(AppendTo(c.acc, c.orelse.value), Empty)) else None)
  }

  /** The loops from generator number `i` inward. */
  function Nest(c: Compr, i: nat): Stmt
    requires i <= |c.gens|
    decreases |c.gens| - i
  {
    if i == |c.gens| then Innermost(c)
    else For(c.gens[i].site, c.gens[i].name, c.gens[i].coll, Cons(Nest(c, i + 1), Empty))
  }

  function Lowered(c: Compr): List<Stmt> {
    Cons(ExprStmt(Set(c.acc, ListLit(Empty))), Cons(Nest(c, 0), Empty))
  }

  /** Wraps the innermost statement in one loop after the other, last assignment first. */
  method AsFor(c: Compr) returns (code: List<Stmt>)
    ensures code == Lowered(c)
  {
    var first := ExprStmt(Set(c.acc, ListLit(Empty)));
    var frbody: Stmt;
    if c.cond.Some? {
      var elseStmt := None;
      if c.orelse.Some? {
        elseStmt := Some(Cons(AppendTo(c.acc, c.orelse.value), Empty));
      }
      frbody := If(c.cond.value, Cons(AppendTo(c.acc, c.result), Empty), elseStmt);
    } else {
      frbody := AppendTo(c.acc, c.result);
    }
    var i: nat := |c.gens|;
    while i > 0
      invariant i <= |c.gens| && frbody == Nest(c, i)
    {
      i := i - 1;
      frbody := For(c.gens[i].site, c.gens[i].name, c.gens[i].coll, Cons(frbody, Empty));
    }
    code := Cons(first, Cons(frbody, Empty));
  }

  // ----- the meaning: nested flat-map -----

  /** The variables in scope. */
  type Env = map<string, Binding>

  function StateOf(env: Env): State {
    State(env, [])
  }

  function Bound(env: Env, n: string, v: Value): Env {
    env[n := Binding(v, None)]
  }

  function ValueIn(e: Expr, env: Env): Result<Value, Exn> {
    match Eval(e, StateOf(env))
    case Val(v, _) => Ok(v)
    case Exc(x, _) => Err(x)
  }

  function Single(r: Result<Value, Exn>): Result<seq<Value>, Exn> {
    match r
    case Ok(v) => Ok([v])
    case Err(x) => Err(x)
  }

  /** What one choice of all variables contributes. */
  function Yield(c: Compr, env: Env): Result<seq<Value>, Exn> {
    if c.cond.None? then Single(ValueIn(c.result, env))
    else
      match ValueIn(c.cond.value, env)
      case Err(x) => Err(x)
      case Ok(b) =>
        if !b.Bool? then Err(BoolExpected)
        else if b.b then Single(ValueIn(c.result, env))
        else if c.orelse.Some? then Single(ValueIn(c.orelse.value, env))
        else Ok([])
  }

  function FlatMap(c: Compr, i: nat, env: Env): Result<seq<Value>, Exn>
    requires i <= |c.gens|
    decreases |c.gens| - i, 0
  {
    if i == |c.gens| then Yield(c, env)
    else
      match ValueIn(c.gens[i].coll, env)
      case Err(x) => Err(x)
      case Ok(v) =>
        match Iterate(v)
        case Err(x) => Err(x)
        case Ok(vs) => FlatEach(c, i, vs, env)
  }

  function FlatEach(c: Compr, i: nat, vs: seq<Value>, env: Env): Result<seq<Value>, Exn>
    requires i < |c.gens|
    decreases |c.gens| - i - 1, |vs| + 1
  {
    if vs == [] then Ok([])
    else
      match FlatMap(c, i + 1, Bound(env, c.gens[i].name, vs[0]))
      case Err(x) => Err(x)
      case Ok(first) =>
        match FlatEach(c, i, vs[1..], env)
        case Err(x) => Err(x)
        case Ok(rest) => Ok(first + rest)
  }

  // ----- expressions that only read -----

  predicate Pure(e: Expr) {
    match e
    case ListLit(es) => AllPure(es)
    case Binary(_, l, r) => Pure(l) && Pure(r)
    case Short(_, l, r) => Pure(l) && Pure(r)
    case Unary(_, x) => Pure(x)
    case Ternary(a, b, d) => Pure(a) && Pure(b) && Pure(d)
    case Set(_, _) => false
    case SetOp(_, _, _) => false
    case _ => true
  }

  predicate AllPure(es: List<Expr>) {
    match es
    case Empty => true
    case Cons(e, rest) => Pure(e) && AllPure(rest)
  }

  /** The state shows the environment, except for the hidden names. */
  ghost predicate Agrees(st: State, env: Env, hidden: set<string>) {
    forall n :: n !in hidden ==> (n in st.vars <==> n in env) && (n in env ==> st.vars[n].v == env[n].v)
  }

  function ToResult(r: EResult): Result<Value, Exn> {
    if r.Val? then Ok(r.v) else Err(r.x)
  }

  lemma {:induction false} EvalPure(e: Expr, st: State, st': State)
    requires Pure(e)
    requires forall n :: n in Reads(e) ==> (n in st.vars <==> n in st'.vars) && (n in st.vars ==> st.vars[n].v == st'.vars[n].v)
    ensures Eval(e, st).st == st && Eval(e, st').st == st' && ToResult(Eval(e, st)) == ToResult(Eval(e, st'))
    decreases e
  {
    match e
    case ListLit(es) => EvalAllPure(es, st, st');
    case Binary(_, l, r) => EvalPure(l, st, st'); EvalPure(r, st, st');
    case Short(_, l, r) => EvalPure(l, st, st'); EvalPure(r, st, st');
    case Unary(_, x) => EvalPure(x, st, st');
    case Ternary(a, b, d) => EvalPure(a, st, st'); EvalPure(b, st, st'); EvalPure(d, st, st');
    case _ =>
  }

  lemma {:induction false} EvalAllPure(es: List<Expr>, st: State, st': State)
    requires AllPure(es)
    requires forall n :: n in AllReads(es) ==> (n in st.vars <==> n in st'.vars) && (n in st.vars ==> st.vars[n].v == st'.vars[n].v)
    ensures var a, b := EvalAll(es, st), EvalAll(es, st');
            && a.st == st && b.st == st' && a.Vals? == b.Vals?
            && (if a.Vals? then a.vs == b.vs else a.x == b.x)
    decreases es
  {
    if es.Cons? {
      EvalPure(es.head, st, st');
      EvalAllPure(es.tail, st, st');
    }
  }

  /** A pure expression that reads no hidden name has the same value in both. */
  lemma EvalAgrees(e: Expr, st: State, env: Env, hidden: set<string>)
    requires Pure(e) && Reads(e) !! hidden && Agrees(st, env, hidden)
    ensures Eval(e, st).st == st && ToResult(Eval(e, st)) == ValueIn(e, env)
  {
    EvalPure(e, st, StateOf(env));
  }

  // ----- when the lowering is right -----

  /** The names of the generators from number `i` on, which may still hold values of earlier rounds. */
  function Later(c: Compr, i: nat): set<string>
    requires i <= |c.gens|
    decreases |c.gens| - i
  {
    if i == |c.gens| then {c.acc} else {c.gens[i].name} + Later(c, i + 1)
  }

  /** All parts only read; no part reads the hidden variable; and no collection but the outermost one
      reads its own or a later loop variable. */
  predicate Lowerable(c: Compr) {
    && Pure(c.result) && c.acc !in Reads(c.result)
    && (c.cond.Some? ==> Pure(c.cond.value) && c.acc !in Reads(c.cond.value))
    && (c.orelse.Some? ==> Pure(c.orelse.value) && c.acc !in Reads(c.orelse.value))
    && (forall i :: 0 <= i < |c.gens| ==>
          Pure(c.gens[i].coll) && c.gens[i].name != c.acc && c.acc !in Reads(c.gens[i].coll)
          && (i > 0 ==> Reads(c.gens[i].coll) !! Later(c, i)))
  }

  /** The outermost loop does not still bind its variable, or its collection does not read it. */
  predicate EntersFresh(c: Compr, st: State) {
    c.gens != [] ==>
      var g := c.gens[0];
      (g.name in st.vars && st.vars[g.name].site == Some(g.site)) ==> g.name !in Reads(g.coll)
  }

  /** The hidden variable holds `done`, and nothing was output since `st0`. */
  predicate Holding(c: Compr, st: State, done: seq<Value>, out: seq<Value>) {
    c.acc in st.vars && st.vars[c.acc].v == ListVal(done) && st.out == out
  }

  /** What running a part of the lowered code must achieve. */
  ghost predicate Ran(c: Compr, res: SResult, spec: Result<seq<Value>, Exn>, done: seq<Value>, out: seq<Value>,
                      env: Env, hidden: set<string>) {
    match spec
    case Ok(more) => res.Norm? && Holding(c, res.st, done + more, out) && Agrees(res.st, env, hidden)
    case Err(x) => res.Fail? && res.x == x && res.st.out == out
  }

  /** A list of one element. */
  lemma EvalOne(e: Expr, st: State)
    ensures var r := Eval(e, st);
            Eval(ListLit(Cons(e, Empty)), st) == if r.Val? then Val(ListVal([r.v]), r.st) else Exc(r.x, r.st)
  {
    var r := Eval(e, st);
    assert EvalAll(Empty, r.st) == Vals([], r.st);
    if r.Val? {
      assert [r.v] + [] == [r.v];
    }
  }

  lemma UnfoldAppend(acc: string, e: Expr, st: State, fuel: nat)
    requires acc in st.vars && st.vars[acc].v.ListVal?
    ensures var r := Eval(ListLit(Cons(e, Empty)), st);
            r.Val? && r.v.ListVal? ==>
              Exec(AppendTo(acc, e), st, fuel) == Norm(Assign(r.st, acc, ListVal(st.vars[acc].v.vals + r.v.vals)))
    ensures var r := Eval(ListLit(Cons(e, Empty)), st);
            r.Exc? ==> Exec(AppendTo(acc, e), st, fuel) == Fail(r.x, r.st)
  {}

  lemma RunAppend(c: Compr, e: Expr, st: State, env: Env, done: seq<Value>, out: seq<Value>, fuel: nat)
    requires Pure(e) && c.acc !in Reads(e) && Holding(c, st, done, out) && Agrees(st, env, {c.acc})
    ensures Ran(c, Exec(AppendTo(c.acc, e), st, fuel), Single(ValueIn(e, env)), done, out, env, {c.acc})
  {
    EvalAgrees(e, st, env, {c.acc});
    EvalOne(e, st);
    var list := ListLit(Cons(e, Empty));
    hide Eval;
    UnfoldAppend(c.acc, e, st, fuel);
  }

  lemma RunSingle(s: Stmt, st: State, fuel: nat)
    ensures var r := Exec(s, st, fuel); ExecBlock(Cons(s, Empty), st, fuel) == r
  {
    hide Exec;
  }

  lemma RunInnermost(c: Compr, st: State, env: Env, done: seq<Value>, out: seq<Value>, fuel: nat)
    requires Lowerable(c) && Holding(c, st, done, out) && Agrees(st, env, {c.acc})
    ensures Ran(c, Exec(Innermost(c), st, fuel), Yield(c, env), done, out, env, {c.acc})
  {
    hide Agrees, AppendTo, ValueIn, Eval;
    if c.cond.None? {
      RunAppend(c, c.result, st, env, done, out, fuel);
    } else {
      EvalAgrees(c.cond.value, st, env, {c.acc});
      RunSingle(AppendTo(c.acc, c.result), st, fuel);
      RunAppend(c, c.result, st, env, done, out, fuel);
      if c.orelse.Some? {
        RunSingle(AppendTo(c.acc, c.orelse.value), st, fuel);
        RunAppend(c, c.orelse.value, st, env, done, out, fuel);
      } else {
        assert done + [] == done;
      }
    }
  }

  lemma {:induction false} RunNest(c: Compr, i: nat, st: State, env: Env, done: seq<Value>, out: seq<Value>, fuel: nat)
    requires Lowerable(c) && (i == 0 ==> c.gens == []) && i <= |c.gens| && Holding(c, st, done, out) && Agrees(st, env, Later(c, i))
    ensures Ran(c, Exec(Nest(c, i), st, fuel), FlatMap(c, i, env), done, out, env, Later(c, i))
    decreases |c.gens| - i, 0
  {
    hide Agrees, Innermost, ValueIn, Eval, ExecFor;
    if i == |c.gens| {
      RunInnermost(c, st, env, done, out, fuel);
    } else {
      var g := c.gens[i];
      var st1 := ResetIterator(st, g.site, g.name);
      ResetAgrees(st, g, env, Later(c, i));
      EvalAgrees(g.coll, st1, env, Later(c, i));
      var r := Eval(g.coll, st1);
      if r.Val? && Iterate(r.v).Ok? {
        RunEach(c, i, Iterate(r.v).value, st1, env, done, out, fuel);
      }
    }
  }

  lemma ResetAgrees(st: State, g: Gen, env: Env, hidden: set<string>)
    requires Agrees(st, env, hidden) && g.name in hidden
    ensures Agrees(ResetIterator(st, g.site, g.name), env, hidden)
  {}

  lemma BindAgrees(st: State, g: Gen, v: Value, env: Env, hidden: set<string>)
    requires Agrees(st, env, {g.name} + hidden)
    ensures Agrees(BindIterator(st, g.site, g.name, v), Bound(env, g.name, v), hidden)
  {}

  lemma UnbindAgrees(st: State, g: Gen, v: Value, env: Env, hidden: set<string>)
    requires Agrees(st, Bound(env, g.name, v), hidden)
    ensures Agrees(st, env, {g.name} + hidden)
  {}

  lemma {:induction false} RunEach(c: Compr, i: nat, vs: seq<Value>, st: State, env: Env, done: seq<Value>, out: seq<Value>, fuel: nat)
    requires Lowerable(c) && i < |c.gens| && Holding(c, st, done, out) && Agrees(st, env, Later(c, i))
    ensures var g := c.gens[i];
            Ran(c, ExecFor(g.site, g.name, Cons(Nest(c, i + 1), Empty), vs, st, fuel), FlatEach(c, i, vs, env), done, out,
                env, Later(c, i))
    decreases |c.gens| - i - 1, |vs| + 1
  {
    hide Agrees, Nest, Exec;
    var g := c.gens[i];
    if vs == [] {
      assert done + [] == done;
    } else {
      var st1 := BindIterator(st, g.site, g.name, vs[0]);
      BindAgrees(st, g, vs[0], env, Later(c, i + 1));
      RunNest(c, i + 1, st1, Bound(env, g.name, vs[0]), done, out, fuel);
      RunSingle(Nest(c, i + 1), st1, fuel);
      var first := FlatMap(c, i + 1, Bound(env, g.name, vs[0]));
      if first.Ok? {
        var st2 := Exec(Nest(c, i + 1), st1, fuel).st;
        UnbindAgrees(st2, g, vs[0], env, Later(c, i + 1));
        RunEach(c, i, vs[1..], st2, env, done + first.value, out, fuel);
        var rest := FlatEach(c, i, vs[1..], env);
        if rest.Ok? {
          assert done + first.value + rest.value == done + (first.value + rest.value);
        }
      }
    }
  }

  lemma RunFirst(acc: string, st: State, fuel: nat)
    ensures Exec(ExprStmt(Set(acc, ListLit(Empty))), st, fuel) == Norm(Assign(st, acc, ListVal([])))
  {
    assert EvalAll(Empty, st) == Vals([], st);
    assert Eval(ListLit(Empty), st) == Val(ListVal([]), st);
  }

  /** The outermost loop, entered with all variables as they were but for the hidden one. */
  lemma {:induction false} RunOutermost(c: Compr, st: State, env: Env, out: seq<Value>, fuel: nat)
    requires Lowerable(c) && EntersFresh(c, st) && Holding(c, st, [], out) && Agrees(st, env, {c.acc})
    ensures Ran(c, Exec(Nest(c, 0), st, fuel), FlatMap(c, 0, env), [], out, env, Later(c, 0))
  {
    hide *;
    OuterParts(c, st);
    if c.gens == [] {
      LaterNone(c);
      RunNest(c, 0, st, env, [], out, fuel);
    } else {
      var g := c.gens[0];
      var st1 := ResetIterator(st, g.site, g.name);
      ResetReads(st, g, env, c.acc);
      EvalPure(g.coll, st1, StateOf(env));
      LaterHas(c);
      AgreesLess(st, env, {c.acc}, Later(c, 0));
      ResetAgrees(st, g, env, Later(c, 0));
      ResetHolds(c, st, g, out);
      var r := Eval(g.coll, st1);
      if r.Val? && Iterate(r.v).Ok? {
        RunEach(c, 0, Iterate(r.v).value, st1, env, [], out, fuel);
      }
      OuterRan(c, st, env, out, fuel, Later(c, 0));
    }
  }

  lemma {:induction false} OuterParts(c: Compr, st: State)
    requires Lowerable(c) && EntersFresh(c, st)
    ensures c.gens != [] ==>
              var g := c.gens[0];
              && Pure(g.coll) && g.name != c.acc && c.acc !in Reads(g.coll)
              && (g.name in st.vars && st.vars[g.name].site == Some(g.site) ==> g.name !in Reads(g.coll))
  {}

  lemma {:induction false} LaterNone(c: Compr)
    requires c.gens == []
    ensures Later(c, 0) == {c.acc}
  {}

  lemma {:induction false} AgreesLess(st: State, env: Env, fewer: set<string>, hidden: set<string>)
    requires Agrees(st, env, fewer) && fewer <= hidden
    ensures Agrees(st, env, hidden)
  {}

  lemma {:induction false} ResetHolds(c: Compr, st: State, g: Gen, out: seq<Value>)
    requires Holding(c, st, [], out) && g.name != c.acc
    ensures Holding(c, ResetIterator(st, g.site, g.name), [], out)
  {}

  /** The outermost loop and the outermost flat-map, unfolded. */
  lemma {:induction false} OuterIs(c: Compr, st: State, env: Env, fuel: nat)
    requires c.gens != []
    ensures var g := c.gens[0];
            var st1 := ResetIterator(st, g.site, g.name);
            var r, v := Eval(g.coll, st1), ToResult(Eval(g.coll, StateOf(env)));
            && Exec(Nest(c, 0), st, fuel)
            == (if r.Exc? then Fail(r.x, r.st)
                else match Iterate(r.v)
                     case Ok(vs) => ExecFor(g.site, g.name, Cons(Nest(c, 1), Empty), vs, r.st, fuel)
                     case Err(x) => Fail(x, r.st))
            && FlatMap(c, 0, env)
            == (match v
                case Err(x) => Err(x)
                case Ok(w) =>
                  match Iterate(w)
                  case Err(x) => Err(x)
                  case Ok(vs) => FlatEach(c, 0, vs, env))
  {
    hide Eval, ExecFor, FlatEach, ResetIterator, Iterate;
    assert Nest(c, 0) == For(c.gens[0].site, c.gens[0].name, c.gens[0].coll, Cons(Nest(c, 1), Empty));
    hide Nest;
  }

  /** The outermost loop does what the flat-map says when its rounds do. */
  lemma {:induction false} OuterRan(c: Compr, st: State, env: Env, out: seq<Value>, fuel: nat, hidden: set<string>)
    requires c.gens != [] && Holding(c, ResetIterator(st, c.gens[0].site, c.gens[0].name), [], out)
    requires var g := c.gens[0];
             var st1 := ResetIterator(st, g.site, g.name);
             var r := Eval(g.coll, st1);
             && r.st == st1 && ToResult(r) == ToResult(Eval(g.coll, StateOf(env)))
             && (r.Val? && Iterate(r.v).Ok? ==>
                   Ran(c, ExecFor(g.site, g.name, Cons(Nest(c, 1), Empty), Iterate(r.v).value, st1, fuel),
                       FlatEach(c, 0, Iterate(r.v).value, env), [], out, env, hidden))
    ensures Ran(c, Exec(Nest(c, 0), st, fuel), FlatMap(c, 0, env), [], out, env, hidden)
  {
    hide Eval, ExecFor, FlatEach, ResetIterator, Iterate, Agrees, Nest, Exec, FlatMap;
    OuterIs(c, st, env, fuel);
  }

  /** What the outermost collection reads is as it was. */
  lemma {:induction false} ResetReads(st: State, g: Gen, env: Env, acc: string)
    requires Agrees(st, env, {acc}) && acc !in Reads(g.coll)
    requires g.name in st.vars && st.vars[g.name].site == Some(g.site) ==> g.name !in Reads(g.coll)
    ensures var st1 := ResetIterator(st, g.site, g.name);
            forall n :: n in Reads(g.coll) ==>
              (n in st1.vars <==> n in StateOf(env).vars) && (n in st1.vars ==> st1.vars[n].v == StateOf(env).vars[n].v)
  {
    hide Reads;
  }

  lemma {:induction false} LaterHas(c: Compr)
    requires c.gens != []
    ensures c.gens[0].name in Later(c, 0) && {c.acc} <= Later(c, 0)
  {
    LaterHasAcc(c, 0);
  }

  /** The lowered comprehension leaves in its hidden variable exactly the nested flat-map, the first
      assignment outermost, and all but its own variables alone, or fails with the exception the flat-map
      meets first. */
  lemma {:induction false} LoweringIsFlatMap(c: Compr, st: State, fuel: nat)
    requires Lowerable(c) && EntersFresh(c, st)
    ensures var res := ExecBlock(Lowered(c), st, fuel);
            match FlatMap(c, 0, st.vars)
            case Ok(vs) => res.Norm? && Holding(c, res.st, vs, st.out) && Agrees(res.st, st.vars, Later(c, 0))
            case Err(x) => res.Fail? && res.x == x && res.st.out == st.out
  {
    hide Nest, FlatMap, Lowerable, EntersFresh;
    var st1 := Assign(st, c.acc, ListVal([]));
    RunFirst(c.acc, st, fuel);
    StillFresh(c, st);
    RunOutermost(c, st1, st.vars, st.out, fuel);
    RunSingle(Nest(c, 0), st1, fuel);
    var spec := FlatMap(c, 0, st.vars);
    if spec.Ok? {
      assert [] + spec.value == spec.value;
    }
  }

  lemma {:induction false} StillFresh(c: Compr, st: State)
    requires Lowerable(c) && EntersFresh(c, st)
    ensures EntersFresh(c, Assign(st, c.acc, ListVal([])))
  {}

  lemma {:induction false} LaterHasAcc(c: Compr, i: nat)
    requires i <= |c.gens|
    ensures c.acc in Later(c, i)
    decreases |c.gens| - i
  {
    if i < |c.gens| {
      LaterHasAcc(c, i + 1);
    }
  }

  // ----- what the condition is for -----

  /** `[y : x = "ab", y = y]`, whose second collection reads its own variable. */
  predicate SelfReading(c: Compr) {
    c == Compr("0cl", Variable("y"), [Gen(0, "x", Lit(StringLiteral("ab"))), Gen(1, "y", Variable("y"))], None, None)
  }

  /** With `y = "c"` the flat-map gives `["c", "c"]`, but the second round of the lowered loops finds
      `y` reset to nil and raises. */
  lemma ReadingItself(c: Compr, st: State)
    requires SelfReading(c) && st == State(map["y" := Binding(Str("c"), None)], [])
    ensures FlatMap(c, 0, st.vars) == Ok([Str("c"), Str("c")])
    ensures ExecBlock(Lowered(c), st, 0).Fail? && ExecBlock(Lowered(c), st, 0).x == NotIterable
  {
    ReadingSpec(c, st.vars);
    ReadingRun(c, st);
  }

  lemma Letters()
    ensures Iterate(Str("c")) == Ok([Str("c")]) && Iterate(Str("ab")) == Ok([Str("a"), Str("b")])
  {
    assert ["c"[0]] == "c" && ["ab"[0]] == "a" && ["ab"[1]] == "b";
    assert Iterate(Str("c")).value == [Str("c")];
    assert Iterate(Str("ab")).value == [Str("a"), Str("b")];
  }

  lemma ReadingInner(c: Compr, env: Env)
    requires SelfReading(c) && "y" in env && env["y"].v == Str("c")
    ensures FlatMap(c, 1, env) == Ok([Str("c")])
  {
    Letters();
    var e := Bound(env, "y", Str("c"));
    assert ValueIn(Variable("y"), env) == Ok(Str("c"));
    assert FlatMap(c, 2, e) == Yield(c, e) == Ok([Str("c")]);
    assert [Str("c")][1..] == [];
    assert FlatEach(c, 1, [], env) == Ok([]);
    assert [Str("c")] + [] == [Str("c")];
    assert FlatEach(c, 1, [Str("c")], env) == Ok([Str("c")]);
  }

  lemma ReadingSpec(c: Compr, env: Env)
    requires SelfReading(c) && "y" in env && env["y"].v == Str("c")
    ensures FlatMap(c, 0, env) == Ok([Str("c"), Str("c")])
  {
    hide Yield;
    Letters();
    var vs := [Str("a"), Str("b")];
    assert ValueIn(c.gens[0].coll, env) == Ok(Str("ab"));
    ReadingInner(c, Bound(env, "x", Str("a")));
    ReadingInner(c, Bound(env, "x", Str("b")));
    assert vs[1..] == [Str("b")] && vs[1..][1..] == [];
    assert FlatEach(c, 0, [], env) == Ok([]);
    assert [Str("c")] + [] == [Str("c")];
    assert vs[1..][0] == Str("b");
    assert FlatEach(c, 0, vs[1..], env) == Ok([Str("c")]);
    assert [Str("c")] + [Str("c")] == [Str("c"), Str("c")];
    assert FlatEach(c, 0, vs, env) == Ok([Str("c"), Str("c")]);
    assert Iterate(Str("ab")) == Ok(vs);
  }

  /** The first round of the inner loop appends "c" and leaves `y` bound by that loop. */
  lemma FirstRound(c: Compr, st: State)
    requires SelfReading(c) && "y" in st.vars && st.vars["y"] == Binding(Str("c"), None)
    requires "0cl" in st.vars && st.vars["0cl"].v == ListVal([])
    ensures Exec(Nest(c, 1), st, 0) == Norm(Assign(BindIterator(st, 1, "y", Str("c")), "0cl", ListVal([Str("c")])))
  {
    Letters();
    var st1 := BindIterator(st, 1, "y", Str("c"));
    var st2 := Assign(st1, "0cl", ListVal([Str("c")]));
    var leaf := AppendTo("0cl", Variable("y"));
    assert Nest(c, 2) == leaf;
    EvalOne(Variable("y"), st1);
    UnfoldAppend("0cl", Variable("y"), st1, 0);
    assert [] + [Str("c")] == [Str("c")];
    assert Exec(leaf, st1, 0) == Norm(st2);
    RunSingle(leaf, st1, 0);
    assert ResetIterator(st, 1, "y") == st;
    assert [Str("c")][1..] == [];
    assert ExecFor(1, "y", Cons(leaf, Empty), [], st2, 0) == Norm(st2);
    assert ExecFor(1, "y", Cons(leaf, Empty), [Str("c")], st, 0) == Norm(st2);
  }

  lemma SecondRound(c: Compr, st: State)
    requires SelfReading(c) && "y" in st.vars && st.vars["y"].site == Some(1)
    ensures Exec(Nest(c, 1), st, 0) == Fail(NotIterable, ResetIterator(st, 1, "y"))
  {
    var st1 := ResetIterator(st, 1, "y");
    assert Eval(Variable("y"), st1) == Val(Nil, st1);
  }

  lemma ReadingRun(c: Compr, st: State)
    requires SelfReading(c) && st == State(map["y" := Binding(Str("c"), None)], [])
    ensures ExecBlock(Lowered(c), st, 0).Fail? && ExecBlock(Lowered(c), st, 0).x == NotIterable
  {
    Letters();
    var st1 := Assign(st, c.acc, ListVal([]));
    RunFirst(c.acc, st, 0);
    var inner := Nest(c, 1);
    var body := Cons(inner, Empty);
    var vs := [Str("a"), Str("b")];
    var st2 := BindIterator(st1, 0, "x", Str("a"));
    FirstRound(c, st2);
    RunSingle(inner, st2, 0);
    var st3 := Assign(BindIterator(st2, 1, "y", Str("c")), "0cl", ListVal([Str("c")]));
    var st4 := BindIterator(st3, 0, "x", Str("b"));
    SecondRound(c, st4);
    RunSingle(inner, st4, 0);
    var res := Fail(NotIterable, ResetIterator(st4, 1, "y"));
    assert vs[1..] == [Str("b")];
    assert ExecFor(0, "x", body, vs[1..], st3, 0) == res;
    assert ExecFor(0, "x", body, vs, st1, 0) == res;
    assert ResetIterator(st1, 0, "x") == st1;
    assert Eval(c.gens[0].coll, st1) == Val(Str("ab"), st1);
    assert Exec(Nest(c, 0), st1, 0) == res;
    RunSingle(Nest(c, 0), st1, 0);
  }
}

/** The variable of a `for` loop in the meaning with the generator's reset and in the plain one: exactly
    when entering a loop makes a difference, and programs for which it never does. */
module LoopVariables {
  import opened Lists
  import opened Values
  import opened Ir
  import opened PlainMeaning

  // ----- states that look the same -----

  /** The same output and, but for the names `hidden`, the same values of the same variables. */
  ghost predicate Alike(st: State, st': State, hidden: set<string>) {
    && st.out == st'.out && st.vars.Keys == st'.vars.Keys
    && forall n :: n in st.vars && n !in hidden ==> st.vars[n].v == st'.vars[n].v
  }

  ghost predicate SameValue(r: EResult, r': EResult, hidden: set<string>) {
    && Alike(r.st, r'.st, hidden)
    && (match r
        case Val(v, _) => r'.Val? && r'.v == v
        case Exc(x, _) => r'.Exc? && r'.x == x)
  }

  ghost predicate SameValues(r: LResult, r': LResult, hidden: set<string>) {
    && Alike(r.st, r'.st, hidden)
    && (match r
        case Vals(vs, _) => r'.Vals? && r'.vs == vs
        case LExc(x, _) => r'.LExc? && r'.x == x)
  }

  /** The same outcome, exception and number of repetitions. */
  ghost predicate SameResult(r: SResult, r': SResult, hidden: set<string>) {
    match r
    case Norm(st) => r'.Norm? && Alike(st, r'.st, hidden)
    case Brk(st) => r'.Brk? && Alike(st, r'.st, hidden)
    case Cnt(st) => r'.Cnt? && Alike(st, r'.st, hidden)
    case Fail(x, st) => r'.Fail? && r'.x == x && Alike(st, r'.st, hidden)
    case Timeout(n) => r' == Timeout(n)
  }

  lemma {:induction false} AssignAlike(st: State, st': State, n: string, v: Value, hidden: set<string>)
    requires Alike(st, st', hidden)
    ensures Alike(Assign(st, n, v), Assign(st', n, v), hidden)
  {}

  // ----- expressions -----

  lemma {:induction false} EvalAlike(e: Expr, st: State, st': State, hidden: set<string>)
    requires Alike(st, st', hidden) && Reads(e) !! hidden
    ensures SameValue(Eval(e, st), Eval(e, st'), hidden)
    decreases e
  {
    hide Apply, ApplyUnary, Alike, Assign;
    match e
    case Lit(_) =>
    case ListLit(es) => EvalAllAlike(es, st, st', hidden);
    case Variable(n) => VariableAlike(n, st, st', hidden);
    case Binary(_, l, r) =>
      EvalAlike(l, st, st', hidden);
      if Eval(l, st).Val? { EvalAlike(r, Eval(l, st).st, Eval(l, st').st, hidden); }
    case Short(_, l, r) =>
      EvalAlike(l, st, st', hidden);
      if Eval(l, st).Val? { EvalAlike(r, Eval(l, st).st, Eval(l, st').st, hidden); }
    case Unary(_, x) => EvalAlike(x, st, st', hidden);
    case Ternary(c, t, f) =>
      EvalAlike(c, st, st', hidden);
      if Eval(c, st).Val? {
        EvalAlike(t, Eval(c, st).st, Eval(c, st').st, hidden);
        EvalAlike(f, Eval(c, st).st, Eval(c, st').st, hidden);
      }
    case Set(n, x) =>
      EvalAlike(x, st, st', hidden);
      if Eval(x, st).Val? { AssignAlike(Eval(x, st).st, Eval(x, st').st, n, Eval(x, st).v, hidden); }
    case SetOp(op, n, x) => SetOpAlike(op, n, x, st, st', hidden);
  }

  lemma {:induction false} VariableAlike(n: string, st: State, st': State, hidden: set<string>)
    requires Alike(st, st', hidden) && n !in hidden
    ensures n in st.vars <==> n in st'.vars
    ensures n in st.vars ==> st.vars[n].v == st'.vars[n].v
  {}

  lemma {:induction false} SetOpAlike(op: BinOp, n: string, x: Expr, st: State, st': State, hidden: set<string>)
    requires Alike(st, st', hidden) && Reads(SetOp(op, n, x)) !! hidden
    ensures SameValue(Eval(SetOp(op, n, x), st), Eval(SetOp(op, n, x), st'), hidden)
    decreases SetOp(op, n, x), 0
  {
    hide Apply, Alike, Assign;
    assert n in Reads(SetOp(op, n, x));
    VariableAlike(n, st, st', hidden);
    if n in st.vars {
      EvalAlike(x, st, st', hidden);
      var r := Eval(x, st);
      if r.Val? && Apply(op, st.vars[n].v, r.v).Ok? {
        AssignAlike(r.st, Eval(x, st').st, n, Apply(op, st.vars[n].v, r.v).value, hidden);
      }
    }
  }

  lemma {:induction false} EvalAllAlike(es: List<Expr>, st: State, st': State, hidden: set<string>)
    requires Alike(st, st', hidden) && AllReads(es) !! hidden
    ensures SameValues(EvalAll(es, st), EvalAll(es, st'), hidden)
    decreases es
  {
    if es.Cons? {
      hide Alike;
      EvalAlike(es.head, st, st', hidden);
      if Eval(es.head, st).Val? {
        EvalAllAlike(es.tail, Eval(es.head, st).st, Eval(es.head, st').st, hidden);
      }
    }
  }

  function CaseReads(cs: List<Case>): set<string> {
    match cs
    case Empty => {}
    case Cons(k, rest) => (if k.Case? then AllReads(k.values) else {}) + CaseReads(rest)
  }

  lemma {:induction false} EvalCasesAlike(cs: List<Case>, st: State, st': State, hidden: set<string>)
    requires Alike(st, st', hidden) && CaseReads(cs) !! hidden
    ensures SameValues(EvalCases(cs, st), EvalCases(cs, st'), hidden)
    decreases cs
  {
    hide Alike;
    match cs
    case Empty =>
    case Cons(Default(_), rest) => EvalCasesAlike(rest, st, st', hidden);
    case Cons(Case(es, _), rest) =>
      EvalAllAlike(es, st, st', hidden);
      if EvalAll(es, st).Vals? {
        EvalCasesAlike(rest, EvalAll(es, st).st, EvalAll(es, st').st, hidden);
      }
  }

  // ----- one entry into a loop -----

  /** The loop still binds its variable, to something else than nil. */
  predicate Stale(st: State, site: nat, n: string) {
    n in st.vars && st.vars[n].site == Some(site) && st.vars[n].v != Nil
  }

  /** What a collection comes to: an exception, or elements. */
  datatype Collected = Fails(x: Exn, st: State) | Gives(vs: seq<Value>, st: State)

  function Collect(coll: Expr, st: State): Collected {
    match Eval(coll, st)
    case Exc(x, st1) => Fails(x, st1)
    case Val(v, st1) =>
      match Iterate(v)
      case Err(x) => Fails(x, st1)
      case Ok(vs) => Gives(vs, st1)
  }

  /** What a loop has done when its first body begins: the first element is in its variable. */
  function Enter(n: string, c: Collected): Collected {
    if c.Gives? && c.vs != [] then Gives(c.vs, Assign(c.st, n, c.vs[0])) else c
  }

  ghost predicate SameCollected(c: Collected, c': Collected, hidden: set<string>) {
    && Alike(c.st, c'.st, hidden)
    && (match c
        case Fails(x, _) => c'.Fails? && c'.x == x
        case Gives(vs, _) => c'.Gives? && c'.vs == vs)
  }

  lemma {:induction false} CollectAlike(coll: Expr, st: State, st': State, hidden: set<string>)
    requires Alike(st, st', hidden) && Reads(coll) !! hidden
    ensures SameCollected(Collect(coll, st), Collect(coll, st'), hidden)
  {
    hide Alike, Iterate, Eval;
    EvalAlike(coll, st, st', hidden);
  }

  lemma {:induction false} ResetAlike(site: nat, n: string, st: State)
    ensures Alike(ResetIterator(st, site, n), st, {n})
    ensures !Stale(st, site, n) ==> Alike(ResetIterator(st, site, n), st, {})
    ensures Stale(st, site, n) ==> n in st.vars && n in ResetIterator(st, site, n).vars
    ensures Stale(st, site, n) ==> ResetIterator(st, site, n).vars[n].v == Nil && st.vars[n].v != Nil
  {}

  /** Evaluation forgets no variable, and changes only what the expression assigns. */
  lemma {:induction false} EvalKeeps(e: Expr, st: State, n: string)
    requires n in st.vars
    ensures var st1 := Eval(e, st).st; n in st1.vars && (n !in Assigned(e) ==> st1.vars[n] == st.vars[n])
    decreases e
  {
    hide Apply, ApplyUnary;
    match e
    case ListLit(es) => EvalAllKeeps(es, st, n);
    case Binary(_, l, r) =>
      EvalKeeps(l, st, n);
      EvalKeeps(r, Eval(l, st).st, n);
    case Short(_, l, r) =>
      EvalKeeps(l, st, n);
      EvalKeeps(r, Eval(l, st).st, n);
    case Unary(_, x) => EvalKeeps(x, st, n);
    case Ternary(c, t, f) =>
      EvalKeeps(c, st, n);
      EvalKeeps(t, Eval(c, st).st, n);
      EvalKeeps(f, Eval(c, st).st, n);
    case Set(_, x) => EvalKeeps(x, st, n);
    case SetOp(_, _, x) => EvalKeeps(x, st, n);
    case _ =>
  }

  lemma {:induction false} EvalAllKeeps(es: List<Expr>, st: State, n: string)
    requires n in st.vars
    ensures var st1 := EvalAll(es, st).st; n in st1.vars && (n !in AllAssigned(es) ==> st1.vars[n] == st.vars[n])
    decreases es
  {
    if es.Cons? {
      EvalKeeps(es.head, st, n);
      EvalAllKeeps(es.tail, Eval(es.head, st).st, n);
    }
  }

  /** The variables an expression assigns. */
  function Assigned(e: Expr): set<string> {
    match e
    case ListLit(es) => AllAssigned(es)
    case Binary(_, l, r) => Assigned(l) + Assigned(r)
    case Short(_, l, r) => Assigned(l) + Assigned(r)
    case Unary(_, x) => Assigned(x)
    case Ternary(c, t, f) => Assigned(c) + Assigned(t) + Assigned(f)
    case Set(n, x) => {n} + Assigned(x)
    case SetOp(_, n, x) => {n} + Assigned(x)
    case _ => {}
  }

  function AllAssigned(es: List<Expr>): set<string> {
    match es
    case Empty => {}
    case Cons(e, rest) => Assigned(e) + AllAssigned(rest)
  }

  lemma {:induction false} CollectKeeps(coll: Expr, st: State, n: string)
    requires n in st.vars
    ensures n in Collect(coll, st).st.vars
    ensures n !in Assigned(coll) ==> Collect(coll, st).st.vars[n] == st.vars[n]
  {
    hide Iterate, Eval;
    EvalKeeps(coll, st, n);
  }

  lemma {:induction false} AssignHidden(st: State, st': State, n: string, v: Value)
    requires n in st.vars && n in st'.vars
    ensures Alike(Assign(st, n, v), Assign(st', n, v), {}) <==> Alike(st, st', {n})
  {
    var a, b := Assign(st, n, v), Assign(st', n, v);
    assert a.vars.Keys == st.vars.Keys && b.vars.Keys == st'.vars.Keys;
    if Alike(a, b, {}) {
      forall k | k in st.vars && k !in {n} ensures st.vars[k].v == st'.vars[k].v {
        assert k in a.vars && a.vars[k].v == b.vars[k].v;
      }
    }
  }

  lemma {:induction false} AlikeOne(st: State, st': State, n: string)
    requires n in st.vars && n in st'.vars
    ensures Alike(st, st', {}) <==> Alike(st, st', {n}) && st.vars[n].v == st'.vars[n].v
  {}

  /** The loop goes on with the same elements in the same state, with its variable set to nil before the
      collection is evaluated and without that: exactly when the loop does not bind the variable to
      something else than nil, or the collection comes to the same but for the variable and the variable is
      overwritten, by the first element or by the collection itself. */
  lemma {:induction false} EntryExactly(site: nat, n: string, coll: Expr, st: State)
    ensures var c, c' := Collect(coll, ResetIterator(st, site, n)), Collect(coll, st);
            SameCollected(Enter(n, c), Enter(n, c'), {}) <==>
              || !Stale(st, site, n)
              || (&& SameCollected(c, c', {n})
                  && ((c.Gives? && c.vs != []) || (n in c.st.vars && n in c'.st.vars && c.st.vars[n].v == c'.st.vars[n].v)))
  {
    hide Alike, Collect, Stale, ResetIterator, Assign;
    var st0 := ResetIterator(st, site, n);
    var c, c' := Collect(coll, st0), Collect(coll, st);
    ResetAlike(site, n, st);
    if Stale(st, site, n) {
      CollectKeeps(coll, st0, n);
      CollectKeeps(coll, st, n);
      AlikeOne(c.st, c'.st, n);
      if c.Gives? && c.vs != [] {
        AssignHidden(c.st, c'.st, n, c.vs[0]);
      }
    } else {
      CollectAlike(coll, st0, st, {});
      if c.Gives? && c.vs != [] {
        AssignAlike(c.st, c'.st, n, c.vs[0], {});
      }
    }
  }

  /** For a collection that does not mention the variable: exactly when the loop does not bind it to
      something else than nil, or there is an element. */
  lemma {:induction false} UnreadEntry(site: nat, n: string, coll: Expr, st: State)
    requires n !in Reads(coll) && n !in Assigned(coll)
    ensures var c' := Collect(coll, st);
            SameCollected(Enter(n, Collect(coll, ResetIterator(st, site, n))), Enter(n, c'), {})
            <==> !Stale(st, site, n) || (c'.Gives? && c'.vs != [])
  {
    hide Alike, Collect, Stale, ResetIterator, Enter;
    var st0 := ResetIterator(st, site, n);
    EntryExactly(site, n, coll, st);
    ResetAlike(site, n, st);
    CollectAlike(coll, st0, st, {n});
    if Stale(st, site, n) {
      CollectKeeps(coll, st0, n);
      CollectKeeps(coll, st, n);
    }
  }

  /** A loop without elements whose variable it bound before: the variable becomes nil, where it should keep
      its value. */
  lemma {:induction false} ResetWithoutElements(fuel: nat)
    ensures var loop := For(7, "x", ListLit(Empty), Empty);
            var st := State(map["x" := Binding(Int(1), Some(7))], []);
            && Exec(loop, st, fuel) == Norm(State(map["x" := Binding(Nil, Some(7))], []))
            && Run(loop, st, fuel) == Norm(st)
  {
    var st := State(map["x" := Binding(Int(1), Some(7))], []);
    var st0 := State(map["x" := Binding(Nil, Some(7))], []);
    assert ResetIterator(st, 7, "x") == st0;
    assert EvalAll(Empty, st0) == Vals([], st0) && EvalAll(Empty, st) == Vals([], st);
    assert Eval(ListLit(Empty), st0) == Val(ListVal([]), st0) && Eval(ListLit(Empty), st) == Val(ListVal([]), st);
  }

  // ----- programs that never notice -----

  /** The variables of all `for` loops. */
  function StmtLoops(s: Stmt): set<string> {
    match s
    case If(_, body, orelse) => BlockLoops(body) + (if orelse.Some? then BlockLoops(orelse.value) else {})
    case Switch(_, cs) => CaseLoops(cs)
    case While(_, body) => BlockLoops(body)
    case DoWhile(body, _) => BlockLoops(body)
    case For(_, n, _, body) => {n} + BlockLoops(body)
    case _ => {}
  }

  function BlockLoops(b: List<Stmt>): set<string> {
    match b
    case Empty => {}
    case Cons(s, rest) => StmtLoops(s) + BlockLoops(rest)
  }

  function CaseLoops(cs: List<Case>): set<string> {
    match cs
    case Empty => {}
    case Cons(k, rest) => BlockLoops(k.body) + CaseLoops(rest)
  }

  /** The names that may not be read in the body of a loop over `n`: `n` may, unless a loop in the body
      binds it too. */
  function BodyHidden(n: string, body: List<Stmt>, hidden: set<string>): set<string> {
    if n in BlockLoops(body) then hidden else hidden - {n}
  }

  /** No name of `hidden` is read, but for loop variables in the bodies of their loops. */
  predicate StmtScoped(s: Stmt, hidden: set<string>) {
    match s
    case ExprStmt(e) => Reads(e) !! hidden
    case SilentStmt(e) => Reads(e) !! hidden
    case If(c, body, orelse) =>
      Reads(c) !! hidden && BlockScoped(body, hidden) && (orelse.Some? ==> BlockScoped(orelse.value, hidden))
    case Switch(c, cs) => Reads(c) !! hidden && CaseReads(cs) !! hidden && CasesScoped(cs, hidden)
    case While(c, body) => Reads(c) !! hidden && BlockScoped(body, hidden)
    case DoWhile(body, c) => Reads(c) !! hidden && BlockScoped(body, hidden)
    case For(_, n, coll, body) => Reads(coll) !! hidden && BlockScoped(body, BodyHidden(n, body, hidden))
    case Assert(c, msg, _) => Reads(c) !! hidden && (msg.Some? ==> Reads(msg.value) !! hidden)
    case Raise(e) => Reads(e) !! hidden
    case _ => true
  }

  predicate BlockScoped(b: List<Stmt>, hidden: set<string>) {
    match b
    case Empty => true
    case Cons(s, rest) => StmtScoped(s, hidden) && BlockScoped(rest, hidden)
  }

  predicate CasesScoped(cs: List<Case>, hidden: set<string>) {
    match cs
    case Empty => true
    case Cons(k, rest) => BlockScoped(k.body, hidden) && CasesScoped(rest, hidden)
  }

  /** Loop variables are read only in bodies of loops that bind them, in which no other loop does. */
  predicate Scoped(b: List<Stmt>) {
    BlockScoped(b, BlockLoops(b))
  }

  lemma {:induction false} Hide(r: SResult, r': SResult, fewer: set<string>, hidden: set<string>)
    requires SameResult(r, r', fewer) && fewer <= hidden
    ensures SameResult(r, r', hidden)
  {}

  lemma {:induction false} OutputAlike(st: State, st': State, v: Value, hidden: set<string>)
    requires Alike(st, st', hidden)
    ensures Alike(Output(st, v), Output(st', v), hidden)
  {}

  lemma {:induction false} BindAlike(st: State, st': State, site: nat, n: string, v: Value, hidden: set<string>)
    requires Alike(st, st', hidden)
    ensures Alike(BindIterator(st, site, n, v), Assign(st', n, v), hidden - {n})
    ensures Alike(BindIterator(st, site, n, v), Assign(st', n, v), hidden)
  {}

  lemma {:induction false} ResetHidden(st: State, st': State, site: nat, n: string, hidden: set<string>)
    requires Alike(st, st', hidden) && n in hidden
    ensures Alike(ResetIterator(st, site, n), st', hidden)
  {}

  lemma {:induction false} TickSame(r: SResult, r': SResult, hidden: set<string>)
    requires SameResult(r, r', hidden)
    ensures SameResult(Tick(r), Tick(r'), hidden)
  {}

  lemma {:induction false} StmtSame(s: Stmt, st: State, st': State, fuel: nat, hidden: set<string>)
    requires StmtLoops(s) <= hidden && StmtScoped(s, hidden) && Alike(st, st', hidden)
    ensures SameResult(Exec(s, st, fuel), Run(s, st', fuel), hidden)
    decreases fuel, s, 1
  {
    hide Alike, Eval, EvalCases, ExecBlock, RunBlock, ExecFor, RunEach, ExecCase, RunCase, BlockLoops, CaseLoops, BlockScoped,
      CasesScoped, Output, Iterate;
    match s
    case ExprStmt(e) =>
      EvalAlike(e, st, st', hidden);
      if Eval(e, st).Val? { OutputAlike(Eval(e, st).st, Eval(e, st').st, Eval(e, st).v, hidden); }
    case SilentStmt(e) => EvalAlike(e, st, st', hidden);
    case If(c, body, orelse) =>
      EvalAlike(c, st, st', hidden);
      var r, r' := Eval(c, st), Eval(c, st');
      if r.Val? && r.v.Bool? {
        if r.v.b { BlockSame(body, r.st, r'.st, fuel, hidden); }
        else if orelse.Some? { BlockSame(orelse.value, r.st, r'.st, fuel, hidden); }
      }
    case Switch(c, cs) => SwitchSame(s, st, st', fuel, hidden);
    case While(c, body) => WhileSame(s, st, st', fuel, hidden);
    case DoWhile(body, c) => DoWhileSame(s, st, st', fuel, hidden);
    case For(site, n, coll, body) =>
      var st0 := ResetIterator(st, site, n);
      ResetHidden(st, st', site, n, hidden);
      EvalAlike(coll, st0, st', hidden);
      var r, r' := Eval(coll, st0), Eval(coll, st');
      if r.Val? && Iterate(r.v).Ok? {
        EachSame(site, n, body, Iterate(r.v).value, r.st, r'.st, fuel, hidden);
      }
    case Assert(c, msg, line) =>
      EvalAlike(c, st, st', hidden);
      if Eval(c, st).Val? && msg.Some? {
        EvalAlike(msg.value, Eval(c, st).st, Eval(c, st').st, hidden);
      }
    case Raise(e) => EvalAlike(e, st, st', hidden);
    case _ =>
  }

  lemma {:induction false} SwitchSame(s: Stmt, st: State, st': State, fuel: nat, hidden: set<string>)
    requires s.Switch? && StmtLoops(s) <= hidden && StmtScoped(s, hidden) && Alike(st, st', hidden)
    ensures SameResult(Exec(s, st, fuel), Run(s, st', fuel), hidden)
    decreases fuel, s, 0
  {
    hide Alike, Eval, EvalCases, ExecCase, RunCase, CaseLoops, CasesScoped, SelectedCase;
    EvalAlike(s.cond, st, st', hidden);
    var r, r' := Eval(s.cond, st), Eval(s.cond, st');
    if r.Val? {
      EvalCasesAlike(s.cases, r.st, r'.st, hidden);
      var vs, vs' := EvalCases(s.cases, r.st), EvalCases(s.cases, r'.st);
      if vs.Vals? {
        var k := SelectedCase(s.cases, vs.vs, r.v);
        if k.Some? {
          CaseSame(s.cases, k.value, vs.st, vs'.st, fuel, hidden);
        }
      }
    }
  }

  lemma {:induction false} WhileSame(s: Stmt, st: State, st': State, fuel: nat, hidden: set<string>)
    requires s.While? && StmtLoops(s) <= hidden && StmtScoped(s, hidden) && Alike(st, st', hidden)
    ensures SameResult(Exec(s, st, fuel), Run(s, st', fuel), hidden)
    decreases fuel, s, 0
  {
    hide Alike, Eval, ExecBlock, RunBlock, BlockLoops, BlockScoped, Tick;
    EvalAlike(s.cond, st, st', hidden);
    var r, r' := Eval(s.cond, st), Eval(s.cond, st');
    if r.Val? && r.v == Bool(true) && fuel > 0 {
      BlockSame(s.body, r.st, r'.st, fuel, hidden);
      var b, b' := ExecBlock(s.body, r.st, fuel), RunBlock(s.body, r'.st, fuel);
      if b.Norm? || b.Cnt? {
        StmtSame(s, b.st, b'.st, fuel - 1, hidden);
        TickSame(Exec(s, b.st, fuel - 1), Run(s, b'.st, fuel - 1), hidden);
      }
    }
  }

  lemma {:induction false} DoWhileSame(s: Stmt, st: State, st': State, fuel: nat, hidden: set<string>)
    requires s.DoWhile? && StmtLoops(s) <= hidden && StmtScoped(s, hidden) && Alike(st, st', hidden)
    ensures SameResult(Exec(s, st, fuel), Run(s, st', fuel), hidden)
    decreases fuel, s, 0
  {
    hide Alike, Eval, ExecBlock, RunBlock, BlockLoops, BlockScoped, Tick;
    if fuel > 0 {
      BlockSame(s.body, st, st', fuel, hidden);
      var b, b' := ExecBlock(s.body, st, fuel), RunBlock(s.body, st', fuel);
      if b.Norm? || b.Cnt? {
        EvalAlike(s.cond, b.st, b'.st, hidden);
        var r, r' := Eval(s.cond, b.st), Eval(s.cond, b'.st);
        if r.Val? && r.v == Bool(true) {
          StmtSame(s, r.st, r'.st, fuel - 1, hidden);
          TickSame(Exec(s, r.st, fuel - 1), Run(s, r'.st, fuel - 1), hidden);
        }
      }
    }
  }

  lemma {:induction false} EachSame(site: nat, n: string, body: List<Stmt>, vs: seq<Value>, st: State, st': State, fuel: nat,
                                    hidden: set<string>)
    requires n in hidden && BlockLoops(body) <= hidden && BlockScoped(body, BodyHidden(n, body, hidden)) && Alike(st, st', hidden)
    ensures SameResult(ExecFor(site, n, body, vs, st, fuel), RunEach(n, body, vs, st', fuel), hidden)
    decreases fuel, body, 2, |vs|
  {
    hide Alike, ExecBlock, RunBlock, BlockLoops, BlockScoped, BindIterator, Assign;
    if vs != [] {
      var inner := BodyHidden(n, body, hidden);
      var st1, st1' := BindIterator(st, site, n, vs[0]), Assign(st', n, vs[0]);
      BindAlike(st, st', site, n, vs[0], hidden);
      BlockSame(body, st1, st1', fuel, inner);
      Hide(ExecBlock(body, st1, fuel), RunBlock(body, st1', fuel), inner, hidden);
      var b, b' := ExecBlock(body, st1, fuel), RunBlock(body, st1', fuel);
      if b.Norm? || b.Cnt? {
        EachSame(site, n, body, vs[1..], b.st, b'.st, fuel, hidden);
      }
    }
  }

  lemma {:induction false} BlockSame(b: List<Stmt>, st: State, st': State, fuel: nat, hidden: set<string>)
    requires BlockLoops(b) <= hidden && BlockScoped(b, hidden) && Alike(st, st', hidden)
    ensures SameResult(ExecBlock(b, st, fuel), RunBlock(b, st', fuel), hidden)
    decreases fuel, b, 0
  {
    hide Alike, Exec, Run, StmtLoops, StmtScoped;
    if b.Cons? {
      StmtSame(b.head, st, st', fuel, hidden);
      var r, r' := Exec(b.head, st, fuel), Run(b.head, st', fuel);
      if r.Norm? {
        BlockSame(b.tail, r.st, r'.st, fuel, hidden);
      }
    }
  }

  lemma {:induction false} CaseSame(cs: List<Case>, k: nat, st: State, st': State, fuel: nat, hidden: set<string>)
    requires CaseLoops(cs) <= hidden && CasesScoped(cs, hidden) && Alike(st, st', hidden)
    ensures SameResult(ExecCase(cs, k, st, fuel), RunCase(cs, k, st', fuel), hidden)
    decreases fuel, cs, 0
  {
    hide Alike, ExecBlock, RunBlock, BlockLoops, BlockScoped;
    if cs.Cons? {
      if k == 0 {
        BlockSame(cs.head.body, st, st', fuel, hidden);
      } else {
        CaseSame(cs.tail, k - 1, st, st', fuel, hidden);
      }
    }
  }

  /** A program whose loop variables are scoped means the same with and without the reset: the same outcome,
      output and exception, and the same values of all variables but those of its loops. */
  lemma {:induction false} ScopedSame(b: List<Stmt>, st: State, fuel: nat)
    requires Scoped(b)
    ensures SameResult(ExecBlock(b, st, fuel), RunBlock(b, st, fuel), BlockLoops(b))
  {
    BlockSame(b, st, st, fuel, BlockLoops(b));
  }

  // ----- why another loop must not bind the variable -----

  /** `for k : ks { for x : k {} }`, and then `x` is read: the body of a loop over `x`, say. */
  function Rebinding(): List<Stmt> {
    Cons(For(2, "k", Variable("ks"), Cons(For(1, "x", Variable("k"), Empty), Empty)), Cons(ExprStmt(Variable("x")), Empty))
  }

  function Vars(x: Binding, k: Binding): map<string, Binding> {
    map["x" := x, "k" := k, "ks" := Binding(ListVal([ListVal([Int(1)]), ListVal([])]), None)]
  }

  /** From `x` bound by the outer loop, the inner loop runs once and then finds nothing: `x` is its last
      element, 1, but nil with the reset. */
  lemma {:induction false} RebindingParts(x: Value, fuel: nat)
    ensures var st := State(Vars(Binding(x, Some(0)), Binding(Nil, None)), []);
            && ExecBlock(Rebinding(), st, fuel) == Norm(State(Vars(Binding(Nil, Some(1)), Binding(ListVal([]), Some(2))), [Nil]))
            && RunBlock(Rebinding(), st, fuel) == Norm(State(Vars(Binding(Int(1), None), Binding(ListVal([]), None)), [Int(1)]))
  {
    RebindingReset(x, fuel);
    RebindingPlain(x, fuel);
  }

  lemma {:induction false} RebindingReset(x: Value, fuel: nat)
    ensures var st := State(Vars(Binding(x, Some(0)), Binding(Nil, None)), []);
            ExecBlock(Rebinding(), st, fuel) == Norm(State(Vars(Binding(Nil, Some(1)), Binding(ListVal([]), Some(2))), [Nil]))
  {
    var one, none := ListVal([Int(1)]), ListVal([]);
    var inner := For(1, "x", Variable("k"), Empty);
    var s0 := State(Vars(Binding(x, Some(0)), Binding(Nil, None)), []);
    var s1 := State(Vars(Binding(x, Some(0)), Binding(one, Some(2))), []);
    var s2 := State(Vars(Binding(Int(1), Some(1)), Binding(one, Some(2))), []);
    var s3 := State(Vars(Binding(Int(1), Some(1)), Binding(none, Some(2))), []);
    var s4 := State(Vars(Binding(Nil, Some(1)), Binding(none, Some(2))), []);
    hide *;
    BindsVars(s0, Binding(x, Some(0)), Binding(Nil, None), one);
    BindsVars(s1, Binding(x, Some(0)), Binding(one, Some(2)), Int(1));
    BindsVars(s2, Binding(Int(1), Some(1)), Binding(one, Some(2)), none);
    BindsVars(s3, Binding(Int(1), Some(1)), Binding(none, Some(2)), none);
    assert [Int(1)][1..] == [] && [one, none][1..] == [none] && [none][1..] == [];
    ReadsVars(s0, Binding(x, Some(0)), Binding(Nil, None));
    ReadsVars(s1, Binding(x, Some(0)), Binding(one, Some(2)));
    ReadsVars(s4, Binding(Nil, Some(1)), Binding(none, Some(2)));
    NoStmts(s2, fuel);
    ForStep(1, "x", Variable("k"), Empty, s1, [Int(1)], fuel);
    EachStep(1, "x", Empty, [Int(1)], s1, s2, fuel);
    EachEnd(1, "x", Empty, s2, fuel);
    ForStep(1, "x", Variable("k"), Empty, s3, [], fuel);
    EachEnd(1, "x", Empty, s4, fuel);
    OneStmt(inner, s1, fuel);
    OneStmt(inner, s3, fuel);
    ForStep(2, "k", Variable("ks"), Cons(inner, Empty), s0, [one, none], fuel);
    EachStep(2, "k", Cons(inner, Empty), [one, none], s0, s2, fuel);
    EachStep(2, "k", Cons(inner, Empty), [none], s2, s4, fuel);
    EachEnd(2, "k", Cons(inner, Empty), s4, fuel);
    RebindingTail(s0, s4, s4, Nil, fuel);
  }

  lemma {:induction false} OneStmt(s: Stmt, st: State, fuel: nat)
    ensures ExecBlock(Cons(s, Empty), st, fuel) == Exec(s, st, fuel)
    ensures RunBlock(Cons(s, Empty), st, fuel) == Run(s, st, fuel)
  {
    hide Exec, Run;
  }

  lemma {:induction false} NoStmts(st: State, fuel: nat)
    ensures ExecBlock(Empty, st, fuel) == Norm(st) && RunBlock(Empty, st, fuel) == Norm(st)
  {}

  lemma {:induction false} ReadsVars(st: State, x: Binding, k: Binding)
    requires st == State(Vars(x, k), [])
    ensures Eval(Variable("x"), st) == Val(x.v, st) && Eval(Variable("k"), st) == Val(k.v, st)
    ensures Eval(Variable("ks"), st) == Val(ListVal([ListVal([Int(1)]), ListVal([])]), st)
  {}

  /** The ways in which the loops change the variables. */
  lemma {:induction false} BindsVars(st: State, x: Binding, k: Binding, v: Value)
    requires st == State(Vars(x, k), [])
    ensures BindIterator(st, 2, "k", v) == State(Vars(x, Binding(v, Some(2))), [])
    ensures BindIterator(st, 1, "x", v) == State(Vars(Binding(v, Some(1)), k), [])
    ensures Assign(st, "k", v) == State(Vars(x, Binding(v, None)), [])
    ensures Assign(st, "x", v) == State(Vars(Binding(v, None), k), [])
    ensures k.site != Some(2) ==> ResetIterator(st, 2, "k") == st
    ensures ResetIterator(st, 1, "x") == if x.site == Some(1) then State(Vars(Binding(Nil, Some(1)), k), []) else st
  {
    hide Vars;
    VarsChange(x, k, Binding(v, Some(1)));
    VarsChange(x, k, Binding(v, None));
    VarsChange(x, k, Binding(v, Some(2)));
    VarsChange(x, k, Binding(Nil, Some(1)));
    VarsHold(x, k);
  }

  lemma {:induction false} VarsHold(x: Binding, k: Binding)
    ensures "x" in Vars(x, k) && "k" in Vars(x, k) && Vars(x, k)["x"] == x && Vars(x, k)["k"] == k
  {}

  lemma {:induction false} VarsChange(x: Binding, k: Binding, b: Binding)
    ensures Vars(x, k)["x" := b] == Vars(b, k) && Vars(x, k)["k" := b] == Vars(x, b)
  {}

  lemma {:induction false} ForStep(site: nat, n: string, coll: Expr, body: List<Stmt>, st: State, vs: seq<Value>, fuel: nat)
    ensures var st0 := ResetIterator(st, site, n);
            Eval(coll, st0) == Val(ListVal(vs), st0) ==>
              Exec(For(site, n, coll, body), st, fuel) == ExecFor(site, n, body, vs, st0, fuel)
    ensures Eval(coll, st) == Val(ListVal(vs), st) ==>
              Run(For(site, n, coll, body), st, fuel) == RunEach(n, body, vs, st, fuel)
  {
    hide Eval, ExecFor, RunEach, ResetIterator;
  }

  lemma {:induction false} EachStep(site: nat, n: string, body: List<Stmt>, vs: seq<Value>, st: State, st1: State, fuel: nat)
    requires vs != []
    ensures ExecBlock(body, BindIterator(st, site, n, vs[0]), fuel) == Norm(st1) ==>
              ExecFor(site, n, body, vs, st, fuel) == ExecFor(site, n, body, vs[1..], st1, fuel)
    ensures RunBlock(body, Assign(st, n, vs[0]), fuel) == Norm(st1) ==>
              RunEach(n, body, vs, st, fuel) == RunEach(n, body, vs[1..], st1, fuel)
  {
    hide ExecBlock, RunBlock, BindIterator, Assign;
  }

  lemma {:induction false} EachEnd(site: nat, n: string, body: List<Stmt>, st: State, fuel: nat)
    ensures ExecFor(site, n, body, [], st, fuel) == Norm(st) && RunEach(n, body, [], st, fuel) == Norm(st)
  {}

  /** After the loops, `x` is output. */
  lemma {:induction false} RebindingTail(st: State, r: State, p: State, v: Value, fuel: nat)
    ensures Exec(Rebinding().head, st, fuel) == Norm(r) && Eval(Variable("x"), r) == Val(v, r) ==>
              ExecBlock(Rebinding(), st, fuel) == Norm(Output(r, v))
    ensures Run(Rebinding().head, st, fuel) == Norm(p) && Eval(Variable("x"), p) == Val(v, p) ==>
              RunBlock(Rebinding(), st, fuel) == Norm(Output(p, v))
    ensures Rebinding().head == For(2, "k", Variable("ks"), Cons(For(1, "x", Variable("k"), Empty), Empty))
    ensures r.out == [] ==> Output(r, v) == State(r.vars, [v])
  {
    var last := ExprStmt(Variable("x"));
    assert Rebinding() == Cons(Rebinding().head, Cons(last, Empty));
    OneStmt(last, r, fuel);
    OneStmt(last, p, fuel);
    OutputsOne(r, v, fuel);
    OutputsOne(p, v, fuel);
    hide Exec, Run, Eval, Output;
    assert r.out == [] ==> r.out + [v] == [v];
  }

  lemma {:induction false} OutputsOne(st: State, v: Value, fuel: nat)
    ensures Eval(Variable("x"), st) == Val(v, st) ==>
              && Exec(ExprStmt(Variable("x")), st, fuel) == Norm(Output(st, v))
              && Run(ExprStmt(Variable("x")), st, fuel) == Norm(Output(st, v))
  {}

  lemma {:induction false} RebindingPlain(x: Value, fuel: nat)
    ensures var st := State(Vars(Binding(x, Some(0)), Binding(Nil, None)), []);
            RunBlock(Rebinding(), st, fuel) == Norm(State(Vars(Binding(Int(1), None), Binding(ListVal([]), None)), [Int(1)]))
  {
    var one, none := ListVal([Int(1)]), ListVal([]);
    var inner := For(1, "x", Variable("k"), Empty);
    var s0 := State(Vars(Binding(x, Some(0)), Binding(Nil, None)), []);
    var s1 := State(Vars(Binding(x, Some(0)), Binding(one, None)), []);
    var s2 := State(Vars(Binding(Int(1), None), Binding(one, None)), []);
    var s3 := State(Vars(Binding(Int(1), None), Binding(none, None)), []);
    hide *;
    BindsVars(s0, Binding(x, Some(0)), Binding(Nil, None), one);
    BindsVars(s1, Binding(x, Some(0)), Binding(one, None), Int(1));
    BindsVars(s2, Binding(Int(1), None), Binding(one, None), none);
    assert [Int(1)][1..] == [] && [one, none][1..] == [none] && [none][1..] == [];
    ReadsVars(s0, Binding(x, Some(0)), Binding(Nil, None));
    ReadsVars(s1, Binding(x, Some(0)), Binding(one, None));
    ReadsVars(s3, Binding(Int(1), None), Binding(none, None));
    NoStmts(s2, fuel);
    ForStep(1, "x", Variable("k"), Empty, s1, [Int(1)], fuel);
    EachStep(1, "x", Empty, [Int(1)], s1, s2, fuel);
    EachEnd(1, "x", Empty, s2, fuel);
    ForStep(1, "x", Variable("k"), Empty, s3, [], fuel);
    EachEnd(1, "x", Empty, s3, fuel);
    OneStmt(inner, s1, fuel);
    OneStmt(inner, s3, fuel);
    ForStep(2, "k", Variable("ks"), Cons(inner, Empty), s0, [one, none], fuel);
    EachStep(2, "k", Cons(inner, Empty), [one, none], s0, s2, fuel);
    EachStep(2, "k", Cons(inner, Empty), [none], s2, s3, fuel);
    EachEnd(2, "k", Cons(inner, Empty), s3, fuel);
    RebindingTail(s0, s3, s3, Int(1), fuel);
  }
}

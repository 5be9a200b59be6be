/** The intermediate representation (midend/ir.hpp) and its big-step meaning. The variable of a `for`
    loop is treated as the generator treats it, which sets its register to nil before every entry;
    `PlainMeaning` has the meaning without that, and `LoopVariables` says when the two agree. */
module Ir {
  import opened Lists
  import opened Values

  datatype Literal = IntLiteral(i: int) | BoolLiteral(b: bool) | StringLiteral(s: string) | NilLiteral

  datatype Expr =
    | Lit(lit: Literal)
    | ListLit(elems: List<Expr>)
    | Variable(name: string)
    | Binary(op: BinOp, left: Expr, right: Expr)
    | Short(isAnd: bool, left: Expr, right: Expr)  // `&&` and `||`
    | Unary(isNot: bool, arg: Expr)                // `not` and unary minus
    | Ternary(cond: Expr, onTrue: Expr, onFalse: Expr)
    | Set(name: string, right: Expr)
    | SetOp(op: BinOp, name: string, right: Expr)  // compound assignment

  datatype Stmt =
    | ExprStmt(e: Expr)
    | SilentStmt(e: Expr)                          // `~e`
    | If(cond: Expr, body: List<Stmt>, orelse: Option<List<Stmt>>)
    | Switch(cond: Expr, cases: List<Case>)
    | While(cond: Expr, body: List<Stmt>)
    | DoWhile(body: List<Stmt>, cond: Expr)
    | For(site: nat, name: string, collection: Expr, body: List<Stmt>)
    | Break
    | Continue
    | Assert(cond: Expr, msg: Option<Expr>, line: int)
    | Raise(e: Expr)

  datatype Case = Case(values: List<Expr>, body: List<Stmt>) | Default(body: List<Stmt>)

  /** A variable's value and, when a `for` loop bound it last, which loop that was. */
  datatype Binding = Binding(v: Value, site: Option<nat>)

  /** Variables, and the notes output so far. */
  datatype State = State(vars: map<string, Binding>, out: seq<Value>)

  datatype EResult = Val(v: Value, st: State) | Exc(x: Exn, st: State)

  datatype LResult = Vals(vs: seq<Value>, st: State) | LExc(x: Exn, st: State)

  /** `Timeout` means the fuel ran out after that many repetitions of a loop. */
  datatype SResult = Norm(st: State) | Brk(st: State) | Cnt(st: State) | Fail(x: Exn, st: State) | Timeout(n: nat)

  // ----- expressions -----

  function LitVal(l: Literal): Value {
    match l
    case IntLiteral(i) => Int(i)
    case BoolLiteral(b) => Bool(b)
    case StringLiteral(s) => Str(s)
    case NilLiteral => Nil
  }

  function Lift(r: Result<Value, Exn>, st: State): EResult {
    match r
    case Ok(v) => Val(v, st)
    case Err(x) => Exc(x, st)
  }

  function Assign(st: State, name: string, v: Value): State {
    st.(vars := st.vars[name := Binding(v, None)])
  }

  function Eval(e: Expr, st: State): EResult {
    match e
    case Lit(l) => Val(LitVal(l), st)
    case ListLit(es) =>
      (match EvalAll(es, st)
       case Vals(vs, st1) => Val(ListVal(vs), st1)
       case LExc(x, st1) => Exc(x, st1))
    case Variable(n) =>
      if n in st.vars then Val(st.vars[n].v, st) else Exc(NameError(n), st)
    case Binary(op, l, r) =>
      var a := Eval(l, st);
      if a.Exc? then a else
      var b := Eval(r, a.st);
      if b.Exc? then b else Lift(Apply(op, a.v, b.v), b.st)
    case Short(isAnd, l, r) =>
      var a := Eval(l, st);
      if a.Exc? then a
      else if !a.v.Bool? then Exc(BoolExpected, a.st)
      else if a.v.b == isAnd then Eval(r, a.st) else a
    case Unary(isNot, a) =>
      var r := Eval(a, st);
      if r.Exc? then r else Lift(ApplyUnary(isNot, r.v), r.st)
    case Ternary(c, t, f) =>
      var r := Eval(c, st);
      if r.Exc? then r
      else if !r.v.Bool? then Exc(BoolExpected, r.st)
      else if r.v.b then Eval(t, r.st) else Eval(f, r.st)
    case Set(n, right) =>
      var r := Eval(right, st);
      if r.Exc? then r else Val(r.v, Assign(r.st, n, r.v))
    case SetOp(op, n, right) =>
      if n !in st.vars then Exc(NameError(n), st) else
      var r := Eval(right, st);
      if r.Exc? then r else
      (match Apply(op, st.vars[n].v, r.v)
       case Ok(v) => Val(v, Assign(r.st, n, v))
       case Err(x) => Exc(x, r.st))
  }

  function EvalAll(es: List<Expr>, st: State): LResult {
    match es
    case Empty => Vals([], st)
    case Cons(e, rest) =>
      var a := Eval(e, st);
      if a.Exc? then LExc(a.x, a.st) else
      var b := EvalAll(rest, a.st);
      if b.LExc? then b else Vals([a.v] + b.vs, b.st)
  }

  /** All case values of a switch, in source order. */
  function EvalCases(cs: List<Case>, st: State): LResult {
    match cs
    case Empty => Vals([], st)
    case Cons(Default(_), rest) => EvalCases(rest, st)
    case Cons(Case(es, _), rest) =>
      var a := EvalAll(es, st);
      if a.LExc? then a else
      var b := EvalCases(rest, a.st);
      if b.LExc? then b else Vals(a.vs + b.vs, b.st)
  }

  // ----- statements -----

  /** Assignments are not output when they stand alone. */
  predicate IsSilent(e: Expr) {
    e.Set? || e.SetOp?
  }

  function Output(st: State, v: Value): State {
    st.(out := st.out + [v])
  }

  /** The number of the case that owns case value number `i`, if any. */
  function OwnerCase(cs: List<Case>, i: nat): Option<nat> {
    match cs
    case Empty => None
    case Cons(c, rest) =>
      var n := if c.Case? then Length(c.values) else 0;
      if i < n then Some(0) else Later(OwnerCase(rest, i - n))
  }

  function Later(k: Option<nat>): Option<nat> {
    if k.Some? then Some(k.value + 1) else None
  }

  /** The number of the last default: a later default replaces an earlier one. */
  function DefaultCase(cs: List<Case>): Option<nat> {
    match cs
    case Empty => None
    case Cons(c, rest) =>
      var later := Later(DefaultCase(rest));
      if later.Some? then later else if c.Default? then Some(0) else None
  }

  /** The case a switch runs: the owner of the first equal value, else the default, else none. */
  function SelectedCase(cs: List<Case>, vs: seq<Value>, cond: Value): Option<nat> {
    var k := OwnerCase(cs, FirstEqual(vs, cond));
    if k.Some? then k else DefaultCase(cs)
  }

  /** Entering a `for` loop resets its variable to nil when that same loop still binds it. */
  function ResetIterator(st: State, site: nat, name: string): State {
    if name in st.vars && st.vars[name].site == Some(site)
    then st.(vars := st.vars[name := Binding(Nil, Some(site))])
    else st
  }

  function BindIterator(st: State, site: nat, name: string, v: Value): State {
    st.(vars := st.vars[name := Binding(v, Some(site))])
  }

  /** One more repetition of a loop. */
  function Tick(res: SResult): SResult {
    if res.Timeout? then Timeout(res.n + 1) else res
  }

  /** One statement, with `fuel` bounding the number of repetitions of a `while` or `do` loop. */
  function Exec(s: Stmt, st: State, fuel: nat): SResult
    decreases fuel, s, 0
  {
    match s
    case ExprStmt(e) =>
      var r := Eval(e, st);
      if r.Exc? then Fail(r.x, r.st)
      else Norm(if IsSilent(e) then r.st else Output(r.st, r.v))
    case SilentStmt(e) =>
      var r := Eval(e, st);
      if r.Exc? then Fail(r.x, r.st) else Norm(r.st)
    case If(c, body, orelse) =>
      var r := Eval(c, st);
      if r.Exc? then Fail(r.x, r.st)
      else if !r.v.Bool? then Fail(BoolExpected, r.st)
      else if r.v.b then ExecBlock(body, r.st, fuel)
      else (match orelse
            case None => Norm(r.st)
            case Some(b) => ExecBlock(b, r.st, fuel))
    case Switch(c, cs) =>
      var r := Eval(c, st);
      if r.Exc? then Fail(r.x, r.st) else
      var vs := EvalCases(cs, r.st);
      if vs.LExc? then Fail(vs.x, vs.st)
      else
        (match SelectedCase(cs, vs.vs, r.v)
         case None => Norm(vs.st)
         case Some(k) => ExecCase(cs, k, vs.st, fuel))
    case While(c, body) =>
      var r := Eval(c, st);
      if r.Exc? then Fail(r.x, r.st)
      else if !r.v.Bool? then Fail(BoolExpected, r.st)
      else if !r.v.b then Norm(r.st)
      else if fuel == 0 then Timeout(0)
      else
        (match ExecBlock(body, r.st, fuel)
         case Norm(st1) => Tick(Exec(s, st1, fuel - 1))
         case Cnt(st1) => Tick(Exec(s, st1, fuel - 1))
         case Brk(st1) => Norm(st1)
         case other => other)
    case DoWhile(body, c) =>
      if fuel == 0 then Timeout(0) else
      var b := ExecBlock(body, st, fuel);
      if b.Brk? then Norm(b.st)
      else if b.Fail? || b.Timeout? then b
      else
        var r := Eval(c, b.st);
        if r.Exc? then Fail(r.x, r.st)
        else if !r.v.Bool? then Fail(BoolExpected, r.st)
        else if r.v.b then Tick(Exec(s, r.st, fuel - 1)) else Norm(r.st)
    case For(site, n, coll, body) =>
      var r := Eval(coll, ResetIterator(st, site, n));
      if r.Exc? then Fail(r.x, r.st) else
      (match Iterate(r.v)
       case Ok(vs) => ExecFor(site, n, body, vs, r.st, fuel)
       case Err(x) => Fail(x, r.st))
    case Break => Brk(st)
    case Continue => Cnt(st)
    case Assert(c, msg, line) =>
      var r := Eval(c, st);
      if r.Exc? then Fail(r.x, r.st) else
      var m := if msg.Some? then Eval(msg.value, r.st) else Val(Str(""), r.st);
      if m.Exc? then Fail(m.x, m.st)
      else if !r.v.Bool? then Fail(BoolExpected, m.st)
      else if !r.v.b then Fail(AssertionError(m.v, line), m.st)
      else Norm(m.st)
    case Raise(e) =>
      var r := Eval(e, st);
      if r.Exc? then Fail(r.x, r.st) else Fail(Thrown(r.v), r.st)
  }

  function ExecBlock(b: List<Stmt>, st: State, fuel: nat): SResult
    decreases fuel, b, 0
  {
    match b
    case Empty => Norm(st)
    case Cons(s, rest) =>
      (match Exec(s, st, fuel)
       case Norm(st1) => ExecBlock(rest, st1, fuel)
       case other => other)
  }

  /** Runs the body of case number `k`. */
  function ExecCase(cs: List<Case>, k: nat, st: State, fuel: nat): SResult
    decreases fuel, cs, 0
  {
    match cs
    case Empty => Norm(st)
    case Cons(c, rest) =>
      if k == 0 then ExecBlock(c.body, st, fuel) else ExecCase(rest, k - 1, st, fuel)
  }

  function ExecFor(site: nat, n: string, body: List<Stmt>, vs: seq<Value>, st: State, fuel: nat): SResult
    decreases fuel, body, 1, |vs|
  {
    if vs == [] then Norm(st)
    else
      match ExecBlock(body, BindIterator(st, site, n, vs[0]), fuel)
      case Norm(st1) => ExecFor(site, n, body, vs[1..], st1, fuel)
      case Cnt(st1) => ExecFor(site, n, body, vs[1..], st1, fuel)
      case Brk(st1) => Norm(st1)
      case other => other
  }

  // ----- what is read -----

  /** The variables an expression reads. */
  function Reads(e: Expr): set<string> {
    match e
    case ListLit(es) => AllReads(es)
    case Variable(n) => {n}
    case Binary(_, l, r) => Reads(l) + Reads(r)
    case Short(_, l, r) => Reads(l) + Reads(r)
    case Unary(_, x) => Reads(x)
    case Ternary(a, b, d) => Reads(a) + Reads(b) + Reads(d)
    case Set(_, x) => Reads(x)
    case SetOp(_, n, x) => {n} + Reads(x)
    case _ => {}
  }

  function AllReads(es: List<Expr>): set<string> {
    match es
    case Empty => {}
    case Cons(e, rest) => Reads(e) + AllReads(rest)
  }

  // ----- loops as sites -----

  function StmtSites(s: Stmt): set<nat> {
    match s
    case If(_, body, orelse) => BlockSites(body) + (if orelse.Some? then BlockSites(orelse.value) else {})
    case Switch(_, cs) => CaseSites(cs)
    case While(_, body) => BlockSites(body)
    case DoWhile(body, _) => BlockSites(body)
    case For(site, _, _, body) => {site} + BlockSites(body)
    case _ => {}
  }

  function BlockSites(b: List<Stmt>): set<nat> {
    match b
    case Empty => {}
    case Cons(s, rest) => StmtSites(s) + BlockSites(rest)
  }

  function CaseSites(cs: List<Case>): set<nat> {
    match cs
    case Empty => {}
    case Cons(c, rest) => BlockSites(c.body) + CaseSites(rest)
  }

  /** Every `for` loop is its own site: no two of them share a number. */
  predicate DistinctStmt(s: Stmt) {
    match s
    case If(_, body, orelse) =>
      && DistinctBlock(body)
      && (orelse.Some? ==> DistinctBlock(orelse.value) && BlockSites(body) !! BlockSites(orelse.value))
    case Switch(_, cs) => DistinctCases(cs)
    case While(_, body) => DistinctBlock(body)
    case DoWhile(body, _) => DistinctBlock(body)
    case For(site, _, _, body) => DistinctBlock(body) && site !in BlockSites(body)
    case _ => true
  }

  predicate DistinctBlock(b: List<Stmt>) {
    match b
    case Empty => true
    case Cons(s, rest) => DistinctStmt(s) && DistinctBlock(rest) && StmtSites(s) !! BlockSites(rest)
  }

  predicate DistinctCases(cs: List<Case>) {
    match cs
    case Empty => true
    case Cons(c, rest) => DistinctBlock(c.body) && DistinctCases(rest) && BlockSites(c.body) !! CaseSites(rest)
  }
}

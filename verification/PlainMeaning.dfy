/** What a program is supposed to do, independently of the code generated for it. A `for` loop assigns its
    variable the elements of its collection, one after another; without elements it leaves the variable
    alone. */
module PlainMeaning {
  import opened Lists
  import opened Values
  import opened Ir

  /** One statement, with `fuel` bounding the number of repetitions of a `while` or `do` loop. */
  function Run(s: Stmt, st: State, fuel: nat): SResult
    decreases fuel, s, 0
  {
    match s
    case ExprStmt(e) =>
      var r := Eval(e, st);
      if r.Exc? then Fail(r.x, r.st)
      else Norm(if IsSilent(e) then r.st else Output(r.st, r.v))
    case SilentStmt(e) =>
      var r := Eval(e, st);
      if r.Exc? then Fail(r.x, r.st) else Norm(r.st)
    case If(c, body, orelse) =>
      var r := Eval(c, st);
      if r.Exc? then Fail(r.x, r.st)
      else if !r.v.Bool? then Fail(BoolExpected, r.st)
      else if r.v.b then RunBlock(body, r.st, fuel)
      else (match orelse
            case None => Norm(r.st)
            case Some(b) => RunBlock(b, r.st, fuel))
    case Switch(c, cs) =>
      var r := Eval(c, st);
      if r.Exc? then Fail(r.x, r.st) else
      var vs := EvalCases(cs, r.st);
      if vs.LExc? then Fail(vs.x, vs.st)
      else
        (match SelectedCase(cs, vs.vs, r.v)
         case None => Norm(vs.st)
         case Some(k) => RunCase(cs, k, vs.st, fuel))
    case While(c, body) =>
      var r := Eval(c, st);
      if r.Exc? then Fail(r.x, r.st)
      else if !r.v.Bool? then Fail(BoolExpected, r.st)
      else if !r.v.b then Norm(r.st)
      else if fuel == 0 then Timeout(0)
      else
        (match RunBlock(body, r.st, fuel)
         case Norm(st1) => Tick(Run(s, st1, fuel - 1))
         case Cnt(st1) => Tick(Run(s, st1, fuel - 1))
         case Brk(st1) => Norm(st1)
         case other => other)
    case DoWhile(body, c) =>
      if fuel == 0 then Timeout(0) else
      var b := RunBlock(body, st, fuel);
      if b.Brk? then Norm(b.st)
      else if b.Fail? || b.Timeout? then b
      else
        var r := Eval(c, b.st);
        if r.Exc? then Fail(r.x, r.st)
        else if !r.v.Bool? then Fail(BoolExpected, r.st)
        else if r.v.b then Tick(Run(s, r.st, fuel - 1)) else Norm(r.st)
    case For(_, n, coll, body) =>
      var r := Eval(coll, st);
      if r.Exc? then Fail(r.x, r.st) else
      (match Iterate(r.v)
       case Ok(vs) => RunEach(n, body, vs, r.st, fuel)
       case Err(x) => Fail(x, r.st))
    case Break => Brk(st)
    case Continue => Cnt(st)
    case Assert(c, msg, line) =>
      var r := Eval(c, st);
      if r.Exc? then Fail(r.x, r.st) else
      var m := if msg.Some? then Eval(msg.value, r.st) else Val(Str(""), r.st);
      if m.Exc? then Fail(m.x, m.st)
      else if !r.v.Bool? then Fail(BoolExpected, m.st)
      else if !r.v.b then Fail(AssertionError(m.v, line), m.st)
      else Norm(m.st)
    case Raise(e) =>
      var r := Eval(e, st);
      if r.Exc? then Fail(r.x, r.st) else Fail(Thrown(r.v), r.st)
  }

  function RunBlock(b: List<Stmt>, st: State, fuel: nat): SResult
    decreases fuel, b, 0
  {
    match b
    case Empty => Norm(st)
    case Cons(s, rest) =>
      (match Run(s, st, fuel)
       case Norm(st1) => RunBlock(rest, st1, fuel)
       case other => other)
  }

  /** Runs the body of case number `k`. */
  function RunCase(cs: List<Case>, k: nat, st: State, fuel: nat): SResult
    decreases fuel, cs, 0
  {
    match cs
    case Empty => Norm(st)
    case Cons(c, rest) =>
      if k == 0 then RunBlock(c.body, st, fuel) else RunCase(rest, k - 1, st, fuel)
  }

  function RunEach(n: string, body: List<Stmt>, vs: seq<Value>, st: State, fuel: nat): SResult
    decreases fuel, body, 1, |vs|
  {
    if vs == [] then Norm(st)
    else
      match RunBlock(body, Assign(st, n, vs[0]), fuel)
      case Norm(st1) => RunEach(n, body, vs[1..], st1, fuel)
      case Cnt(st1) => RunEach(n, body, vs[1..], st1, fuel)
      case Brk(st1) => Norm(st1)
      case other => other
  }
}

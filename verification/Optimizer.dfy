/** The optimizing passes over the intermediate representation (midend/transforms, driven by
    midend/ir_visitor.cpp in the order of midend/ir_pipeline.cpp): dead code elimination, constant
    folding and dead branch elimination. They keep what every program means. */
module Optimizer {
  import opened Lists
  import opened Values
  import opened Ir
  import Text

  // ----- constant folding -----

  /** What folding an operator over two literals does. Dividing two integers is done with the C++
      operator, which has no defined result for a zero divisor. */
  datatype Folding = Keep | Folded(lit: Literal) | Undefined

  function LiteralText(l: Literal): string {
    match l
    case IntLiteral(i) => Text.Decimal(i)
    case BoolLiteral(b) => if b then "true" else "false"
    case StringLiteral(s) => s
    case NilLiteral => "nil"
  }

  function FoldInts(op: BinOp, l: int, r: int): Folding {
    match op
    case Add => Folded(IntLiteral(l + r))
    case Sub => Folded(IntLiteral(l - r))
    case Mul => Folded(IntLiteral(l * r))
    case Div => if r == 0 then Undefined else Folded(IntLiteral(TruncDiv(l, r)))
    case Mod => if r == 0 then Undefined else Folded(IntLiteral(TruncMod(l, r)))
    case And => Folded(IntLiteral(Bitwise(BitAnd, l, r)))
    case Or => Folded(IntLiteral(Bitwise(BitOr, l, r)))
    case Xor => Folded(IntLiteral(Bitwise(BitXor, l, r)))
    case Bt => Folded(BoolLiteral(l > r))
    case Lt => Folded(BoolLiteral(l < r))
    case Beq => Folded(BoolLiteral(l >= r))
    case Leq => Folded(BoolLiteral(l <= r))
    case Eq => Folded(BoolLiteral(l == r))
    case Neq => Folded(BoolLiteral(l != r))
    case _ => Keep
  }

  function FoldBools(op: BinOp, l: bool, r: bool): Folding {
    match op
    case And => Folded(BoolLiteral(l && r))
    case Or => Folded(BoolLiteral(l || r))
    case Xor => Folded(BoolLiteral(l != r))
    case Eq => Folded(BoolLiteral(l == r))
    case Neq => Folded(BoolLiteral(l != r))
    case _ => Keep
  }

  function FoldStrings(op: BinOp, l: string, r: string): Folding {
    match op
    case Bt => Folded(BoolLiteral(StrLess(r, l)))
    case Lt => Folded(BoolLiteral(StrLess(l, r)))
    case Beq => Folded(BoolLiteral(!StrLess(l, r)))
    case Leq => Folded(BoolLiteral(!StrLess(r, l)))
    case Eq => Folded(BoolLiteral(l == r))
    case Neq => Folded(BoolLiteral(l != r))
    case In => Folded(BoolLiteral(Contains(r, l)))
    case _ => Keep
  }

  function FoldBinary(op: BinOp, l: Literal, r: Literal): Folding {
    if op.Concat? then Folded(StringLiteral(LiteralText(l) + LiteralText(r)))
    else if l.IntLiteral? && r.IntLiteral? then FoldInts(op, l.i, r.i)
    else if l.BoolLiteral? && r.BoolLiteral? then FoldBools(op, l.b, r.b)
    else if l.StringLiteral? && r.StringLiteral? then FoldStrings(op, l.s, r.s)
    else if l.StringLiteral? && r.IntLiteral? && op.Mul? then
      Folded(StringLiteral(if r.i <= 0 || l.s == "" then "" else Repeat(l.s, r.i)))
    else if l.StringLiteral? && r.IntLiteral? && op.Subsc? then
      // left for the interpreter to raise when out of bounds
      if StrOob(l.s, r.i) then Keep else Folded(StringLiteral(StrIndex(l.s, r.i)))
    else if op.Eq? && Kind(l) != Kind(r) then Folded(BoolLiteral(false))
    else if op.Neq? && Kind(l) != Kind(r) then Folded(BoolLiteral(true))
    else Keep
  }

  function Kind(l: Literal): nat {
    match l
    case IntLiteral(_) => 0
    case BoolLiteral(_) => 1
    case StringLiteral(_) => 2
    case NilLiteral => 3
  }

  function FoldUnary(isNot: bool, l: Literal): Folding {
    if l.IntLiteral? && !isNot then Folded(IntLiteral(-l.i))
    else if l.BoolLiteral? && isNot then Folded(BoolLiteral(!l.b))
    else Keep
  }

  lemma {:induction false} RepeatEmpty(n: int)
    ensures Repeat("", n) == ""
    decreases if n < 0 then 0 else n
  {
    if n > 0 {
      RepeatEmpty(n - 1);
    }
  }

  /** A folding and the interpreter's result: undefined exactly where the interpreter raises a
      division by zero. */
  predicate Agrees(f: Folding, r: Result<Value, Exn>) {
    match f
    case Keep => r != Err(DivisionByZero)
    case Folded(v) => r == Ok(LitVal(v))
    case Undefined => r == Err(DivisionByZero)
  }

  lemma {:induction false} FoldIntsAgrees(op: BinOp, l: int, r: int)
    requires !op.Concat?
    ensures Agrees(FoldInts(op, l, r), Apply(op, Int(l), Int(r)))
  {
    hide TruncDiv, TruncMod, Bitwise, Repeat;
  }

  lemma {:induction false} FoldBoolsAgrees(op: BinOp, l: bool, r: bool)
    requires !op.Concat?
    ensures Agrees(FoldBools(op, l, r), Apply(op, Bool(l), Bool(r)))
  {
    hide TruncDiv, TruncMod, Bitwise, Repeat;
  }

  lemma {:induction false} FoldStringsAgrees(op: BinOp, l: string, r: string)
    requires !op.Concat?
    ensures Agrees(FoldStrings(op, l, r), Apply(op, Str(l), Str(r)))
  {
    hide StrLess, Contains, Repeat;
  }

  lemma {:induction false} FoldMixedAgrees(op: BinOp, l: Literal, r: Literal)
    requires !op.Concat? && (Kind(l) != Kind(r) || l.NilLiteral?)
    ensures Agrees(FoldBinary(op, l, r), Apply(op, LitVal(l), LitVal(r)))
  {
    hide TruncDiv, TruncMod, Bitwise, StrLess, Contains, StrIndex, StrOob;
    if l.StringLiteral? && r.IntLiteral? && l.s == "" {
      RepeatEmpty(r.i);
    }
  }

  lemma {:induction false} FoldConcatAgrees(l: Literal, r: Literal)
    ensures Agrees(FoldBinary(Concat, l, r), Apply(Concat, LitVal(l), LitVal(r)))
  {
    hide Text.Decimal;
  }

  /** Folding agrees with the interpreter on every pair of literals. */
  lemma {:induction false} FoldAgrees(op: BinOp, l: Literal, r: Literal)
    ensures Agrees(FoldBinary(op, l, r), Apply(op, LitVal(l), LitVal(r)))
  {
    hide Apply, FoldInts, FoldBools, FoldStrings, Agrees;
    if op.Concat? {
      FoldConcatAgrees(l, r);
    } else if l.IntLiteral? && r.IntLiteral? {
      FoldIntsAgrees(op, l.i, r.i);
    } else if l.BoolLiteral? && r.BoolLiteral? {
      FoldBoolsAgrees(op, l.b, r.b);
    } else if l.StringLiteral? && r.StringLiteral? {
      FoldStringsAgrees(op, l.s, r.s);
    } else {
      FoldMixedAgrees(op, l, r);
    }
  }

  // ----- expressions -----

  /** Rewrites an expression; None when the pass itself has no defined behaviour. */
  function OptExpr(e: Expr): Option<Expr>
  {
    match e
    case ListLit(es) =>
      (match OptExprs(es)
       case Some(es') => Some(ListLit(es'))
       case None => None)
    case Binary(op, l, r) =>
      var l', r' := OptExpr(l), OptExpr(r);
      if l'.None? || r'.None? then None
      else if l'.value.Lit? && r'.value.Lit? then
        (match FoldBinary(op, l'.value.lit, r'.value.lit)
         case Folded(v) => Some(Lit(v))
         case Undefined => None
         case Keep => Some(Binary(op, l'.value, r'.value)))
      else Some(Binary(op, l'.value, r'.value))
    case Short(isAnd, l, r) =>
      var l', r' := OptExpr(l), OptExpr(r);
      if l'.None? || r'.None? then None
      else if IsBool(l'.value) && IsBool(r'.value) then
        var a, b := l'.value.lit.b, r'.value.lit.b;
        Some(Lit(BoolLiteral(if isAnd then a && b else a || b)))
      else Some(Short(isAnd, l'.value, r'.value))
    case Unary(isNot, x) =>
      var x' := OptExpr(x);
      if x'.None? then None
      else if x'.value.Lit? && FoldUnary(isNot, x'.value.lit).Folded? then
        Some(Lit(FoldUnary(isNot, x'.value.lit).lit))
      else Some(Unary(isNot, x'.value))
    case Ternary(c, t, f) =>
      var c', t', f' := OptExpr(c), OptExpr(t), OptExpr(f);
      if c'.None? || t'.None? || f'.None? then None else Some(Ternary(c'.value, t'.value, f'.value))
    case Set(n, x) =>
      var x' := OptExpr(x);
      if x'.None? then None else Some(Set(n, x'.value))
    case SetOp(op, n, x) =>
      var x' := OptExpr(x);
      if x'.None? then None else Some(SetOp(op, n, x'.value))
    case _ => Some(e)
  }

  function OptExprs(es: List<Expr>): Option<List<Expr>> {
    match es
    case Empty => Some(Empty)
    case Cons(e, rest) =>
      var e', rest' := OptExpr(e), OptExprs(rest);
      if e'.None? || rest'.None? then None else Some(Cons(e'.value, rest'.value))
  }

  predicate IsBool(e: Expr) {
    e.Lit? && e.lit.BoolLiteral?
  }

  // ----- statements -----

  function StmtSize(s: Stmt): nat {
    match s
    case If(_, body, orelse) => 1 + BlockSize(body) + (if orelse.Some? then BlockSize(orelse.value) else 0)
    case Switch(_, cs) => 1 + CasesSize(cs)
    case While(_, body) => 1 + BlockSize(body)
    case DoWhile(body, _) => 1 + BlockSize(body)
    case For(_, _, _, body) => 1 + BlockSize(body)
    case _ => 1
  }

  function BlockSize(b: List<Stmt>): nat {
    match b
    case Empty => 0
    case Cons(s, rest) => 1 + StmtSize(s) + BlockSize(rest)
  }

  function CasesSize(cs: List<Case>): nat {
    match cs
    case Empty => 0
    case Cons(k, rest) => 1 + BlockSize(k.body) + CasesSize(rest)
  }

  /** `eliminate_code_after_break_continue`. */
  function Truncate(b: List<Stmt>): (t: List<Stmt>)
    ensures BlockSize(t) <= BlockSize(b)
  {
    match b
    case Empty => Empty
    case Cons(s, rest) => if s.Break? || s.Continue? then Cons(s, Empty) else Cons(s, Truncate(rest))
  }

  /** The three passes, once, on one statement node; None deletes it. */
  function Passes(s: Stmt): (t: Option<Stmt>)
    ensures t.Some? ==> StmtSize(t.value) <= StmtSize(s)
  {
    match s
    case SilentStmt(e) => if e.Lit? then None else Some(s)
    case If(c, body, orelse) =>
      var body' := Truncate(body);
      if !IsBool(c) then Some(If(c, body', orelse))
      else if c.lit.b then Some(If(c, body', None))
      else if orelse.None? then None
      else Some(If(Lit(BoolLiteral(true)), orelse.value, None))
    case While(c, body) =>
      if IsBool(c) && !c.lit.b then None else Some(While(c, Truncate(body)))
    case DoWhile(body, c) => Some(DoWhile(Truncate(body), c))
    case For(site, n, coll, body) => Some(For(site, n, coll, Truncate(body)))
    case _ => Some(s)
  }

  /** A statement node: the passes, then its parts, then the passes again. The result is the list
      that takes the statement's place: empty or of one statement. */
  function OptStmt(s: Stmt): Option<List<Stmt>>
    decreases StmtSize(s), 1
  {
    match Passes(s)
    case None => Some(Empty)
    case Some(s1) =>
      var s2 := OptParts(s1);
      if s2.None? then None
      else if s2.value.For? then Some(Cons(s2.value, Empty))
      else
        match Passes(s2.value)
        case None => Some(Empty)
        case Some(s3) => Some(Cons(s3, Empty))
  }

  function OptParts(s: Stmt): Option<Stmt>
    decreases StmtSize(s), 0
  {
    match s
    case ExprStmt(e) =>
      var e' := OptExpr(e);
      if e'.None? then None else Some(ExprStmt(e'.value))
    case SilentStmt(e) =>
      var e' := OptExpr(e);
      if e'.None? then None else Some(SilentStmt(e'.value))
    case If(c, body, orelse) =>
      var c', body' := OptExpr(c), OptBlock(body);
      if c'.None? || body'.None? then None
      else if orelse.None? then Some(If(c'.value, body'.value, None))
      else
        var e' := OptBlock(Truncate(orelse.value));
        if e'.None? then None else Some(If(c'.value, body'.value, Some(Truncate(e'.value))))
    case Switch(c, cs) =>
      var c', cs' := OptExpr(c), OptCases(cs);
      if c'.None? || cs'.None? then None else Some(Stmt.Switch(c'.value, cs'.value))
    case While(c, body) =>
      var c', body' := OptExpr(c), OptBlock(body);
      if c'.None? || body'.None? then None else Some(While(c'.value, body'.value))
    case DoWhile(body, c) =>
      var body', c' := OptBlock(body), OptExpr(c);
      if c'.None? || body'.None? then None else Some(DoWhile(body'.value, c'.value))
    case For(site, n, coll, body) =>
      var c', body' := OptExpr(coll), OptBlock(body);
      if c'.None? || body'.None? then None else Some(For(site, n, c'.value, body'.value))
    case Assert(c, msg, line) =>
      var c' := OptExpr(c);
      if c'.None? then None
      else if msg.None? then Some(Assert(c'.value, None, line))
      else
        var m' := OptExpr(msg.value);
        if m'.None? then None else Some(Assert(c'.value, Some(m'.value), line))
    case Raise(e) =>
      var e' := OptExpr(e);
      if e'.None? then None else Some(Raise(e'.value))
    case Break => Some(s)
    case Continue => Some(s)
  }

  function OptBlock(b: List<Stmt>): Option<List<Stmt>>
    decreases BlockSize(b), 0
  {
    match b
    case Empty => Some(Empty)
    case Cons(s, rest) =>
      var s', rest' := OptStmt(s), OptBlock(rest);
      if s'.None? || rest'.None? then None else Some(Append(s'.value, rest'.value))
  }

  function OptCases(cs: List<Case>): Option<List<Case>>
    decreases CasesSize(cs), 0
  {
    match cs
    case Empty => Some(Empty)
    case Cons(k, rest) =>
      var k', rest' := OptCase(k), OptCases(rest);
      if k'.None? || rest'.None? then None else Some(Cons(k'.value, rest'.value))
  }

  function OptCase(k: Case): Option<Case>
    decreases BlockSize(k.body), 1
  {
    var body := OptBlock(Truncate(k.body));
    if body.None? then None
    else
      match k
      case Default(_) => Some(Default(Truncate(body.value)))
      case Case(es, _) =>
        var es' := OptExprs(es);
        if es'.None? then None else Some(Case(es'.value, Truncate(body.value)))
  }

  // ----- the meaning of expressions is kept -----

  lemma {:induction false} OptExprKeeps(e: Expr, st: State)
    ensures OptExpr(e).Some? ==> Eval(OptExpr(e).value, st) == Eval(e, st)
    decreases e
  {
    if OptExpr(e).Some? {
      match e
      case ListLit(es) => OptExprsKeep(es, st);
      case Binary(op, l, r) => OptBinaryKeeps(op, l, r, st);
      case Short(isAnd, l, r) =>
        OptExprKeeps(l, st);
        if Eval(l, st).Val? { OptExprKeeps(r, Eval(l, st).st); }
      case Unary(isNot, x) => OptExprKeeps(x, st);
      case Ternary(c, t, f) =>
        OptExprKeeps(c, st);
        if Eval(c, st).Val? { OptExprKeeps(t, Eval(c, st).st); OptExprKeeps(f, Eval(c, st).st); }
      case Set(n, x) => OptExprKeeps(x, st);
      case SetOp(op, n, x) => OptExprKeeps(x, st);
      case _ =>
    }
  }

  lemma OptBinaryKeeps(op: BinOp, l: Expr, r: Expr, st: State)
    requires OptExpr(Binary(op, l, r)).Some?
    ensures Eval(OptExpr(Binary(op, l, r)).value, st) == Eval(Binary(op, l, r), st)
    decreases Binary(op, l, r), 0
  {
    hide FoldBinary, Apply;
    OptExprKeeps(l, st);
    var a := Eval(l, st);
    if a.Val? {
      OptExprKeeps(r, a.st);
    }
    var l', r' := OptExpr(l).value, OptExpr(r).value;
    if l'.Lit? && r'.Lit? {
      FoldAgrees(op, l'.lit, r'.lit);
    }
  }

  lemma {:induction false} OptExprsKeep(es: List<Expr>, st: State)
    ensures OptExprs(es).Some? ==> EvalAll(OptExprs(es).value, st) == EvalAll(es, st)
    decreases es
  {
    if es.Cons? && OptExprs(es).Some? {
      OptExprKeeps(es.head, st);
      if Eval(es.head, st).Val? {
        OptExprsKeep(es.tail, Eval(es.head, st).st);
      }
    }
  }

  // ----- the meaning of statements is kept -----

  ghost predicate SameExpr(e: Expr, e': Expr) {
    forall st :: Eval(e', st) == Eval(e, st)
  }

  ghost predicate SameBlock(b: List<Stmt>, b': List<Stmt>) {
    forall st, fuel :: ExecBlock(b', st, fuel) == ExecBlock(b, st, fuel)
  }

  lemma SameOptExpr(e: Expr)
    requires OptExpr(e).Some?
    ensures SameExpr(e, OptExpr(e).value)
  {
    forall st ensures Eval(OptExpr(e).value, st) == Eval(e, st) {
      OptExprKeeps(e, st);
    }
  }

  lemma {:induction false} TruncateKeeps(b: List<Stmt>, st: State, fuel: nat)
    ensures ExecBlock(Truncate(b), st, fuel) == ExecBlock(b, st, fuel)
    decreases b
  {
    if b.Cons? && !b.head.Break? && !b.head.Continue? {
      hide Exec;
      var r := Exec(b.head, st, fuel);
      if r.Norm? {
        TruncateKeeps(b.tail, r.st, fuel);
      }
    }
  }

  lemma SameTruncate(b: List<Stmt>)
    ensures SameBlock(b, Truncate(b))
  {
    forall st, fuel ensures ExecBlock(Truncate(b), st, fuel) == ExecBlock(b, st, fuel) {
      TruncateKeeps(b, st, fuel);
    }
  }

  // A loop keeps its meaning when its parts do.

  /** A `while` loop with its condition evaluated. */
  function WhileRun(c: Expr, body: List<Stmt>, r: EResult, fuel: nat): SResult {
    if r.Exc? then Fail(r.x, r.st)
    else if !r.v.Bool? then Fail(BoolExpected, r.st)
    else if !r.v.b then Norm(r.st)
    else if fuel == 0 then Timeout(0)
    else
      (match ExecBlock(body, r.st, fuel)
       case Norm(st1) => Tick(Exec(While(c, body), st1, fuel - 1))
       case Cnt(st1) => Tick(Exec(While(c, body), st1, fuel - 1))
       case Brk(st1) => Norm(st1)
       case other => other)
  }

  lemma {:induction false} WhileUnfold(c: Expr, body: List<Stmt>, st: State, fuel: nat)
    ensures Exec(While(c, body), st, fuel) == WhileRun(c, body, Eval(c, st), fuel)
  {
    hide ExecBlock, Eval;
  }

  lemma {:induction false} WhileKeeps(c: Expr, c': Expr, body: List<Stmt>, body': List<Stmt>, st: State, fuel: nat)
    requires SameExpr(c, c') && SameBlock(body, body')
    ensures Exec(While(c', body'), st, fuel) == Exec(While(c, body), st, fuel)
    decreases fuel
  {
    hide Exec, ExecBlock, Eval;
    WhileUnfold(c, body, st, fuel);
    WhileUnfold(c', body', st, fuel);
    var r := Eval(c, st);
    assert Eval(c', st) == r;
    if r.Val? && r.v == Bool(true) && fuel > 0 {
      var b := ExecBlock(body, r.st, fuel);
      assert ExecBlock(body', r.st, fuel) == b;
      if b.Norm? || b.Cnt? {
        WhileKeeps(c, c', body, body', b.st, fuel - 1);
      }
    }
  }

  /** A `do`-`while` loop with its body run. */
  function DoWhileRun(body: List<Stmt>, c: Expr, b: SResult, fuel: nat): SResult
    requires fuel > 0
  {
    if b.Brk? then Norm(b.st)
    else if b.Fail? || b.Timeout? then b
    else
      var r := Eval(c, b.st);
      if r.Exc? then Fail(r.x, r.st)
      else if !r.v.Bool? then Fail(BoolExpected, r.st)
      else if r.v.b then Tick(Exec(DoWhile(body, c), r.st, fuel - 1)) else Norm(r.st)
  }

  lemma {:induction false} DoWhileUnfold(body: List<Stmt>, c: Expr, st: State, fuel: nat)
    ensures Exec(DoWhile(body, c), st, fuel)
         == if fuel == 0 then Timeout(0) else DoWhileRun(body, c, ExecBlock(body, st, fuel), fuel)
  {
    hide ExecBlock, Eval;
  }

  lemma {:induction false} DoWhileKeeps(c: Expr, c': Expr, body: List<Stmt>, body': List<Stmt>, st: State, fuel: nat)
    requires SameExpr(c, c') && SameBlock(body, body')
    ensures Exec(DoWhile(body', c'), st, fuel) == Exec(DoWhile(body, c), st, fuel)
    decreases fuel
  {
    hide Exec, ExecBlock, Eval;
    DoWhileUnfold(body, c, st, fuel);
    DoWhileUnfold(body', c', st, fuel);
    if fuel > 0 {
      var b := ExecBlock(body, st, fuel);
      assert ExecBlock(body', st, fuel) == b;
      if b.Norm? || b.Cnt? {
        var r := Eval(c, b.st);
        assert Eval(c', b.st) == r;
        if r.Val? && r.v == Bool(true) {
          DoWhileKeeps(c, c', body, body', r.st, fuel - 1);
        }
      }
    }
  }

  lemma {:induction false} ForKeeps(site: nat, n: string, body: List<Stmt>, body': List<Stmt>, vs: seq<Value>, st: State, fuel: nat)
    requires SameBlock(body, body')
    ensures ExecFor(site, n, body', vs, st, fuel) == ExecFor(site, n, body, vs, st, fuel)
    decreases |vs|
  {
    if vs != [] {
      var st1 := BindIterator(st, site, n, vs[0]);
      var b := ExecBlock(body, st1, fuel);
      assert ExecBlock(body', st1, fuel) == b;
      if b.Norm? || b.Cnt? {
        ForKeeps(site, n, body, body', vs[1..], b.st, fuel);
      }
    }
  }

  /** A `for` loop with its collection evaluated. */
  function ForRun(site: nat, n: string, r: EResult, body: List<Stmt>, fuel: nat): SResult {
    if r.Exc? then Fail(r.x, r.st)
    else if Iterate(r.v).Err? then Fail(Iterate(r.v).error, r.st)
    else ExecFor(site, n, body, Iterate(r.v).value, r.st, fuel)
  }

  lemma ForUnfold(site: nat, n: string, c: Expr, body: List<Stmt>, st: State, fuel: nat)
    ensures Exec(For(site, n, c, body), st, fuel) == ForRun(site, n, Eval(c, ResetIterator(st, site, n)), body, fuel)
  {
    hide ExecFor, ExecBlock, Eval, Iterate, ResetIterator;
  }

  lemma ForStmtKeeps(site: nat, n: string, c: Expr, c': Expr, body: List<Stmt>, body': List<Stmt>, st: State, fuel: nat)
    requires SameExpr(c, c') && SameBlock(body, body')
    ensures Exec(For(site, n, c', body'), st, fuel) == Exec(For(site, n, c, body), st, fuel)
  {
    hide Exec, Eval, ExecFor, SameBlock, Iterate;
    ForUnfold(site, n, c, body, st, fuel);
    ForUnfold(site, n, c', body', st, fuel);
    var r := Eval(c, ResetIterator(st, site, n));
    if r.Val? && Iterate(r.v).Ok? {
      ForKeeps(site, n, body, body', Iterate(r.v).value, r.st, fuel);
    }
  }

  lemma IfKeeps(c: Expr, c': Expr, body: List<Stmt>, body': List<Stmt>, orelse: Option<List<Stmt>>, orelse': Option<List<Stmt>>,
                st: State, fuel: nat)
    requires SameExpr(c, c') && SameBlock(body, body') && orelse.Some? == orelse'.Some?
    requires orelse.Some? ==> SameBlock(orelse.value, orelse'.value)
    ensures Exec(If(c', body', orelse'), st, fuel) == Exec(If(c, body, orelse), st, fuel)
  {
    var r := Eval(c, st);
    assert Eval(c', st) == r;
    if r.Val? {
      assert ExecBlock(body', r.st, fuel) == ExecBlock(body, r.st, fuel);
      if orelse.Some? {
        assert ExecBlock(orelse'.value, r.st, fuel) == ExecBlock(orelse.value, r.st, fuel);
      }
    }
  }

  /** One round of the passes on a node keeps its meaning; a deleted node did nothing. */
  lemma PassesKeep(s: Stmt, st: State, fuel: nat)
    ensures match Passes(s)
            case None => Exec(s, st, fuel) == Norm(st)
            case Some(t) => Exec(t, st, fuel) == Exec(s, st, fuel)
  {
    match s
    case If(c, body, orelse) => TruncateKeeps(body, Eval(c, st).st, fuel);
    case While(c, body) =>
      SameTruncate(body);
      WhileKeeps(c, c, body, Truncate(body), st, fuel);
    case DoWhile(body, c) =>
      SameTruncate(body);
      DoWhileKeeps(c, c, body, Truncate(body), st, fuel);
    case For(site, n, coll, body) =>
      SameTruncate(body);
      ForStmtKeeps(site, n, coll, coll, body, Truncate(body), st, fuel);
    case _ =>
  }

  lemma SameOptBlock(b: List<Stmt>)
    requires OptBlock(b).Some?
    ensures SameBlock(b, OptBlock(b).value)
    decreases BlockSize(b), 1
  {
    forall st, fuel ensures ExecBlock(OptBlock(b).value, st, fuel) == ExecBlock(b, st, fuel) {
      OptBlockKeeps(b, st, fuel);
    }
  }

  /** A body that is truncated, optimized and truncated again. */
  lemma SameBody(b: List<Stmt>)
    requires OptBlock(Truncate(b)).Some?
    ensures SameBlock(b, Truncate(OptBlock(Truncate(b)).value))
    decreases BlockSize(b), 2
  {
    hide ExecBlock;
    SameTruncate(b);
    SameOptBlock(Truncate(b));
    SameTruncate(OptBlock(Truncate(b)).value);
    var t, u := Truncate(b), OptBlock(Truncate(b)).value;
    forall st, fuel ensures ExecBlock(Truncate(u), st, fuel) == ExecBlock(b, st, fuel) {
      assert ExecBlock(Truncate(u), st, fuel) == ExecBlock(u, st, fuel);
      assert ExecBlock(u, st, fuel) == ExecBlock(t, st, fuel);
      assert ExecBlock(t, st, fuel) == ExecBlock(b, st, fuel);
    }
  }

  lemma OptPartsKeep(s: Stmt, st: State, fuel: nat)
    requires OptParts(s).Some?
    ensures Exec(OptParts(s).value, st, fuel) == Exec(s, st, fuel)
    decreases StmtSize(s), 3
  {
    hide OptExpr, OptBlock, OptCases, Truncate, Eval, ExecBlock, SameExpr, SameBlock, ExecFor;
    match s
    case ExprStmt(e) =>
      OptExprKeeps(e, st);
      OptSilence(e);
    case SilentStmt(e) => OptExprKeeps(e, st);
    case If(c, body, orelse) =>
      SameOptExpr(c);
      SameOptBlock(body);
      if orelse.Some? {
        SameBody(orelse.value);
      }
      var t := OptParts(s).value;
      IfKeeps(c, t.cond, body, t.body, orelse, t.orelse, st, fuel);
    case Switch(c, cs) => OptSwitchKeeps(s, st, fuel);
    case While(c, body) =>
      SameOptExpr(c);
      SameOptBlock(body);
      WhileKeeps(c, OptExpr(c).value, body, OptBlock(body).value, st, fuel);
    case DoWhile(body, c) =>
      SameOptExpr(c);
      SameOptBlock(body);
      DoWhileKeeps(c, OptExpr(c).value, body, OptBlock(body).value, st, fuel);
    case For(site, n, coll, body) =>
      SameOptExpr(coll);
      SameOptBlock(body);
      ForStmtKeeps(site, n, coll, OptExpr(coll).value, body, OptBlock(body).value, st, fuel);
    case Assert(c, msg, line) =>
      OptExprKeeps(c, st);
      if msg.Some? && Eval(c, st).Val? {
        OptExprKeeps(msg.value, Eval(c, st).st);
      }
    case Raise(e) => OptExprKeeps(e, st);
    case _ =>
  }

  lemma OptSilence(e: Expr)
    requires OptExpr(e).Some?
    ensures IsSilent(OptExpr(e).value) == IsSilent(e)
  {}

  lemma OptSwitchKeeps(s: Stmt, st: State, fuel: nat)
    requires s.Switch? && OptParts(s).Some?
    ensures Exec(OptParts(s).value, st, fuel) == Exec(s, st, fuel)
    decreases StmtSize(s), 2
  {
    hide OptExpr, OptCases, Eval, ExecCase, EvalCases, OwnerCase, DefaultCase;
    OptExprKeeps(s.cond, st);
    var r := Eval(s.cond, st);
    if r.Val? {
      OptCasesEval(s.cases, r.st);
      var vs := EvalCases(s.cases, r.st);
      if vs.Vals? {
        OptCasesSelect(s.cases, FirstEqual(vs.vs, r.v));
        var k := SelectedCase(s.cases, vs.vs, r.v);
        if k.Some? {
          OptCasesRun(s.cases, k.value, vs.st, fuel);
        }
      }
    }
  }

  lemma {:induction false} OptCasesEval(cs: List<Case>, st: State)
    requires OptCases(cs).Some?
    ensures EvalCases(OptCases(cs).value, st) == EvalCases(cs, st)
    decreases cs
  {
    hide OptBlock, OptExprs, EvalAll;
    if cs.Cons? {
      if cs.head.Default? {
        OptCasesEval(cs.tail, st);
      } else {
        OptExprsKeep(cs.head.values, st);
        var a := EvalAll(cs.head.values, st);
        if a.Vals? {
          OptCasesEval(cs.tail, a.st);
        }
      }
    }
  }

  lemma {:induction false} OptCasesSelect(cs: List<Case>, i: nat)
    requires OptCases(cs).Some?
    ensures OwnerCase(OptCases(cs).value, i) == OwnerCase(cs, i) && DefaultCase(OptCases(cs).value) == DefaultCase(cs)
    decreases cs
  {
    hide OptBlock;
    if cs.Cons? {
      var n := if cs.head.Case? then Length(cs.head.values) else 0;
      if cs.head.Case? {
        OptExprsLength(cs.head.values);
      }
      OptCasesSelect(cs.tail, if i < n then 0 else i - n);
    }
  }

  lemma {:induction false} OptExprsLength(es: List<Expr>)
    requires OptExprs(es).Some?
    ensures Length(OptExprs(es).value) == Length(es)
  {
    hide OptExpr;
    if es.Cons? {
      OptExprsLength(es.tail);
    }
  }

  lemma {:induction false} OptCasesRun(cs: List<Case>, k: nat, st: State, fuel: nat)
    requires OptCases(cs).Some?
    ensures ExecCase(OptCases(cs).value, k, st, fuel) == ExecCase(cs, k, st, fuel)
    decreases CasesSize(cs), 3
  {
    hide OptBlock, OptExprs, Truncate, ExecBlock;
    if cs.Cons? {
      if k == 0 {
        SameBody(cs.head.body);
      } else {
        OptCasesRun(cs.tail, k - 1, st, fuel);
      }
    }
  }

  lemma OptStmtKeeps(s: Stmt, st: State, fuel: nat)
    requires OptStmt(s).Some?
    ensures ExecBlock(OptStmt(s).value, st, fuel) == ExecBlock(Cons(s, Empty), st, fuel)
    decreases StmtSize(s), 4
  {
    hide OptParts, Passes, Exec;
    PassesKeep(s, st, fuel);
    if Passes(s).Some? {
      var s1 := Passes(s).value;
      OptPartsKeep(s1, st, fuel);
      PassesKeep(OptParts(s1).value, st, fuel);
    }
  }

  lemma {:induction false} ExecAppend(x: List<Stmt>, y: List<Stmt>, st: State, fuel: nat)
    ensures ExecBlock(Append(x, y), st, fuel)
         == (match ExecBlock(x, st, fuel) case Norm(st1) => ExecBlock(y, st1, fuel) case other => other)
    decreases x
  {
    if x.Cons? {
      hide Exec;
      var r := Exec(x.head, st, fuel);
      if r.Norm? {
        ExecAppend(x.tail, y, r.st, fuel);
      }
    }
  }

  /** The optimizer keeps the meaning of every block, for any amount of fuel. */
  lemma {:induction false} OptBlockKeeps(b: List<Stmt>, st: State, fuel: nat)
    requires OptBlock(b).Some?
    ensures ExecBlock(OptBlock(b).value, st, fuel) == ExecBlock(b, st, fuel)
    decreases BlockSize(b), 0
  {
    if b.Cons? {
      hide OptStmt, Exec;
      OptStmtKeeps(b.head, st, fuel);
      ExecAppend(OptStmt(b.head).value, OptBlock(b.tail).value, st, fuel);
      var r := Exec(b.head, st, fuel);
      if r.Norm? {
        OptBlockKeeps(b.tail, r.st, fuel);
      }
    }
  }
}
